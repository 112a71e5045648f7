/** The older, self-contained generator of app/page.tsx: `sanitizeVBA`, the
    function-name pattern and the gpt-4 module it writes. */
module LegacyPage {
  import opened Text
  import opened Vba
  import opened Json
  import opened GenerateVba

  /** `input.replace(/\r\n|\n|\r/g, '" & vbCrLf & "')`: the alternation tries
      CR LF first, so a CR LF pair is one break; a lone CR or LF is one too. */
  function SpliceLineBreaks(s: string): (r: string)
    decreases |s|
    ensures '\r' !in r && '\n' !in r
    ensures '\r' !in s && '\n' !in s ==> r == s
  {
    if |s| == 0 then ""
    else if |s| >= 2 && s[0] == '\r' && s[1] == '\n' then CrLfSplice + SpliceLineBreaks(s[2..])
    else if s[0] == '\r' || s[0] == '\n' then CrLfSplice + SpliceLineBreaks(s[1..])
    else
      assert s == [s[0]] + s[1..];
      [s[0]] + SpliceLineBreaks(s[1..])
  }

  /** The text a VBA literal carrying `s` holds once `vbCrLf` is read: every
      line break of `s`, in any of the three spellings, becomes CR LF. */
  function NormalizeLineBreaks(s: string): (r: string)
    decreases |s|
    ensures '\r' !in s && '\n' !in s ==> r == s
  {
    if |s| == 0 then ""
    else if |s| >= 2 && s[0] == '\r' && s[1] == '\n' then "\r\n" + NormalizeLineBreaks(s[2..])
    else if s[0] == '\r' || s[0] == '\n' then "\r\n" + NormalizeLineBreaks(s[1..])
    else
      assert s == [s[0]] + s[1..];
      [s[0]] + NormalizeLineBreaks(s[1..])
  }

  /** `sanitizeVBA` (app/page.tsx:12-18): double the quotes, then splice a
      `vbCrLf` in place of each line break. Its result fits on one line of
      the module, and a text with neither quotes nor breaks is kept. */
  function SanitizeVBA(s: string): (r: string)
    ensures '\r' !in r && '\n' !in r
    ensures '"' !in s && '\r' !in s && '\n' !in s ==> r == s
  {
    var d := DoubleQuotes(s);
    DoubledKeepsBreaks(s);
    SpliceLineBreaks(d)
  }

  /** Doubling adds and removes no line break. */
  lemma {:induction false} DoubledKeepsBreaks(s: string)
    ensures forall c :: c != '"' ==> (c in DoubleQuotes(s) <==> c in s)
  {
    if |s| > 0 {
      DoubledKeepsBreaks(s[1..]);
      assert DoubleQuotes(s) == Doubled(s[0]) + DoubleQuotes(s[1..]);
      assert s == [s[0]] + s[1..];
    }
  }

  /** How `sanitizeVBA` treats the first character (or CR LF pair) of `s`. */
  lemma SanitizeStep(s: string)
    requires |s| > 0
    ensures s[0] == '"' ==> SanitizeVBA(s) == "\"\"" + SanitizeVBA(s[1..])
    ensures |s| >= 2 && s[0] == '\r' && s[1] == '\n' ==> SanitizeVBA(s) == CrLfSplice + SanitizeVBA(s[2..])
    ensures (s[0] == '\r' && (|s| == 1 || s[1] != '\n')) || s[0] == '\n' ==>
      SanitizeVBA(s) == CrLfSplice + SanitizeVBA(s[1..])
    ensures s[0] != '"' && s[0] != '\r' && s[0] != '\n' ==> SanitizeVBA(s) == [s[0]] + SanitizeVBA(s[1..])
  {
    var rest := DoubleQuotes(s[1..]);
    assert DoubleQuotes(s) == Doubled(s[0]) + rest;
    if s[0] == '"' {
      QuoteStep(rest);
    } else if |s| >= 2 && s[0] == '\r' && s[1] == '\n' {
      assert DoubleQuotes(s[1..]) == "\n" + DoubleQuotes(s[2..]);
      assert DoubleQuotes(s) == "\r\n" + DoubleQuotes(s[2..]);
      BreakStep("\r\n" + DoubleQuotes(s[2..]), 2);
    } else if s[0] == '\r' || s[0] == '\n' {
      if |s| >= 2 && s[0] == '\r' {
        assert rest == Doubled(s[1]) + DoubleQuotes(s[2..]);
        assert Doubled(s[1])[0] != '\n';
        assert rest[0] != '\n';
      }
      BreakStep([s[0]] + rest, 1);
    } else {
      assert (Doubled(s[0]) + rest)[1..] == rest;
    }
  }

  lemma QuoteStep(rest: string)
    ensures SpliceLineBreaks("\"\"" + rest) == "\"\"" + SpliceLineBreaks(rest)
  {
    PlainStep('"', rest);
    PlainStep('"', ['"'] + rest);
    assert "\"\"" + rest == ['"'] + (['"'] + rest);
  }

  /** A character other than CR and LF passes through unchanged. */
  lemma PlainStep(c: char, rest: string)
    requires c != '\r' && c != '\n'
    ensures SpliceLineBreaks([c] + rest) == [c] + SpliceLineBreaks(rest)
  {
    assert ([c] + rest)[1..] == rest;
  }

  lemma BreakStep(t: string, n: nat)
    requires n == 1 || n == 2
    requires n <= |t| && (t[0] == '\r' || t[0] == '\n')
    requires n == 2 <==> (|t| >= 2 && t[0] == '\r' && t[1] == '\n')
    ensures SpliceLineBreaks(t) == CrLfSplice + SpliceLineBreaks(t[n..])
  {
  }

  /** Inside a VBA literal, a sanitised text reads back as the text with its
      line breaks made CR LF: the quotes come back single and each spliced
      `vbCrLf` contributes its CR LF pair. */
  lemma {:induction false} SanitizedRead(s: string, t: string, env: Env)
    decreases |s|
    ensures InLiteral(SanitizeVBA(s) + t, env) == Prepend(NormalizeLineBreaks(s), InLiteral(t, env))
  {
    if |s| == 0 {
      assert SanitizeVBA(s) + t == t;
      PrependEmpty(InLiteral(t, env));
    } else {
      var n := if |s| >= 2 && s[0] == '\r' && s[1] == '\n' then 2 else 1;
      SanitizedRead(s[n..], t, env);
      SanitizeStep(s);
      var y, m := SanitizeVBA(s[n..]), NormalizeLineBreaks(s[n..]);
      if s[0] == '"' {
        assert NormalizeLineBreaks(s) == "\"" + m;
        QuoteRead(SanitizeVBA(s), y, t, m, InLiteral(t, env), env);
      } else if s[0] == '\r' || s[0] == '\n' {
        assert NormalizeLineBreaks(s) == "\r\n" + m;
        BreakRead(SanitizeVBA(s), y, t, m, InLiteral(t, env), env);
      } else {
        assert NormalizeLineBreaks(s) == [s[0]] + m;
        PlainRead(s[0], SanitizeVBA(s), y, t, m, InLiteral(t, env), env);
      }
    }
  }

  /** A doubled quote reads back as one quote. */
  lemma QuoteRead(x: string, y: string, t: string, m: string, w: Option<string>, env: Env)
    requires x == "\"\"" + y
    requires InLiteral(y + t, env) == Prepend(m, w)
    ensures InLiteral(x + t, env) == Prepend("\"" + m, w)
  {
    var u := x + t;
    assert u[0] == '"' && u[1] == '"' && u[2..] == y + t;
    PrependTwice("\"", m, w);
  }

  /** A spliced `vbCrLf` reads back as CR LF. */
  lemma BreakRead(x: string, y: string, t: string, m: string, w: Option<string>, env: Env)
    requires x == CrLfSplice + y
    requires InLiteral(y + t, env) == Prepend(m, w)
    ensures InLiteral(x + t, env) == Prepend("\r\n" + m, w)
  {
    assert x + t == CrLfSplice + (y + t);
    InLiteralCrLfSplice(y + t, env);
    PrependTwice("\r\n", m, w);
  }

  /** Any other character reads back as itself. */
  lemma PlainRead(c: char, x: string, y: string, t: string, m: string, w: Option<string>, env: Env)
    requires c != '"' && c != '\r' && c != '\n' && x == [c] + y
    requires InLiteral(y + t, env) == Prepend(m, w)
    ensures InLiteral(x + t, env) == Prepend([c] + m, w)
  {
    var u := x + t;
    assert u[0] == c && u[1..] == y + t;
    PrependTwice([c], m, w);
  }

  /** A VBA literal of a sanitised text has the text, breaks made CR LF, as
      its value. */
  lemma SanitizedValue(s: string, env: Env)
    ensures Operand(Quoted(SanitizeVBA(s)), env) == Some(NormalizeLineBreaks(s))
  {
    var e := Quoted(SanitizeVBA(s));
    assert StartsWith(e, "\"");
    assert e[1..] == SanitizeVBA(s) + "\"";
    SanitizedRead(s, "\"", env);
    assert "\""[1..] == "";
    assert InLiteral("\"", env) == AfterOperand("", env) == Some("");
    assert NormalizeLineBreaks(s) + "" == NormalizeLineBreaks(s);
  }

  /** A character of the class `[a-zA-Z0-9_]`. */
  predicate IsWordChar(c: char)
  {
    ('a' <= c <= 'z') || ('A' <= c <= 'Z') || ('0' <= c <= '9') || c == '_'
  }

  /** How many characters from the start of `s` the class `[a-zA-Z0-9_]+`
      consumes. */
  function WordRun(s: string): (n: nat)
    decreases |s|
    ensures n <= |s|
  {
    if |s| > 0 && IsWordChar(s[0]) then 1 + WordRun(s[1..]) else 0
  }

  /** `/^[a-zA-Z0-9_]+$/.test(name)`: the run is nonempty and reaches the end. */
  predicate MatchesNamePattern(name: string)
  {
    0 < WordRun(name) == |name|
  }

  lemma {:induction false} WordRunAll(s: string)
    decreases |s|
    ensures WordRun(s) == |s| <==> forall k :: 0 <= k < |s| ==> IsWordChar(s[k])
  {
    if |s| > 0 {
      WordRunAll(s[1..]);
      assert forall k :: 1 <= k < |s| ==> s[k] == s[1..][k - 1];
    }
  }

  /** The pattern accepts exactly the nonempty names made of ASCII letters,
      digits and underscores; a space, which the error message claims to
      allow, is refused, and so is the empty name. */
  lemma NamePattern(name: string)
    ensures MatchesNamePattern(name) <==> |name| > 0 && forall k :: 0 <= k < |name| ==> IsWordChar(name[k])
    ensures ' ' in name ==> !MatchesNamePattern(name)
  {
    WordRunAll(name);
  }

  /** An accepted name passes through `sanitizeVBA` unchanged, so the
      declaration carries it as typed. */
  lemma ValidNameKept(name: string)
    requires MatchesNamePattern(name)
    ensures SanitizeVBA(name) == name
  {
    NamePattern(name);
  }

  const NameError: string := "関数名には英数字、アンダースコア、スペースのみ使用できます。"

  /** The line above the two runtime `Replace` calls. */
  const EscapeComment: string := "    ' プロンプト内の特殊文字をエスケープ"

  /** A `Replace(prompt, find, replacement)` assignment. */
  function ReplaceLine(find: string, replacement: string): string
  {
    "    prompt = Replace(prompt, " + find + ", " + replacement + ")"
  }

  /** app/page.tsx:50-51 as the template literal produces them: inside
      backquotes `\"` is a quote and `\\` one backslash, so the first call
      reads `Replace(prompt, "", "\")` and the second
      `Replace(prompt, """", """")`. */
  const PromptEscapes: seq<string> := [
    ReplaceLine("\"\"", "\"\\\""),
    ReplaceLine("\"\"\"\"", "\"\"\"\"")]

  /** The arguments the generated calls pass: the first looks for the empty
      text, the second replaces a quote by a quote, so neither escapes the
      prompt before it joins the payload. */
  lemma PromptEscapeArguments(env: Env)
    ensures PromptEscapes[0] == ReplaceLine(Quoted(""), Quoted("\\"))
    ensures PromptEscapes[1] == ReplaceLine(Quoted(DoubleQuotes("\"")), Quoted(DoubleQuotes("\"")))
    ensures Operand(Quoted(""), env) == Some("")
    ensures Operand(Quoted("\\"), env) == Some("\\")
    ensures Operand(Quoted(DoubleQuotes("\"")), env) == Some("\"")
  {
    LiteralValue("", env);
    LiteralValue("\\", env);
    LiteralValue("\"", env);
    assert DoubleQuotes("") == "";
    assert DoubleQuotes("\\") == "\\";
    assert DoubleQuotes("\"") == Doubled('"') + DoubleQuotes("") == "\"\"";
  }

  /** The JSON text of app/page.tsx:54 around the system prompt and the
      prompt. The source writes it with its quotes already doubled. */
  const SystemHead: string := "{" + "\"model\":\"gpt-4\"," + "\"messages\":[" + "{\"role\":\"" + "system" + "\",\"content\":\""
  const UserHead: string := "\"}" + "," + "{\"role\":\"" + "user" + "\",\"content\":\""
  const RequestTail: string := "\"}" + "]}"

  /** The body of the `data` literal, given the sanitised system prompt. */
  function LegacyPayload(systemPrompt: string): string
  {
    DoubleQuotes(SystemHead) + systemPrompt + DoubleQuotes(UserHead) + PromptSplice + DoubleQuotes(RequestTail)
  }

  /** app/page.tsx:35-54: the declarations, the URL, the key, the two
      `Replace` calls and the payload, given the sanitised key and the body
      of the `data` literal. */
  function LegacySetup(apiKey: string, payload: string): seq<string>
  {
    Declarations
    + [OpenAIUrlLine]
    + KeyComment
    + [KeyLine(apiKey)]
    + ["", EscapeComment]
    + PromptEscapes
    + DataComment
    + [DataLine(payload)]
  }

  /** app/page.tsx:55-91: the request, the response and the error handler. */
  const LegacyExchange: seq<string> :=
    RequestSetup
    + [AuthLine(OpenAI)]
    + Exchange
    + [ResultLine("ChatCompletion")]
    + Cleanup
    + [ErrorLine("ChatCompletion")]
    + ["End Function"]

  /** The lines of the script after its first (the declaration). */
  function LegacyRest(apiKey: string, payload: string): seq<string>
  {
    LegacySetup(apiKey, payload) + LegacyExchange
  }

  /** app/page.tsx:34-91, from `Function` to `End Function`. */
  function LegacyBody(name: string, apiKey: string, payload: string): seq<string>
  {
    [DeclLine(name)] + LegacyRest(apiKey, payload)
  }

  /** The whole template literal of app/page.tsx:32-94, one string per line:
      two empty lines before the body, and two empty lines and four spaces
      after it. */
  function LegacyTemplate(name: string, apiKey: string, payload: string): seq<string>
  {
    ["", ""] + LegacyBody(name, apiKey, payload) + ["", "", "    "]
  }

  /** The script `generateVBAScript` stores: the template over the sanitised
      inputs, trimmed. */
  function LegacyScript(functionName: string, apiKey: string, systemPrompt: string): string
  {
    Trim(JoinLines(LegacyTemplate(SanitizeVBA(functionName), SanitizeVBA(apiKey), LegacyPayload(SanitizeVBA(systemPrompt)))))
  }

  /** Where the inputs land, and the hard-coded name `ChatCompletion` on both
      return assignments (app/page.tsx:34, 44, 47, 54, 63, 82, 90). */
  lemma LegacySlots(name: string, apiKey: string, payload: string)
    ensures var b := LegacyBody(name, apiKey, payload);
      |b| == 58 && b[0] == DeclLine(name) && b[10] == OpenAIUrlLine && b[13] == KeyLine(apiKey)
      && b[16] == PromptEscapes[0] && b[17] == PromptEscapes[1]
      && b[20] == DataLine(payload) && b[29] == AuthLine(OpenAI)
      && b[48] == ResultLine("ChatCompletion") && b[56] == ErrorLine("ChatCompletion")
      && b[57] == "End Function"
  {
    var u := LegacySetup(apiKey, payload);
    SetupSlots(apiKey, payload);
    ExchangeSlots();
    var b := LegacyBody(name, apiKey, payload);
    assert b == [DeclLine(name)] + u + LegacyExchange;
    assert forall i :: 21 <= i < 58 ==> b[i] == LegacyExchange[i - 21];
  }

  lemma SetupSlots(apiKey: string, payload: string)
    ensures var u := LegacySetup(apiKey, payload);
      |u| == 20 && u[9] == OpenAIUrlLine && u[12] == KeyLine(apiKey)
      && u[15] == PromptEscapes[0] && u[16] == PromptEscapes[1]
      && u[19] == DataLine(payload)
  {
  }

  lemma ExchangeSlots()
    ensures var e := LegacyExchange;
      |e| == 37 && e[8] == AuthLine(OpenAI) && e[27] == ResultLine("ChatCompletion")
      && e[35] == ErrorLine("ChatCompletion") && e[36] == "End Function"
  {
  }

  /** The function name reaches the declaration and no other line. */
  lemma LegacyNamePlaces(name: string, name': string, apiKey: string, payload: string)
    ensures var b, b' := LegacyBody(name, apiKey, payload), LegacyBody(name', apiKey, payload);
      |b| == |b'| && forall i :: 0 <= i < |b| ==> (b[i] != b'[i] <==> i == 0 && name != name')
  {
    if name != name' {
      NameLinesDiffer(name, name');
    }
    HeadDiffers(DeclLine(name), DeclLine(name'), LegacyRest(apiKey, payload));
  }

  lemma HeadDiffers(x: string, x': string, rest: seq<string>)
    ensures var b, b' := [x] + rest, [x'] + rest;
      |b| == |b'| && forall i :: 0 <= i < |b| ==> (b[i] != b'[i] <==> i == 0 && x != x')
  {
    var b, b' := [x] + rest, [x'] + rest;
    assert forall i :: 1 <= i < |b| ==> b[i] == rest[i - 1] == b'[i];
  }

  /** Trimming removes exactly the blank lines around the body. */
  lemma LegacyTrimmed(name: string, apiKey: string, payload: string)
    ensures Trim(JoinLines(LegacyTemplate(name, apiKey, payload)))
         == JoinLines(LegacyBody(name, apiKey, payload))
  {
    var b := LegacyBody(name, apiKey, payload);
    var x := JoinLines(b);
    LegacySlots(name, apiKey, payload);
    JoinLinesAppend(["", ""], b);
    JoinLinesAppend(["", ""] + b, ["", "", "    "]);
    assert JoinLines(["", ""]) == "\n";
    assert JoinLines(["", "", "    "]) == "\n\n    ";
    assert JoinLines(LegacyTemplate(name, apiKey, payload)) == "\n" + "\n" + x + "\n" + "\n\n    ";
    BodyEnds(b);
    Regroup("\n\n", x, "\n\n\n    ");
    TrimPadded("\n\n", x, "\n\n\n    ");
  }

  /** The stored script is the body over the sanitised inputs. */
  lemma LegacyScriptBody(functionName: string, apiKey: string, systemPrompt: string)
    ensures LegacyScript(functionName, apiKey, systemPrompt)
         == JoinLines(LegacyBody(SanitizeVBA(functionName), SanitizeVBA(apiKey), LegacyPayload(SanitizeVBA(systemPrompt))))
  {
    LegacyTrimmed(SanitizeVBA(functionName), SanitizeVBA(apiKey), LegacyPayload(SanitizeVBA(systemPrompt)));
  }

  /** The padded template text regrouped as leading blank lines, body and
      trailing white space. */
  lemma Regroup(w1: string, x: string, w2: string)
    requires w1 == "\n\n" && w2 == "\n\n\n    "
    ensures "\n" + "\n" + x + "\n" + "\n\n    " == w1 + x + w2
  {
  }

  lemma BodyEnds(b: seq<string>)
    requires |b| >= 2 && |b[0]| > 0 && b[0][0] == 'F' && b[|b| - 1] == "End Function"
    ensures var x := JoinLines(b); |x| > 0 && x[0] == 'F' && x[|x| - 1] == 'n'
  {
    var x := JoinLines(b);
    assert x == b[0] + "\n" + JoinLines(b[1..]);
    JoinLinesAppend(b[..|b| - 1], [b[|b| - 1]]);
    assert b[..|b| - 1] + [b[|b| - 1]] == b;
    assert x == JoinLines(b[..|b| - 1]) + "\n" + "End Function";
  }

  /** The `data` literal reads back as the JSON text with the system prompt
      (line breaks made CR LF) and the value of `prompt` in place. */
  lemma LegacyDataValue(systemPrompt: string, env: Env)
    ensures Operand(Quoted(LegacyPayload(SanitizeVBA(systemPrompt))), env)
         == Some(SystemHead + NormalizeLineBreaks(systemPrompt) + UserHead + env.prompt + RequestTail)
  {
    HeadsOneLine();
    PayloadRead(SystemHead, systemPrompt, UserHead, RequestTail, env);
  }

  lemma HeadsOneLine()
    ensures OneLine(SystemHead) && OneLine(UserHead) && OneLine(RequestTail)
  {
  }

  lemma PayloadRead(h: string, s: string, u: string, t: string, env: Env)
    requires OneLine(h) && OneLine(u) && OneLine(t)
    ensures Operand(Quoted(DoubleQuotes(h) + SanitizeVBA(s) + DoubleQuotes(u) + PromptSplice + DoubleQuotes(t)), env)
         == Some(h + NormalizeLineBreaks(s) + u + env.prompt + t)
  {
    var r2 := DoubleQuotes(u) + (PromptSplice + (DoubleQuotes(t) + "\""));
    TailRead(u, t, env);
    SanitizedRead(s, r2, env);
    var n := NormalizeLineBreaks(s);
    OpenRead(h, SanitizeVBA(s) + r2, n + (u + env.prompt + t), env);
    ReadShape(DoubleQuotes(h), SanitizeVBA(s), DoubleQuotes(u), PromptSplice, DoubleQuotes(t));
    ReadRegroup(h, n, u, env.prompt, t);
  }

  lemma ReadRegroup(h: string, n: string, u: string, e: string, t: string)
    ensures h + (n + (u + e + t)) == h + n + u + e + t
  {
  }

  /** A literal opening with a doubled text. */
  lemma OpenRead(h: string, r: string, v: string, env: Env)
    requires OneLine(h) && InLiteral(r, env) == Some(v)
    ensures Operand("\"" + (DoubleQuotes(h) + r), env) == Some(h + v)
  {
    var e := "\"" + (DoubleQuotes(h) + r);
    assert StartsWith(e, "\"") && e[1..] == DoubleQuotes(h) + r;
    InLiteralDoubled(h, r, env);
  }

  lemma ReadShape(a: string, b: string, c: string, d: string, f: string)
    ensures Quoted(a + b + c + d + f) == "\"" + (a + (b + (c + (d + (f + "\"")))))
  {
  }

  /** The end of the `data` literal: the user message head, the splice of
      `prompt` and the closing text. */
  lemma TailRead(u: string, t: string, env: Env)
    requires OneLine(u) && OneLine(t)
    ensures InLiteral(DoubleQuotes(u) + (PromptSplice + (DoubleQuotes(t) + "\"")), env)
         == Some(u + env.prompt + t)
  {
    var r4 := DoubleQuotes(t) + "\"";
    assert "\""[1..] == "";
    assert InLiteral("\"", env) == AfterOperand("", env) == Some("");
    InLiteralDoubled(t, "\"", env);
    assert t + "" == t;
    InLiteralPromptSplice(r4, env);
    InLiteralDoubled(u, PromptSplice + r4, env);
    assert u + (env.prompt + t) == u + env.prompt + t;
  }
}
