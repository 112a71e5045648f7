/** Visual Basic for Applications string expressions as the generators write
    them: `sanitizeAsVBAString`, and the value such an expression takes when the
    generated function runs, which is what the escaping has to preserve. */
module Vba {
  import opened Text

  /** The rewrite of `sanitizeAsVBAString` on one character. */
  function Doubled(c: char): string
  {
    if c == '"' then "\"\"" else [c]
  }

  /** `sanitizeAsVBAString` (app/generateVBA.ts), `payload.replace(/"/g, '""')`:
      every `"` becomes `""` and nothing else changes. */
  function DoubleQuotes(s: string): (r: string)
    ensures |r| == |s| + multiset(s)['"']
    ensures '"' !in s ==> r == s
  {
    DoubledLength(s);
    DoubledFixed(s);
    MapChars(Doubled, s)
  }

  /** Reading back a doubled text outside any literal: every `""` collapses
      to `"`, every other character is kept. */
  function Undouble(s: string): string
    decreases |s|
  {
    if |s| == 0 then ""
    else if |s| >= 2 && s[0] == '"' && s[1] == '"' then "\"" + Undouble(s[2..])
    else [s[0]] + Undouble(s[1..])
  }

  /** Doubling loses nothing: collapsing `""` back recovers every text, line
      breaks and all. */
  lemma {:induction false} UndoubleDoubleQuotes(s: string)
    ensures Undouble(DoubleQuotes(s)) == s
  {
    if |s| > 0 {
      var rest := DoubleQuotes(s[1..]);
      assert DoubleQuotes(s) == Doubled(s[0]) + rest;
      UndoubleDoubleQuotes(s[1..]);
      if s[0] == '"' {
        assert (Doubled(s[0]) + rest)[2..] == rest;
      } else {
        assert (Doubled(s[0]) + rest)[1..] == rest;
      }
      assert s == [s[0]] + s[1..];
    }
  }

  lemma DoubledFixed(s: string)
    ensures '"' !in s ==> MapChars(Doubled, s) == s
  {
    if '"' !in s {
      MapCharsFixed(Doubled, s);
    }
  }

  lemma {:induction false} DoubledLength(s: string)
    ensures |MapChars(Doubled, s)| == |s| + multiset(s)['"']
  {
    if |s| > 0 {
      DoubledLength(s[1..]);
      assert s == [s[0]] + s[1..];
      assert multiset(s) == multiset{s[0]} + multiset(s[1..]);
    }
  }

  /** Doubling is transparent to any pattern without a quote: it neither creates
      nor destroys its occurrences. */
  lemma DoubledTransparent(p: string)
    requires '"' !in p
    ensures Transparent(Doubled, p)
  {
  }

  /** The value of the generated function's `prompt` parameter when it runs. */
  datatype Env = Env(prompt: string)

  /** The value of a VBA string expression `operand & operand & ...` where an
      operand is a literal `"..."` (with `""` standing for one quote), the
      parameter `prompt` or the constant `vbCrLf`; None when the text is not
      such an expression. Operands are joined by `" & "` exactly as the
      generators write them. */
  function Operand(s: string, env: Env): Option<string>
    decreases |s|
  {
    if StartsWith(s, "\"") then InLiteral(s[1..], env)
    else if StartsWith(s, "prompt") then Prepend(env.prompt, AfterOperand(s[6..], env))
    else if StartsWith(s, "vbCrLf") then Prepend("\r\n", AfterOperand(s[6..], env))
    else None
  }

  /** The rest of a literal, after its opening quote, and what follows it. A
      literal ends at the end of its line: a CR or LF inside it leaves the
      expression without a value. */
  function InLiteral(s: string, env: Env): Option<string>
    decreases |s|
  {
    if |s| == 0 then None
    else if s[0] == '\r' || s[0] == '\n' then None
    else if s[0] == '"' then
      if |s| >= 2 && s[1] == '"' then Prepend("\"", InLiteral(s[2..], env))
      else AfterOperand(s[1..], env)
    else Prepend([s[0]], InLiteral(s[1..], env))
  }

  /** What may follow an operand: the end of the expression or `" & "` and a
      further operand. */
  function AfterOperand(s: string, env: Env): Option<string>
    decreases |s|
  {
    if |s| == 0 then Some("")
    else if StartsWith(s, " & ") then Operand(s[3..], env)
    else None
  }

  /** A text that fits on one line of a module. */
  predicate OneLine(s: string)
  {
    '\r' !in s && '\n' !in s
  }

  lemma OneLineTail(s: string)
    requires |s| > 0 && OneLine(s)
    ensures s[0] != '\r' && s[0] != '\n' && OneLine(s[1..])
  {
    assert s == [s[0]] + s[1..];
  }

  lemma OneLineSlice(s: string, i: nat, j: nat)
    requires i <= j <= |s| && OneLine(s)
    ensures OneLine(s[i..j])
  {
    forall k | 0 <= k < j - i
      ensures s[i..j][k] != '\r' && s[i..j][k] != '\n'
    {
      assert s[i..j][k] == s[i + k];
    }
  }

  /** A text of characters from the space up holds no line break. */
  lemma PrintableOneLine(s: string)
    requires Printable(s)
    ensures OneLine(s)
  {
    assert forall k :: 0 <= k < |s| ==> s[k] != '\r' && s[k] != '\n';
  }

  /** Reading a doubled one-line text inside a literal yields the original
      text. */
  lemma {:induction false} InLiteralDoubled(a: string, t: string, env: Env)
    requires OneLine(a)
    ensures InLiteral(DoubleQuotes(a) + t, env) == Prepend(a, InLiteral(t, env))
  {
    if |a| == 0 {
      assert DoubleQuotes(a) + t == t;
      PrependEmpty(InLiteral(t, env));
    } else {
      var s := DoubleQuotes(a) + t;
      var rest := DoubleQuotes(a[1..]) + t;
      OneLineTail(a);
      assert DoubleQuotes(a) == Doubled(a[0]) + DoubleQuotes(a[1..]);
      assert s == Doubled(a[0]) + rest;
      InLiteralDoubled(a[1..], t, env);
      PrependTwice([a[0]], a[1..], InLiteral(t, env));
      assert a == [a[0]] + a[1..];
      if a[0] == '"' {
        assert s[0] == '"' && s[1] == '"';
        assert s[2..] == rest;
        assert InLiteral(s, env) == Prepend("\"", InLiteral(rest, env));
      } else {
        assert s[0] == a[0];
        assert s[1..] == rest;
        assert InLiteral(s, env) == Prepend([a[0]], InLiteral(rest, env));
      }
    }
  }

  /** Text between the quotes of a literal. */
  function Quoted(body: string): string
  {
    "\"" + body + "\""
  }

  /** A line break inside a literal leaves it without a value, whatever
      follows. */
  lemma {:induction false} InLiteralBroken(a: string, t: string, env: Env)
    requires !OneLine(a)
    ensures InLiteral(DoubleQuotes(a) + t, env) == None
  {
    if a[0] == '\r' || a[0] == '\n' {
      BrokenFirst(a, t, env);
    } else {
      assert a == [a[0]] + a[1..];
      InLiteralBroken(a[1..], t, env);
      BrokenLater(a, t, env);
    }
  }

  /** A doubled text whose first character is a line break. */
  lemma BrokenFirst(a: string, t: string, env: Env)
    requires |a| > 0 && (a[0] == '\r' || a[0] == '\n')
    ensures InLiteral(DoubleQuotes(a) + t, env) == None
  {
    var s := DoubleQuotes(a) + t;
    assert DoubleQuotes(a) == Doubled(a[0]) + DoubleQuotes(a[1..]);
    assert s[0] == a[0];
    BrokenAtHead(s, env);
  }

  /** A doubled text whose tail already leaves the literal without a value. */
  lemma BrokenLater(a: string, t: string, env: Env)
    requires |a| > 0 && a[0] != '\r' && a[0] != '\n'
    requires InLiteral(DoubleQuotes(a[1..]) + t, env) == None
    ensures InLiteral(DoubleQuotes(a) + t, env) == None
  {
    var rest := DoubleQuotes(a[1..]) + t;
    MapCharsHead(Doubled, a);
    assert DoubleQuotes(a) + t == Doubled(a[0]) + rest;
    Split(Doubled(a[0]), rest);
    if a[0] == '"' {
      BrokenAfterPair(Doubled(a[0]) + rest, rest, env);
    } else {
      BrokenAfterChar(Doubled(a[0]) + rest, rest, env);
    }
  }

  lemma BrokenAtHead(s: string, env: Env)
    requires |s| > 0 && (s[0] == '\r' || s[0] == '\n')
    ensures InLiteral(s, env) == None
  {
  }

  lemma BrokenAfterPair(s: string, rest: string, env: Env)
    requires |s| >= 2 && s[0] == '"' && s[1] == '"' && s[2..] == rest && InLiteral(rest, env) == None
    ensures InLiteral(s, env) == None
  {
  }

  lemma BrokenAfterChar(s: string, rest: string, env: Env)
    requires |s| > 0 && s[0] != '"' && s[0] != '\r' && s[0] != '\n' && s[1..] == rest
    requires InLiteral(rest, env) == None
    ensures InLiteral(s, env) == None
  {
  }

  /** A VBA string literal of the doubled text, as `apiKey = "${apiKey}"` writes
      it, has the original text as its value when the text fits on one line,
      and no value when it holds a line break. */
  lemma LiteralBroken(s: string, env: Env)
    requires !OneLine(s)
    ensures Operand(Quoted(DoubleQuotes(s)), env) == None
  {
    var e := Quoted(DoubleQuotes(s));
    assert StartsWith(e, "\"");
    assert e[1..] == DoubleQuotes(s) + "\"";
    InLiteralBroken(s, "\"", env);
  }

  lemma LiteralValue(s: string, env: Env)
    requires OneLine(s)
    ensures Operand(Quoted(DoubleQuotes(s)), env) == Some(s)
  {
    LiteralOperand(DoubleQuotes(s), env);
    InLiteralDoubled(s, "\"", env);
    ClosingQuote(env);
    assert s + "" == s;
  }

  /** A literal is read from just after its opening quote. */
  lemma LiteralOperand(body: string, env: Env)
    ensures Operand(Quoted(body), env) == InLiteral(body + "\"", env)
  {
    var e := Quoted(body);
    assert StartsWith(e, "\"");
    assert e[1..] == body + "\"";
  }

  /** A closing quote ends the literal and the expression. */
  lemma ClosingQuote(env: Env)
    ensures InLiteral("\"", env) == Some("")
  {
    assert "\""[1..] == "";
    assert InLiteral("\"", env) == AfterOperand("", env);
  }

  /** `'" & prompt & "'`: closes a literal, appends the parameter and reopens. */
  const PromptSplice: string := "\" & prompt & \""

  /** `'" & vbCrLf & "'`: closes a literal, appends a CR LF pair and reopens. */
  const CrLfSplice: string := "\" & vbCrLf & \""

  lemma Split(p: string, t: string)
    ensures StartsWith(p + t, p) && (p + t)[|p|..] == t
  {
    assert (p + t)[..|p|] == p;
  }

  lemma LiteralCloses(s: string, env: Env)
    requires |s| >= 2 && s[0] == '"' && s[1] != '"'
    ensures InLiteral(s, env) == AfterOperand(s[1..], env)
  {
  }

  lemma Joined(s: string, env: Env)
    requires StartsWith(s, " & ")
    ensures AfterOperand(s, env) == Operand(s[3..], env)
  {
  }

  lemma NamedPrompt(s: string, env: Env)
    requires StartsWith(s, "prompt")
    ensures Operand(s, env) == Prepend(env.prompt, AfterOperand(s[6..], env))
  {
    assert !StartsWith(s, "\"") by {
      assert s[0] == 'p';
    }
  }

  lemma NamedCrLf(s: string, env: Env)
    requires StartsWith(s, "vbCrLf")
    ensures Operand(s, env) == Prepend("\r\n", AfterOperand(s[6..], env))
  {
    assert !StartsWith(s, "\"") && !StartsWith(s, "prompt") by {
      assert s[0] == 'v';
    }
  }

  lemma LiteralOpens(s: string, env: Env)
    requires StartsWith(s, "\"")
    ensures Operand(s, env) == InLiteral(s[1..], env)
  {
  }

  lemma InLiteralPromptSplice(t: string, env: Env)
    ensures InLiteral(PromptSplice + t, env) == Prepend(env.prompt, InLiteral(t, env))
  {
    SpliceParts();
    Nest("\"", " & ", "prompt", " & ", "\"", t);
    SpliceChain("prompt", t, env);
  }

  lemma InLiteralCrLfSplice(t: string, env: Env)
    ensures InLiteral(CrLfSplice + t, env) == Prepend("\r\n", InLiteral(t, env))
  {
    SpliceParts();
    Nest("\"", " & ", "vbCrLf", " & ", "\"", t);
    SpliceChain("vbCrLf", t, env);
  }

  lemma SpliceParts()
    ensures PromptSplice == "\"" + " & " + "prompt" + " & " + "\""
    ensures CrLfSplice == "\"" + " & " + "vbCrLf" + " & " + "\""
  {
  }

  lemma Nest(a: string, b: string, c: string, d: string, e: string, t: string)
    ensures a + b + c + d + e + t == a + (b + (c + (d + (e + t))))
  {
  }

  /** A splice `" & name & "` closes the literal, adds the named value and
      reopens the literal. */
  lemma SpliceChain(name: string, t: string, env: Env)
    requires name == "prompt" || name == "vbCrLf"
    ensures InLiteral("\"" + (" & " + (name + (" & " + ("\"" + t)))), env)
         == Prepend(if name == "prompt" then env.prompt else "\r\n", InLiteral(t, env))
  {
    var s4 := "\"" + t;
    var s3 := " & " + s4;
    var s2 := name + s3;
    var s1 := " & " + s2;
    var s := "\"" + s1;
    Split("\"", s1);
    assert s1[0] == ' ';
    LiteralCloses(s, env);
    Split(" & ", s2);
    Joined(s1, env);
    Split(name, s3);
    if name == "prompt" {
      NamedPrompt(s2, env);
    } else {
      NamedCrLf(s2, env);
    }
    Split(" & ", s4);
    Joined(s3, env);
    Split("\"", t);
    LiteralOpens(s4, env);
  }

  /** A literal with the prompt spliced in takes the value of `prompt` at the
      splice. */
  lemma SplicedLiteralValue(pre: string, post: string, env: Env)
    requires OneLine(pre) && OneLine(post)
    ensures Operand(Quoted(DoubleQuotes(pre) + PromptSplice + DoubleQuotes(post)), env)
         == Some(pre + env.prompt + post)
  {
    var d := DoubleQuotes(post) + "\"";
    LiteralOperand(DoubleQuotes(pre) + PromptSplice + DoubleQuotes(post), env);
    assert DoubleQuotes(pre) + PromptSplice + DoubleQuotes(post) + "\"" == DoubleQuotes(pre) + (PromptSplice + d);
    InLiteralDoubled(pre, PromptSplice + d, env);
    InLiteralPromptSplice(d, env);
    InLiteralDoubled(post, "\"", env);
    ClosingQuote(env);
    PrependTwice(env.prompt, post, Some(""));
    PrependTwice(pre, env.prompt + post, Some(""));
    assert pre + (env.prompt + post) + "" == pre + env.prompt + post;
  }

  /** Doubling the quotes of `j` and then splicing `prompt` in place of the
      first occurrence of a quote-free `s` gives a literal whose value is `j`
      with that occurrence replaced by the value of `prompt`. */
  lemma SpliceValue(j: string, s: string, env: Env)
    requires |s| > 0 && '"' !in s && OneLine(j)
    ensures Operand(Quoted(ReplaceFirst(DoubleQuotes(j), s, PromptSplice)), env)
         == Some(ReplaceFirst(j, s, env.prompt))
  {
    DoubledTransparent(s);
    if FindFirst(j, s).None? {
      ReplaceFirstMapCharsNone(Doubled, j, s, PromptSplice);
      LiteralValue(j, env);
    } else {
      SpliceValueAt(j, s, env, FindFirst(j, s).value);
    }
  }

  lemma SpliceValueAt(j: string, s: string, env: Env, i: nat)
    requires |s| > 0 && '"' !in s && OneLine(j) && FindFirst(j, s) == Some(i)
    ensures Operand(Quoted(ReplaceFirst(DoubleQuotes(j), s, PromptSplice)), env)
         == Some(ReplaceFirst(j, s, env.prompt))
  {
    var pre, post := j[..i], j[i + |s|..];
    DoubledTransparent(s);
    ReplaceFirstMapChars(Doubled, j, s, PromptSplice, i);
    assert ReplaceFirst(DoubleQuotes(j), s, PromptSplice) == DoubleQuotes(pre) + PromptSplice + DoubleQuotes(post);
    ReplaceFound(j, s, env.prompt, i);
    OneLineSlice(j, 0, i);
    OneLineSlice(j, i + |s|, |j|);
    SplicedLiteralValue(pre, post, env);
  }
}
