/** The part of `JSON.stringify` the generators rely on: strings, written as
    the QuoteJSONString operation of ECMA-262 writes them (section 7 of
    RFC 8259), the integers of the Azure request, and the two request shapes
    with their keys in insertion order. */
module Json {
  import opened Text

  /** The lowercase hexadecimal digit of `n`. */
  function HexDigit(n: nat): (c: char)
    requires n < 16
    ensures HexValue(c) == Some(n)
    ensures '0' <= c <= '9' || 'a' <= c <= 'f'
  {
    if n < 10 then ('0' as int + n) as char else ('a' as int + n - 10) as char
  }

  function HexValue(c: char): Option<nat>
  {
    if '0' <= c <= '9' then Some(c as int - '0' as int)
    else if 'a' <= c <= 'f' then Some(c as int - 'a' as int + 10)
    else if 'A' <= c <= 'F' then Some(c as int - 'A' as int + 10)
    else None
  }

  /** QuoteJSONString on one code point: the seven short escapes, `\u00xx` for
      the other control characters, every other character as it is. */
  function EscapeChar(c: char): string
  {
    if c == '\U{0008}' then "\\b"
    else if c == '\t' then "\\t"
    else if c == '\n' then "\\n"
    else if c == '\U{000C}' then "\\f"
    else if c == '\r' then "\\r"
    else if c == '"' then "\\\""
    else if c == '\\' then "\\\\"
    else if c < ' ' then "\\u00" + [HexDigit(c as int / 16), HexDigit(c as int % 16)]
    else [c]
  }

  /** The text between the quotes of a serialised string. It holds no control
      character, and every quote in it is escaped. */
  function EscapeBody(s: string): (r: string)
    ensures forall k :: 0 <= k < |r| ==> ' ' <= r[k]
    ensures forall k :: 0 <= k < |r| && r[k] == '"' ==> 0 < k && r[k - 1] == '\\'
  {
    EscapedChars(s);
    MapChars(EscapeChar, s)
  }

  /** The escape of one character has no control character, does not start
      with a quote, and has a backslash before any quote it holds. */
  predicate EscapedText(r: string)
  {
    (forall k :: 0 <= k < |r| ==> ' ' <= r[k]) &&
    (|r| > 0 ==> r[0] != '"') &&
    (forall k :: 0 <= k < |r| && r[k] == '"' ==> 0 < k && r[k - 1] == '\\')
  }

  lemma EscapeCharEscaped(c: char)
    ensures EscapedText(EscapeChar(c))
  {
    var h := EscapeChar(c);
    if c < ' ' && |h| == 6 {
      assert h[4] == HexDigit(c as int / 16) && h[5] == HexDigit(c as int % 16);
    }
  }

  lemma EscapedConcat(h: string, t: string)
    requires EscapedText(h) && EscapedText(t)
    ensures EscapedText(h + t)
  {
    var r := h + t;
    forall k | 0 <= k < |r| && r[k] == '"'
      ensures 0 < k && r[k - 1] == '\\'
    {
      if k >= |h| {
        assert t[k - |h|] == '"';
        assert r[k - 1] == t[k - |h| - 1];
      }
    }
  }

  lemma {:induction false} EscapedChars(s: string)
    ensures EscapedText(MapChars(EscapeChar, s))
  {
    if |s| > 0 {
      EscapedChars(s[1..]);
      EscapeCharEscaped(s[0]);
      EscapedConcat(EscapeChar(s[0]), MapChars(EscapeChar, s[1..]));
    }
  }

  /** `JSON.stringify` of a string. */
  function QuoteJson(s: string): string
  {
    "\"" + EscapeBody(s) + "\""
  }

  /** Reads the body of a JSON string (section 7 of RFC 8259) back into the text
      it stands for; None when it is not a valid body. An escaped surrogate,
      which only a pair can give meaning to, is not accepted. */
  function Unescape(t: string): Option<string>
    decreases |t|
  {
    if |t| == 0 then Some("")
    else if t[0] == '\\' then
      if |t| < 2 then None
      else if t[1] == '"' || t[1] == '\\' || t[1] == '/' then Prepend([t[1]], Unescape(t[2..]))
      else if t[1] == 'b' then Prepend("\U{0008}", Unescape(t[2..]))
      else if t[1] == 'f' then Prepend("\U{000C}", Unescape(t[2..]))
      else if t[1] == 'n' then Prepend("\n", Unescape(t[2..]))
      else if t[1] == 'r' then Prepend("\r", Unescape(t[2..]))
      else if t[1] == 't' then Prepend("\t", Unescape(t[2..]))
      else if t[1] == 'u' && |t| >= 6 && HexValue(t[2]).Some? && HexValue(t[3]).Some?
        && HexValue(t[4]).Some? && HexValue(t[5]).Some? then
        var n := HexValue(t[2]).value * 4096 + HexValue(t[3]).value * 256
          + HexValue(t[4]).value * 16 + HexValue(t[5]).value;
        if 0xD800 <= n < 0xE000 then None else Prepend([n as char], Unescape(t[6..]))
      else None
    else if t[0] == '"' || t[0] < ' ' then None
    else Prepend([t[0]], Unescape(t[1..]))
  }

  lemma UnescapeChar(c: char, t: string)
    ensures Unescape(EscapeChar(c) + t) == Prepend([c], Unescape(t))
  {
    var e := EscapeChar(c);
    if |e| == 2 {
      UnescapeShort(c, e, t);
    } else if |e| == 6 {
      UnescapeHex(c, t);
    } else {
      assert e == [c] && ' ' <= c && c != '"' && c != '\\';
      UnescapeSelf(c, t);
    }
  }

  /** A two-character escape reads back as its character. */
  lemma UnescapeShort(c: char, e: string, t: string)
    requires e == EscapeChar(c) && |e| == 2
    ensures Unescape(e + t) == Prepend([c], Unescape(t))
  {
    var s := e + t;
    assert s[0] == e[0] && s[1] == e[1] && s[2..] == t;
  }

  /** A `\u00XX` escape of a control character reads back as that character. */
  lemma UnescapeHex(c: char, t: string)
    requires c < ' ' && c != '\U{0008}' && c != '\t' && c != '\n' && c != '\U{000C}' && c != '\r'
    ensures Unescape(EscapeChar(c) + t) == Prepend([c], Unescape(t))
  {
    var n := c as int;
    var s := "\\u00" + [HexDigit(n / 16), HexDigit(n % 16)] + t;
    assert EscapeChar(c) + t == s;
    assert s[0] == '\\' && s[1] == 'u' && s[2] == '0' && s[3] == '0';
    assert s[4] == HexDigit(n / 16) && s[5] == HexDigit(n % 16);
    assert s[6..] == t;
    assert (n / 16) * 16 + n % 16 == n;
  }

  /** A character written as itself reads back as itself. */
  lemma UnescapeSelf(c: char, t: string)
    requires ' ' <= c && c != '"' && c != '\\'
    ensures Unescape([c] + t) == Prepend([c], Unescape(t))
  {
    assert ([c] + t)[1..] == t;
  }

  /** Reading a serialised string back gives the original text. */
  lemma {:induction false} UnescapeEscapeBody(s: string)
    ensures Unescape(EscapeBody(s)) == Some(s)
  {
    if |s| == 0 {
    } else {
      UnescapeEscapeBody(s[1..]);
      assert EscapeBody(s) == EscapeChar(s[0]) + EscapeBody(s[1..]);
      UnescapeChar(s[0], EscapeBody(s[1..]));
      assert s == [s[0]] + s[1..];
    }
  }

  /** A digit's character. */
  function DigitChar(d: nat): char
    requires d < 10
  {
    ('0' as int + d) as char
  }

  /** `JSON.stringify` of a non-negative integer: its decimal digits. */
  function IntText(n: nat): (r: string)
    ensures |r| > 0 && forall k :: 0 <= k < |r| ==> '0' <= r[k] <= '9'
  {
    if n < 10 then [DigitChar(n)] else IntText(n / 10) + [DigitChar(n % 10)]
  }

  /** The number a text of decimal digits denotes. */
  function DecimalValue(s: string): nat
  {
    if |s| == 0 then 0
    else if '0' <= s[|s| - 1] <= '9' then DecimalValue(s[..|s| - 1]) * 10 + (s[|s| - 1] as int - '0' as int)
    else DecimalValue(s[..|s| - 1]) * 10
  }

  lemma {:induction false} DecimalValueIntText(n: nat)
    ensures DecimalValue(IntText(n)) == n
  {
    var r := IntText(n);
    if n < 10 {
      assert r[..0] == "";
    } else {
      DecimalValueIntText(n / 10);
      assert r[..|r| - 1] == IntText(n / 10);
    }
  }

  datatype Role = System | User | Assistant

  function RoleName(r: Role): string
  {
    match r
    case System => "system"
    case User => "user"
    case Assistant => "assistant"
  }

  /** One entry of `messages`: `{role, content}` in that key order. */
  datatype Message = Message(role: Role, content: string)

  /** The request object; absent members are the ones the source never sets.
      `topP` holds the text `JSON.stringify` gives the number 0.95. */
  datatype ChatRequest = ChatRequest(
    model: Option<string>,
    temperature: Option<nat>,
    topP: Option<string>,
    maxTokens: Option<nat>,
    messages: seq<Message>)

  function MessageText(m: Message): string
  {
    "{\"role\":" + QuoteJson(RoleName(m.role)) + ",\"content\":" + QuoteJson(m.content) + "}"
  }

  /** The elements of the `messages` array, separated by commas. */
  function MessagesText(ms: seq<Message>): string
  {
    if |ms| == 0 then ""
    else if |ms| == 1 then MessageText(ms[0])
    else MessagesText(ms[..|ms| - 1]) + "," + MessageText(ms[|ms| - 1])
  }

  /** A member that is present, with the comma that follows it (every optional
      member precedes `messages`). */
  function OptionalMember(key: string, value: Option<string>): string
  {
    match value
    case None => ""
    case Some(v) => "\"" + key + "\":" + v + ","
  }

  /** Everything the serialised request holds before the first message. */
  function Opening(q: ChatRequest): string
  {
    "{"
    + OptionalMember("model", if q.model.Some? then Some(QuoteJson(q.model.value)) else None)
    + OptionalMember("temperature", if q.temperature.Some? then Some(IntText(q.temperature.value)) else None)
    + OptionalMember("top_p", q.topP)
    + OptionalMember("max_tokens", if q.maxTokens.Some? then Some(IntText(q.maxTokens.value)) else None)
    + "\"messages\":["
  }

  /** A text serialisation writes as it is: no control character, no quote,
      no backslash. */
  predicate Plain(s: string)
  {
    forall k :: 0 <= k < |s| ==> ' ' <= s[k] && s[k] != '"' && s[k] != '\\'
  }

  lemma PlainEscaped(s: string)
    requires Plain(s)
    ensures EscapeBody(s) == s
  {
    forall k | 0 <= k < |s|
      ensures EscapeChar(s[k]) == [s[k]]
    {
    }
    MapCharsFixed(EscapeChar, s);
  }

  /** Escaping never shortens a text, and lengthens every text that is not
      plain. */
  lemma {:induction false} EscapeLength(s: string)
    ensures |EscapeBody(s)| >= |s|
    ensures !Plain(s) ==> |EscapeBody(s)| > |s|
  {
    if |s| > 0 {
      EscapeLength(s[1..]);
      assert EscapeBody(s) == EscapeChar(s[0]) + EscapeBody(s[1..]);
      if !Plain(s) {
        var k :| 0 <= k < |s| && !(' ' <= s[k] && s[k] != '"' && s[k] != '\\');
        if k > 0 {
          assert s[1..][k - 1] == s[k];
        }
      }
    }
  }

  /** Serialisation writes a text as it is exactly when the text is plain. */
  lemma PlainIffUnescaped(s: string)
    ensures EscapeBody(s) == s <==> Plain(s)
  {
    EscapeLength(s);
    if Plain(s) {
      PlainEscaped(s);
    }
  }

  /** The `model` member of a plain model name. */
  lemma ModelMemberOf(m: string)
    requires Plain(m)
    ensures OptionalMember("model", Some(QuoteJson(m))) == "\"model\":\"" + m + "\","
  {
    PlainEscaped(m);
  }

  /** A request with a plain model name and no sampling members opens with
      the `model` member alone. */
  lemma ModelOnlyOpening(q: ChatRequest, m: string)
    requires q.model == Some(m) && Plain(m)
    requires q.temperature.None? && q.topP.None? && q.maxTokens.None?
    ensures Opening(q) == "{" + "\"model\":\"" + m + "\"," + "\"messages\":["
  {
    ModelMemberOf(m);
  }

  /** Appending a message appends a comma and its text. */
  lemma MessagesTextSnoc(init: seq<Message>, m: Message)
    requires |init| > 0
    ensures MessagesText(init + [m]) == MessagesText(init) + "," + MessageText(m)
  {
    var ms := init + [m];
    assert ms[..|ms| - 1] == init;
  }

  /** `JSON.stringify` of the request, members in insertion order. */
  function RequestText(q: ChatRequest): string
  {
    Opening(q) + MessagesText(q.messages) + "]}"
  }

  /** A character that serialisation writes on its own account around and
      inside a message: in its keys and role names, in the punctuation of
      objects and arrays, and in escapes. */
  predicate SyntaxChar(c: char)
  {
    ('a' <= c <= 'z') || ('0' <= c <= '9')
    || c == '"' || c == '\\' || c == '{' || c == '}' || c == '[' || c == ']' || c == ':' || c == ','
  }

  predicate SyntaxText(s: string)
  {
    forall k :: 0 <= k < |s| ==> SyntaxChar(s[k])
  }

  /** A text that serialisation copies unchanged and that its own syntax cannot
      hold: in a serialised request, it can only occur inside a string value. */
  predicate Verbatim(p: string)
  {
    |p| > 0 && forall k :: 0 <= k < |p| ==> ' ' <= p[k] && !SyntaxChar(p[k])
  }

  lemma EscapeCharSyntax(c: char)
    ensures EscapeChar(c) == [c] || (
      (c < ' ' || SyntaxChar(c)) && |EscapeChar(c)| > 0 && SyntaxText(EscapeChar(c)))
  {
    var h := EscapeChar(c);
    if c < ' ' && |h| == 6 {
      assert h[4] == HexDigit(c as int / 16) && h[5] == HexDigit(c as int % 16);
    }
  }

  /** Escaping neither creates nor destroys an occurrence of a verbatim text. */
  lemma VerbatimTransparent(p: string)
    requires Verbatim(p)
    ensures Transparent(EscapeChar, p)
  {
    forall c
      ensures EscapeChar(c) == [c] || (c !in p && |EscapeChar(c)| > 0
        && forall k :: 0 <= k < |EscapeChar(c)| ==> EscapeChar(c)[k] !in p)
    {
      EscapeCharSyntax(c);
    }
  }

  /** A verbatim text is serialised as it is. */
  lemma VerbatimUnescaped(p: string)
    requires Verbatim(p)
    ensures EscapeBody(p) == p
  {
    forall k | 0 <= k < |p|
      ensures EscapeChar(p[k]) == [p[k]]
    {
      assert !SyntaxChar(p[k]);
    }
    MapCharsFixed(EscapeChar, p);
  }

  /** A request whose last message carries a verbatim text, split around it. */
  lemma RequestAround(q: ChatRequest, init: seq<Message>, p: string)
    requires |init| > 0 && q.messages == init + [Message(User, p)]
    ensures RequestText(q) == Opening(q) + MessagesText(init) + "," + ContentPrefix(User) + EscapeBody(p) + "\"}]}"
  {
    var h, m, c := Opening(q), MessagesText(init), ContentPrefix(User);
    MessagesTextSnoc(init, Message(User, p));
    MessageTextParts(Message(User, p));
    assert RequestText(q) == h + (m + "," + (c + EscapeBody(p) + "\"}")) + "]}";
    Regroup(h, m, c, EscapeBody(p));
  }

  lemma Regroup(h: string, m: string, c: string, p: string)
    ensures h + (m + "," + (c + p + "\"}")) + "]}" == h + m + "," + c + p + "\"}]}"
  {
    assert "\"}" + "]}" == "\"}]}";
  }

  /** Syntax alone never spells a verbatim text. */
  lemma SyntaxFree(s: string, p: string)
    requires Verbatim(p) && SyntaxText(s)
    ensures !Contains(s, p)
  {
    forall j | 0 <= j && j + |p| <= |s|
      ensures !OccursAt(s, p, j)
    {
      CoveredChar(s, p, j, j);
    }
  }

  /** The text of a message up to its content's escaped body. */
  function ContentPrefix(r: Role): string
  {
    "{\"role\":" + QuoteJson(RoleName(r)) + ",\"content\":" + "\""
  }

  lemma SyntaxConcat(a: string, b: string)
    requires SyntaxText(a) && SyntaxText(b)
    ensures SyntaxText(a + b)
  {
  }

  /** Role names are lowercase words, serialised as they are. */
  lemma RoleNamePlain(r: Role)
    ensures SyntaxText(RoleName(r)) && EscapeBody(RoleName(r)) == RoleName(r)
  {
    var n := RoleName(r);
    assert forall k :: 0 <= k < |n| ==> 'a' <= n[k] <= 'z';
    MapCharsFixed(EscapeChar, n);
  }

  lemma ContentPrefixSyntax(r: Role)
    ensures SyntaxText(ContentPrefix(r))
  {
    var n := RoleName(r);
    RoleNamePlain(r);
    var q, a, b := "\"", "{\"role\":", ",\"content\":";
    assert SyntaxText(q) && SyntaxText(a) && SyntaxText(b);
    SyntaxConcat(q, n);
    SyntaxConcat(q + n, q);
    assert QuoteJson(n) == q + n + q;
    SyntaxConcat(a, QuoteJson(n));
    SyntaxConcat(a + QuoteJson(n), b);
    SyntaxConcat(a + QuoteJson(n) + b, q);
  }

  lemma MessageTextParts(m: Message)
    ensures MessageText(m) == ContentPrefix(m.role) + EscapeBody(m.content) + "\"}"
  {
    assert "\"" + "}" == "\"}";
  }

  lemma SyntaxPrintable(s: string)
    requires SyntaxText(s)
    ensures Printable(s)
  {
  }

  lemma QuotePrintable(s: string)
    ensures Printable(QuoteJson(s))
  {
    PrintableConcat("\"", EscapeBody(s));
    PrintableConcat("\"" + EscapeBody(s), "\"");
  }

  lemma MessagePrintable(m: Message)
    ensures Printable(MessageText(m))
  {
    var h := ContentPrefix(m.role);
    MessageTextParts(m);
    ContentPrefixSyntax(m.role);
    SyntaxPrintable(h);
    PrintableConcat(h, EscapeBody(m.content));
    PrintableConcat(h + EscapeBody(m.content), "\"}");
  }

  lemma {:induction false} MessagesPrintable(ms: seq<Message>)
    ensures Printable(MessagesText(ms))
  {
    if |ms| == 1 {
      MessagePrintable(ms[0]);
    } else if |ms| > 1 {
      var init := ms[..|ms| - 1];
      MessagesPrintable(init);
      MessagePrintable(ms[|ms| - 1]);
      PrintableConcat(MessagesText(init), ",");
      PrintableConcat(MessagesText(init) + ",", MessageText(ms[|ms| - 1]));
    }
  }

  lemma MemberPrintable(key: string, value: Option<string>)
    requires Printable(key) && (value.Some? ==> Printable(value.value))
    ensures Printable(OptionalMember(key, value))
  {
    if value.Some? {
      PrintableConcat("\"", key);
      PrintableConcat("\"" + key, "\":");
      PrintableConcat("\"" + key + "\":", value.value);
      PrintableConcat("\"" + key + "\":" + value.value, ",");
    }
  }

  lemma OpeningPrintable(q: ChatRequest)
    requires q.topP.Some? ==> Printable(q.topP.value)
    ensures Printable(Opening(q))
  {
    var m := if q.model.Some? then Some(QuoteJson(q.model.value)) else None;
    var t := if q.temperature.Some? then Some(IntText(q.temperature.value)) else None;
    var x := if q.maxTokens.Some? then Some(IntText(q.maxTokens.value)) else None;
    if q.model.Some? {
      QuotePrintable(q.model.value);
    }
    MemberPrintable("model", m);
    MemberPrintable("temperature", t);
    MemberPrintable("top_p", q.topP);
    MemberPrintable("max_tokens", x);
    var a := "{" + OptionalMember("model", m);
    var b := a + OptionalMember("temperature", t);
    var c := b + OptionalMember("top_p", q.topP);
    var d := c + OptionalMember("max_tokens", x);
    PrintableConcat("{", OptionalMember("model", m));
    PrintableConcat(a, OptionalMember("temperature", t));
    PrintableConcat(b, OptionalMember("top_p", q.topP));
    PrintableConcat(c, OptionalMember("max_tokens", x));
    PrintableConcat(d, "\"messages\":[");
  }

  /** The serialised request holds no control character: every one in a text
      is escaped. */
  lemma RequestTextPrintable(q: ChatRequest)
    requires q.topP.Some? ==> Printable(q.topP.value)
    ensures Printable(RequestText(q))
  {
    OpeningPrintable(q);
    MessagesPrintable(q.messages);
    PrintableConcat(Opening(q), MessagesText(q.messages));
    PrintableConcat(Opening(q) + MessagesText(q.messages), "]}");
  }

  /** A message holds a verbatim text exactly when its content does. */
  lemma MessageContains(m: Message, p: string)
    requires Verbatim(p)
    ensures Contains(MessageText(m), p) <==> Contains(m.content, p)
  {
    var h, e, t := ContentPrefix(m.role), EscapeBody(m.content), "\"}";
    MessageTextParts(m);
    VerbatimTransparent(p);
    ContainsMapChars(EscapeChar, m.content, p);
    if Contains(e, p) {
      OccursInConcat(h, e, t, p, FindFirst(e, p).value);
    } else {
      ContentPrefixSyntax(m.role);
      SyntaxFree(h, p);
      assert SyntaxText(t);
      SyntaxFree(t, p);
      NotContainsConcat(h, e, p);
      NotContainsConcat(h + e, t, p);
    }
  }

  /** A comma between two texts neither adds nor hides an occurrence. */
  lemma CommaContains(x: string, y: string, p: string)
    requires Verbatim(p)
    ensures Contains(x + "," + y, p) <==> Contains(x, p) || Contains(y, p)
  {
    if Contains(x, p) {
      OccursInConcat("", x, "," + y, p, FindFirst(x, p).value);
      assert "" + x + ("," + y) == x + "," + y;
    } else if Contains(y, p) {
      OccursInConcat(x + ",", y, "", p, FindFirst(y, p).value);
      assert x + "," + y + "" == x + "," + y;
    } else {
      assert SyntaxText(",");
      SyntaxFree(",", p);
      NotContainsConcat(x, ",", p);
      NotContainsConcat(x + ",", y, p);
    }
  }

  /** The serialised messages hold a verbatim text exactly when some message's
      content does. */
  lemma {:induction false} MessagesContain(ms: seq<Message>, p: string)
    requires Verbatim(p)
    ensures !Contains(MessagesText(ms), p) <==> forall i :: 0 <= i < |ms| ==> !Contains(ms[i].content, p)
  {
    if |ms| == 1 {
      MessageContains(ms[0], p);
    } else if |ms| > 1 {
      var init, last := ms[..|ms| - 1], ms[|ms| - 1];
      assert MessagesText(ms) == MessagesText(init) + "," + MessageText(last);
      MessagesContain(init, p);
      MessageContains(last, p);
      CommaContains(MessagesText(init), MessageText(last), p);
      NoneContainSplit(ms, init, p);
    }
  }

  lemma NoneContainSplit(ms: seq<Message>, init: seq<Message>, p: string)
    requires |ms| > 0 && init == ms[..|ms| - 1]
    ensures (forall i :: 0 <= i < |ms| ==> !Contains(ms[i].content, p))
        <==> (forall i :: 0 <= i < |init| ==> !Contains(init[i].content, p)) && !Contains(ms[|ms| - 1].content, p)
  {
    assert forall i :: 0 <= i < |init| ==> init[i] == ms[i];
  }
}
