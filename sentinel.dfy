/** Where the `prompt` parameter lands in the request the generated function
    sends: `apiPayload.replace` splices it in place of the FIRST occurrence of
    the sentinel in the serialised request, which is the last message's
    content unless the system prompt or a few-shot text already holds the
    sentinel. */
module Sentinel {
  import opened Text
  import opened Vba
  import opened Json
  import opened GenerateVba

  /** No text the user entered holds the sentinel. */
  predicate SentinelFree(o: GenerationOptions)
  {
    && !Contains(o.systemPrompt, Placeholder)
    && forall i :: 0 <= i < |o.fewShots| ==>
         !Contains(o.fewShots[i].human, Placeholder) && !Contains(o.fewShots[i].ai, Placeholder)
  }

  /** The messages before the sentinel message. */
  function Earlier(pv: Provider, o: GenerationOptions): seq<Message>
  {
    var ms := RequestOf(pv, o).messages;
    ms[..|ms| - 1]
  }

  /** The serialised request up to the sentinel. */
  function Before(pv: Provider, o: GenerationOptions): string
  {
    Opening(RequestOf(pv, o)) + MessagesText(Earlier(pv, o)) + "," + ContentPrefix(User)
  }

  /** The OpenAI request holds only `model` ahead of its messages. */
  lemma OpenAIOpening(q: ChatRequest)
    requires q.model == Some("gpt-4o") && q.temperature.None? && q.topP.None? && q.maxTokens.None?
    ensures Opening(q) == "{" + "\"model\":\"gpt-4o\"," + "\"messages\":["
  {
    assert Plain("gpt-4o");
    ModelOnlyOpening(q, "gpt-4o");
    Gpt4oSpelled();
  }

  lemma Gpt4oSpelled()
    ensures "{" + "\"model\":\"" + "gpt-4o" + "\"," + "\"messages\":[" == "{" + "\"model\":\"gpt-4o\"," + "\"messages\":["
  {
    assert "\"model\":\"" + "gpt-4o" + "\"," == "\"model\":\"gpt-4o\",";
  }

  /** The Azure request holds the three sampling members, in the order the
      object literal gives them, ahead of its messages. */
  lemma AzureOpening(q: ChatRequest)
    requires q.model.None? && q.temperature == Some(0) && q.topP == Some("0.95") && q.maxTokens == Some(800)
    ensures Opening(q)
         == "{" + "\"temperature\":0," + "\"top_p\":0.95," + "\"max_tokens\":800," + "\"messages\":["
  {
    TemperatureMember();
    TopPMember();
    MaxTokensMember();
  }

  lemma TemperatureMember()
    ensures OptionalMember("temperature", Some(IntText(0))) == "\"temperature\":0,"
  {
    assert IntText(0) == "0";
  }

  lemma TopPMember()
    ensures OptionalMember("top_p", Some("0.95")) == "\"top_p\":0.95,"
  {
  }

  lemma MaxTokensMember()
    ensures OptionalMember("max_tokens", Some(IntText(800))) == "\"max_tokens\":800,"
  {
    EightHundred();
  }

  lemma EightHundred()
    ensures IntText(800) == "800"
  {
    assert IntText(8) == "8";
    assert IntText(80) == IntText(8) + "0" == "80";
  }

  lemma OpeningFree(pv: Provider, o: GenerationOptions)
    ensures !Contains(Opening(RequestOf(pv, o)), Placeholder)
    ensures var h := Opening(RequestOf(pv, o)); |h| > 0 && Barrier(h[|h| - 1], Placeholder)
  {
    var q := RequestOf(pv, o);
    PlaceholderVerbatim();
    if pv == OpenAI {
      OpenAIOpening(q);
      OpenAIBarrier(Opening(q), Placeholder);
    } else {
      AzureOpening(q);
      AzureBarrier(Opening(q), Placeholder);
    }
  }

  lemma OpenAIBarrier(h: string, p: string)
    requires h == "{" + "\"model\":\"gpt-4o\"," + "\"messages\":["
    requires Verbatim(p) && p[0] == '<'
    ensures !Contains(h, p) && |h| > 0 && Barrier(h[|h| - 1], p)
  {
    assert '<' !in "\"model\":\"gpt-4o\",";
    OpeningBarrier(h, p);
  }

  lemma AzureBarrier(h: string, p: string)
    requires h == "{" + "\"temperature\":0," + "\"top_p\":0.95," + "\"max_tokens\":800," + "\"messages\":["
    requires Verbatim(p) && p[0] == '<'
    ensures !Contains(h, p) && |h| > 0 && Barrier(h[|h| - 1], p)
  {
    assert '<' !in "\"temperature\":0,";
    assert '<' !in "\"top_p\":0.95,";
    assert '<' !in "\"max_tokens\":800,";
    OpeningBarrier(h, p);
  }

  /** An opening without `<` holds no verbatim text that starts with `<`, and
      its last character, `[`, cannot begin or continue one. */
  lemma OpeningBarrier(h: string, p: string)
    requires '<' !in h && |h| > 0 && h[|h| - 1] == '['
    requires Verbatim(p) && p[0] == '<'
    ensures !Contains(h, p) && Barrier(h[|h| - 1], p)
  {
    AbsentStart(h, p);
    assert SyntaxChar('[');
  }

  /** The serialised request is the text before the sentinel, the sentinel
      itself, and the closing of its message, of the array and of the object. */
  lemma RequestAroundSentinel(pv: Provider, o: GenerationOptions)
    ensures RequestText(RequestOf(pv, o)) == Before(pv, o) + Placeholder + "\"}]}"
  {
    var q := RequestOf(pv, o);
    assert q.messages == Earlier(pv, o) + [Message(User, Placeholder)];
    PlaceholderVerbatim();
    VerbatimUnescaped(Placeholder);
    RequestAround(q, Earlier(pv, o), Placeholder);
  }

  /** The messages before the sentinel carry the sentinel exactly when some
      text the user entered does. */
  lemma EarlierFree(pv: Provider, o: GenerationOptions)
    ensures (forall j :: 0 <= j < |Earlier(pv, o)| ==> !Contains(Earlier(pv, o)[j].content, Placeholder))
        <==> SentinelFree(o)
  {
    var q := RequestOf(pv, o);
    var e := Earlier(pv, o);
    assert forall j :: 0 <= j < |e| ==> e[j] == q.messages[j];
    ContentsFree(e, o, Placeholder);
  }

  /** `e` holds the system prompt and then the few-shot texts in order. */
  lemma ContentsFree(e: seq<Message>, o: GenerationOptions, p: string)
    requires |e| == 2 * |o.fewShots| + 1 && e[0].content == o.systemPrompt
    requires forall i :: 0 <= i < |o.fewShots| ==>
      e[2 * i + 1].content == o.fewShots[i].human && e[2 * i + 2].content == o.fewShots[i].ai
    ensures (forall j :: 0 <= j < |e| ==> !Contains(e[j].content, p))
        <==> (!Contains(o.systemPrompt, p) && forall i :: 0 <= i < |o.fewShots| ==>
               !Contains(o.fewShots[i].human, p) && !Contains(o.fewShots[i].ai, p))
  {
    if !Contains(o.systemPrompt, p) && forall i :: 0 <= i < |o.fewShots| ==>
         !Contains(o.fewShots[i].human, p) && !Contains(o.fewShots[i].ai, p) {
      forall j | 0 <= j < |e|
        ensures !Contains(e[j].content, p)
      {
        if j % 2 == 1 {
          var i := (j - 1) / 2;
          assert j == 2 * i + 1 && 0 <= i < |o.fewShots|;
          assert e[j].content == o.fewShots[i].human;
        } else if j > 0 {
          var i := (j - 2) / 2;
          assert j == 2 * i + 2 && 0 <= i < |o.fewShots|;
          assert e[j].content == o.fewShots[i].ai;
        }
      }
    }
  }

  /** Around a list of messages, the opening, a comma and the start of the
      next message add no occurrence of a verbatim text. */
  lemma FramedContains(h: string, m: string, c: string, p: string)
    requires Verbatim(p) && SyntaxText(c)
    requires !Contains(h, p) && |h| > 0 && Barrier(h[|h| - 1], p)
    ensures Contains(h + m + "," + c, p) <==> Contains(m, p)
  {
    if Contains(m, p) {
      OccursInConcat(h, m, "," + c, p, FindFirst(m, p).value);
      assert h + m + ("," + c) == h + m + "," + c;
    } else {
      NotContainsConcat(h, m, p);
      assert SyntaxText(",");
      SyntaxFree(",", p);
      NotContainsConcat(h + m, ",", p);
      SyntaxFree(c, p);
      NotContainsConcat(h + m + ",", c, p);
    }
  }

  /** The text before the sentinel holds it exactly when the user's texts do. */
  lemma BeforeFree(pv: Provider, o: GenerationOptions)
    ensures !Contains(Before(pv, o), Placeholder) <==> SentinelFree(o)
  {
    PlaceholderVerbatim();
    MessagesContain(Earlier(pv, o), Placeholder);
    EarlierFree(pv, o);
    OpeningFree(pv, o);
    ContentPrefixSyntax(User);
    FramedContains(Opening(RequestOf(pv, o)), MessagesText(Earlier(pv, o)), ContentPrefix(User), Placeholder);
  }

  /** `indexOf` finds the sentinel in the sentinel message exactly when no
      text the user entered holds it. */
  lemma SentinelPosition(pv: Provider, o: GenerationOptions)
    ensures FindFirst(RequestText(RequestOf(pv, o)), Placeholder) == Some(|Before(pv, o)|)
        <==> SentinelFree(o)
  {
    var b := Before(pv, o);
    RequestAroundSentinel(pv, o);
    BeforeFree(pv, o);
    ContentPrefixEnd(b, pv, o);
    PlaceholderVerbatim();
    FirstAfterIff(b, Placeholder, "\"}]}");
  }

  lemma ContentPrefixEnd(b: string, pv: Provider, o: GenerationOptions)
    requires b == Before(pv, o)
    ensures |b| > 0 && b[|b| - 1] == '"'
  {
    var c := ContentPrefix(User);
    assert c[|c| - 1] == '"';
    assert b[|b| - 1] == c[|c| - 1];
  }

  /** When the user's texts are free of the sentinel, the request the
      generated function sends is the serialised request with the sentinel
      message's content set to the value of `prompt`. */
  lemma PromptLands(pv: Provider, o: GenerationOptions, env: Env)
    requires SentinelFree(o)
    ensures Operand(Quoted(Payload(pv, o)), env) == Some(Before(pv, o) + env.prompt + "\"}]}")
  {
    var b := Before(pv, o);
    PlaceholderVerbatim();
    RequestOneLine(pv, o);
    SpliceValue(RequestText(RequestOf(pv, o)), Placeholder, env);
    RequestAroundSentinel(pv, o);
    SentinelPosition(pv, o);
    ReplaceAt(b, Placeholder, "\"}]}", env.prompt);
  }

  /** The request the generator builds with the sentinel message's content
      set to `p` in place of the sentinel; every other message and member is
      the same. */
  function PromptRequest(pv: Provider, o: GenerationOptions, p: string): (q: ChatRequest)
    ensures var r := RequestOf(pv, o);
      |q.messages| == |r.messages| && q.messages[|q.messages| - 1] == Message(User, p)
      && (forall i :: 0 <= i < |q.messages| - 1 ==> q.messages[i] == r.messages[i])
      && q.(messages := []) == r.(messages := [])
  {
    RequestOf(pv, o).(messages := Earlier(pv, o) + [Message(User, p)])
  }

  /** The serialisation of the request holding `p`: the text before the
      sentinel, the escaped `p` and the closing text. */
  lemma PromptRequestText(pv: Provider, o: GenerationOptions, p: string)
    ensures RequestText(PromptRequest(pv, o, p)) == Before(pv, o) + EscapeBody(p) + "\"}]}"
  {
    var q := PromptRequest(pv, o, p);
    assert Opening(q) == Opening(RequestOf(pv, o));
    RequestAround(q, Earlier(pv, o), p);
  }

  /** The request holding `p` serialises with `p` copied as it is exactly
      when `p` needs no JSON escape. */
  lemma PromptRequestPlain(pv: Provider, o: GenerationOptions, p: string)
    ensures RequestText(PromptRequest(pv, o, p)) == Before(pv, o) + p + "\"}]}" <==> Plain(p)
  {
    PromptRequestText(pv, o, p);
    PlainIffUnescaped(p);
    MiddleIff(RequestText(PromptRequest(pv, o, p)), Before(pv, o), p, EscapeBody(p), "\"}]}");
  }

  lemma MiddleIff(r: string, b: string, p: string, e: string, t: string)
    requires r == b + e + t
    ensures r == b + p + t <==> e == p
  {
    if e != p {
      MiddleDiffers(b, e, p, t);
    }
  }

  /** With sentinel-free inputs, `data` is the serialised request with the
      prompt as the last message exactly when the prompt needs no JSON escape:
      the generated module pastes the prompt raw, so a quote, a backslash or a
      control character in it is not escaped. */
  lemma PromptSerialised(pv: Provider, o: GenerationOptions, env: Env)
    requires SentinelFree(o) && Plain(env.prompt)
    ensures Operand(Quoted(Payload(pv, o)), env) == Some(RequestText(PromptRequest(pv, o, env.prompt)))
  {
    PromptLands(pv, o, env);
    PromptRequestPlain(pv, o, env.prompt);
  }

  /** A prompt that needs a JSON escape makes `data` differ from every
      serialisation of the request holding it. */
  lemma PromptNotSerialised(pv: Provider, o: GenerationOptions, env: Env)
    requires SentinelFree(o) && !Plain(env.prompt)
    ensures Operand(Quoted(Payload(pv, o)), env) != Some(RequestText(PromptRequest(pv, o, env.prompt)))
  {
    PromptLands(pv, o, env);
    PromptRequestPlain(pv, o, env.prompt);
  }

  /** When some text the user entered holds the sentinel, the value of
      `prompt` replaces that earlier occurrence and the sentinel message is
      sent with the sentinel itself as its content. */
  lemma PromptMisplaced(pv: Provider, o: GenerationOptions, env: Env)
    requires !SentinelFree(o)
    ensures Operand(Quoted(Payload(pv, o)), env)
         == Some(ReplaceFirst(Before(pv, o), Placeholder, env.prompt) + Placeholder + "\"}]}")
  {
    PlaceholderVerbatim();
    RequestOneLine(pv, o);
    SpliceValue(RequestText(RequestOf(pv, o)), Placeholder, env);
    RequestAroundSentinel(pv, o);
    BeforeFree(pv, o);
    Misplaced(Before(pv, o), Placeholder, "\"}]}", env.prompt);
  }

  lemma Misplaced(b: string, p: string, t: string, r: string)
    requires Contains(b, p)
    ensures ReplaceFirst(b + p + t, p, r) == ReplaceFirst(b, p, r) + p + t
  {
    ReplaceFirstExtended(b, p + t, p, r);
    assert b + p + t == b + (p + t);
    assert ReplaceFirst(b, p, r) + (p + t) == ReplaceFirst(b, p, r) + p + t;
  }
}
