/** What the hand-written JSON of app/page.tsx:54 means: for texts JSON and
    VBA both carry as they are, it is the serialisation of a gpt-4 chat
    request. */
module LegacyJson {
  import opened Text
  import opened Json
  import opened LegacyPage

  /** The request the legacy `data` literal spells out. */
  function LegacyRequest(systemPrompt: string, prompt: string): ChatRequest
  {
    ChatRequest(Some("gpt-4"), None, None, None, [Message(System, systemPrompt), Message(User, prompt)])
  }

  /** For plain texts, what the generated function sends is exactly the
      serialisation of a gpt-4 request with the system prompt and the prompt;
      the hand-written JSON agrees with `JSON.stringify`. */
  lemma LegacyDataJson(systemPrompt: string, prompt: string)
    requires Plain(systemPrompt) && Plain(prompt)
    ensures SystemHead + NormalizeLineBreaks(systemPrompt) + UserHead + prompt + RequestTail
         == RequestText(LegacyRequest(systemPrompt, prompt))
  {
    var q := LegacyRequest(systemPrompt, prompt);
    PlainUnescaped(systemPrompt);
    PlainUnescaped(prompt);
    TwoMessages(q, systemPrompt, prompt);
    Gpt4Opening(q);
    SystemPrefixSpelled();
    UserPrefixSpelled();
    HeadsAssemble(Opening(q), ContentPrefix(System), ContentPrefix(User), systemPrompt, prompt);
  }

  /** A request with a system and a user message whose texts need no
      escaping, laid out piece by piece. */
  lemma TwoMessages(q: ChatRequest, systemPrompt: string, prompt: string)
    requires q.messages == [Message(System, systemPrompt), Message(User, prompt)]
    requires EscapeBody(systemPrompt) == systemPrompt && EscapeBody(prompt) == prompt
    ensures RequestText(q)
         == Opening(q) + ((ContentPrefix(System) + systemPrompt + "\"}") + "," + (ContentPrefix(User) + prompt + "\"}")) + "]}"
  {
    var m1, m2 := q.messages[0], q.messages[1];
    MessageTextParts(m1);
    MessageTextParts(m2);
    assert q.messages[..1] == [m1];
    assert MessagesText(q.messages) == MessageText(m1) + "," + MessageText(m2);
  }

  /** The legacy literal pieces, once their parts are known, regroup into
      the serialisation's layout. */
  lemma HeadsAssemble(o: string, c1: string, c2: string, s: string, p: string)
    requires o == "{" + "\"model\":\"gpt-4\"," + "\"messages\":["
    requires c1 == "{\"role\":\"" + "system" + "\",\"content\":\""
    requires c2 == "{\"role\":\"" + "user" + "\",\"content\":\""
    ensures SystemHead + s + UserHead + p + RequestTail == o + ((c1 + s + "\"}") + "," + (c2 + p + "\"}")) + "]}"
  {
    assert SystemHead == o + c1;
    assert UserHead == "\"}" + "," + c2;
    JsonRegroup(o, c1, s, c2, p);
  }

  lemma PlainUnescaped(s: string)
    requires Plain(s)
    ensures EscapeBody(s) == s && NormalizeLineBreaks(s) == s
  {
    PlainEscaped(s);
    assert '\r' !in s && '\n' !in s by {
      forall k | 0 <= k < |s|
        ensures s[k] != '\r' && s[k] != '\n'
      {
      }
    }
  }

  /** A gpt-4 request holds only `model` ahead of its messages. */
  lemma Gpt4Opening(q: ChatRequest)
    requires q.model == Some("gpt-4") && q.temperature.None? && q.topP.None? && q.maxTokens.None?
    ensures Opening(q) == "{" + "\"model\":\"gpt-4\"," + "\"messages\":["
  {
    assert Plain("gpt-4");
    ModelOnlyOpening(q, "gpt-4");
    Gpt4Spelled();
  }

  lemma Gpt4Spelled()
    ensures "{" + "\"model\":\"" + "gpt-4" + "\"," + "\"messages\":[" == "{" + "\"model\":\"gpt-4\"," + "\"messages\":["
  {
    assert "\"model\":\"" + "gpt-4" + "\"," == "\"model\":\"gpt-4\",";
  }

  lemma SystemPrefixSpelled()
    ensures ContentPrefix(System) == "{\"role\":\"" + "system" + "\",\"content\":\""
  {
    PrefixSpelled(System, "system");
  }

  lemma UserPrefixSpelled()
    ensures ContentPrefix(User) == "{\"role\":\"" + "user" + "\",\"content\":\""
  {
    PrefixSpelled(User, "user");
  }

  /** The start of a message: the role key, the quoted role name, and the
      content key with its opening quote. */
  lemma PrefixSpelled(r: Role, n: string)
    requires n == RoleName(r)
    ensures ContentPrefix(r) == "{\"role\":\"" + n + "\",\"content\":\""
  {
    RoleNamePlain(r);
    assert QuoteJson(n) == "\"" + n + "\"";
    PrefixRegroup("{\"role\":", "\"", n, ",\"content\":", "\"");
    RoleKeySpelled();
    ContentKeySpelled();
  }

  lemma PrefixRegroup(a: string, q: string, n: string, c: string, e: string)
    ensures a + (q + n + q) + c + e == (a + q) + n + (q + c + e)
  {
  }

  lemma RoleKeySpelled()
    ensures "{\"role\":" + "\"" == "{\"role\":\""
  {
  }

  lemma ContentKeySpelled()
    ensures "\"" + ",\"content\":" + "\"" == "\",\"content\":\""
  {
  }

  lemma JsonRegroup(o: string, c1: string, s: string, c2: string, p: string)
    ensures (o + c1) + s + ("\"}" + "," + c2) + p + ("\"}" + "]}")
         == o + ((c1 + s + "\"}") + "," + (c2 + p + "\"}")) + "]}"
  {
  }
}
