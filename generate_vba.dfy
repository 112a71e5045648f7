/** `generateOpenAI` and `generateAzureOpenAI` (app/generateVBA.ts): build the
    chat-completion request, serialise it, double its quotes, splice the
    function's `prompt` parameter in place of the sentinel, and paste the
    result into the VBA module template. */
module GenerateVba {
  import opened Text
  import opened Vba
  import opened Json

  /** One example exchange shown to the model before the real prompt. */
  datatype FewShot = FewShot(human: string, ai: string)

  /** What the user entered in the form. */
  datatype GenerationOptions = GenerationOptions(
    apiKey: string,
    functionName: string,
    systemPrompt: string,
    fewShots: seq<FewShot>,
    azureEndpoint: string,
    azureDeployment: string)

  datatype Provider = OpenAI | AzureOpenAI

  /** Stands for the prompt in the serialised request until the splice. */
  const Placeholder: string := "<!-PROMPT_PLACEHOLDER-!>"

  lemma PlaceholderVerbatim()
    ensures Verbatim(Placeholder) && '"' !in Placeholder && Placeholder[0] == '<'
  {
  }

  /** The few-shot messages pushed by the `forEach` loop: for every shot, its
      user message and then its assistant message, in input order. */
  function ShotMessages(shots: seq<FewShot>): (ms: seq<Message>)
    ensures |ms| == 2 * |shots|
    ensures forall i :: 0 <= i < |shots| ==>
      ms[2 * i] == Message(User, shots[i].human) && ms[2 * i + 1] == Message(Assistant, shots[i].ai)
  {
    if |shots| == 0 then []
    else
      var last := shots[|shots| - 1];
      ShotMessages(shots[..|shots| - 1]) + [Message(User, last.human), Message(Assistant, last.ai)]
  }

  /** The request object each generator has built when its loop is done: the
      system message, two messages per few-shot in order, and the user message
      holding the sentinel; OpenAI names the model, Azure sets the sampling
      parameters instead. */
  function RequestOf(pv: Provider, o: GenerationOptions): (q: ChatRequest)
    ensures |q.messages| == 2 * |o.fewShots| + 2
    ensures q.messages[0] == Message(System, o.systemPrompt)
    ensures forall i :: 0 <= i < |o.fewShots| ==>
      q.messages[2 * i + 1] == Message(User, o.fewShots[i].human) &&
      q.messages[2 * i + 2] == Message(Assistant, o.fewShots[i].ai)
    ensures q.messages[|q.messages| - 1] == Message(User, Placeholder)
    ensures pv == OpenAI ==>
      q.model == Some("gpt-4o") && q.temperature.None? && q.topP.None? && q.maxTokens.None?
    ensures pv == AzureOpenAI ==>
      q.model.None? && q.temperature == Some(0) && q.topP == Some("0.95") && q.maxTokens == Some(800)
  {
    RequestShell(pv, [Message(System, o.systemPrompt)] + ShotMessages(o.fewShots) + [Message(User, Placeholder)])
  }

  /** The object literal each generator starts from, around its messages. */
  function RequestShell(pv: Provider, messages: seq<Message>): ChatRequest
  {
    match pv
    case OpenAI => ChatRequest(Some("gpt-4o"), None, None, None, messages)
    case AzureOpenAI => ChatRequest(None, Some(0), Some("0.95"), Some(800), messages)
  }

  /** The request construction of app/generateVBA.ts:19-39 and 109-131: the
      object literal, one push per message inside the `forEach`, and the final
      push of the sentinel message. */
  method BuildRequest(pv: Provider, o: GenerationOptions) returns (q: ChatRequest)
    ensures q == RequestOf(pv, o)
  {
    var system := Message(System, o.systemPrompt);
    if pv == OpenAI {
      q := ChatRequest(Some("gpt-4o"), None, None, None, [system]);
    } else {
      q := ChatRequest(None, Some(0), Some("0.95"), Some(800), [system]);
    }
    var shots := o.fewShots;
    for i := 0 to |shots|
      invariant q == RequestShell(pv, q.messages)
      invariant q.messages == [system] + ShotMessages(shots[..i])
    {
      var shot := shots[i];
      ShotMessagesStep(shots, i);
      PushTwo([system], ShotMessages(shots[..i]), Message(User, shot.human), Message(Assistant, shot.ai));
      q := q.(messages := q.messages + [Message(User, shot.human)]);
      q := q.(messages := q.messages + [Message(Assistant, shot.ai)]);
    }
    q := q.(messages := q.messages + [Message(User, Placeholder)]);
    assert shots[..|shots|] == shots;
  }

  lemma PushTwo(x: seq<Message>, y: seq<Message>, u: Message, a: Message)
    ensures x + y + [u] + [a] == x + (y + [u, a])
  {
  }

  lemma ShotMessagesStep(shots: seq<FewShot>, i: nat)
    requires i < |shots|
    ensures ShotMessages(shots[..i + 1])
         == ShotMessages(shots[..i]) + [Message(User, shots[i].human), Message(Assistant, shots[i].ai)]
  {
    assert shots[..i + 1][..i] == shots[..i];
  }

  /** `apiPayload` (app/generateVBA.ts:41-42, 133-134): the serialised request
      with its quotes doubled and the first occurrence of the sentinel replaced
      by a splice of the `prompt` parameter. */
  function Payload(pv: Provider, o: GenerationOptions): string
  {
    ReplaceFirst(DoubleQuotes(RequestText(RequestOf(pv, o))), Placeholder, PromptSplice)
  }

  function DeclLine(name: string): string
  {
    "Function " + name + "(prompt As String) As String"
  }

  const OpenAIUrlLine: string := "    url = \"https://api.openai.com/v1/chat/completions\""

  function UrlLine(pv: Provider, o: GenerationOptions): string
  {
    match pv
    case OpenAI => OpenAIUrlLine
    case AzureOpenAI =>
      "    url = \"" + o.azureEndpoint + "/openai/deployments/" + o.azureDeployment
      + "/chat/completions?api-version=2024-02-15-preview\""
  }

  function KeyLine(apiKey: string): string
  {
    "    apiKey = " + Quoted(apiKey)
  }

  function DataLine(payload: string): string
  {
    "    data = " + Quoted(payload)
  }

  function AuthLine(pv: Provider): string
  {
    match pv
    case OpenAI => "    xmlHttp.setRequestHeader \"Authorization\", \"Bearer \" & apiKey"
    case AzureOpenAI => "    xmlHttp.setRequestHeader \"api-key\", apiKey"
  }

  function ResultLine(name: string): string
  {
    "    " + name + " = json(\"choices\")(1)(\"message\")(\"content\")"
  }

  function ErrorLine(name: string): string
  {
    "    " + name + " = \"Error: \" & Err.Description"
  }

  const Declarations: seq<string> := [
    "    On Error GoTo ErrorHandler ' エラーハンドリングの設定",
    "    Dim xmlHttp As Object",
    "    Dim url As String",
    "    Dim apiKey As String",
    "    Dim data As String",
    "    Dim response As String",
    "    Dim json As Object",
    "    ",
    "    ' OpenAI APIのエンドポイントURL"]

  const KeyComment: seq<string> := [
    "    ",
    "    ' OpenAI APIキー（ここにあなたのAPIキーを設定）"]

  const DataComment: seq<string> := [
    "    ",
    "    ' APIに送信するJSON形式のデータ"]

  const RequestSetup: seq<string> := [
    "    ",
    "    ' XMLHTTPオブジェクトの作成",
    "    Set xmlHttp = CreateObject(\"MSXML2.XMLHTTP\")",
    "    ",
    "    ' HTTP POSTリクエストを初期化",
    "    xmlHttp.Open \"POST\", url, False",
    "    ",
    "    ' リクエストヘッダーの設定（APIキーとContent-Type）"]

  const Exchange: seq<string> := [
    "    xmlHttp.setRequestHeader \"Content-Type\", \"application/json\"",
    "    ",
    "    ' リクエストを送信（データも送信）",
    "    xmlHttp.Send data",
    "    ",
    "    ' レスポンスを変数に保存",
    "    response = xmlHttp.ResponseText",
    "    ",
    "    ' 即時ウィンドウにレスポンスを出力（デバッグ用）",
    "    Debug.Print \"API Response: \" & response",
    "    ",
    "    ' JSONレスポンスを解析するために、JSONオブジェクトを取得",
    "    Set json = JsonConverter.ParseJson(response)",
    "    ",
    "    ' 即時ウィンドウに解析後のJSONを出力（デバッグ用）",
    "    Debug.Print \"Parsed JSON: \" & json(\"choices\")(1)(\"message\")(\"content\")",
    "    ",
    "    ' レスポンスから生成されたテキストを取得"]

  const Cleanup: seq<string> := [
    "    ",
    "    ' オブジェクトを解放",
    "    Set xmlHttp = Nothing",
    "    Set json = Nothing",
    "    Exit Function",
    "",
    "ErrorHandler:"]

  /** Lines 44-62 of app/generateVBA.ts (136-154): the declaration and the
      assignments of the URL, the key and the payload. */
  function Preamble(pv: Provider, o: GenerationOptions, apiKey: string, payload: string): seq<string>
  {
    ["", "    "]
    + [DeclLine(o.functionName)]
    + Declarations
    + [UrlLine(pv, o)]
    + KeyComment
    + [KeyLine(apiKey)]
    + DataComment
    + [DataLine(payload)]
  }

  /** Lines 63-102 of app/generateVBA.ts (155-194): the request, the response
      and the error handler. */
  function Epilogue(pv: Provider, name: string): seq<string>
  {
    RequestSetup
    + [AuthLine(pv)]
    + Exchange
    + [ResultLine(name)]
    + Cleanup
    + [ErrorLine(name)]
    + ["End Function", "", "", ""]
  }

  /** The template literal of app/generateVBA.ts:44-102 (and 136-194), one
      string per line, with the interpolated values passed in. */
  function Template(pv: Provider, o: GenerationOptions, apiKey: string, payload: string): seq<string>
  {
    Preamble(pv, o, apiKey, payload) + Epilogue(pv, o.functionName)
  }

  /** The lines of the module a generator returns. */
  function ModuleLines(pv: Provider, o: GenerationOptions): seq<string>
  {
    Template(pv, o, DoubleQuotes(o.apiKey), Payload(pv, o))
  }

  function ModuleText(pv: Provider, o: GenerationOptions): string
  {
    JoinLines(ModuleLines(pv, o))
  }

  /** `generateOpenAI` (app/generateVBA.ts:15-103). */
  method GenerateOpenAI(o: GenerationOptions) returns (m: string)
    ensures m == ModuleText(OpenAI, o)
  {
    var apiKey := DoubleQuotes(o.apiKey);
    var apiRequest := BuildRequest(OpenAI, o);
    var apiPayload := DoubleQuotes(RequestText(apiRequest));
    apiPayload := ReplaceFirst(apiPayload, Placeholder, PromptSplice);
    m := JoinLines(Template(OpenAI, o, apiKey, apiPayload));
  }

  /** `generateAzureOpenAI` (app/generateVBA.ts:105-195). */
  method GenerateAzureOpenAI(o: GenerationOptions) returns (m: string)
    ensures m == ModuleText(AzureOpenAI, o)
  {
    var apiKey := DoubleQuotes(o.apiKey);
    var apiRequest := BuildRequest(AzureOpenAI, o);
    var apiPayload := DoubleQuotes(RequestText(apiRequest));
    apiPayload := ReplaceFirst(apiPayload, Placeholder, PromptSplice);
    m := JoinLines(Template(AzureOpenAI, o, apiKey, apiPayload));
  }

  /** The line numbers, counted from the opening backquote, at which the
      template interpolates something. */
  predicate IsSlot(i: int)
  {
    i == 2 || i == 12 || i == 15 || i == 18 || i == 27 || i == 46 || i == 54
  }

  /** Line positions in a sequence of fixed blocks with three one-line holes
      between them, filled two ways. */
  lemma ThreeHoles(a: seq<string>, b: seq<string>, c: seq<string>, d: seq<string>,
                   x: string, y: string, z: string, x': string, y': string, z': string)
    ensures var t, t' := a + [x] + b + [y] + c + [z] + d, a + [x'] + b + [y'] + c + [z'] + d;
      var i, j, k := |a|, |a| + 1 + |b|, |a| + 2 + |b| + |c|;
      |t| == |t'| == |a| + |b| + |c| + |d| + 3 && t[i] == x && t[j] == y && t[k] == z
      && forall n :: 0 <= n < |t| && n != i && n != j && n != k ==> t[n] == t'[n]
  {
    var t, t' := a + [x] + b + [y] + c + [z] + d, a + [x'] + b + [y'] + c + [z'] + d;
    forall n | 0 <= n < |t| && n != |a| && n != |a| + 1 + |b| && n != |a| + 2 + |b| + |c|
      ensures t[n] == t'[n]
    {
      if n < |a| {
        assert t[n] == a[n] == t'[n];
      } else if n < |a| + 1 + |b| {
        assert t[n] == b[n - |a| - 1] == t'[n];
      } else if n < |a| + 2 + |b| + |c| {
        assert t[n] == c[n - |a| - 2 - |b|] == t'[n];
      } else {
        assert t[n] == d[n - |a| - 3 - |b| - |c|] == t'[n];
      }
    }
  }

  /** The same with a fourth hole. */
  lemma FourHoles(a: seq<string>, b: seq<string>, c: seq<string>, d: seq<string>,
                  w: string, x: string, y: string, z: string,
                  w': string, x': string, y': string, z': string)
    ensures var t, t' := a + [w] + b + [x] + c + [y] + d + [z], a + [w'] + b + [x'] + c + [y'] + d + [z'];
      var i, j, k, l := |a|, |a| + 1 + |b|, |a| + 2 + |b| + |c|, |a| + 3 + |b| + |c| + |d|;
      |t| == |t'| == l + 1 && t[i] == w && t[j] == x && t[k] == y && t[l] == z
      && forall n :: 0 <= n < |t| && n != i && n != j && n != k && n != l ==> t[n] == t'[n]
  {
    ThreeHoles(a, b, c, d, w, x, y, w', x', y');
  }

  lemma PreambleSlots(pv: Provider, o: GenerationOptions, apiKey: string, payload: string)
    ensures var t := Preamble(pv, o, apiKey, payload);
      |t| == 19 && t[2] == DeclLine(o.functionName) && t[12] == UrlLine(pv, o)
      && t[15] == KeyLine(apiKey) && t[18] == DataLine(payload)
  {
    PreambleFixedLines(pv, o, apiKey, payload, pv, o, apiKey, payload);
  }

  lemma EpilogueSlots(pv: Provider, name: string)
    ensures var t := Epilogue(pv, name);
      |t| == 40 && t[8] == AuthLine(pv) && t[27] == ResultLine(name) && t[35] == ErrorLine(name)
  {
    EpilogueFixedLines(pv, name, pv, name);
  }

  /** Where each interpolated value lands: the declaration, the URL, the key,
      the payload, the authentication header, the success assignment and the
      error assignment. */
  lemma TemplateSlots(pv: Provider, o: GenerationOptions, apiKey: string, payload: string)
    ensures var t := Template(pv, o, apiKey, payload);
      |t| == 59 && t[2] == DeclLine(o.functionName) && t[12] == UrlLine(pv, o)
      && t[15] == KeyLine(apiKey) && t[18] == DataLine(payload) && t[27] == AuthLine(pv)
      && t[46] == ResultLine(o.functionName) && t[54] == ErrorLine(o.functionName)
  {
    PreambleSlots(pv, o, apiKey, payload);
    EpilogueSlots(pv, o.functionName);
  }

  lemma PreambleFixedLines(pv: Provider, o: GenerationOptions, apiKey: string, payload: string,
                           pv': Provider, o': GenerationOptions, apiKey': string, payload': string)
    ensures var t, t' := Preamble(pv, o, apiKey, payload), Preamble(pv', o', apiKey', payload');
      |t| == |t'| == 19 && t[2] == DeclLine(o.functionName) && t[12] == UrlLine(pv, o)
      && t[15] == KeyLine(apiKey) && t[18] == DataLine(payload)
      && forall i :: 0 <= i < |t| && !IsSlot(i) ==> t[i] == t'[i]
  {
    assert |Declarations| == 9 && |KeyComment| == 2 && |DataComment| == 2;
    FourHoles(["", "    "], Declarations, KeyComment, DataComment,
              DeclLine(o.functionName), UrlLine(pv, o), KeyLine(apiKey), DataLine(payload),
              DeclLine(o'.functionName), UrlLine(pv', o'), KeyLine(apiKey'), DataLine(payload'));
  }

  lemma EpilogueFixedLines(pv: Provider, name: string, pv': Provider, name': string)
    ensures var t, t' := Epilogue(pv, name), Epilogue(pv', name');
      |t| == |t'| == 40 && t[8] == AuthLine(pv) && t[27] == ResultLine(name) && t[35] == ErrorLine(name)
      && forall i :: 0 <= i < |t| && !IsSlot(i + 19) ==> t[i] == t'[i]
  {
    assert |RequestSetup| == 8 && |Exchange| == 18 && |Cleanup| == 7;
    ThreeHoles(RequestSetup, Exchange, Cleanup, ["End Function", "", "", ""],
               AuthLine(pv), ResultLine(name), ErrorLine(name),
               AuthLine(pv'), ResultLine(name'), ErrorLine(name'));
  }

  /** Every other line is fixed text, the same for both providers and for all
      options. */
  lemma TemplateFixedLines(pv: Provider, o: GenerationOptions, apiKey: string, payload: string,
                           pv': Provider, o': GenerationOptions, apiKey': string, payload': string)
    ensures var t, t' := Template(pv, o, apiKey, payload), Template(pv', o', apiKey', payload');
      |t| == |t'| && forall i :: 0 <= i < |t| && !IsSlot(i) ==> t[i] == t'[i]
  {
    var p, p' := Preamble(pv, o, apiKey, payload), Preamble(pv', o', apiKey', payload');
    var e, e' := Epilogue(pv, o.functionName), Epilogue(pv', o'.functionName);
    PreambleFixedLines(pv, o, apiKey, payload, pv', o', apiKey', payload');
    EpilogueFixedLines(pv, o.functionName, pv', o'.functionName);
    PreambleSlots(pv, o, apiKey, payload);
    forall i | 0 <= i < |p + e| && !IsSlot(i)
      ensures (p + e)[i] == (p' + e')[i]
    {
      if i >= 19 {
        assert !IsSlot((i - 19) + 19);
      }
    }
  }

  lemma MiddleDiffers(a: string, x: string, y: string, b: string)
    requires x != y
    ensures a + x + b != a + y + b
  {
    if |x| == |y| {
      assert (a + x + b)[|a|..|a| + |x|] == x;
      assert (a + y + b)[|a|..|a| + |y|] == y;
    }
  }

  /** The name takes no part in the request, the URL or the key. */
  lemma NameIndependent(pv: Provider, o: GenerationOptions, name: string)
    ensures var o' := o.(functionName := name);
      Payload(pv, o') == Payload(pv, o) && UrlLine(pv, o') == UrlLine(pv, o) && o'.apiKey == o.apiKey
  {
    var o' := o.(functionName := name);
    assert RequestOf(pv, o') == RequestOf(pv, o);
  }

  /** `options.functionName` is pasted, unescaped, into exactly three lines:
      the declaration, the success assignment and the error assignment. With
      any other name, those lines and no others change. */
  lemma FunctionNamePlaces(pv: Provider, o: GenerationOptions, name: string)
    requires name != o.functionName
    ensures var a, b := ModuleLines(pv, o), ModuleLines(pv, o.(functionName := name));
      |a| == |b| == 59 && forall i :: 0 <= i < 59 ==> (a[i] != b[i] <==> i == 2 || i == 46 || i == 54)
  {
    NameIndependent(pv, o, name);
    TemplateNamePlaces(pv, o, name, DoubleQuotes(o.apiKey), Payload(pv, o));
  }

  lemma TemplateNamePlaces(pv: Provider, o: GenerationOptions, name: string, k: string, d: string)
    requires name != o.functionName
    ensures var a, b := Template(pv, o, k, d), Template(pv, o.(functionName := name), k, d);
      |a| == |b| == 59 && forall i :: 0 <= i < 59 ==> (a[i] != b[i] <==> i == 2 || i == 46 || i == 54)
  {
    var o' := o.(functionName := name);
    TemplateSlots(pv, o, k, d);
    TemplateSlots(pv, o', k, d);
    TemplateFixedLines(pv, o, k, d, pv, o', k, d);
    NameLinesDiffer(o.functionName, name);
    SlotsThatDiffer(Template(pv, o, k, d), Template(pv, o', k, d));
  }

  lemma NameLinesDiffer(n: string, n': string)
    requires n != n'
    ensures DeclLine(n) != DeclLine(n') && ResultLine(n) != ResultLine(n') && ErrorLine(n) != ErrorLine(n')
  {
    MiddleDiffers("Function ", n, n', "(prompt As String) As String");
    MiddleDiffers("    ", n, n', " = json(\"choices\")(1)(\"message\")(\"content\")");
    MiddleDiffers("    ", n, n', " = \"Error: \" & Err.Description");
  }

  lemma SlotsThatDiffer(a: seq<string>, b: seq<string>)
    requires |a| == |b| == 59
    requires forall i :: 0 <= i < 59 && !IsSlot(i) ==> a[i] == b[i]
    requires a[12] == b[12] && a[15] == b[15] && a[18] == b[18] && a[27] == b[27]
    requires a[2] != b[2] && a[46] != b[46] && a[54] != b[54]
    ensures forall i :: 0 <= i < 59 ==> (a[i] != b[i] <==> i == 2 || i == 46 || i == 54)
  {
  }

  /** The key line assigns a literal whose value is the key as entered; a key
      holding a line break, which `sanitizeAsVBAString` leaves in, splits the
      literal over two lines and leaves it without a value. */
  lemma KeyLineValue(pv: Provider, o: GenerationOptions, env: Env)
    ensures ModuleLines(pv, o)[15] == "    apiKey = " + Quoted(DoubleQuotes(o.apiKey))
    ensures OneLine(o.apiKey) ==> Operand(Quoted(DoubleQuotes(o.apiKey)), env) == Some(o.apiKey)
    ensures !OneLine(o.apiKey) ==> Operand(Quoted(DoubleQuotes(o.apiKey)), env) == None
  {
    TemplateSlots(pv, o, DoubleQuotes(o.apiKey), Payload(pv, o));
    if OneLine(o.apiKey) {
      LiteralValue(o.apiKey, env);
    } else {
      LiteralBroken(o.apiKey, env);
    }
  }

  /** Serialisation escapes every line break, so the request fits on the
      `data` line. */
  lemma RequestOneLine(pv: Provider, o: GenerationOptions)
    ensures OneLine(RequestText(RequestOf(pv, o)))
  {
    assert Printable("0.95");
    RequestTextPrintable(RequestOf(pv, o));
    PrintableOneLine(RequestText(RequestOf(pv, o)));
  }

  /** The data line assigns an expression whose value, when the function runs,
      is the serialised request with its first sentinel replaced by the prompt. */
  lemma DataLineValue(pv: Provider, o: GenerationOptions, env: Env)
    ensures ModuleLines(pv, o)[18] == "    data = " + Quoted(Payload(pv, o))
    ensures Operand(Quoted(Payload(pv, o)), env)
         == Some(ReplaceFirst(RequestText(RequestOf(pv, o)), Placeholder, env.prompt))
  {
    TemplateSlots(pv, o, DoubleQuotes(o.apiKey), Payload(pv, o));
    PlaceholderVerbatim();
    RequestOneLine(pv, o);
    SpliceValue(RequestText(RequestOf(pv, o)), Placeholder, env);
  }
}
