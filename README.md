# excelgpt VBA generator, modelled in Dafny

excelgpt is a Next.js page. From an API key, a function name, a system prompt and optional few-shot examples, it writes the text of a VBA module.

The generated module holds one worksheet function. When Excel evaluates that function, it sends the cell's prompt to an OpenAI or Azure OpenAI chat-completions endpoint and returns the reply.

The project models how that text is built, and proves what the text means.

- **`Text`** models the JavaScript string operations the generators use:
  - `indexOf` and the first-occurrence `replace` with a string pattern;
  - the template literal as a list of lines joined by line feeds;
  - `trim()`;
  - the global one-character rewrites `replace(/c/g, …)`.
- **`Vba`** models `sanitizeAsVBAString`, which doubles every quote. It also holds a small evaluator for the VBA string expressions the generators write: literals with `""` escapes, joined by ` & ` to `prompt` or `vbCrLf`. A literal ends at the end of its line, so a line break inside one leaves the line without a value. That evaluator is the partner of every escaping step. It is used to prove what value a line of the generated module has, for example the text the user typed.
- **`Json`** models `JSON.stringify` for the request objects the generators build.
  - Strings use QuoteJSONString's escapes.
  - Integers are written in decimal.
  - Members appear in insertion order, and absent optional members are skipped.
  - A reader of JSON string bodies (section 7 of RFC 8259) proves the string escaping round-trips.
- **`GenerateVba`** models `generateOpenAI` and `generateAzureOpenAI`:
  - the request object and the few-shot loop that fills it;
  - the serialised and quote-doubled payload;
  - the sentinel `<!-PROMPT_PLACEHOLDER-!>` replaced by `" & prompt & "`;
  - the 59-line module template.
- **`Sentinel`** proves where that replacement lands. If no text the user entered holds the sentinel, the `data` literal evaluates to the serialised request text with the raw, unescaped runtime prompt in the sentinel's place. That is the serialisation of the request holding the prompt as its last message exactly when the prompt needs no JSON escape. Otherwise the prompt lands inside the user's own text and the real sentinel is sent as is.
- **`LegacyPage`** models the older generator in `page.tsx`:
  - `sanitizeVBA`, which doubles quotes and then turns each CR LF, LF or CR into `" & vbCrLf & "`;
  - the function-name pattern `^[a-zA-Z0-9_]+$`;
  - the hand-written gpt-4 template and its trimming.
- **`LegacyJson`** proves that the legacy hand-written `data` JSON is the `JSON.stringify` of a gpt-4 request, for texts that need no escaping.
- **`ScriptForm`** models the component's state as a class.
  - Its fields are the five `useState` values.
  - Its methods are the handlers that set them: key and system prompt edits, name validation, name edits and script generation.
  - It also models the name of the downloaded file.

## Model

| member | source | states |
|---|---|---|
| Text.FindFirst | app/generateVBA.ts:42 | the index `replace` with a string pattern acts on: an occurrence, with none before it; None exactly when there is no occurrence |
| Text.FirstAfterIff | app/generateVBA.ts:42 | in `a + p + t`, the first occurrence of `p` is the one after `a` exactly when `a` holds no occurrence |
| Text.ReplaceFirstMapChars | app/generateVBA.ts:41-42 | replacing the first `p` in a rewritten text is the same as rewriting around the first `p` of the original |
| Text.ReplaceFirstExtended | app/generateVBA.ts:42 | appending text after an occurrence leaves the first replacement unchanged |
| Text.TrimPadded | app/page.tsx:94 | `trim()` removes exactly the white space around a text that neither starts nor ends with white space |
| Text.JoinLinesAppend | app/generateVBA.ts:44-102 | joining two blocks of template lines puts one line feed between them |
| Vba.DoubleQuotes | app/generateVBA.ts:11-13 | the result grows by one character per quote; a text without quotes is unchanged |
| Vba.UndoubleDoubleQuotes | app/generateVBA.ts:11-13 | collapsing `""` back to `"` recovers every input, line breaks included, so doubling changes nothing but the quotes |
| Vba.InLiteralDoubled | app/generateVBA.ts:11-13 | inside a VBA literal, a doubled text reads back as the original |
| Vba.LiteralValue | app/generateVBA.ts:59 | for a text on one line, `"` + the sanitised text + `"` evaluates to the text as entered |
| Vba.LiteralBroken | app/generateVBA.ts:11-13 | `sanitizeAsVBAString` leaves line breaks in, and a literal of a text holding a CR or LF has no value |
| Vba.InLiteralPromptSplice | app/generateVBA.ts:42 | `" & prompt & "` inside a literal contributes the runtime prompt |
| Vba.InLiteralCrLfSplice | app/page.tsx:16 | `" & vbCrLf & "` inside a literal contributes CR LF |
| Vba.SpliceValue | app/generateVBA.ts:41-42 | doubling quotes, then splicing `prompt` over the first quote-free sentinel, evaluates to the text with the first sentinel replaced by the prompt |
| Json.EscapeBody | app/generateVBA.ts:41 | a serialised string body holds no control character, and every quote in it is escaped |
| Json.UnescapeEscapeBody | app/generateVBA.ts:41 | reading a serialised string body back gives the original text |
| Json.IntText | app/generateVBA.ts:110-112 | an integer is serialised as a nonempty run of decimal digits |
| Json.DecimalValueIntText | app/generateVBA.ts:110-112 | the decimal digits of `n` denote `n` |
| Json.MessagesContain | app/generateVBA.ts:41 | the serialised messages hold a verbatim text exactly when some message content does |
| Json.RequestAround | app/generateVBA.ts:36-41 | a request whose last message is a user text serialises as the earlier part, the escaped text, then `"}]}` |
| Json.EscapeLength | app/generateVBA.ts:41 | escaping never shortens a text, and lengthens every text with a quote, backslash or control character |
| Json.PlainIffUnescaped | app/generateVBA.ts:41 | serialisation copies a text unchanged exactly when it has no quote, backslash or control character |
| Json.RequestTextPrintable | app/generateVBA.ts:41 | the serialised request holds no control character, so no line break |
| GenerateVba.PlaceholderVerbatim | app/generateVBA.ts:38 | the sentinel has no quote, starts with `<`, and is serialised unchanged |
| GenerateVba.ShotMessages | app/generateVBA.ts:26-35 | the loop pushes two messages per shot, user then assistant, carrying the shot's texts |
| GenerateVba.RequestOf | app/generateVBA.ts:19-39 | the built request holds the system prompt first, the shots in order, the sentinel user message last, and the provider's fixed members |
| GenerateVba.BuildRequest | app/generateVBA.ts:19-39 | the push loop builds exactly `RequestOf` |
| GenerateVba.GenerateOpenAI | app/generateVBA.ts:15-103 | returns the OpenAI module text |
| GenerateVba.GenerateAzureOpenAI | app/generateVBA.ts:105-195 | returns the Azure module text |
| GenerateVba.TemplateSlots | app/generateVBA.ts:44-102 | where each interpolated value lands among the 59 lines: declaration, URL, key, data, auth header, result and error assignments |
| GenerateVba.TemplateFixedLines | app/generateVBA.ts:136-194 | every other line is fixed text, the same for both providers and all inputs |
| GenerateVba.NameIndependent | app/generateVBA.ts:15-42 | the function name has no effect on the request, the URL or the key |
| GenerateVba.FunctionNamePlaces | app/generateVBA.ts:46-98 | changing the function name changes exactly lines 2, 46 and 54 of the module |
| GenerateVba.KeyLineValue | app/generateVBA.ts:16-59 | the key line assigns a literal whose value is the key as entered when the key is on one line, and has no value when the key holds a line break |
| GenerateVba.RequestOneLine | app/generateVBA.ts:41 | the serialised request of either provider holds no CR or LF, so the `data` literal stays on its line |
| GenerateVba.DataLineValue | app/generateVBA.ts:62 | the data line evaluates to the serialised request with its first sentinel replaced by the runtime prompt |
| Sentinel.OpenAIOpening | app/generateVBA.ts:19-20 | the OpenAI request serialises as `{"model":"gpt-4o","messages":[` before its messages |
| Sentinel.AzureOpening | app/generateVBA.ts:109-112 | the Azure request serialises as `{"temperature":0,"top_p":0.95,"max_tokens":800,"messages":[` before its messages |
| Sentinel.RequestAroundSentinel | app/generateVBA.ts:36-41 | the serialised request is the text before the sentinel, the sentinel, then `"}]}` |
| Sentinel.BeforeFree | app/generateVBA.ts:19-39 | the text before the sentinel holds it exactly when the system prompt or a shot does |
| Sentinel.SentinelPosition | app/generateVBA.ts:42 | the search finds the sentinel of the last message exactly when the user's texts are free of it |
| Sentinel.PromptLands | app/generateVBA.ts:41-42 | with sentinel-free inputs, `data` evaluates to the serialised request text with the raw runtime prompt in the sentinel's place |
| Sentinel.PromptRequest | app/generateVBA.ts:19-39 | the request the generator builds, with the runtime prompt as the last user message and everything else unchanged |
| Sentinel.PromptRequestText | app/generateVBA.ts:36-41 | that request serialises as the text before the sentinel, the escaped prompt, then `"}]}` |
| Sentinel.PromptRequestPlain | app/generateVBA.ts:36-41 | that serialisation copies the prompt as it is exactly when the prompt has no quote, backslash or control character |
| Sentinel.PromptSerialised | app/generateVBA.ts:41-42 | with sentinel-free inputs and a prompt needing no JSON escape, `data` is the serialisation of that request |
| Sentinel.PromptNotSerialised | app/generateVBA.ts:41-42 | with sentinel-free inputs and a prompt holding a quote, backslash or control character, `data` is not the serialisation of that request |
| Sentinel.PromptMisplaced | app/generateVBA.ts:42 | when an input holds the sentinel, the prompt replaces that occurrence, and the real sentinel is sent unchanged |
| LegacyPage.SpliceLineBreaks | app/page.tsx:16 | no CR or LF is left; a text without line breaks is unchanged |
| LegacyPage.SanitizeVBA | app/page.tsx:12-18 | no CR or LF is left; a text without quotes or line breaks is unchanged |
| LegacyPage.SanitizeStep | app/page.tsx:12-18 | a quote becomes `""`; CR LF, a lone CR or an LF becomes one `" & vbCrLf & "`; any other character is kept |
| LegacyPage.SanitizedRead | app/page.tsx:12-18 | inside a literal, the sanitised text reads back as the input with every line break as CR LF |
| LegacyPage.SanitizedValue | app/page.tsx:12-18 | a literal of the sanitised text evaluates to the input with line breaks normalised to CR LF |
| LegacyPage.NamePattern | app/page.tsx:132-133 | the pattern accepts exactly the nonempty names of ASCII letters, digits and `_`; a name with a space is refused |
| LegacyPage.WordRunAll | app/page.tsx:132-133 | the run of word characters covers the name exactly when every character is one |
| LegacyPage.ValidNameKept | app/page.tsx:28-34 | an accepted name is unchanged by `sanitizeVBA` |
| LegacyPage.PromptEscapeArguments | app/page.tsx:50-51 | after cooking, the two `Replace` calls take the strings "" and `\`, then `"` and `"` |
| LegacyPage.LegacySlots | app/page.tsx:34-91 | where the name, key and payload land; both return assignments name `ChatCompletion` |
| LegacyPage.LegacyNamePlaces | app/page.tsx:34-91 | the function name reaches the declaration line and no other line |
| LegacyPage.LegacyTrimmed | app/page.tsx:32-94 | trimming removes exactly the blank lines around `Function … End Function` |
| LegacyPage.LegacyScriptBody | app/page.tsx:28-94 | the stored script is exactly the lines from `Function` to `End Function` over the sanitised name, key and payload |
| LegacyPage.LegacyDataValue | app/page.tsx:54 | `data` evaluates to the gpt-4 JSON around the system prompt (line breaks as CR LF) and the runtime prompt |
| LegacyJson.LegacyDataJson | app/page.tsx:54 | for plain texts, that JSON is the `JSON.stringify` of a gpt-4 request with the system and user messages |
| LegacyJson.Gpt4Opening | app/page.tsx:54 | a gpt-4 request serialises as `{"model":"gpt-4","messages":[` before its messages |
| ScriptForm.DownloadName | app/page.tsx:127 | the file name ends in `.bas`; its stem is the function name, or `OpenAIModule` when the name is empty |
| ScriptForm.DownloadMatchesDeclaration | app/page.tsx:127 | for an accepted name, the file is named after the function the script declares on its first line |
| ScriptForm.RenderScript | app/page.tsx:28-94 | the rendered script is exactly the lines from `Function` to `End Function` over the sanitised name, key and payload; an accepted name appears as typed |
| ScriptForm.ScriptGenerator.constructor | app/page.tsx:21-25 | all five state values start empty, and generating is enabled |
| ScriptForm.ScriptGenerator.SetApiKey | app/page.tsx:160 | sets the key only, and keeps the error invariant |
| ScriptForm.ScriptGenerator.SetSystemPrompt | app/page.tsx:185 | sets the system prompt only, and keeps the error invariant |
| ScriptForm.ScriptGenerator.ValidateFunctionName | app/page.tsx:131-139 | returns whether the pattern matches; the error becomes empty or the message accordingly; nothing else changes |
| ScriptForm.ScriptGenerator.HandleFunctionNameChange | app/page.tsx:141-145 | stores the name; afterwards generating is enabled exactly when the name is accepted; the error invariant holds |
| ScriptForm.ScriptGenerator.SetGeneratedScript | app/page.tsx:96 | sets the script only |
| ScriptForm.ScriptGenerator.GenerateVBAScript | app/page.tsx:27-97 | the stored script is the trimmed template over the sanitised inputs; with an accepted name, its first line declares that name and the download is named after it |
| ScriptForm.ScriptGenerator.PressGenerate | app/page.tsx:190 | the button generates only while no name error is shown |

## Left out

- Rendering, clipboard copy and alerts (app/page.tsx:99-103 and the JSX of 148-219) are browser I/O and are not modelled. The handlers inside that JSX are modelled: `ScriptForm.ScriptGenerator.SetApiKey` (line 160), `SetSystemPrompt` (line 185), `HandleFunctionNameChange` (line 169) and `PressGenerate` (line 190).
- The download (app/page.tsx:105-129) is not modelled, except for the file name rule: the fetch of `JsonConverter.bas`, the Blobs and the object URLs are I/O.
- `app/providerConfig.tsx` and `next.config.mjs` are not part of this model. So the UI that collects `GenerationOptions` and chooses a provider is not modelled either.
- What the generated VBA does at run time is modelled only as far as the value of each string expression. MSXML2.XMLHTTP, `JsonConverter.ParseJson`, and `On Error` are out.
- The evaluator `Vba.Operand` covers only the shapes the generators write: literals joined by ` & ` to `prompt` or `vbCrLf`.
- Floating point: `top_p: 0.95` is held as its serialised text `0.95`, not as a number.
- `Json.EscapeBody`: it escapes per code point, so a lone surrogate half is not modelled. `JSON.stringify` would write it as `\udxxx`.
- `Text.ReplaceFirst`: its replacement strings contain no `$`, so `$`-patterns of `String.prototype.replace` are not modelled.
- `Json.RequestText` serialises the fixed request shapes the generators build, not arbitrary JavaScript values.
- `Sentinel.PromptLands`: `generateVBA.ts` never escapes `prompt`, neither at generation nor in the generated module. A runtime prompt with a quote, a backslash or a control character is pasted raw into the JSON, which is then not the serialisation of the request the generator builds with that prompt as its last message (`Sentinel.PromptRequest`) (`Sentinel.PromptSerialised` and `Sentinel.PromptNotSerialised` state the two directions).
- `GenerateVba.KeyLineValue`: a line break in the function name, the Azure endpoint or the deployment breaks the generated module too; the model does not evaluate the declaration, URL or assignment lines, only the key and `data` lines.
- `GenerateVba.DataLineValue`, `Vba.Operand`, `Sentinel.PromptLands` and `LegacyPage.LegacyDataValue`: the evaluator has no line-length limit and treats every character as surviving the VBA editor. The editor refuses a line longer than 1023 characters, and the whole payload sits on the one `data` line. A system prompt of a few hundred characters with a few shots is enough to exceed that limit. The editor also holds source text in the system's ANSI code page, and the downloaded module is UTF-8. So a `data` line over 1023 characters, or text outside that code page, gives a module that does not compile or a line with a different value from the one the model gives it.
- `LegacyJson.LegacyDataJson`: it is stated only for texts with no quote, backslash or control character. For other texts the hand-written JSON is either not valid JSON, or valid JSON for a different text. A quote ends the JSON string early, a line break arrives raw, and a backslash sequence such as `\n` or `\u0041` is read as an escape.
- Four behaviours of the source are easy to miss; the model follows the source:
  - The function-name pattern has no `\s`, so a name with a space is refused, even though the error message says spaces are allowed (`LegacyPage.NamePattern`).
  - `generateVBA.ts` does not escape `options.functionName`; it pastes the name as is (`GenerateVba.FunctionNamePlaces`).
  - page.tsx:50-51 sit inside a JavaScript template literal. `\"` cooks to `"` and `\\` cooks to `\`, so the generated lines are `Replace(prompt, "", "\")` and `Replace(prompt, """", """")`. Replacing the empty string and replacing a quote by a quote leave the prompt as it is, so the prompt is not escaped at run time (`LegacyPage.PromptEscapeArguments`).
  - A system prompt or shot that contains `<!-PROMPT_PLACEHOLDER-!>` takes the prompt in place of the real sentinel (`Sentinel.PromptMisplaced`).
