/** The form of app/page.tsx: the five pieces of state the component keeps,
    the handlers that update them, and the name of the file it downloads. */
module ScriptForm {
  import opened Text
  import opened GenerateVba
  import opened LegacyPage

  /** `${functionName || 'OpenAIModule'}.bas`: the empty name falls back to
      `OpenAIModule`. */
  function DownloadName(functionName: string): (n: string)
    ensures |n| >= 4 && n[|n| - 4..] == ".bas"
    ensures functionName != "" ==> n[..|n| - 4] == functionName
    ensures functionName == "" ==> n == "OpenAIModule.bas"
  {
    (if functionName != "" then functionName else "OpenAIModule") + ".bas"
  }

  /** For an accepted name, the module file is named after the one function
      the script declares: sanitising leaves the name as typed, and trimming
      leaves exactly the lines from its declaration (`LegacySlots`: line 0)
      to `End Function`. */
  lemma DownloadMatchesDeclaration(functionName: string, apiKey: string, systemPrompt: string)
    requires MatchesNamePattern(functionName)
    ensures DownloadName(functionName) == functionName + ".bas"
    ensures LegacyScript(functionName, apiKey, systemPrompt)
         == JoinLines(LegacyBody(functionName, SanitizeVBA(apiKey), LegacyPayload(SanitizeVBA(systemPrompt))))
  {
    ValidNameKept(functionName);
    LegacyScriptBody(functionName, apiKey, systemPrompt);
  }

  /** The body of `generateVBAScript` up to the state update: sanitise the
      three inputs, fill the template, trim. Trimming leaves exactly the lines
      from `Function` to `End Function`, and an accepted name is declared as
      typed. */
  method RenderScript(functionName: string, apiKey: string, systemPrompt: string) returns (script: string)
    ensures script == JoinLines(LegacyBody(SanitizeVBA(functionName), SanitizeVBA(apiKey), LegacyPayload(SanitizeVBA(systemPrompt))))
    ensures MatchesNamePattern(functionName) ==>
      script == JoinLines(LegacyBody(functionName, SanitizeVBA(apiKey), LegacyPayload(SanitizeVBA(systemPrompt))))
  {
    var sanitizedFunctionName := SanitizeVBA(functionName);
    var sanitizedSystemPrompt := SanitizeVBA(systemPrompt);
    var sanitizedApiKey := SanitizeVBA(apiKey);
    var lines := LegacyTemplate(sanitizedFunctionName, sanitizedApiKey, LegacyPayload(sanitizedSystemPrompt));
    script := Trim(JoinLines(lines));
    LegacyScriptBody(functionName, apiKey, systemPrompt);
    if MatchesNamePattern(functionName) {
      ValidNameKept(functionName);
    }
  }

  /** The component's `useState` hooks, as fields the handlers assign. */
  class ScriptGenerator {
    var apiKey: string
    var functionName: string
    var systemPrompt: string
    var generatedScript: string
    var functionNameError: string

    /** The error shown is either none or the one message, and it is shown
        exactly when a name has been typed that the pattern refuses. */
    predicate Valid()
      reads this
    {
      || (functionNameError == "" && (functionName == "" || MatchesNamePattern(functionName)))
      || (functionNameError == NameError && !MatchesNamePattern(functionName))
    }

    /** The generate button is enabled while no name error is shown. */
    predicate CanGenerate()
      reads this
    {
      functionNameError == ""
    }

    /** The name the script file is downloaded under. */
    function DownloadFileName(): string
      reads this
    {
      DownloadName(functionName)
    }

    /** Every piece of state starts empty; the empty name is not checked
        until it is edited, so generating is allowed at first. */
    constructor ()
      ensures apiKey == "" && functionName == "" && systemPrompt == ""
      ensures generatedScript == "" && functionNameError == ""
      ensures Valid() && CanGenerate()
    {
      apiKey := "";
      functionName := "";
      systemPrompt := "";
      generatedScript := "";
      functionNameError := "";
    }

    method SetApiKey(value: string)
      modifies this
      ensures apiKey == value
      ensures functionName == old(functionName) && systemPrompt == old(systemPrompt)
      ensures generatedScript == old(generatedScript) && functionNameError == old(functionNameError)
      ensures old(Valid()) ==> Valid()
    {
      apiKey := value;
    }

    method SetSystemPrompt(value: string)
      modifies this
      ensures systemPrompt == value
      ensures apiKey == old(apiKey) && functionName == old(functionName)
      ensures generatedScript == old(generatedScript) && functionNameError == old(functionNameError)
      ensures old(Valid()) ==> Valid()
    {
      systemPrompt := value;
    }

    /** Tests `name` against `^[a-zA-Z0-9_]+$`, shows or clears the error,
        and reports the outcome. */
    method ValidateFunctionName(name: string) returns (ok: bool)
      modifies this
      ensures ok <==> MatchesNamePattern(name)
      ensures functionNameError == (if ok then "" else NameError)
      ensures apiKey == old(apiKey) && functionName == old(functionName)
      ensures systemPrompt == old(systemPrompt) && generatedScript == old(generatedScript)
    {
      if !MatchesNamePattern(name) {
        functionNameError := NameError;
        return false;
      }
      functionNameError := "";
      return true;
    }

    /** Stores the edited name and checks it: afterwards generating is
        allowed exactly when the name is accepted. */
    method HandleFunctionNameChange(newName: string)
      modifies this
      ensures functionName == newName
      ensures CanGenerate() <==> MatchesNamePattern(newName)
      ensures functionNameError == "" || functionNameError == NameError
      ensures apiKey == old(apiKey) && systemPrompt == old(systemPrompt)
      ensures generatedScript == old(generatedScript)
      ensures Valid()
    {
      functionName := newName;
      var _ := ValidateFunctionName(newName);
    }

    method SetGeneratedScript(value: string)
      modifies this
      ensures generatedScript == value
      ensures apiKey == old(apiKey) && functionName == old(functionName)
      ensures systemPrompt == old(systemPrompt) && functionNameError == old(functionNameError)
      ensures old(Valid()) ==> Valid()
    {
      generatedScript := value;
    }

    /** Sanitises the three inputs, fills the template, trims it and stores
        the script; nothing else changes. */
    method GenerateVBAScript()
      modifies this
      ensures generatedScript == LegacyScript(old(functionName), old(apiKey), old(systemPrompt))
      ensures apiKey == old(apiKey) && functionName == old(functionName)
      ensures systemPrompt == old(systemPrompt) && functionNameError == old(functionNameError)
      ensures old(Valid()) ==> Valid()
      ensures Valid() && CanGenerate() && functionName != "" ==>
        generatedScript == JoinLines(LegacyBody(functionName, SanitizeVBA(apiKey), LegacyPayload(SanitizeVBA(systemPrompt))))
        && DownloadFileName() == functionName + ".bas"
    {
      var name, key, prompt := functionName, apiKey, systemPrompt;
      var script := RenderScript(name, key, prompt);
      LegacyScriptBody(name, key, prompt);
      SetGeneratedScript(script);
      if Valid() && CanGenerate() && name != "" {
        DownloadMatchesDeclaration(name, key, prompt);
      }
    }

    /** The generate button: it does nothing while a name error is shown. */
    method PressGenerate()
      modifies this
      ensures old(CanGenerate()) ==> generatedScript == LegacyScript(old(functionName), old(apiKey), old(systemPrompt))
      ensures !old(CanGenerate()) ==> generatedScript == old(generatedScript)
      ensures apiKey == old(apiKey) && functionName == old(functionName)
      ensures systemPrompt == old(systemPrompt) && functionNameError == old(functionNameError)
    {
      if CanGenerate() {
        GenerateVBAScript();
      }
    }
  }
}
