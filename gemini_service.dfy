/** The Google Gemini summary service (services/geminiService.ts). The SDK's
    `generateContent` is a parameter: a function from the full prompt to the
    generated text or an error message. */
module GeminiService {
  import opened Wrappers
  import opened Text
  import opened Constants
  import Generation

  const MISSING_KEY_MESSAGE: string :=
    "A chave da API do " + "Google não está " + "configurada. Por " + "favor, configure a "
    + "variável de ambiente " + "API_KEY."
  const INVALID_KEY_MESSAGE: string := "Chave de API do Google inválida. Verifique suas configurações."
  const GENERIC_MESSAGE: string := "Falha ao gerar resumo com a API do Google Gemini."

  /** `getAiInstance`'s check: the variable is unset or empty. */
  predicate KeyMissing(apiKey: Option<string>)
  {
    apiKey.None? || apiKey.value == ""
  }

  /** The text sent to the model: the prompt, a blank line, the process text. */
  function FullPrompt(prompt: string, text: string): (r: string)
    ensures StartsWith(r, prompt) && EndsWith(r, text)
    ensures |r| == |prompt| + 2 + |text|
  {
    var r := prompt + "\n\n" + text;
    assert r[..|prompt|] == prompt;
    assert r[|r| - |text|..] == text;
    r
  }

  /** The message `callGemini` rethrows for a caught error message. */
  function MapError(message: string): (r: string)
    ensures r == INVALID_KEY_MESSAGE <==> Contains(message, "API key not valid") || Contains(message, "API_KEY_INVALID")
    ensures r == INVALID_KEY_MESSAGE || r == GENERIC_MESSAGE
  {
    if Contains(message, "API key not valid") || Contains(message, "API_KEY_INVALID") then INVALID_KEY_MESSAGE
    else
      assert |GENERIC_MESSAGE| != |INVALID_KEY_MESSAGE|;
      GENERIC_MESSAGE
  }

  /** The prompt for each kind of summary; the simplified one ignores the size. */
  function PromptFor(kind: Generation.Kind, size: Size): string
  {
    match kind
    case Technical => TechnicalPrompt(size)
    case Simplified => SIMPLIFIED_PROMPT
  }

  /** `callGemini`: the missing-key error is thrown inside the `try`, so it is
      mapped like any other error. */
  function CallGemini(apiKey: Option<string>, generate: string -> Result<string, string>,
                      prompt: string, text: string): Result<string, string>
  {
    if KeyMissing(apiKey) then Failure(MapError(MISSING_KEY_MESSAGE))
    else
      match generate(FullPrompt(prompt, text))
      case Success(t) => Success(t)
      case Failure(m) => Failure(MapError(m))
  }

  /** The summary call of one request: the prompt of its kind and size, then the text. */
  function SummaryCall(apiKey: Option<string>, generate: string -> Result<string, string>,
                       size: Size, text: string): Generation.Kind -> Generation.Reply
  {
    (k: Generation.Kind) => Generation.Resolved(CallGemini(apiKey, generate, PromptFor(k, size), text))
  }

  /** A missing key fails before any request, with the generic failure message
      rather than its own: the configuration message never reaches a caller. */
  lemma MissingKeyFailsGenerically(apiKey: Option<string>, g1: string -> Result<string, string>,
                                   g2: string -> Result<string, string>, prompt: string, text: string)
    requires KeyMissing(apiKey)
    ensures CallGemini(apiKey, g1, prompt, text) == CallGemini(apiKey, g2, prompt, text)
    ensures CallGemini(apiKey, g1, prompt, text) == Failure(GENERIC_MESSAGE)
  {
    MissingKeyMessageMapsToGeneric();
  }

  lemma MissingKeyMessageMapsToGeneric()
    ensures MapError(MISSING_KEY_MESSAGE) == GENERIC_MESSAGE
  {
    MissingKeyMessageLacks();
    assert "API key not valid"[4] == 'k';
    NotContainsByChar(MISSING_KEY_MESSAGE, "API key not valid", 4);
    assert "API_KEY_INVALID"[10] == 'V';
    NotContainsByChar(MISSING_KEY_MESSAGE, "API_KEY_INVALID", 10);
  }

  lemma MissingKeyMessageLacks()
    ensures 'k' !in MISSING_KEY_MESSAGE && 'V' !in MISSING_KEY_MESSAGE
  {
    var p1, p2, p3 := "A chave da API do ", "Google não está ", "configurada. Por ";
    var p4, p5, p6 := "favor, configure a ", "variável de ambiente ", "API_KEY.";
    assert 'k' !in p1 && 'V' !in p1;
    assert 'k' !in p2 && 'V' !in p2;
    assert 'k' !in p3 && 'V' !in p3;
    assert 'k' !in p4 && 'V' !in p4;
    assert 'k' !in p5 && 'V' !in p5;
    assert 'k' !in p6 && 'V' !in p6;
    CharNotInAppend(p1, p2);
    CharNotInAppend(p1 + p2, p3);
    CharNotInAppend(p1 + p2 + p3, p4);
    CharNotInAppend(p1 + p2 + p3 + p4, p5);
    CharNotInAppend(p1 + p2 + p3 + p4 + p5, p6);
  }

  lemma CharNotInAppend(a: string, b: string)
    ensures forall c :: c !in a && c !in b ==> c !in a + b
  {
  }

  /** Every failure `callGemini` reports is one of its two messages. */
  lemma CallGeminiFailures(apiKey: Option<string>, generate: string -> Result<string, string>,
                           prompt: string, text: string)
    ensures CallGemini(apiKey, generate, prompt, text).Failure? ==>
      CallGemini(apiKey, generate, prompt, text).error in {INVALID_KEY_MESSAGE, GENERIC_MESSAGE}
    ensures !KeyMissing(apiKey) && generate(FullPrompt(prompt, text)).Success? ==>
      CallGemini(apiKey, generate, prompt, text) == Success(generate(FullPrompt(prompt, text)).value)
  {
  }

  /** Every failure of the Gemini pipeline is one of `callGemini`'s two messages. */
  lemma OutcomeFailures(apiKey: Option<string>, generate: string -> Result<string, string>,
                        text: string, options: Generation.Options)
    ensures Generation.Outcome(options, SummaryCall(apiKey, generate, options.size, text)).Failure? ==>
      Generation.Outcome(options, SummaryCall(apiKey, generate, options.size, text)).error
        in {INVALID_KEY_MESSAGE, GENERIC_MESSAGE}
  {
    var call := SummaryCall(apiKey, generate, options.size, text);
    Generation.OutcomeFailure(options, call);
    CallGeminiFailures(apiKey, generate, PromptFor(Generation.Technical, options.size), text);
    CallGeminiFailures(apiKey, generate, PromptFor(Generation.Simplified, options.size), text);
  }

  /** With no key, any generation that requests a summary fails with the
      generic message, whatever the model would have answered. */
  lemma MissingKeyOutcome(apiKey: Option<string>, generate: string -> Result<string, string>,
                          text: string, options: Generation.Options)
    requires KeyMissing(apiKey)
    ensures options.generateTechnical || options.generateSimplified ==>
      Generation.Outcome(options, SummaryCall(apiKey, generate, options.size, text)) == Failure(GENERIC_MESSAGE)
  {
    MissingKeyFailsGenerically(apiKey, generate, generate, PromptFor(Generation.Technical, options.size), text);
    MissingKeyFailsGenerically(apiKey, generate, generate, PromptFor(Generation.Simplified, options.size), text);
    Generation.OutcomeFailure(options, SummaryCall(apiKey, generate, options.size, text));
  }

  /** The full prompts the requested calls send, technical first. */
  function Requests(options: Generation.Options, text: string): seq<string>
  {
    (if options.generateTechnical then [FullPrompt(TechnicalPrompt(options.size), text)] else [])
    + (if options.generateSimplified then [FullPrompt(SIMPLIFIED_PROMPT, text)] else [])
  }

  /** One request per requested kind, in order: the prompt of that kind and
      size, a blank line, the text; the simplified prompt does not depend on
      the size. */
  lemma RequestsFollowOptions(options: Generation.Options, text: string)
    ensures |Requests(options, text)| == |Generation.Requested(options)|
    ensures forall i | 0 <= i < |Requests(options, text)| ::
      Requests(options, text)[i] == FullPrompt(PromptFor(Generation.Requested(options)[i], options.size), text)
    ensures !options.generateTechnical ==> forall size: Size ::
      Requests(Generation.Options(false, options.generateSimplified, size), text) == Requests(options, text)
  {
  }

  /** The Gemini pipeline succeeds exactly when every requested call does; each
      requested field is then its call's text, an unrequested one is undefined. */
  lemma OutcomeValues(apiKey: Option<string>, generate: string -> Result<string, string>,
                      text: string, options: Generation.Options)
    ensures var r := Generation.Outcome(options, SummaryCall(apiKey, generate, options.size, text));
      && (r.Success? <==>
           (options.generateTechnical ==> CallGemini(apiKey, generate, TechnicalPrompt(options.size), text).Success?)
           && (options.generateSimplified ==> CallGemini(apiKey, generate, SIMPLIFIED_PROMPT, text).Success?))
      && (r.Success? ==>
           r.value.technical == (if options.generateTechnical
             then Some(CallGemini(apiKey, generate, TechnicalPrompt(options.size), text).value) else None))
      && (r.Success? ==>
           r.value.simplified == (if options.generateSimplified
             then Some(CallGemini(apiKey, generate, SIMPLIFIED_PROMPT, text).value) else None))
  {
    var call := SummaryCall(apiKey, generate, options.size, text);
    assert call(Generation.Technical) == Generation.Resolved(CallGemini(apiKey, generate, TechnicalPrompt(options.size), text));
    assert call(Generation.Simplified) == Generation.Resolved(CallGemini(apiKey, generate, SIMPLIFIED_PROMPT, text));
  }

  /** The full prompt each issued call sends: none when the key is missing,
      since `getAiInstance` throws before `generateContent` is reached. */
  function Sent(apiKey: Option<string>, issued: seq<Generation.Kind>, size: Size, text: string): (r: seq<string>)
    ensures KeyMissing(apiKey) ==> r == []
    ensures !KeyMissing(apiKey) ==> |r| == |issued|
    ensures !KeyMissing(apiKey) ==>
      forall i | 0 <= i < |issued| :: r[i] == FullPrompt(PromptFor(issued[i], size), text)
  {
    if KeyMissing(apiKey) then []
    else seq(|issued|, i requires 0 <= i < |issued| => FullPrompt(PromptFor(issued[i], size), text))
  }

  /** The prompts the issued calls send are the requests of the options, or
      none when the key is missing. */
  lemma SentFollowsOptions(apiKey: Option<string>, options: Generation.Options, text: string)
    ensures Sent(apiKey, Generation.Requested(options), options.size, text)
      == if KeyMissing(apiKey) then [] else Requests(options, text)
  {
    RequestsFollowOptions(options, text);
  }

  /** `generateSummaries` with the Gemini call: `requests` are the full prompts
      that reach the model, technical first, and none when the key is missing. */
  method GenerateSummaries(apiKey: Option<string>, generate: string -> Result<string, string>,
                           text: string, options: Generation.Options)
    returns (r: Result<Generation.Summaries, string>, requests: seq<string>)
    ensures requests == if KeyMissing(apiKey) then [] else Requests(options, text)
    ensures r == Generation.Outcome(options, SummaryCall(apiKey, generate, options.size, text))
    ensures r.Failure? ==> r.error in {INVALID_KEY_MESSAGE, GENERIC_MESSAGE}
    ensures KeyMissing(apiKey) && (options.generateTechnical || options.generateSimplified) ==>
      r == Failure(GENERIC_MESSAGE)
    ensures !options.generateTechnical && !options.generateSimplified ==>
      r == Success(Generation.Summaries(None, None)) && requests == []
  {
    var call := SummaryCall(apiKey, generate, options.size, text);
    var issued;
    r, issued := Generation.GenerateSummaries(options, call);
    requests := Sent(apiKey, issued, options.size, text);
    SentFollowsOptions(apiKey, options, text);
    OutcomeFailures(apiKey, generate, text, options);
    if KeyMissing(apiKey) {
      MissingKeyOutcome(apiKey, generate, text, options);
    }
  }
}
