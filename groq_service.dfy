/** The Groq summary service (src/services/geminiService.ts). The HTTP
    request is a parameter: a function from the prompt to the decoded
    response, or to the message of a network error. */
module GroqService {
  import opened Wrappers
  import opened Text
  import opened Constants
  import Generation

  const KEY_MESSAGE: string :=
    "Configure VITE_API_KEY com uma chave válida do Groq (iniciando com gsk_) no seu ambiente."
  const EMPTY_RESPONSE_MESSAGE: string := "A API Groq retornou uma resposta inesperada ou vazia."

  /** How many characters of the process text a prompt embeds. */
  const PROMPT_TEXT_LIMIT: nat := 100000

  /** The key check: present and starting with `gsk_`. */
  predicate ValidKey(apiKey: Option<string>)
  {
    apiKey.Some? && apiKey.value != "" && StartsWith(apiKey.value, "gsk_")
  }

  /** `maxPalavras`: the word budget of a summary. */
  function MaxWords(kind: Generation.Kind, size: Size): (n: nat)
    ensures kind == Generation.Simplified ==> n == 800
    ensures kind == Generation.Technical ==> n == (match size case Short => 500 case Medium => 1000 case Long => 1500)
  {
    match kind
    case Simplified => 800
    case Technical =>
      match size
      case Short => 500
      case Medium => 1000
      case Long => 1500
  }

  /** `text.substring(0, 100000)`. */
  function PromptText(text: string): (r: string)
    ensures |text| <= PROMPT_TEXT_LIMIT ==> r == text
    ensures |text| > PROMPT_TEXT_LIMIT ==> |r| == PROMPT_TEXT_LIMIT
    ensures r == text[..|r|]
  {
    if |text| <= PROMPT_TEXT_LIMIT then text else text[..PROMPT_TEXT_LIMIT]
  }

  const TECHNICAL_INTRO: string := "Resuma em até "
  const TECHNICAL_OUTLINE: string :=
    " palavras, em português jurídico formal:\n1. **Número do Processo**\n2. **Partes** (Autor, Réu, Advogados)\n3. **Objeto da Ação**\n4. **Pedido Principal**\n5. **Fatos Relevantes** (cronologia em 5-8 pontos)\n6. **Decisão Mais Recente**\n7. **Status Atual**\n8. **Riscos e Próximos Passos**\n\nTexto do processo:\n"
  const SIMPLIFIED_INTRO: string := "Explique em linguagem simples, até "
  const SIMPLIFIED_OUTLINE: string :=
    " palavras:\n1. O que está acontecendo?\n2. Quem está processando quem e por quê?\n3. O que o autor quer?\n4. O que já rolou no processo?\n5. O que o juiz decidiu por último?\n6. O processo está ganho, perdido ou em andamento?\n7. O que vai acontecer agora?\n\nTexto:\n"
  const TRIPLE_QUOTE: string := "\"\"\""

  /** The prompt of a summary: its instructions with the word budget, then the
      first 100000 characters of the text between triple quotes. */
  function GroqPrompt(kind: Generation.Kind, size: Size, text: string): string
  {
    var (intro, outline) := match kind
      case Technical => (TECHNICAL_INTRO, TECHNICAL_OUTLINE)
      case Simplified => (SIMPLIFIED_INTRO, SIMPLIFIED_OUTLINE);
    intro + NatToString(MaxWords(kind, size)) + outline + (TRIPLE_QUOTE + PromptText(text) + TRIPLE_QUOTE)
  }

  /** The prompt ends with the quoted text prefix, so text beyond the limit
      never reaches the provider. */
  lemma GroqPromptEmbedsTextPrefix(kind: Generation.Kind, size: Size, text: string, other: string)
    ensures EndsWith(GroqPrompt(kind, size, text), TRIPLE_QUOTE + PromptText(text) + TRIPLE_QUOTE)
    ensures PromptText(text) == PromptText(other) ==> GroqPrompt(kind, size, text) == GroqPrompt(kind, size, other)
  {
    var tail := TRIPLE_QUOTE + PromptText(text) + TRIPLE_QUOTE;
    var p := GroqPrompt(kind, size, text);
    assert p[|p| - |tail|..] == tail;
  }

  /** The word budget is written right after the opening words of the prompt. */
  lemma GroqPromptEmbedsBudget(kind: Generation.Kind, size: Size, text: string)
    ensures kind == Generation.Technical ==>
      MatchesAt(GroqPrompt(kind, size, text), |TECHNICAL_INTRO|, NatToString(MaxWords(kind, size)))
    ensures kind == Generation.Simplified ==>
      MatchesAt(GroqPrompt(kind, size, text), |SIMPLIFIED_INTRO|, NatToString(MaxWords(kind, size)))
  {
    var tail := TRIPLE_QUOTE + PromptText(text) + TRIPLE_QUOTE;
    var w := NatToString(MaxWords(kind, size));
    match kind
    case Technical =>
      MatchesInMiddle(TECHNICAL_INTRO, w, TECHNICAL_OUTLINE);
      MatchesExtend(TECHNICAL_INTRO + w + TECHNICAL_OUTLINE, tail, |TECHNICAL_INTRO|, w);
    case Simplified =>
      MatchesInMiddle(SIMPLIFIED_INTRO, w, SIMPLIFIED_OUTLINE);
      MatchesExtend(SIMPLIFIED_INTRO + w + SIMPLIFIED_OUTLINE, tail, |SIMPLIFIED_INTRO|, w);
  }

  /** The `message` of a choice; its `content` may be missing. */
  datatype Message = Message(content: Option<string>)

  /** The first choice of a chat completion; `message` may be missing. */
  datatype Choice = Choice(message: Option<Message>)

  /** The part of the HTTP response the service looks at. */
  datatype Response = Response(ok: bool, status: nat, choices: Option<seq<Choice>>)

  const STATUS_PREFIX: string := "Erro na API Groq: "
  const STATUS_SUFFIX: string := ". Verifique sua chave e o status do serviço."

  /** The error for a response whose status is not ok. */
  function StatusMessage(status: nat): string
  {
    STATUS_PREFIX + NatToString(status) + STATUS_SUFFIX
  }

  lemma InfixCancel(p: string, x: string, y: string, s: string)
    requires p + x + s == p + y + s
    ensures x == y
  {
    assert |x| == |y|;
    assert x == (p + x + s)[|p|..|p| + |x|];
    assert y == (p + y + s)[|p|..|p| + |y|];
  }

  /** Different statuses give different messages. */
  lemma StatusMessageInjective(a: nat, b: nat)
    requires StatusMessage(a) == StatusMessage(b)
    ensures a == b
  {
    InfixCancel(STATUS_PREFIX, NatToString(a), NatToString(b), STATUS_SUFFIX);
    if a != b {
      NatToStringInjective(a, b);
    }
  }

  /** The checks on a response: a non-ok status, then missing or empty
      choices or a first choice without a message. Only the message is
      checked, so a message without content resolves to undefined. */
  function ReadResponse(response: Response): (r: Generation.Reply)
    ensures !response.ok ==> r == Failure(StatusMessage(response.status))
    ensures r.Success? <==> response.ok && response.choices.Some? && |response.choices.value| > 0
                            && response.choices.value[0].message.Some?
    ensures r.Success? ==> r.value == response.choices.value[0].message.value.content
    ensures response.ok && r.Failure? ==> r.error == EMPTY_RESPONSE_MESSAGE
  {
    if !response.ok then Failure(StatusMessage(response.status))
    else if response.choices.None? || |response.choices.value| == 0 || response.choices.value[0].message.None? then
      Failure(EMPTY_RESPONSE_MESSAGE)
    else Success(response.choices.value[0].message.value.content)
  }

  /** `callGroq`: the key check, then one request, then the response checks. */
  function CallGroq(apiKey: Option<string>, post: string -> Result<Response, string>,
                    text: string, kind: Generation.Kind, size: Size): Generation.Reply
  {
    if !ValidKey(apiKey) then Failure(KEY_MESSAGE)
    else
      match post(GroqPrompt(kind, size, text))
      case Failure(m) => Failure(m)
      case Success(response) => ReadResponse(response)
  }

  /** A bad key fails before any request: the outcome does not depend on the transport. */
  lemma InvalidKeyFailsBeforeRequest(apiKey: Option<string>, p1: string -> Result<Response, string>,
                                     p2: string -> Result<Response, string>,
                                     text: string, kind: Generation.Kind, size: Size)
    requires !ValidKey(apiKey)
    ensures CallGroq(apiKey, p1, text, kind, size) == CallGroq(apiKey, p2, text, kind, size)
    ensures CallGroq(apiKey, p1, text, kind, size) == Failure(KEY_MESSAGE)
  {
  }

  /** The summary call of one request. */
  function SummaryCall(apiKey: Option<string>, post: string -> Result<Response, string>,
                       text: string, size: Size): Generation.Kind -> Generation.Reply
  {
    (k: Generation.Kind) => CallGroq(apiKey, post, text, k, size)
  }

  /** The prompt each issued call posts: none when the key is rejected, since
      the key check comes before `fetch`. */
  function Sent(apiKey: Option<string>, issued: seq<Generation.Kind>, size: Size, text: string): (r: seq<string>)
    ensures !ValidKey(apiKey) ==> r == []
    ensures ValidKey(apiKey) ==> |r| == |issued|
    ensures ValidKey(apiKey) ==> forall i | 0 <= i < |issued| :: r[i] == GroqPrompt(issued[i], size, text)
  {
    if !ValidKey(apiKey) then []
    else seq(|issued|, i requires 0 <= i < |issued| => GroqPrompt(issued[i], size, text))
  }

  /** `generateSummaries` with the Groq call: `requests` are the prompts posted,
      technical first, and none with a rejected key. The failure rethrown is
      the failing call's own error, the technical one when both fail. */
  method GenerateSummaries(apiKey: Option<string>, post: string -> Result<Response, string>,
                           text: string, options: Generation.Options)
    returns (r: Result<Generation.Summaries, string>, requests: seq<string>)
    ensures requests == if !ValidKey(apiKey) then [] else
      (if options.generateTechnical then [GroqPrompt(Generation.Technical, options.size, text)] else [])
      + (if options.generateSimplified then [GroqPrompt(Generation.Simplified, options.size, text)] else [])
    ensures r.Success? <==> forall k | k in Generation.Requested(options) ::
      CallGroq(apiKey, post, text, k, options.size).Success?
    ensures r.Success? ==>
      r.value.technical == (if options.generateTechnical
        then CallGroq(apiKey, post, text, Generation.Technical, options.size).value else None)
    ensures r.Success? ==>
      r.value.simplified == (if options.generateSimplified
        then CallGroq(apiKey, post, text, Generation.Simplified, options.size).value else None)
    ensures options.generateTechnical && CallGroq(apiKey, post, text, Generation.Technical, options.size).Failure? ==>
      r == Failure(CallGroq(apiKey, post, text, Generation.Technical, options.size).error)
    ensures r.Failure? ==> exists k | k in Generation.Requested(options) ::
      CallGroq(apiKey, post, text, k, options.size) == Failure(r.error)
    ensures !ValidKey(apiKey) && (options.generateTechnical || options.generateSimplified) ==> r == Failure(KEY_MESSAGE)
    ensures !options.generateTechnical && !options.generateSimplified ==>
      r == Success(Generation.Summaries(None, None)) && requests == []
  {
    var call := SummaryCall(apiKey, post, text, options.size);
    var issued;
    r, issued := Generation.GenerateSummaries(options, call);
    requests := Sent(apiKey, issued, options.size, text);
  }
}
