/** The summarising page (pages/HomePage.tsx): the text to summarise, the
    options, the summaries shown, and the handlers that upload a file, edit the
    text and generate. Handlers return the notices they raise; showing them is
    the toast provider's work. */
module HomePage {
  import opened Wrappers
  import opened Text
  import opened Constants
  import opened Types
  import opened UseToast
  import HistoryService
  import FileParser
  import GeminiService
  import Generation
  import HistoryPage

  const FILE_TOO_LARGE_MESSAGE: string := "Erro: O arquivo excede o limite de 50MB."
  const TEXT_TRUNCATED_MESSAGE: string :=
    "Aviso: O texto extraído excede " + NatToString(MAX_TEXT_LENGTH) + " caracteres e foi truncado."
  const FILE_PROCESSED_MESSAGE: string := "Arquivo processado com sucesso!"
  const FILE_FAILED_MESSAGE: string := "Falha ao processar o arquivo. Verifique o formato."
  const TEXT_TOO_LONG_MESSAGE: string := "O texto não pode exceder " + NatToString(MAX_TEXT_LENGTH) + " caracteres."
  const EMPTY_TEXT_MESSAGE: string := "Por favor, insira um texto ou envie um arquivo."
  const NO_KIND_MESSAGE: string := "Selecione ao menos um tipo de resumo para gerar."
  const SAVED_MESSAGE: string := "Resumos gerados e salvos no histórico!"
  const KEY_MISSING_CODE: string := "API_KEY_MISSING"
  const KEY_NOT_CONFIGURED_MESSAGE: string := "Erro: A chave de API do Google não foi configurada."

  /** The case number saved when the technical summary has none. */
  const NOT_FOUND: string := "Não encontrado"
  /** The case number an export file is named after when the summary has none. */
  const EXPORT_FALLBACK: string := "Export"
  /** Below this many characters a summary counts as short. */
  const SHORT_LIMIT: nat := 50

  // ---------------------------------------------------------------------------
  // Text limits

  /** `substring(0, MAX_TEXT_LENGTH)` applied to an over-long text. */
  function Truncate(text: string): (r: string)
    ensures |r| <= MAX_TEXT_LENGTH && |r| <= |text| && r == text[..|r|]
    ensures |text| <= MAX_TEXT_LENGTH ==> r == text
    ensures |text| > MAX_TEXT_LENGTH ==> |r| == MAX_TEXT_LENGTH
  {
    if |text| > MAX_TEXT_LENGTH then text[..MAX_TEXT_LENGTH] else text
  }

  /** Truncating twice is truncating once. */
  lemma TruncateIdempotent(text: string)
    ensures Truncate(Truncate(text)) == Truncate(text)
  {
  }

  // ---------------------------------------------------------------------------
  // Summaries as shown and saved

  /** The summaries the page shows: a summary that was not produced is empty. */
  datatype Shown = Shown(technical: string, simplified: string)

  function FinalSummaries(result: Generation.Summaries): Shown
  {
    Shown(result.technical.GetOr(""), result.simplified.GetOr(""))
  }

  /** The short-result warning under the summaries. */
  predicate ShortResultWarning(summaries: Option<Shown>, isLoading: bool)
  {
    summaries.Some? && |summaries.value.technical| < SHORT_LIMIT
    && |summaries.value.simplified| < SHORT_LIMIT && !isLoading
  }

  /** A summary that was not requested counts as short: with one kind
      requested, the warning depends on that summary alone. */
  lemma UnrequestedSummaryCountsAsShort(result: Generation.Summaries)
    ensures result.simplified.None? ==>
      (ShortResultWarning(Some(FinalSummaries(result)), false) <==> |result.technical.GetOr("")| < SHORT_LIMIT)
    ensures result.technical.None? ==>
      (ShortResultWarning(Some(FinalSummaries(result)), false) <==> |result.simplified.GetOr("")| < SHORT_LIMIT)
    ensures !ShortResultWarning(Some(FinalSummaries(result)), true)
  {
  }

  // ---------------------------------------------------------------------------
  // The case number: `/\*\*Número do Processo:\*\*\s*(.*)/`, then `trim`

  /** Where `\s*` stops: the first index at or after `j` that is not whitespace. */
  function SkipWhitespace(s: string, j: nat): (r: nat)
    requires j <= |s|
    ensures j <= r <= |s|
    ensures forall i | j <= i < r :: IsWhitespace(s[i])
    ensures r == |s| || !IsWhitespace(s[r])
    decreases |s| - j
  {
    if j == |s| || !IsWhitespace(s[j]) then j else SkipWhitespace(s, j + 1)
  }

  /** Where `.*` stops: the first line terminator at or after `j`, or the end. */
  function LineEnd(s: string, j: nat): (r: nat)
    requires j <= |s|
    ensures j <= r <= |s|
    ensures forall i | j <= i < r :: !IsLineTerminator(s[i])
    ensures r == |s| || IsLineTerminator(s[r])
    decreases |s| - j
  {
    if j == |s| || IsLineTerminator(s[j]) then j else LineEnd(s, j + 1)
  }

  /** `s[p..j]` is all whitespace, and `j` is where that run stops. */
  predicate WhitespaceRun(s: string, p: nat, j: nat)
    requires p <= j <= |s|
  {
    (forall i | p <= i < j :: IsWhitespace(s[i])) && (j == |s| || !IsWhitespace(s[j]))
  }

  /** `c` is a whole line's remainder starting at `j`: it holds no line
      terminator and is followed by one or by the end. */
  predicate RestOfLine(s: string, j: nat, c: string)
  {
    && j + |c| <= |s| && s[j..j + |c|] == c
    && (forall i | 0 <= i < |c| :: !IsLineTerminator(c[i]))
    && (j + |c| == |s| || IsLineTerminator(s[j + |c|]))
  }

  /** `c` is what `\s*(.*)` captures from position `p`: a greedy run of
      whitespace (line breaks included), then the characters up to the next
      line terminator or the end. */
  predicate CapturesFrom(s: string, p: nat, c: string)
  {
    exists j: nat | p <= j <= |s| :: WhitespaceRun(s, p, j) && RestOfLine(s, j, c)
  }

  /** The captured group of the first heading: `None` when the heading does
      not occur, otherwise what `\s*(.*)` captures right after its first
      occurrence. */
  function ExtractCaseNumber(s: string): (r: Option<string>)
    ensures r.None? <==> !Contains(s, CASE_NUMBER_HEADING)
    ensures r.Some? ==> CapturesFrom(s, IndexOf(s, CASE_NUMBER_HEADING, 0).value + |CASE_NUMBER_HEADING|, r.value)
    ensures r.Some? ==> forall i | 0 <= i < |r.value| :: !IsLineTerminator(r.value[i])
    ensures r.Some? && r.value != [] ==> !IsWhitespace(r.value[0])
  {
    IndexOfIffContains(s, CASE_NUMBER_HEADING);
    match IndexOf(s, CASE_NUMBER_HEADING, 0)
    case None => None
    case Some(i) =>
      var j := SkipWhitespace(s, i + |CASE_NUMBER_HEADING|);
      var k := LineEnd(s, j);
      assert WhitespaceRun(s, i + |CASE_NUMBER_HEADING|, j) && RestOfLine(s, j, s[j..k]);
      Some(s[j..k])
  }

  /** `match ? match[1].trim() : fallback`. */
  function CaseNumber(s: string, fallback: string): (r: string)
    ensures !Contains(s, CASE_NUMBER_HEADING) ==> r == fallback
    ensures Contains(s, CASE_NUMBER_HEADING) ==> r == Trim(ExtractCaseNumber(s).value)
    ensures Contains(s, CASE_NUMBER_HEADING) ==>
      (forall i | 0 <= i < |r| :: !IsLineTerminator(r[i]))
      && (r == [] || (!IsWhitespace(r[0]) && !IsWhitespace(r[|r| - 1])))
  {
    match ExtractCaseNumber(s)
    case None => fallback
    case Some(c) =>
      Trim(c)
  }

  /** A summary whose first heading is followed by whitespace, the number,
      and blanks up to the end of the line or of the text, yields exactly that
      number, whatever comes before the heading (bold titles included) and
      whatever follows on later lines. */
  lemma CaseNumberFound(prefix: string, gap: string, number: string, blanks: string, rest: string,
                        fallback: string)
    requires !Contains(prefix + CASE_NUMBER_HEADING[..|CASE_NUMBER_HEADING| - 1], CASE_NUMBER_HEADING)
    requires forall i | 0 <= i < |gap| :: IsWhitespace(gap[i])
    requires number != [] && !IsWhitespace(number[0]) && !IsWhitespace(number[|number| - 1])
    requires forall i | 0 <= i < |number| :: !IsLineTerminator(number[i])
    requires forall i | 0 <= i < |blanks| :: IsWhitespace(blanks[i]) && !IsLineTerminator(blanks[i])
    requires rest == [] || IsLineTerminator(rest[0])
    ensures CaseNumber(prefix + CASE_NUMBER_HEADING + gap + number + blanks + rest, fallback) == number
  {
    var line := number + blanks;
    assert prefix + CASE_NUMBER_HEADING + gap + number + blanks + rest
        == prefix + CASE_NUMBER_HEADING + gap + line + rest;
    ExtractFound(prefix, gap, line, rest);
    TrimOfPadded(number, blanks);
  }

  /** The capture of a reply whose first heading is followed by a whitespace
      gap and a line that starts with a non-whitespace character. */
  lemma ExtractFound(prefix: string, gap: string, line: string, rest: string)
    requires !Contains(prefix + CASE_NUMBER_HEADING[..|CASE_NUMBER_HEADING| - 1], CASE_NUMBER_HEADING)
    requires forall i | 0 <= i < |gap| :: IsWhitespace(gap[i])
    requires line != [] && !IsWhitespace(line[0])
    requires forall i | 0 <= i < |line| :: !IsLineTerminator(line[i])
    requires rest == [] || IsLineTerminator(rest[0])
    ensures ExtractCaseNumber(prefix + CASE_NUMBER_HEADING + gap + line + rest) == Some(line)
  {
    var head := prefix + CASE_NUMBER_HEADING;
    var s := head + gap + line + rest;
    assert s[..|head|] == head;
    IndexOfAfterPrefix(prefix, CASE_NUMBER_HEADING, s);
    CaptureAfter(head, gap, line, rest);
    ExtractAt(s, |prefix|);
  }

  /** With the first heading at `i`, the capture is the line from where the
      whitespace after the heading stops. */
  lemma ExtractAt(s: string, i: nat)
    requires IndexOf(s, CASE_NUMBER_HEADING, 0) == Some(i)
    ensures i + |CASE_NUMBER_HEADING| <= |s|
    ensures ExtractCaseNumber(s) ==
      var j := SkipWhitespace(s, i + |CASE_NUMBER_HEADING|);
      Some(s[j..LineEnd(s, j)])
  {
  }

  /** After a whitespace gap, `\s*(.*)` captures a line that starts with a
      non-whitespace character, up to its line terminator or the end. */
  lemma CaptureAfter(head: string, gap: string, line: string, rest: string)
    requires forall i | 0 <= i < |gap| :: IsWhitespace(gap[i])
    requires line != [] && !IsWhitespace(line[0])
    requires forall i | 0 <= i < |line| :: !IsLineTerminator(line[i])
    requires rest == [] || IsLineTerminator(rest[0])
    ensures var s := head + gap + line + rest;
      && SkipWhitespace(s, |head|) == |head| + |gap|
      && LineEnd(s, |head| + |gap|) == |head| + |gap| + |line|
      && s[|head| + |gap|..|head| + |gap| + |line|] == line
  {
    var s := head + gap + line + rest;
    assert s == head + gap + (line + rest);
    GapSkipped(head, gap, line + rest);
    assert s == (head + gap) + line + rest;
    LineCaptured(head + gap, line, rest);
  }

  /** The whitespace run after `head` ends where the gap does, when a
      non-whitespace character follows it. */
  lemma GapSkipped(head: string, gap: string, tail: string)
    requires forall i | 0 <= i < |gap| :: IsWhitespace(gap[i])
    requires tail != [] && !IsWhitespace(tail[0])
    ensures SkipWhitespace(head + gap + tail, |head|) == |head| + |gap|
  {
    var s := head + gap + tail;
    var j := |head| + |gap|;
    forall i | |head| <= i < j ensures IsWhitespace(s[i]) {
      assert s[i] == gap[i - |head|];
    }
    assert s[j] == tail[0];
    SkipWhitespaceStops(s, |head|, j);
  }

  /** The line after `head` ends at its line terminator or at the end. */
  lemma LineCaptured(head: string, line: string, rest: string)
    requires forall i | 0 <= i < |line| :: !IsLineTerminator(line[i])
    requires rest == [] || IsLineTerminator(rest[0])
    ensures LineEnd(head + line + rest, |head|) == |head| + |line|
    ensures (head + line + rest)[|head|..|head| + |line|] == line
  {
    var s := head + line + rest;
    var j := |head|;
    var k := j + |line|;
    forall i | j <= i < k ensures !IsLineTerminator(s[i]) {
      assert s[i] == line[i - j];
    }
    if rest != [] {
      assert s[k] == rest[0];
    }
    LineEndStops(s, j, k);
    assert s[j..k] == line;
  }

  lemma SkipWhitespaceStops(s: string, p: nat, j: nat)
    requires p <= j <= |s|
    requires WhitespaceRun(s, p, j)
    ensures SkipWhitespace(s, p) == j
  {
  }

  lemma LineEndStops(s: string, j: nat, k: nat)
    requires j <= k <= |s|
    requires forall i | j <= i < k :: !IsLineTerminator(s[i])
    requires k == |s| || IsLineTerminator(s[k])
    ensures LineEnd(s, j) == k
  {
  }

  /** Whether the page or the history page exports, a summary with a case
      number gives the same file name; without the heading the page names the
      file after `Export` and the history page after the saved `Não encontrado`. */
  lemma ExportNamesAgree(shown: Shown, format: HistoryPage.ExportFormat,
                         idStamp: string, dateStamp: string,
                         rawText: string, fileName: Option<string>)
    requires format == HistoryPage.Pdf || format == HistoryPage.Docx
    ensures var entry := NewEntry(idStamp, dateStamp, shown, rawText, fileName);
      && (Contains(shown.technical, CASE_NUMBER_HEADING) && entry.processNumber != "" ==>
            ExportName(shown, format) == HistoryPage.ExportFileName(entry, format))
      && (!Contains(shown.technical, CASE_NUMBER_HEADING) ==>
            ExportName(shown, format) == HistoryPage.FileName(EXPORT_FALLBACK, HistoryPage.Extension(format))
            && HistoryPage.ExportFileName(entry, format) == HistoryPage.FileName(NOT_FOUND, HistoryPage.Extension(format)))
  {
  }

  /** The entry `handleGenerateSummary` saves: the id and the date, each from
      its own reading of the clock, the case number or `Não encontrado`, both
      summaries, the text and the file name used. */
  function NewEntry(idStamp: string, dateStamp: string, shown: Shown, rawText: string,
                    fileName: Option<string>): SummaryEntry
  {
    SummaryEntry(idStamp, dateStamp, CaseNumber(shown.technical, NOT_FOUND),
                 shown.technical, shown.simplified, fileName, rawText)
  }

  /** The file name of a PDF or DOCX export of the shown summaries. */
  function ExportName(shown: Shown, format: HistoryPage.ExportFormat): string
    requires format == HistoryPage.Pdf || format == HistoryPage.Docx
  {
    HistoryPage.FileName(CaseNumber(shown.technical, EXPORT_FALLBACK), HistoryPage.Extension(format))
  }

  // ---------------------------------------------------------------------------
  // Generation outcome

  /** What the Gemini pipeline resolves to for a text and options. */
  function GenerationOutcome(apiKey: Option<string>, generate: string -> Result<string, string>,
                             text: string, options: Generation.Options): Result<Generation.Summaries, string>
  {
    Generation.Outcome(options, GeminiService.SummaryCall(apiKey, generate, options.size, text))
  }

  /** The page's call of the Gemini `generateSummaries`. */
  method Summarize(apiKey: Option<string>, generate: string -> Result<string, string>,
                   text: string, options: Generation.Options) returns (r: Result<Generation.Summaries, string>)
    ensures r == GenerationOutcome(apiKey, generate, text, options)
  {
    var requests;
    r, requests := GeminiService.GenerateSummaries(apiKey, generate, text, options);
  }

  /** The error notice for a failed generation. */
  function ErrorMessage(message: string): string
  {
    if message == KEY_MISSING_CODE then KEY_NOT_CONFIGURED_MESSAGE else message
  }

  /** The Gemini pipeline never fails with `API_KEY_MISSING`: a failed
      generation shows the service's own message, and a missing key shows the
      generic one. */
  lemma KeyMissingBranchUnreachable(apiKey: Option<string>, generate: string -> Result<string, string>,
                                    text: string, options: Generation.Options)
    ensures GenerationOutcome(apiKey, generate, text, options).Failure? ==>
      GenerationOutcome(apiKey, generate, text, options).error != KEY_MISSING_CODE
      && ErrorMessage(GenerationOutcome(apiKey, generate, text, options).error)
         in {GeminiService.INVALID_KEY_MESSAGE, GeminiService.GENERIC_MESSAGE}
    ensures GeminiService.KeyMissing(apiKey) && (options.generateTechnical || options.generateSimplified) ==>
      GenerationOutcome(apiKey, generate, text, options) == Failure(GeminiService.GENERIC_MESSAGE)
  {
    GeminiService.OutcomeFailures(apiKey, generate, text, options);
    assert |GeminiService.INVALID_KEY_MESSAGE| != |KEY_MISSING_CODE|;
    assert |GeminiService.GENERIC_MESSAGE| != |KEY_MISSING_CODE|;
    var call := GeminiService.SummaryCall(apiKey, generate, options.size, text);
    if GeminiService.KeyMissing(apiKey) {
      GeminiService.MissingKeyFailsGenerically(apiKey, generate, generate,
        GeminiService.PromptFor(Generation.Technical, options.size), text);
      GeminiService.MissingKeyFailsGenerically(apiKey, generate, generate,
        GeminiService.PromptFor(Generation.Simplified, options.size), text);
      Generation.OutcomeFailure(options, call);
    }
  }

  // ---------------------------------------------------------------------------
  // Page state

  /** The `lastSummaries` and `lastRawText` keys of local storage. */
  class LastResult {
    var summaries: Option<Shown>
    var rawText: Option<string>

    constructor(summaries: Option<Shown>, rawText: Option<string>)
      ensures this.summaries == summaries && this.rawText == rawText
    {
      this.summaries := summaries;
      this.rawText := rawText;
    }
  }

  class HomePageState {
    var rawText: string
    var summaries: Option<Shown>
    var isLoading: bool
    var fileName: Option<string>
    var options: Generation.Options
    const cache: LastResult
    const history: HistoryService.HistoryStore

    /** The initial state: no text, no summaries, both kinds at medium size. */
    constructor(cache: LastResult, history: HistoryService.HistoryStore)
      ensures rawText == "" && summaries == None && !isLoading && fileName == None
      ensures options == Generation.Options(true, true, Medium)
      ensures this.cache == cache && this.history == history
    {
      rawText := "";
      summaries := None;
      isLoading := false;
      fileName := None;
      options := Generation.Options(true, true, Medium);
      this.cache := cache;
      this.history := history;
    }

    /** The mount effect: the last result comes back only when both keys are
        set and the cached text is not empty. */
    method Restore()
      modifies this
      ensures cache.summaries.Some? && cache.rawText.Some? && cache.rawText.value != "" ==>
        summaries == cache.summaries && rawText == cache.rawText.value
      ensures !(cache.summaries.Some? && cache.rawText.Some? && cache.rawText.value != "") ==>
        summaries == old(summaries) && rawText == old(rawText)
      ensures isLoading == old(isLoading) && fileName == old(fileName) && options == old(options)
    {
      if cache.summaries.Some? && cache.rawText.Some? && cache.rawText.value != "" {
        summaries := cache.summaries;
        rawText := cache.rawText.value;
      }
    }

    /** The option checkboxes and the size selector. */
    method SetOptions(chosen: Generation.Options)
      modifies this
      ensures options == chosen
      ensures rawText == old(rawText) && summaries == old(summaries)
      ensures isLoading == old(isLoading) && fileName == old(fileName)
    {
      options := chosen;
    }

    /** `handleFileChange`: no file does nothing; a file over the size limit is
        refused before parsing with nothing changed; otherwise the text is the
        parsed text, truncated with a warning, or empty after a failure. */
    method HandleFileChange(file: Option<FileParser.UploadedFile>) returns (notices: seq<Notice>)
      modifies this
      ensures file.None? ==> notices == [] && unchanged(this)
      ensures file.Some? && file.value.size > MAX_FILE_SIZE ==>
        notices == [Notice(FILE_TOO_LARGE_MESSAGE, ErrorToast)] && unchanged(this)
      ensures file.Some? && file.value.size <= MAX_FILE_SIZE ==>
        && summaries == None && fileName == Some(file.value.name) && !isLoading && options == old(options)
        && |rawText| <= MAX_TEXT_LENGTH
      ensures file.Some? && file.value.size <= MAX_FILE_SIZE && FileParser.Extracted(file.value).Success? ==>
        var text := FileParser.Extracted(file.value).value;
        && rawText == Truncate(text)
        && notices == (if |text| > MAX_TEXT_LENGTH then [Notice(TEXT_TRUNCATED_MESSAGE, WarningToast)] else [])
                      + [Notice(FILE_PROCESSED_MESSAGE, SuccessToast)]
      ensures file.Some? && file.value.size <= MAX_FILE_SIZE && FileParser.Extracted(file.value).Failure? ==>
        rawText == "" && notices == [Notice(FILE_FAILED_MESSAGE, ErrorToast)]
    {
      notices := [];
      if file.None? {
        return;
      }
      var f := file.value;
      if f.size > MAX_FILE_SIZE {
        notices := [Notice(FILE_TOO_LARGE_MESSAGE, ErrorToast)];
        return;
      }
      isLoading := true;
      summaries := None;
      rawText := "";
      fileName := Some(f.name);
      var parsed := FileParser.ParseFile(f);
      if parsed.Success? {
        var text := parsed.value;
        if |text| > MAX_TEXT_LENGTH {
          notices := notices + [Notice(TEXT_TRUNCATED_MESSAGE, WarningToast)];
          rawText := text[..MAX_TEXT_LENGTH];
        } else {
          rawText := text;
        }
        notices := notices + [Notice(FILE_PROCESSED_MESSAGE, SuccessToast)];
      } else {
        notices := notices + [Notice(FILE_FAILED_MESSAGE, ErrorToast)];
      }
      isLoading := false;
    }

    /** `handleTextChange`: the typed text, truncated with a warning; the text
        no longer comes from a file. */
    method HandleTextChange(value: string) returns (notices: seq<Notice>)
      modifies this
      ensures rawText == Truncate(value) && fileName == None
      ensures notices == if |value| > MAX_TEXT_LENGTH then [Notice(TEXT_TOO_LONG_MESSAGE, WarningToast)] else []
      ensures summaries == old(summaries) && isLoading == old(isLoading) && options == old(options)
    {
      var current := value;
      notices := [];
      if |current| > MAX_TEXT_LENGTH {
        notices := [Notice(TEXT_TOO_LONG_MESSAGE, WarningToast)];
        current := current[..MAX_TEXT_LENGTH];
      }
      rawText := current;
      fileName := None;
    }

    /** Appends the entry to the history and caches the shown summaries with the text. */
    method Save(entry: SummaryEntry, shown: Shown)
      modifies cache, history
      ensures history.History() == old(history.History()) + [entry]
      ensures cache.summaries == Some(shown) && cache.rawText == Some(rawText)
    {
      history.SaveSummary(entry);
      cache.summaries := Some(shown);
      cache.rawText := Some(rawText);
    }

    /** The input passes both checks: some non-blank text, some kind selected. */
    predicate Ready()
      reads this
    {
      Trim(rawText) != "" && (options.generateTechnical || options.generateSimplified)
    }

    /** `handleGenerateSummary`: blank text, then no kind selected, abort with
        nothing changed; otherwise generation runs. */
    method HandleGenerateSummary(apiKey: Option<string>, generate: string -> Result<string, string>,
                                 idStamp: string, dateStamp: string) returns (notices: seq<Notice>)
      modifies this, cache, history
      ensures rawText == old(rawText) && fileName == old(fileName) && options == old(options)
      ensures Trim(old(rawText)) == "" ==>
        notices == [Notice(EMPTY_TEXT_MESSAGE, ErrorToast)] && unchanged(this, cache, history)
      ensures Trim(old(rawText)) != "" && !old(options).generateTechnical && !old(options).generateSimplified ==>
        notices == [Notice(NO_KIND_MESSAGE, ErrorToast)] && unchanged(this, cache, history)
      ensures old(Ready()) ==> Generated(old(history.History()), apiKey, generate, idStamp, dateStamp, notices)
      ensures old(Ready()) && GenerationOutcome(apiKey, generate, old(rawText), old(options)).Failure? ==>
        unchanged(cache, history)
    {
      if Trim(rawText) == "" {
        return [Notice(EMPTY_TEXT_MESSAGE, ErrorToast)];
      }
      if !options.generateTechnical && !options.generateSimplified {
        return [Notice(NO_KIND_MESSAGE, ErrorToast)];
      }
      notices := Generate(apiKey, generate, idStamp, dateStamp);
    }

    /** The state after a generation from this text and these options: a
        success shows the summaries, appends the entry to the history and
        caches the summaries with the text; a failure clears the summaries and
        reports the error. */
    ghost predicate Generated(before: seq<SummaryEntry>, apiKey: Option<string>,
                              generate: string -> Result<string, string>, idStamp: string, dateStamp: string,
                              notices: seq<Notice>)
      reads this, cache, history
    {
      var outcome := GenerationOutcome(apiKey, generate, rawText, options);
      && !isLoading
      && (outcome.Success? ==>
            && summaries == Some(FinalSummaries(outcome.value))
            && history.History() == before + [NewEntry(idStamp, dateStamp, summaries.value, rawText, fileName)]
            && cache.summaries == summaries && cache.rawText == Some(rawText)
            && notices == [Notice(SAVED_MESSAGE, SuccessToast)])
      && (outcome.Failure? ==>
            && summaries == None && history.History() == before
            && notices == [Notice(ErrorMessage(outcome.error), ErrorToast)])
    }

    /** The generation step of `handleGenerateSummary`, once the input passed. */
    method Generate(apiKey: Option<string>, generate: string -> Result<string, string>,
                    idStamp: string, dateStamp: string) returns (notices: seq<Notice>)
      modifies this, cache, history
      ensures rawText == old(rawText) && fileName == old(fileName) && options == old(options)
      ensures Generated(old(history.History()), apiKey, generate, idStamp, dateStamp, notices)
      ensures GenerationOutcome(apiKey, generate, rawText, options).Failure? ==> unchanged(cache, history)
    {
      ghost var before := history.History();
      isLoading := true;
      summaries := None;
      var result := Summarize(apiKey, generate, rawText, options);
      if result.Success? {
        var shown := FinalSummaries(result.value);
        summaries := Some(shown);
        Save(NewEntry(idStamp, dateStamp, shown, rawText, fileName), shown);
        notices := [Notice(SAVED_MESSAGE, SuccessToast)];
        isLoading := false;
        assert history.History() == before + [NewEntry(idStamp, dateStamp, summaries.value, rawText, fileName)];
      } else {
        notices := [Notice(ErrorMessage(result.error), ErrorToast)];
        isLoading := false;
        assert history.History() == before;
      }
    }
  }
}
