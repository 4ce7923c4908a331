# JurisResumo core, modelled in Dafny

JurisResumo is a browser front end that summarises Brazilian court-case texts.
A user signs in against accounts kept in the browser's storage, and an
administrator approves each new account. The user uploads a PDF or DOCX file
or pastes text. The page sends the text, wrapped in a technical and/or a
simplified prompt, to a language-model provider. It shows the summaries and
appends them to a local history, which the user can search and export.

This project models the parts of that front end that have behaviour one can
state:

- **Account store** (`AuthService`). A class over the users key and the
  session key, each `Absent`, `Corrupt` or `Stored`. It covers the seeded
  administrator, registration with unique emails, sign-in, sign-out and approval.
- **Auth context** (`UseAuth`). The provider's `currentUser`/`loading` state
  over the store.
- **History** (`HistoryService`, `HistoryPage`):
  - the append-only history store;
  - the search filter with its newest-first order;
  - the CSV and JSON export payloads, with parsers that read them back;
  - the export file names.
- **Generation pipeline** (`Constants`, `Generation`, `GeminiService`,
  `GroqService`):
  - the prompts and word budgets;
  - the fan-out over the requested summary kinds, where any failure fails the whole call;
  - the error mapping of both providers.

  The provider itself is a function-typed parameter.
- **File parsing** (`FileParser`). The MIME dispatch and the page-by-page
  assembly of PDF text. PDF pages are given as lists of item strings.
- **Summary rendering** (`SummaryDisplay`). The split into lines and the lazy
  `**bold**` segmentation.
- **Pages** (`HomePage`, `AdminPage`, `LoginPage`, `RegisterPage`). The
  handlers as classes over the page state. Each handler returns the notices it
  raises.
- **Notifications** (`UseToast`). The toast list, its id counter, and removal by id.

Shared helpers:

- `Wrappers`: `Option` and `Result`.
- `Text`: trim, ASCII lower-casing, `includes`, `split`/`join`, decimal digits, `\W` replacement.
- `Storage`: a storage key after `JSON.parse`.
- `JsonString`: `JSON.stringify` of a string, and its parser.

Time stamps, random ids, API keys and provider responses are parameters.

## Model

| member | source | states |
|---|---|---|
| AuthService.FirstIndex | services/authService.ts:131 | the index found holds the predicate, and no earlier index does; None means no index does |
| AuthService.Authenticate | services/authService.ts:81-92 | succeeds iff some user has exactly that email and password; the user is the first such; a failure is the single InvalidCredentials error whatever the cause |
| AuthService.InitAdminSeedsExactlyOne | services/authService.ts:32-46 | with an admin present the list is unchanged; otherwise exactly the admin record is appended and the list then holds exactly one admin |
| AuthService.InitAdminIdempotent | services/authService.ts:32-46 | seeding twice equals seeding once; from a list without admin it leaves exactly one admin |
| AuthService.RegisterKeepsInvariants | services/authService.ts:57-71 | appending a user with a new email keeps emails unique and does not change the admin count |
| AuthService.RegisterThenLogin | services/authService.ts:57-89 | after registering with a fresh email, sign-in with the same credentials returns exactly the new record |
| AuthService.SetApprovalFrame | services/authService.ts:129-136 | same length; only the first user with that id may change, and only its approval; unknown id is a no-op; the first user with that id gets the new flag |
| AuthService.SetApprovalKeepsInvariants | services/authService.ts:129-136 | approval changes keep email uniqueness and the admin count |
| AuthService.AuthStore.constructor | services/authService.ts:3-4 | the store starts over whatever the two keys hold |
| AuthService.AuthStore.Users | services/authService.ts:7-15 | the stored list, or empty when the key is missing or corrupt |
| AuthService.AuthStore.CurrentUser | services/authService.ts:107-114 | the stored session user, or none when missing or corrupt |
| AuthService.AuthStore.InitAdmin | services/authService.ts:32-46 | the user list becomes WithAdmin of the old one, untouched when an admin exists; the session is unchanged |
| AuthService.AuthStore.Register | services/authService.ts:54-73 | a taken email fails with DuplicateEmail and writes nothing; otherwise exactly the new unapproved non-admin user is appended; the session is never touched |
| AuthService.AuthStore.Login | services/authService.ts:81-94 | the result is Authenticate on the stored users; success stores that user as session, failure leaves the session; users unchanged |
| AuthService.AuthStore.Logout | services/authService.ts:99-101 | the session key is removed, so no user is current; users unchanged |
| AuthService.AuthStore.UpdateUserApproval | services/authService.ts:129-136 | the users become SetApproval of the old list; an unknown id writes nothing; the session is unchanged |
| Wrappers.Option.ToResult | hooks/useAuth.tsx:15-21 | the context when present, otherwise the given outside-provider error; `useToast` (hooks/useToast.tsx:18-24) is the same accessor with its own message |
| UseAuth.AuthProvider.constructor | hooks/useAuth.tsx:24-25 | no current user, loading |
| UseAuth.AuthProvider.Mount | hooks/useAuth.tsx:27-35 | seeds the admin, adopts a stored session, stops loading so children render; from a fresh provider it is in sync with the store |
| UseAuth.AuthProvider.Login | hooks/useAuth.tsx:37-41 | success sets currentUser to the returned user; failure leaves it; users unchanged; keeps provider and session in sync |
| UseAuth.AuthProvider.Register | hooks/useAuth.tsx:43-47 | the store's register outcome; currentUser and session unchanged |
| UseAuth.AuthProvider.Logout | hooks/useAuth.tsx:49-52 | clears the session key and currentUser |
| HistoryService.HistoryStore.constructor | services/historyService.ts:4 | the store starts over whatever the key holds |
| HistoryService.HistoryStore.History | services/historyService.ts:10-18 | the stored list, or empty when the key is missing or unparseable |
| HistoryService.HistoryStore.SaveSummary | services/historyService.ts:24-32 | the history becomes the old history with the entry appended at the end |
| HistoryService.HistoryStore.ClearHistory | services/historyService.ts:37-43 | the key is removed and the history reads empty, so clearing again changes nothing |
| HistoryPage.FilterEntries | pages/HistoryPage.tsx:31-33 | the filtered list is never longer than the history |
| HistoryPage.FilterEntriesCount | pages/HistoryPage.tsx:31-33 | each entry occurs as often as in the history if it matches the search, otherwise not at all |
| HistoryPage.FilterEntriesAppend | pages/HistoryPage.tsx:31-33 | filtering a concatenation filters each part and concatenates the results, so the kept entries stay in history order |
| HistoryPage.FilterDatedAt | pages/HistoryPage.tsx:31-34 | taking the entries of one date commutes with the search filter |
| HistoryPage.InsertDescPermutes | pages/HistoryPage.tsx:34 | insertion adds the entry once and keeps all others |
| HistoryPage.InsertDescSorted | pages/HistoryPage.tsx:34 | insertion into a newest-first list keeps it newest first |
| HistoryPage.SortByDateDesc | pages/HistoryPage.tsx:34 | newest first, and a permutation of its input |
| HistoryPage.InsertDescDatedAt | pages/HistoryPage.tsx:34 | the inserted entry goes before every entry of its date; the entries of each date keep their order |
| HistoryPage.SortByDateDescStable | pages/HistoryPage.tsx:34 | the sort is stable: the entries of each date appear in history order |
| HistoryPage.FilteredHistorySpec | pages/HistoryPage.tsx:30-35 | the listed entries are newest first; each matching entry is listed exactly as often as it is stored and no other entry is; entries of the same date appear in history order |
| HistoryPage.EmptySearchKeepsAll | pages/HistoryPage.tsx:31-33 | an empty search keeps the whole history in order |
| HistoryPage.CsvValues | pages/HistoryPage.tsx:91-92 | one value per column; a missing file name is written as the empty string |
| HistoryPage.QuoteAll | pages/HistoryPage.tsx:92 | each value is the JSON string encoding of its field |
| HistoryPage.ReadFieldsRoundTrip | pages/HistoryPage.tsx:92 | the comma-joined JSON strings read back to exactly the fields |
| HistoryPage.CsvRoundTrip | pages/HistoryPage.tsx:91-93 | the export starts with the fixed header and CRLF, and the row reads back to the column values |
| HistoryPage.JsonExportRoundTrip | pages/HistoryPage.tsx:87 | the indented JSON export reads back to exactly the entry |
| HistoryPage.FileName | pages/HistoryPage.tsx:88-94 | `resumo_`, then the name with word characters kept and every other character turned into `_`, then `.` and the extension |
| HistoryPage.ExportFileNameFallback | pages/HistoryPage.tsx:57-94 | PDF/DOCX of an entry without case number use `Export`; JSON/CSV then use the empty name; otherwise the sanitised case number |
| JsonString.Quote | pages/HistoryPage.tsx:92 | the encoding is wrapped in double quotes and has no control character |
| JsonString.QuoteRoundTrip | pages/HistoryPage.tsx:92 | parsing the encoding of a string gives the string back and leaves what follows |
| JsonString.QuoteInjective | pages/HistoryPage.tsx:92 | distinct strings have distinct encodings |
| Text.Trim | components/SummaryDisplay.tsx:12 | empty iff the text is all whitespace; otherwise both ends are non-whitespace; it is the trailing-whitespace trim of the leading-whitespace trim, each of which drops only whitespace and keeps a slice |
| Text.TrimIsSlice | components/SummaryDisplay.tsx:12 | the trim is the slice of the text that starts right after the leading whitespace |
| Text.TrimDropsTrailingWhitespace | components/SummaryDisplay.tsx:12 | everything after the trim is whitespace, so exactly the leading and trailing whitespace is removed |
| Text.Lower | pages/HistoryPage.tsx:32 | same length, each character lower-cased (ASCII) |
| Text.JoinSplit | components/SummaryDisplay.tsx:11 | joining the pieces of a split with the separator gives the text back |
| Text.ReplaceNonWord | pages/HistoryPage.tsx:88 | same length; word characters kept, every other character becomes `_` |
| Text.TrimOfPadded | pages/HomePage.tsx:109 | trimming a text with non-blank ends followed by whitespace gives the text |
| Text.IndexOfAfterPrefix | pages/HomePage.tsx:108 | when the pattern does not occur before it, the search finds the pattern right after the prefix |
| Text.NatToStringRoundTrip | pages/HomePage.tsx:58 | the decimal text of a number reads back to that number |
| Constants.WordCountTable | constants.ts:4-8 | short, medium and long map to `~500`, `~1000` and `até 1500` |
| Constants.TechnicalPromptEmbedsWordCount | constants.ts:10-14 | the technical prompt holds the word count of its size right after the fixed opening |
| Constants.TechnicalPromptsDistinct | constants.ts:10-14 | distinct sizes give distinct technical prompts |
| Constants.TechnicalPromptHasCaseNumberHeading | constants.ts:22 | the technical prompt contains the case-number heading |
| Constants.PromptsEndWithTextMarker | constants.ts:10-69 | both prompts end with the start-of-text line and a line break |
| Generation.Resolved | services/geminiService.ts:61-74 | a call's success becomes a present value, its failure keeps the error |
| Generation.Requested | services/geminiService.ts:63-74 | the kinds issued are exactly the requested ones, technical first |
| Generation.JoinAll | services/geminiService.ts:76-78 | success iff both slots succeed, carrying both values; a technical failure wins, else the simplified one |
| Generation.OutcomeFailure | services/geminiService.ts:76-85 | the outcome fails iff some requested call fails; the technical error wins, else the simplified error |
| Generation.GenerateSummaries | services/geminiService.ts:55-86 | issues exactly the requested kinds; succeeds iff all issued calls succeed, each field that call's value or absent when unrequested; no flags gives `{}` with no call |
| GeminiService.FullPrompt | services/geminiService.ts:38 | starts with the prompt, ends with the text, two characters between |
| GeminiService.MapError | services/geminiService.ts:46-52 | the invalid-key message iff the error mentions either key marker, otherwise the generic message |
| GeminiService.MissingKeyFailsGenerically | services/geminiService.ts:24-52 | with no key the call fails with the generic message, whatever the provider would do |
| GeminiService.MissingKeyMessageMapsToGeneric | services/geminiService.ts:27-51 | the missing-key error is itself remapped to the generic message |
| GeminiService.CallGeminiFailures | services/geminiService.ts:35-53 | a failure is one of the two mapped messages; with a key, a provider success is returned as is |
| GeminiService.OutcomeFailures | services/geminiService.ts:55-85 | a failed generation reports one of the two mapped messages |
| GeminiService.RequestsFollowOptions | services/geminiService.ts:63-74 | one request per requested kind, each its prompt plus text; without technical the requests do not depend on size |
| GeminiService.OutcomeValues | services/geminiService.ts:60-78 | success iff every requested call succeeds; the fields are those calls' values, or absent |
| GeminiService.Sent | services/geminiService.ts:24-38 | the full prompt of each issued call, in order; none with a missing key, which fails before the model is called |
| GeminiService.MissingKeyOutcome | services/geminiService.ts:24-27 | with no key, a generation that requests a summary fails with the generic message |
| GeminiService.SentFollowsOptions | services/geminiService.ts:24-74 | the prompts sent are the requests of the options, none with a missing key |
| GeminiService.GenerateSummaries | services/geminiService.ts:55-86 | the prompts that reach the model (none with a missing key) and the joined outcome; a failure carries a mapped message, the generic one for a missing key; no flags gives `{}` and no request |
| GroqService.MaxWords | src/services/geminiService.ts:21-29 | technical 500/1000/1500 by size, simplified 800 |
| GroqService.PromptText | src/services/geminiService.ts:43 | the first 100000 characters of the text, or all of it |
| GroqService.GroqPromptEmbedsTextPrefix | src/services/geminiService.ts:31-55 | the prompt ends with the truncated text in triple quotes and depends on the text only through it |
| GroqService.GroqPromptEmbedsBudget | src/services/geminiService.ts:27-45 | the word budget stands right after the fixed opening of each prompt |
| GroqService.StatusMessageInjective | src/services/geminiService.ts:74 | distinct HTTP statuses give distinct error messages |
| GroqService.ReadResponse | src/services/geminiService.ts:71-81 | non-ok fails with the status message; success iff a first choice with a message exists, returning its content, absent when the message has none; otherwise the empty-response error |
| GroqService.InvalidKeyFailsBeforeRequest | src/services/geminiService.ts:17-19 | a key absent or not starting with `gsk_` fails with the key message, whatever the network would do |
| GroqService.Sent | src/services/geminiService.ts:17-69 | the prompt of each issued call, in order; none with a rejected key, which fails before `fetch` |
| GroqService.GenerateSummaries | src/services/geminiService.ts:84-117 | the prompts posted (none with a rejected key); success iff all requested calls succeed, each field that call's value or absent; a failure is the failing call's error, the technical one first; a rejected key fails with the key message; no flags gives `{}` |
| FileParser.PdfTextSnoc | services/fileParserService.ts:32-37 | one more page appends its space-joined items and a line break |
| FileParser.ParsePdf | services/fileParserService.ts:26-40 | the accumulated text is the in-order concatenation of page texts, each followed by a line break |
| FileParser.PageTexts | services/fileParserService.ts:35 | one text per page, each its items joined by a space |
| FileParser.PdfTextLines | services/fileParserService.ts:30-39 | with no line break inside items, splitting on line breaks gives the page texts and a final empty piece; no pages gives the empty text, otherwise it ends with a line break |
| FileParser.ParseFile | services/fileParserService.ts:15-24 | PDF and DOCX dispatch by exact MIME equality; any other type fails with the unsupported-type error |
| SummaryDisplay.CloseFrom | components/SummaryDisplay.tsx:14 | a `**` at or after the position |
| SummaryDisplay.CloseFromFirst | components/SummaryDisplay.tsx:14 | the `**` found is the first one, and no line terminator comes before it |
| SummaryDisplay.CloseFromNone | components/SummaryDisplay.tsx:14 | no closing `**` is found only when every later `**` has a line terminator before it |
| SummaryDisplay.MatchEndIsBoldToken | components/SummaryDisplay.tsx:14 | a match is `**`, text without `**` or line break, `**` |
| SummaryDisplay.TokenizeFromBold | components/SummaryDisplay.tsx:14 | every odd part from a position is a bold token |
| SummaryDisplay.BoldSplit | components/SummaryDisplay.tsx:14 | plain and bold parts alternate, every odd part a bold token; no match starts inside a plain part and each bold part is the leftmost match after it |
| SummaryDisplay.SplitIsTokenize | components/SummaryDisplay.tsx:14 | any cut of the rest of a line into match-free plain text and leftmost matches is the one tokenizing gives |
| SummaryDisplay.BoldSplitUnique | components/SummaryDisplay.tsx:14 | a line has exactly one such split, the one `split` returns |
| SummaryDisplay.TokenizeFromConcat | components/SummaryDisplay.tsx:14 | the parts from a position concatenate to the rest of the line |
| SummaryDisplay.BoldSplitConcat | components/SummaryDisplay.tsx:14 | the parts concatenate back to exactly the line |
| SummaryDisplay.RenderPart | components/SummaryDisplay.tsx:18-21 | bold iff the part starts and ends with `**`; plain parts are shown verbatim |
| SummaryDisplay.BoldTokenRendersBold | components/SummaryDisplay.tsx:18-19 | a captured token shows its inner text, without the two markers at each end |
| SummaryDisplay.RenderLine | components/SummaryDisplay.tsx:12-24 | a break iff the line is blank after trim; otherwise one rendered segment per part |
| SummaryDisplay.RenderSummary | components/SummaryDisplay.tsx:11-25 | one block per line of the split, in order |
| SummaryDisplay.RenderSummaryFollowsLines | components/SummaryDisplay.tsx:11-12 | the lines join back to the summary; a block is a break iff its line is all whitespace |
| HomePage.Truncate | pages/HomePage.tsx:57-62 | a prefix of at most 100000 characters, the text itself when it fits |
| HomePage.TruncateIdempotent | pages/HomePage.tsx:74-80 | truncating twice is truncating once |
| HomePage.UnrequestedSummaryCountsAsShort | pages/HomePage.tsx:246 | with one kind requested the short warning depends only on that summary; never while loading |
| HomePage.SkipWhitespace | pages/HomePage.tsx:108 | the end of the whitespace run from a position |
| HomePage.LineEnd | pages/HomePage.tsx:108 | the first line terminator from a position, or the end |
| HomePage.ExtractCaseNumber | pages/HomePage.tsx:108 | a capture iff the heading occurs; after the first heading it skips a whitespace run that stops at a non-whitespace character, then takes the rest of the line |
| HomePage.CaseNumber | pages/HomePage.tsx:108-109 | the fallback without heading; otherwise the trimmed capture, on one line with non-blank ends |
| HomePage.CaseNumberFound | pages/HomePage.tsx:108-109 | text before the first heading, any whitespace, the number, trailing blanks, then a line break or the end: the case number is exactly that number |
| HomePage.ExportNamesAgree | pages/HomePage.tsx:150-168 | the page and the history page name an export alike when a number exists; without heading they use `Export` and `Não encontrado` |
| HomePage.Summarize | pages/HomePage.tsx:96-100 | the result of the generation service on the text and options |
| HomePage.KeyMissingBranchUnreachable | pages/HomePage.tsx:124-131 | a generation error is never `API_KEY_MISSING`, so the page shows one of the two mapped messages; a missing key gives the generic message |
| HomePage.LastResult.constructor | pages/HomePage.tsx:34-35 | the cached summaries and text |
| HomePage.HomePageState.constructor | pages/HomePage.tsx:20-28 | empty text, no summaries, not loading, both kinds at medium size |
| HomePage.HomePageState.Restore | pages/HomePage.tsx:33-40 | restores cached summaries and text only when both are present |
| HomePage.HomePageState.SetOptions | pages/HomePage.tsx:24-28 | only the options change |
| HomePage.HomePageState.HandleFileChange | pages/HomePage.tsx:42-71 | no file: nothing; over 50 MiB: an error and nothing changes; otherwise the text is the truncated extraction with its warnings, or empty with an error |
| HomePage.HomePageState.HandleTextChange | pages/HomePage.tsx:73-81 | the text is truncated with a warning when too long; the file name is cleared |
| HomePage.HomePageState.Save | pages/HomePage.tsx:120-122 | the entry is appended to the history; the summaries and text are cached |
| HomePage.HomePageState.HandleGenerateSummary | pages/HomePage.tsx:83-138 | blank text, then no kind selected, abort with an error and change nothing; otherwise Generated holds, and a failed generation leaves the cached result and the history store untouched |
| HomePage.HomePageState.Generate | pages/HomePage.tsx:93-137 | success shows and saves the defaulted summaries with the case number, text and file name; failure shows the error and saves nothing |
| UseToast.ToastClassesDistinct | hooks/useToast.tsx:27-34 | each kind has its own colour class |
| UseToast.RemoveById | hooks/useToast.tsx:67-69 | never longer than the list |
| UseToast.RemoveByIdMembers | hooks/useToast.tsx:67-69 | a toast stays iff its id differs; an absent id is a no-op |
| UseToast.RemoveByIdAppend | hooks/useToast.tsx:68 | removal works piecewise, so the order of the rest is kept |
| UseToast.RemoveByIdIdempotent | hooks/useToast.tsx:67-69 | removing twice is removing once; distinct ids stay distinct |
| UseToast.RemoveByIdPreservesDistinct | hooks/useToast.tsx:67-69 | removal keeps ids distinct |
| UseToast.AppendFreshId | hooks/useToast.tsx:57-60 | appending with the counter as id keeps ids distinct and below the advanced counter |
| UseToast.SameCapturedCounterCollides | hooks/useToast.tsx:57-65 | two toasts appended with one captured counter share an id, and removing it removes both |
| UseToast.ToastProvider.constructor | hooks/useToast.tsx:54-55 | no toasts, counter zero |
| UseToast.ToastProvider.Render | hooks/useToast.tsx:57-65 | the callback is recreated over the current counter |
| UseToast.ToastProvider.AddToastAsWritten | hooks/useToast.tsx:57-60 | appends with the captured counter as id; the counter advances |
| UseToast.ToastProvider.AddToast | hooks/useToast.tsx:57-60 | appends at the end with the live counter as id, advances it, keeps ids distinct |
| UseToast.ToastProvider.Notify | hooks/useToast.tsx:57-60 | the notices are appended in order with consecutive ids; ids stay distinct |
| UseToast.ToastProvider.NotifyTwiceAsWritten | hooks/useToast.tsx:57-65 | two notices from one handler get the same id, so ids are no longer distinct |
| UseToast.ToastProvider.RemoveToast | hooks/useToast.tsx:67-69 | the list becomes RemoveById of the old one; the counter and ids-distinct invariant are kept |
| AdminPage.StatusLabel | pages/AdminPage.tsx:64 | `Aprovado` iff approved, `Pendente` iff not |
| AdminPage.Others | pages/AdminPage.tsx:17 | never longer than the stored list |
| AdminPage.OthersMembers | pages/AdminPage.tsx:17 | listed iff stored and not the signed-in user; with nobody signed in all users in order |
| AdminPage.OthersAppend | pages/AdminPage.tsx:17 | the listing of two stretches is the listing of the first then of the second, so stored order is kept |
| AdminPage.OthersCount | pages/AdminPage.tsx:17 | each listed account occurs as often as stored; the signed-in one not at all |
| AdminPage.ApproveAll | pages/AdminPage.tsx:33 | same length; matching ids get the new flag, every other entry and field unchanged |
| AdminPage.SetApprovalIsApproveAll | pages/AdminPage.tsx:32-33 | with unique ids the stored update and the local update agree |
| AdminPage.OthersApproveAll | pages/AdminPage.tsx:17-33 | hiding the signed-in user commutes with an approval change |
| AdminPage.AdminPageState.constructor | pages/AdminPage.tsx:8-9 | no users listed, loading |
| AdminPage.AdminPageState.FetchUsers | pages/AdminPage.tsx:13-24 | lists the stored users other than the signed-in one, then stops loading |
| AdminPage.AdminPageState.HandleApprovalChange | pages/AdminPage.tsx:30-38 | stores the flag for that id, updates the listed copy, reports it; with unique ids the list stays consistent with the store |
| LoginPage.RouteFor | pages/LoginPage.tsx:21-27 | admins go to `/admin` whatever their approval, approved users to `/`, others to `/pending` |
| LoginPage.SeededAdminReachesPanel | pages/LoginPage.tsx:19-22 | the seeded administrator signs in with the fixed credentials and reaches the panel |
| LoginPage.NewAccountWaitsForApproval | pages/LoginPage.tsx:19-27 | a fresh registration signs in to the waiting page |
| LoginPage.LoginPageState.constructor | pages/LoginPage.tsx:8-10 | the form values, not loading, no navigation |
| LoginPage.LoginPageState.HandleSubmit | pages/LoginPage.tsx:15-33 | success: the user becomes current and the session, the success notice and navigation by role; failure: the error, session unchanged, no navigation, loading reset; users and provider loading unchanged; provider and store stay in sync |
| RegisterPage.Validate | pages/RegisterPage.tsx:18-25 | mismatch reported first, then a password under 6 characters; 6 is accepted |
| RegisterPage.AcceptedPasswordSignsIn | pages/RegisterPage.tsx:22-29 | every accepted password can sign in once registered |
| RegisterPage.RegisterPageState.constructor | pages/RegisterPage.tsx:8-11 | the form values, not loading, no navigation |
| RegisterPage.RegisterPageState.HandleSubmit | pages/RegisterPage.tsx:16-38 | invalid input: the notice and no call; taken email: the error, no navigation; otherwise the user is appended and the page goes to `/login`; loading ends false |

## Left out

- Storage is modelled as a typed key: missing, corrupt or holding a value. The JSON text of the stored users, session and history is not modelled, so a corrupt key simply reads as empty. Failed storage writes (quota) are not modelled.
- Strings are sequences of Unicode scalar values. The source counts UTF-16 code units, so `length`, `substring` and the 100000-character limits differ for text outside the Basic Multilingual Plane.
- `toLowerCase` is restricted to ASCII letters. `toLocaleDateString` and `Date` parsing are parameters (`formatDate`, `time`).
- Time stamps, `Math.random` ids and the API keys are parameters.
- The network calls are parameters: the Gemini SDK call and the Groq `fetch`. The provider reply is a `Result`. Rejections that are not `Error` objects, and their "unknown error" messages, are not modelled.
- `Promise.all` is modelled sequentially. When both calls fail, the technical error is the one reported; in the source the first rejection in time wins.
- `await` points are atomic. The intermediate states during a request (`isLoading` true, `summaries` null) are not observable in the model.
- The foreign libraries are not modelled: pdf.js, mammoth, html2canvas, jsPDF and `window.save`. PDF pages are given as lists of item strings, and DOCX text is given as a `Result`. The PDF/DOCX export itself and its success notice are left out; only the file names are modelled.
- Browser I/O is not modelled: Blob downloads, the clipboard (`handleCopy`), `window.confirm` and `console.error`. The reset of the file input's value is also left out.
- React rendering, routing, layout and `activeTab` are not modelled, nor are the pages that only render (settings, pending approval, sidebar).
- The toast auto-dismiss timer is not modelled. Its effect is a later `RemoveToast` with the same id.
- UseToast.ToastClassesDistinct: the `default` branch of `getToastClasses` is unreachable with the four-kind type, so it is not modelled.
- The catch branches of the administration page (`Falha ao carregar usuários.`, `Falha ao atualizar status do usuário.`) are not modelled. The modelled store operations never throw.
- HomePage.HomePageState.Restore: a corrupt cached JSON makes the source throw during mount. The model reads the cache as already-parsed values.
- The Groq service is modelled, but the summarising page calls the Gemini service; nothing in the model connects the two.
- AdminPage.AdminPageState.HandleApprovalChange: the listed copy and the store stay consistent only when user ids are unique. The store updates the first match, while the page updates every match.

## Findings

| source | as written | input that shows it | evidently intended | confidence | as-written member | corrected member |
|---|---|---|---|---|---|---|
| hooks/useToast.tsx:57-65 | `addToast` takes its id from the `idCounter` its callback closed over, and the counter advances only through a functional update. Two toasts raised in one handler therefore get the same id, and dismissing either one (or its timer firing) removes both. | An extracted text longer than 100000 characters: `handleFileChange` (pages/HomePage.tsx:58,63) raises the truncation warning and the success notice from one closure | Every toast gets a fresh id, so ids are pairwise distinct | not executed | UseToast.ToastProvider.NotifyTwiceAsWritten | UseToast.ToastProvider.Notify |
