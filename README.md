# qelion-wrapper-bridge: budgets, attachments and replies

This project is a Dafny model of the logic that decides how much of an attached document reaches a
local language model. It covers both ends of the bridge:

- **Browser client (main.js).** The client estimates a character budget from the model catalog or
  the model name. It keeps one pending-upload slot and fills it from image, text and PDF pickers,
  where a text file is read asynchronously. It guards and performs `send`, syncs the system prompt
  with the locale and translates strings. It also splits a reply into its answer and its
  `<think>` block.
- **Flask server (server.py).** The server parses the chat form and estimates the budget from the
  model name alone. It clamps documents, strips byte-order marks, reads PDF pages until the budget
  is filled, and dispatches an upload to the text, PDF or image branch. It also normalises the
  model server's `/api/tags` catalog.
- **Command-line chat (ollama_ocr_chat.py).** The chat builds the message list and parses the
  `<path> | <question>` line syntax. Its read-eval loop has clear, OCR and append rules.
- **OCR front (apple_vision_ocr.py).** This part normalises and deduplicates languages, derives the
  tesseract language argument, picks the backend and cleans paths.

The three search-and-return loops over the budget tables share one first-match model
(`TokenTable`). Each loop method (`Search`, `EstimateCharLimitLocal`, `CharLimitForModel`,
`EstimateCharLimit`, `ReadPdfFile`, `NormalizeLanguages`, `TesseractTokens`, `ListModels`) is
proved equal to a specification function, and lemmas then state what the program promises about that
function.

Mutable state is modelled in two classes:

- **`ClientSession.Session`** holds the client's global variables. Its event methods state the
  whole new state. `send` is split at its `await`: `BeginSend` checks the guards and builds the
  request, and `FinishSend` applies the response.
- **`OcrChat.Repl`** holds the loop's history and its OCR context. Its invariant says the
  remembered OCR text is what the recogniser read from the remembered image.

Everything outside the program arrives as parameters:

- the browser's `File` objects and the file reader's result;
- the fetch outcome;
- decoded text and extracted PDF pages;
- the recognisers and the model call;
- path resolution and existence.

Two behaviours the model follows from the code:

- **The `think>` regular expression.** It starts with `think>`, not `<think>`, so a `<` in front of
  the opening tag stays in the answer. `"hello <think>x</think> world"` gives the answer
  `"hello < world"`, not a text without the bracket (`ReplySplit.AngleBracketSurvives`).
- **The two ends disagree on budgets.** Both hold the same size-token table, so for a model the
  catalog does not describe they agree (`BudgetAgreement.UncataloguedAgrees`). The browser,
  however, prefers the catalog's `context_length × 4`, which the server never consults. With a
  32768-token default model the browser expects 131072 characters while the server cuts at
  10000 (`BudgetAgreement.DefaultModelDiverges`). No truncation warning is shown beforehand.

## Model

| member | source | states |
|---|---|---|
| TokenTable.FirstMatchIndex | main.js:166-168 | the index found is the first table token contained in the text; every earlier token is absent |
| TokenTable.TokenLimitFirstMatch | server.py:48-50 | when token i occurs and no earlier one does, the lookup yields token i's budget whatever later tokens occur |
| TokenTable.TokenLimitNone | server.py:46-51 | the lookup misses exactly when no token of the table occurs in the text |
| TokenTable.TokenLimitInTable | main.js:166-168 | a hit is one of the table's budgets |
| TokenTable.TokenLimitWithin | main.js:129-141 | a hit from a table whose budgets lie in a range lies in that range |
| TokenTable.Search | server.py:47-51 | the early-return search loop returns exactly the first-match budget, or none |
| ClientBudget.LocalTableBounds | main.js:129-141 | every budget of `LOCAL_CHAR_LIMITS` lies between 4000 and 100000 |
| ClientBudget.LocalEstimate | main.js:164-170 | the name-only estimate lies between 4000 and 100000 |
| ClientBudget.FindIndex | main.js:172-175 | the index found is the first catalog item with that name |
| ClientBudget.FindModelInfo | main.js:172-175 | an entry is found exactly when the name is non-empty and some item carries it, and it is the first such item |
| ClientBudget.CharLimit | main.js:177-192 | the budget is always positive |
| ClientBudget.ContextLengthDecides | main.js:177-183 | a catalog entry with positive context length c gives 4·c, whatever its parameter size or name |
| ClientBudget.ParameterSizeDecides | main.js:184-189 | without a usable context length, the first table token in the lower-cased parameter size decides |
| ClientBudget.NameDecides | main.js:190-191 | when neither catalog field decides, the name-only estimate is used, and 16000 when no token occurs in the name |
| ClientBudget.FourteenBillionReadsAsFour | main.js:184-189 | a "14B" parameter size matches "4b" first and gives 10000, not 22000 |
| ClientBudget.DefaultModelBudget | main.js:164-170 | "qwen3:4b" without catalog data gets 10000 characters |
| ClientBudget.EstimateCharLimitLocal | main.js:164-170 | the loop returns the name-only estimate |
| ClientBudget.CharLimitForModel | main.js:177-192 | the method's three-stage chain returns `CharLimit` |
| Locale.T | main.js:149-156 | a key of the current table reads from it; otherwise the result is the English text or the key itself |
| Locale.UnknownLocaleReadsEnglish | main.js:150 | an unknown locale reads exactly as English |
| Locale.MissingKeyFallsBack | main.js:154-155 | a key missing from the locale's table falls back to English, then to the key itself |
| Locale.TranslateWarning | main.js:158-162 | no text for an absent or empty code; otherwise the text of `warning_<code>` |
| Locale.WarningInLocale | main.js:158-162 | a warning key the locale defines reads in that locale |
| Locale.LocaleOrEnglish | main.js:221-224 | the locale chosen always has a table, and is the requested one exactly when that has a table |
| Locale.PromptFor | main.js:195 | the locale's prompt when it is non-empty, else the English prompt |
| Locale.PromptNeverEmpty | main.js:195 | the system prompt is never empty when the English one is not |
| Locale.LangCodeFor | main.js:517-520 | a `lang` field is sent exactly when the locale maps to a non-empty code |
| Locale.SyncedHistory | main.js:194-201 | an empty history gets one system turn; otherwise only the first turn's content changes, its role and every other turn kept |
| Locale.SyncIdempotent | main.js:194-201 | syncing twice with the same prompt equals syncing once |
| Locale.SyncLastWins | main.js:194-201 | syncing with p then q equals syncing with q |
| Text.TrimStart | ollama_ocr_chat.py:82 | the result is a suffix, starts with a kept character, and everything dropped was whitespace |
| Text.TrimEnd | ollama_ocr_chat.py:82 | the result is a prefix, ends with a kept character, and everything dropped was whitespace |
| Text.Trim | ollama_ocr_chat.py:82 | the result is a contiguous slice with no whitespace at either end, and only whitespace was dropped around it |
| Text.TrimIdempotent | main.js:376 | trimming a trimmed text changes nothing |
| Text.TrimAround | apple_vision_ocr.py:123 | one surrounding character of the set around a clean text is removed on each side |
| Text.Lower | server.py:47 | lower-casing keeps the length and maps each character |
| Text.LowerFixed | server.py:129 | a text without upper-case letters is its own lower-case form |
| Text.ContainsAt | main.js:167 | a slice equal to the token means the text contains it |
| Text.IndexOf | ollama_ocr_chat.py:81 | the index is the first occurrence of the character, or the length |
| Text.BeforeFirst | ollama_ocr_chat.py:81 | the left part is the prefix before the first bar character, which it does not contain |
| Text.Split | server.py:128 | `split(",")` gives at least one piece, and no piece holds the separator |
| Text.JoinSplit | server.py:128 | joining the pieces with the separator gives the text back |
| Text.StrippedNonBlank | server.py:128 | every listed entry is non-empty |
| Text.StrippedNonBlankKeeps | server.py:128 | an entry is listed exactly when it is the non-empty strip of some piece |
| Text.CommaListShape | server.py:128 | every language listed is non-empty, already stripped and free of commas |
| Text.CollapseSpaces | main.js:467 | collapsing whitespace runs never lengthens the text |
| Text.CollapseKeepsText | main.js:467 | collapsing keeps every non-whitespace character, in order: deleting whitespace from input and result gives the same text |
| Text.CollapseFixed | main.js:467 | a text already without whitespace runs and with only plain spaces is unchanged |
| Text.CollapseIdempotent | main.js:467 | collapsing twice is collapsing once |
| Text.CollapseShape | main.js:467 | after collapsing, no two whitespace characters are adjacent, the only whitespace is the plain space, and leading whitespace is kept as a space |
| Text.TrimKeepsShape | main.js:467 | trimming a collapsed text keeps it collapsed |
| Text.RemoveAll | server.py:78 | the removed character no longer occurs, and the text does not grow |
| Text.RemoveAllAbsent | server.py:78 | removing an absent character changes nothing |
| ReplySplit.SpaceRun | main.js:375 | the run counted is all `\s` and maximal |
| ReplySplit.FindOpen | main.js:375 | the first case-insensitive `think>` at or after a position |
| ReplySplit.FindClose | main.js:375 | the first `<\s*/think>` at or after a position |
| ReplySplit.EmptyReply | main.js:374 | an empty reply gives an empty answer and no thoughts |
| ReplySplit.ThoughtsIffMatch | main.js:375-377 | thoughts are present exactly when the reply holds an opening marker followed by a closing one |
| ReplySplit.NoMatchAnswer | main.js:376 | without a match the answer is the trimmed reply and there are no thoughts |
| ReplySplit.LeftmostMatchIsCut | main.js:375-379 | the leftmost opening marker with its nearest closing marker is cut out; the thoughts are the trimmed text between them, the answer the trimmed rest |
| ReplySplit.WrappedMarkers | main.js:375 | a `<think>…</think>` block is matched at the `t`, one past its `<` |
| ReplySplit.AngleBracketSurvives | main.js:375-378 | `pre<think>body</think>post` answers `pre<post` trimmed and thinks `body` trimmed |
| ClientSession.File.constructor | main.js:444 | a file has the name and size it was made with |
| ClientSession.PreviewShape | main.js:467 | the preview is at most 120 characters, trimmed, and each whitespace run in it is one plain space |
| ClientSession.TextWarning | main.js:465 | `text_truncated` exactly when the text is longer than the budget |
| ClientSession.PdfWarning | main.js:490 | `pdf_truncated` exactly when the size exceeds twice the budget or 4 MiB |
| ClientSession.PdfWarningMonotone | main.js:490 | a larger file or a smaller budget never removes the warning |
| ClientSession.AfterTextLoad | main.js:466-470 | a read whose file is no longer pending leaves the slot untouched |
| ClientSession.TextLoadCompletes | main.js:466-470 | a read of the pending file sets the preview and ends loading, keeping file and kind; its warning is `text_truncated` exactly when the text exceeds the budget, and no other code |
| ClientSession.AfterTextError | main.js:473-480 | a failed read empties the slot only when its file is still pending |
| ClientSession.Fallback | main.js:272-273 | the selection stays the same exactly when it is listed, and otherwise becomes the first listed model |
| ClientSession.RenderedSelection | main.js:241-283 | the selection changes only when a non-empty catalog is loaded, and then names a listed model |
| ClientSession.Named | main.js:295 | the filter keeps only named items, drawn from the list |
| ClientSession.NamedKeeps | main.js:295 | an item survives exactly when it is in the list and named |
| ClientSession.NamedAppend | main.js:295 | the filter works item by item, so the kept items stay in their original order |
| ClientSession.EffectiveModel | main.js:410-415 | the model sent is never empty, and is the selection when that is non-empty |
| ClientSession.AttachmentAloneSends | main.js:500-507 | a finished attachment can be sent with an empty prompt |
| ClientSession.BlankPromptAloneBlocked | main.js:503-507 | an all-whitespace prompt without an attachment is not sent |
| ClientSession.Shown | main.js:549-551 | a text is shown only when it is non-empty |
| ClientSession.AnsweredView | main.js:545-551 | a reply shows its answer, or "ready" when that is empty; the thoughts block appears exactly when the reply holds a think block with non-empty trimmed text, and shows that text; the warning appears exactly when the server sent a code whose translation is non-empty, and shows that translation |
| ClientSession.ErrorView | main.js:543-544 | an error status shows the server's error text |
| ClientSession.HistoryAfter | main.js:543-554 | a successful reply appends exactly a user turn then an assistant turn; any other outcome keeps the history |
| ClientSession.HistoryKeepsRawReply | main.js:553 | the assistant turn holds the raw reply, think block included |
| ClientSession.Session.constructor | main.js:143-147 | empty history, English, catalog loading, default model, no upload |
| ClientSession.Session.CurrentBudget | main.js:464 | the budget of the selected model under the current catalog |
| ClientSession.Session.ApplyLocale | main.js:221-239 | the locale becomes the requested one or English, and the system prompt is synced; nothing else changes |
| ClientSession.Session.SyncSystemPrompt | main.js:194-201 | the history becomes its synced form for the locale's prompt; nothing else changes |
| ClientSession.Session.StartLoadingModels | main.js:286 | the catalog becomes loading and empty; nothing else changes |
| ClientSession.Session.ModelsReceived | main.js:295-296 | the catalog becomes the named items, and the selection is rendered against it |
| ClientSession.Session.ModelsFailed | main.js:297-300 | the catalog becomes an empty error state; nothing else changes |
| ClientSession.Session.ChooseModel | main.js:241-283 | picking a listed model selects it; nothing else changes |
| ClientSession.Session.PrepareImageUpload | main.js:444-453 | a file installs an image upload with no warning; no file changes nothing |
| ClientSession.Session.PrepareTextUpload | main.js:455-463 | a file installs a loading text upload with no warning; no file changes nothing |
| ClientSession.Session.TextReadLoaded | main.js:464-472 | the slot becomes the completed upload for the pending file, measured against the current budget; a superseded slot is untouched |
| ClientSession.Session.CompleteTextRead | main.js:466-470 | the identity-checked update of the slot |
| ClientSession.Session.TextReadFailed | main.js:473-480 | the slot is emptied only when its file is still pending |
| ClientSession.Session.PreparePdfUpload | main.js:486-497 | a file installs a PDF upload whose warning follows size and budget |
| ClientSession.Session.BeginSend | main.js:499-534 | no request exactly when the send is blocked; otherwise the trimmed prompt, the history, the model, the language and the attachment fields as the upload says |
| ClientSession.Session.FinishSend | main.js:540-561 | the history follows `HistoryAfter`, the card follows the outcome, and the slot is emptied in every case |
| ServerDocs.ModelTableBounds | server.py:31-43 | every budget of `MODEL_CHAR_LIMITS` lies between 4000 and 100000 |
| ServerDocs.ServerEstimate | server.py:46-51 | the server's budget lies between 4000 and 100000 |
| ServerDocs.ServerEstimateDefault | server.py:51 | a name with no size token gets 16000 |
| ServerDocs.EstimateCharLimit | server.py:46-51 | the loop returns the first-match budget of the lower-cased name, else 16000 |
| ServerDocs.ClampText | server.py:54-59 | the result is a prefix, within the budget when that is positive, cut exactly when the budget is positive and exceeded, and then exactly the budget long |
| ServerDocs.ClampIdempotent | server.py:54-59 | clamping a clamped text changes nothing and reports no cut |
| ServerDocs.ReadTextFile | server.py:78-79 | no byte-order mark survives, and the text is a prefix of the mark-free text |
| ServerDocs.ReadTextWithoutBom | server.py:78-79 | a text without marks is only clamped |
| ServerDocs.NonEmpty | server.py:102-103 | only non-empty page texts are kept |
| ServerDocs.NonEmptyKeeps | server.py:102-103 | a page text is kept exactly when it is non-empty |
| ServerDocs.JoinAtLeast | server.py:106 | joining never loses a character of the chunks |
| ServerDocs.PagesRead | server.py:97-105 | the loop stops right after the first page at which the chunks reach the budget, or at the end |
| ServerDocs.PdfText | server.py:106-107 | the PDF text is a prefix of the chunks joined by blank lines, within a positive budget, and cut exactly when the joined chunks exceed it |
| ServerDocs.PdfReadsAllWithoutBudget | server.py:104 | without a positive budget every page is read |
| ServerDocs.PdfEarlyStopFillsBudget | server.py:104-107 | when the loop stops early the document fills the budget exactly |
| ServerDocs.ReadPdfFile | server.py:97-107 | the page loop with its running total and `break` computes `PdfText` |
| ServerApi.LangListShape | server.py:127-128 | every language the form names is non-empty, stripped and free of commas |
| ServerApi.ParseForm | server.py:126-132 | the languages are the comma list of the stripped field and `fast` is on exactly for the accepted words |
| ServerApi.FastFlag | server.py:129 | an absent field is off, "TRUE" is on, "off" is off |
| ServerApi.EmptyForm | server.py:126-132 | an empty form asks the default model, no languages, not fast, empty prompt and no kind |
| ServerApi.HistoryOf | server.py:133-139 | a history that does not decode to a list becomes empty |
| ServerApi.BranchFor | server.py:150-168 | text exactly for kind "text" or a text extension; else PDF for kind "pdf" or ".pdf"; else image |
| ServerApi.TextWinsOverPdf | server.py:150-158 | a text extension beats a "pdf" kind, a "text" kind beats ".pdf", and ".pdf" beats an "image" kind |
| ServerApi.ChosenFile | server.py:143-144 | the named `upload` file wins, otherwise the `image` file |
| ServerApi.TextDocument | server.py:150-157 | a failure to read the upload is a 400 "Text import error"; otherwise a document |
| ServerApi.TextDocumentBudget | server.py:150-157 | the text document has no byte-order mark, is a prefix of the mark-free text, fits the budget, and warns `text_truncated` exactly when cut |
| ServerApi.PdfDocument | server.py:158-167 | a missing library or runtime error is a 500 with its message, another failure a 400 "PDF import error" |
| ServerApi.PdfDocumentBudget | server.py:158-167 | the PDF document is a prefix of the joined chunks, fits the budget and warns `pdf_truncated` exactly when cut |
| ServerApi.ImageDocument | server.py:168-180 | an image's text carries no warning; an OCR failure is a 400 "OCR error" |
| ServerApi.DocumentWithinBudget | server.py:144-180 | whatever the branch, the document fits the server's name-only budget and only text and PDF documents warn |
| ServerApi.NoFileNoDocument | server.py:141-145 | without a named file the document is empty and carries no warning |
| ServerApi.ReadFailureStatus | server.py:150-180 | a failed read is a 400 or a 500, and a 500 exactly for a PDF without its library or with a runtime error |
| ServerApi.ReadDocument | server.py:144-180 | the dispatch computes the document stage |
| ServerApi.ReadPdfDocument | server.py:158-167 | the PDF branch computes `PdfDocument` |
| ServerApi.Chat | server.py:125-193 | a read failure is the reply and nothing is sent; otherwise the model gets exactly the history, then the document as a context message when its text is non-empty, then the prompt, and its failure is a 500 "LLM error" |
| ServerApi.Answer | server.py:141-193 | after form parsing, the same exact message list and reply as `Chat` |
| ServerApi.Respond | server.py:182-193 | the messages are exactly the history, the context message when the document text is non-empty, and the prompt; the reply carries the answer, the document and its warning, or a 500 with the model's error |
| ServerApi.TagName | server.py:211-213 | an item is named by a truthy `name`, else a truthy `model`, and skipped when neither is |
| ServerApi.EntryOf | server.py:214-220 | the entry's `model` defaults to its name, and its sizes are absent without details |
| ServerApi.Entries | server.py:209-220 | every listed entry is named, and no more entries than items |
| ServerApi.EntriesAppend | server.py:210 | the items are normalised one by one in input order |
| ServerApi.EntriesOfOne | server.py:210-220 | an item gives its entry when named and nothing otherwise |
| ServerApi.ListModels | server.py:197-223 | no HTTP library is a 500, a failed fetch a 502 "Failed to load models", success the normalised list |
| OcrChat.BuildMessages | ollama_ocr_chat.py:67-75 | the result starts with all of the history, has the context message exactly when the OCR text is truthy, and ends with the prompt |
| OcrChat.BarSplit | ollama_ocr_chat.py:80-81 | the left part, the bar and the right part give the line back |
| OcrChat.ParseLine | ollama_ocr_chat.py:78-89 | without a path there is always a question |
| OcrChat.ParseLineCases | ollama_ocr_chat.py:78-89 | with a bar, the normalised left and the stripped right; without one, the path exactly when it exists, else the stripped line |
| OcrChat.OcrEcho | ollama_ocr_chat.py:137-139 | the echo is the first 600 characters, with "…" exactly when the text is longer, and empty without text |
| OcrChat.ContextTurns | ollama_ocr_chat.py:69-73 | one context message when the OCR text is truthy, none otherwise |
| OcrChat.LoggedPrompt | ollama_ocr_chat.py:157 | the question is logged with "Context included. " exactly when OCR text is present |
| OcrChat.LoggedPromptNote | ollama_ocr_chat.py:157 | the logged question differs from the typed one exactly when OCR text is present |
| OcrChat.CommandOf | ollama_ocr_chat.py:118-126 | blank lines are skipped; the quit words and then the clear words are recognised after lower-casing |
| OcrChat.QuitWords | ollama_ocr_chat.py:119-120 | "Q" and ":q" quit |
| OcrChat.ClearWords | ollama_ocr_chat.py:119-122 | "RESET" clears, and "quit it" is input, not a command |
| OcrChat.ClearedHistory | ollama_ocr_chat.py:123 | `history[:1]` is a prefix of length one, or empty |
| OcrChat.ClearKeepsSystemPrompt | ollama_ocr_chat.py:121-123 | clearing keeps exactly the system prompt |
| OcrChat.Repl.constructor | ollama_ocr_chat.py:99-109 | the languages are parsed from `--lang`, the history holds only the system prompt, and there is no OCR context |
| OcrChat.Repl.HandleLine | ollama_ocr_chat.py:112-159 | blank and quit lines change nothing, clear keeps `history[:1]` and forgets the OCR context, and other lines make a pass with the effect `HandleInput` states |
| OcrChat.Repl.HandleCommand | ollama_ocr_chat.py:117-126 | skip, quit, or clear to `history[:1]` without OCR context; never a reply |
| OcrChat.Repl.HandleInput | ollama_ocr_chat.py:128-159 | an image the line names is read and replaces the context unless OCR fails; without a question the loop waits; otherwise the question (the text after the bar, or the line) goes to the model as the history, the OCR context message exactly when there is OCR text, and the question; OCR errors arise only on a line naming an image; the pass replies exactly when the model answers, else reports the model's error; a reply appends the logged question and the reply |
| OcrChat.Repl.ReadAndAsk | ollama_ocr_chat.py:128-159 | the pass on a line naming an image: OCR, then a wait for a question or the model call with the new context, with the same effect as `HandleInput` |
| OcrChat.Repl.ReadImage | ollama_ocr_chat.py:129-135 | success remembers the text and the path; failure returns the error and changes nothing |
| OcrChat.Repl.Ask | ollama_ocr_chat.py:151-159 | the model is sent the history, the OCR context message exactly when there is OCR text, and the question; it replies exactly when the model answers, appending the logged question and the reply; otherwise it reports the model's error and keeps the history |
| VisionOcr.Collect | apple_vision_ocr.py:43-49 | nothing blank is collected |
| VisionOcr.CollectNoDup | apple_vision_ocr.py:48-49 | the collected list holds no duplicates |
| VisionOcr.CollectMembers | apple_vision_ocr.py:43-49 | a value is collected exactly when it is the non-empty image of some entry |
| VisionOcr.CollectPrefix | apple_vision_ocr.py:43-49 | collecting a prefix gives a prefix, so first occurrences keep their order |
| VisionOcr.NormalizedLanguages | apple_vision_ocr.py:40-50 | never empty: the default list or the collected stripped entries |
| VisionOcr.NormalizedLanguagesShape | apple_vision_ocr.py:40-50 | the languages are distinct, non-empty and stripped |
| VisionOcr.BlankLanguagesDefault | apple_vision_ocr.py:50 | all-blank input gives `["en-US"]` |
| VisionOcr.NormalizeLanguages | apple_vision_ocr.py:40-50 | the loop computes the normalised languages |
| VisionOcr.LangToken | apple_vision_ocr.py:88 | the token is the longest prefix of the tag without '-' or '_': shorter only where the tag continues with one of them |
| VisionOcr.TesseractLangArg | apple_vision_ocr.py:87-92 | no argument exactly when no token is collected |
| VisionOcr.SameLanguageOnce | apple_vision_ocr.py:87-92 | "en-US" and "en_GB" give the single token "en" |
| VisionOcr.TesseractTokens | apple_vision_ocr.py:87-92 | the loop computes the tesseract argument |
| VisionOcr.OcrImage | apple_vision_ocr.py:84-114 | Vision's text when it succeeds; without Vision, or after its failure, tesseract decides when installed, its text returned stripped and its failure passed on; otherwise a Vision failure or no backend is an error of that kind |
| VisionOcr.TesseractFallback | apple_vision_ocr.py:103-112 | without Vision, or after its failure, tesseract runs on the derived argument and decides, its text stripped |
| VisionOcr.NormalizePath | apple_vision_ocr.py:120-130 | an empty path stays empty; any other is stripped of whitespace and then of quotes before resolution |
| VisionOcr.CleanQuoted | apple_vision_ocr.py:123 | a quoted clean path loses its quotes, a clean one stays as it is |
| VisionOcr.QuotedPath | apple_vision_ocr.py:120-130 | a quoted path names the same file as the bare one |
| BudgetAgreement.EstimatesAgree | server.py:31-51 | the name-only estimates of client and server coincide |
| BudgetAgreement.UncataloguedAgrees | main.js:177-192 | a model the catalog does not describe gets the same budget at both ends |
| BudgetAgreement.CatalogOutgrowsServer | main.js:180-183 | a catalog context above 25000 tokens makes the client expect more than the server's budget |
| BudgetAgreement.DefaultModelDiverges | main.js:177-183 | the default model with a 32768-token entry: 131072 in the client, 10000 on the server |
| BudgetAgreement.Infos | main.js:295 | the client's view of each catalog entry, position by position |
| BudgetAgreement.NamedKeepsNamed | main.js:295 | the client's filter drops nothing from an all-named list |
| BudgetAgreement.CatalogSurvivesFilter | server.py:210-221 | every entry the server lists survives the client's filter, in order |

## Left out

- DOM construction and rendering are not modelled: cards, chips, thoughts and warning blocks,
  picker show and hide, translations applied to nodes, and event wiring. They are user interface;
  `BotViewFor` keeps only what a card shows.
- `fetch`, `FormData`, `FileReader` internals and `URL.createObjectURL` are not modelled. The
  fetch outcome and the reader's result are inputs, and the image preview URL is not kept.
- A fractional or non-numeric `context_length` is not modelled; the catalog holds an optional
  integer, because `Math.round(ctx * 4)` on floats is outside the model.
- String lengths count Unicode code points, not JavaScript's UTF‑16 code units.
- Lower-casing is ASCII only. Some non-ASCII characters do lower-case to ASCII letters: U+212A
  KELVIN SIGN becomes "k", and U+0130 becomes "i" followed by a combining dot. `Lower` therefore
  differs from `toLowerCase` and `str.lower` on such text, but no comparison the program makes can
  tell the difference. The size tokens hold only digits and "b". The words compared whole
  (`fast`'s four words and the quit and clear words) contain no "k", and U+0130 turns one
  character into two, so it never produces them. The reply regex's `/i` without the `u` flag never
  maps a non-ASCII character to an ASCII one.
- Prototype keys such as `constructor` are not modelled in `t`: the string tables are plain maps.
- JSON decoding of the history field is not modelled; the field arrives already classified as a
  turn list, a non-list or undecodable.
- PyPDF2 page extraction and the codec fallback chain of `read_text_file` are not modelled: a text
  upload arrives decoded, or as the error reading it raised, and a PDF as its page texts or its
  failure. The codec chain ends with latin-1, which decodes every byte string, so decoding itself
  never fails.
- Apple Vision and pytesseract are parameters, as are `pathlib` expansion and resolution,
  `os.path.exists`, and `is_image_file`.
- `argparse`, `input`, `print` and streaming output are not modelled. The REPL methods receive one
  line each and return what the pass did; the `--model` flag only names the model.
- `secure_filename`, the temporary files and `os.remove` are not modelled. The lower-cased suffix
  of the uploaded name is an input.
- The image branch of `chat` saves the upload to a temporary path before OCR. The model hands the
  recogniser the filename instead, since the path's value does not matter to the result.
- The `OLLAMA_HOST` URL and the HTTP details of `/api/tags` are not modelled; the fetch arrives as
  its parsed items or an error.
- `ClientSession.Session.BeginSend` reads the model from the selection. The select widget's own
  value is user interface and is not modelled.
- The PDF upload object in main.js has no `previewText` or `loading` field. Both read as falsy, so
  they are modelled as "" and false.
- A `null` language entry (`lang or ""`) is not modelled: languages are strings.
- The recogniser the server's image branch calls is a parameter of `ServerApi.DocumentStage`; it is
  not tied to `VisionOcr.OcrImage`, whose backend order is modelled on its own.
- `file.save(p)` in the image branch of `chat` sits outside the `try`, so a failing save is an
  uncaught server error; the model does not represent saving and so has no such failure.
