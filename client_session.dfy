/** The browser client's mutable state (main.js): the conversation history, the current locale, the
    model catalog and selection, and the single pending-upload slot, with the events that change
    them. `send` is split at its `await`: `BeginSend` checks the guards and builds the request,
    `FinishSend` applies the response. */
module ClientSession {
  import opened Wrappers
  import opened Text
  import opened Conversation
  import opened ClientBudget
  import opened ReplySplit
  import opened Locale

  /** A browser `File`; the slot compares files by identity, as `===` does. */
  class File {
    const name: string
    const size: nat

    constructor (name: string, size: nat)
      ensures this.name == name && this.size == size
    {
      this.name := name;
      this.size := size;
    }
  }

  datatype Kind = ImageKind | TextKind | PdfKind

  /** The `upload_kind` form value of each kind. */
  function KindName(k: Kind): string {
    match k
    case ImageKind => "image"
    case TextKind => "text"
    case PdfKind => "pdf"
  }

  datatype WarningCode = TextTruncated | PdfTruncated

  /** The wire form of a warning code. */
  function WarningName(w: WarningCode): string {
    match w
    case TextTruncated => "text_truncated"
    case PdfTruncated => "pdf_truncated"
  }

  /** The pending upload. An image or PDF upload has no preview text and is never loading. */
  datatype Upload = Upload(file: File, kind: Kind, previewText: string, warning: Option<WarningCode>, loading: bool)

  datatype LoadStatus = Loading | Loaded | LoadError

  /** `modelsState`: the catalog is empty unless it has been loaded. */
  datatype ModelsState = ModelsState(status: LoadStatus, items: seq<ModelInfo>)

  /** The model used when nothing has been selected. */
  const DefaultModel: string := "qwen3:4b"

  /** How many characters of a text file the preview shows. */
  const PreviewLength: nat := 120

  /** A PDF above this many bytes is always flagged as too long. */
  const PdfSizeCap: nat := 4 * 1024 * 1024

  /** `text.slice(0, 120).replace(/\s+/g, ' ').trim()`. */
  function Preview(text: string): string {
    JsTrim(CollapseSpaces(text[..if |text| < PreviewLength then |text| else PreviewLength]))
  }

  /** The preview is at most 120 characters long, has no leading or trailing whitespace, and every
      whitespace run in it is a single plain space. */
  lemma PreviewShape(text: string)
    ensures |Preview(text)| <= PreviewLength
    ensures NoDoubleSpace(Preview(text)) && OnlyPlainSpaces(Preview(text))
    ensures Preview(text) == [] || (!IsJsSpace(Preview(text)[0]) && !IsJsSpace(Preview(text)[|Preview(text)| - 1]))
  {
    var head := text[..if |text| < PreviewLength then |text| else PreviewLength];
    CollapseShape(head);
    TrimKeepsShape(CollapseSpaces(head));
  }

  /** The warning of a text upload: flagged exactly when the text is longer than the budget. */
  function TextWarning(text: string, limit: nat): (r: Option<WarningCode>)
    ensures r.Some? <==> |text| > limit
    ensures r.Some? ==> r.value == TextTruncated
  {
    if |text| > limit then Some(TextTruncated) else None
  }

  /** The warning of a PDF upload: flagged exactly when the file size exceeds twice the budget or
      the 4 MiB cap. */
  function PdfWarning(size: nat, limit: nat): (r: Option<WarningCode>)
    ensures r.Some? <==> size > 2 * limit || size > PdfSizeCap
    ensures r.Some? ==> r.value == PdfTruncated
  {
    if size > limit * 2 then Some(PdfTruncated) else if size > PdfSizeCap then Some(PdfTruncated) else None
  }

  /** A larger file is flagged whenever a smaller one is, and a smaller budget flags more. */
  lemma PdfWarningMonotone(size: nat, size': nat, limit: nat, limit': nat)
    requires size <= size' && limit' <= limit
    ensures PdfWarning(size, limit).Some? ==> PdfWarning(size', limit').Some?
  {
  }

  /** The slot after the text read of `file` completes with `text` under budget `limit`: only an
      upload of that very file is updated; any other slot stays exactly as it was. */
  function AfterTextLoad(slot: Option<Upload>, file: File, text: string, limit: nat): (r: Option<Upload>)
    ensures slot.None? || slot.value.file != file ==> r == slot
  {
    if slot.Some? && slot.value.file == file then
      Some(slot.value.(previewText := Preview(text), warning := TextWarning(text, limit), loading := false))
    else slot
  }

  /** A completed read of the current file leaves it ready to send, with its preview and warning. */
  lemma TextLoadCompletes(slot: Option<Upload>, file: File, text: string, limit: nat)
    requires slot.Some? && slot.value.file == file
    ensures AfterTextLoad(slot, file, text, limit).Some?
    ensures var u := AfterTextLoad(slot, file, text, limit).value;
      u.file == file && u.kind == slot.value.kind && !u.loading && u.previewText == Preview(text)
      && u.warning == TextWarning(text, limit) && (u.warning == Some(TextTruncated) <==> |text| > limit)
  {
  }

  /** The slot after the text read of `file` fails: an upload of that file is dropped, any other slot
      stays exactly as it was. */
  function AfterTextError(slot: Option<Upload>, file: File): (r: Option<Upload>)
    ensures slot.None? || slot.value.file != file ==> r == slot
    ensures slot.Some? && slot.value.file == file ==> r.None?
  {
    if slot.Some? && slot.value.file == file then None else slot
  }

  /** Some catalog item carries `name`. */
  predicate HasName(items: seq<ModelInfo>, name: string) {
    exists k :: 0 <= k < |items| && items[k].name == name
  }

  /** `candidates.includes(selectedModel) ? selectedModel : candidates[0]`. */
  function Fallback(items: seq<ModelInfo>, selected: string): (r: string)
    requires items != []
    ensures HasName(items, r)
    ensures HasName(items, selected) <==> r == selected
    ensures !HasName(items, selected) ==> r == items[0].name
  {
    if HasName(items, selected) then selected else items[0].name
  }

  /** The selection after `renderModelOptions`: changed only when a non-empty catalog is loaded. */
  function RenderedSelection(models: ModelsState, selected: string): (r: string)
    ensures models.status != Loaded || models.items == [] ==> r == selected
    ensures models.status == Loaded && models.items != [] ==> HasName(models.items, r)
  {
    if models.status == Loaded && models.items != [] then Fallback(models.items, selected) else selected
  }

  /** `loadModels`' filter: the items that carry a non-empty name, in their original order. */
  function Named(items: seq<ModelInfo>): (r: seq<ModelInfo>)
    ensures |r| <= |items|
    ensures forall k :: 0 <= k < |r| ==> r[k].name != "" && r[k] in items
  {
    if items == [] then []
    else (if items[0].name != "" then [items[0]] else []) + Named(items[1..])
  }

  /** The filter works item by item, so the kept items stay in their original order. */
  lemma {:induction false} NamedAppend(a: seq<ModelInfo>, b: seq<ModelInfo>)
    ensures Named(a + b) == Named(a) + Named(b)
  {
    if a != [] {
      var head := if a[0].name != "" then [a[0]] else [];
      ConcatDropsHead(a, b);
      NamedAppend(a[1..], b);
      calc {
        Named(a + b);
        head + Named(a[1..] + b);
        head + (Named(a[1..]) + Named(b));
        { ConcatAssociates(head, Named(a[1..]), Named(b)); }
        (head + Named(a[1..])) + Named(b);
        Named(a) + Named(b);
      }
    } else {
      assert a + b == b;
    }
  }

  /** Dropping the first item of a concatenation, proved apart from any filter's contract. */
  lemma ConcatDropsHead(a: seq<ModelInfo>, b: seq<ModelInfo>)
    requires a != []
    ensures (a + b)[0] == a[0] && (a + b)[1..] == a[1..] + b
  {
  }

  /** Regrouping a concatenation, proved apart from any filter's contract. */
  lemma ConcatAssociates(x: seq<ModelInfo>, y: seq<ModelInfo>, z: seq<ModelInfo>)
    ensures x + (y + z) == (x + y) + z
  {
  }

  /** The filter keeps exactly the named items. */
  lemma {:induction false} NamedKeeps(items: seq<ModelInfo>, m: ModelInfo)
    ensures m in Named(items) <==> m in items && m.name != ""
  {
    if items != [] {
      NamedKeeps(items[1..], m);
      assert items == [items[0]] + items[1..];
    }
  }

  /** `selectedModel || 'qwen3:4b'`. */
  function EffectiveModel(selected: string): (r: string)
    ensures r != ""
    ensures selected != "" ==> r == selected
  {
    if selected != "" then selected else DefaultModel
  }

  /** What `send` posts: the trimmed prompt, the history before this exchange, the model, the
      language code when the locale has one, and the pending upload's kind and file. */
  datatype ChatRequest = ChatRequest(
    prompt: string, history: seq<Turn>, model: string, lang: Option<string>,
    uploadKind: Option<Kind>, image: Option<File>, upload: Option<File>)

  /** `send` returns at once while an upload is loading, or when the trimmed prompt is empty and
      nothing is attached. */
  predicate SendBlocked(slot: Option<Upload>, input: string) {
    (slot.Some? && slot.value.loading) || (JsTrim(input) == "" && slot.None?)
  }

  /** An attachment that has finished loading can be sent with an empty prompt. */
  lemma AttachmentAloneSends(slot: Option<Upload>, input: string)
    requires slot.Some? && !slot.value.loading
    ensures !SendBlocked(slot, input)
  {
  }

  /** A prompt that is only whitespace is never sent on its own. */
  lemma BlankPromptAloneBlocked(input: string)
    requires forall k :: 0 <= k < |input| ==> IsJsSpace(input[k])
    ensures SendBlocked(None, input)
  {
  }

  /** How the exchange ended: the fetch threw, the server answered with an error status and body, or
      it answered successfully with `reply` and `document_warning`. */
  datatype Outcome =
    | NetworkFailure(message: string)
    | ErrorResponse(error: Option<string>)
    | Answered(reply: Option<string>, documentWarning: Option<string>)

  /** What the bot card shows: its text, the thoughts block and the warning line. */
  datatype BotView = BotView(text: string, thoughts: Option<string>, warning: Option<string>)

  /** A text is shown only when it is non-empty. */
  function Shown(s: Option<string>): (r: Option<string>)
    ensures r.Some? <==> s.Some? && s.value != ""
    ensures r.Some? ==> r == s
  {
    if s.Some? && s.value != "" then s else None
  }

  /** The bot card for an outcome, in the locale's words. */
  function BotViewFor(tables: StringTables, locale: string, outcome: Outcome): BotView
    requires English in tables
  {
    match outcome
    case NetworkFailure(m) => BotView(T(tables, locale, "network") + m, None, None)
    case ErrorResponse(e) => BotView(if e.Some? && e.value != "" then e.value else T(tables, locale, "error"), None, None)
    case Answered(reply, warning) =>
      var split := SplitReply(reply.GetOr(""));
      BotView(if split.answer != "" then split.answer else T(tables, locale, "ready"),
              Shown(split.thoughts),
              if warning.Some? && warning.value != "" then Shown(TranslateWarning(tables, locale, warning)) else None)
  }

  /** A successful reply shows its answer, or the locale's "ready" text when the answer is empty; a
      thoughts block exactly when the reply holds a think block whose trimmed text is non-empty; and
      the server's warning in the locale's words, exactly when it sent one whose translation is
      non-empty. */
  lemma AnsweredView(tables: StringTables, locale: string, reply: string, warning: Option<string>)
    requires English in tables
    ensures var v := BotViewFor(tables, locale, Answered(Some(reply), warning));
      var split := SplitReply(reply);
      (split.answer != "" ==> v.text == split.answer)
      && (split.answer == "" ==> v.text == T(tables, locale, "ready"))
      && (v.thoughts.Some? <==> split.thoughts.Some? && split.thoughts.value != "")
      && (v.thoughts.Some? ==> v.thoughts == split.thoughts && exists i: nat, j: nat :: MatchAt(reply, i, j))
      && (v.warning.Some? <==>
            warning.Some? && warning.value != "" && T(tables, locale, WarningKey(warning.value)) != "")
      && (v.warning.Some? ==> v.warning.value == T(tables, locale, WarningKey(warning.value)))
  {
    ThoughtsIffMatch(reply);
  }

  /** An error response shows the server's message when it sent one, and nothing but text. */
  lemma ErrorView(tables: StringTables, locale: string, error: string)
    requires English in tables && error != ""
    ensures BotViewFor(tables, locale, ErrorResponse(Some(error))) == BotView(error, None, None)
  {
  }

  /** The history after the exchange: a successful reply appends the user's prompt and then the
      assistant's raw reply; any failure leaves it as it was. */
  function HistoryAfter(h: seq<Turn>, prompt: string, outcome: Outcome): (r: seq<Turn>)
    ensures outcome.Answered? ==> (|r| == |h| + 2 && r[..|h|] == h
      && r[|h|] == Turn(User, prompt) && r[|h| + 1] == Turn(Assistant, outcome.reply.GetOr("")))
    ensures !outcome.Answered? ==> r == h
  {
    if outcome.Answered? then h + [Turn(User, prompt), Turn(Assistant, outcome.reply.GetOr(""))] else h
  }

  /** The raw reply is stored, think block and all, not the answer the card shows. */
  lemma HistoryKeepsRawReply(h: seq<Turn>, prompt: string, reply: string, warning: Option<string>)
    ensures HistoryAfter(h, prompt, Answered(Some(reply), warning))[|h| + 1].content == reply
  {
  }

  class Session {
    /** `localeStrings`, `localePrompts` and `localeLangCodes`. */
    const strings: StringTables
    const prompts: map<string, string>
    const langCodes: map<string, string>

    var history: seq<Turn>
    var locale: string
    var models: ModelsState
    var selectedModel: string
    var pending: Option<Upload>

    /** English is always available, the current locale has a table, the catalog is empty unless
        loaded, and a loaded non-empty catalog holds the selected model. */
    ghost predicate Valid()
      reads this`locale, this`models, this`selectedModel
    {
      English in strings && English in prompts && locale in strings
      && (models.status != Loaded ==> models.items == [])
      && (models.status == Loaded && models.items != [] ==> HasName(models.items, selectedModel))
      && (models.status == Loaded ==> forall k :: 0 <= k < |models.items| ==> models.items[k].name != "")
    }

    /** The page's initial state, before `applyLocale` and `loadModels` run. */
    constructor (strings: StringTables, prompts: map<string, string>, langCodes: map<string, string>)
      requires English in strings && English in prompts
      ensures Valid()
      ensures this.strings == strings && this.prompts == prompts && this.langCodes == langCodes
      ensures history == [] && locale == English && models == ModelsState(Loading, [])
      ensures selectedModel == DefaultModel && pending == None
    {
      this.strings := strings;
      this.prompts := prompts;
      this.langCodes := langCodes;
      history := [];
      locale := English;
      models := ModelsState(Loading, []);
      selectedModel := DefaultModel;
      pending := None;
    }

    /** `getSelectedModel()`: the enabled selector shows `selectedModel`, so this is the selection or
        the default model. */
    function SelectedModel(): string
      reads this`selectedModel
    {
      EffectiveModel(selectedModel)
    }

    /** The character budget of the selected model. */
    function Budget(): nat
      reads this`models, this`selectedModel
    {
      CharLimit(models.items, SelectedModel())
    }

    /** `charLimitForModel(getSelectedModel())`, with the search loops. */
    method CurrentBudget() returns (limit: nat)
      ensures limit == Budget()
    {
      limit := CharLimitForModel(models.items, SelectedModel());
    }

    /** `applyLocale(locale)`: an unknown locale becomes English, and the first history turn takes the
        new system prompt. */
    method ApplyLocale(requested: string)
      requires Valid()
      modifies this
      ensures Valid()
      ensures locale == LocaleOrEnglish(strings, requested)
      ensures history == SyncedHistory(old(history), PromptFor(prompts, locale))
      ensures models == old(models) && selectedModel == old(selectedModel) && pending == old(pending)
    {
      locale := LocaleOrEnglish(strings, requested);
      selectedModel := RenderedSelection(models, selectedModel);
      SyncSystemPrompt();
    }

    /** `syncSystemPrompt()`. */
    method SyncSystemPrompt()
      requires Valid()
      modifies this
      ensures Valid()
      ensures history == SyncedHistory(old(history), PromptFor(prompts, locale))
      ensures locale == old(locale) && models == old(models)
      ensures selectedModel == old(selectedModel) && pending == old(pending)
    {
      var prompt := PromptFor(prompts, locale);
      if |history| == 0 {
        history := history + [Turn(System, prompt)];
      } else {
        history := history[0 := history[0].(content := prompt)];
      }
    }

    /** The start of `loadModels`: the catalog is emptied while it loads. */
    method StartLoadingModels()
      requires Valid()
      modifies this
      ensures Valid()
      ensures models == ModelsState(Loading, [])
      ensures history == old(history) && locale == old(locale)
      ensures selectedModel == old(selectedModel) && pending == old(pending)
    {
      models := ModelsState(Loading, []);
    }

    /** `loadModels` after a successful fetch: the named items are kept, and the selection moves to
        the first of them unless it already names one. */
    method ModelsReceived(received: seq<ModelInfo>)
      requires Valid()
      modifies this
      ensures Valid()
      ensures models == ModelsState(Loaded, Named(received))
      ensures selectedModel == RenderedSelection(models, old(selectedModel))
      ensures history == old(history) && locale == old(locale) && pending == old(pending)
    {
      models := ModelsState(Loaded, Named(received));
      selectedModel := RenderedSelection(models, selectedModel);
    }

    /** `loadModels` after a failed fetch. */
    method ModelsFailed()
      requires Valid()
      modifies this
      ensures Valid()
      ensures models == ModelsState(LoadError, [])
      ensures history == old(history) && locale == old(locale)
      ensures selectedModel == old(selectedModel) && pending == old(pending)
    {
      models := ModelsState(LoadError, []);
    }

    /** The selector's change event: the user picks one of the listed models. */
    method ChooseModel(name: string)
      requires Valid() && models.status == Loaded && HasName(models.items, name)
      modifies this
      ensures Valid()
      ensures selectedModel == name
      ensures history == old(history) && locale == old(locale)
      ensures models == old(models) && pending == old(pending)
    {
      selectedModel := name;
    }

    /** `prepareImageUpload(file)`: an image replaces whatever was pending, with no warning. */
    method PrepareImageUpload(file: File?)
      requires Valid()
      modifies this`pending
      ensures Valid()
      ensures file == null ==> pending == old(pending)
      ensures file != null ==> pending == Some(Upload(file, ImageKind, "", None, false))
      ensures history == old(history) && locale == old(locale)
      ensures models == old(models) && selectedModel == old(selectedModel)
    {
      if file == null {
        return;
      }
      pending := Some(Upload(file, ImageKind, "", None, false));
    }

    /** `prepareTextUpload(file)`: a text file replaces whatever was pending and stays loading until
        its read completes. */
    method PrepareTextUpload(file: File?)
      requires Valid()
      modifies this`pending
      ensures Valid()
      ensures file == null ==> pending == old(pending)
      ensures file != null ==> pending == Some(Upload(file, TextKind, "", None, true))
      ensures history == old(history) && locale == old(locale)
      ensures models == old(models) && selectedModel == old(selectedModel)
    {
      if file == null {
        return;
      }
      pending := Some(Upload(file, TextKind, "", None, true));
    }

    /** The reader's `onload` for `file`; `result` is `None` when the reader produced no string. The
        budget is the one of the model selected when the read completes. */
    method TextReadLoaded(file: File, result: Option<string>)
      requires Valid()
      modifies this`pending
      ensures Valid()
      ensures pending == AfterTextLoad(old(pending), file, result.GetOr(""), Budget())
      ensures history == old(history) && locale == old(locale)
      ensures models == old(models) && selectedModel == old(selectedModel)
    {
      var text := result.GetOr("");
      var limit := CurrentBudget();
      CompleteTextRead(file, text, limit);
    }

    /** The identity check of `onload` and the in-place update of the upload it still holds. */
    method CompleteTextRead(file: File, text: string, limit: nat)
      modifies this`pending
      ensures pending == AfterTextLoad(old(pending), file, text, limit)
    {
      if pending.Some? && pending.value.file == file {
        var warning := TextWarning(text, limit);
        pending := Some(pending.value.(previewText := Preview(text), warning := warning, loading := false));
      }
    }

    /** The reader's `onerror` for `file`. */
    method TextReadFailed(file: File)
      requires Valid()
      modifies this`pending
      ensures Valid()
      ensures pending == AfterTextError(old(pending), file)
      ensures history == old(history) && locale == old(locale)
      ensures models == old(models) && selectedModel == old(selectedModel)
    {
      if pending.Some? && pending.value.file == file {
        pending := None;
      }
    }

    /** `preparePdfUpload(file)`: the file size stands in for its text length. */
    method PreparePdfUpload(file: File?)
      requires Valid()
      modifies this`pending
      ensures Valid()
      ensures file == null ==> pending == old(pending)
      ensures file != null ==> pending == Some(Upload(file, PdfKind, "", PdfWarning(file.size, Budget()), false))
      ensures history == old(history) && locale == old(locale)
      ensures models == old(models) && selectedModel == old(selectedModel)
    {
      if file == null {
        return;
      }
      var limit := CurrentBudget();
      var warning := if file.size > limit * 2 then Some(PdfTruncated)
                     else if file.size > 4 * 1024 * 1024 then Some(PdfTruncated) else None;
      pending := Some(Upload(file, PdfKind, "", warning, false));
    }

    /** The synchronous part of `send(input)`: nothing when blocked, otherwise the request. */
    method BeginSend(input: string) returns (req: Option<ChatRequest>)
      requires Valid()
      ensures req.None? <==> SendBlocked(pending, input)
      ensures req.Some? ==> (req.value.prompt == JsTrim(input) && req.value.history == history
        && req.value.model == SelectedModel() && req.value.lang == LangCodeFor(langCodes, locale))
      ensures req.Some? ==> ((req.value.uploadKind.Some? <==> pending.Some?)
        && (req.value.upload.Some? <==> pending.Some?)
        && (req.value.image.Some? <==> pending.Some? && pending.value.kind == ImageKind))
      ensures req.Some? && pending.Some? ==> (req.value.uploadKind == Some(pending.value.kind)
        && req.value.upload == Some(pending.value.file)
        && (pending.value.kind == ImageKind ==> req.value.image == Some(pending.value.file)))
    {
      if pending.Some? && pending.value.loading {
        return None;
      }
      var prompt := JsTrim(input);
      if prompt == "" && pending.None? {
        return None;
      }
      var kind: Option<Kind> := None;
      var image: Option<File> := None;
      var upload: Option<File> := None;
      if pending.Some? {
        kind := Some(pending.value.kind);
        if pending.value.kind == ImageKind {
          image := Some(pending.value.file);
        }
        upload := Some(pending.value.file);
      }
      req := Some(ChatRequest(prompt, history, SelectedModel(), LangCodeFor(langCodes, locale), kind, image, upload));
    }

    /** The part of `send` after the response: the history grows only on success, and the slot is
        emptied in every case, even if another file was chosen while the request was in flight. */
    method FinishSend(req: ChatRequest, outcome: Outcome) returns (view: BotView)
      requires Valid()
      modifies this
      ensures Valid()
      ensures view == BotViewFor(strings, locale, outcome)
      ensures history == HistoryAfter(old(history), req.prompt, outcome)
      ensures pending == None
      ensures locale == old(locale) && models == old(models) && selectedModel == old(selectedModel)
    {
      view := BotViewFor(strings, locale, outcome);
      ghost var before := history;
      if outcome.Answered? {
        var raw := outcome.reply.GetOr("");
        history := history + [Turn(User, req.prompt)];
        history := history + [Turn(Assistant, raw)];
        assert history == before + [Turn(User, req.prompt), Turn(Assistant, raw)];
      }
      assert history == HistoryAfter(before, req.prompt, outcome);
      pending := None;
    }
  }
}
