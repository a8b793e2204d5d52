/** The bridge server's two endpoints (server.py): `/api/chat`, which parses the form, turns the
    uploaded file into document text according to its kind, and asks the model; and `/api/models`,
    which normalises the catalog of the local model server. HTTP, JSON, the recogniser, the model
    server and file decoding are parameters. */
module ServerApi {
  import opened Wrappers
  import opened Text
  import opened Conversation
  import opened ServerDocs
  import opened OcrChat

  /** The posted form fields. */
  type Form = map<string, string>

  /** `request.form.get(key, default)`. */
  function FormGet(form: Form, key: string, default: string): string {
    if key in form then form[key] else default
  }

  /** The values of `fast` that mean "on", compared after lower-casing. */
  predicate FastWord(s: string) {
    s == "1" || s == "true" || s == "yes" || s == "on"
  }

  /** The model used when the form names none. */
  const DefaultModel: string := "qwen3:4b"

  /** The fields `chat` reads, parsed. */
  datatype ChatForm = ChatForm(model: string, langs: seq<string>, fast: bool, prompt: string, uploadKind: string)

  /** `lang_list`: the non-blank, stripped pieces between the commas of the stripped `lang` field. */
  function LangList(form: Form): seq<string> {
    CommaList(PyStrip(FormGet(form, "lang", "")))
  }

  /** Every language the form names is non-empty, stripped and free of commas. */
  lemma LangListShape(form: Form)
    ensures var r := LangList(form);
      forall k :: 0 <= k < |r| ==> r[k] != "" && PyStrip(r[k]) == r[k] && ',' !in r[k]
  {
    CommaListShape(PyStrip(FormGet(form, "lang", "")));
  }

  /** The `fast` flag, read without regard to case. */
  predicate FastOn(form: Form) {
    FastWord(Lower(FormGet(form, "fast", "false")))
  }

  /** The form parsing at the top of `chat`. */
  function ParseForm(form: Form): (f: ChatForm)
    ensures f.langs == LangList(form) && (f.fast <==> FastOn(form))
  {
    ChatForm(FormGet(form, "model", DefaultModel), LangList(form), FastOn(form),
             PyStrip(FormGet(form, "prompt", "")), FormGet(form, "upload_kind", ""))
  }

  /** Without a `fast` field, recognition is accurate; the field is read without regard to case, so an
      upper-case "TRUE" switches it on and "off" leaves it off. */
  lemma FastFlag(form: Form)
    ensures "fast" !in form ==> !FastOn(form)
    ensures "fast" in form && form["fast"] == "TRUE" ==> FastOn(form)
    ensures "fast" in form && form["fast"] == "off" ==> !FastOn(form)
  {
    if "fast" !in form {
      LowerFixed("false");
    } else if form["fast"] == "TRUE" {
      assert Lower("TRUE") == "true";
    } else if form["fast"] == "off" {
      LowerFixed("off");
    }
  }

  /** An empty form asks the default model, about no languages, accurately, with no upload kind. */
  lemma EmptyForm()
    ensures ParseForm(map[]) == ChatForm(DefaultModel, [], false, "", "")
  {
    LowerFixed("false");
    assert PyStrip("") == "";
  }

  /** `json.loads(history)`: text that does not parse, a value that is not a list, or a list of turns. */
  datatype HistoryField = Unparseable | NotAList | TurnList(turns: seq<Turn>)

  /** Anything but a list becomes the empty history. */
  function HistoryOf(h: HistoryField): (r: seq<Turn>)
    ensures !h.TurnList? ==> r == []
    ensures h.TurnList? ==> r == h.turns
  {
    if h.TurnList? then h.turns else []
  }

  /** The three ways an uploaded file is read. */
  datatype Branch = TextBranch | PdfBranch | ImageBranch

  /** The extensions read as plain text. */
  const TextExtensions: set<string> := {".txt", ".md", ".csv"}

  /** The dispatch in `chat`: text first, on either the declared kind or the extension, then PDF,
      and an image otherwise. `ext` is the lower-cased suffix of the sanitised file name. */
  function BranchFor(uploadKind: string, ext: string): (b: Branch)
    ensures b == TextBranch <==> uploadKind == "text" || ext in TextExtensions
    ensures b == PdfBranch <==> !(uploadKind == "text" || ext in TextExtensions) && (uploadKind == "pdf" || ext == ".pdf")
  {
    if uploadKind == "text" || ext in TextExtensions then TextBranch
    else if uploadKind == "pdf" || ext == ".pdf" then PdfBranch
    else ImageBranch
  }

  /** The text test comes first: a file declared as PDF but named `.md` is read as text, and a file
      declared as text but named `.pdf` too. */
  lemma TextWinsOverPdf()
    ensures BranchFor("pdf", ".md") == TextBranch
    ensures BranchFor("text", ".pdf") == TextBranch
    ensures BranchFor("image", ".pdf") == PdfBranch
  {
  }

  /** What reading an uploaded PDF yields: the library is missing, it raised a `RuntimeError` or
      another error, or it produced the pages' texts. */
  datatype PdfSource = PdfLibraryMissing | PdfRuntimeError(message: string) | PdfFailed(message: string) | PdfPages(pages: seq<string>)

  /** The message of a missing PDF library. */
  const PdfMissingMessage: string := "PDF support requires PyPDF2 to be installed"

  /** An uploaded file: its name, the suffix of its sanitised name, the outcome of reading it as text
      (the decoded contents, or the error reading the stream raised; the codec chain ends with
      latin-1, which decodes every byte string), and the outcome of reading it as PDF. */
  datatype UploadedFile = UploadedFile(filename: string, suffix: string, text: Result<string, string>, pdf: PdfSource)

  /** `request.files.get("upload") or request.files.get("image")`: a file with an empty name is false. */
  function ChosenFile(upload: Option<UploadedFile>, image: Option<UploadedFile>): (r: Option<UploadedFile>)
    ensures upload.Some? && upload.value.filename != "" ==> r == upload
    ensures !(upload.Some? && upload.value.filename != "") ==> r == image
  {
    if upload.Some? && upload.value.filename != "" then upload else image
  }

  /** The reply of `chat`: success with the model's reply, the document text and the warning code,
      or an error status and message. */
  datatype ChatReply = Success(reply: string, ocrText: string, documentWarning: Option<string>) | Failure(status: nat, error: string)

  /** The document text extracted from the upload and its warning code. */
  datatype Document = Document(text: string, warning: Option<string>)

  /** The text branch: a read error is a client error; otherwise the text without byte-order marks,
      clamped to the budget and flagged when cut. */
  function TextDocument(text: Result<string, string>, cap: nat): (r: Result<Document, ChatReply>)
    ensures text.Err? ==> r == Err(Failure(400, "Text import error: " + text.error))
    ensures text.Ok? ==> r.Ok?
  {
    match text
    case Err(m) => Err(Failure(400, "Text import error: " + m))
    case Ok(decoded) =>
      var t := ReadTextFile(decoded, cap);
      Ok(Document(t.0, if t.1 then Some("text_truncated") else None))
  }

  /** A text document has no byte-order mark, stays within a positive budget, keeps the start of the
      file, and is flagged `text_truncated` exactly when the file was longer than the budget. */
  lemma TextDocumentBudget(text: string, cap: nat)
    ensures var doc := TextDocument(Ok(text), cap).value;
      Bom !in doc.text && doc.text <= RemoveAll(text, Bom) && (cap > 0 ==> |doc.text| <= cap)
      && (doc.warning.Some? <==> cap > 0 && |RemoveAll(text, Bom)| > cap)
      && (doc.warning.Some? ==> doc.warning.value == "text_truncated")
  {
  }

  /** The PDF branch: a `RuntimeError`, including a missing library, is a server error and any other
      failure a client error; otherwise the pages' text within the budget, flagged when cut. */
  function PdfDocument(pdf: PdfSource, cap: nat): (r: Result<Document, ChatReply>)
    ensures pdf.PdfLibraryMissing? ==> r == Err(Failure(500, PdfMissingMessage))
    ensures pdf.PdfRuntimeError? ==> r == Err(Failure(500, pdf.message))
    ensures pdf.PdfFailed? ==> r == Err(Failure(400, "PDF import error: " + pdf.message))
    ensures pdf.PdfPages? ==> r.Ok?
  {
    match pdf
    case PdfLibraryMissing => Err(Failure(500, PdfMissingMessage))
    case PdfRuntimeError(m) => Err(Failure(500, m))
    case PdfFailed(m) => Err(Failure(400, "PDF import error: " + m))
    case PdfPages(pages) =>
      var t := PdfText(pages, cap);
      Ok(Document(t.0, if t.1 then Some("pdf_truncated") else None))
  }

  /** A PDF document stays within a positive budget and is flagged `pdf_truncated` exactly when the
      joined chunks were longer than the budget. */
  lemma PdfDocumentBudget(pages: seq<string>, cap: nat)
    ensures var doc := PdfDocument(PdfPages(pages), cap).value;
      doc.text <= Join(PdfChunks(pages, cap), "\n\n") && (cap > 0 ==> |doc.text| <= cap)
      && (doc.warning.Some? <==> cap > 0 && |Join(PdfChunks(pages, cap), "\n\n")| > cap)
      && (doc.warning.Some? ==> doc.warning.value == "pdf_truncated")
  {
  }

  /** The image branch: the recognised text, never flagged, or the recogniser's error as a client error. */
  function ImageDocument(result: Result<string, string>): (r: Result<Document, ChatReply>)
    ensures result.Ok? ==> r == Ok(Document(result.value, None))
    ensures result.Err? ==> r == Err(Failure(400, "OCR error: " + result.error))
  {
    match result
    case Ok(t) => Ok(Document(t, None))
    case Err(m) => Err(Failure(400, "OCR error: " + m))
  }

  /** The document stage of `chat`: no file gives no document; otherwise the branch decides how the
      file is read, under the budget of the named model. */
  function DocumentStage(f: ChatForm, file: Option<UploadedFile>,
                         ocr: (string, seq<string>, bool) -> Result<string, string>): Result<Document, ChatReply>
  {
    if file.None? || file.value.filename == "" then Ok(Document("", None))
    else
      match BranchFor(f.uploadKind, Lower(file.value.suffix))
      case TextBranch => TextDocument(file.value.text, ServerEstimate(f.model))
      case PdfBranch => PdfDocument(file.value.pdf, ServerEstimate(f.model))
      case ImageBranch => ImageDocument(ocr(file.value.filename, f.langs, f.fast))
  }

  /** A text or PDF document never exceeds the model's budget, and it is flagged exactly when it
      was cut; an image's text is never flagged. */
  lemma DocumentWithinBudget(f: ChatForm, file: UploadedFile, ocr: (string, seq<string>, bool) -> Result<string, string>)
    requires file.filename != ""
    requires DocumentStage(f, Some(file), ocr).Ok?
    ensures var doc := DocumentStage(f, Some(file), ocr).value;
      var branch := BranchFor(f.uploadKind, Lower(file.suffix));
      (branch == TextBranch ==> (|doc.text| <= ServerEstimate(f.model) && Bom !in doc.text
        && (doc.warning.Some? <==> |RemoveAll(file.text.value, Bom)| > ServerEstimate(f.model))
        && (doc.warning.Some? ==> doc.warning.value == "text_truncated")))
      && (branch == PdfBranch ==> (|doc.text| <= ServerEstimate(f.model)
        && (doc.warning.Some? <==> |Join(PdfChunks(file.pdf.pages, ServerEstimate(f.model)), "\n\n")| > ServerEstimate(f.model))
        && (doc.warning.Some? ==> doc.warning.value == "pdf_truncated")))
      && (branch == ImageBranch ==> doc.warning.None?)
  {
    var cap := ServerEstimate(f.model);
    match BranchFor(f.uploadKind, Lower(file.suffix))
    case TextBranch => TextDocumentBudget(file.text.value, cap);
    case PdfBranch => PdfDocumentBudget(file.pdf.pages, cap);
    case ImageBranch =>
  }

  /** A request without a usable file goes to the model with no document. */
  lemma NoFileNoDocument(f: ChatForm, upload: Option<UploadedFile>, image: Option<UploadedFile>,
                         ocr: (string, seq<string>, bool) -> Result<string, string>)
    requires ChosenFile(upload, image).None? || ChosenFile(upload, image).value.filename == ""
    ensures DocumentStage(f, ChosenFile(upload, image), ocr) == Ok(Document("", None))
  {
  }

  /** Every failed read is reported with status 400, except a PDF library problem, which is 500. */
  lemma ReadFailureStatus(f: ChatForm, file: Option<UploadedFile>, ocr: (string, seq<string>, bool) -> Result<string, string>)
    requires DocumentStage(f, file, ocr).Err?
    ensures var e := DocumentStage(f, file, ocr).error;
      e.Failure? && (e.status == 400 || e.status == 500)
      && (e.status == 500 <==> (BranchFor(f.uploadKind, Lower(file.value.suffix)) == PdfBranch
                                && (file.value.pdf.PdfLibraryMissing? || file.value.pdf.PdfRuntimeError?)))
  {
  }

  /** The file-reading part of `chat()`, with the budget searched by `estimate_char_limit`, the
      page loop of `read_pdf_file` and the recogniser call. */
  method ReadDocument(f: ChatForm, file: Option<UploadedFile>, ocr: (string, seq<string>, bool) -> Result<string, string>)
    returns (r: Result<Document, ChatReply>)
    ensures r == DocumentStage(f, file, ocr)
  {
    if file.None? || file.value.filename == "" {
      return Ok(Document("", None));
    }
    var ext := Lower(file.value.suffix);
    var cap := EstimateCharLimit(f.model);
    var branch := BranchFor(f.uploadKind, ext);
    if branch == TextBranch {
      r := TextDocument(file.value.text, cap);
    } else if branch == PdfBranch {
      r := ReadPdfDocument(file.value.pdf, cap);
    } else {
      r := ImageDocument(ocr(file.value.filename, f.langs, f.fast));
    }
  }

  /** `read_pdf_file` and its error handling in `chat()`, with the page loop. */
  method ReadPdfDocument(pdf: PdfSource, cap: nat) returns (r: Result<Document, ChatReply>)
    ensures r == PdfDocument(pdf, cap)
  {
    match pdf {
      case PdfLibraryMissing =>
        r := Err(Failure(500, PdfMissingMessage));
      case PdfRuntimeError(m) =>
        r := Err(Failure(500, m));
      case PdfFailed(m) =>
        r := Err(Failure(400, "PDF import error: " + m));
      case PdfPages(pages) =>
        var text, truncated := ReadPdfFile(pages, cap);
        r := Ok(Document(text, if truncated then Some("pdf_truncated") else None));
    }
  }

  /** `chat()`. `ocr` stands for `ocr_image`, `llm` for `call_ollama_chat` with the named model.
      `sent` is the message list handed to the model, when the call was made. */
  method Chat(form: Form, history: HistoryField, upload: Option<UploadedFile>, image: Option<UploadedFile>,
              ocr: (string, seq<string>, bool) -> Result<string, string>,
              llm: (seq<Turn>, string) -> Result<string, string>) returns (r: ChatReply, sent: Option<seq<Turn>>)
    ensures var stage := DocumentStage(ParseForm(form), ChosenFile(upload, image), ocr);
      (stage.Err? ==> r == stage.error && sent.None?)
      && (stage.Ok? ==> sent.Some? && Sent(ParseForm(form), HistoryOf(history), stage.value, llm, r, sent.value))
  {
    r, sent := Answer(ParseForm(form), HistoryOf(history), ChosenFile(upload, image), ocr, llm);
  }

  /** `chat()` once the form, the history and the file have been read. */
  method Answer(f: ChatForm, turns: seq<Turn>, file: Option<UploadedFile>,
                ocr: (string, seq<string>, bool) -> Result<string, string>,
                llm: (seq<Turn>, string) -> Result<string, string>) returns (r: ChatReply, sent: Option<seq<Turn>>)
    ensures var stage := DocumentStage(f, file, ocr);
      (stage.Err? ==> r == stage.error && sent.None?)
      && (stage.Ok? ==> sent.Some? && Sent(f, turns, stage.value, llm, r, sent.value))
  {
    var stage := ReadDocument(f, file, ocr);
    if stage.Err? {
      return stage.error, None;
    }
    var msgs;
    r, msgs := Respond(f, turns, stage.value, llm);
    sent := Some(msgs);
  }

  /** The end of `chat()`: the messages built from the history, the document and the prompt, and
      the model's answer to them. */
  method Respond(f: ChatForm, turns: seq<Turn>, doc: Document, llm: (seq<Turn>, string) -> Result<string, string>)
    returns (r: ChatReply, msgs: seq<Turn>)
    ensures Sent(f, turns, doc, llm, r, msgs)
  {
    var context := if doc.text != "" then Some(doc.text) else None;
    assert Truthy(context) <==> doc.text != "";
    msgs := BuildMessages(turns, context, f.prompt);
    assert msgs == turns + ContextTurns(context) + [Turn(User, f.prompt)];
    var reply := llm(msgs, f.model);
    if reply.Err? {
      r := Failure(500, "LLM error: " + reply.error);
    } else {
      r := Success(reply.value, doc.text, doc.warning);
    }
  }

  /** What a request that reached the model sent and answered: the history, then the document as
      context when there is one, then the prompt; the reply carries the model's answer with the
      document and its warning, or the model's error as a server error. */
  ghost predicate Sent(f: ChatForm, turns: seq<Turn>, doc: Document,
                       llm: (seq<Turn>, string) -> Result<string, string>, r: ChatReply, msgs: seq<Turn>)
  {
    msgs == turns + ContextTurns(if doc.text != "" then Some(doc.text) else None) + [Turn(User, f.prompt)]
    && (match llm(msgs, f.model)
        case Ok(reply) => r == Success(reply, doc.text, doc.warning)
        case Err(e) => r == Failure(500, "LLM error: " + e))
  }

  /** A JSON field that is absent, `null`, or a string. */
  datatype Field = Absent | Null | Str(value: string)

  /** Python truthiness of such a field. */
  predicate TruthyField(f: Field) {
    f.Str? && f.value != ""
  }

  /** The `details` object of a tag; `None` when absent or empty. */
  datatype Details = Details(parameterSize: Option<string>, contextLength: Option<int>)

  /** One item of the model server's `/api/tags` list. */
  datatype Tag = Tag(name: Field, model: Field, details: Option<Details>)

  /** One normalised catalog entry; `model` is `None` for an explicit `null`. */
  datatype ModelEntry = ModelEntry(name: string, model: Option<string>, parameterSize: Option<string>, contextLength: Option<int>)

  /** `item.get("name") or item.get("model")`, when that is truthy. */
  function TagName(t: Tag): (r: Option<string>)
    ensures r.Some? ==> r.value != ""
    ensures r.None? <==> !TruthyField(t.name) && !TruthyField(t.model)
  {
    if TruthyField(t.name) then Some(t.name.value)
    else if TruthyField(t.model) then Some(t.model.value)
    else None
  }

  /** The entry of a named tag: `model` defaults to the name only when the field is absent. */
  function EntryOf(t: Tag, name: string): (e: ModelEntry)
    ensures e.name == name
    ensures e.model == match t.model case Absent => Some(name) case Null => None case Str(s) => Some(s)
    ensures t.details.None? ==> e.parameterSize.None? && e.contextLength.None?
  {
    var details := t.details.GetOr(Details(None, None));
    ModelEntry(name, match t.model case Absent => Some(name) case Null => None case Str(s) => Some(s),
               details.parameterSize, details.contextLength)
  }

  /** The catalog built from the items: unnamed items skipped, the others in their order. */
  function Entries(tags: seq<Tag>): (r: seq<ModelEntry>)
    ensures |r| <= |tags|
    ensures forall k :: 0 <= k < |r| ==> r[k].name != ""
  {
    if tags == [] then []
    else
      var last := tags[|tags| - 1];
      Entries(tags[..|tags| - 1]) + (if TagName(last).Some? then [EntryOf(last, TagName(last).value)] else [])
  }

  /** The catalog of a list of items is the catalog of its first part followed by that of the rest. */
  lemma {:induction false} EntriesAppend(a: seq<Tag>, b: seq<Tag>)
    ensures Entries(a + b) == Entries(a) + Entries(b)
    decreases |b|
  {
    if b == [] {
      assert a + b == a;
    } else {
      var init := b[..|b| - 1];
      assert (a + b)[..|a + b| - 1] == a + init;
      assert (a + b)[|a + b| - 1] == b[|b| - 1];
      EntriesAppend(a, init);
    }
  }

  /** An item appears in the catalog exactly when it has a name. */
  lemma EntriesOfOne(t: Tag)
    ensures Entries([t]) == if TagName(t).Some? then [EntryOf(t, TagName(t).value)] else []
  {
    assert [t][..0] == [];
  }

  /** The replies of `list_models`. */
  datatype ModelsReply = Models(models: seq<ModelEntry>) | ModelsFailure(status: nat, error: string)

  /** `list_models()`: `fetched` is the item list of the model server's reply, or the error raised by
      the request; an absent `models` key is an empty list. */
  method ListModels(requestsAvailable: bool, fetched: Result<seq<Tag>, string>) returns (r: ModelsReply)
    ensures !requestsAvailable ==> r == ModelsFailure(500, "requests library not available")
    ensures requestsAvailable && fetched.Err? ==> r == ModelsFailure(502, "Failed to load models: " + fetched.error)
    ensures requestsAvailable && fetched.Ok? ==> r == Models(Entries(fetched.value))
  {
    if !requestsAvailable {
      return ModelsFailure(500, "requests library not available");
    }
    if fetched.Err? {
      return ModelsFailure(502, "Failed to load models: " + fetched.error);
    }
    var items := fetched.value;
    var models: seq<ModelEntry> := [];
    var i := 0;
    while i < |items|
      invariant 0 <= i <= |items|
      invariant models == Entries(items[..i])
    {
      var item := items[i];
      assert items[..i + 1][..i] == items[..i];
      var tagName := TagName(item);
      if tagName.Some? {
        models := models + [EntryOf(item, tagName.value)];
      }
      i := i + 1;
    }
    assert items[..i] == items;
    r := Models(models);
  }
}
