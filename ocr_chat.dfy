/** The command-line chat (ollama_ocr_chat.py): the message list sent to the model, the
    `<path> | <question>` line syntax, and the read-eval loop's history and OCR-context rules. Reading
    lines, printing, the file system, the recogniser and the model are parameters. */
module OcrChat {
  import opened Wrappers
  import opened Text
  import opened Conversation
  import opened VisionOcr

  /** The header of the message that carries OCR text. */
  const ContextPrefix: string := "Context (OCR text from image):\n"

  /** The note put in front of a logged question that was asked with OCR context. */
  const ContextNote: string := "Context included. "

  /** The REPL's system prompt. */
  const SystemPrompt: string := "You are a helpful assistant. When the user provides OCR context, use it to answer the question. If the context seems unrelated to the question, explain assumptions."

  /** How many characters of OCR text are echoed. */
  const EchoLimit: nat := 600

  /** Python truthiness of an optional string. */
  predicate Truthy(s: Option<string>) {
    s.Some? && s.value != ""
  }

  /** `build_messages(history, ocr_text, user_prompt)`: a copy of the history, then the OCR context
      when there is any, then the question. */
  method BuildMessages(history: seq<Turn>, ocr: Option<string>, prompt: string) returns (msgs: seq<Turn>)
    ensures |msgs| == |history| + if Truthy(ocr) then 2 else 1
    ensures msgs[..|history|] == history
    ensures Truthy(ocr) ==> msgs[|history|] == Turn(User, ContextPrefix + ocr.value)
    ensures msgs[|msgs| - 1] == Turn(User, prompt)
  {
    msgs := history;
    if ocr.Some? && ocr.value != "" {
      msgs := msgs + [Turn(User, ContextPrefix + ocr.value)];
    }
    msgs := msgs + [Turn(User, prompt)];
  }

  /** `line.split("|", 1)`: the text before the first bar and the text after it. Put back together
      with the bar they give the line again. */
  lemma BarSplit(line: string)
    requires '|' in line
    ensures var left := BeforeFirst(line, '|');
      |left| < |line| && '|' !in left && left + "|" + line[|left| + 1..] == line
  {
    var left := BeforeFirst(line, '|');
    assert line == line[..|left|] + [line[|left|]] + line[|left| + 1..];
  }

  /** `parse_line_for_path_and_prompt(line)`: `resolve` stands for path expansion, `pathExists` for
      `os.path.exists`. */
  function ParseLine(line: string, resolve: string -> string, pathExists: string -> bool): (r: (Option<string>, Option<string>))
    ensures r.0.None? ==> r.1.Some?
  {
    if '|' in line then
      var left := BeforeFirst(line, '|');
      (Some(NormalizePath(left, resolve)), Some(PyStrip(line[|left| + 1..])))
    else
      var candidate := NormalizePath(line, resolve);
      if pathExists(candidate) then (Some(candidate), None) else (None, Some(PyStrip(line)))
  }

  /** The three outcomes of the parse: with a bar, the normalised left part and the stripped right
      part; without one, the normalised line when that path exists, and otherwise the stripped line
      as a question. */
  lemma ParseLineCases(line: string, resolve: string -> string, pathExists: string -> bool)
    ensures var r := ParseLine(line, resolve, pathExists);
      ('|' in line ==> (r.0 == Some(NormalizePath(BeforeFirst(line, '|'), resolve))
        && r.1 == Some(PyStrip(line[|BeforeFirst(line, '|')| + 1..]))))
      && ('|' !in line ==> (r.1.None? <==> pathExists(NormalizePath(line, resolve))))
      && ('|' !in line && r.1.None? ==> r.0 == Some(NormalizePath(line, resolve)))
      && (r.0.None? ==> r.1 == Some(PyStrip(line)))
  {
  }

  /** The echoed OCR text: its first 600 characters, with an ellipsis when some were left off. */
  function OcrEcho(text: Option<string>): (r: string)
    ensures |r| <= EchoLimit + 1
    ensures !Truthy(text) ==> r == ""
    ensures Truthy(text) && |text.value| <= EchoLimit ==> r == text.value
    ensures Truthy(text) && |text.value| > EchoLimit ==> r == text.value[..EchoLimit] + "…"
  {
    if Truthy(text) then
      text.value[..if |text.value| < EchoLimit then |text.value| else EchoLimit]
        + (if |text.value| > EchoLimit then "…" else "")
    else ""
  }

  /** The context message `build_messages` puts between the history and the question: one when the
      OCR text is truthy, none otherwise. */
  function ContextTurns(ocr: Option<string>): (r: seq<Turn>)
    ensures |r| == if Truthy(ocr) then 1 else 0
  {
    if Truthy(ocr) then [Turn(User, ContextPrefix + ocr.value)] else []
  }

  /** The question as it is logged in the history. */
  function LoggedPrompt(ocr: Option<string>, prompt: string): (r: string)
    ensures Truthy(ocr) ==> r == ContextNote + prompt
    ensures !Truthy(ocr) ==> r == prompt
  {
    (if Truthy(ocr) then ContextNote else "") + prompt
  }

  datatype Command = Blank | QuitCommand | ClearCommand | Input

  /** The words that end the loop. */
  predicate QuitWord(s: string) {
    s == "q" || s == "quit" || s == ":q"
  }

  /** The words that clear the context. */
  predicate ClearWord(s: string) {
    s == "clear" || s == "reset"
  }

  /** How the loop classifies a stripped line; the command words ignore case. */
  function CommandOf(line: string): (c: Command)
    ensures c == Blank <==> line == ""
    ensures c == QuitCommand <==> line != "" && QuitWord(Lower(line))
    ensures c == ClearCommand <==> line != "" && !QuitWord(Lower(line)) && ClearWord(Lower(line))
  {
    if line == "" then Blank
    else if QuitWord(Lower(line)) then QuitCommand
    else if ClearWord(Lower(line)) then ClearCommand
    else Input
  }

  /** The quit words are recognised in any case. */
  lemma QuitWords()
    ensures CommandOf("Q") == QuitCommand && CommandOf(":q") == QuitCommand
  {
    assert Lower("Q") == "q";
    LowerFixed(":q");
  }

  /** The clear words are recognised in any case, and only as the whole line. */
  lemma ClearWords()
    ensures CommandOf("RESET") == ClearCommand && CommandOf("quit it") == Input
  {
    assert Lower("RESET") == "reset";
    LowerFixed("quit it");
  }

  /** `history[:1]`. */
  function ClearedHistory(h: seq<Turn>): (r: seq<Turn>)
    ensures r <= h
    ensures |r| == if h == [] then 0 else 1
  {
    if h == [] then [] else h[..1]
  }

  /** What one pass of the loop did. */
  datatype Step =
    | Quit
    | Skipped
    | Cleared
    | OcrFailed(error: string)
    | AwaitingQuestion(echo: string)
    | LlmFailed(error: string)
    | Replied(messages: seq<Turn>, prompt: string, reply: string)

  /** The outside world of the loop: path resolution, `os.path.exists`, `is_image_file`, the
      recogniser (`ocr_image`) and the model (`call_ollama_chat`). */
  datatype World = World(
    resolve: string -> string, pathExists: string -> bool, isImage: string -> bool,
    ocr: (string, seq<string>, bool) -> Result<string, string>,
    llm: seq<Turn> -> Result<string, string>)

  /** The image a line names: the parsed path, when it is non-empty and an image file. */
  function ImageOf(line: string, world: World): Option<string> {
    var path := ParseLine(line, world.resolve, world.pathExists).0;
    if path.Some? && path.value != "" && world.isImage(path.value) then path else None
  }

  /** The state of `main`'s loop. */
  class Repl {
    const languages: seq<string>
    const fast: bool
    /** The system prompt the history starts with. */
    const systemPrompt: string
    const world: World

    var history: seq<Turn>
    var lastOcrText: Option<string>
    var lastOcrPath: Option<string>

    /** The history always starts with the system prompt, and the OCR context, when there is one, is
        what the recogniser read from the remembered image. */
    ghost predicate Valid()
      reads this`history, this`lastOcrText, this`lastOcrPath
    {
      && history != [] && history[0] == Turn(System, systemPrompt)
      && (lastOcrText.Some? <==> lastOcrPath.Some?)
      && (lastOcrPath.Some? ==>
            lastOcrPath.value != "" && world.isImage(lastOcrPath.value)
            && world.ocr(lastOcrPath.value, languages, fast) == Ok(lastOcrText.value))
    }

    /** The loop's start: `--lang` parsed, a history holding only the system prompt, and no OCR context. */
    constructor (lang: string, fast: bool, world: World)
      ensures Valid()
      ensures languages == CommaList(lang) && this.fast == fast && systemPrompt == SystemPrompt && this.world == world
      ensures history == [Turn(System, SystemPrompt)] && lastOcrText == None && lastOcrPath == None
    {
      languages := CommaList(lang);
      this.fast := fast;
      systemPrompt := SystemPrompt;
      this.world := world;
      history := [Turn(System, SystemPrompt)];
      lastOcrText := None;
      lastOcrPath := None;
    }

    /** What a pass on a non-command `line` did, given the history and the OCR context before it:
        an image the line names is read, and its text replaces the context unless the recogniser
        fails; a path without a question asks for one; otherwise the question (the text after the
        bar, or the line) goes to the model with the context, and on a reply the history grows by
        the logged question and the reply, which it does exactly when the model answers. */
    ghost predicate Passed(line: string, step: Step, h0: seq<Turn>, text0: Option<string>, path0: Option<string>)
      reads this`history, this`lastOcrText, this`lastOcrPath
    {
      var parsed := ParseLine(line, world.resolve, world.pathExists);
      var image := ImageOf(line, world);
      && (step.OcrFailed? || step.AwaitingQuestion? || step.LlmFailed? || step.Replied?)
      && (image.None? || step.OcrFailed? ==> lastOcrText == text0 && lastOcrPath == path0)
      && (image.None? ==> !step.OcrFailed?)
      && (image.Some? ==> (step.OcrFailed? <==> world.ocr(image.value, languages, fast).Err?))
      && (image.Some? && step.OcrFailed? ==> step.error == world.ocr(image.value, languages, fast).error)
      && (image.Some? && !step.OcrFailed? ==> lastOcrPath == image)
      && (step.AwaitingQuestion? <==> image.Some? && world.ocr(image.value, languages, fast).Ok? && parsed.1.None?)
      && (step.AwaitingQuestion? ==> step.echo == OcrEcho(lastOcrText))
      && (step.Replied? ==>
            step.prompt == parsed.1.GetOr(line)
            && history == h0 + [Turn(User, LoggedPrompt(lastOcrText, step.prompt)), Turn(Assistant, step.reply)]
            && step.messages == h0 + ContextTurns(lastOcrText) + [Turn(User, step.prompt)]
            && world.llm(step.messages) == Ok(step.reply))
      && (!step.OcrFailed? && !step.AwaitingQuestion? ==>
            var asked := world.llm(h0 + ContextTurns(lastOcrText) + [Turn(User, parsed.1.GetOr(line))]);
            (step.Replied? <==> asked.Ok?) && (step.LlmFailed? ==> step.error == asked.error))
      && (!step.Replied? ==> history == h0)
    }

    /** One pass of the loop on the raw input line. */
    method HandleLine(raw: string) returns (step: Step)
      requires Valid()
      modifies this`history, this`lastOcrText, this`lastOcrPath
      ensures Valid()
      ensures CommandOf(PyStrip(raw)) == Blank || CommandOf(PyStrip(raw)) == QuitCommand ==>
        (step == if CommandOf(PyStrip(raw)) == Blank then Skipped else Quit)
        && history == old(history) && lastOcrText == old(lastOcrText) && lastOcrPath == old(lastOcrPath)
      ensures CommandOf(PyStrip(raw)) == ClearCommand ==>
        step == Cleared && history == ClearedHistory(old(history)) && lastOcrText == None && lastOcrPath == None
      ensures CommandOf(PyStrip(raw)) == Input ==>
        Passed(PyStrip(raw), step, old(history), old(lastOcrText), old(lastOcrPath))
    {
      var line := PyStrip(raw);
      var command := CommandOf(line);
      if command == Input {
        step := HandleInput(line);
      } else {
        step := HandleCommand(command);
      }
    }

    /** A command line: a blank line is skipped, a quit word ends the loop, and a clear word keeps
        `history[:1]` and forgets the OCR context. */
    method HandleCommand(command: Command) returns (step: Step)
      requires Valid() && command != Input
      modifies this`history, this`lastOcrText, this`lastOcrPath
      ensures Valid()
      ensures command == Blank || command == QuitCommand ==>
        (step == if command == Blank then Skipped else Quit)
        && history == old(history) && lastOcrText == old(lastOcrText) && lastOcrPath == old(lastOcrPath)
      ensures command == ClearCommand ==>
        step == Cleared && history == ClearedHistory(old(history)) && lastOcrText == None && lastOcrPath == None
      ensures !step.Replied?
    {
      if command == Blank {
        return Skipped;
      }
      if command == QuitCommand {
        return Quit;
      }
      history := ClearedHistory(history);
      lastOcrText := None;
      lastOcrPath := None;
      step := Cleared;
    }

    /** A pass on a line that is not a command: an image path is read first, then the question, if
        there is one, goes to the model. */
    method HandleInput(line: string) returns (step: Step)
      requires Valid()
      modifies this`history, this`lastOcrText, this`lastOcrPath
      ensures Valid()
      ensures Passed(line, step, old(history), old(lastOcrText), old(lastOcrPath))
    {
      var maybePrompt := ParseLine(line, world.resolve, world.pathExists).1;
      var image := ImageOf(line, world);
      if image.Some? {
        step := ReadAndAsk(line, image.value, maybePrompt);
      } else {
        step := Ask(maybePrompt.GetOr(line));
      }
    }

    /** The pass on a line naming an image: the OCR step, then the question when the line has one. */
    method ReadAndAsk(ghost line: string, path: string, maybePrompt: Option<string>) returns (step: Step)
      requires Valid() && path != "" && world.isImage(path)
      requires ImageOf(line, world) == Some(path) && maybePrompt == ParseLine(line, world.resolve, world.pathExists).1
      modifies this`history, this`lastOcrText, this`lastOcrPath
      ensures Valid()
      ensures Passed(line, step, old(history), old(lastOcrText), old(lastOcrPath))
    {
      var failure := ReadImage(path);
      if failure.Some? {
        return OcrFailed(failure.value);
      }
      if maybePrompt.None? {
        return AwaitingQuestion(OcrEcho(lastOcrText));
      }
      step := Ask(maybePrompt.value);
    }

    /** The OCR step: on success the text becomes the current context and the path is remembered;
        on failure the error is returned and nothing changes. */
    method ReadImage(path: string) returns (failure: Option<string>)
      requires Valid() && path != "" && world.isImage(path)
      modifies this`lastOcrText, this`lastOcrPath
      ensures Valid()
      ensures failure.None? <==> world.ocr(path, languages, fast).Ok?
      ensures failure.None? ==> lastOcrText == Some(world.ocr(path, languages, fast).value) && lastOcrPath == Some(path)
      ensures failure.Some? ==> (failure.value == world.ocr(path, languages, fast).error
        && lastOcrText == old(lastOcrText) && lastOcrPath == old(lastOcrPath))
    {
      var result := world.ocr(path, languages, fast);
      if result.Err? {
        return Some(result.error);
      }
      lastOcrText := Some(result.value);
      lastOcrPath := Some(path);
      failure := None;
    }

    /** The model call at the end of a pass: it replies exactly when the model answers; on success
        the question, marked when OCR context was present, and the reply are appended; on failure the
        model's error is reported and nothing changes. */
    method Ask(userPrompt: string) returns (step: Step)
      requires Valid()
      modifies this`history
      ensures Valid()
      ensures step.Replied? || step.LlmFailed?
      ensures step.Replied? ==> (step.prompt == userPrompt
        && history == old(history) + [Turn(User, LoggedPrompt(lastOcrText, userPrompt)), Turn(Assistant, step.reply)]
        && step.messages == old(history) + ContextTurns(lastOcrText) + [Turn(User, userPrompt)]
        && world.llm(step.messages) == Ok(step.reply))
      ensures step.LlmFailed? ==> history == old(history)
      ensures var asked := world.llm(old(history) + ContextTurns(lastOcrText) + [Turn(User, userPrompt)]);
        (step.Replied? <==> asked.Ok?) && (step.LlmFailed? ==> step.error == asked.error)
    {
      var msgs := BuildMessages(history, lastOcrText, userPrompt);
      assert msgs == history + ContextTurns(lastOcrText) + [Turn(User, userPrompt)];
      var reply := world.llm(msgs);
      if reply.Err? {
        return LlmFailed(reply.error);
      }
      history := history + [Turn(User, LoggedPrompt(lastOcrText, userPrompt)), Turn(Assistant, reply.value)];
      step := Replied(msgs, userPrompt, reply.value);
    }
  }

  /** Clearing keeps exactly the system prompt of a valid history. */
  lemma ClearKeepsSystemPrompt(h: seq<Turn>)
    requires h != [] && h[0] == Turn(System, SystemPrompt)
    ensures ClearedHistory(h) == [Turn(System, SystemPrompt)]
  {
  }

  /** A question asked with OCR context is logged with the note, one asked without is logged as typed. */
  lemma LoggedPromptNote(ocr: Option<string>, prompt: string)
    ensures LoggedPrompt(ocr, prompt) == prompt <==> !Truthy(ocr)
  {
    if Truthy(ocr) {
      assert |LoggedPrompt(ocr, prompt)| == |ContextNote| + |prompt|;
    }
  }
}
