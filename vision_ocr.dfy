/** The OCR wrapper's own logic (apple_vision_ocr.py): language-list normalisation, the tesseract
    language argument, the order in which the two backends are tried, and path clean-up. The
    recognisers themselves and path resolution are parameters. */
module VisionOcr {
  import opened Wrappers
  import opened Text

  /** `DEFAULT_LANG`. */
  const DefaultLang: seq<string> := ["en-US"]

  /** The list-building loop shared by `_normalize_languages` and the tesseract token loop: each item
      is turned into a candidate by `f`; a candidate is appended unless it is empty or already there. */
  function Collect(items: seq<string>, f: string -> string): (r: seq<string>)
    ensures forall k :: 0 <= k < |r| ==> r[k] != ""
    decreases |items|
  {
    if items == [] then []
    else
      var c := Collect(items[..|items| - 1], f);
      var x := f(items[|items| - 1]);
      if x == "" || x in c then c else c + [x]
  }

  /** No value occurs twice. */
  predicate NoDup(s: seq<string>) {
    forall p, q :: 0 <= p < q < |s| ==> s[p] != s[q]
  }

  /** The collected list holds no duplicates. */
  lemma {:induction false} CollectNoDup(items: seq<string>, f: string -> string)
    ensures NoDup(Collect(items, f))
    decreases |items|
  {
    if items != [] {
      CollectNoDup(items[..|items| - 1], f);
    }
  }

  /** A value is collected exactly when it is non-empty and some item yields it. */
  lemma {:induction false} CollectMembers(items: seq<string>, f: string -> string, x: string)
    ensures x in Collect(items, f) <==> x != "" && exists k :: 0 <= k < |items| && f(items[k]) == x
    decreases |items|
  {
    if items != [] {
      var init := items[..|items| - 1];
      CollectMembers(init, f, x);
      if x != "" && (exists k :: 0 <= k < |items| && f(items[k]) == x) {
        var k :| 0 <= k < |items| && f(items[k]) == x;
        if k < |init| {
          assert f(init[k]) == x;
        }
      }
      if exists k :: 0 <= k < |init| && f(init[k]) == x {
        var k :| 0 <= k < |init| && f(init[k]) == x;
        assert f(items[k]) == x;
      }
    }
  }

  /** The list collected from a prefix of the items is a prefix of the whole list: values stand in
      the order in which they first occur. */
  lemma {:induction false} CollectPrefix(items: seq<string>, f: string -> string, m: nat)
    requires m <= |items|
    ensures Collect(items[..m], f) <= Collect(items, f)
    decreases |items| - m
  {
    if m < |items| {
      CollectPrefix(items, f, m + 1);
      assert items[..m + 1][..m] == items[..m];
    } else {
      assert items[..m] == items;
    }
  }

  /** `_normalize_languages(langs)`: stripped, blanks dropped, duplicates removed, and the default
      when nothing is left. An absent list is the empty list. */
  function NormalizedLanguages(langs: seq<string>): (r: seq<string>)
    ensures r != []
    ensures r == DefaultLang || r == Collect(langs, PyStrip)
  {
    if langs == [] then DefaultLang
    else
      var c := Collect(langs, PyStrip);
      if c == [] then DefaultLang else c
  }

  /** Normalised languages are stripped, non-empty and distinct. */
  lemma NormalizedLanguagesShape(langs: seq<string>)
    ensures var r := NormalizedLanguages(langs);
      NoDup(r) && forall k :: 0 <= k < |r| ==> r[k] != "" && PyStrip(r[k]) == r[k]
  {
    var r := NormalizedLanguages(langs);
    CollectNoDup(langs, PyStrip);
    forall k | 0 <= k < |r| ensures r[k] != "" && PyStrip(r[k]) == r[k] {
      if r != DefaultLang {
        CollectMembers(langs, PyStrip, r[k]);
        var j :| 0 <= j < |langs| && PyStrip(langs[j]) == r[k];
        TrimIdempotent(langs[j], IsPySpace);
      } else {
        assert r[k] == "en-US";
        TrimNoop(r[k], IsPySpace);
      }
    }
  }

  /** An all-blank list falls back to the default. */
  lemma BlankLanguagesDefault(langs: seq<string>)
    requires forall k :: 0 <= k < |langs| ==> PyStrip(langs[k]) == ""
    ensures NormalizedLanguages(langs) == DefaultLang
  {
    if Collect(langs, PyStrip) != [] {
      var x := Collect(langs, PyStrip)[0];
      CollectMembers(langs, PyStrip, x);
    }
  }

  /** `_normalize_languages`, with its loop. */
  method NormalizeLanguages(langs: seq<string>) returns (r: seq<string>)
    ensures r == NormalizedLanguages(langs)
  {
    if |langs| == 0 {
      return DefaultLang;
    }
    var normalized: seq<string> := [];
    var i := 0;
    while i < |langs|
      invariant 0 <= i <= |langs|
      invariant normalized == Collect(langs[..i], PyStrip)
    {
      var lang := PyStrip(langs[i]);
      assert langs[..i + 1][..i] == langs[..i];
      if lang != "" && lang !in normalized {
        normalized := normalized + [lang];
      }
      i := i + 1;
    }
    assert langs[..i] == langs;
    r := if normalized == [] then DefaultLang else normalized;
  }

  /** `raw.split("-")[0].split("_")[0]`: the language part of a tag such as `en-US` or `pt_BR`,
      the longest prefix without either separator. */
  function LangToken(raw: string): (r: string)
    ensures r <= raw && '-' !in r && '_' !in r
    ensures |r| < |raw| ==> raw[|r|] == '-' || raw[|r|] == '_'
  {
    var a := BeforeFirst(raw, '-');
    var b := BeforeFirst(a, '_');
    assert b <= raw by {
      assert forall k :: 0 <= k < |b| ==> b[k] == a[k] == raw[k];
    }
    assert |b| < |a| ==> raw[|b|] == a[|b|] == '_';
    b
  }

  /** `lang_arg`: the distinct tokens joined with "+", or nothing when there are none. */
  function TesseractLangArg(langs: seq<string>): (r: Option<string>)
    ensures r.None? <==> Collect(langs, LangToken) == []
  {
    var tokens := Collect(langs, LangToken);
    if tokens == [] then None else Some(Join(tokens, "+"))
  }

  /** Two tags of the same language give one token. */
  lemma SameLanguageOnce()
    ensures TesseractLangArg(["en-US", "en_GB"]) == Some("en")
  {
    var items := ["en-US", "en_GB"];
    EnglishTokens();
    assert items[..1] == ["en-US"];
    assert items[..1][..0] == [];
    assert Collect(items[..1], LangToken) == ["en"];
    assert Collect(items, LangToken) == ["en"];
  }

  /** Both English tags reduce to "en". */
  lemma EnglishTokens()
    ensures LangToken("en-US") == "en" && LangToken("en_GB") == "en"
  {
    assert IndexOf("en-US", '-') == 2 by {
      assert IndexOf("US", '-') == 2;
      assert IndexOf("-US", '-') == 0;
      assert IndexOf("n-US", '-') == 1;
    }
    assert "en-US"[..2] == "en";
    assert IndexOf("en", '_') == 2 by {
      assert IndexOf("n", '_') == 1;
    }
    assert IndexOf("en_GB", '-') == 5 by {
      assert IndexOf("_GB", '-') == 3;
      assert IndexOf("n_GB", '-') == 4;
    }
    assert "en_GB"[..5] == "en_GB";
    assert IndexOf("en_GB", '_') == 2 by {
      assert IndexOf("_GB", '_') == 0;
      assert IndexOf("n_GB", '_') == 1;
    }
    assert "en_GB"[..2] == "en";
  }

  /** The tesseract token loop of `_ocr_with_tesseract`. */
  method TesseractTokens(langs: seq<string>) returns (arg: Option<string>)
    ensures arg == TesseractLangArg(langs)
  {
    var tokens: seq<string> := [];
    var i := 0;
    while i < |langs|
      invariant 0 <= i <= |langs|
      invariant tokens == Collect(langs[..i], LangToken)
    {
      var token := LangToken(langs[i]);
      assert langs[..i + 1][..i] == langs[..i];
      if token != "" && token !in tokens {
        tokens := tokens + [token];
      }
      i := i + 1;
    }
    assert langs[..i] == langs;
    arg := if tokens == [] then None else Some(Join(tokens, "+"));
  }

  /** The errors `ocr_image` raises: a `RuntimeError` after Vision failed with tesseract missing, an
      `OCRError` when no backend exists, or whatever the tesseract call itself raised. */
  datatype OcrError = VisionFailed(reason: string) | NoBackend | TesseractFailed(reason: string)

  /** The message of each error. */
  function ErrorMessage(e: OcrError): string {
    match e
    case VisionFailed(reason) => "Vision OCR failed: " + reason
    case NoBackend => "OCR backend not available. Install PyObjC or pytesseract."
    case TesseractFailed(reason) => reason
  }

  /** `ocr_image(path, languages, fast)`. `vision` stands for `_ocr_with_vision` run on the image with
      the normalised languages and the speed flag; `tesseract` stands for `pytesseract.image_to_string`
      run on the image with the derived language argument, whose text `_ocr_with_tesseract` strips. */
  function OcrImage(languages: seq<string>, fast: bool, hasVision: bool, hasTesseract: bool,
                    vision: (seq<string>, bool) -> Result<string, string>,
                    tesseract: Option<string> -> Result<string, string>): (r: Result<string, OcrError>)
    ensures hasVision && vision(NormalizedLanguages(languages), fast).Ok? ==>
      r == Ok(vision(NormalizedLanguages(languages), fast).value)
    ensures (!hasVision || vision(NormalizedLanguages(languages), fast).Err?) && !hasTesseract ==>
      r.Err? && (r.error == if hasVision then VisionFailed(vision(NormalizedLanguages(languages), fast).error) else NoBackend)
    ensures (!hasVision || vision(NormalizedLanguages(languages), fast).Err?) && hasTesseract ==>
      var t := tesseract(TesseractLangArg(NormalizedLanguages(languages)));
      r == if t.Ok? then Ok(PyStrip(t.value)) else Err(TesseractFailed(t.error))
  {
    var langs := NormalizedLanguages(languages);
    var viaTesseract := match tesseract(TesseractLangArg(langs))
      case Ok(text) => Ok(PyStrip(text))
      case Err(e) => Err(TesseractFailed(e));
    if hasVision then
      match vision(langs, fast)
      case Ok(text) => Ok(text)
      case Err(e) => if hasTesseract then viaTesseract else Err(VisionFailed(e))
    else if hasTesseract then viaTesseract
    else Err(NoBackend)
  }

  /** Tesseract is the fallback both when Vision is missing and when it fails; its text comes back
      stripped. */
  lemma TesseractFallback(languages: seq<string>, fast: bool, hasVision: bool,
                          vision: (seq<string>, bool) -> Result<string, string>,
                          tesseract: Option<string> -> Result<string, string>)
    requires !hasVision || vision(NormalizedLanguages(languages), fast).Err?
    ensures var t := tesseract(TesseractLangArg(NormalizedLanguages(languages)));
      OcrImage(languages, fast, hasVision, true, vision, tesseract)
        == if t.Ok? then Ok(PyStrip(t.value)) else Err(TesseractFailed(t.error))
  {
  }

  /** `path.strip().strip('"\'')`: surrounding whitespace first, then surrounding quotes. */
  function CleanPath(path: string): string {
    Trim(PyStrip(path), IsQuote)
  }

  /** `_normalize_path(path)`: the empty string stays empty; anything else is cleaned and handed to
      `resolve`, which stands for user expansion and resolution. */
  function NormalizePath(path: string, resolve: string -> string): (r: string)
    ensures path == "" ==> r == ""
    ensures path != "" ==> r == resolve(CleanPath(path))
  {
    if path == "" then "" else resolve(CleanPath(path))
  }

  /** Quotes around a bare path are stripped, and the bare path is left as it is. */
  lemma CleanQuoted(p: string)
    requires p != [] && !IsPySpace(p[0]) && !IsPySpace(p[|p| - 1]) && !IsQuote(p[0]) && !IsQuote(p[|p| - 1])
    ensures CleanPath("\"" + p + "\"") == p && CleanPath(p) == p
  {
    var q := "\"" + p + "\"";
    assert q[0] == '"' && q[|q| - 1] == '"';
    TrimNoop(q, IsPySpace);
    TrimNoop(p, IsPySpace);
    TrimNoop(p, IsQuote);
    assert q == ['"'] + p + ['"'];
    TrimAround('"', p, IsQuote);
  }

  /** A path pasted in quotes normalises like the bare path. */
  lemma QuotedPath(p: string, resolve: string -> string)
    requires p != [] && !IsPySpace(p[0]) && !IsPySpace(p[|p| - 1]) && !IsQuote(p[0]) && !IsQuote(p[|p| - 1])
    ensures NormalizePath("\"" + p + "\"", resolve) == NormalizePath(p, resolve)
  {
    CleanQuoted(p);
  }
}
