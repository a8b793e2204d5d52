/** The bridge server's document handling (server.py): the name-only character budget, the
    clamp applied to every imported document, the byte-order-mark removal of text files and the
    page-accumulation loop of PDF files. Decoding and page extraction are done before: a text file
    arrives as its decoded string, a PDF as the list of its pages' extracted texts. */
module ServerDocs {
  import opened Wrappers
  import opened Text
  import opened TokenTable

  /** `MODEL_CHAR_LIMITS`, in insertion order. */
  const ModelCharLimits: Table := [
    ("1b", 4000), ("2b", 6000), ("3b", 8000), ("4b", 10000), ("7b", 14000), ("8b", 16000),
    ("14b", 22000), ("32b", 30000), ("70b", 45000), ("110b", 60000), ("480b", 100000)
  ]

  const DefaultLimit: nat := 16000

  /** Every budget in the server's table lies between 4000 and 100000. */
  lemma ModelTableBounds(s: string)
    ensures TokenLimit(ModelCharLimits, s).Some? ==> 4000 <= TokenLimit(ModelCharLimits, s).value <= 100000
  {
    assert Within(ModelCharLimits, 4000, 100000);
    TokenLimitWithin(ModelCharLimits, s, 4000, 100000);
  }

  /** `estimate_char_limit(model_name)`: only the name is consulted, so the budget is always positive. */
  function ServerEstimate(name: string): (r: nat)
    ensures 4000 <= r <= 100000
  {
    ModelTableBounds(Lower(name));
    TokenLimit(ModelCharLimits, Lower(name)).GetOr(DefaultLimit)
  }

  /** A name with no size token at all gets the default budget. */
  lemma ServerEstimateDefault(name: string)
    requires forall j :: 0 <= j < |ModelCharLimits| ==> !Contains(Lower(name), ModelCharLimits[j].0)
    ensures ServerEstimate(name) == DefaultLimit
  {
    TokenLimitNone(ModelCharLimits, Lower(name));
  }

  /** `estimate_char_limit`, with its search loop. */
  method EstimateCharLimit(name: string) returns (r: nat)
    ensures r == ServerEstimate(name)
  {
    var hit := Search(ModelCharLimits, Lower(name));
    r := hit.GetOr(DefaultLimit);
  }

  /** `clamp_text(text, max_chars)`: the text and whether it was cut. A non-positive budget never
      cuts; otherwise the text is cut to exactly `max` characters when it is longer. */
  function ClampText(text: string, max: int): (r: (string, bool))
    ensures r.0 <= text
    ensures max > 0 ==> |r.0| <= max
    ensures r.1 <==> max > 0 && |text| > max
    ensures !r.1 ==> r.0 == text
    ensures r.1 ==> |r.0| == max
  {
    if max <= 0 then (text, false)
    else if |text| <= max then (text, false)
    else (text[..max], true)
  }

  /** Clamping a clamped text changes nothing and reports no cut. */
  lemma ClampIdempotent(text: string, max: int)
    ensures ClampText(ClampText(text, max).0, max) == (ClampText(text, max).0, false)
  {
  }

  /** The byte-order mark. */
  const Bom: char := '\U{FEFF}'

  /** `read_text_file` after decoding: every byte-order mark removed, then clamped. */
  function ReadTextFile(decoded: string, max: int): (r: (string, bool))
    ensures Bom !in r.0
    ensures r.0 <= RemoveAll(decoded, Bom)
  {
    var clean := RemoveAll(decoded, Bom);
    var r := ClampText(clean, max);
    assert forall k :: 0 <= k < |r.0| ==> r.0[k] == clean[k];
    r
  }

  /** A text without byte-order marks is only clamped. */
  lemma ReadTextWithoutBom(decoded: string, max: int)
    requires Bom !in decoded
    ensures ReadTextFile(decoded, max) == ClampText(decoded, max)
  {
    RemoveAllAbsent(decoded, Bom);
  }

  /** The non-empty page texts, in page order (`if txt: chunks.append(txt)`). */
  function NonEmpty(pages: seq<string>): (r: seq<string>)
    ensures |r| <= |pages|
    ensures forall k :: 0 <= k < |r| ==> r[k] != ""
  {
    if pages == [] then []
    else NonEmpty(pages[..|pages| - 1]) + (if pages[|pages| - 1] != "" then [pages[|pages| - 1]] else [])
  }

  /** Chunks never include an empty page, and a page is included exactly when it is non-empty. */
  lemma {:induction false} NonEmptyKeeps(pages: seq<string>, t: string)
    ensures t in NonEmpty(pages) <==> t in pages && t != ""
  {
    if pages != [] {
      NonEmptyKeeps(pages[..|pages| - 1], t);
      assert pages == pages[..|pages| - 1] + [pages[|pages| - 1]];
    }
  }

  /** `sum(len(c) for c in chunks)`. */
  function TotalLength(chunks: seq<string>): nat {
    if chunks == [] then 0 else |chunks[0]| + TotalLength(chunks[1..])
  }

  /** The total of a concatenation is the sum of the totals. */
  lemma {:induction false} TotalLengthAppend(a: seq<string>, b: seq<string>)
    ensures TotalLength(a + b) == TotalLength(a) + TotalLength(b)
  {
    if a != [] {
      assert (a + b)[1..] == a[1..] + b;
      TotalLengthAppend(a[1..], b);
    } else {
      assert a + b == b;
    }
  }

  /** Joining never loses a character of the parts. */
  lemma {:induction false} JoinAtLeast(parts: seq<string>, sep: string)
    ensures |Join(parts, sep)| >= TotalLength(parts)
  {
    if |parts| > 1 {
      JoinAtLeast(parts[1..], sep);
    } else if |parts| == 1 {
      assert TotalLength(parts[1..]) == 0;
    }
  }

  /** How many pages the loop reads when it has already read `n` of them: it stops right after the
      first page at which the chunks reach `max` characters (only when `max > 0`), or at the end. */
  function PagesRead(pages: seq<string>, max: int, n: nat): (r: nat)
    requires n <= |pages|
    ensures n <= r <= |pages|
    ensures forall m :: n < m < r ==> !(max > 0 && TotalLength(NonEmpty(pages[..m])) >= max)
    ensures r < |pages| ==> r > n && max > 0 && TotalLength(NonEmpty(pages[..r])) >= max
    decreases |pages| - n
  {
    if n == |pages| then n
    else if max > 0 && TotalLength(NonEmpty(pages[..n + 1])) >= max then n + 1
    else PagesRead(pages, max, n + 1)
  }

  /** The chunks `read_pdf_file` collects from `pages`. */
  function PdfChunks(pages: seq<string>, max: int): seq<string> {
    NonEmpty(pages[..PagesRead(pages, max, 0)])
  }

  /** `read_pdf_file` after extraction: the chunks joined by blank lines, then clamped. */
  function PdfText(pages: seq<string>, max: int): (r: (string, bool))
    ensures r.0 <= Join(PdfChunks(pages, max), "\n\n")
    ensures max > 0 ==> |r.0| <= max
    ensures r.1 <==> max > 0 && |Join(PdfChunks(pages, max), "\n\n")| > max
  {
    ClampText(Join(PdfChunks(pages, max), "\n\n"), max)
  }

  /** Without a positive budget every page is read. */
  lemma PdfReadsAllWithoutBudget(pages: seq<string>, max: int)
    requires max <= 0
    ensures PdfChunks(pages, max) == NonEmpty(pages)
  {
    assert pages[..|pages|] == pages;
  }

  /** When the loop stops before the last page, the document fills the budget exactly. */
  lemma PdfEarlyStopFillsBudget(pages: seq<string>, max: int)
    requires PagesRead(pages, max, 0) < |pages|
    ensures |PdfText(pages, max).0| == max
  {
    JoinAtLeast(PdfChunks(pages, max), "\n\n");
  }

  /** `read_pdf_file`'s page loop, with its running total and early `break`. */
  method ReadPdfFile(pages: seq<string>, max: int) returns (text: string, truncated: bool)
    ensures (text, truncated) == PdfText(pages, max)
  {
    var chunks: seq<string> := [];
    var total := 0;
    var i := 0;
    while i < |pages|
      invariant 0 <= i <= |pages|
      invariant chunks == NonEmpty(pages[..i])
      invariant total == TotalLength(chunks)
      invariant PagesRead(pages, max, 0) == PagesRead(pages, max, i)
    {
      var txt := pages[i];
      assert pages[..i + 1][..i] == pages[..i];
      if txt != "" {
        TotalLengthAppend(chunks, [txt]);
        chunks := chunks + [txt];
        total := total + |txt|;
      }
      i := i + 1;
      if max > 0 && total >= max {
        break;
      }
    }
    assert PagesRead(pages, max, 0) == i;
    var joined := Join(chunks, "\n\n");
    text, truncated := ClampText(joined, max).0, ClampText(joined, max).1;
  }
}
