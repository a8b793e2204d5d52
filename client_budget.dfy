/** The browser client's estimate of how many characters of document text the selected model
    accepts: catalog context length first, then the parameter-size label, then the model name,
    then a fixed default (main.js). */
module ClientBudget {
  import opened Wrappers
  import opened Text
  import opened TokenTable

  /** `LOCAL_CHAR_LIMITS`, in declaration order. */
  const LocalCharLimits: Table := [
    ("1b", 4000), ("2b", 6000), ("3b", 8000), ("4b", 10000), ("7b", 14000), ("8b", 16000),
    ("14b", 22000), ("32b", 30000), ("70b", 45000), ("110b", 60000), ("480b", 100000)
  ]

  const DefaultCharLimit: nat := 16000

  /** A catalog entry as the client keeps it. `contextLength` is `None` when the field is absent or
      does not convert to a finite number; `parameterSize` is `None` when the field is not a string. */
  datatype ModelInfo = ModelInfo(name: string, contextLength: Option<int>, parameterSize: Option<string>)

  /** Every budget in the table lies between 4000 and 100000. */
  lemma LocalTableBounds(s: string)
    ensures TokenLimit(LocalCharLimits, s).Some? ==> 4000 <= TokenLimit(LocalCharLimits, s).value <= 100000
  {
    assert Within(LocalCharLimits, 4000, 100000);
    TokenLimitWithin(LocalCharLimits, s, 4000, 100000);
  }

  /** `estimateCharLimitLocal`: the name-only estimate; never below the smallest table entry. */
  function LocalEstimate(name: string): (r: nat)
    ensures 4000 <= r <= 100000
  {
    LocalTableBounds(Lower(name));
    TokenLimit(LocalCharLimits, Lower(name)).GetOr(DefaultCharLimit)
  }

  /** Position of the first catalog item carrying `name`; `|items|` when there is none. */
  function FindIndex(items: seq<ModelInfo>, name: string): (r: nat)
    ensures r <= |items|
    ensures r < |items| ==> items[r].name == name
    ensures forall j :: 0 <= j < r ==> items[j].name != name
    decreases |items|
  {
    if items == [] || items[0].name == name then 0 else 1 + FindIndex(items[1..], name)
  }

  /** `findModelInfo`: the first item whose name is `name`; nothing for an empty name. */
  function FindModelInfo(items: seq<ModelInfo>, name: string): (r: Option<ModelInfo>)
    ensures r.Some? <==> name != "" && exists k :: 0 <= k < |items| && items[k].name == name
    ensures r.Some? ==> r.value.name == name && r.value == items[FindIndex(items, name)]
  {
    var i := FindIndex(items, name);
    if name != "" && i < |items| then Some(items[i]) else None
  }

  /** `charLimitForModel`, as a value. */
  function CharLimit(items: seq<ModelInfo>, name: string): (r: nat)
    ensures r > 0
  {
    match FindModelInfo(items, name)
    case Some(info) =>
      LocalTableBounds(Lower(info.parameterSize.GetOr("")));
      if info.contextLength.Some? && info.contextLength.value > 0 then info.contextLength.value * 4
      else if info.parameterSize.Some? && TokenLimit(LocalCharLimits, Lower(info.parameterSize.value)).Some? then
        TokenLimit(LocalCharLimits, Lower(info.parameterSize.value)).value
      else LocalEstimate(name)
    case None => LocalEstimate(name)
  }

  /** Step 1 of the chain: a positive context length decides, whatever the size label or name say. */
  lemma ContextLengthDecides(items: seq<ModelInfo>, name: string, c: int)
    requires FindModelInfo(items, name).Some?
    requires FindModelInfo(items, name).value.contextLength == Some(c) && c > 0
    ensures CharLimit(items, name) == 4 * c
  {
  }

  /** Step 2: without a positive context length, the first table token in the lower-cased size label decides. */
  lemma {:induction false} ParameterSizeDecides(items: seq<ModelInfo>, name: string, p: string, i: nat)
    requires FindModelInfo(items, name).Some?
    requires var info := FindModelInfo(items, name).value;
      !(info.contextLength.Some? && info.contextLength.value > 0) && info.parameterSize == Some(p)
    requires i < |LocalCharLimits| && Contains(Lower(p), LocalCharLimits[i].0)
    requires forall j :: 0 <= j < i ==> !Contains(Lower(p), LocalCharLimits[j].0)
    ensures CharLimit(items, name) == LocalCharLimits[i].1
  {
    TokenLimitFirstMatch(LocalCharLimits, Lower(p), i);
  }

  /** Steps 3 and 4: with no usable catalog data the name's first token decides, or 16000 when no
      token occurs in the name. */
  lemma {:induction false} NameDecides(items: seq<ModelInfo>, name: string)
    requires FindModelInfo(items, name).Some? ==>
      var info := FindModelInfo(items, name).value;
      !(info.contextLength.Some? && info.contextLength.value > 0)
      && (info.parameterSize.None? || TokenLimit(LocalCharLimits, Lower(info.parameterSize.value)).None?)
    ensures CharLimit(items, name) == LocalEstimate(name)
    ensures (forall j :: 0 <= j < |LocalCharLimits| ==> !Contains(Lower(name), LocalCharLimits[j].0))
      ==> CharLimit(items, name) == DefaultCharLimit
  {
    TokenLimitNone(LocalCharLimits, Lower(name));
  }

  /** The ordering quirk: a size label "14B" contains "4b", which precedes "14b" in the table, so the
      budget is 10000 and not 22000. */
  lemma FourteenBillionReadsAsFour()
    ensures CharLimit([ModelInfo("qwen2.5:14b", None, Some("14B"))], "qwen2.5:14b") == 10000
  {
    var p := Lower("14B");
    assert p == "14b";
    NotContainsPair(p, "1b");
    NotContainsPair(p, "2b");
    NotContainsPair(p, "3b");
    ContainsAt(p, "4b", 1);
    ParameterSizeDecides([ModelInfo("qwen2.5:14b", None, Some("14B"))], "qwen2.5:14b", "14B", 3);
  }

  /** "qwen3:4b" holds none of "1b", "2b", "3b" and does hold "4b". */
  lemma DefaultModelSmallTokens()
    ensures !Contains("qwen3:4b", "1b") && !Contains("qwen3:4b", "2b")
  {
    NotContainsHead("qwen3:4b", "1b");
    NotContainsHead("qwen3:4b", "2b");
  }

  lemma DefaultModelThreeAndFour()
    ensures !Contains("qwen3:4b", "3b") && Contains("qwen3:4b", "4b")
  {
    NotContainsPair("qwen3:4b", "3b");
    ContainsAt("qwen3:4b", "4b", 6);
  }

  /** So its first matching token is "4b". */
  lemma DefaultModelToken()
    ensures TokenLimit(LocalCharLimits, "qwen3:4b") == Some(10000)
  {
    var n := "qwen3:4b";
    DefaultModelSmallTokens();
    DefaultModelThreeAndFour();
    var t1 := LocalCharLimits[1..];
    var t2 := t1[1..];
    var t3 := t2[1..];
    assert LocalCharLimits[0].0 == "1b" && t1[0].0 == "2b" && t2[0].0 == "3b" && t3[0] == ("4b", 10000);
    TokenLimitSkip(LocalCharLimits, n);
    TokenLimitSkip(t1, n);
    TokenLimitSkip(t2, n);
    TokenLimitFirstMatch(t3, n, 0);
  }

  /** The default selection "qwen3:4b" with no catalog data gets the "4b" budget. */
  lemma DefaultModelBudget()
    ensures LocalEstimate("qwen3:4b") == 10000
    ensures CharLimit([], "qwen3:4b") == 10000
  {
    DefaultModelEstimate();
    assert FindModelInfo([], "qwen3:4b") == None;
  }

  /** Its name-only estimate. */
  lemma DefaultModelEstimate()
    ensures LocalEstimate("qwen3:4b") == 10000
  {
    LowerFixed("qwen3:4b");
    DefaultModelToken();
  }

  /** `estimateCharLimitLocal`, with its search loop. */
  method EstimateCharLimitLocal(name: string) returns (r: nat)
    ensures r == LocalEstimate(name)
  {
    var hit := Search(LocalCharLimits, Lower(name));
    r := hit.GetOr(DefaultCharLimit);
  }

  /** `charLimitForModel`, with its early returns. */
  method CharLimitForModel(items: seq<ModelInfo>, name: string) returns (r: nat)
    ensures r == CharLimit(items, name)
  {
    var info := FindModelInfo(items, name);
    if info.Some? {
      var ctx := info.value.contextLength;
      if ctx.Some? && ctx.value > 0 {
        return ctx.value * 4;
      }
      if info.value.parameterSize.Some? {
        var hit := Search(LocalCharLimits, Lower(info.value.parameterSize.value));
        if hit.Some? {
          return hit.value;
        }
      }
    }
    r := EstimateCharLimitLocal(name);
  }
}
