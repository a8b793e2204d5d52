/** How the two ends of the bridge agree and disagree about document budgets: the browser's table and
    the server's table are the same, so for a model without catalog data both ends compute the same
    budget; but the browser trusts a catalog context length that the server never consults. */
module BudgetAgreement {
  import opened Wrappers
  import opened Text
  import opened TokenTable
  import opened ClientBudget
  import ClientSession
  import opened ServerDocs
  import opened ServerApi

  /** The name-only estimates of the two ends coincide. */
  lemma EstimatesAgree(name: string)
    ensures LocalEstimate(name) == ServerEstimate(name)
  {
    assert LocalCharLimits == ModelCharLimits;
  }

  /** A model the catalog does not describe gets the same budget in the browser as on the server. */
  lemma UncataloguedAgrees(items: seq<ModelInfo>, name: string)
    requires forall k :: 0 <= k < |items| ==> items[k].name != name
    ensures CharLimit(items, name) == ServerEstimate(name)
  {
    EstimatesAgree(name);
  }

  /** A catalog context length above 25000 tokens makes the browser expect more than any budget the
      server applies, so the server cuts a document the browser did not warn about. */
  lemma CatalogOutgrowsServer(items: seq<ModelInfo>, name: string, c: int)
    requires FindModelInfo(items, name).Some?
    requires FindModelInfo(items, name).value.contextLength == Some(c) && c > 25000
    ensures CharLimit(items, name) > ServerEstimate(name)
  {
    ContextLengthDecides(items, name, c);
  }

  /** The default model with a 32768-token catalog entry: 131072 characters in the browser, 10000 on
      the server. */
  lemma DefaultModelDiverges()
    ensures CharLimit([ModelInfo(DefaultModel, Some(32768), None)], DefaultModel) == 131072
    ensures ServerEstimate(DefaultModel) == 10000
  {
    var items := [ModelInfo(DefaultModel, Some(32768), None)];
    assert items[0].name == DefaultModel;
    ContextLengthDecides(items, DefaultModel, 32768);
    DefaultModelBudget();
    EstimatesAgree(DefaultModel);
  }

  /** A server catalog entry as the browser keeps it. */
  function ToInfo(e: ModelEntry): ModelInfo {
    ModelInfo(e.name, e.contextLength, e.parameterSize)
  }

  /** The server's catalog as the browser receives it. */
  function Infos(entries: seq<ModelEntry>): (r: seq<ModelInfo>)
    ensures |r| == |entries|
    ensures forall k :: 0 <= k < |r| ==> r[k] == ToInfo(entries[k])
  {
    seq(|entries|, k requires 0 <= k < |entries| => ToInfo(entries[k]))
  }

  /** The browser's filter drops nothing from a list whose items are all named. */
  lemma {:induction false} NamedKeepsNamed(items: seq<ModelInfo>)
    requires forall k :: 0 <= k < |items| ==> items[k].name != ""
    ensures ClientSession.Named(items) == items
  {
    if items != [] {
      NamedKeepsNamed(items[1..]);
      assert items == [items[0]] + items[1..];
    }
  }

  /** Every entry the server lists survives the browser's filter, in the server's order. */
  lemma CatalogSurvivesFilter(tags: seq<Tag>)
    ensures ClientSession.Named(Infos(Entries(tags))) == Infos(Entries(tags))
  {
    NamedKeepsNamed(Infos(Entries(tags)));
  }
}
