/** The size-token tables of the client and of the server are searched the same way: tokens are
    tried in declaration order and the first one that occurs in the (lower-cased) text decides. */
module TokenTable {
  import opened Wrappers
  import opened Text

  /** Ordered pairs of (size token, character budget). */
  type Table = seq<(string, nat)>

  /** The position of the first token, in table order, that occurs in `s`; `|table|` when none does. */
  function FirstMatchIndex(table: Table, s: string): (r: nat)
    ensures r <= |table|
    ensures r < |table| ==> Contains(s, table[r].0)
    ensures forall j :: 0 <= j < r ==> !Contains(s, table[j].0)
    decreases |table|
  {
    if table == [] then 0
    else if Contains(s, table[0].0) then 0
    else 1 + FirstMatchIndex(table[1..], s)
  }

  /** The budget of the first matching token, if any token matches. */
  function TokenLimit(table: Table, s: string): Option<nat> {
    var i := FirstMatchIndex(table, s);
    if i < |table| then Some(table[i].1) else None
  }

  /** First match wins: whenever token `i` occurs in `s` and no earlier token does, the lookup
      yields exactly the budget of token `i`, whatever later tokens also occur. */
  lemma TokenLimitFirstMatch(table: Table, s: string, i: nat)
    requires i < |table| && Contains(s, table[i].0)
    requires forall j :: 0 <= j < i ==> !Contains(s, table[j].0)
    ensures TokenLimit(table, s) == Some(table[i].1)
  {
  }

  /** No match exactly when no token of the table occurs in `s`. */
  lemma TokenLimitNone(table: Table, s: string)
    ensures TokenLimit(table, s).None? <==> forall j :: 0 <= j < |table| ==> !Contains(s, table[j].0)
  {
  }

  /** A hit is always one of the table's budgets. */
  lemma TokenLimitInTable(table: Table, s: string)
    requires TokenLimit(table, s).Some?
    ensures exists j :: 0 <= j < |table| && table[j].1 == TokenLimit(table, s).value
  {
    var m := FirstMatchIndex(table, s);
    assert table[m].1 == TokenLimit(table, s).value;
  }

  /** A token that does not occur passes the search on to the rest of the table. */
  lemma TokenLimitSkip(table: Table, s: string)
    requires table != [] && !Contains(s, table[0].0)
    ensures TokenLimit(table, s) == TokenLimit(table[1..], s)
  {
  }

  /** Every budget of the table lies between `lo` and `hi`. */
  predicate Within(table: Table, lo: nat, hi: nat) {
    forall j :: 0 <= j < |table| ==> lo <= table[j].1 <= hi
  }

  /** A hit from a table whose budgets lie between two bounds lies between them too. */
  lemma TokenLimitWithin(table: Table, s: string, lo: nat, hi: nat)
    requires Within(table, lo, hi)
    ensures TokenLimit(table, s).Some? ==> lo <= TokenLimit(table, s).value <= hi
  {
  }

  /** The `for (token in table) if (lower.includes(token)) return table[token]` loop shared by
      `estimateCharLimitLocal`, `charLimitForModel` and `estimate_char_limit`. */
  method Search(table: Table, s: string) returns (r: Option<nat>)
    ensures r == TokenLimit(table, s)
  {
    var i := 0;
    while i < |table|
      invariant 0 <= i <= |table|
      invariant forall j :: 0 <= j < i ==> !Contains(s, table[j].0)
    {
      if Contains(s, table[i].0) {
        TokenLimitFirstMatch(table, s, i);
        return Some(table[i].1);
      }
      i := i + 1;
    }
    r := None;
  }
}
