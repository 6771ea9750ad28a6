/** The filter dialog of the trade table: its fields, the trade-type checkboxes, the
    symbol list it offers and the filters it applies or resets. */
module FilterDialog {
  import opened Common
  import Trades

  /** The filters the table applies; an absent field does not filter. */
  datatype FilterOptions = FilterOptions(
    symbol: Option<string>,
    types: Option<seq<string>>,
    pnlMin: Option<real>,
    pnlMax: Option<real>,
    dateFrom: Option<string>,
    dateTo: Option<string>)

  /** The dialog's fields. An empty P&L bound field is `None`. */
  datatype DialogState = DialogState(
    symbol: string,
    types: seq<string>,
    pnlMin: Option<real>,
    pnlMax: Option<real>,
    dateFrom: string,
    dateTo: string)

  const BothTypes: seq<string> := ["buy", "sell"]

  /** `x || ""` for an optional text. */
  function OrEmpty(x: Option<string>): string
  {
    if TruthyText(x) then x.value else ""
  }

  /** `x || undefined` for a text field. */
  function EmptyToNone(x: string): (r: Option<string>)
    ensures r.None? <==> x == ""
    ensures r.Some? ==> r.value == x
  {
    if x == "" then None else Some(x)
  }

  /** The fields the dialog opens with: the current filters, an empty field where a
      filter is absent, and both types only when the current filters have no type
      list at all (an empty list is kept). */
  function InitialState(current: FilterOptions): (r: DialogState)
    ensures current.types.Some? ==> r.types == current.types.value
    ensures current.types.None? ==> r.types == BothTypes
    ensures r.symbol == "" <==> !TruthyText(current.symbol)
    ensures TruthyText(current.symbol) ==> r.symbol == current.symbol.value
    ensures r.dateFrom == "" <==> !TruthyText(current.dateFrom)
    ensures TruthyText(current.dateFrom) ==> r.dateFrom == current.dateFrom.value
    ensures r.dateTo == "" <==> !TruthyText(current.dateTo)
    ensures TruthyText(current.dateTo) ==> r.dateTo == current.dateTo.value
    ensures r.pnlMin == current.pnlMin && r.pnlMax == current.pnlMax
  {
    DialogState(OrEmpty(current.symbol),
                if current.types.Some? then current.types.value else BothTypes,
                current.pnlMin, current.pnlMax, OrEmpty(current.dateFrom), OrEmpty(current.dateTo))
  }

  /** `handleApplyFilter`: the filters of the fields, empty texts as absent, then
      `onOpenChange(false)`; the result is the applied filters and the dialog's open
      flag. */
  function HandleApplyFilter(s: DialogState): (r: (FilterOptions, bool))
    ensures r.0.types == Some(s.types)
    ensures r.0.symbol.None? <==> s.symbol == ""
    ensures s.symbol != "" ==> r.0.symbol == Some(s.symbol)
    ensures r.0.dateFrom.None? <==> s.dateFrom == ""
    ensures s.dateFrom != "" ==> r.0.dateFrom == Some(s.dateFrom)
    ensures r.0.dateTo.None? <==> s.dateTo == ""
    ensures s.dateTo != "" ==> r.0.dateTo == Some(s.dateTo)
    ensures r.0.pnlMin == s.pnlMin && r.0.pnlMax == s.pnlMax
    ensures !r.1
  {
    (FilterOptions(EmptyToNone(s.symbol), Some(s.types), s.pnlMin, s.pnlMax, EmptyToNone(s.dateFrom), EmptyToNone(s.dateTo)),
     false)
  }

  /** Opening the dialog on filters without empty texts and applying it untouched
      applies the same filters; without a type list it applies both types. */
  lemma ApplyInitialRoundTrip(current: FilterOptions)
    requires current.symbol != Some("") && current.dateFrom != Some("") && current.dateTo != Some("")
    ensures current.types.Some? ==> HandleApplyFilter(InitialState(current)).0 == current
    ensures current.types.None? ==> HandleApplyFilter(InitialState(current)).0 == current.(types := Some(BothTypes))
  {
  }

  /** `handleResetFilter`: every field cleared, both types checked, only the type
      filter applied, and the dialog closed; the result is the new fields, the applied
      filters and the dialog's open flag. */
  function HandleResetFilter(s: DialogState): (r: (DialogState, FilterOptions, bool))
    ensures r.0 == InitialState(FilterOptions(None, None, None, None, None, None))
    ensures r.1 == FilterOptions(None, Some(BothTypes), None, None, None, None)
    ensures (r.1, r.2) == HandleApplyFilter(r.0)
    ensures !r.2
  {
    (DialogState("", BothTypes, None, None, "", ""), FilterOptions(None, Some(BothTypes), None, None, None, None), false)
  }

  /** `handleTypeChange`: unchecks a checked type (dropping every copy of it) and
      appends an unchecked one. */
  function HandleTypeChange(types: seq<string>, t: string): (r: seq<string>)
    ensures t in r <==> t !in types
    ensures forall other :: other != t ==> (other in r <==> other in types)
    ensures t !in types ==> r == types + [t]
  {
    if t in types then Filter(types, (x: string) => x != t) else types + [t]
  }

  /** Clicking the same checkbox twice restores which types are checked; on a list
      without repeats where the type was unchecked, it restores the list itself. */
  lemma TypeChangeTwice(types: seq<string>, t: string)
    ensures forall x :: x in HandleTypeChange(HandleTypeChange(types, t), t) <==> x in types
    ensures t !in types ==> HandleTypeChange(HandleTypeChange(types, t), t) == types
  {
    if t !in types {
      RemoveAppended(types, t);
    }
  }

  lemma {:induction false} RemoveAppended(s: seq<string>, t: string)
    requires t !in s
    ensures Filter(s + [t], (x: string) => x != t) == s
  {
    var p := (x: string) => x != t;
    FilterAppend(s, [t], p);
    assert [t][..0] == [];
    FilterKeepsAll(s, p);
  }

  /** The position of the first occurrence of `x` in `s`. */
  function FirstIndex(s: seq<string>, x: string): (r: nat)
    requires x in s
    ensures r < |s| && s[r] == x
    ensures forall k :: 0 <= k < r ==> s[k] != x
  {
    if s[0] == x then 0 else 1 + FirstIndex(s[1..], x)
  }

  /** `Array.from(new Set(s))`: each element once, at its first occurrence. */
  function Dedupe(s: seq<string>): (r: seq<string>)
    ensures forall x :: x in r <==> x in s
    ensures NoDups(r)
    ensures |r| <= |s|
  {
    if |s| == 0 then []
    else
      var init := Dedupe(s[..|s| - 1]);
      var last := s[|s| - 1];
      if last in s[..|s| - 1] then init else init + [last]
  }

  /** The distinct elements appear in the order of their first occurrences. */
  lemma {:induction false} DedupeKeepsFirstOrder(s: seq<string>)
    ensures forall i, j :: 0 <= i < j < |Dedupe(s)| ==> FirstIndex(s, Dedupe(s)[i]) < FirstIndex(s, Dedupe(s)[j])
  {
    if |s| > 0 {
      var init := s[..|s| - 1];
      var last := s[|s| - 1];
      DedupeKeepsFirstOrder(init);
      var r := Dedupe(s);
      var ri := Dedupe(init);
      forall x | x in init ensures FirstIndex(s, x) == FirstIndex(init, x) {
        FirstIndexUnique(s, x, FirstIndex(init, x));
      }
      if last !in init {
        FirstIndexUnique(s, last, |s| - 1);
      }
      forall i, j | 0 <= i < j < |r| ensures FirstIndex(s, r[i]) < FirstIndex(s, r[j]) {
        assert r == if last in init then ri else ri + [last];
        assert r[i] == ri[i] && ri[i] in init;
        assert FirstIndex(s, ri[i]) == FirstIndex(init, ri[i]) < |init|;
        if j < |ri| {
          assert r[j] == ri[j] && ri[j] in init;
          assert FirstIndex(s, ri[j]) == FirstIndex(init, ri[j]);
          assert FirstIndex(init, ri[i]) < FirstIndex(init, ri[j]);
        } else {
          assert r[j] == last && last !in init;
          assert FirstIndex(s, last) == |s| - 1;
        }
      }
    }
  }

  lemma FirstIndexUnique(s: seq<string>, x: string, k: nat)
    requires k < |s| && s[k] == x && forall j :: 0 <= j < k ==> s[j] != x
    ensures FirstIndex(s, x) == k
  {
  }

  function Symbols(trades: seq<Trades.Trade>): (r: seq<string>)
    ensures |r| == |trades| && forall i :: 0 <= i < |trades| ==> r[i] == trades[i].symbol
  {
    seq(|trades|, i requires 0 <= i < |trades| => trades[i].symbol)
  }

  /** `uniqueSymbols`: the symbols of the trades, each once, first seen first. */
  function UniqueSymbols(trades: seq<Trades.Trade>): (r: seq<string>)
    ensures NoDups(r)
    ensures forall x :: x in r <==> exists t :: t in trades && t.symbol == x
  {
    var s := Symbols(trades);
    var r := Dedupe(s);
    assert forall x :: x in s <==> exists t :: t in trades && t.symbol == x by {
      forall x | x in s ensures exists t :: t in trades && t.symbol == x {
        var i :| 0 <= i < |s| && s[i] == x;
        assert trades[i] in trades;
      }
      forall x | exists t :: t in trades && t.symbol == x ensures x in s {
        var t :| t in trades && t.symbol == x;
        var i :| 0 <= i < |trades| && trades[i] == t;
        assert s[i] == x;
      }
    }
    r
  }
}
