/** The trade journal page: the list of trades it holds, the add handler that puts a
    new trade first, and the statistics shown above the list. */
module JournalPage {
  import opened Common
  import opened JournalForm

  /** A trade of the page's list: an id and the fields the form produced. */
  datatype PageTrade = PageTrade(id: nat, entry: JournalEntry)

  function PagePnl(t: PageTrade): real { t.entry.pnl }

  /** `handleAddTrade`: the new trade first, numbered one past the list's length, then
      the old list unchanged; then `setIsFormOpen(false)` closes the form. The result is
      the new list and the form's open flag. */
  function HandleAddTrade(trades: seq<PageTrade>, newTrade: JournalEntry): (r: (seq<PageTrade>, bool))
    ensures |r.0| == |trades| + 1
    ensures r.0[0] == PageTrade(|trades| + 1, newTrade)
    ensures r.0[1..] == trades
    ensures !r.1
  {
    ([PageTrade(|trades| + 1, newTrade)] + trades, false)
  }

  /** The ids of the list are distinct and run from 1 to its length (the page's initial
      sample list has ids 1 to 8). */
  predicate IdsInRange(trades: seq<PageTrade>)
  {
    (forall i :: 0 <= i < |trades| ==> 1 <= trades[i].id <= |trades|)
    && (forall i, j :: 0 <= i < j < |trades| ==> trades[i].id != trades[j].id)
  }

  /** Adding keeps the ids distinct and in range: the page never hands out an id twice. */
  lemma AddTradeKeepsIds(trades: seq<PageTrade>, newTrade: JournalEntry)
    requires IdsInRange(trades)
    ensures IdsInRange(HandleAddTrade(trades, newTrade).0)
  {
    var r := HandleAddTrade(trades, newTrade).0;
    forall i | 1 <= i < |r| ensures r[i] == trades[i - 1] {
    }
  }

  predicate IsWin(t: PageTrade) { t.entry.pnl > 0.0 }
  predicate IsLoss(t: PageTrade) { t.entry.pnl < 0.0 }

  function TotalTrades(trades: seq<PageTrade>): nat { |trades| }
  function WinningTrades(trades: seq<PageTrade>): nat { CountOf(trades, IsWin) }
  function LosingTrades(trades: seq<PageTrade>): nat { CountOf(trades, IsLoss) }
  function TotalPnl(trades: seq<PageTrade>): real { SumOf(trades, PagePnl) }

  /** `winRate`: the share of winning trades in percent, 0 for an empty list. */
  function WinRate(trades: seq<PageTrade>): (r: real)
    ensures 0.0 <= r <= 100.0
    ensures r == 0.0 <==> WinningTrades(trades) == 0
    ensures r == 100.0 <==> |trades| > 0 && WinningTrades(trades) == |trades|
  {
    var total := TotalTrades(trades);
    var wins := WinningTrades(trades);
    assert wins <= total;
    if total > 0 then
      PercentBounds(wins, total);
      (wins as real / total as real) * 100.0
    else 0.0
  }

  /** A share of `wins` out of `total` in percent lies in [0, 100], and hits either end
      exactly when none or all are counted. */
  lemma PercentBounds(wins: nat, total: nat)
    requires 0 < total && wins <= total
    ensures 0.0 <= (wins as real / total as real) * 100.0 <= 100.0
    ensures (wins as real / total as real) * 100.0 == 0.0 <==> wins == 0
    ensures (wins as real / total as real) * 100.0 == 100.0 <==> wins == total
  {
    var q := wins as real / total as real;
    assert q * total as real == wins as real;
    if wins == total {
      assert q == 1.0;
    } else {
      assert (1.0 - q) * total as real == (total - wins) as real;
    }
    if wins == 0 {
      assert q == 0.0;
    } else {
      assert q > 0.0;
    }
  }

  /** No trade is both a win and a loss, so the two counts add up to at most the total;
      the rest are the break-even trades. */
  lemma {:induction false} WinsAndLossesBounded(trades: seq<PageTrade>)
    ensures WinningTrades(trades) + LosingTrades(trades) + CountOf(trades, (t: PageTrade) => t.entry.pnl == 0.0)
            == TotalTrades(trades)
    ensures WinningTrades(trades) + LosingTrades(trades) <= TotalTrades(trades)
  {
    if |trades| > 0 {
      var init := trades[..|trades| - 1];
      WinsAndLossesBounded(init);
    }
  }

  /** Adding a trade adds one to the total, its P&L to the total P&L, and one to the
      winning or losing count as its P&L is positive or negative. */
  lemma AddTradeStats(trades: seq<PageTrade>, newTrade: JournalEntry)
    ensures var r := HandleAddTrade(trades, newTrade).0;
      && TotalTrades(r) == TotalTrades(trades) + 1
      && TotalPnl(r) == newTrade.pnl + TotalPnl(trades)
      && WinningTrades(r) == WinningTrades(trades) + (if newTrade.pnl > 0.0 then 1 else 0)
      && LosingTrades(r) == LosingTrades(trades) + (if newTrade.pnl < 0.0 then 1 else 0)
  {
    var head := [PageTrade(|trades| + 1, newTrade)];
    SumOfAppend(head, trades, PagePnl);
    assert head[..0] == [];
    FilterAppend(head, trades, IsWin);
    FilterAppend(head, trades, IsLoss);
  }
}
