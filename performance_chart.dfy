/** The dashboard's performance chart: daily P&L points turned into a running total. */
module PerformanceChart {
  import opened Common

  datatype ChartPoint = ChartPoint(date: string, pnl: real)

  /** A chart point with the running total up to and including it. */
  datatype CumulativePoint = CumulativePoint(date: string, pnl: real, cumulativePnl: real)

  function PointPnl(p: ChartPoint): real { p.pnl }

  /** The sum of the P&L of the points 0 to `i`. */
  function RunningTotal(data: seq<ChartPoint>, i: nat): real
    requires i < |data|
  {
    SumOf(data[..i + 1], PointPnl)
  }

  /** The running total starts at the first point's P&L and each later total exceeds
      the one before by that point's P&L. */
  lemma RunningTotalSteps(data: seq<ChartPoint>)
    ensures |data| > 0 ==> RunningTotal(data, 0) == data[0].pnl
    ensures forall i :: 0 < i < |data| ==> RunningTotal(data, i) == RunningTotal(data, i - 1) + data[i].pnl
  {
    if |data| > 0 {
      assert data[..1][..0] == [];
      assert SumOf(data[..1], PointPnl) == SumOf(data[..1][..0], PointPnl) + data[0].pnl;
    }
    forall i | 0 < i < |data| ensures RunningTotal(data, i) == RunningTotal(data, i - 1) + data[i].pnl {
      assert data[..i + 1][..i] == data[..i];
    }
  }

  /** `getCumulativeData`: each point kept as it was, with the running total added. */
  method GetCumulativeData(data: seq<ChartPoint>) returns (r: seq<CumulativePoint>)
    ensures |r| == |data|
    ensures forall i :: 0 <= i < |r| ==>
      r[i].date == data[i].date && r[i].pnl == data[i].pnl && r[i].cumulativePnl == RunningTotal(data, i)
  {
    var cumulativePnl := 0.0;
    r := [];
    for i := 0 to |data|
      invariant |r| == i
      invariant cumulativePnl == SumOf(data[..i], PointPnl)
      invariant forall k :: 0 <= k < i ==>
        r[k].date == data[k].date && r[k].pnl == data[k].pnl && r[k].cumulativePnl == RunningTotal(data, k)
    {
      assert data[..i + 1][..i] == data[..i];
      cumulativePnl := cumulativePnl + data[i].pnl;
      r := r + [CumulativePoint(data[i].date, data[i].pnl, cumulativePnl)];
    }
  }
}
