/** The trade record service: the `user_trades` table, its P&L rule, creation and
    partial update with P&L recomputation, and the paged, date-ranged reads and
    aggregates built on it. Dates are day indices (days since 1970-01-01). */
module Trades {
  import opened Common

  /** A row of `user_trades` as the service writes it (id, owner and creation time
      are added by the database; the id is the key of the table's map). */
  datatype Trade = Trade(
    symbol: string,
    tradeType: string,
    amount: Option<real>,
    entryPrice: Option<real>,
    exitPrice: Option<real>,
    fee: Option<real>,
    pnl: real,
    notes: Option<string>,
    date: int,
    exchangeId: Option<string>,
    exchangeOrderId: Option<string>,
    isSynchronized: Option<bool>,
    lastSyncedAt: Option<int>)

  /** A partial update (`Partial<TradeInput>`): `None` leaves the column alone. */
  datatype TradePatch = TradePatch(
    symbol: Option<string>,
    tradeType: Option<string>,
    amount: Option<real>,
    entryPrice: Option<real>,
    exitPrice: Option<real>,
    fee: Option<real>,
    pnl: Option<real>,
    notes: Option<string>,
    date: Option<int>,
    exchangeId: Option<string>,
    exchangeOrderId: Option<string>,
    isSynchronized: Option<bool>,
    lastSyncedAt: Option<int>)

  /** A row together with its key, as a query returns it. */
  datatype Row = Row(id: nat, trade: Trade)

  datatype TableError = NotFound(id: nat)

  // ---------------------------------------------------------------------------
  // The P&L rule

  /** `calculatePnl`: 0 unless amount, entry and exit price are all truthy; a buy gains
      when the exit is above the entry, any other type when it is below. */
  function CalculatePnl(tradeType: string, amount: Option<real>, entryPrice: Option<real>,
                        exitPrice: Option<real>): (r: real)
    ensures !(Truthy(amount) && Truthy(entryPrice) && Truthy(exitPrice)) ==> r == 0.0
    ensures Truthy(entryPrice) && Truthy(exitPrice) && amount.Some? && amount.value > 0.0 ==>
      (r > 0.0 <==> if tradeType == "buy" then exitPrice.value > entryPrice.value
                    else exitPrice.value < entryPrice.value)
    ensures Truthy(amount) && Truthy(entryPrice) && Truthy(exitPrice) && entryPrice.value == exitPrice.value ==>
      r == 0.0
  {
    if !Truthy(amount) || !Truthy(entryPrice) || !Truthy(exitPrice) then 0.0
    else if tradeType == "buy" then
      ProductSign(exitPrice.value - entryPrice.value, amount.value);
      (exitPrice.value - entryPrice.value) * amount.value
    else
      ProductSign(entryPrice.value - exitPrice.value, amount.value);
      (entryPrice.value - exitPrice.value) * amount.value
  }

  /** +1 for a buy, -1 for anything else. */
  function Direction(tradeType: string): real
  {
    if tradeType == "buy" then 1.0 else -1.0
  }

  /** The intended P&L rule, written independently: (exit - entry) * amount * direction - fee. */
  function ReferencePnl(tradeType: string, amount: real, entryPrice: real, exitPrice: real, fee: real): real
  {
    (exitPrice - entryPrice) * amount * Direction(tradeType) - fee
  }

  /** The fee a computation subtracts: the fee when it is truthy, otherwise nothing. */
  function FeeDeduction(fee: Option<real>): real
  {
    if Truthy(fee) then fee.value else 0.0
  }

  /** With all three inputs present, `calculatePnl` is the intended P&L rule without fee;
      with any of them missing or zero it is 0. */
  lemma CalculatePnlMatchesReference(tradeType: string, amount: Option<real>, entryPrice: Option<real>,
                                  exitPrice: Option<real>)
    ensures Truthy(amount) && Truthy(entryPrice) && Truthy(exitPrice) ==>
      CalculatePnl(tradeType, amount, entryPrice, exitPrice)
        == ReferencePnl(tradeType, amount.value, entryPrice.value, exitPrice.value, 0.0)
    ensures !(Truthy(amount) && Truthy(entryPrice) && Truthy(exitPrice)) ==>
      CalculatePnl(tradeType, amount, entryPrice, exitPrice) == 0.0
  {
  }

  /** A sell (indeed any non-buy type) is the exact negation of a buy on the same inputs. */
  lemma SellIsNegatedBuy(tradeType: string, amount: Option<real>, entryPrice: Option<real>,
                         exitPrice: Option<real>)
    requires tradeType != "buy"
    ensures CalculatePnl(tradeType, amount, entryPrice, exitPrice)
         == -CalculatePnl("buy", amount, entryPrice, exitPrice)
  {
  }

  // ---------------------------------------------------------------------------
  // createTrade

  /** The row `createTrade` inserts for an input. */
  function Created(t: Trade): (r: Trade)
    // every column other than pnl is inserted as given
    ensures r == t.(pnl := r.pnl)
    // a non-zero caller pnl is kept
    ensures t.pnl != 0.0 ==> r.pnl == t.pnl
    // missing detail fields: nothing to compute
    ensures !(Truthy(t.amount) && Truthy(t.entryPrice) && Truthy(t.exitPrice)) ==> r.pnl == t.pnl
    // otherwise a zero pnl becomes the intended P&L, fee subtracted only when truthy
    ensures t.pnl == 0.0 && Truthy(t.amount) && Truthy(t.entryPrice) && Truthy(t.exitPrice) ==>
      r.pnl == ReferencePnl(t.tradeType, t.amount.value, t.entryPrice.value, t.exitPrice.value,
                         FeeDeduction(t.fee))
  {
    CalculatePnlMatchesReference(t.tradeType, t.amount, t.entryPrice, t.exitPrice);
    if Truthy(t.amount) && Truthy(t.entryPrice) && Truthy(t.exitPrice) && t.pnl == 0.0 then
      t.(pnl := CalculatePnl(t.tradeType, t.amount, t.entryPrice, t.exitPrice) - FeeDeduction(t.fee))
    else t
  }

  // ---------------------------------------------------------------------------
  // updateTrade

  /** The first guard of `updateTrade`: no truthy pnl in the update, and at least one
      of the P&L inputs is present in it. */
  predicate WantsRecompute(p: TradePatch)
  {
    !Truthy(p.pnl) &&
    (p.entryPrice.Some? || p.exitPrice.Some? || p.amount.Some? || p.tradeType.Some? || p.fee.Some?)
  }

  /** The second guard: each of amount, entry and exit is truthy in the update or in the row. */
  predicate CanRecompute(p: TradePatch, current: Trade)
  {
    (Truthy(p.amount) || Truthy(current.amount)) &&
    (Truthy(p.entryPrice) || Truthy(current.entryPrice)) &&
    (Truthy(p.exitPrice) || Truthy(current.exitPrice))
  }

  /** `x !== undefined ? x : current`. */
  function Defined<T>(x: Option<T>, current: Option<T>): Option<T>
  {
    if x.Some? then x else current
  }

  /** `trade.type || currentTrade.type`. */
  function MergedType(p: TradePatch, current: Trade): string
  {
    if TruthyText(p.tradeType) then p.tradeType.value else current.tradeType
  }

  /** The P&L `updateTrade` computes from the update merged over the stored row. */
  function RecomputedPnl(p: TradePatch, current: Trade): real
  {
    CalculatePnl(MergedType(p, current), Defined(p.amount, current.amount),
                 Defined(p.entryPrice, current.entryPrice), Defined(p.exitPrice, current.exitPrice))
      - FeeDeduction(Defined(p.fee, current.fee))
  }

  /** The update object `updateTrade` sends for a stored row. */
  function PreparedPatch(p: TradePatch, current: Trade): (r: TradePatch)
    // only pnl can differ from the caller's update
    ensures r == p.(pnl := r.pnl)
    // and it differs only when both guards pass
    ensures r.pnl != p.pnl ==> WantsRecompute(p) && CanRecompute(p, current)
  {
    if WantsRecompute(p) && CanRecompute(p, current) then p.(pnl := Some(RecomputedPnl(p, current)))
    else p
  }

  /** A stored row with an update object applied: present fields replace columns. */
  function Apply(row: Trade, p: TradePatch): Trade
  {
    Trade(
      Defined(p.symbol, Some(row.symbol)).value,
      Defined(p.tradeType, Some(row.tradeType)).value,
      Defined(p.amount, row.amount),
      Defined(p.entryPrice, row.entryPrice),
      Defined(p.exitPrice, row.exitPrice),
      Defined(p.fee, row.fee),
      Defined(p.pnl, Some(row.pnl)).value,
      Defined(p.notes, row.notes),
      Defined(p.date, Some(row.date)).value,
      Defined(p.exchangeId, row.exchangeId),
      Defined(p.exchangeOrderId, row.exchangeOrderId),
      Defined(p.isSynchronized, row.isSynchronized),
      Defined(p.lastSyncedAt, row.lastSyncedAt))
  }

  /** The row `updateTrade` leaves behind. */
  function Updated(row: Trade, p: TradePatch): Trade
  {
    Apply(row, PreparedPatch(p, row))
  }

  /** What an update promises about the row: an explicit truthy pnl wins; a recomputed
      pnl is the intended P&L of the merged values; every column the update leaves out,
      other than pnl, keeps its stored value. */
  lemma UpdatedRow(row: Trade, p: TradePatch)
    ensures Truthy(p.pnl) ==> Updated(row, p).pnl == p.pnl.value
    ensures WantsRecompute(p) && CanRecompute(p, row) &&
            Truthy(Defined(p.amount, row.amount)) && Truthy(Defined(p.entryPrice, row.entryPrice)) &&
            Truthy(Defined(p.exitPrice, row.exitPrice)) ==>
      Updated(row, p).pnl == ReferencePnl(MergedType(p, row), Defined(p.amount, row.amount).value,
                                       Defined(p.entryPrice, row.entryPrice).value,
                                       Defined(p.exitPrice, row.exitPrice).value,
                                       FeeDeduction(Defined(p.fee, row.fee)))
    ensures !WantsRecompute(p) ==> Updated(row, p) == Apply(row, p)
    ensures p.amount.None? ==> Updated(row, p).amount == row.amount
    ensures p.entryPrice.None? ==> Updated(row, p).entryPrice == row.entryPrice
    ensures p.exitPrice.None? ==> Updated(row, p).exitPrice == row.exitPrice
    ensures p.fee.None? ==> Updated(row, p).fee == row.fee
    ensures p.exchangeId.None? ==> Updated(row, p).exchangeId == row.exchangeId
    ensures p.exchangeOrderId.None? ==> Updated(row, p).exchangeOrderId == row.exchangeOrderId
    ensures p.date.None? ==> Updated(row, p).date == row.date
    ensures p.symbol.None? ==> Updated(row, p).symbol == row.symbol
    ensures p.tradeType.None? ==> Updated(row, p).tradeType == row.tradeType
    ensures p.notes.None? ==> Updated(row, p).notes == row.notes
    ensures p.isSynchronized.None? ==> Updated(row, p).isSynchronized == row.isSynchronized
    ensures p.lastSyncedAt.None? ==> Updated(row, p).lastSyncedAt == row.lastSyncedAt
  {
    var q := PreparedPatch(p, row);
    if WantsRecompute(p) && CanRecompute(p, row) {
      CalculatePnlMatchesReference(MergedType(p, row), Defined(p.amount, row.amount),
                                Defined(p.entryPrice, row.entryPrice), Defined(p.exitPrice, row.exitPrice));
    }
  }

  /** The guard looks at truthiness but the values at definedness: an update whose
      amount is 0 on a row with a real amount still recomputes, and the computed pnl
      is then minus the fee. */
  lemma ZeroAmountUpdateKeepsOnlyFee(row: Trade, p: TradePatch)
    requires p.amount == Some(0.0) && !Truthy(p.pnl)
    requires Truthy(row.amount) && Truthy(row.entryPrice) && Truthy(row.exitPrice)
    ensures Updated(row, p).pnl == -FeeDeduction(Defined(p.fee, row.fee))
  {
  }

  // ---------------------------------------------------------------------------
  // Date-ranged, date-ordered listings

  /** The `gte('date', startDate)` / `lte('date', endDate)` filters, each applied only
      when its bound is given. */
  predicate InRange(t: Trade, startDate: Option<int>, endDate: Option<int>)
  {
    (startDate.None? || startDate.value <= t.date) && (endDate.None? || t.date <= endDate.value)
  }

  /** `order('date', { ascending: false })`. */
  predicate DateDescending(s: seq<Row>)
  {
    forall i, j :: 0 <= i < j < |s| ==> s[j].trade.date <= s[i].trade.date
  }

  predicate DistinctIds(s: seq<Row>)
  {
    forall i, j :: 0 <= i < j < |s| ==> s[i].id != s[j].id
  }

  /** Inserts a row after every row dated the same day or later. */
  function InsertByDate(e: Row, s: seq<Row>): (r: seq<Row>)
    ensures |r| == |s| + 1
    ensures forall x :: x in r <==> x == e || x in s
  {
    if |s| == 0 then [e]
    else if s[0].trade.date < e.trade.date then [e] + s
    else
      var t := InsertByDate(e, s[1..]);
      assert forall x :: x in s[1..] ==> x in s;
      assert forall x :: x in s ==> x == s[0] || x in s[1..];
      [s[0]] + t
  }

  lemma {:induction false} InsertByDateKeepsOrder(e: Row, s: seq<Row>)
    requires DateDescending(s)
    ensures DateDescending(InsertByDate(e, s))
  {
    if |s| > 0 && e.trade.date <= s[0].trade.date {
      InsertByDateKeepsOrder(e, s[1..]);
      var t := InsertByDate(e, s[1..]);
      assert forall x :: x in s[1..] ==> x.trade.date <= s[0].trade.date;
      assert forall x :: x in t ==> x.trade.date <= s[0].trade.date;
      assert InsertByDate(e, s) == [s[0]] + t;
    }
  }

  lemma {:induction false} InsertByDateKeepsIds(e: Row, s: seq<Row>)
    requires DistinctIds(s) && forall x :: x in s ==> x.id != e.id
    ensures DistinctIds(InsertByDate(e, s))
  {
    if |s| > 0 && e.trade.date <= s[0].trade.date {
      assert forall x :: x in s[1..] ==> x in s;
      InsertByDateKeepsIds(e, s[1..]);
      var t := InsertByDate(e, s[1..]);
      assert forall i :: 1 <= i < |s| ==> s[i].id != s[0].id;
      assert forall x :: x in s[1..] ==> x.id != s[0].id;
      assert forall x :: x in t ==> x.id != s[0].id;
      assert InsertByDate(e, s) == [s[0]] + t;
    }
  }

  /** The rows with ids below `n` that fall in the range, newest date first (rows of
      the same date in id order). */
  function Listing(rows: map<nat, Trade>, n: nat, startDate: Option<int>, endDate: Option<int>): (r: seq<Row>)
    ensures DateDescending(r) && DistinctIds(r)
    ensures forall x :: x in r <==> x.id < n && x.id in rows && rows[x.id] == x.trade && InRange(x.trade, startDate, endDate)
  {
    if n == 0 then []
    else
      var s := Listing(rows, n - 1, startDate, endDate);
      if n - 1 in rows && InRange(rows[n - 1], startDate, endDate) then
        InsertByDateKeepsOrder(Row(n - 1, rows[n - 1]), s);
        InsertByDateKeepsIds(Row(n - 1, rows[n - 1]), s);
        InsertByDate(Row(n - 1, rows[n - 1]), s)
      else s
  }

  /** `range(offset, offset + limit - 1)` of a listing; an offset past the end gives nothing. */
  function Page(s: seq<Row>, offset: nat, limit: nat): (r: seq<Row>)
    ensures |r| <= limit
    ensures |r| == if offset >= |s| then 0 else if limit < |s| - offset then limit else |s| - offset
    ensures forall i :: 0 <= i < |r| ==> r[i] == s[offset + i]
  {
    if offset >= |s| then [] else if limit < |s| - offset then s[offset..offset + limit] else s[offset..]
  }

  function Pnl(r: Row): real
  {
    r.trade.pnl
  }

  /** A day of the daily performance series. */
  datatype DayPnl = DayPnl(date: int, pnl: real)

  /** `data.find(trade => trade.date === day)?.pnl ?? 0`. */
  function FirstPnlOn(data: seq<Row>, day: int): real
  {
    if |data| == 0 then 0.0
    else if data[0].trade.date == day then data[0].trade.pnl
    else FirstPnlOn(data[1..], day)
  }

  /** The series value for a day is the pnl of the first row of that day, or 0 when the
      day has none: it picks, it does not add up. */
  lemma {:induction false} FirstPnlOnPicksFirst(data: seq<Row>, day: int)
    ensures (forall x :: x in data ==> x.trade.date != day) ==> FirstPnlOn(data, day) == 0.0
    ensures forall k :: 0 <= k < |data| && data[k].trade.date == day &&
                        (forall j :: 0 <= j < k ==> data[j].trade.date != day) ==>
                        FirstPnlOn(data, day) == data[k].trade.pnl
  {
    if |data| > 0 {
      FirstPnlOnPicksFirst(data[1..], day);
      forall k | 0 <= k < |data| && data[k].trade.date == day &&
                 (forall j :: 0 <= j < k ==> data[j].trade.date != day)
        ensures FirstPnlOn(data, day) == data[k].trade.pnl
      {
        if k > 0 {
          assert data[0].trade.date != day;
          assert data[1..][k - 1] == data[k];
          forall j | 0 <= j < k - 1 ensures data[1..][j].trade.date != day {
            assert data[1..][j] == data[j + 1];
          }
        }
      }
    }
  }

  // ---------------------------------------------------------------------------
  // The table

  /** The `user_trades` table: rows keyed by id, ids handed out in increasing order. */
  class TradeTable {
    var rows: map<nat, Trade>
    var nextId: nat

    ghost predicate Valid()
      reads this
    {
      forall id :: id in rows ==> id < nextId
    }

    constructor ()
      ensures Valid() && rows == map[] && nextId == 0
    {
      rows := map[];
      nextId := 0;
    }

    /** `getTradeById`: the row, or an error when no row has this id. */
    method GetTradeById(id: nat) returns (r: Result<Trade, TableError>)
      ensures r.Ok? <==> id in rows
      ensures r.Ok? ==> r.value == rows[id]
      ensures r.Err? ==> r.error == NotFound(id)
    {
      if id in rows {
        r := Ok(rows[id]);
      } else {
        r := Err(NotFound(id));
      }
    }

    /** `createTrade`: inserts the input under a fresh id, pnl filled in when it was
        left at zero and the detail fields allow it. */
    method CreateTrade(t: Trade) returns (id: nat, row: Trade)
      requires Valid()
      modifies this
      ensures Valid()
      ensures id == old(nextId) && id !in old(rows) && nextId == old(nextId) + 1
      ensures row == Created(t)
      ensures rows == old(rows)[id := row]
    {
      var pnl := t.pnl;
      if Truthy(t.amount) && Truthy(t.entryPrice) && Truthy(t.exitPrice) && pnl == 0.0 {
        pnl := CalculatePnl(t.tradeType, t.amount, t.entryPrice, t.exitPrice);
        if Truthy(t.fee) {
          pnl := pnl - t.fee.value;
        }
      }
      row := t.(pnl := pnl);
      id := nextId;
      rows := rows[id := row];
      nextId := nextId + 1;
    }

    /** `updateTrade`: recomputes pnl when the update asks for it and the merged values
        allow it, then writes the update to the row; a missing row is an error. */
    method UpdateTrade(id: nat, p: TradePatch) returns (r: Result<Trade, TableError>)
      requires Valid()
      modifies this
      ensures Valid() && nextId == old(nextId)
      ensures id !in old(rows) ==> r == Err(NotFound(id)) && rows == old(rows)
      ensures id in old(rows) ==> r == Ok(Updated(old(rows)[id], p)) && rows == old(rows)[id := r.value]
    {
      var updated := p;
      if WantsRecompute(p) {
        var current := GetTradeById(id);
        if current.Err? {
          return Err(current.error);
        }
        var cur := current.value;
        if CanRecompute(p, cur) {
          var forPnl := MergedType(p, cur);
          var calculated := CalculatePnl(forPnl, Defined(p.amount, cur.amount),
                                         Defined(p.entryPrice, cur.entryPrice), Defined(p.exitPrice, cur.exitPrice));
          var fee := Defined(p.fee, cur.fee);
          if Truthy(fee) {
            calculated := calculated - fee.value;
          }
          updated := updated.(pnl := Some(calculated));
        }
      }
      if id !in rows {
        return Err(NotFound(id));
      }
      var row := Apply(rows[id], updated);
      rows := rows[id := row];
      r := Ok(row);
    }

    /** `deleteTrade`: removes the row if there is one. */
    method DeleteTrade(id: nat)
      requires Valid()
      modifies this
      ensures Valid() && nextId == old(nextId)
      ensures rows == old(rows) - {id}
    {
      rows := rows - {id};
    }

    /** `getTrades`: at most `limit` rows from `offset` on, of the rows in the date range
        ordered newest first. */
    method GetTrades(startDate: Option<int>, endDate: Option<int>, limit: nat, offset: nat)
      returns (r: seq<Row>)
      requires Valid()
      ensures |r| <= limit
      ensures DateDescending(r) && DistinctIds(r)
      ensures forall x :: x in r ==> x.id in rows && rows[x.id] == x.trade && InRange(x.trade, startDate, endDate)
      ensures r == Page(Listing(rows, nextId, startDate, endDate), offset, limit)
    {
      var all := Listing(rows, nextId, startDate, endDate);
      r := Page(all, offset, limit);
      assert forall i :: 0 <= i < |r| ==> r[i] in all;
    }

    /** `getTradesByDateRange`: `getTrades` with its defaults, limit 10 and offset 0. */
    method GetTradesByDateRange(startDate: Option<int>, endDate: Option<int>) returns (r: seq<Row>)
      requires Valid()
      ensures |r| <= 10
      ensures r == Page(Listing(rows, nextId, startDate, endDate), 0, 10)
      ensures r == Listing(rows, nextId, startDate, endDate)[..|r|]
    {
      r := GetTrades(startDate, endDate, 10, 0);
    }

    /** `getTradesCount`: the number of rows in the date range. */
    method GetTradesCount(startDate: Option<int>, endDate: Option<int>) returns (count: nat)
      requires Valid()
      ensures count == |Listing(rows, nextId, startDate, endDate)|
    {
      count := |Listing(rows, nextId, startDate, endDate)|;
    }

    /** `getTradesPnl`: the pnl summed over what `getTradesByDateRange` returns. */
    method GetTradesPnl(startDate: Option<int>, endDate: Option<int>) returns (pnl: real)
      requires Valid()
      ensures pnl == SumOf(Page(Listing(rows, nextId, startDate, endDate), 0, 10), Pnl)
    {
      var trades := GetTradesByDateRange(startDate, endDate);
      pnl := 0.0;
      for i := 0 to |trades|
        invariant pnl == SumOf(trades[..i], Pnl)
      {
        assert trades[..i + 1][..i] == trades[..i];
        pnl := pnl + trades[i].trade.pnl;
      }
      assert trades[..|trades|] == trades;
    }

    /** The P&L of every row in the range: what `getTradesPnl` is evidently meant to
        return, rather than the total of the first page of ten. */
    method GetRangePnl(startDate: Option<int>, endDate: Option<int>) returns (pnl: real)
      requires Valid()
      ensures pnl == SumOf(Listing(rows, nextId, startDate, endDate), Pnl)
    {
      var trades := Listing(rows, nextId, startDate, endDate);
      pnl := 0.0;
      for i := 0 to |trades|
        invariant pnl == SumOf(trades[..i], Pnl)
      {
        assert trades[..i + 1][..i] == trades[..i];
        pnl := pnl + trades[i].trade.pnl;
      }
      assert trades[..|trades|] == trades;
    }

    /** `getDailyPerformance`: one entry per day from start to end inclusive, oldest
        first, each holding the pnl of the first row of that day in the newest-first
        listing, or 0. The end defaults to today and the start to seven days before
        the end. */
    method GetDailyPerformance(startDate: Option<int>, endDate: Option<int>, today: int)
      returns (series: seq<DayPnl>)
      ensures var e := if endDate.Some? then endDate.value else today;
              var s := if startDate.Some? then startDate.value else e - 7;
              IsDailySeries(series, Listing(rows, nextId, Some(s), Some(e)), s, e)
    {
      var e := if endDate.Some? then endDate.value else today;
      var s := if startDate.Some? then startDate.value else e - 7;
      var data := Listing(rows, nextId, Some(s), Some(e));
      series := DaySeries(data, s, e);
    }

    /** `getTradesWinningCount`: rows in the range with pnl >= 0. */
    function WinningCount(startDate: int, endDate: int): (r: nat)
      reads this
      ensures r <= |Listing(rows, nextId, Some(startDate), Some(endDate))|
      ensures r == 0 <==> forall x :: x in Listing(rows, nextId, Some(startDate), Some(endDate)) ==> x.trade.pnl < 0.0
    {
      var f := Filter(Listing(rows, nextId, Some(startDate), Some(endDate)), (x: Row) => x.trade.pnl >= 0.0);
      assert |f| > 0 ==> f[0] in f;
      CountOf(Listing(rows, nextId, Some(startDate), Some(endDate)), (x: Row) => x.trade.pnl >= 0.0)
    }

    /** `getTradesLosingCount`: rows in the range with pnl <= 0. */
    function LosingCount(startDate: int, endDate: int): (r: nat)
      reads this
      ensures r <= |Listing(rows, nextId, Some(startDate), Some(endDate))|
      ensures r == 0 <==> forall x :: x in Listing(rows, nextId, Some(startDate), Some(endDate)) ==> x.trade.pnl > 0.0
    {
      var f := Filter(Listing(rows, nextId, Some(startDate), Some(endDate)), (x: Row) => x.trade.pnl <= 0.0);
      assert |f| > 0 ==> f[0] in f;
      CountOf(Listing(rows, nextId, Some(startDate), Some(endDate)), (x: Row) => x.trade.pnl <= 0.0)
    }
  }

  /** One entry per day from `s` to `e` (none when `s > e`), each carrying the P&L of the
      first row of `data` on that day, 0 when there is none. */
  predicate IsDailySeries(series: seq<DayPnl>, data: seq<Row>, s: int, e: int)
  {
    && |series| == (if s <= e then e - s + 1 else 0)
    && forall i :: 0 <= i < |series| ==> series[i] == DayPnl(s + i, FirstPnlOn(data, s + i))
  }

  /** The day loop of `getDailyPerformance`: one entry per day from `s` to `e`, each
      carrying the P&L of the first listed row of that day (0 when there is none). */
  method DaySeries(data: seq<Row>, s: int, e: int) returns (series: seq<DayPnl>)
    ensures IsDailySeries(series, data, s, e)
  {
    series := [];
    var current := s;
    while current <= e
      invariant s <= current
      invariant if s <= e then current <= e + 1 else current == s
      invariant |series| == current - s
      invariant forall i :: 0 <= i < |series| ==> series[i] == DayPnl(s + i, FirstPnlOn(data, s + i))
      decreases e - current
    {
      var pnl := FirstPnlOn(data, current);
      series := series + [DayPnl(current, pnl)];
      current := current + 1;
    }
  }

  /** Winning and losing counts overlap exactly on zero-pnl rows, so together they count
      every row of the range once and the break-even rows twice. */
  lemma {:induction false} WinLossOverlap(s: seq<Row>)
    ensures CountOf(s, (x: Row) => x.trade.pnl >= 0.0) + CountOf(s, (x: Row) => x.trade.pnl <= 0.0)
         == |s| + CountOf(s, (x: Row) => x.trade.pnl == 0.0)
  {
    if |s| > 0 {
      WinLossOverlap(s[..|s| - 1]);
    }
  }

  /** The first page of ten holds the whole P&L of a range of at most ten rows; beyond
      that the rows from the eleventh on are left out of the total, so rows there with
      positive P&L make the first-page total fall short of the range's. */
  lemma FirstPagePnl(s: seq<Row>)
    ensures |s| <= 10 ==> SumOf(Page(s, 0, 10), Pnl) == SumOf(s, Pnl)
    ensures |s| > 10 ==> SumOf(s, Pnl) == SumOf(Page(s, 0, 10), Pnl) + SumOf(s[10..], Pnl)
    ensures |s| > 10 && (forall i :: 10 <= i < |s| ==> s[i].trade.pnl > 0.0) ==>
      SumOf(Page(s, 0, 10), Pnl) < SumOf(s, Pnl)
  {
    if |s| <= 10 {
      assert Page(s, 0, 10) == s;
    } else {
      assert Page(s, 0, 10) + s[10..] == s;
      SumOfAppend(Page(s, 0, 10), s[10..], Pnl);
      if forall i :: 10 <= i < |s| ==> s[i].trade.pnl > 0.0 {
        SumOfPositive(s[10..]);
      }
    }
  }

  lemma {:induction false} SumOfPositive(s: seq<Row>)
    requires |s| > 0 && forall i :: 0 <= i < |s| ==> s[i].trade.pnl > 0.0
    ensures SumOf(s, Pnl) > 0.0
  {
    if |s| > 1 {
      SumOfPositive(s[..|s| - 1]);
    }
  }

  /** Eleven rows of P&L 1 in a range: the first page totals 10 where the range totals 11. */
  lemma EleventhRowLeftOut(t: Trade)
    requires t.pnl == 1.0
    ensures var s := seq(11, (i: nat) => Row(i, t));
      SumOf(Page(s, 0, 10), Pnl) == 10.0 && SumOf(s, Pnl) == 11.0
  {
    var s := seq(11, (i: nat) => Row(i, t));
    SumOfOnes(Page(s, 0, 10));
    SumOfOnes(s);
  }

  lemma {:induction false} SumOfOnes(s: seq<Row>)
    requires forall i :: 0 <= i < |s| ==> s[i].trade.pnl == 1.0
    ensures SumOf(s, Pnl) == |s| as real
  {
    if |s| > 0 {
      SumOfOnes(s[..|s| - 1]);
    }
  }
}
