/** Exchange sync: a run records itself in `trade_sync_history`, fetches the
    exchange's fills and upserts each one into `user_trades` under the key
    (exchange order id, exchange), then marks the run completed or failed. */
module TradeSync {
  import opened Common
  import opened Trades
  import opened ExchangeClient

  datatype SyncStatus = InProgress | Completed | Failed

  /** A row of `trade_sync_history`. */
  datatype SyncRecord = SyncRecord(
    apiKeyId: string,
    exchange: string,
    status: SyncStatus,
    tradesSynced: Option<nat>,
    errorMessage: Option<string>,
    syncStartTime: int,
    syncEndTime: Option<int>)

  /** A row of `api_keys`. */
  datatype ApiKey = ApiKey(exchange: string, apiKey: string, apiSecret: string)

  datatype SyncOptions = SyncOptions(
    apiKeyId: string,
    startDate: Option<int>,
    endDate: Option<int>,
    symbols: Option<seq<string>>)

  datatype SyncResult = SyncResult(
    syncId: nat,
    tradesImported: nat,
    status: SyncStatus,
    errorMessage: Option<string>)

  /** The remote database's failures a run can meet: the opening insert of the history
      record, and the write of the fetched fill at a given position. Each carries the
      message of the error the database reports. */
  datatype Faults = Faults(startFailure: Option<string>, writeFailure: Option<(nat, string)>)

  /** The message of the database's "no rows" error, raised by `.single()` when the
      API key id names no row. */
  const NoRowsMessage: string := "JSON object requested, multiple (or no) rows returned"

  // ---------------------------------------------------------------------------
  // Mapping a fill to a journal row

  /** `realizedPnl || 0`. */
  function RealizedOrZero(t: ExchangeTrade): real
  {
    if Truthy(t.realizedPnl) then t.realizedPnl.value else 0.0
  }

  /** `mapExchangeTradeToTradeInput`: type is the side lower-cased, both prices are the
      fill price, pnl is the realized P&L or 0, the date is the UTC day of the timestamp,
      and the note names the exchange. */
  function MapExchangeTradeToTradeInput(t: ExchangeTrade, exchangeId: string): (r: Trade)
    ensures r.tradeType == ToLower(t.side) && r.symbol == t.symbol && r.amount == Some(t.amount)
    ensures r.entryPrice == r.exitPrice == Some(t.price)
    ensures r.pnl == RealizedOrZero(t)
    ensures r.date * 86400000 <= t.timestamp < (r.date + 1) * 86400000
    ensures r.notes == Some("Imported from " + exchangeId + " exchange")
    ensures r.fee.None? && r.exchangeId.None? && r.exchangeOrderId.None?
  {
    Trade(t.symbol, ToLower(t.side), Some(t.amount), Some(t.price), Some(t.price), None,
          RealizedOrZero(t), Some("Imported from " + exchangeId + " exchange"), t.timestamp / 86400000,
          None, None, None, None)
  }

  /** The input the sync gives `createTrade` for a fill seen for the first time. */
  function InsertInput(t: ExchangeTrade, exchange: string, now: int): Trade
  {
    MapExchangeTradeToTradeInput(t, exchange).(
      exchangeId := Some(exchange), exchangeOrderId := Some(t.orderId),
      isSynchronized := Some(true), lastSyncedAt := Some(now))
  }

  /** The update the sync gives `updateTrade` for a fill already in the journal: the
      mapped fields, the synchronized flag and the sync time; not the key columns. */
  function UpdatePatch(t: ExchangeTrade, exchange: string, now: int): TradePatch
  {
    var m := MapExchangeTradeToTradeInput(t, exchange);
    TradePatch(Some(m.symbol), Some(m.tradeType), m.amount, m.entryPrice, m.exitPrice, None,
               Some(m.pnl), m.notes, Some(m.date), None, None, Some(true), Some(now))
  }

  /** A fill imported for the first time keeps the realized P&L (or 0): both prices are
      the fill price, so the recomputation `createTrade` may do yields 0 and no fee. */
  lemma InsertedPnl(t: ExchangeTrade, exchange: string, now: int)
    ensures Created(InsertInput(t, exchange, now)).pnl == RealizedOrZero(t)
    ensures Created(InsertInput(t, exchange, now)).isSynchronized == Some(true)
  {
    CalculatePnlMatchesReference(ToLower(t.side), Some(t.amount), Some(t.price), Some(t.price));
  }

  /** Re-importing a fill with a truthy realized P&L stores it; otherwise `updateTrade`
      recomputes from equal prices, so the stored pnl is minus the row's own fee (0 for
      rows the sync created, which carry no fee). The key columns are left alone. */
  lemma ReimportedRow(row: Trade, t: ExchangeTrade, exchange: string, now: int)
    ensures var u := Updated(row, UpdatePatch(t, exchange, now));
      && (Truthy(t.realizedPnl) ==> u.pnl == t.realizedPnl.value)
      && (!Truthy(t.realizedPnl) ==> u.pnl == 0.0 || u.pnl == -FeeDeduction(row.fee))
      && (!Truthy(t.realizedPnl) && row.fee.None? ==> u.pnl == 0.0)
      && u.exchangeId == row.exchangeId && u.exchangeOrderId == row.exchangeOrderId
      && u.fee == row.fee && u.isSynchronized == Some(true)
  {
    var p := UpdatePatch(t, exchange, now);
    UpdatedRow(row, p);
    CalculatePnlMatchesReference(MergedType(p, row), Defined(p.amount, row.amount),
                              Defined(p.entryPrice, row.entryPrice), Defined(p.exitPrice, row.exitPrice));
  }

  // ---------------------------------------------------------------------------
  // The upsert, as a function of the table

  /** The table as the sync sees it: its rows and the next id it will hand out. */
  datatype TableState = TableState(rows: map<nat, Trade>, nextId: nat)

  predicate ValidTable(st: TableState)
  {
    forall id :: id in st.rows ==> id < st.nextId
  }

  /** The row carries the sync key (exchange order id, exchange). */
  predicate HasKey(t: Trade, orderId: string, exchange: string)
  {
    t.exchangeOrderId == Some(orderId) && t.exchangeId == Some(exchange)
  }

  /** No two rows carry the same sync key. */
  predicate UniqueKeys(rows: map<nat, Trade>)
  {
    forall i, j :: i in rows && j in rows && i != j && rows[i].exchangeOrderId.Some? &&
                   rows[i].exchangeId.Some? ==>
      !HasKey(rows[j], rows[i].exchangeOrderId.value, rows[i].exchangeId.value)
  }

  predicate KeyPresent(rows: map<nat, Trade>, orderId: string, exchange: string)
  {
    exists id :: id in rows && HasKey(rows[id], orderId, exchange)
  }

  /** `select('id').eq('exchange_order_id', …).eq('exchange_id', …)`: the ids below `n`
      whose row carries the key, in increasing order. */
  function IdsWithKey(rows: map<nat, Trade>, n: nat, orderId: string, exchange: string): (r: seq<nat>)
    ensures forall i :: 0 <= i < |r| ==> r[i] < n && r[i] in rows && HasKey(rows[r[i]], orderId, exchange)
    ensures forall id :: id < n && id in rows && HasKey(rows[id], orderId, exchange) ==> id in r
    ensures forall i, j :: 0 <= i < j < |r| ==> r[i] < r[j]
  {
    if n == 0 then []
    else
      var s := IdsWithKey(rows, n - 1, orderId, exchange);
      if n - 1 in rows && HasKey(rows[n - 1], orderId, exchange) then s + [n - 1] else s
  }

  /** The row one step of the loop writes: the first row with the fill's key, or the
      next id when there is none. */
  function WrittenId(st: TableState, t: ExchangeTrade, exchange: string): nat
  {
    var ids := IdsWithKey(st.rows, st.nextId, t.orderId, exchange);
    if |ids| > 0 then ids[0] else st.nextId
  }

  /** When some row below the counter carries the fill's key, the row written is the one
      with the smallest such id, the first match in the model's database order. */
  lemma WrittenIdIsSmallest(st: TableState, t: ExchangeTrade, exchange: string)
    ensures forall id :: id < st.nextId && id in st.rows && HasKey(st.rows[id], t.orderId, exchange) ==>
      WrittenId(st, t, exchange) <= id && HasKey(st.rows[WrittenId(st, t, exchange)], t.orderId, exchange)
  {
    var ids := IdsWithKey(st.rows, st.nextId, t.orderId, exchange);
    forall id | id < st.nextId && id in st.rows && HasKey(st.rows[id], t.orderId, exchange)
      ensures ids[0] <= id
    {
      var k :| 0 <= k < |ids| && ids[k] == id;
      assert k == 0 || ids[0] < ids[k];
    }
  }

  /** One step of the loop: update the first row with the fill's key, or insert a row
      carrying the key; either way the row written is in the table afterwards and the
      counter moves by at most one. */
  function Upsert(st: TableState, t: ExchangeTrade, exchange: string, now: int): (r: TableState)
    ensures WrittenId(st, t, exchange) in r.rows
    ensures st.nextId <= r.nextId <= st.nextId + 1
  {
    var ids := IdsWithKey(st.rows, st.nextId, t.orderId, exchange);
    if |ids| > 0 then
      TableState(st.rows[ids[0] := Updated(st.rows[ids[0]], UpdatePatch(t, exchange, now))], st.nextId)
    else
      TableState(st.rows[st.nextId := Created(InsertInput(t, exchange, now))], st.nextId + 1)
  }

  /** The loop over the fetched fills, in order: each fill uses at most one new id. */
  function UpsertAll(st: TableState, ts: seq<ExchangeTrade>, exchange: string, now: int): (r: TableState)
    ensures st.nextId <= r.nextId <= st.nextId + |ts|
  {
    if |ts| == 0 then st
    else Upsert(UpsertAll(st, ts[..|ts| - 1], exchange, now), ts[|ts| - 1], exchange, now)
  }
  /** What one upsert writes: a known key's first row takes the fill's update and no id
      is used; an unknown key gets the created row under the next id; every other row is
      kept as it was. */
  lemma UpsertWrites(st: TableState, t: ExchangeTrade, exchange: string, now: int)
    ensures var ids := IdsWithKey(st.rows, st.nextId, t.orderId, exchange);
      var r := Upsert(st, t, exchange, now);
      |ids| > 0 ==>
        && r.nextId == st.nextId && r.rows.Keys == st.rows.Keys
        && r.rows[ids[0]] == Updated(st.rows[ids[0]], UpdatePatch(t, exchange, now))
    ensures var r := Upsert(st, t, exchange, now);
      |IdsWithKey(st.rows, st.nextId, t.orderId, exchange)| == 0 ==>
        && r.nextId == st.nextId + 1 && r.rows.Keys == st.rows.Keys + {st.nextId}
        && r.rows[st.nextId] == Created(InsertInput(t, exchange, now))
    ensures forall id :: id in st.rows && id != WrittenId(st, t, exchange) ==>
      id in Upsert(st, t, exchange, now).rows && Upsert(st, t, exchange, now).rows[id] == st.rows[id]
  {
  }



  /** What one upsert does to the table: ids stay below the counter; the fill's key is
      present afterwards; keys stay unique; no row loses its key; a known key adds no row;
      every row it touches is marked synchronized. */
  lemma UpsertStep(st: TableState, t: ExchangeTrade, exchange: string, now: int)
    requires ValidTable(st)
    ensures var st' := Upsert(st, t, exchange, now);
      && ValidTable(st')
      && KeyPresent(st'.rows, t.orderId, exchange)
      && (UniqueKeys(st.rows) ==> UniqueKeys(st'.rows))
      && st.rows.Keys <= st'.rows.Keys
      && (forall id :: id in st.rows ==>
            st'.rows[id].exchangeOrderId == st.rows[id].exchangeOrderId && st'.rows[id].exchangeId == st.rows[id].exchangeId)
      && (KeyPresent(st.rows, t.orderId, exchange) ==> st'.rows.Keys == st.rows.Keys && st'.nextId == st.nextId)
      && (!KeyPresent(st.rows, t.orderId, exchange) ==>
            st'.rows.Keys == st.rows.Keys + {st.nextId} && st'.nextId == st.nextId + 1)
      && (forall id :: id in st'.rows && (id !in st.rows || st'.rows[id] != st.rows[id]) ==>
                       st'.rows[id].isSynchronized == Some(true))
  {
    var ids := IdsWithKey(st.rows, st.nextId, t.orderId, exchange);
    var st' := Upsert(st, t, exchange, now);
    if |ids| > 0 {
      var id0 := ids[0];
      ReimportedRow(st.rows[id0], t, exchange, now);
      assert KeyPresent(st.rows, t.orderId, exchange);
      assert HasKey(st'.rows[id0], t.orderId, exchange);
    } else {
      InsertedPnl(t, exchange, now);
      var n := st.nextId;
      assert HasKey(st'.rows[n], t.orderId, exchange);
      assert !KeyPresent(st.rows, t.orderId, exchange);
      forall i, j | i in st'.rows && j in st'.rows && i != j && st'.rows[i].exchangeOrderId.Some? &&
                    st'.rows[i].exchangeId.Some? && UniqueKeys(st.rows)
        ensures !HasKey(st'.rows[j], st'.rows[i].exchangeOrderId.value, st'.rows[i].exchangeId.value)
      {
        if i == n {
          assert j in st.rows;
        } else if j == n {
          assert i in st.rows;
        }
      }
    }
  }

  /** The loop keeps the table valid and its keys unique, keeps every key it found,
      leaves every fetched key present, and marks every row it touches synchronized. */
  lemma {:induction false} UpsertAllInvariants(st: TableState, ts: seq<ExchangeTrade>, exchange: string, now: int)
    requires ValidTable(st)
    ensures var st' := UpsertAll(st, ts, exchange, now);
      && ValidTable(st')
      && (UniqueKeys(st.rows) ==> UniqueKeys(st'.rows))
      && st.rows.Keys <= st'.rows.Keys
      && (forall o, e :: KeyPresent(st.rows, o, e) ==> KeyPresent(st'.rows, o, e))
      && (forall t :: t in ts ==> KeyPresent(st'.rows, t.orderId, exchange))
      && (forall id :: id in st'.rows && (id !in st.rows || st'.rows[id] != st.rows[id]) ==>
                       st'.rows[id].isSynchronized == Some(true))
  {
    if |ts| > 0 {
      var pre := ts[..|ts| - 1];
      var last := ts[|ts| - 1];
      UpsertAllInvariants(st, pre, exchange, now);
      var mid := UpsertAll(st, pre, exchange, now);
      UpsertStep(mid, last, exchange, now);
      UpsertKeepsKeys(mid, last, exchange, now);
      LastOrPrefix(ts);
    }
  }

  /** A key found before an upsert is still found after it. */
  lemma UpsertKeepsKeys(st: TableState, t: ExchangeTrade, exchange: string, now: int)
    requires ValidTable(st)
    ensures forall o, e :: KeyPresent(st.rows, o, e) ==> KeyPresent(Upsert(st, t, exchange, now).rows, o, e)
  {
    var st' := Upsert(st, t, exchange, now);
    UpsertStep(st, t, exchange, now);
    forall o, e | KeyPresent(st.rows, o, e) ensures KeyPresent(st'.rows, o, e) {
      var id :| id in st.rows && HasKey(st.rows[id], o, e);
      assert HasKey(st'.rows[id], o, e);
    }
  }

  lemma LastOrPrefix(ts: seq<ExchangeTrade>)
    requires |ts| > 0
    ensures forall t :: t in ts ==> t == ts[|ts| - 1] || t in ts[..|ts| - 1]
  {
    forall t | t in ts ensures t == ts[|ts| - 1] || t in ts[..|ts| - 1] {
      var k :| 0 <= k < |ts| && ts[k] == t;
      if k < |ts| - 1 {
        assert ts[..|ts| - 1][k] == t;
      }
    }
  }

  /** A run whose fills are all already in the journal adds no row and uses no id. */
  lemma {:induction false} KnownKeysAddNoRows(st: TableState, ts: seq<ExchangeTrade>, exchange: string, now: int)
    requires ValidTable(st)
    requires forall t :: t in ts ==> KeyPresent(st.rows, t.orderId, exchange)
    ensures UpsertAll(st, ts, exchange, now).rows.Keys == st.rows.Keys
    ensures UpsertAll(st, ts, exchange, now).nextId == st.nextId
  {
    if |ts| > 0 {
      var pre := ts[..|ts| - 1];
      assert forall t :: t in pre ==> t in ts;
      KnownKeysAddNoRows(st, pre, exchange, now);
      UpsertAllInvariants(st, pre, exchange, now);
      UpsertStep(UpsertAll(st, pre, exchange, now), ts[|ts| - 1], exchange, now);
    }
  }

  /** Re-syncing the same fills never adds a second row for a key: the second run adds
      no row at all, and keys stay unique. */
  lemma ResyncAddsNoRows(st: TableState, ts: seq<ExchangeTrade>, exchange: string, now: int, later: int)
    requires ValidTable(st) && UniqueKeys(st.rows)
    ensures var once := UpsertAll(st, ts, exchange, now);
            var twice := UpsertAll(once, ts, exchange, later);
      && twice.rows.Keys == once.rows.Keys && twice.nextId == once.nextId
      && UniqueKeys(twice.rows)
  {
    UpsertAllInvariants(st, ts, exchange, now);
    var once := UpsertAll(st, ts, exchange, now);
    KnownKeysAddNoRows(once, ts, exchange, later);
    UpsertAllInvariants(once, ts, exchange, later);
  }

  // ---------------------------------------------------------------------------
  // A run, as a function of its inputs

  /** What a run will do once its history record exists: the exchange it records, the
      fills it writes, and the failure message if it fails. */
  datatype RunPlan = RunPlan(exchange: string, written: seq<ExchangeTrade>, failure: Option<string>)

  function Plan(apiKeys: map<string, ApiKey>, options: SyncOptions, now: int, faults: Faults): RunPlan
  {
    if options.apiKeyId !in apiKeys then RunPlan("", [], Some(NoRowsMessage))
    else PlanWithKey(apiKeys[options.apiKeyId], options, now, faults.writeFailure)
  }

  /** A run once its API key row is found. */
  function PlanWithKey(key: ApiKey, options: SyncOptions, now: int, writeFailure: Option<(nat, string)>): RunPlan
  {
    var client := CreateExchangeClient(key.exchange, key.apiKey, key.apiSecret);
    if client.Err? then RunPlan(key.exchange, [], Some(client.error))
    else PlanWithFills(key.exchange, FetchTrades(client.value, FetchOptions(options), now), writeFailure)
  }

  /** The options the run hands the adapter: the run's window and symbols, no limit. */
  function FetchOptions(options: SyncOptions): FetchTradesOptions
  {
    FetchTradesOptions(options.startDate, options.endDate, options.symbols, None)
  }

  /** A run once the fills are fetched: it writes them in order up to the failing one. */
  function PlanWithFills(exchange: string, fetched: seq<ExchangeTrade>, writeFailure: Option<(nat, string)>): RunPlan
  {
    if writeFailure.Some? && writeFailure.value.0 < |fetched| then
      RunPlan(exchange, fetched[..writeFailure.value.0], Some(writeFailure.value.1))
    else RunPlan(exchange, fetched, None)
  }

  /** The history record a run leaves behind. */
  function FinalRecord(options: SyncOptions, plan: RunPlan, now: int): SyncRecord
  {
    if plan.failure.None? then
      SyncRecord(options.apiKeyId, plan.exchange, Completed, Some(|plan.written|), None, now, Some(now))
    else
      SyncRecord(options.apiKeyId, plan.exchange, Failed, None, plan.failure, now, Some(now))
  }

  /** The status a record may move to from the one it has: only out of `in_progress`. */
  predicate StatusStep(from: SyncStatus, to: SyncStatus)
  {
    from == InProgress && to != InProgress
  }

  /** A run that fails after its record exists reports 0 imported, records the error,
      and keeps the rows written before the failure; a completed run reports every
      fetched fill, updated or inserted alike. */
  lemma RunOutcome(apiKeys: map<string, ApiKey>, options: SyncOptions, now: int, faults: Faults)
    ensures var plan := Plan(apiKeys, options, now, faults);
            var rec := FinalRecord(options, plan, now);
      && StatusStep(InProgress, rec.status)
      && (rec.status == Failed <==> plan.failure.Some?)
      && (rec.status == Failed ==> rec.errorMessage == plan.failure && rec.tradesSynced.None?)
      && (rec.status == Completed ==> rec.tradesSynced == Some(|plan.written|))
      && ((options.apiKeyId in apiKeys && faults.writeFailure.None? &&
           ToLower(apiKeys[options.apiKeyId].exchange) in SupportedExchanges) ==> rec.status == Completed)
      && (options.apiKeyId !in apiKeys ==> plan.written == [] && rec.errorMessage == Some(NoRowsMessage))
  {
  }

  // ---------------------------------------------------------------------------
  // The service

  /** Writing a key twice leaves only the second value. */
  lemma OverwriteTwice<K, V>(m: map<K, V>, k: K, a: V, b: V)
    ensures m[k := a][k := b] == m[k := b]
  {
  }

  class SyncService {
    const trades: TradeTable
    var history: map<nat, SyncRecord>
    var nextSyncId: nat
    var apiKeys: map<string, ApiKey>

    ghost predicate Valid()
      reads this, trades
    {
      trades.Valid() && forall id :: id in history ==> id < nextSyncId
    }

    constructor (trades: TradeTable, apiKeys: map<string, ApiKey>)
      requires trades.Valid()
      ensures Valid() && this.trades == trades && this.apiKeys == apiKeys
      ensures history == map[] && nextSyncId == 0
    {
      this.trades := trades;
      this.apiKeys := apiKeys;
      history := map[];
      nextSyncId := 0;
    }

    /** Moves a run's record out of `in_progress`, and only out of it. */
    method FinishRun(syncId: nat, rec: SyncRecord)
      requires Valid() && syncId in history && StatusStep(history[syncId].status, rec.status)
      modifies this
      ensures Valid() && nextSyncId == old(nextSyncId) && apiKeys == old(apiKeys)
      ensures history == old(history)[syncId := rec]
    {
      history := history[syncId := rec];
    }

    /** `syncTradesFromExchange`. If the opening insert fails the error is rethrown and
        nothing is written. Otherwise the run's record is created `in_progress`, the
        fills are upserted one by one, and the record ends `completed` with the number of
        fills, or `failed` with the error, keeping whatever rows were written before it. */
    method SyncTradesFromExchange(options: SyncOptions, now: int, faults: Faults)
      returns (r: Result<SyncResult, string>)
      requires Valid()
      modifies this, trades
      ensures Valid() && apiKeys == old(apiKeys)
      ensures faults.startFailure.Some? ==>
        r == Err(faults.startFailure.value) && history == old(history) && nextSyncId == old(nextSyncId)
        && trades.rows == old(trades.rows) && trades.nextId == old(trades.nextId)
      ensures faults.startFailure.None? ==>
        var plan := Plan(old(apiKeys), options, now, faults);
        var rec := FinalRecord(options, plan, now);
        && r.Ok? && r.value.syncId == old(nextSyncId) && nextSyncId == old(nextSyncId) + 1
        && history == old(history)[r.value.syncId := rec]
        && r.value == SyncResult(r.value.syncId, if rec.status == Completed then |plan.written| else 0,
                                 rec.status, rec.errorMessage)
        && TableState(trades.rows, trades.nextId)
           == UpsertAll(TableState(old(trades.rows), old(trades.nextId)), plan.written, plan.exchange, now)
    {
      if faults.startFailure.Some? {
        return Err(faults.startFailure.value);
      }
      var res := OpenRun(options, now, faults);
      r := Ok(res);
    }

    /** Step 1 and the rest of a run whose opening insert succeeds: the record is created
        `in_progress` under the next sync id, then the run goes on from it. */
    method OpenRun(options: SyncOptions, now: int, faults: Faults) returns (res: SyncResult)
      requires Valid()
      modifies this, trades
      ensures Valid() && apiKeys == old(apiKeys)
      ensures var plan := Plan(old(apiKeys), options, now, faults);
        var rec := FinalRecord(options, plan, now);
        && res.syncId == old(nextSyncId) && nextSyncId == old(nextSyncId) + 1
        && history == old(history)[res.syncId := rec]
        && res == SyncResult(res.syncId, if rec.status == Completed then |plan.written| else 0,
                             rec.status, rec.errorMessage)
        && TableState(trades.rows, trades.nextId)
           == UpsertAll(TableState(old(trades.rows), old(trades.nextId)), plan.written, plan.exchange, now)
    {
      var syncId := nextSyncId;
      ghost var before := history;
      var opening := SyncRecord(options.apiKeyId, "", InProgress, None, None, now, None);
      history := history[syncId := opening];
      nextSyncId := nextSyncId + 1;
      res := RunRecorded(syncId, options, now, faults);
      OverwriteTwice(before, syncId, opening, FinalRecord(options, Plan(apiKeys, options, now, faults), now));
    }

    /** Steps 2 to 7 of a run, once its record `syncId` exists `in_progress`. */
    method RunRecorded(syncId: nat, options: SyncOptions, now: int, faults: Faults)
      returns (res: SyncResult)
      requires Valid() && syncId in history && history[syncId].status == InProgress
      modifies this, trades
      ensures Valid() && apiKeys == old(apiKeys) && nextSyncId == old(nextSyncId)
      ensures var plan := Plan(old(apiKeys), options, now, faults);
        var rec := FinalRecord(options, plan, now);
        && history == old(history)[syncId := rec]
        && res == SyncResult(syncId, if rec.status == Completed then |plan.written| else 0,
                             rec.status, rec.errorMessage)
        && TableState(trades.rows, trades.nextId)
           == UpsertAll(TableState(old(trades.rows), old(trades.nextId)), plan.written, plan.exchange, now)
    {
      // 2. the API key
      if options.apiKeyId !in apiKeys {
        assert Plan(apiKeys, options, now, faults) == RunPlan("", [], Some(NoRowsMessage));
        assert UpsertAll(TableState(trades.rows, trades.nextId), [], "", now) == TableState(trades.rows, trades.nextId);
        FinishRun(syncId, SyncRecord(options.apiKeyId, "", Failed, None, Some(NoRowsMessage), now, Some(now)));
        return SyncResult(syncId, 0, Failed, Some(NoRowsMessage));
      }
      var key := apiKeys[options.apiKeyId];
      assert Plan(apiKeys, options, now, faults) == PlanWithKey(key, options, now, faults.writeFailure);
      // 3. the exchange of the record
      ghost var before := history;
      var named := history[syncId].(exchange := key.exchange);
      history := history[syncId := named];
      res := RunWithKey(syncId, key, options, now, faults.writeFailure);
      OverwriteTwice(before, syncId, named, FinalRecord(options, PlanWithKey(key, options, now, faults.writeFailure), now));
    }

    /** Steps 4 to 7: the client, the fills, the upserts and the final record. */
    method RunWithKey(syncId: nat, key: ApiKey, options: SyncOptions, now: int, writeFailure: Option<(nat, string)>)
      returns (res: SyncResult)
      requires Valid() && syncId in history && history[syncId].status == InProgress
      modifies this, trades
      ensures Valid() && apiKeys == old(apiKeys) && nextSyncId == old(nextSyncId)
      ensures var plan := PlanWithKey(key, options, now, writeFailure);
        var rec := FinalRecord(options, plan, now);
        && history == old(history)[syncId := rec]
        && res == SyncResult(syncId, if rec.status == Completed then |plan.written| else 0,
                             rec.status, rec.errorMessage)
        && TableState(trades.rows, trades.nextId)
           == UpsertAll(TableState(old(trades.rows), old(trades.nextId)), plan.written, plan.exchange, now)
    {
      // 4. the client
      var client := CreateExchangeClient(key.exchange, key.apiKey, key.apiSecret);
      if client.Err? {
        FinishRun(syncId, SyncRecord(options.apiKeyId, key.exchange, Failed, None, Some(client.error), now, Some(now)));
        return SyncResult(syncId, 0, Failed, Some(client.error));
      }
      // 5. the fills
      var fetched := FetchTrades(client.value, FetchOptions(options), now);
      // 6. the upserts
      var importedCount, failure := ImportTrades(fetched, key.exchange, now, writeFailure);
      ghost var plan := PlanWithFills(key.exchange, fetched, writeFailure);
      assert plan.failure == failure && plan.written == fetched[..importedCount] by {
        if failure.None? {
          assert fetched[..|fetched|] == fetched;
        }
      }
      if failure.Some? {
        FinishRun(syncId, SyncRecord(options.apiKeyId, key.exchange, Failed, None, failure, now, Some(now)));
        return SyncResult(syncId, 0, Failed, failure);
      }
      // 7. completed
      FinishRun(syncId, SyncRecord(options.apiKeyId, key.exchange, Completed, Some(importedCount), None, now, Some(now)));
      res := SyncResult(syncId, importedCount, Completed, None);
    }

    /** The loop of step 6: upserts the fills in order, counting each, and stops at the
        write the database rejects, keeping the rows written before it. */
    method ImportTrades(fetched: seq<ExchangeTrade>, exchange: string, now: int, writeFailure: Option<(nat, string)>)
      returns (importedCount: nat, failure: Option<string>)
      requires trades.Valid()
      modifies trades
      ensures trades.Valid()
      ensures var k := if writeFailure.Some? && writeFailure.value.0 < |fetched| then writeFailure.value.0 else |fetched|;
        && failure == (if k < |fetched| then Some(writeFailure.value.1) else None)
        && importedCount == k
        && TableState(trades.rows, trades.nextId)
           == UpsertAll(TableState(old(trades.rows), old(trades.nextId)), fetched[..k], exchange, now)
    {
      ghost var start := TableState(trades.rows, trades.nextId);
      importedCount := 0;
      for i := 0 to |fetched|
        invariant trades.Valid()
        invariant importedCount == i
        invariant TableState(trades.rows, trades.nextId) == UpsertAll(start, fetched[..i], exchange, now)
        invariant writeFailure.Some? ==> writeFailure.value.0 >= i
      {
        if writeFailure.Some? && writeFailure.value.0 == i {
          return i, Some(writeFailure.value.1);
        }
        var t := fetched[i];
        ghost var before := TableState(trades.rows, trades.nextId);
        assert fetched[..i + 1][..i] == fetched[..i];
        var existing := IdsWithKey(trades.rows, trades.nextId, t.orderId, exchange);
        if |existing| > 0 {
          var _ := trades.UpdateTrade(existing[0], UpdatePatch(t, exchange, now));
        } else {
          var _, _ := trades.CreateTrade(InsertInput(t, exchange, now));
        }
        assert TableState(trades.rows, trades.nextId) == Upsert(before, t, exchange, now);
        importedCount := importedCount + 1;
      }
      assert fetched[..|fetched|] == fetched;
      failure := None;
    }

    /** `getLatestSyncStatus`: the record started last, or nothing (not an error) when
        the history is empty. */
    method GetLatestSyncStatus() returns (r: Option<SyncRecord>)
      requires Valid()
      ensures r.None? <==> history == map[]
      ensures r.Some? ==> r.value in history.Values &&
                          forall id :: id in history ==> history[id].syncStartTime <= r.value.syncStartTime
    {
      r := None;
      for id := 0 to nextSyncId
        invariant r.None? <==> forall j :: j in history ==> j >= id
        invariant r.Some? ==> r.value in history.Values &&
                              forall j :: j in history && j < id ==> history[j].syncStartTime <= r.value.syncStartTime
      {
        if id in history && (r.None? || r.value.syncStartTime < history[id].syncStartTime) {
          r := Some(history[id]);
        }
      }
    }
  }
}
