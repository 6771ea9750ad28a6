# Trade Flow: a verified model of the journal's rules

Trade Flow is a trading journal. Users record trades by hand or import them from a
crypto exchange. They then see them in a table, a calendar and a performance chart.
Most of the application is presentation and thin calls to a hosted database. Inside
that glue sit the rules this project models and proves:

- **Trade record service** (`trades.dfy`, module `Trades`):
  - the P&L rule: buy `(exit − entry)·amount`, anything else the reverse, minus a truthy fee;
  - when `createTrade` and `updateTrade` recompute P&L, and how an update merges with the stored row;
  - the `user_trades` table as a class holding a `map` from id to row;
  - its paged, date-ranged reads, the P&L total, the win/loss counts and the day-by-day series.
- **Exchange sync** (`trade_sync.dfy`, module `TradeSync`):
  - a run records itself `in_progress`;
  - it upserts every fetched fill under the key (exchange order id, exchange);
  - it ends `completed` or `failed`.
  - The table effect of a run is the fold `UpsertAll`. Lemmas prove key uniqueness, "a re-sync adds no row" and the run's outcome about it.
- **Exchange dispatch** (`exchange_client.dfy`): the case-insensitive factory and the placeholder adapters.
- **Client cache** (`client_cache.dfy`): the one-entry token → database-client memo.
- **Calendar** (`trade_calendar.dfy`):
  - the month grid and the ISO 8601 `YYYY-MM-DD` day keys;
  - per-day and per-month statistics, with the month loop proved against a recursive definition;
  - cell colouring and month stepping.
- **Journal page, form and chart** (`journal_page.dfy`, `journal_form.dfy`, `performance_chart.dfy`):
  - statistics and prepend-insert;
  - form validation and the form's P&L;
  - the cumulative P&L series.
- **Small UI rules**:
  - key masking, labels and secret visibility (`api_key_settings.dfy`);
  - the filter dialog (`filter_dialog.dfy`);
  - the sync dialog (`sync_dialog.dfy`);
  - pagination (`pagination.dfy`), whose page sizes are the constant `RowsPerPageOptions` = 5, 10, 25, 50.

`common.dfy` holds the shared vocabulary:

- `Option` and `Result`;
- JavaScript truthiness of optional numbers and texts;
- left-to-right sums and filters;
- ASCII lower-casing;
- decimal text of naturals with its parser.

How values are represented:

- Numbers are reals.
- Service dates are day indices.
- Calendar and journal dates are the text the pages hold.
- The database, the clock and the exchanges' answers are parameters:
  - `now` and `today` stand for the clock;
  - `Faults` describes the database errors a sync run meets.

Where the code does something other than what its own comments and names suggest, the
model follows the code:

- **Missing amount with a fee.**
  - `calculatePnl` returns 0 when amount, entry or exit price is falsy (src/services/supabase/userTrades.ts:251-253).
  - `updateTrade`'s comment says it recomputes only when the required fields are present "either from the update or the current trade". The guard does test exactly that.
  - But the merged values take the update's number whenever the update defines one, even a 0.
  - So an update with amount 0 on a complete row stores minus the fee, where 0 would be expected (`Trades.ZeroAmountUpdateKeepsOnlyFee`).
- **Not every failure fails the run.**
  - The inner `catch` of `syncTradesFromExchange` marks the run's record `failed` (src/services/supabase/tradeSyncService.ts:123-140).
  - A failing opening insert is rethrown by the outer `catch` before any record exists (`SyncTradesFromExchange`). The sync dialog's `onError` then shows it (`SyncDialog.SyncDialogState.OnSyncError`).
  - The error of the per-fill key lookup is never read (see "Left out").
- **The winning and losing counts overlap.**
  - `getTradesWinningCount` filters `pnl >= 0`, and `getTradesLosingCount` filters `pnl <= 0`.
  - So a break-even row counts as both a win and a loss (`Trades.WinLossOverlap`).
  - The journal page's own statistics use strict comparisons.
- **The API-key mask shows five characters on each side.** The comment beside it says four.

## Model

| member | source | states |
|---|---|---|
| Common.ToLower | src/lib/exchanges/exchangeClient.ts:30 | `toLowerCase` on ASCII: same length, each letter A–Z mapped to a–z, all else kept |
| Common.ToLowerIdempotent | src/lib/exchanges/exchangeClient.ts:30 | lower-casing twice equals lower-casing once, so an already lower-cased name selects the same adapter |
| Common.ParseNatToString | src/components/trade-journal/TradeCalendar.tsx:103 | reading back the decimal text `String(n)` gives `n` (the day key's number parts are recoverable) |
| Common.Pad2RoundTrip | src/components/trade-journal/TradeCalendar.tsx:103 | `padStart(2, '0')` of a number below 100 has two digits and reads back as the number |
| Common.ToLowerNoCapitals | src/lib/exchanges/exchangeClient.ts:30 | a name without capital letters is its own lower-case form |
| Common.FilterNoDups | src/components/trade-journal/TradeSyncDialog.tsx:244 | filtering a repeat-free list keeps it repeat-free |
| Trades.CalculatePnlMatchesReference | src/services/supabase/userTrades.ts:249-261 | with amount, entry and exit all truthy the P&L is (exit − entry)·amount·direction; with any of them missing or zero it is 0 |
| Trades.CalculatePnl | src/services/supabase/userTrades.ts:249-261 | 0 when amount, entry or exit is falsy; with a positive amount, positive exactly when a buy's exit is above its entry or another type's exit is below; 0 when entry equals exit |
| Trades.SellIsNegatedBuy | src/services/supabase/userTrades.ts:255-259 | any type other than "buy" gives exactly the negated buy P&L |
| Trades.Created | src/services/supabase/userTrades.ts:80-98 | every column but pnl is inserted unchanged; a non-zero pnl is kept; missing details mean no computation; otherwise a zero pnl becomes the intended P&L rule (`ReferencePnl`) minus a truthy fee |
| Trades.PreparedPatch | src/services/supabase/userTrades.ts:106-138 | the update object differs from the caller's only in pnl, and only when pnl is falsy, some P&L input is defined, and amount/entry/exit are each truthy in the update or the row |
| Trades.UpdatedRow | src/services/supabase/userTrades.ts:106-151 | a truthy explicit pnl wins; a recomputed pnl is the intended P&L rule (`ReferencePnl`) of the merged values (type if truthy, numbers if defined, else the row's); every column the update leaves out (symbol, type, notes, synchronization flag and time among them) keeps its value |
| Trades.ZeroAmountUpdateKeepsOnlyFee | src/services/supabase/userTrades.ts:113-136 | an update with amount 0 on a complete row passes the guard and stores minus the fee |
| Trades.Listing | src/services/supabase/userTrades.ts:51-62 | the rows in the optional date bounds, exactly those, each once, newest date first |
| Trades.Page | src/services/supabase/userTrades.ts:60-62 | `range(offset, offset + limit − 1)`: at most `limit` rows, the listing's rows from `offset` on, none past the end |
| Trades.FirstPnlOnPicksFirst | src/services/supabase/userTrades.ts:237 | a day's series value is the pnl of the first row of that day in the listing, or 0 when there is none; never a sum |
| Trades.TradeTable.GetTradeById | src/services/supabase/userTrades.ts:68-78 | the stored row, or a not-found error exactly when the id has no row |
| Trades.TradeTable.CreateTrade | src/services/supabase/userTrades.ts:80-104 | the row `Created(t)` is stored under a fresh id; nothing else changes |
| Trades.TradeTable.UpdateTrade | src/services/supabase/userTrades.ts:106-152 | a missing id is an error and changes nothing; otherwise the row becomes `Updated(row, patch)` and no other row changes |
| Trades.TradeTable.DeleteTrade | src/services/supabase/userTrades.ts:154-162 | removes the row with the id, if any, and nothing else |
| Trades.TradeTable.GetTrades | src/services/supabase/userTrades.ts:51-66 | at most `limit` rows, newest first, each a stored row within the bounds, equal to the page of the listing at `offset` |
| Trades.TradeTable.GetTradesByDateRange | src/services/supabase/userTrades.ts:164-171 | the first ten rows of the range's listing |
| Trades.TradeTable.GetTradesCount | src/services/supabase/userTrades.ts:173-185 | the number of rows within the bounds |
| Trades.TradeTable.GetTradesPnl | src/services/supabase/userTrades.ts:211-218 | as written: the pnl summed over the first page of ten rows of the range |
| Trades.TradeTable.GetRangePnl | src/services/supabase/userTrades.ts:211-218 | corrected: the pnl summed over every row of the range |
| Trades.FirstPagePnl | src/services/supabase/userTrades.ts:211-218 | the first-page total equals the range total when the range has at most ten rows, falls short by the rows from the eleventh on otherwise, and is strictly smaller when those rows gain |
| Trades.EleventhRowLeftOut | src/services/supabase/userTrades.ts:211-218 | eleven rows of pnl 1: the first page totals 10, the range 11 |
| Trades.TradeTable.GetDailyPerformance | src/services/supabase/userTrades.ts:220-245 | one entry per day from start to end inclusive, oldest first (eight with the defaults end = today, start = end − 7), each the first matching row's pnl or 0 |
| Trades.DaySeries | src/services/supabase/userTrades.ts:235-244 | the day loop: one entry per day from start to end inclusive, none when start is after end, each the first listed row's pnl on that day or 0 |
| Trades.TradeTable.WinningCount | src/services/supabase/userTrades.ts:187-197 | at most the rows of the range; 0 exactly when every row of the range has negative pnl |
| Trades.TradeTable.LosingCount | src/services/supabase/userTrades.ts:199-209 | at most the rows of the range; 0 exactly when every row of the range has positive pnl |
| Trades.WinLossOverlap | src/services/supabase/userTrades.ts:187-209 | winning (pnl ≥ 0) plus losing (pnl ≤ 0) counts equal the row count plus the break-even rows, which are counted twice |
| ExchangeClient.CreateExchangeClient | src/lib/exchanges/exchangeClient.ts:25-40 | a client exactly for binance, bybit and kucoin in any ASCII case, carrying the given credentials; otherwise the error "Unsupported exchange: " followed by the name as given |
| ExchangeClient.CreateExchangeClientIgnoresCase | src/lib/exchanges/exchangeClient.ts:30 | names equal up to case give the same outcome |
| ExchangeClient.OfferedButUnsupported | src/lib/exchanges/exchangeClient.ts:37-38 | of the exchanges the settings page offers (binance, bybit, okx), only okx is rejected, with "Unsupported exchange: okx" |
| ExchangeClient.FetchTradesStubs | src/lib/exchanges/exchangeClient.ts:76-119 | Bybit and KuCoin return nothing; Binance returns two fills with distinct order ids, a buy then a sell, positive price and amount, stamped before now; options are ignored |
| TradeSync.MapExchangeTradeToTradeInput | src/services/supabase/tradeSyncService.ts:192-203 | type is the side lower-cased, both prices are the fill price, pnl the realized P&L when truthy and 0 otherwise, the date the UTC day of the timestamp, the note names the exchange |
| TradeSync.InsertedPnl | src/services/supabase/tradeSyncService.ts:95-103 | a fill inserted for the first time keeps its realized P&L (or 0) and is marked synchronized |
| TradeSync.ReimportedRow | src/services/supabase/tradeSyncService.ts:88-94 | re-importing stores a truthy realized P&L, otherwise 0 or minus the row's fee; the key columns and fee are untouched; the row is marked synchronized |
| TradeSync.IdsWithKey | src/services/supabase/tradeSyncService.ts:82-86 | the lookup returns exactly the ids of rows carrying the key, in id order |
| TradeSync.WrittenIdIsSmallest | src/services/supabase/tradeSyncService.ts:82-94 | when rows carry the fill's key, the row the upsert writes is the matching row with the smallest id |
| TradeSync.Upsert | src/services/supabase/tradeSyncService.ts:78-106 | one step of the loop: the row it writes (the first with the key, else the next id) is in the table afterwards, and the id counter grows by at most one |
| TradeSync.UpsertAll | src/services/supabase/tradeSyncService.ts:78-106 | the loop uses at most one new id per fill |
| TradeSync.UpsertWrites | src/services/supabase/tradeSyncService.ts:80-106 | a known key's first row takes the fill's update and no id is used; an unknown key gets the created row under the next id; every other row is kept |
| TradeSync.UpsertStep | src/services/supabase/tradeSyncService.ts:80-106 | one upsert leaves the key present, keeps keys unique, adds a row exactly when the key was absent, never changes a row's key, and marks every row it writes synchronized |
| TradeSync.UpsertKeepsKeys | src/services/supabase/tradeSyncService.ts:80-106 | a key found before an upsert is still found after it |
| TradeSync.UpsertAllInvariants | src/services/supabase/tradeSyncService.ts:80-106 | the loop keeps the table valid and its keys unique, keeps every key, leaves every fetched key present, and marks every written row synchronized |
| TradeSync.KnownKeysAddNoRows | src/services/supabase/tradeSyncService.ts:80-106 | fills whose keys are all present add no row and use no id |
| TradeSync.ResyncAddsNoRows | src/services/supabase/tradeSyncService.ts:80-106 | syncing the same fills a second time adds no row, and keys stay unique |
| TradeSync.RunOutcome | src/services/supabase/tradeSyncService.ts:108-140 | status only leaves in_progress; failed iff an error occurred, with its message and no count; completed records the number of fills; an unknown key id fails with the database's no-rows message |
| TradeSync.SyncService.FinishRun | src/services/supabase/tradeSyncService.ts:108-133 | rewrites only this run's record, and only from in_progress |
| TradeSync.SyncService.SyncTradesFromExchange | src/services/supabase/tradeSyncService.ts:39-146 | a failing opening insert rethrows with nothing written; otherwise one new record, the final record and result of the plan, and the table equal to the fold of upserts over the fills written |
| TradeSync.SyncService.OpenRun | src/services/supabase/tradeSyncService.ts:39-141 | once the opening insert succeeds: a new in_progress record under the next sync id, then the final record, result and table of the plan |
| TradeSync.SyncService.RunRecorded | src/services/supabase/tradeSyncService.ts:54-141 | steps 2–7 of a run: the record, result and table the plan gives |
| TradeSync.SyncService.RunWithKey | src/services/supabase/tradeSyncService.ts:64-141 | steps 4–7 once the key row is known: the same, for the key's plan |
| TradeSync.SyncService.ImportTrades | src/services/supabase/tradeSyncService.ts:78-106 | counts every fill written, update or insert alike, stops at the failing write, and leaves the table equal to the fold of upserts over the fills before it |
| TradeSync.SyncService.GetLatestSyncStatus | src/services/supabase/tradeSyncService.ts:172-190 | nothing (not an error) exactly when there is no record; otherwise a record with the latest start time |
| ClientCache.AuthorizationHeader | src/lib/supabase.ts:21-31 | the header is "Bearer " followed by the token |
| ClientCache.AuthorizationHeaderInjective | src/lib/supabase.ts:24 | two clients send the same header exactly when created with the same token |
| ClientCache.TokenCache.CreateClerkSupabaseClient | src/lib/supabase.ts:10-38 | same token with a cached client: that client, nothing created; otherwise a fresh client for the token; afterwards the last token is the argument and the cache holds the result |
| TradeCalendar.DaysInMonth | src/components/trade-journal/TradeCalendar.tsx:75 | the Gregorian month length, 28 to 31, 29 exactly for February of a leap year, a year 0 to 99 being read as 1900 to 1999 as the date constructor does |
| TradeCalendar.YearLength | src/components/trade-journal/TradeCalendar.tsx:75 | the twelve month lengths add up to 365, or 366 in a leap year (years 0 to 99 read as 19xx) |
| TradeCalendar.CalendarDays | src/components/trade-journal/TradeCalendar.tsx:117-119 | `first` empty cells then days 1..n: length first + n, day d at index first + d − 1 |
| TradeCalendar.CalendarDaysCells | src/components/trade-journal/TradeCalendar.tsx:117-119 | a cell is empty exactly before the first day, and no day appears twice |
| TradeCalendar.YearTextInjective | src/components/trade-journal/TradeCalendar.tsx:103 | different years have different texts |
| TradeCalendar.YearTextSign | src/components/trade-journal/TradeCalendar.tsx:103 | a year's text starts with a digit exactly when the year is not negative, and a negative year's text is a minus sign before its magnitude |
| TradeCalendar.DayKeyShape | src/components/trade-journal/TradeCalendar.tsx:103 | a key is the year, a dash, the two-digit 1-based month, a dash, the two-digit day |
| TradeCalendar.DayKeyInjective | src/components/trade-journal/TradeCalendar.tsx:103 | distinct days have distinct keys |
| TradeCalendar.SameDayKey | src/components/trade-journal/TradeCalendar.tsx:94-104 | two days of real months have the same key exactly when they are the same day |
| TradeCalendar.OnOneDayOnly | src/components/trade-journal/TradeCalendar.tsx:103-104 | no date starts with the keys of two different days of one month |
| TradeCalendar.GetDayStats | src/components/trade-journal/TradeCalendar.tsx:102-114 | the count and the P&L sum of the trades whose date starts with the day's key; active iff such a trade exists; an inactive day has P&L 0 |
| TradeCalendar.ComputeMonthStats | src/components/trade-journal/TradeCalendar.tsx:121-141 | the month loop computes the statistics of days 1 to daysInMonth |
| TradeCalendar.AddDay | src/components/trade-journal/TradeCalendar.tsx:131-140 | a day with trades adds its P&L and count, and one profit day if its P&L is positive or one loss day if negative; a day without trades changes nothing |
| TradeCalendar.DayCounts | src/components/trade-journal/TradeCalendar.tsx:129-141 | profit days plus loss days ≤ active days ≤ days in the month |
| TradeCalendar.MonthTotals | src/components/trade-journal/TradeCalendar.tsx:129-141 | the month's trade count and P&L are those of the trades dated in the month, each counted once, so the count never exceeds the number of trades |
| TradeCalendar.CellTone | src/components/trade-journal/TradeCalendar.tsx:203-208 | an active cell is profit-coloured iff its P&L is positive and loss-coloured otherwise; an inactive one is highlighted iff it is today |
| TradeCalendar.ZeroDayIsRedButUncounted | src/components/trade-journal/TradeCalendar.tsx:130-141 | an active zero-P&L day is loss-coloured but adds to neither the profit nor the loss days |
| TradeCalendar.PrevMonthOf | src/components/trade-journal/TradeCalendar.tsx:84-86 | the month before, wrapping January to December of the previous year; a year 0 to 99 is first read as 19xx; for other years the month count drops by exactly one |
| TradeCalendar.NextMonthOf | src/components/trade-journal/TradeCalendar.tsx:89-91 | the month after, wrapping December to January of the next year; a year 0 to 99 is first read as 19xx; for other years the month count grows by exactly one |
| TradeCalendar.MonthStepsInverse | src/components/trade-journal/TradeCalendar.tsx:84-91 | previous and next undo each other whenever neither year involved is in 0 to 99 |
| TradeCalendar.TwoDigitYears | src/components/trade-journal/TradeCalendar.tsx:75-91 | years 0 to 99 are read as 19xx: February of year 0 has 28 days, December of 99 steps back to November 1999, January of 100 steps back to December 99 and December of 99 forward to January 2000 |
| TradeCalendar.CalendarView.PrevMonth | src/components/trade-journal/TradeCalendar.tsx:84-86 | the shown date becomes day 1 of the previous month |
| TradeCalendar.CalendarView.NextMonth | src/components/trade-journal/TradeCalendar.tsx:89-91 | the shown date becomes day 1 of the next month |
| TradeCalendar.CalendarView.IsToday | src/components/trade-journal/TradeCalendar.tsx:94-99 | a day is today only if its key is today's key, and for days of real months exactly when the keys are equal |
| JournalPage.HandleAddTrade | src/app/dashboard/trade-journal/page.tsx:121-127 | the new trade first with id = old length + 1, then the old list unchanged; the form is closed |
| JournalPage.AddTradeKeepsIds | src/app/dashboard/trade-journal/page.tsx:121-126 | ids that are distinct and within 1..n stay so after an add |
| JournalPage.WinRate | src/app/dashboard/trade-journal/page.tsx:133 | within [0, 100]; 0 iff no winner; 100 iff every trade wins |
| JournalPage.WinsAndLossesBounded | src/app/dashboard/trade-journal/page.tsx:130-132 | winners plus losers plus break-even trades is the total, so winners plus losers ≤ total |
| JournalPage.AddTradeStats | src/app/dashboard/trade-journal/page.tsx:121-134 | adding a trade adds one to the total, its P&L to the total P&L, and one to winners or losers by its sign |
| JournalForm.NumberError | src/components/trade-journal/TradeJournalForm.tsx:141-145 | a number field passes iff present and > 0; an empty one reports its required message |
| JournalForm.TextError | src/components/trade-journal/TradeJournalForm.tsx:92 | a required text field passes iff non-empty |
| JournalForm.Validate | src/components/trade-journal/TradeJournalForm.tsx:92-181 | no error iff date and symbol are non-empty and amount, entry and exit are present and positive |
| JournalForm.FormPnlSign | src/components/trade-journal/TradeJournalForm.tsx:53-58 | with a positive amount, a buy gains iff exit > entry, any other type iff exit < entry; equal prices give 0 |
| JournalForm.FormPnlMatchesService | src/components/trade-journal/TradeJournalForm.tsx:53-58 | on valid input the form's P&L equals the service's `calculatePnl`, an unset type counting as a sell |
| JournalForm.HandleFormSubmit | src/components/trade-journal/TradeJournalForm.tsx:47-69 | submits iff valid: the entered fields plus the computed P&L with no fee, then a reset form; otherwise the errors and the fields kept |
| JournalForm.HandleClose | src/components/trade-journal/TradeJournalForm.tsx:71-74 | the fields become the empty form whatever they held, and the form closes (the page's `onClose` at src/app/dashboard/trade-journal/page.tsx:207) |
| PerformanceChart.RunningTotalSteps | src/components/dashboard/TradePerformanceChart.tsx:20-24 | the running total starts at the first P&L and grows by each later P&L |
| PerformanceChart.GetCumulativeData | src/components/dashboard/TradePerformanceChart.tsx:19-28 | same length; each point keeps date and P&L and carries the sum of P&L up to and including it |
| ApiKeySettings.MaskApiKey | src/components/settings/ApiKeySettings.tsx:94-97 | ten bullets for keys of length ≤ 10; otherwise first five characters, five bullets, last five (15 in all) |
| ApiKeySettings.MaskApiKeyReveals | src/components/settings/ApiKeySettings.tsx:94-97 | long keys mask alike iff their first and last five characters agree; all short keys mask alike; a long key never masks like a short one |
| ApiKeySettings.MaskSecretKey | src/components/settings/ApiKeySettings.tsx:100-106 | ten bullets when hidden; when shown, the first min(10, length) characters then "..." |
| ApiKeySettings.GetExchangeLabel | src/components/settings/ApiKeySettings.tsx:84-91 | Binance, Bybit and OKX for the three known names; any other name unchanged |
| ApiKeySettings.ExchangeLabelFolds | src/components/settings/ApiKeySettings.tsx:84-91 | the label of a known exchange differs from its name and lower-cases back to it |
| ApiKeySettings.FormatDate | src/components/settings/ApiKeySettings.tsx:78-82 | "Never" for a missing or empty date, the locale rendering otherwise |
| ApiKeySettings.Toggled | src/components/settings/ApiKeySettings.tsx:61-66 | flips the given id (absent counts as hidden) and leaves every other id |
| ApiKeySettings.ToggleTwice | src/components/settings/ApiKeySettings.tsx:61-66 | toggling an id twice restores what is shown |
| ApiKeySettings.TogglesCommute | src/components/settings/ApiKeySettings.tsx:61-66 | toggles on different ids commute |
| ApiKeySettings.SecretVisibility.ToggleSecretVisibility | src/components/settings/ApiKeySettings.tsx:61-66 | the state becomes `Toggled(old state, id)` |
| FilterDialog.EmptyToNone | src/components/trade-journal/table/FilterDialog.tsx:76-81 | an empty text becomes absent, any other is kept |
| FilterDialog.InitialState | src/components/trade-journal/table/FilterDialog.tsx:50-59 | the dialog opens on the current filters: symbol and dates are the current texts when truthy and empty otherwise; the P&L bounds as they are; the current type list, or both types only when there is none (an empty list is kept) |
| FilterDialog.HandleApplyFilter | src/components/trade-journal/table/FilterDialog.tsx:74-84 | the types as checked; symbol and dates kept when non-empty and absent when empty; the P&L bounds as entered; the dialog closes |
| FilterDialog.ApplyInitialRoundTrip | src/components/trade-journal/table/FilterDialog.tsx:50-84 | opening on filters without empty texts and applying untouched applies the same filters (with both types when there were none) |
| FilterDialog.HandleResetFilter | src/components/trade-journal/table/FilterDialog.tsx:87-99 | every field cleared, both types checked, exactly the filter {types: buy, sell} applied (what applying the cleared fields gives), and the dialog closes |
| FilterDialog.HandleTypeChange | src/components/trade-journal/table/FilterDialog.tsx:65-71 | flips membership of the type, keeps every other type, appends a new type at the end |
| FilterDialog.TypeChangeTwice | src/components/trade-journal/table/FilterDialog.tsx:65-71 | clicking twice restores the checked types; from unchecked it restores the list itself |
| FilterDialog.Dedupe | src/components/trade-journal/table/FilterDialog.tsx:62 | `Array.from(new Set(s))`: the same elements, none twice |
| FilterDialog.DedupeKeepsFirstOrder | src/components/trade-journal/table/FilterDialog.tsx:62 | the elements come in the order of their first occurrences |
| FilterDialog.UniqueSymbols | src/components/trade-journal/table/FilterDialog.tsx:62 | each trade symbol exactly once, nothing else |
| SyncDialog.AddedSymbols | src/components/trade-journal/TradeSyncDialog.tsx:224-228 | appends a non-empty symbol not yet selected, otherwise no change; the list stays repeat-free |
| SyncDialog.RemovedSymbol | src/components/trade-journal/TradeSyncDialog.tsx:244 | removes exactly that symbol and keeps the rest |
| SyncDialog.AddThenRemove | src/components/trade-journal/TradeSyncDialog.tsx:224-244 | removing a symbol just added restores the selection |
| SyncDialog.SubmitDisabled | src/components/trade-journal/TradeSyncDialog.tsx:266 | enabled iff a key is selected and the latest run is not in progress |
| SyncDialog.ResultToast | src/components/trade-journal/TradeSyncDialog.tsx:70-86 | success with the import count iff completed; otherwise the error message, or "Unknown error occurred" |
| SyncDialog.ErrorToast | src/components/trade-journal/TradeSyncDialog.tsx:88-95 | a thrown error gives a "Sync failed" error toast with the `Error`'s message, even an empty one, or "Unknown error occurred" for a value that is not an `Error` |
| SyncDialog.ErrorToastLikeFailedRun | src/components/trade-journal/TradeSyncDialog.tsx:70-95 | a thrown error and a failed run with the same message give the same toast, except that an empty message is shown as is when thrown and replaced by "Unknown error occurred" when returned |
| SyncDialog.SyncDialogState.AddSymbol | src/components/trade-journal/TradeSyncDialog.tsx:224-228 | the selection becomes `AddedSymbols`, the other fields unchanged |
| SyncDialog.SyncDialogState.RemoveSymbol | src/components/trade-journal/TradeSyncDialog.tsx:244 | the selection becomes `RemovedSymbol`, the other fields unchanged |
| SyncDialog.SyncDialogState.HandleClose | src/components/trade-journal/TradeSyncDialog.tsx:116-123 | empty key and dates, sync-all on, no symbols, dialog closed |
| SyncDialog.SyncDialogState.HandleSubmit | src/components/trade-journal/TradeSyncDialog.tsx:98-114 | no key: nothing starts; otherwise the key, empty dates as absent, no symbol list iff sync-all |
| SyncDialog.SyncDialogState.OnSyncResult | src/components/trade-journal/TradeSyncDialog.tsx:70-86 | a completed run closes the dialog with its fields kept; any other status leaves it open |
| SyncDialog.SyncDialogState.OnSyncError | src/components/trade-journal/TradeSyncDialog.tsx:88-95 | the run's `onError` (the sync threw, as when its opening insert fails): the error toast, with the dialog left open and every field kept |
| Pagination.PrevClick | src/components/trade-journal/table/Pagination.tsx:41-48 | disabled iff current ≤ 1; otherwise requests current − 1, which is at least 1 |
| Pagination.NextClick | src/components/trade-journal/table/Pagination.tsx:49-56 | disabled iff current ≥ total; otherwise requests current + 1, at most total |
| Pagination.DisplayedTotal | src/components/trade-journal/table/Pagination.tsx:39 | the page count, or 1 when it is 0 |
| Pagination.MovesStayInRange | src/components/trade-journal/table/Pagination.tsx:44-53 | from a page in 1..total every enabled move stays in 1..total, forward and back undo each other, a single page allows neither |
| Pagination.NextReachesEveryPage | src/components/trade-journal/table/Pagination.tsx:49-56 | from page 1, k clicks on next reach page k + 1, and next is disabled exactly on the last page |

## Left out

- The remote database, the auth provider and the network are not modelled:
  - Tables are in-memory maps.
  - The token fetch behind each service's lazy client is not modelled.
  - Database errors a sync run meets are the explicit `Faults` parameter.
  - Other database errors (a failing insert in `createTrade`, say) are not modelled; the model's writes succeed.
- The clock and the date library are not modelled:
  - The clock is the `now`/`today` parameters.
  - Service dates are day indices; `moment` and `toISOString` formatting is left out.
  - The calendar's weekday of the 1st is a parameter.
  - `toLocale…` renderings are not modelled: `FormatDate` takes the locale text as a parameter.
  - The sync dialog passes date text instead of `Date` objects.
- Floating point is not modelled: numbers are reals.
  - `toFixed(2)` rounding of the form's P&L is left out.
  - `parseFloat` is left out.
  - NaN is left out.
- JavaScript strings are UTF-16; here they are sequences of characters.
- "First match" in database order is the smallest id. This applies to the sync's key lookup. Rows of the same date in a listing also come in id order. The database promises no order for either.
- SyncDialog.SyncDialogState.OnSyncError: whether the database error the sync rethrows is an `Error` instance is up to the database client library; the caller says so by passing the message or `None`.
- TradeSync.SyncService.ImportTrades: a failed key lookup reads as "no match" in the source and inserts a second row for the key; the model assumes every lookup succeeds.
- TradeSync.SyncService.RunRecorded: an error thrown as a plain object is recorded by the source as its string conversion; the model records the error's message.
- TradeSync.SyncService.RunRecorded: the update that writes the exchange into the run's record ignores its own error in the source; the model assumes it succeeds.
- The sync service's constructor hands the session object where a token is expected (services/supabase/tradeSyncService.ts:29). The model's service is given its table directly.
- Trades.TradeTable.WinningCount: takes required bounds; the source sends absent bounds to the database as text.
- Trades.TradeTable.LosingCount: takes required bounds; the source sends absent bounds to the database as text.
- Trades.TradeTable.GetTrades: an offset past the end gives an empty page; the database's reply to such a range is not modelled.
- The sync history listing (`getSyncHistory`) is not modelled: it is a plain query.
- The API key service is not modelled: it is pass-through CRUD.
- The clipboard copy and delete-confirmation handlers of the settings page are not modelled: they are UI plumbing.
- Common.ToLower: folds only A–Z. JavaScript's `toLowerCase` also maps non-ASCII capitals (U+212A KELVIN SIGN becomes "k", for instance), so `ExchangeClient.CreateExchangeClient` accepts names here only up to ASCII case.
- `getExchangeLabel` on names inherited by every JavaScript object, such as "toString", is not modelled.
- React state, query invalidation, toasts' timing and async ordering are left out. The "in progress" guard of the sync dialog is a UI rule, not mutual exclusion.
- The commented-out ccxt code of the Binance adapter is left out.
- The page's initial sample trades are left out. They satisfy `JournalPage.IdsInRange` with ids 1 to 8.

## Findings

| source | as written | input that shows it | evidently intended | confidence | as-written member | corrected member |
|---|---|---|---|---|---|---|
| src/services/supabase/userTrades.ts:211-218 | `getTradesPnl` sums the rows returned by `getTradesByDateRange`, which calls `getTrades` with its default limit of 10, so only the newest ten rows of the range count | eleven trades in the range, each with pnl 1: the result is 10, the range's P&L is 11 (`Trades.EleventhRowLeftOut`, `Trades.FirstPagePnl`) | the P&L of every trade in the date range | medium, not executed | Trades.TradeTable.GetTradesPnl | Trades.TradeTable.GetRangePnl |
