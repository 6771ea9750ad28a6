/** The trading calendar: a month grid of day cells, each showing the trades whose
    date starts with the day's `YYYY-MM-DD` key, and the month's totals. The month
    shown is state that the previous/next buttons replace. The weekday of the 1st
    (`firstDayOfMonth`) comes from the date library and is a parameter here. */
module TradeCalendar {
  import opened Common

  /** The calendar's own trade record: only the date text and the P&L matter to it. */
  datatype CalendarTrade = CalendarTrade(date: string, pnl: real)

  function TradePnl(t: CalendarTrade): real { t.pnl }

  // ---------------------------------------------------------------------------
  // Gregorian month lengths

  predicate IsLeapYear(year: int)
  {
    year % 4 == 0 && (year % 100 != 0 || year % 400 == 0)
  }

  /** The year `new Date(year, month, day)` works in: a year argument from 0 to 99
      is read as 1900 to 1999, before any month overflow is carried into it. */
  function DateYear(year: int): int
  {
    if 0 <= year <= 99 then 1900 + year else year
  }

  /** A year the date constructor takes as given. */
  predicate FullYear(year: int)
  {
    !(0 <= year <= 99)
  }

  /** `new Date(year, month0 + 1, 0).getDate()`: the last day of the month, month0
      counted from 0 as the date library does. */
  function DaysInMonth(year: int, month0: nat): (r: nat)
    requires month0 < 12
    ensures 28 <= r <= 31
    ensures r == 29 <==> month0 == 1 && IsLeapYear(DateYear(year))
  {
    if month0 == 1 then (if IsLeapYear(DateYear(year)) then 29 else 28)
    else if month0 == 3 || month0 == 5 || month0 == 8 || month0 == 10 then 30
    else 31
  }

  /** The twelve month lengths add up to the length of the Gregorian year. */
  lemma YearLength(year: int)
    ensures DaysInMonth(year, 0) + DaysInMonth(year, 1) + DaysInMonth(year, 2) + DaysInMonth(year, 3)
          + DaysInMonth(year, 4) + DaysInMonth(year, 5) + DaysInMonth(year, 6) + DaysInMonth(year, 7)
          + DaysInMonth(year, 8) + DaysInMonth(year, 9) + DaysInMonth(year, 10) + DaysInMonth(year, 11)
          == if IsLeapYear(DateYear(year)) then 366 else 365
  {
  }

  // ---------------------------------------------------------------------------
  // The grid

  /** `calendarDays`: `first` empty cells, then the days 1 to `dim`. */
  function CalendarDays(first: nat, dim: nat): (r: seq<Option<nat>>)
    ensures |r| == first + dim
    ensures forall i :: 0 <= i < first ==> r[i] == None
    ensures forall d :: 1 <= d <= dim ==> r[first + d - 1] == Some(d)
  {
    if dim == 0 then seq(first, _ => None)
    else CalendarDays(first, dim - 1) + [Some(dim)]
  }

  /** Every cell of the grid is empty or holds a day of the month, each day once. */
  lemma CalendarDaysCells(first: nat, dim: nat)
    ensures forall i :: 0 <= i < first + dim ==>
      (CalendarDays(first, dim)[i].None? <==> i < first)
    ensures forall i, j :: 0 <= i < j < first + dim && CalendarDays(first, dim)[i].Some? ==>
      CalendarDays(first, dim)[i] != CalendarDays(first, dim)[j]
  {
    var r := CalendarDays(first, dim);
    forall i | first <= i < first + dim ensures r[i] == Some(i - first + 1) {
      assert r[first + (i - first + 1) - 1] == Some(i - first + 1);
    }
  }

  // ---------------------------------------------------------------------------
  // Day keys: ISO 8601 calendar dates in the complete extended format YYYY-MM-DD

  /** `${year}`: the year's decimal text, with a minus sign before a negative year. */
  function YearText(year: int): (r: string)
    ensures |r| >= 1
    ensures year >= 0 <==> IsDigit(r[0])
  {
    if year >= 0 then NatToString(year) else "-" + NatToString(-year)
  }

  /** Different years have different texts. */
  lemma YearTextInjective(a: int, b: int)
    requires YearText(a) == YearText(b)
    ensures a == b
  {
    YearTextSign(a);
    YearTextSign(b);
    if a >= 0 {
      ParseNatToString(a);
      ParseNatToString(b);
    } else {
      ParseNatToString(-a);
      ParseNatToString(-b);
    }
  }

  /** A year's text starts with a digit exactly when the year is not negative; a
      negative year's text is a minus sign followed by the digits of its magnitude. */
  lemma YearTextSign(y: int)
    ensures |YearText(y)| >= 1 && (IsDigit(YearText(y)[0]) <==> y >= 0)
    ensures y >= 0 ==> YearText(y) == NatToString(y)
    ensures y < 0 ==> YearText(y)[1..] == NatToString(-y)
  {
    if y < 0 {
      assert YearText(y) == "-" + NatToString(-y);
    }
  }

  /** The key of a day: year, 1-based month and day, month and day padded to two digits. */
  function DayKey(year: int, month0: nat, day: nat): string
  {
    YearText(year) + "-" + Pad2(month0 + 1) + "-" + Pad2(day)
  }

  /** The layout of a key: the year text, a dash, two month digits, a dash, two day digits. */
  lemma DayKeyShape(year: int, month0: nat, day: nat)
    requires month0 < 99 && day < 100
    ensures var k := DayKey(year, month0, day);
      && |k| == |YearText(year)| + 6
      && k[..|YearText(year)|] == YearText(year)
      && k[|k| - 6] == '-' && k[|k| - 3] == '-'
      && k[|k| - 5..|k| - 3] == Pad2(month0 + 1)
      && k[|k| - 2..] == Pad2(day)
  {
  }

  /** Distinct days (of any months and years) have distinct keys. */
  lemma DayKeyInjective(y1: int, m1: nat, d1: nat, y2: int, m2: nat, d2: nat)
    requires m1 < 99 && d1 < 100 && m2 < 99 && d2 < 100
    requires DayKey(y1, m1, d1) == DayKey(y2, m2, d2)
    ensures y1 == y2 && m1 == m2 && d1 == d2
  {
    DayKeyShape(y1, m1, d1);
    DayKeyShape(y2, m2, d2);
    var k := DayKey(y1, m1, d1);
    assert YearText(y1) == k[..|k| - 6] == YearText(y2);
    YearTextInjective(y1, y2);
    Pad2RoundTrip(m1 + 1);
    Pad2RoundTrip(m2 + 1);
    Pad2RoundTrip(d1);
    Pad2RoundTrip(d2);
  }

  /** Two days of real months have the same key exactly when they are the same day. */
  lemma SameDayKey(y1: int, m1: nat, d1: nat, y2: int, m2: nat, d2: nat)
    ensures m1 < 12 && d1 < 100 && m2 < 12 && d2 < 100 ==>
      (DayKey(y1, m1, d1) == DayKey(y2, m2, d2) <==> y1 == y2 && m1 == m2 && d1 == d2)
  {
    if m1 < 12 && d1 < 100 && m2 < 12 && d2 < 100 && DayKey(y1, m1, d1) == DayKey(y2, m2, d2) {
      DayKeyInjective(y1, m1, d1, y2, m2, d2);
    }
  }

  predicate StartsWith(s: string, prefix: string)
  {
    |prefix| <= |s| && s[..|prefix|] == prefix
  }

  /** The trade falls on `day` of the month: its date starts with the day's key. */
  predicate OnDay(year: int, month0: nat, day: nat, t: CalendarTrade)
  {
    StartsWith(t.date, DayKey(year, month0, day))
  }

  /** No date starts with the keys of two different days of one month. */
  lemma OnOneDayOnly(year: int, month0: nat, d1: nat, d2: nat, t: CalendarTrade)
    requires month0 < 12 && d1 < 100 && d2 < 100
    requires OnDay(year, month0, d1, t) && OnDay(year, month0, d2, t)
    ensures d1 == d2
  {
    DayKeyShape(year, month0, d1);
    DayKeyShape(year, month0, d2);
    DayKeyInjective(year, month0, d1, year, month0, d2);
  }

  // ---------------------------------------------------------------------------
  // Day and month statistics

  datatype DayStat = DayStat(pnl: real, tradesCount: nat, hasActivity: bool)

  /** The trades on `day`, in their order. */
  function DayTrades(trades: seq<CalendarTrade>, year: int, month0: nat, day: nat): seq<CalendarTrade>
  {
    Filter(trades, (t: CalendarTrade) => OnDay(year, month0, day, t))
  }

  /** `getDayStats`: the P&L and the number of the day's trades, active when there is one. */
  function GetDayStats(trades: seq<CalendarTrade>, year: int, month0: nat, day: nat): (r: DayStat)
    ensures r.tradesCount == |DayTrades(trades, year, month0, day)| <= |trades|
    ensures r.hasActivity <==> exists t :: t in trades && OnDay(year, month0, day, t)
    ensures r.pnl == SumOf(DayTrades(trades, year, month0, day), TradePnl)
    ensures !r.hasActivity ==> r.pnl == 0.0
  {
    var dayTrades := DayTrades(trades, year, month0, day);
    assert |dayTrades| > 0 ==> dayTrades[0] in dayTrades;
    DayStat(SumOf(dayTrades, TradePnl), |dayTrades|, |dayTrades| > 0)
  }

  datatype MonthStats = MonthStats(totalPnl: real, profitDays: nat, lossDays: nat, totalTrades: nat)

  /** What one day adds to the month's statistics: nothing unless it has trades. */
  function MonthStep(m: MonthStats, s: DayStat): MonthStats
  {
    if s.tradesCount > 0 then
      MonthStats(m.totalPnl + s.pnl,
                 m.profitDays + (if s.pnl > 0.0 then 1 else 0),
                 m.lossDays + (if s.pnl < 0.0 then 1 else 0),
                 m.totalTrades + s.tradesCount)
    else m
  }

  /** The month's statistics over days 1 to `n`, in the order the loop visits them. */
  function MonthStatsUpTo(trades: seq<CalendarTrade>, year: int, month0: nat, n: nat): MonthStats
  {
    if n == 0 then MonthStats(0.0, 0, 0, 0)
    else MonthStep(MonthStatsUpTo(trades, year, month0, n - 1), GetDayStats(trades, year, month0, n))
  }

  /** The number of active days among days 1 to `n`. */
  function ActiveDays(trades: seq<CalendarTrade>, year: int, month0: nat, n: nat): nat
  {
    if n == 0 then 0
    else ActiveDays(trades, year, month0, n - 1) + (if GetDayStats(trades, year, month0, n).hasActivity then 1 else 0)
  }

  /** `monthStats`: the loop over the days of the month. */
  method ComputeMonthStats(trades: seq<CalendarTrade>, year: int, month0: nat, daysInMonth: nat)
    returns (stats: MonthStats)
    ensures stats == MonthStatsUpTo(trades, year, month0, daysInMonth)
  {
    stats := MonthStats(0.0, 0, 0, 0);
    for day := 1 to daysInMonth + 1
      invariant stats == MonthStatsUpTo(trades, year, month0, day - 1)
    {
      var s := GetDayStats(trades, year, month0, day);
      stats := AddDay(stats, s);
    }
  }

  /** The body of the month loop for one day with its statistics `s`. */
  method AddDay(m: MonthStats, s: DayStat) returns (stats: MonthStats)
    ensures stats == MonthStep(m, s)
  {
    stats := m;
    if s.tradesCount > 0 {
      stats := stats.(totalPnl := stats.totalPnl + s.pnl, totalTrades := stats.totalTrades + s.tradesCount);
      if s.pnl > 0.0 {
        stats := stats.(profitDays := stats.profitDays + 1);
      } else if s.pnl < 0.0 {
        stats := stats.(lossDays := stats.lossDays + 1);
      }
    }
  }

  /** A profit day and a loss day are both active, and no day is both; a zero-P&L
      active day is neither. */
  lemma {:induction false} DayCounts(trades: seq<CalendarTrade>, year: int, month0: nat, n: nat)
    ensures var m := MonthStatsUpTo(trades, year, month0, n);
      m.profitDays + m.lossDays <= ActiveDays(trades, year, month0, n) <= n
  {
    if n > 0 {
      DayCounts(trades, year, month0, n - 1);
    }
  }

  /** The trade falls on one of the days 1 to `n` of the month. */
  predicate InMonthUpTo(year: int, month0: nat, n: nat, t: CalendarTrade)
  {
    exists d :: 1 <= d <= n && OnDay(year, month0, d, t)
  }

  /** The month's trade count and P&L are those of the trades dated in the month, each
      counted once; so the count never exceeds the number of trades. */
  lemma {:induction false} MonthTotals(trades: seq<CalendarTrade>, year: int, month0: nat, n: nat)
    requires month0 < 12 && n < 100
    ensures var m := MonthStatsUpTo(trades, year, month0, n);
      var inMonth := Filter(trades, (t: CalendarTrade) => InMonthUpTo(year, month0, n, t));
      && m.totalTrades == |inMonth| <= |trades|
      && m.totalPnl == SumOf(inMonth, TradePnl)
  {
    var upTo := (t: CalendarTrade) => InMonthUpTo(year, month0, n, t);
    if n == 0 {
      FilterNone(trades, upTo);
    } else {
      MonthTotals(trades, year, month0, n - 1);
      var before := (t: CalendarTrade) => InMonthUpTo(year, month0, n - 1, t);
      var onDay := (t: CalendarTrade) => OnDay(year, month0, n, t);
      forall t ensures upTo(t) == (before(t) || onDay(t)) && !(before(t) && onDay(t)) {
        if before(t) && onDay(t) {
          var d :| 1 <= d <= n - 1 && OnDay(year, month0, d, t);
          OnOneDayOnly(year, month0, d, n, t);
        }
        if upTo(t) && !onDay(t) {
          var d :| 1 <= d <= n && OnDay(year, month0, d, t);
          assert d != n;
        }
      }
      FilterDisjointUnion(trades, upTo, before, onDay, TradePnl);
    }
  }

  lemma {:induction false} FilterNone(s: seq<CalendarTrade>, p: CalendarTrade -> bool)
    requires forall x :: !p(x)
    ensures Filter(s, p) == []
  {
    if |s| > 0 {
      FilterNone(s[..|s| - 1], p);
    }
  }

  /** Filtering by a union of two disjoint conditions keeps as many elements, and as
      much total, as filtering by each. */
  lemma {:induction false} FilterDisjointUnion(s: seq<CalendarTrade>, r: CalendarTrade -> bool,
                                               p: CalendarTrade -> bool, q: CalendarTrade -> bool,
                                               f: CalendarTrade -> real)
    requires forall x :: r(x) == (p(x) || q(x)) && !(p(x) && q(x))
    ensures |Filter(s, r)| == |Filter(s, p)| + |Filter(s, q)|
    ensures SumOf(Filter(s, r), f) == SumOf(Filter(s, p), f) + SumOf(Filter(s, q), f)
  {
    if |s| > 0 {
      var init := s[..|s| - 1];
      var x := s[|s| - 1];
      FilterDisjointUnion(init, r, p, q, f);
      var fr := Filter(init, r);
      var fp := Filter(init, p);
      var fq := Filter(init, q);
      if p(x) {
        assert Filter(s, r) == fr + [x];
        assert (fr + [x])[..|fr + [x]| - 1] == fr;
        assert (fp + [x])[..|fp + [x]| - 1] == fp;
      } else if q(x) {
        assert Filter(s, r) == fr + [x];
        assert (fr + [x])[..|fr + [x]| - 1] == fr;
        assert (fq + [x])[..|fq + [x]| - 1] == fq;
      }
    }
  }

  // ---------------------------------------------------------------------------
  // Cell colouring

  datatype Tone = ProfitTone | LossTone | TodayTone | PlainTone

  /** The background of a day cell: an active day is green when its P&L is positive
      and red otherwise; an inactive day is highlighted when it is today. */
  function CellTone(s: DayStat, isToday: bool): (r: Tone)
    ensures r == ProfitTone <==> s.hasActivity && s.pnl > 0.0
    ensures r == LossTone <==> s.hasActivity && s.pnl <= 0.0
    ensures r == TodayTone <==> !s.hasActivity && isToday
  {
    if s.hasActivity then (if s.pnl > 0.0 then ProfitTone else LossTone)
    else if isToday then TodayTone else PlainTone
  }

  /** A red cell is not always a counted loss day: an active day with zero P&L is red
      but adds to neither the profit nor the loss days. */
  lemma {:induction false} ZeroDayIsRedButUncounted(trades: seq<CalendarTrade>, year: int, month0: nat, n: nat)
    requires n >= 1
    requires GetDayStats(trades, year, month0, n).hasActivity && GetDayStats(trades, year, month0, n).pnl == 0.0
    ensures CellTone(GetDayStats(trades, year, month0, n), false) == LossTone
    ensures MonthStatsUpTo(trades, year, month0, n).lossDays == MonthStatsUpTo(trades, year, month0, n - 1).lossDays
    ensures MonthStatsUpTo(trades, year, month0, n).profitDays == MonthStatsUpTo(trades, year, month0, n - 1).profitDays
  {
  }

  // ---------------------------------------------------------------------------
  // The month shown

  /** The month `new Date(year, month0 - 1, 1)` lands on. */
  function PrevMonthOf(year: int, month0: nat): (r: (int, nat))
    requires month0 < 12
    ensures r.1 < 12
    ensures FullYear(year) ==> r.0 * 12 + r.1 == year * 12 + month0 - 1
  {
    if month0 == 0 then (DateYear(year) - 1, 11) else (DateYear(year), month0 - 1)
  }

  /** The month `new Date(year, month0 + 1, 1)` lands on. */
  function NextMonthOf(year: int, month0: nat): (r: (int, nat))
    requires month0 < 12
    ensures r.1 < 12
    ensures FullYear(year) ==> r.0 * 12 + r.1 == year * 12 + month0 + 1
  {
    if month0 == 11 then (DateYear(year) + 1, 0) else (DateYear(year), month0 + 1)
  }

  /** Previous and next undo each other as long as neither year is one the date
      constructor reads as 19xx. */
  lemma MonthStepsInverse(year: int, month0: nat)
    requires month0 < 12
    ensures var p := PrevMonthOf(year, month0);
      FullYear(year) && FullYear(p.0) ==> NextMonthOf(p.0, p.1) == (year, month0)
    ensures var q := NextMonthOf(year, month0);
      FullYear(year) && FullYear(q.0) ==> PrevMonthOf(q.0, q.1) == (year, month0)
  {
  }

  /** Years 0 to 99 are read as 1900 to 1999: February of year 0 has 28 days, the month
      before December 99 is November 1999, and going back from January 100 and then
      forward again lands on January 2000. */
  lemma TwoDigitYears()
    ensures DaysInMonth(0, 1) == 28 && DaysInMonth(2000, 1) == 29
    ensures PrevMonthOf(99, 11) == (1999, 10)
    ensures PrevMonthOf(100, 0) == (99, 11) && NextMonthOf(99, 11) == (2000, 0)
  {
    assert !IsLeapYear(1900);
    assert IsLeapYear(2000);
  }

  /** The `currentDate` state of the calendar. */
  class CalendarView {
    var year: int
    var month0: nat
    var day: nat

    ghost predicate Valid()
      reads this
    {
      month0 < 12 && 1 <= day <= DaysInMonth(year, month0)
    }

    constructor (year: int, month0: nat, day: nat)
      requires month0 < 12 && 1 <= day <= DaysInMonth(year, month0)
      ensures Valid() && this.year == year && this.month0 == month0 && this.day == day
    {
      this.year := year;
      this.month0 := month0;
      this.day := day;
    }

    /** `prevMonth`: day 1 of the month before. */
    method PrevMonth()
      requires Valid()
      modifies this
      ensures Valid() && (year, month0) == PrevMonthOf(old(year), old(month0)) && day == 1
    {
      var p := PrevMonthOf(year, month0);
      year, month0, day := p.0, p.1, 1;
    }

    /** `nextMonth`: day 1 of the month after. */
    method NextMonth()
      requires Valid()
      modifies this
      ensures Valid() && (year, month0) == NextMonthOf(old(year), old(month0)) && day == 1
    {
      var n := NextMonthOf(year, month0);
      year, month0, day := n.0, n.1, 1;
    }

    /** `isToday(d)`: the shown month and `d` are today's date. */
    function IsToday(d: nat, todayYear: int, todayMonth0: nat, todayDay: nat): (r: bool)
      reads this
      ensures r ==> DayKey(year, month0, d) == DayKey(todayYear, todayMonth0, todayDay)
      ensures month0 < 12 && d < 100 && todayMonth0 < 12 && todayDay < 100 ==>
        (r <==> DayKey(year, month0, d) == DayKey(todayYear, todayMonth0, todayDay))
    {
      SameDayKey(year, month0, d, todayYear, todayMonth0, todayDay);
      d == todayDay && month0 == todayMonth0 && year == todayYear
    }
  }
}
