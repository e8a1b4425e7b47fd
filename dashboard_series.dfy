/** The two time-based widgets of the dashboard (frontend/src/App.tsx):
    the equity series and the month calendar with its per-day totals and
    its grid of six Monday-first weeks. */
module DashboardSeries {
  import opened Common
  import opened Strings
  import opened JsValues
  import opened Sorting
  import opened TradesApi
  import opened DashboardStats
  import Analytics

  // ---------------------------------------------------------------------
  // equityTrades / equitySeries
  // ---------------------------------------------------------------------

  /** The sort key of `a - b` on start times. An unparseable start (NaN)
      is placed as if it were time 0. */
  function StartKey(t: UiTrade): int
  {
    t.start.GetOr(0)
  }

  /** `equityTrades`: the trades of the date window in the card's scope,
      oldest first. */
  function EquityTrades(ts: seq<UiTrade>, from: Option<int>, to: Option<int>, sc: CardScope): (r: seq<UiTrade>)
    ensures multiset(r) == multiset(Scoped(WithRange(ts, from, to), sc))
    ensures forall i, j :: 0 <= i < j < |r| ==> StartKey(r[i]) <= StartKey(r[j])
  {
    KeyLeTotalPreorder(StartKey);
    var r := Sort(Scoped(WithRange(ts, from, to), sc), KeyLe(StartKey));
    assert Sorted(r, KeyLe(StartKey));
    r
  }

  /** A point of the curve: the date part of the display start, the start
      time and the running equity. */
  datatype EquityPoint = EquityPoint(name: string, time: Option<int>, equity: real)

  /** The date part of the display start: `start_datetime.split(" ")[0]`. */
  function DateName(t: UiTrade): string
  {
    Split(t.startText, ' ')[0]
  }

  /** The pnl of the first `n` sorted trades. */
  function EquityAfter(sorted: seq<UiTrade>, n: nat): real
    requires n <= |sorted|
  {
    SumOf(sorted[..n], PnlOf)
  }

  lemma {:induction false} EquityAfterStep(sorted: seq<UiTrade>, n: nat)
    requires n < |sorted|
    ensures EquityAfter(sorted, n + 1) == EquityAfter(sorted, n) + sorted[n].pnl
  {
    assert sorted[..n + 1][..n] == sorted[..n];
  }

  /** `equitySeries`, the `reduce` over the sorted trades: point `i` holds
      the pnl of the first `i + 1` trades, each point adding its trade's
      pnl to the previous one. */
  method EquitySeries(sorted: seq<UiTrade>) returns (acc: seq<EquityPoint>)
    ensures |acc| == |sorted|
    ensures forall i :: 0 <= i < |acc| ==>
      acc[i] == EquityPoint(DateName(sorted[i]), sorted[i].start, EquityAfter(sorted, i + 1))
    ensures forall i :: 0 < i < |acc| ==> acc[i].equity == acc[i - 1].equity + sorted[i].pnl
  {
    acc := [];
    for index := 0 to |sorted|
      invariant |acc| == index
      invariant forall i :: 0 <= i < index ==>
        acc[i] == EquityPoint(DateName(sorted[i]), sorted[i].start, EquityAfter(sorted, i + 1))
    {
      var prev := if index == 0 then 0.0 else acc[index - 1].equity;
      var next := prev + sorted[index].pnl;
      EquityAfterStep(sorted, index);
      var dateStr := Split(sorted[index].startText, ' ')[0];
      acc := acc + [EquityPoint(dateStr, sorted[index].start, next)];
    }
    forall i | 0 < i < |acc| ensures acc[i].equity == acc[i - 1].equity + sorted[i].pnl {
      EquityAfterStep(sorted, i);
    }
  }

  /** The curve ends at the total pnl of the scoped trades, whatever order
      the sort put them in. */
  lemma {:induction false} EquityEndsAtTotal(ts: seq<UiTrade>, from: Option<int>, to: Option<int>, sc: CardScope)
    ensures var sorted := EquityTrades(ts, from, to, sc);
      EquityAfter(sorted, |sorted|) == SumOf(Scoped(WithRange(ts, from, to), sc), PnlOf)
  {
    var sorted := EquityTrades(ts, from, to, sc);
    assert sorted[..|sorted|] == sorted;
    KeyLeTotalPreorder(StartKey);
    Analytics.SumOfSort(Scoped(WithRange(ts, from, to), sc), KeyLe(StartKey), PnlOf);
  }

  // ---------------------------------------------------------------------
  // toDateKey
  // ---------------------------------------------------------------------

  /** A calendar date the runtime can produce: month 1..12, day 1..31. */
  predicate ValidDate(c: CivilDate)
  {
    1 <= c.month <= 12 && 1 <= c.day <= 31
  }

  /** `toDateKey`: YYYY-MM-DD, month and day padded to two digits. */
  function DateKey(c: CivilDate): (r: string)
    ensures ValidDate(c) ==> |r| >= 7 && r[|r| - 3] == '-' && r[|r| - 6] == '-'
  {
    IntToString(c.year) + "-" + Pad2(c.month) + "-" + Pad2(c.day)
  }

  /** Reading a key back: the year before the last six characters, the
      month and day as the two-digit fields after the dashes. */
  function KeyYear(r: string): JsNumber
  {
    if |r| < 6 then NaN else StringToNumber(r[..|r| - 6])
  }

  function KeyMonth(r: string): nat
  {
    if |r| < 5 || !AllDigits(r[|r| - 5..|r| - 3]) then 0 else DigitsValue(r[|r| - 5..|r| - 3])
  }

  function KeyDay(r: string): nat
  {
    if |r| < 2 || !AllDigits(r[|r| - 2..]) then 0 else DigitsValue(r[|r| - 2..])
  }

  /** A date key reads back as its year, month and day. */
  lemma {:induction false} DateKeyFields(c: CivilDate)
    requires ValidDate(c)
    ensures KeyYear(DateKey(c)) == Finite(c.year as real)
    ensures KeyMonth(DateKey(c)) == c.month && KeyDay(DateKey(c)) == c.day
  {
    var y, m, d := IntToString(c.year), Pad2(c.month), Pad2(c.day);
    var r := DateKey(c);
    assert r == y + "-" + m + "-" + d;
    assert r[|r| - 2..] == d;
    assert r[|r| - 5..|r| - 3] == m;
    assert r[..|r| - 6] == y;
    Pad2Value(c.day);
    Pad2Value(c.month);
    IntNumeralRoundTrip(c.year);
  }

  /** Different dates have different keys, so each day of the calendar
      gets its own entry of the Map. */
  lemma {:induction false} DateKeyInjective(c: CivilDate, d: CivilDate)
    requires ValidDate(c) && ValidDate(d) && DateKey(c) == DateKey(d)
    ensures c == d
  {
    DateKeyFields(c);
    DateKeyFields(d);
    assert (c.year as real) == (d.year as real);
  }

  // ---------------------------------------------------------------------
  // calendarStats
  // ---------------------------------------------------------------------

  /** The runtime's calendar only produces valid dates. */
  ghost predicate ValidCalendar(local: LocalCalendar)
  {
    forall x :: ValidDate(local(x))
  }

  lemma {:induction false} CalendarDate(local: LocalCalendar, x: int)
    requires ValidCalendar(local)
    ensures ValidDate(local(x))
  {
  }

  /** The trade starts in the shown month: a NaN start has NaN fields and
      never does. */
  predicate InMonth(t: UiTrade, year: int, month: nat, local: LocalCalendar)
  {
    t.start.Some? && local(t.start.value).year == year && local(t.start.value).month == month
  }

  function InMonthOf(year: int, month: nat, local: LocalCalendar): UiTrade -> bool
  {
    (t: UiTrade) => InMonth(t, year, month, local)
  }

  /** The (date key, pnl) entries of the trades of the month, in order. */
  function DayEntries(ts: seq<UiTrade>, year: int, month: nat, local: LocalCalendar): (es: seq<Entry>)
    ensures |es| == CountOf(ts, InMonthOf(year, month, local))
  {
    if ts == [] then []
    else
      var t := ts[|ts| - 1];
      DayEntries(ts[..|ts| - 1], year, month, local) +
        (if InMonth(t, year, month, local) then [Entry(DateKey(local(t.start.value)), t.pnl)] else [])
  }

  /** `calendarStats`: the Map from date key to (pnl, count) of the scoped
      trades that start in the month, with the month's totals. */
  method CalendarStats(ts: seq<UiTrade>, sc: CardScope, year: int, month: nat, local: LocalCalendar)
    returns (map_: seq<Bucket>, totalPnL: real, totalTrades: nat)
    ensures map_ == GroupAll(DayEntries(Scoped(ts, sc), year, month, local))
    ensures totalPnL == BucketsPnl(map_) && totalPnL == EntriesPnl(DayEntries(Scoped(ts, sc), year, month, local))
    ensures totalTrades == BucketsCount(map_) && totalTrades == CountOf(Scoped(ts, sc), InMonthOf(year, month, local))
  {
    var scopedTrades := Scoped(ts, sc);
    map_, totalPnL, totalTrades := TallyMonth(scopedTrades, year, month, local);
    GroupAllTotals(DayEntries(scopedTrades, year, month, local));
  }

  /** The `forEach` of `calendarStats`: trades outside the month are
      skipped, the others tallied under their date key and added to the
      totals. */
  method TallyMonth(scopedTrades: seq<UiTrade>, year: int, month: nat, local: LocalCalendar)
    returns (map_: seq<Bucket>, totalPnL: real, totalTrades: nat)
    ensures map_ == GroupAll(DayEntries(scopedTrades, year, month, local))
    ensures totalPnL == EntriesPnl(DayEntries(scopedTrades, year, month, local))
    ensures totalTrades == |DayEntries(scopedTrades, year, month, local)|
  {
    map_ := [];
    totalPnL := 0.0;
    totalTrades := 0;
    for i := 0 to |scopedTrades|
      invariant map_ == GroupAll(DayEntries(scopedTrades[..i], year, month, local))
      invariant totalPnL == EntriesPnl(DayEntries(scopedTrades[..i], year, month, local))
      invariant totalTrades == |DayEntries(scopedTrades[..i], year, month, local)|
    {
      var trade := scopedTrades[i];
      DayEntriesSnoc(scopedTrades, i, year, month, local);
      if InMonth(trade, year, month, local) {
        var key := DateKey(local(trade.start.value));
        map_ := Tally(map_, Entry(key, trade.pnl));
        totalPnL := totalPnL + trade.pnl;
        totalTrades := totalTrades + 1;
      }
    }
    assert scopedTrades[..|scopedTrades|] == scopedTrades;
  }

  /** One more trade adds its entry when it starts in the month. */
  lemma {:induction false} DayEntriesSnoc(ts: seq<UiTrade>, i: nat, year: int, month: nat, local: LocalCalendar)
    requires i < |ts|
    ensures var es := DayEntries(ts[..i], year, month, local);
      var t := ts[i];
      if InMonth(t, year, month, local) then
        var e := Entry(DateKey(local(t.start.value)), t.pnl);
        DayEntries(ts[..i + 1], year, month, local) == es + [e] &&
        EntriesPnl(es + [e]) == EntriesPnl(es) + t.pnl
      else DayEntries(ts[..i + 1], year, month, local) == es
  {
    assert ts[..i + 1][..i] == ts[..i];
    var es := DayEntries(ts[..i], year, month, local);
    var t := ts[i];
    if InMonth(t, year, month, local) {
      var e := Entry(DateKey(local(t.start.value)), t.pnl);
      KeySnoc(es, e, e.key);
    }
  }

  /** The trade starts on day `c`. */
  function OnDay(c: CivilDate, local: LocalCalendar): UiTrade -> bool
  {
    (t: UiTrade) => t.start.Some? && local(t.start.value) == c
  }

  /** A trade adds to the entry of day `c` exactly when it starts on `c`. */
  lemma {:induction false} DayKeyMatches(t: UiTrade, year: int, month: nat, local: LocalCalendar, c: CivilDate)
    requires ValidCalendar(local) && ValidDate(c) && c.year == year && c.month == month
    ensures (InMonth(t, year, month, local) && DateKey(local(t.start.value)) == DateKey(c)) <==> OnDay(c, local)(t)
  {
    if InMonth(t, year, month, local) && DateKey(local(t.start.value)) == DateKey(c) {
      CalendarDate(local, t.start.value);
      DateKeyInjective(local(t.start.value), c);
    }
  }

  /** The Map's entry for a day of the month holds exactly the pnl of the
      trades that start on that day... */
  lemma {:induction false} DayTotal(ts: seq<UiTrade>, year: int, month: nat, local: LocalCalendar, c: CivilDate)
    requires ValidCalendar(local) && ValidDate(c) && c.year == year && c.month == month
    ensures KeySum(DayEntries(ts, year, month, local), DateKey(c)) == SumOf(Filter(ts, OnDay(c, local)), PnlOf)
  {
    if ts != [] {
      var n := |ts| - 1;
      var t := ts[n];
      var p := OnDay(c, local);
      var es := DayEntries(ts[..n], year, month, local);
      var f := Filter(ts[..n], p);
      DayTotal(ts[..n], year, month, local, c);
      DayKeyMatches(t, year, month, local, c);
      if InMonth(t, year, month, local) {
        var e := Entry(DateKey(local(t.start.value)), t.pnl);
        assert DayEntries(ts, year, month, local) == es + [e];
        KeySnoc(es, e, DateKey(c));
      } else {
        assert DayEntries(ts, year, month, local) == es;
      }
      if p(t) {
        assert Filter(ts, p) == f + [t];
        assert (f + [t])[..|f|] == f;
      } else {
        assert Filter(ts, p) == f;
      }
    }
  }

  /** ... and counts exactly those trades. */
  lemma {:induction false} DayCount(ts: seq<UiTrade>, year: int, month: nat, local: LocalCalendar, c: CivilDate)
    requires ValidCalendar(local) && ValidDate(c) && c.year == year && c.month == month
    ensures KeyCount(DayEntries(ts, year, month, local), DateKey(c)) == |Filter(ts, OnDay(c, local))|
  {
    if ts != [] {
      var n := |ts| - 1;
      var t := ts[n];
      var p := OnDay(c, local);
      var f := Filter(ts[..n], p);
      DayCount(ts[..n], year, month, local, c);
      DayKeyMatches(t, year, month, local, c);
      var es := DayEntries(ts[..n], year, month, local);
      assert Filter(ts, p) == if p(t) then f + [t] else f;
      if InMonth(t, year, month, local) {
        var e := Entry(DateKey(local(t.start.value)), t.pnl);
        assert DayEntries(ts, year, month, local) == es + [e];
        KeySnoc(es, e, DateKey(c));
      } else {
        assert DayEntries(ts, year, month, local) == es;
      }
    }
  }

  // ---------------------------------------------------------------------
  // calendarDays / calendarWeeks
  // ---------------------------------------------------------------------

  /** `getDay()` of a local day number (days since 1970-01-01, a
      Thursday): 0 is Sunday. */
  function Weekday(day: int): (w: nat)
    ensures w < 7
  {
    (day + 4) % 7
  }

  /** The number of days to step back from a day to reach the Monday of
      its week: `(getDay() + 6) % 7`. */
  function MondayOffset(day: int): (k: nat)
    ensures k < 7 && Weekday(day - k) == 1
  {
    var w := Weekday(day);
    var k := (w + 6) % 7;
    assert k == if w == 0 then 6 else w - 1;
    assert (day - k + 4) % 7 == 1 by {
      var q := (day + 4) / 7;
      assert day + 4 == 7 * q + w;
      if w == 0 {
        assert day - k + 4 == 7 * (q - 1) + 1;
      } else {
        assert day - k + 4 == 7 * q + 1;
      }
    }
    k
  }

  /** `calendarDays`: 42 consecutive days starting on the Monday of the
      week holding the first of the month. */
  function CalendarDays(monthStart: int): (days: seq<int>)
    ensures |days| == 42
    ensures Weekday(days[0]) == 1 && days[0] <= monthStart < days[0] + 7
    ensures forall i :: 0 <= i < 42 ==> days[i] == days[0] + i
  {
    var startDate := monthStart - MondayOffset(monthStart);
    seq(42, (index: int) => startDate + index)
  }

  function Min(a: int, b: int): int
  {
    if a <= b then a else b
  }

  /** The weeks, laid end to end. */
  function Concat(weeks: seq<seq<int>>): seq<int>
  {
    if weeks == [] then [] else Concat(weeks[..|weeks| - 1]) + weeks[|weeks| - 1]
  }

  /** `calendarWeeks`: the days cut into slices of seven (the last one
      shorter when the length is not a multiple of seven). */
  method CalendarWeeks(days: seq<int>) returns (weeks: seq<seq<int>>)
    ensures Concat(weeks) == days
    ensures |weeks| == (|days| + 6) / 7
    ensures forall w :: 0 <= w < |weeks| ==> weeks[w] == days[7 * w .. Min(7 * w + 7, |days|)]
  {
    weeks := [];
    var i := 0;
    while i < |days|
      invariant i == 7 * |weeks| && i <= |days| + 6
      invariant Concat(weeks) == days[..Min(i, |days|)]
      invariant forall w :: 0 <= w < |weeks| ==> weeks[w] == days[7 * w .. Min(7 * w + 7, |days|)]
    {
      var week := days[i .. Min(i + 7, |days|)];
      assert weeks + [week] == (weeks + [week])[..|weeks|] + [week];
      assert (weeks + [week])[..|weeks|] == weeks;
      assert days[..Min(i + 7, |days|)] == days[..i] + week;
      weeks := weeks + [week];
      i := i + 7;
    }
  }

  /** The grid is six full weeks, each starting on a Monday. */
  lemma {:induction false} CalendarGrid(monthStart: int, w: nat)
    requires w < 6
    ensures var days := CalendarDays(monthStart);
      Min(7 * w + 7, |days|) == 7 * w + 7 && Weekday(days[7 * w]) == 1
  {
    var days := CalendarDays(monthStart);
    assert days[7 * w] == days[0] + 7 * w;
    assert (days[0] + 7 * w + 4) % 7 == (days[0] + 4) % 7;
  }
}
