/** The dashboard of the single-page front end (frontend/src/App.tsx): the
    trade list filters, the per-card account/strategy scopes and date
    windows, the stats card, the outcome metrics and win/loss split, the
    equity series and the month calendar. */
module DashboardStats {
  import opened Common
  import opened Strings
  import opened JsValues
  import opened Sorting
  import opened TradesApi
  import Analytics

  /** A trade as the dashboard reads it: the fields it uses, with their
      declared types. `start`/`end` are `new Date(raw).getTime()`, None
      when the raw value does not parse (NaN); `startText`/`endText` are
      the DD-MM-YYYY display strings of `formatDate`, "" when the raw
      value was missing. */
  datatype UiTrade = UiTrade(
    tradeId: string,
    asset: string,
    session: string,
    strategy: string,
    accountName: Option<string>,
    pnl: real,
    actualRR: real,
    startText: string,
    endText: string,
    start: Option<int>,
    end: Option<int>)

  function PnlOf(t: UiTrade): real { t.pnl }

  function RrOf(t: UiTrade): real { t.actualRR }

  // ---------------------------------------------------------------------
  // Trade list filters (filteredTrades)
  // ---------------------------------------------------------------------

  /** One select of the trade list: "All" imposes nothing, anything else
      must equal the field. */
  predicate Matches(choice: string, field: string)
  {
    choice == "All" || field == choice
  }

  predicate MatchesFilters(t: UiTrade, asset: string, session: string, strategy: string)
  {
    Matches(asset, t.asset) && Matches(session, t.session) && Matches(strategy, t.strategy)
  }

  /** `filteredTrades`: the trades that pass all three selects, in order. */
  function FilteredTrades(ts: seq<UiTrade>, asset: string, session: string, strategy: string): (r: seq<UiTrade>)
    ensures IsSubsequence(r, ts)
    ensures forall t :: t in r <==>
      (t in ts && (asset == "All" || t.asset == asset) && (session == "All" || t.session == session) &&
       (strategy == "All" || t.strategy == strategy))
  {
    FilterIsSubsequence(ts, (t: UiTrade) => MatchesFilters(t, asset, session, strategy));
    Filter(ts, (t: UiTrade) => MatchesFilters(t, asset, session, strategy))
  }

  /** Three "All" selects show the whole list. */
  lemma {:induction false} FilteredAllIsIdentity(ts: seq<UiTrade>)
    ensures FilteredTrades(ts, "All", "All", "All") == ts
  {
    FilterKeepsAll(ts, (t: UiTrade) => MatchesFilters(t, "All", "All", "All"));
  }

  function AssetIs(asset: string): UiTrade -> bool { (t: UiTrade) => Matches(asset, t.asset) }

  function SessionIs(session: string): UiTrade -> bool { (t: UiTrade) => Matches(session, t.session) }

  function StrategyIs(strategy: string): UiTrade -> bool { (t: UiTrade) => Matches(strategy, t.strategy) }

  function AssetAndSession(asset: string, session: string): UiTrade -> bool
  {
    (t: UiTrade) => Matches(asset, t.asset) && Matches(session, t.session)
  }

  /** The three selects AND-combine: filtering by all three at once is
      filtering by each in turn. */
  lemma {:induction false} FiltersCompose(ts: seq<UiTrade>, asset: string, session: string, strategy: string)
    ensures FilteredTrades(ts, asset, session, strategy) ==
      Filter(Filter(Filter(ts, AssetIs(asset)), SessionIs(session)), StrategyIs(strategy))
  {
    FilterFilter(ts, AssetIs(asset), SessionIs(session), AssetAndSession(asset, session));
    FilterFilter(ts, AssetAndSession(asset, session), StrategyIs(strategy),
                 (t: UiTrade) => MatchesFilters(t, asset, session, strategy));
  }

  // ---------------------------------------------------------------------
  // Date windows and per-card scopes
  // ---------------------------------------------------------------------

  /** The bounds of the selected date range, in milliseconds; None where
      the range has no bound on that side. */
  predicate InRange(t: UiTrade, from: Option<int>, to: Option<int>)
  {
    t.start.None? ||
    ((from.None? || t.start.value >= from.value) && (to.None? || t.start.value <= to.value))
  }

  /** `withRange` / `dateFilteredTrades`: the trades whose start lies in
      the window; a start that does not parse fails both comparisons and
      is kept. Without bounds the list is returned as is. */
  function WithRange(ts: seq<UiTrade>, from: Option<int>, to: Option<int>): (r: seq<UiTrade>)
    ensures IsSubsequence(r, ts)
    ensures from.None? && to.None? ==> r == ts
    ensures forall t :: t in r <==>
      (t in ts &&
       (t.start.None? ||
        ((from.None? || from.value <= t.start.value) && (to.None? || t.start.value <= to.value))))
  {
    if from.None? && to.None? then
      IsSubsequenceRefl(ts);
      ts
    else
      FilterIsSubsequence(ts, (t: UiTrade) => InRange(t, from, to));
      Filter(ts, (t: UiTrade) => InRange(t, from, to))
  }

  /** `withPrevRange`: the half-open window [start, end) before the
      current one; a start that does not parse is never in it. */
  function WithPrevRange(ts: seq<UiTrade>, start: int, end: int): (r: seq<UiTrade>)
    ensures IsSubsequence(r, ts)
    ensures forall t :: t in r <==> t in ts && t.start.Some? && start <= t.start.value < end
  {
    FilterIsSubsequence(ts, (t: UiTrade) => t.start.Some? && start <= t.start.value < end);
    Filter(ts, (t: UiTrade) => t.start.Some? && start <= t.start.value < end)
  }

  /** Consecutive previous windows do not share a trade. */
  lemma {:induction false} PrevWindowsDisjoint(ts: seq<UiTrade>, a: int, b: int, c: int)
    requires a <= b <= c
    ensures forall t :: t in WithPrevRange(ts, a, b) ==> t !in WithPrevRange(ts, b, c)
  {
  }

  /** The account select of a card: "all", or an account name that must
      equal the trade's `account_name` (a trade without one never
      matches). */
  function WithAccount(ts: seq<UiTrade>, account: string): (r: seq<UiTrade>)
    ensures IsSubsequence(r, ts)
    ensures account == "all" ==> r == ts
    ensures account != "all" ==> forall t :: t in r <==> t in ts && t.accountName == Some(account)
  {
    if account == "all" then
      IsSubsequenceRefl(ts);
      ts
    else
      FilterIsSubsequence(ts, (t: UiTrade) => t.accountName == Some(account));
      Filter(ts, (t: UiTrade) => t.accountName == Some(account))
  }

  /** The strategy select of a card: "all", or a strategy name. */
  function WithStrategy(ts: seq<UiTrade>, strategy: string): (r: seq<UiTrade>)
    ensures IsSubsequence(r, ts)
    ensures strategy == "all" ==> r == ts
    ensures strategy != "all" ==> forall t :: t in r <==> t in ts && t.strategy == strategy
  {
    if strategy == "all" then
      IsSubsequenceRefl(ts);
      ts
    else
      FilterIsSubsequence(ts, (t: UiTrade) => t.strategy == strategy);
      Filter(ts, (t: UiTrade) => t.strategy == strategy)
  }

  /** The account and strategy selects of one dashboard card. */
  datatype CardScope = CardScope(account: string, strategy: string)

  predicate InScope(t: UiTrade, sc: CardScope)
  {
    (sc.account == "all" || t.accountName == Some(sc.account)) &&
    (sc.strategy == "all" || t.strategy == sc.strategy)
  }

  /** `withStrategy(withAccount(list, …), …)`: the trades of the card's
      account and strategy, in order. */
  function Scoped(ts: seq<UiTrade>, sc: CardScope): (r: seq<UiTrade>)
    ensures IsSubsequence(r, ts)
    ensures forall t :: t in r <==> t in ts && InScope(t, sc)
  {
    var a := WithAccount(ts, sc.account);
    var r := WithStrategy(a, sc.strategy);
    IsSubsequenceTrans(r, a, ts);
    r
  }

  // ---------------------------------------------------------------------
  // The stats card
  // ---------------------------------------------------------------------

  predicate IsWin(t: UiTrade) { t.pnl > 0.0 }

  predicate IsLoss(t: UiTrade) { t.pnl < 0.0 }

  predicate NotWin(t: UiTrade) { t.pnl <= 0.0 }

  function Abs(x: real): real { if x < 0.0 then -x else x }

  /** `winTrades.length ? (wins / winTrades.length) * 100 : 0`. */
  function WinRate(ts: seq<UiTrade>): (r: real)
    ensures ts == [] ==> r == 0.0
    ensures 0.0 <= r <= 100.0
    ensures ts != [] ==> r * (|ts| as real) == 100.0 * (CountOf(ts, IsWin) as real)
  {
    if ts == [] then 0.0
    else
      CountOfBound(ts, IsWin);
      Analytics.Percent(CountOf(ts, IsWin), |ts|)
  }

  /** `rrTrades.length ? sumRR / rrTrades.length : 0`: the mean of the
      actual risk:reward ratios, 0 without trades. */
  function AvgRR(ts: seq<UiTrade>): (r: real)
    ensures ts == [] ==> r == 0.0
    ensures ts != [] ==> r * (|ts| as real) == SumOf(ts, RrOf)
  {
    if ts == [] then 0.0 else SumOf(ts, RrOf) / (|ts| as real)
  }

  /** The change against the previous window, in percent of the previous
      window's pnl; null when that window has no trade or a zero pnl. */
  function DeltaPct(total: real, prev: seq<UiTrade>): (r: Option<real>)
    ensures r.None? <==> prev == [] || SumOf(prev, PnlOf) == 0.0
    ensures r.Some? ==> r.value * Abs(SumOf(prev, PnlOf)) == 100.0 * (total - SumOf(prev, PnlOf))
  {
    var p := SumOf(prev, PnlOf);
    if |prev| == 0 || p == 0.0 then None
    else
      var q := (total - p) / Abs(p);
      assert q * Abs(p) == total - p;
      Some(q * 100.0)
  }

  /** The delta is positive exactly when the current pnl exceeds the
      previous one, and zero exactly when they are equal. */
  lemma {:induction false} DeltaPctSign(total: real, prev: seq<UiTrade>)
    requires DeltaPct(total, prev).Some?
    ensures DeltaPct(total, prev).value > 0.0 <==> total > SumOf(prev, PnlOf)
    ensures DeltaPct(total, prev).value == 0.0 <==> total == SumOf(prev, PnlOf)
  {
    var d := DeltaPct(total, prev).value;
    var a := Abs(SumOf(prev, PnlOf));
    assert a > 0.0;
    assert d * a == 100.0 * (total - SumOf(prev, PnlOf));
    if d > 0.0 { assert d * a > 0.0; }
    if d < 0.0 { assert d * a < 0.0; }
  }

  /** The holding time of one trade in milliseconds: 0 without an end
      date, `max(0, end - start)` otherwise, NaN (None) when either date
      does not parse. */
  function HoldingMs(t: UiTrade): Option<real>
  {
    if t.endText == [] then Some(0.0)
    else if t.start.Some? && t.end.Some? then
      Some(if t.end.value - t.start.value > 0 then (t.end.value - t.start.value) as real else 0.0)
    else None
  }

  /** The sum of the holding times; a NaN term makes the sum NaN. */
  function HoldingSum(ts: seq<UiTrade>): (r: Option<real>)
    ensures r.None? <==> exists i :: 0 <= i < |ts| && HoldingMs(ts[i]).None?
    ensures r.Some? ==> r.value >= 0.0
  {
    if ts == [] then Some(0.0)
    else
      var n := |ts| - 1;
      var a := HoldingSum(ts[..n]);
      var b := HoldingMs(ts[n]);
      assert forall i :: 0 <= i < n ==> ts[..n][i] == ts[i];
      if a.Some? && b.Some? then Some(a.value + b.value) else None
  }

  /** `avgHolding`: the mean holding time in minutes, 0 without trades and
      NaN (None) as soon as one trade's dates do not parse. */
  function AvgHolding(ts: seq<UiTrade>): (r: Option<real>)
    ensures ts == [] ==> r == Some(0.0)
    ensures r.None? <==> exists i :: 0 <= i < |ts| && HoldingMs(ts[i]).None?
    ensures r.Some? ==> r.value >= 0.0
  {
    if ts == [] then Some(0.0)
    else
      match HoldingSum(ts)
      case None => None
      case Some(total) => Some(total / (|ts| as real) / 60000.0)
  }

  /** The account/strategy scope of each figure of the card. */
  datatype StatsScopes = StatsScopes(totalPnL: CardScope, winRate: CardScope, avgRR: CardScope,
                                     avgHolding: CardScope)

  datatype Stats = Stats(totalPnL: real, winRate: real, avgRR: real, avgHolding: Option<real>,
                         deltaPct: Option<real>, winCount: nat, winTradesTotal: nat)

  /** The figures of the card from the trades each one reads: the win
      count never exceeds the trades counted, the win rate is their
      percentage (0 without trades), and the delta is null exactly when
      the previous window is empty or sums to zero. */
  function StatsOf(totalTrades: seq<UiTrade>, prevTrades: seq<UiTrade>, winTrades: seq<UiTrade>,
                   rrTrades: seq<UiTrade>, holdingTrades: seq<UiTrade>): (s: Stats)
    ensures s.winCount <= s.winTradesTotal == |winTrades|
    ensures 0.0 <= s.winRate <= 100.0
    ensures s.winTradesTotal == 0 ==> s.winRate == 0.0
    ensures s.winTradesTotal > 0 ==> s.winRate * (s.winTradesTotal as real) == 100.0 * (s.winCount as real)
    ensures s.deltaPct.None? <==> prevTrades == [] || SumOf(prevTrades, PnlOf) == 0.0
    ensures s.avgRR == AvgRR(rrTrades) && s.avgHolding == AvgHolding(holdingTrades)
  {
    var totalPnL := SumOf(totalTrades, PnlOf);
    var winRate := WinRate(winTrades);
    var delta := DeltaPct(totalPnL, prevTrades);
    CountOfBound(winTrades, IsWin);
    Stats(totalPnL, winRate, AvgRR(rrTrades), AvgHolding(holdingTrades),
          delta, CountOf(winTrades, IsWin), |winTrades|)
  }

  /** `stats`: each figure over the trades of the selected range and the
      figure's scope; the delta compares with the same scope over the
      previous window [prevStart, prevEnd). */
  function ComputeStats(ts: seq<UiTrade>, from: Option<int>, to: Option<int>, prevStart: int, prevEnd: int,
                        sc: StatsScopes): (s: Stats)
    ensures s.winTradesTotal <= |ts|
  {
    var range := WithRange(ts, from, to);
    var winTrades := Scoped(range, sc.winRate);
    SubsequenceLength(winTrades, range);
    SubsequenceLength(range, ts);
    StatsOf(Scoped(range, sc.totalPnL), Scoped(WithPrevRange(ts, prevStart, prevEnd), sc.totalPnL),
            winTrades, Scoped(range, sc.avgRR), Scoped(range, sc.avgHolding))
  }

  // ---------------------------------------------------------------------
  // winLossData
  // ---------------------------------------------------------------------

  datatype WinLoss = WinLoss(wins: nat, winsProfit: real, losses: nat, lossesProfit: real)

  /** Trades with a positive pnl against the others (break-even counts as a
      loss): the two counts add up to the number of trades and the two
      profits to the total pnl. */
  function WinLossData(ts: seq<UiTrade>): (r: WinLoss)
    ensures r.wins + r.losses == |ts|
    ensures r.winsProfit + r.lossesProfit == SumOf(ts, PnlOf)
    ensures r.winsProfit >= 0.0 && r.lossesProfit <= 0.0
    ensures r.wins == 0 <==> forall t :: t in ts ==> t.pnl <= 0.0
  {
    var wins := Filter(ts, IsWin);
    var losses := Filter(ts, NotWin);
    CountOfSplit(ts, IsWin, NotWin);
    SumOfSplit(ts, PnlOf, IsWin, NotWin);
    SumOfPositive(wins);
    SumOfNonPositive(losses);
    WinLoss(|wins|, SumOf(wins, PnlOf), |losses|, SumOf(losses, PnlOf))
  }

  /** A sum of positive pnls is non-negative, and zero only when empty. */
  lemma {:induction false} SumOfPositive(ws: seq<UiTrade>)
    requires forall t :: t in ws ==> t.pnl > 0.0
    ensures SumOf(ws, PnlOf) >= 0.0
    ensures SumOf(ws, PnlOf) == 0.0 <==> ws == []
  {
    if ws != [] {
      var n := |ws| - 1;
      assert forall t :: t in ws[..n] ==> t in ws;
      SumOfPositive(ws[..n]);
      assert ws[n] in ws;
    }
  }

  /** A sum of non-positive pnls is non-positive. */
  lemma {:induction false} SumOfNonPositive(ls: seq<UiTrade>)
    requires forall t :: t in ls ==> t.pnl <= 0.0
    ensures SumOf(ls, PnlOf) <= 0.0
  {
    if ls != [] {
      var n := |ls| - 1;
      assert forall t :: t in ls[..n] ==> t in ls;
      SumOfNonPositive(ls[..n]);
      assert ls[n] in ls;
    }
  }

  /** A sum of negative pnls is non-positive, and zero only when empty. */
  lemma {:induction false} SumOfNegative(ls: seq<UiTrade>)
    requires forall t :: t in ls ==> t.pnl < 0.0
    ensures SumOf(ls, PnlOf) <= 0.0
    ensures SumOf(ls, PnlOf) == 0.0 <==> ls == []
  {
    if ls != [] {
      var n := |ls| - 1;
      assert forall t :: t in ls[..n] ==> t in ls;
      SumOfNegative(ls[..n]);
      assert ls[n] in ls;
    }
  }

  // ---------------------------------------------------------------------
  // Grouping into a Map (insertion-ordered buckets)
  // ---------------------------------------------------------------------

  /** One trade's contribution to a grouping: its bucket key and pnl. */
  datatype Entry = Entry(key: string, pnl: real)

  /** One Map entry: its key, the pnl summed into it and how many trades
      fell into it. */
  datatype Bucket = Bucket(key: string, pnl: real, count: nat)

  predicate DistinctKeys(bs: seq<Bucket>)
  {
    forall i, j :: 0 <= i < j < |bs| ==> bs[i].key != bs[j].key
  }

  /** The position of key `k`, or `|bs|` when the Map has no such key. */
  function FindKey(bs: seq<Bucket>, k: string): (i: nat)
    ensures i <= |bs|
    ensures i < |bs| ==> bs[i].key == k
    ensures i == |bs| ==> forall j :: 0 <= j < |bs| ==> bs[j].key != k
  {
    if bs == [] then 0
    else if bs[0].key == k then 0
    else 1 + FindKey(bs[1..], k)
  }

  /** `map.set(key, (map.get(key) ?? zero) + entry)`: an existing key keeps
      its place, a new key goes last. */
  function Tally(bs: seq<Bucket>, e: Entry): (r: seq<Bucket>)
    ensures r != []
  {
    var i := FindKey(bs, e.key);
    if i == |bs| then bs + [Bucket(e.key, e.pnl, 1)]
    else bs[i := Bucket(e.key, bs[i].pnl + e.pnl, bs[i].count + 1)]
  }

  /** The Map after tallying the entries in order. */
  function GroupAll(es: seq<Entry>): (bs: seq<Bucket>)
    ensures es != [] ==> bs != []
  {
    if es == [] then [] else Tally(GroupAll(es[..|es| - 1]), es[|es| - 1])
  }

  /** The pnl of the entries with key `k`. */
  function KeySum(es: seq<Entry>, k: string): real
  {
    if es == [] then 0.0
    else KeySum(es[..|es| - 1], k) + (if es[|es| - 1].key == k then es[|es| - 1].pnl else 0.0)
  }

  /** The number of entries with key `k`. */
  function KeyCount(es: seq<Entry>, k: string): nat
  {
    if es == [] then 0
    else KeyCount(es[..|es| - 1], k) + (if es[|es| - 1].key == k then 1 else 0)
  }

  /** The pnl of all the entries. */
  function EntriesPnl(es: seq<Entry>): real
  {
    if es == [] then 0.0 else EntriesPnl(es[..|es| - 1]) + es[|es| - 1].pnl
  }

  /** The pnl held in all the buckets. */
  function BucketsPnl(bs: seq<Bucket>): real
  {
    if bs == [] then 0.0 else BucketsPnl(bs[..|bs| - 1]) + bs[|bs| - 1].pnl
  }

  /** The trades counted in all the buckets. */
  function BucketsCount(bs: seq<Bucket>): nat
  {
    if bs == [] then 0 else BucketsCount(bs[..|bs| - 1]) + bs[|bs| - 1].count
  }

  /** Each bucket holds exactly its key's pnl and (non-zero) number of
      entries. */
  ghost predicate BucketsMatch(bs: seq<Bucket>, es: seq<Entry>)
  {
    forall i :: 0 <= i < |bs| ==>
      bs[i].pnl == KeySum(es, bs[i].key) && bs[i].count == KeyCount(es, bs[i].key) && bs[i].count > 0
  }

  /** Every key that occurs has a bucket. */
  ghost predicate KeysCovered(bs: seq<Bucket>, es: seq<Entry>)
  {
    forall k :: KeyCount(es, k) > 0 ==> FindKey(bs, k) < |bs|
  }

  /** `bs` is the grouping of `es`: one bucket per key that occurs, holding
      exactly that key's pnl and number of entries. */
  ghost predicate Summarises(bs: seq<Bucket>, es: seq<Entry>)
  {
    DistinctKeys(bs) && BucketsMatch(bs, es) && KeysCovered(bs, es)
  }

  lemma {:induction false} KeySnoc(es: seq<Entry>, e: Entry, k: string)
    ensures KeySum(es + [e], k) == KeySum(es, k) + (if e.key == k then e.pnl else 0.0)
    ensures KeyCount(es + [e], k) == KeyCount(es, k) + (if e.key == k then 1 else 0)
    ensures EntriesPnl(es + [e]) == EntriesPnl(es) + e.pnl
  {
    assert (es + [e])[..|es|] == es;
  }

  /** A key with no entries has no pnl. */
  lemma {:induction false} KeySumZero(es: seq<Entry>, k: string)
    requires KeyCount(es, k) == 0
    ensures KeySum(es, k) == 0.0
  {
    if es != [] { KeySumZero(es[..|es| - 1], k); }
  }

  /** Tallying one more entry keeps the Map a grouping of the entries. */
  lemma {:induction false} TallyStep(bs: seq<Bucket>, es: seq<Entry>, e: Entry)
    requires Summarises(bs, es)
    ensures Summarises(Tally(bs, e), es + [e])
  {
    if FindKey(bs, e.key) == |bs| {
      TallyNewKey(bs, es, e);
    } else {
      TallyKnownKey(bs, es, e);
    }
  }

  /** A key seen for the first time gets a bucket of its own at the end. */
  lemma {:induction false} TallyNewKey(bs: seq<Bucket>, es: seq<Entry>, e: Entry)
    requires Summarises(bs, es) && FindKey(bs, e.key) == |bs|
    ensures Summarises(Tally(bs, e), es + [e])
  {
    var es1 := es + [e];
    var b1 := Tally(bs, e);
    assert b1 == bs + [Bucket(e.key, e.pnl, 1)];
    assert KeyCount(es, e.key) == 0;
    KeySumZero(es, e.key);
    forall j | 0 <= j < |b1|
      ensures b1[j].pnl == KeySum(es1, b1[j].key) && b1[j].count == KeyCount(es1, b1[j].key)
    {
      KeySnoc(es, e, b1[j].key);
    }
    NewKeyCovered(bs, es, e);
  }

  lemma {:induction false} NewKeyCovered(bs: seq<Bucket>, es: seq<Entry>, e: Entry)
    requires KeysCovered(bs, es) && FindKey(bs, e.key) == |bs|
    ensures KeysCovered(Tally(bs, e), es + [e])
  {
    var b1 := Tally(bs, e);
    assert b1 == bs + [Bucket(e.key, e.pnl, 1)];
    forall k | KeyCount(es + [e], k) > 0 ensures FindKey(b1, k) < |b1| {
      KeySnoc(es, e, k);
      if k != e.key {
        assert b1[FindKey(bs, k)].key == k;
      } else {
        assert b1[|bs|].key == k;
      }
    }
  }

  /** A known key's bucket keeps its place and takes the entry in. */
  lemma {:induction false} TallyKnownKey(bs: seq<Bucket>, es: seq<Entry>, e: Entry)
    requires Summarises(bs, es) && FindKey(bs, e.key) < |bs|
    ensures Summarises(Tally(bs, e), es + [e])
  {
    var es1 := es + [e];
    var i := FindKey(bs, e.key);
    var b1 := Tally(bs, e);
    assert b1 == bs[i := Bucket(e.key, bs[i].pnl + e.pnl, bs[i].count + 1)];
    forall j | 0 <= j < |b1|
      ensures b1[j].key == bs[j].key
      ensures b1[j].pnl == KeySum(es1, b1[j].key) && b1[j].count == KeyCount(es1, b1[j].key)
    {
      KeySnoc(es, e, b1[j].key);
    }
    KnownKeyCovered(bs, es, e);
  }

  lemma {:induction false} KnownKeyCovered(bs: seq<Bucket>, es: seq<Entry>, e: Entry)
    requires KeysCovered(bs, es) && FindKey(bs, e.key) < |bs|
    ensures KeysCovered(Tally(bs, e), es + [e])
  {
    var i := FindKey(bs, e.key);
    var b1 := Tally(bs, e);
    assert b1 == bs[i := Bucket(e.key, bs[i].pnl + e.pnl, bs[i].count + 1)];
    forall k | KeyCount(es + [e], k) > 0 ensures FindKey(b1, k) < |b1| {
      KeySnoc(es, e, k);
      if k != e.key {
        assert b1[FindKey(bs, k)].key == k;
      } else {
        assert b1[i].key == k;
      }
    }
  }

  /** The grouping of the entries, and its totals. */
  lemma {:induction false} GroupAllSummarises(es: seq<Entry>)
    ensures Summarises(GroupAll(es), es)
  {
    if es != [] {
      var n := |es| - 1;
      GroupAllSummarises(es[..n]);
      TallyStep(GroupAll(es[..n]), es[..n], es[n]);
      assert es[..n] + [es[n]] == es;
    }
  }

  lemma {:induction false} BucketsAppend(bs: seq<Bucket>, b: Bucket)
    ensures BucketsPnl(bs + [b]) == BucketsPnl(bs) + b.pnl
    ensures BucketsCount(bs + [b]) == BucketsCount(bs) + b.count
  {
    assert (bs + [b])[..|bs|] == bs;
  }

  /** Replacing one bucket changes the totals by the difference. */
  lemma {:induction false} BucketsUpdate(bs: seq<Bucket>, i: nat, b: Bucket)
    requires i < |bs|
    ensures BucketsPnl(bs[i := b]) == BucketsPnl(bs) - bs[i].pnl + b.pnl
    ensures BucketsCount(bs[i := b]) == BucketsCount(bs) - bs[i].count + b.count
  {
    var n := |bs| - 1;
    if i == n {
      assert bs[i := b][..n] == bs[..n];
    } else {
      BucketsUpdate(bs[..n], i, b);
      assert bs[i := b][..n] == bs[..n][i := b];
    }
  }

  /** Tallying adds the entry's pnl and one trade to the totals. */
  lemma {:induction false} TallyTotals(bs: seq<Bucket>, e: Entry)
    ensures BucketsPnl(Tally(bs, e)) == BucketsPnl(bs) + e.pnl
    ensures BucketsCount(Tally(bs, e)) == BucketsCount(bs) + 1
  {
    var i := FindKey(bs, e.key);
    if i == |bs| {
      BucketsAppend(bs, Bucket(e.key, e.pnl, 1));
    } else {
      BucketsUpdate(bs, i, Bucket(e.key, bs[i].pnl + e.pnl, bs[i].count + 1));
    }
  }

  /** The buckets hold all the pnl and all the entries. */
  lemma {:induction false} GroupAllTotals(es: seq<Entry>)
    ensures BucketsPnl(GroupAll(es)) == EntriesPnl(es)
    ensures BucketsCount(GroupAll(es)) == |es|
  {
    if es != [] {
      var n := |es| - 1;
      GroupAllTotals(es[..n]);
      TallyTotals(GroupAll(es[..n]), es[n]);
      KeySnoc(es[..n], es[n], es[n].key);
      assert es[..n] + [es[n]] == es;
    }
  }

  // ---------------------------------------------------------------------
  // outcomeMetrics
  // ---------------------------------------------------------------------

  /** `t.strategy || "—"`: trades without a strategy are grouped together. */
  function StrategyKey(t: UiTrade): string
  {
    if t.strategy == [] then "—" else t.strategy
  }

  /** The (strategy, pnl) entries of the trades, in order. */
  function StrategyEntries(ts: seq<UiTrade>): (es: seq<Entry>)
    ensures |es| == |ts|
    ensures forall i :: 0 <= i < |ts| ==> es[i] == Entry(StrategyKey(ts[i]), ts[i].pnl)
  {
    if ts == [] then [] else StrategyEntries(ts[..|ts| - 1]) + [Entry(StrategyKey(ts[|ts| - 1]), ts[|ts| - 1].pnl)]
  }

  /** Bucket `b` has strictly more pnl than every bucket before it and at
      least as much as every bucket after it. */
  predicate IsFirstMax(bs: seq<Bucket>, b: nat)
  {
    b < |bs| &&
    (forall j :: 0 <= j < b ==> bs[j].pnl < bs[b].pnl) &&
    (forall j :: b < j < |bs| ==> bs[j].pnl <= bs[b].pnl)
  }

  /** The index of the first bucket with the largest pnl. */
  function FirstMaxIndex(bs: seq<Bucket>): (b: nat)
    requires bs != []
    ensures IsFirstMax(bs, b)
  {
    var n := |bs| - 1;
    if n == 0 then 0
    else
      var k := FirstMaxIndex(bs[..n]);
      assert forall j :: 0 <= j < n ==> bs[..n][j] == bs[j];
      if bs[n].pnl > bs[k].pnl then n else k
  }

  /** The `forEach` over the Map: starting from `bestPnL = -Infinity`
      (None), a bucket replaces the best only with strictly more pnl, so
      the first bucket always does and ties keep the earlier one. */
  method BestStrategy(bs: seq<Bucket>) returns (best: string)
    ensures bs == [] ==> best == "—"
    ensures bs != [] ==> best == bs[FirstMaxIndex(bs)].key
  {
    best := "—";
    var bestPnl: Option<real> := None;
    ghost var at: nat := 0;
    for i := 0 to |bs|
      invariant i == 0 ==> bestPnl.None? && best == "—"
      invariant i > 0 ==> at == FirstMaxIndex(bs[..i]) && bestPnl == Some(bs[at].pnl) && best == bs[at].key
    {
      if i > 0 {
        assert bs[..i + 1][..i] == bs[..i];
      }
      if bestPnl.None? || bs[i].pnl > bestPnl.value {
        bestPnl := Some(bs[i].pnl);
        best := bs[i].key;
        at := i;
      }
    }
    if bs != [] {
      assert bs[..|bs|] == bs;
    }
  }

  /** `Infinity` stands apart from the finite ratios. */
  datatype ProfitFactor = Ratio(x: real) | Infinite

  function GrossProfit(ts: seq<UiTrade>): real
  {
    SumOf(Filter(ts, IsWin), PnlOf)
  }

  function GrossLoss(ts: seq<UiTrade>): real
  {
    Abs(SumOf(Filter(ts, IsLoss), PnlOf))
  }

  /** `grossLoss > 0 ? grossProfit / grossLoss : grossProfit > 0 ? Infinity : 0`,
      replaced by null when both gross figures are 0. */
  function ProfitFactorOf(ts: seq<UiTrade>): Option<ProfitFactor>
  {
    var gp := GrossProfit(ts);
    var gl := GrossLoss(ts);
    if gp == 0.0 && gl == 0.0 then None
    else if gl > 0.0 then Some(Ratio(gp / gl))
    else if gp > 0.0 then Some(Infinite)
    else Some(Ratio(0.0))
  }

  /** The gross figures are zero exactly when there is no winning,
      respectively no losing, trade. */
  lemma {:induction false} GrossFigures(ts: seq<UiTrade>)
    ensures GrossProfit(ts) >= 0.0 && GrossLoss(ts) >= 0.0
    ensures GrossProfit(ts) == 0.0 <==> forall t :: t in ts ==> t.pnl <= 0.0
    ensures GrossLoss(ts) == 0.0 <==> forall t :: t in ts ==> t.pnl >= 0.0
  {
    var ws := Filter(ts, IsWin);
    var ls := Filter(ts, IsLoss);
    SumOfPositive(ws);
    SumOfNegative(ls);
    if ws != [] { assert ws[0] in ws; }
    if ls != [] { assert ls[0] in ls; }
  }

  /** The profit factor is null exactly when every trade broke even,
      Infinity exactly when there are wins and no losses, and otherwise the
      non-negative ratio of gross profit to a positive gross loss. */
  lemma {:induction false} ProfitFactorCases(ts: seq<UiTrade>)
    ensures ProfitFactorOf(ts).None? <==> forall t :: t in ts ==> t.pnl == 0.0
    ensures ProfitFactorOf(ts) == Some(Infinite) <==>
      (exists t :: t in ts && t.pnl > 0.0) && forall t :: t in ts ==> t.pnl >= 0.0
    ensures ProfitFactorOf(ts).Some? && ProfitFactorOf(ts).value.Ratio? ==>
      (exists t :: t in ts && t.pnl < 0.0) && ProfitFactorOf(ts).value.x >= 0.0 &&
      ProfitFactorOf(ts).value.x * GrossLoss(ts) == GrossProfit(ts)
  {
    GrossFigures(ts);
    var gp := GrossProfit(ts);
    var gl := GrossLoss(ts);
    if gl > 0.0 {
      var x := gp / gl;
      assert x * gl == gp;
      QuotientNonNeg(gp, gl);
    }
  }

  lemma {:induction false} QuotientNonNeg(a: real, b: real)
    requires a >= 0.0 && b > 0.0
    ensures a / b >= 0.0
  {
  }

  lemma {:induction false} QuotientTimes(a: real, b: real)
    requires b > 0.0
    ensures (a / b) * b == a
  {
  }

  /** `totalPnL / trades.length`: the mean pnl per trade. */
  function Expectancy(ts: seq<UiTrade>): (e: real)
    requires ts != []
    ensures e * (|ts| as real) == SumOf(ts, PnlOf)
  {
    var total := SumOf(ts, PnlOf);
    QuotientTimes(total, |ts| as real);
    total / (|ts| as real)
  }

  datatype Outcome = Outcome(bestStrategy: string, profitFactor: Option<ProfitFactor>, expectancy: Option<real>)

  /** `outcomeMetrics`: ("—", null, null) without trades; otherwise the
      best strategy of the per-strategy Map, the profit factor and the mean
      pnl per trade. */
  method OutcomeMetrics(ts: seq<UiTrade>) returns (m: Outcome)
    ensures ts == [] ==> m == Outcome("—", None, None)
    ensures ts != [] ==> m.profitFactor == ProfitFactorOf(ts)
    ensures ts != [] ==> m.expectancy == Some(Expectancy(ts))
    ensures ts != [] ==>
      var bs := GroupAll(StrategyEntries(ts));
      bs != [] && m.bestStrategy == bs[FirstMaxIndex(bs)].key
  {
    if |ts| == 0 {
      return Outcome("—", None, None);
    }
    var byStrategy := GroupByStrategy(ts);
    var best := BestStrategy(byStrategy);
    m := Outcome(best, ProfitFactorOf(ts), Some(Expectancy(ts)));
  }

  /** The `for` loop filling `byStrategy`. */
  method GroupByStrategy(ts: seq<UiTrade>) returns (byStrategy: seq<Bucket>)
    ensures byStrategy == GroupAll(StrategyEntries(ts))
  {
    byStrategy := [];
    for i := 0 to |ts|
      invariant byStrategy == GroupAll(StrategyEntries(ts[..i]))
    {
      assert ts[..i + 1][..i] == ts[..i];
      byStrategy := Tally(byStrategy, Entry(StrategyKey(ts[i]), ts[i].pnl));
    }
    assert ts[..|ts|] == ts;
  }

  /** An entry makes its key's count positive. */
  lemma {:induction false} KeyCountOfMember(es: seq<Entry>, i: nat)
    requires i < |es|
    ensures KeyCount(es, es[i].key) > 0
  {
    var n := |es| - 1;
    if i < n {
      KeyCountOfMember(es[..n], i);
    }
  }

  /** The best strategy's summed pnl is at least that of the strategy of
      any trade. */
  lemma {:induction false} BestStrategyIsBest(ts: seq<UiTrade>)
    requires ts != []
    ensures var bs := GroupAll(StrategyEntries(ts));
      forall i :: 0 <= i < |ts| ==>
        KeySum(StrategyEntries(ts), StrategyKey(ts[i])) <= KeySum(StrategyEntries(ts), bs[FirstMaxIndex(bs)].key)
  {
    var es := StrategyEntries(ts);
    var bs := GroupAll(es);
    var b := FirstMaxIndex(bs);
    GroupAllSummarises(es);
    forall i | 0 <= i < |ts| ensures KeySum(es, StrategyKey(ts[i])) <= KeySum(es, bs[b].key) {
      KeyCountOfMember(es, i);
      var j := FindKey(bs, es[i].key);
      assert bs[j].pnl <= bs[b].pnl;
    }
  }
}
