/** The `/analytics` routes (backend/src/routes/analytics.js): the equity
    series, the overview totals, the per-session rollup and the merged
    picker lists of `/filters`. */
module Analytics {
  import opened Common
  import opened Strings
  import opened JsValues
  import opened Sorting
  import opened TradesRoute

  // ---------------------------------------------------------------------
  // buildPnLSeries
  // ---------------------------------------------------------------------

  /** The balance the equity curve starts from. */
  const StartingEquity: real := 10000.0

  /** A point of the equity curve: the trade's start, its pnl (null as 0)
      and the running equity after it. */
  datatype PnlPoint = PnlPoint(date: int, pnl: real, equity: real)

  /** Oldest first, the comparator `a.start - b.start`. */
  function ByStartAsc(): (Trade, Trade) -> bool
  {
    KeyLe(StartOf)
  }

  /** The trades in the order `buildPnLSeries` sorts them to. */
  function OldestFirst(trades: seq<Trade>): (r: seq<Trade>)
    ensures |r| == |trades| && multiset(r) == multiset(trades)
    ensures forall i, j :: 0 <= i < j < |r| ==> StartOf(r[i]) <= StartOf(r[j])
  {
    KeyLeTotalPreorder(StartOf);
    var r := Sort(trades, ByStartAsc());
    assert Sorted(r, ByStartAsc());
    r
  }

  /** `buildPnLSeries(trades)`: one point per trade, oldest first; the
      equity of point `i` is the starting balance plus the pnl of the first
      `i + 1` trades. */
  method BuildPnLSeries(trades: seq<Trade>) returns (points: seq<PnlPoint>)
    ensures var sorted := OldestFirst(trades);
      |points| == |trades| &&
      forall i :: 0 <= i < |points| ==>
        points[i].date == StartOf(sorted[i]) && points[i].pnl == PnlOrZero(sorted[i]) &&
        points[i].equity == StartingEquity + SumOf(sorted[..i + 1], PnlOrZero)
  {
    var sorted := OldestFirst(trades);
    points := RunningEquity(sorted);
  }

  /** The loop of `buildPnLSeries` over the sorted trades: the running
      equity after each trade. */
  method RunningEquity(sorted: seq<Trade>) returns (points: seq<PnlPoint>)
    ensures |points| == |sorted|
    ensures forall j :: 0 <= j < |sorted| ==> points[j] == PointOf(sorted, j)
  {
    var equity := StartingEquity;
    points := [];
    for i := 0 to |sorted|
      invariant |points| == i
      invariant equity == EquityAfter(sorted, i)
      invariant forall j :: 0 <= j < i ==> points[j] == PointOf(sorted, j)
    {
      EquityStep(sorted, i);
      equity := equity + PnlOrZero(sorted[i]);
      points := points + [PnlPoint(StartOf(sorted[i]), PnlOrZero(sorted[i]), equity)];
    }
  }

  /** The equity after the first `i` trades. */
  function EquityAfter(sorted: seq<Trade>, i: nat): real
    requires i <= |sorted|
  {
    StartingEquity + SumOf(sorted[..i], PnlOrZero)
  }

  /** The point of trade `j`. */
  function PointOf(sorted: seq<Trade>, j: nat): PnlPoint
    requires j < |sorted|
  {
    PnlPoint(StartOf(sorted[j]), PnlOrZero(sorted[j]), EquityAfter(sorted, j + 1))
  }

  /** One more trade adds its pnl to the equity. */
  lemma EquityStep(sorted: seq<Trade>, i: nat)
    requires i < |sorted|
    ensures EquityAfter(sorted, i + 1) == EquityAfter(sorted, i) + PnlOrZero(sorted[i])
  {
    assert sorted[..i + 1][..i] == sorted[..i];
  }

  /** Summing from the front. */
  lemma SumOfCons<T>(x: T, s: seq<T>, f: T -> real)
    ensures SumOf([x] + s, f) == f(x) + SumOf(s, f)
  {
    SumOfAppend([x], s, f);
    assert SumOf([x], f) == SumOf([], f) + f(x);
  }

  /** Inserting an element adds its value to the sum. */
  lemma {:induction false} SumOfInsert<T(!new)>(x: T, s: seq<T>, le: (T, T) -> bool, f: T -> real)
    requires TotalPreorder(le) && Sorted(s, le)
    ensures SumOf(Insert(x, s, le), f) == f(x) + SumOf(s, f)
  {
    if s == [] {
      SumOfCons(x, s, f);
    } else if le(x, s[0]) {
      SumOfCons(x, s, f);
    } else {
      assert s == [s[0]] + s[1..];
      SumOfInsert(x, s[1..], le, f);
      SumOfCons(s[0], Insert(x, s[1..], le), f);
      SumOfCons(s[0], s[1..], f);
    }
  }

  /** Sorting does not change a sum. */
  lemma {:induction false} SumOfSort<T(!new)>(s: seq<T>, le: (T, T) -> bool, f: T -> real)
    requires TotalPreorder(le)
    ensures SumOf(Sort(s, le), f) == SumOf(s, f)
  {
    if s != [] {
      assert s == [s[0]] + s[1..];
      SumOfSort(s[1..], le, f);
      SumOfInsert(s[0], Sort(s[1..], le), le, f);
      SumOfCons(s[0], s[1..], f);
    }
  }

  /** The last point of the curve is the starting balance plus the total
      pnl of all trades, whatever their order. */
  lemma EquityEndsAtTotal(trades: seq<Trade>)
    requires trades != []
    ensures var sorted := OldestFirst(trades);
      StartingEquity + SumOf(sorted[..|sorted|], PnlOrZero) == StartingEquity + SumOf(trades, PnlOrZero)
  {
    var sorted := OldestFirst(trades);
    assert sorted[..|sorted|] == sorted;
    KeyLeTotalPreorder(StartOf);
    SumOfSort(trades, ByStartAsc(), PnlOrZero);
  }

  // ---------------------------------------------------------------------
  // GET /analytics/overview
  // ---------------------------------------------------------------------

  /** `trade.actual_risk_reward ?? 0`. */
  function RrOrZero(t: Trade): real
  {
    t.data.actualRiskReward.GetOr(0.0)
  }

  /** A win: `(trade.pnl ?? 0) > 0`. */
  predicate IsWin(t: Trade)
  {
    PnlOrZero(t) > 0.0
  }

  /** `trades.length ? (wins / trades.length) * 100 : 0`: a percentage, 0
      without trades, and the share of wins otherwise. */
  function WinRate(trades: seq<Trade>): (r: real)
    ensures trades == [] ==> r == 0.0
    ensures 0.0 <= r <= 100.0
    ensures trades != [] ==> r * (|trades| as real) == 100.0 * (CountOf(trades, IsWin) as real)
  {
    if |trades| == 0 then 0.0
    else
      CountOfBound(trades, IsWin);
      var r := Percent(CountOf(trades, IsWin), |trades|);
      r
  }

  /** `(w / n) * 100`: the share of `w` in `n` as a percentage. */
  function Percent(w: nat, n: nat): (r: real)
    requires 0 < n && w <= n
    ensures 0.0 <= r <= 100.0
    ensures r * (n as real) == 100.0 * (w as real)
  {
    var q := w as real / n as real;
    assert q * (n as real) == w as real;
    assert q <= 1.0 by {
      if q > 1.0 {
        assert q * (n as real) > 1.0 * (n as real);
      }
    }
    q * 100.0
  }

  /** The sum of the actual risk-reward ratios over `(n || 1)`: 0 without
      trades, the mean otherwise. */
  function AvgRR(trades: seq<Trade>): (r: real)
    ensures trades == [] ==> r == 0.0
    ensures trades != [] ==> r * (|trades| as real) == SumOf(trades, RrOrZero)
  {
    SumOf(trades, RrOrZero) / (if |trades| == 0 then 1 else |trades|) as real
  }

  /** The body of GET /overview. */
  datatype Overview = Overview(totalPnL: real, tradeCount: nat, winRate: real, avgRR: real,
                               equityCurve: seq<PnlPoint>)

  /** GET /overview: the totals over every trade and the equity curve,
      whose last point is the starting balance plus the total pnl. */
  method GetOverview(trades: seq<Trade>) returns (o: Overview)
    ensures o.totalPnL == SumOf(trades, PnlOrZero) && o.tradeCount == |trades|
    ensures 0.0 <= o.winRate <= 100.0 && (trades == [] ==> o.winRate == 0.0 && o.avgRR == 0.0)
    ensures o.winRate == WinRate(trades) && o.avgRR == AvgRR(trades)
    ensures |o.equityCurve| == |trades|
    ensures trades != [] ==> o.equityCurve[|trades| - 1].equity == StartingEquity + o.totalPnL
  {
    var curve := BuildPnLSeries(trades);
    if trades != [] {
      EquityEndsAtTotal(trades);
    }
    o := Overview(SumOf(trades, PnlOrZero), |trades|, WinRate(trades), AvgRR(trades), curve);
  }

  // ---------------------------------------------------------------------
  // GET /analytics/sessions
  // ---------------------------------------------------------------------

  /** The members a plain `{}` inherits from `Object.prototype`. For these
      keys `acc[key]` is already truthy, so the reducer creates no own entry
      (its increments land on the inherited member) and `res.json` leaves
      their trades out. */
  const InheritedKeys: set<string> := {
    "constructor", "__defineGetter__", "__defineSetter__", "hasOwnProperty",
    "__lookupGetter__", "__lookupSetter__", "isPrototypeOf", "propertyIsEnumerable",
    "toString", "valueOf", "__proto__", "toLocaleString"}

  predicate Inherited(key: string)
  {
    key in InheritedKeys
  }

  /** A trade whose session gets an own entry of the `/sessions` object. */
  predicate HasOwnBucket(t: Trade)
  {
    !Inherited(SessionKey(t))
  }

  /** The trades the `/sessions` object accounts for, in order. */
  function OwnSessions(trades: seq<Trade>): seq<Trade>
  {
    Filter(trades, HasOwnBucket)
  }

  /** One entry of the `/sessions` object: its key and `{ trades, pnl }`. */
  datatype SessionBucket = SessionBucket(session: string, trades: nat, pnl: real)

  /** The object key of a trade's session. */
  function SessionKey(t: Trade): string
  {
    ToString(t.data.session)
  }

  function SessionKeys(trades: seq<Trade>): (r: seq<string>)
    ensures |r| == |trades| && forall i :: 0 <= i < |trades| ==> r[i] == SessionKey(trades[i])
  {
    seq(|trades|, i requires 0 <= i < |trades| => SessionKey(trades[i]))
  }

  /** The number of trades of session `k`. */
  function CountSession(trades: seq<Trade>, k: string): nat
  {
    if trades == [] then 0
    else CountSession(trades[..|trades| - 1], k) + (if SessionKey(trades[|trades| - 1]) == k then 1 else 0)
  }

  /** The pnl (null as 0) of the trades of session `k`. */
  function PnlSession(trades: seq<Trade>, k: string): real
  {
    if trades == [] then 0.0
    else PnlSession(trades[..|trades| - 1], k) + (if SessionKey(trades[|trades| - 1]) == k then PnlOrZero(trades[|trades| - 1]) else 0.0)
  }

  function BucketKeys(acc: seq<SessionBucket>): (r: seq<string>)
    ensures |r| == |acc| && forall i :: 0 <= i < |acc| ==> r[i] == acc[i].session
  {
    seq(|acc|, i requires 0 <= i < |acc| => acc[i].session)
  }

  function TotalTrades(acc: seq<SessionBucket>): nat
  {
    if acc == [] then 0 else TotalTrades(acc[..|acc| - 1]) + acc[|acc| - 1].trades
  }

  function TotalPnl(acc: seq<SessionBucket>): real
  {
    if acc == [] then 0.0 else TotalPnl(acc[..|acc| - 1]) + acc[|acc| - 1].pnl
  }

  /** Position of the bucket of `key` (`acc[key]`), or `|acc|`. */
  function FindSession(acc: seq<SessionBucket>, key: string): (i: nat)
    ensures i <= |acc|
    ensures i < |acc| ==> acc[i].session == key
    ensures i == |acc| ==> key !in BucketKeys(acc)
  {
    if acc == [] then 0
    else if acc[0].session == key then 0
    else
      var i := 1 + FindSession(acc[1..], key);
      assert BucketKeys(acc) == [acc[0].session] + BucketKeys(acc[1..]);
      i
  }

  /** One pass of the `reduce`: an inherited key changes no own entry;
      otherwise the trade is tallied in its session's bucket. */
  function Reduce(acc: seq<SessionBucket>, t: Trade): seq<SessionBucket>
  {
    if Inherited(SessionKey(t)) then acc else Tally(acc, t)
  }

  /** The pass for a key with an own entry: create the bucket of the trade's
      session when missing, then count the trade and add its pnl. */
  function Tally(acc: seq<SessionBucket>, t: Trade): seq<SessionBucket>
  {
    var key := SessionKey(t);
    var i := FindSession(acc, key);
    var a1 := WithBucket(acc, key);
    a1[i := SessionBucket(key, a1[i].trades + 1, a1[i].pnl + PnlOrZero(t))]
  }

  /** `acc[key] ??= { trades: 0, pnl: 0 }`: the bucket of `key` is at
      `FindSession(acc, key)` afterwards. */
  function WithBucket(acc: seq<SessionBucket>, key: string): (a1: seq<SessionBucket>)
    ensures FindSession(acc, key) < |a1| && a1[FindSession(acc, key)].session == key
    ensures |a1| == |acc| + (if FindSession(acc, key) == |acc| then 1 else 0)
    ensures a1[..|acc|] == acc
  {
    if FindSession(acc, key) == |acc| then acc + [SessionBucket(key, 0, 0.0)] else acc
  }

  /** The buckets after the trades `p`: one per session in order of first
      appearance, each holding its session's count and pnl, and the totals
      adding up to all of `p`. */
  ghost predicate Tallied(acc: seq<SessionBucket>, p: seq<Trade>)
  {
    BucketKeys(acc) == Dedup(SessionKeys(p)) && BucketsCount(acc, p) &&
    TotalTrades(acc) == |p| && TotalPnl(acc) == SumOf(p, PnlOrZero)
  }

  /** Every bucket holds its session's count and pnl over `p`. */
  ghost predicate BucketsCount(acc: seq<SessionBucket>, p: seq<Trade>)
  {
    forall i :: 0 <= i < |acc| ==>
      acc[i].trades == CountSession(p, acc[i].session) && acc[i].pnl == PnlSession(p, acc[i].session)
  }

  /** GET /sessions: the `reduce` into an object keyed by session; the
      buckets are the own entries `res.json` sends. */
  method SessionStats(trades: seq<Trade>) returns (acc: seq<SessionBucket>)
    ensures Tallied(acc, OwnSessions(trades))
  {
    acc := [];
    TalliedNone(trades);
    for k := 0 to |trades|
      invariant Tallied(acc, OwnSessions(trades[..k]))
    {
      ghost var acc0 := acc;
      acc := AddTrade(acc, trades[k]);
      TallyPrefix(acc0, trades, k);
    }
    assert trades[..|trades|] == trades;
  }

  /** No trades, no buckets. */
  lemma TalliedNone(trades: seq<Trade>)
    ensures Tallied([], OwnSessions(trades[..0]))
  {
    assert trades[..0] == [];
  }

  /** The pass over trade `k` extends the tally to the own-keyed trades
      among the first `k + 1`. */
  lemma TallyPrefix(acc: seq<SessionBucket>, trades: seq<Trade>, k: nat)
    requires k < |trades| && Tallied(acc, OwnSessions(trades[..k]))
    ensures Tallied(Reduce(acc, trades[k]), OwnSessions(trades[..k + 1]))
  {
    assert trades[..k + 1][..k] == trades[..k];
    if HasOwnBucket(trades[k]) {
      assert OwnSessions(trades[..k + 1]) == OwnSessions(trades[..k]) + [trades[k]];
      TallyStep(acc, OwnSessions(trades[..k]), trades[k]);
    } else {
      assert OwnSessions(trades[..k + 1]) == OwnSessions(trades[..k]);
    }
  }

  /** The body of the `reduce`: `if (!acc[key]) acc[key] = { trades: 0, pnl: 0 }`,
      then one more trade and its pnl in that bucket. */
  method AddTrade(acc: seq<SessionBucket>, t: Trade) returns (next: seq<SessionBucket>)
    ensures next == Reduce(acc, t)
  {
    var key := SessionKey(t);
    if Inherited(key) {
      return acc;
    }
    var i := FindSession(acc, key);
    next := acc;
    if i == |acc| {
      next := next + [SessionBucket(key, 0, 0.0)];
    }
    next := next[i := SessionBucket(key, next[i].trades + 1, next[i].pnl + PnlOrZero(t))];
  }

  /** One pass of the `reduce` keeps the buckets tallied. */
  lemma TallyStep(acc: seq<SessionBucket>, p: seq<Trade>, t: Trade)
    requires Tallied(acc, p)
    ensures Tallied(Tally(acc, t), p + [t])
  {
    TallyKeys(acc, p, t);
    TallyCounts(acc, p, t);
    TallyTotals(acc, p, t);
  }

  /** The session keys of one more trade, before and after the pass. */
  lemma TallyKeys(acc: seq<SessionBucket>, p: seq<Trade>, t: Trade)
    requires BucketKeys(acc) == Dedup(SessionKeys(p))
    ensures BucketKeys(Tally(acc, t)) == Dedup(SessionKeys(p + [t]))
  {
    var key := SessionKey(t);
    var i := FindSession(acc, key);
    var a1 := WithBucket(acc, key);
    assert SessionKeys(p + [t]) == SessionKeys(p) + [key] by {
      SessionKeysSnoc(p, t);
    }
    DedupSnoc(SessionKeys(p), key);
    assert key in SessionKeys(p) <==> i < |acc| by {
      if i < |acc| {
        assert BucketKeys(acc)[i] == key;
      }
    }
    assert BucketKeys(a1) == if i == |acc| then BucketKeys(acc) + [key] else BucketKeys(acc) by {
      if i == |acc| {
        BucketKeysSnoc(acc, SessionBucket(key, 0, 0.0));
      }
    }
    assert BucketKeys(Tally(acc, t)) == BucketKeys(a1) by {
      BucketKeysUpdate(a1, i, Tally(acc, t)[i]);
      assert Tally(acc, t) == a1[i := Tally(acc, t)[i]];
    }
  }

  lemma SessionKeysSnoc(p: seq<Trade>, t: Trade)
    ensures SessionKeys(p + [t]) == SessionKeys(p) + [SessionKey(t)]
  {
  }

  lemma BucketKeysSnoc(acc: seq<SessionBucket>, b: SessionBucket)
    ensures BucketKeys(acc + [b]) == BucketKeys(acc) + [b.session]
  {
  }

  /** Updating a bucket in place keeps its key. */
  lemma BucketKeysUpdate(acc: seq<SessionBucket>, i: nat, b: SessionBucket)
    requires i < |acc| && b.session == acc[i].session
    ensures BucketKeys(acc[i := b]) == BucketKeys(acc)
  {
  }

  /** Counting the trade in its own bucket leaves the other buckets right. */
  lemma TallyCounts(acc: seq<SessionBucket>, p: seq<Trade>, t: Trade)
    requires BucketKeys(acc) == Dedup(SessionKeys(p)) && BucketsCount(acc, p)
    ensures BucketsCount(Tally(acc, t), p + [t])
  {
    var key := SessionKey(t);
    WithBucketCounts(acc, p, key);
    CountOneMore(WithBucket(acc, key), p, t, FindSession(acc, key));
  }

  /** Making sure the bucket of `key` exists keeps the buckets right. */
  lemma WithBucketCounts(acc: seq<SessionBucket>, p: seq<Trade>, key: string)
    requires BucketKeys(acc) == Dedup(SessionKeys(p)) && BucketsCount(acc, p)
    ensures NoDups(BucketKeys(WithBucket(acc, key))) && BucketsCount(WithBucket(acc, key), p)
  {
    if FindSession(acc, key) == |acc| {
      NewBucket(acc, p, key);
    }
  }

  /** An empty bucket for a session none of the trades has is right. */
  lemma NewBucket(acc: seq<SessionBucket>, p: seq<Trade>, key: string)
    requires BucketKeys(acc) == Dedup(SessionKeys(p)) && BucketsCount(acc, p)
    requires key !in BucketKeys(acc)
    ensures NoDups(BucketKeys(acc + [SessionBucket(key, 0, 0.0)]))
    ensures BucketsCount(acc + [SessionBucket(key, 0, 0.0)], p)
  {
    AbsentSession(p, key);
    BucketKeysSnoc(acc, SessionBucket(key, 0, 0.0));
  }

  /** Adding the trade to bucket `i`, the bucket of its session. */
  lemma CountOneMore(a1: seq<SessionBucket>, p: seq<Trade>, t: Trade, i: nat)
    requires i < |a1| && a1[i].session == SessionKey(t) && NoDups(BucketKeys(a1)) && BucketsCount(a1, p)
    ensures BucketsCount(a1[i := SessionBucket(SessionKey(t), a1[i].trades + 1, a1[i].pnl + PnlOrZero(t))], p + [t])
  {
    var a2 := a1[i := SessionBucket(SessionKey(t), a1[i].trades + 1, a1[i].pnl + PnlOrZero(t))];
    var q := p + [t];
    assert q[..|p|] == p;
    forall j | 0 <= j < |a2|
      ensures a2[j].trades == CountSession(q, a2[j].session) && a2[j].pnl == PnlSession(q, a2[j].session)
    {
      if j != i {
        assert BucketKeys(a1)[j] != BucketKeys(a1)[i];
      }
    }
  }

  /** The totals grow by one trade and its pnl. */
  lemma TallyTotals(acc: seq<SessionBucket>, p: seq<Trade>, t: Trade)
    requires TotalTrades(acc) == |p| && TotalPnl(acc) == SumOf(p, PnlOrZero)
    ensures TotalTrades(Tally(acc, t)) == |p| + 1 && TotalPnl(Tally(acc, t)) == SumOf(p + [t], PnlOrZero)
  {
    var key := SessionKey(t);
    var i := FindSession(acc, key);
    var a1 := WithBucket(acc, key);
    if i == |acc| {
      assert a1[..|acc|] == acc;
    }
    assert TotalTrades(a1) == TotalTrades(acc) && TotalPnl(a1) == TotalPnl(acc);
    TotalsUpdate(a1, i, Tally(acc, t)[i]);
    assert Tally(acc, t) == a1[i := Tally(acc, t)[i]];
    SumOfAppend(p, [t], PnlOrZero);
    assert SumOf([t], PnlOrZero) == PnlOrZero(t);
  }

  /** A session none of the trades has counts nothing. */
  lemma {:induction false} AbsentSession(p: seq<Trade>, key: string)
    requires key !in SessionKeys(p)
    ensures CountSession(p, key) == 0 && PnlSession(p, key) == 0.0
  {
    if p != [] {
      var n := |p| - 1;
      assert SessionKeys(p[..n]) == SessionKeys(p)[..n];
      AbsentSession(p[..n], key);
    }
  }

  /** Replacing one bucket changes the totals by the difference. */
  lemma {:induction false} TotalsUpdate(acc: seq<SessionBucket>, i: nat, b: SessionBucket)
    requires i < |acc|
    ensures TotalTrades(acc[i := b]) == TotalTrades(acc) - acc[i].trades + b.trades
    ensures TotalPnl(acc[i := b]) == TotalPnl(acc) - acc[i].pnl + b.pnl
  {
    var n := |acc| - 1;
    if i < n {
      assert acc[i := b][..n] == acc[..n][i := b];
      TotalsUpdate(acc[..n], i, b);
    } else {
      assert acc[i := b][..n] == acc[..n];
    }
  }

  /** The per-session counts add up to the number of trades whose session
      gets an own entry, and the pnls to their total pnl; there is one
      bucket per such session and none for an inherited key. When no session
      is named after an `Object.prototype` member, every trade is counted. */
  lemma SessionsAddUp(acc: seq<SessionBucket>, trades: seq<Trade>)
    requires Tallied(acc, OwnSessions(trades))
    ensures TotalTrades(acc) == |OwnSessions(trades)| && TotalPnl(acc) == SumOf(OwnSessions(trades), PnlOrZero)
    ensures NoDups(BucketKeys(acc))
    ensures forall t :: t in trades && !Inherited(SessionKey(t)) ==> SessionKey(t) in BucketKeys(acc)
    ensures forall k :: k in BucketKeys(acc) ==> !Inherited(k)
    ensures (forall i :: 0 <= i < |trades| ==> !Inherited(SessionKey(trades[i]))) ==>
            TotalTrades(acc) == |trades| && TotalPnl(acc) == SumOf(trades, PnlOrZero)
  {
    var own := OwnSessions(trades);
    forall t | t in trades && !Inherited(SessionKey(t)) ensures SessionKey(t) in BucketKeys(acc) {
      assert t in own;
      var i :| 0 <= i < |own| && own[i] == t;
      assert SessionKeys(own)[i] == SessionKey(t);
    }
    forall k | k in BucketKeys(acc) ensures !Inherited(k) {
      assert k in SessionKeys(own);
      var i :| 0 <= i < |own| && SessionKeys(own)[i] == k;
      assert own[i] in own;
    }
    if forall i :: 0 <= i < |trades| ==> !Inherited(SessionKey(trades[i])) {
      FilterKeepsAll(trades, HasOwnBucket);
    }
  }

  // ---------------------------------------------------------------------
  // GET /analytics/filters: merging names used on trades into the pickers
  // ---------------------------------------------------------------------

  /** A picker entry's id: a document id, or the name itself for entries
      taken from trades. */
  datatype ItemId = DocId(oid: ObjectId) | NameId(text: string)

  /** An entry of the account or strategy picker. */
  datatype PickerItem = PickerItem(id: ItemId, name: string)

  /** `typeof name === "string" ? name.trim() : ""`. */
  function CandidateText(v: JsValue): string
  {
    if v.Str? then Trim(v.s) else ""
  }

  /** The trimmed, non-empty names used on trades, in order. */
  function Candidates(names: seq<JsValue>): (r: seq<string>)
    ensures forall s :: s in r ==> s != []
    ensures forall v :: v in names && CandidateText(v) != [] ==> CandidateText(v) in r
  {
    if names == [] then []
    else
      var r := Candidates(names[..|names| - 1]);
      var text := CandidateText(names[|names| - 1]);
      assert forall v :: v in names ==> v in names[..|names| - 1] || v == names[|names| - 1];
      if text != [] then r + [text] else r
  }

  /** The lower-cased non-empty names of the entries: the `Set` the merge
      checks against. */
  function LoweredNames(items: seq<PickerItem>): set<string>
  {
    if items == [] then {}
    else
      var last := items[|items| - 1];
      LoweredNames(items[..|items| - 1]) + (if last.name != [] then {Lower(last.name)} else {})
  }

  /** The merge as a function: each candidate whose lower-cased form is not
      yet in the set is appended with its name as id. */
  function MergeNames(items: seq<PickerItem>, cands: seq<string>): seq<PickerItem>
  {
    if cands == [] then items
    else
      var r := MergeNames(items, cands[..|cands| - 1]);
      var name := cands[|cands| - 1];
      if Lower(name) in LoweredNames(r) then r else r + [PickerItem(NameId(name), name)]
  }

  /** The `forEach` of `/filters` over the trade names, with its `Set`.
      It serves both the account and the strategy picker. */
  method MergePicker(items: seq<PickerItem>, tradeNames: seq<JsValue>) returns (r: seq<PickerItem>)
    ensures r == MergeNames(items, Candidates(tradeNames))
  {
    var cands := Candidates(tradeNames);
    r := items;
    var seen := LoweredNamesOf(items);
    for k := 0 to |cands|
      invariant r == MergeNames(items, cands[..k])
      invariant seen == LoweredNames(r)
    {
      var name := cands[k];
      MergePrefix(items, cands, k);
      if Lower(name) !in seen {
        assert name in cands;
        LoweredNamesSnoc(r, PickerItem(NameId(name), name));
        r := r + [PickerItem(NameId(name), name)];
        seen := seen + {Lower(name)};
      }
    }
    assert cands[..|cands|] == cands;
  }

  /** `new Set(items.map(name?.toLowerCase()).filter(Boolean))`. */
  method LoweredNamesOf(items: seq<PickerItem>) returns (seen: set<string>)
    ensures seen == LoweredNames(items)
  {
    seen := {};
    for k := 0 to |items|
      invariant seen == LoweredNames(items[..k])
    {
      assert items[..k + 1][..k] == items[..k];
      if items[k].name != [] {
        seen := seen + {Lower(items[k].name)};
      }
    }
    assert items[..|items|] == items;
  }

  /** Some entry with a non-empty name lower-cases to `x`. */
  predicate HasLowered(items: seq<PickerItem>, x: string)
  {
    exists i :: 0 <= i < |items| && items[i].name != [] && Lower(items[i].name) == x
  }

  /** The set holds a name's lower-cased form exactly when some entry with
      a non-empty name lower-cases to it. */
  lemma {:induction false} LoweredNamesMembers(items: seq<PickerItem>, x: string)
    ensures x in LoweredNames(items) <==> HasLowered(items, x)
  {
    if items != [] {
      var n := |items| - 1;
      LoweredNamesMembers(items[..n], x);
      HasLoweredSnoc(items, x);
    }
  }

  /** An entry lower-casing to `x` is one of the first `|items| - 1` or the last. */
  lemma HasLoweredSnoc(items: seq<PickerItem>, x: string)
    requires items != []
    ensures var n := |items| - 1;
      HasLowered(items, x) <==> HasLowered(items[..n], x) || (items[n].name != [] && Lower(items[n].name) == x)
  {
    var n := |items| - 1;
    if HasLowered(items[..n], x) {
      var i :| 0 <= i < n && items[..n][i].name != [] && Lower(items[..n][i].name) == x;
      assert items[i] == items[..n][i];
    }
    if HasLowered(items, x) {
      var i :| 0 <= i < |items| && items[i].name != [] && Lower(items[i].name) == x;
      if i < n {
        assert items[..n][i] == items[i];
      }
    }
  }

  /** The merge over the first `k + 1` candidates. */
  lemma MergePrefix(items: seq<PickerItem>, cands: seq<string>, k: nat)
    requires k < |cands|
    ensures var r0 := MergeNames(items, cands[..k]);
      var name := cands[k];
      MergeNames(items, cands[..k + 1]) ==
        if Lower(name) in LoweredNames(r0) then r0 else r0 + [PickerItem(NameId(name), name)]
  {
    assert cands[..k + 1][..k] == cands[..k];
    MergeSnoc(items, cands[..k + 1]);
  }

  /** One more entry adds its lower-cased name, when it has one. */
  lemma LoweredNamesSnoc(items: seq<PickerItem>, item: PickerItem)
    requires item.name != []
    ensures LoweredNames(items + [item]) == LoweredNames(items) + {Lower(item.name)}
  {
    assert (items + [item])[..|items|] == items;
  }

  /** One more candidate: appended unless its lower-cased form is taken. */
  lemma MergeSnoc(items: seq<PickerItem>, cands: seq<string>)
    requires cands != []
    ensures var r0 := MergeNames(items, cands[..|cands| - 1]);
      var name := cands[|cands| - 1];
      MergeNames(items, cands) ==
        if Lower(name) in LoweredNames(r0) then r0 else r0 + [PickerItem(NameId(name), name)]
  {
  }

  /** The merge keeps the existing entries first and in order, and every
      appended entry is a candidate under its own name as id. */
  lemma {:induction false} MergeKeepsItems(items: seq<PickerItem>, cands: seq<string>)
    ensures var r := MergeNames(items, cands);
      |items| <= |r| && r[..|items|] == items &&
      forall i :: |items| <= i < |r| ==> r[i].id == NameId(r[i].name) && r[i].name in cands
  {
    if cands != [] {
      var init := cands[..|cands| - 1];
      var name := cands[|cands| - 1];
      assert cands == init + [name];
      MergeKeepsItems(items, init);
      MergeSnoc(items, cands);
      var r0 := MergeNames(items, init);
      var r := MergeNames(items, cands);
      assert |r0| <= |r| && forall i :: 0 <= i < |r0| ==> r[i] == r0[i];
      assert r[..|items|] == r0[..|items|];
      forall i | |items| <= i < |r| ensures r[i].id == NameId(r[i].name) && r[i].name in cands {
        if i < |r0| {
          assert r0[i].name in init;
        } else {
          assert r[i] == PickerItem(NameId(name), name);
        }
      }
    }
  }

  /** Each entry from position `m` on differs, ignoring case, from every
      entry before it. */
  predicate DistinctFrom(r: seq<PickerItem>, m: nat)
  {
    forall i, j :: 0 <= i < j < |r| && m <= j ==> Lower(r[i].name) != Lower(r[j].name)
  }

  /** Each appended entry differs, ignoring case, from every entry before it
      (existing or appended), when the candidates are non-empty. */
  lemma {:induction false} MergeDistinct(items: seq<PickerItem>, cands: seq<string>)
    requires forall s :: s in cands ==> s != []
    ensures var r := MergeNames(items, cands);
      forall i, j :: 0 <= i < j < |r| && |items| <= j ==> Lower(r[i].name) != Lower(r[j].name)
  {
    if cands != [] {
      var init := cands[..|cands| - 1];
      var name := cands[|cands| - 1];
      assert forall s :: s in init ==> s in cands;
      assert name in cands;
      MergeDistinct(items, init);
      MergeSnoc(items, cands);
      var r0 := MergeNames(items, init);
      assert DistinctFrom(r0, |items|);
      if Lower(name) !in LoweredNames(r0) {
        DistinctSnoc(r0, |items|, name);
      }
      assert DistinctFrom(MergeNames(items, cands), |items|);
    }
  }

  /** Appending a non-empty name whose lower-cased form is not taken keeps
      the entries distinct. */
  lemma DistinctSnoc(r0: seq<PickerItem>, m: nat, name: string)
    requires DistinctFrom(r0, m) && name != [] && Lower(name) !in LoweredNames(r0)
    ensures DistinctFrom(r0 + [PickerItem(NameId(name), name)], m)
  {
    var r := r0 + [PickerItem(NameId(name), name)];
    NewNameDistinct(r0, name);
    forall i, j | 0 <= i < j < |r| && m <= j ensures Lower(r[i].name) != Lower(r[j].name) {
      if j < |r0| {
        assert r[i] == r0[i] && r[j] == r0[j];
      } else {
        assert r[i] == r0[i] && r[j].name == name;
      }
    }
  }

  /** A non-empty name whose lower-cased form is not in the set differs,
      ignoring case, from every entry. */
  lemma NewNameDistinct(r0: seq<PickerItem>, name: string)
    requires name != [] && Lower(name) !in LoweredNames(r0)
    ensures forall i :: 0 <= i < |r0| ==> Lower(r0[i].name) != Lower(name)
  {
    LoweredNamesMembers(r0, Lower(name));
    forall i | 0 <= i < |r0| ensures Lower(r0[i].name) != Lower(name) {
      if r0[i].name == [] {
        assert |Lower(name)| > 0;
      }
    }
  }

  /** Every candidate is represented, ignoring case, in the merged list. */
  lemma {:induction false} MergeCovers(items: seq<PickerItem>, cands: seq<string>)
    ensures var r := MergeNames(items, cands);
      forall s :: s in cands ==> exists i :: 0 <= i < |r| && Lower(r[i].name) == Lower(s)
  {
    if cands != [] {
      var init := cands[..|cands| - 1];
      var name := cands[|cands| - 1];
      assert cands == init + [name];
      MergeCovers(items, init);
      MergeSnoc(items, cands);
      var r0 := MergeNames(items, init);
      var r := MergeNames(items, cands);
      assert |r0| <= |r| && forall i :: 0 <= i < |r0| ==> r[i] == r0[i];
      forall s | s in cands ensures exists i :: 0 <= i < |r| && Lower(r[i].name) == Lower(s) {
        if s in init {
          var i :| 0 <= i < |r0| && Lower(r0[i].name) == Lower(s);
          assert r[i] == r0[i];
        } else {
          assert s == name;
          CoveredByLast(r0, name);
          if Lower(name) in LoweredNames(r0) {
            var i :| 0 <= i < |r0| && Lower(r0[i].name) == Lower(name);
            assert r[i] == r0[i];
          } else {
            assert r[|r0|].name == name;
          }
        }
      }
    }
  }

  /** A name whose lower-cased form is in the set matches some entry. */
  lemma CoveredByLast(r0: seq<PickerItem>, name: string)
    ensures Lower(name) in LoweredNames(r0) ==> exists i :: 0 <= i < |r0| && Lower(r0[i].name) == Lower(name)
  {
    LoweredNamesMembers(r0, Lower(name));
  }

  /** The merged picker: the existing entries first, then every trade name
      not yet present ignoring case, each appended once, so that every
      non-empty trimmed trade name is represented. */
  lemma MergePickerOutcome(items: seq<PickerItem>, tradeNames: seq<JsValue>)
    ensures var r := MergeNames(items, Candidates(tradeNames));
      |items| <= |r| && r[..|items|] == items &&
      (forall i :: |items| <= i < |r| ==> r[i].id == NameId(r[i].name) && r[i].name != []) &&
      (forall i, j :: 0 <= i < j < |r| && |items| <= j ==> Lower(r[i].name) != Lower(r[j].name)) &&
      (forall v :: v in tradeNames && CandidateText(v) != [] ==>
         exists i :: 0 <= i < |r| && Lower(r[i].name) == Lower(CandidateText(v)))
  {
    var cands := Candidates(tradeNames);
    MergeKeepsItems(items, cands);
    MergeDistinct(items, cands);
    MergeCovers(items, cands);
  }
}
