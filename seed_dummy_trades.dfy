/** The dummy-data seeder (backend/scripts/seedDummyTrades.js): feature
    objects built in form order, the rounded risk:reward of the generated
    prices, the tags of a seeded trade, and the consecutive trade ids
    allocated after the existing ones. The random draws, the clock and the
    database are parameters. */
module SeedDummyTrades {
  import opened Common
  import opened Strings
  import opened JsValues
  import opened TradeIds
  import TradeForm

  // ---------------------------------------------------------------------
  // buildOrderedFields
  // ---------------------------------------------------------------------

  /** A property of the object being built, in insertion order. */
  datatype Field = Field(key: string, value: JsValue)

  /** `keyToValue[k]`: undefined for a key the object does not have. Keys
      the object inherits (`toString` and the like) are not modelled: the
      key lists looked up are constants that name none of them. */
  function Lookup(kv: map<string, JsValue>, k: string): JsValue
  {
    if k in kv then kv[k] else Undefined
  }

  /** The keys of the object, in insertion order. */
  function KeysOf(o: seq<Field>): (ks: seq<string>)
    ensures |ks| == |o| && forall i :: 0 <= i < |o| ==> ks[i] == o[i].key
  {
    if o == [] then [] else KeysOf(o[..|o| - 1]) + [o[|o| - 1].key]
  }

  /** The key is copied: its value is neither null nor undefined. */
  function PresentIn(kv: map<string, JsValue>): string -> bool
  {
    (k: string) => !IsNullish(Lookup(kv, k))
  }

  /** The object after the first `keys` of the `forEach`: each present key
      is added at the end the first time it is seen; assigning it again
      writes the same value in place. */
  function OrderedFields(keys: seq<string>, kv: map<string, JsValue>): (o: seq<Field>)
    ensures forall k :: k in KeysOf(o) <==> k in keys && PresentIn(kv)(k)
    ensures forall i :: 0 <= i < |o| ==> o[i].value == Lookup(kv, o[i].key) && !IsNullish(o[i].value)
    ensures NoDups(KeysOf(o))
  {
    if keys == [] then []
    else
      var n := |keys| - 1;
      var o := OrderedFields(keys[..n], kv);
      AddPresentKeys(keys, kv, o);
      AddPresentValues(o, keys[n], kv);
      AddPresentDistinct(o, keys[n], kv);
      AddPresent(o, keys[n], kv)
  }

  /** One step of the `forEach`: a present key not yet in the object is
      added at the end; otherwise the object stays as it is. */
  function AddPresent(o: seq<Field>, k: string, kv: map<string, JsValue>): seq<Field>
  {
    if IsNullish(Lookup(kv, k)) || k in KeysOf(o) then o else o + [Field(k, Lookup(kv, k))]
  }

  /** The keys of the object after the step are the present keys seen so
      far. */
  lemma {:induction false} AddPresentKeys(keys: seq<string>, kv: map<string, JsValue>, o: seq<Field>)
    requires keys != []
    requires forall k :: k in KeysOf(o) <==> k in keys[..|keys| - 1] && PresentIn(kv)(k)
    ensures forall k :: k in KeysOf(AddPresent(o, keys[|keys| - 1], kv)) <==> k in keys && PresentIn(kv)(k)
  {
    var k := keys[|keys| - 1];
    var r := AddPresent(o, k, kv);
    if !IsNullish(Lookup(kv, k)) && k !in KeysOf(o) {
      KeysSnoc(o, Field(k, Lookup(kv, k)));
    }
    forall x ensures x in KeysOf(r) <==> x in keys && PresentIn(kv)(x) {
      InLast(keys, x);
    }
  }

  /** Every value the step stores is the key's own present value. */
  lemma {:induction false} AddPresentValues(o: seq<Field>, k: string, kv: map<string, JsValue>)
    requires forall i :: 0 <= i < |o| ==> o[i].value == Lookup(kv, o[i].key) && !IsNullish(o[i].value)
    ensures var r := AddPresent(o, k, kv);
      forall i :: 0 <= i < |r| ==> r[i].value == Lookup(kv, r[i].key) && !IsNullish(r[i].value)
  {
  }

  /** The step never repeats a key. */
  lemma {:induction false} AddPresentDistinct(o: seq<Field>, k: string, kv: map<string, JsValue>)
    requires NoDups(KeysOf(o))
    ensures NoDups(KeysOf(AddPresent(o, k, kv)))
  {
    if !IsNullish(Lookup(kv, k)) && k !in KeysOf(o) {
      AppendNewKey(o, k, Lookup(kv, k));
    }
  }

  /** Appending a field appends its key. */
  lemma {:induction false} KeysSnoc(o: seq<Field>, f: Field)
    ensures KeysOf(o + [f]) == KeysOf(o) + [f.key]
  {
    assert (o + [f])[..|o|] == o;
  }

  /** Membership in a non-empty list: in its prefix, or its last element. */
  lemma {:induction false} InLast(keys: seq<string>, x: string)
    requires keys != []
    ensures x in keys <==> x in keys[..|keys| - 1] || x == keys[|keys| - 1]
  {
    assert keys == keys[..|keys| - 1] + [keys[|keys| - 1]];
  }

  /** A new key goes at the end and keeps the keys distinct. */
  lemma {:induction false} AppendNewKey(o: seq<Field>, k: string, v: JsValue)
    requires NoDups(KeysOf(o)) && k !in KeysOf(o)
    ensures KeysOf(o + [Field(k, v)]) == KeysOf(o) + [k]
    ensures NoDups(KeysOf(o + [Field(k, v)]))
  {
    assert (o + [Field(k, v)])[..|o|] == o;
  }

  /** The position of key `k` in the object, or `|o|`. */
  function IndexOf(o: seq<Field>, k: string): (i: nat)
    ensures i <= |o|
    ensures i < |o| ==> o[i].key == k
    ensures i == |o| <==> k !in KeysOf(o)
  {
    if o == [] then 0
    else if o[|o| - 1].key == k && k !in KeysOf(o[..|o| - 1]) then |o| - 1
    else if k in KeysOf(o[..|o| - 1]) then IndexOf(o[..|o| - 1], k)
    else |o|
  }

  /** `o[k] = v`: an existing property keeps its place and takes the new
      value; a new one goes at the end. */
  function SetProperty(o: seq<Field>, k: string, v: JsValue): (r: seq<Field>)
    ensures KeysOf(r) == if k in KeysOf(o) then KeysOf(o) else KeysOf(o) + [k]
  {
    var i := IndexOf(o, k);
    if i < |o| then
      var r := o[i := Field(k, v)];
      assert forall j :: 0 <= j < |o| ==> KeysOf(r)[j] == KeysOf(o)[j];
      r
    else
      var r := o + [Field(k, v)];
      assert forall j :: 0 <= j < |o| ==> KeysOf(r)[j] == KeysOf(o)[j];
      r
  }

  /** `buildOrderedFields(keys, keyToValue)`. */
  method BuildOrderedFields(keys: seq<string>, keyToValue: map<string, JsValue>) returns (o: seq<Field>)
    ensures o == OrderedFields(keys, keyToValue)
  {
    o := [];
    for i := 0 to |keys|
      invariant o == OrderedFields(keys[..i], keyToValue)
    {
      assert keys[..i + 1][..i] == keys[..i];
      var k := keys[i];
      var v := Lookup(keyToValue, k);
      if v != Undefined && v != Null {
        SetPropertyOfPresent(o, keys[..i], keyToValue, k);
        o := SetProperty(o, k, v);
      }
    }
    assert keys[..|keys|] == keys;
  }

  /** Assigning a key that is already there rewrites its own value. */
  lemma {:induction false} SetPropertyOfPresent(o: seq<Field>, keys: seq<string>, kv: map<string, JsValue>, k: string)
    requires o == OrderedFields(keys, kv) && !IsNullish(Lookup(kv, k))
    ensures SetProperty(o, k, Lookup(kv, k)) == if k in KeysOf(o) then o else o + [Field(k, Lookup(kv, k))]
  {
    var i := IndexOf(o, k);
    if i < |o| {
      assert o[i] == Field(k, Lookup(kv, k));
      assert o[i := Field(k, Lookup(kv, k))] == o;
    }
  }

  /** The keys come out in the order of the key list, each once: the
      present keys of the list, duplicates dropped. */
  lemma {:induction false} OrderedFieldsOrder(keys: seq<string>, kv: map<string, JsValue>)
    ensures KeysOf(OrderedFields(keys, kv)) == Dedup(Filter(keys, PresentIn(kv)))
  {
    if keys != [] {
      var n := |keys| - 1;
      var k := keys[n];
      var o := OrderedFields(keys[..n], kv);
      var f := Filter(keys[..n], PresentIn(kv));
      OrderedFieldsOrder(keys[..n], kv);
      assert k in f <==> k in keys[..n] && PresentIn(kv)(k);
      if PresentIn(kv)(k) {
        assert Filter(keys, PresentIn(kv)) == f + [k];
        DedupSnoc(f, k);
        if k in KeysOf(o) {
          assert OrderedFields(keys, kv) == o;
        } else {
          assert OrderedFields(keys, kv) == o + [Field(k, Lookup(kv, k))];
          AppendNewKey(o, k, Lookup(kv, k));
        }
      } else {
        assert Filter(keys, PresentIn(kv)) == f;
        assert OrderedFields(keys, kv) == o;
      }
    }
  }

  /** With a list of distinct keys, as the three feature orders are, the
      object's keys are exactly the present keys in list order. */
  lemma {:induction false} OrderedFieldsOfDistinctKeys(keys: seq<string>, kv: map<string, JsValue>)
    requires NoDups(keys)
    ensures KeysOf(OrderedFields(keys, kv)) == Filter(keys, PresentIn(kv))
  {
    OrderedFieldsOrder(keys, kv);
    FilterNoDups(keys, PresentIn(kv));
    DedupOfNoDups(Filter(keys, PresentIn(kv)));
  }

  // ---------------------------------------------------------------------
  // Number(x.toFixed(d))
  // ---------------------------------------------------------------------

  function Pow10(d: nat): (p: real)
    ensures p >= 1.0
  {
    if d == 0 then 1.0 else 10.0 * Pow10(d - 1)
  }

  /** `Number(x.toFixed(d))` on exact decimals: the magnitude rounded to
      `d` places, halves away from zero, the sign kept. */
  function ToFixed(x: real, d: nat): real
  {
    (Units(x, d) as real) / Pow10(d)
  }

  /** The rounded value in units of the last place. */
  function Units(x: real, d: nat): int
  {
    var n := (Magnitude(x) * Pow10(d) + 0.5).Floor;
    if x < 0.0 then -n else n
  }

  function Magnitude(x: real): real
  {
    if x < 0.0 then -x else x
  }

  /** Rounding moves the value by at most half a unit of the last place. */
  lemma {:induction false} ToFixedClose(x: real, d: nat)
    ensures -0.5 <= (ToFixed(x, d) - x) * Pow10(d) <= 0.5
  {
    var p := Pow10(d);
    assert Magnitude(x) * p == if x < 0.0 then -(x * p) else x * p;
    var n := (Magnitude(x) * p + 0.5).Floor;
    assert n as real <= Magnitude(x) * p + 0.5 < n as real + 1.0;
    assert ToFixed(x, d) * p == Units(x, d) as real;
    assert (ToFixed(x, d) - x) * p == ToFixed(x, d) * p - x * p;
  }

  /** A value with at most `d` decimals is unchanged. */
  lemma {:induction false} ToFixedExact(x: real, d: nat, k: int)
    requires x * Pow10(d) == k as real
    ensures ToFixed(x, d) == x
  {
    var p := Pow10(d);
    assert Magnitude(x) * p == if x < 0.0 then -(x * p) else x * p;
    assert x < 0.0 <==> x * p < 0.0;
    var a := if x < 0.0 then -k else k;
    assert Magnitude(x) * p == a as real;
    assert ((a as real) + 0.5).Floor == a;
    assert Units(x, d) == k;
    assert (x * p) / p == x;
  }

  /** The sign survives rounding (or the value rounds to zero). */
  lemma {:induction false} ToFixedSign(x: real, d: nat)
    ensures x >= 0.0 ==> ToFixed(x, d) >= 0.0
    ensures x <= 0.0 ==> ToFixed(x, d) <= 0.0
  {
    var p := Pow10(d);
    var n := (Magnitude(x) * p + 0.5).Floor;
    assert n >= 0;
  }

  // ---------------------------------------------------------------------
  // computeRR
  // ---------------------------------------------------------------------

  /** `computeRR`: null when the risk is not positive, otherwise the
      reward per unit of risk rounded to three decimals. */
  function ComputeRR(direction: string, entry: real, target: real, stop: real): (r: Option<real>)
    ensures r.None? <==> TradeForm.Risk(direction, entry, stop) <= 0.0
  {
    var risk := TradeForm.Risk(direction, entry, stop);
    var reward := TradeForm.Reward(direction, entry, target);
    if risk <= 0.0 then None else Some(ToFixed(reward / risk, 3))
  }

  /** The seeder's ratio is the form's ratio rounded to three decimals, so
      the two agree to within 0.0005. */
  lemma {:induction false} ComputeRRMatchesForm(direction: string, entry: real, target: real, stop: real)
    ensures ComputeRR(direction, entry, target, stop).None? <==>
      TradeForm.ComputeRiskReward(direction, Some(entry), Some(target), Some(stop)).None?
    ensures ComputeRR(direction, entry, target, stop).Some? ==>
      var x := TradeForm.ComputeRiskReward(direction, Some(entry), Some(target), Some(stop)).value;
      ComputeRR(direction, entry, target, stop).value == ToFixed(x, 3) &&
      -0.0005 <= ComputeRR(direction, entry, target, stop).value - x <= 0.0005
  {
    var risk := TradeForm.Risk(direction, entry, stop);
    if risk > 0.0 {
      var x := TradeForm.ComputeRiskReward(direction, Some(entry), Some(target), Some(stop)).value;
      assert x == TradeForm.Reward(direction, entry, target) / risk;
      ToFixedClose(x, 3);
      assert Pow10(3) == 1000.0;
    }
  }

  // ---------------------------------------------------------------------
  // buildDummyTrade: prices, pnl, tags
  // ---------------------------------------------------------------------

  /** Even indexes are long trades, odd ones short. */
  function Direction(index: nat): (d: string)
    ensures TradeForm.IsLong(d) <==> index % 2 == 0
  {
    if index % 2 == 0 then "Long" else "Short"
  }

  /** The generated prices of trade `index`, given the drawn entry (already
      rounded to cents). */
  datatype Prices = Prices(entry: real, stopDist: real, stop: real, tpDist: real, takeProfit: real, exitMove: real, exit: real)

  /** `Number((entry * 0.005).toFixed(2))`. */
  function StopDist(entry: real): real
  {
    ToFixed(entry * 0.005, 2)
  }

  /** The exit is half a stop distance against the trade on every third
      index, 1.2 stop distances in its favour otherwise. */
  function ExitMove(index: nat, stopDist: real): real
  {
    stopDist * (if index % 3 == 0 then -0.5 else 1.2)
  }

  /** Stop, target and exit placed around the entry on the side the
      direction calls for. */
  function PricesOf(index: nat, entry: real, stopDist: real, tpDist: real): Prices
  {
    var long := index % 2 == 0;
    var stop := if long then entry - stopDist else entry + stopDist;
    var takeProfit := if long then entry + tpDist else entry - tpDist;
    var exitMove := ExitMove(index, stopDist);
    var exit := if long then entry + exitMove else entry - exitMove;
    Prices(entry, stopDist, stop, tpDist, takeProfit, exitMove, exit)
  }

  function DummyPrices(index: nat, entry: real): Prices
  {
    var stopDist := StopDist(entry);
    PricesOf(index, entry, stopDist, ToFixed(stopDist * (1.5 + (index as real) * 0.1), 2))
  }

  /** Every price range starts above 1, so the stop distance rounds to at
      least one cent. */
  lemma {:induction false} StopDistPositive(entry: real)
    requires entry >= 1.0
    ensures StopDist(entry) >= 0.01
  {
    var m := Magnitude(entry * 0.005) * Pow10(2);
    assert Pow10(2) == 100.0;
    assert m >= 0.5;
    assert (m + 0.5).Floor >= 1;
  }

  /** With a positive stop distance the risk is that distance and the
      reward the exit move, so the ratio is the exit move's factor. */
  lemma {:induction false} ActualRROfPrices(index: nat, entry: real, stopDist: real, tpDist: real)
    requires stopDist > 0.0
    ensures var p := PricesOf(index, entry, stopDist, tpDist);
      ComputeRR(Direction(index), p.entry, p.exit, p.stop) == Some(if index % 3 == 0 then -0.5 else 1.2)
  {
    var p := PricesOf(index, entry, stopDist, tpDist);
    var f := if index % 3 == 0 then -0.5 else 1.2;
    assert TradeForm.Risk(Direction(index), p.entry, p.stop) == stopDist;
    assert TradeForm.Reward(Direction(index), p.entry, p.exit) == stopDist * f;
    assert (f * stopDist) / stopDist == f;
    assert stopDist * f == f * stopDist;
    assert Pow10(3) == 1000.0;
    ToFixedExact(f, 3, if index % 3 == 0 then -500 else 1200);
  }

  /** The actual risk:reward of a seeded trade is fixed by its index:
      -0.5 for every third trade (a loss of half the risk), 1.2 otherwise. */
  lemma {:induction false} SeededActualRR(index: nat, entry: real)
    requires entry >= 1.0
    ensures var p := DummyPrices(index, entry);
      ComputeRR(Direction(index), p.entry, p.exit, p.stop) == Some(if index % 3 == 0 then -0.5 else 1.2)
  {
    var stopDist := StopDist(entry);
    StopDistPositive(entry);
    ActualRROfPrices(index, entry, stopDist, ToFixed(stopDist * (1.5 + (index as real) * 0.1), 2));
  }

  /** `(exit - entry) * lotSize` long, `(entry - exit) * lotSize` short. */
  function RawPnl(index: nat, p: Prices, lotSize: real): real
  {
    if index % 2 == 0 then (p.exit - p.entry) * lotSize else (p.entry - p.exit) * lotSize
  }

  /** In both directions the raw pnl is the exit move times the lot size. */
  lemma {:induction false} RawPnlOfPrices(index: nat, entry: real, stopDist: real, tpDist: real, lotSize: real)
    ensures RawPnl(index, PricesOf(index, entry, stopDist, tpDist), lotSize) == ExitMove(index, stopDist) * lotSize
  {
    var p := PricesOf(index, entry, stopDist, tpDist);
    assert (if index % 2 == 0 then p.exit - p.entry else p.entry - p.exit) == ExitMove(index, stopDist);
  }

  /** `Number((rawPnl - fees).toFixed(3))`. */
  function DummyPnl(index: nat, entry: real, lotSize: real, fees: real): real
  {
    ToFixed(RawPnl(index, DummyPrices(index, entry), lotSize) - fees, 3)
  }

  /** Every third seeded trade loses: its exit is half a stop distance
      against it, and the fees only add to the loss. */
  lemma {:induction false} EveryThirdTradeLoses(index: nat, entry: real, lotSize: real, fees: real)
    requires entry >= 1.0 && lotSize > 0.0 && fees >= 0.0 && index % 3 == 0
    ensures DummyPnl(index, entry, lotSize, fees) <= 0.0
  {
    var stopDist := StopDist(entry);
    StopDistPositive(entry);
    var tpDist := ToFixed(stopDist * (1.5 + (index as real) * 0.1), 2);
    RawPnlOfPrices(index, entry, stopDist, tpDist, lotSize);
    var m := ExitMove(index, stopDist);
    assert m < 0.0;
    assert m * lotSize < 0.0;
    ToFixedSign(RawPnl(index, DummyPrices(index, entry), lotSize) - fees, 3);
  }

  /** `[...new Set(tags)]` for the one or two drawn tags (a second one on
      even indexes). */
  function SeedTags(index: nat, first: string, second: string): (r: seq<string>)
    ensures NoDups(r)
    ensures forall x :: x in r <==> x == first || (index % 2 == 0 && x == second)
  {
    Dedup(if index % 2 == 0 then [first, second] else [first])
  }

  /** The tag list is the first draw, followed by the second when it was
      drawn and differs. */
  lemma {:induction false} SeedTagsShape(index: nat, first: string, second: string)
    ensures SeedTags(index, first, second) ==
      if index % 2 == 0 && second != first then [first, second] else [first]
  {
    DedupSnoc([], first);
    assert [] + [first] == [first];
    if index % 2 == 0 {
      DedupSnoc([first], second);
      assert [first] + [second] == [first, second];
    }
  }

  // ---------------------------------------------------------------------
  // run: getNextTradeNumber, SEED_COUNT and the id loop
  // ---------------------------------------------------------------------

  /** `(id || "")`: a missing id reads as the empty string. */
  function IdTexts(ids: seq<Option<string>>): (r: seq<string>)
    ensures |r| == |ids|
    ensures forall i :: 0 <= i < |ids| ==> r[i] == ids[i].GetOr("")
  {
    if ids == [] then [] else IdTexts(ids[..|ids| - 1]) + [ids[|ids| - 1].GetOr("")]
  }

  /** `getNextTradeNumber` over the stored ids: one more than the largest
      `trd-(\d+)` number, missing or non-matching ids counting as 0. */
  function SeedNextTradeNumber(ids: seq<Option<string>>): (n: nat)
    ensures n >= 1
    ensures forall i :: 0 <= i < |ids| && ids[i].Some? ==> TradeNumber(ids[i].value) < n
  {
    NextTradeNumberAbove(IdTexts(ids));
    NextTradeNumber(IdTexts(ids))
  }

  /** `Number(process.env.SEED_COUNT) || 100`: an unset, zero or
      unreadable value gives 100. */
  function SeedCount(env: Option<string>): (c: real)
    ensures env.None? ==> c == 100.0
    ensures env.Some? && StringToNumber(env.value) == Finite(0.0) ==> c == 100.0
    ensures env.Some? && StringToNumber(env.value).NaN? ==> c == 100.0
    ensures env.Some? && StringToNumber(env.value).Finite? && StringToNumber(env.value).x != 0.0 ==>
      c == StringToNumber(env.value).x
  {
    match env
    case None => 100.0
    case Some(s) =>
      match StringToNumber(s)
      case NaN => 100.0
      case Finite(x) => if x == 0.0 then 100.0 else x
  }

  /** How often `for (let i = 0; i < count; i++)` runs: the naturals below
      `count`, so a fraction rounds up and a negative count runs none. */
  function LoopCount(count: real): (k: nat)
    ensures (k as real) >= count
    ensures k > 0 ==> ((k - 1) as real) < count
  {
    if count <= 0.0 then 0
    else
      var f := (-count).Floor;
      assert f as real <= -count < f as real + 1.0;
      -f
  }

  /** The loop of `run`: trade `i` gets `trd-${startNum + i}`. */
  method SeedIds(startNum: nat, count: real) returns (ids: seq<string>)
    ensures ids == SeedTradeIds(startNum, LoopCount(count))
  {
    ids := [];
    var i: nat := 0;
    while (i as real) < count
      invariant i <= LoopCount(count)
      invariant ids == SeedTradeIds(startNum, i)
      decreases LoopCount(count) - i
    {
      ids := ids + [FormatTradeId(startNum + i)];
      i := i + 1;
    }
  }

  /** The ids seeded after the stored ones are consecutive from the next
      number, pairwise distinct, and numbered above every stored id. */
  lemma {:induction false} SeededIdsFresh(stored: seq<Option<string>>, count: real)
    ensures var start := SeedNextTradeNumber(stored);
      var ids := SeedTradeIds(start, LoopCount(count));
      (forall i :: 0 <= i < |ids| ==> TradeNumber(ids[i]) == start + i) &&
      (forall i, j :: 0 <= i < j < |ids| ==> ids[i] != ids[j]) &&
      (forall i, k :: 0 <= i < |ids| && 0 <= k < |stored| && stored[k].Some? ==>
        TradeNumber(stored[k].value) < TradeNumber(ids[i]))
  {
    var texts := IdTexts(stored);
    SeedTradeIdsFresh(texts, LoopCount(count));
    forall k | 0 <= k < |stored| && stored[k].Some? ensures TradeNumber(stored[k].value) == TradeNumber(texts[k]) {
    }
  }
}
