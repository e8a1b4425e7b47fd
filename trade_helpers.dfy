/** Coercion of a trade payload into the fields a Trade document stores
    (backend/src/utils/tradeHelpers.js). */
module TradeHelpers {
  import opened Common
  import opened Strings
  import opened JsValues

  /** `toNumberOrNull`: absent and empty values are null, so is anything
      `Number` cannot read; otherwise the number. */
  function ToNumberOrNull(v: JsValue): (r: Option<real>)
    ensures IsNullish(v) || v == Str("") ==> r.None?
    ensures !(IsNullish(v) || v == Str("")) ==>
      (r.None? <==> ToNumber(v).NaN?) && (r.Some? ==> ToNumber(v) == Finite(r.value))
  {
    if IsNullish(v) || v == Str("") then None
    else
      match ToNumber(v)
      case NaN => None
      case Finite(x) => Some(x)
  }

  /** The words `toBoolean` reads as true, after lower-casing. */
  predicate IsTrueWord(s: string)
  {
    s == "true" || s == "yes" || s == "1"
  }

  /** `toBoolean`. */
  function ToBoolean(v: JsValue): (r: bool)
    ensures IsNullish(v) || v == Str("") ==> !r
    ensures v.Bool? ==> r == v.b
    ensures v.Num? ==> (r <==> v.x != 0.0)
    ensures !(IsNullish(v) || v.Bool? || v.Num?) ==> (r <==> IsTrueWord(Lower(ToString(v))))
  {
    if IsNullish(v) || v == Str("") then false
    else if v.Bool? then v.b
    else if v.Num? then v.x != 0.0
    else IsTrueWord(Lower(ToString(v)))
  }

  /** `toDateOrNull`: null for a falsy value or an invalid date. Unlike a
      bare `new Date(v)`, a null value gives no date rather than the epoch. */
  function ToDateOrNull(v: JsValue, parse: DateParser): (r: Option<int>)
    ensures r.Some? ==> Truthy(v) && DateValue(v, parse) == r
    ensures r.None? <==> !Truthy(v) || DateValue(v, parse).None?
    ensures v.Null? ==> r.None? && DateValue(v, parse) == Some(0)
  {
    if !Truthy(v) then None else DateValue(v, parse)
  }

  /** The document fields `buildTradeData` produces. Dates are milliseconds
      (`None` for an invalid `Date`); text fields keep the payload value
      (`undefined` when absent, `null` where the code writes `?? null`). */
  datatype TradeData = TradeData(
    start: Option<int>,
    end: Option<int>,
    tradeType: JsValue,
    asset: JsValue,
    direction: JsValue,
    timeframe: JsValue,
    session: JsValue,
    entryCandleType: JsValue,
    strategyName: JsValue,
    entryPrice: JsNumber,
    exitPrice: Option<real>,
    riskPercentage: Option<real>,
    expectedRiskReward: Option<real>,
    actualRiskReward: Option<real>,
    trendMultiTimeframe: JsValue,
    takeProfit: Option<real>,
    stopLoss: Option<real>,
    amountTraded: Option<real>,
    lotSize: Option<real>,
    leverage: Option<real>,
    tradeFees: Option<real>,
    pnl: Option<real>,
    slMovedToBreakeven: bool,
    accountName: JsValue,
    balanceBefore: Option<real>,
    balanceAfter: Option<real>,
    increasedLotSize: bool,
    entryReason: JsValue,
    exitReason: JsValue,
    notes: JsValue,
    customFields: JsValue)

  /** `buildTradeData(payload)`. */
  function BuildTradeData(payload: JsValue, parse: DateParser): (d: TradeData)
    ensures d.start == DateValue(Get(payload, "start_datetime"), parse)
    ensures d.end == ToDateOrNull(Get(payload, "end_datetime"), parse)
    ensures d.entryPrice == ToNumber(Get(payload, "entry_price"))
    ensures d.asset == Get(payload, "asset") && d.session == Get(payload, "session")
    ensures d.pnl == ToNumberOrNull(Get(payload, "pnl"))
    ensures !IsNullish(d.entryCandleType) || d.entryCandleType.Null?
    ensures !d.strategyName.Undefined? && !d.accountName.Undefined? && !d.notes.Undefined?
  {
    TradeData(
      DateValue(Get(payload, "start_datetime"), parse),
      ToDateOrNull(Get(payload, "end_datetime"), parse),
      Get(payload, "trade_type"),
      Get(payload, "asset"),
      Get(payload, "direction"),
      Get(payload, "timeframe"),
      Get(payload, "session"),
      Coalesce(Get(payload, "entry_candle_type"), Null),
      Coalesce(Get(payload, "strategy_name"), Null),
      ToNumber(Get(payload, "entry_price")),
      ToNumberOrNull(Get(payload, "exit_price")),
      ToNumberOrNull(Get(payload, "risk_percentage")),
      ToNumberOrNull(Get(payload, "expected_risk_reward")),
      ToNumberOrNull(Get(payload, "actual_risk_reward")),
      Coalesce(Get(payload, "trend_multi_timeframe"), Null),
      ToNumberOrNull(Get(payload, "take_profit")),
      ToNumberOrNull(Get(payload, "stop_loss")),
      ToNumberOrNull(Get(payload, "amount_traded")),
      ToNumberOrNull(Get(payload, "lot_size")),
      ToNumberOrNull(Get(payload, "leverage")),
      ToNumberOrNull(Get(payload, "trade_fees")),
      ToNumberOrNull(Get(payload, "pnl")),
      ToBoolean(Get(payload, "sl_moved_to_breakeven")),
      Coalesce(Get(payload, "account_name"), Null),
      ToNumberOrNull(Get(payload, "balance_before_trade")),
      ToNumberOrNull(Get(payload, "balance_after_trade")),
      ToBoolean(Get(payload, "increased_lot_size")),
      Coalesce(Get(payload, "entry_reason"), Null),
      Coalesce(Get(payload, "exit_reason"), Null),
      Coalesce(Get(payload, "notes"), Null),
      Coalesce(Get(payload, "custom_fields"), Null))
  }

  /** One `connectOrCreate` entry: look the tag up by name, or create it. */
  datatype TagCreate = TagCreate(whereName: JsValue, createName: JsValue)

  /** `buildTagCreates(tags)`: one entry per tag, in order. */
  function BuildTagCreates(tags: seq<JsValue>): (r: seq<TagCreate>)
    ensures |r| == |tags|
    ensures forall i :: 0 <= i < |r| ==> r[i].whereName == r[i].createName
    ensures forall i :: 0 <= i < |tags| ==> r[i].createName == tags[i]
  {
    seq(|tags|, i requires 0 <= i < |tags| => TagCreate(tags[i], tags[i]))
  }

  // ---------------------------------------------------------------------
  // Properties
  // ---------------------------------------------------------------------

  /** An optional number never comes out as NaN: it is null or finite, and a
      finite result reads back from the value. */
  lemma ToNumberOrNullNumeral(k: int)
    ensures ToNumberOrNull(Str(IntToString(k))) == Some(k as real)
  {
    IntegerRoundTrip(k);
    IntegerToString(k);
    assert IntToString(k) != [];
  }

  /** Unlike the fields that go through `toNumberOrNull`, `entry_price` is
      not guarded: a payload without it gives NaN (`Number(undefined)`). */
  lemma EntryPriceUnguarded(payload: JsValue, parse: DateParser)
    requires !payload.Obj? || "entry_price" !in payload.fields
    ensures BuildTradeData(payload, parse).entryPrice.NaN?
  {
    assert Get(payload, "entry_price") == Undefined;
  }

  /** Whatever `toBoolean` reads as true is truthy; for values that are not
      text, arrays or objects the two coincide, while a truthy string such
      as "no" or "false" still reads as false. */
  lemma ToBooleanTruthy(v: JsValue)
    ensures ToBoolean(v) ==> Truthy(v)
    ensures !v.Str? && !v.Arr? && !v.Obj? ==> (ToBoolean(v) <==> Truthy(v))
  {
  }
}
