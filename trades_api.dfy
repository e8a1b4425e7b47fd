/** The front end's view of a trade (frontend/src/api/trades.ts): the
    normalisation of what the back end returns, the DD-MM-YYYY display
    date, and the query string of the trade list request. */
module TradesApi {
  import opened Common
  import opened Strings
  import opened JsValues

  // ---------------------------------------------------------------------
  // Dates
  // ---------------------------------------------------------------------

  /** The local calendar fields of a time: `getFullYear()`,
      `getMonth() + 1` and `getDate()`. */
  datatype CivilDate = CivilDate(year: int, month: nat, day: nat)

  /** The runtime's local time zone, as a parameter: the calendar date of a
      time value. */
  type LocalCalendar = int -> CivilDate

  /** `String(n).padStart(2, "0")`. */
  function Pad2(n: nat): (r: string)
    ensures AllDigits(r) && |r| >= 2
    ensures n < 100 ==> |r| == 2
  {
    var s := NatToString(n);
    assert 10 <= n < 100 ==> |s| == 2 by {
      if 10 <= n < 100 { assert s == NatToString(n / 10) + [DigitChar(n % 10)]; }
    }
    if |s| < 2 then "0" + s else s
  }

  /** Two-digit fields read back as the number printed. */
  lemma Pad2Value(n: nat)
    requires n < 100
    ensures DigitsValue(Pad2(n)) == n
  {
    NatToStringValue(n);
    var s := NatToString(n);
    if |s| < 2 {
      assert Pad2(n)[..1] == "0";
    }
  }

  /** `formatDate`: "" for a missing or empty value; otherwise day, month
      and year of the local date, the first two padded to two digits. An
      unparseable date prints its three NaN fields. */
  function FormatDate(v: JsValue, parse: DateParser, local: LocalCalendar): (r: string)
    ensures !Truthy(v) ==> r == []
    ensures Truthy(v) && DateValue(v, parse).None? ==> r == "NaN-NaN-NaN"
    ensures Truthy(v) && DateValue(v, parse).Some? ==>
      var c := local(DateValue(v, parse).value);
      r == Pad2(c.day) + "-" + Pad2(c.month) + "-" + IntToString(c.year)
  {
    if !Truthy(v) then []
    else
      match DateValue(v, parse)
      case None => "NaN-NaN-NaN"
      case Some(t) =>
        var c := local(t);
        Pad2(c.day) + "-" + Pad2(c.month) + "-" + IntToString(c.year)
  }

  /** A valid date prints as DD-MM-YYYY: dashes at positions 2 and 5, and
      the two leading fields read back as the day and the month. */
  lemma FormatDateShape(v: JsValue, parse: DateParser, local: LocalCalendar)
    requires Truthy(v) && DateValue(v, parse).Some?
    requires var c := local(DateValue(v, parse).value); 1 <= c.day <= 31 && 1 <= c.month <= 12
    ensures var r := FormatDate(v, parse, local);
      var c := local(DateValue(v, parse).value);
      |r| > 6 && r[2] == '-' && r[5] == '-' &&
      AllDigits(r[..2]) && DigitsValue(r[..2]) == c.day &&
      AllDigits(r[3..5]) && DigitsValue(r[3..5]) == c.month &&
      r[6..] == IntToString(c.year)
  {
    var c := local(DateValue(v, parse).value);
    var r := FormatDate(v, parse, local);
    var d, m := Pad2(c.day), Pad2(c.month);
    assert r == d + "-" + m + "-" + IntToString(c.year);
    assert r[..2] == d && r[3..5] == m;
    assert r[6..] == IntToString(c.year);
    Pad2Value(c.day);
    Pad2Value(c.month);
  }

  // ---------------------------------------------------------------------
  // normalizeTrade
  // ---------------------------------------------------------------------

  /** The numeric fields that `?? 0` fills in. `lot_size` is not among them:
      the normalised trade has no lot size. */
  const NumericFields: seq<string> := ["entry_price", "exit_price", "risk_percentage",
    "expected_risk_reward", "actual_risk_reward", "take_profit", "stop_loss",
    "amount_traded", "leverage", "trade_fees", "pnl"]

  /** The trade as the user interface sees it. Fields passed through keep
      the value the back end sent. */
  datatype NormalizedTrade = NormalizedTrade(
    tradeId: JsValue,
    startDate: string,
    endDate: string,
    startRaw: JsValue,
    endRaw: JsValue,
    createdAt: JsValue,
    tradeType: JsValue,
    asset: JsValue,
    direction: JsValue,
    timeframe: JsValue,
    session: JsValue,
    entryCandleType: JsValue,
    strategy: JsValue,
    numbers: map<string, JsValue>,
    tags: seq<JsValue>,
    accountId: JsValue,
    accountName: JsValue)

  /** `a?.[key] ?? b?.[key2] ?? ""`: the populated relation's name, then the
      flat name, then "". Only `null` and `undefined` fall through; an empty
      populated name wins. */
  function NameWithFallback(rel: JsValue, relKey: string, flat: JsValue): (r: JsValue)
    ensures !IsNullish(r)
    ensures r == Get(rel, relKey) || r == flat || r == Str("")
    ensures !IsNullish(Get(rel, relKey)) ==> r == Get(rel, relKey)
    ensures IsNullish(Get(rel, relKey)) && !IsNullish(flat) ==> r == flat
    ensures IsNullish(Get(rel, relKey)) && IsNullish(flat) ==> r == Str("")
  {
    Coalesce(Coalesce(Get(rel, relKey), flat), Str(""))
  }

  /** One tag entry: a string as it is, otherwise `t.tag?.tag_name ?? ""`.
      Reading `.tag` of `null` or `undefined` throws, shown as `None`. */
  function TagText(t: JsValue): (r: Option<JsValue>)
    ensures r.None? <==> IsNullish(t)
    ensures t.Str? ==> r == Some(t)
    ensures r.Some? && !t.Str? ==> r.value == Coalesce(Get(Get(t, "tag"), "tag_name"), Str(""))
  {
    if t.Str? then Some(t)
    else if IsNullish(t) then None
    else Some(Coalesce(Get(Get(t, "tag"), "tag_name"), Str("")))
  }

  /** `tags.map(...)`, failing on the first entry that throws. */
  function TagTexts(items: seq<JsValue>): (r: Option<seq<JsValue>>)
    ensures r.None? <==> exists k :: 0 <= k < |items| && IsNullish(items[k])
    ensures r.Some? ==> (|r.value| == |items| &&
                         forall k :: 0 <= k < |items| ==> Some(r.value[k]) == TagText(items[k]))
  {
    if items == [] then Some([])
    else
      match TagTexts(items[..|items| - 1])
      case None => None
      case Some(ts) =>
        match TagText(items[|items| - 1])
        case None => None
        case Some(t) => Some(ts + [t])
  }

  /** The tags of a trade: `[]` unless an array; each entry's text, with the
      falsy ones (`.filter(Boolean)`) dropped. */
  function TradeTags(v: JsValue): (r: Option<seq<JsValue>>)
    ensures !v.Arr? ==> r == Some([])
    ensures v.Arr? ==> r.None? == TagTexts(v.items).None?
    ensures v.Arr? && r.Some? ==> r.value == Filter(TagTexts(v.items).value, Truthy)
  {
    if !v.Arr? then Some([])
    else
      match TagTexts(v.items)
      case None => None
      case Some(ts) => Some(Filter(ts, Truthy))
  }

  /** Every kept tag is truthy; a string tag is kept exactly when it is not
      empty, and nothing else becomes a string tag unless it is a populated
      tag name. */
  lemma TradeTagsKept(v: JsValue)
    requires TradeTags(v).Some?
    ensures forall k :: 0 <= k < |TradeTags(v).value| ==> Truthy(TradeTags(v).value[k])
    ensures v.Arr? ==> forall x :: x in v.items && x.Str? ==> (x in TradeTags(v).value <==> x.s != [])
  {
    if v.Arr? {
      var ts := TagTexts(v.items).value;
      var r := TradeTags(v).value;
      forall x | x in v.items && x.Str? ensures x in r <==> x.s != [] {
        var k :| 0 <= k < |v.items| && v.items[k] == x;
        assert ts[k] == x;
      }
    }
  }

  /** The numeric fields: a sent number is kept, and `null` or a missing
      field becomes 0, so none is left null. */
  function NumericValues(api: JsValue): (m: map<string, JsValue>)
    ensures m.Keys == set f | f in NumericFields
    ensures forall f :: f in NumericFields ==> !IsNullish(m[f])
    ensures forall f :: f in NumericFields && !IsNullish(Get(api, f)) ==> m[f] == Get(api, f)
    ensures forall f :: f in NumericFields && IsNullish(Get(api, f)) ==> m[f] == Num(0.0)
  {
    map f | f in NumericFields :: Coalesce(Get(api, f), Num(0.0))
  }

  /** `account_id` and `account_name`: the name is dropped (`undefined`)
      when empty; the id is the populated one, else the name. */
  function AccountLink(api: JsValue): (r: (JsValue, JsValue))
    ensures var name := NameWithFallback(Get(api, "account"), "account_name", Get(api, "account_name"));
      (r.1.Undefined? <==> !Truthy(name)) && (Truthy(name) ==> r.1 == name)
    ensures !IsNullish(Get(Get(api, "account"), "account_id")) ==> r.0 == Get(Get(api, "account"), "account_id")
    ensures IsNullish(Get(Get(api, "account"), "account_id")) ==> r.0 == r.1
  {
    var name := NameWithFallback(Get(api, "account"), "account_name", Get(api, "account_name"));
    (Coalesce(Get(Get(api, "account"), "account_id"), Or(name, Undefined)), Or(name, Undefined))
  }

  /** `created_at ?? start_datetime ?? ""`: never missing. */
  function CreatedAt(api: JsValue): (r: JsValue)
    ensures !IsNullish(r)
    ensures !IsNullish(Get(api, "created_at")) ==> r == Get(api, "created_at")
    ensures IsNullish(Get(api, "created_at")) && !IsNullish(Get(api, "start_datetime")) ==> r == Get(api, "start_datetime")
  {
    Coalesce(Coalesce(Get(api, "created_at"), Get(api, "start_datetime")), Str(""))
  }

  /** `normalizeTrade`. Property access on a missing trade, and reading the
      tag of a `null` tag entry, throw; both are `None`. */
  function NormalizeTrade(api: JsValue, parse: DateParser, local: LocalCalendar): (r: Option<NormalizedTrade>)
    ensures r.None? <==> IsNullish(api) || TradeTags(Get(api, "tags")).None?
    ensures r.Some? ==> r.value.numbers == NumericValues(api) && r.value.tags == TradeTags(Get(api, "tags")).value
    ensures r.Some? ==> r.value.strategy == NameWithFallback(Get(api, "strategy"), "strategy_name", Get(api, "strategy_name"))
    ensures r.Some? ==> (r.value.accountId, r.value.accountName) == AccountLink(api) && r.value.createdAt == CreatedAt(api)
    ensures r.Some? && IsNullish(Get(api, "end_datetime")) ==> r.value.endRaw == Str("") && r.value.endDate == []
  {
    if IsNullish(api) then None
    else
      match TradeTags(Get(api, "tags"))
      case None => None
      case Some(tags) =>
        var link := AccountLink(api);
        Some(NormalizedTrade(
          Get(api, "trade_id"),
          FormatDate(Get(api, "start_datetime"), parse, local),
          FormatDate(Coalesce(Get(api, "end_datetime"), Null), parse, local),
          Get(api, "start_datetime"),
          Coalesce(Get(api, "end_datetime"), Str("")),
          CreatedAt(api),
          Get(api, "trade_type"),
          Get(api, "asset"),
          Get(api, "direction"),
          Get(api, "timeframe"),
          Get(api, "session"),
          Coalesce(Get(api, "entry_candle_type"), Str("")),
          NameWithFallback(Get(api, "strategy"), "strategy_name", Get(api, "strategy_name")),
          NumericValues(api),
          tags,
          link.0,
          link.1))
  }

  // ---------------------------------------------------------------------
  // getTrades
  // ---------------------------------------------------------------------

  /** The optional filters of the trade list request. */
  datatype TradeQuery = TradeQuery(search: Option<string>, asset: Option<string>,
                                   session: Option<string>, strategyId: Option<string>)

  /** `params?.x` is truthy. */
  predicate Given(x: Option<string>)
  {
    x.Some? && x.value != []
  }

  /** One `q.set(key, x)` guarded by `if (params?.x)`, and for asset and
      session also by `x !== "All"`. */
  function Param(key: string, x: Option<string>, sentinel: bool): (r: seq<(string, string)>)
    ensures |r| <= 1
    ensures r != [] <==> Given(x) && !(sentinel && x.value == "All")
    ensures r != [] ==> r[0] == (key, x.value)
  {
    if Given(x) && !(sentinel && x.value == "All") then [(key, x.value)] else []
  }

  /** The parameters set, in the order they are set. */
  function QueryPairs(p: TradeQuery): (r: seq<(string, string)>)
    ensures |r| <= 4
  {
    Param("search", p.search, false) + Param("asset", p.asset, true) +
    Param("session", p.session, true) + Param("strategy_id", p.strategyId, false)
  }

  /** Every parameter sent has a non-empty value; asset and session are
      never sent as "All"; and no parameter is sent exactly when none is
      given apart from the sentinels. */
  lemma QueryPairsSentinel(p: TradeQuery)
    ensures forall k :: 0 <= k < |QueryPairs(p)| ==> QueryPairs(p)[k].1 != []
    ensures ("asset", "All") !in QueryPairs(p) && ("session", "All") !in QueryPairs(p)
    ensures QueryPairs(p) == [] <==> (!Given(p.search) && !Given(p.strategyId) &&
                                      (!Given(p.asset) || p.asset.value == "All") &&
                                      (!Given(p.session) || p.session.value == "All"))
  {
    var s, a, e, i := Param("search", p.search, false), Param("asset", p.asset, true),
                      Param("session", p.session, true), Param("strategy_id", p.strategyId, false);
    assert QueryPairs(p) == s + a + e + i;
    assert ("asset", "All") !in s && ("asset", "All") !in a && ("asset", "All") !in e && ("asset", "All") !in i;
    assert ("session", "All") !in s && ("session", "All") !in a && ("session", "All") !in e && ("session", "All") !in i;
  }

  /** Characters `application/x-www-form-urlencoded` leaves as they are. */
  predicate Unreserved(c: char)
  {
    'a' <= c <= 'z' || 'A' <= c <= 'Z' || '0' <= c <= '9' || c == '*' || c == '-' || c == '.' || c == '_'
  }

  /** The UTF-8 bytes of a character. */
  function Utf8(c: char): (bs: seq<nat>)
    ensures 1 <= |bs| <= 4
    ensures forall k :: 0 <= k < |bs| ==> bs[k] < 256
    ensures (c as int) < 0x80 ==> bs == [c as int]
  {
    var n := c as int;
    if n < 0x80 then [n]
    else if n < 0x800 then [0xC0 + n / 64, 0x80 + n % 64]
    else if n < 0x1_0000 then [0xE0 + n / 4096, 0x80 + (n / 64) % 64, 0x80 + n % 64]
    else [0xF0 + (n / 262144) % 8, 0x80 + (n / 4096) % 64, 0x80 + (n / 64) % 64, 0x80 + n % 64]
  }

  function HexDigit(d: nat): (c: char)
    requires d < 16
    ensures '0' <= c <= '9' || 'A' <= c <= 'F'
  {
    if d < 10 then ('0' as int + d) as char else ('A' as int + d - 10) as char
  }

  /** `%XX` for each byte. */
  function PercentBytes(bs: seq<nat>): (r: string)
    requires forall k :: 0 <= k < |bs| ==> bs[k] < 256
    ensures |r| == 3 * |bs|
    ensures forall k :: 0 <= k < |r| ==> r[k] == '%' || '0' <= r[k] <= '9' || 'A' <= r[k] <= 'F'
  {
    if bs == [] then []
    else ['%', HexDigit(bs[0] / 16), HexDigit(bs[0] % 16)] + PercentBytes(bs[1..])
  }

  /** One character as the form serializer writes it. */
  function EncodeChar(c: char): (r: string)
    ensures r != []
    ensures forall k :: 0 <= k < |r| ==> Unreserved(r[k]) || r[k] == '+' || r[k] == '%'
  {
    if Unreserved(c) then [c]
    else if c == ' ' then "+"
    else PercentBytes(Utf8(c))
  }

  /** A name or value as the form serializer writes it. The separators `&`
      and `=` never survive. */
  function FormEncode(s: string): (r: string)
    ensures |r| >= |s|
    ensures '&' !in r && '=' !in r && '?' !in r
  {
    if s == [] then []
    else
      var e := EncodeChar(s[0]);
      assert forall k :: 0 <= k < |e| ==> e[k] != '&' && e[k] != '=' && e[k] != '?';
      e + FormEncode(s[1..])
  }

  /** `name=value` for one parameter. */
  function EncodePair(p: (string, string)): string
  {
    FormEncode(p.0) + "=" + FormEncode(p.1)
  }

  function EncodePairs(ps: seq<(string, string)>): (r: seq<string>)
    ensures |r| == |ps|
    ensures forall k :: 0 <= k < |ps| ==> r[k] == EncodePair(ps[k])
  {
    seq(|ps|, k requires 0 <= k < |ps| => EncodePair(ps[k]))
  }

  /** `URLSearchParams.toString()`. */
  function Serialize(ps: seq<(string, string)>): string
  {
    Join(EncodePairs(ps), "&")
  }

  /** The request path for a list of parameters. */
  function TradesUrl(ps: seq<(string, string)>): string
  {
    var query := Serialize(ps);
    if query == [] then "/trades" else "/trades?" + query
  }

  /** `getTrades`: sets each given parameter in turn, then appends the query
      string when there is one. */
  method TradesPath(p: TradeQuery) returns (path: string)
    ensures path == TradesUrl(QueryPairs(p))
  {
    var q: seq<(string, string)> := [];
    if Given(p.search) {
      q := q + [("search", p.search.value)];
    }
    assert q == Param("search", p.search, false);
    if Given(p.asset) && p.asset.value != "All" {
      q := q + [("asset", p.asset.value)];
    }
    assert q == Param("search", p.search, false) + Param("asset", p.asset, true);
    if Given(p.session) && p.session.value != "All" {
      q := q + [("session", p.session.value)];
    }
    assert q == Param("search", p.search, false) + Param("asset", p.asset, true) + Param("session", p.session, true);
    if Given(p.strategyId) {
      q := q + [("strategy_id", p.strategyId.value)];
    }
    assert q == QueryPairs(p);
    var query := Serialize(q);
    path := if query != [] then "/trades?" + query else "/trades";
  }

  /** Splitting the query string on `&` gives back one piece per parameter,
      and each piece splits on `=` into its encoded name and value. */
  lemma {:induction false} SerializeSplits(ps: seq<(string, string)>)
    requires ps != []
    ensures Split(Serialize(ps), '&') == EncodePairs(ps)
    ensures forall k :: 0 <= k < |ps| ==>
      Split(EncodePairs(ps)[k], '=') == [FormEncode(ps[k].0), FormEncode(ps[k].1)]
  {
    var es := EncodePairs(ps);
    forall k | 0 <= k < |ps| ensures '&' !in es[k]
      ensures Split(es[k], '=') == [FormEncode(ps[k].0), FormEncode(ps[k].1)]
    {
      SplitPrefix(FormEncode(ps[k].0), FormEncode(ps[k].1), '=');
      SplitNoSep(FormEncode(ps[k].1), '=');
    }
    JoinSplits(es, '&');
  }

  /** Joining pieces free of the separator and splitting again is the
      identity. */
  lemma {:induction false} JoinSplits(es: seq<string>, c: char)
    requires es != []
    requires forall k :: 0 <= k < |es| ==> c !in es[k]
    ensures Split(Join(es, [c]), c) == es
  {
    if |es| == 1 {
      SplitNoSep(es[0], c);
    } else {
      JoinSplits(es[1..], c);
      SplitPrefix(es[0], Join(es[1..], [c]), c);
      assert [es[0]] + es[1..] == es;
    }
  }

  /** The path is exactly `/trades` when no parameter is set; otherwise a
      `?` separates it from a query that holds every parameter. */
  lemma TradesUrlShape(ps: seq<(string, string)>)
    ensures ps == [] <==> TradesUrl(ps) == "/trades"
    ensures ps != [] ==>
      TradesUrl(ps) == "/trades?" + Serialize(ps) &&
      Split(Serialize(ps), '&') == EncodePairs(ps)
  {
    if ps != [] {
      SerializeSplits(ps);
      var es := EncodePairs(ps);
      assert es[0] == EncodePair(ps[0]) && es[0] != [];
      assert Serialize(ps)[..|es[0]|] == es[0];
    }
  }
}
