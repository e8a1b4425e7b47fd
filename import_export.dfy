/** Import and export of trades (backend/src/routes/importExport.js): the
    per-row normalisation and validation of an import, the tag list codec
    shared by export and import, and the analytics export. Reading and
    writing JSON, CSV and XLSX files is not part of this model; rows arrive
    as values. */
module ImportExport {
  import opened Common
  import opened Strings
  import opened JsValues
  import opened Sorting
  import opened TagHelpers
  import opened TradeHelpers
  import opened TradeIds
  import opened TradesRoute

  // ---------------------------------------------------------------------
  // Tag lists
  // ---------------------------------------------------------------------

  /** Each piece trimmed (`.map((tag) => tag.trim())`). */
  function TrimAll(pieces: seq<string>): (r: seq<string>)
    ensures |r| == |pieces| && forall i :: 0 <= i < |r| ==> r[i] == Trim(pieces[i])
    ensures forall i :: 0 <= i < |r| ==> IsTrimmed(r[i])
  {
    TrimEach(pieces);
    seq(|pieces|, i requires 0 <= i < |pieces| => Trim(pieces[i]))
  }

  lemma TrimEach(pieces: seq<string>)
    ensures forall i :: 0 <= i < |pieces| ==> IsTrimmed(Trim(pieces[i]))
  {
    forall i | 0 <= i < |pieces| ensures IsTrimmed(Trim(pieces[i])) {
      TrimIsTrimmed(pieces[i]);
    }
  }

  function AsStrings(names: seq<string>): (r: seq<JsValue>)
    ensures |r| == |names| && forall i :: 0 <= i < |r| ==> r[i] == Str(names[i])
  {
    seq(|names|, i requires 0 <= i < |names| => Str(names[i]))
  }

  /** The non-empty, trimmed pieces of `text` between commas. */
  function SplitTags(text: string): seq<string>
  {
    Filter(TrimAll(Split(text, ',')), (s: string) => s != [])
  }

  /** Trimming a piece free of commas leaves a trimmed piece free of commas. */
  lemma TrimmedPiece(p: string)
    requires ',' !in p
    ensures IsTrimmed(Trim(p)) && ',' !in Trim(p)
  {
    var t := TrimStart(p);
    var r := TrimEnd(t);
    if r != [] {
      assert r[0] == t[0];
    }
    forall i | 0 <= i < |r| ensures r[i] != ',' {
      assert r[i] == t[i] == p[|p| - |t| + i];
    }
  }

  /** Every piece `SplitTags` keeps is non-empty, trimmed and free of commas. */
  lemma SplitTagsClean(text: string)
    ensures Exportable(SplitTags(text))
  {
    var pieces := Split(text, ',');
    var trimmed := TrimAll(pieces);
    forall j | 0 <= j < |trimmed| ensures IsTrimmed(trimmed[j]) && ',' !in trimmed[j] {
      TrimmedPiece(pieces[j]);
    }
    var kept := SplitTags(text);
    forall k | 0 <= k < |kept| ensures kept[k] != [] && IsTrimmed(kept[k]) && ',' !in kept[k] {
      assert kept[k] in trimmed;
    }
  }

  /** `parseTags(value)`: nothing for a falsy value, an array as it is, and
      otherwise the trimmed, non-empty pieces of its text between commas. */
  function ParseTags(v: JsValue): (r: seq<JsValue>)
    ensures !Truthy(v) ==> r == []
    ensures v.Arr? ==> r == v.items
    ensures Truthy(v) && !v.Arr? ==> r == AsStrings(SplitTags(ToString(v)))
  {
    if !Truthy(v) then []
    else if v.Arr? then v.items
    else AsStrings(SplitTags(ToString(v)))
  }

  /** The tag cell of an exported trade: `(tags || []).join(", ")`. */
  function ExportTags(tags: seq<string>): string
  {
    Join(tags, ", ")
  }

  /** The tags of a trade can be read back from its export cell. */
  predicate Exportable(tags: seq<string>)
  {
    forall i :: 0 <= i < |tags| ==> tags[i] != [] && IsTrimmed(tags[i]) && ',' !in tags[i]
  }

  /** Splitting a joined list on ',' gives the names, each after the first
      still carrying the space of the separator. */
  lemma {:induction false} SplitJoined(tags: seq<string>, lead: string)
    requires tags != [] && Exportable(tags) && ',' !in lead
    ensures var p := Split(lead + ExportTags(tags), ',');
      |p| == |tags| && p[0] == lead + tags[0] &&
      forall i :: 1 <= i < |tags| ==> p[i] == " " + tags[i]
  {
    if |tags| == 1 {
      SplitNoSep(lead + tags[0], ',');
    } else {
      var rest := tags[1..];
      assert ExportTags(tags) == tags[0] + ", " + ExportTags(rest);
      assert lead + ExportTags(tags) == (lead + tags[0]) + [','] + (" " + ExportTags(rest));
      SplitPrefix(lead + tags[0], " " + ExportTags(rest), ',');
      SplitJoined(rest, " ");
    }
  }

  /** Trimming one separator space off a trimmed name gives the name. */
  lemma TrimSpaced(t: string)
    requires t != [] && IsTrimmed(t)
    ensures Trim(" " + t) == t
  {
    assert (" " + t)[1..] == t;
    assert TrimStart(" " + t) == TrimStart(t);
    TrimOfTrimmed(t);
  }

  /** The pieces of an exported tag cell are the exported names. */
  lemma SplitTagsOfExport(tags: seq<string>)
    requires tags != [] && Exportable(tags)
    ensures SplitTags(ExportTags(tags)) == tags
  {
    var cell := ExportTags(tags);
    var p := Split(cell, ',');
    SplitJoined(tags, "");
    assert [] + cell == cell;
    var trimmed := TrimAll(p);
    forall i | 0 <= i < |tags| ensures trimmed[i] == tags[i] {
      if i == 0 {
        TrimOfTrimmed(tags[0]);
      } else {
        TrimSpaced(tags[i]);
      }
    }
    assert trimmed == tags;
    FilterKeepsAll(trimmed, (s: string) => s != []);
  }

  /** A non-empty list exports to a non-empty cell. */
  lemma ExportTagsNonEmpty(tags: seq<string>)
    requires tags != [] && tags[0] != []
    ensures ExportTags(tags) != []
  {
    if |tags| > 1 {
      assert ExportTags(tags) == tags[0] + ", " + ExportTags(tags[1..]);
    }
  }

  /** Export then import of a tag list gives the list back when the names
      are non-empty, trimmed and free of commas. */
  lemma ExportTagsRoundTrip(tags: seq<string>)
    requires Exportable(tags)
    ensures ParseTags(Str(ExportTags(tags))) == AsStrings(tags)
  {
    if tags != [] {
      ExportTagsNonEmpty(tags);
      SplitTagsOfExport(tags);
    }
  }

  // ---------------------------------------------------------------------
  // normalizeRow
  // ---------------------------------------------------------------------

  /** `row[n0] ?? row[n1] ?? ...`: the first alias present (neither null nor
      undefined), else the value of the last alias. */
  function FirstOf(row: JsValue, names: seq<string>): (r: JsValue)
    requires names != []
    ensures IsNullish(r) <==> forall j :: 0 <= j < |names| ==> IsNullish(Get(row, names[j]))
    ensures !IsNullish(r) ==> exists k :: 0 <= k < |names| && r == Get(row, names[k]) &&
                                        forall j :: 0 <= j < k ==> IsNullish(Get(row, names[j]))
    ensures IsNullish(r) ==> r == Get(row, names[|names| - 1])
  {
    if |names| == 1 then Get(row, names[0])
    else
      var rest := FirstOf(row, names[1..]);
      assert forall j :: 1 <= j < |names| ==> names[1..][j - 1] == names[j];
      var r := Coalesce(Get(row, names[0]), rest);
      assert !IsNullish(r) ==> exists k :: 0 <= k < |names| && r == Get(row, names[k]) &&
                                          forall j :: 0 <= j < k ==> IsNullish(Get(row, names[j])) by {
        if !IsNullish(Get(row, names[0])) {
          assert r == Get(row, names[0]);
        } else if !IsNullish(r) {
          var k :| 0 <= k < |names[1..]| && rest == Get(row, names[1..][k]) &&
                   forall j :: 0 <= j < k ==> IsNullish(Get(row, names[1..][j]));
          assert r == Get(row, names[k + 1]);
        }
      }
      r
  }

  /** The keys `normalizeRow` writes, in its order. `trade_id` is not among them. */
  const NormalizedKeys: seq<string> := [
    "start_datetime", "end_datetime", "trade_type", "asset", "direction", "timeframe",
    "session", "entry_candle_type", "strategy_id", "entry_price", "exit_price",
    "risk_percentage", "expected_risk_reward", "actual_risk_reward", "trend_multi_timeframe",
    "take_profit", "stop_loss", "amount_traded", "lot_size", "leverage", "trade_fees", "pnl",
    "sl_moved_to_breakeven", "account_id", "balance_before_trade", "balance_after_trade",
    "increased_lot_size", "entry_reason", "exit_reason", "notes", "custom_fields", "tags"]

  /** The alias chain of each normalised key, in precedence order. */
  function Aliases(key: string): (r: seq<string>)
    ensures r != []
  {
    if key == "start_datetime" then ["start_datetime", "startDate", "start"]
    else if key == "end_datetime" then ["end_datetime", "endDate", "end"]
    else if key == "trade_type" then ["trade_type", "tradeType"]
    else if key == "entry_candle_type" then ["entry_candle_type", "entryCandle"]
    else if key == "entry_price" then ["entry_price", "entryPrice"]
    else if key == "exit_price" then ["exit_price", "exitPrice"]
    else if key == "risk_percentage" then ["risk_percentage", "riskPercent"]
    else if key == "expected_risk_reward" then ["expected_risk_reward", "expectedRR"]
    else if key == "actual_risk_reward" then ["actual_risk_reward", "actualRR"]
    else if key == "take_profit" then ["take_profit", "takeProfit"]
    else if key == "stop_loss" then ["stop_loss", "stopLoss"]
    else if key == "amount_traded" then ["amount_traded", "amount"]
    else if key == "lot_size" then ["lot_size", "lotSize"]
    else if key == "trade_fees" then ["trade_fees", "fees"]
    else [key]
  }

  /** The value `normalizeRow` writes under `key`. */
  function NormalizedValue(row: JsValue, key: string): JsValue
  {
    if key == "tags" then Arr(ParseTags(Get(row, "tags"))) else FirstOf(row, Aliases(key))
  }

  /** The object literal of `normalizeRow`, one key after the other. */
  function NormalizeFields(row: JsValue, keys: seq<string>): map<string, JsValue>
  {
    if keys == [] then map[]
    else NormalizeFields(row, keys[..|keys| - 1])[keys[|keys| - 1] := NormalizedValue(row, keys[|keys| - 1])]
  }

  /** `normalizeRow(row)`. */
  function NormalizeRow(row: JsValue): (n: JsValue)
    ensures n.Obj?
  {
    Obj(NormalizeFields(row, NormalizedKeys))
  }

  /** The fields written for `keys` are exactly those keys, each with its
      resolved value. */
  lemma {:induction false} NormalizeFieldsGet(row: JsValue, keys: seq<string>, k: string)
    ensures k in NormalizeFields(row, keys) <==> k in keys
    ensures k in keys ==> NormalizeFields(row, keys)[k] == NormalizedValue(row, k)
  {
    if keys != [] {
      NormalizeFieldsGet(row, keys[..|keys| - 1], k);
      assert k in keys <==> k in keys[..|keys| - 1] || k == keys[|keys| - 1];
    }
  }

  /** A normalised row has exactly the normalised keys, each holding the
      first present alias (the parsed tag list under `tags`). */
  lemma NormalizeRowGet(row: JsValue, k: string)
    ensures k in NormalizeRow(row).fields <==> k in NormalizedKeys
    ensures Get(NormalizeRow(row), k) == if k in NormalizedKeys then NormalizedValue(row, k) else Undefined
  {
    NormalizeFieldsGet(row, NormalizedKeys, k);
  }

  /** `normalizeRow` never carries a `trade_id` over. */
  lemma NormalizeRowDropsTradeId(row: JsValue, key: string)
    requires key == "trade_id"
    ensures Get(NormalizeRow(row), key).Undefined?
  {
    NormalizeRowGet(row, key);
    TradeIdNotNormalized();
  }

  lemma TradeIdNotNormalized()
    ensures "trade_id" !in NormalizedKeys
  {
    forall i | 0 <= i < |NormalizedKeys| ensures NormalizedKeys[i] != "trade_id" {
      var k := NormalizedKeys[i];
      assert |k| != 8 || k[0] != 't';
    }
  }

  /** The tag cell is parsed into a list. */
  lemma NormalizedTags(row: JsValue)
    ensures Get(NormalizeRow(row), "tags") == Arr(ParseTags(Get(row, "tags")))
  {
    NormalizeRowGet(row, "tags");
    assert NormalizedKeys[31] == "tags";
  }

  /** The start time resolves left to right: `start_datetime`, then
      `startDate`, then `start`. */
  lemma StartAliases(row: JsValue, k0: string, k1: string, k2: string)
    requires k0 == "start_datetime" && k1 == "startDate" && k2 == "start"
    ensures !IsNullish(Get(row, k0)) ==> Get(NormalizeRow(row), k0) == Get(row, k0)
    ensures IsNullish(Get(row, k0)) && !IsNullish(Get(row, k1)) ==> Get(NormalizeRow(row), k0) == Get(row, k1)
    ensures IsNullish(Get(row, k0)) && IsNullish(Get(row, k1)) ==> Get(NormalizeRow(row), k0) == Get(row, k2)
  {
    var chain := [k0, k1, k2];
    NormalizeRowGet(row, k0);
    assert NormalizedKeys[0] == k0;
    assert Get(NormalizeRow(row), k0) == FirstOf(row, chain);
    assert chain[1..] == [k1, k2];
    assert chain[1..][1..] == [k2];
  }

  // ---------------------------------------------------------------------
  // POST /import/trades: the row loop
  // ---------------------------------------------------------------------

  /** The row check: a falsy start, type, asset, direction, timeframe or
      session, or an absent entry price, rejects the row. */
  predicate MissingRequired(n: JsValue)
  {
    !Truthy(Get(n, "start_datetime")) || !Truthy(Get(n, "trade_type")) ||
    !Truthy(Get(n, "asset")) || !Truthy(Get(n, "direction")) ||
    !Truthy(Get(n, "timeframe")) || !Truthy(Get(n, "session")) ||
    Get(n, "entry_price").Undefined?
  }

  /** `trd-${Date.now()}`. */
  function FallbackTradeId(now: int): string
  {
    "trd-" + IntToString(now)
  }

  /** The id a row is created under: the row's own `trade_id` when truthy,
      else the fallback. */
  function RowTradeId(n: JsValue, now: int): string
  {
    var given := Get(n, "trade_id");
    if Truthy(given) then ToString(given) else FallbackTradeId(now)
  }

  /** Every imported trade gets the fallback id. */
  lemma ImportedIdIsFallback(row: JsValue, now: int)
    ensures RowTradeId(NormalizeRow(row), now) == FallbackTradeId(now)
  {
    NormalizeRowDropsTradeId(row, "trade_id");
  }

  /** `Trade.create` on a normalised row: `None` when a cast or a
      validation fails (the exception ends the import). */
  function RowTrade(n: JsValue, id: string, parse: DateParser): (r: Option<Trade>)
    ensures r.Some? ==> r.value.tradeId == id && CreateAccepts(r.value.data) && r.value.images == []
  {
    var data := BuildTradeData(n, parse);
    var sid := Get(n, "strategy_id");
    var aid := Get(n, "account_id");
    if (Truthy(sid) && CastObjectId(sid).None?) || (Truthy(aid) && CastObjectId(aid).None?) ||
       !CreateAccepts(data)
    then None
    else Some(Trade(id, data, if Truthy(sid) then CastObjectId(sid) else None,
                    if Truthy(aid) then CastObjectId(aid) else None, []))
  }

  const MissingFields: string := "Missing required fields"

  /** An entry of the `errors` list: the raw row and the reason. */
  datatype RowError = RowError(row: JsValue, error: string)

  /** What the import loop has done so far. `aborted` records an exception
      from `Trade.create` (a failed cast or validation, or a duplicate
      `trade_id`): the loop stops, earlier rows stay imported. */
  datatype ImportState = ImportState(
    trades: seq<Trade>, ix: Index, imported: seq<string>, errors: seq<RowError>, aborted: bool)

  /** One iteration of the loop over rows; `now` is `Date.now()` then.
      `normalizeRow` reads `row.start_datetime`, which throws for a null or
      undefined row (a `null` entry of a JSON array): that ends the loop. */
  function ImportRow(st: ImportState, row: JsValue, now: int, parse: DateParser): ImportState
  {
    if st.aborted then st
    else if IsNullish(row) then st.(aborted := true)
    else ImportNormalized(st, row, NormalizeRow(row), now, parse)
  }

  /** The body of the loop once the row `row` has been normalised to `n`. */
  function ImportNormalized(st: ImportState, row: JsValue, n: JsValue, now: int, parse: DateParser): ImportState
  {
    if MissingRequired(n) then st.(errors := st.errors + [RowError(row, MissingFields)])
    else
      var id := RowTradeId(n, now);
      match RowTrade(n, id, parse)
      case None => st.(aborted := true)
      case Some(t) =>
        if id in IdsOf(st.trades) then st.(aborted := true)
        else Accept(st, t, UniqueNames(Arr(ParseTags(Get(n, "tags")))))
  }

  /** `Trade.create` succeeded: the trade is stored, its tags are synced and
      its id is reported. */
  function Accept(st: ImportState, t: Trade, names: seq<string>): ImportState
  {
    st.(trades := st.trades + [t], ix := SyncState(st.ix, t.tradeId, names), imported := st.imported + [t.tradeId])
  }

  /** The loop over `rows`; `clock(k)` is `Date.now()` at row `k`. */
  function ImportRows(st: ImportState, rows: seq<JsValue>, clock: nat -> int, parse: DateParser): ImportState
  {
    if rows == [] then st
    else ImportRow(ImportRows(st, rows[..|rows| - 1], clock, parse), rows[|rows| - 1], clock(|rows| - 1), parse)
  }

  /** Invariant of the loop: the collections stay valid, the trades are the
      old ones followed by the imported ones, and every row so far is
      either imported or reported. */
  ghost predicate ImportInvariant(st0: ImportState, st: ImportState, done: nat)
  {
    ValidTrades(st.trades) && ValidIndex(st.ix) &&
    IdsOf(st.trades) == IdsOf(st0.trades) + st.imported &&
    (!st.aborted ==> |st.imported| + |st.errors| == done)
  }

  /** One iteration keeps the invariant; a stopped loop stays as it is, and
      a null row stops it with nothing stored. */
  lemma ImportRowStep(st0: ImportState, st: ImportState, row: JsValue, now: int, parse: DateParser, done: nat)
    requires ImportInvariant(st0, st, done)
    ensures ImportInvariant(st0, ImportRow(st, row, now, parse), done + 1) || st.aborted
    ensures st.aborted ==> ImportRow(st, row, now, parse) == st
    ensures IsNullish(row) ==> ImportRow(st, row, now, parse) == st.(aborted := true)
  {
    if !st.aborted && !IsNullish(row) {
      ImportNormalizedStep(st0, st, row, NormalizeRow(row), now, parse, done);
    }
  }

  lemma ImportNormalizedStep(st0: ImportState, st: ImportState, row: JsValue, n: JsValue, now: int,
                             parse: DateParser, done: nat)
    requires ImportInvariant(st0, st, done) && !st.aborted
    ensures ImportInvariant(st0, ImportNormalized(st, row, n, now, parse), done + 1)
  {
    var next := ImportNormalized(st, row, n, now, parse);
    if MissingRequired(n) {
      assert next == st.(errors := st.errors + [RowError(row, MissingFields)]);
    } else {
      var id := RowTradeId(n, now);
      var t := RowTrade(n, id, parse);
      if t.None? || id in IdsOf(st.trades) {
        assert next == st.(aborted := true);
      } else {
        var names := UniqueNames(Arr(ParseTags(Get(n, "tags"))));
        assert next == Accept(st, t.value, names);
        AcceptStep(st0, st, t.value, names, done);
      }
    }
  }

  /** Storing a trade whose id is new keeps the invariant. */
  lemma AcceptStep(st0: ImportState, st: ImportState, t: Trade, names: seq<string>, done: nat)
    requires ImportInvariant(st0, st, done) && !st.aborted
    requires t.tradeId !in IdsOf(st.trades) && CreateAccepts(t.data) && ListedNames(names)
    ensures ImportInvariant(st0, Accept(st, t, names), done + 1)
  {
    var next := Accept(st, t, names);
    SyncValid(st.ix, t.tradeId, names);
    AppendFreshTrade(st.trades, t);
  }

  /** Appending a validated trade under a new id keeps the trades valid. */
  lemma AppendFreshTrade(trades: seq<Trade>, t: Trade)
    requires ValidTrades(trades) && t.tradeId !in IdsOf(trades) && CreateAccepts(t.data)
    ensures ValidTrades(trades + [t]) && IdsOf(trades + [t]) == IdsOf(trades) + [t.tradeId]
  {
    forall i | 0 <= i < |trades| ensures trades[i].tradeId != t.tradeId {
      assert IdsOf(trades)[i] == trades[i].tradeId;
    }
  }

  /** Once an exception has ended the loop, later rows change nothing. */
  lemma {:induction false} ImportRowsAborted(st: ImportState, rows: seq<JsValue>, clock: nat -> int,
                                             parse: DateParser, k: nat)
    requires k <= |rows| && ImportRows(st, rows[..k], clock, parse).aborted
    ensures ImportRows(st, rows, clock, parse) == ImportRows(st, rows[..k], clock, parse)
    decreases |rows| - k
  {
    if k < |rows| {
      assert rows[..k + 1][..k] == rows[..k];
      ImportRowsAborted(st, rows, clock, parse, k + 1);
    } else {
      assert rows[..k] == rows;
    }
  }

  /** Starting from empty reports, an import that completes accounts for
      every row: `imported + errors.length` is the number of rows. The new
      trades follow the old ones, ids stay unique and the tag index valid. */
  lemma {:induction false} ImportRowsInvariant(st0: ImportState, rows: seq<JsValue>, clock: nat -> int, parse: DateParser)
    requires ValidTrades(st0.trades) && ValidIndex(st0.ix)
    requires st0.imported == [] && st0.errors == [] && !st0.aborted
    ensures ImportInvariant(st0, ImportRows(st0, rows, clock, parse), |rows|)
  {
    if rows != [] {
      var init := rows[..|rows| - 1];
      ImportRowsInvariant(st0, init, clock, parse);
      ImportRowStep(st0, ImportRows(st0, init, clock, parse), rows[|rows| - 1], clock(|rows| - 1), parse, |init|);
    }
  }

  /** A rejected row is only reported: nothing is created or synced. A null
      row, which also lacks every field, is not reported: it stops the loop. */
  lemma MissingRowCreatesNothing(st: ImportState, row: JsValue, now: int, parse: DateParser)
    requires MissingRequired(NormalizeRow(row))
    ensures ImportRow(st, row, now, parse).trades == st.trades
    ensures ImportRow(st, row, now, parse).ix == st.ix
    ensures !st.aborted && !IsNullish(row) ==>
      ImportRow(st, row, now, parse) == st.(errors := st.errors + [RowError(row, MissingFields)])
    ensures IsNullish(row) ==> ImportRow(st, row, now, parse).aborted
  {
  }

  /** An imported row's trade id is tagged with exactly the row's cleaned
      tag names. */
  lemma ImportedRowIsSynced(st: ImportState, row: JsValue, now: int, parse: DateParser)
    requires ValidIndex(st.ix) && !st.aborted
    requires ImportRow(st, row, now, parse).imported == st.imported + [FallbackTradeId(now)]
    ensures forall nm :: nm in NamesForTrade(ImportRow(st, row, now, parse).ix.tags, FallbackTradeId(now)) <==>
      nm in UniqueNames(Arr(ParseTags(Get(row, "tags"))))
  {
    var n := NormalizeRow(row);
    ImportNormalizedImported(st, row, n, now, parse);
    ImportedIdIsFallback(row, now);
    NormalizedTags(row);
    SyncMembership(st.ix, FallbackTradeId(now), UniqueNames(Arr(ParseTags(Get(row, "tags")))));
  }

  /** A row that was imported was accepted under its row id, with the tags
      of its normalised cell. */
  lemma ImportNormalizedImported(st: ImportState, row: JsValue, n: JsValue, now: int, parse: DateParser)
    requires !st.aborted && |ImportNormalized(st, row, n, now, parse).imported| > |st.imported|
    ensures var next := ImportNormalized(st, row, n, now, parse);
      next.imported == st.imported + [RowTradeId(n, now)] &&
      next.ix == SyncState(st.ix, RowTradeId(n, now), UniqueNames(Arr(ParseTags(Get(n, "tags"))))) &&
      ListedNames(UniqueNames(Arr(ParseTags(Get(n, "tags")))))
  {
  }

  /** One more row of the loop. */
  lemma ImportRowsSnoc(st0: ImportState, rows: seq<JsValue>, k: nat, clock: nat -> int, parse: DateParser)
    requires k < |rows|
    ensures ImportRows(st0, rows[..k + 1], clock, parse) ==
            ImportRow(ImportRows(st0, rows[..k], clock, parse), rows[k], clock(k), parse)
  {
    assert rows[..k + 1][..k] == rows[..k];
  }

  /** What one pass of the loop did with its row. */
  datatype RowOutcome = Reported | Aborted | Imported(tradeId: string)

  /** The loop body on the collections, for a row `row` normalised to `n`:
      report it, stop on an exception, or create the trade and sync its tags. */
  method ImportOne(store: TradeStore, tagStore: TagStore, ghost st: ImportState, row: JsValue, n: JsValue,
                   now: int, parse: DateParser) returns (outcome: RowOutcome)
    requires store.Valid() && tagStore.Valid() && !st.aborted
    requires store.trades == st.trades && tagStore.State() == st.ix
    modifies store, tagStore
    ensures var next := ImportNormalized(st, row, n, now, parse);
      (outcome.Aborted? <==> next.aborted) &&
      (outcome.Reported? ==> next.imported == st.imported && next.errors == st.errors + [RowError(row, MissingFields)]) &&
      (outcome.Imported? ==> next.imported == st.imported + [outcome.tradeId] && next.errors == st.errors) &&
      store.trades == next.trades && tagStore.State() == next.ix
    ensures store.Valid() && tagStore.Valid()
  {
    ghost var next := ImportNormalized(st, row, n, now, parse);
    if MissingRequired(n) {
      assert next == st.(errors := st.errors + [RowError(row, MissingFields)]);
      return Reported;
    }
    var tradeId := RowTradeId(n, now);
    var trade := RowTrade(n, tradeId, parse);
    if trade.None? || tradeId in IdsOf(store.trades) {
      assert next == st.(aborted := true);
      return Aborted;
    }
    var names := UniqueNames(Arr(ParseTags(Get(n, "tags"))));
    assert next == Accept(st, trade.value, names);
    AppendFreshTrade(store.trades, trade.value);
    store.trades := store.trades + [trade.value];
    tagStore.Sync(tradeId, Arr(ParseTags(Get(n, "tags"))));
    outcome := Imported(tradeId);
  }

  /** The next row of a loop that has not stopped: a null row stops it,
      any other row is normalised and processed. */
  lemma ImportRowsNext(st0: ImportState, rows: seq<JsValue>, k: nat, clock: nat -> int, parse: DateParser)
    requires k < |rows| && !ImportRows(st0, rows[..k], clock, parse).aborted
    ensures IsNullish(rows[k]) ==>
      ImportRows(st0, rows[..k + 1], clock, parse) == ImportRows(st0, rows[..k], clock, parse).(aborted := true)
    ensures !IsNullish(rows[k]) ==>
      ImportRows(st0, rows[..k + 1], clock, parse) ==
      ImportNormalized(ImportRows(st0, rows[..k], clock, parse), rows[k], NormalizeRow(rows[k]), clock(k), parse)
  {
    ImportRowsSnoc(st0, rows, k, clock, parse);
  }

  /** A null row ends the loop where it stands. */
  lemma NullRowStops(st0: ImportState, rows: seq<JsValue>, k: nat, clock: nat -> int, parse: DateParser)
    requires k < |rows| && !ImportRows(st0, rows[..k], clock, parse).aborted && IsNullish(rows[k])
    ensures ImportRows(st0, rows, clock, parse) == ImportRows(st0, rows[..k], clock, parse).(aborted := true)
  {
    ImportRowsNext(st0, rows, k, clock, parse);
    ImportRowsAborted(st0, rows, clock, parse, k + 1);
  }

  /** POST /import/trades once the file has been read into rows: the loop
      over the rows, creating each valid trade and syncing its tags. The
      answer is `{ imported, errors }`, or the exception that ended it. */
  method ImportTrades(store: TradeStore, tagStore: TagStore, rows: seq<JsValue>, clock: nat -> int,
                      parse: DateParser) returns (r: Response<(nat, seq<RowError>)>)
    requires store.Valid() && tagStore.Valid()
    modifies store, tagStore
    ensures var st := ImportRows(ImportState(old(store.trades), old(tagStore.State()), [], [], false),
                                 rows, clock, parse);
      store.trades == st.trades && tagStore.State() == st.ix &&
      r == (if st.aborted then InternalError else Ok((|st.imported|, st.errors)))
    ensures store.Valid() && tagStore.Valid()
  {
    ghost var st0 := ImportState(store.trades, tagStore.State(), [], [], false);
    ghost var st := st0;
    var results: seq<string> := [];
    var errors: seq<RowError> := [];
    var k := 0;
    while k < |rows|
      invariant 0 <= k <= |rows|
      invariant st == ImportRows(st0, rows[..k], clock, parse) && !st.aborted
      invariant store.Valid() && tagStore.Valid()
      invariant store.trades == st.trades && tagStore.State() == st.ix
      invariant results == st.imported && errors == st.errors
    {
      var row := rows[k];
      ImportRowsNext(st0, rows, k, clock, parse);
      if IsNullish(row) {
        NullRowStops(st0, rows, k, clock, parse);
        return InternalError;
      }
      var normalized := NormalizeRow(row);
      ghost var next := ImportNormalized(st, row, normalized, clock(k), parse);
      var outcome := ImportOne(store, tagStore, st, row, normalized, clock(k), parse);
      match outcome {
        case Aborted =>
          ImportRowsAborted(st0, rows, clock, parse, k + 1);
          return InternalError;
        case Reported =>
          errors := errors + [RowError(row, MissingFields)];
        case Imported(tradeId) =>
          results := results + [tradeId];
      }
      st := next;
      k := k + 1;
    }
    assert rows[..k] == rows;
    r := Ok((|results|, errors));
  }

  // ---------------------------------------------------------------------
  // GET /export/trades, GET /export/analytics
  // ---------------------------------------------------------------------

  /** An exported row: the stored fields, ids as text or null, and the tag
      cell. */
  datatype ExportedTrade = ExportedTrade(
    tradeId: string, data: TradeData, strategyId: JsValue, accountId: JsValue, tags: string)

  function IdText(id: Option<ObjectId>): JsValue
  {
    match id
    case Some(i) => Str(NatToString(i))
    case None => Null
  }

  /** `exportTrade({ ...trade, tags })`. */
  function ExportTrade(t: Trade, tags: seq<string>): (e: ExportedTrade)
    ensures e.tradeId == t.tradeId && e.data == t.data && e.tags == ExportTags(tags)
    ensures t.strategyId.Some? ==> CastObjectId(e.strategyId) == t.strategyId
    ensures t.strategyId.None? ==> e.strategyId == Null
    ensures t.accountId.Some? ==> CastObjectId(e.accountId) == t.accountId
    ensures t.accountId.None? ==> e.accountId == Null
  {
    var e := ExportedTrade(t.tradeId, t.data, IdText(t.strategyId), IdText(t.accountId), ExportTags(tags));
    assert t.strategyId.Some? ==> CastObjectId(e.strategyId) == t.strategyId by {
      if t.strategyId.Some? { CastObjectIdRoundTrip(t.strategyId.value); }
    }
    assert t.accountId.Some? ==> CastObjectId(e.accountId) == t.accountId by {
      if t.accountId.Some? { CastObjectIdRoundTrip(t.accountId.value); }
    }
    e
  }

  /** GET /export/trades (the JSON form): newest first, each trade with the
      names of the tags that list it. */
  function ExportTrades(trades: seq<Trade>, ix: Index): (r: seq<ExportedTrade>)
    ensures |r| == |trades|
    ensures forall i, j :: 0 <= i < j < |r| ==> r[j].data.start.GetOr(0) <= r[i].data.start.GetOr(0)
    ensures forall i :: 0 <= i < |r| ==> r[i].tags == ExportTags(Occurrences(ix.tags, r[i].tradeId))
  {
    KeyLeTotalPreorder((t: Trade) => -StartOf(t));
    var sorted := Sort(trades, ByStartDesc());
    var r := seq(|sorted|, i requires 0 <= i < |sorted| => ExportTrade(sorted[i], Occurrences(ix.tags, sorted[i].tradeId)));
    assert forall i, j :: 0 <= i < j < |r| ==> ByStartDesc()(sorted[i], sorted[j]);
    r
  }

  /** Tag names in a valid index without commas come back unchanged when an
      export is imported again. */
  lemma ExportedTagsReimport(ix: Index, x: string)
    requires ValidIndex(ix)
    requires forall i :: 0 <= i < |ix.tags| ==> ',' !in ix.tags[i].name
    ensures ParseTags(Str(ExportTags(Occurrences(ix.tags, x)))) == AsStrings(Occurrences(ix.tags, x))
  {
    var occ := Occurrences(ix.tags, x);
    OccurrencesNames(ix.tags, x);
    forall k | 0 <= k < |occ| ensures occ[k] != [] && IsTrimmed(occ[k]) && ',' !in occ[k] {
      assert occ[k] in occ;
      var i :| 0 <= i < |ix.tags| && ix.tags[i].name == occ[k];
    }
    ExportTagsRoundTrip(Occurrences(ix.tags, x));
  }

  /** Every name `Occurrences` lists is the name of one of the tags. */
  lemma {:induction false} OccurrencesNames(tags: seq<Tag>, x: string)
    ensures forall nm :: nm in Occurrences(tags, x) ==> exists i :: 0 <= i < |tags| && tags[i].name == nm
  {
    if tags != [] {
      var init := tags[..|tags| - 1];
      OccurrencesNames(init, x);
      var last := tags[|tags| - 1];
      forall nm | nm in Occurrences(tags, x) ensures exists i :: 0 <= i < |tags| && tags[i].name == nm {
        if nm in Occurrences(init, x) {
          var i :| 0 <= i < |init| && init[i].name == nm;
          assert tags[i] == init[i];
        } else {
          assert nm in Repeat(last.name, Count(last.tradeIds, x));
          assert tags[|tags| - 1].name == nm;
        }
      }
    }
  }

  /** GET /export/analytics: total pnl (null as 0), average over
      `(n || 1)`, and the count. */
  function ExportAnalytics(trades: seq<Trade>): (r: (real, real, nat))
    ensures r.2 == |trades|
    ensures r.0 == SumOf(trades, PnlOrZero)
    ensures trades == [] ==> r.1 == 0.0
    ensures trades != [] ==> r.1 * (|trades| as real) == r.0
  {
    var total := SumOf(trades, PnlOrZero);
    var n := if |trades| == 0 then 1 else |trades|;
    (total, total / n as real, |trades|)
  }
}
