/** The `/trades` routes (backend/src/routes/trades.js) over an in-memory
    Trade collection: listing with filters, id allocation, create, read,
    update, delete, delete-all and image upload. */
module TradesRoute {
  import opened Common
  import opened Strings
  import opened JsValues
  import opened Sorting
  import opened TradeIds
  import opened TradeHelpers
  import NamedDocs

  const TradeNotFound: string := "Trade not found"

  /** An uploaded image: its public path and upload time. */
  datatype Image = Image(path: string, uploadedAt: int)

  /** A stored Trade document. `tags` is not a path of the Trade schema, so
      the strict schema does not store it. */
  datatype Trade = Trade(
    tradeId: string,
    data: TradeData,
    strategyId: Option<ObjectId>,
    accountId: Option<ObjectId>,
    images: seq<Image>)

  /** The start time the collection sorts and filters on. */
  function StartOf(t: Trade): int
  {
    t.data.start.GetOr(0)
  }

  /** `trade.pnl ?? 0`. */
  function PnlOrZero(t: Trade): real
  {
    t.data.pnl.GetOr(0.0)
  }

  function IdsOf(trades: seq<Trade>): (r: seq<string>)
    ensures |r| == |trades| && forall i :: 0 <= i < |trades| ==> r[i] == trades[i].tradeId
  {
    seq(|trades|, i requires 0 <= i < |trades| => trades[i].tradeId)
  }

  /** The string Mongoose stores for a value of a String path: strings as
      they are, numbers and booleans printed; nothing for null or absent. */
  function StoredText(v: JsValue): Option<string>
  {
    match v
    case Str(s) => Some(s)
    case Num(x) => Some(NumberToString(x))
    case Bool(b) => Some(if b then "true" else "false")
    case _ => None
  }

  /** A required String path is satisfied: present, castable, non-empty. */
  predicate RequiredText(v: JsValue)
  {
    StoredText(v).Some? && StoredText(v).value != []
  }

  /** The values stored under the eleven String paths of the Trade schema
      (the five required ones and the six optional ones). */
  function TextPaths(d: TradeData): seq<JsValue>
  {
    [d.tradeType, d.asset, d.direction, d.timeframe, d.session, d.entryCandleType,
     d.strategyName, d.accountName, d.entryReason, d.exitReason, d.notes]
  }

  /** Every String path casts: an array or a plain object makes the
      string cast throw. */
  predicate TextPathsCast(d: TradeData)
  {
    forall v :: v in TextPaths(d) ==> NamedDocs.CastText(v).Ok?
  }

  /** What `Trade.create` validates (backend/src/models/Trade.js): a valid
      start date, a number for `entry_price` (NaN fails the cast), every
      String path castable, and the five required text paths present. A
      `save()` of a stored document re-runs the same validation. */
  predicate CreateAccepts(d: TradeData)
  {
    d.start.Some? && d.entryPrice.Finite? && TextPathsCast(d) &&
    RequiredText(d.tradeType) && RequiredText(d.asset) && RequiredText(d.direction) &&
    RequiredText(d.timeframe) && RequiredText(d.session)
  }

  /** What an update casts without running validators: the start date and
      the entry price must still cast, and so must every String path it
      writes (an absent one is left out of the update). */
  predicate UpdateAccepts(d: TradeData)
  {
    d.start.Some? && d.entryPrice.Finite? &&
    forall v :: v in TextPaths(d) ==> NamedDocs.CastTextWrite(v).Ok?
  }

  /** An array or a plain object under a String path, optional or required,
      fails both the create and the update cast. */
  lemma NonTextRejected(d: TradeData)
    requires d.notes.Arr? || d.notes.Obj? || d.asset.Arr? || d.asset.Obj?
    ensures !CreateAccepts(d) && !UpdateAccepts(d)
  {
    assert d.asset in TextPaths(d) && d.notes in TextPaths(d);
  }

  /** Between requests: `trade_id` is unique (the unique index) and every
      stored trade has a valid start and a numeric entry price. */
  ghost predicate ValidTrades(trades: seq<Trade>)
  {
    (forall i, j :: 0 <= i < j < |trades| ==> trades[i].tradeId != trades[j].tradeId) &&
    (forall i :: 0 <= i < |trades| ==> trades[i].data.start.Some? && trades[i].data.entryPrice.Finite?)
  }

  /** Position of the trade with `trade_id == id`, or `|trades|`. */
  function FindTrade(trades: seq<Trade>, id: string): (i: nat)
    ensures i <= |trades|
    ensures i < |trades| ==> trades[i].tradeId == id
    ensures forall j :: 0 <= j < i ==> trades[j].tradeId != id
  {
    if trades == [] then 0
    else if trades[0].tradeId == id then 0
    else 1 + FindTrade(trades[1..], id)
  }

  // ---------------------------------------------------------------------
  // Strategy and account linkage
  // ---------------------------------------------------------------------

  /** Position of the first document whose name matches the anchored,
      escaped, case-insensitive regular expression for `name` (equal
      ignoring case, or so followed by one final newline), or `|refs|`. */
  function FindRefByName(refs: seq<NamedRef>, name: string): (i: nat)
    ensures i <= |refs|
    ensures i < |refs| ==> NamedDocs.AnchoredMatch(refs[i].name, name)
    ensures forall j :: 0 <= j < i ==> !NamedDocs.AnchoredMatch(refs[j].name, name)
  {
    if refs == [] then 0
    else if NamedDocs.AnchoredMatch(refs[0].name, name) then 0
    else 1 + FindRefByName(refs[1..], name)
  }

  /** The trimmed name a payload names a strategy or an account by, or "". */
  function LinkName(v: JsValue): string
  {
    if v.Str? then Trim(v.s) else ""
  }

  /** Resolves `strategy_id`/`account_id`: a truthy explicit id is cast (a
      malformed one throws); without one, the first document whose name
      matches the trimmed name case-insensitively; otherwise unset. */
  function ResolveLink(explicitId: JsValue, name: JsValue, refs: seq<NamedRef>): (r: Response<Option<ObjectId>>)
    ensures r.Ok? || r.InternalError?
    ensures r.InternalError? <==> Truthy(explicitId) && CastObjectId(explicitId).None?
    ensures Truthy(explicitId) && r.Ok? ==> r.value == CastObjectId(explicitId)
    ensures !Truthy(explicitId) && LinkName(name) == [] ==> r == Ok(None)
  {
    if Truthy(explicitId) then
      match CastObjectId(explicitId)
      case None => InternalError
      case Some(id) => Ok(Some(id))
    else if LinkName(name) == [] then Ok(None)
    else
      var i := FindRefByName(refs, LinkName(name));
      if i < |refs| then Ok(Some(refs[i].id)) else Ok(None)
  }

  /** Linkage by name: without an explicit id, a name picks the first
      document that the lookup matches, and none when nothing matches. */
  lemma ResolveLinkByName(explicitId: JsValue, name: JsValue, refs: seq<NamedRef>)
    requires !Truthy(explicitId) && LinkName(name) != []
    ensures ResolveLink(explicitId, name, refs).Ok?
    ensures ResolveLink(explicitId, name, refs).value.Some? <==>
            exists j :: 0 <= j < |refs| && NamedDocs.AnchoredMatch(refs[j].name, LinkName(name))
    ensures ResolveLink(explicitId, name, refs).value.Some? ==>
            exists j :: 0 <= j < |refs| && NamedDocs.AnchoredMatch(refs[j].name, LinkName(name)) &&
                        ResolveLink(explicitId, name, refs).value.value == refs[j].id
  {
    var i := FindRefByName(refs, LinkName(name));
    if i < |refs| {
      assert NamedDocs.AnchoredMatch(refs[i].name, LinkName(name));
    }
  }

  /** The two link resolutions of a POST or PUT body. */
  function ResolveLinks(payload: JsValue, strategies: seq<NamedRef>, accounts: seq<NamedRef>)
    : Response<(Option<ObjectId>, Option<ObjectId>)>
  {
    var s := ResolveLink(Get(payload, "strategy_id"), Get(payload, "strategy_name"), strategies);
    var a := ResolveLink(Get(payload, "account_id"), Get(payload, "account_name"), accounts);
    if s.Ok? && a.Ok? then Ok((s.value, a.value)) else InternalError
  }

  // ---------------------------------------------------------------------
  // POST /trades
  // ---------------------------------------------------------------------

  /** POST /trades as a function of the collection: the client's `trade_id`
      is ignored and `trd-<next>` assigned. */
  function CreateTradeSpec(trades: seq<Trade>, payload: JsValue, strategies: seq<NamedRef>,
                           accounts: seq<NamedRef>, parse: DateParser): (Response<Trade>, seq<Trade>)
  {
    CreateWith(trades, BuildTradeData(payload, parse), ResolveLinks(payload, strategies, accounts))
  }

  /** POST /trades once the body has been coerced to `data` and the links
      resolved. */
  function CreateWith(trades: seq<Trade>, data: TradeData, links: Response<(Option<ObjectId>, Option<ObjectId>)>)
    : (Response<Trade>, seq<Trade>)
  {
    match links
    case Ok((sid, aid)) =>
      if !CreateAccepts(data) then (InternalError, trades)
      else
        var t := Trade(NextTradeId(IdsOf(trades)), data, sid, aid, []);
        (Ok(t), trades + [t])
    case _ => (InternalError, trades)
  }

  /** A successful POST appends exactly one trade, whose id is `trd-<n>` with
      `n` above every existing number, so the ids stay unique; a failed one
      changes nothing. */
  lemma CreateTradeOutcome(trades: seq<Trade>, data: TradeData, links: Response<(Option<ObjectId>, Option<ObjectId>)>,
                           out: (Response<Trade>, seq<Trade>))
    requires ValidTrades(trades)
    requires out == CreateWith(trades, data, links)
    ensures out.0.Ok? <==> links.Ok? && CreateAccepts(data)
    ensures !out.0.Ok? ==> out.0.InternalError? && out.1 == trades
    ensures out.0.Ok? ==> out.1 == trades + [out.0.value] && |out.1| == |trades| + 1
    ensures out.0.Ok? ==> out.0.value.tradeId == FormatTradeId(NextTradeNumber(IdsOf(trades)))
    ensures out.0.Ok? ==> forall i :: 0 <= i < |trades| ==>
              TradeNumber(trades[i].tradeId) < TradeNumber(out.0.value.tradeId)
    ensures out.0.Ok? ==> out.0.value.data == data && out.0.value.images == [] &&
                          (out.0.value.strategyId, out.0.value.accountId) == links.value
    ensures ValidTrades(out.1)
  {
    if out.0.Ok? {
      var ids := IdsOf(trades);
      NextTradeIdIsFresh(ids);
      NextTradeNumberAbove(ids);
      var t := out.0.value;
      forall i | 0 <= i < |trades| ensures trades[i].tradeId != t.tradeId {
        assert ids[i] == trades[i].tradeId;
      }
    }
  }

  // ---------------------------------------------------------------------
  // GET /trades/:id, PUT /trades/:id
  // ---------------------------------------------------------------------

  /** GET /trades/:id. */
  function GetTrade(trades: seq<Trade>, id: string): (r: Response<Trade>)
    ensures r.Ok? || r.NotFound?
    ensures r.NotFound? <==> forall i :: 0 <= i < |trades| ==> trades[i].tradeId != id
    ensures r.NotFound? ==> r.error == TradeNotFound
    ensures r.Ok? ==> r.value in trades && r.value.tradeId == id
  {
    var i := FindTrade(trades, id);
    if i < |trades| then Ok(trades[i]) else NotFound(TradeNotFound)
  }

  /** A payload value that is absent leaves the stored value alone. */
  function Keep(old_: JsValue, new_: JsValue): JsValue
  {
    if new_.Undefined? then old_ else new_
  }

  /** The fields a PUT writes: everything `buildTradeData` produced, except
      the plain text paths the body left out. */
  function MergeData(old_: TradeData, d: TradeData): (r: TradeData)
    ensures r.start == d.start && r.entryPrice == d.entryPrice && r.pnl == d.pnl
    ensures d.asset.Undefined? ==> r.asset == old_.asset
    ensures !d.asset.Undefined? ==> r.asset == d.asset
    ensures d.tradeType.Undefined? ==> r.tradeType == old_.tradeType
    ensures !d.tradeType.Undefined? ==> r.tradeType == d.tradeType
    ensures d.direction.Undefined? ==> r.direction == old_.direction
    ensures !d.direction.Undefined? ==> r.direction == d.direction
    ensures d.timeframe.Undefined? ==> r.timeframe == old_.timeframe
    ensures !d.timeframe.Undefined? ==> r.timeframe == d.timeframe
    ensures d.session.Undefined? ==> r.session == old_.session
    ensures !d.session.Undefined? ==> r.session == d.session
    ensures r.(tradeType := d.tradeType, asset := d.asset, direction := d.direction,
               timeframe := d.timeframe, session := d.session) == d
  {
    d.(tradeType := Keep(old_.tradeType, d.tradeType),
       asset := Keep(old_.asset, d.asset),
       direction := Keep(old_.direction, d.direction),
       timeframe := Keep(old_.timeframe, d.timeframe),
       session := Keep(old_.session, d.session))
  }

  /** The updated document: an unresolved strategy or account is left as it was. */
  function ApplyUpdate(t: Trade, d: TradeData, sid: Option<ObjectId>, aid: Option<ObjectId>): (r: Trade)
    ensures r.tradeId == t.tradeId && r.images == t.images
    ensures r.strategyId == (if sid.Some? then sid else t.strategyId)
    ensures r.accountId == (if aid.Some? then aid else t.accountId)
  {
    t.(data := MergeData(t.data, d),
       strategyId := if sid.Some? then sid else t.strategyId,
       accountId := if aid.Some? then aid else t.accountId)
  }

  /** PUT /trades/:id as a function of the collection. Casting happens
      before the lookup, so a bad body fails even for an unknown id. */
  function UpdateTradeSpec(trades: seq<Trade>, id: string, payload: JsValue, strategies: seq<NamedRef>,
                           accounts: seq<NamedRef>, parse: DateParser): (Response<Trade>, seq<Trade>)
  {
    UpdateWith(trades, id, BuildTradeData(payload, parse), ResolveLinks(payload, strategies, accounts))
  }

  /** PUT /trades/:id once the body has been coerced and the links resolved. */
  function UpdateWith(trades: seq<Trade>, id: string, data: TradeData,
                      links: Response<(Option<ObjectId>, Option<ObjectId>)>): (Response<Trade>, seq<Trade>)
  {
    match links
    case Ok((sid, aid)) =>
      if !UpdateAccepts(data) then (InternalError, trades)
      else
        var i := FindTrade(trades, id);
        if i == |trades| then (NotFound(TradeNotFound), trades)
        else
          var t := ApplyUpdate(trades[i], data, sid, aid);
          (Ok(t), trades[i := t])
    case _ => (InternalError, trades)
  }

  /** PUT answers 404 exactly for an unknown id (once the body casts),
      changes only the matching trade, and never its `trade_id`. */
  lemma UpdateTradeOutcome(trades: seq<Trade>, id: string, data: TradeData,
                           links: Response<(Option<ObjectId>, Option<ObjectId>)>, out: (Response<Trade>, seq<Trade>))
    requires ValidTrades(trades)
    requires out == UpdateWith(trades, id, data, links)
    ensures out.0.Ok? || out.0.NotFound? || out.0.InternalError?
    ensures out.0.InternalError? <==> !(links.Ok? && UpdateAccepts(data))
    ensures out.0.NotFound? <==> (links.Ok? && UpdateAccepts(data) &&
                                  forall i :: 0 <= i < |trades| ==> trades[i].tradeId != id)
    ensures out.0.NotFound? ==> out.0.error == TradeNotFound
    ensures !out.0.Ok? ==> out.1 == trades
    ensures |out.1| == |trades|
    ensures IdsOf(out.1) == IdsOf(trades)
    ensures forall i :: 0 <= i < |trades| && trades[i].tradeId != id ==> out.1[i] == trades[i]
    ensures out.0.Ok? ==> out.0.value.tradeId == id && out.0.value in out.1
    ensures ValidTrades(out.1)
  {
    if links.Ok? && UpdateAccepts(data) {
      var i := FindTrade(trades, id);
      if i < |trades| {
        var t := ApplyUpdate(trades[i], data, links.value.0, links.value.1);
        assert out == (Ok(t), trades[i := t]);
        ReplaceTrade(trades, i, t);
      }
    }
  }

  /** Replacing a trade by one with the same id and a valid start and
      entry price keeps the collection valid and every other trade. */
  lemma ReplaceTrade(trades: seq<Trade>, i: nat, t: Trade)
    requires ValidTrades(trades) && i < |trades| && t.tradeId == trades[i].tradeId
    requires t.data.start.Some? && t.data.entryPrice.Finite?
    ensures IdsOf(trades[i := t]) == IdsOf(trades)
    ensures ValidTrades(trades[i := t])
    ensures t in trades[i := t]
  {
    assert trades[i := t][i] == t;
  }

  // ---------------------------------------------------------------------
  // DELETE /trades/all, DELETE /trades/:id, POST /trades/:id/images
  // ---------------------------------------------------------------------

  /** DELETE /trades/:id: `deleteOne`, answering "deleted" whether or not a
      trade matched. */
  function DeleteTradeSpec(trades: seq<Trade>, id: string): (r: seq<Trade>)
  {
    var i := FindTrade(trades, id);
    if i == |trades| then trades else trades[..i] + trades[i + 1..]
  }

  /** Deleting removes exactly the trade with that id and keeps the others
      in order. */
  lemma DeleteTradeOutcome(trades: seq<Trade>, id: string)
    requires ValidTrades(trades)
    ensures forall t :: t in DeleteTradeSpec(trades, id) <==> t in trades && t.tradeId != id
    ensures ValidTrades(DeleteTradeSpec(trades, id))
    ensures (forall i :: 0 <= i < |trades| ==> trades[i].tradeId != id) ==> DeleteTradeSpec(trades, id) == trades
  {
    var i := FindTrade(trades, id);
    if i < |trades| {
      RemoveAt(trades, i);
    }
  }

  /** Removing the trade at `i` removes exactly the trades with its id,
      since ids are unique. */
  lemma RemoveAt(trades: seq<Trade>, i: nat)
    requires ValidTrades(trades) && i < |trades|
    ensures var r := trades[..i] + trades[i + 1..];
      ValidTrades(r) && forall t :: t in r <==> t in trades && t.tradeId != trades[i].tradeId
  {
    var r := trades[..i] + trades[i + 1..];
    assert forall k :: 0 <= k < |r| ==> r[k] == trades[if k < i then k else k + 1];
    forall t | t in trades && t.tradeId != trades[i].tradeId ensures t in r {
      var k :| 0 <= k < |trades| && trades[k] == t;
      if k < i { assert r[k] == t; } else { assert r[k - 1] == t; }
    }
  }

  /** The images stored for uploaded files, in upload order. */
  function UploadedImages(fileNames: seq<string>, now: int): (r: seq<Image>)
    ensures |r| == |fileNames|
    ensures forall k :: 0 <= k < |r| ==> r[k] == Image("/uploads/trades/" + fileNames[k], now)
  {
    seq(|fileNames|, k requires 0 <= k < |fileNames| => Image("/uploads/trades/" + fileNames[k], now))
  }

  /** POST /trades/:id/images: 404 for an unknown trade; otherwise the new
      images follow the existing ones and the count is returned, unless
      `save()`, which re-validates the whole document, rejects the trade
      (a PUT runs no validators, so it can leave a required path empty). */
  function AddImagesSpec(trades: seq<Trade>, id: string, fileNames: seq<string>, now: int)
    : (out: (Response<nat>, seq<Trade>))
    ensures out.0.Ok? || out.0.NotFound? || out.0.InternalError?
    ensures out.0.NotFound? <==> forall i :: 0 <= i < |trades| ==> trades[i].tradeId != id
    ensures !out.0.Ok? ==> out.1 == trades
    ensures out.0.NotFound? ==> out.0.error == TradeNotFound
    ensures out.0.InternalError? ==>
      exists i :: 0 <= i < |trades| && trades[i].tradeId == id && !CreateAccepts(trades[i].data)
    ensures ((exists i :: 0 <= i < |trades| && trades[i].tradeId == id) &&
             (forall i :: 0 <= i < |trades| && trades[i].tradeId == id ==> CreateAccepts(trades[i].data)))
            ==> out.0.Ok?
    ensures out.0.Ok? ==> (out.0.value == |fileNames| &&
      exists i :: 0 <= i < |trades| && trades[i].tradeId == id && CreateAccepts(trades[i].data) &&
        out.1 == trades[i := trades[i].(images := trades[i].images + UploadedImages(fileNames, now))])
  {
    var i := FindTrade(trades, id);
    if i == |trades| then (NotFound(TradeNotFound), trades)
    else if !CreateAccepts(trades[i].data) then (InternalError, trades)
    else (Ok(|fileNames|), trades[i := trades[i].(images := trades[i].images + UploadedImages(fileNames, now))])
  }

  /** A trade whose `asset` a PUT emptied takes no images: `save()` rejects
      it and nothing changes. */
  lemma EmptiedTradeRejectsImages(trades: seq<Trade>, id: string, fileNames: seq<string>, now: int, k: nat)
    requires ValidTrades(trades)
    requires k < |trades| && trades[k].tradeId == id && trades[k].data.asset == Str("")
    ensures AddImagesSpec(trades, id, fileNames, now) == (InternalError, trades)
  {
    var i := FindTrade(trades, id);
    assert i == k;
  }

  // ---------------------------------------------------------------------
  // GET /trades (listTrades)
  // ---------------------------------------------------------------------

  /** The query string of GET /trades; an absent parameter is "". */
  datatype TradeQuery = TradeQuery(
    search: string, asset: string, session: string, strategyId: string, accountId: string,
    direction: string, tag: string, dateFrom: string, dateTo: string)

  /** The `where` object: one optional criterion per supplied parameter. */
  datatype Where = Where(
    asset: Option<string>, session: Option<string>, strategyId: Option<ObjectId>,
    accountId: Option<ObjectId>, direction: Option<string>, tag: Option<string>,
    from: Option<int>, to: Option<int>, search: Option<string>)

  const NoCriteria: Where := Where(None, None, None, None, None, None, None, None, None)

  /** An optional id criterion: cast failures make the query throw. */
  function IdCriterion(s: string): Response<Option<ObjectId>>
  {
    if s == [] then Ok(None)
    else match CastObjectId(Str(s))
      case None => InternalError
      case Some(id) => Ok(Some(id))
  }

  /** An optional date bound: an invalid date makes the query throw. */
  function DateCriterion(s: string, parse: DateParser): Response<Option<int>>
  {
    if s == [] then Ok(None)
    else match DateValue(Str(s), parse)
      case None => InternalError
      case Some(t) => Ok(Some(t))
  }

  function NonEmpty(s: string): Option<string>
  {
    if s == [] then None else Some(s)
  }

  /** `listTrades` building `where` from the query. */
  function BuildWhere(q: TradeQuery, parse: DateParser): Response<Where>
  {
    var sid := IdCriterion(q.strategyId);
    var aid := IdCriterion(q.accountId);
    var from := DateCriterion(q.dateFrom, parse);
    var to := DateCriterion(q.dateTo, parse);
    if sid.Ok? && aid.Ok? && from.Ok? && to.Ok? then
      Ok(Where(NonEmpty(q.asset), NonEmpty(q.session), sid.value, aid.value, NonEmpty(q.direction),
               NonEmpty(q.tag), from.value, to.value, NonEmpty(q.search)))
    else InternalError
  }

  /** The `search` criterion, read as a literal case-insensitive substring
      of `trade_id` or `asset`. */
  predicate SearchMatches(t: Trade, needle: string)
  {
    Contains(Lower(t.tradeId), Lower(needle)) ||
    (StoredText(t.data.asset).Some? && Contains(Lower(StoredText(t.data.asset).value), Lower(needle)))
  }

  /** A text criterion compares the stored string for equality. */
  predicate TextMatches(v: JsValue, c: Option<string>)
  {
    c.None? || StoredText(v) == c
  }

  /** Mongo's reading of `where` on one trade: every present criterion holds.
      The tag criterion is a parameter: `tags` is not a stored path. */
  predicate Matches(w: Where, t: Trade, hasTag: (Trade, string) -> bool)
  {
    TextMatches(t.data.asset, w.asset) &&
    TextMatches(t.data.session, w.session) &&
    (w.strategyId.None? || t.strategyId == w.strategyId) &&
    (w.accountId.None? || t.accountId == w.accountId) &&
    TextMatches(t.data.direction, w.direction) &&
    (w.tag.None? || hasTag(t, w.tag.value)) &&
    InDateRange(w, t) &&
    (w.search.None? || SearchMatches(t, w.search.value))
  }

  /** The `start_datetime` criterion: `$gte` the lower bound, `$lte` the
      upper one, each only when given. */
  predicate InDateRange(w: Where, t: Trade)
  {
    (w.from.None? || w.from.value <= StartOf(t)) &&
    (w.to.None? || StartOf(t) <= w.to.value)
  }

  /** Newest first. */
  function ByStartDesc(): (Trade, Trade) -> bool
  {
    KeyLe((t: Trade) => -StartOf(t))
  }

  /** GET /trades: the matching trades, newest start first. */
  function ListTrades(trades: seq<Trade>, q: TradeQuery, parse: DateParser, hasTag: (Trade, string) -> bool)
    : (r: Response<seq<Trade>>)
    ensures r.Ok? <==> BuildWhere(q, parse).Ok?
    ensures !r.Ok? ==> r.InternalError?
    ensures BuildWhere(q, parse).Ok? ==>
      multiset(r.value) == multiset(Filter(trades, (t: Trade) => Matches(BuildWhere(q, parse).value, t, hasTag)))
    ensures r.Ok? ==> forall i, j :: 0 <= i < j < |r.value| ==> StartOf(r.value[i]) >= StartOf(r.value[j])
  {
    match BuildWhere(q, parse)
    case Ok(w) =>
      KeyLeTotalPreorder((t: Trade) => -StartOf(t));
      var r := Sort(Filter(trades, (t: Trade) => Matches(w, t, hasTag)), ByStartDesc());
      assert Sorted(r, ByStartDesc());
      Ok(r)
    case _ => InternalError
  }

  /** With no parameters nothing is filtered out. */
  lemma EmptyQueryListsAll(trades: seq<Trade>, parse: DateParser, hasTag: (Trade, string) -> bool)
    ensures ListTrades(trades, TradeQuery([], [], [], [], [], [], [], [], []), parse, hasTag).Ok?
    ensures multiset(ListTrades(trades, TradeQuery([], [], [], [], [], [], [], [], []), parse, hasTag).value)
            == multiset(trades)
  {
    var q := TradeQuery([], [], [], [], [], [], [], [], []);
    assert BuildWhere(q, parse) == Ok(NoCriteria);
    FilterKeepsAll(trades, (t: Trade) => Matches(NoCriteria, t, hasTag));
  }

  /** Adding one criterion narrows the result by exactly that criterion:
      criteria combine with AND. Shown for `asset`. */
  lemma AssetCriterionConjoins(w: Where, t: Trade, a: string, hasTag: (Trade, string) -> bool)
    requires w.asset.None?
    ensures Matches(w.(asset := Some(a)), t, hasTag) <==>
            Matches(w, t, hasTag) && StoredText(t.data.asset) == Some(a)
  {
  }

  /** Date bounds are inclusive at both ends and open where absent: a trade
      passes the date criterion exactly when it starts no earlier than
      `date_from` (when given) and no later than `date_to` (when given), so
      a trade starting exactly at either bound is listed as far as dates go. */
  lemma DateRangeInclusive(q: TradeQuery, parse: DateParser, t: Trade, hasTag: (Trade, string) -> bool)
    requires BuildWhere(q, parse).Ok?
    ensures var w := BuildWhere(q, parse).value;
      Matches(w, t, hasTag) <==> Matches(w.(from := None, to := None), t, hasTag) && InDateRange(w, t)
    ensures q.dateFrom != [] ==> DateValue(Str(q.dateFrom), parse).Some?
    ensures q.dateTo != [] ==> DateValue(Str(q.dateTo), parse).Some?
    ensures InDateRange(BuildWhere(q, parse).value, t) <==>
      (q.dateFrom == [] || DateValue(Str(q.dateFrom), parse).value <= StartOf(t)) &&
      (q.dateTo == [] || StartOf(t) <= DateValue(Str(q.dateTo), parse).value)
    ensures q.dateFrom != [] && DateValue(Str(q.dateFrom), parse) == Some(StartOf(t)) &&
            (q.dateTo == [] || StartOf(t) <= DateValue(Str(q.dateTo), parse).value) ==>
            InDateRange(BuildWhere(q, parse).value, t)
    ensures q.dateTo != [] && DateValue(Str(q.dateTo), parse) == Some(StartOf(t)) &&
            (q.dateFrom == [] || DateValue(Str(q.dateFrom), parse).value <= StartOf(t)) ==>
            InDateRange(BuildWhere(q, parse).value, t)
  {
  }

  // ---------------------------------------------------------------------
  // The collection
  // ---------------------------------------------------------------------

  class TradeStore {
    var trades: seq<Trade>

    ghost predicate Valid()
      reads this
    {
      ValidTrades(trades)
    }

    constructor()
      ensures trades == [] && Valid()
    {
      trades := [];
    }

    /** POST /trades. */
    method Create(payload: JsValue, strategies: seq<NamedRef>, accounts: seq<NamedRef>, parse: DateParser)
      returns (r: Response<Trade>)
      requires Valid()
      modifies this
      ensures (r, trades) == CreateTradeSpec(old(trades), payload, strategies, accounts, parse)
      ensures Valid()
    {
      ghost var before := trades;
      var data := BuildTradeData(payload, parse);
      var links := ResolveLinks(payload, strategies, accounts);
      if !links.Ok? || !CreateAccepts(data) {
        r := InternalError;
      } else {
        var nextId := NextTradeId(IdsOf(trades));
        var t := Trade(nextId, data, links.value.0, links.value.1, []);
        trades := trades + [t];
        r := Ok(t);
      }
      CreateTradeOutcome(before, data, links, (r, trades));
    }

    /** PUT /trades/:id. */
    method Update(id: string, payload: JsValue, strategies: seq<NamedRef>, accounts: seq<NamedRef>,
                  parse: DateParser) returns (r: Response<Trade>)
      requires Valid()
      modifies this
      ensures (r, trades) == UpdateTradeSpec(old(trades), id, payload, strategies, accounts, parse)
      ensures Valid()
    {
      ghost var before := trades;
      var data := BuildTradeData(payload, parse);
      var links := ResolveLinks(payload, strategies, accounts);
      if !links.Ok? || !UpdateAccepts(data) {
        r := InternalError;
      } else {
        var i := FindTrade(trades, id);
        if i == |trades| {
          r := NotFound(TradeNotFound);
        } else {
          var t := ApplyUpdate(trades[i], data, links.value.0, links.value.1);
          trades := trades[i := t];
          r := Ok(t);
        }
      }
      UpdateTradeOutcome(before, id, data, links, (r, trades));
    }

    /** DELETE /trades/all: `deleteMany({})`, reporting how many went. */
    method DeleteAll() returns (deletedCount: nat)
      modifies this
      ensures deletedCount == |old(trades)| && trades == [] && Valid()
    {
      deletedCount := |trades|;
      trades := [];
    }

    /** DELETE /trades/:id. */
    method Delete(id: string)
      requires Valid()
      modifies this
      ensures trades == DeleteTradeSpec(old(trades), id) && Valid()
    {
      DeleteTradeOutcome(trades, id);
      var i := FindTrade(trades, id);
      if i < |trades| {
        trades := trades[..i] + trades[i + 1..];
      }
    }

    /** POST /trades/:id/images: `images.push(...)` on the found document. */
    method AddImages(id: string, fileNames: seq<string>, now: int) returns (r: Response<nat>)
      requires Valid()
      modifies this
      ensures (r, trades) == AddImagesSpec(old(trades), id, fileNames, now) && Valid()
    {
      var i := FindTrade(trades, id);
      if i == |trades| {
        return NotFound(TradeNotFound);
      }
      if !CreateAccepts(trades[i].data) {
        return InternalError;
      }
      trades := trades[i := trades[i].(images := trades[i].images + UploadedImages(fileNames, now))];
      r := Ok(|fileNames|);
    }
  }
}
