/** The `/strategies` routes (backend/src/routes/strategies.js) over an
    in-memory Strategy collection: list and get with the linked trades,
    create and update behind the required-name and duplicate-name guards,
    delete, and image uploads. */
module Strategies {
  import opened Common
  import opened Strings
  import opened JsValues
  import opened Sorting
  import opened TradesRoute
  import opened NamedDocs

  const StrategyNameRequired: string := "Strategy name is required."
  const StrategyNameTaken: string := "A strategy with this name already exists. Please choose a different name."
  const StrategyNotFound: string := "Strategy not found"

  /** A stored Strategy document (backend/src/models/Strategy.js). Updates
      run without validators, so the name can be null or empty after a PUT. */
  datatype Strategy = Strategy(
    id: ObjectId,
    name: Option<string>,
    notes: Option<string>,
    customFields: JsValue,
    images: seq<Image>,
    createdAt: int)

  /** The collection and the next `_id` it hands out. */
  datatype Strategies = Strategies(docs: seq<Strategy>, nextId: ObjectId)

  /** Between requests: ids are distinct and below the next id. */
  ghost predicate ValidStrategies(s: Strategies)
  {
    (forall i :: 0 <= i < |s.docs| ==> s.docs[i].id < s.nextId) &&
    (forall i, j :: 0 <= i < j < |s.docs| ==> s.docs[i].id != s.docs[j].id)
  }

  function Entries(docs: seq<Strategy>): (r: seq<NameEntry>)
    ensures |r| == |docs| && forall i :: 0 <= i < |docs| ==> r[i] == NameEntry(docs[i].id, docs[i].name)
  {
    seq(|docs|, i requires 0 <= i < |docs| => NameEntry(docs[i].id, docs[i].name))
  }

  lemma EntriesAppend(docs: seq<Strategy>, a: Strategy)
    ensures Entries(docs + [a]) == Entries(docs) + [NameEntry(a.id, a.name)]
  {
    assert Entries(docs + [a])[|docs|] == NameEntry(a.id, a.name);
  }

  /** Position of the strategy with `_id == id`, or `|docs|`. */
  function FindStrategy(docs: seq<Strategy>, id: ObjectId): (i: nat)
    ensures i <= |docs|
    ensures i < |docs| ==> docs[i].id == id
    ensures forall j :: 0 <= j < i ==> docs[j].id != id
  {
    FindFirst(docs, (s: Strategy) => s.id, id)
  }

  // ---------------------------------------------------------------------
  // The document a POST or PUT writes
  // ---------------------------------------------------------------------

  /** The fields of the write, cast to the schema's paths. */
  datatype StrategyWrite = StrategyWrite(
    name: Write<Option<string>>,
    notes: Option<string>,
    customFields: JsValue)

  /** The object both handlers pass to Mongoose, cast path by path; a value
      that does not cast fails the whole call. The name is written as sent
      (an absent one is left alone), while the notes and the custom fields
      are always written, null when not given. */
  function CastStrategyWrite(body: JsValue): (r: Response<StrategyWrite>)
    ensures r.Ok? || r.InternalError?
    ensures r.Ok? <==> (CastTextWrite(Get(body, "strategy_name")).Ok? &&
                        !Get(body, "strategy_notes").Arr? && !Get(body, "strategy_notes").Obj?)
    ensures r.Ok? ==> r.value.name == CastTextWrite(Get(body, "strategy_name")).value
    ensures r.Ok? && IsNullish(Get(body, "strategy_notes")) ==> r.value.notes == None
    ensures r.Ok? && Get(body, "strategy_notes").Str? ==> r.value.notes == Some(Get(body, "strategy_notes").s)
    ensures r.Ok? && IsNullish(Get(body, "custom_fields")) ==> r.value.customFields == Null
    ensures r.Ok? && !IsNullish(Get(body, "custom_fields")) ==> r.value.customFields == Get(body, "custom_fields")
  {
    var name := CastTextWrite(Get(body, "strategy_name"));
    var notes := CastText(Coalesce(Get(body, "strategy_notes"), Null));
    if name.Ok? && notes.Ok? then
      Ok(StrategyWrite(name.value, notes.value, Coalesce(Get(body, "custom_fields"), Null)))
    else InternalError
  }

  /** The stored document after the write: a kept name stays, the other
      paths take the written value. */
  function ApplyWrite(a: Strategy, w: StrategyWrite): (r: Strategy)
    ensures r.id == a.id && r.createdAt == a.createdAt && r.images == a.images
    ensures r.name == Apply(w.name, a.name)
    ensures r.notes == w.notes && r.customFields == w.customFields
  {
    a.(name := Apply(w.name, a.name), notes := w.notes, customFields := w.customFields)
  }

  // ---------------------------------------------------------------------
  // POST /strategies
  // ---------------------------------------------------------------------

  /** POST /strategies as a function of the collection; `now` is the creation time. */
  function CreateStrategySpec(s: Strategies, body: JsValue, now: int): (Response<Strategy>, Strategies)
  {
    CreateStrategyWith(s, GuardName(Get(body, "strategy_name")), CastStrategyWrite(body), now)
  }

  /** POST /strategies once the name is trimmed and the write cast. The
      schema requires a non-empty name. */
  function CreateStrategyWith(s: Strategies, guard: Response<string>, w: Response<StrategyWrite>, now: int)
    : (Response<Strategy>, Strategies)
  {
    if !guard.Ok? then (InternalError, s)
    else if guard.value == [] then (BadRequest(StrategyNameRequired), s)
    else if FindMatch(Entries(s.docs), guard.value, None) < |s.docs| then (Conflict(StrategyNameTaken), s)
    else if !w.Ok? || !Required(w.value.name) then (InternalError, s)
    else
      var a := ApplyWrite(Strategy(s.nextId, None, None, Null, [], now), w.value);
      (Ok(a), Strategies(s.docs + [a], s.nextId + 1))
  }

  /** What POST /strategies answers once the name is trimmed (`guard`) and
      the body cast (`w`): an empty name is 400, a name that some strategy
      has, ignoring case and as a whole, is 409, and otherwise one strategy
      without images is appended under a fresh id with the name the write
      holds. Failures change nothing. */
  lemma CreateStrategyOutcome(s: Strategies, guard: Response<string>, w: Response<StrategyWrite>, now: int,
                              out: (Response<Strategy>, Strategies))
    requires ValidStrategies(s) && out == CreateStrategyWith(s, guard, w, now)
    ensures out.0.BadRequest? <==> guard == Ok([])
    ensures out.0.Conflict? <==> guard.Ok? && guard.value != [] && Taken(Entries(s.docs), guard.value, None)
    ensures out.0.BadRequest? ==> out.0.error == StrategyNameRequired
    ensures out.0.Conflict? ==> out.0.error == StrategyNameTaken
    ensures out.0.Ok? || out.0.BadRequest? || out.0.Conflict? || out.0.InternalError?
    ensures !out.0.Ok? ==> out.1 == s
    ensures out.0.Ok? ==> (guard.Ok? && guard.value != [] && !Taken(Entries(s.docs), guard.value, None) &&
                           w.Ok? && Required(w.value.name))
    ensures out.0.Ok? ==> (out.0.value.name == w.value.name.value && out.0.value.notes == w.value.notes &&
                           out.0.value.images == [] && out.0.value.createdAt == now)
    ensures out.0.Ok? ==> (out.1.docs == s.docs + [out.0.value] &&
                           forall i :: 0 <= i < |s.docs| ==> s.docs[i].id != out.0.value.id)
    ensures ValidStrategies(out.1)
  {
    if guard.Ok? && guard.value != [] {
      FindMatchTaken(Entries(s.docs), guard.value, None);
    }
  }

  /** The name POST stores is the one sent, not the trimmed one the
      duplicate check used: a created strategy is named `raw` exactly, and
      400 comes exactly from a falsy or blank name. */
  lemma CreateStoresSentName(s: Strategies, raw: JsValue, w: Response<StrategyWrite>, now: int)
    requires ValidStrategies(s)
    requires w.Ok? ==> CastTextWrite(raw) == Ok(w.value.name)
    ensures var out := CreateStrategyWith(s, GuardName(raw), w, now);
      (out.0.BadRequest? <==> (!Truthy(raw) || (raw.Str? && Trim(raw.s) == []))) &&
      (out.0.Ok? ==> raw.Str? && out.0.value.name == Some(raw.s))
  {
    var out := CreateStrategyWith(s, GuardName(raw), w, now);
    CreateStrategyOutcome(s, GuardName(raw), w, now, out);
  }

  /** POST keeps names distinct when the name it stores is the one the
      duplicate check looked up, as it is when the name sent is already
      trimmed. */
  lemma CreateKeepsNamesDistinct(s: Strategies, name: string, w: Response<StrategyWrite>, now: int)
    requires ValidStrategies(s) && DistinctNames(Entries(s.docs))
    requires w.Ok? ==> w.value.name == Set(Some(name))
    requires NoFinalNewline(name)
    ensures DistinctNames(Entries(CreateStrategyWith(s, Ok(name), w, now).1.docs))
  {
    FindMatchTaken(Entries(s.docs), name, None);
    if FindMatch(Entries(s.docs), name, None) == |s.docs| && w.Ok? && Required(w.value.name) {
      AppendKeepsDistinct(s.docs, ApplyWrite(Strategy(s.nextId, None, None, Null, [], now), w.value), name);
    }
  }

  /** Appending a strategy under a name the lookup does not find keeps
      names distinct. */
  lemma AppendKeepsDistinct(docs: seq<Strategy>, a: Strategy, name: string)
    requires DistinctNames(Entries(docs)) && !Taken(Entries(docs), name, None) && a.name == Some(name)
    requires NoFinalNewline(name)
    ensures DistinctNames(Entries(docs + [a]))
  {
    EntriesAppend(docs, a);
    DistinctAppend(Entries(docs), NameEntry(a.id, a.name), name);
  }

  /** The duplicate check trims the name but the stored name is not
      trimmed, so sending the same untrimmed name twice creates two
      strategies whose names are equal ignoring case. The one exception is a
      name that is its trimmed form followed by one newline: the lookup's
      `$` matches before that final newline, so the second request is 409. */
  lemma UntrimmedNameRepeats(s: Strategies, name: string, w: Response<StrategyWrite>, now1: int, now2: int)
    requires ValidStrategies(s) && !IsTrimmed(name)
    requires w.Ok? ==> w.value.name == Set(Some(name))
    requires CreateStrategyWith(s, GuardName(Str(name)), w, now1).0.Ok?
    ensures var first := CreateStrategyWith(s, GuardName(Str(name)), w, now1);
      var second := CreateStrategyWith(first.1, GuardName(Str(name)), w, now2);
      (name != Trim(name) + "\n" ==>
         second.0.Ok? && SameName(first.0.value.name, second.0.value.name) &&
         first.0.value.id != second.0.value.id) &&
      (name == Trim(name) + "\n" ==> second.0 == Conflict(StrategyNameTaken) && second.1 == first.1)
  {
    var guard := Ok(Trim(name));
    var first := CreateStrategyWith(s, guard, w, now1);
    CreateStrategyOutcome(s, guard, w, now1, first);
    TrimmedLookupOfUntrimmed(name);
    EntriesAppend(s.docs, first.0.value);
    var second := CreateStrategyWith(first.1, guard, w, now2);
    if name != Trim(name) + "\n" {
      StillNotTaken(Entries(s.docs), NameEntry(first.0.value.id, first.0.value.name), Trim(name));
    } else {
      assert Entries(first.1.docs)[|s.docs|] == NameEntry(first.0.value.id, Some(name));
    }
    CreateStrategyOutcome(first.1, guard, w, now2, second);
    FindMatchTaken(Entries(first.1.docs), Trim(name), None);
  }

  // ---------------------------------------------------------------------
  // PUT /strategies/:id
  // ---------------------------------------------------------------------

  /** PUT /strategies/:id as a function of the collection. */
  function UpdateStrategySpec(s: Strategies, id: string, body: JsValue): (Response<Strategy>, Strategies)
  {
    UpdateStrategyWith(s, id, GuardName(Get(body, "strategy_name")), CastStrategyWrite(body))
  }

  /** PUT /strategies/:id once the name is trimmed and the write cast. A
      malformed id fails its cast in the duplicate lookup or in the update;
      the duplicate check skips the strategy itself and is not made for an
      empty name. */
  function UpdateStrategyWith(s: Strategies, id: string, guard: Response<string>, w: Response<StrategyWrite>)
    : (Response<Strategy>, Strategies)
  {
    if !guard.Ok? then (InternalError, s)
    else
      match CastObjectId(Str(id))
      case None => (InternalError, s)
      case Some(oid) =>
        if guard.value != [] && FindMatch(Entries(s.docs), guard.value, Some(oid)) < |s.docs| then
          (Conflict(StrategyNameTaken), s)
        else if !w.Ok? then (InternalError, s)
        else
          var i := FindStrategy(s.docs, oid);
          if i == |s.docs| then (NotFound(StrategyNotFound), s)
          else
            var a := ApplyWrite(s.docs[i], w.value);
            (Ok(a), Strategies(s.docs[i := a], s.nextId))
  }

  /** What PUT answers, for the trimmed-name guard and the cast write: 409
      exactly when the trimmed name is non-empty and another strategy has
      it, 404 exactly when an otherwise acceptable request names no
      strategy, and otherwise only that strategy changes, keeping its id,
      images and creation time. */
  lemma UpdateStrategyOutcome(s: Strategies, id: string, guard: Response<string>, w: Response<StrategyWrite>,
                              out: (Response<Strategy>, Strategies))
    requires ValidStrategies(s) && out == UpdateStrategyWith(s, id, guard, w)
    ensures var oid := CastObjectId(Str(id));
      (out.0.Conflict? <==> (guard.Ok? && guard.value != [] && oid.Some? &&
                             Taken(Entries(s.docs), guard.value, oid))) &&
      (out.0.NotFound? <==> (guard.Ok? && oid.Some? && w.Ok? &&
                             (guard.value == [] || !Taken(Entries(s.docs), guard.value, oid)) &&
                             forall i :: 0 <= i < |s.docs| ==> s.docs[i].id != oid.value)) &&
      (out.0.InternalError? ==> !guard.Ok? || oid.None? || !w.Ok?)
    ensures out.0.Ok? || out.0.Conflict? || out.0.NotFound? || out.0.InternalError?
    ensures out.0.Conflict? ==> out.0.error == StrategyNameTaken
    ensures out.0.NotFound? ==> out.0.error == StrategyNotFound
    ensures !out.0.Ok? ==> out.1 == s
    ensures out.0.Ok? ==> exists i :: (0 <= i < |s.docs| && Some(s.docs[i].id) == CastObjectId(Str(id)) &&
                                      out.0.value == ApplyWrite(s.docs[i], w.value) &&
                                      out.1 == Strategies(s.docs[i := out.0.value], s.nextId))
    ensures ValidStrategies(out.1)
  {
    var oid := CastObjectId(Str(id));
    if guard.Ok? && oid.Some? {
      FindMatchTaken(Entries(s.docs), guard.value, oid);
      var i := FindStrategy(s.docs, oid.value);
      if out.0.Ok? {
        assert s.docs[i := out.0.value][i] == out.0.value;
      }
    }
  }

  /** Renaming a strategy to its own name, in any case, is not a conflict
      while names are distinct: the lookup skips the strategy itself. */
  lemma RenameToOwnName(s: Strategies, id: ObjectId, name: string, w: Response<StrategyWrite>)
    requires ValidStrategies(s) && DistinctNames(Entries(s.docs))
    requires FindStrategy(s.docs, id) < |s.docs|
    requires NameMatches(s.docs[FindStrategy(s.docs, id)].name, name)
    ensures !UpdateStrategyWith(s, NatToString(id), Ok(name), w).0.Conflict?
  {
    CastObjectIdRoundTrip(id);
    OnlySelfMatches(Entries(s.docs), FindStrategy(s.docs, id), name);
    FindMatchTaken(Entries(s.docs), name, Some(id));
  }

  // ---------------------------------------------------------------------
  // GET and DELETE
  // ---------------------------------------------------------------------

  /** The trades linked to a strategy, in collection order. */
  function TradesOf(trades: seq<Trade>, id: ObjectId): (r: seq<Trade>)
    ensures forall t :: t in r <==> t in trades && t.strategyId == Some(id)
  {
    Filter(trades, (t: Trade) => t.strategyId == Some(id))
  }

  /** GET /strategies/:id: the strategy with its trades. */
  function GetStrategy(s: Strategies, trades: seq<Trade>, id: string): (r: Response<(Strategy, seq<Trade>)>)
    ensures r.Ok? || r.NotFound? || r.InternalError?
    ensures r.InternalError? <==> CastObjectId(Str(id)).None?
    ensures r.NotFound? <==> (CastObjectId(Str(id)).Some? &&
                              forall i :: 0 <= i < |s.docs| ==> s.docs[i].id != CastObjectId(Str(id)).value)
    ensures r.NotFound? ==> r.error == StrategyNotFound
    ensures r.Ok? ==> r.value.0 in s.docs && Some(r.value.0.id) == CastObjectId(Str(id)) &&
                      r.value.1 == TradesOf(trades, r.value.0.id)
  {
    match CastObjectId(Str(id))
    case None => InternalError
    case Some(oid) =>
      var i := FindStrategy(s.docs, oid);
      if i == |s.docs| then NotFound(StrategyNotFound) else Ok((s.docs[i], TradesOf(trades, oid)))
  }

  /** Newest first (`sort({ created_at: -1 })`). */
  function ByCreatedDesc(): (Strategy, Strategy) -> bool
  {
    KeyLe((a: Strategy) => -a.createdAt)
  }

  /** The strategies newest first. */
  function NewestFirst(docs: seq<Strategy>): (r: seq<Strategy>)
    ensures |r| == |docs| && multiset(r) == multiset(docs)
    ensures forall a :: a in r <==> a in docs
    ensures forall i, j :: 0 <= i < j < |r| ==> r[i].createdAt >= r[j].createdAt
  {
    KeyLeTotalPreorder((a: Strategy) => -a.createdAt);
    var r := Sort(docs, ByCreatedDesc());
    assert Sorted(r, ByCreatedDesc());
    assert forall a :: a in r <==> a in multiset(docs);
    r
  }

  /** GET /strategies: every strategy, newest first, each with its trades. */
  function ListStrategies(s: Strategies, trades: seq<Trade>): (r: seq<(Strategy, seq<Trade>)>)
    ensures |r| == |s.docs|
    ensures forall i, j :: 0 <= i < j < |r| ==> r[i].0.createdAt >= r[j].0.createdAt
    ensures forall i :: 0 <= i < |r| ==> r[i].0 in s.docs && r[i].1 == TradesOf(trades, r[i].0.id)
    ensures forall a :: a in s.docs ==> exists i :: 0 <= i < |r| && r[i].0 == a
  {
    var sorted := NewestFirst(s.docs);
    var r := seq(|sorted|, i requires 0 <= i < |sorted| => (sorted[i], TradesOf(trades, sorted[i].id)));
    forall a | a in s.docs ensures exists i :: 0 <= i < |r| && r[i].0 == a {
      var i :| 0 <= i < |sorted| && sorted[i] == a;
      assert r[i].0 == a;
    }
    r
  }

  /** DELETE /strategies/:id: `findByIdAndDelete`, answering "deleted"
      whether or not a strategy matched. Trades that link to it keep the
      link. */
  function DeleteStrategySpec(s: Strategies, id: string): (Response<()>, Strategies)
  {
    match CastObjectId(Str(id))
    case None => (InternalError, s)
    case Some(oid) =>
      var i := FindStrategy(s.docs, oid);
      if i == |s.docs| then (Ok(()), s) else (Ok(()), Strategies(s.docs[..i] + s.docs[i + 1..], s.nextId))
  }

  /** DELETE never answers 404: it removes exactly the strategy with that
      id, if any, and keeps the others in order. */
  lemma DeleteStrategyOutcome(s: Strategies, id: string, out: (Response<()>, Strategies))
    requires ValidStrategies(s) && out == DeleteStrategySpec(s, id)
    ensures out.0.Ok? || out.0.InternalError?
    ensures out.0.InternalError? <==> CastObjectId(Str(id)).None?
    ensures out.0.InternalError? ==> out.1 == s
    ensures out.0.Ok? ==> forall a :: a in out.1.docs <==> a in s.docs && Some(a.id) != CastObjectId(Str(id))
    ensures out.1 == s || exists i :: 0 <= i < |s.docs| && out.1.docs == s.docs[..i] + s.docs[i + 1..]
    ensures out.1.nextId == s.nextId && ValidStrategies(out.1)
  {
    match CastObjectId(Str(id))
    case None =>
    case Some(oid) =>
      var i := FindStrategy(s.docs, oid);
      if i < |s.docs| {
        RemoveStrategy(s, i);
        assert out.1.docs == s.docs[..i] + s.docs[i + 1..];
      } else {
        assert out.1 == s;
      }
  }

  /** Removing the strategy at `i` removes exactly the strategies with its id. */
  lemma RemoveStrategy(s: Strategies, i: nat)
    requires ValidStrategies(s) && i < |s.docs|
    ensures var r := s.docs[..i] + s.docs[i + 1..];
      ValidStrategies(Strategies(r, s.nextId)) &&
      forall a :: a in r <==> a in s.docs && a.id != s.docs[i].id
  {
    var r := s.docs[..i] + s.docs[i + 1..];
    assert forall k :: 0 <= k < |r| ==> r[k] == s.docs[if k < i then k else k + 1];
    forall a | a in s.docs && a.id != s.docs[i].id ensures a in r {
      var k :| 0 <= k < |s.docs| && s.docs[k] == a;
      if k < i { assert r[k] == a; } else { assert r[k - 1] == a; }
    }
  }

  // ---------------------------------------------------------------------
  // POST /strategies/:id/images
  // ---------------------------------------------------------------------

  /** The images stored for uploaded files, in upload order. */
  function StrategyImages(fileNames: seq<string>, now: int): (r: seq<Image>)
    ensures |r| == |fileNames|
    ensures forall k :: 0 <= k < |r| ==> r[k] == Image("/uploads/strategies/" + fileNames[k], now)
  {
    seq(|fileNames|, k requires 0 <= k < |fileNames| => Image("/uploads/strategies/" + fileNames[k], now))
  }

  /** `save()` validates the whole document, so the required name must
      still be a non-empty string. */
  predicate Saveable(a: Strategy)
  {
    a.name.Some? && a.name.value != []
  }

  /** POST /strategies/:id/images: a malformed id is 500 and an unknown one
      404; otherwise the new images follow the existing ones, unless the
      document no longer passes validation, and the count is returned. */
  function AddStrategyImagesSpec(s: Strategies, id: string, fileNames: seq<string>, now: int): (Response<nat>, Strategies)
  {
    match CastObjectId(Str(id))
    case None => (InternalError, s)
    case Some(oid) =>
      var i := FindStrategy(s.docs, oid);
      if i == |s.docs| then (NotFound(StrategyNotFound), s)
      else if !Saveable(s.docs[i]) then (InternalError, s)
      else
        var a := s.docs[i].(images := s.docs[i].images + StrategyImages(fileNames, now));
        (Ok(|fileNames|), Strategies(s.docs[i := a], s.nextId))
  }

  /** The upload answers 404 exactly for a well-formed id no strategy has,
      500 for a malformed id or a strategy whose name a PUT removed, and
      otherwise only that strategy's images grow, by one image per file. */
  lemma AddStrategyImagesOutcome(s: Strategies, id: string, fileNames: seq<string>, now: int)
    requires ValidStrategies(s)
    ensures var out := AddStrategyImagesSpec(s, id, fileNames, now);
      var oid := CastObjectId(Str(id));
      (out.0.Ok? || out.0.NotFound? || out.0.InternalError?) &&
      (out.0.NotFound? <==> (oid.Some? && forall i :: 0 <= i < |s.docs| ==> s.docs[i].id != oid.value)) &&
      (out.0.InternalError? <==> (oid.None? || exists i :: (0 <= i < |s.docs| && s.docs[i].id == oid.value &&
                                                            !Saveable(s.docs[i])))) &&
      (!out.0.Ok? ==> out.1 == s) &&
      (out.0.Ok? ==> (out.0.value == |fileNames| &&
                      exists i :: (0 <= i < |s.docs| && Some(s.docs[i].id) == oid &&
                                   out.1 == Strategies(s.docs[i := s.docs[i].(images := s.docs[i].images +
                                                                              StrategyImages(fileNames, now))],
                                                       s.nextId)))) &&
      ValidStrategies(out.1)
  {
    var oid := CastObjectId(Str(id));
    if oid.Some? {
      var i := FindStrategy(s.docs, oid.value);
      if i < |s.docs| {
        var out := AddStrategyImagesSpec(s, id, fileNames, now);
        if !Saveable(s.docs[i]) {
          assert out.0.InternalError?;
        } else {
          assert forall j :: 0 <= j < |s.docs| && s.docs[j].id == oid.value ==> j == i;
          assert out.1.docs[i].id == s.docs[i].id;
        }
      }
    }
  }

  // ---------------------------------------------------------------------
  // The collection
  // ---------------------------------------------------------------------

  class StrategyStore {
    var docs: seq<Strategy>
    var nextId: ObjectId

    function State(): Strategies
      reads this
    {
      Strategies(docs, nextId)
    }

    ghost predicate Valid()
      reads this
    {
      ValidStrategies(State())
    }

    constructor()
      ensures State() == Strategies([], 0) && Valid()
    {
      docs := [];
      nextId := 0;
    }

    /** POST /strategies: the guards, `findOne`, then `create`. */
    method Create(body: JsValue, now: int) returns (r: Response<Strategy>)
      requires Valid()
      modifies this
      ensures (r, State()) == CreateStrategySpec(old(State()), body, now)
      ensures Valid()
    {
      var guard := GuardName(Get(body, "strategy_name"));
      var w := CastStrategyWrite(body);
      r := Insert(guard, w, now);
    }

    /** The part of POST /strategies after the name is trimmed and the body cast. */
    method Insert(guard: Response<string>, w: Response<StrategyWrite>, now: int) returns (r: Response<Strategy>)
      requires Valid()
      modifies this
      ensures (r, State()) == CreateStrategyWith(old(State()), guard, w, now)
      ensures Valid()
    {
      if !guard.Ok? {
        r := InternalError;
      } else if guard.value == [] {
        r := BadRequest(StrategyNameRequired);
      } else if FindMatch(Entries(docs), guard.value, None) < |docs| {
        r := Conflict(StrategyNameTaken);
      } else if !w.Ok? || !Required(w.value.name) {
        r := InternalError;
      } else {
        var a := ApplyWrite(Strategy(nextId, None, None, Null, [], now), w.value);
        docs, nextId := docs + [a], nextId + 1;
        r := Ok(a);
      }
    }

    /** PUT /strategies/:id: the guards, `findOne`, then `findByIdAndUpdate`. */
    method Update(id: string, body: JsValue) returns (r: Response<Strategy>)
      requires Valid()
      modifies this
      ensures (r, State()) == UpdateStrategySpec(old(State()), id, body)
      ensures Valid()
    {
      var guard := GuardName(Get(body, "strategy_name"));
      var w := CastStrategyWrite(body);
      r := UpdateIn(id, guard, w);
    }

    /** The part of PUT /strategies/:id after the name is trimmed and the body cast. */
    method UpdateIn(id: string, guard: Response<string>, w: Response<StrategyWrite>) returns (r: Response<Strategy>)
      requires Valid()
      modifies this
      ensures (r, State()) == UpdateStrategyWith(old(State()), id, guard, w)
      ensures Valid()
    {
      ghost var before := State();
      var oid := CastObjectId(Str(id));
      if !guard.Ok? || oid.None? {
        r := InternalError;
      } else if guard.value != [] && FindMatch(Entries(docs), guard.value, oid) < |docs| {
        r := Conflict(StrategyNameTaken);
      } else if !w.Ok? {
        r := InternalError;
      } else {
        var i := FindStrategy(docs, oid.value);
        if i == |docs| {
          r := NotFound(StrategyNotFound);
        } else {
          var a := ApplyWrite(docs[i], w.value);
          docs := docs[i := a];
          r := Ok(a);
        }
      }
      UpdateStrategyOutcome(before, id, guard, w, (r, State()));
    }

    /** DELETE /strategies/:id. */
    method Delete(id: string) returns (r: Response<()>)
      requires Valid()
      modifies this
      ensures (r, State()) == DeleteStrategySpec(old(State()), id)
      ensures Valid()
    {
      DeleteStrategyOutcome(State(), id, DeleteStrategySpec(State(), id));
      var oid := CastObjectId(Str(id));
      if oid.None? {
        return InternalError;
      }
      var i := FindStrategy(docs, oid.value);
      if i < |docs| {
        docs := docs[..i] + docs[i + 1..];
      }
      r := Ok(());
    }

    /** POST /strategies/:id/images: `findById`, push the images, `save`. */
    method AddImages(id: string, fileNames: seq<string>, now: int) returns (r: Response<nat>)
      requires Valid()
      modifies this
      ensures (r, State()) == AddStrategyImagesSpec(old(State()), id, fileNames, now)
      ensures Valid()
    {
      AddStrategyImagesOutcome(State(), id, fileNames, now);
      var oid := CastObjectId(Str(id));
      if oid.None? {
        return InternalError;
      }
      var i := FindStrategy(docs, oid.value);
      if i == |docs| {
        return NotFound(StrategyNotFound);
      }
      if !Saveable(docs[i]) {
        return InternalError;
      }
      docs := docs[i := docs[i].(images := docs[i].images + StrategyImages(fileNames, now))];
      r := Ok(|fileNames|);
    }
  }
}
