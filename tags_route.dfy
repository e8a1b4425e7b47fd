/** The `/tags` routes (backend/src/routes/tags.js): list, create and delete
    Tag documents of the reverse index. */
module TagsRoute {
  import opened Common
  import opened Strings
  import opened JsValues
  import opened Sorting
  import opened TagHelpers

  const TagNameRequired: string := "Tag name is required."
  const TagExists: string := "A tag with this name already exists."
  const TagNotFound: string := "Tag not found."

  function ByName(): (Tag, Tag) -> bool
  {
    StrKeyLe((t: Tag) => t.name)
  }

  /** GET /tags: every tag, ascending by `tag_name`. */
  function ListTags(ix: Index): (r: seq<Tag>)
    ensures Sorted(r, ByName())
    ensures multiset(r) == multiset(ix.tags)
  {
    StrKeyLeTotalPreorder((t: Tag) => t.name);
    Sort(ix.tags, ByName())
  }

  /** `req.body.tag_name ?? req.body.name ?? ""`. */
  function RawTagName(body: JsValue): JsValue
  {
    Coalesce(Coalesce(Get(body, "tag_name"), Get(body, "name")), Str(""))
  }

  /** The name POST /tags would store: the raw name trimmed and normalised,
      or `None` when the raw name is not a string (`.trim()` throws). */
  function RequestedName(body: JsValue): (r: Option<string>)
    ensures r.Some? <==> RawTagName(body).Str?
    ensures r.Some? ==> IsNormalName(r.value)
  {
    var raw := RawTagName(body);
    if raw.Str? then Some(NormalizeTagName(Str(Trim(raw.s)))) else None
  }

  /** POST /tags as a function of the index: the response and the new index. */
  function CreateTagSpec(ix: Index, body: JsValue): (Response<Tag>, Index)
  {
    CreateNamed(ix, RequestedName(body))
  }

  /** POST /tags once the requested name is known. */
  function CreateNamed(ix: Index, requested: Option<string>): (Response<Tag>, Index)
  {
    match requested
    case None => (InternalError, ix)
    case Some(name) =>
      if name == [] then (BadRequest(TagNameRequired), ix)
      else if FindByName(ix.tags, name) < |ix.tags| then (Conflict(TagExists), ix)
      else
        var tag := Tag(ix.nextId, name, []);
        (Ok(tag), Index(ix.tags + [tag], ix.nextId + 1))
  }

  /** What POST /tags answers and what it leaves in the collection: a
      non-string name fails, an empty name is refused with 400, a name
      already taken with 409, and otherwise one tag with a new id, the
      normalised name and no trades is appended and the index stays valid. */
  lemma CreateTagOutcome(ix: Index, body: JsValue, out: (Response<Tag>, Index))
    requires ValidIndex(ix) && out == CreateTagSpec(ix, body)
    ensures out.0.InternalError? <==> RequestedName(body).None?
    ensures out.0.BadRequest? <==> RequestedName(body) == Some([])
    ensures out.0.Conflict? <==> (RequestedName(body).Some? && RequestedName(body).value != [] &&
                                  RequestedName(body).value in NamesOf(ix.tags))
    ensures out.0.BadRequest? ==> out.0.error == TagNameRequired
    ensures out.0.Conflict? ==> out.0.error == TagExists
    ensures !out.0.Ok? ==> out.1 == ix
    ensures out.0.Ok? ==> (Some(out.0.value.name) == RequestedName(body) &&
                           (forall i :: 0 <= i < |ix.tags| ==> ix.tags[i].id != out.0.value.id) &&
                           out.0.value.tradeIds == [] &&
                           out.1.tags == ix.tags + [out.0.value])
    ensures ValidIndex(out.1)
  {
    CreateNamedOutcome(ix, RequestedName(body), out);
  }

  /** `CreateTagOutcome` for a requested name already worked out. */
  lemma CreateNamedOutcome(ix: Index, requested: Option<string>, out: (Response<Tag>, Index))
    requires ValidIndex(ix) && out == CreateNamed(ix, requested)
    requires requested.Some? ==> IsNormalName(requested.value)
    ensures out.0.InternalError? <==> requested.None?
    ensures out.0.BadRequest? <==> requested == Some([])
    ensures out.0.Conflict? <==> (requested.Some? && requested.value != [] && requested.value in NamesOf(ix.tags))
    ensures out.0.BadRequest? ==> out.0.error == TagNameRequired
    ensures out.0.Conflict? ==> out.0.error == TagExists
    ensures !out.0.Ok? ==> out.1 == ix
    ensures out.0.Ok? ==> (Some(out.0.value.name) == requested &&
                           (forall i :: 0 <= i < |ix.tags| ==> ix.tags[i].id != out.0.value.id) &&
                           out.0.value.tradeIds == [] &&
                           out.1.tags == ix.tags + [out.0.value])
    ensures ValidIndex(out.1)
  {
    if requested.Some? {
      var name := requested.value;
      var k := FindByName(ix.tags, name);
      if k < |ix.tags| {
        assert NamesOf(ix.tags)[k] == name;
      }
    }
    if out.0.Ok? {
      AppendTagValid(ix, out.0.value);
    }
  }

  /** Position of the tag with document id `id`, or `|tags|`. */
  function FindById(tags: seq<Tag>, id: ObjectId): (i: nat)
    ensures i <= |tags|
    ensures i < |tags| ==> tags[i].id == id
    ensures forall j :: 0 <= j < i ==> tags[j].id != id
  {
    FindFirst(tags, (t: Tag) => t.id, id)
  }

  /** DELETE /tags/:id as a function of the index. An id that is not an
      ObjectId fails the cast. */
  function DeleteTagSpec(ix: Index, id: string): (Response<()>, Index)
  {
    match CastObjectId(Str(id))
    case None => (InternalError, ix)
    case Some(oid) =>
      var i := FindById(ix.tags, oid);
      if i == |ix.tags| then (NotFound(TagNotFound), ix)
      else (Ok(()), Index(ix.tags[..i] + ix.tags[i + 1..], ix.nextId))
  }

  /** What DELETE /tags/:id answers: a malformed id fails the cast, an id no
      tag has is 404, and otherwise exactly the tag with that id is removed,
      the others keep their order, and the index stays valid. */
  lemma DeleteTagOutcome(ix: Index, id: string, out: (Response<()>, Index))
    requires ValidIndex(ix) && out == DeleteTagSpec(ix, id)
    ensures out.0.InternalError? <==> CastObjectId(Str(id)).None?
    ensures out.0.NotFound? <==> (CastObjectId(Str(id)).Some? &&
      forall i :: 0 <= i < |ix.tags| ==> ix.tags[i].id != CastObjectId(Str(id)).value)
    ensures out.0.NotFound? ==> out.0.error == TagNotFound
    ensures !out.0.Ok? ==> out.1 == ix
    ensures out.0.Ok? ==> exists i :: (0 <= i < |ix.tags| && ix.tags[i].id == CastObjectId(Str(id)).value &&
      out.1 == Index(ix.tags[..i] + ix.tags[i + 1..], ix.nextId))
    ensures out.0.Ok? ==> forall t :: t in out.1.tags ==> t.id != CastObjectId(Str(id)).value
    ensures ValidIndex(out.1)
    ensures !out.0.BadRequest? && !out.0.Conflict?
  {
    var oid := CastObjectId(Str(id));
    if oid.Some? {
      var i := FindById(ix.tags, oid.value);
      if i < |ix.tags| {
        RemoveTagValid(ix, i);
      }
    }
  }

  /** POST /tags on the collection. */
  method CreateTag(store: TagStore, body: JsValue) returns (r: Response<Tag>)
    requires store.Valid()
    modifies store
    ensures (r, store.State()) == CreateTagSpec(old(store.State()), body)
    ensures store.Valid()
  {
    ghost var before := store.State();
    r := InsertNamed(store, RequestedName(body));
    CreateTagOutcome(before, body, CreateTagSpec(before, body));
  }

  /** The collection half of POST /tags: `findOne` on the name, then `create`. */
  method InsertNamed(store: TagStore, requested: Option<string>) returns (r: Response<Tag>)
    modifies store
    ensures (r, store.State()) == CreateNamed(old(store.State()), requested)
  {
    if requested.None? {
      r := InternalError;
    } else if requested.value == [] {
      r := BadRequest(TagNameRequired);
    } else {
      var existing := FindByName(store.tags, requested.value);
      if existing < |store.tags| {
        r := Conflict(TagExists);
      } else {
        var tag := Tag(store.nextId, requested.value, []);
        store.tags, store.nextId := store.tags + [tag], store.nextId + 1;
        r := Ok(tag);
      }
    }
  }

  /** DELETE /tags/:id on the collection. */
  method DeleteTag(store: TagStore, id: string) returns (r: Response<()>)
    requires store.Valid()
    modifies store
    ensures (r, store.State()) == DeleteTagSpec(old(store.State()), id)
    ensures store.Valid()
  {
    var oid := CastObjectId(Str(id));
    if oid.None? {
      return InternalError;
    }
    var i := FindById(store.tags, oid.value);
    if i == |store.tags| {
      return NotFound(TagNotFound);
    }
    RemoveTagValid(store.State(), i);
    store.tags := store.tags[..i] + store.tags[i + 1..];
    r := Ok(());
  }
}
