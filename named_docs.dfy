/** What the account and strategy routes (backend/src/routes/accounts.js,
    backend/src/routes/strategies.js) share: the required-name guard
    `(name || "").trim()`, the anchored case-insensitive name lookup, and
    Mongoose's casting of the values they write to String and Number paths. */
module NamedDocs {
  import opened Common
  import opened Strings
  import opened JsValues

  /** `(v || "").trim()`: "" for a falsy value, the trimmed string for a
      string, and a TypeError (no `trim` method) for any other truthy value. */
  function GuardName(v: JsValue): (r: Response<string>)
    ensures r.Ok? || r.InternalError?
    ensures r.InternalError? <==> Truthy(v) && !v.Str?
    ensures !Truthy(v) ==> r == Ok([])
    ensures v.Str? ==> r == Ok(Trim(v.s))
    ensures r.Ok? ==> IsTrimmed(r.value)
  {
    TrimProperties(if v.Str? then v.s else []);
    if !Truthy(v) then Ok([])
    else if v.Str? then Ok(Trim(v.s))
    else InternalError
  }

  /** `new RegExp("^" + escapeRegex(name) + "$", "i")` as MongoDB runs it
      on the server (PCRE, without the multiline flag): the escaped pattern
      is literal, and `$` matches at the very end or just before a final
      newline. So the stored string equals `name` ignoring case, or is such
      a string followed by one "\n". */
  predicate AnchoredMatch(stored: string, name: string)
  {
    EqualsIgnoreCase(stored, name) ||
    (|stored| > 0 && stored[|stored| - 1] == '\n' && EqualsIgnoreCase(stored[..|stored| - 1], name))
  }

  /** A stored name matches the lookup for `name`; a missing name matches
      nothing. */
  predicate NameMatches(stored: Option<string>, name: string)
  {
    stored.Some? && AnchoredMatch(stored.value, name)
  }

  /** The text does not end in a newline, as a trimmed name never does. */
  predicate NoFinalNewline(s: string)
  {
    s == [] || s[|s| - 1] != '\n'
  }

  /** The `_id` and the name of a document, as `findOne` sees them. */
  datatype NameEntry = NameEntry(id: ObjectId, name: Option<string>)

  /** `findOne({ name: /^name$/i, _id: { $ne: skip } })`: the position of the
      first document, other than `skip`, whose name matches, or `|entries|`. */
  function FindMatch(entries: seq<NameEntry>, name: string, skip: Option<ObjectId>): (i: nat)
    ensures i <= |entries|
    ensures i < |entries| ==> Some(entries[i].id) != skip && NameMatches(entries[i].name, name)
    ensures forall j :: 0 <= j < i ==> Some(entries[j].id) == skip || !NameMatches(entries[j].name, name)
  {
    if entries == [] then 0
    else if Some(entries[0].id) != skip && NameMatches(entries[0].name, name) then 0
    else 1 + FindMatch(entries[1..], name, skip)
  }

  /** Some document other than `skip` has a name matching `name`. */
  predicate Taken(entries: seq<NameEntry>, name: string, skip: Option<ObjectId>)
  {
    exists j :: 0 <= j < |entries| && Some(entries[j].id) != skip && NameMatches(entries[j].name, name)
  }

  /** The lookup finds a document exactly when the name is taken. */
  lemma FindMatchTaken(entries: seq<NameEntry>, name: string, skip: Option<ObjectId>)
    ensures FindMatch(entries, name, skip) < |entries| <==> Taken(entries, name, skip)
  {
    var i := FindMatch(entries, name, skip);
    if i < |entries| {
      assert Some(entries[i].id) != skip && NameMatches(entries[i].name, name);
    }
  }

  /** A value written by an update: a key whose value is `undefined` is
      dropped from the update document and leaves the stored value alone. */
  datatype Write<T> = Keep | Set(value: T)

  function Apply<T>(w: Write<T>, current: T): (r: T)
    ensures w.Keep? ==> r == current
    ensures w.Set? ==> r == w.value
  {
    match w
    case Keep => current
    case Set(v) => v
  }

  /** Mongoose's cast to a String path: strings as they are, numbers and
      booleans printed, `null` stored as null; arrays and plain objects fail
      the cast. */
  function CastText(v: JsValue): (r: Response<Option<string>>)
    ensures r.Ok? || r.InternalError?
    ensures r.InternalError? <==> v.Arr? || v.Obj?
    ensures v.Str? ==> r == Ok(Some(v.s))
    ensures IsNullish(v) ==> r == Ok(None)
  {
    match v
    case Undefined => Ok(None)
    case Null => Ok(None)
    case Bool(b) => Ok(Some(if b then "true" else "false"))
    case Num(x) => Ok(Some(NumberToString(x)))
    case Str(s) => Ok(Some(s))
    case Arr(_) => InternalError
    case Obj(_) => InternalError
  }

  /** A String path of an update: `undefined` keeps the stored value. */
  function CastTextWrite(v: JsValue): (r: Response<Write<Option<string>>>)
    ensures r.Ok? || r.InternalError?
    ensures r.InternalError? <==> v.Arr? || v.Obj?
    ensures v.Undefined? ==> r == Ok(Keep)
    ensures v.Null? ==> r == Ok(Set(None))
    ensures v.Str? ==> r == Ok(Set(Some(v.s)))
  {
    if v.Undefined? then Ok(Keep)
    else
      match CastText(v)
      case Ok(t) => Ok(Set(t))
      case _ => InternalError
  }

  /** Mongoose's cast to a Number path: `null`, `undefined` and "" store
      null; a number is kept; a boolean is 1 or 0; another string goes
      through `Number` and fails when that is NaN; arrays and plain objects
      fail. */
  function CastNumber(v: JsValue): (r: Response<Option<real>>)
    ensures r.Ok? || r.InternalError?
    ensures IsNullish(v) || v == Str([]) ==> r == Ok(None)
    ensures v.Num? ==> r == Ok(Some(v.x))
    ensures v.Arr? || v.Obj? ==> r.InternalError?
    ensures v.Str? && v.s != [] ==> (r.InternalError? <==> StringToNumber(v.s).NaN?)
  {
    match v
    case Undefined => Ok(None)
    case Null => Ok(None)
    case Bool(b) => Ok(Some(if b then 1.0 else 0.0))
    case Num(x) => Ok(Some(x))
    case Str(s) =>
      if s == [] then Ok(None)
      else
        var n := StringToNumber(s);
        if n.Finite? then Ok(Some(n.x)) else InternalError
    case Arr(_) => InternalError
    case Obj(_) => InternalError
  }

  /** A required String path is satisfied: a non-empty string. */
  predicate Required(w: Write<Option<string>>)
  {
    w.Set? && w.value.Some? && w.value.value != []
  }

  /** Two stored names that the lookup would take for one another: one of
      them matches the pattern of the other. */
  predicate SameName(a: Option<string>, b: Option<string>)
  {
    a.Some? && b.Some? && (AnchoredMatch(a.value, b.value) || AnchoredMatch(b.value, a.value))
  }

  /** Two names that match one lookup are the same name: equal ignoring
      case, or one is the other followed by a final newline. */
  lemma {:induction false} BothMatch(x: string, y: string, name: string)
    requires AnchoredMatch(x, name) && AnchoredMatch(y, name)
    ensures AnchoredMatch(x, y) || AnchoredMatch(y, x)
  {
    if !EqualsIgnoreCase(x, name) && !EqualsIgnoreCase(y, name) {
      var x0, y0 := x[..|x| - 1], y[..|y| - 1];
      assert x == x0 + ['\n'] && y == y0 + ['\n'];
      LowerAppend(x0, ['\n']);
      LowerAppend(y0, ['\n']);
      assert EqualsIgnoreCase(x, y);
    }
  }

  /** Trimming a string that has white space at an end shortens it. */
  lemma TrimShortens(s: string)
    requires !IsTrimmed(s)
    ensures |Trim(s)| < |s|
  {
    if IsWs(s[0]) {
      assert TrimStart(s) == TrimStart(s[1..]);
    } else {
      assert TrimStart(s) == s;
      assert TrimEnd(s) == TrimEnd(s[..|s| - 1]);
    }
  }

  /** An untrimmed stored name matches the lookup of its own trimmed form
      exactly when it is that form followed by one newline: otherwise the
      two differ by more than the final "\n" that `$` may skip. */
  lemma {:induction false} TrimmedLookupOfUntrimmed(s: string)
    requires !IsTrimmed(s)
    ensures NameMatches(Some(s), Trim(s)) <==> s == Trim(s) + "\n"
  {
    TrimShortens(s);
    TrimIsTrimmed(s);
    var a, b := TrimSlice(s);
    SliceLookup(s, Trim(s), a, b);
  }

  /** The same for any trimmed slice shorter than the text. */
  lemma SliceLookup(s: string, t: string, a: nat, b: nat)
    requires a <= b <= |s| && t == s[a..b] && IsTrimmed(t) && |t| < |s|
    ensures AnchoredMatch(s, t) <==> s == t + "\n"
  {
    assert |Lower(s)| == |s| && |Lower(t)| == |t|;
    if s == t + "\n" {
      assert s[..|s| - 1] == t;
    }
  }

  /** Names that no two documents share, ignoring case. */
  ghost predicate DistinctNames(entries: seq<NameEntry>)
  {
    forall i, j :: 0 <= i < j < |entries| ==> !SameName(entries[i].name, entries[j].name)
  }

  /** Adding a document under a name the lookup does not find keeps names
      distinct. The name is one the routes look up, trimmed, so it does not
      end in the newline that would let it match a stored name the lookup
      missed. */
  lemma DistinctAppend(entries: seq<NameEntry>, e: NameEntry, name: string)
    requires DistinctNames(entries) && !Taken(entries, name, None) && e.name == Some(name)
    requires NoFinalNewline(name)
    ensures DistinctNames(entries + [e])
  {
    var r := entries + [e];
    forall i, j | 0 <= i < j < |r| ensures !SameName(r[i].name, r[j].name) {
      assert r[i] == entries[i];
      if j < |entries| {
        assert r[j] == entries[j];
      } else {
        assert !NameMatches(entries[i].name, name);
      }
    }
  }

  /** A name the lookup misses is still missed once a document whose name
      does not match is added. */
  lemma StillNotTaken(entries: seq<NameEntry>, e: NameEntry, name: string)
    requires !Taken(entries, name, None) && !NameMatches(e.name, name)
    ensures !Taken(entries + [e], name, None)
  {
    var r := entries + [e];
    forall j | 0 <= j < |r| ensures !NameMatches(r[j].name, name) {
      if j < |entries| {
        assert r[j] == entries[j];
      }
    }
  }

  /** While names are distinct, only the document itself has its name, so
      a lookup that skips it finds nothing. */
  lemma OnlySelfMatches(entries: seq<NameEntry>, k: nat, name: string)
    requires DistinctNames(entries) && k < |entries| && NameMatches(entries[k].name, name)
    ensures !Taken(entries, name, Some(entries[k].id))
  {
    forall j | 0 <= j < |entries| && Some(entries[j].id) != Some(entries[k].id)
      ensures !NameMatches(entries[j].name, name)
    {
      if NameMatches(entries[j].name, name) {
        BothMatch(entries[j].name.value, entries[k].name.value, name);
        assert SameName(entries[j].name, entries[k].name);
      }
    }
  }
}
