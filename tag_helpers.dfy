/** The tag reverse index (backend/src/utils/tagHelpers.js): each Tag
    document holds a unique, normalised `tag_name` and the list of trade-id
    strings carrying that tag. */
module TagHelpers {
  import opened Common
  import opened Strings
  import opened JsValues

  // ---------------------------------------------------------------------
  // Name normalisation
  // ---------------------------------------------------------------------

  /** No white-space character other than a single space, and never two
      white-space characters in a row. */
  ghost predicate NoWsRun(s: string)
  {
    (forall i :: 0 <= i < |s| && IsWs(s[i]) ==> s[i] == ' ') &&
    (forall i, j :: 0 <= i < j < |s| && j == i + 1 ==> !(IsWs(s[i]) && IsWs(s[j])))
  }

  /** The shape `normalizeTagName` produces. */
  ghost predicate IsNormalName(s: string)
  {
    IsTrimmed(s) && NoWsRun(s)
  }

  lemma TrimStartShrinks(s: string)
    requires s != [] && IsWs(s[0])
    ensures |TrimStart(s)| < |s|
  {
  }

  /** `s.replace(/\s+/g, " ")`: every maximal white-space run becomes one
      space, and nothing else changes. */
  function CollapseWs(s: string): string
    decreases |s|
  {
    if s == [] then []
    else if IsWs(s[0]) then
      TrimStartShrinks(s);
      " " + CollapseWs(TrimStart(s))
    else
      [s[0]] + CollapseWs(s[1..])
  }

  /** A character in front of a string without white-space runs keeps it
      free of runs when it is not white space, or is a single space before
      a non-white-space start. */
  lemma NoWsRunCons(c: char, t: string)
    requires NoWsRun(t)
    requires IsWs(c) ==> c == ' ' && (t == [] || !IsWs(t[0]))
    ensures NoWsRun([c] + t)
  {
    var r := [c] + t;
    forall i, j | 0 <= i < j < |r| && j == i + 1 ensures !(IsWs(r[i]) && IsWs(r[j])) {
      if i > 0 {
        assert r[i] == t[i - 1] && r[j] == t[j - 1];
      }
    }
    forall i | 0 <= i < |r| && IsWs(r[i]) ensures r[i] == ' ' {
      if i > 0 {
        assert r[i] == t[i - 1];
      }
    }
  }

  /** The converse: the tail of a string without runs has none, and a
      leading white-space character is a space not followed by another. */
  lemma NoWsRunUncons(s: string)
    requires s != [] && NoWsRun(s)
    ensures NoWsRun(s[1..])
    ensures IsWs(s[0]) ==> s[0] == ' ' && (|s| == 1 || !IsWs(s[1]))
  {
    var t := s[1..];
    forall i, j | 0 <= i < j < |t| && j == i + 1 ensures !(IsWs(t[i]) && IsWs(t[j])) {
      assert t[i] == s[i + 1] && t[j] == s[j + 1];
    }
    forall i | 0 <= i < |t| && IsWs(t[i]) ensures t[i] == ' ' {
      assert t[i] == s[i + 1];
    }
    if |s| > 1 {
      assert 0 < 1 < |s|;
    }
  }

  /** The collapsed string has no white-space runs, is empty only for the
      empty string, and starts and ends with white space exactly when the
      input does. */
  lemma {:induction false} CollapseWsShape(s: string)
    ensures NoWsRun(CollapseWs(s))
    ensures (CollapseWs(s) == []) <==> (s == [])
    ensures s != [] ==> (IsWs(CollapseWs(s)[0]) <==> IsWs(s[0]))
    ensures s != [] ==> (IsWs(CollapseWs(s)[|CollapseWs(s)| - 1]) <==> IsWs(s[|s| - 1]))
    decreases |s|
  {
    if s != [] {
      var r := CollapseWs(s);
      if IsWs(s[0]) {
        var t := TrimStart(s);
        TrimStartShrinks(s);
        CollapseWsShape(t);
        var c := CollapseWs(t);
        assert r == [' '] + c;
        if t != [] {
          assert !IsWs(c[0]);
          assert t[|t| - 1] == s[|s| - 1];
        }
        NoWsRunCons(' ', c);
      } else {
        var t := s[1..];
        CollapseWsShape(t);
        var c := CollapseWs(t);
        assert r == [s[0]] + c;
        NoWsRunCons(s[0], c);
      }
    }
  }

  lemma TrimStartNonWs(s: string)
    requires s == [] || !IsWs(s[0])
    ensures TrimStart(s) == s
  {
  }

  /** A string without white-space runs is left alone by `CollapseWs`. */
  lemma {:induction false} CollapseWsFixed(s: string)
    requires NoWsRun(s)
    ensures CollapseWs(s) == s
    decreases |s|
  {
    if s != [] {
      var t := s[1..];
      NoWsRunUncons(s);
      CollapseWsFixed(t);
      if IsWs(s[0]) {
        TrimStartNonWs(t);
        assert TrimStart(s) == TrimStart(t);
        assert CollapseWs(s) == [' '] + CollapseWs(t);
      } else {
        assert CollapseWs(s) == [s[0]] + CollapseWs(t);
      }
      assert [s[0]] + t == s;
    }
  }

  /** `normalizeTagName` on a string. */
  function NormalizeName(s: string): string
  {
    CollapseWs(Trim(s))
  }

  /** `normalizeTagName(v)`: "" for a non-string; otherwise trimmed, with
      white-space runs collapsed to one space. */
  function NormalizeTagName(v: JsValue): (r: string)
    ensures !v.Str? ==> r == []
    ensures IsNormalName(r)
    ensures v.Str? ==> (r == [] <==> forall i :: 0 <= i < |v.s| ==> IsWs(v.s[i]))
  {
    if !v.Str? then []
    else
      TrimProperties(v.s);
      CollapseWsShape(Trim(v.s));
      NormalizeName(v.s)
  }

  /** Normal names are fixed points of the normalisation. */
  lemma NormalNameFixed(s: string)
    requires IsNormalName(s)
    ensures NormalizeName(s) == s
  {
    TrimOfTrimmed(s);
    CollapseWsFixed(s);
  }

  /** Normalising twice is normalising once. */
  lemma NormalizeIdempotent(v: JsValue)
    ensures NormalizeTagName(Str(NormalizeTagName(v))) == NormalizeTagName(v)
  {
    NormalNameFixed(NormalizeTagName(v));
  }

  lemma LetterNameIsNormal(a: string)
    requires a == "confident" || a == "Confident"
    ensures IsNormalName(a)
  {
    assert forall i :: 0 <= i < |a| ==> 'a' <= a[i] <= 'z' || a[i] == 'C';
  }

  /** De-duplication after normalisation is case-sensitive: "Confident" and
      "confident " normalise to two distinct names. */
  lemma CaseIsSignificant(a: string, b: string)
    requires a == "Confident" && b == "confident "
    ensures NormalizeTagName(Str(a)) == a
    ensures NormalizeTagName(Str(b)) == b[..|b| - 1]
    ensures NormalizeTagName(Str(a)) != NormalizeTagName(Str(b))
  {
    var c := b[..|b| - 1];
    LetterNameIsNormal(a);
    LetterNameIsNormal(c);
    NormalNameFixed(a);
    NormalNameFixed(c);
    TrimStartNonWs(b);
    assert TrimEnd(b) == TrimEnd(c);
    TrimOfTrimmed(c);
    assert a[0] != c[0];
  }

  // ---------------------------------------------------------------------
  // The index
  // ---------------------------------------------------------------------

  /** A Tag document. */
  datatype Tag = Tag(id: ObjectId, name: string, tradeIds: seq<string>)

  /** The Tag collection in natural (insertion) order, and the next added
      document id. */
  datatype Index = Index(tags: seq<Tag>, nextId: ObjectId)

  function NamesOf(tags: seq<Tag>): (r: seq<string>)
    ensures |r| == |tags| && forall i :: 0 <= i < |tags| ==> r[i] == tags[i].name
  {
    seq(|tags|, i requires 0 <= i < |tags| => tags[i].name)
  }

  /** What the collection guarantees between operations: tag names are
      unique (the unique index on `tag_name`), non-empty and normalised;
      document ids are distinct and below `nextId`; no tag lists a trade id
      twice. */
  ghost predicate ValidIndex(ix: Index)
  {
    (forall i, j :: 0 <= i < j < |ix.tags| ==> ix.tags[i].name != ix.tags[j].name) &&
    (forall i, j :: 0 <= i < j < |ix.tags| ==> ix.tags[i].id != ix.tags[j].id) &&
    (forall i :: 0 <= i < |ix.tags| ==>
       ix.tags[i].name != [] && IsNormalName(ix.tags[i].name) &&
       ix.tags[i].id < ix.nextId && NoDups(ix.tags[i].tradeIds))
  }

  /** Appending a tag with a fresh id and a new, normal name keeps the index valid. */
  lemma AppendTagValid(ix: Index, tag: Tag)
    requires ValidIndex(ix)
    requires tag.name != [] && IsNormalName(tag.name) && tag.name !in NamesOf(ix.tags)
    requires tag.id == ix.nextId && NoDups(tag.tradeIds)
    ensures ValidIndex(Index(ix.tags + [tag], ix.nextId + 1))
  {
    var t := ix.tags + [tag];
    forall i | 0 <= i < |ix.tags| ensures t[i].name != tag.name {
      assert NamesOf(ix.tags)[i] == ix.tags[i].name;
    }
  }

  /** Removing one tag keeps the index valid. */
  lemma RemoveTagValid(ix: Index, i: nat)
    requires ValidIndex(ix) && i < |ix.tags|
    ensures ValidIndex(Index(ix.tags[..i] + ix.tags[i + 1..], ix.nextId))
    ensures forall t :: t in ix.tags[..i] + ix.tags[i + 1..] ==> t.id != ix.tags[i].id
  {
    var rest := ix.tags[..i] + ix.tags[i + 1..];
    assert forall k :: 0 <= k < |rest| ==> rest[k] == ix.tags[if k < i then k else k + 1];
  }

  /** `$pull` of one value from a list: every occurrence goes. */
  function Remove(ids: seq<string>, x: string): seq<string>
  {
    Filter(ids, y => y != x)
  }

  /** `updateMany({ trade_ids: x }, { $pull: { trade_ids: x } })`. */
  function Pull(tags: seq<Tag>, x: string): (r: seq<Tag>)
    ensures |r| == |tags|
  {
    seq(|tags|, i requires 0 <= i < |tags| => tags[i].(tradeIds := Remove(tags[i].tradeIds, x)))
  }

  /** `$addToSet`. */
  function AddToSet(ids: seq<string>, x: string): seq<string>
  {
    if x in ids then ids else ids + [x]
  }

  /** Position of the first tag named `name`, or `|tags|`. */
  function FindByName(tags: seq<Tag>, name: string): (i: nat)
    ensures i <= |tags|
    ensures i < |tags| ==> tags[i].name == name
    ensures forall j :: 0 <= j < i ==> tags[j].name != name
  {
    if tags == [] then 0
    else if tags[0].name == name then 0
    else 1 + FindByName(tags[1..], name)
  }

  /** `findOneAndUpdate({ tag_name: name }, { $addToSet: { trade_ids: x } },
      { upsert: true })`: adds `x` to the tag of that name, or inserts a new
      tag holding just `x`. */
  function Upsert(ix: Index, name: string, x: string): Index
  {
    var k := FindByName(ix.tags, name);
    if k < |ix.tags| then
      Index(ix.tags[k := ix.tags[k].(tradeIds := AddToSet(ix.tags[k].tradeIds, x))], ix.nextId)
    else
      Index(ix.tags + [Tag(ix.nextId, name, [x])], ix.nextId + 1)
  }

  /** The upsert loop over `names`, in order. */
  function UpsertAll(ix: Index, names: seq<string>, x: string): Index
  {
    if names == [] then ix
    else Upsert(UpsertAll(ix, names[..|names| - 1], x), names[|names| - 1], x)
  }

  /** Each entry of an array normalised (`tagNames.map(normalizeTagName)`). */
  function NormalisedEntries(tagNames: JsValue): (r: seq<string>)
    ensures forall nm :: nm in r <==>
      tagNames.Arr? && exists i :: 0 <= i < |tagNames.items| && NormalizeTagName(tagNames.items[i]) == nm
    ensures forall k :: 0 <= k < |r| ==> IsNormalName(r[k])
  {
    if tagNames.Arr? then
      var items := tagNames.items;
      var r := seq(|items|, i requires 0 <= i < |items| => NormalizeTagName(items[i]));
      assert forall i :: 0 <= i < |items| ==> r[i] == NormalizeTagName(items[i]);
      r
    else []
  }

  /** One more upsert extends the loop by one name. */
  lemma UpsertAllSnoc(ix: Index, names: seq<string>, k: nat, x: string)
    requires k < |names|
    ensures UpsertAll(ix, names[..k + 1], x) == Upsert(UpsertAll(ix, names[..k], x), names[k], x)
  {
    assert names[..k + 1][..k] == names[..k];
  }

  /** The names `syncTagsForTrade` acts on: from an array, each entry
      normalised, empties dropped, first occurrences kept; anything else
      gives no names. */
  function UniqueNames(tagNames: JsValue): (r: seq<string>)
    ensures NoDups(r)
    ensures forall k :: 0 <= k < |r| ==> r[k] != [] && IsNormalName(r[k])
  {
    var e := NormalisedEntries(tagNames);
    var r := Dedup(Filter(e, nm => nm != []));
    KeptEntriesNormal(e, r);
    r
  }

  /** Names drawn from normalised entries, empties dropped, are normal and
      non-empty. */
  lemma KeptEntriesNormal(e: seq<string>, r: seq<string>)
    requires forall k :: 0 <= k < |e| ==> IsNormalName(e[k])
    requires r == Dedup(Filter(e, nm => nm != []))
    ensures forall k :: 0 <= k < |r| ==> r[k] != [] && IsNormalName(r[k])
  {
    forall k | 0 <= k < |r| ensures r[k] != [] && IsNormalName(r[k]) {
      assert r[k] in r;
      var i :| 0 <= i < |e| && e[i] == r[k];
    }
  }

  /** A name is acted on exactly when some array entry normalises to it and
      it is not empty. */
  lemma UniqueNamesMembers(tagNames: JsValue)
    ensures forall nm :: nm in UniqueNames(tagNames) <==>
      tagNames.Arr? && nm != [] && exists i :: 0 <= i < |tagNames.items| && NormalizeTagName(tagNames.items[i]) == nm
  {
  }

  /** What `UniqueNames` delivers: distinct, non-empty, normalised names. */
  ghost predicate ListedNames(names: seq<string>)
  {
    NoDups(names) && forall k :: 0 <= k < |names| ==> names[k] != [] && IsNormalName(names[k])
  }

  /** The state after `syncTagsForTrade(x, tagNames)`, where
      `names == UniqueNames(tagNames)`: pull `x` everywhere, then upsert it
      into each listed tag. */
  function SyncState(ix: Index, x: string, names: seq<string>): Index
  {
    UpsertAll(Index(Pull(ix.tags, x), ix.nextId), names, x)
  }

  /** The state after `removeTradeIdFromAllTags(x)`. */
  function RemoveState(ix: Index, x: string): Index
  {
    Index(Pull(ix.tags, x), ix.nextId)
  }

  /** `getTagNamesForTrade(x)`: names of the tags listing `x`, in collection order. */
  function NamesForTrade(tags: seq<Tag>, x: string): seq<string>
  {
    NamesOf(Filter(tags, (t: Tag) => x in t.tradeIds))
  }

  /** `getAllTagNames()`. */
  function AllTagNames(ix: Index): (r: seq<string>)
    ensures ValidIndex(ix) ==> NoDups(r)
    ensures forall nm :: nm in r <==> exists i :: 0 <= i < |ix.tags| && ix.tags[i].name == nm
  {
    NamesOf(ix.tags)
  }

  // ---------------------------------------------------------------------
  // Closed form of the sync
  // ---------------------------------------------------------------------

  /** Fresh tags for `names`, numbered from `n`, each holding just `x`. */
  function NewTags(names: seq<string>, n: nat, x: string): (r: seq<Tag>)
    ensures |r| == |names|
    ensures forall j :: 0 <= j < |names| ==> r[j] == Tag(n + j, names[j], [x])
  {
    seq(|names|, j requires 0 <= j < |names| => Tag(n + j, names[j], [x]))
  }

  /** The listed names that no tag of `tags` carries, in list order. */
  function Absent(tags: seq<Tag>, names: seq<string>): seq<string>
  {
    Filter(names, nm => nm !in NamesOf(tags))
  }

  /** Each tag of `tags`, with `x` appended when its name is listed. */
  function Marked(tags: seq<Tag>, names: seq<string>, x: string): (r: seq<Tag>)
    ensures |r| == |tags|
    ensures forall i :: 0 <= i < |tags| ==>
      r[i] == tags[i].(tradeIds := tags[i].tradeIds + (if tags[i].name in names then [x] else []))
  {
    seq(|tags|, i requires 0 <= i < |tags| =>
          tags[i].(tradeIds := tags[i].tradeIds + (if tags[i].name in names then [x] else [])))
  }

  /** Each tag of `tags` gains `x` when its name is listed; then one new tag
      per absent name. */
  function Closed(tags: seq<Tag>, n: nat, names: seq<string>, x: string): Index
  {
    var added := Absent(tags, names);
    Index(Marked(tags, names, x) + NewTags(added, n, x), n + |added|)
  }

  /** Hypotheses of the closed form: distinct names, `x` already pulled. */
  predicate Pulled(tags: seq<Tag>, x: string)
  {
    (forall i, j :: 0 <= i < j < |tags| ==> tags[i].name != tags[j].name) &&
    (forall i :: 0 <= i < |tags| ==> x !in tags[i].tradeIds)
  }

  /** Marking with one more name that belongs to no tag changes nothing;
      with one that belongs to tag `m`, only that tag changes. */
  lemma MarkedStep(tags: seq<Tag>, pre: seq<string>, y: string, x: string)
    ensures forall i :: 0 <= i < |tags| && tags[i].name != y ==>
      Marked(tags, pre + [y], x)[i] == Marked(tags, pre, x)[i]
  {
    forall i | 0 <= i < |tags| && tags[i].name != y
      ensures Marked(tags, pre + [y], x)[i] == Marked(tags, pre, x)[i]
    {
      assert (tags[i].name in pre + [y]) == (tags[i].name in pre);
    }
  }

  /** Upserting a name some tag already has: `$addToSet` on that tag. */
  lemma UpsertStepExisting(tags: seq<Tag>, n: nat, pre: seq<string>, y: string, x: string, m: nat)
    requires Pulled(tags, x) && y !in pre
    requires m < |tags| && tags[m].name == y
    ensures Upsert(Closed(tags, n, pre, x), y, x) == Closed(tags, n, pre + [y], x)
  {
    var names := pre + [y];
    assert names[..|names| - 1] == pre;
    var c := Closed(tags, n, pre, x);
    var d := Closed(tags, n, names, x);
    assert y in NamesOf(tags);
    assert Absent(tags, names) == Absent(tags, pre);
    var k := FindByName(c.tags, y);
    assert c.tags[m].name == y;
    assert k == m;
    assert c.tags[m].tradeIds == tags[m].tradeIds;
    MarkedStep(tags, pre, y, x);
    var u := c.tags[m := c.tags[m].(tradeIds := AddToSet(c.tags[m].tradeIds, x))];
    assert |u| == |d.tags|;
    forall i | 0 <= i < |u| ensures u[i] == d.tags[i] {
      if i < |tags| && i != m {
        assert tags[i].name != y;
      }
    }
  }

  /** Upserting a name no tag has: a new tag at the end. */
  lemma UpsertStepNew(tags: seq<Tag>, n: nat, pre: seq<string>, y: string, x: string)
    requires Pulled(tags, x) && y !in pre
    requires y !in NamesOf(tags)
    ensures Upsert(Closed(tags, n, pre, x), y, x) == Closed(tags, n, pre + [y], x)
  {
    var names := pre + [y];
    assert names[..|names| - 1] == pre;
    var c := Closed(tags, n, pre, x);
    var added := Absent(tags, pre);
    var d := Closed(tags, n, names, x);
    assert Absent(tags, names) == added + [y];
    assert forall i :: 0 <= i < |tags| ==> tags[i].name != y;
    assert y !in added;
    var k := FindByName(c.tags, y);
    assert k == |c.tags|;
    MarkedStep(tags, pre, y, x);
    var u := c.tags + [Tag(c.nextId, y, [x])];
    assert |u| == |d.tags|;
    forall i | 0 <= i < |u| ensures u[i] == d.tags[i] {
    }
  }

  /** The upsert loop equals the closed form. */
  lemma {:induction false} UpsertAllClosed(tags: seq<Tag>, n: nat, names: seq<string>, x: string)
    requires Pulled(tags, x) && NoDups(names)
    ensures UpsertAll(Index(tags, n), names, x) == Closed(tags, n, names, x)
  {
    if names == [] {
      assert forall i :: 0 <= i < |tags| ==> tags[i].tradeIds + [] == tags[i].tradeIds;
      assert Marked(tags, names, x) == tags;
    } else {
      var pre := names[..|names| - 1];
      var y := names[|names| - 1];
      assert pre + [y] == names;
      UpsertAllClosed(tags, n, pre, x);
      assert forall i :: 0 <= i < |pre| ==> pre[i] == names[i] && names[i] != names[|pre|];
      if y in NamesOf(tags) {
        var m :| 0 <= m < |tags| && tags[m].name == y;
        UpsertStepExisting(tags, n, pre, y, x, m);
      } else {
        UpsertStepNew(tags, n, pre, y, x);
      }
    }
  }

  lemma RemoveProperties(ids: seq<string>, x: string)
    ensures x !in Remove(ids, x)
    ensures forall y :: y != x ==> (y in Remove(ids, x) <==> y in ids)
    ensures NoDups(ids) ==> NoDups(Remove(ids, x))
  {
    if NoDups(ids) { FilterNoDups(ids, y => y != x); }
  }

  /** `syncTagsForTrade` in closed form, for a valid index. */
  lemma SyncClosed(ix: Index, x: string, names: seq<string>)
    requires ValidIndex(ix) && ListedNames(names)
    ensures SyncState(ix, x, names) == Closed(Pull(ix.tags, x), ix.nextId, names, x)
  {
    var p := Pull(ix.tags, x);
    forall i | 0 <= i < |p| ensures x !in p[i].tradeIds {
      RemoveProperties(ix.tags[i].tradeIds, x);
    }
    UpsertAllClosed(p, ix.nextId, names, x);
  }

  // ---------------------------------------------------------------------
  // Properties of sync and remove
  // ---------------------------------------------------------------------

  /** The closed form, tag by tag. */
  lemma ClosedShape(tags: seq<Tag>, n: nat, names: seq<string>, x: string)
    ensures var c := Closed(tags, n, names, x);
      |c.tags| >= |tags| &&
      c.nextId == n + (|c.tags| - |tags|) &&
      (forall i :: 0 <= i < |tags| ==>
         c.tags[i] == tags[i].(tradeIds := tags[i].tradeIds + (if tags[i].name in names then [x] else []))) &&
      (forall i :: |tags| <= i < |c.tags| ==>
         c.tags[i].id == n + (i - |tags|) && c.tags[i].name in names &&
         c.tags[i].name !in NamesOf(tags) && c.tags[i].tradeIds == [x]) &&
      (forall i, j :: |tags| <= i < j < |c.tags| && NoDups(names) ==> c.tags[i].name != c.tags[j].name) &&
      (forall nm :: nm in names ==> nm in NamesOf(c.tags)) &&
      ((forall nm :: nm in names ==> nm in NamesOf(tags)) ==> |c.tags| == |tags|)
  {
    ClosedNewTags(tags, n, names, x);
    ClosedCovers(tags, n, names, x);
    if NoDups(names) {
      FilterNoDups(names, nm => nm !in NamesOf(tags));
    }
    if forall nm :: nm in names ==> nm in NamesOf(tags) {
      FilterNone(names, nm => nm !in NamesOf(tags));
    }
  }

  /** The tags the closed form appends: fresh ids in order, listed names
      that were absent, each holding just `x`. */
  lemma ClosedNewTags(tags: seq<Tag>, n: nat, names: seq<string>, x: string)
    ensures var c := Closed(tags, n, names, x);
      var added := Absent(tags, names);
      |c.tags| == |tags| + |added| &&
      forall i :: |tags| <= i < |c.tags| ==>
        c.tags[i] == Tag(n + (i - |tags|), added[i - |tags|], [x]) &&
        c.tags[i].name in names && c.tags[i].name !in NamesOf(tags)
  {
    var added := Absent(tags, names);
    var c := Closed(tags, n, names, x);
    forall i | |tags| <= i < |c.tags|
      ensures c.tags[i] == Tag(n + (i - |tags|), added[i - |tags|], [x])
      ensures c.tags[i].name in names && c.tags[i].name !in NamesOf(tags)
    {
      assert c.tags[i] == NewTags(added, n, x)[i - |tags|];
      assert added[i - |tags|] in added;
    }
  }

  /** Every listed name is carried by some tag of the closed form. */
  lemma ClosedCovers(tags: seq<Tag>, n: nat, names: seq<string>, x: string)
    ensures forall nm :: nm in names ==> nm in NamesOf(Closed(tags, n, names, x).tags)
  {
    var c := Closed(tags, n, names, x);
    var added := Absent(tags, names);
    ClosedNewTags(tags, n, names, x);
    forall nm | nm in names ensures nm in NamesOf(c.tags) {
      if nm in NamesOf(tags) {
        var m :| 0 <= m < |tags| && NamesOf(tags)[m] == nm;
        assert NamesOf(c.tags)[m] == nm;
      } else {
        assert nm in added;
        var j :| 0 <= j < |added| && added[j] == nm;
        assert NamesOf(c.tags)[|tags| + j] == nm;
      }
    }
  }

  lemma PullKeepsTags(tags: seq<Tag>, x: string)
    ensures forall i :: 0 <= i < |tags| ==>
      Pull(tags, x)[i] == tags[i].(tradeIds := Remove(tags[i].tradeIds, x))
    ensures NamesOf(Pull(tags, x)) == NamesOf(tags)
  {
  }

  /** What a sync leaves in each tag: an existing tag keeps its id and name
      and holds its old trade ids without `x`, then `x` when listed; every
      tag after the existing ones is new, listed, and holds just `x`. */
  lemma SyncShape(ix: Index, x: string, names: seq<string>)
    requires ValidIndex(ix) && ListedNames(names)
    ensures var s := SyncState(ix, x, names);
      |s.tags| >= |ix.tags| &&
      s.nextId == ix.nextId + (|s.tags| - |ix.tags|) &&
      (forall i :: 0 <= i < |ix.tags| ==>
         s.tags[i].id == ix.tags[i].id && s.tags[i].name == ix.tags[i].name &&
         s.tags[i].tradeIds == Remove(ix.tags[i].tradeIds, x) + (if ix.tags[i].name in names then [x] else [])) &&
      (forall i :: |ix.tags| <= i < |s.tags| ==>
         s.tags[i].id == ix.nextId + (i - |ix.tags|) && s.tags[i].name in names &&
         s.tags[i].name !in NamesOf(ix.tags) && s.tags[i].tradeIds == [x]) &&
      (forall i, j :: |ix.tags| <= i < j < |s.tags| ==> s.tags[i].name != s.tags[j].name) &&
      (forall nm :: nm in names ==> nm in NamesOf(s.tags)) &&
      ((forall nm :: nm in names ==> nm in NamesOf(ix.tags)) ==> |s.tags| == |ix.tags|)
  {
    SyncClosed(ix, x, names);
    PullKeepsTags(ix.tags, x);
    ClosedShape(Pull(ix.tags, x), ix.nextId, names, x);
  }

  /** `getTagNamesForTrade(x)` lists exactly the names of the tags holding `x`. */
  lemma NamesForTradeMembers(tags: seq<Tag>, x: string)
    ensures forall nm :: nm in NamesForTrade(tags, x) <==>
      exists i :: 0 <= i < |tags| && tags[i].name == nm && x in tags[i].tradeIds
  {
    var listing := Filter(tags, (t: Tag) => x in t.tradeIds);
    forall nm ensures nm in NamesForTrade(tags, x) <==>
      exists i :: 0 <= i < |tags| && tags[i].name == nm && x in tags[i].tradeIds
    {
      if nm in NamesForTrade(tags, x) {
        var k :| 0 <= k < |listing| && listing[k].name == nm;
        assert listing[k] in tags;
      }
      if exists i :: 0 <= i < |tags| && tags[i].name == nm && x in tags[i].tradeIds {
        var i :| 0 <= i < |tags| && tags[i].name == nm && x in tags[i].tradeIds;
        assert tags[i] in listing;
        var k :| 0 <= k < |listing| && listing[k] == tags[i];
        assert NamesOf(listing)[k] == nm;
      }
    }
  }

  /** After `syncTagsForTrade(x, names)`, a tag lists `x` exactly when its
      name is among the normalised, non-empty names, and
      `getTagNamesForTrade(x)` returns exactly those names. */
  lemma SyncMembership(ix: Index, x: string, names: seq<string>)
    requires ValidIndex(ix) && ListedNames(names)
    ensures var s := SyncState(ix, x, names);
      (forall i :: 0 <= i < |s.tags| ==> (x in s.tags[i].tradeIds <==> s.tags[i].name in names)) &&
      (forall nm :: nm in NamesForTrade(s.tags, x) <==> nm in names)
  {
    var s := SyncState(ix, x, names);
    SyncShape(ix, x, names);
    forall i | 0 <= i < |ix.tags| ensures x in s.tags[i].tradeIds <==> s.tags[i].name in names {
      RemoveProperties(ix.tags[i].tradeIds, x);
    }
    NamesForTradeMembers(s.tags, x);
    forall nm | nm in names ensures nm in NamesForTrade(s.tags, x) {
      var m :| 0 <= m < |s.tags| && s.tags[m].name == nm;
      assert x in s.tags[m].tradeIds;
    }
  }

  /** Sync creates the missing tags but never deletes one, and never changes
      a tag's id or name. */
  lemma SyncKeepsTags(ix: Index, x: string, names: seq<string>)
    requires ValidIndex(ix) && ListedNames(names)
    ensures var s := SyncState(ix, x, names);
      |s.tags| >= |ix.tags| &&
      (forall i :: 0 <= i < |ix.tags| ==> s.tags[i].id == ix.tags[i].id && s.tags[i].name == ix.tags[i].name) &&
      (forall nm :: nm in names ==> nm in AllTagNames(s))
  {
    SyncShape(ix, x, names);
  }

  /** Sync only adds or pulls `x`: every other trade id is in a tag after
      the sync exactly when it was before, and new tags hold only `x`. */
  lemma SyncOthersUntouched(ix: Index, x: string, names: seq<string>)
    requires ValidIndex(ix) && ListedNames(names)
    ensures var s := SyncState(ix, x, names);
      |s.tags| >= |ix.tags| &&
      (forall i, y :: 0 <= i < |ix.tags| && y != x ==> (y in s.tags[i].tradeIds <==> y in ix.tags[i].tradeIds)) &&
      (forall i, y :: |ix.tags| <= i < |s.tags| && y in s.tags[i].tradeIds ==> y == x)
  {
    SyncShape(ix, x, names);
    forall i | 0 <= i < |ix.tags| { RemoveProperties(ix.tags[i].tradeIds, x); }
  }

  lemma SyncDistinctNames(ix: Index, x: string, names: seq<string>)
    requires ValidIndex(ix) && ListedNames(names)
    ensures var s := SyncState(ix, x, names);
      forall i, j :: 0 <= i < j < |s.tags| ==> s.tags[i].name != s.tags[j].name
  {
    var s := SyncState(ix, x, names);
    var n := |ix.tags|;
    SyncShape(ix, x, names);
    forall i, j | 0 <= i < j < |s.tags| ensures s.tags[i].name != s.tags[j].name {
      if j < n {
        assert ix.tags[i].name != ix.tags[j].name;
      } else if i < n {
        assert s.tags[i].name == NamesOf(ix.tags)[i];
      }
    }
  }

  lemma SyncDistinctIds(ix: Index, x: string, names: seq<string>)
    requires ValidIndex(ix) && ListedNames(names)
    ensures var s := SyncState(ix, x, names);
      forall i, j :: 0 <= i < j < |s.tags| ==> s.tags[i].id != s.tags[j].id
  {
    var s := SyncState(ix, x, names);
    var n := |ix.tags|;
    SyncShape(ix, x, names);
    forall i, j | 0 <= i < j < |s.tags| ensures s.tags[i].id != s.tags[j].id {
      if j < n {
        assert ix.tags[i].id != ix.tags[j].id;
      } else if i < n {
        assert ix.tags[i].id < ix.nextId;
      }
    }
  }

  lemma SyncTagsWellFormed(ix: Index, x: string, names: seq<string>)
    requires ValidIndex(ix) && ListedNames(names)
    ensures var s := SyncState(ix, x, names);
      forall i :: 0 <= i < |s.tags| ==>
        s.tags[i].name != [] && IsNormalName(s.tags[i].name) &&
        s.tags[i].id < s.nextId && NoDups(s.tags[i].tradeIds)
  {
    var s := SyncState(ix, x, names);
    var n := |ix.tags|;
    SyncShape(ix, x, names);
    forall i | 0 <= i < |s.tags|
      ensures s.tags[i].name != [] && IsNormalName(s.tags[i].name) &&
              s.tags[i].id < s.nextId && NoDups(s.tags[i].tradeIds)
    {
      if i < n {
        RemoveProperties(ix.tags[i].tradeIds, x);
      } else {
        var k :| 0 <= k < |names| && names[k] == s.tags[i].name;
      }
    }
  }

  /** Sync keeps the index valid: names stay unique, and no tag lists a
      trade id twice. */
  lemma SyncValid(ix: Index, x: string, names: seq<string>)
    requires ValidIndex(ix) && ListedNames(names)
    ensures ValidIndex(SyncState(ix, x, names))
  {
    SyncDistinctNames(ix, x, names);
    SyncDistinctIds(ix, x, names);
    SyncTagsWellFormed(ix, x, names);
  }

  lemma RemoveAppend(ids: seq<string>, x: string)
    ensures Remove(Remove(ids, x) + [x], x) == Remove(ids, x)
    ensures Remove(Remove(ids, x), x) == Remove(ids, x)
    ensures Remove([x], x) == []
  {
    var r := Remove(ids, x);
    FilterAppend(r, [x], y => y != x);
    assert Filter([x], y => y != x) == [];
    FilterKeepsAll(r, y => y != x);
  }

  /** An index that already has a tag for every listed name, and lists `x`
      last in exactly the listed tags, is left unchanged by the sync. */
  lemma SyncFixedPoint(ix: Index, x: string, names: seq<string>)
    requires ValidIndex(ix) && ListedNames(names)
    requires forall nm :: nm in names ==> nm in NamesOf(ix.tags)
    requires forall i :: 0 <= i < |ix.tags| ==>
      ix.tags[i].tradeIds == Remove(ix.tags[i].tradeIds, x) + (if ix.tags[i].name in names then [x] else [])
    ensures SyncState(ix, x, names) == ix
  {
    var s := SyncState(ix, x, names);
    SyncShape(ix, x, names);
    assert forall i :: 0 <= i < |s.tags| ==> s.tags[i] == ix.tags[i];
  }

  /** Right after a sync, the index meets the hypotheses of `SyncFixedPoint`. */
  lemma SyncedForm(ix: Index, x: string, names: seq<string>)
    requires ValidIndex(ix) && ListedNames(names)
    ensures var s := SyncState(ix, x, names);
      (forall nm :: nm in names ==> nm in NamesOf(s.tags)) &&
      (forall i :: 0 <= i < |s.tags| ==>
         s.tags[i].tradeIds == Remove(s.tags[i].tradeIds, x) + (if s.tags[i].name in names then [x] else []))
  {
    var s := SyncState(ix, x, names);
    SyncShape(ix, x, names);
    forall i | 0 <= i < |s.tags|
      ensures s.tags[i].tradeIds == Remove(s.tags[i].tradeIds, x) + (if s.tags[i].name in names then [x] else [])
    {
      if i < |ix.tags| {
        var r := Remove(ix.tags[i].tradeIds, x);
        var xs := if ix.tags[i].name in names then [x] else [];
        assert s.tags[i].tradeIds == r + xs;
        RemoveAppend(ix.tags[i].tradeIds, x);
        if xs == [] { assert r + xs == r; }
        assert Remove(r + xs, x) == r;
      } else {
        RemoveAppend([], x);
      }
    }
  }

  /** Syncing the same list twice gives the state of syncing it once. */
  lemma SyncIdempotent(ix: Index, x: string, names: seq<string>)
    requires ValidIndex(ix) && ListedNames(names)
    ensures SyncState(SyncState(ix, x, names), x, names) == SyncState(ix, x, names)
  {
    SyncValid(ix, x, names);
    SyncedForm(ix, x, names);
    SyncFixedPoint(SyncState(ix, x, names), x, names);
  }

  /** After `removeTradeIdFromAllTags(x)`, no tag lists `x`; the tags, their
      names and every other trade id are as before. */
  lemma RemoveFromAllProperties(ix: Index, x: string)
    requires ValidIndex(ix)
    ensures var s := RemoveState(ix, x);
      NamesForTrade(s.tags, x) == [] &&
      AllTagNames(s) == AllTagNames(ix) &&
      ValidIndex(s) &&
      |s.tags| == |ix.tags| &&
      (forall i, y :: 0 <= i < |ix.tags| && y != x ==> (y in s.tags[i].tradeIds <==> y in ix.tags[i].tradeIds))
  {
    var s := RemoveState(ix, x);
    PullKeepsTags(ix.tags, x);
    forall i | 0 <= i < |ix.tags| ensures x !in s.tags[i].tradeIds && NoDups(s.tags[i].tradeIds) {
      RemoveProperties(ix.tags[i].tradeIds, x);
    }
    FilterNone(s.tags, (t: Tag) => x in t.tradeIds);
  }

  // ---------------------------------------------------------------------
  // Batched lookup
  // ---------------------------------------------------------------------

  /** Number of occurrences of `y` in `ids`. */
  function Count(ids: seq<string>, y: string): nat
  {
    CountOf(ids, z => z == y)
  }

  /** `k` copies of `s`. */
  function Repeat(s: string, k: nat): (r: seq<string>)
    ensures |r| == k && forall j :: 0 <= j < k ==> r[j] == s
  {
    if k == 0 then [] else Repeat(s, k - 1) + [s]
  }

  /** The names the nested loops of `getTagNamesByTradeId` push for `y`: a
      tag's name once per occurrence of `y` in its list, tags in order. */
  function Occurrences(tags: seq<Tag>, y: string): seq<string>
  {
    if tags == [] then []
    else Occurrences(tags[..|tags| - 1], y) + Repeat(tags[|tags| - 1].name, Count(tags[|tags| - 1].tradeIds, y))
  }

  lemma {:induction false} CountNoDups(ids: seq<string>, y: string)
    requires NoDups(ids)
    ensures Count(ids, y) == if y in ids then 1 else 0
  {
    if ids != [] {
      var n := |ids| - 1;
      assert NoDups(ids[..n]);
      CountNoDups(ids[..n], y);
      assert ids == ids[..n] + [ids[n]];
      assert ids[n] !in ids[..n];
    }
  }

  /** When no tag lists an id twice (as in a valid index), the batched
      lookup gives for each id exactly `getTagNamesForTrade`'s answer. */
  lemma NamesOfSnoc(tags: seq<Tag>, t: Tag)
    ensures NamesOf(tags + [t]) == NamesOf(tags) + [t.name]
  {
  }

  lemma {:induction false} OccurrencesAreNamesForTrade(tags: seq<Tag>, y: string)
    requires forall i :: 0 <= i < |tags| ==> NoDups(tags[i].tradeIds)
    ensures Occurrences(tags, y) == NamesForTrade(tags, y)
  {
    if tags != [] {
      var n := |tags| - 1;
      var t := tags[n];
      OccurrencesAreNamesForTrade(tags[..n], y);
      CountNoDups(t.tradeIds, y);
      var f := Filter(tags[..n], (u: Tag) => y in u.tradeIds);
      if y in t.tradeIds {
        assert Filter(tags, (u: Tag) => y in u.tradeIds) == f + [t];
        NamesOfSnoc(f, t);
      } else {
        assert Filter(tags, (u: Tag) => y in u.tradeIds) == f;
      }
    }
  }

  // ---------------------------------------------------------------------
  // The Tag collection, updated in place
  // ---------------------------------------------------------------------

  /** The inner loop of `getTagNamesByTradeId` for one tag: its name is
      pushed onto the list of every requested id it holds, once per
      occurrence. */
  method PushName(m0: map<string, seq<string>>, tag: Tag) returns (m: map<string, seq<string>>)
    ensures m.Keys == m0.Keys
    ensures forall y :: y in m ==> m[y] == m0[y] + Repeat(tag.name, Count(tag.tradeIds, y))
  {
    m := m0;
    for j := 0 to |tag.tradeIds|
      invariant m.Keys == m0.Keys
      invariant forall y :: y in m ==> m[y] == m0[y] + Repeat(tag.name, Count(tag.tradeIds[..j], y))
    {
      var id := tag.tradeIds[j];
      assert tag.tradeIds[..j + 1][..j] == tag.tradeIds[..j];
      if id in m {
        m := m[id := m[id] + [tag.name]];
      }
    }
    assert tag.tradeIds[..|tag.tradeIds|] == tag.tradeIds;
  }

  class TagStore {
    var tags: seq<Tag>
    var nextId: ObjectId

    function State(): Index
      reads this
    {
      Index(tags, nextId)
    }

    ghost predicate Valid()
      reads this
    {
      ValidIndex(State())
    }

    constructor()
      ensures State() == Index([], 0) && Valid()
    {
      tags := [];
      nextId := 0;
    }

    /** One `findOneAndUpdate` with `$addToSet` and `upsert`. */
    method UpsertTag(name: string, x: string)
      modifies this
      ensures State() == Upsert(old(State()), name, x)
    {
      var k := FindByName(tags, name);
      if k < |tags| {
        tags := tags[k := tags[k].(tradeIds := AddToSet(tags[k].tradeIds, x))];
      } else {
        tags := tags + [Tag(nextId, name, [x])];
        nextId := nextId + 1;
      }
    }

    /** `syncTagsForTrade(x, tagNames)`: pull `x` from every tag, then upsert
        it into each listed tag in turn. */
    method Sync(x: string, tagNames: JsValue)
      requires Valid()
      modifies this
      ensures State() == SyncState(old(State()), x, UniqueNames(tagNames))
      ensures Valid()
    {
      var names := UniqueNames(tagNames);
      ghost var before := State();
      tags := Pull(tags, x);
      ghost var pulled := State();
      for k := 0 to |names|
        invariant State() == UpsertAll(pulled, names[..k], x)
      {
        UpsertAllSnoc(pulled, names, k, x);
        UpsertTag(names[k], x);
      }
      assert names[..|names|] == names;
      assert State() == SyncState(before, x, names);
      SyncValid(before, x, names);
    }

    /** `removeTradeIdFromAllTags(x)`. */
    method RemoveFromAll(x: string)
      requires Valid()
      modifies this
      ensures State() == RemoveState(old(State()), x)
      ensures Valid()
    {
      RemoveFromAllProperties(State(), x);
      tags := Pull(tags, x);
    }

    /** `getTagNamesByTradeId(ids)`: every requested id is a key, mapped to
        the names pushed for it by the nested loops. */
    method NamesByTradeId(ids: seq<string>) returns (m: map<string, seq<string>>)
      ensures ids == [] ==> m == map[]
      ensures forall y :: y in m <==> y in ids
      ensures forall y :: y in m ==> m[y] == Occurrences(tags, y)
    {
      if |ids| == 0 {
        return map[];
      }
      m := map[];
      for k := 0 to |ids|
        invariant forall y :: y in m <==> y in ids[..k]
        invariant forall y :: y in m ==> m[y] == []
      {
        m := m[ids[k] := []];
      }
      assert ids[..|ids|] == ids;
      for t := 0 to |tags|
        invariant forall y :: y in m <==> y in ids
        invariant forall y :: y in m ==> m[y] == Occurrences(tags[..t], y)
      {
        assert tags[..t + 1][..t] == tags[..t];
        m := PushName(m, tags[t]);
      }
      assert tags[..|tags|] == tags;
    }
  }
}
