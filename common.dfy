/** Shared wrappers: optional values, the HTTP-style outcome of a route, and
    references to named documents. */
module Common {

  datatype Option<+T> = None | Some(value: T) {
    function GetOr(default: T): T {
      match this
      case Some(v) => v
      case None => default
    }
  }

  /** Document ids (Mongo ObjectIds) are modelled as naturals. */
  type ObjectId = nat

  /** The outcome of a route handler: a value (200/201/204), one of the
      explicit error statuses the handlers return, or a thrown exception
      (a TypeError, or a Mongoose cast/validation error) that reaches the
      error middleware as a 500. */
  datatype Response<+T> =
    | Ok(value: T)
    | BadRequest(error: string)
    | NotFound(error: string)
    | Conflict(error: string)
    | InternalError

  /** An `{ _id, name }` projection of an Account or a Strategy, as used by
      name lookups and `populate`. */
  datatype NamedRef = NamedRef(id: ObjectId, name: string)

  /** Position of the first document whose id is `id`, or `|docs|`: the
      lookup behind Mongoose's `findById`, `findByIdAndUpdate` and
      `findByIdAndDelete`, given the projection to a document's id. */
  function FindFirst<T>(docs: seq<T>, idOf: T -> ObjectId, id: ObjectId): (i: nat)
    ensures i <= |docs|
    ensures i < |docs| ==> idOf(docs[i]) == id
    ensures forall j :: 0 <= j < i ==> idOf(docs[j]) != id
  {
    if docs == [] then 0
    else if idOf(docs[0]) == id then 0
    else 1 + FindFirst(docs[1..], idOf, id)
  }

  /** Sum of a real-valued projection over a sequence, folded from the left. */
  function SumOf<T>(s: seq<T>, f: T -> real): real
  {
    if s == [] then 0.0 else SumOf(s[..|s| - 1], f) + f(s[|s| - 1])
  }

  /** Number of elements satisfying `p`. */
  function CountOf<T>(s: seq<T>, p: T -> bool): nat
  {
    if s == [] then 0 else CountOf(s[..|s| - 1], p) + (if p(s[|s| - 1]) then 1 else 0)
  }

  /** Elements satisfying `p`, in their original order (`Array.prototype.filter`). */
  function Filter<T(!new)>(s: seq<T>, p: T -> bool): (r: seq<T>)
    ensures |r| <= |s|
    ensures forall x :: x in r <==> x in s && p(x)
  {
    if s == [] then [] else
      var r := Filter(s[..|s| - 1], p);
      if p(s[|s| - 1]) then r + [s[|s| - 1]] else r
  }

  /** `r` is obtained from `s` by deleting elements (order kept). */
  predicate IsSubsequence<T(==)>(r: seq<T>, s: seq<T>)
  {
    r == [] ||
    (s != [] &&
     ((r[|r| - 1] == s[|s| - 1] && IsSubsequence(r[..|r| - 1], s[..|s| - 1])) ||
      IsSubsequence(r, s[..|s| - 1])))
  }

  lemma {:induction false} IsSubsequenceRefl<T>(s: seq<T>)
    ensures IsSubsequence(s, s)
  {
    if s != [] { IsSubsequenceRefl(s[..|s| - 1]); }
  }

  /** A subsequence is no longer than the sequence. */
  lemma {:induction false} SubsequenceLength<T>(r: seq<T>, s: seq<T>)
    requires IsSubsequence(r, s)
    ensures |r| <= |s|
    decreases |s|
  {
    if r != [] {
      var n := |s| - 1;
      if IsSubsequence(r, s[..n]) {
        SubsequenceLength(r, s[..n]);
      } else {
        SubsequenceLength(r[..|r| - 1], s[..n]);
      }
    }
  }

  /** Deleting elements twice is deleting elements. */
  lemma {:induction false} IsSubsequenceTrans<T>(r: seq<T>, a: seq<T>, s: seq<T>)
    requires IsSubsequence(r, a) && IsSubsequence(a, s)
    ensures IsSubsequence(r, s)
    decreases |s|
  {
    if r != [] {
      var m := |a| - 1;
      var n := |s| - 1;
      if IsSubsequence(a, s[..n]) {
        IsSubsequenceTrans(r, a, s[..n]);
      } else if r[|r| - 1] == a[m] && IsSubsequence(r[..|r| - 1], a[..m]) {
        IsSubsequenceTrans(r[..|r| - 1], a[..m], s[..n]);
      } else {
        IsSubsequenceTrans(r, a[..m], s[..n]);
      }
    }
  }

  lemma {:induction false} FilterIsSubsequence<T(!new)>(s: seq<T>, p: T -> bool)
    ensures IsSubsequence(Filter(s, p), s)
  {
    if s != [] {
      var n := |s| - 1;
      FilterIsSubsequence(s[..n], p);
      var r := Filter(s[..n], p);
      if p(s[n]) {
        assert Filter(s, p)[..|Filter(s, p)| - 1] == r;
      }
    }
  }

  /** Filtering by `p` and then by `q` is filtering by their conjunction
      `both`. */
  lemma {:induction false} FilterFilter<T(!new)>(s: seq<T>, p: T -> bool, q: T -> bool, both: T -> bool)
    requires forall x :: both(x) == (p(x) && q(x))
    ensures Filter(Filter(s, p), q) == Filter(s, both)
  {
    if s != [] {
      var n := |s| - 1;
      FilterFilter(s[..n], p, q, both);
      var r := Filter(s[..n], p);
      if p(s[n]) {
        assert Filter(s, p) == r + [s[n]];
        assert (r + [s[n]])[..|r + [s[n]]| - 1] == r;
      }
    }
  }

  /** `CountOf` is the length of the corresponding `Filter`. */
  lemma {:induction false} CountIsFilterLength<T(!new)>(s: seq<T>, p: T -> bool)
    ensures CountOf(s, p) == |Filter(s, p)|
  {
    if s != [] { CountIsFilterLength(s[..|s| - 1], p); }
  }

  /** No more elements satisfy `p` than there are. */
  lemma {:induction false} CountOfBound<T>(s: seq<T>, p: T -> bool)
    ensures CountOf(s, p) <= |s|
  {
    if s != [] { CountOfBound(s[..|s| - 1], p); }
  }

  lemma {:induction false} SumOfAppend<T>(s: seq<T>, t: seq<T>, f: T -> real)
    ensures SumOf(s + t, f) == SumOf(s, f) + SumOf(t, f)
  {
    if t != [] {
      assert (s + t)[..|s + t| - 1] == s + t[..|t| - 1];
      SumOfAppend(s, t[..|t| - 1], f);
    } else {
      assert s + t == s;
    }
  }

  lemma {:induction false} CountOfAppend<T>(s: seq<T>, t: seq<T>, p: T -> bool)
    ensures CountOf(s + t, p) == CountOf(s, p) + CountOf(t, p)
  {
    if t != [] {
      assert (s + t)[..|s + t| - 1] == s + t[..|t| - 1];
      CountOfAppend(s, t[..|t| - 1], p);
    } else {
      assert s + t == s;
    }
  }

  /** A predicate that no element satisfies contributes nothing to a count. */
  lemma {:induction false} CountOfNone<T>(s: seq<T>, p: T -> bool)
    requires forall i :: 0 <= i < |s| ==> !p(s[i])
    ensures CountOf(s, p) == 0
  {
    if s != [] { CountOfNone(s[..|s| - 1], p); }
  }

  /** Splitting the elements by `p` and its negation `notP` splits their
      sum. */
  lemma {:induction false} SumOfSplit<T(!new)>(s: seq<T>, f: T -> real, p: T -> bool, notP: T -> bool)
    requires forall x :: notP(x) == !p(x)
    ensures SumOf(s, f) == SumOf(Filter(s, p), f) + SumOf(Filter(s, notP), f)
  {
    if s != [] {
      var n := |s| - 1;
      SumOfSplit(s[..n], f, p, notP);
      var a := Filter(s[..n], p);
      var b := Filter(s[..n], notP);
      if p(s[n]) {
        SumOfAppend(a, [s[n]], f);
        assert SumOf([s[n]], f) == f(s[n]);
      } else {
        SumOfAppend(b, [s[n]], f);
        assert SumOf([s[n]], f) == f(s[n]);
      }
    }
  }

  /** Likewise for the counts. */
  lemma {:induction false} CountOfSplit<T(!new)>(s: seq<T>, p: T -> bool, notP: T -> bool)
    requires forall x :: notP(x) == !p(x)
    ensures |s| == |Filter(s, p)| + |Filter(s, notP)|
  {
    if s != [] { CountOfSplit(s[..|s| - 1], p, notP); }
  }

  /** Duplicate-free sequences. */
  predicate NoDups<T(==)>(s: seq<T>)
  {
    forall i, j :: 0 <= i < j < |s| ==> s[i] != s[j]
  }

  /** `[...new Set(s)]`: first occurrences, in order. */
  function Dedup<T(==,!new)>(s: seq<T>): (r: seq<T>)
    ensures NoDups(r)
    ensures forall x :: x in r <==> x in s
    ensures |r| <= |s|
  {
    if s == [] then [] else
      var d := Dedup(s[..|s| - 1]);
      assert forall x :: x in s <==> x in s[..|s| - 1] || x == s[|s| - 1];
      if s[|s| - 1] in d then d else d + [s[|s| - 1]]
  }

  /** De-duplicating one more element appends it when it is new. */
  lemma DedupSnoc<T(!new)>(s: seq<T>, x: T)
    ensures Dedup(s + [x]) == if x in s then Dedup(s) else Dedup(s) + [x]
  {
    assert (s + [x])[..|s|] == s;
  }

  /** Filtering keeps a sequence free of duplicates. */
  lemma {:induction false} FilterNoDups<T(!new)>(s: seq<T>, p: T -> bool)
    requires NoDups(s)
    ensures NoDups(Filter(s, p))
  {
    if s != [] {
      var n := |s| - 1;
      assert NoDups(s[..n]);
      FilterNoDups(s[..n], p);
      assert s[n] !in s[..n];
    }
  }

  /** A filter that keeps every element is the identity. */
  lemma {:induction false} FilterKeepsAll<T(!new)>(s: seq<T>, p: T -> bool)
    requires forall i :: 0 <= i < |s| ==> p(s[i])
    ensures Filter(s, p) == s
  {
    if s != [] {
      FilterKeepsAll(s[..|s| - 1], p);
      assert s[..|s| - 1] + [s[|s| - 1]] == s;
    }
  }

  /** A filter that keeps nothing gives the empty sequence. */
  lemma {:induction false} FilterNone<T(!new)>(s: seq<T>, p: T -> bool)
    requires forall i :: 0 <= i < |s| ==> !p(s[i])
    ensures Filter(s, p) == []
  {
    if s != [] { FilterNone(s[..|s| - 1], p); }
  }

  /** Filtering distributes over concatenation. */
  lemma {:induction false} FilterAppend<T(!new)>(s: seq<T>, t: seq<T>, p: T -> bool)
    ensures Filter(s + t, p) == Filter(s, p) + Filter(t, p)
  {
    if t == [] {
      assert s + t == s;
    } else {
      var n := |t| - 1;
      assert (s + t)[..|s + t| - 1] == s + t[..n];
      FilterAppend(s, t[..n], p);
    }
  }

  /** A duplicate-free sequence is its own de-duplication. */
  lemma {:induction false} DedupOfNoDups<T(!new)>(s: seq<T>)
    requires NoDups(s)
    ensures Dedup(s) == s
  {
    if s != [] {
      DedupOfNoDups(s[..|s| - 1]);
      assert s[|s| - 1] !in s[..|s| - 1];
      assert s[..|s| - 1] + [s[|s| - 1]] == s;
    }
  }
}
