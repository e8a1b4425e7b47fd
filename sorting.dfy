/** Sorting as the runtime provides it (`Array.prototype.sort`, a Mongo
    `sort`): the result is ordered by the comparison and holds exactly the
    input's elements. An insertion sort serves as the definition. */
module Sorting {
  import opened Strings

  /** `le` compares every pair and is transitive. */
  ghost predicate TotalPreorder<T(!new)>(le: (T, T) -> bool)
  {
    (forall a, b :: le(a, b) || le(b, a)) &&
    (forall a, b, c :: le(a, b) && le(b, c) ==> le(a, c))
  }

  predicate Sorted<T>(s: seq<T>, le: (T, T) -> bool)
  {
    forall i, j :: 0 <= i < j < |s| ==> le(s[i], s[j])
  }

  /** Places `x` before the first element it does not exceed. */
  function Insert<T(!new)>(x: T, s: seq<T>, le: (T, T) -> bool): (r: seq<T>)
    requires TotalPreorder(le) && Sorted(s, le)
    ensures multiset(r) == multiset(s) + multiset{x}
    ensures forall y :: y in r <==> y == x || y in s
    ensures Sorted(r, le)
  {
    if s == [] then [x]
    else if le(x, s[0]) then [x] + s
    else
      var t := Insert(x, s[1..], le);
      assert s == [s[0]] + s[1..];
      assert forall y :: y in t ==> le(s[0], y);
      ConsSorted(s[0], t, le);
      [s[0]] + t
  }

  /** An element below everything in a sorted sequence can go in front. */
  lemma {:induction false} ConsSorted<T>(a: T, t: seq<T>, le: (T, T) -> bool)
    requires Sorted(t, le) && forall y :: y in t ==> le(a, y)
    ensures Sorted([a] + t, le)
  {
    var r := [a] + t;
    forall i, j | 0 <= i < j < |r| ensures le(r[i], r[j]) {
      assert r[j] == t[j - 1] && r[j] in t;
      if i > 0 {
        assert r[i] == t[i - 1];
      }
    }
  }

  /** The input's elements in `le` order. Elements that compare equal keep
      their relative order, as in a stable sort. */
  function Sort<T(!new)>(s: seq<T>, le: (T, T) -> bool): (r: seq<T>)
    requires TotalPreorder(le)
    ensures Sorted(r, le)
    ensures multiset(r) == multiset(s)
    ensures |r| == |s|
  {
    if s == [] then []
    else
      assert s == [s[0]] + s[1..];
      Insert(s[0], Sort(s[1..], le), le)
  }

  /** Ascending order of an integer key. */
  function KeyLe<T>(key: T -> int): (T, T) -> bool
  {
    (a: T, b: T) => key(a) <= key(b)
  }

  lemma KeyLeTotalPreorder<T(!new)>(key: T -> int)
    ensures TotalPreorder(KeyLe(key))
  {
  }

  /** Ascending order of a string key (code-point lexicographic). */
  function StrKeyLe<T>(key: T -> string): (T, T) -> bool
  {
    (a: T, b: T) => StrLe(key(a), key(b))
  }

  lemma StrKeyLeTotalPreorder<T(!new)>(key: T -> string)
    ensures TotalPreorder(StrKeyLe(key))
  {
    forall a: T, b: T ensures StrLe(key(a), key(b)) || StrLe(key(b), key(a)) {
      StrLeTotal(key(a), key(b));
    }
    forall a: T, b: T, c: T | StrLe(key(a), key(b)) && StrLe(key(b), key(c))
      ensures StrLe(key(a), key(c))
    {
      StrLeTransitive(key(a), key(b), key(c));
    }
  }

  /** Two-level order: by `key1`, then by `key2` among equal `key1`. */
  function Key2Le<T>(key1: T -> int, key2: T -> int): (T, T) -> bool
  {
    (a: T, b: T) => key1(a) < key1(b) || (key1(a) == key1(b) && key2(a) <= key2(b))
  }

  lemma Key2LeTotalPreorder<T(!new)>(key1: T -> int, key2: T -> int)
    ensures TotalPreorder(Key2Le(key1, key2))
  {
  }

  /** A sorted sequence is still sorted after removing elements. */
  lemma SortedSubsequence<T>(s: seq<T>, le: (T, T) -> bool, i: nat)
    requires Sorted(s, le) && i < |s|
    ensures Sorted(s[..i] + s[i + 1..], le)
  {
    var t := s[..i] + s[i + 1..];
    forall a, b | 0 <= a < b < |t| ensures le(t[a], t[b]) {
      var a' := if a < i then a else a + 1;
      var b' := if b < i then b else b + 1;
      assert t[a] == s[a'] && t[b] == s[b'];
    }
  }
}
