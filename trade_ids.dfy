/** Trade-id numbering shared by the trades route
    (backend/src/routes/trades.js), the form (frontend/src/App.tsx) and the
    dummy-data seeder (backend/scripts/seedDummyTrades.js): the number of an
    id is the digit run of the leftmost case-insensitive `trd-(\d+)` match,
    and the next id is `trd-<max + 1>`. */
module TradeIds {
  import opened Common
  import opened Strings
  import opened JsValues

  /** A match of `trd-\d` (case-insensitive) starts at position `i`. */
  predicate TrdAt(s: string, i: nat)
  {
    i + 4 < |s| &&
    LowerChar(s[i]) == 't' && LowerChar(s[i + 1]) == 'r' && LowerChar(s[i + 2]) == 'd' &&
    s[i + 3] == '-' && IsDigit(s[i + 4])
  }

  /** The leftmost match at or after `i`, or `|s|` when there is none. */
  function FindTrd(s: string, i: nat): (p: nat)
    requires i <= |s|
    ensures i <= p <= |s|
    ensures p < |s| ==> TrdAt(s, p)
    ensures forall q :: i <= q < p ==> !TrdAt(s, q)
    decreases |s| - i
  {
    if i == |s| then |s|
    else if TrdAt(s, i) then i
    else FindTrd(s, i + 1)
  }

  /** End of the maximal run of digits starting at `j` (the greedy `\d+`). */
  function DigitRunEnd(s: string, j: nat): (e: nat)
    requires j <= |s|
    ensures j <= e <= |s|
    ensures AllDigits(s[j..e])
    ensures e == |s| || !IsDigit(s[e])
    decreases |s| - j
  {
    if j == |s| || !IsDigit(s[j]) then j
    else
      var e := DigitRunEnd(s, j + 1);
      assert s[j..e] == [s[j]] + s[j + 1..e];
      e
  }

  /** The captured digits of the leftmost match, if any. */
  function TrdDigits(s: string): (r: Option<string>)
    ensures r.Some? ==> r.value != [] && AllDigits(r.value)
  {
    var p := FindTrd(s, 0);
    if p == |s| then None
    else Some(s[p + 4..DigitRunEnd(s, p + 4)])
  }

  /** The number of a trade id: `parseInt(match[1], 10)`, or 0 without a match. */
  function TradeNumber(s: string): nat
  {
    match TrdDigits(s)
    case None => 0
    case Some(ds) => DigitsValue(ds)
  }

  /** `parseTradeIdNumber`: 0 for a falsy or non-string id. `Math.max(0, _)`
      never changes a parsed digit run. */
  function ParseTradeIdNumber(v: JsValue): (n: nat)
    ensures !v.Str? ==> n == 0
    ensures v.Str? ==> n == TradeNumber(v.s)
  {
    if !Truthy(v) || !v.Str? then 0 else TradeNumber(v.s)
  }

  /** `trd-${n}`. */
  function FormatTradeId(n: nat): string
  {
    "trd-" + NatToString(n)
  }

  /** The running maximum of the `reduce`, starting from 0. */
  function MaxTradeNumber(ids: seq<string>): nat
  {
    if ids == [] then 0
    else
      var m := MaxTradeNumber(ids[..|ids| - 1]);
      var k := TradeNumber(ids[|ids| - 1]);
      if m < k then k else m
  }

  /** `getNextTradeNumber`. */
  function NextTradeNumber(ids: seq<string>): nat
  {
    MaxTradeNumber(ids) + 1
  }

  /** `getNextTradeIdFromList` and the `/next-id` endpoint. */
  function NextTradeId(ids: seq<string>): string
  {
    FormatTradeId(NextTradeNumber(ids))
  }

  // ---------------------------------------------------------------------
  // Properties
  // ---------------------------------------------------------------------

  /** The maximum bounds every parsed number and, when positive, is attained. */
  lemma {:induction false} MaxTradeNumberIsMax(ids: seq<string>)
    ensures forall i :: 0 <= i < |ids| ==> TradeNumber(ids[i]) <= MaxTradeNumber(ids)
    ensures MaxTradeNumber(ids) == 0 ||
            exists i :: 0 <= i < |ids| && TradeNumber(ids[i]) == MaxTradeNumber(ids)
  {
    if ids != [] {
      var init := ids[..|ids| - 1];
      MaxTradeNumberIsMax(init);
      assert forall i :: 0 <= i < |init| ==> ids[i] == init[i];
    }
  }

  /** The next number is above every existing one, at least 1, and the least
      number with both properties. */
  lemma NextTradeNumberAbove(ids: seq<string>)
    ensures NextTradeNumber(ids) >= 1
    ensures forall i :: 0 <= i < |ids| ==> TradeNumber(ids[i]) < NextTradeNumber(ids)
    ensures NextTradeNumber(ids) == 1 ||
            exists i :: 0 <= i < |ids| && TradeNumber(ids[i]) == NextTradeNumber(ids) - 1
  {
    MaxTradeNumberIsMax(ids);
  }

  /** With no ids, or none that matches, numbering starts at 1. */
  lemma {:induction false} NextTradeNumberWithoutMatches(ids: seq<string>)
    requires forall i :: 0 <= i < |ids| ==> TrdDigits(ids[i]).None?
    ensures NextTradeNumber(ids) == 1
  {
    if ids != [] {
      NextTradeNumberWithoutMatches(ids[..|ids| - 1]);
    }
  }

  /** When the leftmost match is at `p` and only digits follow it, the
      number is the value of those digits. */
  lemma NumberOfTrailingDigits(s: string, p: nat)
    requires p < |s| && TrdAt(s, p) && forall q :: 0 <= q < p ==> !TrdAt(s, q)
    requires AllDigits(s[p + 4..])
    ensures TradeNumber(s) == DigitsValue(s[p + 4..])
  {
    FindTrdSkips(s, 0, p);
    DigitRunAll(s, p + 4);
    assert s[p + 4..|s|] == s[p + 4..];
  }

  /** A four-character prefix that reads `trd-` ignoring case, followed by a
      numeral, parses as that numeral (`trd-7`, `TRD-42`). */
  lemma PrefixedNumeral(w: string, n: nat)
    requires |w| == 4 && LowerChar(w[0]) == 't' && LowerChar(w[1]) == 'r' &&
             LowerChar(w[2]) == 'd' && w[3] == '-'
    ensures TradeNumber(w + NatToString(n)) == n
  {
    var s := w + NatToString(n);
    assert s[4..] == NatToString(n);
    NumberOfTrailingDigits(s, 0);
    NatToStringValue(n);
  }

  /** A run of digits that reaches the end of the string is taken whole. */
  lemma {:induction false} DigitRunAll(s: string, j: nat)
    requires j <= |s| && AllDigits(s[j..])
    ensures DigitRunEnd(s, j) == |s|
    decreases |s| - j
  {
    if j < |s| {
      assert s[j] == s[j..][0];
      assert s[j + 1..] == s[j..][1..];
      DigitRunAll(s, j + 1);
    }
  }

  /** Formatting then parsing gives the number back. */
  lemma FormatTradeIdRoundTrip(n: nat)
    ensures TradeNumber(FormatTradeId(n)) == n
  {
    PrefixedNumeral("trd-", n);
  }

  /** No match starts inside `p` when `p` has none of its own and is
      followed by `trd-`: the pattern `trd-` has no proper border. */
  lemma NoStraddle(p: string, id: string)
    requires FindTrd(p, 0) == |p|
    requires |id| > 4 && id[0] == 't' && id[1] == 'r' && id[2] == 'd' && id[3] == '-'
    ensures forall q :: 0 <= q < |p| ==> !TrdAt(p + id, q)
  {
    var s := p + id;
    forall q | 0 <= q < |p| ensures !TrdAt(s, q) {
      assert !TrdAt(p, q);
      if q + 4 < |p| {
        assert s[q..q + 5] == p[q..q + 5];
      } else {
        assert s[|p|] == id[0] == 't';
      }
    }
  }

  /** An id after text with no match of its own keeps its number
      (`seed-trd-7` reads as 7). */
  lemma PrefixedTradeId(p: string, n: nat)
    requires FindTrd(p, 0) == |p|
    ensures TradeNumber(p + FormatTradeId(n)) == n
  {
    var id := FormatTradeId(n);
    var s := p + id;
    FormatTradeIdShape(n);
    NatToStringValue(n);
    NoStraddle(p, id);
    assert s[|p| + 4..] == id[4..];
    assert s[|p| + 4] == id[4..][0];
    assert TrdAt(s, |p|);
    NumberOfTrailingDigits(s, |p|);
  }

  /** `trd-` followed by the numeral. */
  lemma FormatTradeIdShape(n: nat)
    ensures var id := FormatTradeId(n);
      |id| > 4 && id[0] == 't' && id[1] == 'r' && id[2] == 'd' && id[3] == '-' && id[4..] == NatToString(n)
  {
  }

  /** `FindTrd` passes over positions without a match. */
  lemma {:induction false} FindTrdSkips(s: string, i: nat, p: nat)
    requires i <= p < |s| && TrdAt(s, p)
    requires forall q :: i <= q < p ==> !TrdAt(s, q)
    ensures FindTrd(s, i) == p
    decreases p - i
  {
    if i < p {
      FindTrdSkips(s, i + 1, p);
    }
  }

  /** A freshly allocated id is new: its number is above every existing
      number, so it equals none of the existing ids. */
  lemma NextTradeIdIsFresh(ids: seq<string>)
    ensures NextTradeId(ids) !in ids
    ensures TradeNumber(NextTradeId(ids)) == NextTradeNumber(ids)
  {
    NextTradeNumberAbove(ids);
    FormatTradeIdRoundTrip(NextTradeNumber(ids));
  }

  /** `trd-start` .. `trd-start+count-1`, the ids the seeder assigns. */
  function SeedTradeIds(start: nat, count: nat): (r: seq<string>)
    ensures |r| == count
    ensures forall i :: 0 <= i < count ==> r[i] == FormatTradeId(start + i)
  {
    if count == 0 then [] else SeedTradeIds(start, count - 1) + [FormatTradeId(start + count - 1)]
  }

  /** Seeding after the existing ids gives consecutive numbers, pairwise
      distinct ids, all above every existing number. */
  lemma SeedTradeIdsFresh(existing: seq<string>, count: nat)
    ensures forall i :: 0 <= i < count ==>
      TradeNumber(SeedTradeIds(NextTradeNumber(existing), count)[i]) == NextTradeNumber(existing) + i
    ensures forall i, j :: 0 <= i < j < count ==>
      SeedTradeIds(NextTradeNumber(existing), count)[i] != SeedTradeIds(NextTradeNumber(existing), count)[j]
    ensures forall i, k :: 0 <= i < count && 0 <= k < |existing| ==>
      TradeNumber(existing[k]) < TradeNumber(SeedTradeIds(NextTradeNumber(existing), count)[i])
  {
    var start := NextTradeNumber(existing);
    var r := SeedTradeIds(start, count);
    forall i | 0 <= i < count ensures TradeNumber(r[i]) == start + i {
      FormatTradeIdRoundTrip(start + i);
    }
    NextTradeNumberAbove(existing);
  }
}
