/** The JavaScript values that arrive in request bodies, query strings and
    rows, with the coercions the journal applies to them: truthiness, `??`,
    `String(x)`, `Number(x)`, `new Date(x)` and ObjectId casting. */
module JsValues {
  import opened Common
  import opened Strings

  /** A JSON-like value. Numbers are exact decimals (JSON text never carries
      NaN or Infinity); `Obj` is a plain object with its own keys. */
  datatype JsValue =
    | Undefined
    | Null
    | Bool(b: bool)
    | Num(x: real)
    | Str(s: string)
    | Arr(items: seq<JsValue>)
    | Obj(fields: map<string, JsValue>)

  /** The result of `Number(x)`: a finite number or NaN. */
  datatype JsNumber = Finite(x: real) | NaN

  /** `x === undefined || x === null`. */
  predicate IsNullish(v: JsValue)
  {
    v.Undefined? || v.Null?
  }

  /** JavaScript truthiness: `false`, `0`, `""`, `null` and `undefined` are falsy. */
  predicate Truthy(v: JsValue)
  {
    match v
    case Undefined => false
    case Null => false
    case Bool(b) => b
    case Num(x) => x != 0.0
    case Str(s) => s != []
    case Arr(_) => true
    case Obj(_) => true
  }

  /** `a ?? b`. */
  function Coalesce(a: JsValue, b: JsValue): (r: JsValue)
    ensures r == a || r == b
    ensures IsNullish(r) <==> IsNullish(a) && IsNullish(b)
    ensures !IsNullish(a) ==> r == a
  {
    if IsNullish(a) then b else a
  }

  /** `a || b`. */
  function Or(a: JsValue, b: JsValue): (r: JsValue)
    ensures r == a || r == b
    ensures Truthy(r) <==> Truthy(a) || Truthy(b)
    ensures Truthy(a) ==> r == a
  {
    if Truthy(a) then a else b
  }

  /** Property access `v[key]`: `undefined` when absent or when `v` is not an
      object (as with `x?.key` on a nullish `x`). */
  function Get(v: JsValue, key: string): JsValue
  {
    if v.Obj? && key in v.fields then v.fields[key] else Undefined
  }

  /** Up to `k` decimal digits of a fraction in [0, 1), stopping once it is exhausted. */
  function FracDigits(f: real, k: nat): (r: string)
    requires 0.0 <= f < 1.0
    ensures AllDigits(r)
    decreases k
  {
    if k == 0 || f == 0.0 then []
    else
      var d := (f * 10.0).Floor;
      [DigitChar(d)] + FracDigits(f * 10.0 - d as real, k - 1)
  }

  /** `String(x)` for a non-negative number. */
  function NonNegToString(x: real): (r: string)
    requires x >= 0.0
  {
    var ip := x.Floor;
    var f := x - ip as real;
    NatToString(ip) + (if f == 0.0 then [] else "." + FracDigits(f, 20))
  }

  /** `String(x)` for a number. */
  function NumberToString(x: real): string
  {
    if x < 0.0 then "-" + NonNegToString(-x) else NonNegToString(x)
  }

  /** `String(v)`. Array elements that are null or undefined print as "". */
  function ToString(v: JsValue): string
  {
    match v
    case Undefined => "undefined"
    case Null => "null"
    case Bool(b) => if b then "true" else "false"
    case Num(x) => NumberToString(x)
    case Str(s) => s
    case Arr(items) => Join(seq(|items|, i requires 0 <= i < |items| =>
                               if IsNullish(items[i]) then "" else ToString(items[i])), ",")
    case Obj(_) => "[object Object]"
  }

  /** Position of the first `c` in `s`, or `|s|` when there is none. */
  function IndexOf(s: string, c: char): (i: nat)
    ensures i <= |s|
    ensures c !in s[..i]
    ensures i < |s| ==> s[i] == c
  {
    if s == [] then 0 else if s[0] == c then 0 else 1 + IndexOf(s[1..], c)
  }

  function Pow10(k: nat): (r: nat)
    ensures r >= 1
  {
    if k == 0 then 1 else 10 * Pow10(k - 1)
  }

  /** Unsigned decimal literal `ddd`, `ddd.ddd`, `ddd.` or `.ddd`. */
  function ParseUnsigned(t: string): Option<real>
  {
    var i := IndexOf(t, '.');
    var ip := t[..i];
    var fp := if i < |t| then t[i + 1..] else [];
    if AllDigits(ip) && AllDigits(fp) && (ip != [] || fp != []) then
      Some(DigitsValue(ip) as real + DigitsValue(fp) as real / Pow10(|fp|) as real)
    else None
  }

  /** `Number(s)` for a string: surrounding white space is ignored, the empty
      string is 0, an optional sign precedes a decimal literal, and anything
      else is NaN. */
  function StringToNumber(s: string): JsNumber
  {
    var t := Trim(s);
    if t == [] then Finite(0.0)
    else
      var neg := t[0] == '-';
      var body := if t[0] == '-' || t[0] == '+' then t[1..] else t;
      match ParseUnsigned(body)
      case Some(x) => Finite(if neg then -x else x)
      case None => NaN
  }

  /** `Number(v)`. */
  function ToNumber(v: JsValue): JsNumber
  {
    match v
    case Undefined => NaN
    case Null => Finite(0.0)
    case Bool(b) => Finite(if b then 1.0 else 0.0)
    case Num(x) => Finite(x)
    case Str(s) => StringToNumber(s)
    case Arr(_) => StringToNumber(ToString(v))
    case Obj(_) => NaN
  }

  lemma DigitsAreTrimmed(s: string)
    requires s != [] && AllDigits(s)
    ensures IsTrimmed(s) && Trim(s) == s
  {
    TrimOfTrimmed(s);
  }

  lemma IndexOfAbsent(s: string, c: char)
    requires c !in s
    ensures IndexOf(s, c) == |s|
  {
  }

  /** A plain digit string parses as its decimal value. */
  lemma ParseUnsignedDigits(t: string)
    requires t != [] && AllDigits(t)
    ensures ParseUnsigned(t) == Some(DigitsValue(t) as real)
  {
    assert '.' !in t by {
      forall i | 0 <= i < |t| ensures t[i] != '.' {
        assert IsDigit(t[i]);
      }
    }
    IndexOfAbsent(t, '.');
    WholeNumeral(t);
    EmptyFraction(DigitsValue(t) as real);
  }

  /** A numeral without a point has an integer part of all of it and an
      empty fraction. */
  lemma WholeNumeral(t: string)
    requires IndexOf(t, '.') == |t| && t != [] && AllDigits(t)
    ensures ParseUnsigned(t) == Some(DigitsValue(t) as real + DigitsValue([]) as real / Pow10(0) as real)
  {
    assert t[..|t|] == t;
  }

  /** An empty fraction adds nothing. */
  lemma EmptyFraction(v: real)
    ensures v + DigitsValue([]) as real / Pow10(0) as real == v
  {
  }

  /** A printed natural number reads back as itself. */
  lemma NatNumeralRoundTrip(n: nat)
    ensures StringToNumber(NatToString(n)) == Finite(n as real)
  {
    var t := NatToString(n);
    DigitsAreTrimmed(t);
    ParseUnsignedDigits(t);
    NatToStringValue(n);
  }

  /** A minus sign followed by digits reads as the negated digit value. */
  lemma SignedDigits(m: string)
    requires |m| >= 2 && m[0] == '-' && AllDigits(m[1..])
    ensures StringToNumber(m) == Finite(-(DigitsValue(m[1..]) as real))
  {
    assert m[|m| - 1] == m[1..][|m| - 2];
    assert IsTrimmed(m);
    TrimOfTrimmed(m);
    ParseUnsignedDigits(m[1..]);
  }

  /** A negative numeral reads back as its value. */
  lemma NegNumeralRoundTrip(n: nat)
    ensures StringToNumber("-" + NatToString(n)) == Finite(-(n as real))
  {
    var t := NatToString(n);
    var m := "-" + t;
    assert m[1..] == t;
    SignedDigits(m);
    NatToStringValue(n);
  }

  /** Integers print without a fractional part. */
  lemma IntegerToString(k: int)
    ensures NumberToString(k as real) == IntToString(k)
  {
    if k < 0 {
      assert (-(k as real)).Floor == -k;
    } else {
      assert (k as real).Floor == k;
    }
  }

  /** A printed integer reads back as itself. */
  lemma IntNumeralRoundTrip(k: int)
    ensures StringToNumber(IntToString(k)) == Finite(k as real)
  {
    if k >= 0 {
      assert IntToString(k) == NatToString(k);
      NatNumeralRoundTrip(k);
    } else {
      assert IntToString(k) == "-" + NatToString(-k);
      NegNumeralRoundTrip(-k);
    }
  }

  /** `Number(String(x))` is `x` for every integer. */
  lemma IntegerRoundTrip(k: int)
    ensures ToNumber(Str(ToString(Num(k as real)))) == Finite(k as real)
  {
    IntegerToString(k);
    IntNumeralRoundTrip(k);
  }

  /** ObjectId casting (`new ObjectId(v)` / Mongoose casting of an id): ids
      are written as decimal numerals here; anything else fails the cast. */
  function CastObjectId(v: JsValue): (r: Option<ObjectId>)
    ensures r.Some? <==> v.Str? && v.s != [] && AllDigits(v.s)
  {
    if v.Str? && v.s != [] && AllDigits(v.s) then
      Some(DigitsValue(v.s))
    else None
  }

  /** An id written out as a numeral casts back to itself. */
  lemma CastObjectIdRoundTrip(id: ObjectId)
    ensures CastObjectId(Str(NatToString(id))) == Some(id)
  {
    NatToStringValue(id);
  }

  /** The date-string parser of the runtime, as a parameter: milliseconds
      since the epoch, or `None` for an invalid date. */
  type DateParser = string -> Option<int>

  /** Largest absolute time value a `Date` can hold (ECMAScript TimeClip). */
  const MaxTime: int := 8_640_000_000_000_000

  /** `new Date(v).getTime()`, or `None` for an invalid date. A number is
      truncated toward zero; `null` is the epoch; `undefined` is invalid. */
  function DateValue(v: JsValue, parse: DateParser): (r: Option<int>)
    ensures v.Undefined? ==> r.None?
    ensures v.Null? ==> r == Some(0)
    ensures v.Str? ==> r == parse(v.s)
  {
    match v
    case Undefined => None
    case Null => Some(0)
    case Bool(b) => Some(if b then 1 else 0)
    case Num(x) =>
      var t := if x >= 0.0 then x.Floor else -((-x).Floor);
      if -MaxTime <= t <= MaxTime then Some(t) else None
    case Str(s) => parse(s)
    case Arr(_) => parse(ToString(v))
    case Obj(_) => parse(ToString(v))
  }
}
