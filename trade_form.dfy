/** The trade form of the front end (frontend/src/App.tsx): the automatic
    risk:reward and profit fields computed from the typed prices, and the
    comma-separated tag field. */
module TradeForm {
  import opened Common
  import opened Strings
  import opened JsValues
  import opened TagHelpers
  import opened NamedDocs

  // ---------------------------------------------------------------------
  // Prices
  // ---------------------------------------------------------------------

  /** `parseNumber` as written: `Number(value)` when finite, else null.
      `Number` reads a blank string as 0, so an empty field is 0, not null. */
  function ParseNumber(value: string): (r: Option<real>)
    ensures r.None? <==> StringToNumber(value).NaN?
    ensures Trim(value) == [] ==> r == Some(0.0)
  {
    match StringToNumber(value)
    case Finite(x) => Some(x)
    case NaN => None
  }

  /** The corrected reading of a price field, the one the form evidently
      intends: a blank field is missing. It differs from `ParseNumber`
      exactly on blank fields, and agrees with it wherever it reads a number. */
  function ParseField(value: string): (r: Option<real>)
    ensures r.None? <==> Trim(value) == [] || StringToNumber(value).NaN?
    ensures r.Some? ==> r == ParseNumber(value)
    ensures r != ParseNumber(value) <==> Trim(value) == []
  {
    if Trim(value) == [] then None else ParseNumber(value)
  }

  predicate IsLong(direction: string)
  {
    direction == "Long"
  }

  /** What the trade loses if the stop is hit: `entry - stop` long, the
      mirror image otherwise. */
  function Risk(direction: string, entry: real, stop: real): real
  {
    if IsLong(direction) then entry - stop else stop - entry
  }

  /** What the trade gains at the target. */
  function Reward(direction: string, entry: real, target: real): real
  {
    if IsLong(direction) then target - entry else entry - target
  }

  /** `computeRiskReward`: "" (`None`) when a price is missing or the risk is
      not positive; otherwise the reward per unit of risk. */
  function ComputeRiskReward(direction: string, entry: Option<real>, target: Option<real>, stop: Option<real>): (r: Option<real>)
    ensures r.None? <==> (entry.None? || target.None? || stop.None? ||
                          Risk(direction, entry.value, stop.value) <= 0.0)
    ensures r.Some? ==> r.value * Risk(direction, entry.value, stop.value) == Reward(direction, entry.value, target.value)
  {
    if entry.None? || target.None? || stop.None? then None
    else
      var risk := Risk(direction, entry.value, stop.value);
      if risk <= 0.0 then None else Some(Reward(direction, entry.value, target.value) / risk)
  }

  /** A short trade is a long trade with every price negated. */
  lemma ShortMirrorsLong(entry: real, target: real, stop: real)
    ensures ComputeRiskReward("Short", Some(entry), Some(target), Some(stop)) ==
            ComputeRiskReward("Long", Some(-entry), Some(-target), Some(-stop))
  {
  }

  /** The ratio is positive exactly when the target lies on the profitable
      side of the entry. */
  lemma RiskRewardSign(direction: string, entry: real, target: real, stop: real)
    requires ComputeRiskReward(direction, Some(entry), Some(target), Some(stop)).Some?
    ensures ComputeRiskReward(direction, Some(entry), Some(target), Some(stop)).value > 0.0 <==>
            Reward(direction, entry, target) > 0.0
  {
    var risk := Risk(direction, entry, stop);
    var rr := ComputeRiskReward(direction, Some(entry), Some(target), Some(stop)).value;
    assert rr * risk == Reward(direction, entry, target);
    if rr > 0.0 {
      assert rr * risk > 0.0;
    } else {
      assert rr * risk <= 0.0;
    }
  }

  /** The automatic profit: "" when entry or exit is missing; otherwise the
      price move in the trade's favour times the lot size, which defaults
      to 1 when missing. Fees are not subtracted. */
  function Pnl(direction: string, entry: Option<real>, exit: Option<real>, lot: Option<real>): (r: Option<real>)
    ensures r.None? <==> entry.None? || exit.None?
  {
    if entry.None? || exit.None? then None
    else Some(Reward(direction, entry.value, exit.value) * lot.GetOr(1.0))
  }

  /** Long and short profits are opposite, and with a positive lot size a
      long trade profits exactly when the exit is above the entry. */
  lemma PnlDirection(entry: real, exit: real, lot: real)
    ensures Pnl("Short", Some(entry), Some(exit), Some(lot)).value ==
            -Pnl("Long", Some(entry), Some(exit), Some(lot)).value
    ensures lot > 0.0 ==> (Pnl("Long", Some(entry), Some(exit), Some(lot)).value > 0.0 <==> exit > entry)
    ensures Pnl("Long", Some(entry), Some(exit), None).value == exit - entry
  {
    if lot > 0.0 {
      if exit > entry {
        assert (exit - entry) * lot > 0.0;
      } else {
        assert (exit - entry) * lot <= 0.0;
      }
    }
  }

  /** A lot size of 0 makes every profit 0. */
  lemma PnlZeroLot(direction: string, entry: real, exit: real)
    ensures Pnl(direction, Some(entry), Some(exit), Some(0.0)) == Some(0.0)
  {
    var move := Reward(direction, entry, exit);
    assert Some(0.0).GetOr(1.0) == 0.0;
    assert move * 0.0 == 0.0;
  }

  /** A lot size of 1, or none, leaves the price move as the profit. */
  lemma PnlUnitLot(direction: string, entry: real, exit: real)
    ensures Pnl(direction, Some(entry), Some(exit), Some(1.0)) == Some(Reward(direction, entry, exit))
    ensures Pnl(direction, Some(entry), Some(exit), None) == Some(Reward(direction, entry, exit))
  {
    var move := Reward(direction, entry, exit);
    assert Some(1.0).GetOr(1.0) == 1.0 && None.GetOr(1.0) == 1.0;
    assert move * 1.0 == move;
  }

  /** The text fields the effect reads. */
  datatype PriceForm = PriceForm(direction: string, entryPrice: string, exitPrice: string,
                                 takeProfit: string, stopLoss: string, lotSize: string)

  /** Which of the three derived fields the user has typed over. */
  datatype Manual = Manual(expected: bool, actual: bool, pnl: bool)

  /** The derived fields the effect writes; `Keep` for a field typed over,
      `Set(None)` for "". */
  datatype AutoFill = AutoFill(expected: Write<Option<real>>, actual: Write<Option<real>>, pnl: Write<Option<real>>)

  /** The effect, for a given reading of the price fields. */
  function AutoFillWith(parse: string -> Option<real>, f: PriceForm, m: Manual): (r: AutoFill)
    ensures m.expected <==> r.expected.Keep?
    ensures m.actual <==> r.actual.Keep?
    ensures m.pnl <==> r.pnl.Keep?
  {
    var entry, stop, target, exit := parse(f.entryPrice), parse(f.stopLoss), parse(f.takeProfit), parse(f.exitPrice);
    var lot := parse(f.lotSize);
    AutoFill(
      if m.expected then Keep else Set(ComputeRiskReward(f.direction, entry, target, stop)),
      if m.actual then Keep else Set(ComputeRiskReward(f.direction, entry, exit, stop)),
      if m.pnl then Keep else Set(Pnl(f.direction, entry, exit, lot)))
  }

  /** The profit field the effect writes, once the fields are read. */
  lemma AutoPnlField(parse: string -> Option<real>, f: PriceForm)
    ensures AutoFillWith(parse, f, Manual(false, false, false)).pnl ==
            Set(Pnl(f.direction, parse(f.entryPrice), parse(f.exitPrice), parse(f.lotSize)))
  {
  }

  /** The effect as written, reading each field with `parseNumber`. */
  function AutoFillAsWritten(f: PriceForm, m: Manual): AutoFill
  {
    AutoFillWith(ParseNumber, f, m)
  }

  /** The effect with blank fields read as missing. */
  function AutoFillIntended(f: PriceForm, m: Manual): AutoFill
  {
    AutoFillWith(ParseField, f, m)
  }

  lemma AsWrittenPnl(f: PriceForm)
    ensures AutoFillAsWritten(f, Manual(false, false, false)).pnl ==
            Set(Pnl(f.direction, ParseNumber(f.entryPrice), ParseNumber(f.exitPrice), ParseNumber(f.lotSize)))
  {
    AutoPnlField(ParseNumber, f);
  }

  lemma IntendedPnl(f: PriceForm)
    ensures AutoFillIntended(f, Manual(false, false, false)).pnl ==
            Set(Pnl(f.direction, ParseField(f.entryPrice), ParseField(f.exitPrice), ParseField(f.lotSize)))
  {
    AutoPnlField(ParseField, f);
  }

  /** A printed natural reads as itself under both readings. */
  lemma ParseNumeral(n: nat)
    ensures ParseNumber(NatToString(n)) == Some(n as real)
    ensures ParseField(NatToString(n)) == Some(n as real)
  {
    NatNumeralRoundTrip(n);
    DigitsAreTrimmed(NatToString(n));
  }

  /** As written, an empty lot size reads as 0 rather than falling back to
      1, so every automatic profit is 0; and an empty exit reads as a
      price of 0, so a long trade shows its whole entry as a loss. */
  lemma BlankFieldsReadAsZero(entry: nat, exit: nat)
    ensures AutoFillAsWritten(PriceForm("Long", NatToString(entry), NatToString(exit), "", "", ""),
                              Manual(false, false, false)).pnl == Set(Some(0.0))
    ensures AutoFillAsWritten(PriceForm("Long", NatToString(entry), "", "", "", NatToString(1)),
                              Manual(false, false, false)).pnl == Set(Some(-(entry as real)))
  {
    ParseNumeral(entry);
    ParseNumeral(exit);
    ParseNumeral(1);
    assert ParseNumber("") == Some(0.0);
    AsWrittenPnl(PriceForm("Long", NatToString(entry), NatToString(exit), "", "", ""));
    AsWrittenPnl(PriceForm("Long", NatToString(entry), "", "", "", NatToString(1)));
    PnlZeroLot("Long", entry as real, exit as real);
    PnlUnitLot("Long", entry as real, 0.0);
  }

  /** With blank fields read as missing, the three derived fields are ""
      until the prices they need are typed, and the lot size defaults to 1. */
  lemma AutoFillIntendedBlanks(f: PriceForm)
    ensures var r := AutoFillIntended(f, Manual(false, false, false));
      (Trim(f.entryPrice) == [] || Trim(f.exitPrice) == [] ==> r.pnl == Set(None)) &&
      (Trim(f.entryPrice) == [] || Trim(f.takeProfit) == [] || Trim(f.stopLoss) == [] ==> r.expected == Set(None)) &&
      (Trim(f.entryPrice) == [] || Trim(f.exitPrice) == [] || Trim(f.stopLoss) == [] ==> r.actual == Set(None))
    ensures var entry, exit := ParseField(f.entryPrice), ParseField(f.exitPrice);
      Trim(f.lotSize) == [] && entry.Some? && exit.Some? ==>
      AutoFillIntended(f, Manual(false, false, false)).pnl == Set(Some(Reward(f.direction, entry.value, exit.value)))
  {
  }

  /** On the example that shows the discrepancy, the intended effect gives
      the price move itself. */
  lemma BlankLotDefaultsToOne(entry: nat, exit: nat)
    ensures AutoFillIntended(PriceForm("Long", NatToString(entry), NatToString(exit), "", "", ""),
                             Manual(false, false, false)).pnl == Set(Some(exit as real - entry as real))
  {
    ParseNumeral(entry);
    ParseNumeral(exit);
    assert ParseField("") == None;
    IntendedPnl(PriceForm("Long", NatToString(entry), NatToString(exit), "", "", ""));
    PnlUnitLot("Long", entry as real, exit as real);
  }

  // ---------------------------------------------------------------------
  // The tag field
  // ---------------------------------------------------------------------

  /** `normalizeTag`: trim, then collapse white-space runs. It is the tag
      index's normalisation on a string. */
  function NormalizeTag(value: string): (r: string)
    ensures IsNormalName(r)
  {
    NormalizeTagName(Str(value))
  }

  predicate NonEmpty(t: string)
  {
    t != []
  }

  /** `parts.map(normalizeTag)`. */
  function NormalizeTags(parts: seq<string>): (r: seq<string>)
    ensures |r| == |parts| && forall k :: 0 <= k < |parts| ==> r[k] == NormalizeTag(parts[k])
    ensures forall k :: 0 <= k < |r| ==> IsNormalName(r[k])
  {
    seq(|parts|, k requires 0 <= k < |parts| => NormalizeTag(parts[k]))
  }

  /** The tags in the form's text field: split on ",", each normalised,
      empty ones dropped. */
  function FieldTags(field: string): (r: seq<string>)
    ensures forall k :: 0 <= k < |r| ==> r[k] != []
  {
    var r := Filter(NormalizeTags(Split(field, ',')), NonEmpty);
    assert forall k :: 0 <= k < |r| ==> r[k] in r;
    r
  }

  /** Each tag read from the field is a normal, comma-free name. */
  lemma FieldTagsClean(field: string)
    ensures forall k :: 0 <= k < |FieldTags(field)| ==> IsNormalName(FieldTags(field)[k]) && ',' !in FieldTags(field)[k]
  {
    var parts := Split(field, ',');
    var names := NormalizeTags(parts);
    var r := FieldTags(field);
    forall k | 0 <= k < |r| ensures IsNormalName(r[k]) && ',' !in r[k] {
      assert r[k] in names;
      var j :| 0 <= j < |parts| && names[j] == r[k];
      NormalizeKeepsCommaFree(parts[j]);
    }
  }

  /** `addTagToField`: `None` when nothing changes (a blank tag or one
      already in the field), else the field's tags with the new one last,
      joined by ", ". */
  function AddTagToField(value: string, field: string): (r: Option<string>)
    ensures r.None? <==> NormalizeTag(value) == [] || NormalizeTag(value) in FieldTags(field)
  {
    var tag := NormalizeTag(value);
    if tag == [] then None
    else
      var current := FieldTags(field);
      if tag in current then None else Some(Join(current + [tag], ", "))
  }

  /** Collapsing white space only ever writes spaces and the input's own
      characters. */
  lemma {:induction false} CollapseWsChars(s: string, c: char)
    requires c != ' ' && c !in s
    ensures c !in CollapseWs(s)
    decreases |s|
  {
    if s != [] {
      if IsWs(s[0]) {
        TrimStartShrinks(s);
        CollapseWsChars(TrimStart(s), c);
      } else {
        CollapseWsChars(s[1..], c);
      }
    }
  }

  /** Normalising keeps a comma-free string comma-free. */
  lemma NormalizeKeepsCommaFree(s: string)
    requires ',' !in s
    ensures ',' !in NormalizeTag(s)
  {
    var t := Trim(s);
    TrimProperties(s);
    assert ',' !in t;
    CollapseWsChars(t, ',');
  }

  /** The pieces of `pre + cs.join(", ")` split on ",": the first carries
      `pre`, every later one a leading space. */
  function SpacedParts(pre: string, cs: seq<string>): (r: seq<string>)
    requires cs != []
    ensures |r| == |cs| && r[0] == pre + cs[0]
    ensures forall k :: 1 <= k < |cs| ==> r[k] == " " + cs[k]
  {
    [pre + cs[0]] + seq(|cs| - 1, k requires 0 <= k < |cs| - 1 => " " + cs[k + 1])
  }

  lemma {:induction false} JoinCommaSplit(pre: string, cs: seq<string>)
    requires cs != [] && ',' !in pre
    requires forall k :: 0 <= k < |cs| ==> ',' !in cs[k]
    ensures Split(pre + Join(cs, ", "), ',') == SpacedParts(pre, cs)
    decreases |cs|
  {
    if |cs| == 1 {
      SplitNoSep(pre + cs[0], ',');
    } else {
      var rest := Join(cs[1..], ", ");
      assert pre + Join(cs, ", ") == (pre + cs[0]) + [','] + (" " + rest);
      SplitPrefix(pre + cs[0], " " + rest, ',');
      JoinCommaSplit(" ", cs[1..]);
      assert SpacedParts(pre, cs) == [pre + cs[0]] + SpacedParts(" ", cs[1..]);
    }
  }

  /** A normal name after a space normalises back to itself. */
  lemma SpacedNormal(pre: string, c: string)
    requires pre == "" || pre == " "
    requires c != [] && IsNormalName(c)
    ensures NormalizeTag(pre + c) == c
  {
    assert TrimStart(pre + c) == c by {
      if pre == " " { assert (pre + c)[1..] == c; }
    }
    assert Trim(pre + c) == c;
    NormalNameFixed(c);
  }

  /** Normalising the pieces gives back the clean tags. */
  lemma NormalizeSpacedParts(cs: seq<string>)
    requires cs != []
    requires forall k :: 0 <= k < |cs| ==> cs[k] != [] && IsNormalName(cs[k])
    ensures NormalizeTags(SpacedParts("", cs)) == cs
  {
    var parts := SpacedParts("", cs);
    var names := NormalizeTags(parts);
    forall k | 0 <= k < |cs| ensures names[k] == cs[k] {
      SpacedNormal(if k == 0 then "" else " ", cs[k]);
    }
  }

  /** An empty field holds no tags. */
  lemma FieldTagsEmpty()
    ensures FieldTags([]) == []
  {
    assert Split([], ',') == [[]];
    assert NormalizeTags([[]]) == [[]] by { TrimOfTrimmed([]); }
  }

  /** A list of clean, comma-free tags written to the field reads back as
      that list. */
  lemma FieldTagsOfJoin(cs: seq<string>)
    requires forall k :: 0 <= k < |cs| ==> cs[k] != [] && IsNormalName(cs[k]) && ',' !in cs[k]
    ensures FieldTags(Join(cs, ", ")) == cs
  {
    if cs == [] {
      FieldTagsEmpty();
    } else {
      JoinCommaSplit("", cs);
      assert "" + Join(cs, ", ") == Join(cs, ", ");
      NormalizeSpacedParts(cs);
      FilterKeepsAll(cs, NonEmpty);
    }
  }

  /** Adding a comma-free tag appends it to the field's tags; adding it a
      second time changes nothing. A tag containing a comma would be read
      back as several tags. */
  lemma AddTagRoundTrip(value: string, field: string)
    requires ',' !in NormalizeTag(value)
    requires AddTagToField(value, field).Some?
    ensures FieldTags(AddTagToField(value, field).value) == FieldTags(field) + [NormalizeTag(value)]
    ensures AddTagToField(value, AddTagToField(value, field).value).None?
  {
    var tag := NormalizeTag(value);
    var current := FieldTags(field);
    var next := AddTagToField(value, field).value;
    assert next == Join(current + [tag], ", ");
    FieldTagsClean(field);
    AppendedTagReadsBack(current, tag);
    assert tag in FieldTags(next);
  }

  lemma AppendedTagReadsBack(current: seq<string>, tag: string)
    requires forall k :: 0 <= k < |current| ==> current[k] != [] && IsNormalName(current[k]) && ',' !in current[k]
    requires tag != [] && IsNormalName(tag) && ',' !in tag
    ensures FieldTags(Join(current + [tag], ", ")) == current + [tag]
  {
    var cs := current + [tag];
    assert forall k :: 0 <= k < |cs| ==> cs[k] != [] && IsNormalName(cs[k]) && ',' !in cs[k] by {
      forall k | 0 <= k < |cs| ensures cs[k] != [] && IsNormalName(cs[k]) && ',' !in cs[k] {
        if k < |current| { assert cs[k] == current[k]; }
      }
    }
    FieldTagsOfJoin(cs);
  }
}
