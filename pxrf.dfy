/**
 * Canonical pXRF reading numbers (utils/pxrf.py): a token such as "12.0" or "007" is written
 * as the integer it denotes ("12", "7"); anything else is kept, trimmed. A value may hold a
 * comma-separated list of tokens. `None` and NaN are both `None` here.
 */
module Pxrf {
  import opened Wrappers
  import opened PyStr
  import opened PyNum

  /** `text.replace(".", "", 1).replace("-", "", 1)`. */
  function NumericCandidate(text: string): string {
    RemoveFirst(RemoveFirst(text, '.'), '-')
  }

  /** `str(int(float(text)))` when the candidate is all digits and `float(text)` is integral. */
  function IntegralText(text: string): Option<string> {
    if IsDigits(NumericCandidate(text)) then
      match ParseDecimal(text)
      case Some(d) => if IsIntegral(d) then Some(IntToString(Truncate(d))) else None
      case None => None
    else None
  }

  /** `normalize_pxrf_token`. */
  function NormalizeToken(token: Option<string>): (r: string)
    ensures r == [] <==> token.None? || AllSpace(token.value)
    ensures IsStripped(r)
  {
    match token
    case None => ""
    case Some(t) =>
      StripProps(t);
      var text := Strip(t);
      if text == [] then ""
      else match IntegralText(text)
        case Some(n) => IntToStringShape(Truncate(ParseDecimal(text).value)); n
        case None => text
  }

  /** The two outcomes of `normalize_pxrf_token` on a present, non-blank token. */
  lemma TokenRule(t: string)
    requires !AllSpace(t)
    ensures var text, r := Strip(t), NormalizeToken(Some(t));
      if IsDigits(NumericCandidate(text)) && ParseDecimal(text).Some? && IsIntegral(ParseDecimal(text).value)
      then r == IntToString(Truncate(ParseDecimal(text).value))
        && Value(ParseDecimal(text).value) == Truncate(ParseDecimal(text).value) as real
      else r == text
  {
    StripProps(t);
    var text := Strip(t);
    if ParseDecimal(text).Some? {
      TruncateTowardZero(ParseDecimal(text).value);
    }
  }

  /** An integer written by `str(int)` has no leading zeros, no fraction and at most a minus sign. */
  predicate IsIntegerText(s: string) {
    (s != [] && s[0] == '-' && CanonicalDigits(s[1..]) && s[1..] != "0") || CanonicalDigits(s)
  }

  lemma IntToStringIsIntegerText(i: int)
    ensures IsIntegerText(IntToString(i))
  {
    if i < 0 {
      NatToStringCanonical(-i);
      NatToStringValue(-i);
      assert IntToString(i)[1..] == NatToString(-i);
    } else {
      NatToStringCanonical(i);
    }
  }

  /** A rewritten token is always in integer form, e.g. "12.0" becomes "12" and "007" becomes "7". */
  lemma RewrittenIsInteger(t: string)
    requires NormalizeToken(Some(t)) != Strip(t)
    ensures IsIntegerText(NormalizeToken(Some(t)))
  {
    StripProps(t);
    var text := Strip(t);
    if text != [] && IntegralText(text).Some? {
      IntToStringIsIntegerText(Truncate(ParseDecimal(text).value));
    }
  }

  lemma IntegerTextIsFixed(i: int)
    ensures IntegralText(IntToString(i)) == Some(IntToString(i))
  {
    var d := IntegerDecimal(i);
    IntegerCandidate(i);
    assert Truncate(d) == i;
  }

  /** `IntToString(i)` parses to the point-free decimal of its magnitude's digits. */
  lemma IntegerDecimal(i: int) returns (d: Decimal)
    ensures d.Valid() && d.fracDigits == [] && d.intDigits == NatToString(if i < 0 then -i else i)
    ensures ParseDecimal(IntToString(i)) == Some(d)
    ensures Truncate(d) == i
  {
    var n: nat := if i < 0 then -i else i;
    var digits := NatToString(n);
    NatToStringValue(n);
    d := Decimal(if i < 0 then Minus else NoSign, digits, false, "");
    assert Render(d) == IntToString(i);
    RenderThenParse(d);
  }

  /** The numeric candidate of `IntToString(i)` is the digits of its magnitude. */
  lemma IntegerCandidate(i: int)
    ensures NumericCandidate(IntToString(i)) == NatToString(if i < 0 then -i else i)
  {
    var n: nat := if i < 0 then -i else i;
    var digits := NatToString(n);
    assert '.' !in IntToString(i) by {
      IntToStringShape(i);
    }
    if i < 0 {
      assert IntToString(i) == "-" + digits;
      assert RemoveFirst("-" + digits, '-') == digits;
    }
    RemoveFirstAbsent(IntToString(i), '.');
    NatToStringCanonical(n);
    assert '-' !in digits;
    RemoveFirstAbsent(digits, '-');
  }

  /** `normalize_pxrf_token` is idempotent. */
  lemma TokenIdempotent(t: Option<string>)
    ensures NormalizeToken(Some(NormalizeToken(t))) == NormalizeToken(t)
  {
    var r := NormalizeToken(t);
    StripOfStripped(r);
    if t.Some? && !AllSpace(t.value) {
      var text := Strip(t.value);
      StripProps(t.value);
      match IntegralText(text)
      case Some(n) =>
        IntegerTextIsFixed(Truncate(ParseDecimal(text).value));
      case None =>
    }
  }

  lemma TokenKeepsOut(t: string, c: char)
    requires c !in t && c != '-' && !IsDigit(c)
    ensures c !in NormalizeToken(Some(t))
  {
    StripKeepsOut(t, c);
    StripProps(t);
    var text := Strip(t);
    if text != [] && IntegralText(text).Some? {
      var i := Truncate(ParseDecimal(text).value);
      IntToStringIsIntegerText(i);
      var n: nat := if i < 0 then -i else i;
      NatToStringCanonical(n);
      assert c !in NatToString(n);
      if i < 0 {
        assert IntToString(i) == "-" + NatToString(n);
      }
    }
  }

  /** The non-empty normalised tokens of the comma pieces, in their original order. */
  function NormalizedTokens(parts: seq<string>): seq<string>
    decreases |parts|
  {
    if parts == [] then []
    else
      var t := NormalizeToken(Some(parts[0]));
      (if t == [] then [] else [t]) + NormalizedTokens(parts[1..])
  }

  /** A reading token in final form: non-empty, comma-free and its own normalisation. */
  predicate IsCanonicalToken(t: string) {
    t != [] && ',' !in t && NormalizeToken(Some(t)) == t
  }

  lemma {:induction false} NormalizedTokensCanonical(parts: seq<string>)
    requires forall i :: 0 <= i < |parts| ==> ',' !in parts[i]
    ensures forall i :: 0 <= i < |NormalizedTokens(parts)| ==> IsCanonicalToken(NormalizedTokens(parts)[i])
    decreases |parts|
  {
    if parts != [] {
      NormalizedTokensCanonical(parts[1..]);
      TokenKeepsOut(parts[0], ',');
      TokenIdempotent(Some(parts[0]));
    }
  }

  /** `normalize_pxrf_value`. */
  function NormalizeValue(v: Option<string>): string {
    match v
    case None => ""
    case Some(s) =>
      var text := Strip(s);
      if text == [] then ""
      else if ',' !in text then NormalizeToken(Some(text))
      else Join(NormalizedTokens(Split(text, ',')), ',')
  }

  /** The normalised tokens a value stands for, in order; each in final form. */
  function ValueTokens(v: Option<string>): (ts: seq<string>)
    ensures forall i :: 0 <= i < |ts| ==> IsCanonicalToken(ts[i])
  {
    match v
    case None => []
    case Some(s) =>
      var text := Strip(s);
      if text == [] then []
      else if ',' !in text then
        var t := NormalizeToken(Some(text));
        TokenKeepsOut(text, ',');
        TokenIdempotent(Some(text));
        if t == [] then [] else [t]
      else
        SplitPiecesFree(text, ',');
        NormalizedTokensCanonical(Split(text, ','));
        NormalizedTokens(Split(text, ','))
  }

  lemma JoinOfTokens(v: Option<string>)
    ensures NormalizeValue(v) == Join(ValueTokens(v), ',')
  {
  }

  /**
   * The output of `normalize_pxrf_value` has no empty segment (no leading, trailing or doubled
   * comma), and its segments are exactly the normalised non-empty tokens of the input, in order.
   */
  lemma {:induction false} ValueSegments(v: Option<string>)
    requires NormalizeValue(v) != []
    ensures Split(NormalizeValue(v), ',') == ValueTokens(v)
    ensures forall i :: 0 <= i < |Split(NormalizeValue(v), ',')| ==> Split(NormalizeValue(v), ',')[i] != []
  {
    var ts := ValueTokens(v);
    JoinOfTokens(v);
    SplitJoin(ts, ',');
  }

  /** `normalize_pxrf_value` is idempotent. */
  lemma {:induction false} ValueIdempotent(v: Option<string>)
    ensures NormalizeValue(Some(NormalizeValue(v))) == NormalizeValue(v)
  {
    var r := NormalizeValue(v);
    var ts := ValueTokens(v);
    JoinOfTokens(v);
    if r != [] {
      assert IsStripped(r) by {
        if |ts| == 1 {
        } else {
          assert r == ts[0] + [','] + Join(ts[1..], ',');
          assert r[0] == ts[0][0];
          StripProps(ts[0]);
          LastOfJoin(ts, ',');
          StripProps(ts[|ts| - 1]);
        }
      }
      StripOfStripped(r);
      if ',' in r {
        SplitJoin(ts, ',');
        TokensFixed(ts);
      } else {
        assert |ts| == 1;
        assert IsCanonicalToken(ts[0]);
      }
    }
  }

  lemma {:induction false} LastOfJoin(ts: seq<string>, sep: char)
    requires |ts| >= 1 && ts[|ts| - 1] != []
    ensures Join(ts, sep) != [] && Join(ts, sep)[|Join(ts, sep)| - 1] == ts[|ts| - 1][|ts[|ts| - 1]| - 1]
    decreases |ts|
  {
    if |ts| > 1 {
      LastOfJoin(ts[1..], sep);
    }
  }

  lemma {:induction false} TokensFixed(ts: seq<string>)
    requires forall i :: 0 <= i < |ts| ==> IsCanonicalToken(ts[i])
    ensures NormalizedTokens(ts) == ts
    decreases |ts|
  {
    if ts != [] {
      TokensFixed(ts[1..]);
      ConsSlice(ts);
    }
  }

  /** The trimmed non-empty pieces of a list, in order. */
  function NonEmptyStripped(parts: seq<string>): seq<string>
    decreases |parts|
  {
    if parts == [] then []
    else (if Strip(parts[0]) == [] then [] else [Strip(parts[0])]) + NonEmptyStripped(parts[1..])
  }

  /** `split_normalized_pxrf_readings`. */
  function SplitReadings(v: Option<string>): seq<string> {
    var normalized := NormalizeValue(v);
    if normalized == [] then [] else NonEmptyStripped(Split(normalized, ','))
  }

  lemma {:induction false} NonEmptyStrippedOfCanonical(ts: seq<string>)
    requires forall i :: 0 <= i < |ts| ==> ts[i] != [] && IsStripped(ts[i])
    ensures NonEmptyStripped(ts) == ts
    decreases |ts|
  {
    if ts != [] {
      StripOfStripped(ts[0]);
      NonEmptyStrippedOfCanonical(ts[1..]);
      ConsSlice(ts);
    }
  }

  /**
   * `split_normalized_pxrf_readings` gives [] for a missing or blank value, and otherwise the
   * normalised tokens in order: each non-empty, comma-free and equal to its own normalisation;
   * joined with "," they give back `normalize_pxrf_value`.
   */
  lemma {:induction false} SplitReadingsSpec(v: Option<string>)
    ensures v.None? || AllSpace(v.value) ==> SplitReadings(v) == []
    ensures SplitReadings(v) == ValueTokens(v)
    ensures Join(SplitReadings(v), ',') == NormalizeValue(v)
    ensures forall i :: 0 <= i < |SplitReadings(v)| ==> IsCanonicalToken(SplitReadings(v)[i])
  {
    JoinOfTokens(v);
    if v.Some? {
      StripProps(v.value);
    }
    if NormalizeValue(v) != [] {
      ValueSegments(v);
      var ts := ValueTokens(v);
      assert forall i :: 0 <= i < |ts| ==> ts[i] != [] && IsStripped(ts[i]);
      NonEmptyStrippedOfCanonical(ts);
    }
  }
}
