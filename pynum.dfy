/**
 * Python's `float()` on decimal text, `int()` of a float (truncation toward zero),
 * `float.is_integer()`, and the spreadsheet cell values the upload services read.
 * Numbers are exact reals: IEEE rounding is not modelled.
 */
module PyNum {
  import opened Wrappers
  import opened PyStr

  datatype Sign = NoSign | Plus | Minus

  /** A decimal literal: optional sign, integer digits, optional point, fraction digits. */
  datatype Decimal = Decimal(sign: Sign, intDigits: string, hasPoint: bool, fracDigits: string)
  {
    predicate Valid() {
      AllDigits(intDigits) && AllDigits(fracDigits) && |intDigits| + |fracDigits| > 0
      && (!hasPoint ==> fracDigits == [])
    }
  }

  function SignText(s: Sign): string {
    match s
    case NoSign => ""
    case Plus => "+"
    case Minus => "-"
  }

  /** The text of a decimal literal. */
  function Render(d: Decimal): string {
    SignText(d.sign) + d.intDigits + (if d.hasPoint then "." + d.fracDigits else "")
  }

  function SignOf(s: string): Sign {
    if s != [] && s[0] == '-' then Minus else if s != [] && s[0] == '+' then Plus else NoSign
  }

  /** The text after the sign. */
  function Unsigned(s: string): string {
    if SignOf(s) == NoSign then s else s[1..]
  }

  lemma UnsignedProps(s: string)
    ensures SignText(SignOf(s)) + Unsigned(s) == s
  {
  }

  /** Integer digits, point and fraction digits of an unsigned literal. */
  function SplitPoint(body: string): (string, bool, string) {
    var k := IndexOf(body, '.');
    if k < 0 then (body, false, "") else (body[..k], true, body[k + 1..])
  }

  lemma SplitPointProps(body: string)
    ensures var r := SplitPoint(body);
      r.0 + (if r.1 then "." + r.2 else "") == body && '.' !in r.0 && (!r.1 ==> r.2 == [])
  {
    var k := IndexOf(body, '.');
    IndexOfProps(body, '.');
    if k >= 0 {
      assert body == body[..k] + "." + body[k + 1..];
    }
  }

  /** Python `float(s)` for text without exponent, `inf`, `nan` or underscores. */
  function ParseDecimal(s: string): (r: Option<Decimal>)
    ensures r.Some? ==> r.value.Valid()
  {
    var (ip, pt, fp) := SplitPoint(Unsigned(s));
    if AllDigits(ip) && AllDigits(fp) && |ip| + |fp| > 0 then Some(Decimal(SignOf(s), ip, pt, fp)) else None
  }

  /** Parsing recovers exactly the text it read. */
  lemma ParseThenRender(s: string)
    requires ParseDecimal(s).Some?
    ensures Render(ParseDecimal(s).value) == s
  {
    var body := Unsigned(s);
    UnsignedProps(s);
    SplitPointProps(body);
    var (ip, pt, fp) := SplitPoint(body);
    var d := ParseDecimal(s).value;
    assert d == Decimal(SignOf(s), ip, pt, fp);
    RenderParts(d);
  }

  lemma RenderParts(d: Decimal)
    ensures Render(d) == SignText(d.sign) + (d.intDigits + (if d.hasPoint then "." + d.fracDigits else ""))
  {
  }

  lemma SplitPointOf(ip: string, pt: bool, fp: string)
    requires '.' !in ip && (!pt ==> fp == [])
    ensures SplitPoint(ip + (if pt then "." + fp else "")) == (ip, pt, fp)
  {
    var body := ip + (if pt then "." + fp else "");
    var k := IndexOf(body, '.');
    IndexOfProps(body, '.');
    if pt {
      assert body[|ip|] == '.';
      assert body[..|ip|] == ip;
      assert k == |ip|;
      assert body[k + 1..] == fp;
    } else {
      assert body == ip;
    }
  }

  /** Every valid literal is read back as itself. */
  lemma RenderThenParse(d: Decimal)
    requires d.Valid()
    ensures ParseDecimal(Render(d)) == Some(d)
  {
    var s := Render(d);
    var body := d.intDigits + (if d.hasPoint then "." + d.fracDigits else "");
    assert s == SignText(d.sign) + body;
    assert '.' !in d.intDigits;
    if d.sign != NoSign {
      assert s[1..] == body;
    } else if body != [] {
      assert s[0] == body[0];
      assert IsDigit(body[0]) || body[0] == '.';
    }
    assert SignOf(s) == d.sign;
    assert Unsigned(s) == body;
    SplitPointOf(d.intDigits, d.hasPoint, d.fracDigits);
  }

  function Pow10(n: nat): (p: nat)
    ensures p >= 1
  {
    if n == 0 then 1 else 10 * Pow10(n - 1)
  }

  /** The value of a valid literal. */
  function Value(d: Decimal): real
    requires d.Valid()
  {
    var mag := DigitsValue(d.intDigits) as real + DigitsValue(d.fracDigits) as real / Pow10(|d.fracDigits|) as real;
    if d.sign == Minus then -mag else mag
  }

  /** An unsigned literal without fraction digits has the value of its integer digits. */
  lemma WholeValue(d: Decimal)
    requires d.Valid() && d.sign == NoSign && d.fracDigits == []
    ensures Value(d) == DigitsValue(d.intDigits) as real
  {
    assert Pow10(0) == 1;
    assert DigitsValue(d.fracDigits) == 0;
  }

  /** `float(s).is_integer()`. */
  predicate IsIntegral(d: Decimal)
    requires d.Valid()
  {
    DigitsValue(d.fracDigits) == 0
  }

  /** `int(float(s))`: the integer part, truncated toward zero. */
  function Truncate(d: Decimal): int
    requires d.Valid()
  {
    if d.sign == Minus then -(DigitsValue(d.intDigits) as int) else DigitsValue(d.intDigits) as int
  }

  lemma {:induction false} FracBelowOne(s: string)
    requires AllDigits(s)
    ensures DigitsValue(s) < Pow10(|s|)
    decreases |s|
  {
    if s != [] {
      FracBelowOne(s[..|s| - 1]);
    }
  }

  /** `int()` of a float drops the fraction toward zero, and is exact on integral values. */
  lemma TruncateTowardZero(d: Decimal)
    requires d.Valid()
    ensures var v, t := Value(d), Truncate(d) as real;
      (v >= 0.0 ==> t <= v < t + 1.0) && (v < 0.0 ==> t - 1.0 < v <= t)
    ensures IsIntegral(d) ==> Value(d) == Truncate(d) as real
  {
    FracBelowOne(d.fracDigits);
    var n, p := DigitsValue(d.fracDigits), Pow10(|d.fracDigits|);
    FractionBounds(n, p);
  }

  lemma FractionBounds(n: nat, p: nat)
    requires n < p
    ensures 0.0 <= n as real / p as real < 1.0
    ensures n == 0 ==> n as real / p as real == 0.0
  {
    assert n as real < p as real;
  }

  // ---------------------------------------------------------------- int()

  /** Python `int(s)` on text: trimmed, an optional sign, then ASCII digits. */
  function ParseInt(s: string): (r: Option<int>)
    ensures r.Some? ==> IsDigits(Unsigned(Strip(s)))
  {
    var t := Strip(s);
    var body := Unsigned(t);
    if IsDigits(body) then Some(if SignOf(t) == Minus then -(DigitsValue(body) as int) else DigitsValue(body) as int)
    else None
  }

  /** `int(str(i)) == i`: the integer text is read back as the integer. */
  lemma ParseIntOfString(i: int)
    ensures ParseInt(IntToString(i)) == Some(i)
  {
    var t := IntToString(i);
    var n: nat := if i < 0 then -i else i;
    NatToStringValue(n);
    assert IsDigits(NatToString(n));
    var d := NatToString(n);
    assert IsDigit(d[0]) && IsDigit(d[|d| - 1]);
    assert t[|t| - 1] == d[|d| - 1];
    StripOfStripped(t);
    if i < 0 {
      assert t[0] == '-' && t[1..] == NatToString(n);
    } else {
      assert t[0] != '-' && t[0] != '+';
    }
  }

  /** `int(x)` of a float: truncation toward zero. */
  function TruncReal(x: real): (n: int)
    ensures 0.0 <= x ==> n as real <= x < n as real + 1.0
    ensures x < 0.0 ==> n as real - 1.0 < x <= n as real
  {
    if x >= 0.0 then x.Floor else -((-x).Floor)
  }

  // ---------------------------------------------------------------- rounding

  /** Rounding to the nearest integer, ties to the even neighbour (Python's `round`). */
  function RoundHalfEven(y: real): (n: int)
    ensures (n as real) - 0.5 <= y <= (n as real) + 0.5
  {
    var f := y.Floor;
    var d := y - f as real;
    if d < 0.5 then f
    else if d > 0.5 then f + 1
    else if f % 2 == 0 then f
    else f + 1
  }

  /** An integer rounds to itself. */
  lemma RoundIntegral(n: int)
    ensures RoundHalfEven(n as real) == n
  {
    assert (n as real).Floor == n;
  }

  // ---------------------------------------------------------------- spreadsheet cells

  /** A cell as pandas delivers it: missing (None/NaN), a number, or text. */
  datatype Cell = Missing | Num(x: real) | Text(s: string)

  /** `float(value)` for a present cell; `None` where Python raises. */
  function FloatOf(c: Cell): (r: Option<real>)
    ensures c.Num? ==> r == Some(c.x)
    ensures c.Text? && r.Some? ==> ParseDecimal(Strip(c.s)).Some?
  {
    match c
    case Missing => None
    case Num(x) => Some(x)
    case Text(s) =>
      match ParseDecimal(Strip(s))
      case Some(d) => Some(Value(d))
      case None => None
  }

  /** `str(value).strip() == ""` or NaN: the cell counts as blank. */
  predicate IsBlank(c: Cell) {
    c.Missing? || (c.Text? && Strip(c.s) == [])
  }
}
