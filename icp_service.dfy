/**
 * ICP elemental-analysis uploads (`icp_service.py`): reading the experiment, time point and
 * dilution out of a sample label, element-name standardisation, validation of processed
 * rows, the split of a row into fixed columns and the all-elements document, and the
 * create-or-overwrite of ICP data in bulk.
 *
 * A processed row is a typed record: a key that is absent and a key holding `None` are the
 * same `None` here, since the service reads every field with `dict.get`.
 */
module IcpService {
  import opened Wrappers
  import opened PyStr
  import opened PyNum

  // ---------------------------------------------------------------- sample labels

  /** The three values `extract_sample_info` returns. */
  datatype SampleInfo = SampleInfo(experimentId: string, timePostReaction: real, dilutionFactor: real)

  /** The pieces of a matching label: `prefix _ unit time _ dilution [x] [newline]`. */
  datatype LabelParts = LabelParts(prefix: string, unit: string, timeText: string, dilutionText: string, x: string, nl: string)

  /** `\d+(?:\.\d+)?` read as a number: digits, optionally a point and more digits. */
  function NumText(s: string): Option<real> {
    match ParseDecimal(s)
    case None => None
    case Some(d) =>
      if d.sign == NoSign && d.intDigits != [] && (d.hasPoint ==> d.fracDigits != []) then Some(Value(d)) else None
  }

  /** Number text holds only digits and points, and ends in a digit. */
  lemma NumTextChars(s: string)
    requires NumText(s).Some?
    ensures forall i | 0 <= i < |s| :: IsDigit(s[i]) || s[i] == '.'
    ensures s != [] && IsDigit(s[|s| - 1])
  {
    ParseThenRender(s);
    RenderedDigits(ParseDecimal(s).value);
  }

  lemma RenderedDigits(d: Decimal)
    requires d.Valid() && d.sign == NoSign && d.intDigits != [] && (d.hasPoint ==> d.fracDigits != [])
    ensures var r := Render(d);
      (forall i | 0 <= i < |r| :: IsDigit(r[i]) || r[i] == '.') && r != [] && IsDigit(r[|r| - 1])
  {
    var tail := if d.hasPoint then "." + d.fracDigits else "";
    var r := Render(d);
    assert r == d.intDigits + tail;
    forall i | 0 <= i < |r|
      ensures IsDigit(r[i]) || r[i] == '.'
    {
      if i >= |d.intDigits| && i > |d.intDigits| {
        assert r[i] == d.fracDigits[i - |d.intDigits| - 1];
      }
    }
    if d.hasPoint {
      assert r[|r| - 1] == d.fracDigits[|d.fracDigits| - 1];
    } else {
      assert r[|r| - 1] == d.intDigits[|d.intDigits| - 1];
    }
  }

  /** `(Day|Time)` under `re.IGNORECASE`, split off the front of `c`. */
  function UnitSplit(c: string): Option<(string, string)> {
    if |c| >= 3 && Lower(c[..3]) == "day" then Some((c[..3], c[3..]))
    else if |c| >= 4 && Lower(c[..4]) == "time" then Some((c[..4], c[4..]))
    else None
  }

  predicate IsUnit(u: string) {
    Lower(u) == "day" || Lower(u) == "time"
  }

  /** `$` matches at the end or before a final newline: the text without that newline. */
  function SplitNewline(text: string): (r: (string, string))
    ensures text == r.0 + r.1 && (r.1 == "" || r.1 == "\n")
  {
    if text != [] && text[|text| - 1] == '\n' then (text[..|text| - 1], "\n") else (text, "")
  }

  /** The optional `x` (either case, under `re.IGNORECASE`) at the end. */
  function SplitX(s: string): (r: (string, string))
    ensures s == r.0 + r.1 && (r.1 == "" || r.1 == "x" || r.1 == "X")
  {
    if s != [] && (s[|s| - 1] == 'x' || s[|s| - 1] == 'X') then (s[..|s| - 1], [s[|s| - 1]]) else (s, "")
  }

  /**
   * `_(Day|Time)(number)_(number)` at the end of `t`: the numbers hold no `_`, so the last two
   * underscores delimit them. Gives the prefix, the unit and the two number texts.
   */
  function SplitCore(t: string): Option<(string, string, string, string)> {
    match RSplitOnce(t, '_')
    case None => None
    case Some((a, dilution)) =>
      match RSplitOnce(a, '_')
      case None => None
      case Some((prefix, c)) =>
        match UnitSplit(c)
        case None => None
        case Some((unit, time)) =>
          if NumText(time).Some? && NumText(dilution).Some? then Some((prefix, unit, time, dilution)) else None
  }

  /** The match of `_(Day|Time)(\d+(?:\.\d+)?)_(\d+(?:\.\d+)?)x?$`, cut into its pieces. */
  function Decompose(text: string): Option<LabelParts> {
    var (s, nl) := SplitNewline(text);
    var (t, x) := SplitX(s);
    match SplitCore(t)
    case None => None
    case Some((prefix, unit, time, dilution)) => Some(LabelParts(prefix, unit, time, dilution, x, nl))
  }

  /** A label of the documented shape, piece by piece. */
  predicate Shaped(text: string, q: LabelParts) {
    && text == q.prefix + "_" + q.unit + q.timeText + "_" + q.dilutionText + q.x + q.nl
    && IsUnit(q.unit) && NumText(q.timeText).Some? && NumText(q.dilutionText).Some?
    && (q.x == "" || q.x == "x" || q.x == "X") && (q.nl == "" || q.nl == "\n")
  }

  /**
   * `extract_sample_info`: none for a label without the suffix (standards, blanks); otherwise
   * the text before the suffix and the two numbers. Day and Time mean the same.
   */
  function ExtractSampleInfo(text: string): (r: Option<SampleInfo>)
    ensures r.None? <==> Decompose(text).None?
  {
    match Decompose(text)
    case None => None
    case Some(q) => Some(SampleInfo(q.prefix, NumText(q.timeText).value, NumText(q.dilutionText).value))
  }

  lemma UnitChars(u: string)
    requires IsUnit(u)
    ensures |u| == 3 || |u| == 4
    ensures forall i | 0 <= i < |u| :: IsUpperChar(u[i]) || IsLowerChar(u[i])
  {
    assert |Lower(u)| == |u|;
    forall i | 0 <= i < |u|
      ensures IsUpperChar(u[i]) || IsLowerChar(u[i])
    {
      assert Lower(u)[i] == LowerChar(u[i]);
    }
  }

  lemma UnitSplitSound(c: string)
    requires UnitSplit(c).Some?
    ensures var (u, rest) := UnitSplit(c).value; c == u + rest && IsUnit(u)
  {
    if |c| >= 3 && Lower(c[..3]) == "day" {
      assert c == c[..3] + c[3..];
    } else {
      assert c == c[..4] + c[4..];
    }
  }

  lemma SplitCoreSound(t: string)
    requires SplitCore(t).Some?
    ensures var (p, u, n1, n2) := SplitCore(t).value;
      t == p + "_" + u + n1 + "_" + n2 && IsUnit(u) && NumText(n1).Some? && NumText(n2).Some?
  {
    RSplitOnceProps(t, '_');
    var a := RSplitOnce(t, '_').value.0;
    var n2 := RSplitOnce(t, '_').value.1;
    RSplitOnceProps(a, '_');
    var p := RSplitOnce(a, '_').value.0;
    var c := RSplitOnce(a, '_').value.1;
    UnitSplitSound(c);
    var u := UnitSplit(c).value.0;
    var n1 := UnitSplit(c).value.1;
    assert SplitCore(t).value == (p, u, n1, n2);
    JoinFive(t, a, c, p, u, n1, n2);
  }

  lemma JoinFive(t: string, a: string, c: string, p: string, u: string, n1: string, n2: string)
    requires t == a + "_" + n2 && a == p + "_" + c && c == u + n1
    ensures t == p + "_" + u + n1 + "_" + n2
  {
    calc {
      t;
      (p + "_" + (u + n1)) + "_" + n2;
      { assert p + "_" + (u + n1) == p + "_" + u + n1; }
      p + "_" + u + n1 + "_" + n2;
    }
  }

  /** Every part found lies in the label in the documented shape. */
  lemma DecomposeSound(text: string)
    requires Decompose(text).Some?
    ensures Shaped(text, Decompose(text).value)
  {
    var (s, nl) := SplitNewline(text);
    var (t, x) := SplitX(s);
    SplitCoreSound(t);
  }

  lemma NoUnderscore(u: string, n: string)
    requires IsUnit(u) && NumText(n).Some?
    ensures '_' !in u + n && '_' !in n
  {
    NumTextChars(n);
    UnitChars(u);
    var c := u + n;
    forall i | 0 <= i < |c| ensures c[i] != '_' {
      if i < |u| { assert c[i] == u[i]; } else { assert c[i] == n[i - |u|]; }
    }
  }

  lemma UnitSplitComplete(u: string, n: string)
    requires IsUnit(u)
    ensures UnitSplit(u + n) == Some((u, n))
  {
    var c := u + n;
    assert |Lower(u)| == |u|;
    if Lower(u) == "day" {
      assert c[..3] == u && c[3..] == n;
    } else {
      assert c[..4] == u && c[4..] == n;
      assert Lower(c[..3])[0] == LowerChar(u[0]) == Lower(u)[0] == 't';
    }
  }

  lemma SplitCoreComplete(p: string, u: string, n1: string, n2: string)
    requires IsUnit(u) && NumText(n1).Some? && NumText(n2).Some?
    ensures SplitCore(p + "_" + u + n1 + "_" + n2) == Some((p, u, n1, n2))
  {
    DilutionSplit(p, u, n1, n2);
    PrefixSplit(p, u, n1);
    UnitSplitComplete(u, n1);
  }

  /** The last underscore of a label core is the one before the dilution. */
  lemma DilutionSplit(p: string, u: string, n1: string, n2: string)
    requires IsUnit(u) && NumText(n2).Some?
    ensures RSplitOnce(p + "_" + u + n1 + "_" + n2, '_') == Some((p + ['_'] + (u + n1), n2))
  {
    var a := p + ['_'] + (u + n1);
    assert p + "_" + u + n1 + "_" + n2 == a + ['_'] + n2 by {
      assert p + "_" + u + n1 == a;
    }
    NoUnderscore(u, n2);
    RSplitOnceAppend(a, '_', n2);
  }

  /** The last underscore before the dilution is the one after the prefix. */
  lemma PrefixSplit(p: string, u: string, n1: string)
    requires IsUnit(u) && NumText(n1).Some?
    ensures RSplitOnce(p + ['_'] + (u + n1), '_') == Some((p, u + n1))
  {
    NoUnderscore(u, n1);
    RSplitOnceAppend(p, '_', u + n1);
  }

  lemma SplitNewlineOf(s: string, nl: string)
    requires s != [] && s[|s| - 1] != '\n' && (nl == "" || nl == "\n")
    ensures SplitNewline(s + nl) == (s, nl)
  {
    if nl == "" {
      assert s + nl == s;
    } else {
      assert (s + nl)[..|s|] == s;
    }
  }

  lemma SplitXOf(t: string, x: string)
    requires t != [] && IsDigit(t[|t| - 1]) && (x == "" || x == "x" || x == "X")
    ensures SplitX(t + x) == (t, x)
    ensures var s := t + x; s != [] && s[|s| - 1] != '\n'
  {
    if x == "" {
      assert t + x == t;
    } else {
      assert (t + x)[..|t|] == t;
    }
  }

  lemma EndsInDigit(t0: string, n: string)
    requires n != [] && IsDigit(n[|n| - 1])
    ensures var t := t0 + n; t != [] && IsDigit(t[|t| - 1])
  {
  }

  /** A label of the documented shape decomposes into exactly its pieces. */
  lemma DecomposeComplete(text: string, q: LabelParts)
    requires Shaped(text, q)
    ensures Decompose(text) == Some(q)
  {
    NumTextChars(q.dilutionText);
    var t := q.prefix + "_" + q.unit + q.timeText + "_" + q.dilutionText;
    EndsInDigit(q.prefix + "_" + q.unit + q.timeText + "_", q.dilutionText);
    SplitXOf(t, q.x);
    SplitNewlineOf(t + q.x, q.nl);
    SplitCoreComplete(q.prefix, q.unit, q.timeText, q.dilutionText);
  }

  /** Parsing a label built from its pieces returns the prefix and the two numbers. */
  lemma ExtractRoundTrip(text: string, q: LabelParts)
    requires Shaped(text, q)
    ensures ExtractSampleInfo(text) == Some(SampleInfo(q.prefix, NumText(q.timeText).value, NumText(q.dilutionText).value))
  {
    DecomposeComplete(text, q);
  }

  /** A plain digit string reads as its integer value. */
  lemma NumTextOfDigits(s: string)
    requires IsDigits(s)
    ensures NumText(s) == Some(DigitsValue(s) as real)
  {
    var d := Decimal(NoSign, s, false, "");
    assert Render(d) == s;
    RenderThenParse(d);
    WholeValue(d);
  }

  /** The label "Test_MH_001_Day3_10x" of the service's documentation. */
  lemma ExtractExampleDay()
    ensures ExtractSampleInfo("Test_MH_001_Day3_10x") == Some(SampleInfo("Test_MH_001", 3.0, 10.0))
  {
    var q := LabelParts("Test_MH_001", "Day", "3", "10", "x", "");
    DayNumbers();
    DayShaped(q);
    ExtractRoundTrip("Test_MH_001_Day3_10x", q);
  }

  lemma DayNumbers()
    ensures NumText("3") == Some(3.0) && NumText("10") == Some(10.0)
  {
    NumTextOfDigits("3");
    DigitsValue1('3');
    NumTextOfDigits("10");
    DigitsValue2('1', '0');
  }

  lemma DayShaped(q: LabelParts)
    requires q == LabelParts("Test_MH_001", "Day", "3", "10", "x", "")
    requires NumText("3") == Some(3.0) && NumText("10") == Some(10.0)
    ensures Shaped("Test_MH_001_Day3_10x", q)
  {
    DayText(q.prefix, q.unit, q.timeText, q.dilutionText, q.x, q.nl);
  }

  lemma DayText(p: string, u: string, t: string, d: string, x: string, nl: string)
    requires p == "Test_MH_001" && u == "Day" && t == "3" && d == "10" && x == "x" && nl == ""
    ensures p + "_" + u + t + "_" + d + x + nl == "Test_MH_001_Day3_10x"
  {
  }

  /** "Time" reads like "Day". */
  lemma ExtractExampleTime()
    ensures ExtractSampleInfo("Serum-MH-025_Time5_5x") == Some(SampleInfo("Serum-MH-025", 5.0, 5.0))
  {
    var q := LabelParts("Serum-MH-025", "Time", "5", "5", "x", "");
    TimeNumbers();
    TimeShaped(q);
    ExtractRoundTrip("Serum-MH-025_Time5_5x", q);
  }

  lemma TimeNumbers()
    ensures NumText("5") == Some(5.0)
  {
    NumTextOfDigits("5");
    DigitsValue1('5');
  }

  lemma TimeShaped(q: LabelParts)
    requires q == LabelParts("Serum-MH-025", "Time", "5", "5", "x", "")
    requires NumText("5") == Some(5.0)
    ensures Shaped("Serum-MH-025_Time5_5x", q)
  {
    TimeText(q.prefix, q.unit, q.timeText, q.dilutionText, q.x, q.nl);
  }

  lemma TimeText(p: string, u: string, t: string, d: string, x: string, nl: string)
    requires p == "Serum-MH-025" && u == "Time" && t == "5" && d == "5" && x == "x" && nl == ""
    ensures p + "_" + u + t + "_" + d + x + nl == "Serum-MH-025_Time5_5x"
  {
  }

  lemma NumTextSevenHalf()
    ensures NumText("7.5") == Some(7.5)
  {
    SevenHalfParsed();
    SevenHalfValue();
  }

  lemma SevenHalfParsed()
    ensures ParseDecimal("7.5") == Some(Decimal(NoSign, "7", true, "5"))
  {
    var d := Decimal(NoSign, "7", true, "5");
    assert Render(d) == "7.5";
    RenderThenParse(d);
  }

  lemma SevenHalfValue()
    ensures Value(Decimal(NoSign, "7", true, "5")) == 7.5
  {
    DigitsValue1('7');
    DigitsValue1('5');
  }

  /** A fractional time point. */
  lemma ExtractExampleFraction()
    ensures ExtractSampleInfo("HPHT_MH_004_Day7.5_15x") == Some(SampleInfo("HPHT_MH_004", 7.5, 15.0))
  {
    var q := LabelParts("HPHT_MH_004", "Day", "7.5", "15", "x", "");
    FractionNumbers();
    FractionShaped(q);
    ExtractRoundTrip("HPHT_MH_004_Day7.5_15x", q);
  }

  lemma FractionNumbers()
    ensures NumText("15") == Some(15.0) && NumText("7.5") == Some(7.5)
  {
    NumTextOfDigits("15");
    DigitsValue2('1', '5');
    NumTextSevenHalf();
  }

  lemma FractionShaped(q: LabelParts)
    requires q == LabelParts("HPHT_MH_004", "Day", "7.5", "15", "x", "")
    requires NumText("15") == Some(15.0) && NumText("7.5") == Some(7.5)
    ensures Shaped("HPHT_MH_004_Day7.5_15x", q)
  {
    FractionText(q.prefix, q.unit, q.timeText, q.dilutionText, q.x, q.nl);
  }

  lemma FractionText(p: string, u: string, t: string, d: string, x: string, nl: string)
    requires p == "HPHT_MH_004" && u == "Day" && t == "7.5" && d == "15" && x == "x" && nl == ""
    ensures p + "_" + u + t + "_" + d + x + nl == "HPHT_MH_004_Day7.5_15x"
  {
  }

  /** A standard has no suffix and gives none. */
  lemma ExtractExampleStandard()
    ensures ExtractSampleInfo("Standard 1") == None
  {
    var t := "Standard 1";
    assert SplitNewline(t) == (t, "");
    assert SplitX(t) == (t, "");
    assert '_' !in t by {
      forall i | 0 <= i < |t| ensures t[i] != '_' {
      }
    }
    RSplitOnceProps(t, '_');
  }

  // ---------------------------------------------------------------- element names

  /** The symbol table of `_standardize_element_name`. */
  const SymbolMapping: map<string, string> := map[
    "al" := "al", "ca" := "ca", "co" := "co", "cr" := "cr", "cu" := "cu", "fe" := "fe",
    "k" := "k", "mg" := "mg", "mn" := "mn", "mo" := "mo", "na" := "na", "ni" := "ni",
    "si" := "si", "zn" := "zn", "p" := "p", "s" := "s", "ti" := "ti", "v" := "v"]

  /** `_standardize_element_name`: trim, lower-case, then map through the table. */
  function StandardizeElementName(symbol: string): string {
    var clean := Lower(Strip(symbol));
    if clean in SymbolMapping then SymbolMapping[clean] else clean
  }

  /**
   * The table maps every key to itself, so standardising is trimming and lower-casing, and
   * standardising again changes nothing.
   */
  lemma StandardizeIsLowerStrip(symbol: string)
    ensures StandardizeElementName(symbol) == Lower(Strip(symbol))
    ensures StandardizeElementName(StandardizeElementName(symbol)) == StandardizeElementName(symbol)
  {
    assert forall k | k in SymbolMapping :: SymbolMapping[k] == k;
    var clean := Lower(Strip(symbol));
    LowerStripCommute(Strip(symbol));
    StripIdempotent(symbol);
    LowerIdempotent(Strip(symbol));
    assert Lower(Strip(clean)) == clean;
  }

  // ---------------------------------------------------------------- processed rows

  /** The keys that are not element concentrations. */
  const MetadataKeys: set<string> := {"experiment_id", "time_post_reaction", "dilution_factor", "raw_label"}

  /** A processed row: the four metadata fields and the element keys in dict order. */
  datatype IcpRow = IcpRow(
    experimentId: Option<string>, time: Option<real>, dilution: Option<real>, rawLabel: Option<string>,
    elements: seq<(string, Option<real>)>)

  /** A dict: element keys are distinct and none is a metadata key. */
  predicate WellFormedRow(row: IcpRow) {
    && (forall i | 0 <= i < |row.elements| :: row.elements[i].0 !in MetadataKeys)
    && (forall i, j | 0 <= i < j < |row.elements| :: row.elements[i].0 != row.elements[j].0)
  }

  /** `not data.get('experiment_id')`: absent or empty. */
  predicate MissingId(row: IcpRow) {
    row.experimentId.None? || row.experimentId == Some("")
  }

  /** The four checks of `validate_icp_data` that a row passes. */
  predicate RowValid(row: IcpRow) {
    !MissingId(row) && row.time.Some? && row.dilution.Some? && row.dilution != Some(0.0) && row.elements != []
  }

  /** The four row checks of `validate_icp_data`, in the order they run. */
  datatype Check = IdMissing | TimeMissing | DilutionMissing | NoElements

  /** A validation message: the empty-list message, or a failed check of a 1-based sample. */
  datatype ValidationError = NoData | RowError(sample: nat, check: Check)

  function CheckText(c: Check): string {
    match c
    case IdMissing => "Missing experiment_id"
    case TimeMissing => "Missing time_post_reaction"
    case DilutionMissing => "Missing dilution_factor"
    case NoElements => "No elemental concentration data found"
  }

  /** The message text the service reports. */
  function ErrorText(e: ValidationError): string {
    match e
    case NoData => "No data to validate"
    case RowError(sample, c) => "Sample " + NatToString(sample) + ": " + CheckText(c)
  }

  function Texts(es: seq<ValidationError>): (r: seq<string>)
    ensures |r| == |es|
  {
    seq(|es|, i requires 0 <= i < |es| => ErrorText(es[i]))
  }

  lemma TextsAppend(a: seq<ValidationError>, b: seq<ValidationError>)
    ensures Texts(a + b) == Texts(a) + Texts(b)
  {
  }

  function IdError(idx: nat, row: IcpRow): seq<ValidationError> {
    if MissingId(row) then [RowError(idx + 1, IdMissing)] else []
  }

  function TimeError(idx: nat, row: IcpRow): seq<ValidationError> {
    if row.time.None? then [RowError(idx + 1, TimeMissing)] else []
  }

  function DilutionError(idx: nat, row: IcpRow): seq<ValidationError> {
    if row.dilution.None? || row.dilution == Some(0.0) then [RowError(idx + 1, DilutionMissing)] else []
  }

  function ElementsError(idx: nat, row: IcpRow): seq<ValidationError> {
    if row.elements == [] then [RowError(idx + 1, NoElements)] else []
  }

  /** The messages for the row at `idx`, in the order the checks run. */
  function RowErrors(idx: nat, row: IcpRow): (r: seq<ValidationError>)
    ensures |r| <= 4
  {
    IdError(idx, row) + TimeError(idx, row) + DilutionError(idx, row) + ElementsError(idx, row)
  }

  lemma ConcatFour<T>(s: seq<T>, a: seq<T>, b: seq<T>, c: seq<T>, d: seq<T>)
    ensures s + a + b + c + d == s + (a + b + c + d)
  {
  }

  /** The pieces joined end to end. */
  function Concat<T>(xs: seq<seq<T>>): seq<T>
    decreases |xs|
  {
    if xs == [] then [] else Concat(xs[..|xs| - 1]) + xs[|xs| - 1]
  }

  lemma {:induction false} ConcatEmpty<T>(xs: seq<seq<T>>)
    ensures Concat(xs) == [] <==> forall i | 0 <= i < |xs| :: xs[i] == []
    decreases |xs|
  {
    if xs != [] {
      var n := |xs| - 1;
      ConcatEmpty(xs[..n]);
      EmptyConcat(Concat(xs[..n]), xs[n]);
      assert forall i | 0 <= i < n :: xs[..n][i] == xs[i];
    }
  }

  lemma {:induction false} ConcatMembers<T>(xs: seq<seq<T>>, k: nat)
    requires forall i | 0 <= i < |xs| :: |xs[i]| <= k
    ensures |Concat(xs)| <= k * |xs|
    ensures forall e | e in Concat(xs) :: exists i | 0 <= i < |xs| :: e in xs[i]
    decreases |xs|
  {
    if xs != [] {
      var n := |xs| - 1;
      ConcatMembers(xs[..n], k);
      forall e | e in Concat(xs)
        ensures exists i | 0 <= i < |xs| :: e in xs[i]
      {
        if e in Concat(xs[..n]) {
          var i :| 0 <= i < n && e in xs[..n][i];
          assert xs[..n][i] == xs[i];
        } else {
          assert e in xs[n];
        }
      }
    }
  }

  lemma EmptyConcat<T>(a: seq<T>, b: seq<T>)
    ensures a + b == [] <==> a == [] && b == []
  {
    assert |a + b| == |a| + |b|;
  }

  /** The checks of the first `n` rows, row by row. */
  function RowsErrors(data: seq<IcpRow>, n: nat): (r: seq<seq<ValidationError>>)
    requires n <= |data|
    ensures |r| == n && forall i | 0 <= i < n :: r[i] == RowErrors(i, data[i])
  {
    seq(n, i requires 0 <= i < n && n <= |data| => RowErrors(i, data[i]))
  }

  /** The messages for the first `n` rows. */
  function ErrorsUpTo(data: seq<IcpRow>, n: nat): seq<ValidationError>
    requires n <= |data|
  {
    Concat(RowsErrors(data, n))
  }

  /** The messages of `validate_icp_data`. */
  function ValidationErrors(data: seq<IcpRow>): seq<ValidationError> {
    if data == [] then [NoData] else ErrorsUpTo(data, |data|)
  }

  lemma ErrorsUpToStep(data: seq<IcpRow>, n: nat)
    requires n < |data|
    ensures ErrorsUpTo(data, n + 1) == ErrorsUpTo(data, n) + RowErrors(n, data[n])
  {
    assert RowsErrors(data, n + 1)[..n] == RowsErrors(data, n);
  }

  lemma RowErrorsEmpty(idx: nat, row: IcpRow)
    ensures RowErrors(idx, row) == [] <==> RowValid(row)
  {
    if !RowValid(row) {
      assert |IdError(idx, row) + TimeError(idx, row) + DilutionError(idx, row) + ElementsError(idx, row)| > 0;
    }
  }

  lemma ErrorsUpToEmpty(data: seq<IcpRow>, n: nat)
    requires n <= |data|
    ensures ErrorsUpTo(data, n) == [] <==> forall i | 0 <= i < n :: RowValid(data[i])
  {
    ConcatEmpty(RowsErrors(data, n));
    forall i | 0 <= i < n
      ensures RowErrors(i, data[i]) == [] <==> RowValid(data[i])
    {
      RowErrorsEmpty(i, data[i]);
    }
  }

  /** Each message names a row among the first `n`, at most four per row. */
  lemma ErrorsUpToBound(data: seq<IcpRow>, n: nat)
    requires n <= |data|
    ensures |ErrorsUpTo(data, n)| <= 4 * n
    ensures forall e | e in ErrorsUpTo(data, n) :: e.RowError? && 1 <= e.sample <= n
  {
    var xs := RowsErrors(data, n);
    ConcatMembers(xs, 4);
    forall e | e in ErrorsUpTo(data, n)
      ensures e.RowError? && 1 <= e.sample <= n
    {
      var i :| 0 <= i < n && e in xs[i];
      RowErrorsNamed(i, data[i]);
    }
  }

  lemma RowErrorsNamed(idx: nat, row: IcpRow)
    ensures forall e | e in RowErrors(idx, row) :: e.RowError? && e.sample == idx + 1
  {
    var a, b, c, d := IdError(idx, row), TimeError(idx, row), DilutionError(idx, row), ElementsError(idx, row);
    assert forall e | e in a + b + c + d :: e in a || e in b || e in c || e in d;
  }

  /** The checks `validate_icp_data` runs on one row, appending a message per failed check. */
  method CheckRow(errors0: seq<string>, idx: nat, row: IcpRow) returns (errors: seq<string>)
    ensures errors == errors0 + Texts(RowErrors(idx, row))
  {
    var tag := "Sample " + NatToString(idx + 1) + ": ";
    errors := errors0;
    if MissingId(row) {
      errors := errors + [tag + "Missing experiment_id"];
    }
    ghost var e1 := errors0 + Texts(IdError(idx, row));
    assert errors == e1;
    if row.time.None? {
      errors := errors + [tag + "Missing time_post_reaction"];
    }
    ghost var e2 := e1 + Texts(TimeError(idx, row));
    assert errors == e2;
    if row.dilution.None? || row.dilution == Some(0.0) {
      errors := errors + [tag + "Missing dilution_factor"];
    }
    ghost var e3 := e2 + Texts(DilutionError(idx, row));
    assert errors == e3;
    if row.elements == [] {
      errors := errors + [tag + "No elemental concentration data found"];
    }
    assert errors == e3 + Texts(ElementsError(idx, row));
    TextsAppend(IdError(idx, row), TimeError(idx, row));
    TextsAppend(IdError(idx, row) + TimeError(idx, row), DilutionError(idx, row));
    TextsAppend(IdError(idx, row) + TimeError(idx, row) + DilutionError(idx, row), ElementsError(idx, row));
    ConcatFour(errors0, Texts(IdError(idx, row)), Texts(TimeError(idx, row)), Texts(DilutionError(idx, row)), Texts(ElementsError(idx, row)));
  }

  /**
   * `validate_icp_data`: one message for an empty list; otherwise each row's failed checks,
   * row by row.
   */
  method ValidateIcpData(data: seq<IcpRow>) returns (errors: seq<string>)
    ensures errors == Texts(ValidationErrors(data))
  {
    errors := [];
    if data == [] {
      errors := errors + ["No data to validate"];
      return;
    }
    var idx := 0;
    while idx < |data|
      invariant 0 <= idx <= |data| && errors == Texts(ErrorsUpTo(data, idx))
    {
      errors := CheckRow(errors, idx, data[idx]);
      ErrorsUpToStep(data, idx);
      TextsAppend(ErrorsUpTo(data, idx), RowErrors(idx, data[idx]));
      idx := idx + 1;
    }
  }

  /**
   * Validation passes exactly when there are rows and every row passes all four checks; an
   * empty list gives the single empty-list message, and otherwise every message names a row,
   * at most four per row.
   */
  lemma ValidationPassesIff(data: seq<IcpRow>)
    ensures ValidationErrors(data) == [] <==> data != [] && forall i | 0 <= i < |data| :: RowValid(data[i])
    ensures data == [] ==> ValidationErrors(data) == [NoData]
    ensures data != [] ==>
      && |ValidationErrors(data)| <= 4 * |data|
      && forall e | e in ValidationErrors(data) :: e.RowError? && 1 <= e.sample <= |data|
  {
    ErrorsUpToEmpty(data, |data|);
    ErrorsUpToBound(data, |data|);
  }

  // ---------------------------------------------------------------- fixed columns and the document

  /** The eleven elements with their own columns. */
  const FixedElements: set<string> := {"fe", "si", "ni", "cu", "mo", "zn", "mn", "cr", "co", "mg", "al"}

  /** The non-null element values of the first entries, as the all-elements document. */
  function AllOf(es: seq<(string, Option<real>)>): map<string, real> {
    if es == [] then map[]
    else
      var m := AllOf(es[..|es| - 1]);
      var (k, v) := es[|es| - 1];
      if v.Some? then m[k := v.value] else m
  }

  /** The same restricted to the fixed elements, as the fixed columns. */
  function FixedOf(es: seq<(string, Option<real>)>): map<string, real> {
    if es == [] then map[]
    else
      var m := FixedOf(es[..|es| - 1]);
      var (k, v) := es[|es| - 1];
      if k in FixedElements && v.Some? then m[k := v.value] else m
  }

  /** With distinct keys, every non-null entry is in the document with its value. */
  lemma {:induction false} AllOfHolds(es: seq<(string, Option<real>)>)
    requires forall i, j | 0 <= i < j < |es| :: es[i].0 != es[j].0
    ensures forall i | 0 <= i < |es| && es[i].1.Some? :: es[i].0 in AllOf(es) && AllOf(es)[es[i].0] == es[i].1.value
  {
    if es != [] {
      var n := |es| - 1;
      AllOfHolds(es[..n]);
      assert forall i | 0 <= i < n :: es[..n][i] == es[i];
    }
  }

  /** Every key of the document comes from a non-null entry. */
  lemma {:induction false} AllOfOnlyFrom(es: seq<(string, Option<real>)>)
    ensures forall k | k in AllOf(es) :: exists i | 0 <= i < |es| :: es[i].0 == k && es[i].1.Some?
  {
    if es != [] {
      var n := |es| - 1;
      AllOfOnlyFrom(es[..n]);
      forall k | k in AllOf(es)
        ensures exists i | 0 <= i < |es| :: es[i].0 == k && es[i].1.Some?
      {
        if k in AllOf(es[..n]) {
          var i :| 0 <= i < n && es[..n][i].0 == k && es[..n][i].1.Some?;
          assert es[i] == es[..n][i];
        } else {
          assert es[n].0 == k && es[n].1.Some?;
        }
      }
    }
  }

  /** The fixed columns are exactly the fixed-element part of the document. */
  lemma {:induction false} FixedIsRestriction(es: seq<(string, Option<real>)>)
    ensures FixedOf(es) == map k | k in AllOf(es) && k in FixedElements :: AllOf(es)[k]
  {
    if es != [] {
      FixedIsRestriction(es[..|es| - 1]);
    }
  }

  /**
   * With distinct keys, the document holds exactly the non-null entries, and the fixed
   * columns are exactly its fixed-element part.
   */
  lemma PartitionSpec(es: seq<(string, Option<real>)>)
    requires forall i, j | 0 <= i < j < |es| :: es[i].0 != es[j].0
    ensures forall i | 0 <= i < |es| && es[i].1.Some? :: es[i].0 in AllOf(es) && AllOf(es)[es[i].0] == es[i].1.value
    ensures forall k | k in AllOf(es) :: exists i | 0 <= i < |es| :: es[i].0 == k && es[i].1.Some?
    ensures FixedOf(es) == map k | k in AllOf(es) && k in FixedElements :: AllOf(es)[k]
  {
    AllOfHolds(es);
    AllOfOnlyFrom(es);
    FixedIsRestriction(es);
  }

  /** The loop of `create_icp_result` over the row's items. */
  method PartitionElements(es: seq<(string, Option<real>)>) returns (fixed: map<string, real>, all: map<string, real>)
    ensures fixed == FixedOf(es) && all == AllOf(es)
  {
    fixed, all := map[], map[];
    var i := 0;
    while i < |es|
      invariant 0 <= i <= |es| && fixed == FixedOf(es[..i]) && all == AllOf(es[..i])
    {
      var (key, value) := es[i];
      assert es[..i + 1][..i] == es[..i];
      if key in FixedElements && value.Some? {
        fixed := fixed[key := value.value];
        all := all[key := value.value];
      } else if value.Some? {
        all := all[key := value.value];
      }
      i := i + 1;
    }
    assert es[..i] == es;
  }

  // ---------------------------------------------------------------- the store

  /** An experiment as the lookup sees it. */
  datatype ExpRef = ExpRef(id: int, experimentId: string)

  /** An `ExperimentalResults` row as this service uses it. */
  datatype ResultEntry = ResultEntry(id: int, experimentFk: int, time: Option<real>, description: string)

  /** An `ICPResults` row: the fixed columns present, the document, and the metadata. */
  datatype IcpRecord = IcpRecord(fixed: map<string, real>, allElements: Option<map<string, real>>, dilution: Option<real>, rawLabel: Option<string>)

  /** What `create_icp_result` writes for a row, on both the create and the update path. */
  function RecordOf(row: IcpRow): (r: IcpRecord)
    ensures r.allElements.None? <==> AllOf(row.elements) == map[]
  {
    var all := AllOf(row.elements);
    IcpRecord(FixedOf(row.elements), if all == map[] then None else Some(all), row.dilution, row.rawLabel)
  }

  /** `experiment_id.lower()` without hyphens and underscores. */
  function PyNorm(s: string): string {
    RemoveChars(Lower(s), {'-', '_'})
  }

  /** The same normalisation done in SQL: replacements first, then `lower`. */
  function SqlNorm(s: string): string {
    Lower(RemoveChars(s, {'-', '_'}))
  }

  /** Both orders give the same text, so the lookup is symmetric in the two spellings. */
  lemma NormAgree(s: string)
    ensures SqlNorm(s) == PyNorm(s)
  {
    LowerRemoveCommute(s, {'-', '_'});
  }

  /** `_find_experiment`: the first experiment whose normalised id equals the normalised text. */
  function FindExperiment(exps: seq<ExpRef>, experimentId: string): (r: Option<nat>)
    ensures r.Some? ==> r.value < |exps| && SqlNorm(exps[r.value].experimentId) == PyNorm(experimentId)
    ensures r.Some? ==> forall j | 0 <= j < r.value :: SqlNorm(exps[j].experimentId) != PyNorm(experimentId)
    ensures r.None? ==> forall j | 0 <= j < |exps| :: SqlNorm(exps[j].experimentId) != PyNorm(experimentId)
    decreases |exps|
  {
    if exps == [] then None
    else if SqlNorm(exps[0].experimentId) == PyNorm(experimentId) then Some(0)
    else match FindExperiment(exps[1..], experimentId)
      case None => None
      case Some(k) => Some(k + 1)
  }

  /** Ids that differ only in case, hyphens and underscores find the same experiment. */
  lemma FindExperimentSpelling(exps: seq<ExpRef>, a: string, b: string)
    requires PyNorm(a) == PyNorm(b)
    ensures FindExperiment(exps, a) == FindExperiment(exps, b)
    decreases |exps|
  {
    if exps != [] {
      FindExperimentSpelling(exps[1..], a, b);
    }
  }

  /** The first result of the experiment at exactly this time (`filter_by(...).first()`). */
  function FindResult(results: seq<ResultEntry>, experimentFk: int, time: Option<real>): (r: Option<nat>)
    ensures r.Some? ==> r.value < |results| && results[r.value].experimentFk == experimentFk && results[r.value].time == time
    ensures r.None? ==> forall j | 0 <= j < |results| :: !(results[j].experimentFk == experimentFk && results[j].time == time)
    decreases |results|
  {
    if results == [] then None
    else if results[0].experimentFk == experimentFk && results[0].time == time then Some(0)
    else match FindResult(results[1..], experimentFk, time)
      case None => None
      case Some(k) => Some(k + 1)
  }

  /** The description `create_icp_result` gives a new result row. */
  function DescriptionOf(row: IcpRow): string {
    "ICP Analysis - " + (if row.rawLabel.Some? then row.rawLabel.value else "Unknown")
  }

  /** How `create_icp_result` ended. */
  datatype IcpOutcome = Created(result: nat) | Updated(result: nat) | ExperimentNotFound

  /** A bulk message: skipped rows, overwrites, a missing experiment. */
  datatype BulkMessage =
    | MissingExperimentId(sample: nat)
    | MissingTime(sample: nat)
    | UpdatedExisting(sample: nat, experimentId: string, time: real)
    | NotFound(sample: nat, experimentId: string)

  /** The columns `ExperimentalResults` has. */
  const ResultColumns: set<string> := {
    "id", "experiment_fk", "time_post_reaction_days", "time_post_reaction_bucket_days",
    "cumulative_time_post_reaction_days", "is_primary_timepoint_result", "description", "created_at", "updated_at"}

  /** `filter_by` raises unless every keyword names a column. */
  predicate FilterByAccepts(keys: seq<string>) {
    forall i | 0 <= i < |keys| :: keys[i] in ResultColumns
  }

  /** The keywords the lookup of `_find_or_create_experimental_result` passes, as written. */
  const LookupKeysAsWritten: seq<string> := ["experiment_fk", "time_post_reaction"]

  /** The keywords it evidently means: the time column is `time_post_reaction_days`. */
  const LookupKeysIntended: seq<string> := ["experiment_fk", "time_post_reaction_days"]

  /**
   * `_find_or_create_experimental_result` as written: when `filter_by` rejects its keywords
   * the call raises (none here) before anything is found or created.
   */
  function FindOrCreateAsWritten(results: seq<ResultEntry>, experimentFk: int, time: Option<real>): Option<Option<nat>> {
    if !FilterByAccepts(LookupKeysAsWritten) then None else Some(FindResult(results, experimentFk, time))
  }

  /**
   * As written, the lookup raises for every input, while the intended keywords are accepted:
   * the keyword name alone decides it, whatever the table holds.
   */
  lemma FindOrCreateAsWrittenRaises(results: seq<ResultEntry>, experimentFk: int, time: Option<real>)
    ensures FindOrCreateAsWritten(results, experimentFk, time).None?
    ensures FilterByAccepts(LookupKeysIntended)
  {
    assert LookupKeysAsWritten[1] !in ResultColumns;
  }

  /** The experiments, result rows and ICP rows (by result id) the service reads and writes. */
  class IcpStore {
    var experiments: seq<ExpRef>
    var results: seq<ResultEntry>
    var icp: map<int, IcpRecord>

    /** Result ids ascend in table order, so one above the last is unused. */
    predicate Valid()
      reads this
    {
      Ascending(results)
    }

    constructor (experiments: seq<ExpRef>, results: seq<ResultEntry>, icp: map<int, IcpRecord>)
      requires Ascending(results)
      ensures Valid() && this.experiments == experiments && this.results == results && this.icp == icp
    {
      this.experiments := experiments;
      this.results := results;
      this.icp := icp;
    }

    /**
     * `_find_or_create_experimental_result` with the intended time column: the first result
     * of the experiment at exactly this time, or a new one appended.
     */
    method FindOrCreate(experimentFk: int, time: Option<real>, description: string) returns (idx: nat)
      requires Valid()
      modifies this
      ensures Valid() && experiments == old(experiments) && icp == old(icp)
      ensures FindResult(old(results), experimentFk, time).Some? ==>
        results == old(results) && idx == FindResult(old(results), experimentFk, time).value
      ensures FindResult(old(results), experimentFk, time).None? ==>
        results == old(results) + [ResultEntry(NextId(old(results)), experimentFk, time, description)] && idx == |old(results)|
      ensures idx < |results| && results[idx].experimentFk == experimentFk && results[idx].time == time
    {
      var found := FindResult(results, experimentFk, time);
      if found.Some? {
        return found.value;
      }
      results := results + [ResultEntry(NextId(results), experimentFk, time, description)];
      idx := |results| - 1;
    }

    /**
     * `create_icp_result`: an unknown experiment is an error; otherwise the result row for
     * the time point is found or created and its ICP data written in full, over any data
     * already there.
     */
    method CreateIcpResult(experimentId: string, row: IcpRow) returns (outcome: IcpOutcome)
      requires Valid()
      modifies this
      ensures Valid() && experiments == old(experiments)
      ensures (outcome, Tables(results, icp)) == Create(experiments, Tables(old(results), old(icp)), experimentId, row)
    {
      var found := FindExperiment(experiments, experimentId);
      if found.None? {
        return ExperimentNotFound;
      }
      var experiment := experiments[found.value];
      var k := FindOrCreate(experiment.id, row.time, DescriptionOf(row));
      var fixed, all := PartitionElements(row.elements);
      var record := IcpRecord(fixed, if all == map[] then None else Some(all), row.dilution, row.rawLabel);
      var resultId := results[k].id;
      if resultId in icp {
        icp := icp[resultId := record];
        return Updated(k);
      }
      icp := icp[resultId := record];
      outcome := Created(k);
    }

    /**
     * `bulk_create_icp_results`: rows without an experiment id or a time are reported and
     * skipped; the others are written, and an overwrite or an unknown experiment is reported.
     */
    method BulkCreate(data: seq<IcpRow>) returns (written: seq<nat>, messages: seq<BulkMessage>)
      requires Valid()
      modifies this
      ensures Valid() && experiments == old(experiments)
      ensures Batch(written, messages, Tables(results, icp)) == Bulk(experiments, Tables(old(results), old(icp)), data)
    {
      written, messages := [], [];
      ghost var t0 := Tables(results, icp);
      var idx := 0;
      while idx < |data|
        invariant 0 <= idx <= |data| && Valid() && experiments == old(experiments)
        invariant Batch(written, messages, Tables(results, icp)) == Bulk(experiments, t0, data[..idx])
      {
        var row := data[idx];
        assert data[..idx + 1] == data[..idx] + [row];
        if MissingId(row) {
          messages := messages + [MissingExperimentId(idx + 1)];
        } else if row.time.None? {
          messages := messages + [MissingTime(idx + 1)];
        } else {
          var outcome := CreateIcpResult(row.experimentId.value, row);
          match outcome {
            case ExperimentNotFound =>
              messages := messages + [NotFound(idx + 1, row.experimentId.value)];
            case Created(k) =>
              written := written + [k];
            case Updated(k) =>
              written := written + [k];
              messages := messages + [UpdatedExisting(idx + 1, row.experimentId.value, row.time.value)];
          }
        }
        idx := idx + 1;
      }
      assert data[..idx] == data;
    }
  }

  /** The two tables ICP creation writes: result rows and ICP data by result id. */
  datatype Tables = Tables(results: seq<ResultEntry>, icp: map<int, IcpRecord>)

  predicate Ascending(results: seq<ResultEntry>) {
    forall a, b | 0 <= a < b < |results| :: results[a].id < results[b].id
  }

  /** `create_icp_result` on table values. */
  function Create(exps: seq<ExpRef>, t: Tables, experimentId: string, row: IcpRow): (IcpOutcome, Tables) {
    match FindExperiment(exps, experimentId)
    case None => (ExperimentNotFound, t)
    case Some(j) =>
      var fk := exps[j].id;
      var results := match FindResult(t.results, fk, row.time)
        case Some(_) => t.results
        case None => t.results + [ResultEntry(NextId(t.results), fk, row.time, DescriptionOf(row))];
      var k := match FindResult(t.results, fk, row.time)
        case Some(k) => k
        case None => |t.results|;
      var id := results[k].id;
      (if id in t.icp then Updated(k) else Created(k), Tables(results, t.icp[id := RecordOf(row)]))
  }

  /**
   * What one creation promises: an unknown experiment changes nothing; otherwise the row
   * for the experiment and time is reused or appended, its ICP data replaced by exactly the
   * new row's, and the outcome is an update exactly when ICP data was there before.
   */
  lemma CreateSpec(exps: seq<ExpRef>, t: Tables, experimentId: string, row: IcpRow)
    requires Ascending(t.results)
    ensures var (outcome, t') := Create(exps, t, experimentId, row);
      && Ascending(t'.results)
      && (FindExperiment(exps, experimentId).None? <==> outcome == ExperimentNotFound)
      && (outcome == ExperimentNotFound ==> t' == t)
      && (outcome != ExperimentNotFound ==>
           var e := exps[FindExperiment(exps, experimentId).value];
           var k := outcome.result;
           && k < |t'.results| && t'.results[k].experimentFk == e.id && t'.results[k].time == row.time
           && t'.icp == t.icp[t'.results[k].id := RecordOf(row)]
           && (outcome.Updated? <==> t'.results[k].id in t.icp)
           && t'.results == t.results + (if FindResult(t.results, e.id, row.time).Some? then []
                else [ResultEntry(NextId(t.results), e.id, row.time, DescriptionOf(row))]))
  {
  }

  /** Writing the same row twice leaves the tables as one write does: overwrites do not merge. */
  lemma CreateIdempotent(exps: seq<ExpRef>, t: Tables, experimentId: string, row: IcpRow)
    requires Ascending(t.results)
    ensures var (_, t1) := Create(exps, t, experimentId, row);
      Create(exps, t1, experimentId, row).1 == t1
  {
    var (o1, t1) := Create(exps, t, experimentId, row);
    CreateSpec(exps, t, experimentId, row);
    if o1 != ExperimentNotFound {
      var fk := exps[FindExperiment(exps, experimentId).value].id;
      var k := FindResult(t1.results, fk, row.time);
      assert k.Some?;
      FindResultPrefix(t.results, t1.results, fk, row.time);
    }
  }

  /** Appending rows does not change which row is found first, when one was found before. */
  lemma {:induction false} FindResultPrefix(rs: seq<ResultEntry>, rs': seq<ResultEntry>, fk: int, time: Option<real>)
    requires rs <= rs'
    ensures FindResult(rs, fk, time).Some? ==> FindResult(rs', fk, time) == FindResult(rs, fk, time)
    ensures FindResult(rs, fk, time).None? && |rs'| == |rs| + 1 && rs'[|rs|].experimentFk == fk && rs'[|rs|].time == time ==>
      FindResult(rs', fk, time) == Some(|rs|)
    decreases |rs|
  {
    if rs != [] {
      assert rs[1..] <= rs'[1..];
      FindResultPrefix(rs[1..], rs'[1..], fk, time);
    } else if |rs'| == 1 {
    }
  }

  /** What the batch returns: the written rows, the messages, and the tables afterwards. */
  datatype Batch = Batch(written: seq<nat>, messages: seq<BulkMessage>, tables: Tables)

  /** `bulk_create_icp_results` on table values, row by row. */
  function Bulk(exps: seq<ExpRef>, t: Tables, data: seq<IcpRow>): Batch
    decreases |data|
  {
    if data == [] then Batch([], [], t)
    else
      var n := |data| - 1;
      var b := Bulk(exps, t, data[..n]);
      var row := data[n];
      if MissingId(row) then Batch(b.written, b.messages + [MissingExperimentId(n + 1)], b.tables)
      else if row.time.None? then Batch(b.written, b.messages + [MissingTime(n + 1)], b.tables)
      else
        var (outcome, t') := Create(exps, b.tables, row.experimentId.value, row);
        match outcome
        case ExperimentNotFound => Batch(b.written, b.messages + [NotFound(n + 1, row.experimentId.value)], t')
        case Created(k) => Batch(b.written + [k], b.messages, t')
        case Updated(k) => Batch(b.written + [k], b.messages + [UpdatedExisting(n + 1, row.experimentId.value, row.time.value)], t')
  }

  /** The result ids stay ascending, no row is removed, and every written row exists. */
  lemma {:induction false} BulkKeepsTables(exps: seq<ExpRef>, t: Tables, data: seq<IcpRow>)
    requires Ascending(t.results)
    ensures var b := Bulk(exps, t, data);
      && Ascending(b.tables.results)
      && t.results <= b.tables.results
      && (forall w | w in b.written :: w < |b.tables.results|)
    decreases |data|
  {
    if data != [] {
      var n := |data| - 1;
      BulkKeepsTables(exps, t, data[..n]);
      var b := Bulk(exps, t, data[..n]);
      if !MissingId(data[n]) && data[n].time.Some? {
        CreateSpec(exps, b.tables, data[n].experimentId.value, data[n]);
      }
    }
  }

  /** One more row keeps the messages so far and reports the row if it is skipped. */
  lemma BulkStepMessages(exps: seq<ExpRef>, t: Tables, data: seq<IcpRow>)
    requires data != []
    ensures var n := |data| - 1;
      var before := Bulk(exps, t, data[..n]).messages;
      var after := Bulk(exps, t, data).messages;
      && before <= after
      && (MissingId(data[n]) ==> MissingExperimentId(n + 1) in after)
      && (!MissingId(data[n]) && data[n].time.None? ==> MissingTime(n + 1) in after)
  {
  }

  /** The message for a skipped row stays among the messages as later rows are processed. */
  lemma {:induction false} BulkReportsRow(exps: seq<ExpRef>, t: Tables, data: seq<IcpRow>, i: nat)
    requires i < |data|
    ensures MissingId(data[i]) ==> MissingExperimentId(i + 1) in Bulk(exps, t, data).messages
    ensures !MissingId(data[i]) && data[i].time.None? ==> MissingTime(i + 1) in Bulk(exps, t, data).messages
    decreases |data|
  {
    var n := |data| - 1;
    BulkStepMessages(exps, t, data);
    if i < n {
      BulkReportsRow(exps, t, data[..n], i);
      assert data[..n][i] == data[i];
    }
  }

  /**
   * Every row without an experiment id, and every row with one but without a time, is
   * reported under its 1-based number.
   */
  lemma BulkReportsSkips(exps: seq<ExpRef>, t: Tables, data: seq<IcpRow>)
    ensures var b := Bulk(exps, t, data);
      && (forall i | 0 <= i < |data| && MissingId(data[i]) :: MissingExperimentId(i + 1) in b.messages)
      && (forall i | 0 <= i < |data| && !MissingId(data[i]) && data[i].time.None? :: MissingTime(i + 1) in b.messages)
  {
    forall i | 0 <= i < |data|
      ensures MissingId(data[i]) ==> MissingExperimentId(i + 1) in Bulk(exps, t, data).messages
      ensures !MissingId(data[i]) && data[i].time.None? ==> MissingTime(i + 1) in Bulk(exps, t, data).messages
    {
      BulkReportsRow(exps, t, data, i);
    }
  }

  /** Each row is either skipped or passed to creation, so writes and skips never exceed the rows. */
  lemma {:induction false} BulkCountsRows(exps: seq<ExpRef>, t: Tables, data: seq<IcpRow>)
    ensures |Bulk(exps, t, data).written| + |Skipped(data)| <= |data|
    decreases |data|
  {
    if data != [] {
      var n := |data| - 1;
      BulkCountsRows(exps, t, data[..n]);
      assert data == data[..n] + [data[n]];
      SkippedSnoc(data[..n], data[n]);
    }
  }

  /** A batch in which every row is skipped writes nothing. */
  lemma {:induction false} BulkAllSkipped(exps: seq<ExpRef>, t: Tables, data: seq<IcpRow>)
    requires forall i | 0 <= i < |data| :: MissingId(data[i]) || data[i].time.None?
    ensures Bulk(exps, t, data).written == [] && Bulk(exps, t, data).tables == t
    ensures |Bulk(exps, t, data).messages| == |data|
    decreases |data|
  {
    if data != [] {
      BulkAllSkipped(exps, t, data[..|data| - 1]);
    }
  }

  /** The id a new result row receives: one above the last, or 1. */
  function NextId(results: seq<ResultEntry>): (id: int)
    ensures forall j | 0 <= j < |results| :: results[j].id < id || j < |results| - 1
  {
    if results == [] then 1 else results[|results| - 1].id + 1
  }

  /** The rows bulk creation skips without touching the store. */
  function Skipped(data: seq<IcpRow>): (r: seq<IcpRow>)
    ensures |r| <= |data|
  {
    if data == [] then []
    else
      var n := |data| - 1;
      Skipped(data[..n]) + (if MissingId(data[n]) || data[n].time.None? then [data[n]] else [])
  }

  lemma SkippedSnoc(data: seq<IcpRow>, row: IcpRow)
    ensures Skipped(data + [row]) == Skipped(data) + (if MissingId(row) || row.time.None? then [row] else [])
  {
    assert (data + [row])[..|data|] == data;
  }
}
