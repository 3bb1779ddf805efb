/**
 * Data migration 008: rewrites stored pXRF reading numbers such as "34.0" as "34", in the
 * reading table and in the reading references of external analyses. Unlike utils/pxrf.py it
 * converts with `int(float(part))` whenever the part contains a point, so it truncates.
 */
module PxrfNormalize008 {
  import opened Wrappers
  import opened PyStr
  import opened PyNum
  import Pxrf

  /** The rule applied to one trimmed, non-empty part. */
  function NormalizePart(part: string): string {
    if '.' in part && IsDigits(Pxrf.NumericCandidate(part)) then
      match ParseDecimal(part)
      case Some(d) => IntToString(Truncate(d))
      case None => part
    else part
  }

  /** The comma pieces trimmed, empty ones dropped, each rewritten by `NormalizePart`. */
  function NormalizedParts(pieces: seq<string>): seq<string>
    decreases |pieces|
  {
    if pieces == [] then []
    else
      var p := Strip(pieces[0]);
      (if p == [] then [] else [NormalizePart(p)]) + NormalizedParts(pieces[1..])
  }

  /** `normalize_reading_number`. */
  function NormalizeReadingNumber(val: string): string {
    if AllSpace(val) then val
    else
      var v := Strip(val);
      if ',' in v then Join(NormalizedParts(Split(v, ',')), ',') else NormalizePart(v)
  }

  /** An empty or whitespace-only value is returned as it is, not as "". */
  lemma BlankUnchanged(val: string)
    requires AllSpace(val)
    ensures NormalizeReadingNumber(val) == val
  {
  }

  /**
   * A comma-free value with a point whose candidate is all digits becomes `int(float(v))`,
   * truncated toward zero; a comma-free value without a point is only trimmed ("007" stays).
   */
  lemma SingleValueRule(val: string)
    requires !AllSpace(val) && ',' !in Strip(val)
    ensures var v, r := Strip(val), NormalizeReadingNumber(val);
      ('.' !in v ==> r == v)
      && ('.' in v && IsDigits(Pxrf.NumericCandidate(v)) && ParseDecimal(v).Some? ==>
            r == IntToString(Truncate(ParseDecimal(v).value))
            && var x, t := Value(ParseDecimal(v).value), Truncate(ParseDecimal(v).value) as real;
               (x >= 0.0 ==> t <= x < t + 1.0) && (x < 0.0 ==> t - 1.0 < x <= t))
  {
    var v := Strip(val);
    if ParseDecimal(v).Some? {
      TruncateTowardZero(ParseDecimal(v).value);
    }
  }

  /** The candidate of an unsigned "digits.digits" literal is its digits with the point removed. */
  lemma CandidateOf(ip: string, fp: string)
    requires AllDigits(ip) && AllDigits(fp)
    ensures Pxrf.NumericCandidate(ip + "." + fp) == ip + fp
  {
    RemoveFirstSkip(ip, fp, '.');
    RemoveFirstAbsent(ip + fp, '-');
  }

  /** An unsigned "digits.digits" literal has no surrounding space, no comma and a point. */
  lemma PointedShape(ip: string, fp: string)
    requires IsDigits(ip) && AllDigits(fp)
    ensures var v := ip + "." + fp;
      !AllSpace(v) && Strip(v) == v && ',' !in v && '.' in v
  {
    var v := ip + "." + fp;
    assert v[|ip|] == '.';
    assert IsStripped(v) by {
      assert v[0] == ip[0];
      assert fp != [] ==> v[|v| - 1] == fp[|fp| - 1];
    }
    StripOfStripped(v);
    assert !IsSpace(v[0]);
  }

  /** An unsigned "digits.digits" literal parses as that decimal, and its candidate is all digits. */
  lemma PointedParses(ip: string, fp: string)
    requires IsDigits(ip) && AllDigits(fp)
    ensures var v := ip + "." + fp;
      IsDigits(Pxrf.NumericCandidate(v)) && ParseDecimal(v) == Some(Decimal(NoSign, ip, true, fp))
  {
    var d := Decimal(NoSign, ip, true, fp);
    RenderThenParse(d);
    assert Render(d) == ip + "." + fp;
    CandidateOf(ip, fp);
  }

  /** An unsigned "digits.digits" literal as a whole stored value. */
  lemma PointedLiteral(ip: string, fp: string)
    requires IsDigits(ip) && AllDigits(fp)
    ensures var v := ip + "." + fp;
      !AllSpace(v) && Strip(v) == v && ',' !in v && '.' in v
      && IsDigits(Pxrf.NumericCandidate(v))
      && ParseDecimal(v) == Some(Decimal(NoSign, ip, true, fp))
  {
    PointedShape(ip, fp);
    PointedParses(ip, fp);
  }

  /**
   * Any "digits.digits" value becomes its integer part: "12.5" is cut to "12" here, and
   * "34.0" becomes "34".
   */
  lemma PointedValueTruncated(ip: string, fp: string)
    requires IsDigits(ip) && AllDigits(fp)
    ensures NormalizeReadingNumber(ip + "." + fp) == NatToString(DigitsValue(ip))
  {
    PointedLiteral(ip, fp);
  }

  /**
   * utils/pxrf.py rewrites the same literal only when its fraction is zero, and keeps it
   * unchanged otherwise ("12.5" stays "12.5").
   */
  lemma UtilsOnPointedValue(ip: string, fp: string)
    requires IsDigits(ip) && AllDigits(fp)
    ensures Pxrf.NormalizeToken(Some(ip + "." + fp))
      == if DigitsValue(fp) == 0 then NatToString(DigitsValue(ip)) else ip + "." + fp
  {
    var v := ip + "." + fp;
    PointedLiteral(ip, fp);
    assert Pxrf.IntegralText(v) == if DigitsValue(fp) == 0 then Some(NatToString(DigitsValue(ip))) else None;
  }

  /** The two normalisers agree on a "digits.digits" value exactly when its fraction is zero. */
  lemma AgreeIffIntegral(ip: string, fp: string)
    requires IsDigits(ip) && AllDigits(fp)
    ensures Pxrf.NormalizeToken(Some(ip + "." + fp)) == NormalizeReadingNumber(ip + "." + fp)
      <==> DigitsValue(fp) == 0
  {
    var v := ip + "." + fp;
    UtilsOnPointedValue(ip, fp);
    PointedValueTruncated(ip, fp);
    if DigitsValue(fp) != 0 {
      NatToStringCanonical(DigitsValue(ip));
      assert v[|ip|] == '.';
      assert '.' !in NatToString(DigitsValue(ip));
    }
  }

  /** "12.5" is cut to "12" by this migration but kept by utils/pxrf.py. */
  lemma TruncatesFraction()
    ensures NormalizeReadingNumber("12.5") == "12"
    ensures Pxrf.NormalizeToken(Some("12.5")) == "12.5"
  {
    var ip, fp := "12", "5";
    TwelveFive(ip, fp);
    assert NormalizeReadingNumber("12.5") == NatToString(DigitsValue(ip)) by {
      PointedValueTruncated(ip, fp);
    }
    assert Pxrf.NormalizeToken(Some("12.5")) == ip + "." + fp by {
      UtilsOnPointedValue(ip, fp);
    }
  }

  lemma TwelveFive(ip: string, fp: string)
    requires ip == "12" && fp == "5"
    ensures ip + "." + fp == "12.5" && IsDigits(ip) && AllDigits(fp)
    ensures DigitsValue(ip) == 12 && DigitsValue(fp) == 5 && NatToString(12) == "12"
  {
    assert DigitsValue("12") == 12 && DigitsValue("5") == 5;
    assert NatToString(12) == NatToString(1) + [DigitChar(2)] == "12";
  }

  /** "34.0" becomes "34" under both normalisers. */
  lemma BothWriteInteger()
    ensures NormalizeReadingNumber("34.0") == "34"
    ensures Pxrf.NormalizeToken(Some("34.0")) == "34"
  {
    assert DigitsValue("34") == 34 && DigitsValue("0") == 0;
    assert NatToString(34) == "34";
    assert "34" + "." + "0" == "34.0";
    assert NormalizeReadingNumber("34.0") == NatToString(DigitsValue("34")) by {
      PointedValueTruncated("34", "0");
    }
    assert Pxrf.NormalizeToken(Some("34.0")) == NatToString(DigitsValue("34")) by {
      UtilsOnPointedValue("34", "0");
    }
  }

  /**
   * On an integral value with a point the two normalisers agree: both write the integer.
   */
  lemma AgreesWithUtilsOnIntegral(val: string)
    requires !AllSpace(val) && ',' !in Strip(val) && '.' in Strip(val)
    requires ParseDecimal(Strip(val)).Some? && IsIntegral(ParseDecimal(Strip(val)).value)
    ensures NormalizeReadingNumber(val) == Pxrf.NormalizeToken(Some(val))
  {
    StripProps(val);
  }

  /**
   * For a list, the parts kept are exactly the trimmed non-empty pieces, in order, each
   * rewritten by the single-value rule.
   */
  lemma {:induction false} PartsRule(pieces: seq<string>)
    ensures |NormalizedParts(pieces)| == |Pxrf.NonEmptyStripped(pieces)|
    ensures forall i :: 0 <= i < |NormalizedParts(pieces)| ==>
      NormalizedParts(pieces)[i] == NormalizePart(Pxrf.NonEmptyStripped(pieces)[i])
    decreases |pieces|
  {
    if pieces != [] {
      PartsRule(pieces[1..]);
    }
  }

  // ---------------------------------------------------------------- the migration's row loops

  datatype AnalysisRow = AnalysisRow(sampleId: string, pxrfReadingNo: Option<string>)

  function NormalizedAnalysis(a: AnalysisRow): AnalysisRow {
    match a.pxrfReadingNo
    case Some(v) => a.(pxrfReadingNo := Some(NormalizeReadingNumber(v)))
    case None => a
  }

  /** Every reading number rewritten, in table order. */
  function NormalizedReadings(rs: seq<string>): (r: seq<string>)
    ensures |r| == |rs|
    decreases |rs|
  {
    if rs == [] then [] else NormalizedReadings(rs[..|rs| - 1]) + [NormalizeReadingNumber(rs[|rs| - 1])]
  }

  /** Every analysis reference rewritten, in table order; analyses without one are untouched. */
  function NormalizedAnalyses(xs: seq<AnalysisRow>): (r: seq<AnalysisRow>)
    ensures |r| == |xs|
    decreases |xs|
  {
    if xs == [] then [] else NormalizedAnalyses(xs[..|xs| - 1]) + [NormalizedAnalysis(xs[|xs| - 1])]
  }

  lemma {:induction false} NormalizedReadingsAt(rs: seq<string>, i: nat)
    requires i < |rs|
    ensures NormalizedReadings(rs)[i] == NormalizeReadingNumber(rs[i])
    decreases |rs|
  {
    if i < |rs| - 1 {
      NormalizedReadingsAt(rs[..|rs| - 1], i);
    }
  }

  lemma {:induction false} NormalizedAnalysesAt(xs: seq<AnalysisRow>, i: nat)
    requires i < |xs|
    ensures NormalizedAnalyses(xs)[i] == NormalizedAnalysis(xs[i])
    ensures NormalizedAnalyses(xs)[i].sampleId == xs[i].sampleId
    ensures xs[i].pxrfReadingNo.None? ==> NormalizedAnalyses(xs)[i] == xs[i]
    decreases |xs|
  {
    if i < |xs| - 1 {
      NormalizedAnalysesAt(xs[..|xs| - 1], i);
    }
  }

  /** The (old, new) pairs the reading loop reports, in table order. */
  function ReadingChanges(rs: seq<string>): seq<(string, string)> {
    ChangesBy(rs, NormalizeReadingNumber)
  }

  /** The (old, new) pairs of the values that `f` changes, in order. */
  function ChangesBy(rs: seq<string>, f: string -> string): seq<(string, string)>
    decreases |rs|
  {
    if rs == [] then []
    else
      var r := rs[|rs| - 1];
      ChangesBy(rs[..|rs| - 1], f) + (if f(r) != r then [(r, f(r))] else [])
  }

  /** The (sample, old, new) triples the analysis loop reports, in table order. */
  function AnalysisChanges(xs: seq<AnalysisRow>): seq<(string, string, string)>
    decreases |xs|
  {
    if xs == [] then []
    else
      var a := xs[|xs| - 1];
      AnalysisChanges(xs[..|xs| - 1])
        + (match a.pxrfReadingNo
           case Some(v) =>
             if NormalizeReadingNumber(v) != v then [(a.sampleId, v, NormalizeReadingNumber(v))] else []
           case None => [])
  }

  lemma ReadingChangesAreChanges(rs: seq<string>)
    ensures forall c :: c in ReadingChanges(rs) ==> c.0 in rs && c.1 == NormalizeReadingNumber(c.0) && c.0 != c.1
    ensures forall i :: 0 <= i < |rs| && NormalizeReadingNumber(rs[i]) != rs[i] ==>
      (rs[i], NormalizeReadingNumber(rs[i])) in ReadingChanges(rs)
  {
    ChangesBySound(rs, NormalizeReadingNumber);
    forall i | 0 <= i < |rs| && NormalizeReadingNumber(rs[i]) != rs[i]
      ensures (rs[i], NormalizeReadingNumber(rs[i])) in ReadingChanges(rs)
    {
      ChangesByAt(rs, NormalizeReadingNumber, i);
    }
  }

  /** Every reported pair is a value of the list and its changed image. */
  lemma {:induction false} ChangesBySound(rs: seq<string>, f: string -> string)
    ensures forall c :: c in ChangesBy(rs, f) ==> c.0 in rs && c.1 == f(c.0) && c.0 != c.1
    decreases |rs|
  {
    if rs != [] {
      var init := rs[..|rs| - 1];
      ChangesBySound(init, f);
      assert forall x | x in init :: x in rs;
    }
  }

  /** Every value that `f` changes is reported with its image. */
  lemma {:induction false} ChangesByAt(rs: seq<string>, f: string -> string, i: nat)
    requires i < |rs| && f(rs[i]) != rs[i]
    ensures (rs[i], f(rs[i])) in ChangesBy(rs, f)
    decreases |rs|
  {
    var init := rs[..|rs| - 1];
    if i < |init| {
      assert init[i] == rs[i];
      ChangesByAt(init, f, i);
    }
  }

  /** One iteration of the reading loop: the report grows by the row's change, the table by its rewrite. */
  lemma ReadingStep(rs: seq<string>, i: nat, dryRun: bool, cur: seq<string>)
    requires i < |rs|
    requires cur == if dryRun then rs else NormalizedReadings(rs[..i]) + rs[i..]
    ensures var o, n := rs[i], NormalizeReadingNumber(rs[i]);
      ReadingChanges(rs[..i + 1]) == ReadingChanges(rs[..i]) + (if o != n then [(o, n)] else [])
      && (if dryRun || o == n then cur else cur[i := n])
         == if dryRun then rs else NormalizedReadings(rs[..i + 1]) + rs[i + 1..]
  {
    assert rs[..i + 1][..i] == rs[..i];
    assert rs[i..] == [rs[i]] + rs[i + 1..];
  }

  /** One iteration of the analysis loop. */
  lemma AnalysisStep(xs: seq<AnalysisRow>, j: nat, dryRun: bool, cur: seq<AnalysisRow>)
    requires j < |xs|
    requires cur == if dryRun then xs else NormalizedAnalyses(xs[..j]) + xs[j..]
    ensures var a := xs[j];
      AnalysisChanges(xs[..j + 1]) == AnalysisChanges(xs[..j])
        + (match a.pxrfReadingNo
           case Some(v) =>
             if NormalizeReadingNumber(v) != v then [(a.sampleId, v, NormalizeReadingNumber(v))] else []
           case None => [])
      && (if dryRun || a.pxrfReadingNo.None? || NormalizeReadingNumber(a.pxrfReadingNo.value) == a.pxrfReadingNo.value
          then cur else cur[j := a.(pxrfReadingNo := Some(NormalizeReadingNumber(a.pxrfReadingNo.value)))])
         == if dryRun then xs else NormalizedAnalyses(xs[..j + 1]) + xs[j + 1..]
  {
    assert xs[..j + 1][..j] == xs[..j];
    assert xs[j..] == [xs[j]] + xs[j + 1..];
  }

  /** The stored tables the migration reads and rewrites. */
  class PxrfTables {
    var readingNos: seq<string>
    var analyses: seq<AnalysisRow>

    constructor (readingNos0: seq<string>, analyses0: seq<AnalysisRow>)
      ensures readingNos == readingNos0 && analyses == analyses0
    {
      readingNos := readingNos0;
      analyses := analyses0;
    }

    /**
     * `normalize_pxrf_data`: reports every value whose normalisation differs and, unless
     * `dryRun`, rewrites exactly those values; first the reading table, then the analyses.
     */
    method NormalizeData(dryRun: bool) returns (readingChanges: seq<(string, string)>, analysisChanges: seq<(string, string, string)>)
      modifies this
      ensures readingChanges == ReadingChanges(old(readingNos))
      ensures analysisChanges == AnalysisChanges(old(analyses))
      ensures readingNos == if dryRun then old(readingNos) else NormalizedReadings(old(readingNos))
      ensures analyses == if dryRun then old(analyses) else NormalizedAnalyses(old(analyses))
    {
      readingChanges := NormalizeReadings(dryRun);
      analysisChanges := NormalizeAnalyses(dryRun);
    }

    /** Step 1 of `normalize_pxrf_data`: the reading table. */
    method NormalizeReadings(dryRun: bool) returns (changes: seq<(string, string)>)
      modifies this`readingNos
      ensures changes == ReadingChanges(old(readingNos))
      ensures readingNos == if dryRun then old(readingNos) else NormalizedReadings(old(readingNos))
    {
      var rs := readingNos;
      changes := [];
      var i := 0;
      while i < |rs|
        invariant 0 <= i <= |rs|
        invariant changes == ReadingChanges(rs[..i])
        invariant readingNos == if dryRun then rs else NormalizedReadings(rs[..i]) + rs[i..]
      {
        var original := rs[i];
        var normalized := NormalizeReadingNumber(original);
        ReadingStep(rs, i, dryRun, readingNos);
        if original != normalized {
          changes := changes + [(original, normalized)];
          if !dryRun {
            readingNos := readingNos[i := normalized];
          }
        }
        i := i + 1;
      }
      assert rs[..|rs|] == rs;
    }

    /** Step 2 of `normalize_pxrf_data`: analyses that reference a reading. */
    method NormalizeAnalyses(dryRun: bool) returns (changes: seq<(string, string, string)>)
      modifies this`analyses
      ensures changes == AnalysisChanges(old(analyses))
      ensures analyses == if dryRun then old(analyses) else NormalizedAnalyses(old(analyses))
    {
      var xs := analyses;
      changes := [];
      var j := 0;
      while j < |xs|
        invariant 0 <= j <= |xs|
        invariant changes == AnalysisChanges(xs[..j])
        invariant analyses == if dryRun then xs else NormalizedAnalyses(xs[..j]) + xs[j..]
      {
        var a := xs[j];
        AnalysisStep(xs, j, dryRun, analyses);
        if a.pxrfReadingNo.Some? {
          var original := a.pxrfReadingNo.value;
          var normalized := NormalizeReadingNumber(original);
          if original != normalized {
            changes := changes + [(a.sampleId, original, normalized)];
            if !dryRun {
              analyses := analyses[j := a.(pxrfReadingNo := Some(normalized))];
            }
          }
        }
        j := j + 1;
      }
      assert xs[..|xs|] == xs;
    }
  }
}
