/**
 * Experiment-ID validation (`backend/services/experiment_validation.py`): a second parser
 * for identifiers `Type_Initials_Index` and `Type_Index`, with optional `-N` sequential and
 * `_Text` treatment suffixes, that also checks the parts and collects warnings.
 */
module ExperimentValidation {
  import opened Wrappers
  import opened PyStr
  import opened Enums
  import Lineage

  /** The abbreviation table, keyed by lower-case text. */
  const Abbreviations: map<string, ExperimentType> := map[
    "serum" := Serum, "autoclave" := Autoclave, "hpht" := Hpht,
    "coreflood" := CoreFlood, "core flood" := CoreFlood, "cf" := CoreFlood,
    "other" := OtherType, "ac" := Autoclave]

  /** `get_experiment_type_from_id`. */
  function TypeFromId(typeText: string): (r: Option<ExperimentType>)
    ensures typeText == [] ==> r.None?
    ensures r.Some? ==> r.value in Abbreviations.Values
  {
    if typeText == [] then None
    else
      var key := Lower(Strip(typeText));
      if key in Abbreviations then Some(Abbreviations[key]) else None
  }

  /**
   * The type lookup ignores case and surrounding whitespace: the text gives the same type as
   * its trimmed, lower-cased form, and that form gives the table's entry or nothing.
   */
  lemma TypeIgnoresCaseAndSpace(t: string)
    ensures TypeFromId(t) == TypeFromId(Lower(Strip(t)))
    ensures var k := Lower(Strip(t));
      TypeFromId(t) == if k in Abbreviations then Some(Abbreviations[k]) else None
  {
    var k := Lower(Strip(t));
    StripProps(t);
    LowerStripCommute(Strip(t));
    StripIdempotent(t);
    LowerIdempotent(Strip(t));
    assert Strip(k) == k;
    assert Lower(k) == k;
    assert "" !in Abbreviations;
  }

  /** The documented lookups: "Serum", "CF" and "ac". */
  lemma TypeDocExamples(a: string, b: string, c: string)
    requires a == "Serum" && b == "CF" && c == "ac"
    ensures TypeFromId(a) == Some(Serum)
    ensures TypeFromId(b) == Some(CoreFlood)
    ensures TypeFromId(c) == Some(Autoclave)
  {
    assert Strip(a) == a && Lower(a) == "serum";
    assert Strip(b) == b && Lower(b) == "cf";
    assert Strip(c) == c && Lower(c) == "ac";
  }

  // ---------------------------------------------------------------- extract_lineage_info

  /** The treatment step: a last part that is not all digits, after more than two parts. */
  function SplitTreatment(b: string): (string, Option<string>) {
    var parts := Split(b, '_');
    var last := parts[|parts| - 1];
    if |parts| > 2 && !IsDigits(last) then (Join(parts[..|parts| - 1], '_'), Some(last))
    else (b, None)
  }

  /**
   * `extract_lineage_info`: the sequential number is looked for first, after the last hyphen
   * of the whole identifier; the treatment is then looked for in what remains.
   */
  function ExtractLineageInfo(id: string): (string, Option<nat>, Option<string>) {
    if id == [] then ("", None, None)
    else
      var bd := Lineage.SplitDerivation(id);
      var bt := SplitTreatment(bd.0);
      (bt.0, bd.1, bt.1)
  }

  /**
   * The treatment rule: a treatment is split off exactly when the text has more than two
   * underscore parts and the last one is not all digits; the text is then the rest, "_"
   * and the treatment.
   */
  lemma TreatmentRule(b: string)
    ensures var parts := Split(b, '_');
      var bt := SplitTreatment(b);
      && (bt.1.Some? <==> |parts| > 2 && !IsDigits(parts[|parts| - 1]))
      && (bt.1.Some? ==> bt.1.value == parts[|parts| - 1] && '_' !in bt.1.value && bt.0 + "_" + bt.1.value == b)
      && (bt.1.None? ==> bt.0 == b)
  {
    var parts := Split(b, '_');
    var n := |parts|;
    SplitPiecesFree(b, '_');
    if n > 2 {
      JoinSplit(b, '_');
      assert parts == parts[..n - 1] + [parts[n - 1]];
      JoinSnoc(parts[..n - 1], parts[n - 1], '_');
    }
  }

  /**
   * `extract_lineage_info` rules: the empty identifier gives ("", None, None); otherwise a
   * sequential number is found exactly when the text after the last hyphen of the whole
   * identifier is all digits, and the parts reassemble the identifier with the treatment
   * before the sequential suffix.
   */
  lemma ExtractRules(id: string)
    ensures id == [] ==> ExtractLineageInfo(id) == ("", None, None)
    ensures id != [] ==>
      var r := ExtractLineageInfo(id);
      && (r.1.Some? <==> '-' in id && IsDigits(id[LastIndexOf(id, '-') + 1..]))
      && id == r.0 + (if r.2.Some? then "_" + r.2.value else [])
               + (if r.1.Some? then "-" + id[LastIndexOf(id, '-') + 1..] else [])
  {
    if id != [] {
      Lineage.DerivationRule(id);
      var bd := Lineage.SplitDerivation(id);
      TreatmentRule(bd.0);
      var bt := SplitTreatment(bd.0);
      var dt := id[LastIndexOf(id, '-') + 1..];
      JoinParts(id, bd.0, bt.0, bt.1, if bd.1.Some? then Some(dt) else None);
    }
  }

  /** The identifier is the base, the treatment part, then the sequential part. */
  lemma JoinParts(id: string, b: string, base: string, t: Option<string>, d: Option<string>)
    requires b == base + (if t.Some? then "_" + t.value else [])
    requires id == if d.Some? then b + "-" + d.value else b
    ensures id == base + (if t.Some? then "_" + t.value else []) + (if d.Some? then "-" + d.value else [])
  {
    if d.Some? {
      assert b + "-" + d.value == b + ("-" + d.value);
    }
  }

  /**
   * A treatment written after the sequential number hides it: when the text after the last
   * hyphen holds an underscore, no sequential number is found.
   */
  lemma TreatedSequentialIsMissed(id: string)
    requires '-' in id && '_' in id[LastIndexOf(id, '-') + 1..]
    ensures ExtractLineageInfo(id).1.None?
  {
    Lineage.DerivationRule(id);
  }

  /** A text without hyphens has no sequential part: the derivation step leaves it whole. */
  lemma NoHyphenNoSequential(id: string)
    requires '-' !in id
    ensures Lineage.SplitDerivation(id) == (id, None)
  {
    Lineage.DerivationRule(id);
  }

  /** `a_b_c` with no hyphen and a last part of digits: a plain three-part base. */
  lemma ThreePartPlainShape(a: string, b: string, c: string)
    requires '_' !in a && '_' !in b && '_' !in c && '-' !in a + b + c && IsDigits(c)
    ensures ExtractLineageInfo(a + "_" + b + "_" + c) == (a + "_" + b + "_" + c, None, None)
  {
    var id := a + "_" + b + "_" + c;
    assert '-' !in id by {
      assert forall k | 0 <= k < |id| :: id[k] == '_' || id[k] in a + b + c;
    }
    NoHyphenNoSequential(id);
    Lineage.SplitThree(a, b, c);
    TreatmentRule(id);
  }

  /** `a_b` with no hyphen: a plain two-part base. */
  lemma TwoPartPlainShape(a: string, b: string)
    requires a != [] && '_' !in a && '_' !in b && '-' !in a + b
    ensures ExtractLineageInfo(a + "_" + b) == (a + "_" + b, None, None)
  {
    var id := a + "_" + b;
    assert '-' !in id by {
      assert forall k | 0 <= k < |id| :: id[k] == '_' || id[k] in a + b;
    }
    NoHyphenNoSequential(id);
    SplitAppend(a, '_', b);
    SplitNoSep(b, '_');
    TreatmentRule(id);
  }

  /** `a_b_t` with no hyphen and a last part that is not all digits: a treated two-part base. */
  lemma TwoPartTreatmentShape(a: string, b: string, t: string)
    requires '_' !in a && '_' !in b && '_' !in t && '-' !in a + b + t && !IsDigits(t)
    ensures ExtractLineageInfo(a + "_" + b + "_" + t) == (a + "_" + b, None, Some(t))
  {
    var id := a + "_" + b + "_" + t;
    assert '-' !in id by {
      assert forall k | 0 <= k < |id| :: id[k] == '_' || id[k] in a + b + t;
    }
    NoHyphenNoSequential(id);
    Lineage.SplitThree(a, b, t);
    TreatmentRule(id);
    var r := SplitTreatment(id).0;
    assert r + "_" + t == id;
    assert r == id[..|r|] == a + "_" + b;
  }

  /** `x-d_t`, where `d_t` holds no hyphen, keeps its hyphen: "d_t" is not all digits. */
  lemma HyphenBeforeUnderscoreKept(x: string, y: string)
    requires '-' !in y && '_' in y
    ensures Lineage.SplitDerivation(x + "-" + y) == (x + "-" + y, None)
  {
    var id := x + "-" + y;
    LastIndexOfAppend(x, '-', y);
    assert id[|x| + 1..] == y;
    Lineage.DerivationRule(id);
  }

  /**
   * `a_b_c-d_t` with the treatment after the sequential digits `d`: the sequential number is
   * missed and `a_b_c-d` is the base.
   */
  lemma TreatedSequentialShape(a: string, b: string, c: string, d: string, t: string)
    requires '_' !in a && '_' !in b && '_' !in c && '_' !in d && '_' !in t
    requires '-' !in d && '-' !in t && IsDigits(d) && !IsDigits(t)
    ensures var base := a + "_" + b + "_" + c + "-" + d;
      ExtractLineageInfo(base + "_" + t) == (base, None, Some(t))
  {
    var base := a + "_" + b + "_" + c + "-" + d;
    var id := base + "_" + t;
    var y := d + "_" + t;
    assert id == (a + "_" + b + "_" + c) + "-" + y;
    assert y[|d|] == '_';
    HyphenBeforeUnderscoreKept(a + "_" + b + "_" + c, y);
    TreatmentOfTreatedSequential(a, b, c, d, t);
  }

  lemma TreatmentOfTreatedSequential(a: string, b: string, c: string, d: string, t: string)
    requires '_' !in a && '_' !in b && '_' !in c && '_' !in d && '_' !in t && !IsDigits(t)
    ensures var base := a + "_" + b + "_" + c + "-" + d;
      SplitTreatment(base + "_" + t) == (base, Some(t))
  {
    var base := a + "_" + b + "_" + c + "-" + d;
    var id := base + "_" + t;
    var cd := c + "-" + d;
    assert '_' !in cd;
    assert id == a + "_" + b + "_" + cd + "_" + t;
    Lineage.SplitFour(a, b, cd, t);
    TreatmentRule(id);
    var r := SplitTreatment(id).0;
    assert r + "_" + t == id;
    assert r == id[..|r|] == base;
  }

  /** The two- and three-part bases of the documentation carry no treatment. */
  lemma PlainBasesHaveNoTreatment(a: string, b: string)
    requires a == "Serum_MH_101" && b == "HPHT_001"
    ensures ExtractLineageInfo(a) == ("Serum_MH_101", None, None)
    ensures ExtractLineageInfo(b) == ("HPHT_001", None, None)
  {
    var s, m, i, h, z := "Serum", "MH", "101", "HPHT", "001";
    assert s + "_" + m + "_" + i == a;
    assert h + "_" + z == b;
    ThreePartPlainShape(s, m, i);
    TwoPartPlainShape(h, z);
  }

  /** A two-part base followed by a treatment: "HPHT_001_Desorption". */
  lemma TwoPartTreatment(id: string)
    requires id == "HPHT_001_Desorption"
    ensures ExtractLineageInfo(id) == ("HPHT_001", None, Some("Desorption"))
  {
    var h, z, t := "HPHT", "001", "Desorption";
    assert h + "_" + z + "_" + t == id && h + "_" + z == "HPHT_001";
    assert '-' !in h + z + t && '_' !in h && '_' !in z && '_' !in t;
    assert !IsDigits(t) by { assert !IsDigit(t[0]); }
    TwoPartTreatmentShape(h, z, t);
  }

  /**
   * The combined example of the documentation is not what the code yields: the hyphen test
   * on the whole of "Serum_MH_101-2_Desorption" sees "2_Desorption", which is not all digits,
   * so the sequential number stays inside the base, whereas the lineage parser of
   * `database/lineage_utils.py`, which splits the treatment off first, finds it.
   */
  lemma CombinedExampleDisagrees(id: string)
    requires id == "Serum_MH_101-2_Desorption"
    ensures ExtractLineageInfo(id) == ("Serum_MH_101-2", None, Some("Desorption"))
    ensures ExtractLineageInfo(id) != ("Serum_MH_101", Some(2), Some("Desorption"))
    ensures Lineage.ParseExperimentId(Some(id)) == Lineage.ParsedId(Some("Serum_MH_101"), Some(2), Some("Desorption"))
  {
    CombinedExtract(id);
    CombinedParse(id);
    assert |"Serum_MH_101-2"| != |"Serum_MH_101"|;
  }

  lemma CombinedExtract(id: string)
    requires id == "Serum_MH_101-2_Desorption"
    ensures ExtractLineageInfo(id) == ("Serum_MH_101-2", None, Some("Desorption"))
  {
    var s, m, i, d, t := "Serum", "MH", "101", "2", "Desorption";
    assert s + "_" + m + "_" + i + "-" + d + "_" + t == id;
    assert s + "_" + m + "_" + i + "-" + d == "Serum_MH_101-2";
    CombinedParts(s, m, i, d, t);
    TreatedSequentialShape(s, m, i, d, t);
  }

  lemma CombinedParse(id: string)
    requires id == "Serum_MH_101-2_Desorption"
    ensures Lineage.ParseExperimentId(Some(id)) == Lineage.ParsedId(Some("Serum_MH_101"), Some(2), Some("Desorption"))
  {
    var s, m, i, d, t := "Serum", "MH", "101", "2", "Desorption";
    assert s + "_" + m + "_" + i + "-" + d + "_" + t == id;
    assert s + "_" + m + "_" + i == "Serum_MH_101";
    CombinedParts(s, m, i, d, t);
    CombinedLineage(s, m, i, d, t, id);
  }

  /** The lineage parser on the pieces of "Serum_MH_101-2_Desorption". */
  lemma CombinedLineage(s: string, m: string, i: string, d: string, t: string, id: string)
    requires '_' !in s && '_' !in m && '_' !in i && '_' !in t && IsDigits(d) && !IsDigits(t)
    requires s != [] && !IsSpace(s[0]) && t != [] && !IsSpace(t[|t| - 1])
    requires id == s + "_" + m + "_" + i + "-" + d + "_" + t
    ensures Lineage.ParseExperimentId(Some(id)) == Lineage.ParsedId(Some(s + "_" + m + "_" + i), Some(DigitsValue(d)), Some(t))
  {
    Lineage.ParseShape(s, m, i, d, Some(t));
    assert id == s + "_" + m + "_" + i + "-" + d + ("_" + t);
  }

  /** The shape facts about the pieces of "Serum_MH_101-2_Desorption". */
  lemma CombinedParts(s: string, m: string, i: string, d: string, t: string)
    requires s == "Serum" && m == "MH" && i == "101" && d == "2" && t == "Desorption"
    ensures '_' !in s && '_' !in m && '_' !in i && '_' !in d && '_' !in t && '-' !in d && '-' !in t
    ensures s != [] && !IsSpace(s[0]) && t != [] && !IsSpace(t[|t| - 1])
    ensures IsDigits(d) && DigitsValue(d) == 2 && !IsDigits(t)
  {
    assert !IsDigit(t[0]);
  }

  // ---------------------------------------------------------------- parse and validate

  /** `ParsedExperimentID`. */
  datatype ParsedExperimentId = ParsedExperimentId(
    experimentType: Option<ExperimentType>,
    researcherInitials: Option<string>,
    index: Option<string>,
    sequentialNumber: Option<nat>,
    treatmentVariant: Option<string>,
    baseId: string,
    originalId: string,
    isValid: bool,
    warnings: seq<string>)

  const EmptyWarning := "Experiment ID is empty or invalid"

  /** The warning for a base with fewer than two underscore parts. */
  function FormatWarning(original: string): string {
    "Expected format: ExperimentType_Index or ExperimentType_ResearcherInitials_Index "
    + "(e.g., HPHT_001 or Serum_MH_101). Got: " + original
  }

  /** The abbreviation table's keys in sorted order, joined by ", ". */
  const SortedTypeKeys := "ac, autoclave, cf, core flood, coreflood, hpht, other, serum"

  function UnknownTypeWarning(typeText: string): string {
    "Unknown experiment type '" + typeText + "'. Expected one of: " + SortedTypeKeys
  }

  function InitialsWarning(initials: string): string {
    "Researcher initials '" + initials + "' should be alphanumeric (e.g., MH, JD)"
  }

  const MissingIndexThreePart := "Index portion is missing (e.g., 101, 001)"
  const MissingIndexTwoPart := "Index portion is missing (e.g., 001, 101)"

  /** The checks of a three-part base, in the order the warnings are appended. */
  function ThreePartWarnings(typeText: string, initials: string, index: string): seq<string> {
    (if TypeFromId(typeText).None? then [UnknownTypeWarning(typeText)] else [])
    + (if !IsAlnum(initials) then [InitialsWarning(initials)] else [])
    + (if index == [] then [MissingIndexThreePart] else [])
  }

  /** The checks of a two-part base. */
  function TwoPartWarnings(typeText: string, index: string): seq<string> {
    (if TypeFromId(typeText).None? then [UnknownTypeWarning(typeText)] else [])
    + (if index == [] then [MissingIndexTwoPart] else [])
  }

  /**
   * `parse_experiment_id`; `None` stands for a non-string argument. A missing or empty
   * identifier gives an invalid result with base "" and exactly one warning; in every case
   * the result is valid exactly when there is no warning.
   */
  function ParseExperimentId(id: Option<string>): (r: ParsedExperimentId)
    ensures r.isValid <==> r.warnings == []
    ensures id.None? || id.value == [] ==>
      !r.isValid && r.baseId == [] && r.warnings == [EmptyWarning]
  {
    if id.None? || id.value == [] then
      ParsedExperimentId(None, None, None, None, None, "", "", false, [EmptyWarning])
    else
      var original := Strip(id.value);
      var info := ExtractLineageInfo(original);
      var parts := Split(info.0, '_');
      if |parts| < 2 then
        ParsedExperimentId(None, None, None, info.1, info.2, info.0, original, false, [FormatWarning(original)])
      else if |parts| == 2 then
        var ws := TwoPartWarnings(parts[0], parts[1]);
        ParsedExperimentId(TypeFromId(parts[0]), None, Some(parts[1]), info.1, info.2, info.0, original, ws == [], ws)
      else
        var ws := ThreePartWarnings(parts[0], parts[1], parts[2]);
        ParsedExperimentId(TypeFromId(parts[0]), Some(parts[1]), Some(parts[2]), info.1, info.2, info.0,
                           original, ws == [], ws)
  }

  /**
   * The part rules of `parse_experiment_id`: the suffixes come from `extract_lineage_info`
   * on the trimmed identifier; a base of fewer than two underscore parts is invalid with the
   * format warning; a two-part base has type and index and no initials, and is valid iff
   * the type is known and the index non-empty; a base of three or more parts takes type,
   * initials and index from its first three parts and is valid iff moreover the initials
   * are non-empty and alphanumeric, a failure the initials warning reports.
   */
  lemma PartRules(id: string)
    requires id != []
    ensures var r := ParseExperimentId(Some(id));
      var original := Strip(id);
      var info := ExtractLineageInfo(original);
      var parts := Split(info.0, '_');
      && r.originalId == original && r.baseId == info.0
      && r.sequentialNumber == info.1 && r.treatmentVariant == info.2
      && (|parts| < 2 ==> !r.isValid && r.warnings == [FormatWarning(original)])
      && (|parts| == 2 ==>
            && r.experimentType == TypeFromId(parts[0]) && r.researcherInitials.None? && r.index == Some(parts[1])
            && (r.isValid <==> TypeFromId(parts[0]).Some? && parts[1] != []))
      && (|parts| > 2 ==>
            && r.experimentType == TypeFromId(parts[0]) && r.researcherInitials == Some(parts[1])
            && r.index == Some(parts[2])
            && (r.isValid <==> TypeFromId(parts[0]).Some? && IsAlnum(parts[1]) && parts[2] != [])
            && (InitialsWarning(parts[1]) in r.warnings <==> !IsAlnum(parts[1])))
  {
    var parts := Split(ExtractLineageInfo(Strip(id)).0, '_');
    if |parts| == 2 {
      TwoPartValid(parts[0], parts[1]);
    } else if |parts| > 2 {
      ThreePartValid(parts[0], parts[1], parts[2]);
      InitialsWarned(parts[0], parts[1], parts[2]);
    }
  }

  /** A two-part base has no warning exactly when its type is known and its index non-empty. */
  lemma TwoPartValid(typeText: string, index: string)
    ensures TwoPartWarnings(typeText, index) == [] <==> TypeFromId(typeText).Some? && index != []
  {
  }

  /** A three-part base has no warning exactly when all three checks pass. */
  lemma ThreePartValid(typeText: string, initials: string, index: string)
    ensures ThreePartWarnings(typeText, initials, index) == [] <==>
      TypeFromId(typeText).Some? && IsAlnum(initials) && index != []
  {
  }

  /** The initials warning is among a three-part base's warnings exactly when the initials check fails. */
  lemma InitialsWarned(typeText: string, initials: string, index: string)
    ensures InitialsWarning(initials) in ThreePartWarnings(typeText, initials, index) <==> !IsAlnum(initials)
  {
    assert InitialsWarning(initials)[0] == 'R';
    assert UnknownTypeWarning(typeText)[0] == 'U';
    assert MissingIndexThreePart[0] == 'I';
  }

  /** A plain three-part identifier is parsed into its three parts. */
  lemma ParseThreePartShape(a: string, b: string, c: string)
    requires '_' !in a && '_' !in b && '_' !in c && '-' !in a + b + c && IsDigits(c)
    requires a != [] && !IsSpace(a[0]) && !IsSpace(c[|c| - 1])
    ensures var r := ParseExperimentId(Some(a + "_" + b + "_" + c));
      && r.experimentType == TypeFromId(a) && r.researcherInitials == Some(b) && r.index == Some(c)
      && (r.isValid <==> TypeFromId(a).Some? && IsAlnum(b))
  {
    var id := a + "_" + b + "_" + c;
    assert id[0] == a[0] && id[|id| - 1] == c[|c| - 1];
    StripOfStripped(id);
    ThreePartPlainShape(a, b, c);
    Lineage.SplitThree(a, b, c);
  }

  /** A plain two-part identifier is parsed into type and index. */
  lemma ParseTwoPartShape(a: string, b: string)
    requires a != [] && '_' !in a && '_' !in b && '-' !in a + b
    requires !IsSpace(a[0]) && b != [] && !IsSpace(b[|b| - 1])
    ensures var r := ParseExperimentId(Some(a + "_" + b));
      && r.experimentType == TypeFromId(a) && r.researcherInitials.None? && r.index == Some(b)
      && (r.isValid <==> TypeFromId(a).Some?)
  {
    var id := a + "_" + b;
    assert id[0] == a[0] && id[|id| - 1] == b[|b| - 1];
    StripOfStripped(id);
    TwoPartPlainShape(a, b);
    SplitAppend(a, '_', b);
    SplitNoSep(b, '_');
  }

  /** The documented parses of "Serum_MH_101" and "HPHT_001". */
  lemma ParseDocExamples(a: string, b: string)
    requires a == "Serum_MH_101" && b == "HPHT_001"
    ensures var r := ParseExperimentId(Some(a));
      r.experimentType == Some(Serum) && r.researcherInitials == Some("MH") && r.index == Some("101")
      && r.isValid
    ensures var r := ParseExperimentId(Some(b));
      r.experimentType == Some(Hpht) && r.researcherInitials.None? && r.index == Some("001") && r.isValid
  {
    ParseSerumExample(a);
    ParseHphtExample(b);
  }

  lemma ParseSerumExample(a: string)
    requires a == "Serum_MH_101"
    ensures var r := ParseExperimentId(Some(a));
      r.experimentType == Some(Serum) && r.researcherInitials == Some("MH") && r.index == Some("101")
      && r.isValid
  {
    var s, m, i := "Serum", "MH", "101";
    assert s + "_" + m + "_" + i == a;
    assert TypeFromId(s) == Some(Serum) by { TypeDocExamples(s, "CF", "ac"); }
    assert IsAlnum(m);
    ParseThreePartShape(s, m, i);
  }

  lemma ParseHphtExample(b: string)
    requires b == "HPHT_001"
    ensures var r := ParseExperimentId(Some(b));
      r.experimentType == Some(Hpht) && r.researcherInitials.None? && r.index == Some("001") && r.isValid
  {
    var h, z := "HPHT", "001";
    assert h + "_" + z == b;
    assert TypeFromId(h) == Some(Hpht) by {
      assert Strip(h) == h && Lower(h) == "hpht";
    }
    ParseTwoPartShape(h, z);
  }

  /** `validate_experiment_id`: the parse's validity and warnings. */
  function ValidateExperimentId(id: Option<string>): (r: (bool, seq<string>))
    ensures r.0 <==> r.1 == []
    ensures r.0 ==> id.Some? && id.value != []
  {
    var p := ParseExperimentId(id);
    (p.isValid, p.warnings)
  }

  /** Validation of "Serum_MH_101" succeeds with no warnings, as documented. */
  lemma ValidateDocExample(a: string)
    requires a == "Serum_MH_101"
    ensures ValidateExperimentId(Some(a)) == (true, [])
  {
    ParseDocExamples(a, "HPHT_001");
  }

  // ---------------------------------------------------------------- format_validation_warning

  /** "⚠️ " (warning sign, variation selector, space). */
  const WarningSign := "\U{26A0}\U{FE0F} "
  const Header := WarningSign + "Validation warnings:\n"
  const BulletLead := "  \U{2022} "

  function Bullets(ws: seq<string>): (r: seq<string>)
    ensures |r| == |ws|
    ensures forall i :: 0 <= i < |ws| ==> r[i] == BulletLead + ws[i]
  {
    seq(|ws|, i requires 0 <= i < |ws| => BulletLead + ws[i])
  }

  /** `format_validation_warning`. */
  function FormatValidationWarning(ws: seq<string>): (r: string)
    ensures r == [] <==> ws == []
  {
    if ws == [] then ""
    else if |ws| == 1 then WarningSign + ws[0]
    else Header + Join(Bullets(ws), '\n')
  }

  /**
   * The formatted message gives back its warnings: a single one follows the warning sign,
   * and with several, each line after the header is a bullet holding one warning, in order,
   * as long as no warning itself holds a line break.
   */
  lemma FormatRecoversWarnings(ws: seq<string>)
    requires forall i :: 0 <= i < |ws| ==> '\n' !in ws[i]
    ensures |ws| == 1 ==> FormatValidationWarning(ws) == WarningSign + ws[0]
    ensures |ws| >= 2 ==>
      var r := FormatValidationWarning(ws);
      |Header| <= |r| && r[..|Header|] == Header && Split(r[|Header|..], '\n') == Bullets(ws)
  {
    if |ws| >= 2 {
      var bs := Bullets(ws);
      forall i | 0 <= i < |bs|
        ensures '\n' !in bs[i]
      {
        assert bs[i] == BulletLead + ws[i];
      }
      SplitJoin(bs, '\n');
      var r := FormatValidationWarning(ws);
      assert r == Header + Join(bs, '\n');
      assert r[|Header|..] == Join(bs, '\n');
    }
  }
}
