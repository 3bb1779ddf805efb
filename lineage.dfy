/**
 * Experiment identifiers and lineage (`database/lineage_utils.py`). An identifier such as
 * `HPHT_MH_001-2_Desorption` is split into a base (`HPHT_MH_001`), a derivation number (2,
 * after the last hyphen) and a treatment (`Desorption`, after the last underscore). A
 * derivation is linked to its base experiment, found by an identifier comparison that
 * ignores case, hyphens, underscores and spaces.
 */
module Lineage {
  import opened Wrappers
  import opened PyStr

  /** The result of `parse_experiment_id`: (base, derivation number, treatment). */
  datatype ParsedId = ParsedId(base: Option<string>, derivation: Option<nat>, treatment: Option<string>)

  /**
   * The treatment step: with more than three underscore parts and a last part that is not
   * all digits, the last part is the treatment and the rest is the base. (The source tests
   * a hyphen in the last part first; both of its branches do the same as this one.)
   */
  function SplitTreatment(s: string): (string, Option<string>) {
    var parts := Split(s, '_');
    var last := parts[|parts| - 1];
    if |parts| > 3 && ('-' in last || !IsDigits(last)) then (Join(parts[..|parts| - 1], '_'), Some(last))
    else (s, None)
  }

  /** The derivation step: the digits after the last hyphen, when there are any. */
  function SplitDerivation(b: string): (string, Option<nat>) {
    match RSplitOnce(b, '-')
    case None => (b, None)
    case Some((head, tail)) => if IsDigits(tail) then (head, Some(DigitsValue(tail))) else (b, None)
  }

  /** `parse_experiment_id`; `None` stands for a missing or non-string identifier. */
  function ParseExperimentId(id: Option<string>): (r: ParsedId)
    ensures r.base.None? <==> id.None? || AllSpace(id.value)
    ensures r.base.None? ==> r.derivation.None? && r.treatment.None?
  {
    if id.None? || id.value == [] then ParsedId(None, None, None)
    else
      var s := Strip(id.value);
      StripProps(id.value);
      if s == [] then ParsedId(None, None, None)
      else
        var (pre, treatment) := SplitTreatment(s);
        var (base, derivation) := SplitDerivation(pre);
        ParsedId(Some(base), derivation, treatment)
  }

  /**
   * The treatment rule: a treatment is split off exactly when the trimmed identifier has more
   * than three underscore parts and the last one is not all digits; it is that last part,
   * and the trimmed identifier is the remaining base, "_", and the treatment.
   */
  lemma TreatmentRule(s: string)
    ensures var parts := Split(s, '_');
      var last := parts[|parts| - 1];
      var (pre, t) := SplitTreatment(s);
      && (t.Some? <==> |parts| > 3 && !IsDigits(last))
      && (t.Some? ==> t.value == last && pre + "_" + last == s && '_' !in last)
      && (t.None? ==> pre == s)
  {
    var parts := Split(s, '_');
    var n := |parts|;
    var last := parts[n - 1];
    if '-' in last {
      assert !IsDigits(last);
    }
    SplitPiecesFree(s, '_');
    if n > 3 {
      JoinSplit(s, '_');
      assert parts == parts[..n - 1] + [last];
      JoinSnoc(parts[..n - 1], last, '_');
    }
  }

  /**
   * The derivation rule: a number is produced exactly when the text after the last hyphen
   * is non-empty and all digits; then the base, "-" and that text give back the text before
   * the split. Otherwise the base is that text unchanged, so "HPHT-HIGH-TEMP" is its own base.
   */
  lemma DerivationRule(b: string)
    ensures var (base, d) := SplitDerivation(b);
      && (d.Some? <==> '-' in b && IsDigits(b[LastIndexOf(b, '-') + 1..]))
      && (d.Some? ==>
            var dt := b[LastIndexOf(b, '-') + 1..];
            base + "-" + dt == b && '-' !in dt && d.value == DigitsValue(dt))
      && (d.None? ==> base == b)
  {
    RSplitOnceProps(b, '-');
    LastIndexOfProps(b, '-');
  }

  /** The text after the last hyphen when the derivation step takes it as a number, else "". */
  function DerivationText(pre: string): string {
    if SplitDerivation(pre).1.Some? then pre[LastIndexOf(pre, '-') + 1..] else []
  }

  /** The derivation step loses nothing: `pre` is the base, then "-" and the digits. */
  lemma DerivationReassembles(pre: string)
    ensures var bd := SplitDerivation(pre);
      var dt := DerivationText(pre);
      && (bd.1.None? ==> dt == [] && pre == bd.0)
      && (bd.1.Some? ==> IsDigits(dt) && DigitsValue(dt) == bd.1.value && pre == bd.0 + "-" + dt)
  {
    DerivationRule(pre);
  }

  /** The treatment step loses nothing: `s` is the rest, then "_" and the treatment. */
  lemma TreatmentReassembles(s: string)
    ensures var pt := SplitTreatment(s);
      s == pt.0 + (if pt.1.Some? then "_" + pt.1.value else [])
  {
    TreatmentRule(s);
  }

  /**
   * `s` is the base of `r`, then "-" and the digits `dt` of the derivation number when there
   * is one, then "_" and the treatment when there is one.
   */
  predicate Reassembles(s: string, r: ParsedId, dt: string)
    requires r.base.Some?
  {
    && (r.derivation.None? ==> dt == [])
    && (r.derivation.Some? ==> IsDigits(dt) && DigitsValue(dt) == r.derivation.value)
    && s == r.base.value + (if r.derivation.Some? then "-" + dt else [])
            + (if r.treatment.Some? then "_" + r.treatment.value else [])
  }

  /** The parts of a non-blank identifier as `parse_experiment_id` finds them, digits included. */
  function DerivationDigits(id: string): string {
    DerivationText(SplitTreatment(Strip(id)).0)
  }

  /** Parsing loses nothing: the parts of a non-blank identifier reassemble its trimmed text. */
  lemma ParseRoundTrip(id: string)
    requires !AllSpace(id)
    ensures var r := ParseExperimentId(Some(id));
      r.base.Some? && Reassembles(Strip(id), r, DerivationDigits(id))
  {
    StripProps(id);
    var s := Strip(id);
    var pt := SplitTreatment(s);
    var bd := SplitDerivation(pt.0);
    var r := ParseExperimentId(Some(id));
    assert r == ParsedId(Some(bd.0), bd.1, pt.1);
    TreatmentReassembles(s);
    DerivationReassembles(pt.0);
    var mid := if bd.1.Some? then "-" + DerivationDigits(id) else [];
    var tail := if pt.1.Some? then "_" + pt.1.value else [];
    assert pt.0 == bd.0 + mid;
    assert s == pt.0 + tail;
  }

  /** Missing, empty and whitespace-only identifiers parse to (None, None, None). */
  lemma BlankParsesToNothing(id: Option<string>)
    requires id.None? || AllSpace(id.value)
    ensures ParseExperimentId(id) == ParsedId(None, None, None)
  {
  }

  lemma SplitThree(a: string, b: string, c: string)
    requires '_' !in a && '_' !in b && '_' !in c
    ensures Split(a + "_" + b + "_" + c, '_') == [a, b, c]
  {
    assert a + "_" + b + "_" + c == a + "_" + (b + "_" + c);
    SplitAppend(a, '_', b + "_" + c);
    SplitAppend(b, '_', c);
    SplitNoSep(c, '_');
  }

  lemma SplitFour(a: string, b: string, c: string, d: string)
    requires '_' !in a && '_' !in b && '_' !in c && '_' !in d
    ensures Split(a + "_" + b + "_" + c + "_" + d, '_') == [a, b, c, d]
  {
    assert a + "_" + b + "_" + c + "_" + d == a + "_" + (b + "_" + c + "_" + d);
    SplitAppend(a, '_', b + "_" + c + "_" + d);
    SplitThree(b, c, d);
  }

  /** The derivation step on `base-digits`, when the digits hold no hyphen. */
  lemma DerivationOfShape(base: string, dt: string)
    requires IsDigits(dt)
    ensures SplitDerivation(base + "-" + dt) == (base, Some(DigitsValue(dt)))
  {
    var pre := base + "-" + dt;
    LastIndexOfProps(pre, '-');
    assert pre[|base|] == '-';
    assert '-' !in dt;
    assert pre[..|base|] == base;
    assert pre[|base| + 1..] == dt;
  }

  /** The treatment step on `a_b_c-digits` and on `a_b_c-digits_t`. */
  lemma TreatmentOfShape(a: string, b: string, c: string, dt: string, t: Option<string>)
    requires '_' !in a && '_' !in b && '_' !in c && IsDigits(dt)
    requires t.Some? ==> '_' !in t.value && !IsDigits(t.value)
    ensures var pre := a + "_" + b + "_" + c + "-" + dt;
      SplitTreatment(pre + (if t.Some? then "_" + t.value else [])) == (pre, t)
  {
    var cd := c + "-" + dt;
    var pre := a + "_" + b + "_" + c + "-" + dt;
    assert pre == a + "_" + b + "_" + cd;
    assert '_' !in dt;
    assert '_' !in cd;
    if t.Some? {
      var id := pre + "_" + t.value;
      assert id == a + "_" + b + "_" + cd + "_" + t.value;
      SplitFour(a, b, cd, t.value);
      TreatmentRule(id);
      var q := SplitTreatment(id).0;
      assert q + "_" + t.value == id;
      assert |q| == |pre|;
      assert q == id[..|pre|] == pre;
      assert SplitTreatment(id).1 == t;
      assert pre + ("_" + t.value) == id;
    } else {
      assert pre + [] == pre;
      SplitThree(a, b, cd);
      TreatmentRule(pre);
    }
  }

  /**
   * An identifier of three underscore parts `a_b_c` followed by a hyphen and the digits
   * `dt` parses to base `a_b_c` and derivation number `dt`; with a further part `_t` whose
   * text is not all digits, `t` is the treatment.
   */
  lemma ParseShape(a: string, b: string, c: string, dt: string, t: Option<string>)
    requires a != [] && !IsSpace(a[0]) && '_' !in a && '_' !in b && '_' !in c
    requires IsDigits(dt)
    requires t.Some? ==> t.value != [] && !IsSpace(t.value[|t.value| - 1]) && '_' !in t.value && !IsDigits(t.value)
    ensures var base := a + "_" + b + "_" + c;
      var id := base + "-" + dt + (if t.Some? then "_" + t.value else []);
      ParseExperimentId(Some(id)) == ParsedId(Some(base), Some(DigitsValue(dt)), t)
  {
    var base := a + "_" + b + "_" + c;
    var pre := base + "-" + dt;
    var id := pre + (if t.Some? then "_" + t.value else []);
    assert id[0] == a[0];
    assert id[|id| - 1] == if t.Some? then t.value[|t.value| - 1] else dt[|dt| - 1];
    StripOfStripped(id);
    TreatmentOfShape(a, b, c, dt, t);
    DerivationOfShape(base, dt);
  }

  /** The treatment step on `a_b_c` and on `a_b_c_t`, where no part holds a hyphen. */
  lemma TreatmentOfPlainShape(a: string, b: string, c: string, t: Option<string>)
    requires '_' !in a && '_' !in b && '_' !in c
    requires t.Some? ==> '_' !in t.value && !IsDigits(t.value)
    ensures var base := a + "_" + b + "_" + c;
      SplitTreatment(base + (if t.Some? then "_" + t.value else [])) == (base, t)
  {
    var base := a + "_" + b + "_" + c;
    if t.Some? {
      var id := base + "_" + t.value;
      SplitFour(a, b, c, t.value);
      TreatmentRule(id);
      var q := SplitTreatment(id).0;
      assert q + "_" + t.value == id;
      assert |q| == |base|;
      assert q == id[..|base|] == base;
      assert SplitTreatment(id).1 == t;
      assert base + ("_" + t.value) == id;
    } else {
      assert base + [] == base;
      SplitThree(a, b, c);
      TreatmentRule(base);
    }
  }

  /**
   * An identifier of three underscore parts `a_b_c` with no hyphen, optionally followed by
   * `_t` whose text is not all digits, parses to base `a_b_c`, no derivation and treatment `t`.
   */
  lemma ParsePlainShape(a: string, b: string, c: string, t: Option<string>)
    requires a != [] && !IsSpace(a[0]) && '_' !in a && '_' !in b && '_' !in c
    requires c != [] && !IsSpace(c[|c| - 1])
    requires '-' !in a && '-' !in b && '-' !in c
    requires t.Some? ==> t.value != [] && !IsSpace(t.value[|t.value| - 1]) && '_' !in t.value && !IsDigits(t.value)
    ensures var base := a + "_" + b + "_" + c;
      var id := base + (if t.Some? then "_" + t.value else []);
      ParseExperimentId(Some(id)) == ParsedId(Some(base), None, t)
  {
    var base := a + "_" + b + "_" + c;
    var id := base + (if t.Some? then "_" + t.value else []);
    assert id[0] == a[0];
    assert id[|id| - 1] == if t.Some? then t.value[|t.value| - 1] else c[|c| - 1];
    StripOfStripped(id);
    TreatmentOfPlainShape(a, b, c, t);
    assert '-' !in base;
    DerivationRule(base);
  }

  /** The plain example of `parse_experiment_id`'s documentation. */
  lemma DocExamplePlain(id: string)
    requires id == "HPHT_MH_001"
    ensures ParseExperimentId(Some(id)) == ParsedId(Some("HPHT_MH_001"), None, None)
  {
    var a, b, c := "HPHT", "MH", "001";
    assert a + "_" + b + "_" + c + [] == id;
    ParsePlainShape(a, b, c, None);
  }

  /** The treated example without derivation of `parse_experiment_id`'s documentation. */
  lemma DocExampleTreatedPlain(id: string)
    requires id == "HPHT_MH_001_Desorption"
    ensures ParseExperimentId(Some(id)) == ParsedId(Some("HPHT_MH_001"), None, Some("Desorption"))
  {
    var a, b, c, tv := "HPHT", "MH", "001", "Desorption";
    var base := a + "_" + b + "_" + c;
    assert base == "HPHT_MH_001";
    assert base + ("_" + tv) == id;
    assert !IsDigit(tv[0]);
    ParsePlainShape(a, b, c, Some(tv));
  }

  /** The first derivation example of `parse_experiment_id`'s documentation. */
  lemma DocExampleDerived(id: string)
    requires id == "HPHT_MH_001-2"
    ensures ParseExperimentId(Some(id)) == ParsedId(Some("HPHT_MH_001"), Some(2), None)
  {
    var a, b, c, dt := "HPHT", "MH", "001", "2";
    var base := a + "_" + b + "_" + c;
    assert base == "HPHT_MH_001";
    assert base + "-" + dt + [] == id;
    assert DigitsValue(dt) == 2;
    ParseShape(a, b, c, dt, None);
  }

  /** The treated derivation example of `parse_experiment_id`'s documentation. */
  lemma DocExampleTreated(id: string)
    requires id == "HPHT_MH_001-2_Desorption"
    ensures ParseExperimentId(Some(id)) == ParsedId(Some("HPHT_MH_001"), Some(2), Some("Desorption"))
  {
    var a, b, c, dt, tv := "HPHT", "MH", "001", "2", "Desorption";
    var base := a + "_" + b + "_" + c;
    assert base == "HPHT_MH_001";
    assert base + "-" + dt + ("_" + tv) == id;
    assert DigitsValue(dt) == 2;
    assert !IsDigit(tv[0]);
    ParseShape(a, b, c, dt, Some(tv));
  }

  // ---------------------------------------------------------------- the experiment table

  /** An experiment row: its key, its identifier and its two lineage fields. */
  datatype Experiment = Experiment(id: nat, experimentId: string, baseExperimentId: Option<string>, parentFk: Option<nat>)

  const Delimiters: set<char> := {'-', '_', ' '}

  /** The Python side of the lookup: lower-cased, then hyphens, underscores and spaces dropped. */
  function LookupKey(s: string): string {
    RemoveChars(Lower(s), Delimiters)
  }

  /** The SQL side: `lower(replace(replace(replace(id, '-', ''), '_', ''), ' ', ''))`. */
  function DbKey(s: string): string {
    Lower(RemoveChars(s, Delimiters))
  }

  /** Both sides of the lookup compute the same key. */
  lemma KeysAgree(s: string)
    ensures DbKey(s) == LookupKey(s)
  {
    LowerRemoveCommute(s, Delimiters);
  }

  /** `.first()` of the lookup: the position of the first experiment whose key is `key`. */
  function FirstWithKey(exps: seq<Experiment>, key: string): (r: Option<nat>)
    ensures r.Some? ==> r.value < |exps|
    decreases |exps|
  {
    if exps == [] then None
    else if DbKey(exps[0].experimentId) == key then Some(0)
    else match FirstWithKey(exps[1..], key)
      case None => None
      case Some(j) => Some(j + 1)
  }

  lemma {:induction false} FirstWithKeySpec(exps: seq<Experiment>, key: string)
    ensures var r := FirstWithKey(exps, key);
      && (r.None? <==> forall j | 0 <= j < |exps| :: DbKey(exps[j].experimentId) != key)
      && (r.Some? ==> r.value < |exps| && DbKey(exps[r.value].experimentId) == key
                      && forall j | 0 <= j < r.value :: DbKey(exps[j].experimentId) != key)
    decreases |exps|
  {
    if exps != [] {
      FirstWithKeySpec(exps[1..], key);
      assert forall j | 1 <= j < |exps| :: exps[j] == exps[1..][j - 1];
    }
  }

  /** `get_or_find_parent_experiment`. */
  function FindParent(exps: seq<Experiment>, experimentId: string): (r: Option<Experiment>)
    ensures r.Some? ==> r.value in exps && ParseExperimentId(Some(experimentId)).derivation.Some?
  {
    var p := ParseExperimentId(Some(experimentId));
    if p.derivation.None? then None
    else match FirstWithKey(exps, LookupKey(p.base.value))
      case None => None
      case Some(j) => Some(exps[j])
  }

  /**
   * The parent lookup gives nothing for an identifier that is not a derivation, and otherwise
   * the first experiment whose identifier, lower-cased without hyphens, underscores and
   * spaces, equals the same normalisation of the base.
   */
  lemma FindParentSpec(exps: seq<Experiment>, experimentId: string)
    ensures var p, r := ParseExperimentId(Some(experimentId)), FindParent(exps, experimentId);
      && (p.derivation.None? ==> r.None?)
      && (p.derivation.Some? ==>
            && (r.None? <==> forall j | 0 <= j < |exps| :: LookupKey(exps[j].experimentId) != LookupKey(p.base.value))
            && (r.Some? ==>
                  (exists j :: 0 <= j < |exps| && r.value == exps[j]
                     && LookupKey(exps[j].experimentId) == LookupKey(p.base.value)
                     && forall k | 0 <= k < j :: LookupKey(exps[k].experimentId) != LookupKey(p.base.value))))
  {
    var p := ParseExperimentId(Some(experimentId));
    forall j | 0 <= j < |exps| {
      KeysAgree(exps[j].experimentId);
    }
    if p.derivation.Some? {
      FirstWithKeySpec(exps, LookupKey(p.base.value));
    }
  }

  lemma LookupKeyAppend(a: string, b: string)
    ensures LookupKey(a + b) == LookupKey(a) + LookupKey(b)
  {
    LowerAppend(a, b);
    RemoveCharsAppend(Lower(a), Lower(b), Delimiters);
  }

  lemma {:induction false} LookupKeyKeepsDigits(s: string)
    requires AllDigits(s)
    ensures LookupKey(s) == s
    decreases |s|
  {
    if s != [] {
      LookupKeyKeepsDigits(s[1..]);
      assert Lower(s)[1..] == Lower(s[1..]);
      ConsSlice(s);
    }
  }

  /** Surrounding whitespace is kept by the key, so trimming never lengthens it. */
  lemma KeyOfStrip(id: string)
    ensures |LookupKey(Strip(id))| <= |LookupKey(id)|
  {
    StripInside(id);
    var k := |id| - |LStrip(id)|;
    var lead := id[..k];
    var trail := id[k + |Strip(id)|..];
    assert id == lead + (Strip(id) + trail);
    LookupKeyAppend(lead, Strip(id) + trail);
    LookupKeyAppend(Strip(id), trail);
  }

  /** A text that reassembles a derivation has a longer key than its base. */
  lemma KeyOfReassembled(s: string, r: ParsedId, dt: string)
    requires r.base.Some? && r.derivation.Some? && Reassembles(s, r, dt)
    ensures |LookupKey(s)| > |LookupKey(r.base.value)|
  {
    var tail := if r.treatment.Some? then "_" + r.treatment.value else [];
    assert s == r.base.value + ("-" + (dt + tail));
    LookupKeyAppend(r.base.value, "-" + (dt + tail));
    LookupKeyAppend("-", dt + tail);
    LookupKeyAppend(dt, tail);
    LookupKeyKeepsDigits(dt);
  }

  /** The key of a derivation is longer than the key of its base: it keeps the digits. */
  lemma DerivedKeyLonger(id: string)
    requires ParseExperimentId(Some(id)).derivation.Some?
    ensures var p := ParseExperimentId(Some(id));
      |LookupKey(id)| > |LookupKey(p.base.value)|
  {
    var p := ParseExperimentId(Some(id));
    ParseRoundTrip(id);
    KeyOfReassembled(Strip(id), p, DerivationDigits(id));
    KeyOfStrip(id);
  }

  /** A derivation is never its own parent. */
  lemma NotOwnParent(exps: seq<Experiment>, experimentId: string)
    ensures var r := FindParent(exps, experimentId);
      r.Some? ==> r.value.experimentId != experimentId
  {
    var p := ParseExperimentId(Some(experimentId));
    if p.derivation.Some? {
      FindParentSpec(exps, experimentId);
      DerivedKeyLonger(experimentId);
    }
  }

  // ---------------------------------------------------------------- updating lineage fields

  /** Python truthiness of the two lineage fields. */
  predicate IsSetText(o: Option<string>) { o.Some? && o.value != [] }
  predicate IsSetKey(o: Option<nat>) { o.Some? && o.value != 0 }

  /** A derivation whose base is `base` and whose parent link is still empty. */
  predicate IsOrphanOf(e: Experiment, base: string) {
    e.baseExperimentId == Some(base) && e.parentFk.None?
  }

  function CountOrphans(exps: seq<Experiment>, base: string): nat
    decreases |exps|
  {
    if exps == [] then 0
    else CountOrphans(exps[..|exps| - 1], base) + (if IsOrphanOf(exps[|exps| - 1], base) then 1 else 0)
  }

  lemma {:induction false} NoOrphansCounted(exps: seq<Experiment>, base: string)
    requires forall j | 0 <= j < |exps| :: !IsOrphanOf(exps[j], base)
    ensures CountOrphans(exps, base) == 0
    decreases |exps|
  {
    if exps != [] {
      NoOrphansCounted(exps[..|exps| - 1], base);
    }
  }

  lemma CountOrphansStep(exps: seq<Experiment>, base: string, k: nat)
    requires k < |exps|
    ensures CountOrphans(exps[..k + 1], base) == CountOrphans(exps[..k], base) + if IsOrphanOf(exps[k], base) then 1 else 0
  {
    assert exps[..k + 1][..k] == exps[..k];
  }

  /** Every orphan of `base` linked to `parentId`, every other experiment unchanged. */
  function Relinked(exps: seq<Experiment>, base: string, parentId: nat): (r: seq<Experiment>)
    ensures |r| == |exps|
  {
    seq(|exps|, j requires 0 <= j < |exps| =>
      if IsOrphanOf(exps[j], base) then exps[j].(parentFk := Some(parentId)) else exps[j])
  }

  lemma RelinkedStep(exps: seq<Experiment>, base: string, parentId: nat, k: nat)
    requires k < |exps|
    ensures Relinked(exps[..k + 1], base, parentId) == Relinked(exps[..k], base, parentId) + Relinked([exps[k]], base, parentId)
  {
  }

  /** After relinking, no orphan of `base` is left. */
  lemma RelinkedLeavesNoOrphans(exps: seq<Experiment>, base: string, parentId: nat)
    ensures CountOrphans(Relinked(exps, base, parentId), base) == 0
  {
    NoOrphansCounted(Relinked(exps, base, parentId), base);
  }

  /** The experiment table, whose rows the lineage functions update in place. */
  class ExperimentTable {
    var experiments: seq<Experiment>

    constructor (rows: seq<Experiment>)
      ensures experiments == rows
    {
      experiments := rows;
    }

    /**
     * `update_experiment_lineage` on row `i`: a non-derivation has both lineage fields
     * cleared, reporting a change iff either was set; a derivation gets its parsed base and
     * the key of the parent found, or no parent, and always reports a change.
     */
    method UpdateExperimentLineage(i: nat) returns (changed: bool)
      requires i < |experiments|
      modifies this
      ensures var e := old(experiments[i]);
        var p := ParseExperimentId(Some(e.experimentId));
        && |experiments| == |old(experiments)|
        && (forall j | 0 <= j < |experiments| && j != i :: experiments[j] == old(experiments[j]))
        && experiments[i].id == e.id && experiments[i].experimentId == e.experimentId
        && (e.experimentId == [] ==> !changed && experiments[i] == e)
        && (e.experimentId != [] && p.derivation.None? ==>
              && changed == (IsSetText(e.baseExperimentId) || IsSetKey(e.parentFk))
              && experiments[i] == (if changed then e.(baseExperimentId := None, parentFk := None) else e))
        && (e.experimentId != [] && p.derivation.Some? ==>
              && changed
              && experiments[i].baseExperimentId == p.base
              && var parent := FindParent(old(experiments), e.experimentId);
                 experiments[i].parentFk == (if parent.Some? then Some(parent.value.id) else None))
    {
      var e := experiments[i];
      if e.experimentId == [] {
        return false;
      }
      var p := ParseExperimentId(Some(e.experimentId));
      if p.derivation.None? {
        if IsSetText(e.baseExperimentId) || IsSetKey(e.parentFk) {
          experiments := experiments[i := e.(baseExperimentId := None, parentFk := None)];
          return true;
        }
        return false;
      }
      var updated := e.(baseExperimentId := p.base);
      var parent := FindParent(experiments, e.experimentId);
      if parent.Some? {
        updated := updated.(parentFk := Some(parent.value.id));
      } else {
        updated := updated.(parentFk := None);
      }
      experiments := experiments[i := updated];
      return true;
    }

    /**
     * `update_orphaned_derivations`: once an experiment normalising to `base` exists, every
     * experiment whose base is exactly `base` and whose parent link is empty is linked to it;
     * returns how many. Nothing changes for an empty `base` or when no experiment matches,
     * and afterwards no orphan of `base` is left, so a second call returns 0.
     */
    method UpdateOrphanedDerivations(base: string) returns (count: nat)
      modifies this
      ensures var found := FirstWithKey(old(experiments), LookupKey(base));
        && (base == [] || found.None? ==> count == 0 && experiments == old(experiments))
        && (base != [] && found.Some? ==>
              && count == CountOrphans(old(experiments), base)
              && |experiments| == |old(experiments)|
              && (forall j | 0 <= j < |experiments| ::
                    experiments[j] == if IsOrphanOf(old(experiments[j]), base)
                                      then old(experiments[j]).(parentFk := Some(old(experiments)[found.value].id))
                                      else old(experiments[j]))
              && CountOrphans(experiments, base) == 0)
    {
      if base == [] {
        return 0;
      }
      var found := FirstWithKey(experiments, LookupKey(base));
      if found.None? {
        return 0;
      }
      var parentId := experiments[found.value].id;
      count := RelinkOrphans(base, parentId);
      RelinkedLeavesNoOrphans(old(experiments), base, parentId);
    }

    /** The relinking loop: each orphan of `base` gets `parentId` as its parent, and is counted. */
    method RelinkOrphans(base: string, parentId: nat) returns (count: nat)
      modifies this
      ensures count == CountOrphans(old(experiments), base)
      ensures experiments == Relinked(old(experiments), base, parentId)
    {
      var rows0 := experiments;
      count := 0;
      var k := 0;
      while k < |rows0|
        invariant 0 <= k <= |rows0| && |experiments| == |rows0|
        invariant count == CountOrphans(rows0[..k], base)
        invariant experiments[..k] == Relinked(rows0[..k], base, parentId)
        invariant experiments[k..] == rows0[k..]
      {
        CountOrphansStep(rows0, base, k);
        RelinkedStep(rows0, base, parentId, k);
        if IsOrphanOf(experiments[k], base) {
          experiments := experiments[k := experiments[k].(parentFk := Some(parentId))];
          count := count + 1;
        }
        k := k + 1;
      }
      assert rows0[..|rows0|] == rows0;
    }
  }
}
