/**
 * Sample-ID de-duplication, the pure half (`merge_duplicate_samples_007.py`): the two
 * normal forms of a sample ID, grouping the IDs that normalise alike, the ranking that picks
 * a group's primary sample, and the per-field metadata merge rule.
 */
module MergeSamples007 {
  import opened Wrappers
  import opened PyStr

  // ---------------------------------------------------------------- normal forms

  const Separators: set<char> := {'-', '_', ' '}

  /** `normalize_sample_id`: lower-cased, with hyphens, underscores and spaces removed. */
  function NormalizeSampleId(s: string): string {
    RemoveChars(Lower(s), Separators)
  }

  /** The normal form has no separators and no capitals, and normalising it again keeps it. */
  lemma NormalizeSpec(s: string)
    ensures var r := NormalizeSampleId(s);
      && (forall i | 0 <= i < |r| :: r[i] !in Separators && !IsUpperChar(r[i]))
      && NormalizeSampleId(r) == r
  {
    var r := NormalizeSampleId(s);
    RemoveCharsFree(Lower(s), Separators);
    forall i | 0 <= i < |r|
      ensures !IsUpperChar(r[i])
    {
      RemoveCharsMembers(Lower(s), Separators, r[i]);
      var k :| 0 <= k < |Lower(s)| && Lower(s)[k] == r[i];
    }
    LowerRemoveIdempotent(s, Separators);
  }

  const CanonicalDropped: set<char> := {' ', '_'}

  /** `get_canonical_format`: upper-cased, with spaces and underscores removed. */
  function CanonicalFormat(s: string): string {
    RemoveChars(Upper(s), CanonicalDropped)
  }

  /**
   * The canonical form keeps hyphens and has no spaces, underscores or lower-case letters; it
   * is its own canonical form, and it normalises like the ID it came from, so it stays in
   * the same duplicate group.
   */
  lemma CanonicalSpec(s: string)
    ensures var r := CanonicalFormat(s);
      && ('-' in r <==> '-' in s)
      && (forall i | 0 <= i < |r| :: r[i] !in CanonicalDropped && !IsLowerChar(r[i]))
      && CanonicalFormat(r) == r
      && NormalizeSampleId(r) == NormalizeSampleId(s)
  {
    var u := Upper(s);
    var r := CanonicalFormat(s);
    RemoveCharsMembers(u, CanonicalDropped, '-');
    assert '-' in u <==> '-' in s by {
      if '-' in s {
        var k :| 0 <= k < |s| && s[k] == '-';
        assert u[k] == '-';
      }
    }
    RemoveCharsFree(u, CanonicalDropped);
    forall i | 0 <= i < |r|
      ensures !IsLowerChar(r[i])
    {
      RemoveCharsMembers(u, CanonicalDropped, r[i]);
      var k :| 0 <= k < |u| && u[k] == r[i];
    }
    UpperRemoveCommute(u, CanonicalDropped);
    UpperIdempotent(s);
    RemoveCharsIdempotent(u, CanonicalDropped);
    LowerRemoveCommute(u, CanonicalDropped);
    RemoveCharsSubsumed(Lower(u), CanonicalDropped, Separators);
    LowerOfUpper(s);
  }

  // ---------------------------------------------------------------- duplicate groups

  /** The IDs of `ids` whose normal form is `key`, in their order. */
  function Members(ids: seq<string>, key: string): (r: seq<string>)
    ensures |r| <= |ids|
    decreases |ids|
  {
    if ids == [] then []
    else Members(ids[..|ids| - 1], key) + (if NormalizeSampleId(ids[|ids| - 1]) == key then [ids[|ids| - 1]] else [])
  }

  /** A group holds exactly the IDs that normalise to its key. */
  lemma {:induction false} MembersSpec(ids: seq<string>, key: string)
    ensures forall x :: x in Members(ids, key) <==> x in ids && NormalizeSampleId(x) == key
    decreases |ids|
  {
    if ids != [] {
      var n := |ids| - 1;
      MembersSpec(ids[..n], key);
      assert ids == ids[..n] + [ids[n]];
    }
  }

  /** Two different keys never share an ID: the groups are disjoint. */
  lemma GroupsDisjoint(ids: seq<string>, k1: string, k2: string, x: string)
    requires k1 != k2
    ensures !(x in Members(ids, k1) && x in Members(ids, k2))
  {
    MembersSpec(ids, k1);
    MembersSpec(ids, k2);
  }

  /** One more ID extends exactly the group of its own normal form. */
  lemma MembersSnoc(ids: seq<string>, i: nat, k: string)
    requires i < |ids|
    ensures Members(ids[..i + 1], k)
            == Members(ids[..i], k) + (if NormalizeSampleId(ids[i]) == k then [ids[i]] else [])
  {
    assert ids[..i + 1][..i] == ids[..i];
  }

  /** The grouping loop of `find_duplicate_groups`: every ID appended to its key's list. */
  method GroupAll(ids: seq<string>) returns (all: map<string, seq<string>>, order: seq<string>)
    ensures forall k | k in all :: all[k] == Members(ids, k)
    ensures forall k :: Members(ids, k) != [] ==> k in all
    ensures forall k :: k in order <==> k in all
    ensures forall a, b | 0 <= a < b < |order| :: order[a] != order[b]
  {
    all := map[];
    order := [];
    var i := 0;
    while i < |ids|
      invariant 0 <= i <= |ids|
      invariant forall k | k in all :: all[k] == Members(ids[..i], k)
      invariant forall k :: Members(ids[..i], k) != [] ==> k in all
      invariant forall k :: k in order <==> k in all
      invariant forall a, b | 0 <= a < b < |order| :: order[a] != order[b]
    {
      var norm := NormalizeSampleId(ids[i]);
      forall k
        ensures Members(ids[..i + 1], k) == Members(ids[..i], k) + (if norm == k then [ids[i]] else [])
      {
        MembersSnoc(ids, i, k);
      }
      if norm in all {
        all := all[norm := all[norm] + [ids[i]]];
      } else {
        all := all[norm := [ids[i]]];
        order := order + [norm];
      }
      i := i + 1;
    }
    assert ids[..|ids|] == ids;
  }

  /**
   * `find_duplicate_groups`: the IDs grouped by normal form, keeping only the groups with
   * more than one member; `keys` lists the kept keys in first-appearance order, as the
   * dictionary iterates them.
   */
  method FindDuplicateGroups(ids: seq<string>) returns (groups: map<string, seq<string>>, keys: seq<string>)
    ensures forall k | k in groups :: groups[k] == Members(ids, k) && |groups[k]| > 1
    ensures forall k :: |Members(ids, k)| > 1 ==> k in groups
    ensures forall k :: k in keys <==> k in groups
    ensures forall a, b | 0 <= a < b < |keys| :: keys[a] != keys[b]
  {
    var all, order := GroupAll(ids);
    groups := map k | k in all && |all[k]| > 1 :: all[k];
    keys := KeptKeys(order, groups);
  }

  /** The keys of `order` that survived the size filter, in their order. */
  method KeptKeys(order: seq<string>, groups: map<string, seq<string>>) returns (keys: seq<string>)
    requires forall a, b | 0 <= a < b < |order| :: order[a] != order[b]
    requires forall k | k in groups :: k in order
    ensures forall k :: k in keys <==> k in groups
    ensures forall a, b | 0 <= a < b < |keys| :: keys[a] != keys[b]
  {
    keys := [];
    var j := 0;
    while j < |order|
      invariant 0 <= j <= |order|
      invariant forall k :: k in keys <==> k in order[..j] && k in groups
      invariant forall a, b | 0 <= a < b < |keys| :: keys[a] != keys[b]
    {
      assert order[..j + 1] == order[..j] + [order[j]];
      if order[j] in groups {
        keys := keys + [order[j]];
      }
      j := j + 1;
    }
    assert order[..|order|] == order;
  }

  // ---------------------------------------------------------------- choosing the primary

  /** Python's `<` on strings: code-point order, a proper prefix first. */
  predicate StrLess(a: string, b: string)
    decreases |a|
  {
    if a == [] then b != []
    else if b == [] then false
    else if a[0] != b[0] then a[0] < b[0]
    else StrLess(a[1..], b[1..])
  }

  lemma {:induction false} StrLessIrreflexive(a: string)
    ensures !StrLess(a, a)
    decreases |a|
  {
    if a != [] {
      StrLessIrreflexive(a[1..]);
    }
  }

  lemma {:induction false} StrLessTotal(a: string, b: string)
    ensures a == b || StrLess(a, b) || StrLess(b, a)
    ensures !(StrLess(a, b) && StrLess(b, a))
    decreases |a|
  {
    if a != [] && b != [] && a[0] == b[0] {
      StrLessTotal(a[1..], b[1..]);
      if a[1..] == b[1..] {
        ConsSlice(a);
        ConsSlice(b);
      }
    }
  }

  lemma {:induction false} StrLessTrans(a: string, b: string, c: string)
    requires StrLess(a, b) && StrLess(b, c)
    ensures StrLess(a, c)
    decreases |a|
  {
    if a != [] && a[0] == b[0] && b[0] == c[0] {
      StrLessTrans(a[1..], b[1..], c[1..]);
    }
  }

  /** The sort key of `choose_primary_sample`: (is canonical, references, -length, ID). */
  datatype Score = Score(canonical: bool, refs: nat, negLength: int, sid: string)

  /** Tuple order, with `False < True`. */
  predicate ScoreLess(x: Score, y: Score) {
    if x.canonical != y.canonical then !x.canonical
    else if x.refs != y.refs then x.refs < y.refs
    else if x.negLength != y.negLength then x.negLength < y.negLength
    else StrLess(x.sid, y.sid)
  }

  lemma ScoreLessTotal(x: Score, y: Score)
    ensures x == y || ScoreLess(x, y) || ScoreLess(y, x)
    ensures !(ScoreLess(x, y) && ScoreLess(y, x))
  {
    StrLessTotal(x.sid, y.sid);
  }

  lemma ScoreLessTrans(x: Score, y: Score, z: Score)
    requires ScoreLess(x, y) && ScoreLess(y, z)
    ensures ScoreLess(x, z)
  {
    if x.canonical == y.canonical == z.canonical && x.refs == y.refs == z.refs && x.negLength == y.negLength == z.negLength {
      StrLessTrans(x.sid, y.sid, z.sid);
    }
  }

  /** The score of an ID, given the reference counts. */
  function ScoreOf(sid: string, refs: map<string, nat>): Score
    requires sid in refs
  {
    Score(sid == CanonicalFormat(sid), refs[sid], -|sid|, sid)
  }

  /**
   * `choose_primary_sample`: the first entry after sorting the scores in descending order,
   * which is the member with the highest score. `refs` holds the reference counts.
   */
  function ChoosePrimary(ids: seq<string>, refs: map<string, nat>): (r: string)
    requires ids != [] && forall s | s in ids :: s in refs
    ensures r in ids
    ensures forall s | s in ids :: !ScoreLess(ScoreOf(r, refs), ScoreOf(s, refs))
    decreases |ids|
  {
    if |ids| == 1 then
      StrLessIrreflexive(ids[0]);
      ids[0]
    else
      var best := ChoosePrimary(ids[1..], refs);
      assert forall s | s in ids :: s == ids[0] || s in ids[1..];
      MaxStep(ids[0], best, ids[1..], refs);
      if ScoreLess(ScoreOf(ids[0], refs), ScoreOf(best, refs)) then best else ids[0]
  }

  lemma MaxStep(first: string, best: string, rest: seq<string>, refs: map<string, nat>)
    requires first in refs && best in refs && forall s | s in rest :: s in refs
    requires forall s | s in rest :: !ScoreLess(ScoreOf(best, refs), ScoreOf(s, refs))
    ensures var r := if ScoreLess(ScoreOf(first, refs), ScoreOf(best, refs)) then best else first;
      && !ScoreLess(ScoreOf(r, refs), ScoreOf(first, refs))
      && forall s | s in rest :: !ScoreLess(ScoreOf(r, refs), ScoreOf(s, refs))
  {
    var f, b := ScoreOf(first, refs), ScoreOf(best, refs);
    ScoreLessTotal(f, b);
    StrLessIrreflexive(first);
    StrLessIrreflexive(best);
    forall s | s in rest
      ensures !ScoreLess(if ScoreLess(f, b) then b else f, ScoreOf(s, refs))
    {
      if !ScoreLess(f, b) && ScoreLess(f, ScoreOf(s, refs)) {
        var t := ScoreOf(s, refs);
        ScoreLessTotal(b, t);
        if b == t {
        } else if ScoreLess(t, b) {
          ScoreLessTrans(f, t, b);
        }
      }
    }
  }

  /** The highest score is unique: any member no other member beats is the chosen primary. */
  lemma ChoosePrimaryUnique(ids: seq<string>, refs: map<string, nat>, y: string)
    requires ids != [] && forall s | s in ids :: s in refs
    requires y in ids && forall s | s in ids :: !ScoreLess(ScoreOf(y, refs), ScoreOf(s, refs))
    ensures y == ChoosePrimary(ids, refs)
  {
    var r := ChoosePrimary(ids, refs);
    ScoreLessTotal(ScoreOf(y, refs), ScoreOf(r, refs));
  }

  /**
   * Among IDs equal in canonical form, references and length, the alphabetically LAST one is
   * chosen: the descending sort reverses the name order too, although the documentation of
   * `choose_primary_sample` says alphabetically first.
   */
  lemma TiesPickLaterName(ids: seq<string>, refs: map<string, nat>, a: string, b: string)
    requires a in ids && b in ids && forall s | s in ids :: s in refs
    requires (a == CanonicalFormat(a)) == (b == CanonicalFormat(b)) && refs[a] == refs[b] && |a| == |b|
    requires StrLess(a, b)
    ensures ChoosePrimary(ids, refs) != a
  {
    assert ScoreLess(ScoreOf(a, refs), ScoreOf(b, refs));
  }

  /** Moving a hyphen inside an ID keeps it in the same duplicate group. */
  lemma HyphenPlaceIgnored(x: string, y: string)
    ensures NormalizeSampleId(x + "-" + y) == NormalizeSampleId(x + y + "-")
  {
    LowerAppend(x + "-", y);
    LowerAppend(x, "-");
    LowerAppend(x + y, "-");
    LowerAppend(x, y);
    RemoveCharsAppend(Lower(x) + Lower("-"), Lower(y), Separators);
    RemoveCharsAppend(Lower(x), Lower("-"), Separators);
    RemoveCharsAppend(Lower(x) + Lower(y), Lower("-"), Separators);
    RemoveCharsAppend(Lower(x), Lower(y), Separators);
    assert RemoveChars(Lower("-"), Separators) == [];
  }

  /** A common prefix does not change which string sorts first. */
  lemma {:induction false} StrLessCommonPrefix(p: string, x: string, y: string)
    requires StrLess(x, y)
    ensures StrLess(p + x, p + y)
    decreases |p|
  {
    if p != [] {
      StrLessCommonPrefix(p[1..], x, y);
      var px, py := p + x, p + y;
      assert px[0] == p[0] == py[0];
      assert px[1..] == p[1..] + x && py[1..] == p[1..] + y;
      assert StrLess(px, py) == StrLess(px[1..], py[1..]);
    } else {
      assert p + x == x && p + y == y;
    }
  }

  /** Upper-case IDs without spaces or underscores are already canonical. */
  lemma CanonicalOfCanonical(s: string)
    requires forall i | 0 <= i < |s| :: s[i] !in CanonicalDropped && !IsLowerChar(s[i])
    ensures CanonicalFormat(s) == s
  {
    assert Upper(s) == s;
    RemoveCharsNone(s, CanonicalDropped);
  }

  /** "ROCK-1" and "ROCK1-": same group, both canonical, same length; "ROCK1-" is chosen. */
  lemma TieExample(a: string, b: string, refs: map<string, nat>)
    requires a == "ROCK-1" && b == "ROCK1-" && refs == map[a := 0, b := 0]
    ensures NormalizeSampleId(a) == NormalizeSampleId(b)
    ensures ChoosePrimary([a, b], refs) == b
  {
    assert a == "ROCK" + "-1" && b == "ROCK" + "1-";
    assert a == "ROCK" + "-" + "1" && b == "ROCK" + "1" + "-";
    HyphenPlaceIgnored("ROCK", "1");
    CanonicalOfCanonical(a);
    CanonicalOfCanonical(b);
    assert StrLess("-1", "1-");
    StrLessCommonPrefix("ROCK", "-1", "1-");
    TiesPickLaterName([a, b], refs, a, b);
  }

  // ---------------------------------------------------------------- metadata merge rule

  /** A column value: NULL, text, a number or a flag. */
  datatype FieldValue = Null | Text(s: string) | Number(x: real) | Flag(b: bool)

  /** Non-null and, for text, not blank. */
  predicate HasValue(v: FieldValue) {
    !v.Null? && !(v.Text? && Strip(v.s) == [])
  }

  /** The eight merged columns of a sample. */
  datatype MetaField = RockClassification | State | Country | Locality | Latitude | Longitude
                     | Description | Characterized

  /** The first of `vs` that has a value. */
  function FirstWithValue(vs: seq<FieldValue>): (r: Option<FieldValue>)
    ensures r.Some? ==> r.value in vs && HasValue(r.value)
    ensures r.None? ==> forall i | 0 <= i < |vs| :: !HasValue(vs[i])
    decreases |vs|
  {
    if vs == [] then None
    else if HasValue(vs[0]) then Some(vs[0])
    else
      assert forall i | 1 <= i < |vs| :: vs[i] == vs[1..][i - 1];
      FirstWithValue(vs[1..])
  }

  /**
   * The value a merged field ends with: the primary's own when it has one, else the first
   * duplicate value that has one, else the primary's unchanged.
   */
  function MergedValue(primary: FieldValue, dups: seq<FieldValue>): FieldValue {
    if HasValue(primary) then primary
    else match FirstWithValue(dups)
      case Some(v) => v
      case None => primary
  }

  /**
   * The merge rule: a primary value is kept when it has one; otherwise the result is the
   * earliest duplicate value that has one, and a value appears from nowhere never.
   */
  lemma MergedValueSpec(primary: FieldValue, dups: seq<FieldValue>)
    ensures var r := MergedValue(primary, dups);
      && (HasValue(primary) ==> r == primary)
      && (!HasValue(primary) ==>
            || (r == primary && forall i | 0 <= i < |dups| :: !HasValue(dups[i]))
            || (exists i | 0 <= i < |dups| :: r == dups[i] && HasValue(r)
                  && forall j | 0 <= j < i :: !HasValue(dups[j])))
      && (HasValue(r) <==> HasValue(primary) || exists i | 0 <= i < |dups| :: HasValue(dups[i]))
  {
    if !HasValue(primary) {
      FirstIsEarliest(dups);
    }
  }

  lemma {:induction false} FirstIsEarliest(vs: seq<FieldValue>)
    ensures var r := FirstWithValue(vs);
      r.Some? ==> exists i | 0 <= i < |vs| :: r.value == vs[i] && forall j | 0 <= j < i :: !HasValue(vs[j])
    decreases |vs|
  {
    if vs != [] && !HasValue(vs[0]) {
      FirstIsEarliest(vs[1..]);
      var r := FirstWithValue(vs);
      if r.Some? {
        var i :| 0 <= i < |vs[1..]| && r.value == vs[1..][i] && forall j | 0 <= j < i :: !HasValue(vs[1..][j]);
        assert r.value == vs[i + 1];
        assert forall j | 0 <= j < i + 1 :: !HasValue(vs[j]) by {
          forall j | 0 <= j < i + 1
            ensures !HasValue(vs[j])
          {
            if j > 0 {
              assert vs[j] == vs[1..][j - 1];
            }
          }
        }
      }
    } else if vs != [] {
      assert FirstWithValue(vs).value == vs[0];
    }
  }
}
