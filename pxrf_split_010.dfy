/**
 * Data migration 010: every external pXRF analysis that stores several comma-separated
 * reading numbers is split into one row per reading. The original row keeps the first
 * reading; each further reading gets a new row copying the sample and the metadata,
 * unless a row with that reading is already stored for the sample.
 *
 * The session does not flush before a query, so the duplicate check sees the table as it
 * was stored before the migration started (`snapshot`), never a row created or changed
 * during the run.
 */
module PxrfSplit010 {
  import opened Wrappers
  import opened PyStr
  import Pxrf

  /** The metadata fields a split-off row copies from its original. */
  datatype Metadata = Metadata(
    analysisDate: Option<string>, laboratory: Option<string>, analyst: Option<string>,
    description: Option<string>, analysisMetadata: Option<string>, magneticSusceptibility: Option<string>)

  /**
   * An `ExternalAnalysis` row. Its sample ID column is NOT NULL; the model also admits a
   * missing ID, which the split copies like any other value.
   */
  datatype Analysis = Analysis(sampleId: Option<string>, analysisType: string, readingNo: Option<string>, meta: Metadata)

  /** `MigrationStats`. */
  datatype Stats = Stats(inspected: nat, split: nat, created: nat, skipped: nat, deleted: nat)

  const PXRF: string := "pXRF"

  function Plus(s: Stats, t: Stats): Stats {
    Stats(s.inspected + t.inspected, s.split + t.split, s.created + t.created, s.skipped + t.skipped, s.deleted + t.deleted)
  }

  /** The pXRF rows of the table, in table order. */
  function PxrfRows(table: seq<Analysis>): (rows: seq<Analysis>)
    decreases |table|
  {
    if table == [] then []
    else PxrfRows(table[..|table| - 1]) + (if table[|table| - 1].analysisType == PXRF then [table[|table| - 1]] else [])
  }

  lemma {:induction false} PxrfRowsSpec(table: seq<Analysis>)
    ensures forall a :: a in PxrfRows(table) <==> a in table && a.analysisType == PXRF
    decreases |table|
  {
    if table != [] {
      var init := table[..|table| - 1];
      PxrfRowsSpec(init);
      assert table == init + [table[|table| - 1]];
    }
  }

  /** The duplicate query: a stored pXRF row of the same sample with this reading number. */
  predicate IsStored(snapshot: seq<Analysis>, sampleId: Option<string>, reading: string) {
    exists j :: 0 <= j < |snapshot| && snapshot[j].sampleId == sampleId
      && snapshot[j].analysisType == PXRF && snapshot[j].readingNo == Some(reading)
  }

  /** The new row for `reading`, copying the sample and the metadata of `a`. */
  function Copy(a: Analysis, reading: string): Analysis {
    Analysis(a.sampleId, PXRF, Some(reading), a.meta)
  }

  /** The rows created for the further readings `rest` of `a`, in order. */
  function NewRows(snapshot: seq<Analysis>, a: Analysis, rest: seq<string>): (r: seq<Analysis>)
    ensures |r| <= |rest|
    decreases |rest|
  {
    if rest == [] then []
    else
      var init := NewRows(snapshot, a, rest[..|rest| - 1]);
      var reading := rest[|rest| - 1];
      if IsStored(snapshot, a.sampleId, reading) then init else init + [Copy(a, reading)]
  }

  /**
   * Every created row is a pXRF copy of `a` for one of the readings that is not stored yet,
   * and every such reading gets a row; when nothing is stored, one row per reading.
   */
  lemma {:induction false} NewRowsSpec(snapshot: seq<Analysis>, a: Analysis, rest: seq<string>)
    ensures forall x | x in NewRows(snapshot, a, rest) ::
      x.sampleId == a.sampleId && x.analysisType == PXRF && x.meta == a.meta
      && x.readingNo.Some? && x.readingNo.value in rest && !IsStored(snapshot, a.sampleId, x.readingNo.value)
    ensures forall r | r in rest && !IsStored(snapshot, a.sampleId, r) :: Copy(a, r) in NewRows(snapshot, a, rest)
    ensures (forall r | r in rest :: !IsStored(snapshot, a.sampleId, r)) ==> |NewRows(snapshot, a, rest)| == |rest|
    decreases |rest|
  {
    if rest != [] {
      var init := rest[..|rest| - 1];
      NewRowsSpec(snapshot, a, init);
      assert rest == init + [rest[|rest| - 1]];
      assert forall r | r in init :: r in rest;
    }
  }

  /**
   * The row rules below take the value normaliser and the reading splitter as parameters;
   * the migration uses `normalize_pxrf_value` and `split_normalized_pxrf_readings`.
   */
  type Normalizer = Option<string> -> string
  type Splitter = Option<string> -> seq<string>

  /** What `split_pxrf_analysis` does to one row: its new reading number, the rows it adds. */
  datatype SplitResult = SplitResult(readingNo: Option<string>, added: seq<Analysis>, split: bool, skipped: nat)

  function SplitOf(snapshot: seq<Analysis>, readingsOf: Splitter, a: Analysis): SplitResult {
    var readings := readingsOf(a.readingNo);
    if |readings| <= 1 then
      SplitResult(if readings == [] then a.readingNo else Some(readings[0]), [], false, 0)
    else
      var added := NewRows(snapshot, a, readings[1..]);
      SplitResult(Some(readings[0]), added, true, |readings| - 1 - |added|)
  }

  /**
   * `split_pxrf_analysis`: with no reading the row is left alone; a single reading is written
   * back in canonical form; with k > 1 readings the row keeps the first and the other k - 1
   * readings are each either created or skipped as duplicates.
   */
  lemma SplitOfSpec(snapshot: seq<Analysis>, a: Analysis)
    ensures var readings, r := Pxrf.SplitReadings(a.readingNo), SplitOf(snapshot, Pxrf.SplitReadings, a);
      && (readings == [] ==> r.readingNo == a.readingNo && r.added == [] && !r.split)
      && (readings != [] ==> r.readingNo == Some(readings[0]) && Pxrf.IsCanonicalToken(readings[0]))
      && (r.split <==> |readings| > 1)
      && |r.added| + r.skipped == (if |readings| > 1 then |readings| - 1 else 0)
      && forall x | x in r.added ::
           x.sampleId == a.sampleId && x.analysisType == PXRF && x.meta == a.meta
           && x.readingNo.Some? && Pxrf.IsCanonicalToken(x.readingNo.value)
  {
    var readings := Pxrf.SplitReadings(a.readingNo);
    Pxrf.SplitReadingsSpec(a.readingNo);
    if |readings| > 1 {
      NewRowsSpec(snapshot, a, readings[1..]);
      assert forall t | t in readings[1..] :: Pxrf.IsCanonicalToken(t);
    }
  }

  /**
   * The readings of a normalised value are the readings of the value itself; the value is
   * empty exactly when there is none, and it holds a comma exactly when there are two or more.
   */
  lemma ReadingsOfNormalized(v: Option<string>)
    ensures Pxrf.SplitReadings(Some(Pxrf.NormalizeValue(v))) == Pxrf.SplitReadings(v)
    ensures Pxrf.NormalizeValue(v) == [] <==> Pxrf.SplitReadings(v) == []
    ensures ',' in Pxrf.NormalizeValue(v) <==> |Pxrf.SplitReadings(v)| >= 2
    ensures |Pxrf.SplitReadings(v)| == 1 ==> Pxrf.SplitReadings(v) == [Pxrf.NormalizeValue(v)]
  {
    var n := Pxrf.NormalizeValue(v);
    var ts := Pxrf.SplitReadings(v);
    Pxrf.SplitReadingsSpec(v);
    Pxrf.SplitReadingsSpec(Some(n));
    Pxrf.ValueIdempotent(v);
    var us := Pxrf.SplitReadings(Some(n));
    if |ts| >= 2 {
      assert n == ts[0] + [','] + Join(ts[1..], ',');
      assert n[|ts[0]|] == ',';
    } else if |ts| == 1 {
      assert n == ts[0];
    }
    if n != [] {
      assert Join(us, ',') == n;
      assert us != [];
      SplitJoin(ts, ',');
      SplitJoin(us, ',');
    } else {
      StripProps(n);
    }
  }

  // ---------------------------------------------------------------- one row of `run_migration`

  /** The counters one row of `run_migration` adds. */
  function RowStats(snapshot: seq<Analysis>, norm: Normalizer, readingsOf: Splitter, a: Analysis): Stats {
    var n := norm(a.readingNo);
    if n == [] then Stats(0, 0, 0, 0, 1)
    else if ',' !in n then Stats(0, 0, 0, 0, 0)
    else
      var r := SplitOf(snapshot, readingsOf, a.(readingNo := Some(n)));
      Stats(1, if r.split then 1 else 0, |r.added|, r.skipped, 0)
  }

  /** The row as `run_migration` leaves it (a deleted row keeps its value). */
  function RowValue(snapshot: seq<Analysis>, norm: Normalizer, readingsOf: Splitter, a: Analysis): Analysis {
    var n := norm(a.readingNo);
    if n == [] then a
    else if ',' !in n then a.(readingNo := Some(n))
    else a.(readingNo := SplitOf(snapshot, readingsOf, a.(readingNo := Some(n))).readingNo)
  }

  /** The rows `run_migration` adds for one row. */
  function RowAdded(snapshot: seq<Analysis>, norm: Normalizer, readingsOf: Splitter, a: Analysis): seq<Analysis> {
    var n := norm(a.readingNo);
    if n == [] || ',' !in n then [] else SplitOf(snapshot, readingsOf, a.(readingNo := Some(n))).added
  }

  /**
   * One row of `run_migration`: a row without readings is deleted; a single reading is
   * rewritten in canonical form and nothing is split; with k >= 2 readings the row is
   * inspected and split, keeps the first reading, and the other k - 1 are created or skipped.
   */
  lemma RowSpec(snapshot: seq<Analysis>, a: Analysis)
    ensures var ts := Pxrf.SplitReadings(a.readingNo);
      var s := RowStats(snapshot, Pxrf.NormalizeValue, Pxrf.SplitReadings, a);
      var b := RowValue(snapshot, Pxrf.NormalizeValue, Pxrf.SplitReadings, a);
      var added := RowAdded(snapshot, Pxrf.NormalizeValue, Pxrf.SplitReadings, a);
      && (ts == [] ==> s == Stats(0, 0, 0, 0, 1) && b == a && added == [])
      && (|ts| == 1 ==> s == Stats(0, 0, 0, 0, 0) && b == a.(readingNo := Some(ts[0])) && added == [])
      && (|ts| >= 2 ==>
            s.inspected == 1 && s.split == 1 && s.deleted == 0
            && s.created == |added| && s.created + s.skipped == |ts| - 1
            && b == a.(readingNo := Some(ts[0])))
      && b.sampleId == a.sampleId && b.analysisType == a.analysisType && b.meta == a.meta
      && forall x | x in added ::
           x.sampleId == a.sampleId && x.analysisType == PXRF && x.meta == a.meta
           && x.readingNo.Some? && Pxrf.IsCanonicalToken(x.readingNo.value)
  {
    var n := Pxrf.NormalizeValue(a.readingNo);
    ReadingsOfNormalized(a.readingNo);
    if n != [] && ',' in n {
      SplitOfSpec(snapshot, a.(readingNo := Some(n)));
    }
  }

  // ---------------------------------------------------------------- the whole loop

  /** The loaded rows as `run_migration` leaves them, position by position. */
  function Migrated(snapshot: seq<Analysis>, norm: Normalizer, readingsOf: Splitter, rows: seq<Analysis>): seq<Analysis>
    decreases |rows|
  {
    if rows == [] then []
    else Migrated(snapshot, norm, readingsOf, rows[..|rows| - 1]) + [RowValue(snapshot, norm, readingsOf, rows[|rows| - 1])]
  }

  lemma {:induction false} MigratedLength(snapshot: seq<Analysis>, norm: Normalizer, readingsOf: Splitter, rows: seq<Analysis>)
    ensures |Migrated(snapshot, norm, readingsOf, rows)| == |rows|
    decreases |rows|
  {
    if rows != [] {
      MigratedLength(snapshot, norm, readingsOf, rows[..|rows| - 1]);
    }
  }

  /** Each loaded row is migrated on its own: the row at position j becomes `RowValue` of it. */
  lemma {:induction false} MigratedSpec(snapshot: seq<Analysis>, norm: Normalizer, readingsOf: Splitter, rows: seq<Analysis>)
    ensures |Migrated(snapshot, norm, readingsOf, rows)| == |rows|
    ensures forall j | 0 <= j < |rows| :: Migrated(snapshot, norm, readingsOf, rows)[j] == RowValue(snapshot, norm, readingsOf, rows[j])
    decreases |rows|
  {
    if rows != [] {
      var init := rows[..|rows| - 1];
      MigratedSpec(snapshot, norm, readingsOf, init);
      assert forall j | 0 <= j < |init| :: rows[j] == init[j];
    }
  }

  function AddedBy(snapshot: seq<Analysis>, norm: Normalizer, readingsOf: Splitter, rows: seq<Analysis>): seq<Analysis>
    decreases |rows|
  {
    if rows == [] then []
    else AddedBy(snapshot, norm, readingsOf, rows[..|rows| - 1]) + RowAdded(snapshot, norm, readingsOf, rows[|rows| - 1])
  }

  function DeletedBy(norm: Normalizer, rows: seq<Analysis>): seq<nat>
    decreases |rows|
  {
    if rows == [] then []
    else DeletedBy(norm, rows[..|rows| - 1]) + (if norm(rows[|rows| - 1].readingNo) == [] then [|rows| - 1] else [])
  }

  function TotalsOf(snapshot: seq<Analysis>, norm: Normalizer, readingsOf: Splitter, rows: seq<Analysis>): Stats
    decreases |rows|
  {
    if rows == [] then Stats(0, 0, 0, 0, 0)
    else Plus(TotalsOf(snapshot, norm, readingsOf, rows[..|rows| - 1]), RowStats(snapshot, norm, readingsOf, rows[|rows| - 1]))
  }

  /** `run_migration` deletes exactly the rows whose normalised value is empty, in order. */
  lemma {:induction false} DeletedBySpec(norm: Normalizer, rows: seq<Analysis>)
    ensures forall j :: j in DeletedBy(norm, rows) <==> 0 <= j < |rows| && norm(rows[j].readingNo) == []
    ensures forall k | 0 < k < |DeletedBy(norm, rows)| :: DeletedBy(norm, rows)[k - 1] < DeletedBy(norm, rows)[k]
    decreases |rows|
  {
    if rows != [] {
      var init := rows[..|rows| - 1];
      DeletedBySpec(norm, init);
      assert forall j | 0 <= j < |init| :: rows[j] == init[j];
      var d := DeletedBy(norm, init);
      assert forall k | 0 <= k < |d| :: d[k] < |init| by {
        forall k | 0 <= k < |d| ensures d[k] < |init| {
          assert d[k] in d;
        }
      }
    }
  }

  /** Over the whole run, `analyses_inspected` equals `analyses_split`: only comma lists are split. */
  lemma {:induction false} TotalsInspectedIsSplit(snapshot: seq<Analysis>, rows: seq<Analysis>)
    ensures var t := TotalsOf(snapshot, Pxrf.NormalizeValue, Pxrf.SplitReadings, rows);
      t.inspected == t.split
    decreases |rows|
  {
    if rows != [] {
      TotalsInspectedIsSplit(snapshot, rows[..|rows| - 1]);
      RowSpec(snapshot, rows[|rows| - 1]);
    }
  }

  /** Over the whole run, every created row is a canonical pXRF copy of some loaded row. */
  lemma {:induction false} AddedBySpec(snapshot: seq<Analysis>, rows: seq<Analysis>)
    ensures var added := AddedBy(snapshot, Pxrf.NormalizeValue, Pxrf.SplitReadings, rows);
      && |added| == TotalsOf(snapshot, Pxrf.NormalizeValue, Pxrf.SplitReadings, rows).created
      && forall x | x in added ::
           x.analysisType == PXRF && x.readingNo.Some? && Pxrf.IsCanonicalToken(x.readingNo.value)
           && exists j :: 0 <= j < |rows| && x.sampleId == rows[j].sampleId && x.meta == rows[j].meta
    decreases |rows|
  {
    if rows != [] {
      var init := rows[..|rows| - 1];
      var last := rows[|rows| - 1];
      AddedBySpec(snapshot, init);
      RowSpec(snapshot, last);
      var added := AddedBy(snapshot, Pxrf.NormalizeValue, Pxrf.SplitReadings, rows);
      var before := AddedBy(snapshot, Pxrf.NormalizeValue, Pxrf.SplitReadings, init);
      var mine := RowAdded(snapshot, Pxrf.NormalizeValue, Pxrf.SplitReadings, last);
      assert added == before + mine;
      forall x | x in added
        ensures exists j :: 0 <= j < |rows| && x.sampleId == rows[j].sampleId && x.meta == rows[j].meta
      {
        if x in before {
          var j :| 0 <= j < |init| && x.sampleId == init[j].sampleId && x.meta == init[j].meta;
          assert rows[j] == init[j];
        } else {
          assert x in mine;
        }
      }
    }
  }

  /** The loop, one more row. */
  lemma AddedStep(snapshot: seq<Analysis>, norm: Normalizer, readingsOf: Splitter, rows: seq<Analysis>, i: nat)
    requires i < |rows|
    ensures AddedBy(snapshot, norm, readingsOf, rows[..i + 1])
      == AddedBy(snapshot, norm, readingsOf, rows[..i]) + RowAdded(snapshot, norm, readingsOf, rows[i])
  {
    assert rows[..i + 1][..i] == rows[..i];
  }

  lemma TotalsStep(snapshot: seq<Analysis>, norm: Normalizer, readingsOf: Splitter, rows: seq<Analysis>, i: nat)
    requires i < |rows|
    ensures TotalsOf(snapshot, norm, readingsOf, rows[..i + 1])
      == Plus(TotalsOf(snapshot, norm, readingsOf, rows[..i]), RowStats(snapshot, norm, readingsOf, rows[i]))
  {
    assert rows[..i + 1][..i] == rows[..i];
  }

  lemma DeletedStep(norm: Normalizer, rows: seq<Analysis>, i: nat)
    requires i < |rows|
    ensures DeletedBy(norm, rows[..i + 1]) == DeletedBy(norm, rows[..i]) + (if norm(rows[i].readingNo) == [] then [i] else [])
  {
    assert rows[..i + 1][..i] == rows[..i];
  }

  lemma MigratedStep(snapshot: seq<Analysis>, norm: Normalizer, readingsOf: Splitter, rows: seq<Analysis>, i: nat)
    requires i < |rows|
    ensures var m := Migrated(snapshot, norm, readingsOf, rows[..i]);
      |m| == i && Migrated(snapshot, norm, readingsOf, rows[..i + 1]) + rows[i + 1..]
        == (m + rows[i..])[i := RowValue(snapshot, norm, readingsOf, rows[i])]
  {
    assert rows[..i + 1][..i] == rows[..i];
    MigratedLength(snapshot, norm, readingsOf, rows[..i]);
  }

  /** The three branches of one row, as the loop takes them. */
  lemma RowBranches(snapshot: seq<Analysis>, norm: Normalizer, readingsOf: Splitter, a: Analysis)
    ensures var n := norm(a.readingNo);
      var r := SplitOf(snapshot, readingsOf, a.(readingNo := Some(n)));
      && (n == [] ==>
            RowAdded(snapshot, norm, readingsOf, a) == [] && RowStats(snapshot, norm, readingsOf, a) == Stats(0, 0, 0, 0, 1)
            && RowValue(snapshot, norm, readingsOf, a) == a)
      && (n != [] && ',' !in n ==>
            RowAdded(snapshot, norm, readingsOf, a) == [] && RowStats(snapshot, norm, readingsOf, a) == Stats(0, 0, 0, 0, 0)
            && RowValue(snapshot, norm, readingsOf, a) == a.(readingNo := Some(n)))
      && (n != [] && ',' in n ==>
            RowAdded(snapshot, norm, readingsOf, a) == r.added
            && RowStats(snapshot, norm, readingsOf, a) == Stats(1, if r.split then 1 else 0, |r.added|, r.skipped, 0)
            && RowValue(snapshot, norm, readingsOf, a) == a.(readingNo := r.readingNo))
  {
  }

  /** The loop invariant of `run_migration`, carried over one row: the rows ... */
  lemma MigrateStepRows(snapshot: seq<Analysis>, norm: Normalizer, readingsOf: Splitter, rows: seq<Analysis>, i: nat,
                        as0: seq<Analysis>, as1: seq<Analysis>)
    requires i < |rows|
    requires as0 == Migrated(snapshot, norm, readingsOf, rows[..i]) + rows[i..]
    requires |Migrated(snapshot, norm, readingsOf, rows[..i])| == i
    requires as1 == as0[i := RowValue(snapshot, norm, readingsOf, as0[i])]
    ensures as1 == Migrated(snapshot, norm, readingsOf, rows[..i + 1]) + rows[i + 1..]
  {
    MigratedStep(snapshot, norm, readingsOf, rows, i);
    assert as0[i] == rows[i];
  }

  /** ... the added rows, the deleted positions and the counters. */
  lemma MigrateStepEffects(snapshot: seq<Analysis>, norm: Normalizer, readingsOf: Splitter, rows: seq<Analysis>, i: nat,
                           addStart: seq<Analysis>, add0: seq<Analysis>, add1: seq<Analysis>,
                           delStart: seq<nat>, del0: seq<nat>, del1: seq<nat>,
                           stStart: Stats, st0: Stats, st1: Stats)
    requires i < |rows|
    requires add0 == addStart + AddedBy(snapshot, norm, readingsOf, rows[..i])
    requires del0 == delStart + DeletedBy(norm, rows[..i])
    requires st0 == Plus(stStart, TotalsOf(snapshot, norm, readingsOf, rows[..i]))
    requires add1 == add0 + RowAdded(snapshot, norm, readingsOf, rows[i])
    requires del1 == del0 + (if norm(rows[i].readingNo) == [] then [i] else [])
    requires st1 == Plus(st0, RowStats(snapshot, norm, readingsOf, rows[i]))
    ensures add1 == addStart + AddedBy(snapshot, norm, readingsOf, rows[..i + 1])
    ensures del1 == delStart + DeletedBy(norm, rows[..i + 1])
    ensures st1 == Plus(stStart, TotalsOf(snapshot, norm, readingsOf, rows[..i + 1]))
  {
    AddedEffect(snapshot, norm, readingsOf, rows, i, addStart, add0, add1);
    DeletedEffect(norm, rows, i, delStart, del0, del1);
    TotalsEffect(snapshot, norm, readingsOf, rows, i, stStart, st0, st1);
  }

  lemma AddedEffect(snapshot: seq<Analysis>, norm: Normalizer, readingsOf: Splitter, rows: seq<Analysis>, i: nat,
                    addStart: seq<Analysis>, add0: seq<Analysis>, add1: seq<Analysis>)
    requires i < |rows|
    requires add0 == addStart + AddedBy(snapshot, norm, readingsOf, rows[..i])
    requires add1 == add0 + RowAdded(snapshot, norm, readingsOf, rows[i])
    ensures add1 == addStart + AddedBy(snapshot, norm, readingsOf, rows[..i + 1])
  {
    AddedStep(snapshot, norm, readingsOf, rows, i);
    var before := AddedBy(snapshot, norm, readingsOf, rows[..i]);
    var mine := RowAdded(snapshot, norm, readingsOf, rows[i]);
    assert (addStart + before) + mine == addStart + (before + mine);
  }

  lemma DeletedEffect(norm: Normalizer, rows: seq<Analysis>, i: nat, delStart: seq<nat>, del0: seq<nat>, del1: seq<nat>)
    requires i < |rows|
    requires del0 == delStart + DeletedBy(norm, rows[..i])
    requires del1 == del0 + (if norm(rows[i].readingNo) == [] then [i] else [])
    ensures del1 == delStart + DeletedBy(norm, rows[..i + 1])
  {
    DeletedStep(norm, rows, i);
    var before := DeletedBy(norm, rows[..i]);
    var mine: seq<nat> := if norm(rows[i].readingNo) == [] then [i] else [];
    assert (delStart + before) + mine == delStart + (before + mine);
  }

  lemma TotalsEffect(snapshot: seq<Analysis>, norm: Normalizer, readingsOf: Splitter, rows: seq<Analysis>, i: nat,
                     stStart: Stats, st0: Stats, st1: Stats)
    requires i < |rows|
    requires st0 == Plus(stStart, TotalsOf(snapshot, norm, readingsOf, rows[..i]))
    requires st1 == Plus(st0, RowStats(snapshot, norm, readingsOf, rows[i]))
    ensures st1 == Plus(stStart, TotalsOf(snapshot, norm, readingsOf, rows[..i + 1]))
  {
    TotalsStep(snapshot, norm, readingsOf, rows, i);
    PlusAssoc(stStart, TotalsOf(snapshot, norm, readingsOf, rows[..i]), RowStats(snapshot, norm, readingsOf, rows[i]));
  }

  lemma PlusAssoc(a: Stats, b: Stats, c: Stats)
    ensures Plus(Plus(a, b), c) == Plus(a, Plus(b, c))
  {
  }

  // ---------------------------------------------------------------- the migration

  /**
   * The migration's session: the pXRF rows it loaded (updated in place), the rows it added,
   * the positions of the rows it deleted, and its counters.
   */
  class SplitMigration {
    const snapshot: seq<Analysis>
    const norm: Normalizer
    const readingsOf: Splitter
    var analyses: seq<Analysis>
    var added: seq<Analysis>
    var deleted: seq<nat>
    var stats: Stats

    /** Opens the session and loads every pXRF row of the stored table. */
    constructor (table: seq<Analysis>)
      ensures snapshot == table && analyses == PxrfRows(table)
      ensures norm == Pxrf.NormalizeValue && readingsOf == Pxrf.SplitReadings
      ensures added == [] && deleted == [] && stats == Stats(0, 0, 0, 0, 0)
    {
      snapshot := table;
      norm := Pxrf.NormalizeValue;
      readingsOf := Pxrf.SplitReadings;
      analyses := PxrfRows(table);
      added := [];
      deleted := [];
      stats := Stats(0, 0, 0, 0, 0);
    }

    /** `split_pxrf_analysis` on the loaded row `i`. */
    method SplitAnalysis(i: nat)
      requires i < |analyses|
      modifies this
      ensures var r := SplitOf(snapshot, readingsOf, old(analyses[i]));
        && analyses == old(analyses)[i := old(analyses[i]).(readingNo := r.readingNo)]
        && added == old(added) + r.added && deleted == old(deleted)
        && stats == Plus(old(stats), Stats(1, if r.split then 1 else 0, |r.added|, r.skipped, 0))
    {
      var a := analyses[i];
      var readings := readingsOf(a.readingNo);
      stats := stats.(inspected := stats.inspected + 1);
      if |readings| <= 1 {
        if readings != [] && a.readingNo != Some(readings[0]) {
          analyses := analyses[i := a.(readingNo := Some(readings[0]))];
        }
        return;
      }
      stats := stats.(split := stats.split + 1);
      analyses := analyses[i := a.(readingNo := Some(readings[0]))];
      var rest := readings[1..];
      var j := 0;
      while j < |rest|
        invariant 0 <= j <= |rest|
        invariant added == old(added) + NewRows(snapshot, a, rest[..j])
        invariant stats.created == old(stats).created + |NewRows(snapshot, a, rest[..j])|
        invariant stats.skipped + |NewRows(snapshot, a, rest[..j])| == old(stats).skipped + j
        invariant stats.inspected == old(stats).inspected + 1 && stats.split == old(stats).split + 1
        invariant stats.deleted == old(stats).deleted
        invariant analyses == old(analyses)[i := a.(readingNo := Some(readings[0]))] && deleted == old(deleted)
      {
        var reading := rest[j];
        assert rest[..j + 1][..j] == rest[..j];
        if IsStored(snapshot, a.sampleId, reading) {
          stats := stats.(skipped := stats.skipped + 1);
        } else {
          added := added + [Copy(a, reading)];
          stats := stats.(created := stats.created + 1);
        }
        j := j + 1;
      }
      assert rest[..|rest|] == rest;
    }

    /** One pass of the `run_migration` loop, on the loaded row `i`. */
    method MigrateRow(i: nat)
      requires i < |analyses|
      modifies this
      ensures var a := old(analyses[i]);
        && analyses == old(analyses)[i := RowValue(snapshot, norm, readingsOf, a)]
        && added == old(added) + RowAdded(snapshot, norm, readingsOf, a)
        && deleted == old(deleted) + (if norm(a.readingNo) == [] then [i] else [])
        && stats == Plus(old(stats), RowStats(snapshot, norm, readingsOf, a))
    {
      var a := analyses[i];
      RowBranches(snapshot, norm, readingsOf, a);
      var normalized := norm(a.readingNo);
      if normalized == [] {
        deleted := deleted + [i];
        stats := stats.(deleted := stats.deleted + 1);
      } else if ',' !in normalized {
        if a.readingNo != Some(normalized) {
          analyses := analyses[i := a.(readingNo := Some(normalized))];
        }
      } else {
        analyses := analyses[i := a.(readingNo := Some(normalized))];
        SplitAnalysis(i);
      }
    }

    /** The row loop of `run_migration`, in the order the rows were loaded. */
    method MigrateAll()
      modifies this
      ensures stats == Plus(old(stats), TotalsOf(snapshot, norm, readingsOf, old(analyses)))
      ensures analyses == Migrated(snapshot, norm, readingsOf, old(analyses))
      ensures added == old(added) + AddedBy(snapshot, norm, readingsOf, old(analyses))
      ensures deleted == old(deleted) + DeletedBy(norm, old(analyses))
    {
      var rows0 := analyses;
      assert Plus(stats, TotalsOf(snapshot, norm, readingsOf, rows0[..0])) == stats;
      var i := 0;
      while i < |rows0|
        invariant 0 <= i <= |rows0|
        invariant analyses == Migrated(snapshot, norm, readingsOf, rows0[..i]) + rows0[i..]
        invariant added == old(added) + AddedBy(snapshot, norm, readingsOf, rows0[..i])
        invariant deleted == old(deleted) + DeletedBy(norm, rows0[..i])
        invariant stats == Plus(old(stats), TotalsOf(snapshot, norm, readingsOf, rows0[..i]))
      {
        ghost var as0, add0, del0, st0 := analyses, added, deleted, stats;
        MigratedLength(snapshot, norm, readingsOf, rows0[..i]);
        MigrateRow(i);
        assert as0[i] == rows0[i];
        MigrateStepRows(snapshot, norm, readingsOf, rows0, i, as0, analyses);
        MigrateStepEffects(snapshot, norm, readingsOf, rows0, i, old(added), add0, added,
          old(deleted), del0, deleted, old(stats), st0, stats);
        i := i + 1;
      }
      assert rows0[..|rows0|] == rows0;
    }

    /**
     * `run_migration`: empty values are deleted, comma-free values rewritten in normalised
     * form, comma lists split. A dry run rolls every row change back but still reports the
     * counters.
     */
    method RunMigration(dryRun: bool)
      modifies this
      ensures stats == Plus(old(stats), TotalsOf(snapshot, norm, readingsOf, old(analyses)))
      ensures dryRun ==> analyses == old(analyses) && added == old(added) && deleted == old(deleted)
      ensures !dryRun ==>
        (analyses == Migrated(snapshot, norm, readingsOf, old(analyses))
         && added == old(added) + AddedBy(snapshot, norm, readingsOf, old(analyses))
         && deleted == old(deleted) + DeletedBy(norm, old(analyses)))
    {
      var rows0, added0, deleted0 := analyses, added, deleted;
      MigrateAll();
      if dryRun {
        analyses, added, deleted := rows0, added0, deleted0;
      }
    }
  }
}
