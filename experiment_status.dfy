/**
 * The HPHT status sweep (`backend/services/bulk_uploads/experiment_status.py`): a sheet lists
 * the experiments that are running; the preview reads the listed IDs and reactor numbers, and
 * applying it marks the listed experiments ONGOING and completes every other ONGOING HPHT
 * experiment.
 *
 * An experiment is modelled with its one conditions record (the `conditions` relationship),
 * whose experiment type and reactor number the sweep reads and writes.
 */
module ExperimentStatusUpload {
  import opened Wrappers
  import opened PyStr
  import opened PyNum
  import opened Enums

  datatype ConditionsRow = ConditionsRow(experimentType: Option<string>, reactorNumber: Option<int>)

  datatype Experiment = Experiment(experimentId: string, status: Option<ExperimentStatus>, conditions: Option<ConditionsRow>)

  /** The sheet as read: header texts and rows of cells by column position. */
  datatype Sheet = Sheet(columns: seq<string>, rows: seq<seq<Cell>>)

  function CellAt(row: seq<Cell>, k: nat): Cell {
    if k < |row| then row[k] else Missing
  }

  /**
   * The column that `col_map` maps `key` to: headers are lower-cased and trimmed, and of two
   * headers with the same key the later one wins.
   */
  function ColumnIndex(columns: seq<string>, key: string): (r: Option<nat>)
    ensures r.Some? ==> r.value < |columns| && Strip(Lower(columns[r.value])) == key
    ensures r.Some? ==> forall k | r.value < k < |columns| :: Strip(Lower(columns[k])) != key
    ensures r.None? ==> forall k | 0 <= k < |columns| :: Strip(Lower(columns[k])) != key
    decreases |columns|
  {
    if columns == [] then None
    else if Strip(Lower(columns[|columns| - 1])) == key then Some(|columns| - 1)
    else ColumnIndex(columns[..|columns| - 1], key)
  }

  // ---------------------------------------------------------------- cells

  /**
   * As written, `str(cell or "").strip()`: pandas reads an empty cell as NaN, which is truthy
   * and prints as "nan", so a blank row lists the ID "nan". A numeric ID cell is not
   * modelled (None).
   */
  function IdTextAsWritten(c: Cell): (r: Option<string>)
    ensures c.Missing? ==> r == Some("nan")
  {
    match c
    case Missing => Some("nan")
    case Text(s) => Some(Strip(s))
    case Num(_) => None
  }

  /** The ID text the blank-row filter evidently means: an empty cell is blank. */
  function IdText(c: Cell): (r: Option<string>)
    ensures c.Missing? ==> r == Some("")
    ensures !c.Missing? ==> r == IdTextAsWritten(c)
    ensures r.Some? ==> IsStripped(r.value)
  {
    match c
    case Missing => Some("")
    case Text(s) => StripProps(s); Some(Strip(s))
    case Num(_) => None
  }

  /** A reactor cell: absent (NaN), an integer, or text `int()` rejects. */
  datatype ReactorCell = NoReactor | Reactor(n: int) | BadReactor(raw: string)

  /** `int(value)` of a present reactor cell: floats truncate, text must be an integer literal. */
  function ReactorOf(c: Cell): (r: ReactorCell)
    ensures c.Num? ==> r == Reactor(TruncReal(c.x))
    ensures c.Text? ==> (r.Reactor? <==> ParseInt(c.s).Some?)
  {
    match c
    case Missing => NoReactor
    case Num(x) => Reactor(TruncReal(x))
    case Text(s) =>
      match ParseInt(s)
      case Some(n) => Reactor(n)
      case None => BadReactor(s)
  }

  // ---------------------------------------------------------------- extracting the listed IDs

  /** The listed IDs in first-occurrence order, their reactor numbers, and the errors so far. */
  datatype Extracted = Extracted(listed: seq<string>, reactors: map<string, int>, errors: seq<string>)

  const NoneExtracted := Extracted([], map[], [])

  /** One row: a new non-blank ID is listed, and its reactor cell read if the column exists. */
  function AddRow(acc: Extracted, id: Option<string>, reactor: Option<Cell>): (r: Extracted)
  {
    if id.None? || id.value == [] || id.value in acc.listed then acc
    else
      var listed := acc.listed + [id.value];
      if reactor.None? then acc.(listed := listed)
      else match ReactorOf(reactor.value)
        case NoReactor => acc.(listed := listed)
        case Reactor(n) => Extracted(listed, acc.reactors[id.value := n], acc.errors)
        case BadReactor(raw) => Extracted(listed, acc.reactors, acc.errors + ["Invalid reactor_number for " + id.value + ": " + raw])
  }

  function ReactorCellOf(row: seq<Cell>, reactorCol: Option<nat>): Option<Cell> {
    if reactorCol.Some? then Some(CellAt(row, reactorCol.value)) else None
  }

  /** The extraction loop over the rows. */
  function Extract(rows: seq<seq<Cell>>, idCol: nat, reactorCol: Option<nat>): Extracted
    decreases |rows|
  {
    if rows == [] then NoneExtracted
    else
      var last := rows[|rows| - 1];
      AddRow(Extract(rows[..|rows| - 1], idCol, reactorCol), IdText(CellAt(last, idCol)), ReactorCellOf(last, reactorCol))
  }

  /** A blank ID cell lists "nan" as written, and nothing in the corrected reading. */
  lemma BlankIdListedAsWritten()
    ensures AddRow(NoneExtracted, IdTextAsWritten(Missing), None).listed == ["nan"]
    ensures AddRow(NoneExtracted, IdText(Missing), None).listed == []
  {
  }

  /** The listed IDs are distinct, non-blank and trimmed; reactor numbers belong to listed IDs. */
  predicate WellFormed(e: Extracted) {
    && (forall i, j | 0 <= i < j < |e.listed| :: e.listed[i] != e.listed[j])
    && (forall i | 0 <= i < |e.listed| :: e.listed[i] != [] && IsStripped(e.listed[i]))
    && (forall id | id in e.reactors :: id in e.listed)
  }

  lemma {:induction false} ExtractWellFormed(rows: seq<seq<Cell>>, idCol: nat, reactorCol: Option<nat>)
    ensures WellFormed(Extract(rows, idCol, reactorCol))
    decreases |rows|
  {
    if rows != [] {
      ExtractWellFormed(rows[..|rows| - 1], idCol, reactorCol);
    }
  }

  /** Every non-blank ID of some row is listed, and every listed ID comes from some row. */
  lemma {:induction false} ExtractListsExactly(rows: seq<seq<Cell>>, idCol: nat, reactorCol: Option<nat>, id: string)
    ensures id in Extract(rows, idCol, reactorCol).listed <==>
      id != [] && exists k | 0 <= k < |rows| :: IdText(CellAt(rows[k], idCol)) == Some(id)
    decreases |rows|
  {
    if rows != [] {
      var init := rows[..|rows| - 1];
      ExtractListsExactly(init, idCol, reactorCol, id);
      if id != [] && (exists k | 0 <= k < |rows| :: IdText(CellAt(rows[k], idCol)) == Some(id)) {
        var k :| 0 <= k < |rows| && IdText(CellAt(rows[k], idCol)) == Some(id);
        if k < |init| {
          assert rows[k] == init[k];
        }
      }
      if id in Extract(init, idCol, reactorCol).listed {
        var k :| 0 <= k < |init| && IdText(CellAt(init[k], idCol)) == Some(id);
        assert rows[k] == init[k];
      }
    }
  }

  /** The first row holding an ID decides its reactor number; later rows with the ID are ignored. */
  lemma ExtractIgnoresRepeats(rows: seq<seq<Cell>>, idCol: nat, reactorCol: Option<nat>, row: seq<Cell>)
    requires IdText(CellAt(row, idCol)).Some? && IdText(CellAt(row, idCol)).value in Extract(rows, idCol, reactorCol).listed
    ensures Extract(rows + [row], idCol, reactorCol) == Extract(rows, idCol, reactorCol)
  {
    assert (rows + [row])[..|rows|] == rows;
  }

  /** The extraction loop of the preview. */
  method ExtractIds(rows: seq<seq<Cell>>, idCol: nat, reactorCol: Option<nat>) returns (e: Extracted)
    ensures e == Extract(rows, idCol, reactorCol)
  {
    var listed: seq<string> := [];
    var reactors: map<string, int> := map[];
    var errors: seq<string> := [];
    var i := 0;
    while i < |rows|
      invariant 0 <= i <= |rows|
      invariant Extracted(listed, reactors, errors) == Extract(rows[..i], idCol, reactorCol)
    {
      assert rows[..i + 1][..i] == rows[..i];
      var id := IdText(CellAt(rows[i], idCol));
      if id.Some? && id.value != [] && id.value !in listed {
        listed := listed + [id.value];
        if reactorCol.Some? {
          var cell := CellAt(rows[i], reactorCol.value);
          if !cell.Missing? {
            var r := ReactorOf(cell);
            if r.Reactor? {
              reactors := reactors[id.value := r.n];
            } else {
              errors := errors + ["Invalid reactor_number for " + id.value + ": " + r.raw];
            }
          }
        }
      }
      i := i + 1;
    }
    assert rows[..|rows|] == rows;
    e := Extracted(listed, reactors, errors);
  }

  // ---------------------------------------------------------------- preview

  datatype OngoingItem = OngoingItem(experimentId: string, currentStatus: string, currentReactor: Option<int>, newReactor: Option<int>)
  datatype CompletedItem = CompletedItem(experimentId: string, currentStatus: string, currentReactor: Option<int>)

  /** `StatusChangePreview` with its `reactor_number_map` (empty when the preview stops early). */
  datatype Preview = Preview(
    toOngoing: seq<OngoingItem>,
    toCompleted: seq<CompletedItem>,
    missingIds: seq<string>,
    errors: seq<string>,
    reactorMap: map<string, int>)

  function ErrorPreview(message: string): Preview {
    Preview([], [], [], [message], map[])
  }

  predicate IsHpht(e: Experiment) {
    e.conditions.Some? && e.conditions.value.experimentType == Some("HPHT")
  }

  /** Unlisted, ONGOING and of type HPHT: the experiments the sweep completes. */
  predicate Completes(e: Experiment, ids: seq<string>) {
    e.status == Some(Ongoing) && IsHpht(e) && e.experimentId !in ids
  }

  function CurrentReactor(e: Experiment): Option<int> {
    if e.conditions.Some? then e.conditions.value.reactorNumber else None
  }

  function StatusText(s: Option<ExperimentStatus>): string {
    if s.Some? then StatusValue(s.value) else "None"
  }

  function OngoingItemOf(e: Experiment, reactors: map<string, int>): OngoingItem {
    OngoingItem(e.experimentId, StatusText(e.status), CurrentReactor(e),
      if e.experimentId in reactors then Some(reactors[e.experimentId]) else None)
  }

  function CompletedItemOf(e: Experiment): CompletedItem {
    CompletedItem(e.experimentId, StatusText(e.status), CurrentReactor(e))
  }

  /** The found listed experiments in table order. */
  function OngoingItems(exps: seq<Experiment>, ids: seq<string>, reactors: map<string, int>): seq<OngoingItem>
    decreases |exps|
  {
    if exps == [] then []
    else
      var last := exps[|exps| - 1];
      OngoingItems(exps[..|exps| - 1], ids, reactors) + (if last.experimentId in ids then [OngoingItemOf(last, reactors)] else [])
  }

  /** The experiments the sweep would complete, in table order. */
  function CompletedItems(exps: seq<Experiment>, ids: seq<string>): seq<CompletedItem>
    decreases |exps|
  {
    if exps == [] then []
    else
      var last := exps[|exps| - 1];
      CompletedItems(exps[..|exps| - 1], ids) + (if Completes(last, ids) then [CompletedItemOf(last)] else [])
  }

  function IdsOf(exps: seq<Experiment>): seq<string> {
    seq(|exps|, i requires 0 <= i < |exps| => exps[i].experimentId)
  }

  /** The listed IDs no experiment carries, in listed order. */
  function MissingIds(ids: seq<string>, exps: seq<Experiment>): (r: seq<string>)
    ensures forall id | id in r :: id in ids && id !in IdsOf(exps)
    ensures forall id | id in ids && id !in IdsOf(exps) :: id in r
    decreases |ids|
  {
    if ids == [] then []
    else MissingIds(ids[..|ids| - 1], exps) + (if ids[|ids| - 1] in IdsOf(exps) then [] else [ids[|ids| - 1]])
  }

  /** `preview_status_changes_from_excel` on a sheet already read. */
  function PreviewOf(sheet: Sheet, exps: seq<Experiment>): Preview {
    match ColumnIndex(sheet.columns, "experiment_id")
    case None => ErrorPreview("Missing required column: 'experiment_id'")
    case Some(idCol) =>
      var e := Extract(sheet.rows, idCol, ColumnIndex(sheet.columns, "reactor_number"));
      if e.listed == [] then ErrorPreview("No valid experiment IDs found in file")
      else Preview(OngoingItems(exps, e.listed, e.reactors), CompletedItems(exps, e.listed),
        MissingIds(e.listed, exps), e.errors, e.reactors)
  }

  /** The preview, computed by the source's loops. */
  method PreviewStatusChanges(sheet: Sheet, exps: seq<Experiment>) returns (p: Preview)
    ensures p == PreviewOf(sheet, exps)
  {
    var idCol := ColumnIndex(sheet.columns, "experiment_id");
    if idCol.None? {
      return ErrorPreview("Missing required column: 'experiment_id'");
    }
    var e := ExtractIds(sheet.rows, idCol.value, ColumnIndex(sheet.columns, "reactor_number"));
    if e.listed == [] {
      return ErrorPreview("No valid experiment IDs found in file");
    }
    var toOngoing: seq<OngoingItem> := [];
    var toCompleted: seq<CompletedItem> := [];
    var i := 0;
    while i < |exps|
      invariant 0 <= i <= |exps|
      invariant toOngoing == OngoingItems(exps[..i], e.listed, e.reactors)
      invariant toCompleted == CompletedItems(exps[..i], e.listed)
    {
      assert exps[..i + 1][..i] == exps[..i];
      if exps[i].experimentId in e.listed {
        toOngoing := toOngoing + [OngoingItemOf(exps[i], e.reactors)];
      }
      if Completes(exps[i], e.listed) {
        toCompleted := toCompleted + [CompletedItemOf(exps[i])];
      }
      i := i + 1;
    }
    assert exps[..|exps|] == exps;
    p := Preview(toOngoing, toCompleted, MissingIds(e.listed, exps), e.errors, e.reactors);
  }

  /** Without an experiment_id header the preview is that single error. */
  lemma PreviewNeedsIdColumn(sheet: Sheet, exps: seq<Experiment>)
    requires forall k | 0 <= k < |sheet.columns| :: Strip(Lower(sheet.columns[k])) != "experiment_id"
    ensures PreviewOf(sheet, exps) == ErrorPreview("Missing required column: 'experiment_id'")
  {
  }

  // ---------------------------------------------------------------- applying

  /** A listed experiment: ONGOING, with the supplied reactor number when it has conditions. */
  function MarkOngoing(e: Experiment, reactors: map<string, int>): Experiment {
    e.(status := Some(Ongoing),
       conditions := if ReactorChanges(e, reactors) then Some(e.conditions.value.(reactorNumber := Some(reactors[e.experimentId]))) else e.conditions)
  }

  /** The reactor update condition: a number supplied, conditions present, and a different value. */
  predicate ReactorChanges(e: Experiment, reactors: map<string, int>) {
    e.experimentId in reactors && e.conditions.Some? && e.conditions.value.reactorNumber != Some(reactors[e.experimentId])
  }

  /** One experiment after the sweep. */
  function After(e: Experiment, ids: seq<string>, reactors: map<string, int>): Experiment {
    if e.experimentId in ids then MarkOngoing(e, reactors)
    else if Completes(e, ids) then e.(status := Some(Completed))
    else e
  }

  function ApplyAll(exps: seq<Experiment>, ids: seq<string>, reactors: map<string, int>): (r: seq<Experiment>)
    ensures |r| == |exps|
  {
    seq(|exps|, i requires 0 <= i < |exps| => After(exps[i], ids, reactors))
  }

  function CountListed(exps: seq<Experiment>, ids: seq<string>): nat
    decreases |exps|
  {
    if exps == [] then 0
    else CountListed(exps[..|exps| - 1], ids) + (if exps[|exps| - 1].experimentId in ids then 1 else 0)
  }

  function CountCompleting(exps: seq<Experiment>, ids: seq<string>): nat
    decreases |exps|
  {
    if exps == [] then 0
    else CountCompleting(exps[..|exps| - 1], ids) + (if Completes(exps[|exps| - 1], ids) then 1 else 0)
  }

  function CountReactorChanges(exps: seq<Experiment>, ids: seq<string>, reactors: map<string, int>): nat
    decreases |exps|
  {
    if exps == [] then 0
    else
      var last := exps[|exps| - 1];
      CountReactorChanges(exps[..|exps| - 1], ids, reactors) + (if last.experimentId in ids && ReactorChanges(last, reactors) then 1 else 0)
  }

  /**
   * Listed experiments end ONGOING; an experiment is completed exactly when it was ONGOING HPHT
   * and unlisted; other unlisted experiments are unchanged; reactor numbers change only as supplied.
   */
  lemma ApplyOutcome(exps: seq<Experiment>, ids: seq<string>, reactors: map<string, int>, i: nat)
    requires i < |exps|
    ensures exps[i].experimentId in ids ==> ApplyAll(exps, ids, reactors)[i].status == Some(Ongoing)
    ensures ApplyAll(exps, ids, reactors)[i].status == Some(Completed) && exps[i].status != Some(Completed) ==>
      IsHpht(exps[i]) && exps[i].status == Some(Ongoing) && exps[i].experimentId !in ids
    ensures Completes(exps[i], ids) ==> ApplyAll(exps, ids, reactors)[i].status == Some(Completed)
    ensures exps[i].experimentId !in ids && !Completes(exps[i], ids) ==> ApplyAll(exps, ids, reactors)[i] == exps[i]
    ensures ApplyAll(exps, ids, reactors)[i].experimentId == exps[i].experimentId
    ensures CurrentReactor(ApplyAll(exps, ids, reactors)[i]) != CurrentReactor(exps[i]) ==>
      exps[i].experimentId in ids && ReactorChanges(exps[i], reactors)
  {
  }

  /** Applying the sweep a second time changes nothing and counts no completions or reactor updates. */
  lemma ApplyIdempotent(exps: seq<Experiment>, ids: seq<string>, reactors: map<string, int>)
    ensures ApplyAll(ApplyAll(exps, ids, reactors), ids, reactors) == ApplyAll(exps, ids, reactors)
    ensures CountCompleting(ApplyAll(exps, ids, reactors), ids) == 0
    ensures CountReactorChanges(ApplyAll(exps, ids, reactors), ids, reactors) == 0
  {
    var once := ApplyAll(exps, ids, reactors);
    NothingLeft(once, ids, reactors, exps);
  }

  lemma {:induction false} NothingLeft(once: seq<Experiment>, ids: seq<string>, reactors: map<string, int>, exps: seq<Experiment>)
    requires once == ApplyAll(exps, ids, reactors)
    ensures CountCompleting(once, ids) == 0
    ensures CountReactorChanges(once, ids, reactors) == 0
    decreases |exps|
  {
    if exps != [] {
      var n := |exps| - 1;
      assert once[..n] == ApplyAll(exps[..n], ids, reactors);
      NothingLeft(once[..n], ids, reactors, exps[..n]);
      assert !Completes(once[n], ids);
      assert !(once[n].experimentId in ids && ReactorChanges(once[n], reactors));
    }
  }

  /** The preview lists exactly what applying it with the listed IDs then does, count for count. */
  lemma {:induction false} PreviewCountsMatch(exps: seq<Experiment>, ids: seq<string>, reactors: map<string, int>)
    ensures |OngoingItems(exps, ids, reactors)| == CountListed(exps, ids)
    ensures |CompletedItems(exps, ids)| == CountCompleting(exps, ids)
    decreases |exps|
  {
    if exps != [] {
      PreviewCountsMatch(exps[..|exps| - 1], ids, reactors);
    }
  }

  /** The experiments table, as the sweep updates it in place. */
  class StatusStore {
    var experiments: seq<Experiment>

    constructor (experiments: seq<Experiment>)
      ensures this.experiments == experiments
    {
      this.experiments := experiments;
    }

    /**
     * `apply_status_changes`: the listed experiments become ONGOING (reactor numbers updated
     * where supplied and different), then every unlisted ONGOING HPHT experiment becomes
     * COMPLETED; the three counts are returned, and the error list stays empty.
     */
    method ApplyStatusChanges(ids: seq<string>, reactors: map<string, int>)
      returns (markedOngoing: nat, markedCompleted: nat, reactorUpdates: nat, errors: seq<string>)
      modifies this
      ensures experiments == ApplyAll(old(experiments), ids, reactors)
      ensures markedOngoing == CountListed(old(experiments), ids)
      ensures markedCompleted == CountCompleting(old(experiments), ids)
      ensures reactorUpdates == CountReactorChanges(old(experiments), ids, reactors)
      ensures errors == []
    {
      var before := experiments;
      var marked;
      marked, markedOngoing, reactorUpdates := MarkListed(before, ids, reactors);
      var swept;
      swept, markedCompleted := CompleteUnlisted(before, marked, ids, reactors);
      experiments := swept;
      errors := [];
    }
  }

  /** The table after the first loop: listed experiments marked ONGOING. */
  function Marked(exps: seq<Experiment>, ids: seq<string>, reactors: map<string, int>): (r: seq<Experiment>)
    ensures |r| == |exps|
  {
    seq(|exps|, i requires 0 <= i < |exps| => if exps[i].experimentId in ids then MarkOngoing(exps[i], reactors) else exps[i])
  }

  /** The first loop of `apply_status_changes`. */
  method MarkListed(before: seq<Experiment>, ids: seq<string>, reactors: map<string, int>)
    returns (exps: seq<Experiment>, markedOngoing: nat, reactorUpdates: nat)
    ensures exps == Marked(before, ids, reactors)
    ensures markedOngoing == CountListed(before, ids)
    ensures reactorUpdates == CountReactorChanges(before, ids, reactors)
  {
    markedOngoing, reactorUpdates := 0, 0;
    exps := before;
    var i := 0;
    while i < |before|
      invariant 0 <= i <= |before| && |exps| == |before|
      invariant forall k | 0 <= k < i :: exps[k] == Marked(before, ids, reactors)[k]
      invariant forall k | i <= k < |before| :: exps[k] == before[k]
      invariant markedOngoing == CountListed(before[..i], ids)
      invariant reactorUpdates == CountReactorChanges(before[..i], ids, reactors)
    {
      assert before[..i + 1][..i] == before[..i];
      var e := before[i];
      if e.experimentId in ids {
        markedOngoing := markedOngoing + 1;
        if ReactorChanges(e, reactors) {
          reactorUpdates := reactorUpdates + 1;
        }
        exps := exps[i := MarkOngoing(e, reactors)];
      }
      i := i + 1;
    }
    assert before[..|before|] == before;
  }

  /** The second loop: unlisted ONGOING HPHT experiments, as the table stood before the call, become COMPLETED. */
  method CompleteUnlisted(before: seq<Experiment>, marked: seq<Experiment>, ids: seq<string>, reactors: map<string, int>)
    returns (exps: seq<Experiment>, markedCompleted: nat)
    requires marked == Marked(before, ids, reactors)
    ensures exps == ApplyAll(before, ids, reactors)
    ensures markedCompleted == CountCompleting(before, ids)
  {
    exps := marked;
    markedCompleted := 0;
    var i := 0;
    while i < |before|
      invariant 0 <= i <= |before| && |exps| == |before|
      invariant forall k | 0 <= k < i :: exps[k] == After(before[k], ids, reactors)
      invariant forall k | i <= k < |before| :: exps[k] == marked[k]
      invariant markedCompleted == CountCompleting(before[..i], ids)
    {
      assert before[..i + 1][..i] == before[..i];
      if Completes(before[i], ids) {
        exps := exps[i := before[i].(status := Some(Completed))];
        markedCompleted := markedCompleted + 1;
      }
      i := i + 1;
    }
    assert before[..|before|] == before;
  }
}
