/**
 * Sample-ID de-duplication, the database half (`merge_duplicate_samples_007.py`): moving
 * the rows that reference a duplicate sample onto the primary, merging the primary's
 * metadata, and the driver that does both for every duplicate group.
 *
 * The session runs with autoflush off, so every query reads the committed rows as they were
 * when the run started (the snapshot), while the objects a query returns carry the changes
 * the session has made to them so far. Deleted rows stay in their table, marked deleted,
 * until the commit.
 */
module MergeSamples007Db {
  import opened Wrappers
  import opened MergeSamples007

  // ---------------------------------------------------------------- reference tables

  /** What makes two rows of one sample "the same" row, per table. */
  datatype RowKey =
    | NoKey                                                            // experiments
    | AnalysisKey(analysisType: Option<string>, readingNo: Option<string>) // external analyses
    | FileKey(fileName: Option<string>)                                // photos
    | AnalyteKey(analyteId: int)                                       // elemental results
    | MineralKey(mineralName: string)                                  // XRD phases

  /** The columns a collision may overwrite. */
  datatype Payload = NoPayload | PhotoFile(path: string, fileType: Option<string>) | Amount(value: Option<real>)

  /**
   * A row referencing a sample. `stamp` is the timestamp the table compares: `created_at`
   * for photos, `updated_at` for elemental results and XRD phases.
   */
  datatype Row = Row(sampleId: string, key: RowKey, payload: Payload, stamp: int)

  /** What happens to a duplicate's row whose key the primary already has. */
  datatype Policy =
    | MoveAll           // experiments: never checked, always moved
    | DropDuplicate     // analyses: the duplicate's row is deleted
    | KeepNewer         // photos: the newer file replaces the primary's, then deleted
    | KeepNonNullNewer  // elemental, XRD: a non-null newer (or only) value is copied, then deleted

  datatype TableKind = Experiments | Analyses | Photos | Elemental | XrdPhases

  function PolicyOf(k: TableKind): Policy {
    match k
    case Experiments => MoveAll
    case Analyses => DropDuplicate
    case Photos => KeepNewer
    case Elemental => KeepNonNullNewer
    case XrdPhases => KeepNonNullNewer
  }

  /** A table: its rows and the indices the session has deleted. */
  datatype Table = Table(rows: seq<Row>, deleted: set<nat>)

  /** The state of one table while references move, with the count of moved rows. */
  datatype Migration = Migration(rows: seq<Row>, deleted: set<nat>, moved: nat)

  /** The `.first()` row of `primary` with this key among the committed rows. */
  function Existing(snap: seq<Row>, primary: string, key: RowKey): (r: Option<nat>)
    ensures r.Some? ==> r.value < |snap| && snap[r.value].sampleId == primary && snap[r.value].key == key
    ensures r.Some? ==> forall i | 0 <= i < r.value :: !(snap[i].sampleId == primary && snap[i].key == key)
    ensures r.None? ==> forall i | 0 <= i < |snap| :: !(snap[i].sampleId == primary && snap[i].key == key)
  {
    ExistingFrom(snap, primary, key, 0)
  }

  function ExistingFrom(snap: seq<Row>, primary: string, key: RowKey, from: nat): (r: Option<nat>)
    requires from <= |snap|
    ensures r.Some? ==> from <= r.value < |snap| && snap[r.value].sampleId == primary && snap[r.value].key == key
    ensures r.Some? ==> forall i | from <= i < r.value :: !(snap[i].sampleId == primary && snap[i].key == key)
    ensures r.None? ==> forall i | from <= i < |snap| :: !(snap[i].sampleId == primary && snap[i].key == key)
    decreases |snap| - from
  {
    if from == |snap| then None
    else if snap[from].sampleId == primary && snap[from].key == key then Some(from)
    else ExistingFrom(snap, primary, key, from + 1)
  }

  /** The numeric value of an elemental or XRD row; `None` for NULL. */
  function AmountOf(p: Payload): Option<real> {
    if p.Amount? then p.value else None
  }

  /** Whether a colliding duplicate row overwrites the primary's row before it is deleted. */
  predicate Replaces(policy: Policy, incoming: Row, target: Row) {
    match policy
    case KeepNewer => incoming.stamp > target.stamp
    case KeepNonNullNewer =>
      AmountOf(incoming.payload).Some? && (AmountOf(target.payload).None? || incoming.stamp > target.stamp)
    case _ => false
  }

  /** Whether a duplicate row with this key meets a row the primary already has. */
  predicate Collides(snap: seq<Row>, primary: string, policy: Policy, key: RowKey) {
    policy != MoveAll && Existing(snap, primary, key).Some?
  }

  /** What happens to row `j` of a duplicate. */
  function Step(m: Migration, snap: seq<Row>, primary: string, policy: Policy, j: nat): (r: Migration)
    requires |m.rows| == |snap| && j < |snap|
    ensures |r.rows| == |snap|
  {
    var row := m.rows[j];
    if Collides(snap, primary, policy, row.key) then
      var i := Existing(snap, primary, row.key).value;
      var rows := if Replaces(policy, row, m.rows[i]) then m.rows[i := m.rows[i].(payload := row.payload)] else m.rows;
      Migration(rows, m.deleted + {j}, m.moved)
    else
      Migration(m.rows[j := row.(sampleId := primary)], m.deleted, m.moved + 1)
  }

  predicate InRange(order: seq<nat>, n: nat) {
    forall t | 0 <= t < |order| :: order[t] < n
  }

  /** The rows of `order` handled one after the other. */
  function Run(m: Migration, snap: seq<Row>, primary: string, policy: Policy, order: seq<nat>): (r: Migration)
    requires |m.rows| == |snap| && InRange(order, |snap|)
    ensures |r.rows| == |snap|
    decreases |order|
  {
    if order == [] then m
    else
      var n := |order| - 1;
      Step(Run(m, snap, primary, policy, order[..n]), snap, primary, policy, order[n])
  }

  /** The indices below `n` of the committed rows that belong to `sid`, ascending. */
  function RowsOf(snap: seq<Row>, sid: string, n: nat): (r: seq<nat>)
    requires n <= |snap|
    ensures InRange(r, n) && InRange(r, |snap|)
    decreases n
  {
    if n == 0 then []
    else
      var pre := RowsOf(snap, sid, n - 1);
      assert forall t | 0 <= t < |pre| :: pre[t] < n - 1;
      pre + (if snap[n - 1].sampleId == sid then [n - 1] else [])
  }

  /** `RowsOf` lists exactly the rows of `sid` below `n`, each once, ascending. */
  lemma {:induction false} RowsOfSpec(snap: seq<Row>, sid: string, n: nat)
    requires n <= |snap|
    ensures var r := RowsOf(snap, sid, n);
      && (forall j: nat :: j in r <==> j < n && snap[j].sampleId == sid)
      && (forall a, b | 0 <= a < b < |r| :: r[a] < r[b])
    decreases n
  {
    if n > 0 {
      RowsOfSpec(snap, sid, n - 1);
    }
  }

  /** The order `migrate_foreign_keys` visits a table's rows: duplicate by duplicate. */
  function DupOrder(snap: seq<Row>, dups: seq<string>): (r: seq<nat>)
    ensures InRange(r, |snap|)
    decreases |dups|
  {
    if dups == [] then []
    else
      var n := |dups| - 1;
      var a, b := DupOrder(snap, dups[..n]), RowsOf(snap, dups[n], |snap|);
      assert forall t | 0 <= t < |a + b| :: (a + b)[t] in a || (a + b)[t] in b;
      a + b
  }

  /** `DupOrder` visits exactly the rows of the duplicates. */
  lemma {:induction false} DupOrderSpec(snap: seq<Row>, dups: seq<string>)
    ensures forall j: nat :: j in DupOrder(snap, dups) <==> j < |snap| && snap[j].sampleId in dups
    decreases |dups|
  {
    if dups != [] {
      var n := |dups| - 1;
      DupOrderSpec(snap, dups[..n]);
      RowsOfSpec(snap, dups[n], |snap|);
      var a, b := DupOrder(snap, dups[..n]), RowsOf(snap, dups[n], |snap|);
      assert forall x :: x in dups <==> x in dups[..n] || x == dups[n] by {
        assert dups == dups[..n] + [dups[n]];
      }
      assert forall j: nat :: j in a + b <==> j in a || j in b;
    }
  }

  // ---------------------------------------------------------------- what a run does

  /** Handling two orders in turn is handling their concatenation. */
  lemma {:induction false} RunAppend(m: Migration, snap: seq<Row>, primary: string, policy: Policy, a: seq<nat>, b: seq<nat>)
    requires |m.rows| == |snap| && InRange(a, |snap|) && InRange(b, |snap|)
    ensures InRange(a + b, |snap|)
    ensures Run(m, snap, primary, policy, a + b) == Run(Run(m, snap, primary, policy, a), snap, primary, policy, b)
    decreases |b|
  {
    if b != [] {
      var n := |b| - 1;
      assert (a + b)[..|a| + n] == a + b[..n];
      RunAppend(m, snap, primary, policy, a, b[..n]);
    } else {
      assert a + b == a;
    }
  }

  /** The row a duplicate's row collides with, when it collides. */
  function TargetOf(snap: seq<Row>, primary: string, key: RowKey): nat
    requires Existing(snap, primary, key).Some?
  {
    Existing(snap, primary, key).value
  }

  /**
   * Which rows a run may touch: the listed rows themselves (moved or deleted) and, in the
   * payload only, the primary's own rows.
   */
  predicate Distinct(order: seq<nat>) {
    forall a, b | 0 <= a < b < |order| :: order[a] != order[b]
  }

  predicate Eligible(m: Migration, snap: seq<Row>, primary: string, order: seq<nat>)
    requires |m.rows| == |snap| && InRange(order, |snap|)
  {
    && Distinct(order)
    && (forall t | 0 <= t < |order| :: snap[order[t]].sampleId != primary && order[t] !in m.deleted)
    && (forall j | 0 <= j < |snap| :: m.rows[j].key == snap[j].key)
  }

  /** One step: the row is deleted on a collision and moved otherwise; only its own ID changes. */
  lemma StepFate(p: Migration, snap: seq<Row>, primary: string, policy: Policy, j: nat)
    requires |p.rows| == |snap| && j < |snap| && snap[j].sampleId != primary && j !in p.deleted
    requires p.rows[j].key == snap[j].key
    ensures var r := Step(p, snap, primary, policy, j);
      && (forall k | 0 <= k < |snap| :: r.rows[k].key == p.rows[k].key && r.rows[k].stamp == p.rows[k].stamp)
      && (forall k | 0 <= k < |snap| && k != j :: r.rows[k].sampleId == p.rows[k].sampleId)
      && r.deleted == (if Collides(snap, primary, policy, snap[j].key) then p.deleted + {j} else p.deleted)
      && (!Collides(snap, primary, policy, snap[j].key) ==> r.rows[j].sampleId == primary)
      && r.moved + |r.deleted| == p.moved + |p.deleted| + 1
  {
    if Collides(snap, primary, policy, snap[j].key) {
      assert Existing(snap, primary, snap[j].key).value != j;
      assert |p.deleted + {j}| == |p.deleted| + 1;
    }
  }

  /**
   * The fate of every visited row: it is deleted exactly when its key collides with a row
   * the primary has, and otherwise it now belongs to the primary. Nothing else is deleted
   * or moved, keys and stamps never change, and every visited row is counted once, as
   * moved or as deleted.
   */
  lemma {:induction false} RunFate(m: Migration, snap: seq<Row>, primary: string, policy: Policy, order: seq<nat>)
    requires |m.rows| == |snap| && InRange(order, |snap|) && Eligible(m, snap, primary, order)
    ensures var r := Run(m, snap, primary, policy, order);
      && (forall j | 0 <= j < |snap| :: r.rows[j].key == m.rows[j].key && r.rows[j].stamp == m.rows[j].stamp)
      && (forall j | 0 <= j < |snap| && j !in order :: r.rows[j].sampleId == m.rows[j].sampleId)
      && (forall j | j in order :: j in r.deleted <==> Collides(snap, primary, policy, snap[j].key))
      && (forall j | j in order && j !in r.deleted :: r.rows[j].sampleId == primary)
      && (forall j :: j in r.deleted <==> j in m.deleted || (j in order && Collides(snap, primary, policy, snap[j].key)))
      && r.moved + |r.deleted| == m.moved + |m.deleted| + |order|
  {
    RunFateCore(m, snap, primary, policy, order);
  }

  /** `RunFate` without the collision rule for visited rows, which follows from the others. */
  lemma {:induction false} RunFateCore(m: Migration, snap: seq<Row>, primary: string, policy: Policy, order: seq<nat>)
    requires |m.rows| == |snap| && InRange(order, |snap|) && Eligible(m, snap, primary, order)
    ensures var r := Run(m, snap, primary, policy, order);
      && (forall j | 0 <= j < |snap| :: r.rows[j].key == m.rows[j].key && r.rows[j].stamp == m.rows[j].stamp)
      && (forall j | 0 <= j < |snap| && j !in order :: r.rows[j].sampleId == m.rows[j].sampleId)
      && (forall j | j in order && j !in r.deleted :: r.rows[j].sampleId == primary)
      && (forall j :: j in r.deleted <==> j in m.deleted || (j in order && Collides(snap, primary, policy, snap[j].key)))
      && r.moved + |r.deleted| == m.moved + |m.deleted| + |order|
    decreases |order|
  {
    if order != [] {
      var n := |order| - 1;
      var pre := order[..n];
      var j := order[n];
      assert Eligible(m, snap, primary, pre);
      RunFateCore(m, snap, primary, policy, pre);
      var p := Run(m, snap, primary, policy, pre);
      assert j !in pre;
      LastMembers(order);
      StepFate(p, snap, primary, policy, j);
    }
  }

  /** The members of a non-empty sequence are those of its front and its last element. */
  lemma LastMembers(order: seq<nat>)
    requires order != []
    ensures forall x :: x in order <==> x in order[..|order| - 1] || x == order[|order| - 1]
  {
    assert order == order[..|order| - 1] + [order[|order| - 1]];
  }

  /**
   * No row keeps a duplicate's ID: after a run over all of the duplicates' rows, every row
   * that is not deleted and belonged to a duplicate belongs to the primary; for experiments
   * (never checked for collisions) nothing is deleted at all.
   */
  lemma NoRowKeepsDuplicate(m: Migration, snap: seq<Row>, primary: string, policy: Policy, dups: seq<string>)
    requires |m.rows| == |snap| && primary !in dups && DistinctIds(dups)
    requires forall j | 0 <= j < |snap| :: m.rows[j] == snap[j] && j !in m.deleted
    ensures var r := Run(m, snap, primary, policy, DupOrder(snap, dups));
      && (forall j | 0 <= j < |snap| && j !in r.deleted :: r.rows[j].sampleId !in dups)
      && (policy == MoveAll ==> r.deleted == m.deleted && r.moved == m.moved + |DupOrder(snap, dups)|)
  {
    var order := DupOrder(snap, dups);
    DupOrderDistinct(snap, dups);
    DupOrderSpec(snap, dups);
    RunFate(m, snap, primary, policy, order);
  }

  /** No ID twice: sample IDs are the primary key of the sample table. */
  predicate DistinctIds(ids: seq<string>) {
    forall a, b | 0 <= a < b < |ids| :: ids[a] != ids[b]
  }

  lemma {:induction false} DupOrderDistinct(snap: seq<Row>, dups: seq<string>)
    requires DistinctIds(dups)
    ensures Distinct(DupOrder(snap, dups))
    decreases |dups|
  {
    if dups != [] {
      var n := |dups| - 1;
      assert dups[n] !in dups[..n];
      DupOrderDistinct(snap, dups[..n]);
      DupOrderSpec(snap, dups[..n]);
      RowsOfSpec(snap, dups[n], |snap|);
      var a, b := DupOrder(snap, dups[..n]), RowsOf(snap, dups[n], |snap|);
      assert DupOrder(snap, dups) == a + b;
      forall x, y | 0 <= x < y < |a + b|
        ensures (a + b)[x] != (a + b)[y]
      {
        if y < |a| {
          assert (a + b)[x] == a[x] && (a + b)[y] == a[y];
        } else if x >= |a| {
          assert (a + b)[x] == b[x - |a|] && (a + b)[y] == b[y - |a|];
        } else {
          var u, v := a[x], b[y - |a|];
          assert (a + b)[x] == u && (a + b)[y] == v;
          assert u in a && v in b;
          assert snap[u].sampleId in dups[..n] && snap[v].sampleId == dups[n];
        }
      }
    }
  }

  // ---------------------------------------------------------------- what a collision keeps

  /** A run changes payloads of the primary's own rows only. */
  lemma {:induction false} RunKeepsOtherPayloads(m: Migration, snap: seq<Row>, primary: string, policy: Policy, order: seq<nat>)
    requires |m.rows| == |snap| && InRange(order, |snap|)
    ensures var r := Run(m, snap, primary, policy, order);
      forall k | 0 <= k < |snap| && snap[k].sampleId != primary :: r.rows[k].payload == m.rows[k].payload
    decreases |order|
  {
    if order != [] {
      RunKeepsOtherPayloads(m, snap, primary, policy, order[..|order| - 1]);
    }
  }

  /** Whether row `j` of a duplicate meets the primary's row `i`. */
  predicate Hits(snap: seq<Row>, primary: string, policy: Policy, j: nat, i: nat)
    requires j < |snap|
  {
    Collides(snap, primary, policy, snap[j].key) && TargetOf(snap, primary, snap[j].key) == i
  }

  /** The last row of `order` that meets the primary's photo `i` and is newer than it. */
  function LastNewer(m: Migration, snap: seq<Row>, primary: string, order: seq<nat>, i: nat): (r: Option<nat>)
    requires |m.rows| == |snap| && InRange(order, |snap|) && i < |snap|
    ensures r.Some? ==> r.value in order && r.value < |snap|
    decreases |order|
  {
    if order == [] then None
    else
      var n := |order| - 1;
      var j := order[n];
      if Hits(snap, primary, KeepNewer, j, i) && m.rows[j].stamp > m.rows[i].stamp then Some(j)
      else LastNewer(m, snap, primary, order[..n], i)
  }

  /**
   * Photos: the primary's photo ends with the file of the LAST colliding duplicate photo
   * that is newer than the primary's own, or keeps its file when there is none. The
   * comparison is always against the primary's original timestamp, which the copy leaves
   * alone, so a later but older duplicate can overwrite a newer one.
   */
  lemma {:induction false} PhotoOutcome(m: Migration, snap: seq<Row>, primary: string, order: seq<nat>, i: nat)
    requires |m.rows| == |snap| && InRange(order, |snap|) && Eligible(m, snap, primary, order)
    requires i < |snap| && snap[i].sampleId == primary
    ensures var r := Run(m, snap, primary, KeepNewer, order);
      r.rows[i].payload == match LastNewer(m, snap, primary, order, i)
                           case Some(j) => m.rows[j].payload
                           case None => m.rows[i].payload
    decreases |order|
  {
    if order != [] {
      var n := |order| - 1;
      var pre, j := order[..n], order[n];
      assert Eligible(m, snap, primary, pre);
      PhotoOutcome(m, snap, primary, pre, i);
      var p := Run(m, snap, primary, KeepNewer, pre);
      assert p.rows[j].key == snap[j].key && p.rows[j].payload == m.rows[j].payload
        && p.rows[j].stamp == m.rows[j].stamp && p.rows[i].stamp == m.rows[i].stamp by {
        RunFate(m, snap, primary, KeepNewer, pre);
        RunKeepsOtherPayloads(m, snap, primary, KeepNewer, pre);
      }
      PhotoStep(p, snap, primary, j, i);
    }
  }

  /** One photo step: the primary's photo `i` takes row `j`'s file exactly when `j` meets it and is newer. */
  lemma PhotoStep(p: Migration, snap: seq<Row>, primary: string, j: nat, i: nat)
    requires |p.rows| == |snap| && j < |snap| && i < |snap|
    requires snap[i].sampleId == primary && snap[j].sampleId != primary && p.rows[j].key == snap[j].key
    ensures Step(p, snap, primary, KeepNewer, j).rows[i].payload ==
      if Hits(snap, primary, KeepNewer, j, i) && p.rows[j].stamp > p.rows[i].stamp then p.rows[j].payload
      else p.rows[i].payload
  {
  }

  /** Whether some row of `order` meets the primary's row `i` with a non-null value. */
  predicate HasDonor(m: Migration, snap: seq<Row>, primary: string, order: seq<nat>, i: nat)
    requires |m.rows| == |snap| && InRange(order, |snap|)
    decreases |order|
  {
    if order == [] then false
    else
      var n := |order| - 1;
      var j := order[n];
      (Hits(snap, primary, KeepNonNullNewer, j, i) && AmountOf(m.rows[j].payload).Some?)
      || HasDonor(m, snap, primary, order[..n], i)
  }

  /** Whether `p` is the payload of a row of `order` that meets the primary's row `i`. */
  predicate FromDonor(m: Migration, snap: seq<Row>, primary: string, order: seq<nat>, i: nat, p: Payload)
    requires |m.rows| == |snap| && InRange(order, |snap|)
    decreases |order|
  {
    if order == [] then false
    else
      var n := |order| - 1;
      var j := order[n];
      (Hits(snap, primary, KeepNonNullNewer, j, i) && m.rows[j].payload == p)
      || FromDonor(m, snap, primary, order[..n], i, p)
  }

  /**
   * Elemental results and XRD phases: the primary's value ends non-null exactly when it was
   * non-null or a colliding duplicate had a non-null value, and it is always its own value
   * or one of those duplicates' values.
   */
  lemma {:induction false} AmountOutcome(m: Migration, snap: seq<Row>, primary: string, order: seq<nat>, i: nat)
    requires |m.rows| == |snap| && InRange(order, |snap|) && Eligible(m, snap, primary, order)
    requires i < |snap| && snap[i].sampleId == primary
    ensures var r := Run(m, snap, primary, KeepNonNullNewer, order);
      && (AmountOf(r.rows[i].payload).Some? <==>
            AmountOf(m.rows[i].payload).Some? || HasDonor(m, snap, primary, order, i))
      && (r.rows[i].payload == m.rows[i].payload || FromDonor(m, snap, primary, order, i, r.rows[i].payload))
    decreases |order|
  {
    if order != [] {
      var n := |order| - 1;
      var pre, j := order[..n], order[n];
      assert Eligible(m, snap, primary, pre);
      AmountOutcome(m, snap, primary, pre, i);
      var p := Run(m, snap, primary, KeepNonNullNewer, pre);
      assert p.rows[j].key == snap[j].key && p.rows[j].payload == m.rows[j].payload by {
        RunFate(m, snap, primary, KeepNonNullNewer, pre);
        RunKeepsOtherPayloads(m, snap, primary, KeepNonNullNewer, pre);
      }
      var r := Step(p, snap, primary, KeepNonNullNewer, j);
      AmountStep(p, snap, primary, j, i);
      if r.rows[i].payload != p.rows[i].payload {
        assert FromDonor(m, snap, primary, order, i, r.rows[i].payload);
      } else if p.rows[i].payload != m.rows[i].payload {
        assert FromDonor(m, snap, primary, pre, i, p.rows[i].payload);
      }
    }
  }

  /** One amount step: the primary's row `i` takes row `j`'s value exactly when `j` meets it and the policy replaces. */
  lemma AmountStep(p: Migration, snap: seq<Row>, primary: string, j: nat, i: nat)
    requires |p.rows| == |snap| && j < |snap| && i < |snap|
    requires snap[i].sampleId == primary && snap[j].sampleId != primary && p.rows[j].key == snap[j].key
    ensures Step(p, snap, primary, KeepNonNullNewer, j).rows[i].payload ==
      if Hits(snap, primary, KeepNonNullNewer, j, i) && Replaces(KeepNonNullNewer, p.rows[j], p.rows[i]) then p.rows[j].payload
      else p.rows[i].payload
  {
  }

  /** Two colliding photos both newer than the primary's: the later one wins, even if older. */
  lemma LaterPhotoWins(m: Migration, snap: seq<Row>, primary: string, a: nat, b: nat, i: nat)
    requires |m.rows| == |snap| && a < |snap| && b < |snap| && i < |snap| && snap[i].sampleId == primary
    requires Eligible(m, snap, primary, [a, b])
    requires Hits(snap, primary, KeepNewer, a, i) && Hits(snap, primary, KeepNewer, b, i)
    requires m.rows[i].stamp < m.rows[b].stamp < m.rows[a].stamp
    ensures Run(m, snap, primary, KeepNewer, [a, b]).rows[i].payload == m.rows[b].payload
  {
    PhotoOutcome(m, snap, primary, [a, b], i);
  }

  // ---------------------------------------------------------------- whole plan

  /** A duplicate group as processed: its primary and the other members, in group order. */
  datatype Group = Group(primary: string, dups: seq<string>)

  /** Every table after each group's references moved, group by group. */
  function RunPlan(m: Migration, snap: seq<Row>, policy: Policy, plan: seq<Group>): (r: Migration)
    requires |m.rows| == |snap|
    ensures |r.rows| == |snap|
    decreases |plan|
  {
    if plan == [] then m
    else
      var n := |plan| - 1;
      Run(RunPlan(m, snap, policy, plan[..n]), snap, plan[n].primary, policy, DupOrder(snap, plan[n].dups))
  }

  /** The IDs merged away by a plan. */
  function AllDups(plan: seq<Group>): set<string>
    decreases |plan|
  {
    if plan == [] then {} else AllDups(plan[..|plan| - 1]) + IdSet(plan[|plan| - 1].dups)
  }

  function IdSet(ids: seq<string>): (r: set<string>)
    ensures forall x :: x in r <==> x in ids
  {
    set i | 0 <= i < |ids| :: ids[i]
  }

  /** The IDs a plan keeps as primaries. */
  function Primaries(plan: seq<Group>): set<string>
    decreases |plan|
  {
    if plan == [] then {} else Primaries(plan[..|plan| - 1]) + {plan[|plan| - 1].primary}
  }

  /**
   * The groups of a plan are disjoint, each lists an ID once, and no primary is merged
   * away by any group.
   */
  predicate WellFormed(plan: seq<Group>) {
    && (forall t | 0 <= t < |plan| :: DistinctIds(plan[t].dups))
    && (forall t, u | 0 <= t < |plan| && 0 <= u < |plan| :: plan[u].primary !in plan[t].dups)
    && (forall t, u | 0 <= t < u < |plan| :: forall x | x in plan[t].dups :: x !in plan[u].dups)
  }

  lemma {:induction false} AllDupsSpec(plan: seq<Group>, x: string)
    ensures x in AllDups(plan) <==> exists t | 0 <= t < |plan| :: x in plan[t].dups
    decreases |plan|
  {
    if plan != [] {
      var n := |plan| - 1;
      AllDupsSpec(plan[..n], x);
      if x in AllDups(plan[..n]) {
        var t :| 0 <= t < n && x in plan[..n][t].dups;
        assert x in plan[t].dups;
      }
      if exists t | 0 <= t < |plan| :: x in plan[t].dups {
        var t :| 0 <= t < |plan| && x in plan[t].dups;
        if t < n {
          assert x in plan[..n][t].dups;
        }
      }
    }
  }

  lemma {:induction false} PrimariesSpec(plan: seq<Group>, x: string)
    ensures x in Primaries(plan) <==> exists t | 0 <= t < |plan| :: x == plan[t].primary
    decreases |plan|
  {
    if plan != [] {
      var n := |plan| - 1;
      PrimariesSpec(plan[..n], x);
      if x in Primaries(plan[..n]) {
        var t :| 0 <= t < n && x == plan[..n][t].primary;
        assert x == plan[t].primary;
      }
      if exists t | 0 <= t < |plan| :: x == plan[t].primary {
        var t :| 0 <= t < |plan| && x == plan[t].primary;
        if t < n {
          assert x == plan[..n][t].primary;
        }
      }
    }
  }

  /** What holds of the tables after some groups of a well-formed plan. */
  predicate PlanInvariant(p: Migration, snap: seq<Row>, plan: seq<Group>)
    requires |p.rows| == |snap|
  {
    && (forall j | 0 <= j < |snap| :: p.rows[j].key == snap[j].key)
    && (forall j | 0 <= j < |snap| && snap[j].sampleId !in AllDups(plan) ::
          p.rows[j].sampleId == snap[j].sampleId && j !in p.deleted)
    && (forall j | 0 <= j < |snap| && snap[j].sampleId in AllDups(plan) && j !in p.deleted ::
          p.rows[j].sampleId in Primaries(plan))
  }

  /** The next group's rows are untouched so far and none of them is the primary's. */
  lemma NextGroupEligible(p: Migration, snap: seq<Row>, plan: seq<Group>)
    requires |p.rows| == |snap| && plan != [] && WellFormed(plan)
    requires PlanInvariant(p, snap, plan[..|plan| - 1])
    ensures Eligible(p, snap, plan[|plan| - 1].primary, DupOrder(snap, plan[|plan| - 1].dups))
  {
    var n := |plan| - 1;
    var pre, g := plan[..n], plan[n];
    var order := DupOrder(snap, g.dups);
    DupOrderSpec(snap, g.dups);
    forall t | 0 <= t < |order|
      ensures snap[order[t]].sampleId != g.primary && order[t] !in p.deleted
    {
      var x := snap[order[t]].sampleId;
      assert x in g.dups;
      AllDupsSpec(pre, x);
      forall u | 0 <= u < |pre|
        ensures x !in pre[u].dups
      {
        assert pre[u] == plan[u];
      }
    }
    DupOrderDistinct(snap, g.dups);
  }

  /** One more group keeps the invariant. */
  lemma PlanInvariantStep(p: Migration, snap: seq<Row>, policy: Policy, plan: seq<Group>)
    requires |p.rows| == |snap| && plan != [] && WellFormed(plan)
    requires PlanInvariant(p, snap, plan[..|plan| - 1])
    ensures PlanInvariant(Run(p, snap, plan[|plan| - 1].primary, policy, DupOrder(snap, plan[|plan| - 1].dups)), snap, plan)
  {
    var n := |plan| - 1;
    var pre, g := plan[..n], plan[n];
    var order := DupOrder(snap, g.dups);
    assert AllDups(plan) == AllDups(pre) + IdSet(g.dups);
    assert Primaries(plan) == Primaries(pre) + {g.primary};
    NextGroupEligible(p, snap, plan);
    DupOrderSpec(snap, g.dups);
    RunFate(p, snap, g.primary, policy, order);
    var r := Run(p, snap, g.primary, policy, order);
    forall j | 0 <= j < |snap| && snap[j].sampleId !in AllDups(plan)
      ensures r.rows[j].sampleId == snap[j].sampleId && j !in r.deleted
    {
      assert j !in order;
    }
    forall j | 0 <= j < |snap| && snap[j].sampleId in AllDups(plan) && j !in r.deleted
      ensures r.rows[j].sampleId in Primaries(plan)
    {
      if j !in order {
        assert snap[j].sampleId in AllDups(pre);
      }
    }
  }

  /** With no primary ever merged away, a well-formed plan leaves no row on a merged-away ID. */
  lemma {:induction false} PlanIntegrity(m: Migration, snap: seq<Row>, policy: Policy, plan: seq<Group>)
    requires |m.rows| == |snap| && WellFormed(plan)
    requires forall j | 0 <= j < |snap| :: m.rows[j] == snap[j] && j !in m.deleted
    ensures PlanInvariant(RunPlan(m, snap, policy, plan), snap, plan)
    ensures var r := RunPlan(m, snap, policy, plan);
      forall j | 0 <= j < |snap| && j !in r.deleted :: r.rows[j].sampleId !in AllDups(plan)
    decreases |plan|
  {
    if plan != [] {
      var n := |plan| - 1;
      assert WellFormed(plan[..n]);
      PlanIntegrity(m, snap, policy, plan[..n]);
      PlanInvariantStep(RunPlan(m, snap, policy, plan[..n]), snap, policy, plan);
    }
    var r := RunPlan(m, snap, policy, plan);
    forall j | 0 <= j < |snap| && j !in r.deleted
      ensures r.rows[j].sampleId !in AllDups(plan)
    {
      var x := r.rows[j].sampleId;
      if snap[j].sampleId in AllDups(plan) {
        PrimariesSpec(plan, x);
        var u :| 0 <= u < |plan| && x == plan[u].primary;
        AllDupsSpec(plan, x);
      }
    }
  }

  /** The row and deletion state of a run does not depend on the count it starts from. */
  lemma {:induction false} RunIgnoresCount(m1: Migration, m2: Migration, snap: seq<Row>, primary: string, policy: Policy, order: seq<nat>)
    requires |m1.rows| == |snap| && InRange(order, |snap|) && m1.rows == m2.rows && m1.deleted == m2.deleted
    ensures Run(m1, snap, primary, policy, order).rows == Run(m2, snap, primary, policy, order).rows
    ensures Run(m1, snap, primary, policy, order).deleted == Run(m2, snap, primary, policy, order).deleted
    ensures Run(m1, snap, primary, policy, order).moved - m1.moved == Run(m2, snap, primary, policy, order).moved - m2.moved
    decreases |order|
  {
    if order != [] {
      RunIgnoresCount(m1, m2, snap, primary, policy, order[..|order| - 1]);
    }
  }

  /** A table after the whole plan, reading the rows it started with as the committed rows. */
  function TableAfter(t: Table, policy: Policy, plan: seq<Group>): (r: Table)
    ensures |r.rows| == |t.rows|
  {
    var m := RunPlan(Migration(t.rows, t.deleted, 0), t.rows, policy, plan);
    Table(m.rows, m.deleted)
  }

  /** The rows a whole plan moves in one table (the source's running totals). */
  function MovedAfter(t: Table, policy: Policy, plan: seq<Group>): nat {
    RunPlan(Migration(t.rows, t.deleted, 0), t.rows, policy, plan).moved
  }

  // ---------------------------------------------------------------- samples

  /** A sample row: its ID and the eight merged columns (no other column is touched). */
  datatype Sample = Sample(sampleId: string, meta: map<MetaField, FieldValue>)

  /** Every column is present in a row. */
  predicate Complete(meta: map<MetaField, FieldValue>) {
    forall f: MetaField :: f in meta
  }

  predicate AllComplete(samples: seq<Sample>) {
    forall i | 0 <= i < |samples| :: Complete(samples[i].meta)
  }

  /** The merged columns, in the order `merge_sample_metadata` visits them. */
  const MetaFields: seq<MetaField> :=
    [RockClassification, State, Country, Locality, Latitude, Longitude, Description, Characterized]

  function SampleIds(samples: seq<Sample>): (r: seq<string>)
    ensures |r| == |samples| && forall i | 0 <= i < |samples| :: r[i] == samples[i].sampleId
  {
    seq(|samples|, i requires 0 <= i < |samples| => samples[i].sampleId)
  }

  /** The `.first()` sample with this ID. */
  function FirstSample(samples: seq<Sample>, sid: string): (r: Option<nat>)
    ensures r.Some? ==> r.value < |samples| && samples[r.value].sampleId == sid
    ensures r.None? ==> sid !in SampleIds(samples)
    decreases |samples|
  {
    if samples == [] then None
    else
      var n := |samples| - 1;
      var r := FirstSample(samples[..n], sid);
      assert SampleIds(samples) == SampleIds(samples[..n]) + [samples[n].sampleId];
      if r.Some? then r
      else if samples[n].sampleId == sid then Some(n)
      else None
  }

  /** The samples found for some IDs, in the IDs' order. */
  function IndicesOfIds(samples: seq<Sample>, ids: seq<string>): (r: seq<nat>)
    ensures InRange(r, |samples|)
    ensures forall t | 0 <= t < |r| :: samples[r[t]].sampleId in ids
    decreases |ids|
  {
    if ids == [] then []
    else
      var rest := IndicesOfIds(samples, ids[1..]);
      match FirstSample(samples, ids[0])
      case None => rest
      case Some(i) => [i] + rest
  }

  /** With unique IDs, the samples found for `ids` are exactly those whose ID is listed. */
  lemma {:induction false} IndicesOfIdsSpec(samples: seq<Sample>, ids: seq<string>, i: nat)
    requires DistinctIds(SampleIds(samples)) && i < |samples|
    ensures i in IndicesOfIds(samples, ids) <==> samples[i].sampleId in ids
    decreases |ids|
  {
    if ids != [] {
      IndicesOfIdsSpec(samples, ids[1..], i);
      assert ids == [ids[0]] + ids[1..];
      if samples[i].sampleId == ids[0] {
        assert SampleIds(samples)[i] == ids[0];
        var f := FirstSample(samples, ids[0]);
        assert f.Some? && SampleIds(samples)[f.value] == SampleIds(samples)[i];
        assert f.value == i;
      }
    }
  }

  function SetOf(s: seq<nat>): (r: set<nat>)
    ensures forall x :: x in r <==> x in s
  {
    set t | 0 <= t < |s| :: s[t]
  }

  /** The values a column has in the listed samples. */
  function FieldOf(samples: seq<Sample>, ds: seq<nat>, f: MetaField): (r: seq<FieldValue>)
    requires AllComplete(samples) && InRange(ds, |samples|)
    ensures |r| == |ds| && forall t | 0 <= t < |ds| :: r[t] == samples[ds[t]].meta[f]
  {
    seq(|ds|, t requires 0 <= t < |ds| => samples[ds[t]].meta[f])
  }

  /** The primary's columns after merging: each by `MergedValue` over the duplicates in order. */
  function MergedMeta(samples: seq<Sample>, p: nat, ds: seq<nat>): (r: map<MetaField, FieldValue>)
    requires AllComplete(samples) && p < |samples| && InRange(ds, |samples|)
    ensures Complete(r)
  {
    map f: MetaField | f in samples[p].meta :: MergedValue(samples[p].meta[f], FieldOf(samples, ds, f))
  }

  function MergeInto(samples: seq<Sample>, p: nat, ds: seq<nat>): (r: seq<Sample>)
    requires AllComplete(samples) && p < |samples| && InRange(ds, |samples|)
    ensures AllComplete(r) && SampleIds(r) == SampleIds(samples)
  {
    var r := samples[p := samples[p].(meta := MergedMeta(samples, p, ds))];
    assert SampleIds(r) == SampleIds(samples);
    r
  }

  /** The samples after every group's primary took its duplicates' metadata. */
  function MetaAfter(samples: seq<Sample>, plan: seq<Group>): (r: seq<Sample>)
    requires AllComplete(samples)
    ensures AllComplete(r) && SampleIds(r) == SampleIds(samples)
    decreases |plan|
  {
    if plan == [] then samples
    else MergeGroup(MetaAfter(samples, plan[..|plan| - 1]), plan[|plan| - 1])
  }

  /** One group's metadata merge: the `.first()` row of the primary takes its duplicates' values. */
  function MergeGroup(samples: seq<Sample>, g: Group): (r: seq<Sample>)
    requires AllComplete(samples)
    ensures AllComplete(r) && SampleIds(r) == SampleIds(samples)
  {
    match FirstSample(samples, g.primary)
    case None => samples
    case Some(p) => MergeInto(samples, p, IndicesOfIds(samples, g.dups))
  }

  /** The samples a plan deletes: those whose ID some group merges away. */
  function DupIndices(samples: seq<Sample>, plan: seq<Group>): set<nat> {
    set i | 0 <= i < |samples| && samples[i].sampleId in AllDups(plan)
  }

  // ---------------------------------------------------------------- reference counts and groups

  /** How many rows reference `sid`. */
  function CountOf(rows: seq<Row>, sid: string): (r: nat)
    ensures r <= |rows|
    decreases |rows|
  {
    if rows == [] then 0
    else CountOf(rows[..|rows| - 1], sid) + (if rows[|rows| - 1].sampleId == sid then 1 else 0)
  }

  predicate HasAllTables(tables: map<TableKind, Table>) {
    forall k: TableKind :: k in tables
  }

  /** `count_references`: rows referencing `sid` over the five tables. */
  function RefCount(tables: map<TableKind, Table>, sid: string): nat
    requires HasAllTables(tables)
  {
    CountOf(tables[Experiments].rows, sid) + CountOf(tables[Analyses].rows, sid) + CountOf(tables[Photos].rows, sid)
    + CountOf(tables[Elemental].rows, sid) + CountOf(tables[XrdPhases].rows, sid)
  }

  function RefMap(tables: map<TableKind, Table>, ids: seq<string>): (r: map<string, nat>)
    requires HasAllTables(tables)
    ensures forall s :: s in r <==> s in ids
  {
    map s | s in ids :: RefCount(tables, s)
  }

  /** The group members other than the primary, in order. */
  function Without(ids: seq<string>, x: string): (r: seq<string>)
    ensures forall y :: y in r <==> y in ids && y != x
    decreases |ids|
  {
    if ids == [] then []
    else
      assert forall y :: y in ids <==> y == ids[0] || y in ids[1..] by {
        assert ids == [ids[0]] + ids[1..];
      }
      (if ids[0] == x then [] else [ids[0]]) + Without(ids[1..], x)
  }

  /** A group as `merge_duplicates` forms it: the chosen primary and the other members. */
  function GroupOf(members: seq<string>, refs: map<string, nat>): (g: Group)
    requires members != [] && forall s | s in members :: s in refs
    ensures g.primary in members
    ensures forall y :: y in g.dups <==> y in members && y != g.primary
  {
    var p := ChoosePrimary(members, refs);
    Group(p, Without(members, p))
  }

  /** Every visited key has a non-empty group whose members all have a reference count. */
  predicate Groupable(groups: map<string, seq<string>>, refs: map<string, nat>, keys: seq<string>) {
    forall k | k in keys :: k in groups && groups[k] != [] && forall s | s in groups[k] :: s in refs
  }

  // ---------------------------------------------------------------- the session

  /** The partly merged columns: those of `done` merged, the rest as they were. */
  function Partial(samples: seq<Sample>, p: nat, ds: seq<nat>, done: seq<MetaField>): map<MetaField, FieldValue>
    requires AllComplete(samples) && p < |samples| && InRange(ds, |samples|)
  {
    map f: MetaField | f in samples[p].meta ::
      if f in done then MergedValue(samples[p].meta[f], FieldOf(samples, ds, f)) else samples[p].meta[f]
  }

  /** Merging one more column changes only that column of the partial result. */
  lemma PartialStep(samples: seq<Sample>, p: nat, ds: seq<nat>, done: seq<MetaField>, f: MetaField)
    requires AllComplete(samples) && p < |samples| && InRange(ds, |samples|)
    ensures Partial(samples, p, ds, done + [f])
      == Partial(samples, p, ds, done)[f := MergedValue(samples[p].meta[f], FieldOf(samples, ds, f))]
  {
  }

  /** The columns are visited once each. */
  lemma FieldNotDone(i: nat)
    requires i < |MetaFields|
    ensures MetaFields[i] !in MetaFields[..i]
  {
  }

  /** A column not merged yet still holds every sample's loaded value. */
  lemma FieldUntouched(s0: seq<Sample>, samples: seq<Sample>, p: nat, ds: seq<nat>, done: seq<MetaField>, f: MetaField)
    requires AllComplete(s0) && AllComplete(samples) && p < |s0| && InRange(ds, |s0|) && f !in done
    requires |samples| == |s0| && forall q | 0 <= q < |samples| && q != p :: samples[q] == s0[q]
    requires samples[p].meta == Partial(s0, p, ds, done)
    ensures FieldOf(samples, ds, f) == FieldOf(s0, ds, f)
  {
    forall t | 0 <= t < |ds|
      ensures FieldOf(samples, ds, f)[t] == FieldOf(s0, ds, f)[t]
    {
      if ds[t] == p {
        assert samples[p].meta[f] == s0[p].meta[f];
      }
    }
  }

  lemma MetaFieldsCover(f: MetaField)
    ensures f in MetaFields
  {
    assert f == MetaFields[0] || f == MetaFields[1] || f == MetaFields[2] || f == MetaFields[3]
        || f == MetaFields[4] || f == MetaFields[5] || f == MetaFields[6] || f == MetaFields[7];
  }

  /** Handling one more row is one more step. */
  lemma RunSnoc(m: Migration, snap: seq<Row>, primary: string, policy: Policy, order: seq<nat>, j: nat)
    requires |m.rows| == |snap| && InRange(order, |snap|) && j < |snap|
    ensures InRange(order + [j], |snap|)
    ensures Run(m, snap, primary, policy, order + [j]) == Step(Run(m, snap, primary, policy, order), snap, primary, policy, j)
  {
    assert (order + [j])[..|order|] == order;
  }

  /** A table after one duplicate's rows were handled, `count` carrying the moved rows on. */
  function AfterDup(t: Table, count: nat, snap: seq<Row>, primary: string, policy: Policy, dup: string): (r: Migration)
    requires |t.rows| == |snap|
    ensures |r.rows| == |snap|
  {
    Run(Migration(t.rows, t.deleted, count), snap, primary, policy, RowsOf(snap, dup, |snap|))
  }

  /**
   * One duplicate row in `migrate_foreign_keys`: look up the primary's row with the same key
   * (not for experiments), then delete the duplicate's row, after copying its payload when
   * the policy says so, or move it to the primary.
   */
  method HandleRow(policy: Policy, primary: string, snap: seq<Row>, rows0: seq<Row>, deleted0: set<nat>, count0: nat, j: nat)
    returns (rows: seq<Row>, deleted: set<nat>, count: nat)
    requires |rows0| == |snap| && j < |snap|
    ensures Migration(rows, deleted, count) == Step(Migration(rows0, deleted0, count0), snap, primary, policy, j)
  {
    rows, deleted, count := rows0, deleted0, count0;
    var row := rows[j];
    var existing := if policy == MoveAll then None else Existing(snap, primary, row.key);
    if existing.Some? {
      var i := existing.value;
      if Replaces(policy, row, rows[i]) {
        rows := rows[i := rows[i].(payload := row.payload)];
      }
      deleted := deleted + {j};
    } else {
      rows := rows[j := row.(sampleId := primary)];
      count := count + 1;
    }
  }

  /**
   * One table's part of `migrate_foreign_keys` for one duplicate: that duplicate's rows of
   * the committed table `snap`, visited in order; `count` carries the moved-row count on.
   */
  method MigrateRows(t: Table, policy: Policy, primary: string, dup: string, snap: seq<Row>, count0: nat)
    returns (r: Table, count: nat)
    requires |t.rows| == |snap|
    ensures Migration(r.rows, r.deleted, count) == AfterDup(t, count0, snap, primary, policy, dup)
  {
    ghost var m0 := Migration(t.rows, t.deleted, count0);
    var rows, deleted := t.rows, t.deleted;
    count := count0;
    var j: nat := 0;
    while j < |snap|
      invariant 0 <= j <= |snap| && |rows| == |snap|
      invariant Migration(rows, deleted, count) == Run(m0, snap, primary, policy, RowsOf(snap, dup, j))
    {
      ghost var before := RowsOf(snap, dup, j);
      assert RowsOf(snap, dup, j + 1) == before + (if snap[j].sampleId == dup then [j] else []);
      if snap[j].sampleId == dup {
        RunSnoc(m0, snap, primary, policy, before, j);
        rows, deleted, count := HandleRow(policy, primary, snap, rows, deleted, count, j);
      } else {
        assert RowsOf(snap, dup, j + 1) == before;
      }
      j := j + 1;
    }
    r := Table(rows, deleted);
  }

  predicate Aligned(ts: map<TableKind, Table>, snap: map<TableKind, seq<Row>>) {
    forall k: TableKind :: k in ts && k in snap && |ts[k].rows| == |snap[k]|
  }

  /** A table after the rows of all of `dups` were handled, duplicate by duplicate. */
  function AfterDups(t: Table, snap: seq<Row>, primary: string, policy: Policy, dups: seq<string>): (r: Migration)
    requires |t.rows| == |snap|
    ensures |r.rows| == |snap|
  {
    Run(Migration(t.rows, t.deleted, 0), snap, primary, policy, DupOrder(snap, dups))
  }

  /** Handling one more duplicate extends `AfterDups` by that duplicate's rows. */
  lemma AfterDupsSnoc(t: Table, snap: seq<Row>, primary: string, policy: Policy, dups: seq<string>, d: nat)
    requires |t.rows| == |snap| && d < |dups|
    ensures var cur := AfterDups(t, snap, primary, policy, dups[..d]);
      AfterDup(Table(cur.rows, cur.deleted), cur.moved, snap, primary, policy, dups[d])
      == AfterDups(t, snap, primary, policy, dups[..d + 1])
  {
    assert dups[..d + 1][..d] == dups[..d];
    RunAppend(Migration(t.rows, t.deleted, 0), snap, primary, policy,
              DupOrder(snap, dups[..d]), RowsOf(snap, dups[d], |snap|));
  }

  /**
   * The loop of `migrate_foreign_keys` over the duplicates, on table values: for each
   * duplicate, the five referencing tables in the source's order.
   */
  method MigrateAll(t0: map<TableKind, Table>, primary: string, dups: seq<string>, snap: map<TableKind, seq<Row>>)
    returns (ts: map<TableKind, Table>, counts: map<TableKind, nat>)
    requires Aligned(t0, snap)
    ensures Aligned(ts, snap)
    ensures forall k: TableKind :: (k in counts &&
      var m := AfterDups(t0[k], snap[k], primary, PolicyOf(k), dups);
      ts[k] == Table(m.rows, m.deleted) && counts[k] == m.moved)
  {
    var e, a, p, l, x := t0[Experiments], t0[Analyses], t0[Photos], t0[Elemental], t0[XrdPhases];
    var ce, ca, cp, cl, cx := 0, 0, 0, 0, 0;
    var d := 0;
    assert dups[..0] == [];
    while d < |dups|
      invariant 0 <= d <= |dups|
      invariant Migration(e.rows, e.deleted, ce) == AfterDups(t0[Experiments], snap[Experiments], primary, PolicyOf(Experiments), dups[..d])
      invariant Migration(a.rows, a.deleted, ca) == AfterDups(t0[Analyses], snap[Analyses], primary, PolicyOf(Analyses), dups[..d])
      invariant Migration(p.rows, p.deleted, cp) == AfterDups(t0[Photos], snap[Photos], primary, PolicyOf(Photos), dups[..d])
      invariant Migration(l.rows, l.deleted, cl) == AfterDups(t0[Elemental], snap[Elemental], primary, PolicyOf(Elemental), dups[..d])
      invariant Migration(x.rows, x.deleted, cx) == AfterDups(t0[XrdPhases], snap[XrdPhases], primary, PolicyOf(XrdPhases), dups[..d])
    {
      var dup := dups[d];
      AfterDupsSnoc(t0[Experiments], snap[Experiments], primary, PolicyOf(Experiments), dups, d);
      e, ce := MigrateRows(e, PolicyOf(Experiments), primary, dup, snap[Experiments], ce);
      AfterDupsSnoc(t0[Analyses], snap[Analyses], primary, PolicyOf(Analyses), dups, d);
      a, ca := MigrateRows(a, PolicyOf(Analyses), primary, dup, snap[Analyses], ca);
      AfterDupsSnoc(t0[Photos], snap[Photos], primary, PolicyOf(Photos), dups, d);
      p, cp := MigrateRows(p, PolicyOf(Photos), primary, dup, snap[Photos], cp);
      AfterDupsSnoc(t0[Elemental], snap[Elemental], primary, PolicyOf(Elemental), dups, d);
      l, cl := MigrateRows(l, PolicyOf(Elemental), primary, dup, snap[Elemental], cl);
      AfterDupsSnoc(t0[XrdPhases], snap[XrdPhases], primary, PolicyOf(XrdPhases), dups, d);
      x, cx := MigrateRows(x, PolicyOf(XrdPhases), primary, dup, snap[XrdPhases], cx);
      d := d + 1;
    }
    assert dups[..d] == dups;
    ts := t0[Experiments := e][Analyses := a][Photos := p][Elemental := l][XrdPhases := x];
    counts := map[Experiments := ce, Analyses := ca, Photos := cp, Elemental := cl, XrdPhases := cx];
    forall k: TableKind
      ensures k in ts && k in snap && |ts[k].rows| == |snap[k]| && k in counts
      ensures var m := AfterDups(t0[k], snap[k], primary, PolicyOf(k), dups);
        ts[k] == Table(m.rows, m.deleted) && counts[k] == m.moved
    {
      match k
      case Experiments =>
      case Analyses =>
      case Photos =>
      case Elemental =>
      case XrdPhases =>
    }
  }

  // ---------------------------------------------------------------- one group after another

  /** One more group extends every table by that group's `AfterDups`, and adds its moved rows. */
  lemma TableAfterSnoc(t: Table, policy: Policy, plan: seq<Group>, g: Group)
    ensures var c := TableAfter(t, policy, plan);
      var m := AfterDups(c, t.rows, g.primary, policy, g.dups);
      && TableAfter(t, policy, plan + [g]) == Table(m.rows, m.deleted)
      && MovedAfter(t, policy, plan + [g]) == MovedAfter(t, policy, plan) + m.moved
  {
    assert (plan + [g])[..|plan|] == plan;
    var p := RunPlan(Migration(t.rows, t.deleted, 0), t.rows, policy, plan);
    RunIgnoresCount(p, Migration(p.rows, p.deleted, 0), t.rows, g.primary, policy, DupOrder(t.rows, g.dups));
  }

  /** One more group deletes the samples found for its duplicates. */
  lemma DupIndicesSnoc(s0: seq<Sample>, cur: seq<Sample>, plan: seq<Group>, g: Group)
    requires DistinctIds(SampleIds(s0)) && SampleIds(cur) == SampleIds(s0)
    ensures DupIndices(s0, plan + [g]) == DupIndices(s0, plan) + SetOf(IndicesOfIds(cur, g.dups))
  {
    assert (plan + [g])[..|plan|] == plan;
    assert AllDups(plan + [g]) == AllDups(plan) + IdSet(g.dups);
    forall i | 0 <= i < |s0|
      ensures i in IndicesOfIds(cur, g.dups) <==> s0[i].sampleId in g.dups
    {
      assert cur[i].sampleId == SampleIds(cur)[i] == s0[i].sampleId;
      IndicesOfIdsSpec(cur, g.dups, i);
    }
  }

  /** The groups in the order `merge_duplicates` visits their keys. */
  function PlanOf(groups: map<string, seq<string>>, refs: map<string, nat>, keys: seq<string>): (plan: seq<Group>)
    requires Groupable(groups, refs, keys)
    ensures |plan| == |keys|
    decreases |keys|
  {
    if keys == [] then []
    else
      var n := |keys| - 1;
      assert forall k | k in keys[..n] :: k in keys;
      PlanOf(groups, refs, keys[..n]) + [GroupOf(groups[keys[n]], refs)]
  }

  /** Group `t` of the plan is the group of key `t`. */
  lemma PlanOfSpec(groups: map<string, seq<string>>, refs: map<string, nat>, keys: seq<string>)
    requires Groupable(groups, refs, keys)
    ensures forall t | 0 <= t < |keys| :: PlanOf(groups, refs, keys)[t] == GroupOf(groups[keys[t]], refs)
  {
    forall t | 0 <= t < |keys|
      ensures PlanOf(groups, refs, keys)[t] == GroupOf(groups[keys[t]], refs)
    {
      PlanOfAt(groups, refs, keys, t);
    }
  }

  lemma {:induction false} PlanOfAt(groups: map<string, seq<string>>, refs: map<string, nat>, keys: seq<string>, t: nat)
    requires Groupable(groups, refs, keys) && t < |keys|
    ensures PlanOf(groups, refs, keys)[t] == GroupOf(groups[keys[t]], refs)
    decreases |keys|
  {
    var n := |keys| - 1;
    if t < n {
      assert Groupable(groups, refs, keys[..n]) by {
        assert forall k | k in keys[..n] :: k in keys;
      }
      PlanOfAt(groups, refs, keys[..n], t);
      assert keys[..n][t] == keys[t];
    }
  }

  lemma PlanOfSnoc(groups: map<string, seq<string>>, refs: map<string, nat>, keys: seq<string>, t: nat)
    requires Groupable(groups, refs, keys) && t < |keys|
    ensures Groupable(groups, refs, keys[..t]) && Groupable(groups, refs, keys[..t + 1])
    ensures PlanOf(groups, refs, keys[..t + 1]) == PlanOf(groups, refs, keys[..t]) + [GroupOf(groups[keys[t]], refs)]
  {
    assert keys[..t + 1][..t] == keys[..t];
    assert forall k | k in keys[..t + 1] :: k in keys;
  }

  /** The groups found for some sample IDs: each key's members, as `find_duplicate_groups` lists them. */
  predicate GroupsOf(groups: map<string, seq<string>>, ids: seq<string>) {
    forall k | k in groups :: groups[k] == Members(ids, k)
  }

  lemma {:induction false} MembersDistinct(ids: seq<string>, key: string)
    requires DistinctIds(ids)
    ensures DistinctIds(Members(ids, key))
    decreases |ids|
  {
    if ids != [] {
      var n := |ids| - 1;
      assert DistinctIds(ids[..n]);
      MembersDistinct(ids[..n], key);
      MembersSpec(ids[..n], key);
      assert ids[n] !in ids[..n];
    }
  }

  lemma {:induction false} WithoutDistinct(ids: seq<string>, x: string)
    requires DistinctIds(ids)
    ensures DistinctIds(Without(ids, x))
    decreases |ids|
  {
    if ids != [] {
      assert DistinctIds(ids[1..]);
      WithoutDistinct(ids[1..], x);
      assert ids[0] !in ids[1..];
      assert ids[0] !in Without(ids[1..], x);
    }
  }

  /**
   * The groups of distinct keys over distinct sample IDs form a well-formed plan: no ID is
   * merged away twice, and no primary is merged away.
   */
  lemma PlanWellFormed(ids: seq<string>, groups: map<string, seq<string>>, refs: map<string, nat>, keys: seq<string>)
    requires DistinctIds(ids) && DistinctIds(keys) && GroupsOf(groups, ids) && Groupable(groups, refs, keys)
    ensures WellFormed(PlanOf(groups, refs, keys))
  {
    var plan := PlanOf(groups, refs, keys);
    PlanOfSpec(groups, refs, keys);
    forall t | 0 <= t < |plan|
      ensures NormalizeSampleId(plan[t].primary) == keys[t]
      ensures forall y :: y in plan[t].dups ==> NormalizeSampleId(y) == keys[t]
      ensures DistinctIds(plan[t].dups)
    {
      MembersSpec(ids, keys[t]);
      MembersDistinct(ids, keys[t]);
      WithoutDistinct(Members(ids, keys[t]), plan[t].primary);
    }
    forall t, u | 0 <= t < |plan| && 0 <= u < |plan|
      ensures plan[u].primary !in plan[t].dups
    {
      assert NormalizeSampleId(plan[u].primary) == keys[u];
    }
    forall t, u | 0 <= t < u < |plan|
      ensures forall x | x in plan[t].dups :: x !in plan[u].dups
    {
      forall x | x in plan[t].dups
        ensures x !in plan[u].dups
      {
        assert NormalizeSampleId(x) == keys[t] != keys[u];
      }
    }
  }

  /**
   * `merge_duplicates` in apply mode deletes exactly the non-primary members of every group:
   * a sample is deleted iff its normal form is one of the keys and it is not that group's
   * primary.
   */
  lemma DeletesNonPrimaries(samples: seq<Sample>, groups: map<string, seq<string>>, refs: map<string, nat>,
                            keys: seq<string>, i: nat)
    requires GroupsOf(groups, SampleIds(samples)) && Groupable(groups, refs, keys) && i < |samples|
    ensures var plan := PlanOf(groups, refs, keys);
      var x := samples[i].sampleId;
      i in DupIndices(samples, plan) <==>
        exists t | 0 <= t < |keys| :: NormalizeSampleId(x) == keys[t] && x != plan[t].primary
  {
    var ids := SampleIds(samples);
    var plan := PlanOf(groups, refs, keys);
    var x := samples[i].sampleId;
    assert x in ids by { assert x == ids[i]; }
    forall t | 0 <= t < |plan|
      ensures x in plan[t].dups <==> NormalizeSampleId(x) == keys[t] && x != plan[t].primary
    {
      assert keys[t] in keys;
      assert plan[t] == GroupOf(groups[keys[t]], refs) by { PlanOfSpec(groups, refs, keys); }
      DupOfGroup(ids, groups[keys[t]], refs, keys[t], x);
    }
    AllDupsSpec(plan, x);
  }

  /** Within one group, a sample is a duplicate iff it normalises to the group's key and is not its primary. */
  lemma DupOfGroup(ids: seq<string>, members: seq<string>, refs: map<string, nat>, key: string, x: string)
    requires members == Members(ids, key) && members != [] && forall s | s in members :: s in refs
    requires x in ids
    ensures x in GroupOf(members, refs).dups <==> NormalizeSampleId(x) == key && x != GroupOf(members, refs).primary
  {
    MembersSpec(ids, key);
  }

  /** A table that had no pending deletion keeps no live row on a merged-away ID. */
  lemma TableIntegrity(t: Table, policy: Policy, plan: seq<Group>)
    requires t.deleted == {} && WellFormed(plan)
    ensures var r := TableAfter(t, policy, plan);
      forall j | 0 <= j < |r.rows| && j !in r.deleted :: r.rows[j].sampleId !in AllDups(plan)
  {
    var m0 := Migration(t.rows, t.deleted, 0);
    PlanIntegrity(m0, t.rows, policy, plan);
    var r := TableAfter(t, policy, plan);
    forall j | 0 <= j < |r.rows| && j !in r.deleted
      ensures r.rows[j].sampleId !in AllDups(plan)
    {
      assert 0 <= j < |t.rows| && j !in RunPlan(m0, t.rows, policy, plan).deleted;
      assert RunPlan(m0, t.rows, policy, plan).rows[j].sampleId !in AllDups(plan);
    }
  }

  /**
   * After `merge_duplicates` applies the groups of distinct sample IDs, no live row of any
   * table references an ID that was merged away.
   */
  lemma NoReferenceToMergedAway(t: Table, policy: Policy, ids: seq<string>, groups: map<string, seq<string>>,
                                refs: map<string, nat>, keys: seq<string>)
    requires t.deleted == {} && DistinctIds(ids) && DistinctIds(keys)
    requires GroupsOf(groups, ids) && Groupable(groups, refs, keys)
    ensures var plan := PlanOf(groups, refs, keys);
      var r := TableAfter(t, policy, plan);
      forall j | 0 <= j < |r.rows| && j !in r.deleted :: r.rows[j].sampleId !in AllDups(plan)
  {
    PlanWellFormed(ids, groups, refs, keys);
    TableIntegrity(t, policy, PlanOf(groups, refs, keys));
  }

  /** The number of samples a plan reports as to delete: one per listed duplicate. */
  function DupTotal(plan: seq<Group>): nat
    decreases |plan|
  {
    if plan == [] then 0 else DupTotal(plan[..|plan| - 1]) + |plan[|plan| - 1].dups|
  }

  /** The running totals after one more group. */
  function AddCounts(total: map<TableKind, nat>, counts: map<TableKind, nat>): (r: map<TableKind, nat>)
    requires forall k: TableKind :: k in total && k in counts
    ensures forall k: TableKind :: k in r && r[k] == total[k] + counts[k]
  {
    map k: TableKind | k in total :: total[k] + counts[k]
  }

  /** The tables and running totals after some groups of `plan`, from the tables `t0`. */
  predicate Progress(t0: map<TableKind, Table>, ts: map<TableKind, Table>, migrated: map<TableKind, nat>, plan: seq<Group>) {
    forall k: TableKind :: (k in t0 && k in ts && k in migrated &&
      ts[k] == TableAfter(t0[k], PolicyOf(k), plan) && migrated[k] == MovedAfter(t0[k], PolicyOf(k), plan))
  }

  /** Before any group, every table is as loaded and nothing has moved. */
  lemma ProgressStart(t0: map<TableKind, Table>, migrated: map<TableKind, nat>)
    requires HasAllTables(t0)
    requires migrated == map[Experiments := 0, Analyses := 0, Photos := 0, Elemental := 0, XrdPhases := 0]
    ensures Progress(t0, t0, migrated, [])
  {
    forall k: TableKind
      ensures k in migrated && t0[k] == TableAfter(t0[k], PolicyOf(k), []) && migrated[k] == MovedAfter(t0[k], PolicyOf(k), [])
    {
      match k
      case Experiments =>
      case Analyses =>
      case Photos =>
      case Elemental =>
      case XrdPhases =>
    }
  }

  /** Applying one more group to every table keeps `Progress`, the committed rows being `t0`'s. */
  lemma ProgressStep(t0: map<TableKind, Table>, cur: map<TableKind, Table>, curMigrated: map<TableKind, nat>,
                     next: map<TableKind, Table>, counts: map<TableKind, nat>, snap: map<TableKind, seq<Row>>,
                     plan: seq<Group>, g: Group)
    requires Progress(t0, cur, curMigrated, plan) && Aligned(cur, snap)
    requires forall k: TableKind :: snap[k] == t0[k].rows
    requires forall k: TableKind :: (k in counts && k in next &&
      var m := AfterDups(cur[k], snap[k], g.primary, PolicyOf(k), g.dups);
      next[k] == Table(m.rows, m.deleted) && counts[k] == m.moved)
    ensures Progress(t0, next, AddCounts(curMigrated, counts), plan + [g])
  {
    var total := AddCounts(curMigrated, counts);
    forall k: TableKind
      ensures k in t0 && k in next && k in total
      ensures next[k] == TableAfter(t0[k], PolicyOf(k), plan + [g])
      ensures total[k] == MovedAfter(t0[k], PolicyOf(k), plan + [g])
    {
      assert total[k] == curMigrated[k] + counts[k];
      ProgressStepAt(t0[k], cur[k], curMigrated[k], next[k], counts[k], PolicyOf(k), plan, g);
    }
  }

  /** `ProgressStep` for one table. */
  lemma ProgressStepAt(t0: Table, cur: Table, curMigrated: nat, next: Table, count: nat, policy: Policy,
                       plan: seq<Group>, g: Group)
    requires cur == TableAfter(t0, policy, plan) && curMigrated == MovedAfter(t0, policy, plan)
    requires var m := AfterDups(cur, t0.rows, g.primary, policy, g.dups);
      next == Table(m.rows, m.deleted) && count == m.moved
    ensures next == TableAfter(t0, policy, plan + [g])
    ensures curMigrated + count == MovedAfter(t0, policy, plan + [g])
  {
    TableAfterSnoc(t0, policy, plan, g);
  }


  /** The sample table and the five tables referencing it, as one session sees them. */
  class SampleDb {
    var samples: seq<Sample>
    var deletedSamples: set<nat>
    var tables: map<TableKind, Table>

    ghost predicate Valid()
      reads this
    {
      AllComplete(samples) && HasAllTables(tables)
    }

    /** The inner loop of `merge_sample_metadata`: the first duplicate value that has one. */
    method FindDonor(ds: seq<nat>, f: MetaField) returns (v: Option<FieldValue>)
      requires AllComplete(samples) && InRange(ds, |samples|)
      ensures v == FirstWithValue(FieldOf(samples, ds, f))
    {
      ghost var vs := FieldOf(samples, ds, f);
      var k := 0;
      while k < |ds|
        invariant 0 <= k <= |ds|
        invariant FirstWithValue(vs) == FirstWithValue(vs[k..])
      {
        var dupVal := samples[ds[k]].meta[f];
        assert vs[k..][0] == dupVal && vs[k..][1..] == vs[k + 1..];
        if HasValue(dupVal) {
          return Some(dupVal);
        }
        k := k + 1;
      }
      assert vs[k..] == [];
      return None;
    }

    /**
     * `merge_sample_metadata`: each of the eight columns of the primary `p` becomes its
     * `MergedValue` over the duplicates `ds`; nothing else changes.
     */
    method MergeSampleMetadata(p: nat, ds: seq<nat>)
      requires Valid() && p < |samples| && InRange(ds, |samples|)
      modifies this
      ensures Valid() && tables == old(tables) && deletedSamples == old(deletedSamples)
      ensures samples == MergeInto(old(samples), p, ds)
    {
      ghost var s0 := samples;
      var fi := 0;
      while fi < |MetaFields|
        invariant 0 <= fi <= |MetaFields|
        invariant Valid() && tables == old(tables) && deletedSamples == old(deletedSamples)
        invariant |samples| == |s0| && forall q | 0 <= q < |samples| && q != p :: samples[q] == s0[q]
        invariant samples[p].sampleId == s0[p].sampleId
        invariant samples[p].meta == Partial(s0, p, ds, MetaFields[..fi])
      {
        var f := MetaFields[fi];
        assert MetaFields[..fi + 1] == MetaFields[..fi] + [f];
        FieldNotDone(fi);
        FieldUntouched(s0, samples, p, ds, MetaFields[..fi], f);
        PartialStep(s0, p, ds, MetaFields[..fi], f);
        MergeField(p, ds, f);
        fi := fi + 1;
      }
      assert MetaFields[..fi] == MetaFields;
      forall f: MetaField
        ensures f in MetaFields
      {
        MetaFieldsCover(f);
      }
      assert samples[p] == s0[p].(meta := MergedMeta(s0, p, ds));
    }

    /** One column of `merge_sample_metadata`: an empty primary value takes the first donor's. */
    method MergeField(p: nat, ds: seq<nat>, f: MetaField)
      requires Valid() && p < |samples| && InRange(ds, |samples|)
      modifies this
      ensures Valid() && tables == old(tables) && deletedSamples == old(deletedSamples)
      ensures samples == old(samples)[p := old(samples)[p].(meta := old(samples)[p].meta[f :=
        MergedValue(old(samples)[p].meta[f], FieldOf(old(samples), ds, f))])]
    {
      var primaryVal := samples[p].meta[f];
      if !HasValue(primaryVal) {
        var donor := FindDonor(ds, f);
        if donor.Some? {
          samples := samples[p := samples[p].(meta := samples[p].meta[f := donor.value])];
          return;
        }
      }
      assert samples[p].meta[f := MergedValue(primaryVal, FieldOf(samples, ds, f))] == samples[p].meta;
      assert samples[p := samples[p]] == samples;
    }

    /**
     * `migrate_foreign_keys`: for each duplicate in turn, each table's rows of that
     * duplicate are moved or deleted; every table ends as a `Run` over its rows of all the
     * duplicates, and `counts` holds the moved rows per table.
     */
    method MigrateForeignKeys(primary: string, dups: seq<string>, snap: map<TableKind, seq<Row>>)
      returns (counts: map<TableKind, nat>)
      requires Valid() && Aligned(tables, snap)
      modifies this
      ensures Valid() && samples == old(samples) && deletedSamples == old(deletedSamples)
      ensures forall k: TableKind :: (k in counts &&
        var m := AfterDups(old(tables)[k], snap[k], primary, PolicyOf(k), dups);
        tables[k] == Table(m.rows, m.deleted) && counts[k] == m.moved)
    {
      var ts;
      ts, counts := MigrateAll(tables, primary, dups, snap);
      tables := ts;
    }

    /**
     * The apply-mode body of `merge_duplicates` for one group: merge the metadata into the
     * primary, migrate the references, delete the duplicates' samples.
     */
    method ApplyGroup(g: Group, snap: map<TableKind, seq<Row>>) returns (counts: map<TableKind, nat>)
      requires Valid() && Aligned(tables, snap)
      modifies this
      ensures Valid() && Aligned(tables, snap)
      ensures samples == MergeGroup(old(samples), g)
      ensures deletedSamples == old(deletedSamples) + SetOf(IndicesOfIds(old(samples), g.dups))
      ensures forall k: TableKind :: (k in counts &&
        var m := AfterDups(old(tables)[k], snap[k], g.primary, PolicyOf(k), g.dups);
        tables[k] == Table(m.rows, m.deleted) && counts[k] == m.moved)
    {
      var primary := FirstSample(samples, g.primary);
      var ds := IndicesOfIds(samples, g.dups);
      if primary.Some? {
        MergeSampleMetadata(primary.value, ds);
      }
      counts := MigrateForeignKeys(g.primary, g.dups, snap);
      deletedSamples := deletedSamples + SetOf(ds);
    }

    /**
     * `merge_duplicates`: the groups of `find_duplicate_groups`, each with the primary
     * `choose_primary_sample` picks on the reference counts of the session's start.
     */
    method MergeDuplicates(dryRun: bool)
      returns (groups: map<string, seq<string>>, keys: seq<string>, plan: seq<Group>, toDelete: nat,
               migrated: map<TableKind, nat>)
      requires Valid() && DistinctIds(SampleIds(samples))
      modifies this
      ensures Valid()
      ensures GroupsOf(groups, SampleIds(old(samples)))
      ensures forall k :: k in groups <==> |Members(SampleIds(old(samples)), k)| > 1
      ensures (forall k :: k in keys <==> k in groups) && DistinctIds(keys)
      ensures Groupable(groups, RefMap(old(tables), SampleIds(old(samples))), keys)
      ensures plan == PlanOf(groups, RefMap(old(tables), SampleIds(old(samples))), keys)
      ensures toDelete == DupTotal(plan)
      ensures dryRun ==> samples == old(samples) && deletedSamples == old(deletedSamples) && tables == old(tables)
      ensures !dryRun ==> samples == MetaAfter(old(samples), plan)
      ensures !dryRun ==> deletedSamples == old(deletedSamples) + DupIndices(old(samples), plan)
      ensures !dryRun ==> Progress(old(tables), tables, migrated, plan)
    {
      var ids := SampleIds(samples);
      groups, keys := FindDuplicateGroups(ids);
      var refs := RefMap(tables, ids);
      forall k | k in keys
        ensures k in groups && groups[k] != [] && forall s | s in groups[k] :: s in refs
      {
        MembersSpec(ids, k);
      }
      plan, toDelete, migrated := MergeGroups(groups, keys, refs, dryRun);
    }

    /**
     * One more group in apply mode, with the running totals: the samples, the deletions and
     * the tables move from the state after `plan` to the state after `plan + [g]`.
     */
    method ApplyNext(g: Group, snap: map<TableKind, seq<Row>>, migrated0: map<TableKind, nat>,
                     ghost s0: seq<Sample>, ghost d0: set<nat>, ghost t0: map<TableKind, Table>, ghost plan: seq<Group>)
      returns (migrated: map<TableKind, nat>)
      requires Valid() && Aligned(tables, snap) && AllComplete(s0) && DistinctIds(SampleIds(s0))
      requires HasAllTables(t0) && forall k: TableKind :: snap[k] == t0[k].rows
      requires samples == MetaAfter(s0, plan) && deletedSamples == d0 + DupIndices(s0, plan)
      requires Progress(t0, tables, migrated0, plan)
      modifies this
      ensures Valid() && Aligned(tables, snap)
      ensures samples == MetaAfter(s0, plan + [g]) && deletedSamples == d0 + DupIndices(s0, plan + [g])
      ensures Progress(t0, tables, migrated, plan + [g])
    {
      ghost var cur, curTables := samples, tables;
      var counts := ApplyGroup(g, snap);
      DupIndicesSnoc(s0, cur, plan, g);
      assert (plan + [g])[..|plan|] == plan;
      migrated := AddCounts(migrated0, counts);
      ProgressStep(t0, curTables, migrated0, tables, counts, snap, plan, g);
    }

    /** The groups of the first `t` keys are planned as `plan`. */
    ghost predicate Planned(groups: map<string, seq<string>>, keys: seq<string>, refs: map<string, nat>, t: nat,
                            plan: seq<Group>) {
      t <= |keys| && Groupable(groups, refs, keys[..t]) && plan == PlanOf(groups, refs, keys[..t])
    }

    /** The samples, deletions and tables are those after applying `plan` to the loaded state. */
    ghost predicate Applied(snap: map<TableKind, seq<Row>>, s0: seq<Sample>, d0: set<nat>, t0: map<TableKind, Table>,
                            plan: seq<Group>, migrated: map<TableKind, nat>)
      reads this
    {
      Valid() && Aligned(tables, snap) && AllComplete(s0)
      && samples == MetaAfter(s0, plan) && deletedSamples == d0 + DupIndices(s0, plan)
      && Progress(t0, tables, migrated, plan)
    }

    /**
     * The body of the loop of `merge_duplicates` for key `t` outside a dry run: choose the
     * primary and apply the group.
     */
    method VisitGroup(groups: map<string, seq<string>>, keys: seq<string>, refs: map<string, nat>, t: nat,
                      snap: map<TableKind, seq<Row>>, migrated0: map<TableKind, nat>,
                      ghost s0: seq<Sample>, ghost d0: set<nat>, ghost t0: map<TableKind, Table>, ghost plan: seq<Group>)
      returns (g: Group, migrated: map<TableKind, nat>)
      requires Groupable(groups, refs, keys) && t < |keys| && Planned(groups, keys, refs, t, plan)
      requires Applied(snap, s0, d0, t0, plan, migrated0)
      requires DistinctIds(SampleIds(s0)) && HasAllTables(t0) && forall k: TableKind :: snap[k] == t0[k].rows
      modifies this
      ensures Planned(groups, keys, refs, t + 1, plan + [g]) && DupTotal(plan + [g]) == DupTotal(plan) + |g.dups|
      ensures Applied(snap, s0, d0, t0, plan + [g], migrated)
    {
      g := GroupOf(groups[keys[t]], refs);
      PlanOfSnoc(groups, refs, keys, t);
      migrated := ApplyNext(g, snap, migrated0, s0, d0, t0, plan);
      assert (plan + [g])[..|plan|] == plan;
    }

    /**
     * The loop of `merge_duplicates` over the groups in key order. A dry run changes nothing;
     * otherwise every group is applied in turn, every query reading the committed tables of
     * the start. `toDelete` is the reported number of samples to delete, `migrated` the
     * per-table totals of moved rows.
     */
    method MergeGroups(groups: map<string, seq<string>>, keys: seq<string>, refs: map<string, nat>, dryRun: bool)
      returns (plan: seq<Group>, toDelete: nat, migrated: map<TableKind, nat>)
      requires Valid() && DistinctIds(SampleIds(samples)) && Groupable(groups, refs, keys)
      modifies this
      ensures Valid()
      ensures plan == PlanOf(groups, refs, keys) && toDelete == DupTotal(plan)
      ensures dryRun ==> samples == old(samples) && deletedSamples == old(deletedSamples) && tables == old(tables)
      ensures !dryRun ==> samples == MetaAfter(old(samples), plan)
      ensures !dryRun ==> deletedSamples == old(deletedSamples) + DupIndices(old(samples), plan)
      ensures !dryRun ==> Progress(old(tables), tables, migrated, plan)
    {
      ghost var s0, d0, t0 := samples, deletedSamples, tables;
      var snap := map k | k in tables :: tables[k].rows;
      migrated := map[Experiments := 0, Analyses := 0, Photos := 0, Elemental := 0, XrdPhases := 0];
      ProgressStart(t0, migrated);
      assert forall k: TableKind :: snap[k] == t0[k].rows;
      if dryRun {
        plan, toDelete := PlanLoop(groups, keys, refs);
      } else {
        plan, toDelete, migrated := GroupLoop(groups, keys, refs, snap, migrated, s0, d0, t0);
      }
    }

    /** The loop over the groups in a dry run: each group is planned and counted, nothing applied. */
    method PlanLoop(groups: map<string, seq<string>>, keys: seq<string>, refs: map<string, nat>)
      returns (plan: seq<Group>, toDelete: nat)
      requires Groupable(groups, refs, keys)
      ensures plan == PlanOf(groups, refs, keys) && toDelete == DupTotal(plan)
    {
      plan, toDelete := [], 0;
      var t := 0;
      assert keys[..0] == [];
      while t < |keys|
        invariant 0 <= t <= |keys| && Groupable(groups, refs, keys[..t])
        invariant plan == PlanOf(groups, refs, keys[..t]) && toDelete == DupTotal(plan)
      {
        var g := GroupOf(groups[keys[t]], refs);
        PlanOfSnoc(groups, refs, keys, t);
        assert (plan + [g])[..|plan|] == plan;
        plan := plan + [g];
        toDelete := toDelete + |g.dups|;
        t := t + 1;
      }
      assert keys[..t] == keys;
    }

    /** The loop over the groups outside a dry run, from the loaded tables: every group applied in turn. */
    method GroupLoop(groups: map<string, seq<string>>, keys: seq<string>, refs: map<string, nat>,
                     snap: map<TableKind, seq<Row>>, migrated0: map<TableKind, nat>,
                     ghost s0: seq<Sample>, ghost d0: set<nat>, ghost t0: map<TableKind, Table>)
      returns (plan: seq<Group>, toDelete: nat, migrated: map<TableKind, nat>)
      requires Valid() && Groupable(groups, refs, keys) && AllComplete(s0) && DistinctIds(SampleIds(s0))
      requires samples == s0 && deletedSamples == d0 && tables == t0
      requires HasAllTables(t0) && Aligned(t0, snap) && forall k: TableKind :: snap[k] == t0[k].rows
      requires Progress(t0, t0, migrated0, [])
      modifies this
      ensures Valid()
      ensures plan == PlanOf(groups, refs, keys) && toDelete == DupTotal(plan)
      ensures samples == MetaAfter(s0, plan) && deletedSamples == d0 + DupIndices(s0, plan)
      ensures Progress(t0, tables, migrated, plan)
    {
      plan, toDelete, migrated := [], 0, migrated0;
      var t := 0;
      assert keys[..0] == [];
      assert DupIndices(s0, []) == {};
      while t < |keys|
        invariant Planned(groups, keys, refs, t, plan) && toDelete == DupTotal(plan)
        invariant Applied(snap, s0, d0, t0, plan, migrated)
      {
        var g;
        g, migrated := VisitGroup(groups, keys, refs, t, snap, migrated, s0, d0, t0, plan);
        plan := plan + [g];
        toDelete := toDelete + |g.dups|;
        t := t + 1;
      }
      assert keys[..t] == keys;
    }
  }
}
