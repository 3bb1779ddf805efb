/**
 * The scalar-results service: the upsert of one solution-chemistry record for an experiment at
 * a time point, either overwriting every field or merging only the supplied ones, and the bulk
 * loop over many such rows.
 */
module ScalarResultsService {
  import opened Wrappers
  import opened PyStr
  import opened Values
  import opened ResultMerge
  import IcpService
  import Lineage
  import LongFormat

  type FloatText = real -> string

  // ---------------------------------------------------------------------------------------------
  // Scalar records
  // ---------------------------------------------------------------------------------------------

  /** The fields an upsert writes, in the order the service lists them. */
  const UpdatableFields: seq<string> := [
    "ferrous_iron_yield", "gross_ammonium_concentration_mM", "background_ammonium_concentration_mM",
    "background_experiment_id",
    "h2_concentration", "h2_concentration_unit", "gas_sampling_volume_ml", "gas_sampling_pressure_MPa",
    "final_ph", "final_nitrate_concentration_mM", "final_dissolved_oxygen_mg_L", "co2_partial_pressure_MPa",
    "final_conductivity_mS_cm", "final_alkalinity_mg_L", "sampling_volume_mL", "measurement_date"]

  const Updatable: set<string> := set f | f in UpdatableFields

  /** A `ScalarResults` row: a value (possibly None) for every updatable field. */
  type Scalar = map<string, Value>

  predicate IsScalar(s: Scalar) {
    s.Keys == Updatable
  }

  /** A new record, or an overwrite: every field from the data, None where the data lacks it. */
  function Overwritten(data: Record): (s: Scalar)
    ensures IsScalar(s)
  {
    map f | f in Updatable :: Get(data, f)
  }

  /** A partial update: the fields the data supplies, the prior value elsewhere. */
  function Merged(prior: Scalar, data: Record): (s: Scalar)
    requires IsScalar(prior)
    ensures IsScalar(s)
  {
    map f | f in Updatable :: if f in data then data[f] else prior[f]
  }

  /** The record after the upsert: created or overwritten in full, or merged. */
  function Upsert(existing: Option<Scalar>, overwrite: bool, data: Record): (s: Scalar)
    requires existing.Some? ==> IsScalar(existing.value)
    ensures IsScalar(s)
    ensures existing.None? || overwrite ==> forall f | f in Updatable :: s[f] == Get(data, f)
    ensures existing.Some? && !overwrite ==>
      forall f | f in Updatable :: s[f] == if f in data then data[f] else existing.value[f]
  {
    if existing.None? || overwrite then Overwritten(data) else Merged(existing.value, data)
  }

  /** A partial update that supplies every field is an overwrite. */
  lemma MergeAllIsOverwrite(prior: Scalar, data: Record)
    requires IsScalar(prior) && Updatable <= data.Keys
    ensures Merged(prior, data) == Overwritten(data)
  {
  }

  /** A partial update that supplies no field changes nothing. */
  lemma MergeNothingKeeps(prior: Scalar, data: Record)
    requires IsScalar(prior) && Updatable !! data.Keys
    ensures Merged(prior, data) == prior
  {
  }

  /**
   * Two partial updates in a row are one update with both rows' fields, the later row winning
   * where both supply a field; in particular repeating a partial update changes nothing.
   */
  lemma MergeComposes(prior: Scalar, first: Record, second: Record)
    requires IsScalar(prior)
    ensures Merged(Merged(prior, first), second) == Merged(prior, first + second)
    ensures Merged(Merged(prior, first), first) == Merged(prior, first)
  {
  }

  /** An overwrite forgets the prior record: what is stored depends on the new data only. */
  lemma OverwriteForgets(a: Scalar, b: Scalar, data: Record)
    requires IsScalar(a) && IsScalar(b)
    ensures Upsert(Some(a), true, data) == Upsert(Some(b), true, data) == Upsert(None, false, data)
  {
  }

  // ---------------------------------------------------------------------------------------------
  // Preparing the data
  // ---------------------------------------------------------------------------------------------

  /** The overwrite flag popped from the data, and the data with the hydrogen unit defaulted. */
  datatype Prepared = Prepared(overwrite: bool, data: Record)

  /**
   * `_overwrite` is removed (and decides the mode by its truthiness, absent meaning partial);
   * a hydrogen concentration without a unit gets the unit "ppm".
   */
  function PrepareData(data: Record): (p: Prepared)
    ensures p.overwrite <==> Truthy(Get(data, "_overwrite"))
    ensures "_overwrite" !in p.data
    ensures forall k | k in data && k !in {"_overwrite", "h2_concentration_unit"} :: k in p.data && p.data[k] == data[k]
    ensures p.data.Keys <= data.Keys + {"h2_concentration_unit"}
    ensures Get(p.data, "h2_concentration_unit")
      == if !Get(data, "h2_concentration").VNone? && !Truthy(Get(data, "h2_concentration_unit"))
         then VText("ppm") else Get(data, "h2_concentration_unit")
  {
    var overwrite := Truthy(Get(data, "_overwrite"));
    var rest := map k | k in data && k != "_overwrite" :: data[k];
    if !Get(rest, "h2_concentration").VNone? && !Truthy(Get(rest, "h2_concentration_unit"))
    then Prepared(overwrite, rest["h2_concentration_unit" := VText("ppm")])
    else Prepared(overwrite, rest)
  }

  /** A stored hydrogen concentration always comes with a unit. */
  lemma HydrogenHasUnit(data: Record)
    requires !Get(data, "h2_concentration").VNone?
    ensures Truthy(Get(PrepareData(data).data, "h2_concentration_unit"))
  {
  }

  /** Every long-format request is a partial update. */
  lemma LongFormatRequestsArePartial(columns: seq<string>, rows: seq<seq<Value>>, dryRun: bool,
                                     ft: LongFormat.FloatText)
    ensures forall r | r in LongFormat.Upload(columns, rows, dryRun, ft).requests :: !PrepareData(r.data).overwrite
  {
  }

  // ---------------------------------------------------------------------------------------------
  // Finding the experiment and the result row
  // ---------------------------------------------------------------------------------------------

  /** `_find_experiment`: the first experiment whose normalised ID equals the normalised text. */
  function FindExperiment(exps: seq<Experiment>, experimentId: string): (r: Option<nat>)
    ensures r.Some? ==> (r.value < |exps|
      && IcpService.SqlNorm(exps[r.value].experimentId) == IcpService.PyNorm(experimentId))
    ensures r.Some? ==> forall j | 0 <= j < r.value ::
      IcpService.SqlNorm(exps[j].experimentId) != IcpService.PyNorm(experimentId)
    ensures r.None? ==> forall j | 0 <= j < |exps| ::
      IcpService.SqlNorm(exps[j].experimentId) != IcpService.PyNorm(experimentId)
    decreases |exps|
  {
    if exps == [] then None
    else if IcpService.SqlNorm(exps[0].experimentId) == IcpService.PyNorm(experimentId) then Some(0)
    else
      var rest := FindExperiment(exps[1..], experimentId);
      if rest.Some? then Some(rest.value + 1) else None
  }

  /**
   * The scalar lookup keeps spaces, unlike the lineage lookup, which drops them: "HPHT 1" and
   * "HPHT1" are the same experiment for the lineage helpers but different ones here.
   */
  lemma SpacesDistinguishHere()
    ensures IcpService.PyNorm("A 1") != IcpService.PyNorm("A1")
    ensures Lineage.LookupKey("A 1") == Lineage.LookupKey("A1")
  {
    assert IcpService.PyNorm("A 1") == RemoveChars(Lower("A 1"), {'-', '_'});
    assert Lower("A 1") == "a 1";
    assert Lower("A1") == "a1";
    assert RemoveChars("a 1", {'-', '_'}) == "a 1";
    assert RemoveChars("a1", {'-', '_'}) == "a1";
    assert RemoveChars("a 1", Lineage.Delimiters) == "a1";
    assert RemoveChars("a1", Lineage.Delimiters) == "a1";
  }

  /** The rows at the candidate indices. */
  function CandidateRows(rows: seq<ResultRow>, cs: seq<nat>): (r: seq<ResultRow>)
    requires forall t | 0 <= t < |cs| :: cs[t] < |rows|
    ensures |r| == |cs| && forall t | 0 <= t < |r| :: r[t] == rows[cs[t]]
  {
    seq(|cs|, t requires 0 <= t < |cs| => rows[cs[t]])
  }

  /** The index of a chosen candidate row. */
  function IndexIn(rows: seq<ResultRow>, cs: seq<nat>, p: ResultRow): (k: nat)
    requires forall t | 0 <= t < |cs| :: cs[t] < |rows|
    requires p in CandidateRows(rows, cs)
    ensures k in cs && rows[k] == p
    decreases |cs|
  {
    if rows[cs[0]] == p then cs[0]
    else
      assert CandidateRows(rows, cs)[1..] == CandidateRows(rows, cs[1..]);
      IndexIn(rows, cs[1..], p)
  }

  /** The row `choose_parent_candidate` picks among the time point's candidates, if any. */
  function ParentIndex(rows: seq<ResultRow>, experimentFk: int, time: real): (r: Option<nat>)
    ensures r.None? <==> Candidates(rows, experimentFk, Some(time), |rows|) == []
    ensures r.Some? ==> r.value < |rows| && IsCandidate(rows[r.value], experimentFk, Some(time))
  {
    var cs := Candidates(rows, experimentFk, Some(time), |rows|);
    CandidatesSpec(rows, experimentFk, Some(time), |rows|);
    var p := ChooseParent(CandidateRows(rows, cs), "scalar");
    if p.None? then None else Some(IndexIn(rows, cs, p.value))
  }

  /** The description of a new result row: the supplied one, else one naming the day. */
  function NewDescription(description: Value, time: real, ft: FloatText): string {
    if Truthy(description) then StrOf(description, ft) else "Analysis results for Day " + ft(time)
  }

  /**
   * `_find_or_create_experimental_result`: the chosen candidate (its description replaced only
   * by a non-empty supplied one), or a new row appended.
   */
  function FindOrCreate(rows: seq<ResultRow>, experimentFk: int, time: real, description: Value, ft: FloatText)
    : (r: (seq<ResultRow>, nat))
    ensures |r.0| == |rows| || r.0 == rows + [NewRow(rows, experimentFk, time, NewDescription(description, time, ft))]
    ensures r.1 < |r.0| && IsCandidate(r.0[r.1], experimentFk, Some(time))
    ensures forall i | 0 <= i < |rows| :: i != r.1 ==> r.0[i] == rows[i]
    ensures r.1 < |rows| ==> r.0[r.1] == rows[r.1].(description := r.0[r.1].description)
    ensures forall i | 0 <= i < |rows| :: r.0[i].id == rows[i].id
  {
    var k := ParentIndex(rows, experimentFk, time);
    if k.Some? then
      (if Truthy(description) then rows[k.value := rows[k.value].(description := StrOf(description, ft))] else rows,
       k.value)
    else
      NewRowIsCandidate(rows, experimentFk, time, NewDescription(description, time, ft));
      var r := rows + [NewRow(rows, experimentFk, time, NewDescription(description, time, ft))];
      CandidatesSpec(r, experimentFk, Some(time), |r|);
      (r, |rows|)
  }

  /** Finding or creating a row keeps result ids ascending: a new row takes the next id. */
  lemma FindOrCreateAscending(rows: seq<ResultRow>, experimentFk: int, time: real, description: Value, ft: FloatText)
    requires IdsAscending(rows)
    ensures IdsAscending(FindOrCreate(rows, experimentFk, time, description, ft).0)
  {
    var (r, k) := FindOrCreate(rows, experimentFk, time, description, ft);
    if |r| != |rows| {
      var n := NewRow(rows, experimentFk, time, NewDescription(description, time, ft));
      assert r == rows + [n];
      forall a, b | 0 <= a < b < |r| ensures r[a].id < r[b].id {
        if b == |rows| {
          assert rows[a].id <= rows[|rows| - 1].id;
        }
      }
    }
  }

  /** An existing row keeps its description unless a non-empty one is supplied. */
  lemma DescriptionKeptUnlessGiven(rows: seq<ResultRow>, experimentFk: int, time: real, description: Value,
                                   ft: FloatText)
    requires ParentIndex(rows, experimentFk, time).Some?
    ensures var (r, k) := FindOrCreate(rows, experimentFk, time, description, ft);
      r[k].description == if Truthy(description) then StrOf(description, ft) else rows[k].description
  {
  }

  // ---------------------------------------------------------------------------------------------
  // The upsert on table values
  // ---------------------------------------------------------------------------------------------

  /**
   * How a call fails: the service's `ValueError` for an unknown experiment or a missing time, a
   * `ValueError` raised by Python's `float()` on a time that is not a number, or another
   * exception (a non-text experiment ID, a time of another type).
   */
  datatype Failure = NotFound(experimentId: string) | TimeRequired | FloatError | OtherError

  /** The text of the service's own `ValueError`s. */
  function Message(f: Failure): string
    requires f.NotFound? || f.TimeRequired?
  {
    if f.NotFound? then "Experiment with ID '" + f.experimentId + "' not found and could not be auto-created."
    else "time_post_reaction (Time (days)) is required for scalar results. Use 0 for pre-reaction baselines."
  }

  datatype Outcome = Written(result: nat) | Failed(failure: Failure)

  /** The experiments, result rows, and scalar records by result id. */
  datatype Tables = Tables(experiments: seq<Experiment>, results: seq<ResultRow>, scalars: map<int, Scalar>)

  predicate TablesValid(t: Tables) {
    DistinctExpIds(t.experiments)
    && IdsAscending(t.results)
    && forall id | id in t.scalars :: IsScalar(t.scalars[id])
  }

  /** Result ids ascend in table order, as the database's sequence hands them out. */
  predicate IdsAscending(rows: seq<ResultRow>) {
    forall a, b | 0 <= a < b < |rows| :: rows[a].id < rows[b].id
  }

  /** The time a row names: none, a number, text `float()` rejects, or another type. */
  datatype Time = NoTime | At(x: real) | BadText | BadType

  function TimeOf(v: Value): Time {
    match v
    case VNone => NoTime
    case VNum(x) => At(x)
    case VBool(b) => At(if b then 1.0 else 0.0)
    case VText(_) => if FloatOfValue(v).Some? then At(FloatOfValue(v).value) else BadText
    case VDate(_) => BadType
  }

  /** Re-timing a chain changes only cumulative times. */
  lemma CumulatedChangesOnlyCumulative(exps: seq<Experiment>, rows: seq<ResultRow>, base: string)
    ensures var r := Cumulated(exps, rows, base);
      forall i | 0 <= i < |r| :: r[i] == rows[i].(cumulative := r[i].cumulative)
  {
  }

  /** The row with the scalar marked and the time point's primary re-chosen. */
  function Promoted(rows: seq<ResultRow>, k: nat, experimentFk: int, time: real): (r: seq<ResultRow>)
    requires k < |rows|
    ensures |r| == |rows|
    ensures forall i | 0 <= i < |r| :: r[i].id == rows[i].id && r[i].experimentFk == rows[i].experimentFk
    ensures r[k].hasScalar
    ensures IsCandidate(rows[k], experimentFk, Some(time)) ==> IsCandidate(r[k], experimentFk, Some(time))
  {
    var marked := rows[k := rows[k].(hasScalar := true)];
    PromoteKeepsRanks(marked, experimentFk, Some(time));
    var promoted := Promote(marked, experimentFk, Some(time));
    assert Tier(promoted[k]) == Tier(marked[k]) <= 1;
    assert IsCandidate(marked[k], experimentFk, Some(time)) ==> IsCandidate(promoted[k], experimentFk, Some(time)) by {
      if IsCandidate(marked[k], experimentFk, Some(time)) {
        RestampKeepsCandidate(marked[k], experimentFk, Some(time), promoted[k].isPrimary);
      }
    }
    promoted
  }

  /** The result rows after the scalar is attached: marked, promoted, and the chain re-timed. */
  function Attached(exps: seq<Experiment>, rows: seq<ResultRow>, k: nat, experimentFk: int, time: real)
    : (r: seq<ResultRow>)
    requires k < |rows|
    ensures |r| == |rows|
    ensures forall i | 0 <= i < |r| :: r[i].id == rows[i].id && r[i].experimentFk == rows[i].experimentFk
    ensures r[k].hasScalar
    ensures IsCandidate(rows[k], experimentFk, Some(time)) ==> IsCandidate(r[k], experimentFk, Some(time))
  {
    var promoted := Promoted(rows, k, experimentFk, time);
    match FindExp(exps, experimentFk)
    case Some(e) =>
      CumulatedChangesOnlyCumulative(exps, promoted, ChainBase(e));
      Cumulated(exps, promoted, ChainBase(e))
    case None => promoted
  }

  /** Where a call goes before it writes: a failure, or the experiment's index and the time. */
  datatype Located = Fail(failure: Failure) | Found(experiment: nat, time: real)

  /** The checks of `create_scalar_result` before anything is written, in the service's order. */
  function Locate(exps: seq<Experiment>, experimentId: Value, p: Prepared): (r: Located)
    ensures r.Found? ==> (experimentId.VText? && r.experiment < |exps|
      && FindExperiment(exps, experimentId.s) == Some(r.experiment)
      && TimeOf(Get(p.data, "time_post_reaction")) == At(r.time))
    ensures r == Fail(TimeRequired) ==> Get(p.data, "time_post_reaction").VNone?
    ensures experimentId.VText? && FindExperiment(exps, experimentId.s).None? ==>
      r == Fail(NotFound(experimentId.s))
  {
    if !experimentId.VText? then Fail(OtherError)
    else
      var j := FindExperiment(exps, experimentId.s);
      if j.None? then
        Fail(NotFound(experimentId.s))
      else
        match TimeOf(Get(p.data, "time_post_reaction"))
        case NoTime => Fail(TimeRequired)
        case BadText => Fail(FloatError)
        case BadType => Fail(OtherError)
        case At(x) => Found(j.value, x)
  }

  /** The scalar record stored under result `id` after the upsert. */
  function Stored(scalars: map<int, Scalar>, id: int, p: Prepared): (s: Scalar)
    requires forall i | i in scalars :: IsScalar(scalars[i])
    ensures IsScalar(s)
  {
    Upsert(if id in scalars then Some(scalars[id]) else None, p.overwrite, p.data)
  }

  /**
   * The writes of `create_scalar_result` once the experiment and time are known: the result row
   * found or created, its scalar record upserted, the primary of the time point and the chain's
   * cumulative times refreshed. Result ids are kept and another scalar record is not touched.
   */
  function WriteAt(t: Tables, j: nat, x: real, p: Prepared, ft: FloatText): (r: (nat, Tables))
    requires TablesValid(t) && j < |t.experiments|
    ensures TablesValid(r.1)
    ensures var (k, t') := r;
      && k < |t'.results|
      && t'.experiments == t.experiments
      && (|t'.results| == |t.results| || |t'.results| == |t.results| + 1)
      && (forall i | 0 <= i < |t.results| :: t'.results[i].id == t.results[i].id)
      && t'.results[k].experimentFk == t.experiments[j].id
      && IsCandidate(t'.results[k], t.experiments[j].id, Some(x))
      && t'.results[k].hasScalar
      && var id := t'.results[k].id;
         && t'.scalars == t.scalars[id := Stored(t.scalars, id, p)]
  {
    var e := t.experiments[j];
    var (rows, k) := FindOrCreate(t.results, e.id, x, Get(p.data, "description"), ft);
    FindOrCreateAscending(t.results, e.id, x, Get(p.data, "description"), ft);
    var id := rows[k].id;
    var attached := Attached(t.experiments, rows, k, e.id, x);
    SameIdsAscending(rows, attached);
    (k, Tables(t.experiments, attached, t.scalars[id := Stored(t.scalars, id, p)]))
  }

  /** Rows with the same ids in the same order keep ids ascending. */
  lemma SameIdsAscending(a: seq<ResultRow>, b: seq<ResultRow>)
    requires IdsAscending(a) && |a| == |b| && forall i | 0 <= i < |a| :: b[i].id == a[i].id
    ensures IdsAscending(b)
  {
  }

  /** `create_scalar_result` on table values. */
  function Create(t: Tables, experimentId: Value, data: Record, ft: FloatText): (r: (Outcome, Tables))
    requires TablesValid(t)
    ensures TablesValid(r.1)
    ensures r.0.Failed? ==> r.1 == t
    ensures r.0.Failed? && r.0.failure == TimeRequired ==>
      Get(PrepareData(data).data, "time_post_reaction").VNone?
  {
    var p := PrepareData(data);
    match Locate(t.experiments, experimentId, p)
    case Fail(f) => (Failed(f), t)
    case Found(j, x) =>
      var (k, t') := WriteAt(t, j, x, p, ft);
      (Written(k), t')
  }

  /**
   * In partial mode the fields a row does not supply keep their stored values; in overwrite
   * mode, or for a new record, they are cleared.
   */
  lemma PartialKeepsOmittedFields(scalars: map<int, Scalar>, id: int, data: Record, f: string)
    requires forall i | i in scalars :: IsScalar(scalars[i])
    requires f in Updatable && f !in data && f != "h2_concentration_unit"
    ensures Stored(scalars, id, PrepareData(data))[f]
      == if !PrepareData(data).overwrite && id in scalars then scalars[id][f] else VNone
  {
  }

  // ---------------------------------------------------------------------------------------------
  // The bulk loop
  // ---------------------------------------------------------------------------------------------

  /**
   * An error line of `bulk_create_scalar_results`: a message the service words itself, or a row
   * whose text comes from Python (the `float()` message, or "Unexpected error - " and the
   * exception's text).
   */
  datatype RowError = Said(text: string) | FloatFailed(row: nat) | Unexpected(row: nat)

  /** The indices of the written result rows, the error lines, and the tables afterwards. */
  datatype BulkResult = BulkResult(written: seq<nat>, errors: seq<RowError>, tables: Tables)

  function RowText(row: nat, message: string): string {
    "Row " + NatToString(row) + ": " + message
  }

  /** One row of the loop, reported as sheet row `row`. */
  function BulkRow(t: Tables, row: nat, rec: Record, ft: FloatText): (r: BulkResult)
    requires TablesValid(t)
    ensures TablesValid(r.tables)
    ensures |r.written| + |r.errors| == 1
    ensures r.errors != [] ==> r.tables == t
    ensures !Truthy(Get(rec, "experiment_id")) ==> r == BulkResult([], [Said(RowText(row, "Missing experiment_id."))], t)
    ensures Truthy(Get(rec, "experiment_id")) && !Truthy(Get(rec, "description")) ==>
      r == BulkResult([], [Said(RowText(row, "Missing description."))], t)
  {
    var id := Get(rec, "experiment_id");
    if !Truthy(id) then BulkResult([], [Said(RowText(row, "Missing experiment_id."))], t)
    else if !Truthy(Get(rec, "description")) then BulkResult([], [Said(RowText(row, "Missing description."))], t)
    else
      var (o, t') := Create(t, id, rec, ft);
      var (w, e) := Reported(row, o);
      BulkResult(w, e, if o.Written? then t' else t)
  }

  /** What the bulk loop reports for one upsert: the written row, or the error its failure gives. */
  function Reported(row: nat, o: Outcome): (r: (seq<nat>, seq<RowError>))
    ensures o.Written? ==> r == ([o.result], [])
    ensures o.Failed? ==> r.0 == [] && |r.1| == 1
  {
    match o
    case Written(k) => ([k], [])
    case Failed(f) => ([], [FailureError(row, f)])
  }

  /** The error line of a failed upsert: the service's message, or the exception's. */
  function FailureError(row: nat, f: Failure): RowError {
    if f.NotFound? || f.TimeRequired? then Said(RowText(row, Message(f)))
    else if f.FloatError? then FloatFailed(row)
    else Unexpected(row)
  }

  /** `bulk_create_scalar_results` over the first rows, each reported as its sheet row (index + 2). */
  function Bulk(t: Tables, data: seq<Record>, ft: FloatText): (r: BulkResult)
    requires TablesValid(t)
    ensures TablesValid(r.tables)
    decreases |data|
  {
    if data == [] then BulkResult([], [], t)
    else
      var n := |data| - 1;
      var before := Bulk(t, data[..n], ft);
      var step := BulkRow(before.tables, n + 2, data[n], ft);
      BulkResult(before.written + step.written, before.errors + step.errors, step.tables)
  }

  /** Every row is either written or reported, once. */
  lemma {:induction false} BulkAccountsForEveryRow(t: Tables, data: seq<Record>, ft: FloatText)
    requires TablesValid(t)
    ensures |Bulk(t, data, ft).written| + |Bulk(t, data, ft).errors| == |data|
    decreases |data|
  {
    if data != [] {
      BulkAccountsForEveryRow(t, data[..|data| - 1], ft);
    }
  }

  /** A batch whose rows all lack an experiment ID writes nothing. */
  lemma {:induction false} BulkWithoutIdsWritesNothing(t: Tables, data: seq<Record>, ft: FloatText)
    requires TablesValid(t)
    requires forall i | 0 <= i < |data| :: !Truthy(Get(data[i], "experiment_id"))
    ensures Bulk(t, data, ft).tables == t && Bulk(t, data, ft).written == []
    ensures |Bulk(t, data, ft).errors| == |data|
    ensures forall i | 0 <= i < |data| :: Bulk(t, data, ft).errors[i] == Said(RowText(i + 2, "Missing experiment_id."))
    decreases |data|
  {
    if data != [] {
      var n := |data| - 1;
      BulkWithoutIdsWritesNothing(t, data[..n], ft);
      var before := Bulk(t, data[..n], ft);
      var step := BulkRow(before.tables, n + 2, data[n], ft);
      assert step == BulkResult([], [Said(RowText(n + 2, "Missing experiment_id."))], t);
      assert Bulk(t, data, ft).errors == before.errors + step.errors;
    }
  }

  // ---------------------------------------------------------------------------------------------
  // The session
  // ---------------------------------------------------------------------------------------------

  /** The database session: the experiments and result rows, and the scalar records by result id. */
  class ScalarSession {
    const store: ResultStore
    var scalars: map<int, Scalar>

    ghost function Snapshot(): Tables
      reads this, store
    {
      Tables(store.experiments, store.results, scalars)
    }

    ghost predicate Valid()
      reads this, store
    {
      store.Valid() && forall id | id in scalars :: IsScalar(scalars[id])
    }

    constructor (store: ResultStore, scalars: map<int, Scalar>)
      requires store.Valid() && forall id | id in scalars :: IsScalar(scalars[id])
      ensures Valid() && this.store == store && this.scalars == scalars
    {
      this.store := store;
      this.scalars := scalars;
    }

    /**
     * `create_scalar_result`: the checks, then the result row found or created, the scalar
     * record upserted, the time point's primary chosen and the chain's cumulative times updated.
     */
    method CreateScalarResult(experimentId: Value, data: Record, ft: FloatText) returns (outcome: Outcome)
      requires Valid()
      modifies this, store
      ensures Valid()
      ensures (outcome, Snapshot()) == Create(old(Snapshot()), experimentId, data, ft)
    {
      var p := PrepareData(data);
      var located := Locate(store.experiments, experimentId, p);
      if located.Fail? {
        return Failed(located.failure);
      }
      var e := store.experiments[located.experiment];
      var x := located.time;
      var k := FindOrCreateRow(e.id, x, Get(p.data, "description"), ft);
      var id := store.results[k].id;
      scalars := scalars[id := Stored(scalars, id, p)];
      AttachScalar(k, e.id, x);
      outcome := Written(k);
    }

    /**
     * The writes after the scalar record: the row marked as having one, the time point's primary
     * chosen, and the chain's cumulative times updated.
     */
    method AttachScalar(k: nat, experimentFk: int, time: real)
      requires Valid() && k < |store.results|
      modifies store
      ensures Valid() && store.experiments == old(store.experiments)
      ensures store.results == Attached(store.experiments, old(store.results), k, experimentFk, time)
    {
      store.results := store.results[k := store.results[k].(hasScalar := true)];
      var _ := store.EnsurePrimary(experimentFk, Some(time));
      store.UpdateCumulativeTimes(experimentFk);
    }

    /** `_find_or_create_experimental_result`, leaving the scalar records alone. */
    method FindOrCreateRow(experimentFk: int, time: real, description: Value, ft: FloatText) returns (k: nat)
      requires Valid()
      modifies store
      ensures Valid() && store.experiments == old(store.experiments)
      ensures (store.results, k) == FindOrCreate(old(store.results), experimentFk, time, description, ft)
    {
      var parent := ParentIndex(store.results, experimentFk, time);
      if parent.Some? {
        k := parent.value;
        if Truthy(description) {
          store.results := store.results[k := store.results[k].(description := StrOf(description, ft))];
        }
      } else {
        var created := store.CreateRow(experimentFk, Some(time), NewDescription(description, time, ft));
        k := created.value;
      }
    }

    /** One row of the bulk loop, reported as sheet row `row`. */
    method BulkRowStep(row: nat, rec: Record, ft: FloatText) returns (written: seq<nat>, errors: seq<RowError>)
      requires Valid()
      modifies this, store
      ensures Valid()
      ensures BulkResult(written, errors, Snapshot()) == BulkRow(old(Snapshot()), row, rec, ft)
    {
      written, errors := [], [];
      var id := Get(rec, "experiment_id");
      if !Truthy(id) {
        errors := [Said(RowText(row, "Missing experiment_id."))];
      } else if !Truthy(Get(rec, "description")) {
        errors := [Said(RowText(row, "Missing description."))];
      } else {
        var outcome := CreateScalarResult(id, rec, ft);
        written, errors := Reported(row, outcome).0, Reported(row, outcome).1;
      }
    }

    /** `bulk_create_scalar_results`: every row in turn, its errors collected. */
    method BulkCreate(data: seq<Record>, ft: FloatText) returns (written: seq<nat>, errors: seq<RowError>)
      requires Valid()
      modifies this, store
      ensures Valid()
      ensures BulkResult(written, errors, Snapshot()) == Bulk(old(Snapshot()), data, ft)
    {
      written, errors := [], [];
      ghost var t0 := Snapshot();
      var i := 0;
      while i < |data|
        invariant 0 <= i <= |data| && Valid()
        invariant BulkResult(written, errors, Snapshot()) == Bulk(t0, data[..i], ft)
      {
        assert data[..i + 1][..i] == data[..i];
        var w, e := BulkRowStep(i + 2, data[i], ft);
        written, errors := written + w, errors + e;
        i := i + 1;
      }
      assert data[..i] == data;
    }
  }
}
