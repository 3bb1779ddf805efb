/**
 * The long-format results upload: one row per (experiment, time, metric, value, unit). Rows are
 * checked, pivoted into one field dictionary per (experiment, time), and each dictionary becomes a
 * partial-update request for the scalar-results service.
 */
module LongFormat {
  import opened Wrappers
  import opened PyStr
  import opened Values
  import opened MetricGroups

  /** Python's `str()` of a float, which the messages and descriptions embed. */
  type FloatText = real -> string

  // ---------------------------------------------------------------------------------------------
  // Headers
  // ---------------------------------------------------------------------------------------------

  /** A header after removing `*`, trimming, and renaming the template's English names. */
  function Header(c: string): string {
    var t := Strip(RemoveChars(c, {'*'}));
    var renamed := ColumnName(t);
    if renamed.Some? then renamed.value else t
  }

  function ColumnName(t: string): Option<string> {
    if t == "Experiment ID" then Some("experiment_id")
    else if t == "Time (days)" then Some("time_post_reaction")
    else if t == "Metric" then Some("metric")
    else if t == "Value" then Some("value")
    else if t == "Unit" then Some("unit")
    else None
  }

  function Headers(columns: seq<string>): (r: seq<string>)
    ensures |r| == |columns| && forall i | 0 <= i < |r| :: r[i] == Header(columns[i])
  {
    seq(|columns|, i requires 0 <= i < |columns| => Header(columns[i]))
  }

  /** The required column names, sorted as the missing-columns message lists them. */
  const RequiredColumns: seq<string> := ["experiment_id", "metric", "time_post_reaction", "value"]

  /** The required columns the header lacks, in sorted order. */
  function MissingColumns(headers: seq<string>): (r: seq<string>)
    ensures forall c :: c in r <==> c in RequiredColumns && c !in headers
  {
    Absent(RequiredColumns, headers)
  }

  function Absent(wanted: seq<string>, headers: seq<string>): (r: seq<string>)
    ensures forall c :: c in r <==> c in wanted && c !in headers
  {
    if wanted == [] then []
    else (if wanted[0] in headers then [] else [wanted[0]]) + Absent(wanted[1..], headers)
  }

  // ---------------------------------------------------------------------------------------------
  // Value checks
  // ---------------------------------------------------------------------------------------------

  /** The unit check: a non-empty unit must be one of the metric's allowed units. */
  predicate UnitAllowed(info: MetricInfo, unit: Value) {
    !Truthy(unit) || info.allowedUnits == [] || (unit.VText? && unit.s in info.allowedUnits)
  }

  /** The errors for one value and unit of a named metric. */
  function ValidateMetricValue(metric: string, value: Value, unit: Value, ft: FloatText): (r: seq<string>)
    ensures metric !in Registry ==>
      r == ["Unknown metric '" + metric + "'. Valid: " + QuotedList(SortedMetricNames) + "."]
    ensures metric in Registry && FloatOfValue(value).None? ==>
      r == ["Value for '" + metric + "' must be numeric, got '" + StrOf(value, ft) + "'."]
    ensures metric in Registry && FloatOfValue(value).Some? ==>
      var x, info := FloatOfValue(value).value, Registry[metric];
      |r| == (if x < info.min as real then 1 else 0)
           + (if info.max.Some? && x > info.max.value as real then 1 else 0)
           + (if UnitAllowed(info, unit) then 0 else 1)
    ensures r == [] <==> (metric in Registry && FloatOfValue(value).Some?
      && Registry[metric].min as real <= FloatOfValue(value).value
      && (Registry[metric].max.Some? ==> FloatOfValue(value).value <= Registry[metric].max.value as real)
      && UnitAllowed(Registry[metric], unit))
  {
    if metric !in Registry then
      ["Unknown metric '" + metric + "'. Valid: " + QuotedList(SortedMetricNames) + "."]
    else
      var info := Registry[metric];
      var num := FloatOfValue(value);
      if num.None? then ["Value for '" + metric + "' must be numeric, got '" + StrOf(value, ft) + "'."]
      else
        var x := num.value;
        (if x < info.min as real
         then ["'" + metric + "' must be >= " + IntToString(info.min) + ", got " + ft(x) + "."] else [])
        + (if info.max.Some? && x > info.max.value as real
           then ["'" + metric + "' must be <= " + IntToString(info.max.value) + ", got " + ft(x) + "."]
           else [])
        + (if UnitAllowed(info, unit) then []
           else ["Unit '" + StrOf(unit, ft) + "' not allowed for '" + metric + "'. Allowed: "
                 + QuotedList(info.allowedUnits) + "."])
  }

  // ---------------------------------------------------------------------------------------------
  // Row verdicts
  // ---------------------------------------------------------------------------------------------

  /**
   * What a row contributes: nothing, an error (the messages for the upload's error list and the
   * errors on the row's feedback), or one value for the group of its (experiment, time) key,
   * together with the hydrogen unit when the metric is the hydrogen concentration.
   */
  datatype Verdict =
    | Skip
    | Reject(experimentId: string, time: Option<real>, messages: seq<string>, rowErrors: seq<string>)
    | Accept(experimentId: string, day: real, field: string, value: real, unit: Option<Value>)

  function RowLabel(row: nat): string {
    "Row " + NatToString(row) + ": "
  }

  function Prefixed(row: nat, errors: seq<string>): (r: seq<string>)
    ensures |r| == |errors| && forall i | 0 <= i < |r| :: r[i] == RowLabel(row) + errors[i]
  {
    seq(|errors|, i requires 0 <= i < |errors| => RowLabel(row) + errors[i])
  }

  predicate Missing(v: Value, ft: FloatText) {
    v.VNone? || Strip(StrOf(v, ft)) == []
  }

  /** The required-field errors, in the order the row is checked. */
  function RequiredErrors(rec: Record, ft: FloatText): (r: seq<string>)
    ensures r == [] <==> (!Missing(Get(rec, "experiment_id"), ft) && !Get(rec, "time_post_reaction").VNone?
      && !Missing(Get(rec, "metric"), ft) && !Get(rec, "value").VNone?)
  {
    (if Missing(Get(rec, "experiment_id"), ft) then ["Missing Experiment ID."] else [])
    + (if Get(rec, "time_post_reaction").VNone? then ["Missing Time (days)."] else [])
    + (if Missing(Get(rec, "metric"), ft) then ["Missing Metric."] else [])
    + (if Get(rec, "value").VNone? then ["Missing Value."] else [])
  }

  /** The verdict on the row numbered `row` (its spreadsheet row: the header is row 1). */
  function VerdictOf(row: nat, rec: Record, ft: FloatText): (v: Verdict)
    ensures v.Accept? ==> v.field in Registry && Registry[v.field].min as real <= v.value
    ensures v.Accept? ==> FloatOfValue(Get(rec, "value")) == Some(v.value)
    ensures v.Accept? ==> (v.unit.Some? <==> v.field == "h2_concentration")
    ensures v.Reject? ==> v.messages != [] && v.rowErrors != []
  {
    var expId, timeRaw := Get(rec, "experiment_id"), Get(rec, "time_post_reaction");
    var metric, value, unit := Get(rec, "metric"), Get(rec, "value"), Get(rec, "unit");
    if expId.VNone? && metric.VNone? then Skip
    else
      var required := RequiredErrors(rec, ft);
      if required != [] then
        Reject(if expId.VNone? then "" else StrOf(expId, ft), None, Prefixed(row, required), required)
      else
        var id := Strip(StrOf(expId, ft));
        var time := FloatOfValue(timeRaw);
        if time.None? then
          Reject(id, None,
                 [RowLabel(row) + "Time (days) must be numeric, got '" + StrOf(timeRaw, ft) + "'."],
                 ["Time must be numeric, got '" + StrOf(timeRaw, ft) + "'."])
        else
          var m := Strip(StrOf(metric, ft));
          if m !in Registry then
            Reject(id, time,
                   [RowLabel(row) + "Unknown metric '" + m + "'. Valid: " + QuotedList(SortedMetricNames) + "."],
                   ["Unknown metric '" + m + "'."])
          else
            var errors := ValidateMetricValue(m, value, unit, ft);
            if errors != [] then Reject(id, time, Prefixed(row, errors), errors)
            else
              var info := Registry[m];
              RegistryFieldIsKey(m);
              Accept(id, time.value, info.dbField, FloatOfValue(value).value,
                     if info.dbField == "h2_concentration"
                     then Some(if Truthy(unit) then unit else VText(info.defaultUnit))
                     else None)
  }

  /** A row is skipped exactly when both its experiment ID and its metric are empty cells. */
  lemma SkipsOnlyEmptyRows(row: nat, rec: Record, ft: FloatText)
    ensures VerdictOf(row, rec, ft).Skip? <==> Get(rec, "experiment_id").VNone? && Get(rec, "metric").VNone?
  {
  }

  // ---------------------------------------------------------------------------------------------
  // Pivot
  // ---------------------------------------------------------------------------------------------

  /** The fields collected for one (experiment, time) key, and the rows that contributed them. */
  datatype Group = Group(experimentId: string, time: real, fields: Record, sourceRows: seq<nat>)

  datatype Status = Error | DryRun

  /** A row's feedback entry: row, experiment, time, status, fields, errors. */
  datatype Feedback = Feedback(row: nat, experimentId: string, time: Option<real>, status: Status,
                               fieldsUpdated: set<string>, errors: seq<string>)

  /** The state of the row loop: errors so far, input feedbacks so far, groups in first-seen order. */
  datatype Pivot = Pivot(errors: seq<string>, feedbacks: seq<Feedback>, groups: seq<Group>)

  /** The position of the group for a key, if there is one. */
  function IndexOfKey(groups: seq<Group>, id: string, t: real): (r: Option<nat>)
    ensures r.Some? ==> r.value < |groups| && groups[r.value].experimentId == id && groups[r.value].time == t
    ensures r.Some? ==> forall j | 0 <= j < r.value :: !(groups[j].experimentId == id && groups[j].time == t)
    ensures r.None? ==> forall j | 0 <= j < |groups| :: !(groups[j].experimentId == id && groups[j].time == t)
  {
    if groups == [] then None
    else if groups[0].experimentId == id && groups[0].time == t then Some(0)
    else
      var rest := IndexOfKey(groups[1..], id, t);
      if rest.Some? then Some(rest.value + 1) else None
  }

  lemma IndexOfKeyAt(groups: seq<Group>, id: string, t: real, k: nat)
    requires k < |groups| && groups[k].experimentId == id && groups[k].time == t
    requires forall j | 0 <= j < k :: !(groups[j].experimentId == id && groups[j].time == t)
    ensures IndexOfKey(groups, id, t) == Some(k)
  {
  }

  lemma IndexOfKeyAbsent(groups: seq<Group>, id: string, t: real)
    requires forall j | 0 <= j < |groups| :: !(groups[j].experimentId == id && groups[j].time == t)
    ensures IndexOfKey(groups, id, t) == None
  {
  }

  /** `fields[field] = value`, then the hydrogen unit when there is one. */
  function Write(fields: Record, field: string, value: real, unit: Option<Value>): Record {
    var f := fields[field := VNum(value)];
    if unit.Some? then f["h2_concentration_unit" := unit.value] else f
  }

  /** Adds an accepted row's value to the group of its key, creating the group at the end. */
  function Accumulate(groups: seq<Group>, id: string, t: real, row: nat, field: string, value: real,
                      unit: Option<Value>): seq<Group>
  {
    var i := IndexOfKey(groups, id, t);
    if i.None? then groups + [Group(id, t, Write(map[], field, value, unit), [row])]
    else
      var g := groups[i.value];
      groups[i.value := Group(id, t, Write(g.fields, field, value, unit), g.sourceRows + [row])]
  }

  function Step(p: Pivot, row: nat, rec: Record, ft: FloatText): Pivot {
    var v := VerdictOf(row, rec, ft);
    match v
    case Skip => p
    case Reject(id, time, messages, rowErrors) =>
      Pivot(p.errors + messages, p.feedbacks + [Feedback(row, id, time, Error, {}, rowErrors)], p.groups)
    case Accept(id, t, field, value, unit) =>
      Pivot(p.errors, p.feedbacks, Accumulate(p.groups, id, t, row, field, value, unit))
  }

  /** The row loop over the sheet's records; record `i` is spreadsheet row `i + 2`. */
  function PivotOf(recs: seq<Record>, ft: FloatText): Pivot
    decreases |recs|
  {
    if recs == [] then Pivot([], [], [])
    else
      var n := |recs| - 1;
      Step(PivotOf(recs[..n], ft), n + 2, recs[n], ft)
  }

  /** Groups have distinct keys and every group has a contributing row. */
  predicate GroupsWellFormed(groups: seq<Group>) {
    (forall i | 0 <= i < |groups| :: groups[i].sourceRows != [])
    && (forall i, j | 0 <= i < j < |groups| ::
          !(groups[i].experimentId == groups[j].experimentId && groups[i].time == groups[j].time))
  }

  lemma AccumulateWellFormed(groups: seq<Group>, id: string, t: real, row: nat, field: string,
                             value: real, unit: Option<Value>)
    requires GroupsWellFormed(groups)
    ensures GroupsWellFormed(Accumulate(groups, id, t, row, field, value, unit))
  {
  }

  /** Every pivot keeps one group per key, each with its contributing rows. */
  lemma {:induction false} PivotWellFormed(recs: seq<Record>, ft: FloatText)
    ensures GroupsWellFormed(PivotOf(recs, ft).groups)
    decreases |recs|
  {
    if recs != [] {
      var n := |recs| - 1;
      PivotWellFormed(recs[..n], ft);
      StepWellFormed(PivotOf(recs[..n], ft), n + 2, recs[n], ft);
    }
  }

  lemma StepWellFormed(p: Pivot, row: nat, rec: Record, ft: FloatText)
    requires GroupsWellFormed(p.groups)
    ensures GroupsWellFormed(Step(p, row, rec, ft).groups)
  {
    var v := VerdictOf(row, rec, ft);
    if v.Accept? {
      AccumulateWellFormed(p.groups, v.experimentId, v.day, row, v.field, v.value, v.unit);
    }
  }

  /** Every input feedback reports an error. */
  lemma {:induction false} PivotFeedbacksAreErrors(recs: seq<Record>, ft: FloatText)
    ensures forall f | f in PivotOf(recs, ft).feedbacks :: f.status == Error && f.errors != []
    decreases |recs|
  {
    if recs != [] {
      PivotFeedbacksAreErrors(recs[..|recs| - 1], ft);
    }
  }

  // ---------------------------------------------------------------------------------------------
  // Last write wins
  // ---------------------------------------------------------------------------------------------

  /** The value the group for a key holds in a field, if any. */
  function FieldOf(groups: seq<Group>, id: string, t: real, f: string): Option<Value> {
    var i := IndexOfKey(groups, id, t);
    if i.Some? && f in groups[i.value].fields then Some(groups[i.value].fields[f]) else None
  }

  /** Whether an accepted row writes field `f`, and what it writes there. */
  predicate Writes(v: Verdict, f: string) {
    v.Accept? && (f == v.field || (v.unit.Some? && f == "h2_concentration_unit"))
  }

  function Written(v: Verdict, f: string): Value
    requires Writes(v, f)
  {
    if v.unit.Some? && f == "h2_concentration_unit" then v.unit.value else VNum(v.value)
  }

  /**
   * The independent reading of the pivot: the value of field `f` for a key is the one written by
   * the LAST accepted row with that key that writes `f`.
   */
  function LastWrite(recs: seq<Record>, id: string, t: real, f: string, ft: FloatText): Option<Value>
    decreases |recs|
  {
    if recs == [] then None
    else
      var n := |recs| - 1;
      var v := VerdictOf(n + 2, recs[n], ft);
      if v.Accept? && v.experimentId == id && v.day == t && Writes(v, f) then Some(Written(v, f))
      else LastWrite(recs[..n], id, t, f, ft)
  }

  lemma AccumulateFieldOf(groups: seq<Group>, v: Verdict, row: nat, id: string, t: real, f: string)
    requires v.Accept?
    ensures var g := Accumulate(groups, v.experimentId, v.day, row, v.field, v.value, v.unit);
      FieldOf(g, id, t, f)
        == if v.experimentId == id && v.day == t && Writes(v, f) then Some(Written(v, f))
           else FieldOf(groups, id, t, f)
  {
    var g := Accumulate(groups, v.experimentId, v.day, row, v.field, v.value, v.unit);
    var i := IndexOfKey(groups, v.experimentId, v.day);
    var k := IndexOfKey(groups, id, t);
    if i.None? {
      if v.experimentId == id && v.day == t {
        IndexOfKeyAt(g, id, t, |groups|);
      } else if k.Some? {
        IndexOfKeyAt(g, id, t, k.value);
      } else {
        IndexOfKeyAbsent(g, id, t);
      }
    } else {
      if k.Some? {
        IndexOfKeyAt(g, id, t, k.value);
      } else {
        IndexOfKeyAbsent(g, id, t);
      }
    }
  }

  /**
   * After the row loop, each (experiment, time, field) holds the value of the last valid row that
   * wrote it: a later row for the same key and metric overwrites an earlier one, and nothing else
   * ends up in the group.
   */
  lemma {:induction false} PivotLastWriteWins(recs: seq<Record>, id: string, t: real, f: string, ft: FloatText)
    ensures FieldOf(PivotOf(recs, ft).groups, id, t, f) == LastWrite(recs, id, t, f, ft)
    decreases |recs|
  {
    if recs != [] {
      var n := |recs| - 1;
      var p := PivotOf(recs[..n], ft);
      PivotLastWriteWins(recs[..n], id, t, f, ft);
      var v := VerdictOf(n + 2, recs[n], ft);
      if v.Accept? {
        AccumulateFieldOf(p.groups, v, n + 2, id, t, f);
      }
    }
  }

  // ---------------------------------------------------------------------------------------------
  // Upload
  // ---------------------------------------------------------------------------------------------

  /** A partial-update request for the scalar-results service. */
  datatype Request = Request(experimentId: string, data: Record)

  /** What an upload produces: its errors, its feedbacks, and the requests it sends. */
  datatype Outcome = Outcome(errors: seq<string>, feedbacks: seq<Feedback>, requests: seq<Request>)

  /** The records of the sheet's rows under the normalised headers. */
  function Records(columns: seq<string>, rows: seq<seq<Value>>): (r: seq<Record>)
    ensures |r| == |rows|
  {
    seq(|rows|, i requires 0 <= i < |rows| => RecordOf(Headers(columns), rows[i]))
  }

  /** The request for one group: its fields, its time, a day description and a partial update. */
  function RequestOf(g: Group, ft: FloatText): (r: Request)
    ensures r.experimentId == g.experimentId
    ensures Get(r.data, "_overwrite") == VBool(false)
    ensures Get(r.data, "time_post_reaction") == VNum(g.time)
    ensures Get(r.data, "description") == VText("Day " + ft(g.time) + " results")
    ensures forall k | k in g.fields && k !in {"_overwrite", "time_post_reaction", "description"} ::
      k in r.data && r.data[k] == g.fields[k]
  {
    Request(g.experimentId,
            g.fields["time_post_reaction" := VNum(g.time)]
                    ["description" := VText("Day " + ft(g.time) + " results")]
                    ["_overwrite" := VBool(false)])
  }

  /** The dry-run feedback for one group, from its first source row. */
  function DryRunFeedback(g: Group): Feedback
    requires g.sourceRows != []
  {
    Feedback(g.sourceRows[0], g.experimentId, Some(g.time), DryRun, g.fields.Keys, [])
  }

  function Requests(groups: seq<Group>, ft: FloatText): (r: seq<Request>)
    ensures |r| == |groups| && forall i | 0 <= i < |r| :: r[i] == RequestOf(groups[i], ft)
  {
    seq(|groups|, i requires 0 <= i < |groups| => RequestOf(groups[i], ft))
  }

  function DryRunFeedbacks(groups: seq<Group>): (r: seq<Feedback>)
    requires GroupsWellFormed(groups)
    ensures |r| == |groups| && forall i | 0 <= i < |r| :: r[i] == DryRunFeedback(groups[i])
  {
    seq(|groups|, i requires 0 <= i < |groups| => DryRunFeedback(groups[i]))
  }

  /**
   * The upload of a sheet with the given header and rows. The outcome of each request (created,
   * updated, skipped, or a service error) is the scalar-results service's, outside this model.
   */
  function Upload(columns: seq<string>, rows: seq<seq<Value>>, dryRun: bool, ft: FloatText): (o: Outcome)
    ensures MissingColumns(Headers(columns)) != [] ==>
      o == Outcome(["Missing columns: " + QuotedList(MissingColumns(Headers(columns)))], [], [])
    ensures dryRun ==> o.requests == []
    ensures forall r | r in o.requests :: Get(r.data, "_overwrite") == VBool(false)
  {
    var missing := MissingColumns(Headers(columns));
    if missing != [] then Outcome(["Missing columns: " + QuotedList(missing)], [], [])
    else
      var p := PivotOf(Records(columns, rows), ft);
      PivotWellFormed(Records(columns, rows), ft);
      if p.errors != [] && p.groups == [] then Outcome(p.errors, p.feedbacks, [])
      else if dryRun then Outcome(p.errors, p.feedbacks + DryRunFeedbacks(p.groups), [])
      else Outcome(p.errors, p.feedbacks, Requests(p.groups, ft))
  }

  /**
   * Without a request to send, an upload reports only its row errors; a dry run reports one
   * dry-run feedback per (experiment, time) group after the row errors; a real run sends one
   * request per group, and no two requests share an (experiment, time) key.
   */
  lemma UploadShape(columns: seq<string>, rows: seq<seq<Value>>, dryRun: bool, ft: FloatText)
    requires MissingColumns(Headers(columns)) == []
    ensures var p, o := PivotOf(Records(columns, rows), ft), Upload(columns, rows, dryRun, ft);
      o.errors == p.errors
      && (dryRun ==> (|o.feedbacks| == |p.feedbacks| + |p.groups|
            && forall i | |p.feedbacks| <= i < |o.feedbacks| :: o.feedbacks[i].status == DryRun))
      && (!dryRun ==> (|o.requests| == |p.groups|
            && forall i, j | 0 <= i < j < |o.requests| ::
                 !(o.requests[i].experimentId == o.requests[j].experimentId
                   && Get(o.requests[i].data, "time_post_reaction") == Get(o.requests[j].data, "time_post_reaction"))))
  {
    PivotWellFormed(Records(columns, rows), ft);
  }

  // ---------------------------------------------------------------------------------------------
  // The loops
  // ---------------------------------------------------------------------------------------------

  /** The row loop, accumulating errors, feedbacks and groups in place. */
  method PivotRows(recs: seq<Record>, ft: FloatText) returns (errors: seq<string>, feedbacks: seq<Feedback>,
                                                              groups: seq<Group>)
    ensures Pivot(errors, feedbacks, groups) == PivotOf(recs, ft)
  {
    errors, feedbacks, groups := [], [], [];
    var i := 0;
    while i < |recs|
      invariant 0 <= i <= |recs|
      invariant Pivot(errors, feedbacks, groups) == PivotOf(recs[..i], ft)
    {
      assert recs[..i + 1][..i] == recs[..i];
      var v := VerdictOf(i + 2, recs[i], ft);
      match v {
        case Skip =>
        case Reject(id, time, messages, rowErrors) =>
          errors := errors + messages;
          feedbacks := feedbacks + [Feedback(i + 2, id, time, Error, {}, rowErrors)];
        case Accept(id, t, field, value, unit) =>
          groups := Accumulate(groups, id, t, i + 2, field, value, unit);
      }
      i := i + 1;
    }
    assert recs[..i] == recs;
  }

  /** `long_format_upload_from_excel` on a sheet already read. */
  method UploadFromSheet(columns: seq<string>, rows: seq<seq<Value>>, dryRun: bool, ft: FloatText)
    returns (o: Outcome)
    ensures o == Upload(columns, rows, dryRun, ft)
  {
    var missing := MissingColumns(Headers(columns));
    if missing != [] {
      return Outcome(["Missing columns: " + QuotedList(missing)], [], []);
    }
    var recs := Records(columns, rows);
    var errors, feedbacks, groups := PivotRows(recs, ft);
    PivotWellFormed(recs, ft);
    if errors != [] && groups == [] {
      return Outcome(errors, feedbacks, []);
    }
    var groupFeedbacks, requests := UpsertGroups(groups, dryRun, ft);
    o := Outcome(errors, feedbacks + groupFeedbacks, requests);
  }

  /** The loop over the groups: a dry-run feedback for each, or a request for each. */
  method UpsertGroups(groups: seq<Group>, dryRun: bool, ft: FloatText)
    returns (feedbacks: seq<Feedback>, requests: seq<Request>)
    requires GroupsWellFormed(groups)
    ensures dryRun ==> feedbacks == DryRunFeedbacks(groups) && requests == []
    ensures !dryRun ==> feedbacks == [] && requests == Requests(groups, ft)
  {
    feedbacks, requests := [], [];
    var i := 0;
    while i < |groups|
      invariant 0 <= i <= |groups|
      invariant dryRun ==> requests == [] && feedbacks == DryRunFeedbacks(groups[..i])
      invariant !dryRun ==> feedbacks == [] && requests == Requests(groups[..i], ft)
    {
      if dryRun {
        feedbacks := feedbacks + [DryRunFeedback(groups[i])];
      } else {
        requests := requests + [RequestOf(groups[i], ft)];
      }
      i := i + 1;
    }
    assert groups[..i] == groups;
  }
}
