/**
 * The quick upload: a sheet laid out after one metric group's template. Each row is cleaned,
 * given the group's defaults, checked (required fields, time, date, the group's validations),
 * its numeric text coerced, and turned into a scalar-results payload.
 */
module QuickUpload {
  import opened Wrappers
  import opened PyStr
  import opened Values
  import opened MetricGroups

  type FloatText = real -> string

  /**
   * `pd.to_datetime(value, errors="coerce")` for a value that is not already a date: the
   * stamp of the parsed date, or None for NaT. pandas' date parsing is outside the model.
   */
  type DateParser = Value -> Option<string>

  // ---------------------------------------------------------------------------------------------
  // Headers
  // ---------------------------------------------------------------------------------------------

  function Trimmed(header: string): string {
    Strip(RemoveChars(header, {'*'}))
  }

  /** The field a trimmed English header names in a template, if any (the last one wins). */
  function FieldOfHeader(headers: seq<(string, string)>, col: string): (r: Option<string>)
    ensures r.Some? ==> r.value in TemplateFields(headers)
    decreases |headers|
  {
    if headers == [] then None
    else
      var n := |headers| - 1;
      if Trimmed(headers[n].1) == col then Some(headers[n].0) else FieldOfHeader(headers[..n], col)
  }

  /** A sheet column's name after trimming and `header_map.get(col, col)`. */
  function Rename(headers: seq<(string, string)>, c: string): string {
    var col := Trimmed(c);
    var f := FieldOfHeader(headers, col);
    if f.Some? then f.value else col
  }

  function Renamed(headers: seq<(string, string)>, columns: seq<string>): (r: seq<string>)
    ensures |r| == |columns| && forall i | 0 <= i < |r| :: r[i] == Rename(headers, columns[i])
  {
    seq(|columns|, i requires 0 <= i < |columns| => Rename(headers, columns[i]))
  }

  /** Every template header, as written in the template, names its own field. */
  lemma {:induction false} TemplateHeadersRename(headers: seq<(string, string)>, k: nat)
    requires k < |headers|
    requires forall j | k < j < |headers| :: Trimmed(headers[j].1) != Trimmed(headers[k].1)
    ensures Rename(headers, headers[k].1) == headers[k].0
    decreases |headers|
  {
    var n := |headers| - 1;
    if k < n {
      TemplateHeadersRename(headers[..n], k);
    }
  }

  // ---------------------------------------------------------------------------------------------
  // Cleaning and checks
  // ---------------------------------------------------------------------------------------------

  /** A cell the cleaning step drops: None, NaN, or text that is blank after trimming. */
  predicate Dropped(v: Value) {
    v.VNone? || IsBlankText(v)
  }

  /** The row without its empty cells, then with the group's defaults for absent fields. */
  function Cleaned(rec: Record, defaults: map<string, string>): (r: Record)
    ensures forall k | k in r :: !Dropped(r[k]) || (k in defaults && (k !in rec || Dropped(rec[k])))
    ensures forall k | k in rec && !Dropped(rec[k]) :: k in r && r[k] == rec[k]
    ensures forall k | k in defaults && (k !in rec || Dropped(rec[k])) :: k in r && r[k] == VText(defaults[k])
    ensures r.Keys <= rec.Keys + defaults.Keys
  {
    var kept := map k | k in rec && !Dropped(rec[k]) :: rec[k];
    map k | k in kept.Keys + defaults.Keys :: if k in kept then kept[k] else VText(defaults[k])
  }

  /** The errors of `_validate_field` for one value against one rule. */
  function ValidateField(field: string, value: Value, rule: Rule, ft: FloatText): (r: seq<string>)
    ensures rule.numeric && FloatOfValue(value).None? ==>
      r == ["'" + field + "' must be a number, got '" + StrOf(value, ft) + "'."]
    ensures r == [] <==> Passes(value, rule)
  {
    var numeric :=
      if !rule.numeric then []
      else
        var num := FloatOfValue(value);
        if num.None? then ["'" + field + "' must be a number, got '" + StrOf(value, ft) + "'."]
        else
          var x := num.value;
          (if rule.min.Some? && x < rule.min.value as real
           then ["'" + field + "' must be >= " + IntToString(rule.min.value) + ", got " + ft(x) + "."]
           else [])
          + (if rule.max.Some? && x > rule.max.value as real
             then ["'" + field + "' must be <= " + IntToString(rule.max.value) + ", got " + ft(x) + "."]
             else []);
    if rule.numeric && FloatOfValue(value).None? then numeric
    else
      numeric
      + (if rule.allowed.Some? && !(value.VText? && value.s in rule.allowed.value)
         then ["'" + field + "' must be one of " + QuotedList(rule.allowed.value) + ", got '"
               + StrOf(value, ft) + "'."]
         else [])
  }

  /** The independent statement of a rule: a number within bounds, and one of the allowed texts. */
  predicate Passes(value: Value, rule: Rule) {
    (rule.numeric ==>
       FloatOfValue(value).Some?
       && (rule.min.Some? ==> rule.min.value as real <= FloatOfValue(value).value)
       && (rule.max.Some? ==> FloatOfValue(value).value <= rule.max.value as real))
    && (rule.allowed.Some? ==> value.VText? && value.s in rule.allowed.value)
  }

  /** The errors of all the group's validations for the fields the row has, in declaration order. */
  function ValidationErrors(validations: seq<(string, Rule)>, clean: Record, ft: FloatText): (r: seq<string>)
    ensures r == [] <==> forall i | 0 <= i < |validations| && validations[i].0 in clean ::
      Passes(clean[validations[i].0], validations[i].1)
    decreases |validations|
  {
    if validations == [] then []
    else
      var (field, rule) := validations[0];
      var here := if field in clean then ValidateField(field, clean[field], rule, ft) else [];
      assert forall i | 1 <= i < |validations| :: validations[i] == validations[1..][i - 1];
      here + ValidationErrors(validations[1..], clean, ft)
  }

  /** `_parse_measurement_date`: a date is kept; anything else goes through the parser. */
  function DateOf(v: Value, toDatetime: DateParser): Option<Value> {
    if v.VNone? then None
    else if v.VDate? then Some(v)
    else
      var d := toDatetime(v);
      if d.Some? then Some(VDate(d.value)) else None
  }

  /** The fields the numeric coercion leaves alone. */
  const TextFields: set<string> :=
    {"experiment_id", "description", "measurement_date", "h2_concentration_unit",
     "background_experiment_id", "time_post_reaction"}

  /** Text that `float()` accepts becomes a number; anything else is kept as it is. */
  function Coerced(v: Value): (r: Value)
    ensures r == v || (v.VText? && r.VNum? && FloatOfValue(v) == Some(r.x))
  {
    if v.VText? && FloatOfValue(v).Some? then VNum(FloatOfValue(v).value) else v
  }

  function CoerceNumerics(clean: Record): (r: Record)
    ensures r.Keys == clean.Keys
    ensures forall k | k in r :: r[k] == if k in TextFields then clean[k] else Coerced(clean[k])
  {
    map k | k in clean :: if k in TextFields then clean[k] else Coerced(clean[k])
  }

  // ---------------------------------------------------------------------------------------------
  // Rows
  // ---------------------------------------------------------------------------------------------

  datatype Status = Error | Pending | DryRun

  /** A row's feedback entry. */
  datatype Feedback = Feedback(row: nat, experimentId: string, time: Option<real>, status: Status,
                               fieldsUpdated: set<string>, errors: seq<string>)

  /** A rejected row (its feedback and its messages for the error list), or a payload to upsert. */
  datatype RowVerdict =
    | Bad(feedback: Feedback, messages: seq<string>)
    | Good(row: nat, experimentId: string, time: real, data: Record)

  function RowLabel(row: nat): string {
    "Row " + NatToString(row) + ": "
  }

  /** The required fields the cleaned row lacks, in sorted order. */
  function MissingFields(required: seq<string>, clean: Record): (r: seq<string>)
    ensures forall f :: f in r <==> f in required && f !in clean
  {
    if required == [] then []
    else (if required[0] in clean then [] else [required[0]]) + MissingFields(required[1..], clean)
  }

  /** A single-message rejection. */
  function Rejected(row: nat, id: string, time: Option<real>, message: string): RowVerdict {
    Bad(Feedback(row, id, time, Error, {}, [message]), [RowLabel(row) + message])
  }

  /** The first checks of a row: a rejection, or the row with its time (and date) converted. */
  datatype Stage = Stop(verdict: RowVerdict) | Go(timed: Record, time: real)

  /** The required-field, time and measurement-date checks on a cleaned row. */
  function Prepare(group: MetricGroup, row: nat, id: string, clean: Record, ft: FloatText,
                   toDatetime: DateParser): (s: Stage)
    ensures s.Stop? ==> (s.verdict.Bad? && s.verdict.feedback.status == Error
      && |s.verdict.messages| == |s.verdict.feedback.errors| > 0)
    ensures s.Go? ==> ("time_post_reaction" in clean && s.timed.Keys == clean.Keys
      && (forall f | f in group.required :: f in clean)
      && s.timed["time_post_reaction"] == VNum(s.time)
      && FloatOfValue(clean["time_post_reaction"]) == Some(s.time)
      && forall k | k in clean && k !in {"time_post_reaction", "measurement_date"} :: s.timed[k] == clean[k])
  {
    var missing := MissingFields(group.required, clean);
    if missing != [] then
      Stop(Rejected(row, id, None, "Missing required field(s): " + Joined(missing, ", ") + "."))
    else
      var timeRaw := Get(clean, "time_post_reaction");
      var time := FloatOfValue(timeRaw);
      if time.None? then
        Stop(Rejected(row, id, None, "'Time (days)' must be a number, got '" + StrOf(timeRaw, ft) + "'."))
      else
        var date := if "measurement_date" in clean then DateOf(clean["measurement_date"], toDatetime) else None;
        if "measurement_date" in clean && date.None? then
          Stop(Rejected(row, id, time, "Invalid measurement_date (expected date/datetime)."))
        else
          var dated := if date.Some? then clean["measurement_date" := date.value] else clean;
          Go(dated["time_post_reaction" := VNum(time.value)], time.value)
  }

  /** The payload of a valid row: numbers coerced, a day description if none, the overwrite flag. */
  function Payload(timed: Record, t: real, overwriteAll: bool, ft: FloatText): (r: Record)
    ensures r.Keys == timed.Keys + {"description", "_overwrite"}
    ensures r["_overwrite"] == VBool(overwriteAll) && Truthy(r["description"])
    ensures "time_post_reaction" in timed ==> r["time_post_reaction"] == timed["time_post_reaction"]
    ensures forall k | k in timed && k !in {"description", "_overwrite"} ::
      r[k] == if k in TextFields then timed[k] else Coerced(timed[k])
  {
    var coerced := CoerceNumerics(timed);
    var described :=
      if Truthy(Get(coerced, "description")) then coerced
      else coerced["description" := VText("Day " + ft(t) + " results")];
    described["_overwrite" := VBool(overwriteAll)]
  }

  /** The group's validations, then the payload. */
  function Finish(group: MetricGroup, row: nat, id: string, timed: Record, t: real, overwriteAll: bool,
                  ft: FloatText): (v: RowVerdict)
    ensures v.Good? <==> ValidationErrors(group.validations, timed, ft) == []
    ensures v.Good? ==> v.data == Payload(timed, t, overwriteAll, ft)
    ensures v.Bad? ==> v.feedback.status == Error && |v.messages| == |v.feedback.errors| > 0
  {
    var errors := ValidationErrors(group.validations, timed, ft);
    if errors != [] then
      Bad(Feedback(row, id, Some(t), Error, {}, errors),
          seq(|errors|, i requires 0 <= i < |errors| => RowLabel(row) + errors[i]))
    else Good(row, id, t, Payload(timed, t, overwriteAll, ft))
  }

  /** The feedback's experiment ID: `str(clean.get("experiment_id", ""))`. */
  function IdOf(clean: Record, ft: FloatText): string {
    if "experiment_id" in clean then StrOf(clean["experiment_id"], ft) else ""
  }

  /** The verdict on spreadsheet row `row` of a sheet for `group`. */
  function VerdictOf(group: MetricGroup, row: nat, rec: Record, overwriteAll: bool, ft: FloatText,
                     toDatetime: DateParser): (v: RowVerdict)
    ensures v.Bad? ==> v.feedback.status == Error && |v.messages| == |v.feedback.errors| > 0
    ensures v.Good? ==> Get(v.data, "_overwrite") == VBool(overwriteAll)
  {
    var clean := Cleaned(rec, group.defaults);
    var stage := Prepare(group, row, IdOf(clean, ft), clean, ft, toDatetime);
    if stage.Stop? then stage.verdict
    else Finish(group, row, IdOf(clean, ft), stage.timed, stage.time, overwriteAll, ft)
  }

  /**
   * An accepted row has every required field, a numeric time, a description and the upload's
   * overwrite flag, and passes every validation of its group, checked on the cleaned values
   * before their numeric coercion.
   */
  lemma GoodRows(group: MetricGroup, row: nat, rec: Record, overwriteAll: bool, ft: FloatText,
                 toDatetime: DateParser)
    requires VerdictOf(group, row, rec, overwriteAll, ft, toDatetime).Good?
    ensures var d, clean := VerdictOf(group, row, rec, overwriteAll, ft, toDatetime).data, Cleaned(rec, group.defaults);
      (forall f | f in group.required :: f in d)
      && d["_overwrite"] == VBool(overwriteAll) && Truthy(d["description"])
      && d["time_post_reaction"] == VNum(FloatOfValue(clean["time_post_reaction"]).value)
      && forall i | 0 <= i < |group.validations| && group.validations[i].0 in clean
                 && group.validations[i].0 !in {"measurement_date", "time_post_reaction"} ::
           Passes(clean[group.validations[i].0], group.validations[i].1)
  {
    var clean := Cleaned(rec, group.defaults);
    var stage := Prepare(group, row, IdOf(clean, ft), clean, ft, toDatetime);
    var timed := stage.timed;
    forall i | 0 <= i < |group.validations| && group.validations[i].0 in clean
               && group.validations[i].0 !in {"measurement_date", "time_post_reaction"}
      ensures Passes(clean[group.validations[i].0], group.validations[i].1)
    {
      assert timed[group.validations[i].0] == clean[group.validations[i].0];
    }
  }

  /**
   * The hydrogen group always sends a unit: the sheet's own when the cell has text, "ppm" when
   * the cell is empty or the column is absent; and an accepted row's unit is one of the allowed.
   */
  lemma HydrogenUnitDefaulted(row: nat, rec: Record, overwriteAll: bool, ft: FloatText, toDatetime: DateParser)
    requires VerdictOf(GroupOf("hydrogen").value, row, rec, overwriteAll, ft, toDatetime).Good?
    ensures var d := VerdictOf(GroupOf("hydrogen").value, row, rec, overwriteAll, ft, toDatetime).data;
      "h2_concentration_unit" in d
      && d["h2_concentration_unit"].VText? && d["h2_concentration_unit"].s in ["ppm", "%"]
      && (("h2_concentration_unit" !in rec || Dropped(rec["h2_concentration_unit"]))
            ==> d["h2_concentration_unit"] == VText("ppm"))
  {
    var group := GroupOf("hydrogen").value;
    HydrogenUnitRule();
    DefaultedChoice(group, row, rec, overwriteAll, ft, toDatetime, "h2_concentration_unit", 1);
  }

  /** The hydrogen group defaults its unit to "ppm" and allows "ppm" and "%" only. */
  lemma HydrogenUnitRule()
    ensures GroupOf("hydrogen").Some?
    ensures var group := GroupOf("hydrogen").value;
      && group.defaults == map["h2_concentration_unit" := "ppm"]
      && 1 < |group.validations|
      && group.validations[1] == ("h2_concentration_unit", Rule(false, None, None, Some(["ppm", "%"])))
  {
  }

  /**
   * A text field with a default and a list of allowed values: an accepted row sends one of the
   * allowed values, and the default when the sheet's cell is empty or absent.
   */
  lemma DefaultedChoice(group: MetricGroup, row: nat, rec: Record, overwriteAll: bool, ft: FloatText,
                        toDatetime: DateParser, f: string, i: nat)
    requires VerdictOf(group, row, rec, overwriteAll, ft, toDatetime).Good?
    requires f in TextFields && f !in {"time_post_reaction", "measurement_date", "description", "_overwrite"}
    requires f in group.defaults
    requires i < |group.validations| && group.validations[i].0 == f && group.validations[i].1.allowed.Some?
    ensures var d := VerdictOf(group, row, rec, overwriteAll, ft, toDatetime).data;
      f in d && d[f].VText? && d[f].s in group.validations[i].1.allowed.value
      && ((f !in rec || Dropped(rec[f])) ==> d[f] == VText(group.defaults[f]))
  {
    var clean := Cleaned(rec, group.defaults);
    assert f in clean;
    GoodTextKept(group, row, rec, overwriteAll, ft, toDatetime, f);
    assert Passes(clean[f], group.validations[i].1) by {
      GoodRows(group, row, rec, overwriteAll, ft, toDatetime);
    }
  }

  /** An accepted row sends a text field other than the time, date and description as the cleaned row had it. */
  lemma GoodTextKept(group: MetricGroup, row: nat, rec: Record, overwriteAll: bool, ft: FloatText,
                     toDatetime: DateParser, f: string)
    requires VerdictOf(group, row, rec, overwriteAll, ft, toDatetime).Good?
    requires f in Cleaned(rec, group.defaults) && f in TextFields
    requires f !in {"time_post_reaction", "measurement_date", "description", "_overwrite"}
    ensures var d := VerdictOf(group, row, rec, overwriteAll, ft, toDatetime).data;
      f in d && d[f] == Cleaned(rec, group.defaults)[f]
  {
    var clean := Cleaned(rec, group.defaults);
    var stage := Prepare(group, row, IdOf(clean, ft), clean, ft, toDatetime);
    assert stage.timed[f] == clean[f];
  }

  // ---------------------------------------------------------------------------------------------
  // Upload
  // ---------------------------------------------------------------------------------------------

  /** The row loop's state: parse errors, error feedbacks, and the accepted rows in order. */
  datatype Parsed = Parsed(errors: seq<string>, feedbacks: seq<Feedback>, accepted: seq<RowVerdict>)

  function ParseStep(p: Parsed, v: RowVerdict): Parsed {
    match v
    case Bad(fb, messages) => Parsed(p.errors + messages, p.feedbacks + [fb], p.accepted)
    case Good(_, _, _, _) => Parsed(p.errors, p.feedbacks, p.accepted + [v])
  }

  /** The row loop over the records; record `i` is spreadsheet row `i + 2`. */
  function ParseRows(group: MetricGroup, recs: seq<Record>, overwriteAll: bool, ft: FloatText,
                     toDatetime: DateParser): (p: Parsed)
    ensures forall v | v in p.accepted :: v.Good? && Get(v.data, "_overwrite") == VBool(overwriteAll)
    ensures |p.accepted| + |p.feedbacks| <= |recs|
    decreases |recs|
  {
    if recs == [] then Parsed([], [], [])
    else
      var n := |recs| - 1;
      ParseStep(ParseRows(group, recs[..n], overwriteAll, ft, toDatetime),
                VerdictOf(group, n + 2, recs[n], overwriteAll, ft, toDatetime))
  }

  /** Every row is either rejected with feedback or accepted: no row is lost. */
  lemma {:induction false} ParseRowsAccountsForEveryRow(group: MetricGroup, recs: seq<Record>, overwriteAll: bool,
                                                        ft: FloatText, toDatetime: DateParser)
    ensures var p := ParseRows(group, recs, overwriteAll, ft, toDatetime);
      |p.accepted| + |p.feedbacks| == |recs|
      && (p.errors == [] <==> p.feedbacks == [])
    decreases |recs|
  {
    if recs != [] {
      ParseRowsAccountsForEveryRow(group, recs[..|recs| - 1], overwriteAll, ft, toDatetime);
    }
  }

  /** A payload for the scalar-results service: the experiment ID popped from the row's data. */
  datatype Request = Request(experimentId: Value, data: Record)

  function RequestOf(v: RowVerdict): (r: Request)
    requires v.Good?
    ensures "experiment_id" !in r.data
    ensures forall k | k in v.data && k != "experiment_id" :: k in r.data && r.data[k] == v.data[k]
  {
    Request(Get(v.data, "experiment_id"), map k | k in v.data && k != "experiment_id" :: v.data[k])
  }

  /** The dry-run feedback: the fields other than bookkeeping ones. */
  function DryRunFeedback(v: RowVerdict): Feedback
    requires v.Good?
  {
    Feedback(v.row, v.experimentId, Some(v.time), DryRun,
             v.data.Keys - {"experiment_id", "time_post_reaction", "description", "_overwrite", "measurement_date"},
             [])
  }

  datatype Outcome = Outcome(errors: seq<string>, feedbacks: seq<Feedback>, requests: seq<Request>)

  /** `quick_upload_from_excel` for a known group, on a sheet already read. */
  function UploadWith(group: MetricGroup, columns: seq<string>, rows: seq<seq<Value>>, overwriteAll: bool,
                      dryRun: bool, ft: FloatText, toDatetime: DateParser): (o: Outcome)
    ensures dryRun ==> o.requests == []
    ensures forall r | r in o.requests :: Get(r.data, "_overwrite") == VBool(overwriteAll)
  {
    var p := ParseRows(group, SheetRecords(group, columns, rows), overwriteAll, ft, toDatetime);
    if dryRun then
      Outcome(p.errors, p.feedbacks + seq(|p.accepted|, i requires 0 <= i < |p.accepted| =>
                DryRunFeedback(p.accepted[i])), [])
    else
      Outcome(p.errors, p.feedbacks, Requests(p.accepted))
  }

  /** The service requests of the accepted rows, in order; each keeps the row's overwrite flag. */
  function Requests(accepted: seq<RowVerdict>): (r: seq<Request>)
    requires forall v | v in accepted :: v.Good?
    ensures |r| == |accepted|
    ensures forall i | 0 <= i < |r| ::
      r[i] == RequestOf(accepted[i]) && Get(r[i].data, "_overwrite") == Get(accepted[i].data, "_overwrite")
  {
    seq(|accepted|, i requires 0 <= i < |accepted| => RequestOf(accepted[i]))
  }

  /** The sheet's rows as records under the renamed headers. */
  function SheetRecords(group: MetricGroup, columns: seq<string>, rows: seq<seq<Value>>): (r: seq<Record>)
    ensures |r| == |rows|
    ensures forall i | 0 <= i < |r| :: r[i] == RecordOf(Renamed(group.headers, columns), rows[i])
  {
    seq(|rows|, i requires 0 <= i < |rows| => RecordOf(Renamed(group.headers, columns), rows[i]))
  }

  /**
   * `quick_upload_from_excel` on a sheet already read. Without a dry run the requests go to the
   * scalar-results service in order; what it reports back is its own.
   */
  function Upload(groupKey: string, columns: seq<string>, rows: seq<seq<Value>>, overwriteAll: bool,
                  dryRun: bool, ft: FloatText, toDatetime: DateParser): (o: Outcome)
    ensures GroupOf(groupKey).None? ==> o == Outcome(["Unknown metric group: " + groupKey], [], [])
    ensures GroupOf(groupKey).Some? ==>
      o == UploadWith(GroupOf(groupKey).value, columns, rows, overwriteAll, dryRun, ft, toDatetime)
  {
    var group := GroupOf(groupKey);
    if group.None? then Outcome(["Unknown metric group: " + groupKey], [], [])
    else UploadWith(group.value, columns, rows, overwriteAll, dryRun, ft, toDatetime)
  }

  /**
   * A sheet whose headers are all the group's own template headers can only send the group's
   * template fields (plus the overwrite flag): uploading one group leaves the fields of the others
   * alone.
   */
  lemma TemplateSheetsStayInGroup(group: MetricGroup, columns: seq<string>, rows: seq<seq<Value>>,
                                  overwriteAll: bool, ft: FloatText, toDatetime: DateParser)
    requires SelfContained(group)
    requires forall c | c in columns :: Rename(group.headers, c) in TemplateFields(group.headers)
    ensures forall r | r in UploadWith(group, columns, rows, overwriteAll, false, ft, toDatetime).requests ::
      r.data.Keys <= TemplateFields(group.headers) + {"_overwrite"}
  {
    var recs := SheetRecords(group, columns, rows);
    var names := Renamed(group.headers, columns);
    forall i | 0 <= i < |recs|
      ensures recs[i].Keys <= TemplateFields(group.headers)
    {
      assert forall k | k in recs[i] :: k in names;
    }
    AcceptedStayInTemplate(group, recs, overwriteAll, ft, toDatetime);
  }

  /** A group whose defaults, time and description are all among its template's fields. */
  predicate SelfContained(group: MetricGroup) {
    group.defaults.Keys <= TemplateFields(group.headers)
    && "time_post_reaction" in TemplateFields(group.headers) && "description" in TemplateFields(group.headers)
  }

  /** All three quick-upload groups are self-contained. */
  lemma GroupsSelfContained(key: string)
    requires GroupOf(key).Some?
    ensures SelfContained(GroupOf(key).value)
  {
    var g := GroupOf(key).value;
    assert g.headers[1].0 == "time_post_reaction";
    assert g.headers[|g.headers| - 1].0 == "description";
    if key == "hydrogen" {
      assert g.headers[3].0 == "h2_concentration_unit";
    }
  }

  lemma {:induction false} AcceptedStayInTemplate(group: MetricGroup, recs: seq<Record>, overwriteAll: bool,
                                                  ft: FloatText, toDatetime: DateParser)
    requires forall i | 0 <= i < |recs| :: recs[i].Keys <= TemplateFields(group.headers)
    requires SelfContained(group)
    ensures forall v | v in ParseRows(group, recs, overwriteAll, ft, toDatetime).accepted ::
      v.data.Keys <= TemplateFields(group.headers) + {"_overwrite"}
    decreases |recs|
  {
    if recs != [] {
      var n := |recs| - 1;
      AcceptedStayInTemplate(group, recs[..n], overwriteAll, ft, toDatetime);
      VerdictStaysInTemplate(group, n + 2, recs[n], overwriteAll, ft, toDatetime);
    }
  }

  /** An accepted row of a record within the template sends only template fields and the overwrite flag. */
  lemma VerdictStaysInTemplate(group: MetricGroup, row: nat, rec: Record, overwriteAll: bool, ft: FloatText,
                               toDatetime: DateParser)
    requires rec.Keys <= TemplateFields(group.headers)
    requires SelfContained(group)
    ensures var v := VerdictOf(group, row, rec, overwriteAll, ft, toDatetime);
      v.Good? ==> v.data.Keys <= TemplateFields(group.headers) + {"_overwrite"}
  {
  }

  /** The row loop over one more record is one more step. */
  lemma ParseRowsStep(group: MetricGroup, recs: seq<Record>, i: nat, overwriteAll: bool, ft: FloatText,
                      toDatetime: DateParser)
    requires i < |recs|
    ensures ParseRows(group, recs[..i + 1], overwriteAll, ft, toDatetime)
      == ParseStep(ParseRows(group, recs[..i], overwriteAll, ft, toDatetime),
                   VerdictOf(group, i + 2, recs[i], overwriteAll, ft, toDatetime))
  {
    assert recs[..i + 1][..i] == recs[..i];
  }

  // ---------------------------------------------------------------------------------------------
  // The loop
  // ---------------------------------------------------------------------------------------------

  /** The row loop, appending to the error, feedback and accepted lists in place. */
  method ParseSheetRows(group: MetricGroup, recs: seq<Record>, overwriteAll: bool, ft: FloatText,
                        toDatetime: DateParser)
    returns (errors: seq<string>, feedbacks: seq<Feedback>, accepted: seq<RowVerdict>)
    ensures Parsed(errors, feedbacks, accepted) == ParseRows(group, recs, overwriteAll, ft, toDatetime)
  {
    errors, feedbacks, accepted := [], [], [];
    var i := 0;
    while i < |recs|
      invariant 0 <= i <= |recs|
      invariant Parsed(errors, feedbacks, accepted) == ParseRows(group, recs[..i], overwriteAll, ft, toDatetime)
    {
      var v := VerdictOf(group, i + 2, recs[i], overwriteAll, ft, toDatetime);
      ParseRowsStep(group, recs, i, overwriteAll, ft, toDatetime);
      if v.Bad? {
        errors := errors + v.messages;
        feedbacks := feedbacks + [v.feedback];
      } else {
        accepted := accepted + [v];
      }
      i := i + 1;
    }
    assert recs[..i] == recs;
  }
}
