/**
 * The new-experiments workbook upload: an `experiments` sheet that creates experiments (numbered
 * consecutively) or, when a row asks to overwrite, updates the fields it supplies, and an
 * `additives` sheet whose rows are grouped by experiment and either replace an experiment's
 * additives or are upserted one compound at a time.
 *
 * One defect of the source is recorded here and corrected in the definitions the rest of the
 * model uses: an empty experiment-ID cell reaches the blank-row test as pandas' NaN, which is
 * truthy and prints as "nan", so the row is not skipped (`IdTextAsWritten`); the corrected
 * reading (`IdText`) treats the empty cell as blank.
 *
 * The additives are seen through the database session: the first `flushed` of them have been
 * written, the rest wait for the next flush (creating a compound or a conditions record flushes).
 * A query sees only written rows unless the session autoflushes. The application's session does
 * not, so a second row for the same compound in one upsert group adds a second additive
 * (`RepeatedCompoundAddedTwiceAsWritten`); under autoflush each (conditions, compound) pair keeps
 * one additive (`UpsertRowsKeepPairsUnique`).
 */
module NewExperiments {
  import opened Wrappers
  import opened PyStr
  import opened PyNum
  import opened Enums
  import opened Values
  import ExperimentValidation
  import Lineage

  /** Python's `str()` of a float. */
  type FloatText = real -> string

  /** `pd.to_datetime(value, errors='coerce')`; `None` stands for NaT. */
  type DateParser = Value -> Option<string>

  // ---------------------------------------------------------------------------------------------
  // Cell helpers
  // ---------------------------------------------------------------------------------------------

  /** `parse_status`: the status whose name or value equals the trimmed text, ignoring case. */
  function ParseStatus(v: Value, ft: FloatText): (r: Option<ExperimentStatus>)
    ensures v.VNone? ==> r.None?
    ensures r.Some? ==> Lower(Strip(StrOf(v, ft))) == Lower(StatusValue(r.value))
    ensures r.None? && !v.VNone? ==>
      forall s: ExperimentStatus :: Lower(Strip(StrOf(v, ft))) != Lower(StatusValue(s))
  {
    if v.VNone? then None
    else
      var text := Lower(Strip(StrOf(v, ft)));
      if text == Lower(StatusValue(Ongoing)) then Some(Ongoing)
      else if text == Lower(StatusValue(Completed)) then Some(Completed)
      else if text == Lower(StatusValue(Cancelled)) then Some(Cancelled)
      else None
  }

  /** Every status is recognised by its own value, whatever the case and surrounding spaces. */
  lemma ParseStatusReadsValue(s: ExperimentStatus, text: string, ft: FloatText)
    requires Lower(Strip(text)) == Lower(StatusValue(s))
    ensures ParseStatus(VText(text), ft) == Some(s)
  {
    assert Lower(StatusValue(Ongoing)) == "ongoing";
    assert Lower(StatusValue(Completed)) == "completed";
    assert Lower(StatusValue(Cancelled)) == "cancelled";
  }

  const TrueWords: set<string> := {"1", "true", "yes", "y"}

  /** `parse_bool`: a boolean as it is, a missing cell false, otherwise one of the true words. */
  function ParseBool(v: Value, ft: FloatText): (r: bool)
    ensures v.VBool? ==> r == v.b
    ensures v.VNone? ==> !r
    ensures !v.VBool? && !v.VNone? ==> (r <==> Lower(Strip(StrOf(v, ft))) in TrueWords)
  {
    match v
    case VBool(b) => b
    case VNone => false
    case _ => Lower(Strip(StrOf(v, ft))) in TrueWords
  }

  /**
   * `str(value or '').strip()`: a falsy cell is the empty text. An empty cell is read as blank
   * (see `IdTextAsWritten` for what pandas actually delivers).
   */
  function IdText(v: Value, ft: FloatText): (r: string)
    ensures IsStripped(r)
    ensures !Truthy(v) ==> r == ""
  {
    if Truthy(v) then StripProps(StrOf(v, ft)); Strip(StrOf(v, ft)) else ""
  }

  /**
   * As written: an empty cell is pandas' NaN, which is truthy, so `str(value or '')` is
   * "nan".
   */
  function IdTextAsWritten(v: Value, ft: FloatText): (r: string)
    ensures !v.VNone? ==> r == IdText(v, ft)
  {
    if v.VNone? then "nan" else IdText(v, ft)
  }

  /** A row whose experiment-ID cell is empty is not skipped as written: its ID is "nan". */
  lemma BlankIdNotSkippedAsWritten(ft: FloatText)
    ensures IdTextAsWritten(VNone, ft) == "nan" && IdTextAsWritten(VNone, ft) != ""
    ensures IdText(VNone, ft) == ""
  {
  }

  /** A non-empty trimmed text cell, as `sample_id` and `researcher` are read. */
  function TextField(v: Value): (r: Option<string>)
    ensures r.Some? <==> v.VText? && Strip(v.s) != ""
    ensures r.Some? ==> r.value == Strip(v.s)
  {
    if v.VText? && Strip(v.s) != "" then Some(Strip(v.s)) else None
  }

  /** `str(value).strip()` of a present cell when it is not empty, as notes and methods are read. */
  function NonBlank(v: Value, ft: FloatText): (r: Option<string>)
    ensures r.Some? <==> !v.VNone? && Strip(StrOf(v, ft)) != ""
    ensures r.Some? ==> r.value == Strip(StrOf(v, ft))
  {
    if !v.VNone? && Strip(StrOf(v, ft)) != "" then Some(Strip(StrOf(v, ft))) else None
  }

  /** A header as the sheets normalise it: asterisks removed, trimmed, lower-cased. */
  function ColumnKey(c: string): string {
    Lower(Strip(RemoveChars(c, {'*'})))
  }

  // ---------------------------------------------------------------------------------------------
  // Tables
  // ---------------------------------------------------------------------------------------------

  datatype Experiment = Experiment(
    id: int, number: Option<int>, experimentId: string, sampleId: Option<string>,
    researcher: Option<string>, status: Option<ExperimentStatus>, date: Option<string>)

  datatype Note = Note(experimentFk: int, experimentId: string, text: string)

  datatype ConditionsRow = ConditionsRow(id: int, experimentFk: int, experimentId: string)

  datatype Compound = Compound(id: int, name: string)

  /** A `ChemicalAdditive`: its conditions record, compound, amount, unit, order and method. */
  datatype Additive = Additive(
    conditionsId: int, compoundId: int, amount: real, unit: AmountUnit,
    order: Option<int>, additionMethod: Option<string>)

  datatype Db = Db(
    experiments: seq<Experiment>, notes: seq<Note>, conditions: seq<ConditionsRow>,
    compounds: seq<Compound>, additives: seq<Additive>)

  function ExperimentIds(exps: seq<Experiment>): (r: seq<int>)
    ensures |r| == |exps| && forall i | 0 <= i < |exps| :: r[i] == exps[i].id
  {
    seq(|exps|, i requires 0 <= i < |exps| => exps[i].id)
  }

  // ---------------------------------------------------------------------------------------------
  // Experiment numbers
  // ---------------------------------------------------------------------------------------------

  /** The largest experiment number in use, if any experiment has one. */
  function MaxNumber(exps: seq<Experiment>): (r: Option<int>)
    ensures r.Some? ==> exists i | 0 <= i < |exps| :: exps[i].number == r
    ensures forall i | 0 <= i < |exps| && exps[i].number.Some? :: r.Some? && exps[i].number.value <= r.value
    decreases |exps|
  {
    if exps == [] then None
    else
      var rest := MaxNumber(exps[1..]);
      assert forall i | 1 <= i < |exps| :: exps[i] == exps[1..][i - 1];
      if exps[0].number.None? then rest
      else if rest.Some? && rest.value > exps[0].number.value then rest
      else exps[0].number
  }

  /**
   * The number of the next created experiment: one above the number of the experiment ordered
   * first by descending number (SQLite orders nulls last), a missing or zero number counting as
   * 0, so 1 for an empty table.
   */
  function NextNumber(exps: seq<Experiment>): (r: int)
    ensures r >= 1 || (MaxNumber(exps).Some? && MaxNumber(exps).value < 0)
    ensures forall i | 0 <= i < |exps| && exps[i].number.Some? && exps[i].number.value != 0 ::
      exps[i].number.value < r
    ensures exps == [] ==> r == 1
  {
    match MaxNumber(exps)
    case None => 1
    case Some(n) => n + 1
  }

  // ---------------------------------------------------------------------------------------------
  // The experiments sheet
  // ---------------------------------------------------------------------------------------------

  /** The counters and lists that outlive a row of the experiments sheet. */
  datatype Tally = Tally(
    next: int, overwrite: map<string, bool>, created: nat, updated: nat, skipped: nat,
    errors: seq<string>, warnings: seq<string>)

  datatype State = State(db: Db, tally: Tally)

  /** The values a row supplies, each `None` when the row leaves it out. */
  datatype Fields = Fields(
    sampleId: Option<string>, researcher: Option<string>, status: Option<ExperimentStatus>,
    date: Option<string>, note: Option<string>)

  /**
   * The fields of a row: texts trimmed, the researcher taken from the ID's initials when the
   * row gives none, the status parsed, the date parsed unless the cell is empty.
   */
  function FieldsOf(rec: Record, id: string, ft: FloatText, toDatetime: DateParser): (f: Fields)
    ensures TextField(Get(rec, "researcher")).Some? ==> f.researcher == TextField(Get(rec, "researcher"))
    ensures Get(rec, "date").VNone? ==> f.date.None?
  {
    var initials := ExperimentValidation.ParseExperimentId(Some(id)).researcherInitials;
    var researcher := TextField(Get(rec, "researcher"));
    Fields(
      TextField(Get(rec, "sample_id")),
      if researcher.None? && initials.Some? && initials.value != "" then initials else researcher,
      ParseStatus(Get(rec, "status"), ft),
      if Get(rec, "date").VNone? then None else toDatetime(Get(rec, "date")),
      NonBlank(Get(rec, "initial_note"), ft))
  }

  /** A new experiment: the next number, status ONGOING unless the row names one. */
  function Created(id: int, number: int, experimentId: string, f: Fields): (e: Experiment)
    ensures e.status.Some? && (f.status.Some? ==> e.status == f.status)
    ensures f.status.None? ==> e.status == Some(Ongoing)
  {
    Experiment(id, Some(number), experimentId, f.sampleId, f.researcher,
               Some(if f.status.Some? then f.status.value else Ongoing), f.date)
  }

  /** An overwritten experiment: each of the four fields changes only when the row supplies it. */
  function Updated(e: Experiment, f: Fields): (r: Experiment)
    ensures r.id == e.id && r.number == e.number && r.experimentId == e.experimentId
    ensures r.sampleId == (if f.sampleId.Some? then f.sampleId else e.sampleId)
    ensures r.researcher == (if f.researcher.Some? then f.researcher else e.researcher)
    ensures r.status == (if f.status.Some? then f.status else e.status)
    ensures r.date == (if f.date.Some? then f.date else e.date)
  {
    e.(sampleId := if f.sampleId.Some? then f.sampleId else e.sampleId,
       researcher := if f.researcher.Some? then f.researcher else e.researcher,
       status := if f.status.Some? then f.status else e.status,
       date := if f.date.Some? then f.date else e.date)
  }

  /** An overwrite that supplies nothing leaves the experiment as it is. */
  lemma UpdatedWithNothing(e: Experiment, note: Option<string>)
    ensures Updated(e, Fields(None, None, None, None, note)) == e
  {
  }

  /** The first experiment whose ID matches ignoring case, hyphens, underscores and spaces. */
  function FindByKey(exps: seq<Experiment>, key: string): (r: Option<nat>)
    ensures r.Some? ==> r.value < |exps| && Lineage.DbKey(exps[r.value].experimentId) == key
    ensures r.Some? ==> forall j | 0 <= j < r.value :: Lineage.DbKey(exps[j].experimentId) != key
    ensures r.None? ==> forall j | 0 <= j < |exps| :: Lineage.DbKey(exps[j].experimentId) != key
    decreases |exps|
  {
    if exps == [] then None
    else if Lineage.DbKey(exps[0].experimentId) == key then Some(0)
    else
      var rest := FindByKey(exps[1..], key);
      if rest.Some? then Some(rest.value + 1) else None
  }

  function RowLabel(row: nat): string {
    "[experiments] Row " + NatToString(row)
  }

  /** The warnings of an ID's validation, each labelled with the row and the ID. */
  function Labelled(row: nat, id: string, ws: seq<string>): (r: seq<string>)
    ensures |r| == |ws| && forall i | 0 <= i < |ws| :: r[i] == RowLabel(row) + " (" + id + "): " + ws[i]
  {
    seq(|ws|, i requires 0 <= i < |ws| => RowLabel(row) + " (" + id + "): " + ws[i])
  }

  function MissingMessage(row: nat, id: string): string {
    RowLabel(row) + ": overwrite=True but experiment_id '" + id + "' does not exist"
  }

  function ExistsMessage(row: nat, id: string): string {
    RowLabel(row) + ": experiment_id '" + id + "' already exists; set overwrite=True to update"
  }

  /** The note a row adds to the experiment it created or updated. */
  function WithNote(notes: seq<Note>, e: Experiment, note: Option<string>): (r: seq<Note>)
    ensures note.None? ==> r == notes
    ensures note.Some? ==> r == notes + [Note(e.id, e.experimentId, note.value)]
  {
    if note.Some? then notes + [Note(e.id, e.experimentId, note.value)] else notes
  }

  /** The write of a row that passed the overwrite checks: a creation or an update. */
  function Apply(st: State, found: Option<nat>, id: string, f: Fields): (r: State)
    requires found.Some? ==> found.value < |st.db.experiments|
    ensures r.tally == (if found.None? then st.tally.(next := st.tally.next + 1, created := st.tally.created + 1)
                        else st.tally.(updated := st.tally.updated + 1))
    ensures r.db.conditions == st.db.conditions && r.db.compounds == st.db.compounds
      && r.db.additives == st.db.additives
    ensures found.None? ==>
      r.db.experiments == st.db.experiments + [Created(Fresh(ExperimentIds(st.db.experiments)), st.tally.next, id, f)]
    ensures found.Some? ==> r.db.experiments == st.db.experiments[found.value := Updated(st.db.experiments[found.value], f)]
  {
    var exps := st.db.experiments;
    if found.None? then
      var e := Created(Fresh(ExperimentIds(exps)), st.tally.next, id, f);
      State(st.db.(experiments := exps + [e], notes := WithNote(st.db.notes, e, f.note)),
            st.tally.(next := st.tally.next + 1, created := st.tally.created + 1))
    else
      var e := Updated(exps[found.value], f);
      State(st.db.(experiments := exps[found.value := e], notes := WithNote(st.db.notes, e, f.note)),
            st.tally.(updated := st.tally.updated + 1))
  }

  /**
   * One row of the experiments sheet (sheet row `row`): a blank ID is skipped; otherwise the
   * ID's warnings are collected and its overwrite flag recorded, and then an overwrite of a
   * missing experiment or a plain row for an existing one is an error, and anything else
   * creates or updates the experiment.
   */
  function ExperimentRow(st: State, row: nat, rec: Record, ft: FloatText, toDatetime: DateParser): (r: State)
  {
    var id := IdText(Get(rec, "experiment_id"), ft);
    if id == "" then st.(tally := st.tally.(skipped := st.tally.skipped + 1))
    else
      var flag := ParseBool(Get(rec, "overwrite"), ft);
      var ws := ExperimentValidation.ValidateExperimentId(Some(id)).1;
      var t := st.tally.(overwrite := st.tally.overwrite[id := flag], warnings := st.tally.warnings + Labelled(row, id, ws));
      var found := FindByKey(st.db.experiments, Lineage.LookupKey(id));
      if found.None? && flag then State(st.db, t.(errors := t.errors + [MissingMessage(row, id)]))
      else if found.Some? && !flag then State(st.db, t.(errors := t.errors + [ExistsMessage(row, id)]))
      else Apply(State(st.db, t), found, id, FieldsOf(rec, id, ft, toDatetime))
  }

  /** The experiments sheet over its first rows, sheet row `i + 2` for the row at index `i`. */
  function ExperimentRows(st: State, rows: seq<Record>, ft: FloatText, toDatetime: DateParser): (r: State)
    decreases |rows|
  {
    if rows == [] then st
    else
      var n := |rows| - 1;
      ExperimentRow(ExperimentRows(st, rows[..n], ft, toDatetime), n + 2, rows[n], ft, toDatetime)
  }

  /**
   * What a row of the experiments sheet does: a blank ID only counts a skip; otherwise the
   * overwrite flag is recorded under the ID's text, and the two refused cases each add their one
   * error and leave the tables and counters as they were, while an accepted row creates an
   * experiment (at the end, with the next number) or updates the matched one in place.
   */
  lemma ExperimentRowOutcomes(st: State, row: nat, rec: Record, ft: FloatText, toDatetime: DateParser)
    ensures var r := ExperimentRow(st, row, rec, ft, toDatetime);
      var id := IdText(Get(rec, "experiment_id"), ft);
      var flag := ParseBool(Get(rec, "overwrite"), ft);
      var found := FindByKey(st.db.experiments, Lineage.LookupKey(id));
      && (id == "" ==> r == st.(tally := st.tally.(skipped := st.tally.skipped + 1)))
      && (id != "" ==>
            && r.tally.overwrite == st.tally.overwrite[id := flag]
            && r.tally.skipped == st.tally.skipped
            && (found.None? && flag ==>
                  r.db == st.db && r.tally.errors == st.tally.errors + [MissingMessage(row, id)]
                  && r.tally.created == st.tally.created && r.tally.updated == st.tally.updated
                  && r.tally.next == st.tally.next)
            && (found.Some? && !flag ==>
                  r.db == st.db && r.tally.errors == st.tally.errors + [ExistsMessage(row, id)]
                  && r.tally.created == st.tally.created && r.tally.updated == st.tally.updated
                  && r.tally.next == st.tally.next)
            && (found.None? && !flag ==>
                  r.tally.errors == st.tally.errors && r.tally.created == st.tally.created + 1
                  && r.db.experiments == st.db.experiments
                     + [Created(Fresh(ExperimentIds(st.db.experiments)), st.tally.next, id, FieldsOf(rec, id, ft, toDatetime))])
            && (found.Some? && flag ==>
                  r.tally.errors == st.tally.errors && r.tally.updated == st.tally.updated + 1
                  && r.db.experiments == st.db.experiments[found.value :=
                       Updated(st.db.experiments[found.value], FieldsOf(rec, id, ft, toDatetime))]))
  {
    var id := IdText(Get(rec, "experiment_id"), ft);
    if id != "" {
      var flag := ParseBool(Get(rec, "overwrite"), ft);
      var ws := ExperimentValidation.ValidateExperimentId(Some(id)).1;
      var t := st.tally.(overwrite := st.tally.overwrite[id := flag], warnings := st.tally.warnings + Labelled(row, id, ws));
      var found := FindByKey(st.db.experiments, Lineage.LookupKey(id));
      var r := ExperimentRow(st, row, rec, ft, toDatetime);
      if found.None? && flag {
        assert r == State(st.db, t.(errors := t.errors + [MissingMessage(row, id)]));
      } else if found.Some? && !flag {
        assert r == State(st.db, t.(errors := t.errors + [ExistsMessage(row, id)]));
      } else {
        assert r == Apply(State(st.db, t), found, id, FieldsOf(rec, id, ft, toDatetime));
      }
    }
  }

  /** The experiments `b` has beyond `a`: created in order, numbered from `a`'s next number. */
  predicate NumberedFrom(a: State, b: State) {
    && a.tally.created <= b.tally.created
    && var k := b.tally.created - a.tally.created;
    && |b.db.experiments| == |a.db.experiments| + k
    && b.tally.next == a.tally.next + k
    && forall i | |a.db.experiments| <= i < |b.db.experiments| ::
         b.db.experiments[i].number == Some(a.tally.next + (i - |a.db.experiments|))
  }

  /** A row either creates one experiment with the next number, or keeps every number. */
  lemma ExperimentRowNumbers(st: State, row: nat, rec: Record, ft: FloatText, toDatetime: DateParser)
    ensures var r := ExperimentRow(st, row, rec, ft, toDatetime);
      || (r.tally.created == st.tally.created + 1 && r.tally.next == st.tally.next + 1
          && |r.db.experiments| == |st.db.experiments| + 1
          && r.db.experiments[..|st.db.experiments|] == st.db.experiments
          && r.db.experiments[|st.db.experiments|].number == Some(st.tally.next))
      || (r.tally.created == st.tally.created && r.tally.next == st.tally.next
          && |r.db.experiments| == |st.db.experiments|
          && forall i | 0 <= i < |st.db.experiments| :: r.db.experiments[i].number == st.db.experiments[i].number)
  {
    ExperimentRowOutcomes(st, row, rec, ft, toDatetime);
  }

  /**
   * The experiments a sheet creates are appended in row order with consecutive numbers starting
   * at the next number, and the next number ends one above the last of them; an overwrite
   * never renumbers.
   */
  lemma {:induction false} ExperimentRowsNumbered(st: State, rows: seq<Record>, ft: FloatText, toDatetime: DateParser)
    ensures NumberedFrom(st, ExperimentRows(st, rows, ft, toDatetime))
    decreases |rows|
  {
    if rows != [] {
      var n := |rows| - 1;
      var mid := ExperimentRows(st, rows[..n], ft, toDatetime);
      ExperimentRowsNumbered(st, rows[..n], ft, toDatetime);
      ExperimentRowNumbers(mid, n + 2, rows[n], ft, toDatetime);
      var r := ExperimentRow(mid, n + 2, rows[n], ft, toDatetime);
      NumberedStep(st, mid, r);
    }
  }

  /** One row's effect on the numbering extends `NumberedFrom`. */
  lemma NumberedStep(st: State, mid: State, r: State)
    requires NumberedFrom(st, mid)
    requires
      || (r.tally.created == mid.tally.created + 1 && r.tally.next == mid.tally.next + 1
          && |r.db.experiments| == |mid.db.experiments| + 1
          && r.db.experiments[..|mid.db.experiments|] == mid.db.experiments
          && r.db.experiments[|mid.db.experiments|].number == Some(mid.tally.next))
      || (r.tally.created == mid.tally.created && r.tally.next == mid.tally.next
          && |r.db.experiments| == |mid.db.experiments|
          && forall i | 0 <= i < |mid.db.experiments| :: r.db.experiments[i].number == mid.db.experiments[i].number)
    ensures NumberedFrom(st, r)
  {
    if r.tally.created == mid.tally.created + 1 {
      forall i | |st.db.experiments| <= i < |r.db.experiments|
        ensures r.db.experiments[i].number == Some(st.tally.next + (i - |st.db.experiments|))
      {
        if i < |mid.db.experiments| {
          assert r.db.experiments[i] == mid.db.experiments[i];
        }
      }
    }
  }

  /** Rows with blank IDs only count skips. */
  lemma {:induction false} BlankRowsSkipped(st: State, rows: seq<Record>, ft: FloatText, toDatetime: DateParser)
    requires forall i | 0 <= i < |rows| :: IdText(Get(rows[i], "experiment_id"), ft) == ""
    ensures ExperimentRows(st, rows, ft, toDatetime) == st.(tally := st.tally.(skipped := st.tally.skipped + |rows|))
    decreases |rows|
  {
    if rows != [] {
      BlankRowsSkipped(st, rows[..|rows| - 1], ft, toDatetime);
    }
  }

  // ---------------------------------------------------------------------------------------------
  // The additives sheet: row rules
  // ---------------------------------------------------------------------------------------------

  /** The unit whose stored text is exactly the given text, the first in declaration order. */
  function UnitOf(text: string): (r: Option<AmountUnit>)
    ensures r.Some? ==> UnitValue(r.value) == text
    ensures r.None? ==> forall u: AmountUnit :: UnitValue(u) != text
  {
    AllUnitsListed();
    UnitAmong(AllUnits, text)
  }

  /** The declaration-order list holds every unit. */
  lemma AllUnitsListed()
    ensures forall u: AmountUnit :: u in AllUnits
  {
    forall u: AmountUnit ensures u in AllUnits {
      match u
      case Gram => assert AllUnits[0] == u;
      case Milligram => assert AllUnits[1] == u;
      case Microgram => assert AllUnits[2] == u;
      case Kilogram => assert AllUnits[3] == u;
      case Microliter => assert AllUnits[4] == u;
      case Milliliter => assert AllUnits[5] == u;
      case Liter => assert AllUnits[6] == u;
      case Micromole => assert AllUnits[7] == u;
      case Millimole => assert AllUnits[8] == u;
      case Mole => assert AllUnits[9] == u;
      case Ppm => assert AllUnits[10] == u;
      case Millimolar => assert AllUnits[11] == u;
      case Molar => assert AllUnits[12] == u;
    }
  }

  function UnitAmong(units: seq<AmountUnit>, text: string): (r: Option<AmountUnit>)
    ensures r.Some? ==> r.value in units && UnitValue(r.value) == text
    ensures r.None? ==> forall u | u in units :: UnitValue(u) != text
    decreases |units|
  {
    if units == [] then None
    else if UnitValue(units[0]) == text then Some(units[0])
    else UnitAmong(units[1..], text)
  }

  /** Distinct units are stored as distinct texts, so each unit is read back from its text. */
  lemma UnitOfValue(u: AmountUnit)
    ensures UnitOf(UnitValue(u)) == Some(u)
  {
    var r := UnitOf(UnitValue(u));
    assert UnitValue(r.value) == UnitValue(u);
    UnitValueInjective(r.value, u);
  }

  lemma UnitValueInjective(a: AmountUnit, b: AmountUnit)
    requires UnitValue(a) == UnitValue(b)
    ensures a == b
  {
  }

  /** `int(order)` when the cell is not empty; `None` where `int()` raises. */
  function OrderOf(v: Value, ft: FloatText): (r: Option<int>)
    ensures v.VNone? ==> r.None?
    ensures v.VNum? && Strip(StrOf(v, ft)) != "" ==> r == Some(TruncReal(v.x))
    ensures v.VText? && r.Some? ==> r == ParseInt(v.s)
  {
    if v.VNone? || Strip(StrOf(v, ft)) == "" then None
    else
      match v
      case VNum(x) => Some(TruncReal(x))
      case VBool(b) => Some(if b then 1 else 0)
      case VText(t) => ParseInt(t)
      case _ => None
  }

  /** The label of an additives-sheet error. */
  function AddLabel(row: nat): string {
    "[additives] Row " + NatToString(row) + ": "
  }

  /** What a row of the additives sheet asks for, or why it is refused. */
  datatype Request =
    | Blank
    | Refused(message: string)
    | Wanted(compound: string, amount: real, unit: AmountUnit, order: Option<int>, additionMethod: Option<string>)

  /**
   * The checks of an additives row, in the source's order: a blank compound is skipped; the
   * amount must be a number and positive; the unit must be one of the unit texts exactly.
   */
  function RequestOf(row: nat, rec: Record, ft: FloatText): (r: Request)
    ensures r.Blank? <==> IdText(Get(rec, "compound"), ft) == ""
    ensures r.Wanted? ==> (r.compound == IdText(Get(rec, "compound"), ft) && r.compound != ""
      && FloatOfValue(Get(rec, "amount")) == Some(r.amount) && r.amount > 0.0
      && UnitValue(r.unit) == IdText(Get(rec, "unit"), ft))
    ensures r.Refused? && FloatOfValue(Get(rec, "amount")).Some? && FloatOfValue(Get(rec, "amount")).value > 0.0 ==>
      (r.message == AddLabel(row) + "invalid unit '" + IdText(Get(rec, "unit"), ft) + "'"
       && UnitOf(IdText(Get(rec, "unit"), ft)).None?)
  {
    var name := IdText(Get(rec, "compound"), ft);
    var amount := FloatOfValue(Get(rec, "amount"));
    var unitText := IdText(Get(rec, "unit"), ft);
    if name == "" then Blank
    else if amount.None? then Refused(AddLabel(row) + "invalid amount '" + StrOf(Get(rec, "amount"), ft) + "'")
    else if amount.value <= 0.0 then Refused(AddLabel(row) + "amount must be > 0")
    else match UnitOf(unitText)
      case None => Refused(AddLabel(row) + "invalid unit '" + unitText + "'")
      case Some(u) =>
        Wanted(name, amount.value, u, OrderOf(Get(rec, "order"), ft), NonBlank(Get(rec, "method"), ft))
  }

  // ---------------------------------------------------------------------------------------------
  // The additives sheet: writes
  // ---------------------------------------------------------------------------------------------

  /** `{c.name.lower(): c}` over the compounds: of two with the same lower-cased name, the later. */
  function NameMap(compounds: seq<Compound>): (m: map<string, int>)
    ensures forall k | k in m :: exists i | 0 <= i < |compounds| :: compounds[i].id == m[k]
    decreases |compounds|
  {
    if compounds == [] then map[]
    else
      var n := |compounds| - 1;
      var m := NameMap(compounds[..n]);
      assert forall i | 0 <= i < n :: compounds[..n][i] == compounds[i];
      m[Lower(compounds[n].name) := compounds[n].id]
  }

  /** The compound of a name, looked up ignoring case, or created and remembered. */
  function Resolve(compounds: seq<Compound>, names: map<string, int>, name: string)
    : (r: (seq<Compound>, map<string, int>, int))
    ensures Lower(name) in r.1 && r.1[Lower(name)] == r.2
    ensures Lower(name) in names ==> r == (compounds, names, names[Lower(name)])
    ensures Lower(name) !in names ==>
      r.0 == compounds + [Compound(Fresh(CompoundIds(compounds)), name)] && r.2 == Fresh(CompoundIds(compounds))
      && r.1 == names[Lower(name) := r.2]
  {
    if Lower(name) in names then (compounds, names, names[Lower(name)])
    else
      var id := Fresh(CompoundIds(compounds));
      (compounds + [Compound(id, name)], names[Lower(name) := id], id)
  }

  function CompoundIds(compounds: seq<Compound>): (r: seq<int>)
    ensures |r| == |compounds| && forall i | 0 <= i < |compounds| :: r[i] == compounds[i].id
  {
    seq(|compounds|, i requires 0 <= i < |compounds| => compounds[i].id)
  }

  /** The first additive of a conditions record for a compound. */
  function FindAdditive(adds: seq<Additive>, conditionsId: int, compoundId: int): (r: Option<nat>)
    ensures r.Some? ==> (r.value < |adds| && adds[r.value].conditionsId == conditionsId
      && adds[r.value].compoundId == compoundId)
    ensures r.Some? ==> forall j | 0 <= j < r.value ::
      !(adds[j].conditionsId == conditionsId && adds[j].compoundId == compoundId)
    ensures r.None? ==> forall j | 0 <= j < |adds| ::
      !(adds[j].conditionsId == conditionsId && adds[j].compoundId == compoundId)
    decreases |adds|
  {
    if adds == [] then None
    else if adds[0].conditionsId == conditionsId && adds[0].compoundId == compoundId then Some(0)
    else
      var rest := FindAdditive(adds[1..], conditionsId, compoundId);
      if rest.Some? then Some(rest.value + 1) else None
  }

  /** The per-compound upsert: the existing additive of the pair overwritten, or a new one added. */
  function Upserted(adds: seq<Additive>, a: Additive): (r: seq<Additive>)
    ensures a in r
    ensures FindAdditive(adds, a.conditionsId, a.compoundId).None? ==> r == adds + [a]
    ensures FindAdditive(adds, a.conditionsId, a.compoundId).Some? ==>
      r == adds[FindAdditive(adds, a.conditionsId, a.compoundId).value := a]
  {
    match FindAdditive(adds, a.conditionsId, a.compoundId)
    case None => adds + [a]
    case Some(j) => assert adds[j := a][j] == a; adds[j := a]
  }

  /** No conditions record holds two additives of the same compound. */
  predicate PairsUnique(adds: seq<Additive>) {
    forall i, j | 0 <= i < j < |adds| ::
      !(adds[i].conditionsId == adds[j].conditionsId && adds[i].compoundId == adds[j].compoundId)
  }

  /** The upsert keeps each (conditions, compound) pair to one additive. */
  lemma UpsertedKeepsPairsUnique(adds: seq<Additive>, a: Additive)
    requires PairsUnique(adds)
    ensures PairsUnique(Upserted(adds, a))
  {
  }

  /**
   * The counters, errors and compound index the additives sheet carries, with the session's
   * view of the additives: the first `flushed` are in the database, the rest are pending until
   * the next flush. A query flushes first only when the session autoflushes.
   */
  datatype AddState = AddState(db: Db, names: map<string, int>, skipped: nat, errors: seq<string>,
                               flushed: nat, autoflush: bool)

  /** `db.flush()`: every pending additive is written. */
  function Flush(st: AddState): (r: AddState)
    ensures r.flushed == |st.db.additives| && r.db == st.db && r.autoflush == st.autoflush
  {
    st.(flushed := |st.db.additives|)
  }

  /** The session before a query: flushed under autoflush, as it is otherwise. */
  function BeforeQuery(st: AddState): (r: AddState)
    ensures r.db == st.db && r.autoflush == st.autoflush
    ensures st.autoflush ==> r.flushed == |st.db.additives|
    ensures !st.autoflush ==> r == st
  {
    if st.autoflush then Flush(st) else st
  }

  /** The additives a query returns: the flushed ones. */
  function Stored(st: AddState): (r: seq<Additive>)
    ensures |r| <= |st.db.additives| && r == st.db.additives[..|r|]
    ensures st.flushed >= |st.db.additives| ==> r == st.db.additives
  {
    if st.flushed <= |st.db.additives| then st.db.additives[..st.flushed] else st.db.additives
  }

  /**
   * One additives row for conditions record `conditionsId`: a blank compound counts a skip, a
   * refused row adds its error, and a wanted row stores an additive of the resolved compound
   * (a new compound is flushed at once), appended in replace mode; otherwise the stored
   * additive of the pair is overwritten, or a new one added when the query finds none.
   */
  function AdditiveRow(st: AddState, row: nat, rec: Record, conditionsId: int, replaceAll: bool, ft: FloatText)
    : (r: AddState)
    ensures r.db.experiments == st.db.experiments && r.db.notes == st.db.notes
      && r.db.conditions == st.db.conditions && r.autoflush == st.autoflush
    ensures forall i | 0 <= i < |r.db.additives| :: r.db.additives[i] in st.db.additives || r.db.additives[i].amount > 0.0
  {
    match RequestOf(row, rec, ft)
    case Blank => st.(skipped := st.skipped + 1)
    case Refused(m) => st.(errors := st.errors + [m])
    case Wanted(name, amount, unit, order, additionMethod) =>
      var (compounds, names, compoundId) := Resolve(st.db.compounds, st.names, name);
      var resolved := if Lower(name) in st.names then st else Flush(st);
      var a := Additive(conditionsId, compoundId, amount, unit, order, additionMethod);
      var q := if replaceAll then resolved else BeforeQuery(resolved);
      var found := if replaceAll then None else FindAdditive(Stored(q), conditionsId, compoundId);
      var adds := if found.Some? then q.db.additives[found.value := a] else q.db.additives + [a];
      q.(db := q.db.(compounds := compounds, additives := adds), names := names)
  }

  /** A group's rows, each reported as sheet row `index + 2`. */
  function AdditiveRows(st: AddState, rows: seq<Record>, idxs: seq<nat>, conditionsId: int, replaceAll: bool,
                        ft: FloatText): (r: AddState)
    requires forall t | 0 <= t < |idxs| :: idxs[t] < |rows|
    ensures r.db.experiments == st.db.experiments && r.db.notes == st.db.notes
      && r.db.conditions == st.db.conditions && r.autoflush == st.autoflush
    decreases |idxs|
  {
    if idxs == [] then st
    else
      var n := |idxs| - 1;
      var mid := AdditiveRows(st, rows, idxs[..n], conditionsId, replaceAll, ft);
      AdditiveRow(mid, idxs[n] + 2, rows[idxs[n]], conditionsId, replaceAll, ft)
  }

  /** A group's rows over one more index are one more row. */
  lemma AdditiveRowsStep(st: AddState, rows: seq<Record>, idxs: seq<nat>, t: nat, conditionsId: int, replaceAll: bool,
                         ft: FloatText, mid: AddState, r: AddState)
    requires forall u | 0 <= u < |idxs| :: idxs[u] < |rows|
    requires t < |idxs|
    requires mid == AdditiveRows(st, rows, idxs[..t], conditionsId, replaceAll, ft)
    requires r == AdditiveRow(mid, idxs[t] + 2, rows[idxs[t]], conditionsId, replaceAll, ft)
    ensures r == AdditiveRows(st, rows, idxs[..t + 1], conditionsId, replaceAll, ft)
  {
    assert idxs[..t + 1][..t] == idxs[..t];
  }

  /** The conditions record of an experiment, created when it has none. */
  function ConditionsFor(conds: seq<ConditionsRow>, e: Experiment): (r: (seq<ConditionsRow>, int))
    ensures exists i | 0 <= i < |r.0| :: r.0[i].id == r.1 && r.0[i].experimentFk == e.id
    ensures |r.0| == |conds| || r.0 == conds + [ConditionsRow(r.1, e.id, e.experimentId)]
    ensures r.0[..|conds|] == conds
  {
    var found := FirstConditions(conds, e.id);
    if found.Some? then (conds, conds[found.value].id)
    else
      var id := Fresh(ConditionsIds(conds));
      var r := conds + [ConditionsRow(id, e.id, e.experimentId)];
      assert r[|conds|].id == id;
      (r, id)
  }

  function FirstConditions(conds: seq<ConditionsRow>, experimentFk: int): (r: Option<nat>)
    ensures r.Some? ==> r.value < |conds| && conds[r.value].experimentFk == experimentFk
    ensures r.None? ==> forall j | 0 <= j < |conds| :: conds[j].experimentFk != experimentFk
    decreases |conds|
  {
    if conds == [] then None
    else if conds[0].experimentFk == experimentFk then Some(0)
    else
      var rest := FirstConditions(conds[1..], experimentFk);
      if rest.Some? then Some(rest.value + 1) else None
  }

  function ConditionsIds(conds: seq<ConditionsRow>): (r: seq<int>)
    ensures |r| == |conds| && forall i | 0 <= i < |conds| :: r[i] == conds[i].id
  {
    seq(|conds|, i requires 0 <= i < |conds| => conds[i].id)
  }

  /** The additives not of a conditions record: what a replace leaves before its rows run. */
  function Without(adds: seq<Additive>, conditionsId: int): (r: seq<Additive>)
    ensures forall a :: a in r <==> a in adds && a.conditionsId != conditionsId
    decreases |adds|
  {
    if adds == [] then []
    else
      assert forall a :: a in adds <==> a == adds[0] || a in adds[1..];
      (if adds[0].conditionsId == conditionsId then [] else [adds[0]]) + Without(adds[1..], conditionsId)
  }

  /** The grouping key of a row: `str(experiment_id).strip()`, "nan" for an empty cell. */
  function KeyOf(rec: Record, ft: FloatText): string {
    var v := Get(rec, "experiment_id");
    if v.VNone? then "nan" else Strip(StrOf(v, ft))
  }

  /** The indices of the rows of a group, ascending. */
  function GroupIndices(rows: seq<Record>, key: string, ft: FloatText): (r: seq<nat>)
    ensures forall t | 0 <= t < |r| :: r[t] < |rows| && KeyOf(rows[r[t]], ft) == key
    ensures forall i | 0 <= i < |rows| && KeyOf(rows[i], ft) == key :: i in r
    ensures forall a, b | 0 <= a < b < |r| :: r[a] < r[b]
    decreases |rows|
  {
    if rows == [] then []
    else
      var n := |rows| - 1;
      var r := GroupIndices(rows[..n], key, ft);
      assert forall i | 0 <= i < n :: rows[..n][i] == rows[i];
      if KeyOf(rows[n], ft) == key then r + [n] else r
  }

  function GroupNotFound(key: string): string {
    "[additives] experiment_id '" + key + "' not found"
  }

  /**
   * One group of the additives sheet: an empty key is passed over; an unknown experiment adds
   * one error; otherwise the experiment's conditions record is found or created (and flushed),
   * the stored additives of that record are all deleted when the experiments sheet asked to
   * overwrite this exact ID, and the group's rows run in sheet order. The group's queries see
   * the session as it is after `BeforeQuery`.
   */
  function AdditiveGroup(st: AddState, rows: seq<Record>, key: string, overwrite: map<string, bool>, ft: FloatText)
    : (r: AddState)
    ensures r.db.experiments == st.db.experiments && r.db.notes == st.db.notes && r.autoflush == st.autoflush
  {
    if key == "" then st
    else
      var q := BeforeQuery(st);
      match FindByKey(q.db.experiments, Lineage.LookupKey(key))
      case None => q.(errors := q.errors + [GroupNotFound(key)])
      case Some(j) =>
        var start := GroupStart(q, j, key in overwrite && overwrite[key]);
        AdditiveRows(start.0, rows, GroupIndices(rows, key, ft), start.1, key in overwrite && overwrite[key], ft)
  }

  /**
   * The session before a group's rows run, and its conditions record: the record of experiment
   * `j` found or created and flushed; in replace mode the stored additives of the record
   * deleted, the pending ones left as they are.
   */
  function GroupStart(q: AddState, j: nat, replaceAll: bool): (r: (AddState, int))
    requires j < |q.db.experiments|
    ensures r.0.db.experiments == q.db.experiments && r.0.db.notes == q.db.notes
      && r.0.autoflush == q.autoflush && r.0.errors == q.errors
    ensures (r.0.db.conditions, r.1) == ConditionsFor(q.db.conditions, q.db.experiments[j])
    ensures !replaceAll ==> r.0.db.additives == q.db.additives
  {
    var (conds, c) := ConditionsFor(q.db.conditions, q.db.experiments[j]);
    var w := q.(db := q.db.(conditions := conds));
    var f := if |conds| == |q.db.conditions| then w else Flush(w);
    if replaceAll then
      var kept := Without(Stored(f), c);
      (f.(db := f.db.(additives := kept + f.db.additives[|Stored(f)|..]), flushed := |kept|), c)
    else (f, c)
  }

  /** The groups over the first keys, in the given (sorted) key order. */
  function AdditiveGroups(st: AddState, rows: seq<Record>, keys: seq<string>, overwrite: map<string, bool>,
                          ft: FloatText): (r: AddState)
    decreases |keys|
  {
    if keys == [] then st
    else
      var n := |keys| - 1;
      AdditiveGroup(AdditiveGroups(st, rows, keys[..n], overwrite, ft), rows, keys[n], overwrite, ft)
  }

  /** The sheet over one more key is one more group. */
  lemma AdditiveGroupsStep(st: AddState, rows: seq<Record>, keys: seq<string>, k: nat, overwrite: map<string, bool>,
                           ft: FloatText)
    requires k < |keys|
    ensures AdditiveGroups(st, rows, keys[..k + 1], overwrite, ft)
      == AdditiveGroup(AdditiveGroups(st, rows, keys[..k], overwrite, ft), rows, keys[k], overwrite, ft)
  {
    assert keys[..k + 1][..k] == keys[..k];
  }

  // ---------------------------------------------------------------------------------------------
  // Properties of the additives sheet
  // ---------------------------------------------------------------------------------------------

  predicate AmountsPositive(adds: seq<Additive>) {
    forall i | 0 <= i < |adds| :: adds[i].amount > 0.0
  }

  /** Every stored additive written by a row has a positive amount. */
  lemma {:induction false} AdditiveRowsKeepAmountsPositive(st: AddState, rows: seq<Record>, idxs: seq<nat>,
                                                           conditionsId: int, replaceAll: bool, ft: FloatText)
    requires forall t | 0 <= t < |idxs| :: idxs[t] < |rows|
    requires AmountsPositive(st.db.additives)
    ensures AmountsPositive(AdditiveRows(st, rows, idxs, conditionsId, replaceAll, ft).db.additives)
    decreases |idxs|
  {
    if idxs != [] {
      var n := |idxs| - 1;
      AdditiveRowsKeepAmountsPositive(st, rows, idxs[..n], conditionsId, replaceAll, ft);
      var mid := AdditiveRows(st, rows, idxs[..n], conditionsId, replaceAll, ft);
      AdditiveRowKeepsAmountsPositive(mid, idxs[n] + 2, rows[idxs[n]], conditionsId, replaceAll, ft);
    }
  }

  lemma AdditiveRowKeepsAmountsPositive(st: AddState, row: nat, rec: Record, conditionsId: int, replaceAll: bool,
                                        ft: FloatText)
    requires AmountsPositive(st.db.additives)
    ensures AmountsPositive(AdditiveRow(st, row, rec, conditionsId, replaceAll, ft).db.additives)
  {
    var r := AdditiveRow(st, row, rec, conditionsId, replaceAll, ft).db.additives;
    assert forall i | 0 <= i < |r| :: r[i] in st.db.additives || r[i].amount > 0.0;
  }

  /** In replace mode a group's rows only append additives, all of its conditions record. */
  lemma {:induction false} ReplaceRowsAppend(st: AddState, rows: seq<Record>, idxs: seq<nat>, conditionsId: int,
                                             ft: FloatText)
    requires forall t | 0 <= t < |idxs| :: idxs[t] < |rows|
    ensures var r := AdditiveRows(st, rows, idxs, conditionsId, true, ft).db.additives;
      && |st.db.additives| <= |r| && r[..|st.db.additives|] == st.db.additives
      && forall i | |st.db.additives| <= i < |r| :: r[i].conditionsId == conditionsId
    decreases |idxs|
  {
    if idxs != [] {
      var n := |idxs| - 1;
      ReplaceRowsAppend(st, rows, idxs[..n], conditionsId, ft);
      var mid := AdditiveRows(st, rows, idxs[..n], conditionsId, true, ft);
      ReplaceRowAppends(mid, idxs[n] + 2, rows[idxs[n]], conditionsId, ft);
      var r := AdditiveRows(st, rows, idxs, conditionsId, true, ft).db.additives;
      assert r == AdditiveRow(mid, idxs[n] + 2, rows[idxs[n]], conditionsId, true, ft).db.additives;
      assert r[..|st.db.additives|] == r[..|mid.db.additives|][..|st.db.additives|];
    }
  }

  /** In replace mode one row appends at most one additive, of the group's conditions record. */
  lemma ReplaceRowAppends(mid: AddState, row: nat, rec: Record, conditionsId: int, ft: FloatText)
    ensures var r := AdditiveRow(mid, row, rec, conditionsId, true, ft).db.additives;
      && |mid.db.additives| <= |r| && r[..|mid.db.additives|] == mid.db.additives
      && forall i | |mid.db.additives| <= i < |r| :: r[i].conditionsId == conditionsId
  {
    match RequestOf(row, rec, ft)
    case Wanted(name, amount, unit, order, additionMethod) =>
      var compoundId := Resolve(mid.db.compounds, mid.names, name).2;
      var a := Additive(conditionsId, compoundId, amount, unit, order, additionMethod);
      var resolved := if Lower(name) in mid.names then mid else Flush(mid);
      assert resolved.db.additives == mid.db.additives;
      assert AdditiveRow(mid, row, rec, conditionsId, true, ft).db.additives == mid.db.additives + [a];
    case _ =>
  }

  /** In upsert mode a group's rows keep each (conditions, compound) pair to one additive. */
  lemma {:induction false} UpsertRowsKeepPairsUnique(st: AddState, rows: seq<Record>, idxs: seq<nat>,
                                                     conditionsId: int, ft: FloatText)
    requires forall t | 0 <= t < |idxs| :: idxs[t] < |rows|
    requires st.autoflush && PairsUnique(st.db.additives)
    ensures PairsUnique(AdditiveRows(st, rows, idxs, conditionsId, false, ft).db.additives)
    decreases |idxs|
  {
    if idxs != [] {
      var n := |idxs| - 1;
      UpsertRowsKeepPairsUnique(st, rows, idxs[..n], conditionsId, ft);
      var mid := AdditiveRows(st, rows, idxs[..n], conditionsId, false, ft);
      match RequestOf(idxs[n] + 2, rows[idxs[n]], ft)
      case Wanted(name, amount, unit, order, additionMethod) =>
        var (_, _, compoundId) := Resolve(mid.db.compounds, mid.names, name);
        var a := Additive(conditionsId, compoundId, amount, unit, order, additionMethod);
        AutoflushRowUpserts(mid, idxs[n] + 2, rows[idxs[n]], conditionsId, ft);
        UpsertedKeepsPairsUnique(mid.db.additives, a);
      case _ =>
    }
  }

  /** Under autoflush a wanted row's query sees every additive, so the row is the upsert. */
  lemma AutoflushRowUpserts(st: AddState, row: nat, rec: Record, conditionsId: int, ft: FloatText)
    requires st.autoflush && RequestOf(row, rec, ft).Wanted?
    ensures var w := RequestOf(row, rec, ft);
      var compoundId := Resolve(st.db.compounds, st.names, w.compound).2;
      AdditiveRow(st, row, rec, conditionsId, false, ft).db.additives
        == Upserted(st.db.additives, Additive(conditionsId, compoundId, w.amount, w.unit, w.order, w.additionMethod))
  {
    var w := RequestOf(row, rec, ft);
    var resolved := if Lower(w.compound) in st.names then st else Flush(st);
    assert Stored(BeforeQuery(resolved)) == st.db.additives;
  }

  /**
   * Without autoflush the query of a second row for the same compound does not see the
   * additive the first row added: both are added, and the pair appears twice.
   */
  lemma RepeatedCompoundAddedTwiceAsWritten(st: AddState, row1: nat, rec1: Record, row2: nat, rec2: Record,
                                            conditionsId: int, ft: FloatText)
    requires !st.autoflush && st.flushed <= |st.db.additives|
    requires RequestOf(row1, rec1, ft).Wanted? && RequestOf(row2, rec2, ft).Wanted?
    requires Lower(RequestOf(row1, rec1, ft).compound) == Lower(RequestOf(row2, rec2, ft).compound)
    requires Lower(RequestOf(row1, rec1, ft).compound) in st.names
    requires FindAdditive(Stored(st), conditionsId, st.names[Lower(RequestOf(row1, rec1, ft).compound)]).None?
    ensures var r := AdditiveRow(AdditiveRow(st, row1, rec1, conditionsId, false, ft), row2, rec2, conditionsId, false, ft);
      && |r.db.additives| == |st.db.additives| + 2
      && r.db.additives[|st.db.additives|].compoundId == r.db.additives[|st.db.additives| + 1].compoundId
      && r.db.additives[|st.db.additives|].conditionsId == conditionsId
      && r.db.additives[|st.db.additives| + 1].conditionsId == conditionsId
      && !PairsUnique(r.db.additives)
  {
    var key := Lower(RequestOf(row1, rec1, ft).compound);
    var n := |st.db.additives|;
    var r1 := KnownUnfoundAppends(st, row1, rec1, conditionsId, ft);
    var r := KnownUnfoundAppends(r1, row2, rec2, conditionsId, ft);
    assert r.db.additives[n] == r1.db.additives[n];
    assert r.db.additives[n].compoundId == r.db.additives[n + 1].compoundId;
  }

  /**
   * Without autoflush, a row for a known compound the stored additives lack appends one
   * additive for it and leaves names and the flushed count alone.
   */
  lemma KnownUnfoundAppends(st: AddState, row: nat, rec: Record, conditionsId: int, ft: FloatText)
    returns (r: AddState)
    requires !st.autoflush && st.flushed <= |st.db.additives| && RequestOf(row, rec, ft).Wanted?
    requires Lower(RequestOf(row, rec, ft).compound) in st.names
    requires FindAdditive(Stored(st), conditionsId, st.names[Lower(RequestOf(row, rec, ft).compound)]).None?
    ensures r == AdditiveRow(st, row, rec, conditionsId, false, ft)
    ensures r.names == st.names && r.flushed == st.flushed && !r.autoflush && Stored(r) == Stored(st)
    ensures |r.db.additives| == |st.db.additives| + 1 && r.db.additives[..|st.db.additives|] == st.db.additives
    ensures r.db.additives[|st.db.additives|].compoundId == st.names[Lower(RequestOf(row, rec, ft).compound)]
    ensures r.db.additives[|st.db.additives|].conditionsId == conditionsId
  {
    r := AdditiveRow(st, row, rec, conditionsId, false, ft);
    assert r.db.additives[..st.flushed] == st.db.additives[..st.flushed];
  }

  /**
   * A group for an experiment the experiments sheet asked to overwrite replaces that
   * experiment's additives: what remains of the other records' additives comes first,
   * unchanged, and everything after it belongs to the experiment's conditions record.
   */
  lemma ReplaceGroupReplaces(st: AddState, rows: seq<Record>, key: string, overwrite: map<string, bool>,
                             ft: FloatText)
    requires key != "" && key in overwrite && overwrite[key]
    requires st.autoflush || st.flushed >= |st.db.additives|
    requires FindByKey(st.db.experiments, Lineage.LookupKey(key)).Some?
    ensures var e := st.db.experiments[FindByKey(st.db.experiments, Lineage.LookupKey(key)).value];
      var c := ConditionsFor(st.db.conditions, e).1;
      var kept := Without(st.db.additives, c);
      var r := AdditiveGroup(st, rows, key, overwrite, ft).db.additives;
      && |kept| <= |r| && r[..|kept|] == kept
      && (forall a | a in st.db.additives && a.conditionsId != c :: a in r)
      && forall i | |kept| <= i < |r| :: r[i].conditionsId == c
  {
    var j := FindByKey(st.db.experiments, Lineage.LookupKey(key)).value;
    var c := ConditionsFor(st.db.conditions, st.db.experiments[j]).1;
    var kept := Without(st.db.additives, c);
    var start := GroupStart(BeforeQuery(st), j, true);
    assert start.0.db.additives == kept;
    ReplaceRowsAppend(start.0, rows, GroupIndices(rows, key, ft), c, ft);
    var r := AdditiveGroup(st, rows, key, overwrite, ft).db.additives;
    forall a | a in st.db.additives && a.conditionsId != c
      ensures a in r
    {
      var i :| 0 <= i < |kept| && kept[i] == a;
      assert r[i] == r[..|kept|][i];
    }
  }

  /** A group of a key no experiment matches adds exactly its one error. */
  lemma UnknownGroupReported(st: AddState, rows: seq<Record>, key: string, overwrite: map<string, bool>, ft: FloatText)
    requires key != "" && FindByKey(st.db.experiments, Lineage.LookupKey(key)).None?
    ensures AdditiveGroup(st, rows, key, overwrite, ft) == BeforeQuery(st).(errors := st.errors + [GroupNotFound(key)])
  {
  }

  // ---------------------------------------------------------------------------------------------
  // Group order
  // ---------------------------------------------------------------------------------------------

  /** Python's `<` on strings: code point by code point, a proper prefix first. */
  predicate Below(a: string, b: string)
    decreases |a|
  {
    if a == [] then b != []
    else if b == [] then false
    else a[0] < b[0] || (a[0] == b[0] && Below(a[1..], b[1..]))
  }

  /** Of two different strings one is below the other. */
  lemma {:induction false} BelowTotal(a: string, b: string)
    requires a != b && !Below(a, b)
    ensures Below(b, a)
    decreases |a|
  {
    if a != [] && b != [] && a[0] == b[0] {
      assert a == [a[0]] + a[1..] && b == [b[0]] + b[1..];
      BelowTotal(a[1..], b[1..]);
    }
  }

  predicate StrictlySorted(s: seq<string>) {
    forall i | 0 <= i < |s| - 1 :: Below(s[i], s[i + 1])
  }

  /** A key put in its place in a strictly sorted list of distinct keys. */
  function Insert(s: seq<string>, k: string): (r: seq<string>)
    requires StrictlySorted(s)
    ensures StrictlySorted(r)
    ensures forall x :: x in r <==> x in s || x == k
    ensures r != [] && (r[0] == k || (s != [] && r[0] == s[0]))
    decreases |s|
  {
    if s == [] then [k]
    else if k == s[0] then s
    else if Below(k, s[0]) then [k] + s
    else
      BelowTotal(k, s[0]);
      var rest := Insert(s[1..], k);
      assert forall x :: x in s <==> x == s[0] || x in s[1..];
      [s[0]] + rest
  }

  /** The group keys of the rows, sorted as `groupby` orders them. */
  function SortedKeys(rows: seq<Record>, ft: FloatText): (r: seq<string>)
    ensures StrictlySorted(r)
    ensures forall x :: x in r <==> exists i | 0 <= i < |rows| :: KeyOf(rows[i], ft) == x
    decreases |rows|
  {
    if rows == [] then []
    else
      var n := |rows| - 1;
      var r := Insert(SortedKeys(rows[..n], ft), KeyOf(rows[n], ft));
      assert forall i | 0 <= i < n :: rows[..n][i] == rows[i];
      r
  }

  // ---------------------------------------------------------------------------------------------
  // The workbook
  // ---------------------------------------------------------------------------------------------

  /** A sheet as read: its header texts and its rows of cells by column position. */
  datatype Sheet = Sheet(columns: seq<string>, rows: seq<seq<Value>>)

  /** The sheet a normalised name selects: names trimmed and lower-cased, the later sheet winning. */
  function SheetNamed(sheets: seq<(string, Sheet)>, name: string): (r: Option<Sheet>)
    ensures r.None? <==> forall i | 0 <= i < |sheets| :: Lower(Strip(sheets[i].0)) != name
    decreases |sheets|
  {
    if sheets == [] then None
    else
      var n := |sheets| - 1;
      if Lower(Strip(sheets[n].0)) == name then Some(sheets[n].1)
      else
        assert forall i | 0 <= i < n :: sheets[..n][i] == sheets[i];
        SheetNamed(sheets[..n], name)
  }

  function ColumnKeys(columns: seq<string>): (r: seq<string>)
    ensures |r| == |columns| && forall i | 0 <= i < |columns| :: r[i] == ColumnKey(columns[i])
  {
    seq(|columns|, i requires 0 <= i < |columns| => ColumnKey(columns[i]))
  }

  /** The sheet's rows as records under the normalised headers. */
  function Records(sheet: Sheet): (r: seq<Record>)
    ensures |r| == |sheet.rows|
  {
    var keys := ColumnKeys(sheet.columns);
    seq(|sheet.rows|, i requires 0 <= i < |sheet.rows| => RecordOf(keys, sheet.rows[i]))
  }

  /** The additives sheet's required headers, sorted. */
  const AdditiveColumns: seq<string> := ["amount", "compound", "experiment_id", "unit"]

  function MissingFrom(required: seq<string>, columns: seq<string>): (r: seq<string>)
    ensures forall x :: x in r <==> x in required && x !in columns
    decreases |required|
  {
    if required == [] then []
    else
      assert forall x :: x in required <==> x == required[0] || x in required[1..];
      (if required[0] in columns then [] else [required[0]]) + MissingFrom(required[1..], columns)
  }

  const MissingSheet := "Missing required 'experiments' sheet"

  /** What the upload reports: created, updated, skipped, errors, warnings. */
  datatype Summary = Summary(created: nat, updated: nat, skipped: nat, errors: seq<string>, warnings: seq<string>)

  /** The experiments sheet, or the missing-sheet error. */
  function ExperimentsPart(db: Db, sheets: seq<(string, Sheet)>, ft: FloatText, toDatetime: DateParser): (r: State)
  {
    var start := State(db, Tally(NextNumber(db.experiments), map[], 0, 0, 0, [], []));
    match SheetNamed(sheets, "experiments")
    case None => start.(tally := start.tally.(errors := [MissingSheet]))
    case Some(sheet) => ExperimentRows(start, Records(sheet), ft, toDatetime)
  }

  /** The additives sheet after the experiments sheet left state `s`. */
  function AdditivesPart(s: State, sheets: seq<(string, Sheet)>, autoflush: bool, ft: FloatText): (r: (Summary, Db))
  {
    var t := s.tally;
    match SheetNamed(sheets, "additives")
    case None => (Summary(t.created, t.updated, t.skipped, t.errors, t.warnings), s.db)
    case Some(sheet) =>
      var missing := MissingFrom(AdditiveColumns, ColumnKeys(sheet.columns));
      if missing != [] then
        (Summary(t.created, t.updated, t.skipped,
                 t.errors + ["[additives] Missing required column(s): " + Joined(missing, ", ")], t.warnings), s.db)
      else
        var recs := Records(sheet);
        var a := AdditiveGroups(AddState(s.db, NameMap(s.db.compounds), t.skipped, t.errors, |s.db.additives|, autoflush),
                                recs, SortedKeys(recs, ft), t.overwrite, ft);
        (Summary(t.created, t.updated, a.skipped, a.errors, t.warnings), a.db)
  }

  /** `bulk_upsert_from_excel` over a workbook that has been read. */
  function BulkUpsert(db: Db, sheets: seq<(string, Sheet)>, autoflush: bool, ft: FloatText, toDatetime: DateParser)
    : (r: (Summary, Db))
  {
    AdditivesPart(ExperimentsPart(db, sheets, ft, toDatetime), sheets, autoflush, ft)
  }

  /**
   * The additives sheet keeps the experiments, the created and updated counts, the warnings
   * and the errors reported before it.
   */
  lemma AdditivesPartKeeps(s: State, sheets: seq<(string, Sheet)>, autoflush: bool, ft: FloatText)
    ensures var (summary, db') := AdditivesPart(s, sheets, autoflush, ft);
      && summary.created == s.tally.created && summary.updated == s.tally.updated
      && summary.warnings == s.tally.warnings && db'.experiments == s.db.experiments
      && |s.tally.errors| <= |summary.errors| && summary.errors[..|s.tally.errors|] == s.tally.errors
  {
    match SheetNamed(sheets, "additives")
    case None =>
    case Some(sheet) =>
      var recs := Records(sheet);
      if MissingFrom(AdditiveColumns, ColumnKeys(sheet.columns)) == [] {
        AdditiveGroupsKeepExperiments(AddState(s.db, NameMap(s.db.compounds), s.tally.skipped, s.tally.errors,
                                               |s.db.additives|, autoflush),
                                      recs, SortedKeys(recs, ft), s.tally.overwrite, ft);
      }
  }

  /** Without an experiments sheet nothing is created or updated, and the first error says so. */
  lemma MissingExperimentsSheet(db: Db, sheets: seq<(string, Sheet)>, autoflush: bool, ft: FloatText,
                                toDatetime: DateParser)
    requires forall i | 0 <= i < |sheets| :: Lower(Strip(sheets[i].0)) != "experiments"
    ensures var (summary, db') := BulkUpsert(db, sheets, autoflush, ft, toDatetime);
      && summary.created == 0 && summary.updated == 0
      && |summary.errors| >= 1 && summary.errors[0] == MissingSheet
      && db'.experiments == db.experiments
  {
    var s := ExperimentsPart(db, sheets, ft, toDatetime);
    assert s.tally.errors == [MissingSheet] && s.db == db && s.tally.created == 0 && s.tally.updated == 0;
    AdditivesPartKeeps(s, sheets, autoflush, ft);
    var (summary, _) := AdditivesPart(s, sheets, autoflush, ft);
    assert summary.errors[0] == summary.errors[..1][0];
  }

  /** The additives sheet never changes the experiments or their errors so far. */
  lemma {:induction false} AdditiveGroupsKeepExperiments(st: AddState, rows: seq<Record>, keys: seq<string>,
                                                         overwrite: map<string, bool>, ft: FloatText)
    ensures var r := AdditiveGroups(st, rows, keys, overwrite, ft);
      r.db.experiments == st.db.experiments && |st.errors| <= |r.errors| && r.errors[..|st.errors|] == st.errors
    decreases |keys|
  {
    if keys != [] {
      AdditiveGroupsKeepExperiments(st, rows, keys[..|keys| - 1], overwrite, ft);
      var mid := AdditiveGroups(st, rows, keys[..|keys| - 1], overwrite, ft);
      AdditiveGroupKeepsErrors(mid, rows, keys[|keys| - 1], overwrite, ft);
    }
  }

  lemma AdditiveGroupKeepsErrors(st: AddState, rows: seq<Record>, key: string, overwrite: map<string, bool>,
                                 ft: FloatText)
    ensures var r := AdditiveGroup(st, rows, key, overwrite, ft);
      |st.errors| <= |r.errors| && r.errors[..|st.errors|] == st.errors
  {
    if key != "" {
      var q := BeforeQuery(st);
      match FindByKey(q.db.experiments, Lineage.LookupKey(key))
      case None =>
      case Some(j) =>
        var replaceAll := key in overwrite && overwrite[key];
        var start := GroupStart(q, j, replaceAll);
        AdditiveRowsKeepErrors(start.0, rows, GroupIndices(rows, key, ft), start.1, replaceAll, ft);
    }
  }

  lemma {:induction false} AdditiveRowsKeepErrors(st: AddState, rows: seq<Record>, idxs: seq<nat>, conditionsId: int,
                                                  replaceAll: bool, ft: FloatText)
    requires forall t | 0 <= t < |idxs| :: idxs[t] < |rows|
    ensures var r := AdditiveRows(st, rows, idxs, conditionsId, replaceAll, ft);
      |st.errors| <= |r.errors| && r.errors[..|st.errors|] == st.errors
    decreases |idxs|
  {
    if idxs != [] {
      AdditiveRowsKeepErrors(st, rows, idxs[..|idxs| - 1], conditionsId, replaceAll, ft);
    }
  }

  // ---------------------------------------------------------------------------------------------
  // The session
  // ---------------------------------------------------------------------------------------------

  /** The tables the upload reads and writes through its database session. */
  class UploadSession {
    var experiments: seq<Experiment>
    var notes: seq<Note>
    var conditions: seq<ConditionsRow>
    var compounds: seq<Compound>
    var additives: seq<Additive>
    /** Whether the session flushes before each query (`sessionmaker(autoflush=...)`). */
    const autoflush: bool

    function Tables(): Db
      reads this
    {
      Db(experiments, notes, conditions, compounds, additives)
    }

    constructor (db: Db, autoflush: bool)
      ensures Tables() == db && this.autoflush == autoflush
    {
      experiments, notes, conditions, compounds, additives :=
        db.experiments, db.notes, db.conditions, db.compounds, db.additives;
      this.autoflush := autoflush;
    }

    /** One row of the experiments sheet. */
    method ExperimentRowStep(t: Tally, row: nat, rec: Record, ft: FloatText, toDatetime: DateParser)
      returns (t': Tally)
      modifies this
      ensures State(Tables(), t') == ExperimentRow(State(old(Tables()), t), row, rec, ft, toDatetime)
    {
      t' := t;
      var id := IdText(Get(rec, "experiment_id"), ft);
      if id == "" {
        t' := t'.(skipped := t'.skipped + 1);
        return;
      }
      var flag := ParseBool(Get(rec, "overwrite"), ft);
      var ws := ExperimentValidation.ValidateExperimentId(Some(id)).1;
      t' := t'.(overwrite := t'.overwrite[id := flag], warnings := t'.warnings + Labelled(row, id, ws));
      var found := FindByKey(experiments, Lineage.LookupKey(id));
      if found.None? && flag {
        t' := t'.(errors := t'.errors + [MissingMessage(row, id)]);
        return;
      }
      if found.Some? && !flag {
        t' := t'.(errors := t'.errors + [ExistsMessage(row, id)]);
        return;
      }
      t' := ApplyRow(t', found, id, FieldsOf(rec, id, ft, toDatetime));
    }

    /** An accepted row of the experiments sheet: the experiment created or updated, and its note added. */
    method ApplyRow(t: Tally, found: Option<nat>, id: string, f: Fields) returns (t': Tally)
      requires found.Some? ==> found.value < |experiments|
      modifies this
      ensures State(Tables(), t') == Apply(State(old(Tables()), t), found, id, f)
    {
      t' := t;
      var e: Experiment;
      if found.None? {
        e := Created(Fresh(ExperimentIds(experiments)), t'.next, id, f);
        experiments := experiments + [e];
        t' := t'.(next := t'.next + 1, created := t'.created + 1);
      } else {
        e := Updated(experiments[found.value], f);
        experiments := experiments[found.value := e];
        t' := t'.(updated := t'.updated + 1);
      }
      if f.note.Some? {
        notes := notes + [Note(e.id, e.experimentId, f.note.value)];
      }
    }

    /** The experiments sheet, row by row. */
    method ExperimentsSheet(t0: Tally, rows: seq<Record>, ft: FloatText, toDatetime: DateParser) returns (t: Tally)
      modifies this
      ensures State(Tables(), t) == ExperimentRows(State(old(Tables()), t0), rows, ft, toDatetime)
    {
      t := t0;
      var i := 0;
      while i < |rows|
        invariant 0 <= i <= |rows|
        invariant State(Tables(), t) == ExperimentRows(State(old(Tables()), t0), rows[..i], ft, toDatetime)
      {
        assert rows[..i + 1][..i] == rows[..i];
        t := ExperimentRowStep(t, i + 2, rows[i], ft, toDatetime);
        i := i + 1;
      }
      assert rows[..i] == rows;
    }

    /** One row of an additives group. */
    method AdditiveRowStep(st: AddState, row: nat, rec: Record, conditionsId: int, replaceAll: bool, ft: FloatText)
      returns (r: AddState)
      requires st.db == Tables()
      modifies this
      ensures r.db == Tables()
      ensures r == AdditiveRow(st, row, rec, conditionsId, replaceAll, ft)
    {
      r := st;
      match RequestOf(row, rec, ft)
      case Blank =>
        r := r.(skipped := r.skipped + 1);
      case Refused(m) =>
        r := r.(errors := r.errors + [m]);
      case Wanted(name, amount, unit, order, additionMethod) =>
        var key := Lower(name);
        var compoundId: int;
        var names := r.names;
        if key in names {
          compoundId := names[key];
        } else {
          compoundId := Fresh(CompoundIds(compounds));
          compounds := compounds + [Compound(compoundId, name)];
          names := names[key := compoundId];
          r := r.(flushed := |additives|);
        }
        var a := Additive(conditionsId, compoundId, amount, unit, order, additionMethod);
        if replaceAll {
          additives := additives + [a];
        } else {
          if r.autoflush {
            r := r.(flushed := |additives|);
          }
          var j := FindAdditive(Stored(r), conditionsId, compoundId);
          if j.Some? {
            additives := additives[j.value := a];
          } else {
            additives := additives + [a];
          }
        }
        r := r.(db := Tables(), names := names);
    }

    /** One group of the additives sheet. */
    method AdditiveGroupStep(st: AddState, rows: seq<Record>, key: string, overwrite: map<string, bool>, ft: FloatText)
      returns (r: AddState)
      requires st.db == Tables()
      modifies this
      ensures r.db == Tables()
      ensures r == AdditiveGroup(st, rows, key, overwrite, ft)
    {
      r := st;
      if key == "" {
        return;
      }
      if r.autoflush {
        r := r.(flushed := |additives|);
      }
      var found := FindByKey(experiments, Lineage.LookupKey(key));
      if found.None? {
        r := r.(errors := r.errors + [GroupNotFound(key)]);
        return;
      }
      var replaceAll := key in overwrite && overwrite[key];
      var conditionsId;
      r, conditionsId := GroupStartStep(r, found.value, replaceAll);
      r := GroupRows(r, rows, GroupIndices(rows, key, ft), conditionsId, replaceAll, ft);
    }

    /** The conditions record of a group's experiment, and the replace-mode deletion. */
    method GroupStartStep(q: AddState, j: nat, replaceAll: bool) returns (r: AddState, conditionsId: int)
      requires j < |experiments| && q.db == Tables()
      modifies this
      ensures r.db == Tables()
      ensures (r, conditionsId) == GroupStart(q, j, replaceAll)
    {
      r := q;
      var e := experiments[j];
      var existing := FirstConditions(conditions, e.id);
      if existing.Some? {
        conditionsId := conditions[existing.value].id;
      } else {
        conditionsId := Fresh(ConditionsIds(conditions));
        conditions := conditions + [ConditionsRow(conditionsId, e.id, e.experimentId)];
        r := r.(flushed := |additives|);
      }
      if replaceAll {
        var stored := Stored(r);
        var kept := Without(stored, conditionsId);
        additives := kept + additives[|stored|..];
        r := r.(flushed := |kept|);
      }
      assert (conditions, conditionsId) == ConditionsFor(q.db.conditions, e);
      r := r.(db := Tables());
    }

    /** The rows of one group, in sheet order. */
    method GroupRows(st: AddState, rows: seq<Record>, idxs: seq<nat>, conditionsId: int, replaceAll: bool,
                     ft: FloatText) returns (r: AddState)
      requires forall t | 0 <= t < |idxs| :: idxs[t] < |rows|
      requires st.db == Tables()
      modifies this
      ensures r.db == Tables()
      ensures r == AdditiveRows(st, rows, idxs, conditionsId, replaceAll, ft)
    {
      r := st;
      var t := 0;
      while t < |idxs|
        invariant 0 <= t <= |idxs| && r.db == Tables()
        invariant r == AdditiveRows(st, rows, idxs[..t], conditionsId, replaceAll, ft)
      {
        r := GroupRowAt(st, r, rows, idxs, t, conditionsId, replaceAll, ft);
        t := t + 1;
      }
      assert idxs[..t] == idxs;
    }

    /** Row `t` of a group, after the rows before it. */
    method GroupRowAt(st: AddState, mid: AddState, rows: seq<Record>, idxs: seq<nat>, t: nat, conditionsId: int,
                      replaceAll: bool, ft: FloatText) returns (r: AddState)
      requires forall u | 0 <= u < |idxs| :: idxs[u] < |rows|
      requires t < |idxs| && mid.db == Tables()
      requires mid == AdditiveRows(st, rows, idxs[..t], conditionsId, replaceAll, ft)
      modifies this
      ensures r.db == Tables()
      ensures r == AdditiveRows(st, rows, idxs[..t + 1], conditionsId, replaceAll, ft)
    {
      r := AdditiveRowStep(mid, idxs[t] + 2, rows[idxs[t]], conditionsId, replaceAll, ft);
      AdditiveRowsStep(st, rows, idxs, t, conditionsId, replaceAll, ft, mid, r);
    }

    /** The additives sheet, group by group in key order. */
    method AdditivesSheet(st: AddState, rows: seq<Record>, keys: seq<string>, overwrite: map<string, bool>,
                          ft: FloatText) returns (r: AddState)
      requires st.db == Tables()
      modifies this
      ensures r.db == Tables()
      ensures r == AdditiveGroups(st, rows, keys, overwrite, ft)
    {
      r := st;
      var k := 0;
      while k < |keys|
        invariant 0 <= k <= |keys| && r.db == Tables()
        invariant r == AdditiveGroups(st, rows, keys[..k], overwrite, ft)
      {
        AdditiveGroupsStep(st, rows, keys, k, overwrite, ft);
        r := AdditiveGroupStep(r, rows, keys[k], overwrite, ft);
        k := k + 1;
      }
      assert keys[..k] == keys;
    }

    /** `bulk_upsert_from_excel`: the experiments sheet, then the additives sheet. */
    method BulkUpsertFromExcel(sheets: seq<(string, Sheet)>, ft: FloatText, toDatetime: DateParser)
      returns (summary: Summary)
      modifies this
      ensures (summary, Tables()) == BulkUpsert(old(Tables()), sheets, autoflush, ft, toDatetime)
    {
      var t := Tally(NextNumber(experiments), map[], 0, 0, 0, [], []);
      var experimentsSheet := SheetNamed(sheets, "experiments");
      if experimentsSheet.None? {
        t := t.(errors := [MissingSheet]);
      } else {
        t := ExperimentsSheet(t, Records(experimentsSheet.value), ft, toDatetime);
      }
      assert State(Tables(), t) == ExperimentsPart(old(Tables()), sheets, ft, toDatetime);
      summary := Summary(t.created, t.updated, t.skipped, t.errors, t.warnings);
      var additivesSheet := SheetNamed(sheets, "additives");
      if additivesSheet.None? {
        return;
      }
      var missing := MissingFrom(AdditiveColumns, ColumnKeys(additivesSheet.value.columns));
      if missing != [] {
        summary := summary.(errors := t.errors + ["[additives] Missing required column(s): " + Joined(missing, ", ")]);
        return;
      }
      var recs := Records(additivesSheet.value);
      var a := AdditivesSheet(AddState(Tables(), NameMap(compounds), t.skipped, t.errors, |additives|, autoflush),
                              recs, SortedKeys(recs, ft), t.overwrite, ft);
      summary := summary.(skipped := a.skipped, errors := a.errors);
    }
  }
}
