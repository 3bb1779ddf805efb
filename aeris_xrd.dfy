/**
 * Aeris XRD time-series uploads (`aeris_xrd.py`): the sample-ID format
 * `DATE_ExperimentID-dDAYS_SCAN`, the delimiter-insensitive experiment lookup, mineral
 * column headers, and the sheet upload that creates or updates one phase row per
 * (experiment, day, mineral).
 *
 * The workbook arrives as its header row and its data rows; a data row maps a column name
 * to its cell. Reading the Excel file is not modelled. The phase lookup goes through the
 * session: with autoflush off (the application's session factory) it sees only the rows stored
 * before the upload, so the setting is a parameter.
 */
module AerisXrd {
  import opened Wrappers
  import opened PyStr
  import opened PyNum

  // ---------------------------------------------------------------- dates

  datatype Date = Date(year: nat, month: nat, day: nat)

  predicate IsLeap(y: nat) {
    (y % 4 == 0 && y % 100 != 0) || y % 400 == 0
  }

  function DaysInMonth(y: nat, m: nat): nat
    requires 1 <= m <= 12
  {
    if m == 2 then (if IsLeap(y) then 29 else 28)
    else if m == 4 || m == 6 || m == 9 || m == 11 then 30
    else 31
  }

  /** A date `datetime` accepts: year from 1, a month, and a day of that month. */
  predicate ValidDate(d: Date) {
    d.year >= 1 && 1 <= d.month <= 12 && 1 <= d.day <= DaysInMonth(d.year, d.month)
  }

  /**
   * `datetime.strptime(digits, "%Y%m%d")` on eight ASCII digits. With exactly eight digits
   * the month and the day must each take two, so the text reads as YYYYMMDD; none where
   * Python raises.
   */
  function DateOf(digits: string): (r: Option<Date>)
    requires |digits| == 8 && AllDigits(digits)
    ensures r.Some? ==> ValidDate(r.value)
  {
    var d := Date(DigitsValue(digits[..4]), DigitsValue(digits[4..6]), DigitsValue(digits[6..]));
    if ValidDate(d) then Some(d) else None
  }

  // ---------------------------------------------------------------- sample IDs

  /** What `_parse_aeris_sample_id` returns: measurement date, experiment id, days. */
  datatype AerisId = AerisId(date: Date, experimentId: string, days: nat)

  /** The groups of `^(\d{8})_(.+?)-d(\d+)_\d+$`: date digits, experiment id, day and scan digits. */
  datatype IdParts = IdParts(dateDigits: string, experimentId: string, dayDigits: string, scanDigits: string)

  /** `s` has the documented shape, cut into the given pieces. */
  predicate Shaped(s: string, q: IdParts) {
    && s == q.dateDigits + "_" + q.experimentId + "-d" + q.dayDigits + "_" + q.scanDigits
    && |q.dateDigits| == 8 && AllDigits(q.dateDigits)
    && q.experimentId != [] && '\n' !in q.experimentId
    && IsDigits(q.dayDigits) && IsDigits(q.scanDigits)
  }

  /**
   * The regex match. The scan number holds no `_` and the `-d` tail no `-`, so the last `_`
   * and the last `-` delimit them, which is where the lazy `(.+?)` stops.
   */
  function SplitId(s: string): (r: Option<IdParts>)
    ensures r.Some? ==> |r.value.dateDigits| == 8 && AllDigits(r.value.dateDigits) && IsDigits(r.value.dayDigits)
  {
    match RSplitOnce(s, '_')
    case None => None
    case Some((a, scan)) =>
      match RSplitOnce(a, '-')
      case None => None
      case Some((e, rest)) =>
        if && IsDigits(scan) && |rest| >= 2 && rest[0] == 'd' && IsDigits(rest[1..])
           && |e| >= 10 && AllDigits(e[..8]) && e[8] == '_' && '\n' !in e[9..]
        then Some(IdParts(e[..8], e[9..], rest[1..], scan))
        else None
  }

  /** `_parse_aeris_sample_id`: none unless the trimmed text has the shape and a real date. */
  function ParseAerisSampleId(raw: string): (r: Option<AerisId>)
    ensures r.Some? ==> ValidDate(r.value.date) && r.value.experimentId != []
  {
    match SplitId(Strip(raw))
    case None => None
    case Some(q) =>
      match DateOf(q.dateDigits)
      case None => None
      case Some(d) =>
        SplitIdSound(Strip(raw));
        Some(AerisId(d, q.experimentId, DigitsValue(q.dayDigits)))
  }

  lemma JoinId(s: string, a: string, e: string, rest: string, dd: string, id: string, dy: string, sc: string)
    requires s == a + "_" + sc && a == e + "-" + rest && rest == "d" + dy && e == dd + "_" + id
    ensures s == dd + "_" + id + "-d" + dy + "_" + sc
  {
  }

  /** The pieces `SplitId` cuts `s` into, and how they join back. */
  lemma SplitIdPieces(s: string) returns (a: string, e: string, rest: string)
    requires SplitId(s).Some?
    ensures var q := SplitId(s).value;
      && s == a + "_" + q.scanDigits && a == e + "-" + rest && rest == "d" + q.dayDigits
      && e == q.dateDigits + "_" + q.experimentId
      && q.experimentId != [] && '\n' !in q.experimentId && IsDigits(q.scanDigits)
  {
    var sc;
    a, sc, e, rest := SplitIdCuts(s);
    RSplitOnceProps(s, '_');
    RSplitOnceProps(a, '-');
    assert rest == "d" + rest[1..];
    assert e == e[..8] + "_" + e[9..];
  }

  /** The two cuts `SplitId` makes, at the last `_` and then at the last `-`. */
  lemma SplitIdCuts(s: string) returns (a: string, sc: string, e: string, rest: string)
    requires SplitId(s).Some?
    ensures RSplitOnce(s, '_') == Some((a, sc)) && RSplitOnce(a, '-') == Some((e, rest))
    ensures |e| >= 10 && e[8] == '_' && |rest| >= 2 && rest[0] == 'd'
    ensures SplitId(s).value == IdParts(e[..8], e[9..], rest[1..], sc)
    ensures IsDigits(sc) && '\n' !in e[9..]
  {
    a, sc := RSplitOnce(s, '_').value.0, RSplitOnce(s, '_').value.1;
    e, rest := RSplitOnce(a, '-').value.0, RSplitOnce(a, '-').value.1;
  }

  /** Every split found lies in the text in the documented shape. */
  lemma SplitIdSound(s: string)
    requires SplitId(s).Some?
    ensures Shaped(s, SplitId(s).value)
  {
    var q := SplitId(s).value;
    var a, e, rest := SplitIdPieces(s);
    JoinId(s, a, e, rest, q.dateDigits, q.experimentId, q.dayDigits, q.scanDigits);
  }

  lemma DigitsFree(d: string, c: char)
    requires AllDigits(d) && !IsDigit(c)
    ensures c !in d
  {
  }

  /** A text of the documented shape splits into exactly its pieces. */
  lemma SplitIdComplete(s: string, q: IdParts)
    requires Shaped(s, q)
    ensures SplitId(s) == Some(q)
  {
    var e := q.dateDigits + "_" + q.experimentId;
    var rest := "d" + q.dayDigits;
    var a := e + "-" + rest;
    DigitsFree(q.scanDigits, '_');
    DigitsFree(q.dayDigits, '-');
    assert '-' !in rest;
    assert s == a + ['_'] + q.scanDigits;
    RSplitOnceAppend(a, '_', q.scanDigits);
    assert a == e + ['-'] + rest;
    RSplitOnceAppend(e, '-', rest);
    assert rest[1..] == q.dayDigits;
    assert e[..8] == q.dateDigits && e[9..] == q.experimentId;
  }

  /** The parse of a shaped ID with a real date returns its date, experiment id and days. */
  lemma ParseComplete(raw: string, q: IdParts)
    requires Shaped(Strip(raw), q) && DateOf(q.dateDigits).Some?
    ensures ParseAerisSampleId(raw) == Some(AerisId(DateOf(q.dateDigits).value, q.experimentId, DigitsValue(q.dayDigits)))
  {
    SplitIdComplete(Strip(raw), q);
  }

  /** A parse succeeds only on a shaped ID with a real date, and returns its pieces. */
  lemma ParseSound(raw: string)
    requires ParseAerisSampleId(raw).Some?
    ensures var q := SplitId(Strip(raw)).value;
      && Shaped(Strip(raw), q) && DateOf(q.dateDigits).Some?
      && ParseAerisSampleId(raw) == Some(AerisId(DateOf(q.dateDigits).value, q.experimentId, DigitsValue(q.dayDigits)))
  {
    SplitIdSound(Strip(raw));
  }

  /** A shaped ID whose eight digits are no date (a 13th month, a 30th of February) gives none. */
  lemma ParseRejectsBadDate(raw: string, q: IdParts)
    requires Shaped(Strip(raw), q) && DateOf(q.dateDigits).None?
    ensures ParseAerisSampleId(raw).None?
  {
    SplitIdComplete(Strip(raw), q);
  }

  lemma DigitsOf4(a: char, b: char, c: char, d: char)
    requires IsDigit(a) && IsDigit(b) && IsDigit(c) && IsDigit(d)
    ensures DigitsValue([a, b, c, d]) == 1000 * DigitVal(a) + 100 * DigitVal(b) + 10 * DigitVal(c) + DigitVal(d)
  {
    assert [a, b, c, d][..3] == [a, b, c];
    assert [a, b, c][..2] == [a, b];
    DigitsValue2(a, b);
  }

  lemma ExampleDate()
    ensures DateOf("20260218") == Some(Date(2026, 2, 18))
  {
    var dd := "20260218";
    assert dd[..4] == ['2', '0', '2', '6'] && dd[4..6] == ['0', '2'] && dd[6..] == ['1', '8'];
    DigitsOf4('2', '0', '2', '6');
    DigitsValue2('0', '2');
    DigitsValue2('1', '8');
  }

  lemma ExampleShaped()
    ensures Shaped("20260218_HPHT070-d19_02", IdParts("20260218", "HPHT070", "19", "02"))
  {
  }

  lemma ExampleStripped()
    ensures Strip("20260218_HPHT070-d19_02") == "20260218_HPHT070-d19_02"
  {
    var s := "20260218_HPHT070-d19_02";
    assert LStrip(s) == s && RStrip(s) == s;
  }

  /** The documented example `20260218_HPHT070-d19_02`. */
  lemma ParseExample()
    ensures ParseAerisSampleId("20260218_HPHT070-d19_02") == Some(AerisId(Date(2026, 2, 18), "HPHT070", 19))
  {
    ExampleStripped();
    ExampleShaped();
    ExampleDate();
    DigitsValue2('1', '9');
    ParseComplete("20260218_HPHT070-d19_02", IdParts("20260218", "HPHT070", "19", "02"));
  }

  // ---------------------------------------------------------------- experiment lookup

  const Delimiters: set<char> := {'-', '_', ' '}

  /** `_normalize_id`: lower-cased, without `-`, `_` and spaces. */
  function NormalizeId(raw: string): string {
    RemoveChars(Lower(raw), Delimiters)
  }

  /** The normal form holds no delimiter and no upper-case letter, and normalising it again changes nothing. */
  lemma NormalizeIdProps(raw: string)
    ensures forall c | c in NormalizeId(raw) :: c !in Delimiters && !IsUpperChar(c)
    ensures NormalizeId(NormalizeId(raw)) == NormalizeId(raw)
  {
    forall c | c in NormalizeId(raw)
      ensures c !in Delimiters && !IsUpperChar(c)
    {
      RemoveCharsMembers(Lower(raw), Delimiters, c);
      var i :| 0 <= i < |raw| && Lower(raw)[i] == c;
    }
    LowerRemoveIdempotent(raw, Delimiters);
  }

  /** An experiment as the lookup and the phase rows see it. */
  datatype ExpRec = ExpRec(id: int, experimentId: string, sampleId: Option<string>)

  /** The SQL side: `lower(replace(replace(replace(experiment_id, '-', ''), '_', ''), ' ', ''))`. */
  function SqlNorm(experimentId: string): string {
    Lower(RemoveChars(experimentId, Delimiters))
  }

  /** `_find_experiment`: the first experiment whose id normalises to the same text. */
  function FindExperiment(exps: seq<ExpRec>, raw: string): (r: Option<nat>)
    ensures r.Some? ==> r.value < |exps| && SqlNorm(exps[r.value].experimentId) == NormalizeId(raw)
    ensures r.Some? ==> forall j | 0 <= j < r.value :: SqlNorm(exps[j].experimentId) != NormalizeId(raw)
    ensures r.None? ==> forall j | 0 <= j < |exps| :: SqlNorm(exps[j].experimentId) != NormalizeId(raw)
    decreases |exps|
  {
    if exps == [] then None
    else if SqlNorm(exps[0].experimentId) == NormalizeId(raw) then Some(0)
    else match FindExperiment(exps[1..], raw)
      case None => None
      case Some(j) => Some(j + 1)
  }

  /** Both sides normalise alike, so an ID is found by any spelling that differs only in case and delimiters. */
  lemma FindExperimentSpelling(exps: seq<ExpRec>, raw: string, other: string)
    requires NormalizeId(raw) == NormalizeId(other)
    ensures FindExperiment(exps, raw) == FindExperiment(exps, other)
    ensures forall j | 0 <= j < |exps| :: SqlNorm(exps[j].experimentId) == NormalizeId(exps[j].experimentId)
  {
    forall j | 0 <= j < |exps|
      ensures SqlNorm(exps[j].experimentId) == NormalizeId(exps[j].experimentId)
    {
      LowerRemoveCommute(exps[j].experimentId, Delimiters);
    }
    if FindExperiment(exps, raw) != FindExperiment(exps, other) {
      assert false;
    }
  }

  // ---------------------------------------------------------------- mineral headers

  /** `[%]`, `(%)` or a mismatched pair such as `[%)` at the very end. */
  predicate EndsInUnit(t: string) {
    |t| >= 3 && (t[|t| - 3] == '[' || t[|t| - 3] == '(') && t[|t| - 2] == '%' && (t[|t| - 1] == ']' || t[|t| - 1] == ')')
  }

  /**
   * `_clean_mineral_name`: `\s*[\[\(]%[\]\)]\s*$` removed, then trimmed. Trailing
   * whitespace is skipped to find the unit; the whitespace before it goes with the trim.
   */
  function CleanMineralName(col: string): (r: string)
    ensures IsStripped(r)
  {
    StripProps(col);
    var t := RStrip(col);
    if EndsInUnit(t) then StripProps(t[..|t| - 3]); Strip(t[..|t| - 3]) else Strip(col)
  }

  lemma {:induction false} RStripSpaceTail(x: string, ws: string)
    requires x != [] && !IsSpace(x[|x| - 1]) && AllSpace(ws)
    ensures RStrip(x + ws) == x
    decreases |ws|
  {
    if ws == [] {
      assert x + ws == x;
    } else {
      assert (x + ws)[..|x + ws| - 1] == x + ws[..|ws| - 1];
      RStripSpaceTail(x, ws[..|ws| - 1]);
    }
  }

  /** One unit suffix with any whitespace around it is removed; the name is what remains, trimmed. */
  lemma CleanRemovesUnit(name: string, open: char, close: char, ws: string)
    requires (open == '[' || open == '(') && (close == ']' || close == ')') && AllSpace(ws)
    ensures CleanMineralName(name + [open, '%', close] + ws) == Strip(name)
  {
    var x := name + [open, '%', close];
    RStripSpaceTail(x, ws);
    assert x[..|x| - 3] == name;
  }

  /** A header without a unit suffix is only trimmed. */
  lemma CleanWithoutUnit(col: string)
    requires !EndsInUnit(RStrip(col))
    ensures CleanMineralName(col) == Strip(col)
  {
  }

  /** Only one suffix goes: `Quartz [%] [%]` keeps its first unit. */
  lemma CleanRemovesOnlyOne()
    ensures CleanMineralName("Quartz [%] [%]") == "Quartz [%]"
  {
    CleanRemovesUnit("Quartz [%] ", '[', ']', "");
    assert "Quartz [%] [%]" == "Quartz [%] " + ['[', '%', ']'] + "";
    assert Strip("Quartz [%] ") == "Quartz [%]" by {
      var l := "Quartz [%] ";
      assert LStrip(l) == l;
      assert l[..|l| - 1] == "Quartz [%]";
      assert RStrip("Quartz [%]") == "Quartz [%]";
    }
  }

  // ---------------------------------------------------------------- the sheet

  datatype AerisError =
    | TooFewColumns
    | NoSampleColumn
    | NoMineralColumns
    | BadSampleId(row: nat, raw: Option<string>)
    | UnknownExperiment(row: nat, experimentId: string)

  /** The column a lower-cased name maps to in `{c.lower(): c for c in cols}`: the last such column. */
  function LastWithLower(cols: seq<string>, key: string): (r: Option<string>)
    ensures r.Some? ==> r.value in cols && Lower(r.value) == key
    ensures r.None? ==> forall c | c in cols :: Lower(c) != key
    decreases |cols|
  {
    if cols == [] then None
    else if Lower(cols[|cols| - 1]) == key then Some(cols[|cols| - 1])
    else LastWithLower(cols[..|cols| - 1], key)
  }

  /** The columns, in order, whose lower-cased name is not skipped. */
  function Keep(cols: seq<string>, skip: set<string>): (r: seq<string>)
    ensures forall c | c in r :: c in cols && Lower(c) !in skip
    ensures forall c | c in cols && Lower(c) !in skip :: c in r
    decreases |cols|
  {
    if cols == [] then []
    else
      var n := |cols| - 1;
      Keep(cols[..n], skip) + (if Lower(cols[n]) in skip then [] else [cols[n]])
  }

  function StripAll(cols: seq<string>): (r: seq<string>)
    ensures |r| == |cols| && forall i | 0 <= i < |cols| :: r[i] == Strip(cols[i])
  {
    seq(|cols|, i requires 0 <= i < |cols| => Strip(cols[i]))
  }

  /** The sample column, the Rwp column if any, and the mineral columns. */
  datatype Layout = Layout(sampleCol: string, rwpCol: Option<string>, minerals: seq<string>)

  datatype LayoutResult = Ready(layout: Layout) | Rejected(error: AerisError)

  /** The lower-cased names that are not minerals. */
  function SkipKeys(sampleCol: string, rwpCol: Option<string>): set<string> {
    {Lower(sampleCol), if rwpCol.Some? then Lower(rwpCol.value) else "", "scan number", "scan_number"}
  }

  /** The header checks of `bulk_upsert_from_excel`, in their order. */
  function SheetLayout(header: seq<string>): LayoutResult {
    if |header| < 4 then Rejected(TooFewColumns)
    else
      var cols := StripAll(header);
      var sample := match LastWithLower(cols, "sample id")
        case Some(c) => Some(c)
        case None => LastWithLower(cols, "sample_id");
      if sample.None? then Rejected(NoSampleColumn)
      else
        var rwp := LastWithLower(cols, "rwp");
        var minerals := Keep(cols, SkipKeys(sample.value, rwp));
        if minerals == [] then Rejected(NoMineralColumns) else Ready(Layout(sample.value, rwp, minerals))
  }

  /**
   * A sheet is taken exactly when it has four columns, a Sample ID column and a mineral
   * column; the minerals are then exactly the trimmed columns other than the Sample ID, Rwp
   * and Scan Number columns, compared in lower case.
   */
  lemma SheetLayoutSpec(header: seq<string>)
    ensures var cols := StripAll(header);
      var hasSample := exists c | c in cols :: Lower(c) == "sample id" || Lower(c) == "sample_id";
      && (SheetLayout(header) == Rejected(TooFewColumns) <==> |header| < 4)
      && (SheetLayout(header) == Rejected(NoSampleColumn) <==> |header| >= 4 && !hasSample)
      && (SheetLayout(header).Ready? ==>
           var l := SheetLayout(header).layout;
           && l.sampleCol in cols && (Lower(l.sampleCol) == "sample id" || Lower(l.sampleCol) == "sample_id")
           && (l.rwpCol.Some? <==> exists c | c in cols :: Lower(c) == "rwp")
           && l.minerals != []
           && (forall c | c in cols :: c in l.minerals <==>
                 Lower(c) != Lower(l.sampleCol) && Lower(c) != "rwp" && Lower(c) != "scan number" && Lower(c) != "scan_number"
                 && (l.rwpCol.None? ==> c != "")))
  {
    SheetRejections(header);
    if SheetLayout(header).Ready? {
      SheetReady(header);
    }
  }

  /** The two header rejections before the minerals are looked at. */
  lemma SheetRejections(header: seq<string>)
    ensures var cols := StripAll(header);
      var hasSample := exists c | c in cols :: Lower(c) == "sample id" || Lower(c) == "sample_id";
      && (SheetLayout(header) == Rejected(TooFewColumns) <==> |header| < 4)
      && (SheetLayout(header) == Rejected(NoSampleColumn) <==> |header| >= 4 && !hasSample)
  {
    if |header| >= 4 {
      var cols := StripAll(header);
      var s1 := LastWithLower(cols, "sample id");
      var s2 := LastWithLower(cols, "sample_id");
    }
  }

  /** The columns of a sheet that was taken. */
  lemma SheetReady(header: seq<string>)
    requires SheetLayout(header).Ready?
    ensures var cols := StripAll(header);
      var l := SheetLayout(header).layout;
      && l.sampleCol in cols && (Lower(l.sampleCol) == "sample id" || Lower(l.sampleCol) == "sample_id")
      && (l.rwpCol.Some? <==> exists c | c in cols :: Lower(c) == "rwp")
      && l.minerals != []
      && (forall c | c in cols :: c in l.minerals <==>
            Lower(c) != Lower(l.sampleCol) && Lower(c) != "rwp" && Lower(c) != "scan number" && Lower(c) != "scan_number"
            && (l.rwpCol.None? ==> c != ""))
  {
    var cols := StripAll(header);
    var s1 := LastWithLower(cols, "sample id");
    var s2 := LastWithLower(cols, "sample_id");
    var l := SheetLayout(header).layout;
    assert l.minerals == Keep(cols, SkipKeys(l.sampleCol, l.rwpCol));
    forall c | c in cols
      ensures c in l.minerals <==>
        Lower(c) != Lower(l.sampleCol) && Lower(c) != "rwp" && Lower(c) != "scan number" && Lower(c) != "scan_number"
        && (l.rwpCol.None? ==> c != "")
    {
      MineralColumn(cols, c, l.sampleCol, l.rwpCol);
    }
  }

  /** One trimmed column is a mineral exactly when it is none of the skipped columns. */
  lemma MineralColumn(cols: seq<string>, c: string, sample: string, rwp: Option<string>)
    requires c in cols
    requires rwp.Some? ==> Lower(rwp.value) == "rwp"
    requires rwp.None? ==> Lower(c) != "rwp"
    ensures c in Keep(cols, SkipKeys(sample, rwp)) <==>
      Lower(c) != Lower(sample) && Lower(c) != "rwp" && Lower(c) != "scan number" && Lower(c) != "scan_number"
      && (rwp.None? ==> c != "")
  {
    if rwp.None? {
      assert |Lower(c)| == |c|;
      assert c == "" ==> Lower(c) == "";
    }
  }

  // ---------------------------------------------------------------- phase rows

  /** An `XRDPhase` row; rows linked to a sample rather than an experiment hold no experiment id or day. */
  datatype XrdPhase = XrdPhase(
    experimentFk: Option<int>, experimentId: Option<string>, sampleId: Option<string>,
    days: Option<int>, date: Option<Date>, rwp: Option<real>, mineral: string, amount: Option<real>)

  /** The key the upload matches on. */
  predicate HasKey(p: XrdPhase, experimentId: string, days: int, mineral: string) {
    p.experimentId == Some(experimentId) && p.days == Some(days) && p.mineral == mineral
  }

  /** The first phase with the key (`.first()`). */
  function FindPhase(phases: seq<XrdPhase>, experimentId: string, days: int, mineral: string): (r: Option<nat>)
    ensures r.Some? ==> r.value < |phases| && HasKey(phases[r.value], experimentId, days, mineral)
    ensures r.Some? ==> forall j | 0 <= j < r.value :: !HasKey(phases[j], experimentId, days, mineral)
    ensures r.None? ==> forall j | 0 <= j < |phases| :: !HasKey(phases[j], experimentId, days, mineral)
    decreases |phases|
  {
    if phases == [] then None
    else if HasKey(phases[0], experimentId, days, mineral) then Some(0)
    else match FindPhase(phases[1..], experimentId, days, mineral)
      case None => None
      case Some(j) => Some(j + 1)
  }

  /** No two phase rows of experiments share a key (the table's unique constraint). */
  predicate UniqueKeys(phases: seq<XrdPhase>) {
    forall i, j | 0 <= i < j < |phases| && phases[i].experimentId.Some? && phases[i].days.Some? ::
      !HasKey(phases[j], phases[i].experimentId.value, phases[i].days.value, phases[i].mineral)
  }

  /**
   * What a query of the upload's session sees: `stored` rows were in the database before the
   * upload; rows added since are seen only when the session flushes them first (autoflush).
   */
  datatype Session = Session(stored: nat, autoflush: bool)

  /** The phase rows a query returns. */
  function Visible(phases: seq<XrdPhase>, s: Session): (r: seq<XrdPhase>)
    ensures |r| <= |phases| && r == phases[..|r|]
    ensures s.autoflush || s.stored >= |phases| ==> r == phases
    ensures !s.autoflush && s.stored <= |phases| ==> |r| == s.stored
  {
    if s.autoflush || s.stored >= |phases| then phases else phases[..s.stored]
  }

  /** One mineral cell: the phase found with the key is updated in place, or a new one is added. */
  function Upsert(phases: seq<XrdPhase>, s: Session, exp: ExpRec, id: AerisId, rwp: Option<real>, mineral: string, amount: real)
    : (r: (seq<XrdPhase>, bool))
    ensures |r.0| == |phases| + (if r.1 then 1 else 0)
  {
    match FindPhase(Visible(phases, s), exp.experimentId, id.days, mineral)
    case Some(k) =>
      var p := phases[k].(amount := Some(amount), rwp := rwp, date := Some(id.date), sampleId := exp.sampleId, experimentFk := Some(exp.id));
      (phases[k := p], false)
    case None =>
      (phases + [XrdPhase(Some(exp.id), Some(exp.experimentId), exp.sampleId, Some(id.days), Some(id.date), rwp, mineral, Some(amount))], true)
  }

  /**
   * After an upsert the phase written (the one found, or the new last row) has the key and
   * holds the new amount, Rwp, date and links; it is a new row exactly when the query found
   * none; every other row is unchanged. Under autoflush the phase written is the key's first
   * row and unique keys stay unique.
   */
  lemma UpsertSpec(phases: seq<XrdPhase>, s: Session, exp: ExpRec, id: AerisId, rwp: Option<real>, mineral: string, amount: real)
    ensures var (ps, created) := Upsert(phases, s, exp, id, rwp, mineral, amount);
      var found := FindPhase(Visible(phases, s), exp.experimentId, id.days, mineral);
      var k := if found.Some? then found.value else |phases|;
      && (created <==> found.None?)
      && |ps| == |phases| + (if created then 1 else 0)
      && k < |ps| && HasKey(ps[k], exp.experimentId, id.days, mineral)
      && ps[k].amount == Some(amount) && ps[k].rwp == rwp && ps[k].date == Some(id.date)
      && ps[k].experimentFk == Some(exp.id) && ps[k].sampleId == exp.sampleId
      && (forall j | 0 <= j < |phases| && j != k :: ps[j] == phases[j])
      && (s.autoflush ==> FindPhase(ps, exp.experimentId, id.days, mineral) == Some(k))
      && (s.autoflush && UniqueKeys(phases) ==> UniqueKeys(ps))
  {
    var (ps, created) := Upsert(phases, s, exp, id, rwp, mineral, amount);
    var found := FindPhase(Visible(phases, s), exp.experimentId, id.days, mineral);
    if s.autoflush {
      if found.Some? {
        var k := found.value;
        assert HasKey(ps[k], exp.experimentId, id.days, mineral);
        FindPhaseFirst(ps, exp.experimentId, id.days, mineral, k);
      } else {
        assert HasKey(ps[|phases|], exp.experimentId, id.days, mineral);
        FindPhaseFirst(ps, exp.experimentId, id.days, mineral, |phases|);
      }
    }
  }

  /**
   * As written (autoflush off), a key that is new to the database and comes twice in one
   * upload (two rows with the same Sample ID, or two columns naming the same mineral) is
   * added twice, which the table's unique constraint refuses.
   */
  lemma RepeatedKeyAddedTwiceAsWritten(phases: seq<XrdPhase>, exp: ExpRec, id: AerisId, rwp: Option<real>, mineral: string, a1: real, a2: real)
    requires FindPhase(phases, exp.experimentId, id.days, mineral).None?
    ensures var s := Session(|phases|, false);
      var (ps1, c1) := Upsert(phases, s, exp, id, rwp, mineral, a1);
      var (ps2, c2) := Upsert(ps1, s, exp, id, rwp, mineral, a2);
      && c1 && c2 && |ps2| == |phases| + 2
      && HasKey(ps2[|phases|], exp.experimentId, id.days, mineral)
      && HasKey(ps2[|phases| + 1], exp.experimentId, id.days, mineral)
      && !UniqueKeys(ps2)
  {
    var s := Session(|phases|, false);
    var (ps1, c1) := Upsert(phases, s, exp, id, rwp, mineral, a1);
    assert Visible(ps1, s) == phases;
    var (ps2, c2) := Upsert(ps1, s, exp, id, rwp, mineral, a2);
    assert HasKey(ps2[|phases|], exp.experimentId, id.days, mineral);
    assert ps2[|phases|].experimentId.Some? && ps2[|phases|].days.Some?;
  }

  /** The first row with the key is the one found. */
  lemma FindPhaseFirst(phases: seq<XrdPhase>, experimentId: string, days: int, mineral: string, k: nat)
    requires k < |phases| && HasKey(phases[k], experimentId, days, mineral)
    requires forall j | 0 <= j < k :: !HasKey(phases[j], experimentId, days, mineral)
    ensures FindPhase(phases, experimentId, days, mineral) == Some(k)
  {
  }

  // ---------------------------------------------------------------- rows

  /** A data row: its cells by column name. */
  type Row = map<string, Cell>

  function Get(row: Row, col: string): Cell {
    if col in row then row[col] else Missing
  }

  /**
   * `str(cell)` of the Sample ID cell as written: pandas reads an empty cell as NaN, whose
   * text "nan" is not blank, so the row is reported as a bad ID instead of skipped. A
   * number's text is not modelled (none); it holds no `_`, so it never parses either.
   */
  function SampleTextAsWritten(c: Cell): Option<string> {
    match c
    case Missing => Some("nan")
    case Text(s) => Some(s)
    case Num(_) => None
  }

  /** As written, an empty Sample ID cell gives the text "nan", which is not blank and does not parse. */
  lemma BlankCellAsWritten()
    ensures SampleTextAsWritten(Missing) == Some("nan")
    ensures Strip("nan") != [] && ParseAerisSampleId("nan").None?
  {
    assert RSplitOnce("nan", '_').None? by {
      RSplitOnceProps("nan", '_');
    }
  }

  /** The Sample ID text the blank-row skip evidently means: an empty cell reads as blank. */
  function SampleText(c: Cell): (r: Option<string>)
    ensures c.Missing? ==> r == Some("")
    ensures !c.Missing? ==> r == SampleTextAsWritten(c)
  {
    match c
    case Missing => Some("")
    case Text(s) => Some(s)
    case Num(_) => None
  }

  /** How a row is handled, before its mineral cells are read. */
  datatype RowKind =
    | Blank
    | Unparsed(raw: Option<string>)
    | NoExperiment(experimentId: string)
    | Matched(exp: ExpRec, id: AerisId)

  /**
   * Blank (empty or whitespace) Sample IDs are skipped; an ID that does not parse, or whose
   * experiment is unknown, is rejected; anything else is matched with the experiment found.
   */
  function Classify(exps: seq<ExpRec>, sampleCol: string, row: Row): (r: RowKind)
    ensures Get(row, sampleCol).Missing? ==> r.Blank?
    ensures Get(row, sampleCol).Num? ==> r == Unparsed(None)
    ensures r.Matched? ==>
      && Get(row, sampleCol).Text?
      && ParseAerisSampleId(Strip(Get(row, sampleCol).s)) == Some(r.id)
      && FindExperiment(exps, r.id.experimentId).Some?
      && r.exp == exps[FindExperiment(exps, r.id.experimentId).value]
  {
    match SampleText(Get(row, sampleCol))
    case None => Unparsed(None)
    case Some(t) =>
      var raw := Strip(t);
      if raw == [] then Blank
      else match ParseAerisSampleId(raw)
        case None => Unparsed(Some(raw))
        case Some(id) =>
          match FindExperiment(exps, id.experimentId)
          case None => NoExperiment(id.experimentId)
          case Some(j) => Matched(exps[j], id)
  }

  /** The Rwp value: `float(cell)` when there is an Rwp column and the cell converts. */
  function RwpOf(layout: Layout, row: Row): Option<real> {
    if layout.rwpCol.Some? then FloatOf(Get(row, layout.rwpCol.value)) else None
  }

  /** The phases, created and updated counts after the mineral cells of one matched row. */
  datatype Applied = Applied(phases: seq<XrdPhase>, created: nat, updated: nat)

  /** The mineral loop over the first columns of `minerals`: numeric cells are upserted, others skipped. */
  function ApplyMinerals(phases: seq<XrdPhase>, s: Session, exp: ExpRec, id: AerisId, rwp: Option<real>, row: Row, minerals: seq<string>): Applied
    decreases |minerals|
  {
    if minerals == [] then Applied(phases, 0, 0)
    else
      var n := |minerals| - 1;
      var a := ApplyMinerals(phases, s, exp, id, rwp, row, minerals[..n]);
      match FloatOf(Get(row, minerals[n]))
      case None => a
      case Some(v) =>
        var (ps, created) := Upsert(a.phases, s, exp, id, rwp, CleanMineralName(minerals[n]), v);
        if created then Applied(ps, a.created + 1, a.updated) else Applied(ps, a.created, a.updated + 1)
  }

  /** The number of mineral cells of a row that convert to a number. */
  function NumericCells(row: Row, minerals: seq<string>): nat
    decreases |minerals|
  {
    if minerals == [] then 0
    else NumericCells(row, minerals[..|minerals| - 1]) + (if FloatOf(Get(row, minerals[|minerals| - 1])).Some? then 1 else 0)
  }

  /** Each numeric mineral cell is counted once, as created or as updated; under autoflush keys stay unique. */
  lemma {:induction false} ApplyMineralsCounts(phases: seq<XrdPhase>, s: Session, exp: ExpRec, id: AerisId, rwp: Option<real>, row: Row, minerals: seq<string>)
    ensures var a := ApplyMinerals(phases, s, exp, id, rwp, row, minerals);
      && a.created + a.updated == NumericCells(row, minerals)
      && |a.phases| == |phases| + a.created
      && (s.autoflush && UniqueKeys(phases) ==> UniqueKeys(a.phases))
    decreases |minerals|
  {
    if minerals != [] {
      var n := |minerals| - 1;
      ApplyMineralsCounts(phases, s, exp, id, rwp, row, minerals[..n]);
      var a := ApplyMinerals(phases, s, exp, id, rwp, row, minerals[..n]);
      var v := FloatOf(Get(row, minerals[n]));
      if v.Some? {
        UpsertSpec(a.phases, s, exp, id, rwp, CleanMineralName(minerals[n]), v.value);
      }
    }
  }

  /** The upload's counters and messages. */
  datatype Tally = Tally(created: nat, updated: nat, skipped: nat, errors: seq<AerisError>)

  /** One row of the loop, once classified; `rowNum` is its spreadsheet row number. */
  function StepKind(layout: Layout, s: Session, acc: (Tally, seq<XrdPhase>), rowNum: nat, row: Row, kind: RowKind): (Tally, seq<XrdPhase>) {
    var (t, ps) := acc;
    match kind
    case Blank => (t.(skipped := t.skipped + 1), ps)
    case Unparsed(raw) => (t.(errors := t.errors + [BadSampleId(rowNum, raw)]), ps)
    case NoExperiment(e) => (t.(errors := t.errors + [UnknownExperiment(rowNum, e)]), ps)
    case Matched(exp, id) =>
      var a := ApplyMinerals(ps, s, exp, id, RwpOf(layout, row), row, layout.minerals);
      (t.(created := t.created + a.created, updated := t.updated + a.updated), a.phases)
  }

  /** The row loop over the first `n` rows; the row number is the index plus two. */
  function ProcessRows(exps: seq<ExpRec>, layout: Layout, s: Session, phases: seq<XrdPhase>, rows: seq<Row>, n: nat): (Tally, seq<XrdPhase>)
    requires n <= |rows|
  {
    ProcessKinds(layout, s, phases, rows, Kinds(exps, layout.sampleCol, rows), n)
  }

  /** What one row adds to each counter and to the table. */
  lemma StepKindCounts(layout: Layout, s: Session, acc: (Tally, seq<XrdPhase>), rowNum: nat, row: Row, kind: RowKind)
    ensures var r := StepKind(layout, s, acc, rowNum, row, kind);
      && r.0.skipped == acc.0.skipped + (if kind.Blank? then 1 else 0)
      && |r.0.errors| == |acc.0.errors| + (if kind.Unparsed? || kind.NoExperiment? then 1 else 0)
      && r.0.created + r.0.updated == acc.0.created + acc.0.updated + (if kind.Matched? then NumericCells(row, layout.minerals) else 0)
      && r.0.created >= acc.0.created
      && |r.1| == |acc.1| + (r.0.created - acc.0.created)
      && (s.autoflush && UniqueKeys(acc.1) ==> UniqueKeys(r.1))
  {
    if kind.Matched? {
      ApplyMineralsCounts(acc.1, s, kind.exp, kind.id, RwpOf(layout, row), row, layout.minerals);
    }
  }

  /** `bulk_upsert_from_excel` on a sheet that was read, in a session with the given autoflush setting. */
  function Upload(exps: seq<ExpRec>, phases: seq<XrdPhase>, header: seq<string>, rows: seq<Row>, autoflush: bool): (Tally, seq<XrdPhase>) {
    match SheetLayout(header)
    case Rejected(e) => (Tally(0, 0, 0, [e]), phases)
    case Ready(layout) => ProcessRows(exps, layout, Session(|phases|, autoflush), phases, rows, |rows|)
  }

  /** How each row of the sheet is handled. */
  function Kinds(exps: seq<ExpRec>, sampleCol: string, rows: seq<Row>): (r: seq<RowKind>)
    ensures |r| == |rows| && forall i | 0 <= i < |rows| :: r[i] == Classify(exps, sampleCol, rows[i])
  {
    seq(|rows|, i requires 0 <= i < |rows| => Classify(exps, sampleCol, rows[i]))
  }

  /** The number of blank rows among the first `n`. */
  function CountBlank(kinds: seq<RowKind>, n: nat): nat
    requires n <= |kinds|
  {
    if n == 0 then 0 else CountBlank(kinds, n - 1) + (if kinds[n - 1].Blank? then 1 else 0)
  }

  /** The number of rows among the first `n` with a bad ID or an unknown experiment. */
  function CountRejected(kinds: seq<RowKind>, n: nat): nat
    requires n <= |kinds|
  {
    if n == 0 then 0 else CountRejected(kinds, n - 1) + (if kinds[n - 1].Unparsed? || kinds[n - 1].NoExperiment? then 1 else 0)
  }

  /** The number of numeric mineral cells in the matched rows among the first `n`. */
  function CountCells(kinds: seq<RowKind>, rows: seq<Row>, minerals: seq<string>, n: nat): nat
    requires n <= |kinds| == |rows|
  {
    if n == 0 then 0
    else CountCells(kinds, rows, minerals, n - 1) + (if kinds[n - 1].Matched? then NumericCells(rows[n - 1], minerals) else 0)
  }

  /** The row loop once every row has been classified: `kinds[i]` is how row `i` is handled. */
  function ProcessKinds(layout: Layout, s: Session, phases: seq<XrdPhase>, rows: seq<Row>, kinds: seq<RowKind>, n: nat): (Tally, seq<XrdPhase>)
    requires n <= |rows| == |kinds|
  {
    if n == 0 then (Tally(0, 0, 0, []), phases)
    else StepKind(layout, s, ProcessKinds(layout, s, phases, rows, kinds, n - 1), n + 1, rows[n - 1], kinds[n - 1])
  }

  /** The counters over the first `n` classified rows: skips, errors and written cells. */
  lemma {:induction false} ProcessKindsCounts(layout: Layout, s: Session, phases: seq<XrdPhase>, rows: seq<Row>, kinds: seq<RowKind>, n: nat)
    requires n <= |rows| == |kinds|
    ensures var r := ProcessKinds(layout, s, phases, rows, kinds, n);
      && r.0.skipped == CountBlank(kinds, n)
      && |r.0.errors| == CountRejected(kinds, n)
      && r.0.created + r.0.updated == CountCells(kinds, rows, layout.minerals, n)
  {
    if n > 0 {
      ProcessKindsCounts(layout, s, phases, rows, kinds, n - 1);
      StepKindCounts(layout, s, ProcessKinds(layout, s, phases, rows, kinds, n - 1), n + 1, rows[n - 1], kinds[n - 1]);
    }
  }

  /** The table over the first `n` classified rows: one new row per creation, unique keys kept under autoflush. */
  lemma {:induction false} ProcessKindsTable(layout: Layout, s: Session, phases: seq<XrdPhase>, rows: seq<Row>, kinds: seq<RowKind>, n: nat)
    requires n <= |rows| == |kinds|
    ensures var r := ProcessKinds(layout, s, phases, rows, kinds, n);
      && |r.1| == |phases| + r.0.created
      && (s.autoflush && UniqueKeys(phases) ==> UniqueKeys(r.1))
  {
    if n > 0 {
      ProcessKindsTable(layout, s, phases, rows, kinds, n - 1);
      StepKindCounts(layout, s, ProcessKinds(layout, s, phases, rows, kinds, n - 1), n + 1, rows[n - 1], kinds[n - 1]);
    }
  }

  /**
   * Every blank Sample ID is one skip, every unparseable ID or unknown experiment one
   * error, every numeric mineral cell of a matched row one creation or update; new rows are
   * exactly the creations, and under autoflush unique keys stay unique.
   */
  lemma ProcessRowsAccounting(exps: seq<ExpRec>, layout: Layout, s: Session, phases: seq<XrdPhase>, rows: seq<Row>, n: nat)
    requires n <= |rows|
    ensures var r := ProcessRows(exps, layout, s, phases, rows, n);
      var kinds := Kinds(exps, layout.sampleCol, rows);
      && r.0.skipped == CountBlank(kinds, n)
      && |r.0.errors| == CountRejected(kinds, n)
      && r.0.created + r.0.updated == CountCells(kinds, rows, layout.minerals, n)
      && |r.1| == |phases| + r.0.created
      && (s.autoflush && UniqueKeys(phases) ==> UniqueKeys(r.1))
  {
    var kinds := Kinds(exps, layout.sampleCol, rows);
    ProcessKindsCounts(layout, s, phases, rows, kinds, n);
    ProcessKindsTable(layout, s, phases, rows, kinds, n);
  }

  /** A rejected sheet reports its one error and changes nothing. */
  lemma UploadRejected(exps: seq<ExpRec>, phases: seq<XrdPhase>, header: seq<string>, rows: seq<Row>, autoflush: bool)
    requires SheetLayout(header).Rejected?
    ensures Upload(exps, phases, header, rows, autoflush) == (Tally(0, 0, 0, [SheetLayout(header).error]), phases)
  {
  }

  // ---------------------------------------------------------------- the upload

  /** The phase table the upload writes, and the experiments it reads. */
  class XrdPhaseStore {
    /** Whether the session flushes added rows before a query. */
    const autoflush: bool
    var experiments: seq<ExpRec>
    var phases: seq<XrdPhase>

    constructor (experiments: seq<ExpRec>, phases: seq<XrdPhase>, autoflush: bool)
      ensures this.experiments == experiments && this.phases == phases && this.autoflush == autoflush
    {
      this.autoflush := autoflush;
      this.experiments := experiments;
      this.phases := phases;
    }

    /** The mineral loop for one matched row. */
    method UpsertMinerals(s: Session, exp: ExpRec, id: AerisId, rwp: Option<real>, row: Row, minerals: seq<string>)
      returns (created: nat, updated: nat)
      modifies this
      ensures experiments == old(experiments)
      ensures Applied(phases, created, updated) == ApplyMinerals(old(phases), s, exp, id, rwp, row, minerals)
    {
      created, updated := 0, 0;
      var i := 0;
      while i < |minerals|
        invariant 0 <= i <= |minerals| && experiments == old(experiments)
        invariant Applied(phases, created, updated) == ApplyMinerals(old(phases), s, exp, id, rwp, row, minerals[..i])
      {
        assert minerals[..i + 1][..i] == minerals[..i];
        var value := FloatOf(Get(row, minerals[i]));
        if value.Some? {
          var name := CleanMineralName(minerals[i]);
          var visible := if s.autoflush || s.stored >= |phases| then phases else phases[..s.stored];
          var k := FindPhase(visible, exp.experimentId, id.days, name);
          if k.Some? {
            var p := phases[k.value];
            phases := phases[k.value := p.(amount := Some(value.value), rwp := rwp, date := Some(id.date), sampleId := exp.sampleId, experimentFk := Some(exp.id))];
            updated := updated + 1;
          } else {
            phases := phases + [XrdPhase(Some(exp.id), Some(exp.experimentId), exp.sampleId, Some(id.days), Some(id.date), rwp, name, Some(value.value))];
            created := created + 1;
          }
        }
        i := i + 1;
      }
      assert minerals[..i] == minerals;
    }

    /** The Sample ID checks of one row, with experiment lookups cached by raw id. */
    method ClassifyRow(sampleCol: string, row: Row, cache0: map<string, Option<nat>>) returns (kind: RowKind, cache: map<string, Option<nat>>)
      requires forall k | k in cache0 :: cache0[k] == FindExperiment(experiments, k)
      ensures kind == Classify(experiments, sampleCol, row)
      ensures forall k | k in cache :: cache[k] == FindExperiment(experiments, k)
    {
      cache := cache0;
      var text := SampleText(Get(row, sampleCol));
      if text.None? {
        return Unparsed(None), cache;
      }
      var raw := Strip(text.value);
      if raw == [] {
        return Blank, cache;
      }
      var parsed := ParseAerisSampleId(raw);
      if parsed.None? {
        return Unparsed(Some(raw)), cache;
      }
      var id := parsed.value;
      if id.experimentId !in cache {
        cache := cache[id.experimentId := FindExperiment(experiments, id.experimentId)];
      }
      var found := cache[id.experimentId];
      if found.None? {
        kind := NoExperiment(id.experimentId);
      } else {
        kind := Matched(experiments[found.value], id);
      }
    }

    /** The handling of one classified row: a skip, an error, or its mineral cells upserted. */
    method ApplyRow(layout: Layout, s: Session, created0: nat, updated0: nat, skipped0: nat, errors0: seq<AerisError>, rowNum: nat, row: Row, kind: RowKind)
      returns (created: nat, updated: nat, skipped: nat, errors: seq<AerisError>)
      modifies this
      ensures experiments == old(experiments)
      ensures (Tally(created, updated, skipped, errors), phases)
        == StepKind(layout, s, (Tally(created0, updated0, skipped0, errors0), old(phases)), rowNum, row, kind)
    {
      created, updated, skipped, errors := created0, updated0, skipped0, errors0;
      match kind {
        case Blank =>
          skipped := skipped + 1;
        case Unparsed(raw) =>
          errors := errors + [BadSampleId(rowNum, raw)];
        case NoExperiment(e) =>
          errors := errors + [UnknownExperiment(rowNum, e)];
        case Matched(exp, id) =>
          var c, u := UpsertMinerals(s, exp, id, RwpOf(layout, row), row, layout.minerals);
          created, updated := created + c, updated + u;
      }
    }

    /**
     * `bulk_upsert_from_excel`: the header checks, then the row loop, which counts a blank
     * Sample ID as skipped, reports a bad ID or an unknown experiment, and upserts the
     * mineral cells of every other row.
     */
    method BulkUpsert(header: seq<string>, rows: seq<Row>) returns (created: nat, updated: nat, skipped: nat, errors: seq<AerisError>)
      modifies this
      ensures experiments == old(experiments)
      ensures (Tally(created, updated, skipped, errors), phases) == Upload(experiments, old(phases), header, rows, autoflush)
    {
      var setup := SheetLayout(header);
      if setup.Rejected? {
        return 0, 0, 0, [setup.error];
      }
      var layout := setup.layout;
      var s := Session(|phases|, autoflush);
      created, updated, skipped, errors := 0, 0, 0, [];
      var cache: map<string, Option<nat>> := map[];
      var idx := 0;
      while idx < |rows|
        invariant 0 <= idx <= |rows| && experiments == old(experiments)
        invariant (Tally(created, updated, skipped, errors), phases) == ProcessRows(experiments, layout, s, old(phases), rows, idx)
        invariant forall k | k in cache :: cache[k] == FindExperiment(experiments, k)
      {
        var row := rows[idx];
        var rowNum := idx + 2;
        var kind;
        kind, cache := ClassifyRow(layout.sampleCol, row, cache);
        assert ProcessRows(experiments, layout, s, old(phases), rows, idx + 1)
          == StepKind(layout, s, ProcessRows(experiments, layout, s, old(phases), rows, idx), idx + 2, row, kind);
        created, updated, skipped, errors := ApplyRow(layout, s, created, updated, skipped, errors, idx + 2, row, kind);
        idx := idx + 1;
      }
    }
  }
}
