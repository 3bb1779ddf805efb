/**
 * The ActLabs rock-titration importer and the analyte-definition upload
 * (`backend/services/bulk_uploads/actlabs_titration_data.py`).
 *
 * An ActLabs report is a headerless grid: a few report rows, the analyte symbols on row 2, their
 * units on row 3, then detection limits, the analysis method and one row per sample. The importer
 * finds the sample-ID column and the first data row by scanning, maps each analyte symbol to its
 * last column, upserts the analytes and then upserts one elemental-analysis row per (sample,
 * analyte) numeric cell.
 *
 * The database session is modelled as the rows it holds plus how many of them are already in the
 * database: with autoflush off (the application's session factory) a query sees only those, not
 * the rows added earlier in the same upload. The session's autoflush setting is a parameter, so
 * the model covers the code as written and the behaviour it evidently intends.
 */
module ActlabsTitration {
  import opened Wrappers
  import opened PyStr
  import opened Values

  /** Python's `str` of a float. */
  type FloatText = real -> string

  // ---------------------------------------------------------------------------------------------
  // The raw grid
  // ---------------------------------------------------------------------------------------------

  /** A table read with `header=None`: `width` columns; a cell beyond a short row is missing. */
  datatype Grid = Grid(width: nat, rows: seq<seq<Value>>)

  function At(g: Grid, i: nat, c: nat): Value {
    if i < |g.rows| && c < g.width && c < |g.rows[i]| then g.rows[i][c] else VNone
  }

  /** `df.empty`: no rows or no columns. */
  predicate Empty(g: Grid) {
    g.rows == [] || g.width == 0
  }

  /** `str(x)` of a cell; an empty cell is NaN, whose text is "nan". */
  function CellStr(v: Value, ft: FloatText): string {
    if v.VNone? then "nan" else StrOf(v, ft)
  }

  function Min(a: nat, b: nat): nat {
    if a < b then a else b
  }

  // ---------------------------------------------------------------------------------------------
  // The sample-ID column
  // ---------------------------------------------------------------------------------------------

  /** A header cell that names the sample ID: it mentions "sample" and "id", or is "sample_id". */
  predicate NamesSampleId(v: Value, ft: FloatText) {
    var s := Lower(CellStr(v, ft));
    (Contains(s, "sample") && Contains(s, "id")) || Strip(s) == "sample_id"
  }

  /** One of the column's first six cells names the sample ID. */
  predicate ColumnMarked(g: Grid, c: nat, ft: FloatText) {
    exists i | 0 <= i < Min(6, |g.rows|) :: NamesSampleId(At(g, i, c), ft)
  }

  /** The first marked column at or after `c`, or 0 when there is none. */
  function FirstMarkedFrom(g: Grid, c: nat, ft: FloatText): (r: nat)
    requires c <= g.width
    ensures (c <= r < g.width && ColumnMarked(g, r, ft) && forall k | c <= k < r :: !ColumnMarked(g, k, ft))
      || (r == 0 && forall k | c <= k < g.width :: !ColumnMarked(g, k, ft))
    decreases g.width - c
  {
    if c == g.width then 0
    else if ColumnMarked(g, c, ft) then c
    else FirstMarkedFrom(g, c + 1, ft)
  }

  /** `_detect_sample_id_col`: the lowest marked column, falling back to column 0. */
  function SampleIdCol(g: Grid, ft: FloatText): (r: nat)
    ensures (r < g.width && ColumnMarked(g, r, ft) && forall k | 0 <= k < r :: !ColumnMarked(g, k, ft))
      || (r == 0 && forall k | 0 <= k < g.width :: !ColumnMarked(g, k, ft))
  {
    FirstMarkedFrom(g, 0, ft)
  }

  /** The column scan of `_detect_sample_id_col`. */
  method DetectSampleIdCol(g: Grid, ft: FloatText) returns (c: nat)
    ensures c == SampleIdCol(g, ft)
  {
    c := 0;
    while c < g.width
      invariant c <= g.width
      invariant SampleIdCol(g, ft) == FirstMarkedFrom(g, c, ft)
    {
      if ColumnMarked(g, c, ft) {
        return;
      }
      c := c + 1;
    }
    c := 0;
  }

  // ---------------------------------------------------------------------------------------------
  // The first data row
  // ---------------------------------------------------------------------------------------------

  /** The first cell of a row, stripped and lower-cased; "" when the grid has no column. */
  function FirstCell(g: Grid, i: nat, ft: FloatText): string {
    if g.width == 0 then "" else Lower(Strip(CellStr(At(g, i, 0), ft)))
  }

  predicate MethodRow(g: Grid, i: nat, ft: FloatText) {
    "analysis method" <= FirstCell(g, i, ft)
  }

  /** Which of the first twelve rows are method rows. */
  function MethodRows(g: Grid, ft: FloatText): (r: seq<bool>)
    ensures |r| == Min(12, |g.rows|) && forall k | 0 <= k < |r| :: r[k] == MethodRow(g, k, ft)
  {
    seq(Min(12, |g.rows|), k requires 0 <= k < Min(12, |g.rows|) => MethodRow(g, k, ft))
  }

  /** The row after the first flagged row at or after `i`, or 4 when there is none. */
  function StartFrom(flags: seq<bool>, i: nat): (r: nat)
    requires i <= |flags|
    ensures i < r <= |flags| || r == 4
    decreases |flags| - i
  {
    if i == |flags| then 4
    else if flags[i] then i + 1
    else StartFrom(flags, i + 1)
  }

  /** The scan from row `i` stops after the first flagged row, or gives 4 when there is none. */
  lemma {:induction false} StartFromSpec(flags: seq<bool>, i: nat)
    requires i <= |flags|
    ensures var r := StartFrom(flags, i);
      (i < r <= |flags| && flags[r - 1] && forall k | i <= k < r - 1 :: !flags[k])
      || (r == 4 && forall k | i <= k < |flags| :: !flags[k])
    decreases |flags| - i
  {
    if i < |flags| && !flags[i] {
      StartFromSpec(flags, i + 1);
    }
  }

  /** `_find_data_start_index`. */
  function DataStart(g: Grid, ft: FloatText): (r: nat)
    ensures 0 < r <= Min(12, |g.rows|) || r == 4
  {
    StartFrom(MethodRows(g, ft), 0)
  }

  /**
   * The first data row follows the first of the first twelve rows that is a method row, and
   * is row 4 when there is none.
   */
  lemma DataStartSpec(g: Grid, ft: FloatText)
    ensures var r := DataStart(g, ft);
      (0 < r <= Min(12, |g.rows|) && MethodRow(g, r - 1, ft) && forall k | 0 <= k < r - 1 :: !MethodRow(g, k, ft))
      || (r == 4 && forall k | 0 <= k < Min(12, |g.rows|) :: !MethodRow(g, k, ft))
  {
    var flags := MethodRows(g, ft);
    StartFromSpec(flags, 0);
    var r := DataStart(g, ft);
    if 0 < r <= Min(12, |g.rows|) && flags[r - 1] && forall k | 0 <= k < r - 1 :: !flags[k] {
      assert MethodRow(g, r - 1, ft);
    }
  }

  /** The row scan of `_find_data_start_index`. */
  method FindDataStartIndex(g: Grid, ft: FloatText) returns (start: nat)
    ensures start == DataStart(g, ft)
  {
    ghost var flags := MethodRows(g, ft);
    var i := 0;
    while i < Min(12, |g.rows|)
      invariant i <= Min(12, |g.rows|)
      invariant DataStart(g, ft) == StartFrom(flags, i)
    {
      if MethodRow(g, i, ft) {
        return i + 1;
      }
      i := i + 1;
    }
    start := 4;
  }

  // ---------------------------------------------------------------------------------------------
  // The analyte header
  // ---------------------------------------------------------------------------------------------

  /** An analyte symbol and the column and unit it was last seen with. */
  datatype Entry = Entry(symbol: string, column: nat, unit: Option<string>)

  /** The symbol in row 2 of a column, unless the cell is empty or blank. */
  function SymbolAt(g: Grid, c: nat, ft: FloatText): (r: Option<string>)
    ensures r.Some? ==> r.value != []
  {
    var v := At(g, 2, c);
    if v.VNone? then None
    else
      var s := Strip(StrOf(v, ft));
      if s == [] then None else Some(s)
  }

  /** The unit in row 3 of a column; an empty or blank cell gives none. */
  function UnitAt(g: Grid, c: nat, ft: FloatText): (r: Option<string>)
    ensures r.Some? ==> r.value != []
  {
    var v := At(g, 3, c);
    if v.VNone? then None
    else
      var s := Strip(StrOf(v, ft));
      if s == [] then None else Some(s)
  }

  predicate SymbolsDistinct(entries: seq<Entry>) {
    forall i, j | 0 <= i < j < |entries| :: entries[i].symbol != entries[j].symbol
  }

  /**
   * `d[e.symbol] = (column, unit)` on a dictionary kept in insertion order: a symbol already
   * present keeps its place and takes the new value, a new symbol goes last.
   */
  function Put(entries: seq<Entry>, e: Entry): (r: seq<Entry>)
    requires SymbolsDistinct(entries)
    ensures SymbolsDistinct(r)
    ensures forall i | 0 <= i < |r| :: r[i] == e || (r[i] in entries && r[i].symbol != e.symbol)
    ensures e in r
    ensures forall x | x in entries && x.symbol != e.symbol :: x in r
  {
    if exists i | 0 <= i < |entries| :: entries[i].symbol == e.symbol then
      var i :| 0 <= i < |entries| && entries[i].symbol == e.symbol;
      var r := entries[i := e];
      assert r[i] == e;
      assert forall k | 0 <= k < |entries| && k != i :: r[k] == entries[k];
      r
    else
      var r := entries + [e];
      assert r[|entries|] == e;
      r
  }

  /** `_extract_last_analyte_map` over the first `n` columns. */
  function AnalyteMap(g: Grid, sampleCol: nat, n: nat, ft: FloatText): (r: seq<Entry>)
    ensures SymbolsDistinct(r)
    decreases n
  {
    if n == 0 then []
    else
      var m := AnalyteMap(g, sampleCol, n - 1, ft);
      var c := n - 1;
      var sym := SymbolAt(g, c, ft);
      if c == sampleCol || sym.None? then m
      else Put(m, Entry(sym.value, c, UnitAt(g, c, ft)))
  }

  /**
   * Each symbol of the map names the last column (other than the sample column) that carries it,
   * with that column's unit.
   */
  lemma {:induction false} AnalyteMapLastColumnWins(g: Grid, sampleCol: nat, n: nat, ft: FloatText)
    ensures forall e | e in AnalyteMap(g, sampleCol, n, ft) :: LastColumn(g, sampleCol, n, ft, e)
    decreases n
  {
    if n > 0 {
      AnalyteMapLastColumnWins(g, sampleCol, n - 1, ft);
      var m := AnalyteMap(g, sampleCol, n - 1, ft);
      var c := n - 1;
      var sym := SymbolAt(g, c, ft);
      if c == sampleCol || sym.None? {
        forall x | x in m
          ensures LastColumn(g, sampleCol, n, ft, x)
        {
          LastColumnExtends(g, sampleCol, n, ft, x);
        }
      } else {
        var e := Entry(sym.value, c, UnitAt(g, c, ft));
        forall x | x in Put(m, e)
          ensures LastColumn(g, sampleCol, n, ft, x)
        {
          if x != e {
            assert x in m && x.symbol != e.symbol;
            LastColumnExtends(g, sampleCol, n, ft, x);
          }
        }
      }
    }
  }

  /** An entry that was last among `n - 1` columns stays last when column `n - 1` does not carry its symbol. */
  lemma LastColumnExtends(g: Grid, sampleCol: nat, n: nat, ft: FloatText, x: Entry)
    requires n > 0 && LastColumn(g, sampleCol, n - 1, ft, x)
    requires n - 1 == sampleCol || SymbolAt(g, n - 1, ft) != Some(x.symbol)
    ensures LastColumn(g, sampleCol, n, ft, x)
  {
    forall c | x.column < c < n && c != sampleCol
      ensures SymbolAt(g, c, ft) != Some(x.symbol)
    {
      if c < n - 1 {
        assert x.column < c < n - 1;
      }
    }
  }

  /** Entry `e` names a header column other than the sample column, the last one with its symbol. */
  predicate LastColumn(g: Grid, sampleCol: nat, n: nat, ft: FloatText, e: Entry) {
    e.column < n && e.column != sampleCol && SymbolAt(g, e.column, ft) == Some(e.symbol)
    && e.unit == UnitAt(g, e.column, ft)
    && forall c | e.column < c < n && c != sampleCol :: SymbolAt(g, c, ft) != Some(e.symbol)
  }

  /** Every symbol in the header, outside the sample column, is in the map. */
  lemma AnalyteMapComplete(g: Grid, sampleCol: nat, n: nat, ft: FloatText)
    ensures forall c | 0 <= c < n && c != sampleCol && SymbolAt(g, c, ft).Some? ::
      exists e | e in AnalyteMap(g, sampleCol, n, ft) :: e.symbol == SymbolAt(g, c, ft).value
  {
    forall c | 0 <= c < n && c != sampleCol && SymbolAt(g, c, ft).Some?
      ensures exists e | e in AnalyteMap(g, sampleCol, n, ft) :: e.symbol == SymbolAt(g, c, ft).value
    {
      var x := AnalyteMapHas(g, sampleCol, n, ft, c);
    }
  }

  /** `AnalyteMapComplete` for one column: the entry carrying its symbol. */
  lemma {:induction false} AnalyteMapHas(g: Grid, sampleCol: nat, n: nat, ft: FloatText, c: nat) returns (x: Entry)
    requires c < n && c != sampleCol && SymbolAt(g, c, ft).Some?
    ensures x in AnalyteMap(g, sampleCol, n, ft) && x.symbol == SymbolAt(g, c, ft).value
    decreases n
  {
    var m := AnalyteMap(g, sampleCol, n - 1, ft);
    var sym := SymbolAt(g, n - 1, ft);
    if c < n - 1 {
      x := AnalyteMapHas(g, sampleCol, n - 1, ft, c);
      if n - 1 != sampleCol && sym.Some? {
        var e := Entry(sym.value, n - 1, UnitAt(g, n - 1, ft));
        assert AnalyteMap(g, sampleCol, n, ft) == Put(m, e);
        x := PutKeepsEntry(m, e, x);
      } else {
        assert AnalyteMap(g, sampleCol, n, ft) == m;
      }
    } else {
      x := Entry(sym.value, n - 1, UnitAt(g, n - 1, ft));
      assert AnalyteMap(g, sampleCol, n, ft) == Put(m, x);
    }
  }

  /** The symbol of an entry in the map is in the map after a put. */
  lemma PutKeepsEntry(m: seq<Entry>, e: Entry, x: Entry) returns (y: Entry)
    requires SymbolsDistinct(m) && x in m
    ensures y in Put(m, e) && y.symbol == x.symbol
  {
    y := if x.symbol == e.symbol then e else x;
  }

  /** The whole header map, or `None` where `iloc[2]`/`iloc[3]` would raise IndexError. */
  function ExtractLastAnalyteMap(g: Grid, sampleCol: nat, ft: FloatText): (r: Option<seq<Entry>>)
    ensures r.None? <==> |g.rows| < 4
  {
    if |g.rows| < 4 then None else Some(AnalyteMap(g, sampleCol, g.width, ft))
  }

  /** The column loop of `_extract_last_analyte_map`, overwriting dictionary entries. */
  method ExtractLastAnalytes(g: Grid, sampleCol: nat, ft: FloatText) returns (r: Option<seq<Entry>>)
    ensures r == ExtractLastAnalyteMap(g, sampleCol, ft)
  {
    if |g.rows| < 4 {
      return None;
    }
    var m: seq<Entry> := [];
    var c := 0;
    while c < g.width
      invariant c <= g.width
      invariant m == AnalyteMap(g, sampleCol, c, ft)
    {
      var sym := SymbolAt(g, c, ft);
      if c != sampleCol && sym.Some? {
        m := Put(m, Entry(sym.value, c, UnitAt(g, c, ft)));
      }
      c := c + 1;
    }
    r := Some(m);
  }

  // ---------------------------------------------------------------------------------------------
  // Cell values
  // ---------------------------------------------------------------------------------------------

  /** The texts ActLabs uses for "not detected" / "not analysed", compared lower-cased. */
  const Undetected: set<string> := {"nd", "na", "n/a"}

  /** `s.lstrip(chars)`. */
  function TrimLeading(s: string, chars: set<char>): (r: string)
    ensures |r| <= |s|
    ensures s != [] && s[0] !in chars ==> r == s
  {
    if s != [] && s[0] in chars then TrimLeading(s[1..], chars) else s
  }

  /** `float(s)` of a text; `None` where Python raises. */
  function ParseFloat(s: string): Option<real> {
    FloatOfValue(VText(s))
  }

  /** The number after any leading '<' and '>' qualifiers. */
  function Unqualified(sx: string): string {
    Strip(TrimLeading(sx, {'<', '>'}))
  }

  /** `_coerce_number` on the stripped, non-empty text of a cell. */
  function CoerceText(sx: string): (r: (Option<real>, Option<string>))
    ensures Lower(sx) in Undetected ==> r == (None, Some(sx))
    ensures r.1.Some? ==> r.1.value == sx
    ensures r.0.Some? && r.1.None? ==> r.0 == ParseFloat(sx)
    ensures r.0.Some? && r.1.Some? ==> ParseFloat(sx).None? && r.0 == ParseFloat(Unqualified(sx))
  {
    if Lower(sx) in Undetected then (None, Some(sx))
    else
      var val := ParseFloat(sx);
      if val.Some? then (val, None)
      else
        var val2 := ParseFloat(Unqualified(sx));
        if val2.Some? then (val2, Some(sx)) else (None, Some(sx))
  }

  /**
   * `_coerce_number`: the number a cell holds, and the cell's text when it is not a plain number.
   * A float cell is its own value (Python's `str` of a float reads back as the same float).
   */
  function CoerceNumber(v: Value, ft: FloatText): (r: (Option<real>, Option<string>))
    ensures v.VNone? ==> r == (None, None)
    ensures v.VNum? ==> r == (Some(v.x), None)
    ensures !v.VNone? && !v.VNum? ==>
      var sx := Strip(StrOf(v, ft));
      r == (if sx == [] then (None, None) else CoerceText(sx))
  {
    match v
    case VNone => (None, None)
    case VNum(x) => (Some(x), None)
    case _ =>
      var sx := Strip(StrOf(v, ft));
      if sx == [] then (None, None) else CoerceText(sx)
  }

  /**
   * A value comes back together with text only for a number qualified by a leading '<' or '>'
   * ("<0.01"): the value is the number after the qualifiers.
   */
  lemma CoerceQualified(sx: string)
    requires sx != [] && IsStripped(sx) && CoerceText(sx).0.Some? && CoerceText(sx).1.Some?
    ensures sx[0] in {'<', '>'} && CoerceText(sx).0 == ParseFloat(Unqualified(sx))
  {
    if sx[0] !in {'<', '>'} {
      UnqualifiedPlain(sx);
    }
  }

  /** Text that does not start with a qualifier is its own unqualified number. */
  lemma UnqualifiedPlain(sx: string)
    requires sx != [] && IsStripped(sx) && sx[0] !in {'<', '>'}
    ensures Unqualified(sx) == sx
  {
    assert TrimLeading(sx, {'<', '>'}) == sx;
    StripOfStripped(sx);
  }

  // ---------------------------------------------------------------------------------------------
  // The session's tables
  // ---------------------------------------------------------------------------------------------

  datatype Analyte = Analyte(id: int, symbol: string, unit: string)

  /** An elemental-analysis row: one composition value per (sample, analyte). */
  datatype Composition = Composition(sampleId: string, analyteId: int, value: real)

  /**
   * The analytes and compositions the session holds, the samples in the database, and how many
   * analyte and composition rows the database itself has; the rest were added in this session and
   * are pending until a flush.
   */
  datatype Tables = Tables(analytes: seq<Analyte>, results: seq<Composition>, samples: set<string>,
                           storedAnalytes: nat, storedResults: nat)
  {
    predicate Valid() {
      storedAnalytes <= |analytes| && storedResults <= |results|
    }
  }

  /** The analytes a query returns: all of them under autoflush, else only the stored ones. */
  function VisibleAnalytes(t: Tables, autoflush: bool): (r: seq<Analyte>)
    requires t.Valid()
    ensures r <= t.analytes
    ensures autoflush ==> r == t.analytes
  {
    if autoflush then t.analytes else t.analytes[..t.storedAnalytes]
  }

  function VisibleResults(t: Tables, autoflush: bool): (r: seq<Composition>)
    requires t.Valid()
    ensures r <= t.results
    ensures autoflush ==> r == t.results
  {
    if autoflush then t.results else t.results[..t.storedResults]
  }

  function AnalyteIds(analytes: seq<Analyte>): (r: seq<int>)
    ensures |r| == |analytes| && forall i | 0 <= i < |analytes| :: r[i] == analytes[i].id
  {
    seq(|analytes|, i requires 0 <= i < |analytes| => analytes[i].id)
  }

  /** `filter(Analyte.analyte_symbol.ilike(sym)).first()`: the first analyte with the symbol, any case. */
  function FindSymbol(analytes: seq<Analyte>, sym: string): (r: Option<nat>)
    ensures r.Some? ==> (r.value < |analytes| && Lower(analytes[r.value].symbol) == Lower(sym)
      && forall j | 0 <= j < r.value :: Lower(analytes[j].symbol) != Lower(sym))
    ensures r.None? ==> forall j | 0 <= j < |analytes| :: Lower(analytes[j].symbol) != Lower(sym)
    decreases |analytes|
  {
    if analytes == [] then None
    else if Lower(analytes[0].symbol) == Lower(sym) then Some(0)
    else
      var r := FindSymbol(analytes[1..], sym);
      if r.Some? then Some(r.value + 1) else None
  }

  /** Analyte symbols and ids never change; rows are only added after the old ones. */
  predicate AnalytesExtend(t: Tables, r: Tables) {
    |t.analytes| <= |r.analytes|
    && forall i | 0 <= i < |t.analytes| ::
         r.analytes[i].symbol == t.analytes[i].symbol && r.analytes[i].id == t.analytes[i].id
  }

  /**
   * One entry of the analyte upsert of `import_excel`: a known symbol takes the header's unit
   * when there is one; a new symbol is added with that unit, or "ppm".
   */
  function UpsertAnalyte(t: Tables, e: Entry, autoflush: bool): (r: Tables)
    requires t.Valid()
    ensures r.Valid() && r.results == t.results && r.samples == t.samples
    ensures r.storedAnalytes == t.storedAnalytes && r.storedResults == t.storedResults
    ensures AnalytesExtend(t, r)
    ensures autoflush ==> exists i | 0 <= i < |r.analytes| :: Lower(r.analytes[i].symbol) == Lower(e.symbol)
  {
    match FindSymbol(VisibleAnalytes(t, autoflush), e.symbol)
    case Some(i) =>
      if e.unit.Some? then t.(analytes := t.analytes[i := t.analytes[i].(unit := e.unit.value)]) else t
    case None =>
      var a := Analyte(Fresh(AnalyteIds(t.analytes)), e.symbol, e.unit.UnwrapOr("ppm"));
      var r := t.(analytes := t.analytes + [a]);
      assert r.analytes[|t.analytes|] == a;
      r
  }

  function UpsertAnalytes(t: Tables, entries: seq<Entry>, autoflush: bool): (r: Tables)
    requires t.Valid()
    ensures r.Valid() && r.results == t.results && r.samples == t.samples
    ensures r.storedAnalytes == t.storedAnalytes && r.storedResults == t.storedResults
    decreases |entries|
  {
    if entries == [] then t
    else
      var n := |entries| - 1;
      UpsertAnalyte(UpsertAnalytes(t, entries[..n], autoflush), entries[n], autoflush)
  }

  /** `{a.analyte_symbol.lower(): a for a in analytes}`: a later analyte wins. */
  function SymbolIndex(analytes: seq<Analyte>): (m: map<string, int>)
    ensures forall i | 0 <= i < |analytes| :: Lower(analytes[i].symbol) in m
    ensures forall k | k in m :: exists i | 0 <= i < |analytes| :: Lower(analytes[i].symbol) == k
    decreases |analytes|
  {
    if analytes == [] then map[]
    else
      var n := |analytes| - 1;
      var m := SymbolIndex(analytes[..n]);
      assert forall i | 0 <= i < n :: analytes[..n][i] == analytes[i];
      m[Lower(analytes[n].symbol) := analytes[n].id]
  }

  /** Under autoflush, every symbol of the header resolves to an analyte after the upsert. */
  lemma {:induction false} UpsertedSymbolsResolve(t: Tables, entries: seq<Entry>)
    requires t.Valid()
    ensures AnalytesExtend(t, UpsertAnalytes(t, entries, true))
    ensures forall e | e in entries ::
      Lower(e.symbol) in SymbolIndex(VisibleAnalytes(UpsertAnalytes(t, entries, true), true))
    decreases |entries|
  {
    if entries != [] {
      var n := |entries| - 1;
      var mid := UpsertAnalytes(t, entries[..n], true);
      UpsertedSymbolsResolve(t, entries[..n]);
      var r := UpsertAnalyte(mid, entries[n], true);
      assert AnalytesExtend(mid, r);
      forall e | e in entries
        ensures Lower(e.symbol) in SymbolIndex(r.analytes)
      {
        if e in entries[..n] {
          var i :| 0 <= i < |mid.analytes| && Lower(mid.analytes[i].symbol) == Lower(e.symbol);
          assert r.analytes[i].symbol == mid.analytes[i].symbol;
        } else {
          assert e == entries[n];
        }
      }
    }
  }

  // ---------------------------------------------------------------------------------------------
  // Composition rows
  // ---------------------------------------------------------------------------------------------

  function FindPair(results: seq<Composition>, sample: string, analyteId: int): (r: Option<nat>)
    ensures r.Some? ==> (r.value < |results| && results[r.value].sampleId == sample
      && results[r.value].analyteId == analyteId)
    ensures r.None? ==> forall j | 0 <= j < |results| ::
      !(results[j].sampleId == sample && results[j].analyteId == analyteId)
    decreases |results|
  {
    if results == [] then None
    else if results[0].sampleId == sample && results[0].analyteId == analyteId then Some(0)
    else
      var r := FindPair(results[1..], sample, analyteId);
      if r.Some? then Some(r.value + 1) else None
  }

  /** The table's uniqueness constraint: one row per (sample, analyte). */
  predicate PairsUnique(results: seq<Composition>) {
    forall i, j | 0 <= i < j < |results| ::
      !(results[i].sampleId == results[j].sampleId && results[i].analyteId == results[j].analyteId)
  }

  /**
   * One numeric cell: the (sample, analyte) row the query finds takes the value; otherwise a row is
   * added. True when a row was added.
   */
  function PutResult(t: Tables, sample: string, analyteId: int, value: real, autoflush: bool)
    : (r: (Tables, bool))
    requires t.Valid()
    ensures r.0.Valid() && r.0.analytes == t.analytes && r.0.samples == t.samples
    ensures r.0.storedAnalytes == t.storedAnalytes && r.0.storedResults == t.storedResults
    ensures exists j | 0 <= j < |r.0.results| :: r.0.results[j] == Composition(sample, analyteId, value)
    ensures r.1 ==> r.0.results == t.results + [Composition(sample, analyteId, value)]
    ensures !r.1 ==> (|r.0.results| == |t.results|
      && forall j | 0 <= j < |t.results| && r.0.results[j] != t.results[j] ::
           r.0.results[j] == t.results[j].(value := value)
           && t.results[j].sampleId == sample && t.results[j].analyteId == analyteId)
    ensures autoflush && PairsUnique(t.results) ==> PairsUnique(r.0.results)
  {
    match FindPair(VisibleResults(t, autoflush), sample, analyteId)
    case Some(j) =>
      var r := t.(results := t.results[j := t.results[j].(value := value)]);
      assert r.results[j] == Composition(sample, analyteId, value);
      (r, false)
    case None =>
      var r := t.(results := t.results + [Composition(sample, analyteId, value)]);
      assert r.results[|t.results|] == Composition(sample, analyteId, value);
      (r, true)
  }

  // ---------------------------------------------------------------------------------------------
  // import_excel
  // ---------------------------------------------------------------------------------------------

  /** Created, updated and skipped counts, and the error messages, as the services return them. */
  datatype Tally = Tally(created: nat, updated: nat, skipped: nat, errors: seq<string>)

  /** What the row loop of `import_excel` reads: the layout found and the analyte index. */
  datatype Layout = Layout(g: Grid, sampleCol: nat, start: nat, entries: seq<Entry>,
                           index: map<string, int>, ft: FloatText)

  /** The cells of the first `n` entries on grid row `row`, for a known sample. */
  function Cells(t: Tables, tally: Tally, sample: string, row: nat, n: nat, l: Layout, autoflush: bool)
    : (r: (Tables, Tally))
    requires t.Valid() && n <= |l.entries|
    ensures r.0.Valid() && r.0.analytes == t.analytes && r.0.samples == t.samples
    ensures r.0.storedAnalytes == t.storedAnalytes && r.0.storedResults == t.storedResults
    ensures r.1.skipped == tally.skipped && r.1.errors == tally.errors
    decreases n
  {
    if n == 0 then (t, tally)
    else
      var (t', tally') := Cells(t, tally, sample, row, n - 1, l, autoflush);
      Cell(t', tally', sample, row, l.entries[n - 1], l, autoflush)
  }

  /**
   * One cell of a known sample's row: a numeric value of an indexed analyte is stored and counted
   * as created or updated; anything else is passed over.
   */
  function Cell(t: Tables, tally: Tally, sample: string, row: nat, e: Entry, l: Layout, autoflush: bool)
    : (r: (Tables, Tally))
    requires t.Valid()
    ensures r.0.Valid() && r.0.analytes == t.analytes && r.0.samples == t.samples
    ensures r.0.storedAnalytes == t.storedAnalytes && r.0.storedResults == t.storedResults
    ensures r.1.skipped == tally.skipped && r.1.errors == tally.errors
    ensures r.1.created + r.1.updated <= tally.created + tally.updated + 1
  {
    var value := CoerceNumber(At(l.g, row, e.column), l.ft).0;
    if value.None? || Lower(e.symbol) !in l.index then (t, tally)
    else
      var (t', created) := PutResult(t, sample, l.index[Lower(e.symbol)], value.value, autoflush);
      (t', if created then tally.(created := tally.created + 1) else tally.(updated := tally.updated + 1))
  }

  /** The sample ID of a data row, unless the cell is empty or blank. */
  function SampleOf(v: Value, ft: FloatText): (r: Option<string>)
    ensures r.Some? ==> r.value != []
  {
    if v.VNone? then None
    else
      var s := Strip(StrOf(v, ft));
      if s == [] then None else Some(s)
  }

  function NotFound(i: nat, sample: string): string {
    "Row " + NatToString(i + 5) + ": sample_id '" + sample + "' not found"
  }

  /** Data row `i` (counted from the first data row). */
  function DataRow(t: Tables, tally: Tally, i: nat, l: Layout, autoflush: bool): (r: (Tables, Tally))
    requires t.Valid()
    ensures r.0.Valid() && r.0.analytes == t.analytes && r.0.samples == t.samples
    ensures r.0.storedAnalytes == t.storedAnalytes && r.0.storedResults == t.storedResults
    ensures r.1.skipped == tally.skipped
  {
    match SampleOf(At(l.g, l.start + i, l.sampleCol), l.ft)
    case None => (t, tally)
    case Some(sample) =>
      if sample !in t.samples then (t, tally.(errors := tally.errors + [NotFound(i, sample)]))
      else Cells(t, tally, sample, l.start + i, |l.entries|, l, autoflush)
  }

  function DataRows(t: Tables, tally: Tally, n: nat, l: Layout, autoflush: bool): (r: (Tables, Tally))
    requires t.Valid()
    ensures r.0.Valid() && r.0.analytes == t.analytes && r.0.samples == t.samples
    ensures r.0.storedAnalytes == t.storedAnalytes && r.0.storedResults == t.storedResults
    ensures r.1.skipped == tally.skipped
    decreases n
  {
    if n == 0 then (t, tally)
    else
      var (t', tally') := DataRows(t, tally, n - 1, l, autoflush);
      DataRow(t', tally', n - 1, l, autoflush)
  }

  /** The number of rows from the first data row on. */
  function DataCount(g: Grid, start: nat): nat {
    if start < |g.rows| then |g.rows| - start else 0
  }

  /** `import_excel` may stop with IndexError when the grid is shorter than its header. */
  datatype Outcome = Imported(tally: Tally) | IndexError

  /** The layout `import_excel` finds, with the analytes upserted; `None` where it raises. */
  function Prepared(t: Tables, g: Grid, ft: FloatText, autoflush: bool): (r: Option<(Tables, Layout)>)
    requires t.Valid()
    ensures r.None? <==> |g.rows| < 4
    ensures r.Some? ==> (r.value.0.Valid() && r.value.0.results == t.results && r.value.0.samples == t.samples
      && r.value.0.storedAnalytes == t.storedAnalytes && r.value.0.storedResults == t.storedResults
      && r.value.1.g == g && r.value.1.ft == ft)
  {
    var sampleCol := SampleIdCol(g, ft);
    match ExtractLastAnalyteMap(g, sampleCol, ft)
    case None => None
    case Some(entries) =>
      var t' := UpsertAnalytes(t, entries, autoflush);
      Some((t', Layout(g, sampleCol, DataStart(g, ft), entries,
                       SymbolIndex(VisibleAnalytes(t', autoflush)), ft)))
  }

  /** `ActlabsRockTitrationService.import_excel` on the table it has read. */
  function Import(t: Tables, g: Grid, ft: FloatText, autoflush: bool): (r: (Outcome, Tables))
    requires t.Valid()
    ensures r.1.Valid() && r.1.samples == t.samples
    ensures Empty(g) ==> r == (Imported(Tally(0, 0, 0, ["No data found."])), t)
    ensures r.0.IndexError? <==> !Empty(g) && |g.rows| < 4
    ensures r.0.IndexError? ==> r.1 == t
    ensures r.0.Imported? ==> r.0.tally.skipped == 0
  {
    if Empty(g) then (Imported(Tally(0, 0, 0, ["No data found."])), t)
    else match Prepared(t, g, ft, autoflush)
      case None => (IndexError, t)
      case Some((t', l)) =>
        var (t'', tally) := DataRows(t', Tally(0, 0, 0, []), DataCount(g, l.start), l, autoflush);
        (Imported(tally), t'')
  }

  // ---------------------------------------------------------------------------------------------
  // Properties of the import
  // ---------------------------------------------------------------------------------------------

  /** Cells whose symbols are not in the index change nothing. */
  lemma {:induction false} CellsWithoutIndex(t: Tables, tally: Tally, sample: string, row: nat, n: nat,
                                             l: Layout, autoflush: bool)
    requires t.Valid() && n <= |l.entries| && l.index == map[]
    ensures Cells(t, tally, sample, row, n, l, autoflush) == (t, tally)
    decreases n
  {
    if n > 0 {
      CellsWithoutIndex(t, tally, sample, row, n - 1, l, autoflush);
    }
  }

  /** With an empty index no data row writes a composition or counts one. */
  lemma {:induction false} RowsWithoutIndex(t: Tables, tally: Tally, n: nat, l: Layout, autoflush: bool)
    requires t.Valid() && l.index == map[]
    ensures var r := DataRows(t, tally, n, l, autoflush);
      r.0.results == t.results && r.1.created == tally.created && r.1.updated == tally.updated
    decreases n
  {
    if n > 0 {
      RowsWithoutIndex(t, tally, n - 1, l, autoflush);
      var (t', tally') := DataRows(t, tally, n - 1, l, autoflush);
      match SampleOf(At(l.g, l.start + n - 1, l.sampleCol), l.ft)
      case None =>
      case Some(sample) =>
        if sample in t'.samples {
          CellsWithoutIndex(t', tally', sample, l.start + n - 1, |l.entries|, l, autoflush);
        }
    }
  }

  /**
   * As written (autoflush off), an import into a database without analytes creates the analytes
   * but stores none of the file's values: the index is built from the stored analytes only.
   */
  lemma NewAnalytesIgnoredAsWritten(t: Tables, g: Grid, ft: FloatText)
    requires t.Valid() && t.storedAnalytes == 0
    ensures var r := Import(t, g, ft, false);
      r.1.results == t.results
      && (r.0.Imported? ==> r.0.tally.created == 0 && r.0.tally.updated == 0)
  {
    if !Empty(g) && |g.rows| >= 4 {
      var p := Prepared(t, g, ft, false).value;
      assert VisibleAnalytes(p.0, false) == [];
      RowsWithoutIndex(p.0, Tally(0, 0, 0, []), DataCount(g, p.1.start), p.1, false);
    }
  }

  /** Under autoflush the cells keep one row per (sample, analyte). */
  lemma {:induction false} CellsKeepPairsUnique(t: Tables, tally: Tally, sample: string, row: nat, n: nat,
                                                l: Layout)
    requires t.Valid() && n <= |l.entries| && PairsUnique(t.results)
    ensures PairsUnique(Cells(t, tally, sample, row, n, l, true).0.results)
    decreases n
  {
    if n > 0 {
      CellsKeepPairsUnique(t, tally, sample, row, n - 1, l);
      var p := Cells(t, tally, sample, row, n - 1, l, true);
      CellKeepsPairsUnique(p.0, p.1, sample, row, l.entries[n - 1], l);
    }
  }

  /** One cell under autoflush keeps one row per (sample, analyte). */
  lemma CellKeepsPairsUnique(t: Tables, tally: Tally, sample: string, row: nat, e: Entry, l: Layout)
    requires t.Valid() && PairsUnique(t.results)
    ensures PairsUnique(Cell(t, tally, sample, row, e, l, true).0.results)
  {
  }

  lemma {:induction false} RowsKeepPairsUnique(t: Tables, tally: Tally, n: nat, l: Layout)
    requires t.Valid() && PairsUnique(t.results)
    ensures PairsUnique(DataRows(t, tally, n, l, true).0.results)
    decreases n
  {
    if n > 0 {
      RowsKeepPairsUnique(t, tally, n - 1, l);
      var p := DataRows(t, tally, n - 1, l, true);
      RowKeepsPairsUnique(p.0, p.1, n - 1, l);
    }
  }

  /** One data row under autoflush keeps the one-row-per-(sample, analyte) constraint. */
  lemma RowKeepsPairsUnique(t: Tables, tally: Tally, i: nat, l: Layout)
    requires t.Valid() && PairsUnique(t.results)
    ensures PairsUnique(DataRow(t, tally, i, l, true).0.results)
  {
    match SampleOf(At(l.g, l.start + i, l.sampleCol), l.ft)
    case None =>
    case Some(sample) =>
      if sample in t.samples {
        CellsKeepPairsUnique(t, tally, sample, l.start + i, |l.entries|, l);
      }
  }

  /**
   * Under autoflush every analyte of the header can receive values, and the import keeps the
   * database's one-row-per-(sample, analyte) constraint.
   */
  lemma ImportKeepsPairsUnique(t: Tables, g: Grid, ft: FloatText)
    requires t.Valid() && PairsUnique(t.results)
    ensures PairsUnique(Import(t, g, ft, true).1.results)
    ensures !Empty(g) && |g.rows| >= 4 ==>
      var l := Prepared(t, g, ft, true).value.1;
      forall e | e in l.entries :: Lower(e.symbol) in l.index
  {
    if !Empty(g) && |g.rows| >= 4 {
      var sampleCol := SampleIdCol(g, ft);
      var entries := AnalyteMap(g, sampleCol, g.width, ft);
      UpsertedSymbolsResolve(t, entries);
      var p := Prepared(t, g, ft, true).value;
      RowsKeepPairsUnique(p.0, Tally(0, 0, 0, []), DataCount(g, p.1.start), p.1);
    }
  }

  // ---------------------------------------------------------------------------------------------
  // AnalyteService.bulk_upsert_from_excel
  // ---------------------------------------------------------------------------------------------

  /** `str(v or "").strip()`. */
  function TextOr(v: Value, ft: FloatText): string {
    if Truthy(v) then Strip(StrOf(v, ft)) else ""
  }

  /** `str(c).strip().lower()` of each column name. */
  function ColumnKeys(columns: seq<string>): (r: seq<string>)
    ensures |r| == |columns| && forall i | 0 <= i < |columns| :: r[i] == Lower(Strip(columns[i]))
  {
    seq(|columns|, i requires 0 <= i < |columns| => Lower(Strip(columns[i])))
  }

  /** The required columns the sheet lacks, in sorted order. */
  function MissingColumns(keys: seq<string>): (r: seq<string>)
    ensures forall x | x in r :: x in ["analyte_symbol", "unit"] && x !in keys
    ensures forall x | x in ["analyte_symbol", "unit"] && x !in keys :: x in r
  {
    (if "analyte_symbol" in keys then [] else ["analyte_symbol"]) + (if "unit" in keys then [] else ["unit"])
  }

  /**
   * One definition row: a row without symbol or unit is skipped; an analyte the query finds by
   * symbol, in any case, takes the unit; otherwise the analyte is added.
   */
  function AnalyteRow(t: Tables, tally: Tally, rec: Record, ft: FloatText, autoflush: bool)
    : (r: (Tables, Tally))
    requires t.Valid()
    ensures r.0.Valid() && r.0.results == t.results && r.0.samples == t.samples
    ensures r.0.storedAnalytes == t.storedAnalytes && r.0.storedResults == t.storedResults
    ensures r.1.errors == tally.errors
    ensures r.1.created + r.1.updated + r.1.skipped == tally.created + tally.updated + tally.skipped + 1
    ensures var symbol := TextOr(Get(rec, "analyte_symbol"), ft);
      var unit := TextOr(Get(rec, "unit"), ft);
      if symbol == [] || unit == [] then r == (t, tally.(skipped := tally.skipped + 1))
      else exists i | 0 <= i < |r.0.analytes| ::
        Lower(r.0.analytes[i].symbol) == Lower(symbol) && r.0.analytes[i].unit == unit
  {
    var symbol := TextOr(Get(rec, "analyte_symbol"), ft);
    var unit := TextOr(Get(rec, "unit"), ft);
    if symbol == [] || unit == [] then (t, tally.(skipped := tally.skipped + 1))
    else match FindSymbol(VisibleAnalytes(t, autoflush), symbol)
      case Some(i) =>
        var r := t.(analytes := t.analytes[i := t.analytes[i].(unit := unit)]);
        assert r.analytes[i].unit == unit;
        (r, tally.(updated := tally.updated + 1))
      case None =>
        var a := Analyte(Fresh(AnalyteIds(t.analytes)), symbol, unit);
        var r := t.(analytes := t.analytes + [a]);
        assert r.analytes[|t.analytes|] == a;
        (r, tally.(created := tally.created + 1))
  }

  function AnalyteRows(t: Tables, tally: Tally, keys: seq<string>, rows: seq<seq<Value>>, ft: FloatText,
                       autoflush: bool): (r: (Tables, Tally))
    requires t.Valid()
    ensures r.0.Valid() && r.0.results == t.results && r.0.samples == t.samples
    ensures r.0.storedAnalytes == t.storedAnalytes && r.0.storedResults == t.storedResults
    decreases |rows|
  {
    if rows == [] then (t, tally)
    else
      var n := |rows| - 1;
      var (t', tally') := AnalyteRows(t, tally, keys, rows[..n], ft, autoflush);
      AnalyteRow(t', tally', RecordOf(keys, rows[n]), ft, autoflush)
  }

  /** `AnalyteService.bulk_upsert_from_excel` on the sheet it has read. */
  function UploadAnalytes(t: Tables, columns: seq<string>, rows: seq<seq<Value>>, ft: FloatText,
                          autoflush: bool): (r: (Tally, Tables))
    requires t.Valid()
    ensures r.1.Valid() && r.1.results == t.results && r.1.samples == t.samples
  {
    var keys := ColumnKeys(columns);
    var missing := MissingColumns(keys);
    if missing != [] then (Tally(0, 0, 0, ["Missing required columns: " + Joined(missing, ", ")]), t)
    else
      var (t', tally) := AnalyteRows(t, Tally(0, 0, 0, []), keys, rows, ft, autoflush);
      (tally, t')
  }

  /** Every row of the sheet is counted once, as created, updated or skipped, and none is an error. */
  lemma {:induction false} AnalyteRowsAccounted(t: Tables, tally: Tally, keys: seq<string>,
                                                rows: seq<seq<Value>>, ft: FloatText, autoflush: bool)
    requires t.Valid()
    ensures var r := AnalyteRows(t, tally, keys, rows, ft, autoflush).1;
      r.created + r.updated + r.skipped == tally.created + tally.updated + tally.skipped + |rows|
      && r.errors == tally.errors
    decreases |rows|
  {
    if rows != [] {
      AnalyteRowsAccounted(t, tally, keys, rows[..|rows| - 1], ft, autoflush);
    }
  }

  /** A sheet lacking a required column reports exactly the missing ones and changes nothing. */
  lemma MissingColumnsReported(t: Tables, columns: seq<string>, rows: seq<seq<Value>>, ft: FloatText,
                               autoflush: bool)
    requires t.Valid() && "unit" !in ColumnKeys(columns)
    ensures UploadAnalytes(t, columns, rows, ft, autoflush) ==
      (Tally(0, 0, 0, ["Missing required columns: " + Joined(MissingColumns(ColumnKeys(columns)), ", ")]), t)
  {
  }

  // ---------------------------------------------------------------------------------------------
  // The session
  // ---------------------------------------------------------------------------------------------

  /** A database session over the analyte and elemental-analysis tables. */
  class ActlabsSession {
    const autoflush: bool
    const samples: set<string>
    var analytes: seq<Analyte>
    var results: seq<Composition>
    var storedAnalytes: nat
    var storedResults: nat

    function State(): Tables
      reads this
    {
      Tables(analytes, results, samples, storedAnalytes, storedResults)
    }

    /** A fresh session over the database's rows, nothing pending. */
    constructor (analytes: seq<Analyte>, results: seq<Composition>, samples: set<string>, autoflush: bool)
      ensures State() == Tables(analytes, results, samples, |analytes|, |results|)
      ensures this.autoflush == autoflush
    {
      this.autoflush := autoflush;
      this.samples := samples;
      this.analytes := analytes;
      this.results := results;
      storedAnalytes := |analytes|;
      storedResults := |results|;
    }

    method UpsertAnalyteStep(e: Entry)
      requires State().Valid()
      modifies this
      ensures State() == UpsertAnalyte(old(State()), e, autoflush)
    {
      var visible := if autoflush then analytes else analytes[..storedAnalytes];
      var found := FindSymbol(visible, e.symbol);
      if found.Some? {
        if e.unit.Some? {
          analytes := analytes[found.value := analytes[found.value].(unit := e.unit.value)];
        }
      } else {
        analytes := analytes + [Analyte(Fresh(AnalyteIds(analytes)), e.symbol, e.unit.UnwrapOr("ppm"))];
      }
    }

    /** The analyte loop of `import_excel`, in dictionary order. */
    method UpsertHeaderAnalytes(entries: seq<Entry>)
      requires State().Valid()
      modifies this
      ensures State() == UpsertAnalytes(old(State()), entries, autoflush)
    {
      var k := 0;
      while k < |entries|
        invariant k <= |entries|
        invariant State() == UpsertAnalytes(old(State()), entries[..k], autoflush)
      {
        assert entries[..k + 1][..k] == entries[..k];
        UpsertAnalyteStep(entries[k]);
        k := k + 1;
      }
      assert entries[..k] == entries;
    }

    method PutResultStep(sample: string, analyteId: int, value: real) returns (created: bool)
      requires State().Valid()
      modifies this
      ensures (State(), created) == PutResult(old(State()), sample, analyteId, value, autoflush)
    {
      var visible := if autoflush then results else results[..storedResults];
      var found := FindPair(visible, sample, analyteId);
      if found.Some? {
        results := results[found.value := results[found.value].(value := value)];
        created := false;
      } else {
        results := results + [Composition(sample, analyteId, value)];
        created := true;
      }
    }

    /** One cell of a known sample's row. */
    method CellStep(tally: Tally, sample: string, row: nat, e: Entry, l: Layout) returns (tally': Tally)
      requires State().Valid()
      modifies this
      ensures (State(), tally') == Cell(old(State()), tally, sample, row, e, l, autoflush)
    {
      tally' := tally;
      var value := CoerceNumber(At(l.g, row, e.column), l.ft).0;
      if value.Some? && Lower(e.symbol) in l.index {
        var created := PutResultStep(sample, l.index[Lower(e.symbol)], value.value);
        if created {
          tally' := tally'.(created := tally'.created + 1);
        } else {
          tally' := tally'.(updated := tally'.updated + 1);
        }
      }
    }

    /** One data row of `import_excel`. */
    method DataRowStep(tally: Tally, i: nat, l: Layout) returns (tally': Tally)
      requires State().Valid()
      modifies this
      ensures (State(), tally') == DataRow(old(State()), tally, i, l, autoflush)
    {
      tally' := tally;
      var sample := SampleOf(At(l.g, l.start + i, l.sampleCol), l.ft);
      if sample.None? {
        return;
      }
      if sample.value !in samples {
        tally' := tally'.(errors := tally'.errors + [NotFound(i, sample.value)]);
        return;
      }
      tally' := RowCells(tally, sample.value, l.start + i, l);
    }

    /** The cells of a known sample's row, entry by entry. */
    method RowCells(tally: Tally, sample: string, row: nat, l: Layout) returns (tally': Tally)
      requires State().Valid()
      modifies this
      ensures (State(), tally') == Cells(old(State()), tally, sample, row, |l.entries|, l, autoflush)
    {
      tally' := tally;
      var k := 0;
      while k < |l.entries|
        invariant k <= |l.entries| && State().Valid()
        invariant (State(), tally') == Cells(old(State()), tally, sample, row, k, l, autoflush)
      {
        tally' := CellStep(tally', sample, row, l.entries[k], l);
        k := k + 1;
      }
    }

    /** The header stage of `import_excel`: the layout, with the header's analytes upserted. */
    method Prepare(g: Grid, ft: FloatText) returns (l: Option<Layout>)
      requires State().Valid()
      modifies this
      ensures l.None? ==> Prepared(old(State()), g, ft, autoflush).None? && State() == old(State())
      ensures l.Some? ==> Prepared(old(State()), g, ft, autoflush) == Some((State(), l.value))
    {
      var sampleCol := DetectSampleIdCol(g, ft);
      var entries := ExtractLastAnalytes(g, sampleCol, ft);
      if entries.None? {
        return None;
      }
      var start := FindDataStartIndex(g, ft);
      UpsertHeaderAnalytes(entries.value);
      var visible := if autoflush then analytes else analytes[..storedAnalytes];
      l := Some(Layout(g, sampleCol, start, entries.value, SymbolIndex(visible), ft));
    }

    /** `ActlabsRockTitrationService.import_excel` on the table it has read. */
    method ImportExcel(g: Grid, ft: FloatText) returns (outcome: Outcome)
      requires State().Valid()
      modifies this
      ensures (outcome, State()) == Import(old(State()), g, ft, autoflush)
    {
      if g.rows == [] || g.width == 0 {
        return Imported(Tally(0, 0, 0, ["No data found."]));
      }
      var l := Prepare(g, ft);
      if l.None? {
        return IndexError;
      }
      var tally := ImportRows(l.value);
      outcome := Imported(tally);
    }

    /** The row loop of `import_excel`, from the first data row on. */
    method ImportRows(l: Layout) returns (tally: Tally)
      requires State().Valid()
      modifies this
      ensures (State(), tally) == DataRows(old(State()), Tally(0, 0, 0, []), DataCount(l.g, l.start), l, autoflush)
    {
      tally := Tally(0, 0, 0, []);
      var i := 0;
      while i < DataCount(l.g, l.start)
        invariant i <= DataCount(l.g, l.start) && State().Valid()
        invariant (State(), tally) == DataRows(old(State()), Tally(0, 0, 0, []), i, l, autoflush)
      {
        tally := DataRowStep(tally, i, l);
        i := i + 1;
      }
    }

    /** One row of the analyte-definition sheet. */
    method AnalyteRowStep(tally: Tally, rec: Record, ft: FloatText) returns (tally': Tally)
      requires State().Valid()
      modifies this
      ensures (State(), tally') == AnalyteRow(old(State()), tally, rec, ft, autoflush)
    {
      tally' := tally;
      var symbol := TextOr(Get(rec, "analyte_symbol"), ft);
      var unit := TextOr(Get(rec, "unit"), ft);
      if symbol == [] || unit == [] {
        tally' := tally'.(skipped := tally'.skipped + 1);
        return;
      }
      var visible := if autoflush then analytes else analytes[..storedAnalytes];
      var found := FindSymbol(visible, symbol);
      if found.Some? {
        analytes := analytes[found.value := analytes[found.value].(unit := unit)];
        tally' := tally'.(updated := tally'.updated + 1);
      } else {
        analytes := analytes + [Analyte(Fresh(AnalyteIds(analytes)), symbol, unit)];
        tally' := tally'.(created := tally'.created + 1);
      }
    }

    /** `AnalyteService.bulk_upsert_from_excel` on the sheet it has read. */
    method BulkUpsertAnalytes(columns: seq<string>, rows: seq<seq<Value>>, ft: FloatText) returns (tally: Tally)
      requires State().Valid()
      modifies this
      ensures (tally, State()) == UploadAnalytes(old(State()), columns, rows, ft, autoflush)
    {
      var keys := ColumnKeys(columns);
      var missing := MissingColumns(keys);
      if missing != [] {
        return Tally(0, 0, 0, ["Missing required columns: " + Joined(missing, ", ")]);
      }
      tally := Tally(0, 0, 0, []);
      var n := 0;
      while n < |rows|
        invariant n <= |rows| && State().Valid()
        invariant (State(), tally) == AnalyteRows(old(State()), Tally(0, 0, 0, []), keys, rows[..n], ft, autoflush)
      {
        assert rows[..n + 1][..n] == rows[..n];
        tally := AnalyteRowStep(tally, RecordOf(keys, rows[n]), ft);
        n := n + 1;
      }
      assert rows[..n] == rows;
    }
  }
}
