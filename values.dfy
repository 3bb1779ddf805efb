/**
 * Python values as the upload services pass them around: spreadsheet cells after pandas has
 * read them, and the `result_data` dictionaries handed to the scalar-results service.
 */
module Values {
  import opened Wrappers
  import opened PyStr
  import opened PyNum

  /**
   * `None` (or pandas' NaN for an empty cell), a boolean, a number, text, or a date/time
   * value (kept as an opaque stamp).
   */
  datatype Value = VNone | VBool(b: bool) | VNum(x: real) | VText(s: string) | VDate(stamp: string)

  /** A row or payload dictionary. */
  type Record = map<string, Value>

  /** `d.get(key)`. */
  function Get(r: Record, key: string): Value {
    if key in r then r[key] else VNone
  }

  /** `float(value)`; None where Python raises. Text without exponent, `inf` or `nan`. */
  function FloatOfValue(v: Value): (r: Option<real>)
    ensures v.VNum? ==> r == Some(v.x)
    ensures v.VNone? || v.VDate? ==> r.None?
  {
    match v
    case VNone => None
    case VBool(b) => Some(if b then 1.0 else 0.0)
    case VNum(x) => Some(x)
    case VText(s) =>
      var d := ParseDecimal(Strip(s));
      if d.Some? then Some(PyNum.Value(d.value)) else None
    case VDate(_) => None
  }

  /** Python truthiness. */
  predicate Truthy(v: Value) {
    match v
    case VNone => false
    case VBool(b) => b
    case VNum(x) => x != 0.0
    case VText(s) => s != []
    case VDate(_) => true
  }

  /**
   * `str(value)`. Python's formatting of a float is the parameter `floatText`; a missing value
   * is never converted by the code modelled here.
   */
  function StrOf(v: Value, floatText: real -> string): string {
    match v
    case VNone => "None"
    case VBool(b) => if b then "True" else "False"
    case VNum(x) => floatText(x)
    case VText(s) => s
    case VDate(stamp) => stamp
  }

  /** A blank text cell: empty after trimming. */
  predicate IsBlankText(v: Value) {
    v.VText? && Strip(v.s) == []
  }

  /**
   * The record pandas builds for a row from the header: each column's cell under the column's
   * name; of two columns with the same name the later one is kept.
   */
  function RecordOf(columns: seq<string>, row: seq<Value>): (r: Record)
    ensures forall k | k in r :: k in columns
    decreases |columns|
  {
    if columns == [] then map[]
    else
      var n := |columns| - 1;
      RecordOf(columns[..n], row)[columns[n] := if n < |row| then row[n] else VNone]
  }

  /** Every named column is a key of the record, holding the cell of its last column. */
  lemma {:induction false} RecordOfLast(columns: seq<string>, row: seq<Value>, k: nat)
    requires k < |columns| && forall j | k < j < |columns| :: columns[j] != columns[k]
    ensures columns[k] in RecordOf(columns, row)
    ensures RecordOf(columns, row)[columns[k]] == (if k < |row| then row[k] else VNone)
    decreases |columns|
  {
    var n := |columns| - 1;
    if k < n {
      RecordOfLast(columns[..n], row, k);
    }
  }

  /** `sep.join(items)`. */
  function Joined(items: seq<string>, sep: string): string
    decreases |items|
  {
    if items == [] then ""
    else if |items| == 1 then items[0]
    else items[0] + sep + Joined(items[1..], sep)
  }

  /** Python's `repr` of a list of strings without quotes inside them: `['a', 'b']`. */
  function QuotedList(items: seq<string>): string {
    "[" + Joined(seq(|items|, i requires 0 <= i < |items| => "'" + items[i] + "'"), ", ") + "]"
  }

  /** One above every id in use: the id SQLite gives the next row of an integer primary key. */
  function Fresh(ids: seq<int>): (r: int)
    ensures forall i | 0 <= i < |ids| :: ids[i] < r
  {
    if ids == [] then 1
    else
      var rest := Fresh(ids[1..]);
      assert forall i | 1 <= i < |ids| :: ids[i] == ids[1..][i - 1];
      if ids[0] < rest then rest else ids[0] + 1
  }
}
