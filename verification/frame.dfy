/** A pandas DataFrame reduced to what the turnover pipeline observes of it:
    an ordered list of column labels, one dtype per column, and rows that hold
    one cell per column. */
module Frame {
  import opened Sequences

  type ColumnName = string

  /** A cell. `Null` is every value pandas' `isna` reports as missing
      (None, NaN, NaT). */
  datatype Value = Null | Number(n: real) | Text(s: string) | Flag(b: bool)

  /** The dtype tags `select_dtypes` distinguishes; `Other` covers any
      dtype the pipeline never asks for by name. */
  datatype DType = Object | Category | Int64 | Float64 | Bool | Datetime64 | Other(name: string)

  datatype Row = Row(cells: map<ColumnName, Value>)

  datatype Table = Table(columns: seq<ColumnName>, dtypes: map<ColumnName, DType>, rows: seq<Row>)

  /** The errors the pipeline's own code can raise on a table. */
  datatype FrameError =
    | MissingColumn(name: ColumnName)                 // KeyError from `df[name]`
    | LengthMismatch(indexLength: nat, arrayLength: nat)  // ValueError from `pd.DataFrame({...})`

  /** Column labels are unique, every column has a dtype, and every row has
      exactly one cell per column. */
  ghost predicate WellFormed(t: Table) {
    && Distinct(t.columns)
    && (forall c :: c in t.dtypes <==> c in t.columns)
    && (forall r, c :: r in t.rows ==> (c in r.cells <==> c in t.columns))
  }

  /** The cell of `r` in column `c`; a row without that column reads as missing. */
  function Get(r: Row, c: ColumnName): Value {
    if c in r.cells then r.cells[c] else Null
  }

  /** `df[c]` as a sequence of cells, one per row. */
  function Column(t: Table, c: ColumnName): (col: seq<Value>)
    ensures |col| == |t.rows|
    ensures WellFormed(t) && c in t.columns ==>
      forall i :: 0 <= i < |t.rows| ==> c in t.rows[i].cells && col[i] == t.rows[i].cells[c]
  {
    assert forall i :: 0 <= i < |t.rows| ==> t.rows[i] in t.rows;
    Map((r: Row) => Get(r, c), t.rows)
  }

  /** A row cut down to the given columns. */
  function Project(r: Row, names: seq<ColumnName>): (p: Row)
    ensures forall c :: c in p.cells <==> c in names && c in r.cells
    ensures forall c :: c in names ==> Get(p, c) == Get(r, c)
  {
    Row(map c | c in names && c in r.cells :: r.cells[c])
  }

  /** `df[names]`: the same rows, restricted to the listed columns in the
      listed order. */
  function Select(t: Table, names: seq<ColumnName>): (s: Table)
    requires WellFormed(t)
    requires Distinct(names)
    requires forall c :: c in names ==> c in t.columns
    ensures WellFormed(s)
    ensures s.columns == names
    ensures |s.rows| == |t.rows|
    ensures forall i :: 0 <= i < |t.rows| ==> s.rows[i] == Project(t.rows[i], names)
    ensures forall i, c :: 0 <= i < |t.rows| && c in names ==> Get(s.rows[i], c) == Get(t.rows[i], c)
    ensures forall c :: c in names ==> s.dtypes[c] == t.dtypes[c]
  {
    Table(names, map c | c in names :: t.dtypes[c], Map((r: Row) => Project(r, names), t.rows))
  }
}
