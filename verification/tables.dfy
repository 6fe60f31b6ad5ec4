/** The in-memory table the detection pass works on: a schema naming each
    column and whether its dtype is numeric, and the rows as maps from column
    name to cell. Column order is a display concern and is not represented. */
module Tables {

  /** One cell: a number (sensor reading, flag, identifier, prediction) or
      anything else (dates and other text). Missing values are not modelled. */
  datatype Cell = Num(x: real) | Text(s: string)

  /** Whether pandas' `select_dtypes(include='number')` selects a column. */
  datatype Kind = Numeric | NonNumeric

  type Row = map<string, Cell>

  datatype Table = Table(schema: map<string, Kind>, rows: seq<Row>)

  /** A row carries exactly the schema's columns, with a number in every
      numeric one. */
  ghost predicate RowFits(r: Row, schema: map<string, Kind>) {
    && r.Keys == schema.Keys
    && forall c :: c in schema && schema[c] == Numeric ==> r[c].Num?
  }

  ghost predicate WellFormed(t: Table) {
    forall i :: 0 <= i < |t.rows| ==> RowFits(t.rows[i], t.schema)
  }

  lemma MemberFits(t: Table, r: Row)
    requires WellFormed(t) && r in t.rows
    ensures RowFits(r, t.schema)
  {
    var i :| 0 <= i < |t.rows| && t.rows[i] == r;
  }

  predicate IsNumericColumn(t: Table, c: string) {
    c in t.schema && t.schema[c] == Numeric
  }

  /** The numeric value of column `c` in a row of a well-formed table. */
  function ValueAt(r: Row, c: string): real
    requires c in r && r[c].Num?
  {
    r[c].x
  }

  /** The reading of a row of `t` in the numeric column `c`. */
  ghost function Reading(t: Table, r: Row, c: string): real
    requires WellFormed(t) && r in t.rows && IsNumericColumn(t, c)
  {
    MemberFits(t, r);
    ValueAt(r, c)
  }

  /** Every row of `t` holds a number in column `c`. */
  ghost predicate NumericIn(rows: seq<Row>, c: string) {
    forall i :: 0 <= i < |rows| ==> c in rows[i] && rows[i][c].Num?
  }

  /** The column `c` of a table, one value per row, in row order. */
  function ColumnValues(rows: seq<Row>, c: string): (vals: seq<real>)
    requires NumericIn(rows, c)
    ensures |vals| == |rows|
    ensures forall i :: 0 <= i < |rows| ==> vals[i] == ValueAt(rows[i], c)
  {
    seq(|rows|, i requires 0 <= i < |rows| => rows[i][c].x)
  }

  lemma NumericColumnIsNumeric(t: Table, c: string)
    requires WellFormed(t) && IsNumericColumn(t, c)
    ensures NumericIn(t.rows, c)
  {
    forall i | 0 <= i < |t.rows|
      ensures c in t.rows[i] && t.rows[i][c].Num?
    {
      assert RowFits(t.rows[i], t.schema);
    }
  }
}
