/** A table of named columns, as pandas and SQLite both hold the catalogue: each row maps column
    names to cells that are missing (NaN in pandas, NULL in SQLite), numbers or text. */
module Frames {

  datatype Cell = Null | Num(v: real) | Text(s: string)

  type Row = map<string, Cell>

  /** The column names in table order, and the rows in storage order. */
  datatype Frame = Frame(cols: seq<string>, rows: seq<Row>)

  /** The cell of a row in a column; a column the row does not carry reads as missing. */
  function Get(r: Row, c: string): Cell
  {
    if c in r then r[c] else Null
  }

  /** Setting one cell leaves every other column of the row as it was. */
  lemma GetAfterSet(r: Row, c: string, x: Cell, d: string)
    ensures Get(r[c := x], d) == if d == c then x else Get(r, d)
  {
  }
}
