/** The slice of a pandas DataFrame the table helpers use: column labels,
    rows with their index label, and cells that are missing or carry the
    text str(value) gives. */
module Frames {
  import opened Strings

  /** A column label; docling's exported tables carry the integer labels
      0..n-1 when the table has no header of its own. */
  datatype Label = IntLabel(n: int) | TextLabel(s: string)

  /** A cell: missing (None or NaN, what pd.notnull rejects) or a value
      together with its str() text. */
  datatype Cell = Null | Value(text: string)

  /** A row and its index label. */
  datatype Row = Row(index: int, cells: seq<Cell>)

  datatype Table = Table(columns: seq<Label>, rows: seq<Row>)

  /** A label as text: a name as it is, a position in decimal. */
  function LabelText(l: Label): string
  {
    match l
    case IntLabel(n) => IntText(n)
    case TextLabel(s) => s
  }

  /** Every row has one cell per column, as in any DataFrame. */
  predicate Rectangular(t: Table)
  {
    forall i :: 0 <= i < |t.rows| ==> |t.rows[i].cells| == |t.columns|
  }

  /** The columns are labelled 0, 1, 2, ... in order, as a frame without a header row is. */
  predicate DefaultLabels(columns: seq<Label>)
  {
    forall i :: 0 <= i < |columns| ==> columns[i] == IntLabel(i)
  }
}
