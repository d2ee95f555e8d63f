/**
 * DynamoDB items read into a pandas frame: every item is a map from attribute name to its string
 * value, and the frame's columns are the attribute names it was built with. A column an item does
 * not hold is NaN in that row.
 */
module Frames {
  /** A DynamoDB item: attribute name to its string value. */
  type Item = map<string, string>

  /** A frame over items: its column labels and its rows. */
  datatype Frame = Frame(columns: set<string>, rows: seq<Item>)

  /** `df[col].astype(str)` in one row: NaN renders as "nan". */
  function AsStr(row: Item, col: string): string
  {
    if col in row then row[col] else "nan"
  }

  /** `str(row.get(col, default))`: the default when the frame lacks the column, the row's value
   *  (or "nan") otherwise. */
  function GetStr(columns: set<string>, row: Item, col: string, default: string): string
  {
    if col !in columns then default else AsStr(row, col)
  }
}
