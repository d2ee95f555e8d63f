/** DynamoDB items as boto3 returns them: attribute name to a string or a number value
 *  (numbers arrive as `Decimal`; they are exact reals here). */
module Store {
  import opened Wrappers

  datatype Value = S(s: string) | N(n: real)

  type Item = map<string, Value>

  /** `item.get(key)`: None when the attribute is absent. */
  function Get(item: Item, key: string): (r: Option<Value>)
    ensures r.Some? <==> key in item
    ensures r.Some? ==> r.value == item[key]
  {
    if key in item then Some(item[key]) else None
  }

  /** The outcome of reading a whole table (every page of a paginated scan): all the items,
   *  or a failure raised while reading one of the pages. */
  datatype Scan = ScanFailed | Items(items: seq<Item>)
}
