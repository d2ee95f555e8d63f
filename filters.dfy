/**
 * The filter options route: the distinct values of five employee attributes, each list stripped,
 * de-duplicated and sorted, for the dashboard's filter menus.
 */
module Filters {
  import opened PyText
  import opened Sorting
  import opened Frames

  /** The columns of `pd.DataFrame(data)`: every attribute some item holds. */
  function ColumnsOf(data: seq<Item>): (r: set<string>)
    ensures forall c :: c in r <==> exists i :: 0 <= i < |data| && c in data[i]
  {
    set i, c | 0 <= i < |data| && c in data[i] :: c
  }

  /** `df[col].dropna().astype(str).str.strip()`: the stripped value of every row holding the
   *  column, in row order. */
  function ColumnValues(rows: seq<Item>, col: string): (r: seq<string>)
    ensures |r| <= |rows|
    ensures forall v :: v in r <==> exists i :: 0 <= i < |rows| && col in rows[i] && Strip(rows[i][col]) == v
    decreases |rows|
  {
    if rows == [] then []
    else
      var init := rows[..|rows| - 1];
      var last := rows[|rows| - 1];
      var r := ColumnValues(init, col) + (if col in last then [Strip(last[col])] else []);
      assert forall i :: 0 <= i < |init| ==> init[i] == rows[i];
      r
  }

  /** `get_unique_values`: [] for a missing column, else the sorted distinct stripped values. The
   *  list is strictly increasing, so sorted and without repeats; a value is in it exactly when the
   *  frame has the column and some row holds it, stripped; every value is stripped. */
  function UniqueValues(f: Frame, col: string): (r: seq<string>)
    ensures StrictlyIncreasing(r)
    ensures col !in f.columns ==> r == []
    ensures forall v :: v in r <==>
      col in f.columns && exists i :: 0 <= i < |f.rows| && col in f.rows[i] && Strip(f.rows[i][col]) == v
    ensures forall v :: v in r ==> Strip(v) == v
  {
    if col !in f.columns then []
    else
      SortedUniqueIncreasing(ColumnValues(f.rows, col));
      ColumnValuesStripped(f.rows, col);
      SortedUnique(ColumnValues(f.rows, col))
  }

  /** The values of a column come out stripped. */
  lemma ColumnValuesStripped(rows: seq<Item>, col: string)
    ensures forall v :: v in ColumnValues(rows, col) ==> Strip(v) == v
  {
    forall v | v in ColumnValues(rows, col) ensures Strip(v) == v {
      var i :| 0 <= i < |rows| && col in rows[i] && Strip(rows[i][col]) == v;
      StripStripped(rows[i][col]);
    }
  }

  /** A list is empty exactly when no item holds its attribute. */
  lemma UniqueValuesEmpty(data: seq<Item>, col: string)
    ensures UniqueValues(Frame(ColumnsOf(data), data), col) != [] <==> exists i :: 0 <= i < |data| && col in data[i]
  {
    var o := UniqueValues(Frame(ColumnsOf(data), data), col);
    if exists i :: 0 <= i < |data| && col in data[i] {
      var i :| 0 <= i < |data| && col in data[i];
      assert Strip(data[i][col]) in o;
    }
  }

  /** Stripping twice is stripping once. */
  lemma StripStripped(s: string)
    ensures Strip(Strip(s)) == Strip(s)
  {
    var t := Strip(s);
    if t != [] {
      StripUnpadded(t);
    }
  }

  /** The five lists of the response. */
  datatype FilterOptions = FilterOptions(
    departments: seq<string>,
    positions: seq<string>,
    jobGrades: seq<string>,
    employeeLevels: seq<string>,
    locations: seq<string>)

  /** The answer: the bare lists when there is no employee data, else wrapped with success. */
  datatype FilterResponse = Bare(lists: FilterOptions) | Wrapped(success: bool, data: FilterOptions)

  const NoOptions := FilterOptions([], [], [], [], [])

  /** `get_filter_options` on the items of the Employees table: no data gives five empty lists
   *  without the success wrapper; otherwise the response is wrapped with success, each list is the
   *  unique values of its attribute (departments from "division") and is non-empty exactly when
   *  some item holds that attribute. */
  function GetFilterOptions(data: seq<Item>): (r: FilterResponse)
    ensures r.Bare? <==> data == []
    ensures data == [] ==> r.lists == NoOptions
    ensures data != [] ==> r.success
    ensures data != [] ==>
      var f := Frame(ColumnsOf(data), data);
      r.data.departments == UniqueValues(f, "division") && r.data.positions == UniqueValues(f, "position")
      && r.data.jobGrades == UniqueValues(f, "job_grade") && r.data.employeeLevels == UniqueValues(f, "employee_level")
      && r.data.locations == UniqueValues(f, "location")
    ensures data != [] ==>
      (r.data.departments != [] <==> exists i :: 0 <= i < |data| && "division" in data[i])
      && (r.data.positions != [] <==> exists i :: 0 <= i < |data| && "position" in data[i])
      && (r.data.jobGrades != [] <==> exists i :: 0 <= i < |data| && "job_grade" in data[i])
      && (r.data.employeeLevels != [] <==> exists i :: 0 <= i < |data| && "employee_level" in data[i])
      && (r.data.locations != [] <==> exists i :: 0 <= i < |data| && "location" in data[i])
  {
    if data == [] then Bare(NoOptions)
    else
      var f := Frame(ColumnsOf(data), data);
      UniqueValuesEmpty(data, "division");
      UniqueValuesEmpty(data, "position");
      UniqueValuesEmpty(data, "job_grade");
      UniqueValuesEmpty(data, "employee_level");
      UniqueValuesEmpty(data, "location");
      Wrapped(true, FilterOptions(
        UniqueValues(f, "division"),
        UniqueValues(f, "position"),
        UniqueValues(f, "job_grade"),
        UniqueValues(f, "employee_level"),
        UniqueValues(f, "location")))
  }
}
