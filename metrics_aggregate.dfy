/**
 * The aggregate views of the metrics route: `aggregate_dataframe` folds a table of survey metrics
 * into one record (sum columns, mean columns, and "All" elsewhere), and `filter_metrics` picks the
 * rows for a year, a quarter and a department, or builds the four-quarter trend.
 */
module MetricsAggregate {
  import opened Wrappers
  import PyText
  import Stats

  /** A cell of the metrics table: a number, NaN or absent, or a text. */
  datatype Cell = Num(n: real) | Missing | Text(s: string)

  /** The metrics table: its column labels and its rows, each keyed by column label. */
  datatype Frame = Frame(columns: seq<string>, rows: seq<map<string, Cell>>)

  /** A value of an aggregated record. */
  datatype AggValue = IntV(i: int) | RealV(r: real) | NullV | TextV(t: string)

  /** A record `filter_metrics` returns: a row of the table as it is, or an aggregate. */
  datatype Record = Detail(row: map<string, Cell>) | Aggregate(values: map<string, AggValue>)

  const SumColumns: seq<string> := ["Response_Count", "Total_Employees", "eNPS_Promoters", "eNPS_Passives",
                                    "eNPS_Detractors"]

  const MeanColumns: seq<string> := ["Response_Rate", "Job_Satisfaction", "Work_Life_Balance", "Manager_Support",
                                     "Growth_Opportunities", "Overall_Engagement", "eNPS", "Avg_eNPS_Score",
                                     "Burnout_Score", "Burnout_Rate", "Turnover_Risk", "Avg_Workload",
                                     "Avg_Sentiment"]

  const Quarters: seq<string> := ["Q1", "Q2", "Q3", "Q4"]

  function CellOf(row: map<string, Cell>, c: string): Cell
  {
    if c in row then row[c] else Missing
  }

  /** The numbers of column `c`, NaN skipped. */
  function Numbers(rows: seq<map<string, Cell>>, c: string): (r: seq<real>)
    ensures |r| <= |rows|
    ensures forall x :: x in r ==> exists i :: 0 <= i < |rows| && CellOf(rows[i], c) == Num(x)
  {
    if rows == [] then []
    else
      var rest := Numbers(rows[1..], c);
      assert forall x :: x in rest ==> exists i :: 0 <= i < |rows| && CellOf(rows[i], c) == Num(x) by {
        forall x | x in rest ensures exists i :: 0 <= i < |rows| && CellOf(rows[i], c) == Num(x) {
          var j :| 0 <= j < |rows[1..]| && CellOf(rows[1..][j], c) == Num(x);
          assert CellOf(rows[j + 1], c) == Num(x);
        }
      }
      (if CellOf(rows[0], c).Num? then [CellOf(rows[0], c).n] else []) + rest
  }

  /** `int(x)`: truncation toward zero. */
  function Trunc(x: real): (t: int)
    ensures x >= 0.0 ==> t as real <= x < t as real + 1.0
    ensures x < 0.0 ==> t as real - 1.0 < x <= t as real
  {
    if x >= 0.0 then x.Floor else -((-x).Floor)
  }

  predicate IsSumColumn(c: string)
  {
    c in SumColumns
  }

  predicate IsMeanColumn(c: string)
  {
    c in MeanColumns
  }

  /** The aggregate of one column. */
  function ColumnAggregate(rows: seq<map<string, Cell>>, c: string): AggValue
  {
    if IsSumColumn(c) then IntV(Trunc(Stats.Sum(Numbers(rows, c))))
    else if IsMeanColumn(c) then
      var m := Stats.Mean(Numbers(rows, c));
      if m.Some? then RealV(m.value) else NullV
    else TextV("All")
  }

  /** A sum column aggregates to its total truncated toward zero. */
  lemma SumColumnTotal(rows: seq<map<string, Cell>>, c: string)
    requires IsSumColumn(c)
    ensures var r := ColumnAggregate(rows, c); var total := Stats.Sum(Numbers(rows, c));
      r.IntV? && (total >= 0.0 ==> r.i as real <= total < r.i as real + 1.0)
      && (total < 0.0 ==> r.i as real - 1.0 < total <= r.i as real)
  {
  }

  /** A mean column aggregates to the mean of its numbers, and to null (NaN) when it has none. */
  lemma MeanColumnMean(rows: seq<map<string, Cell>>, c: string)
    requires !IsSumColumn(c) && IsMeanColumn(c)
    ensures var r := ColumnAggregate(rows, c); var xs := Numbers(rows, c);
      (r.NullV? <==> xs == []) && (r.NullV? || r.RealV?) && (r.RealV? ==> r.r == Stats.Sum(xs) / |xs| as real)
  {
  }

  /** A column that is neither summed nor averaged is marked "All". */
  lemma OtherColumnAll(rows: seq<map<string, Cell>>, c: string)
    requires !IsSumColumn(c) && !IsMeanColumn(c)
    ensures ColumnAggregate(rows, c) == TextV("All")
  {
  }

  /** A mean column's aggregate lies within the range of the column's numbers. */
  lemma ColumnMeanWithin(rows: seq<map<string, Cell>>, c: string, lo: real, hi: real)
    requires !IsSumColumn(c) && IsMeanColumn(c)
    requires forall i :: 0 <= i < |rows| && CellOf(rows[i], c).Num? ==> lo <= CellOf(rows[i], c).n <= hi
    ensures ColumnAggregate(rows, c).RealV? ==> lo <= ColumnAggregate(rows, c).r <= hi
  {
    var xs := Numbers(rows, c);
    forall i | 0 <= i < |xs| ensures lo <= xs[i] <= hi {
      assert xs[i] in xs;
    }
    Stats.MeanWithin(xs, lo, hi);
  }

  /** The three overwritten labels. */
  predicate Overridden(c: string)
  {
    c == "Department" || c == "Quarter" || c == "Year"
  }

  /** `aggregate_dataframe`: every column aggregated, then the labels overwritten. */
  function AggregateOf(f: Frame, department: string, year: int, quarter: string): (agg: map<string, AggValue>)
    ensures agg.Keys == (set c | c in f.columns) + {"Department", "Quarter", "Year"}
    ensures agg["Department"] == TextV(department) && agg["Quarter"] == TextV(quarter) && agg["Year"] == IntV(year)
    ensures forall c :: c in f.columns && !Overridden(c) ==> agg[c] == ColumnAggregate(f.rows, c)
  {
    (map c | c in f.columns :: ColumnAggregate(f.rows, c))
      ["Department" := TextV(department)]["Quarter" := TextV(quarter)]["Year" := IntV(year)]
  }

  /** `aggregate_dataframe`, filling the record column by column. */
  method AggregateDataframe(f: Frame, department: string, year: int, quarter: string)
    returns (agg: map<string, AggValue>)
    ensures agg == AggregateOf(f, department, year, quarter)
  {
    agg := map[];
    for i := 0 to |f.columns|
      invariant agg == map c | c in f.columns[..i] :: ColumnAggregate(f.rows, c)
    {
      assert f.columns[..i + 1] == f.columns[..i] + [f.columns[i]];
      agg := agg[f.columns[i] := ColumnAggregate(f.rows, f.columns[i])];
    }
    assert f.columns[..|f.columns|] == f.columns;
    agg := agg["Department" := TextV(department)];
    agg := agg["Quarter" := TextV(quarter)];
    agg := agg["Year" := IntV(year)];
  }

  // ---------------------------------------------------------------- filters

  predicate YearMatches(row: map<string, Cell>, year: int)
  {
    CellOf(row, "Year") == Num(year as real)
  }

  /** `df["Department"].str.lower() == department.lower()`; a cell that is not a text never matches. */
  predicate DepartmentMatches(row: map<string, Cell>, department: string)
  {
    CellOf(row, "Department").Text? && PyText.Lower(CellOf(row, "Department").s) == PyText.Lower(department)
  }

  /** `df["Quarter"].str.upper() == quarter.upper()`. */
  predicate QuarterMatches(row: map<string, Cell>, quarter: string)
  {
    CellOf(row, "Quarter").Text? && PyText.Upper(CellOf(row, "Quarter").s) == PyText.Upper(quarter)
  }

  function ByYear(f: Frame, year: int): (r: Frame)
    ensures r.columns == f.columns
    ensures forall row :: row in r.rows <==> row in f.rows && YearMatches(row, year)
  {
    var p := (row: map<string, Cell>) => YearMatches(row, year);
    Stats.FilterMembers(f.rows, p);
    Frame(f.columns, Stats.Filter(f.rows, p))
  }

  function ByDepartment(f: Frame, department: string): (r: Frame)
    ensures r.columns == f.columns
    ensures forall row :: row in r.rows <==> row in f.rows && DepartmentMatches(row, department)
  {
    var p := (row: map<string, Cell>) => DepartmentMatches(row, department);
    Stats.FilterMembers(f.rows, p);
    Frame(f.columns, Stats.Filter(f.rows, p))
  }

  function ByQuarter(f: Frame, quarter: string): (r: Frame)
    ensures r.columns == f.columns
    ensures forall row :: row in r.rows <==> row in f.rows && QuarterMatches(row, quarter)
    ensures (forall row :: row in f.rows ==> !QuarterMatches(row, quarter)) ==> r.rows == []
  {
    var p := (row: map<string, Cell>) => QuarterMatches(row, quarter);
    Stats.FilterMembers(f.rows, p);
    Stats.FilterNone(f.rows, p);
    Frame(f.columns, Stats.Filter(f.rows, p))
  }

  /** The year filter applies only when the table has a `Year` column. */
  function YearFiltered(f: Frame, year: int): Frame
  {
    if "Year" in f.columns then ByYear(f, year) else f
  }

  /** The answer to the `KeyError` for a missing `column`: `get_metrics` has no handler, so the
   *  server answers a plain 500 whatever the column. */
  function KeyError(column: string): HttpError
  {
    HttpError(500, "Internal Server Error")
  }

  // ---------------------------------------------------------------- quarter trend

  /** The record of a quarter without rows: nulls, so that a chart interpolates. */
  function EmptyQuarter(department: string, quarter: string, year: int): map<string, AggValue>
  {
    map["Department" := TextV(department), "Quarter" := TextV(quarter), "Year" := IntV(year),
        "Response_Count" := IntV(0), "Burnout_Rate" := NullV, "Turnover_Risk" := NullV,
        "eNPS" := NullV, "Overall_Engagement" := NullV]
  }

  function QuarterRecord(f: Frame, department: string, year: int, quarter: string): map<string, AggValue>
  {
    var q := ByQuarter(f, quarter);
    if q.rows == [] then EmptyQuarter(department, quarter, year) else AggregateOf(q, department, year, quarter)
  }

  /** The trend: the records of Q1 to Q4, in order. */
  function QuarterTrend(f: Frame, department: string, year: int): (r: seq<Record>)
    ensures |r| == 4
  {
    seq(4, i requires 0 <= i < 4 => Aggregate(QuarterRecord(f, department, year, Quarters[i])))
  }

  /** Every quarter's record names its department, quarter and year. */
  lemma QuarterRecordLabels(f: Frame, department: string, year: int, quarter: string)
    ensures var r := QuarterRecord(f, department, year, quarter);
      {"Department", "Quarter", "Year"} <= r.Keys
      && r["Department"] == TextV(department) && r["Quarter"] == TextV(quarter) && r["Year"] == IntV(year)
  {
  }

  /** A quarter without rows has no responses and null metrics. */
  lemma EmptyQuarterNulls(f: Frame, department: string, year: int, quarter: string)
    requires forall row :: row in f.rows ==> !QuarterMatches(row, quarter)
    ensures var r := QuarterRecord(f, department, year, quarter);
      r["Response_Count"] == IntV(0) && r["Burnout_Rate"] == NullV && r["Turnover_Risk"] == NullV
      && r["eNPS"] == NullV && r["Overall_Engagement"] == NullV
  {
    var e := EmptyQuarter(department, quarter, year);
    assert e["Response_Count"] == IntV(0) && e["Burnout_Rate"] == NullV && e["Turnover_Risk"] == NullV;
    assert e["eNPS"] == NullV && e["Overall_Engagement"] == NullV;
  }

  /** A quarter with rows is the aggregate of exactly its rows. */
  lemma QuarterAggregate(f: Frame, department: string, year: int, quarter: string, row: map<string, Cell>)
    requires row in f.rows && QuarterMatches(row, quarter)
    ensures QuarterRecord(f, department, year, quarter) == AggregateOf(ByQuarter(f, quarter), department, year, quarter)
  {
    assert row in ByQuarter(f, quarter).rows;
  }

  /** One quarter of the trend loop. */
  method QuarterResult(f: Frame, department: string, year: int, quarter: string) returns (res: map<string, AggValue>)
    ensures res == QuarterRecord(f, department, year, quarter)
  {
    var qdf := ByQuarter(f, quarter);
    if qdf.rows == [] {
      res := EmptyQuarter(department, quarter, year);
    } else {
      res := AggregateDataframe(qdf, department, year, quarter);
    }
  }

  /** The trend loop of `filter_metrics`. */
  method QuarterTrendLoop(f: Frame, department: string, year: int) returns (results: seq<Record>)
    ensures results == QuarterTrend(f, department, year)
  {
    results := [];
    for k := 0 to |Quarters|
      invariant |results| == k
      invariant forall i :: 0 <= i < k ==> results[i] == Aggregate(QuarterRecord(f, department, year, Quarters[i]))
    {
      var res := QuarterResult(f, department, year, Quarters[k]);
      results := results + [Aggregate(res)];
    }
    ghost var trend := QuarterTrend(f, department, year);
    assert forall i :: 0 <= i < 4 ==> trend[i] == Aggregate(QuarterRecord(f, department, year, Quarters[i]));
  }

  // ---------------------------------------------------------------- filter_metrics

  /** The rows of a table returned as they are. */
  function Details(rows: seq<map<string, Cell>>): (r: seq<Record>)
    ensures forall row :: Detail(row) in r <==> row in rows
    ensures forall x :: x in r ==> x.Detail?
  {
    if rows == [] then [] else [Detail(rows[0])] + Details(rows[1..])
  }

  /** The department label of an aggregate: the department when one is given, "All" otherwise. */
  function DepartmentLabel(department: Option<string>): string
  {
    if PyText.Truthy(department) then department.value else "All"
  }

  /** `filter_metrics`: the year filter, then the quarter trend for `group_by=quarter`, or one of
   *  the four cases on the department and the quarter. A filter on a column the table lacks raises
   *  a `KeyError`, which escapes the route as a 500. */
  function FilterMetricsOf(f: Frame, department: Option<string>, quarter: Option<string>, year: int,
                           groupBy: Option<string>): Result<seq<Record>>
  {
    var df := YearFiltered(f, year);
    if groupBy == Some("quarter") then
      if PyText.Truthy(department) && "Department" !in df.columns then Err(KeyError("Department"))
      else
        var dd := if PyText.Truthy(department) then ByDepartment(df, department.value) else df;
        if "Quarter" !in dd.columns then Err(KeyError("Quarter"))
        else Ok(QuarterTrend(dd, DepartmentLabel(department), year))
    else if PyText.Truthy(quarter) && "Quarter" !in df.columns then Err(KeyError("Quarter"))
    else
      var dq := if PyText.Truthy(quarter) then ByQuarter(df, quarter.value) else df;
      if PyText.Truthy(department) then
        if "Department" !in dq.columns then Err(KeyError("Department"))
        else
          var dd := ByDepartment(dq, department.value);
          if PyText.Truthy(quarter) then Ok(Details(dd.rows))
          else Ok([Aggregate(AggregateOf(dd, department.value, year, "All"))])
      else if PyText.Truthy(quarter) then Ok([Aggregate(AggregateOf(dq, "All", year, quarter.value))])
      else Ok([Aggregate(AggregateOf(dq, "All", year, "All"))])
  }

  /** `filter_metrics`, reassigning the table filter by filter as the route does. */
  method FilterMetrics(f: Frame, department: Option<string>, quarter: Option<string>, year: int,
                       groupBy: Option<string>) returns (r: Result<seq<Record>>)
    ensures r == FilterMetricsOf(f, department, quarter, year, groupBy)
  {
    var df := f;
    if "Year" in df.columns {
      df := ByYear(df, year);
    }
    if groupBy == Some("quarter") {
      if PyText.Truthy(department) {
        if "Department" !in df.columns {
          return Err(KeyError("Department"));
        }
        df := ByDepartment(df, department.value);
      }
      if "Quarter" !in df.columns {
        return Err(KeyError("Quarter"));
      }
      var results := QuarterTrendLoop(df, DepartmentLabel(department), year);
      return Ok(results);
    }
    if PyText.Truthy(quarter) {
      if "Quarter" !in df.columns {
        return Err(KeyError("Quarter"));
      }
      df := ByQuarter(df, quarter.value);
    }
    if PyText.Truthy(department) {
      if "Department" !in df.columns {
        return Err(KeyError("Department"));
      }
      df := ByDepartment(df, department.value);
      if PyText.Truthy(quarter) {
        return Ok(Details(df.rows));
      }
      var result := AggregateDataframe(df, department.value, year, "All");
      return Ok([Aggregate(result)]);
    }
    var result := AggregateDataframe(df, "All", year, if PyText.Truthy(quarter) then quarter.value else "All");
    return Ok([Aggregate(result)]);
  }

  /** With `group_by=quarter` the result is exactly four aggregates, Q1 to Q4 in order, each
   *  labelled with the department ("All" when none is given) and the year. */
  lemma QuarterTrendShape(f: Frame, department: Option<string>, quarter: Option<string>, year: int)
    requires FilterMetricsOf(f, department, quarter, year, Some("quarter")).Ok?
    ensures var rs := FilterMetricsOf(f, department, quarter, year, Some("quarter")).value;
      |rs| == 4 && forall i :: 0 <= i < 4 ==>
        rs[i].Aggregate? && rs[i].values["Quarter"] == TextV(Quarters[i]) && rs[i].values["Year"] == IntV(year)
        && rs[i].values["Department"] == TextV(DepartmentLabel(department))
  {
    var df := YearFiltered(f, year);
    var dd := if PyText.Truthy(department) then ByDepartment(df, department.value) else df;
    forall i | 0 <= i < 4 {
      QuarterRecordLabels(dd, DepartmentLabel(department), year, Quarters[i]);
    }
  }

  /** The route answers 500 exactly when a filter it applies needs a column the table lacks
   *  (the `Year` filter is skipped instead). */
  lemma FilterMetricsErrors(f: Frame, department: Option<string>, quarter: Option<string>, year: int,
                            groupBy: Option<string>)
    ensures FilterMetricsOf(f, department, quarter, year, groupBy).Err? <==>
      (PyText.Truthy(department) && "Department" !in f.columns)
      || ((groupBy == Some("quarter") || PyText.Truthy(quarter)) && "Quarter" !in f.columns)
    ensures FilterMetricsOf(f, department, quarter, year, groupBy).Err? ==>
      FilterMetricsOf(f, department, quarter, year, groupBy).error.status == 500
  {
  }

  /** A department and a quarter give the table's rows themselves: exactly those of the year
   *  (when there is a year column), the quarter and the department. */
  lemma DetailRows(f: Frame, department: string, quarter: string, year: int, groupBy: Option<string>)
    requires groupBy != Some("quarter") && department != "" && quarter != ""
    requires "Department" in f.columns && "Quarter" in f.columns && "Year" in f.columns
    ensures var r := FilterMetricsOf(f, Some(department), Some(quarter), year, groupBy);
      r.Ok? && (forall x :: x in r.value ==> x.Detail?)
      && forall row :: Detail(row) in r.value <==>
           row in f.rows && YearMatches(row, year) && QuarterMatches(row, quarter) && DepartmentMatches(row, department)
  {
    var dd := ByDepartment(ByQuarter(ByYear(f, year), quarter), department);
    assert FilterMetricsOf(f, Some(department), Some(quarter), year, groupBy) == Ok(Details(dd.rows));
  }

  /** Without a department or a quarter trend, the result is one aggregate of the rows of the
   *  year and quarter, labelled "All" and with the quarter given or "All". */
  lemma SingleAggregate(f: Frame, quarter: Option<string>, year: int, groupBy: Option<string>)
    requires groupBy != Some("quarter")
    requires FilterMetricsOf(f, None, quarter, year, groupBy).Ok?
    ensures var r := FilterMetricsOf(f, None, quarter, year, groupBy).value;
      |r| == 1 && r[0].Aggregate? && r[0].values["Department"] == TextV("All")
      && r[0].values["Quarter"] == TextV(if PyText.Truthy(quarter) then quarter.value else "All")
      && r[0].values["Year"] == IntV(year)
  {
  }
}
