/** The survey synchronisation of `db_sync.py`: the newest submission per employee updates the
 *  Employees table, the stress check runs, per-department means update the Departments table,
 *  and the department check runs. Table writes and the two checks are recorded as events. */
module DbSync {
  import opened Wrappers
  import opened Store
  import PyText
  import Sorting
  import Stats

  /** A row of the processed survey frame: `str(row['employee_id'])` ("nan" for a missing id),
   *  the survey `department` (None for NaN), its non-NaN metric columns and the parsed
   *  `submission_date` as a timestamp (None for NaT). */
  datatype SurveyRow = SurveyRow(employeeId: string, department: Option<string>, metrics: map<string, real>,
                                 submitted: Option<int>)

  /** The metric columns written to both tables. */
  const MetricColumns: seq<string> := ["Dim_Employee_Engagement", "Dim_Leadership", "Dim_Enablement",
                                        "Dim_Development", "Dim_Delight_Customer", "Dim_Company_Confidence",
                                        "Dim_Culture_Values", "Dim_ESG",
                                        "stress_rate", "engagement_rate", "attrition_rate"]

  /** `a` comes before `b` in a descending sort on the submission date, NaT last. */
  predicate Newer(a: SurveyRow, b: SurveyRow)
  {
    match (a.submitted, b.submitted)
    case (Some(x), Some(y)) => x > y
    case (Some(_), None) => true
    case _ => false
  }

  lemma NewerIsStrictOrder()
    ensures Sorting.StrictOrder(Newer)
  {
  }

  function RowKey(r: SurveyRow): string
  {
    r.employeeId
  }

  /** `drop_duplicates(subset=['employee_id'], keep='first')`, after the sort when the frame has
   *  a `submission_date` column. */
  function LatestPerEmployee(rows: seq<SurveyRow>, hasDateColumn: bool): seq<SurveyRow>
  {
    Sorting.DedupFirst(if hasDateColumn then Sorting.SortBy(rows, Newer) else rows, RowKey)
  }

  lemma SameElementsSameKeys(a: seq<SurveyRow>, b: seq<SurveyRow>)
    requires multiset(a) == multiset(b)
    ensures forall k :: Sorting.HasKey(a, RowKey, k) <==> Sorting.HasKey(b, RowKey, k)
  {
    forall k | Sorting.HasKey(a, RowKey, k) ensures Sorting.HasKey(b, RowKey, k) {
      var i :| 0 <= i < |a| && RowKey(a[i]) == k;
      assert a[i] in multiset(b);
      var j :| 0 <= j < |b| && b[j] == a[i];
    }
    forall k | Sorting.HasKey(b, RowKey, k) ensures Sorting.HasKey(a, RowKey, k) {
      var i :| 0 <= i < |b| && RowKey(b[i]) == k;
      assert b[i] in multiset(a);
      var j :| 0 <= j < |a| && a[j] == b[i];
    }
  }

  /** Every employee of the input appears in the newest rows, once. */
  lemma LatestKeys(rows: seq<SurveyRow>, hasDateColumn: bool)
    ensures forall id :: Sorting.HasKey(LatestPerEmployee(rows, hasDateColumn), RowKey, id) <==> Sorting.HasKey(rows, RowKey, id)
    ensures forall i, j :: 0 <= i < j < |LatestPerEmployee(rows, hasDateColumn)| ==>
      LatestPerEmployee(rows, hasDateColumn)[i].employeeId != LatestPerEmployee(rows, hasDateColumn)[j].employeeId
    ensures forall r :: r in LatestPerEmployee(rows, hasDateColumn) ==> r in rows
  {
    var sorted := if hasDateColumn then Sorting.SortBy(rows, Newer) else rows;
    Sorting.SortByPermutes(rows, Newer);
    Sorting.DedupFirstKeys(sorted, RowKey);
    Sorting.DedupFirstDistinct(sorted, RowKey);
    SameElementsSameKeys(sorted, rows);
    forall r | r in LatestPerEmployee(rows, hasDateColumn) ensures r in rows {
      assert r in multiset(sorted);
    }
  }

  /** With a date column, no submission of an employee is newer than the row kept for them. */
  lemma LatestIsNewest(rows: seq<SurveyRow>)
    ensures forall i, j :: (0 <= i < |LatestPerEmployee(rows, true)| && 0 <= j < |rows|
      && rows[j].employeeId == LatestPerEmployee(rows, true)[i].employeeId) ==>
      !Newer(rows[j], LatestPerEmployee(rows, true)[i])
  {
    var sorted := Sorting.SortBy(rows, Newer);
    var latest := LatestPerEmployee(rows, true);
    NewerIsStrictOrder();
    Sorting.SortBySorted(rows, Newer);
    Sorting.SortByPermutes(rows, Newer);
    Sorting.DedupFirstKeepsBest(sorted, RowKey, Newer);
    assert latest == Sorting.DedupFirst(sorted, RowKey);
    forall i, j | 0 <= i < |latest| && 0 <= j < |rows| && rows[j].employeeId == latest[i].employeeId
      ensures !Newer(rows[j], latest[i])
    {
      assert rows[j] in multiset(sorted);
      var k :| 0 <= k < |sorted| && sorted[k] == rows[j];
      assert RowKey(sorted[k]) == RowKey(latest[i]);
      assert !Newer(sorted[k], latest[i]);
    }
  }

  /** Without a date column, the row kept for an employee is their first row. */
  lemma LatestIsFirst(rows: seq<SurveyRow>)
    ensures forall i :: 0 <= i < |LatestPerEmployee(rows, false)| ==>
      Sorting.HasKey(rows, RowKey, LatestPerEmployee(rows, false)[i].employeeId)
      && LatestPerEmployee(rows, false)[i] == rows[Sorting.FirstKeyIndex(rows, RowKey, LatestPerEmployee(rows, false)[i].employeeId)]
  {
    Sorting.DedupFirstPicksFirst(rows, RowKey);
    forall i | 0 <= i < |LatestPerEmployee(rows, false)|
      ensures RowKey(LatestPerEmployee(rows, false)[i]) == LatestPerEmployee(rows, false)[i].employeeId
    {
    }
  }

  /** The submission the sync uses for employee `id`: their row among the newest rows. */
  function NewestRow(rows: seq<SurveyRow>, hasDateColumn: bool, id: string): (r: SurveyRow)
    requires Sorting.HasKey(rows, RowKey, id)
    ensures r in rows && r.employeeId == id
    ensures hasDateColumn ==> forall j :: 0 <= j < |rows| && rows[j].employeeId == id ==> !Newer(rows[j], r)
    ensures !hasDateColumn ==> r == rows[Sorting.FirstKeyIndex(rows, RowKey, id)]
  {
    LatestKeys(rows, hasDateColumn);
    var latest := LatestPerEmployee(rows, hasDateColumn);
    var r := latest[Sorting.FirstKeyIndex(latest, RowKey, id)];
    if hasDateColumn then LatestIsNewest(rows); r else LatestIsFirst(rows); r
  }

  /** A value of an update: a number, the NaN a department mean of no values gives, text, or
   *  Python's None. */
  datatype UpdateValue = Num(real) | NotANumber | Text(string) | Null

  /** An `update_item` call being built: `update_parts`, `expr_names` and `expr_vals`. */
  datatype Update = Update(parts: seq<string>, names: map<string, string>, values: map<string, UpdateValue>)
  {
    /** `"SET " + ", ".join(update_parts)`. */
    function Expression(): string
    {
      "SET " + PyText.Join(", ", parts)
    }

    /** Adds `#alias = :alias`, naming `attribute` and binding `value`. */
    function Set(alias: string, attribute: string, value: UpdateValue): Update
    {
      Update(parts + [Alias('#', alias) + " = " + Alias(':', alias)], names[Alias('#', alias) := attribute],
             values[Alias(':', alias) := value])
    }
  }

  const NoUpdate := Update([], map[], map[])

  /** An expression placeholder: `#name` or `:name`. */
  function Alias(marker: char, name: string): (r: string)
    ensures |r| == |name| + 1 && r[0] == marker && r[1..] == name
  {
    [marker] + name
  }

  /** Where the column values of an update come from: one employee's row, or a department's
   *  rows among the newest submissions. */
  datatype ColumnSource = EmployeeRow(row: SurveyRow) | DepartmentRows(latest: seq<SurveyRow>, name: string)

  /** `latest[latest.department == name][col]` without NaN, in row order. */
  function ColumnValues(rows: seq<SurveyRow>, name: string, col: string): (r: seq<real>)
    ensures |r| <= |rows|
  {
    if rows == [] then []
    else (if rows[0].department == Some(name) && col in rows[0].metrics then [rows[0].metrics[col]] else [])
         + ColumnValues(rows[1..], name, col)
  }

  /** The value written for column `c`, None when the column is not written. */
  function ColumnValue(src: ColumnSource, c: string): Option<UpdateValue>
  {
    match src
    case EmployeeRow(row) => if c in row.metrics then Some(Num(row.metrics[c])) else None
    case DepartmentRows(latest, name) =>
      Some(match Stats.Mean(ColumnValues(latest, name, c)) case None => NotANumber case Some(m) => Num(m))
  }

  /** The metric part of the loop over `metric_cols`. */
  function SetColumns(src: ColumnSource, cols: seq<string>): Update
  {
    if cols == [] then NoUpdate
    else
      var u := SetColumns(src, cols[..|cols| - 1]);
      var c := cols[|cols| - 1];
      match ColumnValue(src, c)
      case None => u
      case Some(v) => u.Set(c, c, v)
  }

  /** The whole update of an employee or a department: metrics, `division` for an employee with
   *  a department, and `metrics_updated_at`. */
  function SourceUpdate(src: ColumnSource, now: string): Update
  {
    var u := SetColumns(src, MetricColumns);
    var withDivision := if src.EmployeeRow? && src.row.department.Some?
                        then u.Set("div", "division", Text(src.row.department.value)) else u;
    withDivision.Set("ua", "metrics_updated_at", Text(now))
  }

  /** The metric columns name exactly the columns with a value. */
  lemma {:induction false} SetColumnsNames(src: ColumnSource, cols: seq<string>)
    ensures forall c :: Alias('#', c) in SetColumns(src, cols).names <==> c in cols && ColumnValue(src, c).Some?
    ensures forall c :: Alias(':', c) in SetColumns(src, cols).values <==> c in cols && ColumnValue(src, c).Some?
  {
    if cols != [] {
      var init := cols[..|cols| - 1];
      var c := cols[|cols| - 1];
      SetColumnsNames(src, init);
      assert cols == init + [c];
      var u := SetColumns(src, cols);
      forall d ensures Alias('#', d) in u.names <==> d in cols && ColumnValue(src, d).Some? {
        assert Alias('#', d) == Alias('#', c) <==> d == c by { assert Alias('#', d)[1..] == d; }
      }
      forall d ensures Alias(':', d) in u.values <==> d in cols && ColumnValue(src, d).Some? {
        assert Alias(':', d) == Alias(':', c) <==> d == c by { assert Alias(':', d)[1..] == d; }
      }
    }
  }

  /** Each metric column with a value names itself and is bound to its value. */
  lemma {:induction false} SetColumnsBindings(src: ColumnSource, cols: seq<string>)
    ensures forall c :: c in cols && ColumnValue(src, c).Some? ==>
      Alias('#', c) in SetColumns(src, cols).names && SetColumns(src, cols).names[Alias('#', c)] == c
      && Alias(':', c) in SetColumns(src, cols).values && SetColumns(src, cols).values[Alias(':', c)] == ColumnValue(src, c).value
  {
    if cols != [] {
      var init := cols[..|cols| - 1];
      var c := cols[|cols| - 1];
      SetColumnsBindings(src, init);
      SetColumnsNames(src, init);
      assert cols == init + [c];
      var u := SetColumns(src, cols);
      forall d | d in cols && ColumnValue(src, d).Some?
        ensures Alias('#', d) in u.names && u.names[Alias('#', d)] == d
          && Alias(':', d) in u.values && u.values[Alias(':', d)] == ColumnValue(src, d).value
      {
        assert Alias('#', d) == Alias('#', c) <==> d == c by { assert Alias('#', d)[1..] == d; }
        assert Alias(':', d) == Alias(':', c) <==> d == c by { assert Alias(':', d)[1..] == d; }
      }
    }
  }

  /** The metric part names nothing but placeholders of the columns. */
  lemma {:induction false} SetColumnsKeys(src: ColumnSource, cols: seq<string>)
    ensures forall k :: k in SetColumns(src, cols).names ==> |k| > 0 && k[0] == '#' && k[1..] in cols
  {
    if cols != [] {
      SetColumnsKeys(src, cols[..|cols| - 1]);
    }
  }

  /** The update without its `division` and timestamp parts. */
  function MetricsOnly(src: ColumnSource): Update
  {
    SetColumns(src, MetricColumns)
  }

  lemma MetricsOnlyColumn(src: ColumnSource, c: string)
    requires c in MetricColumns
    ensures Alias('#', c) in MetricsOnly(src).names <==> ColumnValue(src, c).Some?
    ensures ColumnValue(src, c).Some? ==>
      Alias('#', c) in MetricsOnly(src).names && MetricsOnly(src).names[Alias('#', c)] == c
      && Alias(':', c) in MetricsOnly(src).values && MetricsOnly(src).values[Alias(':', c)] == ColumnValue(src, c).value
  {
    SetColumnsNames(src, MetricColumns);
    SetColumnsBindings(src, MetricColumns);
  }

  lemma AliasDiffers(c: string)
    requires c in MetricColumns
    ensures Alias('#', c) != "#div" && Alias('#', c) != "#ua" && Alias(':', c) != ":div" && Alias(':', c) != ":ua"
  {
    assert "#div"[1..] == "div" && "#ua"[1..] == "ua" && ":div"[1..] == "div" && ":ua"[1..] == "ua";
  }

  /** `Set` leaves every other name and value as it was. */
  lemma SetOther(u: Update, alias: string, attribute: string, value: UpdateValue, c: string)
    requires Alias('#', c) != Alias('#', alias)
    ensures Alias('#', c) in u.Set(alias, attribute, value).names <==> Alias('#', c) in u.names
    ensures Alias('#', c) in u.names ==> u.Set(alias, attribute, value).names[Alias('#', c)] == u.names[Alias('#', c)]
    ensures Alias(':', c) in u.Set(alias, attribute, value).values <==> Alias(':', c) in u.values
    ensures Alias(':', c) in u.values ==> u.Set(alias, attribute, value).values[Alias(':', c)] == u.values[Alias(':', c)]
  {
    assert Alias(':', c) != Alias(':', alias) by {
      assert Alias('#', c)[1..] == c && Alias('#', alias)[1..] == alias;
      assert Alias(':', c)[1..] == c && Alias(':', alias)[1..] == alias;
    }
  }

  lemma SourceUpdateColumn(src: ColumnSource, now: string, c: string)
    requires c in MetricColumns
    ensures Alias('#', c) in SourceUpdate(src, now).names <==> ColumnValue(src, c).Some?
    ensures ColumnValue(src, c).Some? ==>
      Alias('#', c) in SourceUpdate(src, now).names && SourceUpdate(src, now).names[Alias('#', c)] == c
      && Alias(':', c) in SourceUpdate(src, now).values && SourceUpdate(src, now).values[Alias(':', c)] == ColumnValue(src, c).value
  {
    MetricsOnlyColumn(src, c);
    AliasDiffers(c);
    var base := MetricsOnly(src);
    var mid := if src.EmployeeRow? && src.row.department.Some?
               then base.Set("div", "division", Text(src.row.department.value)) else base;
    assert Alias('#', "div") == "#div" && Alias('#', "ua") == "#ua";
    if src.EmployeeRow? && src.row.department.Some? {
      SetOther(base, "div", "division", Text(src.row.department.value), c);
    }
    SetOther(mid, "ua", "metrics_updated_at", Text(now), c);
  }

  /** The metric part of an update: exactly the columns with a value, each bound to it. */
  lemma SourceUpdateColumns(src: ColumnSource, now: string)
    ensures forall c :: c in MetricColumns ==> (Alias('#', c) in SourceUpdate(src, now).names <==> ColumnValue(src, c).Some?)
    ensures forall c :: c in MetricColumns && ColumnValue(src, c).Some? ==>
      Alias('#', c) in SourceUpdate(src, now).names && SourceUpdate(src, now).names[Alias('#', c)] == c
      && Alias(':', c) in SourceUpdate(src, now).values && SourceUpdate(src, now).values[Alias(':', c)] == ColumnValue(src, c).value
  {
    forall c | c in MetricColumns
      ensures Alias('#', c) in SourceUpdate(src, now).names <==> ColumnValue(src, c).Some?
      ensures ColumnValue(src, c).Some? ==>
        Alias('#', c) in SourceUpdate(src, now).names && SourceUpdate(src, now).names[Alias('#', c)] == c
        && Alias(':', c) in SourceUpdate(src, now).values && SourceUpdate(src, now).values[Alias(':', c)] == ColumnValue(src, c).value
    {
      SourceUpdateColumn(src, now, c);
    }
  }

  /** `division` is named exactly for an employee with a department; `metrics_updated_at` always. */
  lemma SourceUpdateDivisionAndTime(src: ColumnSource, now: string)
    ensures "#div" in SourceUpdate(src, now).names <==> src.EmployeeRow? && src.row.department.Some?
    ensures src.EmployeeRow? && src.row.department.Some? ==>
      "#div" in SourceUpdate(src, now).names && SourceUpdate(src, now).names["#div"] == "division"
      && ":div" in SourceUpdate(src, now).values && SourceUpdate(src, now).values[":div"] == Text(src.row.department.value)
    ensures "#ua" in SourceUpdate(src, now).names && SourceUpdate(src, now).names["#ua"] == "metrics_updated_at"
    ensures ":ua" in SourceUpdate(src, now).values && SourceUpdate(src, now).values[":ua"] == Text(now)
  {
    SetColumnsNames(src, MetricColumns);
    var base := MetricsOnly(src);
    assert "#div"[1..] == "div" && ":div"[1..] == "div" && "div" !in MetricColumns;
    assert Alias('#', "div") == "#div" && Alias(':', "div") == ":div";
    assert "#div" !in base.names && ":div" !in base.values;
    assert Alias('#', "ua") == "#ua" && Alias(':', "ua") == ":ua";
    assert "#div" != "#ua" && ":div" != ":ua";
  }

  lemma SetNames(u: Update, alias: string, attribute: string, value: UpdateValue)
    ensures forall k :: k in u.Set(alias, attribute, value).names ==> k in u.names || k == Alias('#', alias)
  {
  }

  /** The metric part names only metric columns. */
  lemma MetricsOnlyKeys(src: ColumnSource)
    ensures forall k :: k in MetricsOnly(src).names ==> |k| > 0 && k[0] == '#' && k[1..] in MetricColumns
  {
    SetColumnsKeys(src, MetricColumns);
  }

  /** No other attribute is named: a metric column, `division` or `metrics_updated_at`. */
  lemma SourceUpdateNamesOnly(src: ColumnSource, now: string)
    ensures forall k :: k in SourceUpdate(src, now).names ==> k == "#div" || k == "#ua" || k in MetricsOnly(src).names
  {
    var base := MetricsOnly(src);
    var mid := if src.EmployeeRow? && src.row.department.Some?
               then base.Set("div", "division", Text(src.row.department.value)) else base;
    assert Alias('#', "div") == "#div" && Alias('#', "ua") == "#ua";
    if src.EmployeeRow? && src.row.department.Some? {
      SetNames(base, "div", "division", Text(src.row.department.value));
    }
    SetNames(mid, "ua", "metrics_updated_at", Text(now));
    assert SourceUpdate(src, now) == mid.Set("ua", "metrics_updated_at", Text(now));
  }

  /** The expression starts with "SET " and ends with the timestamp assignment. */
  lemma SourceUpdateExpression(src: ColumnSource, now: string)
    ensures PyText.StartsWith(SourceUpdate(src, now).Expression(), "SET ")
    ensures PyText.EndsWith(SourceUpdate(src, now).Expression(), "#ua = :ua")
  {
    var u := SourceUpdate(src, now);
    var joined := PyText.Join(", ", u.parts);
    assert Alias('#', "ua") + " = " + Alias(':', "ua") == "#ua = :ua";
    assert u.parts[|u.parts| - 1] == "#ua = :ua";
    assert ("SET " + joined)[|"SET " + joined| - 9..] == joined[|joined| - 9..];
  }

  /** One write or check of the sync, in the order issued. */
  datatype SyncEvent =
    | UpdateEmployee(employeeId: string, update: Update)
    | CheckEmployeeStress
    | UpdateDepartment(departmentId: Value, update: Update)
    | CheckDepartmentRisks

  /** An employee id `perform_full_sync` writes: not empty and not "nan". */
  predicate Syncable(id: string)
  {
    id != "" && id != "nan"
  }

  /** The loop over the newest rows: one update per row with a usable employee id. */
  function EmployeeEvents(latest: seq<SurveyRow>, now: string): (r: seq<SyncEvent>)
    ensures forall i :: 0 <= i < |r| ==> r[i].UpdateEmployee? && Syncable(r[i].employeeId)
  {
    if latest == [] then []
    else
      var before := EmployeeEvents(latest[..|latest| - 1], now);
      var row := latest[|latest| - 1];
      if Syncable(row.employeeId) then before + [UpdateEmployee(row.employeeId, SourceUpdate(EmployeeRow(row), now))]
      else before
  }

  predicate HasEventFor(events: seq<SyncEvent>, id: string)
  {
    exists i :: 0 <= i < |events| && events[i].UpdateEmployee? && events[i].employeeId == id
  }

  /** One event per usable employee id of the rows, and none for any other id. */
  lemma {:induction false} EmployeeEventsCover(latest: seq<SurveyRow>, now: string)
    ensures forall id :: Syncable(id) ==> (HasEventFor(EmployeeEvents(latest, now), id) <==> Sorting.HasKey(latest, RowKey, id))
  {
    if latest != [] {
      var n := |latest| - 1;
      var init := latest[..n];
      var row := latest[n];
      EmployeeEventsCover(init, now);
      var before := EmployeeEvents(init, now);
      var ev := EmployeeEvents(latest, now);
      assert latest == init + [row];
      forall id | Syncable(id) ensures HasEventFor(ev, id) <==> Sorting.HasKey(latest, RowKey, id) {
        Sorting.HasKeySnoc(init, row, RowKey, id);
        if HasEventFor(ev, id) {
          var i :| 0 <= i < |ev| && ev[i].UpdateEmployee? && ev[i].employeeId == id;
          if i < |before| { assert ev[i] == before[i]; }
        }
        if HasEventFor(before, id) {
          var i :| 0 <= i < |before| && before[i].UpdateEmployee? && before[i].employeeId == id;
          assert ev[i] == before[i];
        }
        if id == row.employeeId {
          assert ev[|ev| - 1].employeeId == id;
        }
      }
    }
  }

  lemma LastKeyIsNew(latest: seq<SurveyRow>)
    requires latest != []
    requires forall i, j :: 0 <= i < j < |latest| ==> latest[i].employeeId != latest[j].employeeId
    ensures !Sorting.HasKey(latest[..|latest| - 1], RowKey, latest[|latest| - 1].employeeId)
  {
    var n := |latest| - 1;
    forall j | 0 <= j < n ensures RowKey(latest[..n][j]) != latest[n].employeeId {
      assert latest[..n][j] == latest[j];
    }
  }

  /** Over rows with distinct employee ids, no employee is written twice. */
  lemma {:induction false} EmployeeEventsDistinct(latest: seq<SurveyRow>, now: string)
    requires forall i, j :: 0 <= i < j < |latest| ==> latest[i].employeeId != latest[j].employeeId
    ensures forall i, j :: 0 <= i < j < |EmployeeEvents(latest, now)| ==>
      EmployeeEvents(latest, now)[i].employeeId != EmployeeEvents(latest, now)[j].employeeId
  {
    if latest != [] {
      var n := |latest| - 1;
      var init := latest[..n];
      var row := latest[n];
      EmployeeEventsDistinct(init, now);
      EmployeeEventsCover(init, now);
      LastKeyIsNew(latest);
      var before := EmployeeEvents(init, now);
      var ev := EmployeeEvents(latest, now);
      forall i | 0 <= i < |before| ensures before[i].employeeId != row.employeeId {
        assert HasEventFor(before, before[i].employeeId);
      }
      forall i, j | 0 <= i < j < |ev| ensures ev[i].employeeId != ev[j].employeeId {
        assert ev[i] == before[i];
        if j < |before| { assert ev[j] == before[j]; }
      }
    }
  }

  /** Over rows with distinct employee ids, each employee's update is built from their row. */
  lemma {:induction false} EmployeeEventsFromRows(latest: seq<SurveyRow>, now: string)
    requires forall i, j :: 0 <= i < j < |latest| ==> latest[i].employeeId != latest[j].employeeId
    ensures forall i :: 0 <= i < |EmployeeEvents(latest, now)| ==>
      Sorting.HasKey(latest, RowKey, EmployeeEvents(latest, now)[i].employeeId)
    ensures forall i :: 0 <= i < |EmployeeEvents(latest, now)| ==>
      EmployeeEvents(latest, now)[i].update
        == SourceUpdate(EmployeeRow(latest[Sorting.FirstKeyIndex(latest, RowKey, EmployeeEvents(latest, now)[i].employeeId)]), now)
  {
    if latest != [] {
      var n := |latest| - 1;
      var init := latest[..n];
      var row := latest[n];
      EmployeeEventsFromRows(init, now);
      LastKeyIsNew(latest);
      var before := EmployeeEvents(init, now);
      var ev := EmployeeEvents(latest, now);
      forall i | 0 <= i < |ev| ensures Sorting.HasKey(latest, RowKey, ev[i].employeeId)
        && ev[i].update == SourceUpdate(EmployeeRow(latest[Sorting.FirstKeyIndex(latest, RowKey, ev[i].employeeId)]), now)
      {
        if i < |before| {
          assert ev[i] == before[i];
          Sorting.FirstKeyIndexPrefix(latest, RowKey, before[i].employeeId, n);
          var f := Sorting.FirstKeyIndex(init, RowKey, before[i].employeeId);
          assert init[f] == latest[f];
        } else {
          assert ev[i].employeeId == row.employeeId;
          assert Sorting.HasKey(latest, RowKey, row.employeeId) by { assert RowKey(latest[n]) == row.employeeId; }
          var f := Sorting.FirstKeyIndex(latest, RowKey, row.employeeId);
        }
      }
    }
  }

  /** A value Python treats as true: a non-empty string or a non-zero number. */
  predicate Truthy(v: Value)
  {
    match v
    case S(s) => s != ""
    case N(n) => n != 0.0
  }

  /** `{item['department_name']: item['department_id'] for item in items if 'department_name' in item}`;
   *  None when the scan fails or `item['department_id']` raises. */
  function DepartmentIds(scan: Scan): Option<map<Value, Value>>
  {
    match scan
    case ScanFailed => None
    case Items(items) => IdsOf(items)
  }

  function IdsOf(items: seq<Item>): (r: Option<map<Value, Value>>)
    ensures r.Some? ==> forall i :: 0 <= i < |items| && "department_name" in items[i] ==>
      items[i]["department_name"] in r.value
  {
    if items == [] then Some(map[])
    else
      var before := IdsOf(items[..|items| - 1]);
      var item := items[|items| - 1];
      if before.None? then None
      else if "department_name" !in item then before
      else if "department_id" !in item then None
      else
        var r := Some(before.value[item["department_name"] := item["department_id"]]);
        assert forall i :: 0 <= i < |items| - 1 ==> items[i] == items[..|items| - 1][i];
        r
  }

  /** The department names of the newest rows, in row order (NaN departments dropped). */
  function NamesOf(latest: seq<SurveyRow>): (r: seq<string>)
    ensures forall n :: n in r <==> exists i :: 0 <= i < |latest| && latest[i].department == Some(n)
  {
    if latest == [] then []
    else
      var rest := NamesOf(latest[1..]);
      assert forall i :: 1 <= i < |latest| ==> latest[i] == latest[1..][i - 1];
      if latest[0].department.Some? then [latest[0].department.value] + rest else rest
  }

  /** The groups of `groupby('department')`: the distinct departments in increasing order. */
  function Departments(latest: seq<SurveyRow>): seq<string>
  {
    Sorting.SortedUnique(NamesOf(latest))
  }

  /** The loop over the department groups: one update per department whose name has a
   *  true-valued id. */
  function DepartmentEvents(latest: seq<SurveyRow>, ids: map<Value, Value>, names: seq<string>, now: string)
    : (r: seq<SyncEvent>)
    ensures |r| <= |names|
    ensures forall i :: 0 <= i < |r| ==> r[i].UpdateDepartment? && Truthy(r[i].departmentId)
  {
    if names == [] then []
    else
      var before := DepartmentEvents(latest, ids, names[..|names| - 1], now);
      var name := names[|names| - 1];
      if S(name) in ids && Truthy(ids[S(name)])
      then before + [UpdateDepartment(ids[S(name)], SourceUpdate(DepartmentRows(latest, name), now))]
      else before
  }

  /** Every department whose name has a true-valued id is written, with that id and the means
   *  of its newest rows. */
  lemma {:induction false} DepartmentEventsCover(latest: seq<SurveyRow>, ids: map<Value, Value>, names: seq<string>, now: string)
    ensures forall k :: 0 <= k < |names| && S(names[k]) in ids && Truthy(ids[S(names[k])]) ==>
      UpdateDepartment(ids[S(names[k])], SourceUpdate(DepartmentRows(latest, names[k]), now)) in DepartmentEvents(latest, ids, names, now)
  {
    if names != [] {
      var n := |names| - 1;
      var init := names[..n];
      DepartmentEventsCover(latest, ids, init, now);
      assert forall k :: 0 <= k < n ==> init[k] == names[k];
    }
  }

  /** Every department write is that of a listed department with an id. */
  lemma {:induction false} DepartmentEventsFromNames(latest: seq<SurveyRow>, ids: map<Value, Value>, names: seq<string>, now: string)
    ensures forall e :: e in DepartmentEvents(latest, ids, names, now) ==>
      exists name :: name in names && S(name) in ids && e == UpdateDepartment(ids[S(name)], SourceUpdate(DepartmentRows(latest, name), now))
  {
    if names != [] {
      var n := |names| - 1;
      var init := names[..n];
      DepartmentEventsFromNames(latest, ids, init, now);
      assert forall name :: name in init ==> name in names;
    }
  }

  /** What a sync did: the writes and checks in order, and whether it ended with an exception. */
  datatype SyncOutcome = SyncOutcome(events: seq<SyncEvent>, raised: bool)

  /** The columns of the processed frame the sync depends on: `submission_date`, `employee_id`,
   *  `department`, and all of the metric columns; `datesParse` says whether `pd.to_datetime`
   *  accepted every `submission_date`. */
  datatype SurveyColumns = SurveyColumns(date: bool, employeeId: bool, department: bool, metrics: bool, datesParse: bool)

  /** The frame steps before any write raise: `pd.to_datetime` on a date it cannot parse, or
   *  `drop_duplicates(subset=['employee_id'])` without that column. */
  predicate RaisesBeforeWrites(cols: SurveyColumns)
  {
    (cols.date && !cols.datesParse) || !cols.employeeId
  }

  /** `groupby('department')[metric_cols]` raises without the department column or a metric
   *  column. */
  predicate GroupingRaises(cols: SurveyColumns)
  {
    !cols.department || !cols.metrics
  }

  /** `perform_full_sync` on the processed rows: an empty frame does nothing; a frame step that
   *  raises before the writes does nothing either; otherwise the employee updates, the stress
   *  check, and, unless reading the department ids or grouping by department raises, the
   *  department updates and the department check.
   *
   *  The writes and checks keep their order: every employee update comes before the stress
   *  check, which comes before every department update, which come before the department
   *  check. The stress check runs unless nothing was written, the department check exactly when
   *  nothing raised, and the sync raises exactly when a frame step, the department scan or the
   *  grouping does. */
  function FullSync(rows: seq<SurveyRow>, cols: SurveyColumns, departmentScan: Scan, now: string): (o: SyncOutcome)
    ensures rows == [] ==> o.events == [] && !o.raised
    ensures rows != [] && RaisesBeforeWrites(cols) ==> o.events == [] && o.raised
    ensures rows != [] && !RaisesBeforeWrites(cols) ==> CheckEmployeeStress in o.events
    ensures CheckDepartmentRisks in o.events <==> rows != [] && !o.raised
    ensures o.raised <==> rows != [] && (RaisesBeforeWrites(cols) || DepartmentIds(departmentScan).None? || GroupingRaises(cols))
    ensures PhasesInOrder(o.events)
  {
    if rows == [] then SyncOutcome([], false)
    else if RaisesBeforeWrites(cols) then SyncOutcome([], true)
    else
      var latest := LatestPerEmployee(rows, cols.date);
      var emp := EmployeeEvents(latest, now);
      var employeePhase := emp + [CheckEmployeeStress];
      match DepartmentIds(departmentScan)
      case None =>
        PhasesConcatenated(emp, [], false);
        assert emp + [CheckEmployeeStress] + [] + [] == employeePhase;
        SyncOutcome(employeePhase, true)
      case Some(ids) =>
        if GroupingRaises(cols) then
          PhasesConcatenated(emp, [], false);
          assert emp + [CheckEmployeeStress] + [] + [] == employeePhase;
          SyncOutcome(employeePhase, true)
        else
          var dep := DepartmentEvents(latest, ids, Departments(latest), now);
          PhasesConcatenated(emp, dep, true);
          SyncOutcome(employeePhase + dep + [CheckDepartmentRisks], false)
  }

  /** Employee updates, then the stress check, then department updates, then (when `finish`
   *  holds) the department check: each kind comes after every event of an earlier kind. */
  predicate PhasesInOrder(events: seq<SyncEvent>)
  {
    (forall i, j :: (0 <= i < |events| && 0 <= j < |events| && events[i].UpdateEmployee?
        && !events[j].UpdateEmployee?) ==> i < j)
    && (forall i, j :: (0 <= i < |events| && 0 <= j < |events| && events[i] == CheckEmployeeStress
        && (events[j].UpdateDepartment? || events[j] == CheckDepartmentRisks)) ==> i < j)
    && (forall i, j :: (0 <= i < |events| && 0 <= j < |events| && events[i].UpdateDepartment?
        && events[j] == CheckDepartmentRisks) ==> i < j)
  }

  lemma PhasesConcatenated(emp: seq<SyncEvent>, dep: seq<SyncEvent>, finish: bool)
    requires forall i :: 0 <= i < |emp| ==> emp[i].UpdateEmployee?
    requires forall i :: 0 <= i < |dep| ==> dep[i].UpdateDepartment?
    ensures var events := emp + [CheckEmployeeStress] + dep + (if finish then [CheckDepartmentRisks] else []);
      PhasesInOrder(events) && CheckEmployeeStress in events
      && (CheckDepartmentRisks in events <==> finish)
  {
    var events := emp + [CheckEmployeeStress] + dep + (if finish then [CheckDepartmentRisks] else []);
    assert events[|emp|] == CheckEmployeeStress;
    forall i | 0 <= i < |events| ensures
      (i < |emp| <==> events[i].UpdateEmployee?)
      && (events[i] == CheckEmployeeStress <==> i == |emp|)
      && (|emp| < i < |emp| + 1 + |dep| <==> events[i].UpdateDepartment?)
      && (events[i] == CheckDepartmentRisks <==> i == |emp| + 1 + |dep|)
    {
      if i < |emp| {
        assert events[i] == emp[i];
      } else if |emp| < i < |emp| + 1 + |dep| {
        assert events[i] == dep[i - |emp| - 1];
      }
    }
  }

  /** What the sync writes per employee: exactly the employees of the input with a usable id,
   *  each once, each from their newest submission. */
  lemma SyncedEmployees(rows: seq<SurveyRow>, hasDateColumn: bool, now: string)
    ensures forall id :: Syncable(id) ==>
      (HasEventFor(EmployeeEvents(LatestPerEmployee(rows, hasDateColumn), now), id) <==> Sorting.HasKey(rows, RowKey, id))
    ensures forall i, j :: 0 <= i < j < |EmployeeEvents(LatestPerEmployee(rows, hasDateColumn), now)| ==>
      EmployeeEvents(LatestPerEmployee(rows, hasDateColumn), now)[i].employeeId
        != EmployeeEvents(LatestPerEmployee(rows, hasDateColumn), now)[j].employeeId
    ensures forall i :: 0 <= i < |EmployeeEvents(LatestPerEmployee(rows, hasDateColumn), now)| ==>
      Sorting.HasKey(rows, RowKey, EmployeeEvents(LatestPerEmployee(rows, hasDateColumn), now)[i].employeeId)
      && EmployeeEvents(LatestPerEmployee(rows, hasDateColumn), now)[i].update
        == SourceUpdate(EmployeeRow(NewestRow(rows, hasDateColumn, EmployeeEvents(LatestPerEmployee(rows, hasDateColumn), now)[i].employeeId)), now)
  {
    var latest := LatestPerEmployee(rows, hasDateColumn);
    LatestKeys(rows, hasDateColumn);
    EmployeeEventsCover(latest, now);
    EmployeeEventsDistinct(latest, now);
    EmployeeEventsFromRows(latest, now);
  }

  /** `perform_full_sync`: the two row loops, with the writes recorded in `events`. */
  method PerformFullSync(rows: seq<SurveyRow>, cols: SurveyColumns, departmentScan: Scan, now: string)
    returns (events: seq<SyncEvent>, raised: bool)
    ensures SyncOutcome(events, raised) == FullSync(rows, cols, departmentScan, now)
  {
    if rows == [] {
      return [], false;
    }
    if RaisesBeforeWrites(cols) {
      return [], true;
    }
    var latest := LatestPerEmployee(rows, cols.date);
    var employeeEvents := SyncEmployees(latest, now);
    events := employeeEvents + [CheckEmployeeStress];
    var ids := DepartmentIds(departmentScan);
    if ids.None? || GroupingRaises(cols) {
      return events, true;
    }
    var departmentEvents := SyncDepartments(latest, ids.value, Departments(latest), now);
    events := events + departmentEvents + [CheckDepartmentRisks];
    raised := false;
  }

  /** The employee loop: one update per latest row whose employee id is usable. */
  method SyncEmployees(latest: seq<SurveyRow>, now: string) returns (events: seq<SyncEvent>)
    ensures events == EmployeeEvents(latest, now)
  {
    events := [];
    var i := 0;
    while i < |latest|
      invariant 0 <= i <= |latest|
      invariant events == EmployeeEvents(latest[..i], now)
    {
      assert latest[..i + 1][..i] == latest[..i];
      var row := latest[i];
      if Syncable(row.employeeId) {
        var u := BuildUpdate(EmployeeRow(row), now);
        events := events + [UpdateEmployee(row.employeeId, u)];
      }
      i := i + 1;
    }
    assert latest[..i] == latest;
  }

  /** The department loop: one update per department name that has a truthy id. */
  method SyncDepartments(latest: seq<SurveyRow>, ids: map<Value, Value>, names: seq<string>, now: string)
    returns (events: seq<SyncEvent>)
    ensures events == DepartmentEvents(latest, ids, names, now)
  {
    events := [];
    var k := 0;
    while k < |names|
      invariant 0 <= k <= |names|
      invariant events == DepartmentEvents(latest, ids, names[..k], now)
    {
      assert names[..k + 1][..k] == names[..k];
      var name := names[k];
      if S(name) in ids && Truthy(ids[S(name)]) {
        var u := BuildUpdate(DepartmentRows(latest, name), now);
        events := events + [UpdateDepartment(ids[S(name)], u)];
      }
      k := k + 1;
    }
    assert names[..k] == names;
  }

  /** The `update_parts`/`expr_names`/`expr_vals` building of one row. */
  method BuildUpdate(src: ColumnSource, now: string) returns (u: Update)
    ensures u == SourceUpdate(src, now)
  {
    u := NoUpdate;
    var k := 0;
    while k < |MetricColumns|
      invariant 0 <= k <= |MetricColumns|
      invariant u == SetColumns(src, MetricColumns[..k])
    {
      assert MetricColumns[..k + 1][..k] == MetricColumns[..k];
      var col := MetricColumns[k];
      var value := ColumnValue(src, col);
      if value.Some? {
        u := u.Set(col, col, value.value);
      }
      k := k + 1;
    }
    assert MetricColumns[..k] == MetricColumns;
    if src.EmployeeRow? && src.row.department.Some? {
      u := u.Set("div", "division", Text(src.row.department.value));
    }
    u := u.Set("ua", "metrics_updated_at", Text(now));
  }
}
