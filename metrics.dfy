/**
 * The metrics routes: the date-range cutoff, the dashboard summary over the newest submission of
 * every employee, the `/dimensions` listing with its offset/limit page, and the conversion of
 * stored decimals for the response.
 */
module Metrics {
  import opened Wrappers
  import PyText
  import Sorting
  import Stats

  // ---------------------------------------------------------------- date range

  const SecondsPerDay: int := 86400

  /** The days `get_cutoff_date` goes back: exact, case-sensitive names, and a month otherwise. */
  function CutoffDays(rangeType: string): (d: int)
    ensures rangeType == "week" ==> d == 7
    ensures rangeType == "month" ==> d == 30
    ensures rangeType == "quarter" ==> d == 90
    ensures rangeType == "year" ==> d == 365
    ensures rangeType !in ["week", "month", "quarter", "year"] ==> d == 30
  {
    if rangeType == "week" then 7
    else if rangeType == "month" then 30
    else if rangeType == "quarter" then 90
    else if rangeType == "year" then 365
    else 30
  }

  /** `get_cutoff_date`, with `now` in seconds: between a year and a week before now, and an
   *  unknown range is a month. */
  function Cutoff(now: int, rangeType: string): (r: int)
    ensures now - 365 * SecondsPerDay <= r <= now - 7 * SecondsPerDay
    ensures rangeType !in ["week", "month", "quarter", "year"] ==> r == now - 30 * SecondsPerDay
  {
    now - CutoffDays(rangeType) * SecondsPerDay
  }

  // ---------------------------------------------------------------- summary

  /** A survey row after `calculate_survey_metrics`: `submitted` is the coerced date (None for NaT),
   *  the department and the three rates are None where NaN. */
  datatype SurveyRow = SurveyRow(employeeId: string, submitted: Option<int>, department: Option<string>,
                                 engagement: Option<real>, stress: Option<real>, attrition: Option<real>)

  /** The dashboard figures; `engagementTrend` is always 0 here. */
  datatype MetricsData = MetricsData(totalEmployees: nat, teamsAtRisk: nat, avgEngagement: real,
                                     engagementTrend: real, burnoutAlerts: nat, attritionRiskCount: nat,
                                     feedbackResponseRate: real)

  /** `sync_status`: the two empty cases, or the three row counts of the read-only summary. */
  datatype SyncStatus = NoDataAvailable | NoDataForRange | ReadOnly(raw: nat, afterDate: nat, final: nat)

  datatype SummaryResponse = SummaryResponse(data: MetricsData, syncStatus: SyncStatus)

  const ZeroMetrics := MetricsData(0, 0, 0.0, 0.0, 0, 0, 0.0)

  predicate HasDate(r: SurveyRow)
  {
    r.submitted.Some?
  }

  /** The rows the date and department filters keep: on or after the cutoff, and in the department
   *  (case-insensitively) when one is given and the frame has a department column. */
  predicate Kept(r: SurveyRow, cutoff: int, department: Option<string>, hasDepartmentColumn: bool)
  {
    r.submitted.Some? && r.submitted.value >= cutoff
    && (PyText.Truthy(department) && hasDepartmentColumn ==>
          r.department.Some? && PyText.Lower(r.department.value) == PyText.Lower(department.value))
  }

  /** `a` comes first in the sort on the date, newest first. */
  predicate Newer(a: SurveyRow, b: SurveyRow)
  {
    match (a.submitted, b.submitted)
    case (Some(x), Some(y)) => x > y
    case (Some(_), None) => true
    case _ => false
  }

  function RowKey(r: SurveyRow): string
  {
    r.employeeId
  }

  /** `sort_values(date, ascending=False).drop_duplicates(subset=['employee_id'], keep='first')`. */
  function Snapshot(rows: seq<SurveyRow>): seq<SurveyRow>
  {
    Sorting.DedupFirst(Sorting.SortBy(rows, Newer), RowKey)
  }

  lemma NewerIsStrictOrder()
    ensures Sorting.StrictOrder(Newer)
  {
  }

  /** The snapshot holds one row per employee of the filtered rows, each one of them. */
  lemma SnapshotDistinct(rows: seq<SurveyRow>)
    ensures forall i, j :: 0 <= i < j < |Snapshot(rows)| ==> Snapshot(rows)[i].employeeId != Snapshot(rows)[j].employeeId
    ensures forall r :: r in Snapshot(rows) ==> r in rows
  {
    var sorted := Sorting.SortBy(rows, Newer);
    Sorting.SortByPermutes(rows, Newer);
    Sorting.DedupFirstDistinct(sorted, RowKey);
    forall r | r in Snapshot(rows) ensures r in rows {
      assert r in multiset(sorted);
    }
  }

  /** No filtered row of an employee is newer than the one the snapshot keeps for them. */
  lemma SnapshotNewest(rows: seq<SurveyRow>)
    ensures forall i, j :: 0 <= i < |Snapshot(rows)| && 0 <= j < |rows| && rows[j].employeeId == Snapshot(rows)[i].employeeId ==>
      !Newer(rows[j], Snapshot(rows)[i])
  {
    var sorted := Sorting.SortBy(rows, Newer);
    var snap := Snapshot(rows);
    NewerIsStrictOrder();
    Sorting.SortBySorted(rows, Newer);
    Sorting.SortByPermutes(rows, Newer);
    Sorting.DedupFirstKeepsBest(sorted, RowKey, Newer);
    assert snap == Sorting.DedupFirst(sorted, RowKey);
    forall i, j | 0 <= i < |snap| && 0 <= j < |rows| && rows[j].employeeId == snap[i].employeeId
      ensures !Newer(rows[j], snap[i])
    {
      assert rows[j] in multiset(sorted);
      var k :| 0 <= k < |sorted| && sorted[k] == rows[j];
      assert RowKey(sorted[k]) == RowKey(snap[i]);
      assert !Newer(sorted[k], snap[i]);
    }
  }

  function Engagements(rows: seq<SurveyRow>): (r: seq<real>)
    ensures |r| <= |rows|
  {
    if rows == [] then []
    else (if rows[0].engagement.Some? then [rows[0].engagement.value] else []) + Engagements(rows[1..])
  }

  predicate StressAlert(r: SurveyRow)
  {
    r.stress.Some? && r.stress.value > 60.0
  }

  predicate AttritionAlert(r: SurveyRow)
  {
    r.attrition.Some? && r.attrition.value > 60.0
  }

  function DepartmentNames(rows: seq<SurveyRow>): seq<string>
  {
    if rows == [] then []
    else (if rows[0].department.Some? then [rows[0].department.value] else []) + DepartmentNames(rows[1..])
  }

  /** The mean engagement of a department, NaN rows skipped. */
  function DepartmentEngagement(rows: seq<SurveyRow>, d: string): Option<real>
  {
    Stats.Mean(Engagements(Stats.Filter(rows, (r: SurveyRow) => r.department == Some(d))))
  }

  /** The groups of `groupby(dept_col)`: the distinct present department names, sorted. */
  function Groups(rows: seq<SurveyRow>): seq<string>
  {
    Sorting.SortedUnique(DepartmentNames(rows))
  }

  /** A group whose mean engagement is a number below 65. */
  predicate TeamAtRisk(rows: seq<SurveyRow>, d: string)
  {
    var m := DepartmentEngagement(rows, d);
    m.Some? && m.value < 65.0
  }

  function TeamsAtRisk(rows: seq<SurveyRow>, hasDepartmentColumn: bool): nat
  {
    if hasDepartmentColumn then Stats.Count(Groups(rows), (d: string) => TeamAtRisk(rows, d)) else 0
  }

  /** The response rate: the snapshot over the number of employees, 0 when there are none or the
   *  lookup failed (`employeeCount` None). */
  function ResponseRate(responses: nat, employeeCount: Option<nat>): (r: real)
    ensures employeeCount.None? || employeeCount.value == 0 ==> r == 0.0
    ensures employeeCount.Some? && employeeCount.value > 0 ==> r * (employeeCount.value as real) == (responses as real) * 100.0
  {
    if employeeCount.Some? && employeeCount.value > 0 then responses as real / employeeCount.value as real * 100.0 else 0.0
  }

  function Dated(rows: seq<SurveyRow>): seq<SurveyRow>
  {
    Stats.Filter(rows, HasDate)
  }

  /** The rows on or after the cutoff and in the requested department. */
  function InRange(dated: seq<SurveyRow>, cutoff: int, department: Option<string>, hasDepartmentColumn: bool): (r: seq<SurveyRow>)
    ensures |r| <= |dated|
    ensures forall i :: 0 <= i < |r| ==> Kept(r[i], cutoff, department, hasDepartmentColumn)
    ensures forall x :: x in r ==> x in dated
  {
    if dated == [] then []
    else
      (if Kept(dated[0], cutoff, department, hasDepartmentColumn) then [dated[0]] else [])
      + InRange(dated[1..], cutoff, department, hasDepartmentColumn)
  }

  /** The figures computed from the snapshot. */
  function Figures(snap: seq<SurveyRow>, hasDepartmentColumn: bool, employeeCount: Option<nat>): MetricsData
  {
    MetricsData(|snap|, TeamsAtRisk(snap, hasDepartmentColumn), Stats.Mean(Engagements(snap)).GetOr(0.0), 0.0,
                Stats.Count(snap, StressAlert), Stats.Count(snap, AttritionAlert),
                ResponseRate(|snap|, employeeCount))
  }

  /** The `sync_status` of the summary: which of the two early returns applies, or the counts
   *  after each filtering step. */
  function Status(rows: seq<SurveyRow>, now: int, dateRange: string, department: Option<string>,
                  hasDepartmentColumn: bool): SyncStatus
  {
    if rows == [] then NoDataAvailable
    else
      var dated := Dated(rows);
      var filtered := InRange(dated, Cutoff(now, dateRange), department, hasDepartmentColumn);
      if filtered == [] then NoDataForRange
      else ReadOnly(|dated|, |filtered|, |Snapshot(filtered)|)
  }

  /** `get_metrics_summary`, without rounding or the generation time. A non-empty table without
   *  a date column raises `KeyError` at `raw_df[date_col]`, and rows surviving the filters
   *  without an `employee_id` column (after the rename of `calculate_survey_metrics`) raise it at
   *  `drop_duplicates(subset=['employee_id'])`; both are answered 500 "Calculation Error: ...". */
  function Summary(rows: seq<SurveyRow>, now: int, dateRange: string, department: Option<string>,
                   hasDateColumn: bool, hasDepartmentColumn: bool, hasEmployeeIdColumn: bool,
                   employeeCount: Option<nat>): (r: Result<SummaryResponse>)
    ensures r.Err? <==>
      rows != [] && (!hasDateColumn ||
        (InRange(Dated(rows), Cutoff(now, dateRange), department, hasDepartmentColumn) != [] && !hasEmployeeIdColumn))
    ensures r.Err? ==> r.error.status == 500 && |r.error.detail| >= 19 && r.error.detail[..19] == "Calculation Error: "
    ensures r.Ok? && r.value.syncStatus.ReadOnly? ==> r.value.syncStatus.final == r.value.data.totalEmployees
  {
    var status := Status(rows, now, dateRange, department, hasDepartmentColumn);
    if rows != [] && !hasDateColumn then Err(HttpError(500, "Calculation Error: 'Submission_Date'"))
    else if !status.ReadOnly? then Ok(SummaryResponse(ZeroMetrics, status))
    else if !hasEmployeeIdColumn then Err(HttpError(500, "Calculation Error: 'employee_id'"))
    else
      var snap := Snapshot(InRange(Dated(rows), Cutoff(now, dateRange), department, hasDepartmentColumn));
      Ok(SummaryResponse(Figures(snap, hasDepartmentColumn, employeeCount), status))
  }

  /** An empty table, or one whose rows all fall outside the range, gives all zeros, unless a
   *  non-empty table has no date column at all. */
  lemma SummaryEmpty(rows: seq<SurveyRow>, now: int, dateRange: string, department: Option<string>,
                     hasDateColumn: bool, hasDepartmentColumn: bool, hasEmployeeIdColumn: bool,
                     employeeCount: Option<nat>)
    requires rows == [] || forall r :: r in rows ==> !Kept(r, Cutoff(now, dateRange), department, hasDepartmentColumn)
    ensures var s := Summary(rows, now, dateRange, department, hasDateColumn, hasDepartmentColumn, hasEmployeeIdColumn, employeeCount);
      (s.Ok? <==> rows == [] || hasDateColumn)
      && (s.Ok? ==> s.value.data == ZeroMetrics)
      && (rows == [] <==> s.Ok? && s.value.syncStatus == NoDataAvailable)
  {
  }

  /** The status counts of a summary: the "Raw" count is taken after the rows without a valid
   *  date are dropped, and the counts shrink filter by filter down to one row per employee. */
  lemma SummaryCounts(rows: seq<SurveyRow>, now: int, dateRange: string, department: Option<string>,
                      hasDepartmentColumn: bool)
    requires Status(rows, now, dateRange, department, hasDepartmentColumn).ReadOnly?
    ensures var s := Status(rows, now, dateRange, department, hasDepartmentColumn);
      s.raw == Stats.Count(rows, HasDate) && s.final <= s.afterDate <= s.raw <= |rows|
  {
    var filtered := InRange(Dated(rows), Cutoff(now, dateRange), department, hasDepartmentColumn);
    assert |Sorting.SortBy(filtered, Newer)| == |filtered|;
  }

  /** Every employee of the kept rows counts once in the total, and the alert counts are bounded
   *  by it. */
  lemma SummaryAlerts(rows: seq<SurveyRow>, now: int, dateRange: string, department: Option<string>,
                      hasDateColumn: bool, hasDepartmentColumn: bool, hasEmployeeIdColumn: bool,
                      employeeCount: Option<nat>)
    requires var r := Summary(rows, now, dateRange, department, hasDateColumn, hasDepartmentColumn, hasEmployeeIdColumn, employeeCount);
      r.Ok? && r.value.syncStatus.ReadOnly?
    ensures var s := Summary(rows, now, dateRange, department, hasDateColumn, hasDepartmentColumn, hasEmployeeIdColumn, employeeCount).value;
      s.syncStatus.final == s.data.totalEmployees
      && s.data.burnoutAlerts <= s.data.totalEmployees && s.data.attritionRiskCount <= s.data.totalEmployees
  {
  }

  /** Teams at risk are groups, and a group counts iff its mean engagement is a number below 65. */
  lemma TeamsAtRiskBound(rows: seq<SurveyRow>, hasDepartmentColumn: bool)
    ensures TeamsAtRisk(rows, hasDepartmentColumn) <= |Groups(rows)|
    ensures forall d :: d in Groups(rows) <==> d in DepartmentNames(rows)
    ensures !hasDepartmentColumn ==> TeamsAtRisk(rows, hasDepartmentColumn) == 0
  {
  }

  /** The average engagement of the summary lies within the range of the snapshot's engagements,
   *  and is 0 when none is a number. */
  lemma AverageEngagementWithin(snap: seq<SurveyRow>, lo: real, hi: real)
    requires forall r :: r in snap && r.engagement.Some? ==> lo <= r.engagement.value <= hi
    ensures Engagements(snap) == [] ==> Stats.Mean(Engagements(snap)).GetOr(0.0) == 0.0
    ensures Engagements(snap) != [] ==> lo <= Stats.Mean(Engagements(snap)).GetOr(0.0) <= hi
  {
    EngagementsWithin(snap, lo, hi);
    Stats.MeanWithin(Engagements(snap), lo, hi);
  }

  lemma {:induction false} EngagementsWithin(rows: seq<SurveyRow>, lo: real, hi: real)
    requires forall r :: r in rows && r.engagement.Some? ==> lo <= r.engagement.value <= hi
    ensures forall i :: 0 <= i < |Engagements(rows)| ==> lo <= Engagements(rows)[i] <= hi
  {
    if rows != [] {
      EngagementsWithin(rows[1..], lo, hi);
      var head := if rows[0].engagement.Some? then [rows[0].engagement.value] else [];
      assert Engagements(rows) == head + Engagements(rows[1..]);
      forall i | 0 <= i < |Engagements(rows)| ensures lo <= Engagements(rows)[i] <= hi {
        if i >= |head| {
          assert Engagements(rows)[i] == Engagements(rows[1..])[i - |head|];
        }
      }
    }
  }

  // ---------------------------------------------------------------- /dimensions

  datatype DimensionsQuery = DimensionsQuery(category: string, departmentName: Option<string>,
                                             employeeId: Option<string>, limit: int, offset: int)

  datatype DimensionsPage<T> = DimensionsPage(category: string, total: nat, limit: int, offset: int,
                                              returned: nat, data: seq<T>)

  /** The range the query parameters declare (`limit` in 1..100, `offset` at least 0); the
   *  framework answers 422 to a request outside it. */
  predicate ValidPaging(q: DimensionsQuery)
  {
    1 <= q.limit <= 100 && q.offset >= 0
  }

  predicate ValidCategory(category: string)
  {
    PyText.Lower(category) == "departments" || PyText.Lower(category) == "employees"
  }

  /** The items read for a valid query, and whether they came from a single-item fetch. The table
   *  reads are inputs: the whole `Departments` scan, its scan filtered by name, the `Employees`
   *  item for the id, and the whole `Employees` scan. */
  function RawItems<T>(q: DimensionsQuery, departments: seq<T>, departmentsByName: seq<T>,
                       employeeItem: Option<T>, employees: seq<T>): (seq<T>, bool)
  {
    if PyText.Lower(q.category) == "departments" then
      (if PyText.Truthy(q.departmentName) then departmentsByName else departments, false)
    else if PyText.Truthy(q.employeeId) then
      (if employeeItem.Some? then [employeeItem.value] else [], true)
    else (employees, false)
  }

  /** The page: the whole list for a lookup, `raw[offset:offset+limit]` otherwise. */
  function Page<T>(q: DimensionsQuery, raw: seq<T>, unsliced: bool): (r: DimensionsPage<T>)
    ensures r.total == |raw| && r.returned == |r.data| && r.limit == q.limit && r.offset == q.offset
    ensures unsliced ==> r.data == raw
    ensures !unsliced ==> r.data == PyText.Slice(raw, q.offset, q.offset + q.limit)
  {
    var data := if unsliced then raw else PyText.Slice(raw, q.offset, q.offset + q.limit);
    DimensionsPage(q.category, |raw|, q.limit, q.offset, |data|, data)
  }

  /** The name-lookup test as written: the category compared case-sensitively. */
  predicate NameLookupAsWritten(q: DimensionsQuery)
  {
    q.category == "departments" && PyText.Truthy(q.departmentName)
  }

  /** The name-lookup test as the validation intends: the category compared case-insensitively. */
  predicate NameLookup(q: DimensionsQuery)
  {
    PyText.Lower(q.category) == "departments" && PyText.Truthy(q.departmentName)
  }

  /** `get_database_data` as written: the same errors and totals as with the lookup test
   *  lower-cased, and the same answer except for a name lookup whose category is not spelt in
   *  lower case, which gets the `[offset:offset+limit]` window of the matches. */
  function DimensionsAsWritten<T>(q: DimensionsQuery, departments: seq<T>, departmentsByName: seq<T>,
                                  employeeItem: Option<T>, employees: seq<T>): (r: Result<DimensionsPage<T>>)
    ensures r.Err? <==> !ValidPaging(q) || !ValidCategory(q.category)
    ensures !ValidPaging(q) ==> r.Err? && r.error.status == 422
    ensures ValidPaging(q) && !ValidCategory(q.category) ==> r.Err? && r.error.status == 400
    ensures r.Ok? ==> r.value.total == |RawItems(q, departments, departmentsByName, employeeItem, employees).0|
    ensures !(NameLookup(q) && !NameLookupAsWritten(q)) ==>
      r == Dimensions(q, departments, departmentsByName, employeeItem, employees)
    ensures r.Ok? && NameLookup(q) && !NameLookupAsWritten(q) ==>
      r.value.data == PyText.Slice(departmentsByName, q.offset, q.offset + q.limit)
  {
    if !ValidPaging(q) then Err(HttpError(422, "Unprocessable Entity"))
    else if !ValidCategory(q.category) then Err(HttpError(400, "Invalid category. Must be 'departments' or 'employees'."))
    else
      var (raw, single) := RawItems(q, departments, departmentsByName, employeeItem, employees);
      Ok(Page(q, raw, single || NameLookupAsWritten(q)))
  }

  /** `get_database_data` with the name lookup recognised in any case of the category. */
  function Dimensions<T>(q: DimensionsQuery, departments: seq<T>, departmentsByName: seq<T>,
                         employeeItem: Option<T>, employees: seq<T>): (r: Result<DimensionsPage<T>>)
    ensures r.Err? <==> !ValidPaging(q) || !ValidCategory(q.category)
    ensures !ValidPaging(q) ==> r.Err? && r.error.status == 422
    ensures ValidPaging(q) && !ValidCategory(q.category) ==> r.Err? && r.error.status == 400
    ensures r.Ok? ==> r.value.total == |RawItems(q, departments, departmentsByName, employeeItem, employees).0|
  {
    if !ValidPaging(q) then Err(HttpError(422, "Unprocessable Entity"))
    else if !ValidCategory(q.category) then Err(HttpError(400, "Invalid category. Must be 'departments' or 'employees'."))
    else
      var (raw, single) := RawItems(q, departments, departmentsByName, employeeItem, employees);
      Ok(Page(q, raw, single || NameLookup(q)))
  }

  /** Lookups by name or id return everything found, and listings return the requested window of
   *  the whole table. */
  lemma DimensionsPaging<T>(q: DimensionsQuery, departments: seq<T>, departmentsByName: seq<T>,
                            employeeItem: Option<T>, employees: seq<T>)
    requires ValidPaging(q) && ValidCategory(q.category)
    ensures var r := Dimensions(q, departments, departmentsByName, employeeItem, employees);
      r.Ok?
      && (NameLookup(q) ==> r.value.data == departmentsByName)
      && (PyText.Lower(q.category) != "departments" && PyText.Truthy(q.employeeId) ==>
            r.value.data == (if employeeItem.Some? then [employeeItem.value] else []))
      && (PyText.Lower(q.category) == "departments" && !PyText.Truthy(q.departmentName) ==>
            r.value.data == PyText.Slice(departments, q.offset, q.offset + q.limit))
      && (PyText.Lower(q.category) != "departments" && !PyText.Truthy(q.employeeId) ==>
            r.value.data == PyText.Slice(employees, q.offset, q.offset + q.limit))
  {
  }

  /** A name lookup whose category is spelt with a capital. */
  const MixedCaseLookup := DimensionsQuery("Departments", Some("HR"), None, 20, 20)

  /** The validation accepts the category of `MixedCaseLookup`, and the lookup test as written
   *  does not recognise it: it meets the requirements of `DimensionsAsWrittenDropsLookup`. */
  lemma MixedCaseLookupFacts()
    ensures ValidCategory(MixedCaseLookup.category) && PyText.Lower(MixedCaseLookup.category) == "departments"
    ensures NameLookup(MixedCaseLookup) && !NameLookupAsWritten(MixedCaseLookup)
  {
    PyText.LowerNoUpper("departments");
    var l := PyText.Lower("Departments");
    assert l[0] == 'd';
    assert l[1..] == PyText.Lower("departments")[1..];
    assert MixedCaseLookup.category[0] != "departments"[0];
  }

  /** As written, a name lookup whose category is not spelt in lower case (`MixedCaseLookup`,
   *  say) is paged like a listing: past offset 0 the one department found is dropped, although
   *  it is counted in the total. */
  lemma DimensionsAsWrittenDropsLookup<T>(q: DimensionsQuery, x: T)
    requires PyText.Lower(q.category) == "departments" && q.category != "departments"
    requires PyText.Truthy(q.departmentName) && q.offset >= 1 && 1 <= q.limit <= 100
    ensures DimensionsAsWritten(q, [], [x], None, []) == Ok(DimensionsPage(q.category, 1, q.limit, q.offset, 0, []))
  {
    assert RawItems(q, [], [x], None, []) == ([x], false);
    assert PyText.Slice([x], q.offset, q.offset + q.limit) == [];
  }

  /** With the case-insensitive test, the same lookup returns the department found. */
  lemma DimensionsKeepsLookup<T>(q: DimensionsQuery, x: T)
    requires PyText.Lower(q.category) == "departments" && PyText.Truthy(q.departmentName) && ValidPaging(q)
    ensures Dimensions(q, [], [x], None, []) == Ok(DimensionsPage(q.category, 1, q.limit, q.offset, 1, [x]))
  {
  }

  // ---------------------------------------------------------------- convert_decimals

  /** A value of a response body: lists, dicts, DynamoDB decimals, and the plain values. */
  datatype Json = JList(items: seq<Json>) | JDict(entries: seq<(string, Json)>)
                | JDecimal(d: real) | JInt(i: int) | JFloat(f: real) | JText(s: string) | JBool(b: bool) | JNull

  predicate NoDecimals(j: Json)
  {
    match j
    case JList(items) => forall i :: 0 <= i < |items| ==> NoDecimals(items[i])
    case JDict(entries) => forall i :: 0 <= i < |entries| ==> NoDecimals(entries[i].1)
    case JDecimal(_) => false
    case _ => true
  }

  /** The number a numeric value stands for. */
  function NumberOf(j: Json): Option<real>
  {
    match j
    case JDecimal(d) => Some(d)
    case JInt(i) => Some(i as real)
    case JFloat(f) => Some(f)
    case _ => None
  }

  /** `convert_decimals`: whole decimals become ints, the others floats, recursively through lists
   *  and dicts; the shape, the keys and the numbers are kept. */
  function ConvertDecimals(j: Json): (r: Json)
    ensures NoDecimals(r)
    ensures NumberOf(r) == NumberOf(j)
    ensures j.JList? ==> r.JList? && |r.items| == |j.items|
    ensures j.JDict? ==> r.JDict? && |r.entries| == |j.entries|
    ensures j.JDict? ==> forall i :: 0 <= i < |j.entries| ==> r.entries[i].0 == j.entries[i].0
    ensures !j.JList? && !j.JDict? && !j.JDecimal? ==> r == j
    decreases j
  {
    match j
    case JList(items) => JList(seq(|items|, i requires 0 <= i < |items| => ConvertDecimals(items[i])))
    case JDict(entries) => JDict(seq(|entries|, i requires 0 <= i < |entries| => (entries[i].0, ConvertDecimals(entries[i].1))))
    case JDecimal(d) => if d.Floor as real == d then JInt(d.Floor) else JFloat(d)
    case _ => j
  }

  /** Converting twice is converting once. */
  lemma {:induction false} ConvertDecimalsIdempotent(j: Json)
    ensures ConvertDecimals(ConvertDecimals(j)) == ConvertDecimals(j)
    decreases j
  {
    match j
    case JList(items) =>
      var r := ConvertDecimals(j);
      forall i | 0 <= i < |items| ensures ConvertDecimals(r.items[i]) == r.items[i] {
        ConvertDecimalsIdempotent(items[i]);
      }
    case JDict(entries) =>
      var r := ConvertDecimals(j);
      forall i | 0 <= i < |entries| ensures ConvertDecimals(r.entries[i].1) == r.entries[i].1 {
        ConvertDecimalsIdempotent(entries[i].1);
      }
    case _ =>
  }
}
