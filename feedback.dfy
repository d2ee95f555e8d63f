/**
 * The feedback routes over the `Feedbacks` table: the look-back window of a date range, the
 * filtered, newest-first sample list joined with the employees' division and position, and the
 * sentiment summary.
 */
module Feedback {
  import opened Wrappers
  import PyText
  import Sorting
  import Stats
  import opened Frames

  // ---------------------------------------------------------------- date range

  const SecondsPerDay: int := 86400

  /** The days a date range looks back, compared case-insensitively, ten years for "all" and for
   *  any other name. */
  function LookbackDays(dateRange: string): (r: int)
    ensures 7 <= r <= 3650
    ensures r == 3650 <==> PyText.Lower(dateRange) !in ["week", "month", "quarter", "year"]
  {
    var r := PyText.Lower(dateRange);
    if r == "week" then 7
    else if r == "month" then 30
    else if r == "quarter" then 90
    else if r == "year" then 365
    else 365 * 10
  }

  /** The start of the window, with `today` in seconds. */
  function StartOf(today: int, dateRange: string): int
  {
    today - LookbackDays(dateRange) * SecondsPerDay
  }

  /** The window of each named range, case-insensitively, and ten years for anything else. */
  lemma StartOfRanges(today: int, dateRange: string)
    ensures PyText.Lower(dateRange) == "week" ==> StartOf(today, dateRange) == today - 7 * SecondsPerDay
    ensures PyText.Lower(dateRange) == "month" ==> StartOf(today, dateRange) == today - 30 * SecondsPerDay
    ensures PyText.Lower(dateRange) == "quarter" ==> StartOf(today, dateRange) == today - 90 * SecondsPerDay
    ensures PyText.Lower(dateRange) == "year" ==> StartOf(today, dateRange) == today - 365 * SecondsPerDay
    ensures PyText.Lower(dateRange) !in ["week", "month", "quarter", "year"] ==>
      StartOf(today, dateRange) == today - 3650 * SecondsPerDay
  {
  }

  /** The window lies between ten years and a week long, and the case of the name does not matter. */
  lemma StartOfBounds(today: int, a: string, b: string)
    ensures today - 3650 * SecondsPerDay <= StartOf(today, a) <= today - 7 * SecondsPerDay
    ensures PyText.Lower(a) == PyText.Lower(b) ==> StartOf(today, a) == StartOf(today, b)
  {
  }

  // ---------------------------------------------------------------- employee join

  /** An employee's join key and the two attributes the samples take from it. */
  datatype Employee = Employee(id: string, division: Option<string>, position: Option<string>)

  /** The Employees table: `hasColumns` when it has the `Employee_ID`, `division` and `position`
   *  columns the join selects. */
  datatype Employees = Employees(hasColumns: bool, rows: seq<Employee>)

  /** The employees whose stripped id is `key`, in table order. */
  function Matching(key: string, emps: seq<Employee>): (r: seq<Employee>)
    ensures forall e :: e in r <==> e in emps && PyText.Strip(e.id) == key
  {
    if emps == [] then []
    else (if PyText.Strip(emps[0].id) == key then [emps[0]] else []) + Matching(key, emps[1..])
  }

  /** A row of the joined frame: the feedback item and the employee it matched, if any. The
   *  stripped `employee_id` only serves as the join key, so the item is kept as fetched. */
  datatype JoinedRow = JoinedRow(fields: Item, employee: Option<Employee>)

  /** The frame after the join step: the feedback columns, whether the join took place (adding the
   *  employee columns), and the rows. */
  datatype JoinedFrame = JoinedFrame(columns: set<string>, joined: bool, rows: seq<JoinedRow>)

  /** The join key of a feedback row: `astype(str).str.strip()` of its `employee_id`. */
  function JoinKey(row: Item): string
  {
    PyText.Strip(AsStr(row, "employee_id"))
  }

  /** The rows a left join makes of one feedback row: one per matching employee in table order, or
   *  the row alone when none matches. */
  function JoinRow(row: Item, emps: seq<Employee>): (j: seq<JoinedRow>)
    ensures var m := Matching(JoinKey(row), emps);
      |j| == (if m == [] then 1 else |m|)
      && (m == [] ==> j == [JoinedRow(row, None)])
      && (forall k :: 0 <= k < |j| ==> j[k].fields == row)
      && (m != [] ==> forall k :: 0 <= k < |j| ==> j[k].employee == Some(m[k]))
  {
    var m := Matching(JoinKey(row), emps);
    if m == [] then [JoinedRow(row, None)] else seq(|m|, i requires 0 <= i < |m| => JoinedRow(row, Some(m[i])))
  }

  /** The left join, keeping the order of the feedback rows. */
  function Merge(rows: seq<Item>, emps: seq<Employee>): seq<JoinedRow>
  {
    if rows == [] then [] else JoinRow(rows[0], emps) + Merge(rows[1..], emps)
  }

  /** The frame with no join. */
  function Unjoined(f: Frame): JoinedFrame
  {
    JoinedFrame(f.columns, false, seq(|f.rows|, i requires 0 <= i < |f.rows| => JoinedRow(f.rows[i], None)))
  }

  /** The frame after the join step: joined when the employees were fetched, are not empty and have
   *  the selected columns, and the feedback has an `employee_id` column; otherwise the failure is
   *  caught and the frame is left as it was. `emps` is None when the fetch fails. */
  function Merged(f: Frame, emps: Option<Employees>): (r: JoinedFrame)
    ensures r.columns == f.columns
    ensures r.joined <==> emps.Some? && emps.value.rows != [] && emps.value.hasColumns && "employee_id" in f.columns
    ensures |r.rows| >= |f.rows|
    ensures !r.joined ==> |r.rows| == |f.rows| && forall i :: 0 <= i < |f.rows| ==> r.rows[i].fields == f.rows[i] && r.rows[i].employee.None?
  {
    if emps.Some? && emps.value.rows != [] && emps.value.hasColumns && "employee_id" in f.columns then
      MergeKeepsRows(f.rows, emps.value.rows);
      JoinedFrame(f.columns, true, Merge(f.rows, emps.value.rows))
    else Unjoined(f)
  }

  /** The left join keeps every feedback row. */
  lemma {:induction false} MergeKeepsRows(rows: seq<Item>, emps: seq<Employee>)
    ensures |Merge(rows, emps)| >= |rows|
    ensures forall r :: r in rows ==> exists j :: j in Merge(rows, emps) && j.fields == r
  {
    if rows != [] {
      MergeKeepsRows(rows[1..], emps);
      var head := JoinRow(rows[0], emps);
      var all := Merge(rows, emps);
      assert all == head + Merge(rows[1..], emps);
      forall r | r in rows ensures exists j :: j in all && j.fields == r {
        if r == rows[0] {
          assert head[0] in all;
        } else {
          assert r in rows[1..];
          var j :| j in Merge(rows[1..], emps) && j.fields == r;
          assert j in all;
        }
      }
    }
  }

  /** A joined row comes from a feedback row, and its employee, if any, has the row's key. */
  lemma {:induction false} MergeSound(rows: seq<Item>, emps: seq<Employee>)
    ensures forall j :: j in Merge(rows, emps) ==>
      j.fields in rows && (j.employee.Some? ==> j.employee.value in emps && PyText.Strip(j.employee.value.id) == JoinKey(j.fields))
  {
    if rows != [] {
      MergeSound(rows[1..], emps);
      var head := JoinRow(rows[0], emps);
      var m := Matching(JoinKey(rows[0]), emps);
      var all := Merge(rows, emps);
      assert all == head + Merge(rows[1..], emps);
      forall j | j in all
        ensures j.fields in rows && (j.employee.Some? ==> j.employee.value in emps && PyText.Strip(j.employee.value.id) == JoinKey(j.fields))
      {
        if j in head {
          var k :| 0 <= k < |head| && head[k] == j;
          assert j.fields == rows[0];
          if j.employee.Some? {
            assert j.employee.value == m[k];
            assert m[k] in m;
          }
        } else {
          assert j in Merge(rows[1..], emps);
          assert j.fields in rows[1..];
        }
      }
    }
  }

  /** Every employee with a row's key is paired with that row. */
  lemma {:induction false} MergeComplete(rows: seq<Item>, emps: seq<Employee>)
    ensures forall r, e :: r in rows && e in emps && PyText.Strip(e.id) == JoinKey(r) ==> JoinedRow(r, Some(e)) in Merge(rows, emps)
  {
    if rows != [] {
      MergeComplete(rows[1..], emps);
      var head := JoinRow(rows[0], emps);
      var m := Matching(JoinKey(rows[0]), emps);
      forall e | e in emps && PyText.Strip(e.id) == JoinKey(rows[0]) ensures JoinedRow(rows[0], Some(e)) in head {
        var k :| 0 <= k < |m| && m[k] == e;
        assert head[k] == JoinedRow(rows[0], Some(e));
      }
      assert Merge(rows, emps) == head + Merge(rows[1..], emps);
    }
  }

  // ---------------------------------------------------------------- samples

  /** The department of a row: the matched employee's `division` after a join, the row's own
   *  `division` without one; "Unknown" for a missing column and for NaN. */
  function Department(m: JoinedFrame, row: JoinedRow): string
  {
    if m.joined then
      (if row.employee.Some? && row.employee.value.division.Some? then row.employee.value.division.value else "Unknown")
    else if "division" in m.columns && "division" in row.fields then row.fields["division"]
    else "Unknown"
  }

  /** The position of a row, taken like its department. */
  function Position(m: JoinedFrame, row: JoinedRow): string
  {
    if m.joined then
      (if row.employee.Some? && row.employee.value.position.Some? then row.employee.value.position.value else "Unknown")
    else if "position" in m.columns && "position" in row.fields then row.fields["position"]
    else "Unknown"
  }

  /** A joined row whose submission date parsed, with its department and position filled in. */
  datatype SampleRow = SampleRow(fields: Item, submitted: int, department: string, position: string)

  /** The submission date of a row, None for NaT; `parse` stands for
   *  `pd.to_datetime(errors='coerce')`. */
  function Submitted(parse: string -> Option<int>, row: Item): Option<int>
  {
    parse(AsStr(row, "submission_date"))
  }

  /** The rows kept by `dropna(subset=['submission_date'])`, in order. */
  function Prepared(m: JoinedFrame, rows: seq<JoinedRow>, parse: string -> Option<int>): (r: seq<SampleRow>)
    ensures |r| <= |rows|
    ensures forall s :: s in r ==>
      exists j :: j in rows && s == SampleRow(j.fields, s.submitted, Department(m, j), Position(m, j))
                  && Submitted(parse, j.fields) == Some(s.submitted)
  {
    if rows == [] then []
    else
      var d := Submitted(parse, rows[0].fields);
      var head := if d.Some? then [SampleRow(rows[0].fields, d.value, Department(m, rows[0]), Position(m, rows[0]))] else [];
      head + Prepared(m, rows[1..], parse)
  }

  datatype SampleQuery = SampleQuery(dateRange: string, sentiment: Option<string>, theme: Option<string>,
                                     department: Option<string>, limit: int)

  /** The filter mask of a row: inside the window, and equal case-insensitively to each filter given. */
  predicate SampleMatches(q: SampleQuery, start: int, s: SampleRow)
  {
    s.submitted >= start
    && (PyText.Truthy(q.sentiment) ==> PyText.Lower(AsStr(s.fields, "sentiment_label")) == PyText.Lower(q.sentiment.value))
    && (PyText.Truthy(q.theme) ==> PyText.Lower(AsStr(s.fields, "category")) == PyText.Lower(q.theme.value))
    && (PyText.Truthy(q.department) ==> PyText.Lower(s.department) == PyText.Lower(q.department.value))
  }

  function MatchesQuery(q: SampleQuery, start: int): SampleRow -> bool
  {
    (s: SampleRow) => SampleMatches(q, start, s)
  }

  /** `a` sorts before `b` newest first. */
  predicate Newer(a: SampleRow, b: SampleRow)
  {
    a.submitted > b.submitted
  }

  lemma NewerIsStrictOrder()
    ensures Sorting.StrictOrder(Newer)
  {
  }

  /** The rows in the window that pass the filters, newest first. */
  function Ranked(rows: seq<SampleRow>, q: SampleQuery, start: int): seq<SampleRow>
  {
    Sorting.SortBy(Stats.Filter(rows, MatchesQuery(q, start)), Newer)
  }

  /** The rows the samples are made of: `head(limit)` of the ranked rows. */
  function Selected(rows: seq<SampleRow>, q: SampleQuery, start: int): seq<SampleRow>
  {
    PyText.Slice(Ranked(rows, q, start), 0, q.limit)
  }

  /** The ranked rows are exactly the matching rows, newest first. */
  lemma RankedRows(rows: seq<SampleRow>, q: SampleQuery, start: int)
    ensures var r := Ranked(rows, q, start);
      multiset(r) == multiset(Stats.Filter(rows, MatchesQuery(q, start)))
      && (forall s :: s in r <==> s in rows && SampleMatches(q, start, s))
      && (forall i, j :: 0 <= i < j < |r| ==> r[i].submitted >= r[j].submitted)
  {
    var kept := Stats.Filter(rows, MatchesQuery(q, start));
    Stats.FilterMembers(rows, MatchesQuery(q, start));
    Sorting.SortByPermutes(kept, Newer);
    NewerIsStrictOrder();
    Sorting.SortBySorted(kept, Newer);
    var r := Ranked(rows, q, start);
    forall s ensures s in r <==> s in kept {
      assert s in r <==> s in multiset(r);
      assert s in kept <==> s in multiset(kept);
    }
  }

  /** A non-negative limit keeps the `limit` newest matching rows (all of them when there are
   *  fewer), each inside the window and passing the filters, and no row left out is newer than
   *  one kept. */
  lemma SelectedRows(rows: seq<SampleRow>, q: SampleQuery, start: int)
    requires q.limit >= 0
    ensures var r := Ranked(rows, q, start); var sel := Selected(rows, q, start);
      |sel| == (if q.limit < |r| then q.limit else |r|)
      && sel == r[..|sel|]
      && (forall s :: s in sel ==> s in rows && SampleMatches(q, start, s))
      && (forall i, j :: 0 <= i < |sel| <= j < |r| ==> r[j].submitted <= sel[i].submitted)
  {
    RankedRows(rows, q, start);
  }

  /** One sample of the response. */
  datatype SampleItem = SampleItem(id: string, text: string, sentiment: string, theme: string,
                                   detectedAt: string, department: string, position: string)

  /** The text of a sample: the rephrased comment unless it is missing, NaN or empty, and then the
   *  original comment ("nan" for NaN, "No content" without the column). */
  function TextOf(columns: set<string>, row: Item): (r: string)
    ensures "rephrased_comments" in columns && "rephrased_comments" in row && row["rephrased_comments"] != "" ==>
      r == row["rephrased_comments"]
    ensures r == "" ==> "comments" in columns && "comments" in row && row["comments"] == ""
    ensures "rephrased_comments" !in columns && "comments" !in columns ==> r == "No content"
  {
    if "rephrased_comments" in columns && "rephrased_comments" in row && row["rephrased_comments"] != "" then
      row["rephrased_comments"]
    else GetStr(columns, row, "comments", "No content")
  }

  /** The response item of a row; `iso` renders the timestamp and `newId` is the fresh id used when
   *  the frame has no `comment_id` column. */
  function ItemOf(columns: set<string>, iso: int -> string, newId: string, s: SampleRow): (it: SampleItem)
    ensures it.detectedAt == iso(s.submitted) && it.department == s.department && it.position == s.position
    ensures it.text == TextOf(columns, s.fields)
    ensures "comment_id" !in columns ==> it.id == newId
    ensures "sentiment_label" !in columns ==> it.sentiment == "neutral"
    ensures "category" !in columns ==> it.theme == "Uncategorized"
  {
    SampleItem(GetStr(columns, s.fields, "comment_id", newId), TextOf(columns, s.fields),
               GetStr(columns, s.fields, "sentiment_label", "neutral"),
               GetStr(columns, s.fields, "category", "Uncategorized"), iso(s.submitted), s.department, s.position)
  }

  /** The selected rows of a request, or the error it raises: `KeyError` for the date column, or
   *  for the column of a filter given, answered with 500. */
  function SampleRows(m: JoinedFrame, parse: string -> Option<int>, today: int, q: SampleQuery): Result<seq<SampleRow>>
  {
    if "submission_date" !in m.columns then Err(HttpError(500, "'submission_date'"))
    else if PyText.Truthy(q.sentiment) && "sentiment_label" !in m.columns then Err(HttpError(500, "'sentiment_label'"))
    else if PyText.Truthy(q.theme) && "category" !in m.columns then Err(HttpError(500, "'category'"))
    else Ok(Selected(Prepared(m, m.rows, parse), q, StartOf(today, q.dateRange)))
  }

  /** `get_feedback_samples`: nothing for an empty table, otherwise the join, the filters, the
   *  newest-first order and the limit; `newIds(i)` is the fresh id of the i-th sample. */
  function Samples(f: Frame, emps: Option<Employees>, parse: string -> Option<int>, iso: int -> string,
                   newIds: nat -> string, today: int, q: SampleQuery): (r: Result<seq<SampleItem>>)
    ensures f.rows == [] || f.columns == {} ==> r == Ok([])
    ensures f.rows != [] && f.columns != {} ==>
      (r.Err? <==> "submission_date" !in f.columns
                   || (PyText.Truthy(q.sentiment) && "sentiment_label" !in f.columns)
                   || (PyText.Truthy(q.theme) && "category" !in f.columns))
    ensures r.Err? ==> r.error.status == 500
    ensures r.Ok? && q.limit >= 0 ==> |r.value| <= q.limit
  {
    if f.rows == [] || f.columns == {} then Ok([])
    else
      var m := Merged(f, emps);
      var sel := SampleRows(m, parse, today, q);
      if sel.Err? then Err(sel.error)
      else Ok(seq(|sel.value|, i requires 0 <= i < |sel.value| => ItemOf(m.columns, iso, newIds(i), sel.value[i])))
  }

  /** Otherwise they render the selected rows one by one, in order: the i-th sample is the i-th
   *  selected row, with its date, department, position and text. */
  lemma SamplesItems(f: Frame, emps: Option<Employees>, parse: string -> Option<int>, iso: int -> string,
                     newIds: nat -> string, today: int, q: SampleQuery, i: nat)
    requires f.rows != [] && f.columns != {}
    requires Samples(f, emps, parse, iso, newIds, today, q).Ok?
    ensures var m := Merged(f, emps); var r := Samples(f, emps, parse, iso, newIds, today, q).value;
      var sel := Selected(Prepared(m, m.rows, parse), q, StartOf(today, q.dateRange));
      |r| == |sel|
      && (i < |sel| ==> r[i] == ItemOf(f.columns, iso, newIds(i), sel[i]))
  {
    var m := Merged(f, emps);
    assert m.columns == f.columns;
    var rows := SampleRows(m, parse, today, q);
    assert rows.Ok? && rows.value == Selected(Prepared(m, m.rows, parse), q, StartOf(today, q.dateRange));
  }

  /** An empty table gives no samples, whatever the query. */
  lemma SamplesEmpty(columns: set<string>, emps: Option<Employees>, parse: string -> Option<int>, iso: int -> string,
                     newIds: nat -> string, today: int, q: SampleQuery)
    ensures Samples(Frame(columns, []), emps, parse, iso, newIds, today, q) == Ok([])
  {
  }

  /** The response loop of `get_feedback_samples`. */
  method BuildSamples(columns: set<string>, iso: int -> string, newIds: nat -> string, sel: seq<SampleRow>)
    returns (data: seq<SampleItem>)
    ensures |data| == |sel|
    ensures forall i :: 0 <= i < |sel| ==> data[i] == ItemOf(columns, iso, newIds(i), sel[i])
  {
    data := [];
    for i := 0 to |sel|
      invariant |data| == i
      invariant forall k :: 0 <= k < i ==> data[k] == ItemOf(columns, iso, newIds(k), sel[k])
    {
      data := data + [ItemOf(columns, iso, newIds(i), sel[i])];
    }
  }

  /** `get_feedback_samples`, building the response in a loop. */
  method GetFeedbackSamples(f: Frame, emps: Option<Employees>, parse: string -> Option<int>, iso: int -> string,
                            newIds: nat -> string, today: int, q: SampleQuery) returns (r: Result<seq<SampleItem>>)
    ensures r == Samples(f, emps, parse, iso, newIds, today, q)
  {
    if f.rows == [] || f.columns == {} {
      return Ok([]);
    }
    var m := Merged(f, emps);
    var sel := SampleRows(m, parse, today, q);
    if sel.Err? {
      return Err(sel.error);
    }
    var data := BuildSamples(m.columns, iso, newIds, sel.value);
    assert data == seq(|sel.value|, i requires 0 <= i < |sel.value| => ItemOf(m.columns, iso, newIds(i), sel.value[i]));
    return Ok(data);
  }

  // ---------------------------------------------------------------- summary

  datatype SummaryData = SummaryData(totalMentions: nat, positiveThemes: nat, negativeThemes: nat,
                                     neutralThemes: int, detectedThemes: nat)

  const ZeroSummary := SummaryData(0, 0, 0, 0, 0)

  /** The lower-cased sentiment label of a row, "neutral" when the frame has no label column. */
  function Label(columns: set<string>, row: Item): string
  {
    if "sentiment_label" in columns then PyText.Lower(AsStr(row, "sentiment_label")) else "neutral"
  }

  predicate IsNegative(l: string)
  {
    l == "negative" || l == "critical"
  }

  function PositiveIn(columns: set<string>): SampleRow -> bool
  {
    (s: SampleRow) => Label(columns, s.fields) == "positive"
  }

  function NegativeIn(columns: set<string>): SampleRow -> bool
  {
    (s: SampleRow) => IsNegative(Label(columns, s.fields))
  }

  function PolarIn(columns: set<string>): SampleRow -> bool
  {
    (s: SampleRow) => Label(columns, s.fields) == "positive" || IsNegative(Label(columns, s.fields))
  }

  function NeutralIn(columns: set<string>): SampleRow -> bool
  {
    (s: SampleRow) => !(Label(columns, s.fields) == "positive" || IsNegative(Label(columns, s.fields)))
  }

  function InWindow(start: int): SampleRow -> bool
  {
    (s: SampleRow) => s.submitted >= start
  }

  /** The distinct non-NaN categories of the rows: what `nunique()` counts. */
  function Categories(rows: seq<SampleRow>): set<string>
  {
    if rows == [] then {}
    else (if "category" in rows[0].fields then {rows[0].fields["category"]} else {}) + Categories(rows[1..])
  }

  /** There are no more distinct categories than rows. */
  lemma {:induction false} CategoriesBound(rows: seq<SampleRow>)
    ensures |Categories(rows)| <= |rows|
  {
    if rows != [] {
      CategoriesBound(rows[1..]);
    }
  }

  /** The summary figures of the rows in the window. */
  function Figures(columns: set<string>, rows: seq<SampleRow>): (d: SummaryData)
    ensures d.totalMentions == |rows|
    ensures d.positiveThemes + d.negativeThemes + d.neutralThemes == d.totalMentions
    ensures d.neutralThemes == Stats.Count(rows, NeutralIn(columns)) && 0 <= d.neutralThemes
    ensures d.detectedThemes <= d.totalMentions
    ensures "category" !in columns ==> d.detectedThemes == 0
    ensures "sentiment_label" !in columns ==> d.positiveThemes == 0 && d.negativeThemes == 0
  {
    PolarCount(columns, rows);
    CountComplement(rows, PolarIn(columns), NeutralIn(columns));
    CategoriesBound(rows);
    CountNone(rows, PositiveIn(columns));
    CountNone(rows, NegativeIn(columns));
    var total := |rows|;
    var positive := Stats.Count(rows, PositiveIn(columns));
    var negative := Stats.Count(rows, NegativeIn(columns));
    SummaryData(total, positive, negative, total - (positive + negative),
                if "category" in columns then |Categories(rows)| else 0)
  }

  /** `get_summary`: all zeros for an empty table or an empty window, a 500 without the date
   *  column, otherwise the counts of the rows in the window. */
  function SummaryOf(f: Frame, parse: string -> Option<int>, today: int, dateRange: string): (r: Result<SummaryData>)
    ensures f.rows == [] || f.columns == {} ==> r == Ok(ZeroSummary)
    ensures r.Err? <==> f.rows != [] && f.columns != {} && "submission_date" !in f.columns
    ensures r.Err? ==> r.error == HttpError(500, "'submission_date'")
    ensures r.Ok? ==> r.value.positiveThemes + r.value.negativeThemes + r.value.neutralThemes == r.value.totalMentions
    ensures r.Ok? ==> 0 <= r.value.neutralThemes && r.value.detectedThemes <= r.value.totalMentions
  {
    if f.rows == [] || f.columns == {} then Ok(ZeroSummary)
    else if "submission_date" !in f.columns then Err(HttpError(500, "'submission_date'"))
    else
      var inRange := Stats.Filter(Prepared(Unjoined(f), Unjoined(f).rows, parse), InWindow(StartOf(today, dateRange)));
      if |inRange| == 0 then Ok(ZeroSummary) else Ok(Figures(f.columns, inRange))
  }

  /** No label is both positive and negative, so the polar rows are the positive ones plus the
   *  negative ones. */
  lemma PolarCount(columns: set<string>, rows: seq<SampleRow>)
    ensures Stats.Count(rows, PositiveIn(columns)) + Stats.Count(rows, NegativeIn(columns)) == Stats.Count(rows, PolarIn(columns))
  {
    var none := (s: SampleRow) => false;
    Stats.CountUnion(rows, PositiveIn(columns), NegativeIn(columns), PolarIn(columns), none);
    CountNone(rows, none);
  }

  /** Nothing is counted by a predicate no row satisfies. */
  lemma {:induction false} CountNone(rows: seq<SampleRow>, p: SampleRow -> bool)
    ensures (forall i :: 0 <= i < |rows| ==> !p(rows[i])) ==> Stats.Count(rows, p) == 0
  {
    if rows != [] {
      CountNone(rows[1..], p);
      if forall i :: 0 <= i < |rows| ==> !p(rows[i]) {
        assert forall i :: 0 <= i < |rows[1..]| ==> rows[1..][i] == rows[i + 1];
      }
    }
  }

  /** A predicate and its complement count every row once. */
  lemma {:induction false} CountComplement(rows: seq<SampleRow>, p: SampleRow -> bool, q: SampleRow -> bool)
    requires forall i :: 0 <= i < |rows| ==> (q(rows[i]) <==> !p(rows[i]))
    ensures Stats.Count(rows, p) + Stats.Count(rows, q) == |rows|
  {
    if rows != [] {
      assert forall i :: 0 <= i < |rows[1..]| ==> rows[1..][i] == rows[i + 1];
      CountComplement(rows[1..], p, q);
    }
  }

  /** The summary is all zeros exactly for an empty table or an empty window, and otherwise counts
   *  the dated rows of the window. */
  lemma SummaryCases(f: Frame, parse: string -> Option<int>, today: int, dateRange: string)
    requires "submission_date" in f.columns || f.rows == [] || f.columns == {}
    ensures var r := SummaryOf(f, parse, today, dateRange);
      var inRange := Stats.Filter(Prepared(Unjoined(f), Unjoined(f).rows, parse), InWindow(StartOf(today, dateRange)));
      r.Ok?
      && (r.value.totalMentions == 0 <==> r.value == ZeroSummary)
      && (f.rows != [] && f.columns != {} ==> r.value.totalMentions == |inRange|)
      && (forall s :: s in inRange ==> s.submitted >= StartOf(today, dateRange))
  {
  }
}
