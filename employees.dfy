/**
 * The employees routes: the sentiment risk status of an employee, the merge of an employee with
 * their latest feedback and their weekly workload, the department filter of the unpaginated list,
 * and the workload context of the recommendations prompt.
 */
module Employees {
  import opened Wrappers
  import PyText
  import Sorting
  import Calendar
  import Team

  // ---------------------------------------------------------------- risk status

  /** `score / 100` for a score above 1: percentages are brought to the 0..1 scale. */
  function Normalized(score: real): real
  {
    if score > 1.0 then score / 100.0 else score
  }

  /** A truthy label whose lower-case form is "negative". */
  predicate IsNegative(sentimentLabel: Option<string>)
  {
    sentimentLabel.Some? && sentimentLabel.value != "" && PyText.Lower(sentimentLabel.value) == "negative"
  }

  /** `calculate_employee_risk`: no score is healthy; a negative label is critical whatever the
   *  score; otherwise the normalised score is banded at 0.6 and 0.35. It never answers "watch". */
  function EmployeeRisk(score: Option<real>, sentimentLabel: Option<string>): (r: Team.Band)
    ensures r != Team.Watch
    ensures score.None? ==> r == Team.Healthy
    ensures score.Some? && IsNegative(sentimentLabel) ==> r == Team.Critical
    ensures score.Some? && !IsNegative(sentimentLabel) ==>
      (r == Team.Healthy <==> Normalized(score.value) >= 0.6)
      && (r == Team.Warning <==> 0.35 <= Normalized(score.value) < 0.6)
      && (r == Team.Critical <==> Normalized(score.value) < 0.35)
  {
    if score.None? then Team.Healthy
    else
      var s := Normalized(score.value);
      if IsNegative(sentimentLabel) then Team.Critical
      else if s >= 0.6 then Team.Healthy
      else if s >= 0.35 then Team.Warning
      else Team.Critical
  }

  /** On the normalised scale a higher score never gives a more severe status. */
  lemma EmployeeRiskMonotone(a: real, b: real, sentimentLabel: Option<string>)
    requires Normalized(a) <= Normalized(b)
    ensures Team.Weight(EmployeeRisk(Some(a), sentimentLabel)) >= Team.Weight(EmployeeRisk(Some(b), sentimentLabel))
  {
  }

  /** The raw score is not banded monotonically: 1.0 is read as 100% and 2.0 as 2%. On the 1..10
   *  scale the sentiment analysis writes, its neutral default 5 is therefore critical. */
  lemma RawScaleNotMonotone()
    ensures EmployeeRisk(Some(1.0), None) == Team.Healthy
    ensures EmployeeRisk(Some(2.0), None) == Team.Critical
    ensures EmployeeRisk(Some(5.0), Some("neutral")) == Team.Critical
  {
    assert |PyText.Lower("neutral")| == 7;
  }

  // ---------------------------------------------------------------- records

  /** A `Feedbacks` item with the attributes the merge reads. */
  datatype Feedback = Feedback(employeeId: Option<string>, submissionDate: Option<string>,
                               sentimentScore: Option<real>, sentimentLabel: Option<string>,
                               rephrased: Option<string>, comments: Option<string>,
                               category: Option<string>)

  /** An `Employee_Workload` item: `hours` is `float(wl.get('hours_logged', 0))` and `logged`
   *  says whether the item has `hours_logged` at all. */
  datatype Workload = Workload(employeeId: Option<string>, date: Option<string>, hours: real, logged: bool)

  /** An `Employees` item: its id and division (the other attributes are copied through). */
  datatype Employee = Employee(employeeId: Option<string>, division: Option<string>)

  /** The `latest_feedback` object of an enriched employee. */
  datatype FeedbackView = FeedbackView(comments: Option<string>, date: Option<string>, category: Option<string>)

  /** What `enrich_employee_data` adds to an employee. */
  datatype Enriched = Enriched(employee: Employee, latestFeedback: Option<FeedbackView>,
                               sentimentScore: Option<real>, riskStatus: Team.Band,
                               averageWeeklyWorkload: real, currentWeeklyWorkload: real)

  function FeedbackOwner(f: Feedback): Option<string>
  {
    f.employeeId
  }

  function WorkloadOwner(w: Workload): Option<string>
  {
    w.employeeId
  }

  /** The items whose key is `k`, in order: a list comprehension `[x for x in s if key(x) == k]`. */
  function Select<T(!new)>(s: seq<T>, key: T -> Option<string>, k: Option<string>): (r: seq<T>)
    ensures |r| <= |s|
    ensures forall x :: x in r <==> x in s && key(x) == k
  {
    if s == [] then []
    else Select(s[..|s| - 1], key, k) + (if key(s[|s| - 1]) == k then [s[|s| - 1]] else [])
  }

  /** Selecting again by the same key changes nothing. */
  lemma {:induction false} SelectIdempotent<T(!new)>(s: seq<T>, key: T -> Option<string>, k: Option<string>)
    ensures Select(Select(s, key, k), key, k) == Select(s, key, k)
    decreases |s|
  {
    if s != [] {
      var init := s[..|s| - 1];
      var last := s[|s| - 1];
      SelectIdempotent(init, key, k);
      SelectAppend(Select(init, key, k), if key(last) == k then [last] else [], key, k);
    }
  }

  lemma {:induction false} SelectAppend<T(!new)>(a: seq<T>, b: seq<T>, key: T -> Option<string>, k: Option<string>)
    ensures Select(a + b, key, k) == Select(a, key, k) + Select(b, key, k)
    decreases |b|
  {
    if b != [] {
      var init := b[..|b| - 1];
      var x := b[|b| - 1];
      var tail := if key(x) == k then [x] else [];
      SelectAppend(a, init, key, k);
      assert (a + b)[..|a + b| - 1] == a + init;
      assert (a + b)[|a + b| - 1] == x;
      assert Select(a + b, key, k) == Select(a + init, key, k) + tail;
    } else {
      assert a + b == a;
    }
  }

  // ---------------------------------------------------------------- the latest feedback

  function DateKey(f: Feedback): string
  {
    f.submissionDate.GetOr("")
  }

  /** `a` comes before `b` in the sort on `submission_date` (absent as ""), descending. */
  predicate LaterDate(a: Feedback, b: Feedback)
  {
    Sorting.LexLess(DateKey(b), DateKey(a))
  }

  lemma LaterDateIsStrictOrder()
    ensures Sorting.StrictOrder(LaterDate)
  {
    forall a: Feedback ensures !LaterDate(a, a) {
      Sorting.LexLessIrreflexive(DateKey(a));
    }
    forall a: Feedback, b: Feedback, c: Feedback | LaterDate(a, b) && LaterDate(b, c) ensures LaterDate(a, c) {
      Sorting.LexLessTransitive(DateKey(c), DateKey(b), DateKey(a));
    }
  }

  /** `emp_feedbacks[0] if emp_feedbacks else None` after the descending sort. */
  function LatestOf(feedbacks: seq<Feedback>): Option<Feedback>
  {
    var sorted := Sorting.SortBy(feedbacks, LaterDate);
    if sorted == [] then None else Some(sorted[0])
  }

  /** There is a latest feedback iff there is any, it is one of them, and none has a greater date. */
  lemma LatestOfIsLatest(feedbacks: seq<Feedback>)
    ensures LatestOf(feedbacks).Some? <==> feedbacks != []
    ensures LatestOf(feedbacks).Some? ==> LatestOf(feedbacks).value in feedbacks
    ensures LatestOf(feedbacks).Some? ==>
      forall f :: f in feedbacks ==> !Sorting.LexLess(DateKey(LatestOf(feedbacks).value), DateKey(f))
  {
    var sorted := Sorting.SortBy(feedbacks, LaterDate);
    Sorting.SortByPermutes(feedbacks, LaterDate);
    if sorted != [] {
      assert sorted[0] in multiset(feedbacks);
      LaterDateIsStrictOrder();
      Sorting.SortBySorted(feedbacks, LaterDate);
      forall f | f in feedbacks ensures !LaterDate(f, sorted[0]) {
        assert f in multiset(sorted);
        var j :| 0 <= j < |sorted| && sorted[j] == f;
      }
    }
  }

  /** `rephrased_comments or comments`. */
  function CommentOf(f: Feedback): (r: Option<string>)
    ensures f.rephrased.Some? && f.rephrased.value != "" ==> r == f.rephrased
    ensures !(f.rephrased.Some? && f.rephrased.value != "") ==> r == f.comments
  {
    if f.rephrased.Some? && f.rephrased.value != "" then f.rephrased else f.comments
  }

  // ---------------------------------------------------------------- weekly workload

  /** A `workload_map` key: a year and an ISO week number. */
  datatype WeekKey = WeekKey(year: int, week: int)

  /** The key as intended: the ISO year with the ISO week number; the date lies in the seven days
   *  that start at the Monday of that week. */
  function WeekOf(d: Calendar.Date): (r: WeekKey)
    requires Calendar.ValidDate(d)
    ensures 0 <= Calendar.Ordinal(d) - (Calendar.IsoWeek1Monday(r.year) + 7 * (r.week - 1)) < 7
  {
    Calendar.IsoCalendarOrdinal(d);
    WeekKey(Calendar.IsoCalendar(d).year, Calendar.IsoCalendar(d).week)
  }

  /** The key as written: the calendar year with the ISO week number. It agrees with the intended
   *  key exactly when the date's ISO year is its calendar year. */
  function WeekKeyAsWritten(d: Calendar.Date): (r: WeekKey)
    requires Calendar.ValidDate(d)
    ensures r.year == d.year && r.week == WeekOf(d).week
    ensures r == WeekOf(d) <==> Calendar.IsoCalendar(d).year == d.year
  {
    WeekKey(d.year, Calendar.IsoCalendar(d).week)
  }

  /** Which year a week key carries: the calendar year, as `employees.py` writes it, or the ISO
   *  year that the ISO week number belongs to. */
  datatype WeekYear = CalendarYear | IsoYear

  /** The key of a date under either choice of year. */
  function KeyOf(d: Calendar.Date, y: WeekYear): WeekKey
    requires Calendar.ValidDate(d)
  {
    match y
    case CalendarYear => WeekKeyAsWritten(d)
    case IsoYear => WeekOf(d)
  }

  /** The Monday that starts the ISO week of a date, as a day ordinal. */
  function MondayOf(d: Calendar.Date): int
    requires Calendar.ValidDate(d)
  {
    Calendar.Ordinal(d) - (Calendar.IsoCalendar(d).weekday - 1)
  }

  /** Under the intended key, two dates share a key only when they lie in the same
   *  Monday-to-Sunday week. */
  lemma WeekOfSameWeek(a: Calendar.Date, b: Calendar.Date)
    requires Calendar.ValidDate(a) && Calendar.ValidDate(b)
    requires WeekOf(a) == WeekOf(b)
    ensures MondayOf(a) == MondayOf(b)
  {
    Calendar.IsoCalendarOrdinal(a);
    Calendar.IsoCalendarOrdinal(b);
  }

  /** Under the key as written, 2024-12-30 (ISO week 1 of 2025) and 2024-01-01 (ISO week 1 of 2024)
   *  share the key 2024-01 although they are a year apart: their hours are summed as one week. */
  lemma WeekKeyAsWrittenMerges()
    ensures Calendar.ValidDate(Calendar.Date(2024, 12, 30)) && Calendar.ValidDate(Calendar.Date(2024, 1, 1))
    ensures WeekKeyAsWritten(Calendar.Date(2024, 12, 30)) == WeekKeyAsWritten(Calendar.Date(2024, 1, 1))
    ensures MondayOf(Calendar.Date(2024, 12, 30)) != MondayOf(Calendar.Date(2024, 1, 1))
    ensures WeekOf(Calendar.Date(2024, 12, 30)) != WeekOf(Calendar.Date(2024, 1, 1))
  {
    var late := Calendar.Date(2024, 12, 30);
    var early := Calendar.Date(2024, 1, 1);
    assert Calendar.DaysBeforeYear(2024) == 738885;
    assert Calendar.DaysBeforeYear(2023) == 738520;
    assert Calendar.DaysBeforeYear(2025) == 739251;
    assert Calendar.Ordinal(late) == 739250;
    assert Calendar.Ordinal(early) == 738886;
    assert Calendar.IsoWeek1Monday(2024) == 738886;
    assert Calendar.IsoWeek1Monday(2025) == 739250;
    assert Calendar.IsoCalendar(late) == Calendar.IsoDate(2025, 1, 1);
    assert Calendar.IsoCalendar(early) == Calendar.IsoDate(2024, 1, 1);
  }

  /** A workload entry whose date is present, not empty and parses as `%Y-%m-%d`. */
  predicate Dated(w: Workload)
  {
    w.date.Some? && w.date.value != "" && Calendar.ParseYmd(w.date.value).Some?
  }

  /** The week a workload entry is booked to: none when its date is absent, empty or not
   *  `%Y-%m-%d` (the `ValueError` is skipped), otherwise the key of the parsed date. */
  function EntryWeek(w: Workload, y: WeekYear): (r: Option<WeekKey>)
    ensures r.Some? <==> Dated(w)
    ensures r.Some? ==> r.value.week == WeekOf(Calendar.ParseYmd(w.date.value).value).week
    ensures r.Some? && y == CalendarYear ==> r.value.year == Calendar.ParseYmd(w.date.value).value.year
    ensures r.Some? && y == IsoYear ==> r.value == WeekOf(Calendar.ParseYmd(w.date.value).value)
  {
    if w.date.None? || w.date.value == "" then None
    else
      match Calendar.ParseYmd(w.date.value)
      case None => None
      case Some(d) => Some(KeyOf(d, y))
  }

  /** With the intended key, two dated entries booked to the same week lie in the same
   *  Monday-to-Sunday week. */
  lemma IntendedWeeksAreCalendarWeeks(a: Workload, b: Workload)
    requires EntryWeek(a, IsoYear).Some? && EntryWeek(a, IsoYear) == EntryWeek(b, IsoYear)
    ensures MondayOf(Calendar.ParseYmd(a.date.value).value) == MondayOf(Calendar.ParseYmd(b.date.value).value)
  {
    WeekOfSameWeek(Calendar.ParseYmd(a.date.value).value, Calendar.ParseYmd(b.date.value).value);
  }

  /** `workload_map` as an insertion-ordered list of (week, hours). */
  type WeekTotals = seq<(WeekKey, real)>

  /** `workload_map[k] += h` on a `defaultdict(float)`. */
  function AddHours(t: WeekTotals, k: WeekKey, h: real): (r: WeekTotals)
    ensures |r| == |t| || |r| == |t| + 1
  {
    if t == [] then [(k, h)]
    else if t[0].0 == k then [(k, t[0].1 + h)] + t[1..]
    else [t[0]] + AddHours(t[1..], k, h)
  }

  function SumValues(t: WeekTotals): real
  {
    if t == [] then 0.0 else t[0].1 + SumValues(t[1..])
  }

  /** The weeks of the table, in insertion order. */
  function Weeks(t: WeekTotals): (r: seq<WeekKey>)
    ensures |r| == |t|
    ensures forall i :: 0 <= i < |t| ==> r[i] == t[i].0
  {
    if t == [] then [] else [t[0].0] + Weeks(t[1..])
  }

  /** No week occurs twice, as in a dict. */
  predicate DistinctWeeks(t: WeekTotals)
  {
    t == [] || (t[0].0 !in Weeks(t[1..]) && DistinctWeeks(t[1..]))
  }

  /** Adding hours keeps the weeks distinct, adds the week, and adds the hours to the total. */
  lemma {:induction false} AddHoursFacts(t: WeekTotals, k: WeekKey, h: real)
    requires DistinctWeeks(t)
    ensures DistinctWeeks(AddHours(t, k, h))
    ensures forall q :: q in Weeks(AddHours(t, k, h)) <==> q in Weeks(t) || q == k
    ensures SumValues(AddHours(t, k, h)) == SumValues(t) + h
    decreases |t|
  {
    if t != [] && t[0].0 != k {
      AddHoursFacts(t[1..], k, h);
      var r := AddHours(t, k, h);
      assert r == [t[0]] + AddHours(t[1..], k, h);
      assert r[1..] == AddHours(t[1..], k, h);
    } else if t != [] {
      var r := AddHours(t, k, h);
      assert r[1..] == t[1..];
    }
  }

  /** `workload_map` after scanning `ws`: at most one week per entry. */
  function WeeklyTotals(ws: seq<Workload>, y: WeekYear): (r: WeekTotals)
    ensures |r| <= |ws|
  {
    if ws == [] then []
    else
      var t := WeeklyTotals(ws[..|ws| - 1], y);
      var last := ws[|ws| - 1];
      match EntryWeek(last, y)
      case None => t
      case Some(k) => AddHours(t, k, last.hours)
  }

  /** The hours of the entries with a usable date: the reference for the weekly totals. */
  function DatedHours(ws: seq<Workload>): real
  {
    if ws == [] then 0.0
    else DatedHours(ws[..|ws| - 1]) + (if Dated(ws[|ws| - 1]) then ws[|ws| - 1].hours else 0.0)
  }

  /** Every dated entry's hours land in exactly one week, the weeks are distinct, and a week is
   *  present iff some dated entry falls in it. */
  lemma {:induction false} WeeklyTotalsFacts(ws: seq<Workload>, y: WeekYear)
    ensures DistinctWeeks(WeeklyTotals(ws, y))
    ensures SumValues(WeeklyTotals(ws, y)) == DatedHours(ws)
    ensures forall k :: k in Weeks(WeeklyTotals(ws, y)) <==> exists w :: w in ws && EntryWeek(w, y) == Some(k)
    decreases |ws|
  {
    if ws != [] {
      var init := ws[..|ws| - 1];
      var last := ws[|ws| - 1];
      WeeklyTotalsFacts(init, y);
      assert ws == init + [last];
      assert forall w :: w in ws <==> w in init || w == last;
      var t := WeeklyTotals(init, y);
      if EntryWeek(last, y).Some? {
        AddHoursFacts(t, EntryWeek(last, y).value, last.hours);
        assert WeeklyTotals(ws, y) == AddHours(t, EntryWeek(last, y).value, last.hours);
      } else {
        assert WeeklyTotals(ws, y) == t;
      }
    }
  }

  /** `sum(workload_map.values()) / len(workload_map)`, or 0.0 when the map is empty. */
  function AverageWeekly(t: WeekTotals): (r: real)
    ensures t == [] ==> r == 0.0
    ensures t != [] ==> r * (|t| as real) == SumValues(t)
  {
    if t == [] then 0.0 else SumValues(t) / (|t| as real)
  }

  /** `f"{year}-{week:02d}"`, the text of a `workload_map` key. */
  function KeyText(k: WeekKey): string
  {
    PyText.IntToString(k.year) + "-" + TwoDigits(k.week)
  }

  /** `{n:02d}`: a single digit gets a leading zero, anything else prints as it is. */
  function TwoDigits(n: int): string
  {
    if 0 <= n < 10 then ['0', PyText.DigitChar(n)] else PyText.IntToString(n)
  }

  /** Keys compare as the strings they are: `max(workload_map.keys())` takes the greatest text. */
  predicate WeekBefore(a: WeekKey, b: WeekKey)
  {
    PyText.Less(KeyText(a), KeyText(b))
  }

  /** The text order puts a three-digit year after a four-digit one. */
  lemma ShortYearSortsLast()
    ensures WeekBefore(WeekKey(2024, 19), WeekKey(999, 1))
  {
    assert PyText.IntToString(2024)[0] == '2';
    assert PyText.IntToString(999)[0] == '9';
  }

  /** A key that no later key follows is followed by none of the keys that one dominates. */
  lemma NotBeforeAll(a: WeekKey, b: WeekKey, t: WeekTotals)
    requires !WeekBefore(a, b)
    requires forall i :: 0 <= i < |t| ==> !WeekBefore(b, t[i].0)
    ensures forall i :: 0 <= i < |t| ==> !WeekBefore(a, t[i].0)
  {
    forall i | 0 <= i < |t|
      ensures !WeekBefore(a, t[i].0)
    {
      PyText.NotLessTransitive(KeyText(a), KeyText(b), KeyText(t[i].0));
    }
  }

  /** The entry of the greatest key, from the front. */
  function LatestWeekEntry(t: WeekTotals): (r: (WeekKey, real))
    requires t != []
    ensures r in t
    ensures forall i :: 0 <= i < |t| ==> !WeekBefore(r.0, t[i].0)
  {
    if |t| == 1 then PyText.LessIrreflexive(KeyText(t[0].0)); t[0]
    else
      var rest := LatestWeekEntry(t[1..]);
      assert forall i :: 1 <= i < |t| ==> t[i] == t[1..][i - 1];
      if WeekBefore(t[0].0, rest.0) then
        PyText.LessAsymmetric(KeyText(t[0].0), KeyText(rest.0));
        rest
      else
        PyText.LessIrreflexive(KeyText(t[0].0));
        NotBeforeAll(t[0].0, rest.0, t[1..]);
        t[0]
  }

  /** `workload_map[max(workload_map.keys())]`, or 0.0 when the map is empty. */
  function CurrentWeekly(t: WeekTotals): (r: real)
    ensures t == [] ==> r == 0.0
    ensures t != [] ==> exists i :: 0 <= i < |t| && r == t[i].1 && forall j :: 0 <= j < |t| ==> !WeekBefore(t[i].0, t[j].0)
  {
    if t == [] then 0.0
    else
      var e := LatestWeekEntry(t);
      var i :| 0 <= i < |t| && t[i] == e;
      e.1
  }

  /** The workload loop of `enrich_employee_data` over the employee's entries. */
  method WeeklyWorkload(ws: seq<Workload>, y: WeekYear) returns (avg: real, current: real)
    ensures avg == AverageWeekly(WeeklyTotals(ws, y))
    ensures current == CurrentWeekly(WeeklyTotals(ws, y))
  {
    var totals: WeekTotals := [];
    for i := 0 to |ws|
      invariant totals == WeeklyTotals(ws[..i], y)
    {
      WeeklyTotalsStep(ws, i, y);
      var wl := ws[i];
      var week := EntryWeek(wl, y);
      if week.Some? {
        totals := AddHours(totals, week.value, wl.hours);
      }
    }
    assert ws[..|ws|] == ws;
    avg := AverageWeekly(totals);
    current := CurrentWeekly(totals);
  }

  /** One more entry adds its hours to its week, or changes nothing when it has no usable date. */
  lemma WeeklyTotalsStep(ws: seq<Workload>, i: nat, y: WeekYear)
    requires i < |ws|
    ensures WeeklyTotals(ws[..i + 1], y)
      == match EntryWeek(ws[i], y)
         case None => WeeklyTotals(ws[..i], y)
         case Some(k) => AddHours(WeeklyTotals(ws[..i], y), k, ws[i].hours)
  {
    assert ws[..i + 1][..i] == ws[..i];
  }

  // ---------------------------------------------------------------- the merge

  /** `enrich_employee_data(employee, feedbacks, workloads)` with weeks keyed by `y`: the record
   *  keeps the employee, and an employee without feedback has no score and is healthy. */
  function Enrich(e: Employee, feedbacks: seq<Feedback>, workloads: seq<Workload>, y: WeekYear): (r: Enriched)
    ensures r.employee == e
    ensures r.latestFeedback.None? ==> r.sentimentScore.None? && r.riskStatus == Team.Healthy
  {
    var latest := LatestOf(Select(feedbacks, FeedbackOwner, e.employeeId));
    var totals := WeeklyTotals(Select(workloads, WorkloadOwner, e.employeeId), y);
    var score := if latest.Some? then latest.value.sentimentScore else None;
    var sentimentLabel := if latest.Some? then latest.value.sentimentLabel else None;
    Enriched(e,
             if latest.Some? then Some(FeedbackView(CommentOf(latest.value), latest.value.submissionDate, latest.value.category)) else None,
             score, EmployeeRisk(score, sentimentLabel), AverageWeekly(totals), CurrentWeekly(totals))
  }

  /** The merged feedback is the employee's newest one and the risk status follows its sentiment;
   *  an employee without feedback is healthy. */
  lemma EnrichFeedback(e: Employee, feedbacks: seq<Feedback>, workloads: seq<Workload>, y: WeekYear)
    ensures Enrich(e, feedbacks, workloads, y).latestFeedback.Some? <==> exists f :: f in feedbacks && f.employeeId == e.employeeId
    ensures Enrich(e, feedbacks, workloads, y).latestFeedback.None? ==>
      Enrich(e, feedbacks, workloads, y).riskStatus == Team.Healthy && Enrich(e, feedbacks, workloads, y).sentimentScore.None?
    ensures Enrich(e, feedbacks, workloads, y).latestFeedback.Some? ==>
      exists f :: f in feedbacks && f.employeeId == e.employeeId
        && Enrich(e, feedbacks, workloads, y).sentimentScore == f.sentimentScore
        && Enrich(e, feedbacks, workloads, y).riskStatus == EmployeeRisk(f.sentimentScore, f.sentimentLabel)
        && Enrich(e, feedbacks, workloads, y).latestFeedback.value.comments == CommentOf(f)
        && forall g :: g in feedbacks && g.employeeId == e.employeeId ==> !Sorting.LexLess(DateKey(f), DateKey(g))
  {
    var own := Select(feedbacks, FeedbackOwner, e.employeeId);
    LatestOfIsLatest(own);
    if f :| f in feedbacks && f.employeeId == e.employeeId {
      assert f in own;
    }
  }

  /** The weekly average spreads the hours of the dated entries over the distinct weeks. */
  lemma WeeklyAverage(ws: seq<Workload>, y: WeekYear)
    ensures AverageWeekly(WeeklyTotals(ws, y)) * (|WeeklyTotals(ws, y)| as real) == DatedHours(ws)
  {
    WeeklyTotalsFacts(ws, y);
  }

  /** Both weekly figures are 0 when no entry has a usable date. */
  lemma NoDatedEntries(ws: seq<Workload>, y: WeekYear)
    requires forall w :: w in ws ==> !Dated(w)
    ensures AverageWeekly(WeeklyTotals(ws, y)) == 0.0 && CurrentWeekly(WeeklyTotals(ws, y)) == 0.0
  {
    var t := WeeklyTotals(ws, y);
    WeeklyTotalsFacts(ws, y);
    FirstWeekListed(t);
    assert forall w :: w in ws ==> EntryWeek(w, y).None?;
    assert t == [];
  }

  /** A non-empty table lists its first week. */
  lemma FirstWeekListed(t: WeekTotals)
    ensures t == [] || t[0].0 in Weeks(t)
  {
  }

  /** Merging against the employee's own groups gives what merging against the full lists gives. */
  lemma EnrichOnGroups(e: Employee, fbs: seq<Feedback>, feedbacks: seq<Feedback>, wls: seq<Workload>, workloads: seq<Workload>, y: WeekYear)
    requires Select(fbs, FeedbackOwner, e.employeeId) == Select(feedbacks, FeedbackOwner, e.employeeId)
    requires Select(wls, WorkloadOwner, e.employeeId) == Select(workloads, WorkloadOwner, e.employeeId)
    ensures Enrich(e, fbs, wls, y) == Enrich(e, feedbacks, workloads, y)
  {
  }

  /** `enrich_employee_data`, with its workload loop. */
  method EnrichEmployee(e: Employee, feedbacks: seq<Feedback>, workloads: seq<Workload>, y: WeekYear) returns (r: Enriched)
    ensures r == Enrich(e, feedbacks, workloads, y)
  {
    var own := Select(feedbacks, FeedbackOwner, e.employeeId);
    var latest := LatestOf(own);
    var score := if latest.Some? then latest.value.sentimentScore else None;
    var sentimentLabel := if latest.Some? then latest.value.sentimentLabel else None;
    var view := if latest.Some? then Some(FeedbackView(CommentOf(latest.value), latest.value.submissionDate, latest.value.category)) else None;
    var avg, current := WeeklyWorkload(Select(workloads, WorkloadOwner, e.employeeId), y);
    r := Enriched(e, view, score, EmployeeRisk(score, sentimentLabel), avg, current);
  }

  // ---------------------------------------------------------------- the unpaginated list

  /** The `departments` query is a filter unless absent, empty or "all departments" in any case. */
  predicate FilterActive(departments: Option<string>)
  {
    departments.Some? && departments.value != "" && PyText.Lower(departments.value) != "all departments"
  }

  /** `str(emp.get('division', '')).strip().lower()`. */
  function DivisionKey(e: Employee): string
  {
    PyText.Lower(PyText.Strip(e.division.GetOr("")))
  }

  /** The employees whose cleaned division equals `target`, in scan order. */
  function InDivision(employees: seq<Employee>, target: string): (r: seq<Employee>)
    ensures |r| <= |employees|
    ensures forall e :: e in r <==> e in employees && DivisionKey(e) == target
  {
    if employees == [] then []
    else
      var last := employees[|employees| - 1];
      InDivision(employees[..|employees| - 1], target) + (if DivisionKey(last) == target then [last] else [])
  }

  /** The filter loop: the employees kept by the `departments` query. */
  method FilterByDepartment(employees: seq<Employee>, departments: Option<string>) returns (r: seq<Employee>)
    ensures !FilterActive(departments) ==> r == employees
    ensures FilterActive(departments) ==> r == InDivision(employees, PyText.Lower(PyText.Strip(departments.value)))
  {
    if !FilterActive(departments) {
      return employees;
    }
    var target := PyText.Lower(PyText.Strip(departments.value));
    r := [];
    for i := 0 to |employees|
      invariant r == InDivision(employees[..i], target)
    {
      assert employees[..i + 1][..i] == employees[..i];
      if DivisionKey(employees[i]) == target {
        r := r + [employees[i]];
      }
    }
    assert employees[..|employees|] == employees;
  }

  /** `defaultdict(list)` grouping by employee id. */
  method GroupByOwner<T(!new)>(s: seq<T>, key: T -> Option<string>) returns (m: map<Option<string>, seq<T>>)
    ensures forall k :: k in m ==> m[k] == Select(s, key, k)
    ensures forall k :: k !in m ==> Select(s, key, k) == []
  {
    m := map[];
    for i := 0 to |s|
      invariant forall k :: k in m ==> m[k] == Select(s[..i], key, k)
      invariant forall k :: k !in m ==> Select(s[..i], key, k) == []
    {
      assert s[..i + 1][..i] == s[..i];
      var k := key(s[i]);
      var group := if k in m then m[k] else [];
      m := m[k := group + [s[i]]];
    }
    assert s[..|s|] == s;
  }

  /** The employees the `departments` query keeps. */
  function KeptEmployees(employees: seq<Employee>, departments: Option<string>): seq<Employee>
  {
    if FilterActive(departments) then InDivision(employees, PyText.Lower(PyText.Strip(departments.value))) else employees
  }

  /** `get_all_employees_no_pagination`: the kept employees, each merged with its own feedback and
   *  workload groups, weeks keyed by calendar year as written; the grouping gives the same result
   *  as merging against the full lists. */
  method GetAllEmployees(employees: seq<Employee>, feedbacks: seq<Feedback>, workloads: seq<Workload>,
                         departments: Option<string>) returns (data: seq<Enriched>)
    ensures |data| == |KeptEmployees(employees, departments)|
    ensures forall i :: 0 <= i < |data| ==> data[i] == Enrich(KeptEmployees(employees, departments)[i], feedbacks, workloads, CalendarYear)
  {
    var kept := FilterByDepartment(employees, departments);
    assert kept == KeptEmployees(employees, departments);
    var fbMap := GroupByOwner(feedbacks, FeedbackOwner);
    var wlMap := GroupByOwner(workloads, WorkloadOwner);
    ghost var want := seq(|kept|, j requires 0 <= j < |kept| => Enrich(kept[j], feedbacks, workloads, CalendarYear));
    data := [];
    for i := 0 to |kept|
      invariant data == want[..i]
    {
      var enriched := EnrichFromGroups(kept[i], fbMap, wlMap, feedbacks, workloads);
      data := data + [enriched];
      assert want[..i + 1] == want[..i] + [want[i]];
    }
    assert want[..|kept|] == want;
  }

  /** One employee of the result loop: `fb_map.get(e_id, [])` and `wl_map.get(e_id, [])`. */
  method EnrichFromGroups(e: Employee, fbMap: map<Option<string>, seq<Feedback>>, wlMap: map<Option<string>, seq<Workload>>,
                          ghost feedbacks: seq<Feedback>, ghost workloads: seq<Workload>) returns (r: Enriched)
    requires forall k :: k in fbMap ==> fbMap[k] == Select(feedbacks, FeedbackOwner, k)
    requires forall k :: k !in fbMap ==> Select(feedbacks, FeedbackOwner, k) == []
    requires forall k :: k in wlMap ==> wlMap[k] == Select(workloads, WorkloadOwner, k)
    requires forall k :: k !in wlMap ==> Select(workloads, WorkloadOwner, k) == []
    ensures r == Enrich(e, feedbacks, workloads, CalendarYear)
  {
    var id := e.employeeId;
    var fbs := if id in fbMap then fbMap[id] else [];
    var wls := if id in wlMap then wlMap[id] else [];
    SelectIdempotent(feedbacks, FeedbackOwner, id);
    SelectIdempotent(workloads, WorkloadOwner, id);
    EnrichOnGroups(e, fbs, feedbacks, wls, workloads, CalendarYear);
    r := EnrichEmployee(e, fbs, wls, CalendarYear);
  }

  /** `get_employees_paginated`: one page of employees, each merged against the page's feedback
   *  and workload scans, weeks keyed by calendar year as written. */
  method GetEmployeesPage(page: seq<Employee>, feedbacks: seq<Feedback>, workloads: seq<Workload>)
    returns (data: seq<Enriched>)
    ensures |data| == |page|
    ensures forall i :: 0 <= i < |page| ==> data[i] == Enrich(page[i], feedbacks, workloads, CalendarYear)
  {
    ghost var want := seq(|page|, j requires 0 <= j < |page| => Enrich(page[j], feedbacks, workloads, CalendarYear));
    data := [];
    for i := 0 to |page|
      invariant data == want[..i]
    {
      var enriched := EnrichEmployee(page[i], feedbacks, workloads, CalendarYear);
      data := data + [enriched];
      assert want[..i + 1] == want[..i] + [want[i]];
    }
    assert want[..|page|] == want;
  }

  // ---------------------------------------------------------------- recommendations prompt

  datatype WorkloadContext = Overworked | Underutilized | Stable

  /** The workload context of the prompt, from current minus average hours. */
  function WorkloadContextOf(current: real, avg: real): (r: WorkloadContext)
    ensures r == Overworked <==> current - avg > 5.0
    ensures r == Underutilized <==> current - avg < -5.0
    ensures r == Stable <==> -5.0 <= current - avg <= 5.0
  {
    var delta := current - avg;
    if delta > 5.0 then Overworked else if delta < -5.0 then Underutilized else Stable
  }

  function SumHours(ws: seq<Workload>): real
  {
    if ws == [] then 0.0 else SumHours(ws[..|ws| - 1]) + ws[|ws| - 1].hours
  }

  /** Some entry lacks `hours_logged`. */
  predicate SomeUnlogged(ws: seq<Workload>)
  {
    exists i :: 0 <= i < |ws| && !ws[i].logged
  }

  /** The recommendations route's own figures: the mean over all entries (not weeks) and the
   *  hours of the last entry, both 0 without entries; `w['hours_logged']` raises the
   *  `KeyError` whose text is `'hours_logged'` when an entry lacks the attribute. */
  function RecommendationWorkload(ws: seq<Workload>): (r: Outcome<(real, real)>)
    ensures r.Raised? <==> SomeUnlogged(ws)
    ensures r.Raised? ==> r.message == "'hours_logged'"
    ensures r.Done? && ws == [] ==> r.value == (0.0, 0.0)
    ensures r.Done? && ws != [] ==> r.value.0 * (|ws| as real) == SumHours(ws) && r.value.1 == ws[|ws| - 1].hours
  {
    if SomeUnlogged(ws) then Raised("'hours_logged'")
    else if ws == [] then Done((0.0, 0.0))
    else Done((SumHours(ws) / (|ws| as real), ws[|ws| - 1].hours))
  }
}
