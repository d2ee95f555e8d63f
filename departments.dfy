/**
 * The departments dashboard route: the department risk bands, the division -> employee-id map, the
 * latest feedback of every employee, and the feedback texts of each department's members that are
 * handed to the insight generator.
 */
module Departments {
  import opened Wrappers
  import PyText
  import Sorting
  import Team

  /**
   * `calculate_risk_label` of this route: NaN (`None` here) is healthy, 'score' is banded at 75/65/55
   * with higher better, and every other metric type (the route passes 'inverse') at 20/35/50 with
   * lower better. It is the same rule as the team route's.
   */
  function RiskLabel(value: Option<real>, metricType: string): (r: Team.Band)
    ensures r == Team.RiskLabel(value, metricType)
    ensures metricType == "inverse" ==> r == Team.RiskLabel(value, "rate")
  {
    if value.None? then Team.Healthy
    else if metricType == "score" then
      if value.value > 75.0 then Team.Healthy else if value.value > 65.0 then Team.Watch
      else if value.value >= 55.0 then Team.Warning else Team.Critical
    else
      if value.value <= 20.0 then Team.Healthy else if value.value <= 35.0 then Team.Watch
      else if value.value <= 50.0 then Team.Warning else Team.Critical
  }

  /** An `Employees` item: its `division` and `Employee_ID` attributes, either possibly absent. */
  datatype Employee = Employee(division: Option<string>, employeeId: Option<string>)

  /** A `Feedbacks` item. `submissionDate` is `x.get('submission_date', '')`: absent is "". */
  datatype Feedback = Feedback(employeeId: Option<string>, submissionDate: string,
                               rephrased: Option<string>, comments: Option<string>)

  /** A `Departments` item: its name and three rates, each possibly absent. */
  datatype Department = Department(name: Option<string>, engagement: Option<real>,
                                   attrition: Option<real>, stress: Option<real>)

  /** The computed part of one dashboard entry. */
  datatype DepartmentSummary = DepartmentSummary(name: Option<string>, totalMembers: nat,
                                                 engagementRisk: Team.Band, attritionRisk: Team.Band,
                                                 stressRisk: Team.Band, feedbackTexts: seq<string>)

  // ---------------------------------------------------------------- division -> employee ids

  /** The ids of the employees of division `d`, in scan order: the reference for the map. */
  function Members(employees: seq<Employee>, d: Option<string>): (r: seq<Option<string>>)
    ensures |r| <= |employees|
  {
    if employees == [] then []
    else
      var last := employees[|employees| - 1];
      Members(employees[..|employees| - 1], d) + (if last.division == d then [last.employeeId] else [])
  }

  /** The division of every employee, in scan order. */
  function Divisions(employees: seq<Employee>): (r: seq<Option<string>>)
    ensures |r| == |employees|
    ensures forall i :: 0 <= i < |r| ==> r[i] == employees[i].division
  {
    if employees == [] then [] else Divisions(employees[..|employees| - 1]) + [employees[|employees| - 1].division]
  }

  /** A division's list holds one id per employee of that division. */
  lemma {:induction false} MembersCount(employees: seq<Employee>, d: Option<string>)
    ensures |Members(employees, d)| == multiset(Divisions(employees))[d]
    decreases |employees|
  {
    if employees != [] {
      var init := employees[..|employees| - 1];
      MembersCount(init, d);
      assert Divisions(employees) == Divisions(init) + [employees[|employees| - 1].division];
    }
  }

  /** Every id of a division's list is the id of an employee of that division, and the list is
   *  empty exactly when the division has no employee. */
  lemma {:induction false} MembersOfDivision(employees: seq<Employee>, d: Option<string>)
    ensures forall x :: x in Members(employees, d) ==> Employee(d, x) in employees
    ensures Members(employees, d) == [] <==> forall e :: e in employees ==> e.division != d
    decreases |employees|
  {
    if employees != [] {
      var init := employees[..|employees| - 1];
      var last := employees[|employees| - 1];
      MembersOfDivision(init, d);
      assert employees == init + [last];
      forall x | x in Members(employees, d) ensures Employee(d, x) in employees {
        if x !in Members(init, d) {
          assert last == Employee(d, x);
        }
      }
    }
  }

  /** `dept_employee_map`: division -> the ids of its employees, built in one scan. */
  method BuildDivisionMap(employees: seq<Employee>) returns (m: map<Option<string>, seq<Option<string>>>)
    ensures forall d :: d in m <==> exists e :: e in employees && e.division == d
    ensures forall d :: d in m ==> m[d] == Members(employees, d)
  {
    m := map[];
    for i := 0 to |employees|
      invariant forall d :: d in m <==> exists e :: e in employees[..i] && e.division == d
      invariant forall d :: d in m ==> m[d] == Members(employees[..i], d)
    {
      var e := employees[i];
      assert employees[..i + 1] == employees[..i] + [e];
      assert employees[..i + 1][..i] == employees[..i];
      if e.division !in m {
        MembersOfDivision(employees[..i], e.division);
        m := m[e.division := []];
      }
      m := m[e.division := m[e.division] + [e.employeeId]];
      forall d | d in m ensures m[d] == Members(employees[..i + 1], d) {
        assert Members(employees[..i + 1], d) == Members(employees[..i], d) + (if e.division == d then [e.employeeId] else []);
      }
    }
    assert employees[..|employees|] == employees;
  }

  // ---------------------------------------------------------------- latest feedback per employee

  /** `a` comes before `b` in the sort on `submission_date`, descending. */
  predicate LaterDate(a: Feedback, b: Feedback)
  {
    Sorting.LexLess(b.submissionDate, a.submissionDate)
  }

  lemma LaterDateIsStrictOrder()
    ensures Sorting.StrictOrder(LaterDate)
  {
    forall a: Feedback ensures !LaterDate(a, a) {
      Sorting.LexLessIrreflexive(a.submissionDate);
    }
    forall a: Feedback, b: Feedback, c: Feedback | LaterDate(a, b) && LaterDate(b, c) ensures LaterDate(a, c) {
      Sorting.LexLessTransitive(c.submissionDate, b.submissionDate, a.submissionDate);
    }
  }

  function FeedbackKey(f: Feedback): Option<string>
  {
    f.employeeId
  }

  /** The map a scan builds that keeps the first item seen for each employee id. */
  function FirstPerEmployee(s: seq<Feedback>): map<Option<string>, Feedback>
  {
    if s == [] then map[]
    else
      var m := FirstPerEmployee(s[..|s| - 1]);
      var last := s[|s| - 1];
      if last.employeeId in m then m else m[last.employeeId := last]
  }

  /** The scan keeps, for every id present, the first item with that id, and no other key. */
  lemma {:induction false} FirstPerEmployeeIsFirst(s: seq<Feedback>)
    ensures forall k :: k in FirstPerEmployee(s) <==> Sorting.HasKey(s, FeedbackKey, k)
    ensures forall k :: k in FirstPerEmployee(s) ==>
      Sorting.HasKey(s, FeedbackKey, k) && FirstPerEmployee(s)[k] == s[Sorting.FirstKeyIndex(s, FeedbackKey, k)]
    decreases |s|
  {
    if s != [] {
      var init := s[..|s| - 1];
      var last := s[|s| - 1];
      FirstPerEmployeeIsFirst(init);
      assert s == init + [last];
      forall k ensures Sorting.HasKey(s, FeedbackKey, k) <==> Sorting.HasKey(init, FeedbackKey, k) || FeedbackKey(last) == k {
        Sorting.HasKeySnoc(init, last, FeedbackKey, k);
      }
      forall k | k in FirstPerEmployee(s)
        ensures FirstPerEmployee(s)[k] == s[Sorting.FirstKeyIndex(s, FeedbackKey, k)]
      {
        if k in FirstPerEmployee(init) {
          assert s[..|init|] == init;
          Sorting.FirstKeyIndexPrefix(s, FeedbackKey, k, |init|);
        } else {
          assert !Sorting.HasKey(init, FeedbackKey, k);
        }
      }
    }
  }

  /** `emp_feedback_map`: the first item per employee id after sorting by date, newest first. */
  function LatestFeedback(feedbacks: seq<Feedback>): map<Option<string>, Feedback>
  {
    FirstPerEmployee(Sorting.SortBy(feedbacks, LaterDate))
  }

  /** The map holds exactly the ids that have feedback. */
  lemma LatestFeedbackKeys(feedbacks: seq<Feedback>)
    ensures forall k :: k in LatestFeedback(feedbacks) <==> exists f :: f in feedbacks && f.employeeId == k
  {
    var sorted := Sorting.SortBy(feedbacks, LaterDate);
    var m := LatestFeedback(feedbacks);
    Sorting.SortByPermutes(feedbacks, LaterDate);
    FirstPerEmployeeIsFirst(sorted);
    forall k ensures k in m <==> exists f :: f in feedbacks && f.employeeId == k {
      if k in m {
        var i := Sorting.FirstKeyIndex(sorted, FeedbackKey, k);
        assert sorted[i] in multiset(feedbacks);
      }
      if f :| f in feedbacks && f.employeeId == k {
        assert f in multiset(sorted);
        var j :| 0 <= j < |sorted| && sorted[j] == f;
        assert FeedbackKey(sorted[j]) == k;
      }
    }
  }

  /** The item kept for an employee is one of that employee's items, and none of their items has a
   *  greater `submission_date`. */
  lemma LatestFeedbackIsLatest(feedbacks: seq<Feedback>)
    ensures forall k :: k in LatestFeedback(feedbacks) ==>
      LatestFeedback(feedbacks)[k] in feedbacks && LatestFeedback(feedbacks)[k].employeeId == k
    ensures forall k, f :: k in LatestFeedback(feedbacks) && f in feedbacks && f.employeeId == k ==>
      !Sorting.LexLess(LatestFeedback(feedbacks)[k].submissionDate, f.submissionDate)
  {
    var sorted := Sorting.SortBy(feedbacks, LaterDate);
    var m := LatestFeedback(feedbacks);
    Sorting.SortByPermutes(feedbacks, LaterDate);
    FirstPerEmployeeIsFirst(sorted);
    forall k | k in m ensures m[k] in feedbacks && m[k].employeeId == k {
      var i := Sorting.FirstKeyIndex(sorted, FeedbackKey, k);
      assert sorted[i] in multiset(feedbacks);
    }
    LaterDateIsStrictOrder();
    Sorting.SortBySorted(feedbacks, LaterDate);
    forall k, f | k in m && f in feedbacks && f.employeeId == k
      ensures !Sorting.LexLess(m[k].submissionDate, f.submissionDate)
    {
      var i := Sorting.FirstKeyIndex(sorted, FeedbackKey, k);
      assert f in multiset(sorted);
      var j :| 0 <= j < |sorted| && sorted[j] == f;
      assert FeedbackKey(sorted[j]) == k;
      assert i <= j;
      if i < j {
        assert !LaterDate(sorted[j], sorted[i]);
      }
    }
  }

  /** Builds `emp_feedback_map`: sorts, then keeps the first item seen per id. */
  method BuildFeedbackMap(feedbacks: seq<Feedback>) returns (m: map<Option<string>, Feedback>)
    ensures m == LatestFeedback(feedbacks)
  {
    var sorted := Sorting.SortBy(feedbacks, LaterDate);
    m := map[];
    for i := 0 to |sorted|
      invariant m == FirstPerEmployee(sorted[..i])
    {
      assert sorted[..i + 1][..i] == sorted[..i];
      if sorted[i].employeeId !in m {
        m := m[sorted[i].employeeId := sorted[i]];
      }
    }
    assert sorted[..|sorted|] == sorted;
  }

  // ---------------------------------------------------------------- department feedback texts

  /** `fb_obj.get('rephrased_comments') or fb_obj.get('comments')`. */
  function Comment(f: Feedback): (r: Option<string>)
    ensures PyText.Truthy(f.rephrased) ==> r == f.rephrased
    ensures !PyText.Truthy(f.rephrased) ==> r == f.comments
  {
    if PyText.Truthy(f.rephrased) then f.rephrased else f.comments
  }

  /** The text a member contributes: their latest feedback's comment, when it is non-empty. */
  function MemberText(id: Option<string>, latest: map<Option<string>, Feedback>): (r: Option<string>)
    ensures r.Some? <==> id in latest && PyText.Truthy(Comment(latest[id]))
    ensures r.Some? ==> r.value != "" && r == Comment(latest[id])
  {
    if id in latest && PyText.Truthy(Comment(latest[id])) then Comment(latest[id]) else None
  }

  /** `dept_feedback_texts`: the member texts in member order. */
  function DepartmentTexts(memberIds: seq<Option<string>>, latest: map<Option<string>, Feedback>): (r: seq<string>)
    ensures |r| <= |memberIds|
  {
    if memberIds == [] then []
    else
      var t := MemberText(memberIds[|memberIds| - 1], latest);
      DepartmentTexts(memberIds[..|memberIds| - 1], latest) + (if t.Some? then [t.value] else [])
  }

  /** Every text is the non-empty comment of some member's latest feedback, and every member with
   *  such a comment contributes it. */
  lemma {:induction false} DepartmentTextsChosen(memberIds: seq<Option<string>>, latest: map<Option<string>, Feedback>)
    ensures forall t :: t in DepartmentTexts(memberIds, latest) ==>
      t != "" && exists id :: id in memberIds && MemberText(id, latest) == Some(t)
    ensures forall id :: id in memberIds && MemberText(id, latest).Some? ==>
      MemberText(id, latest).value in DepartmentTexts(memberIds, latest)
    decreases |memberIds|
  {
    if memberIds != [] {
      var init := memberIds[..|memberIds| - 1];
      var last := memberIds[|memberIds| - 1];
      DepartmentTextsChosen(init, latest);
      assert memberIds == init + [last];
      forall t | t in DepartmentTexts(memberIds, latest)
        ensures t != "" && exists id :: id in memberIds && MemberText(id, latest) == Some(t)
      {
        if t !in DepartmentTexts(init, latest) {
          assert MemberText(last, latest) == Some(t);
        }
      }
    }
  }

  /** The loop over `member_ids` that fills `dept_feedback_texts`. */
  method CollectTexts(memberIds: seq<Option<string>>, latest: map<Option<string>, Feedback>) returns (texts: seq<string>)
    ensures texts == DepartmentTexts(memberIds, latest)
  {
    texts := [];
    for i := 0 to |memberIds|
      invariant texts == DepartmentTexts(memberIds[..i], latest)
    {
      assert memberIds[..i + 1][..i] == memberIds[..i];
      var id := memberIds[i];
      if id in latest {
        var comment := Comment(latest[id]);
        if PyText.Truthy(comment) {
          texts := texts + [comment.value];
        }
      }
    }
    assert memberIds[..|memberIds|] == memberIds;
  }

  // ---------------------------------------------------------------- the dashboard

  /** `float(dept.get(attr, 0))`: an absent rate reads as 0. */
  function RateOrZero(rate: Option<real>): real
  {
    rate.GetOr(0.0)
  }

  /** The computed fields of one department's entry. */
  function Summarize(d: Department, employees: seq<Employee>, latest: map<Option<string>, Feedback>): (r: DepartmentSummary)
    ensures r.name == d.name
    ensures r.totalMembers <= |employees|
    ensures |r.feedbackTexts| <= r.totalMembers
  {
    var members := Members(employees, d.name);
    DepartmentSummary(d.name, |members|,
                      RiskLabel(Some(RateOrZero(d.engagement)), "score"),
                      RiskLabel(Some(RateOrZero(d.attrition)), "inverse"),
                      RiskLabel(Some(RateOrZero(d.stress)), "inverse"),
                      DepartmentTexts(members, latest))
  }

  /** What an entry says: its member count is the number of employees whose division is the
   *  department's name; engagement is banded as a score, attrition and stress as rates; an absent
   *  rate counts as 0, so its band is the mildest for a rate and the most severe for engagement. */
  lemma SummaryFields(d: Department, employees: seq<Employee>, latest: map<Option<string>, Feedback>)
    ensures Summarize(d, employees, latest).totalMembers == multiset(Divisions(employees))[d.name]
    ensures Summarize(d, employees, latest).engagementRisk == Team.RiskLabel(Some(RateOrZero(d.engagement)), "score")
    ensures Summarize(d, employees, latest).stressRisk == Team.RiskLabel(Some(RateOrZero(d.stress)), "rate")
    ensures Summarize(d, employees, latest).attritionRisk == Team.RiskLabel(Some(RateOrZero(d.attrition)), "rate")
    ensures d.engagement.None? ==> Summarize(d, employees, latest).engagementRisk == Team.Critical
    ensures d.stress.None? ==> Summarize(d, employees, latest).stressRisk == Team.Healthy
    ensures d.attrition.None? ==> Summarize(d, employees, latest).attritionRisk == Team.Healthy
  {
    MembersCount(employees, d.name);
  }

  /** One department of the result loop. */
  method SummarizeOne(d: Department, divisions: map<Option<string>, seq<Option<string>>>,
                      latest: map<Option<string>, Feedback>, ghost employees: seq<Employee>)
    returns (s: DepartmentSummary)
    requires forall k :: k in divisions <==> exists e :: e in employees && e.division == k
    requires forall k :: k in divisions ==> divisions[k] == Members(employees, k)
    ensures s == Summarize(d, employees, latest)
  {
    var memberIds := if d.name in divisions then divisions[d.name] else [];
    if d.name !in divisions {
      MembersOfDivision(employees, d.name);
    }
    var texts := CollectTexts(memberIds, latest);
    s := DepartmentSummary(d.name, |memberIds|,
                           RiskLabel(Some(RateOrZero(d.engagement)), "score"),
                           RiskLabel(Some(RateOrZero(d.attrition)), "inverse"),
                           RiskLabel(Some(RateOrZero(d.stress)), "inverse"),
                           texts);
  }

  /** `get_departments_dashboard`: one entry per department, in scan order. */
  method GetDepartmentsDashboard(departments: seq<Department>, employees: seq<Employee>, feedbacks: seq<Feedback>)
    returns (results: seq<DepartmentSummary>)
    ensures |results| == |departments|
    ensures forall i :: 0 <= i < |departments| ==> results[i] == Summarize(departments[i], employees, LatestFeedback(feedbacks))
  {
    var divisions := BuildDivisionMap(employees);
    var latest := BuildFeedbackMap(feedbacks);
    results := [];
    for i := 0 to |departments|
      invariant |results| == i
      invariant forall j :: 0 <= j < i ==> results[j] == Summarize(departments[j], employees, latest)
    {
      var s := SummarizeOne(departments[i], divisions, latest, employees);
      results := results + [s];
    }
  }
}
