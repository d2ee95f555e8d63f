/** The CSV upload route: `safe_decimal`, `calculate_overall_risk`, the prefix matching of
 *  `calculate_dimensions`, the employee updates built from a processed survey, and the life
 *  cycle of the in-memory `upload_tasks` registry. */
module Upload {
  import opened Wrappers
  import opened UploadCells
  import PyText
  import Stats
  import DbSync
  import RiskEngineHelpers

  // ---------------------------------------------------------------- overall risk

  /** `float(v) if v else 0`: None and 0 count as 0. */
  function OrZero(v: Option<real>): real
  {
    if v.Some? && v.value != 0.0 then v.value else 0.0
  }

  /** `calculate_overall_risk(engagement, attrition, stress)`. */
  function OverallRisk(engagement: Option<real>, attrition: Option<real>, stress: Option<real>): (r: string)
    ensures r == "critical" <==> OrZero(engagement) < 55.0 || OrZero(stress) > 50.0 || OrZero(attrition) > 50.0
    ensures r == "warning" <==> r != "critical" && (OrZero(engagement) < 65.0 || OrZero(stress) > 35.0 || OrZero(attrition) > 35.0)
    ensures r == "critical" || r == "warning" || r == "healthy"
  {
    var e := OrZero(engagement);
    var a := OrZero(attrition);
    var s := OrZero(stress);
    if e < 55.0 || s > 50.0 || a > 50.0 then "critical"
    else if e < 65.0 || s > 35.0 || a > 35.0 then "warning"
    else "healthy"
  }

  function Severity(risk: string): nat
  {
    if risk == "critical" then 2 else if risk == "warning" then 1 else 0
  }

  /** A missing engagement value counts as 0, so on its own it makes a department critical. */
  lemma MissingEngagementIsCritical(attrition: Option<real>, stress: Option<real>)
    ensures OverallRisk(None, attrition, stress) == "critical"
    ensures OverallRisk(Some(0.0), attrition, stress) == "critical"
  {
  }

  /** Higher engagement and lower attrition and stress never make the status more severe. */
  lemma OverallRiskMonotone(e1: real, a1: real, s1: real, e2: real, a2: real, s2: real)
    requires e1 <= e2 && a2 <= a1 && s2 <= s1
    requires e1 > 0.0 && a2 > 0.0 && s2 > 0.0
    ensures Severity(OverallRisk(Some(e2), Some(a2), Some(s2))) <= Severity(OverallRisk(Some(e1), Some(a1), Some(s1)))
  {
  }

  // ---------------------------------------------------------------- calculate_dimensions

  /** `DIMENSION_MAPPING`: the upload's own, longer, question lists. */
  const UploadDimensionTable: seq<(string, seq<string>)> := [
    ("Dim_Enablement", ["Q3_Enablement_Tools", "Q11_Systems_Process", "Q29_Health_Safety"]),
    ("Dim_ESG", ["Q8_ESG_Community", "Q16_ESG_Environment"]),
    ("Dim_Delight_Customer", ["Q5_Quality_Services", "Q13_Great_Service", "Q20_Cust_Feedback_Usage", "Q27_Delight_Cust"]),
    ("Dim_Development", ["Q4_Sup_Career_Interest", "Q12_Career_Opp", "Q19_L&D_Access"]),
    ("Dim_Culture_Values", ["Q7_Diversity_Inclusion", "Q15_Respect", "Q21_Values_Lived"]),
    ("Dim_Company_Confidence", ["Q6_Trust_Top_Mgmt", "Q14_Future_Success", "Q24_Sup_Comm_Strategy"]),
    ("Dim_Leadership", ["Q2_Sup_Feedback", "Q10_Sup_Informed", "Q18_Sup_Role_Model", "Q30_Sup_Recognize"]),
    ("Dim_Employee_Engagement", ["Q1_Recommend", "Q9_Proud_Work", "Q22_Motivated_More", "Q23_Job_Sat", "Q25_Excited_Work", "Q28_Stay_2_Years"])
  ]

  /** The prefix a mapped question is matched by: its text up to the first `_`, plus `_`. */
  function MatchPrefix(mapped: string): string
  {
    PyText.BeforeFirst(mapped, '_') + "_"
  }

  function UploadColumn(columns: seq<string>, mapped: string): (r: Option<string>)
    ensures r.Some? ==> r.value in columns && PyText.StartsWith(r.value, MatchPrefix(mapped))
    ensures r.None? <==> forall j :: 0 <= j < |columns| ==> !PyText.StartsWith(columns[j], MatchPrefix(mapped))
  {
    RiskEngineHelpers.FirstColumn(columns, c => PyText.StartsWith(c, MatchPrefix(mapped)))
  }

  /** Questions with different prefixes never share a column: the `_` ends each prefix, so
   *  `Q1_` cannot match a `Q10_` column. */
  lemma UploadColumnsDistinct(columns: seq<string>, q1: string, q2: string)
    requires PyText.BeforeFirst(q1, '_') != PyText.BeforeFirst(q2, '_')
    requires UploadColumn(columns, q1).Some? && UploadColumn(columns, q2).Some?
    ensures UploadColumn(columns, q1) != UploadColumn(columns, q2)
  {
    var c := UploadColumn(columns, q1).value;
    var p1 := PyText.BeforeFirst(q1, '_');
    var p2 := PyText.BeforeFirst(q2, '_');
    FirstSeparator(c, p1);
    if UploadColumn(columns, q2).value == c {
      FirstSeparator(c, p2);
    }
  }

  /** A text that starts with `p_`, where `p` holds no `_`, has its first `_` right after `p`. */
  lemma FirstSeparator(c: string, p: string)
    requires '_' !in p && PyText.StartsWith(c, p + "_")
    ensures PyText.Find(c, '_') == |p|
    ensures c[..|p|] == p
  {
    assert c[..|p| + 1][..|p|] == c[..|p|];
    assert c[|p|] == (p + "_")[|p|];
    FindAt(c, p, '_');
  }

  /** The first `sep` of a text that starts with `p` followed by `sep`, `p` holding none, comes
   *  right after `p`. */
  lemma FindAt(c: string, p: string, sep: char)
    requires sep !in p && |p| < |c| && c[..|p|] == p && c[|p|] == sep
    ensures PyText.Find(c, sep) == |p|
  {
  }

  /** The columns found for a dimension's questions, in question order; a question
   *  without a column is skipped. */
  function Found(columns: seq<string>, mapped: seq<string>): seq<string>
  {
    if mapped == [] then []
    else
      var m := UploadColumn(columns, mapped[|mapped| - 1]);
      Found(columns, mapped[..|mapped| - 1]) + (if m.Some? then [m.value] else [])
  }

  /** Every column found is a column of the frame, at most one per question, and none is
   *  found exactly when no question has a column. */
  lemma {:induction false} FoundColumns(columns: seq<string>, mapped: seq<string>)
    ensures |Found(columns, mapped)| <= |mapped|
    ensures forall c :: c in Found(columns, mapped) ==> c in columns
    ensures Found(columns, mapped) == [] <==> forall i :: 0 <= i < |mapped| ==> UploadColumn(columns, mapped[i]).None?
  {
    if mapped != [] {
      var init := mapped[..|mapped| - 1];
      FoundColumns(columns, init);
      assert forall i :: 0 <= i < |init| ==> init[i] == mapped[i];
    }
  }

  /** The columns found for a dimension, then their row mean, or 0.0 when none is found. */
  function UploadDimensionScore(columns: seq<string>, values: map<string, real>, mapped: seq<string>): Option<real>
  {
    var found := Found(columns, mapped);
    if found == [] then Some(0.0) else Stats.Mean(RiskEngineHelpers.Answers(values, found))
  }

  /** With Likert answers a dimension is on the 1-5 scale, or the 0.0 written when none of its
   *  questions has a column. */
  lemma UploadDimensionOnScale(columns: seq<string>, values: map<string, real>, mapped: seq<string>)
    requires RiskEngineHelpers.LikertRow(values)
    ensures UploadDimensionScore(columns, values, mapped).Some? ==>
      UploadDimensionScore(columns, values, mapped).value == 0.0 ||
      1.0 <= UploadDimensionScore(columns, values, mapped).value <= 5.0
  {
    var found := Found(columns, mapped);
    if found != [] {
      RiskEngineHelpers.AnswersOnScale(values, found);
      Stats.MeanWithin(RiskEngineHelpers.Answers(values, found), 1.0, 5.0);
    }
  }

  function UploadDimensions(columns: seq<string>, values: map<string, real>, table: seq<(string, seq<string>)>): map<string, Option<real>>
  {
    if table == [] then map[]
    else UploadDimensions(columns, values, table[..|table| - 1])[table[|table| - 1].0 :=
      UploadDimensionScore(columns, values, table[|table| - 1].1)]
  }

  /** The columns of `columns` a dimension's questions are matched to. */
  method FindColumns(columns: seq<string>, mapped: seq<string>) returns (available: seq<string>)
    ensures available == Found(columns, mapped)
  {
    available := [];
    var j := 0;
    while j < |mapped|
      invariant 0 <= j <= |mapped|
      invariant available == Found(columns, mapped[..j])
    {
      var m := UploadColumn(columns, mapped[j]);
      if m.Some? {
        available := available + [m.value];
      }
      assert mapped[..j + 1][..j] == mapped[..j];
      j := j + 1;
    }
    assert mapped[..j] == mapped;
  }

  /** The body of the dimension loop: the mean of the answers in the matched columns, or 0.0. */
  method ScoreUploadDimension(columns: seq<string>, values: map<string, real>, mapped: seq<string>)
    returns (score: Option<real>)
    ensures score == UploadDimensionScore(columns, values, mapped)
  {
    var available := FindColumns(columns, mapped);
    if available != [] {
      score := Stats.Mean(RiskEngineHelpers.Answers(values, available));
    } else {
      score := Some(0.0);
    }
  }

  lemma UploadDimensionsStep(columns: seq<string>, values: map<string, real>, table: seq<(string, seq<string>)>, i: nat)
    requires i < |table|
    ensures UploadDimensions(columns, values, table[..i + 1]) ==
      UploadDimensions(columns, values, table[..i])[table[i].0 := UploadDimensionScore(columns, values, table[i].1)]
  {
    assert table[..i + 1][..i] == table[..i];
  }

  /** `calculate_dimensions` on one row: a column per dimension of the table. */
  method CalculateDimensions(columns: seq<string>, values: map<string, real>, table: seq<(string, seq<string>)>)
    returns (dims: map<string, Option<real>>)
    ensures dims == UploadDimensions(columns, values, table)
  {
    dims := map[];
    var i := 0;
    while i < |table|
      invariant 0 <= i <= |table|
      invariant dims == UploadDimensions(columns, values, table[..i])
    {
      var (name, mapped) := table[i];
      var score := ScoreUploadDimension(columns, values, mapped);
      UploadDimensionsStep(columns, values, table, i);
      dims := dims[name := score];
      i := i + 1;
    }
    assert table[..i] == table;
  }

  // ---------------------------------------------------------------- update_employees_from_survey

  /** One row of the processed frame: its cells by column; `row.get(k)` is None for a column the
   *  frame does not have. */
  type Row = map<string, Cell>

  function Get(row: Row, key: string): Cell
  {
    if key in row then row[key] else NoneCell
  }

  /** Python truthiness of a cell: NaN is a float, and a true one. */
  predicate Truthy(c: Cell)
  {
    match c
    case NoneCell => false
    case NaN => true
    case Number(x, _) => x != 0.0
    case Integer(i) => i != 0
    case Text(s) => s != ""
  }

  /** `pd.isna(value)`, which also holds for None. */
  predicate Missing(c: Cell)
  {
    c.NoneCell? || c.NaN?
  }

  /** `safe_string(value)`. */
  function SafeString(c: Cell): (r: string)
    ensures Missing(c) <==> r == "" && !c.Text? && !c.Number?
  {
    match c
    case NoneCell => ""
    case NaN => ""
    case Number(_, text) => text
    case Integer(i) => PyText.IntToString(i)
    case Text(s) => s
  }

  /** `safe_string(row.get("mployee_id") or row.get("employee_id"))`. */
  function EmployeeId(row: Row): string
  {
    var first := Get(row, "mployee_id");
    SafeString(if Truthy(first) then first else Get(row, "employee_id"))
  }

  /** The `or` takes the second column only when the first is falsy, so a NaN in the first
   *  column hides a usable second one and the row is skipped. */
  lemma EmployeeIdChoice(row: Row)
    ensures Truthy(Get(row, "mployee_id")) ==> EmployeeId(row) == SafeString(Get(row, "mployee_id"))
    ensures !Truthy(Get(row, "mployee_id")) ==> EmployeeId(row) == SafeString(Get(row, "employee_id"))
    ensures Get(row, "mployee_id").NaN? ==> EmployeeId(row) == ""
    ensures Get(row, "mployee_id").Text? && Get(row, "mployee_id").s != "" ==> EmployeeId(row) == Get(row, "mployee_id").s
  {
  }

  /** The value `update_item` is given for an entry of the metrics map: the timestamp as it is,
   *  anything else through `safe_decimal`. */
  function EntryValue(key: string, c: Cell): DbSync.UpdateValue
  {
    if key == "metrics_updated_at" && c.Text? then DbSync.Text(c.s)
    else match SafeDecimal(c, true) case None => DbSync.Null case Some(d) => DbSync.Num(d)
  }

  /** `metrics_map`: the three rates, the timestamp, then the dimensions the row has. */
  function MetricsMap(row: Row, timestamp: string): seq<(string, Cell)>
  {
    RateEntries(row, timestamp) + DimensionEntries(row, UploadDimensionTable)
  }

  function RateEntries(row: Row, timestamp: string): seq<(string, Cell)>
  {
    [("engagement_rate", Get(row, "engagement_rate")),
     ("attrition_rate", Get(row, "attrition_rate")),
     ("stress_rate", Get(row, "burnout_rate")),
     ("metrics_updated_at", Text(timestamp))]
  }

  function DimensionEntries(row: Row, table: seq<(string, seq<string>)>): seq<(string, Cell)>
  {
    if table == [] then []
    else
      var name := table[|table| - 1].0;
      DimensionEntries(row, table[..|table| - 1]) + (if name in row then [(name, row[name])] else [])
  }

  /** The keys of the entries that are written: those whose value is neither None nor NaN. */
  function Written(entries: seq<(string, Cell)>): seq<string>
  {
    if entries == [] then []
    else
      var (key, c) := entries[|entries| - 1];
      Written(entries[..|entries| - 1]) + (if Missing(c) then [] else [key])
  }

  lemma {:induction false} WrittenSplit(a: seq<(string, Cell)>, b: seq<(string, Cell)>)
    ensures Written(a + b) == Written(a) + Written(b)
  {
    if b != [] {
      assert (a + b)[..|a + b| - 1] == a + b[..|b| - 1];
      WrittenSplit(a, b[..|b| - 1]);
    } else {
      assert a + b == a;
    }
  }

  /** The update the loop over the metrics map builds. */
  function EntriesUpdate(entries: seq<(string, Cell)>): DbSync.Update
  {
    if entries == [] then DbSync.NoUpdate
    else
      var u := EntriesUpdate(entries[..|entries| - 1]);
      var (key, c) := entries[|entries| - 1];
      if Missing(c) then u else u.Set(key, key, EntryValue(key, c))
  }

  /** The update of one employee row. */
  function EmployeeUpdate(row: Row, timestamp: string): DbSync.Update
  {
    EntriesUpdate(MetricsMap(row, timestamp))
  }

  /** One `#key = :key` part per written entry, and a name for exactly the written keys, each
   *  naming itself. */
  lemma {:induction false} EntriesUpdateNames(entries: seq<(string, Cell)>)
    ensures |EntriesUpdate(entries).parts| == |Written(entries)|
    ensures forall k :: DbSync.Alias('#', k) in EntriesUpdate(entries).names <==> k in Written(entries)
    ensures forall k :: DbSync.Alias('#', k) in EntriesUpdate(entries).names ==> EntriesUpdate(entries).names[DbSync.Alias('#', k)] == k
  {
    if entries != [] {
      var init := entries[..|entries| - 1];
      EntriesUpdateNames(init);
      var (key, c) := entries[|entries| - 1];
      forall k ensures DbSync.Alias('#', k) == DbSync.Alias('#', key) <==> k == key {
        assert DbSync.Alias('#', k)[1..] == k;
      }
    }
  }

  /** The value bound to a written key is that of its last entry. */
  lemma {:induction false} EntriesUpdateValue(entries: seq<(string, Cell)>, i: nat)
    requires i < |entries| && !Missing(entries[i].1)
    requires forall j :: i < j < |entries| ==> entries[j].0 != entries[i].0
    ensures DbSync.Alias(':', entries[i].0) in EntriesUpdate(entries).values
    ensures EntriesUpdate(entries).values[DbSync.Alias(':', entries[i].0)] == EntryValue(entries[i].0, entries[i].1)
  {
    var init := entries[..|entries| - 1];
    var (key, c) := entries[|entries| - 1];
    if i < |entries| - 1 {
      EntriesUpdateValue(init, i);
      assert DbSync.Alias(':', key) != DbSync.Alias(':', entries[i].0) by {
        assert DbSync.Alias(':', key)[1..] == key;
      }
    }
  }

  /** The dimension entries are the row's own cells, under names that all start with a `D`
   *  when the table's do. */
  lemma {:induction false} DimensionEntriesKeys(row: Row, table: seq<(string, seq<string>)>)
    requires forall i :: 0 <= i < |table| ==> |table[i].0| > 0 && table[i].0[0] == 'D'
    ensures forall e :: e in DimensionEntries(row, table) ==> e.0 in row && e.1 == row[e.0] && |e.0| > 0 && e.0[0] == 'D'
  {
    if table != [] {
      DimensionEntriesKeys(row, table[..|table| - 1]);
    }
  }

  lemma UploadDimensionNames()
    ensures forall i :: 0 <= i < |UploadDimensionTable| ==> |UploadDimensionTable[i].0| > 0 && UploadDimensionTable[i].0[0] == 'D'
  {
  }

  /** An employee update always sets `metrics_updated_at` to the timestamp and sets `stress_rate`
   *  exactly when the row has a `burnout_rate` value, to that value; so no identified row goes
   *  without an update. */
  lemma EmployeeUpdateContents(row: Row, timestamp: string)
    ensures "metrics_updated_at" in Written(MetricsMap(row, timestamp))
    ensures EmployeeUpdate(row, timestamp).parts != []
    ensures DbSync.Alias(':', "metrics_updated_at") in EmployeeUpdate(row, timestamp).values
    ensures EmployeeUpdate(row, timestamp).values[DbSync.Alias(':', "metrics_updated_at")] == DbSync.Text(timestamp)
    ensures "stress_rate" in Written(MetricsMap(row, timestamp)) <==> !Missing(Get(row, "burnout_rate"))
    ensures !Missing(Get(row, "burnout_rate")) ==>
      DbSync.Alias(':', "stress_rate") in EmployeeUpdate(row, timestamp).values &&
      EmployeeUpdate(row, timestamp).values[DbSync.Alias(':', "stress_rate")] == EntryValue("stress_rate", Get(row, "burnout_rate"))
  {
    UploadDimensionNames();
    var dims := DimensionEntries(row, UploadDimensionTable);
    DimensionEntriesKeys(row, UploadDimensionTable);
    assert FixedNames("stress_rate", "metrics_updated_at") by {
      assert "stress_rate"[0] == 's' && "metrics_updated_at"[0] == 'm';
    }
    RateEntriesThenOthers(RateEntries(row, timestamp), dims, "stress_rate", "metrics_updated_at");
    assert EntryValue("metrics_updated_at", Text(timestamp)) == DbSync.Text(timestamp);
  }

  /** The fixed entries followed by entries whose names start with `D`: the timestamp is
   *  always written, `stress_rate` exactly when its cell has a value, and each to its own
   *  value (`stress` and `stamp` stand for the two names). */
  lemma RateEntriesThenOthers(rates: seq<(string, Cell)>, dims: seq<(string, Cell)>, stress: string, stamp: string)
    requires FixedNames(stress, stamp)
    requires RateShape(rates, stress, stamp)
    requires forall e :: e in dims ==> |e.0| > 0 && e.0[0] == 'D'
    ensures stamp in Written(rates + dims)
    ensures EntriesUpdate(rates + dims).parts != []
    ensures DbSync.Alias(':', stamp) in EntriesUpdate(rates + dims).values
    ensures EntriesUpdate(rates + dims).values[DbSync.Alias(':', stamp)] == EntryValue(stamp, rates[3].1)
    ensures stress in Written(rates + dims) <==> !Missing(rates[2].1)
    ensures !Missing(rates[2].1) ==>
      DbSync.Alias(':', stress) in EntriesUpdate(rates + dims).values &&
      EntriesUpdate(rates + dims).values[DbSync.Alias(':', stress)] == EntryValue(stress, rates[2].1)
  {
    WrittenOfDims(rates, dims, stress, stamp);
    var es := rates + dims;
    EntriesUpdateNames(es);
    forall j | 4 <= j < |es| ensures es[j].0 != stress && es[j].0 != stamp {
      assert es[j] in dims;
    }
    assert es[2] == rates[2] && es[3] == rates[3];
    assert forall j :: 3 < j < |es| ==> es[j].0 != es[3].0;
    EntriesUpdateValue(es, 3);
    if !Missing(rates[2].1) {
      assert forall j :: 2 < j < |es| ==> es[j].0 != es[2].0;
      EntriesUpdateValue(es, 2);
    }
  }

  /** Two different names, neither starting with `D`. */
  predicate FixedNames(stress: string, stamp: string)
  {
    |stress| > 0 && stress[0] != 'D' && |stamp| > 0 && stamp[0] != 'D' && stress != stamp
  }

  /** The four rate entries: `stress` third, `stamp` last with a text value. */
  predicate RateShape(rates: seq<(string, Cell)>, stress: string, stamp: string)
  {
    |rates| == 4 && rates[2].0 == stress && rates[3].0 == stamp && rates[3].1.Text?
    && rates[0].0 != stress && rates[1].0 != stress
  }

  lemma WrittenOfDims(rates: seq<(string, Cell)>, dims: seq<(string, Cell)>, stress: string, stamp: string)
    requires FixedNames(stress, stamp)
    requires RateShape(rates, stress, stamp)
    requires forall e :: e in dims ==> |e.0| > 0 && e.0[0] == 'D'
    ensures stamp in Written(rates + dims)
    ensures stress in Written(rates + dims) <==> !Missing(rates[2].1)
  {
    WrittenSplit(rates, dims);
    WrittenOfRates(rates, stress, stamp);
    WrittenKeys(dims);
  }

  lemma WrittenOfRates(rates: seq<(string, Cell)>, stress: string, stamp: string)
    requires FixedNames(stress, stamp)
    requires RateShape(rates, stress, stamp)
    ensures stamp in Written(rates)
    ensures stress in Written(rates) <==> !Missing(rates[2].1)
  {
    var w := seq(4, i requires 0 <= i < 4 => if Missing(rates[i].1) then [] else [rates[i].0]);
    assert Written(rates[..1]) == w[0] by { assert rates[..1][..0] == []; }
    assert Written(rates[..2]) == w[0] + w[1] by { assert rates[..2][..1] == rates[..1]; }
    assert Written(rates[..3]) == w[0] + w[1] + w[2] by { assert rates[..3][..2] == rates[..2]; }
    assert Written(rates) == w[0] + w[1] + w[2] + w[3] by { assert rates[..3] == rates[..|rates| - 1]; }
  }

  /** Every written key is the key of an entry. */
  lemma {:induction false} WrittenKeys(entries: seq<(string, Cell)>)
    ensures forall k :: k in Written(entries) ==> exists e :: e in entries && e.0 == k
  {
    if entries != [] {
      WrittenKeys(entries[..|entries| - 1]);
      assert entries[|entries| - 1] in entries;
    }
  }

  /** The loop over `metrics_map` building one employee's update. */
  method BuildEmployeeUpdate(row: Row, timestamp: string) returns (u: DbSync.Update)
    ensures u == EmployeeUpdate(row, timestamp)
  {
    var entries := MetricsMap(row, timestamp);
    u := DbSync.NoUpdate;
    var i := 0;
    while i < |entries|
      invariant 0 <= i <= |entries|
      invariant u == EntriesUpdate(entries[..i])
    {
      var (key, val) := entries[i];
      if !Missing(val) {
        u := u.Set(key, key, EntryValue(key, val));
      }
      assert entries[..i + 1][..i] == entries[..i];
      i := i + 1;
    }
    assert entries[..i] == entries;
  }

  /** The `update_item` calls `update_employees_from_survey` makes, keyed by employee id: one
   *  per row with an id, in row order. */
  function EmployeeUpdates(rows: seq<Row>, timestamp: string): (r: seq<(string, DbSync.Update)>)
    ensures |r| <= |rows|
    ensures (forall i :: 0 <= i < |rows| ==> EmployeeId(rows[i]) != "") ==> |r| == |rows|
  {
    if rows == [] then []
    else
      var row := rows[|rows| - 1];
      EmployeeUpdates(rows[..|rows| - 1], timestamp)
        + (if EmployeeId(row) == "" then [] else [(EmployeeId(row), EmployeeUpdate(row, timestamp))])
  }

  /** Every call is for a non-empty id and sets at least the timestamp, and every row with an
   *  id gets one. */
  lemma {:induction false} EmployeeUpdatesCover(rows: seq<Row>, timestamp: string)
    ensures forall c :: c in EmployeeUpdates(rows, timestamp) ==> c.0 != "" && c.1.parts != []
    ensures |EmployeeUpdates(rows, timestamp)| == |IdentifiedRows(rows)|
  {
    if rows != [] {
      EmployeeUpdatesCover(rows[..|rows| - 1], timestamp);
      EmployeeUpdateContents(rows[|rows| - 1], timestamp);
    }
  }

  /** The rows with a usable employee id. */
  function IdentifiedRows(rows: seq<Row>): seq<Row>
  {
    if rows == [] then []
    else IdentifiedRows(rows[..|rows| - 1]) + (if EmployeeId(rows[|rows| - 1]) == "" then [] else [rows[|rows| - 1]])
  }

  /** One more row adds its call, if it has an id. */
  lemma EmployeeUpdatesStep(rows: seq<Row>, i: nat, timestamp: string)
    requires i < |rows|
    ensures EmployeeUpdates(rows[..i + 1], timestamp) == EmployeeUpdates(rows[..i], timestamp)
      + (if EmployeeId(rows[i]) == "" then [] else [(EmployeeId(rows[i]), EmployeeUpdate(rows[i], timestamp))])
  {
    assert rows[..i + 1][..i] == rows[..i];
  }

  method UpdateEmployeesFromSurvey(rows: seq<Row>, timestamp: string) returns (calls: seq<(string, DbSync.Update)>)
    ensures calls == EmployeeUpdates(rows, timestamp)
  {
    calls := [];
    var i := 0;
    while i < |rows|
      invariant 0 <= i <= |rows|
      invariant calls == EmployeeUpdates(rows[..i], timestamp)
    {
      var id := EmployeeId(rows[i]);
      EmployeeUpdatesStep(rows, i, timestamp);
      if id != "" {
        var u := BuildEmployeeUpdate(rows[i], timestamp);
        calls := calls + [(id, u)];
      }
      i := i + 1;
    }
    assert rows[..i] == rows;
  }

  // ---------------------------------------------------------------- upload_tasks

  datatype TaskStatus = Pending | Processing | Completed | Failed

  /** The `result` of a completed task, without its `sample_data`. */
  datatype UploadResult = UploadResult(filename: string, totalRowsProcessed: nat, totalRowsSaved: nat)

  datatype Task = Task(status: TaskStatus, message: string, result: Option<UploadResult>)

  const InvalidFileType := "Invalid file type. Only CSV files are accepted."
  const StartMessage := "File uploaded, starting processing..."
  const ReadingMessage := "Reading file and initializing NLP pipeline..."
  const DoneMessage := "Processing complete!"
  const TaskNotFound := "Task not found"

  /** The reply of a started upload. */
  datatype Started = Started(taskId: string, message: string)

  /** The rows the save loop stored: those whose `add_to_dynamodb` did not raise. */
  function SavedCount(saveRaised: seq<bool>): (r: nat)
    ensures r <= |saveRaised|
  {
    if saveRaised == [] then 0
    else SavedCount(saveRaised[..|saveRaised| - 1]) + (if saveRaised[|saveRaised| - 1] then 0 else 1)
  }

  /** Where a task ends once `process_file_background` has run: completed with a result, or
   *  failed with the exception's text and the result it had. */
  function ProcessedTask(task: Task, filename: string, saveRaised: seq<bool>, failure: Option<string>): (r: Task)
    ensures failure.Some? ==> r.status == Failed && r.result == task.result
    ensures failure.None? ==>
      r.status == Completed && r.result.Some? && r.result.value.filename == filename
      && r.result.value.totalRowsProcessed == |saveRaised|
  {
    match failure
    case Some(e) => Task(Failed, "Error: " + e, task.result)
    case None => Task(Completed, DoneMessage, Some(UploadResult(filename, |saveRaised|, SavedCount(saveRaised))))
  }

  /** A processed task is finished: completed with saved rows no more than processed rows, or
   *  failed with an `Error: ` message. */
  lemma ProcessedTaskFinished(task: Task, filename: string, saveRaised: seq<bool>, failure: Option<string>)
    ensures ProcessedTask(task, filename, saveRaised, failure).status in {Completed, Failed}
    ensures ProcessedTask(task, filename, saveRaised, failure).status == Completed <==> failure.None?
    ensures failure.None? ==>
      ProcessedTask(task, filename, saveRaised, failure).result.Some? &&
      ProcessedTask(task, filename, saveRaised, failure).result.value.totalRowsSaved <=
      ProcessedTask(task, filename, saveRaised, failure).result.value.totalRowsProcessed
    ensures failure.Some? ==> PyText.StartsWith(ProcessedTask(task, filename, saveRaised, failure).message, "Error: ")
  {
    if failure.Some? {
      var m := "Error: " + failure.value;
      assert m[..|"Error: "|] == "Error: ";
    }
  }

  /** Every row is saved when no save raises. */
  lemma {:induction false} AllSaved(saveRaised: seq<bool>)
    requires forall i :: 0 <= i < |saveRaised| ==> !saveRaised[i]
    ensures SavedCount(saveRaised) == |saveRaised|
  {
    if saveRaised != [] {
      AllSaved(saveRaised[..|saveRaised| - 1]);
    }
  }

  /** The invariant the registry keeps: a pending task has no result yet, a completed one has
   *  one whose saved rows are no more than its processed rows, and a failed one says why. */
  predicate WellFormed(task: Task)
  {
    && (task.status == Pending ==> task.result.None?)
    && (task.status == Completed ==> task.result.Some? && task.result.value.totalRowsSaved <= task.result.value.totalRowsProcessed)
    && (task.status == Failed ==> PyText.StartsWith(task.message, "Error: "))
  }

  /** `upload_tasks` and the three operations on it. */
  class UploadTasks {
    var tasks: map<string, Task>

    predicate Valid()
      reads this
    {
      forall id :: id in tasks ==> WellFormed(tasks[id])
    }

    constructor ()
      ensures tasks == map[] && Valid()
    {
      tasks := map[];
    }

    /** `upload_csv`: the id is the new uuid and `copyError` the text of an exception raised while
     *  the file is saved, if one is. */
    method UploadCsv(filename: string, taskId: string, copyError: Option<string>) returns (r: Result<Started>)
      requires Valid()
      modifies this
      ensures Valid()
      ensures !PyText.EndsWith(filename, ".csv") ==> r == Err(HttpError(400, InvalidFileType)) && tasks == old(tasks)
      ensures PyText.EndsWith(filename, ".csv") && copyError.Some? ==>
        r == Err(HttpError(500, copyError.value)) && tasks == old(tasks)
      ensures PyText.EndsWith(filename, ".csv") && copyError.None? ==>
        r == Ok(Started(taskId, "Upload started. Check status with /status/{task_id}")) &&
        tasks == old(tasks)[taskId := Task(Pending, StartMessage, None)]
    {
      if !PyText.EndsWith(filename, ".csv") {
        return Err(HttpError(400, InvalidFileType));
      }
      if copyError.Some? {
        return Err(HttpError(500, copyError.value));
      }
      tasks := tasks[taskId := Task(Pending, StartMessage, None)];
      r := Ok(Started(taskId, "Upload started. Check status with /status/{task_id}"));
    }

    /** `process_file_background`: `saveRaised` says, row by row, whether storing the row raised,
     *  and `failure` is the text of an exception that ends the processing, if one does. A task
     *  id the registry does not hold makes the first write raise again inside the handler, so
     *  nothing changes. */
    method ProcessFileBackground(taskId: string, filename: string, saveRaised: seq<bool>, failure: Option<string>)
      requires Valid()
      modifies this
      ensures Valid()
      ensures taskId !in old(tasks) ==> tasks == old(tasks)
      ensures taskId in old(tasks) ==>
        tasks == old(tasks)[taskId := ProcessedTask(old(tasks)[taskId], filename, saveRaised, failure)]
    {
      if taskId !in tasks {
        return;
      }
      var task := tasks[taskId];
      tasks := tasks[taskId := task.(status := Processing, message := ReadingMessage)];
      match failure {
        case Some(e) =>
          tasks := tasks[taskId := tasks[taskId].(status := Failed, message := "Error: " + e)];
          ProcessedTaskFinished(task, filename, saveRaised, failure);
        case None =>
          var saved := 0;
          var i := 0;
          while i < |saveRaised|
            invariant 0 <= i <= |saveRaised|
            invariant saved == SavedCount(saveRaised[..i])
          {
            if !saveRaised[i] {
              saved := saved + 1;
            }
            assert saveRaised[..i + 1][..i] == saveRaised[..i];
            i := i + 1;
          }
          assert saveRaised[..i] == saveRaised;
          var result := UploadResult(filename, |saveRaised|, saved);
          tasks := tasks[taskId := Task(Completed, DoneMessage, Some(result))];
      }
    }

    /** `get_upload_status`. */
    method GetUploadStatus(taskId: string) returns (r: Result<Task>)
      ensures taskId in tasks ==> r == Ok(tasks[taskId])
      ensures taskId !in tasks ==> r == Err(HttpError(404, TaskNotFound))
    {
      if taskId !in tasks {
        return Err(HttpError(404, TaskNotFound));
      }
      return Ok(tasks[taskId]);
    }
  }
}
