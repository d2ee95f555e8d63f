/** `calculate_row_metrics` and `calculate_survey_metrics`: the per-submission dimension
 *  scores, the stress, engagement and attrition rates derived from them, and the temporal
 *  fields of a submission. One row of the frame is a map from column name to its numeric
 *  answer (a column missing from the map is NaN in that row). */
module RiskEngineHelpers {
  import opened Wrappers
  import PyText
  import Stats
  import Calendar
  import Quarter
  import SeasonDetect

  // ---------------------------------------------------------------- rates

  function Clip(x: real, lo: real, hi: real): (r: real)
    requires lo <= hi
    ensures lo <= r <= hi
    ensures lo <= x <= hi ==> r == x
  {
    if x < lo then lo else if x > hi then hi else x
  }

  /** `((score - 1) / 4 * 100).clip(0, 100)`: a 1-5 Likert score as a percentage. */
  function LikertPercent(score: real): (r: real)
    ensures 0.0 <= r <= 100.0
  {
    Clip((score - 1.0) / 4.0 * 100.0, 0.0, 100.0)
  }

  /** The inverted rate of two scores: `6 - (a + b) / 2` as a percentage. Stress uses
   *  Enablement and Culture, attrition the answers to Q1 and Q12. */
  function InverseRate(a: real, b: real): (r: real)
    ensures 0.0 <= r <= 100.0
  {
    LikertPercent(6.0 - (a + b) / 2.0)
  }

  /** On the 1-5 scale the percentage is linear: 1 is 0%, 3 is 50%, 5 is 100%. */
  lemma LikertPercentLinear(score: real)
    ensures 1.0 <= score <= 5.0 ==> LikertPercent(score) == (score - 1.0) * 25.0
    ensures score <= 1.0 ==> LikertPercent(score) == 0.0
    ensures score >= 5.0 ==> LikertPercent(score) == 100.0
  {
  }

  lemma LikertPercentMonotone(x: real, y: real)
    requires x <= y
    ensures LikertPercent(x) <= LikertPercent(y)
  {
  }

  /** For scores on the scale, an inverted rate is the complement of the percentage of
   *  their mean: the better the supporting scores, the lower the risk. */
  lemma InverseRateComplement(a: real, b: real)
    requires 1.0 <= a <= 5.0 && 1.0 <= b <= 5.0
    ensures InverseRate(a, b) == 100.0 - LikertPercent((a + b) / 2.0)
  {
    LikertPercentLinear((a + b) / 2.0);
    LikertPercentLinear(6.0 - (a + b) / 2.0);
  }

  lemma InverseRateAntitone(a1: real, b1: real, a2: real, b2: real)
    requires a1 + b1 <= a2 + b2
    ensures InverseRate(a2, b2) <= InverseRate(a1, b1)
  {
    LikertPercentMonotone(6.0 - (a2 + b2) / 2.0, 6.0 - (a1 + b1) / 2.0);
  }

  /** `np.select([rate >= 75, rate >= 50], ['High', 'Medium'], default='Low')`; a NaN rate
   *  fails both comparisons and is labelled Low. */
  function TurnoverLabel(rate: Option<real>): (r: string)
    ensures r == "High" <==> rate.Some? && rate.value >= 75.0
    ensures r == "Medium" <==> rate.Some? && 50.0 <= rate.value < 75.0
    ensures r == "Low" <==> rate.None? || rate.value < 50.0
  {
    if rate.Some? && rate.value >= 75.0 then "High"
    else if rate.Some? && rate.value >= 50.0 then "Medium"
    else "Low"
  }

  /** In terms of the two answers (1-5) behind the attrition rate: High when they add up to
   *  at most 4, Medium up to 6, Low above. */
  lemma TurnoverLabelOfAnswers(q1: real, q12: real)
    requires 1.0 <= q1 <= 5.0 && 1.0 <= q12 <= 5.0
    ensures TurnoverLabel(Some(InverseRate(q1, q12))) == "High" <==> q1 + q12 <= 4.0
    ensures TurnoverLabel(Some(InverseRate(q1, q12))) == "Medium" <==> 4.0 < q1 + q12 <= 6.0
    ensures TurnoverLabel(Some(InverseRate(q1, q12))) == "Low" <==> q1 + q12 > 6.0
  {
    LikertPercentLinear(6.0 - (q1 + q12) / 2.0);
  }

  // ---------------------------------------------------------------- columns

  /** `[c for c in columns if p(c)][0]` as an index, None where the list would be empty. */
  function FirstMatch(columns: seq<string>, p: string -> bool): (r: Option<nat>)
    ensures r.Some? ==> r.value < |columns| && p(columns[r.value])
    ensures r.Some? ==> forall j :: 0 <= j < r.value ==> !p(columns[j])
    ensures r.None? ==> forall j :: 0 <= j < |columns| ==> !p(columns[j])
  {
    if columns == [] then None
    else if p(columns[0]) then Some(0)
    else
      match FirstMatch(columns[1..], p)
      case None => None
      case Some(k) => Some(k + 1)
  }

  function FirstColumn(columns: seq<string>, p: string -> bool): (r: Option<string>)
    ensures r.Some? ==> r.value in columns && p(r.value)
    ensures r.None? <==> forall j :: 0 <= j < |columns| ==> !p(columns[j])
  {
    match FirstMatch(columns, p)
    case None => None
    case Some(k) => Some(columns[k])
  }

  function QuestionName(n: nat): string
  {
    "Q" + PyText.NatToString(n)
  }

  /** The column of question `n`: `Q{n}` itself or a name starting with `Q{n}_`. */
  predicate IsQuestionColumn(c: string, n: nat)
  {
    PyText.StartsWith(c, QuestionName(n) + "_") || c == QuestionName(n)
  }

  /** `get_col(q_num)` of `calculate_row_metrics`. */
  function GetCol(columns: seq<string>, n: nat): (r: Option<string>)
    ensures r.Some? ==> r.value in columns && IsQuestionColumn(r.value, n)
    ensures r.None? <==> forall j :: 0 <= j < |columns| ==> !IsQuestionColumn(columns[j], n)
  {
    FirstColumn(columns, c => IsQuestionColumn(c, n))
  }

  /** A column belongs to one question at most: the digits after `Q` end at `_` or at the
   *  end of the name, so `Q1` never claims `Q12_Career_Opp`. */
  lemma QuestionColumnUnique(c: string, n: nat, m: nat)
    requires IsQuestionColumn(c, n) && IsQuestionColumn(c, m)
    ensures n == m
  {
    var dn := PyText.NatToString(n);
    var dm := PyText.NatToString(m);
    QuestionDigits(c, n);
    QuestionDigits(c, m);
    assert |dn| == |dm|;
    assert dn == dm;
    PyText.NatToStringInjective(n, m);
  }

  /** A column of question `n` is `Q`, the digits of `n`, then `_` or nothing. */
  lemma QuestionDigits(c: string, n: nat)
    requires IsQuestionColumn(c, n)
    ensures var d := PyText.NatToString(n);
      1 + |d| <= |c| && (forall k :: 0 <= k < |d| ==> c[k + 1] == d[k])
      && (forall k :: 1 <= k < 1 + |d| ==> '0' <= c[k] <= '9')
      && (|c| == 1 + |d| || c[1 + |d|] == '_')
  {
    var d := PyText.NatToString(n);
    var q := QuestionName(n);
    assert |q| == 1 + |d| && forall k :: 0 <= k < |d| ==> q[k + 1] == d[k];
    if c != q {
      var p := q + "_";
      assert c[..|p|] == p;
      assert forall k :: 0 <= k < |q| ==> c[k] == p[k] == q[k];
      assert c[|q|] == p[|q|];
    }
  }

  /** Different questions never share a column. */
  lemma GetColDistinct(columns: seq<string>, n: nat, m: nat)
    requires n != m && GetCol(columns, n).Some?
    ensures !IsQuestionColumn(GetCol(columns, n).value, m)
    ensures GetCol(columns, m) != GetCol(columns, n)
  {
    if IsQuestionColumn(GetCol(columns, n).value, m) {
      QuestionColumnUnique(GetCol(columns, n).value, n, m);
    }
  }

  /** `q in c or c.startswith(q.split('_')[0])`: the loose match of `calculate_survey_metrics`. */
  predicate LooseMatch(c: string, q: string)
  {
    PyText.Contains(c, q) || PyText.StartsWith(c, PyText.BeforeFirst(q, '_'))
  }

  function LooseColumn(columns: seq<string>, q: string): (r: Option<string>)
    ensures r.Some? ==> r.value in columns && LooseMatch(r.value, q)
    ensures r.None? <==> forall j :: 0 <= j < |columns| ==> !LooseMatch(columns[j], q)
  {
    FirstColumn(columns, c => LooseMatch(c, q))
  }

  /** The loose match takes the first column sharing the question's prefix, so a column
   *  `Q10_Sup_Informed` ahead of `Q1_Recommend` stands in for Q1. */
  lemma LooseMatchTakesPrefix(c: string, q: string, rest: seq<string>)
    requires |q| > 2 && q[0] != '_' && q[1] != '_' && q[2] == '_'
    requires PyText.StartsWith(c, q[..2])
    ensures LooseColumn([c] + rest, q) == Some(c)
  {
    TwoCharacterPrefix(q);
    assert LooseMatch(c, q);
    LooseColumnFirst([c] + rest, q);
  }

  lemma LooseColumnFirst(columns: seq<string>, q: string)
    requires |columns| > 0 && LooseMatch(columns[0], q)
    ensures LooseColumn(columns, q) == Some(columns[0])
  {
  }

  lemma TwoCharacterPrefix(q: string)
    requires |q| > 2 && q[0] != '_' && q[1] != '_' && q[2] == '_'
    ensures PyText.BeforeFirst(q, '_') == q[..2]
  {
    assert PyText.Find(q, '_') == 2;
  }

  /** The row metrics' lookup is not fooled by the same columns. */
  lemma GetColTakesOwnQuestion()
    ensures GetCol(["Q10_Sup_Informed", "Q1_Recommend"], 1) == Some("Q1_Recommend")
  {
    var columns := ["Q10_Sup_Informed", "Q1_Recommend"];
    assert QuestionName(1) == "Q1";
    assert IsQuestionColumn(columns[1], 1) by {
      assert columns[1][..3] == "Q1_";
    }
    assert !IsQuestionColumn(columns[0], 1) by {
      assert columns[0][2] == '0';
    }
    assert FirstMatch(columns[1..], c => IsQuestionColumn(c, 1)) == Some(0);
  }

  /** `pandas.DataFrame.rename` of `mployee_id` and then `Employee_ID` to `employee_id`. */
  function RenameColumns(columns: seq<string>): (r: seq<string>)
    ensures |r| == |columns|
  {
    seq(|columns|, i requires 0 <= i < |columns| =>
      if columns[i] == "mployee_id" || columns[i] == "Employee_ID" then "employee_id" else columns[i])
  }

  /** After the rename neither spelling is left, `employee_id` is there exactly when one of the
   *  three spellings was, and every other column keeps its name and place. */
  lemma RenameColumnsNormalises(columns: seq<string>)
    ensures "mployee_id" !in RenameColumns(columns) && "Employee_ID" !in RenameColumns(columns)
    ensures "employee_id" in RenameColumns(columns) <==>
      ("employee_id" in columns || "mployee_id" in columns || "Employee_ID" in columns)
    ensures forall i :: 0 <= i < |columns| && columns[i] != "mployee_id" && columns[i] != "Employee_ID" ==>
      RenameColumns(columns)[i] == columns[i]
  {
    var r := RenameColumns(columns);
    if "employee_id" in columns || "mployee_id" in columns || "Employee_ID" in columns {
      var i :| 0 <= i < |columns| && columns[i] in {"employee_id", "mployee_id", "Employee_ID"};
      assert r[i] == "employee_id";
    }
  }

  // ---------------------------------------------------------------- dimensions

  /** A dimension: the question numbers `calculate_row_metrics` averages and the column names
   *  `calculate_survey_metrics` looks for. */
  datatype Dimension = Dimension(name: string, questions: seq<nat>, surveyColumns: seq<string>)

  const DimensionTable: seq<Dimension> := [
    Dimension("Dim_Employee_Engagement", [1, 9], ["Q1_Recommend", "Q9_Proud_Work"]),
    Dimension("Dim_Leadership", [2, 10], ["Q2_Sup_Feedback", "Q10_Sup_Informed"]),
    Dimension("Dim_Enablement", [3, 11], ["Q3_Enablement_Tools", "Q11_Systems_Process"]),
    Dimension("Dim_Development", [4, 12], ["Q4_Sup_Career_Interest", "Q12_Career_Opp"]),
    Dimension("Dim_Delight_Customer", [5, 13], ["Q5_Quality_Services", "Q13_Great_Service"]),
    Dimension("Dim_Company_Confidence", [6, 14], ["Q6_Trust_Top_Mgmt", "Q14_Future_Success"]),
    Dimension("Dim_Culture_Values", [7, 15], ["Q7_Diversity_Inclusion", "Q15_Respect"]),
    Dimension("Dim_ESG", [8], ["Q8_ESG_Community"])
  ]

  /** Which of the two functions computes the scores. */
  datatype Calculation = RowMetrics | SurveyMetrics

  function Present(cols: seq<Option<string>>): (r: seq<string>)
    ensures |r| <= |cols|
    ensures forall c :: c in r <==> Some(c) in cols
  {
    if cols == [] then [] else (if cols[0].Some? then [cols[0].value] else []) + Present(cols[1..])
  }

  /** The columns a dimension averages: the question columns found, in question order. */
  function DimensionColumns(kind: Calculation, columns: seq<string>, d: Dimension): seq<string>
  {
    match kind
    case RowMetrics => Present(seq(|d.questions|, i requires 0 <= i < |d.questions| => GetCol(columns, d.questions[i])))
    case SurveyMetrics =>
      Present(seq(|d.surveyColumns|, i requires 0 <= i < |d.surveyColumns| => LooseColumn(columns, d.surveyColumns[i])))
  }

  /** The non-NaN answers of a row in the given columns. */
  function Answers(values: map<string, real>, cols: seq<string>): (r: seq<real>)
    ensures |r| <= |cols|
    ensures r == [] <==> forall j :: 0 <= j < |cols| ==> cols[j] !in values
  {
    if cols == [] then []
    else (if cols[0] in values then [values[cols[0]]] else []) + Answers(values, cols[1..])
  }

  /** `data[cols].mean(axis=1)` when some column was found; otherwise the row metrics leave
   *  the dimension NaN and the survey metrics set it to 0.0. */
  function DimensionScore(kind: Calculation, columns: seq<string>, values: map<string, real>, d: Dimension): Option<real>
  {
    var cols := DimensionColumns(kind, columns, d);
    if cols == [] then (if kind == RowMetrics then None else Some(0.0))
    else Stats.Mean(Answers(values, cols))
  }

  /** A row whose answers are all on the 1-5 scale. */
  predicate LikertRow(values: map<string, real>)
  {
    forall c :: c in values ==> 1.0 <= values[c] <= 5.0
  }

  lemma {:induction false} AnswersOnScale(values: map<string, real>, cols: seq<string>)
    requires LikertRow(values)
    ensures forall i :: 0 <= i < |Answers(values, cols)| ==> 1.0 <= Answers(values, cols)[i] <= 5.0
  {
    if cols != [] {
      AnswersOnScale(values, cols[1..]);
    }
  }

  /** A dimension score of Likert answers is on the same scale; the one exception is the
   *  0.0 the survey metrics write for a dimension without any column. */
  lemma DimensionScoreOnScale(kind: Calculation, columns: seq<string>, values: map<string, real>, d: Dimension)
    requires LikertRow(values)
    ensures DimensionScore(kind, columns, values, d).Some? ==>
      1.0 <= DimensionScore(kind, columns, values, d).value <= 5.0 ||
      (kind == SurveyMetrics && DimensionColumns(kind, columns, d) == [] &&
       DimensionScore(kind, columns, values, d).value == 0.0)
  {
    var cols := DimensionColumns(kind, columns, d);
    if cols != [] {
      AnswersOnScale(values, cols);
      Stats.MeanWithin(Answers(values, cols), 1.0, 5.0);
    }
  }

  /** A dimension whose survey column names are question names `Q...`. */
  predicate QuestionNamed(d: Dimension)
  {
    forall i :: 0 <= i < |d.surveyColumns| ==> |d.surveyColumns[i]| > 0 && d.surveyColumns[i][0] == 'Q'
  }

  lemma DimensionTableQuestionNamed()
    ensures forall k :: 0 <= k < |DimensionTable| ==> QuestionNamed(DimensionTable[k])
  {
  }

  /** Without any question column the two functions differ: NaN in the row metrics, 0.0 in
   *  the survey metrics. */
  lemma NoColumnDimension(columns: seq<string>, values: map<string, real>, d: Dimension)
    requires QuestionNamed(d)
    requires forall j :: 0 <= j < |columns| ==> 'Q' !in columns[j]
    ensures DimensionScore(RowMetrics, columns, values, d) == None
    ensures DimensionScore(SurveyMetrics, columns, values, d) == Some(0.0)
  {
    var rowCols := seq(|d.questions|, i requires 0 <= i < |d.questions| => GetCol(columns, d.questions[i]));
    forall i | 0 <= i < |d.questions| ensures rowCols[i] == None {
      forall j | 0 <= j < |columns| ensures !IsQuestionColumn(columns[j], d.questions[i]) {
        NoQuestionColumn(columns[j], d.questions[i]);
      }
    }
    NonePresent(rowCols);
    var surveyCols := seq(|d.surveyColumns|, i requires 0 <= i < |d.surveyColumns| => LooseColumn(columns, d.surveyColumns[i]));
    forall i | 0 <= i < |d.surveyColumns| ensures surveyCols[i] == None {
      forall j | 0 <= j < |columns| ensures !LooseMatch(columns[j], d.surveyColumns[i]) {
        NoLooseMatch(columns[j], d.surveyColumns[i]);
      }
    }
    NonePresent(surveyCols);
  }

  lemma NonePresent(cols: seq<Option<string>>)
    requires forall i :: 0 <= i < |cols| ==> cols[i] == None
    ensures Present(cols) == []
  {
  }

  lemma NoQuestionColumn(c: string, n: nat)
    requires 'Q' !in c
    ensures !IsQuestionColumn(c, n)
  {
    assert QuestionName(n)[0] == 'Q';
    assert (QuestionName(n) + "_")[0] == 'Q';
  }

  lemma NoLooseMatch(c: string, q: string)
    requires 'Q' !in c && |q| > 0 && q[0] == 'Q'
    ensures !LooseMatch(c, q)
  {
    PyText.ContainsFirst(c, q);
    var p := PyText.BeforeFirst(q, '_');
    assert |p| > 0 && p[0] == 'Q' by {
      assert PyText.Find(q, '_') != 0;
    }
  }

  /** The dimension columns written one dimension after another, later names overwriting. */
  function DimensionScores(kind: Calculation, columns: seq<string>, values: map<string, real>, ds: seq<Dimension>): map<string, Option<real>>
  {
    ScoresBy(ds, d => DimensionScore(kind, columns, values, d))
  }

  /** The map written by storing `score(d)` under `d.name` for each dimension in turn. */
  function ScoresBy(ds: seq<Dimension>, score: Dimension -> Option<real>): map<string, Option<real>>
  {
    if ds == [] then map[]
    else ScoresBy(ds[..|ds| - 1], score)[ds[|ds| - 1].name := score(ds[|ds| - 1])]
  }

  function Names(ds: seq<Dimension>): set<string>
  {
    if ds == [] then {} else Names(ds[..|ds| - 1]) + {ds[|ds| - 1].name}
  }

  predicate DistinctNames(ds: seq<Dimension>)
  {
    forall i, j :: 0 <= i < j < |ds| ==> ds[i].name != ds[j].name
  }

  /** Every dimension of the table gets its own score, and there are no other columns. */
  lemma DimensionScoresLookup(kind: Calculation, columns: seq<string>, values: map<string, real>, ds: seq<Dimension>)
    requires DistinctNames(ds)
    ensures DimensionScores(kind, columns, values, ds).Keys == Names(ds)
    ensures forall k :: 0 <= k < |ds| ==>
      ds[k].name in DimensionScores(kind, columns, values, ds) &&
      DimensionScores(kind, columns, values, ds)[ds[k].name] == DimensionScore(kind, columns, values, ds[k])
  {
    ScoresByLookup(ds, d => DimensionScore(kind, columns, values, d));
  }

  lemma {:induction false} ScoresByLookup(ds: seq<Dimension>, score: Dimension -> Option<real>)
    requires DistinctNames(ds)
    ensures ScoresBy(ds, score).Keys == Names(ds)
    ensures forall k :: 0 <= k < |ds| ==> ds[k].name in ScoresBy(ds, score) && ScoresBy(ds, score)[ds[k].name] == score(ds[k])
  {
    if ds != [] {
      var init := ds[..|ds| - 1];
      var last := ds[|ds| - 1];
      assert forall k :: 0 <= k < |init| ==> init[k] == ds[k];
      ScoresByLookup(init, score);
      var r := ScoresBy(ds, score);
      forall k | 0 <= k < |ds| ensures ds[k].name in r && r[ds[k].name] == score(ds[k]) {
        if k < |init| {
          assert ds[k].name != last.name;
        }
      }
    }
  }

  /** One more dimension: its score is written under its name. */
  lemma DimensionScoresStep(kind: Calculation, columns: seq<string>, values: map<string, real>, table: seq<Dimension>, i: nat)
    requires i < |table|
    ensures DimensionScores(kind, columns, values, table[..i + 1]) ==
      DimensionScores(kind, columns, values, table[..i])[table[i].name := DimensionScore(kind, columns, values, table[i])]
  {
    assert table[..i + 1][..i] == table[..i];
  }

  lemma DimensionTableNames()
    ensures DistinctNames(DimensionTable)
  {
  }

  /** The body of the dimension loop: the mean of the answers in the dimension's columns, or the
   *  value for a dimension without columns. */
  method ScoreDimension(kind: Calculation, columns: seq<string>, values: map<string, real>, d: Dimension)
    returns (score: Option<real>)
    ensures score == DimensionScore(kind, columns, values, d)
  {
    var cols := DimensionColumns(kind, columns, d);
    if cols != [] {
      score := Stats.Mean(Answers(values, cols));
    } else if kind == RowMetrics {
      score := None;
    } else {
      score := Some(0.0);
    }
  }

  /** The dimension loop: one new column per dimension of the table. */
  method AddDimensionColumns(kind: Calculation, columns: seq<string>, values: map<string, real>, table: seq<Dimension>)
    returns (scores: map<string, Option<real>>)
    ensures scores == DimensionScores(kind, columns, values, table)
  {
    scores := map[];
    var i := 0;
    while i < |table|
      invariant 0 <= i <= |table|
      invariant scores == DimensionScores(kind, columns, values, table[..i])
    {
      var d := table[i];
      var score := ScoreDimension(kind, columns, values, d);
      DimensionScoresStep(kind, columns, values, table, i);
      scores := scores[d.name := score];
      i := i + 1;
    }
    assert table[..i] == table;
  }

  // ---------------------------------------------------------------- derived rates

  /** The derived columns of one row. */
  datatype Scores = Scores(
    dimensions: map<string, Option<real>>,
    stressRate: Option<real>,
    engagementRate: Option<real>,
    attritionRate: Option<real>,
    turnoverLabel: Option<string>)

  function Dim(dims: map<string, Option<real>>, name: string): Option<real>
  {
    if name in dims then dims[name] else None
  }

  /** The inverted rate of two columns; NaN when either is. */
  function InverseOf(a: Option<real>, b: Option<real>): (r: Option<real>)
    ensures r.Some? <==> a.Some? && b.Some?
  {
    if a.Some? && b.Some? then Some(InverseRate(a.value, b.value)) else None
  }

  /** The row's value in a column, None where the column is missing or the cell is NaN. */
  function Cell(values: map<string, real>, col: Option<string>): Option<real>
  {
    if col.Some? && col.value in values then Some(values[col.value]) else None
  }

  predicate Percentage(r: Option<real>)
  {
    r.Some? ==> 0.0 <= r.value <= 100.0
  }

  /** The attrition rate and turnover label of `calculate_row_metrics`: from the answers to
   *  Q1 and Q12 when both columns exist, absent otherwise. */
  function RowAttrition(columns: seq<string>, values: map<string, real>): (r: (Option<real>, Option<string>))
    ensures Percentage(r.0)
    ensures r.1.Some? <==> GetCol(columns, 1).Some? && GetCol(columns, 12).Some?
    ensures r.1.Some? ==> r.1.value == TurnoverLabel(r.0)
    ensures r.0.Some? ==> r.1.Some?
  {
    var q1 := GetCol(columns, 1);
    var q12 := GetCol(columns, 12);
    if q1.Some? && q12.Some? then
      var rate := InverseOf(Cell(values, q1), Cell(values, q12));
      (rate, Some(TurnoverLabel(rate)))
    else (None, None)
  }

  /** The attrition rate of `calculate_survey_metrics`: the first columns containing `Q1_` and
   *  `Q12_` (or named `Q1`, `Q12`); 0.0 when either is missing, which raises IndexError. */
  function SurveyAttrition(columns: seq<string>, values: map<string, real>): (r: Option<real>)
    ensures Percentage(r)
  {
    var q1 := FirstColumn(columns, c => PyText.Contains(c, "Q1_") || c == "Q1");
    var q12 := FirstColumn(columns, c => PyText.Contains(c, "Q12_") || c == "Q12");
    if q1.None? || q12.None? then Some(0.0) else InverseOf(Cell(values, q1), Cell(values, q12))
  }

  /** The dimension scores and the three rates of a row. */
  function ScoresOf(kind: Calculation, columns: seq<string>, values: map<string, real>): (s: Scores)
    ensures Percentage(s.stressRate) && Percentage(s.engagementRate) && Percentage(s.attritionRate)
    ensures s.dimensions == DimensionScores(kind, columns, values, DimensionTable)
    ensures kind == SurveyMetrics ==> s.turnoverLabel == None
  {
    var dims := DimensionScores(kind, columns, values, DimensionTable);
    var stress := InverseOf(Dim(dims, "Dim_Enablement"), Dim(dims, "Dim_Culture_Values"));
    var engagement :=
      match Dim(dims, "Dim_Employee_Engagement")
      case None => None
      case Some(e) => Some(LikertPercent(e));
    if kind == RowMetrics then
      var attrition := RowAttrition(columns, values);
      Scores(dims, stress, engagement, attrition.0, attrition.1)
    else Scores(dims, stress, engagement, SurveyAttrition(columns, values), None)
  }

  /** The row metrics label a respondent by their answers to Q1 and Q12 alone: High when the
   *  two add up to at most 4, Medium up to 6, Low above, and Low when either is unanswered. */
  lemma RowTurnoverLabel(columns: seq<string>, values: map<string, real>)
    requires LikertRow(values)
    requires GetCol(columns, 1).Some? && GetCol(columns, 12).Some?
    ensures ScoresOf(RowMetrics, columns, values).turnoverLabel.Some?
    ensures var q1 := Cell(values, GetCol(columns, 1));
      var q12 := Cell(values, GetCol(columns, 12));
      q1.Some? && q12.Some? ==>
        (ScoresOf(RowMetrics, columns, values).turnoverLabel.value == "High" <==> q1.value + q12.value <= 4.0) &&
        (ScoresOf(RowMetrics, columns, values).turnoverLabel.value == "Medium" <==> 4.0 < q1.value + q12.value <= 6.0)
    ensures Cell(values, GetCol(columns, 1)).None? || Cell(values, GetCol(columns, 12)).None? ==>
      ScoresOf(RowMetrics, columns, values).turnoverLabel.value == "Low"
  {
    var q1 := Cell(values, GetCol(columns, 1));
    var q12 := Cell(values, GetCol(columns, 12));
    if q1.Some? && q12.Some? {
      TurnoverLabelOfAnswers(q1.value, q12.value);
    }
  }

  /** The survey metrics fall back to a 0% attrition rate when the Q1 or the Q12 column is
   *  missing, where the row metrics leave it absent. */
  lemma MissingAttritionColumns(columns: seq<string>, values: map<string, real>)
    requires forall j :: 0 <= j < |columns| ==> 'Q' !in columns[j]
    ensures SurveyAttrition(columns, values) == Some(0.0)
    ensures RowAttrition(columns, values) == (None, None)
  {
    forall j | 0 <= j < |columns|
      ensures !PyText.Contains(columns[j], "Q1_") && columns[j] != "Q1"
      ensures !IsQuestionColumn(columns[j], 1)
    {
      PyText.ContainsFirst(columns[j], "Q1_");
      assert "Q1"[0] == 'Q';
      NoQuestionColumn(columns[j], 1);
    }
  }

  /** Better supporting scores never raise the stress rate: it falls as Enablement plus
   *  Culture rises, and is the complement of their mean's percentage on the scale. */
  lemma StressOfDimensions(e: real, c: real, e2: real, c2: real)
    requires 1.0 <= e <= 5.0 && 1.0 <= c <= 5.0
    ensures InverseOf(Some(e), Some(c)) == Some(100.0 - LikertPercent((e + c) / 2.0))
    ensures e + c <= e2 + c2 ==> InverseOf(Some(e2), Some(c2)).value <= InverseOf(Some(e), Some(c)).value
  {
    InverseRateComplement(e, c);
    if e + c <= e2 + c2 {
      InverseRateAntitone(e, c, e2, c2);
    }
  }

  // ---------------------------------------------------------------- temporal fields

  datatype Temporal = Temporal(quarter: Option<string>, eventSeason: Option<string>, month: Option<string>, year: Option<int>)

  const MonthNames: seq<string> := ["January", "February", "March", "April", "May", "June", "July",
    "August", "September", "October", "November", "December"]

  /** `submission_date`, or `Submission_Date` when the frame has no `submission_date`. */
  function DateColumn(columns: seq<string>): string
  {
    if "submission_date" in columns then "submission_date" else "Submission_Date"
  }

  /** `safe_season`: the classification joined with ", ", "normal day" where parsing raises. */
  function Season(text: string, holidays: seq<SeasonDetect.Holiday>): (r: string)
    requires SeasonDetect.ValidTable(holidays)
    ensures SeasonDetect.InputOrdinal(SeasonDetect.DateText(text)).None? ==> r == "normal day"
    ensures r != ""
  {
    match SeasonDetect.InputOrdinal(SeasonDetect.DateText(text))
    case None => "normal day"
    case Some(o) => PyText.Join(", ", SeasonDetect.Classification(o, holidays))
  }

  /** What `pd.to_datetime(..., errors='coerce')` makes of one date cell: a calendar day, or
   *  None for NaT. It accepts far more formats than `strptime("%Y-%m-%d")`, so it is a
   *  parameter of the model. */
  type Timestamp = d: Calendar.Date | Calendar.ValidDate(d) witness Calendar.Date(1, 1, 1)

  /** The temporal fields of one row whose date cell (as `str`) is `dateCell`, None for NaN.
   *  The quarter and the season parse the text with `strptime`; the month and the year come
   *  from `toDatetime`, a separate parse. `holidays` is the holiday table of
   *  `classify_festival_date`'s default year. */
  function TemporalFields(columns: seq<string>, dateCell: Option<string>, holidays: seq<SeasonDetect.Holiday>,
                          toDatetime: string -> Option<Timestamp>): (r: Temporal)
    requires SeasonDetect.ValidTable(holidays)
    ensures r.quarter.Some? ==> r.quarter.value in ["Q1", "Q2", "Q3", "Q4"]
    ensures r.month.Some? ==> r.month.value in MonthNames
    ensures r.year.Some? ==> 1 <= r.year.value <= 9999
    ensures r.month.Some? <==> r.year.Some?
  {
    if DateColumn(columns) !in columns then Temporal(None, None, None, None)
    else if dateCell.None? then Temporal(None, Some("normal day"), None, None)
    else
      var stamp := toDatetime(dateCell.value);
      Temporal(
        Quarter.GetQuarter(dateCell.value),
        Some(Season(dateCell.value, holidays)),
        if stamp.Some? then Some(MonthNames[stamp.value.month - 1]) else None,
        if stamp.Some? then Some(stamp.value.year) else None)
  }

  /** Without a date column all four fields are absent; with one, the event season is always
   *  present, the quarter is there exactly when the cell is a `YYYY-MM-DD` date, and the
   *  month and the year are there exactly when `to_datetime` reads the cell. */
  lemma TemporalPresence(columns: seq<string>, dateCell: Option<string>, holidays: seq<SeasonDetect.Holiday>,
                         toDatetime: string -> Option<Timestamp>)
    requires SeasonDetect.ValidTable(holidays)
    ensures TemporalFields(columns, dateCell, holidays, toDatetime).eventSeason.None? <==> DateColumn(columns) !in columns
    ensures DateColumn(columns) !in columns ==> TemporalFields(columns, dateCell, holidays, toDatetime) == Temporal(None, None, None, None)
    ensures TemporalFields(columns, dateCell, holidays, toDatetime).quarter.Some? <==>
      DateColumn(columns) in columns && dateCell.Some? && Calendar.ParseYmd(dateCell.value).Some?
    ensures TemporalFields(columns, dateCell, holidays, toDatetime).month.Some? <==>
      DateColumn(columns) in columns && dateCell.Some? && toDatetime(dateCell.value).Some?
  {
  }

  /** The two parses are independent: a day-first date that `to_datetime` reads gets a month
   *  and a year but no quarter. */
  lemma TemporalParsesDiffer(holidays: seq<SeasonDetect.Holiday>, toDatetime: string -> Option<Timestamp>)
    requires SeasonDetect.ValidTable(holidays)
    requires toDatetime("15/03/2024").Some? && toDatetime("15/03/2024").value == Calendar.Date(2024, 3, 15)
    ensures TemporalFields(["submission_date"], Some("15/03/2024"), holidays, toDatetime).quarter == None
    ensures TemporalFields(["submission_date"], Some("15/03/2024"), holidays, toDatetime).month == Some("March")
    ensures TemporalFields(["submission_date"], Some("15/03/2024"), holidays, toDatetime).year == Some(2024)
  {
    Quarter.QuarterRejects();
  }

  /** A date reads "normal day" exactly when it does not parse or no holiday of the table is
   *  within 15 days of it. */
  lemma SeasonNormalDay(text: string, holidays: seq<SeasonDetect.Holiday>)
    requires SeasonDetect.ValidTable(holidays)
    ensures Season(text, holidays) == "normal day" <==>
      SeasonDetect.InputOrdinal(SeasonDetect.DateText(text)).None? ||
      forall i :: 0 <= i < |holidays| ==>
        SeasonDetect.InputOrdinal(SeasonDetect.DateText(text)).value - Calendar.Ordinal(holidays[i].date) < -15 ||
        SeasonDetect.InputOrdinal(SeasonDetect.DateText(text)).value - Calendar.Ordinal(holidays[i].date) > 15
  {
    var o := SeasonDetect.InputOrdinal(SeasonDetect.DateText(text));
    if o.Some? {
      var labels := SeasonDetect.Labels(o.value, holidays);
      if labels != [] {
        var joined := PyText.Join(", ", labels);
        assert joined[0] == labels[0][0];
        assert "normal day"[0] == 'n';
      }
    }
  }

  /** A submission dated `YYYY-MM-DD`, which `to_datetime` reads as that day, gets the
   *  quarter, month name and year of that day. */
  lemma TemporalOfIsoDate(columns: seq<string>, d: Timestamp, holidays: seq<SeasonDetect.Holiday>,
                          toDatetime: string -> Option<Timestamp>)
    requires SeasonDetect.ValidTable(holidays)
    requires "submission_date" in columns
    requires toDatetime(Calendar.IsoFormat(d)) == Some(d)
    ensures TemporalFields(columns, Some(Calendar.IsoFormat(d)), holidays, toDatetime) ==
      Temporal(Some(Quarter.QuarterOfMonth(d.month)), Some(Season(Calendar.IsoFormat(d), holidays)),
               Some(MonthNames[d.month - 1]), Some(d.year))
  {
    Calendar.ParseIsoFormat(d);
  }
}
