/**
 * The team risk route: risk bands for one department row, the overall risk as the most severe
 * band, the three weakest survey drivers, and the risk-level filter and offset/limit page
 * built over the per-department rows.
 */
module Team {
  import opened Wrappers
  import PyText
  import Sorting

  /** The four risk bands, mildest first; `Name` gives the label the API returns. */
  datatype Band = Healthy | Watch | Warning | Critical

  function Name(b: Band): string
  {
    match b
    case Healthy => "healthy"
    case Watch => "watch"
    case Warning => "warning"
    case Critical => "critical"
  }

  /**
   * `calculate_risk_label`: NaN (`None` here) is healthy; a 'score' is better when higher, every
   * other metric type when lower.
   */
  function RiskLabel(value: Option<real>, metricType: string): (r: Band)
    ensures value.None? ==> r == Healthy
    ensures value.Some? && metricType == "score" ==>
      (r == Healthy <==> value.value > 75.0)
      && (r == Watch <==> 65.0 < value.value <= 75.0)
      && (r == Warning <==> 55.0 <= value.value <= 65.0)
      && (r == Critical <==> value.value < 55.0)
    ensures value.Some? && metricType != "score" ==>
      (r == Healthy <==> value.value <= 20.0)
      && (r == Watch <==> 20.0 < value.value <= 35.0)
      && (r == Warning <==> 35.0 < value.value <= 50.0)
      && (r == Critical <==> value.value > 50.0)
  {
    match value
    case None => Healthy
    case Some(v) =>
      if metricType == "score" then
        if v > 75.0 then Healthy else if v > 65.0 then Watch else if v >= 55.0 then Warning else Critical
      else
        if v <= 20.0 then Healthy else if v <= 35.0 then Watch else if v <= 50.0 then Warning else Critical
  }

  /** The entries of `risk_weights`. */
  function Weight(b: Band): (w: int)
    ensures 1 <= w <= 4
  {
    match b
    case Healthy => 1
    case Watch => 2
    case Warning => 3
    case Critical => 4
  }

  /** The band with a given weight: the inverted `risk_weights` table. */
  function BandOfWeight(w: int): (b: Band)
    requires 1 <= w <= 4
    ensures Weight(b) == w
  {
    if w == 4 then Critical else if w == 3 then Warning else if w == 2 then Watch else Healthy
  }

  /** A higher score never gives a more severe band, and a higher rate never a milder one. */
  lemma RiskLabelMonotone(a: real, b: real, metricType: string)
    requires a <= b
    ensures metricType == "score" ==> Weight(RiskLabel(Some(a), metricType)) >= Weight(RiskLabel(Some(b), metricType))
    ensures metricType != "score" ==> Weight(RiskLabel(Some(a), metricType)) <= Weight(RiskLabel(Some(b), metricType))
  {
  }

  /** The key of `risk_weights` a label is, if any. */
  function ParseBand(s: string): (r: Option<Band>)
    ensures r.Some? ==> Name(r.value) == s
    ensures forall b :: Name(b) == s ==> r == Some(b)
  {
    if s == "critical" then Some(Critical) else if s == "warning" then Some(Warning)
    else if s == "watch" then Some(Watch) else if s == "healthy" then Some(Healthy) else None
  }

  /** `risk_weights.get(label, 1)`: an unknown label weighs as much as "healthy". */
  function WeightOf(s: string): (w: int)
    ensures 1 <= w <= 4
  {
    match ParseBand(s)
    case None => 1
    case Some(b) => Weight(b)
  }

  function Max(a: int, b: int): int
  {
    if a >= b then a else b
  }

  /** `determine_overall_risk`: the label whose weight is the largest of the three label weights. */
  function DetermineOverallRisk(eng: string, burn: string, att: string): (r: string)
    ensures WeightOf(r) == Max(Max(WeightOf(eng), WeightOf(burn)), WeightOf(att))
    ensures ParseBand(r).Some?
  {
    Name(BandOfWeight(Max(Max(WeightOf(eng), WeightOf(burn)), WeightOf(att))))
  }

  /** The most severe of three bands. */
  function OverallBand(eng: Band, burn: Band, att: Band): (r: Band)
    ensures Weight(r) >= Weight(eng) && Weight(r) >= Weight(burn) && Weight(r) >= Weight(att)
    ensures r == eng || r == burn || r == att
  {
    BandOfWeight(Max(Max(Weight(eng), Weight(burn)), Weight(att)))
  }

  /** On the labels `calculate_risk_label` produces, the overall risk is the most severe band. */
  lemma OverallRiskOfBands(eng: Band, burn: Band, att: Band)
    ensures DetermineOverallRisk(Name(eng), Name(burn), Name(att)) == Name(OverallBand(eng, burn, att))
  {
  }

  /** An unknown label counts exactly as "healthy". */
  lemma UnknownLabelCountsHealthy(eng: string, burn: string, att: string)
    requires ParseBand(eng).None?
    ensures DetermineOverallRisk(eng, burn, att) == DetermineOverallRisk("healthy", burn, att)
  {
  }

  /** `DRIVER_COLUMNS`: the thirty survey question columns, in questionnaire order. */
  const DriverColumns: seq<string> := [
    "Q1_Recommend", "Q2_Sup_Feedback", "Q3_Enablement_Tools", "Q4_Sup_Career_Interest",
    "Q5_Quality_Services", "Q6_Trust_Top_Mgmt", "Q7_Diversity_Inclusion", "Q8_ESG_Community",
    "Q9_Proud_Work", "Q10_Sup_Informed", "Q11_Systems_Process", "Q12_Career_Opp",
    "Q13_Great_Service", "Q14_Future_Success", "Q15_Respect", "Q16_ESG_Environment",
    "Q17_Rarely_Look_Job", "Q18_Sup_Role_Model", "Q19_L&D_Access", "Q20_Cust_Feedback_Usage",
    "Q21_Values_Lived", "Q22_Motivated_More", "Q23_Job_Sat", "Q24_Sup_Comm_Strategy",
    "Q25_Excited_Work", "Q26_Comp_Benefits", "Q27_Delight_Cust", "Q28_Stay_2_Years",
    "Q29_Health_Safety", "Q30_Sup_Recognize"
  ]

  /** A department's mean driver scores; a column that is absent or NaN has no key. */
  type DriverRow = map<string, real>

  /** The `scores` dict of `get_top_drivers`: (column, score) in column order, NaN columns skipped. */
  function DriverScores(row: DriverRow, columns: seq<string>): seq<(string, real)>
  {
    if columns == [] then []
    else
      var p := DriverScores(row, columns[..|columns| - 1]);
      var c := columns[|columns| - 1];
      if c in row then p + [(c, row[c])] else p
  }

  lemma {:induction false} DriverScoresContents(row: DriverRow, columns: seq<string>)
    ensures var s := DriverScores(row, columns);
      |s| <= |columns|
      && (forall i :: 0 <= i < |s| ==> s[i].0 in columns && s[i].0 in row && s[i].1 == row[s[i].0])
      && (forall c :: c in columns && c in row ==> (c, row[c]) in s)
  {
    if columns != [] {
      var init := columns[..|columns| - 1];
      DriverScoresContents(row, init);
      assert forall c :: c in columns ==> c in init || c == columns[|columns| - 1];
    }
  }

  /** `key=lambda item: item[1]`: one pair sorts before another when its score is smaller. */
  predicate ByScore(a: (string, real), b: (string, real))
  {
    a.1 < b.1
  }

  lemma ByScoreStrict()
    ensures Sorting.StrictOrder(ByScore)
  {
  }

  /** `split('_', 1)[1]` when there is an underscore, the whole name otherwise. */
  function CleanName(k: string): (r: string)
    ensures '_' !in k ==> r == k
    ensures '_' in k ==> PyText.EndsWith(k, r) && |r| < |k|
    ensures '_' in k ==> exists i :: 0 <= i < |k| && k[i] == '_' && '_' !in k[..i] && r == k[i + 1..]
  {
    if '_' in k then PyText.AfterFirst(k, '_') else k
  }

  function CleanNames(s: seq<(string, real)>): (r: seq<string>)
    ensures |r| == |s|
    ensures forall i :: 0 <= i < |s| ==> r[i] == CleanName(s[i].0)
  {
    if s == [] then [] else CleanNames(s[..|s| - 1]) + [CleanName(s[|s| - 1].0)]
  }

  /** The three lowest-scoring pairs, stably sorted. */
  function LowestDrivers(row: DriverRow, columns: seq<string>): seq<(string, real)>
  {
    var s := Sorting.SortBy(DriverScores(row, columns), ByScore);
    PyText.Slice(s, 0, 3)
  }

  function TopDrivers(row: DriverRow, columns: seq<string>): seq<string>
  {
    CleanNames(LowestDrivers(row, columns))
  }

  /** The stably sorted scores ascend. */
  lemma SortedScores(scores: seq<(string, real)>)
    ensures var s := Sorting.SortBy(scores, ByScore);
      forall i, j :: 0 <= i < j < |s| ==> s[i].1 <= s[j].1
  {
    var s := Sorting.SortBy(scores, ByScore);
    ByScoreStrict();
    Sorting.SortBySorted(scores, ByScore);
    forall i, j | 0 <= i < j < |s| ensures s[i].1 <= s[j].1 {
      assert !ByScore(s[j], s[i]);
    }
  }

  /** The first three of the stably sorted scores: as many as there are, up to three, all taken from the scores. */
  lemma LowestThreeTaken(scores: seq<(string, real)>)
    ensures var s := Sorting.SortBy(scores, ByScore);
      var low := PyText.Slice(s, 0, 3);
      |low| == (if |scores| <= 3 then |scores| else 3)
      && low == s[..|low|]
      && (forall p :: p in low ==> p in scores)
  {
    var s := Sorting.SortBy(scores, ByScore);
    var low := PyText.Slice(s, 0, 3);
    Sorting.SortByPermutes(scores, ByScore);
    forall p | p in low ensures p in scores {
      assert p in multiset(s);
    }
  }

  /** The first three ascend, and no pair left out scores lower than one that was kept. */
  lemma LowestThree(scores: seq<(string, real)>)
    ensures var low := PyText.Slice(Sorting.SortBy(scores, ByScore), 0, 3);
      (forall i, j :: 0 <= i < j < |low| ==> low[i].1 <= low[j].1)
      && (forall p :: p in scores && p !in low ==> forall i :: 0 <= i < |low| ==> low[i].1 <= p.1)
  {
    var s := Sorting.SortBy(scores, ByScore);
    var low := PyText.Slice(s, 0, 3);
    SortedScores(scores);
    LowestThreeTaken(scores);
    Sorting.SortByPermutes(scores, ByScore);
    forall p | p in scores && p !in low
      ensures forall i :: 0 <= i < |low| ==> low[i].1 <= p.1
    {
      assert p in multiset(s);
      var k :| 0 <= k < |s| && s[k] == p;
      assert k >= |low|;
    }
  }

  /** At most three drivers are returned: three when three columns have scores, none when none has. */
  lemma TopDriversCount(row: DriverRow, columns: seq<string>)
    ensures var top := TopDrivers(row, columns);
      |top| == |LowestDrivers(row, columns)| <= 3
      && (|DriverScores(row, columns)| >= 3 ==> |top| == 3)
      && ((forall c :: c in columns ==> c !in row) ==> top == [])
  {
    var scores := DriverScores(row, columns);
    LowestThreeTaken(scores);
    if forall c :: c in columns ==> c !in row {
      DriverScoresContents(row, columns);
    }
  }

  /**
   * The kept pairs are present columns with their scores, in ascending score order, and no
   * present column left out scores lower than one that was kept.
   */
  lemma LowestDriversChosen(row: DriverRow, columns: seq<string>)
    ensures var low := LowestDrivers(row, columns);
      (forall i :: 0 <= i < |low| ==> low[i].0 in columns && low[i].0 in row && low[i].1 == row[low[i].0])
      && (forall i, j :: 0 <= i < j < |low| ==> low[i].1 <= low[j].1)
      && (forall c :: c in columns && c in row && (c, row[c]) !in low ==>
            forall i :: 0 <= i < |low| ==> low[i].1 <= row[c])
  {
    var scores := DriverScores(row, columns);
    var low := LowestDrivers(row, columns);
    DriverScoresContents(row, columns);
    LowestThreeTaken(scores);
    LowestThree(scores);
    forall i | 0 <= i < |low|
      ensures low[i].0 in columns && low[i].0 in row && low[i].1 == row[low[i].0]
    {
      assert low[i] in low;
      var k :| 0 <= k < |scores| && scores[k] == low[i];
    }
  }

  /** `get_top_drivers` over `DRIVER_COLUMNS`: the dict-filling loop, the sort and the top-3 loop. */
  method GetTopDrivers(row: DriverRow, columns: seq<string>) returns (top3: seq<string>)
    ensures top3 == TopDrivers(row, columns)
  {
    var scores := CollectScores(row, columns);
    if scores == [] {
      return [];
    }
    var sorted := Sorting.SortBy(scores, ByScore);
    var first := PyText.Slice(sorted, 0, 3);
    top3 := [];
    for i := 0 to |first|
      invariant top3 == CleanNames(first[..i])
    {
      assert first[..i + 1][..i] == first[..i];
      top3 := top3 + [CleanName(first[i].0)];
    }
    assert first[..|first|] == first;
  }

  /** The dict-filling loop of `get_top_drivers`. */
  method CollectScores(row: DriverRow, columns: seq<string>) returns (scores: seq<(string, real)>)
    ensures scores == DriverScores(row, columns)
  {
    scores := [];
    for i := 0 to |columns|
      invariant scores == DriverScores(row, columns[..i])
    {
      assert columns[..i + 1][..i] == columns[..i];
      var col := columns[i];
      if col in row {
        scores := scores + [(col, row[col])];
      }
    }
    assert columns[..|columns|] == columns;
  }

  /** One row of the per-department aggregate (`grouped_df`). */
  datatype TeamGroup = TeamGroup(
    department: string,
    employeeCount: int,
    engagement: Option<real>,
    burnout: Option<real>,
    attrition: Option<real>,
    drivers: DriverRow,
    submissionDate: Option<string>)

  /** One item of the response's `data` list; `round(eng_val, 1)` is not modelled. */
  datatype TeamItem = TeamItem(
    id: string,
    position: string,
    department: string,
    location: string,
    employeeCount: int,
    engagementScore: Option<real>,
    burnoutRisk: Band,
    attritionRisk: Band,
    overallRisk: Band,
    trend: string,
    topDrivers: seq<string>,
    lastUpdated: string)

  datatype TeamResponse = TeamResponse(data: seq<TeamItem>, total: nat, limit: int, offset: int)

  /** The overall risk of a department row. */
  function GroupRisk(g: TeamGroup): Band
  {
    OverallBand(RiskLabel(g.engagement, "score"), RiskLabel(g.burnout, "rate"), RiskLabel(g.attrition, "rate"))
  }

  /** `risk_level and risk_level.lower() != 'all'`: an empty string is falsy and filters nothing. */
  predicate RiskFilterActive(riskLevel: Option<string>)
  {
    riskLevel.Some? && riskLevel.value != "" && PyText.Lower(riskLevel.value) != "all"
  }

  predicate KeepGroup(g: TeamGroup, riskLevel: Option<string>)
  {
    !RiskFilterActive(riskLevel) || Name(GroupRisk(g)) == PyText.Lower(riskLevel.value)
  }

  /** `location if location else "Various"`. */
  function LocationDisplay(location: Option<string>): (r: string)
    ensures location.Some? && location.value != "" ==> r == location.value
    ensures location.None? || location.value == "" ==> r == "Various"
  {
    if location.Some? && location.value != "" then location.value else "Various"
  }

  function MakeItem(g: TeamGroup, id: string, location: Option<string>, topDrivers: seq<string>): TeamItem
  {
    TeamItem(id, "All", g.department, LocationDisplay(location), g.employeeCount, g.engagement,
      RiskLabel(g.burnout, "rate"), RiskLabel(g.attrition, "rate"), GroupRisk(g), "stable",
      topDrivers,
      if g.submissionDate.Some? then g.submissionDate.value else "")
  }

  /** The groups that pass the risk-level filter, in order. */
  function Kept(groups: seq<TeamGroup>, riskLevel: Option<string>): seq<TeamGroup>
  {
    if groups == [] then []
    else
      var p := Kept(groups[..|groups| - 1], riskLevel);
      var g := groups[|groups| - 1];
      if KeepGroup(g, riskLevel) then p + [g] else p
  }

  /** Item `k` of the list gets the `k`-th fresh identifier. */
  function Items(kept: seq<TeamGroup>, location: Option<string>, newId: nat -> string, columns: seq<string>): (r: seq<TeamItem>)
    ensures |r| == |kept|
  {
    if kept == [] then []
    else
      var n := |kept| - 1;
      Items(kept[..n], location, newId, columns) + [MakeItem(kept[n], newId(n), location, TopDrivers(kept[n].drivers, columns))]
  }

  /** The `results` list. */
  function TeamResults(groups: seq<TeamGroup>, location: Option<string>, riskLevel: Option<string>,
                       newId: nat -> string, columns: seq<string>): (r: seq<TeamItem>)
    ensures |r| <= |groups|
    ensures !RiskFilterActive(riskLevel) ==> |r| == |groups|
  {
    KeptFilter(groups, riskLevel);
    Items(Kept(groups, riskLevel), location, newId, columns)
  }

  /** One more group either joins the kept groups or is skipped. */
  lemma KeptStep(groups: seq<TeamGroup>, i: nat, riskLevel: Option<string>)
    requires i < |groups|
    ensures Kept(groups[..i + 1], riskLevel)
      == if KeepGroup(groups[i], riskLevel) then Kept(groups[..i], riskLevel) + [groups[i]] else Kept(groups[..i], riskLevel)
  {
    assert groups[..i + 1][..i] == groups[..i];
  }

  /** One more group: its item, with the next identifier, is appended when the group is kept. */
  lemma TeamResultsStep(groups: seq<TeamGroup>, i: nat, location: Option<string>, riskLevel: Option<string>,
                        newId: nat -> string, columns: seq<string>)
    requires i < |groups|
    ensures var before := TeamResults(groups[..i], location, riskLevel, newId, columns);
      TeamResults(groups[..i + 1], location, riskLevel, newId, columns) ==
        if KeepGroup(groups[i], riskLevel)
        then before + [MakeItem(groups[i], newId(|before|), location, TopDrivers(groups[i].drivers, columns))]
        else before
  {
    KeptStep(groups, i, riskLevel);
    if KeepGroup(groups[i], riskLevel) {
      ItemsSnoc(Kept(groups[..i], riskLevel), groups[i], location, newId, columns);
    }
  }

  lemma ItemsSnoc(kept: seq<TeamGroup>, g: TeamGroup, location: Option<string>, newId: nat -> string, columns: seq<string>)
    ensures Items(kept + [g], location, newId, columns) ==
      Items(kept, location, newId, columns) + [MakeItem(g, newId(|kept|), location, TopDrivers(g.drivers, columns))]
  {
    assert (kept + [g])[..|kept|] == kept;
  }

  /** The kept groups are exactly the groups that pass the filter, in their original order. */
  lemma {:induction false} KeptFilter(groups: seq<TeamGroup>, riskLevel: Option<string>)
    ensures var k := Kept(groups, riskLevel);
      |k| <= |groups|
      && (forall g :: g in k <==> g in groups && KeepGroup(g, riskLevel))
      && (!RiskFilterActive(riskLevel) ==> k == groups)
  {
    if groups != [] {
      var init := groups[..|groups| - 1];
      KeptFilter(init, riskLevel);
      assert groups == init + [groups[|groups| - 1]];
    }
  }

  /**
   * Item `i` is built from kept group `i`: its identifier, department and overall risk, position
   * "All", trend "stable", the location label and at most three drivers.
   */
  lemma {:induction false} ItemsFromKept(kept: seq<TeamGroup>, location: Option<string>, newId: nat -> string,
                                         columns: seq<string>)
    ensures var r := Items(kept, location, newId, columns);
      forall i :: 0 <= i < |r| ==>
        r[i].id == newId(i) && r[i].department == kept[i].department && r[i].overallRisk == GroupRisk(kept[i])
        && r[i].position == "All" && r[i].trend == "stable" && r[i].location == LocationDisplay(location)
        && |r[i].topDrivers| <= 3
  {
    if kept != [] {
      var n := |kept| - 1;
      ItemsFromKept(kept[..n], location, newId, columns);
      var r := Items(kept, location, newId, columns);
      var p := Items(kept[..n], location, newId, columns);
      TopDriversCount(kept[n].drivers, columns);
      forall i | 0 <= i < n
        ensures r[i].id == newId(i) && r[i].department == kept[i].department && r[i].overallRisk == GroupRisk(kept[i])
        && r[i].position == "All" && r[i].trend == "stable" && r[i].location == LocationDisplay(location)
        && |r[i].topDrivers| <= 3
      {
        assert r[i] == p[i];
        assert kept[..n][i] == kept[i];
      }
    }
  }

  /**
   * With an active filter every item's overall risk is the lower-cased filter value; every item
   * shows position "All", trend "stable" and the location label.
   */
  lemma TeamResultsFiltered(groups: seq<TeamGroup>, location: Option<string>,
                            riskLevel: Option<string>, newId: nat -> string, columns: seq<string>)
    ensures var r := TeamResults(groups, location, riskLevel, newId, columns);
      (forall i :: 0 <= i < |r| ==>
        (RiskFilterActive(riskLevel) ==> Name(r[i].overallRisk) == PyText.Lower(riskLevel.value))
        && r[i].position == "All" && r[i].trend == "stable" && r[i].location == LocationDisplay(location)
        && |r[i].topDrivers| <= 3)
      && (!RiskFilterActive(riskLevel) ==> |r| == |groups|)
  {
    var r := TeamResults(groups, location, riskLevel, newId, columns);
    var k := Kept(groups, riskLevel);
    ItemsFromKept(k, location, newId, columns);
    KeptFilter(groups, riskLevel);
    forall i | 0 <= i < |r|
      ensures RiskFilterActive(riskLevel) ==> Name(r[i].overallRisk) == PyText.Lower(riskLevel.value)
    {
      assert k[i] in k;
    }
  }

  /** The body of the result loop: the group's item, or nothing when the risk-level filter skips it. */
  method GroupItem(g: TeamGroup, location: Option<string>, riskLevel: Option<string>, id: string, columns: seq<string>)
    returns (item: Option<TeamItem>)
    ensures KeepGroup(g, riskLevel) ==> item == Some(MakeItem(g, id, location, TopDrivers(g.drivers, columns)))
    ensures !KeepGroup(g, riskLevel) ==> item.None?
  {
    var riskEng := RiskLabel(g.engagement, "score");
    var riskBurn := RiskLabel(g.burnout, "rate");
    var riskAtt := RiskLabel(g.attrition, "rate");
    var overall := OverallBand(riskEng, riskBurn, riskAtt);
    if riskLevel.Some? && riskLevel.value != "" && PyText.Lower(riskLevel.value) != "all" {
      if Name(overall) != PyText.Lower(riskLevel.value) {
        return None;
      }
    }
    var topDrivers := GetTopDrivers(g.drivers, columns);
    item := Some(TeamItem(id, "All", g.department, LocationDisplay(location), g.employeeCount,
      g.engagement, riskBurn, riskAtt, overall, "stable", topDrivers,
      if g.submissionDate.Some? then g.submissionDate.value else ""));
  }

  /**
   * Steps 7 and 8 of `get_team_risk_data`: the result loop with its filter, then the page. The route
   * passes `DriverColumns` as `columns`; `newId` stands for `uuid.uuid4()`, called once per kept row.
   */
  method GetTeamRiskData(groups: seq<TeamGroup>, location: Option<string>, riskLevel: Option<string>,
                         limit: int, offset: int, newId: nat -> string, columns: seq<string>)
    returns (resp: TeamResponse)
    ensures resp.total == |TeamResults(groups, location, riskLevel, newId, columns)|
    ensures resp.data == PyText.Slice(TeamResults(groups, location, riskLevel, newId, columns), offset, offset + limit)
    ensures resp.limit == limit && resp.offset == offset
  {
    var results: seq<TeamItem> := [];
    for i := 0 to |groups|
      invariant results == TeamResults(groups[..i], location, riskLevel, newId, columns)
    {
      TeamResultsStep(groups, i, location, riskLevel, newId, columns);
      var item := GroupItem(groups[i], location, riskLevel, newId(|results|), columns);
      if item.Some? {
        results := results + [item.value];
      }
    }
    assert groups[..|groups|] == groups;
    resp := TeamResponse(PyText.Slice(results, offset, offset + limit), |results|, limit, offset);
  }

  /** The page holds at most `limit` items, and for a page inside the results exactly those. */
  lemma PageBounds<T>(results: seq<T>, offset: int, limit: int)
    ensures |PyText.Slice(results, offset, offset + limit)| <= if limit < 0 then |results| else limit
    ensures 0 <= offset && 0 <= limit && offset + limit <= |results| ==>
      PyText.Slice(results, offset, offset + limit) == results[offset..offset + limit]
  {
  }

}
