/** `risk_engine`: the hand-written TTL cache of the fetch functions, the count-based eNPS,
 *  burnout and turnover rates, the response rate, the season of a month, the survey-score
 *  filter, and the guards and per-group counts of `aggregate_metrics` and `get_risk_summary`. */
module RiskEngine {
  import opened Wrappers
  import PyText
  import Stats

  // ---------------------------------------------------------------- TTL cache

  /** Seconds a cached result stays fresh. */
  const CacheTtl: real := 300.0

  datatype Entry<D> = Entry(data: D, storedAt: real)

  /** One call of a `cached_data(key)` wrapper: the cache after it, what it returns, and
   *  whether the wrapped fetch was called. */
  datatype CallOutcome<D> = CallOutcome(cache: map<string, Entry<D>>, result: D, called: bool)

  predicate Fresh<D>(cache: map<string, Entry<D>>, key: string, now: real)
  {
    key in cache && now - cache[key].storedAt < CacheTtl
  }

  /** A call at time `now`: a fresh entry is returned as it is (the copy pandas makes is the
   *  same value); otherwise the fetch runs, returns `fetched`, and is stored with the time
   *  `later` read after it. The key is the decorator's prefix only: arguments play no part. */
  function CachedCall<D>(cache: map<string, Entry<D>>, key: string, now: real, later: real, fetched: D): (r: CallOutcome<D>)
    ensures r.called <==> !Fresh(cache, key, now)
    ensures key in r.cache
    ensures forall k :: k != key ==> (k in r.cache <==> k in cache)
    ensures forall k :: k != key && k in cache ==> r.cache[k] == cache[k]
  {
    if Fresh(cache, key, now) then CallOutcome(cache, cache[key].data, false)
    else CallOutcome(cache[key := Entry(fetched, later)], fetched, true)
  }

  /** A hit returns the stored data and leaves the cache alone; a miss returns what the
   *  fetch produced and records it with the later time. */
  lemma CachedCallResult<D>(cache: map<string, Entry<D>>, key: string, now: real, later: real, fetched: D)
    ensures Fresh(cache, key, now) ==>
      CachedCall(cache, key, now, later, fetched).result == cache[key].data &&
      CachedCall(cache, key, now, later, fetched).cache == cache
    ensures !Fresh(cache, key, now) ==>
      CachedCall(cache, key, now, later, fetched).result == fetched &&
      CachedCall(cache, key, now, later, fetched).cache[key] == Entry(fetched, later)
  {
  }

  /** A second call within 300 seconds of the time the first one stored returns the same data
   *  without fetching, whether the first call was a hit or a miss. */
  lemma RepeatWithinTtl<D>(cache: map<string, Entry<D>>, key: string, now: real, later: real, fetched: D,
                           now2: real, later2: real, fetched2: D)
    requires now2 - CachedCall(cache, key, now, later, fetched).cache[key].storedAt < CacheTtl
    ensures !CachedCall(CachedCall(cache, key, now, later, fetched).cache, key, now2, later2, fetched2).called
    ensures CachedCall(CachedCall(cache, key, now, later, fetched).cache, key, now2, later2, fetched2).result ==
      CachedCall(cache, key, now, later, fetched).result
  {
  }

  /** Once 300 seconds have passed since an entry was stored, the next call fetches again. */
  lemma ExpiredEntryRefetched<D>(cache: map<string, Entry<D>>, key: string, now: real, later: real, fetched: D)
    requires key in cache && now - cache[key].storedAt >= CacheTtl
    ensures CachedCall(cache, key, now, later, fetched).called
    ensures CachedCall(cache, key, now, later, fetched).result == fetched
  {
  }

  /** The module-level `_data_cache` shared by the decorated fetch functions. */
  class DataCache<D> {
    var entries: map<string, Entry<D>>

    constructor()
      ensures entries == map[]
    {
      entries := map[];
    }

    /** The wrapper of `cached_data(key)`; `fetched` is what the wrapped function returns
     *  if it is called, `now` and `later` the clock before and after it. */
    method Call(key: string, now: real, later: real, fetched: D) returns (result: D, called: bool)
      modifies this
      ensures CallOutcome(entries, result, called) == CachedCall(old(entries), key, now, later, fetched)
    {
      if key in entries {
        var entry := entries[key];
        if now - entry.storedAt < CacheTtl {
          return entry.data, false;
        }
      }
      result := fetched;
      called := true;
      entries := entries[key := Entry(result, later)];
    }
  }

  // ---------------------------------------------------------------- counting

  /** `count / total * 100`. */
  function Percent(count: nat, total: nat): real
    requires total > 0
  {
    count as real / total as real * 100.0
  }

  lemma PercentWithin(count: nat, total: nat)
    requires 0 < total && count <= total
    ensures 0.0 <= Percent(count, total) <= 100.0
  {
  }

  lemma PercentMonotone(a: nat, b: nat, total: nat)
    requires 0 < total && a <= b
    ensures Percent(a, total) <= Percent(b, total)
  {
  }

  lemma RatioWithin(d: real, n: real)
    requires n > 0.0 && -n <= d <= n
    ensures -1.0 <= d / n <= 1.0
    ensures d == n ==> d / n == 1.0
    ensures d == -n ==> d / n == -1.0
  {
    var q := d / n;
    assert q * n == d;
  }

  // ---------------------------------------------------------------- eNPS

  predicate Promoter(x: real) { x == 5.0 }
  predicate Detractor(x: real) { x <= 3.0 }

  /** `calculate_enps_score` on the non-NaN 1-5 answers: promoters (5) minus detractors
   *  (1-3) as a percentage of all answers; NaN for none. */
  function EnpsScore(scores: seq<real>): (r: Option<real>)
    ensures r.None? <==> scores == []
  {
    if scores == [] then None
    else Some((Stats.Count(scores, Promoter) as real - Stats.Count(scores, Detractor) as real) / |scores| as real * 100.0)
  }

  lemma {:induction false} PromotersAreNotDetractors(scores: seq<real>)
    ensures Stats.Count(scores, Promoter) + Stats.Count(scores, Detractor) <= |scores|
  {
    if scores != [] {
      PromotersAreNotDetractors(scores[1..]);
    }
  }

  /** The score lies in [-100, 100]: 100 when everyone answers 5, -100 when everyone answers
   *  3 or less. */
  lemma EnpsWithin(scores: seq<real>)
    requires scores != []
    ensures -100.0 <= EnpsScore(scores).value <= 100.0
    ensures Stats.Count(scores, Promoter) == |scores| ==> EnpsScore(scores).value == 100.0
    ensures Stats.Count(scores, Detractor) == |scores| ==> EnpsScore(scores).value == -100.0
  {
    PromotersAreNotDetractors(scores);
    var n := |scores| as real;
    var d := Stats.Count(scores, Promoter) as real - Stats.Count(scores, Detractor) as real;
    RatioWithin(d, n);
  }

  // ---------------------------------------------------------------- burnout and turnover

  /** The two answers of a respondent; None where a column is NaN. */
  type AnswerPair = (Option<real>, Option<real>)

  /** The two answers of a respondent who gave both. */
  datatype Answered = Answered(first: real, second: real)

  /** The respondents who answered both questions: the two series after `dropna`, aligned on
   *  their common index. */
  function Aligned(rows: seq<AnswerPair>): (r: seq<Answered>)
    ensures |r| <= |rows|
  {
    if rows == [] then []
    else
      (if rows[0].0.Some? && rows[0].1.Some? then [Answered(rows[0].0.value, rows[0].1.value)] else [])
      + Aligned(rows[1..])
  }

  predicate BothAtMost2(p: Answered) { p.first <= 2.0 && p.second <= 2.0 }
  predicate EitherAtMost2(p: Answered) { p.first <= 2.0 || p.second <= 2.0 }
  predicate EitherAtMost3(p: Answered) { p.first <= 3.0 || p.second <= 3.0 }
  predicate FirstAtMost6(p: Answered) { p.first <= 6.0 }
  predicate SecondAtMost2(p: Answered) { p.second <= 2.0 }
  predicate FirstAtMost6AndSecondAtMost2(p: Answered) { p.first <= 6.0 && p.second <= 2.0 }
  predicate FirstAtMost6OrSecondAtMost2(p: Answered) { p.first <= 6.0 || p.second <= 2.0 }

  /** The share of aligned respondents satisfying `p`, NaN when none are aligned. */
  function RateOf(pairs: seq<Answered>, p: Answered -> bool): (r: Option<real>)
    ensures r.None? <==> pairs == []
    ensures r.Some? ==> 0.0 <= r.value <= 100.0
  {
    if pairs == [] then None
    else
      PercentWithin(Stats.Count(pairs, p), |pairs|);
      Some(Percent(Stats.Count(pairs, p), |pairs|))
  }

  /** `calculate_burnout_rate`: both work-life balance and job satisfaction at most 2. */
  function BurnoutRate(rows: seq<AnswerPair>): Option<real>
  {
    RateOf(Aligned(rows), BothAtMost2)
  }

  /** `calculate_burnout_score`: 6 minus the mean of the respondents' average answer. */
  function BurnoutScore(rows: seq<AnswerPair>): Option<real>
  {
    var pairs := Aligned(rows);
    match Stats.Mean(seq(|pairs|, i requires 0 <= i < |pairs| => (pairs[i].first + pairs[i].second) / 2.0))
    case None => None
    case Some(m) => Some(6.0 - m)
  }

  datatype BurnoutBreakdown = BurnoutBreakdown(
    severeRate: Option<real>, moderateRate: Option<real>, atRiskRate: Option<real>,
    totalSevere: nat, totalModerate: nat, totalAtRisk: nat)

  /** `calculate_burnout_rate_detailed`: severe is both answers at most 2, moderate either at
   *  most 2, at risk either at most 3; NaN rates and zero counts without respondents. */
  function BurnoutDetailed(rows: seq<AnswerPair>): BurnoutBreakdown
  {
    var pairs := Aligned(rows);
    if pairs == [] then BurnoutBreakdown(None, None, None, 0, 0, 0)
    else BurnoutBreakdown(RateOf(pairs, BothAtMost2), RateOf(pairs, EitherAtMost2), RateOf(pairs, EitherAtMost3),
      Stats.Count(pairs, BothAtMost2), Stats.Count(pairs, EitherAtMost2), Stats.Count(pairs, EitherAtMost3))
  }

  /** The tiers nest: severe <= moderate <= at risk <= respondents, for counts and rates
   *  alike, and the severe rate is `calculate_burnout_rate`. */
  lemma BurnoutTiersNest(rows: seq<AnswerPair>)
    ensures var b := BurnoutDetailed(rows);
      b.totalSevere <= b.totalModerate <= b.totalAtRisk <= |Aligned(rows)|
    ensures var b := BurnoutDetailed(rows);
      b.severeRate.Some? ==> b.severeRate.value <= b.moderateRate.value <= b.atRiskRate.value
    ensures BurnoutDetailed(rows).severeRate == BurnoutRate(rows)
  {
    var pairs := Aligned(rows);
    Stats.CountMonotone(pairs, BothAtMost2, EitherAtMost2);
    Stats.CountMonotone(pairs, EitherAtMost2, EitherAtMost3);
    if pairs != [] {
      PercentMonotone(Stats.Count(pairs, BothAtMost2), Stats.Count(pairs, EitherAtMost2), |pairs|);
      PercentMonotone(Stats.Count(pairs, EitherAtMost2), Stats.Count(pairs, EitherAtMost3), |pairs|);
    }
  }

  /** With answers on the 1-5 scale, the burnout score is on the same scale. */
  lemma BurnoutScoreOnScale(rows: seq<AnswerPair>)
    requires forall i :: 0 <= i < |Aligned(rows)| ==>
      1.0 <= Aligned(rows)[i].first <= 5.0 && 1.0 <= Aligned(rows)[i].second <= 5.0
    ensures BurnoutScore(rows).Some? <==> Aligned(rows) != []
    ensures BurnoutScore(rows).Some? ==> 1.0 <= BurnoutScore(rows).value <= 5.0
  {
    var pairs := Aligned(rows);
    var avgs := seq(|pairs|, i requires 0 <= i < |pairs| => (pairs[i].first + pairs[i].second) / 2.0);
    Stats.MeanWithin(avgs, 1.0, 5.0);
  }

  /** `calculate_turnover_risk`: both answers at most 2. */
  function TurnoverRisk(rows: seq<AnswerPair>): Option<real>
  {
    RateOf(Aligned(rows), BothAtMost2)
  }

  datatype TurnoverBreakdown = TurnoverBreakdown(
    highRiskRate: Option<real>, moderateRiskRate: Option<real>, detractorRate: Option<real>, lowGrowthRate: Option<real>,
    totalHighRisk: nat, totalDetractors: nat, totalLowGrowth: nat)

  /** `calculate_turnover_risk_detailed`: detractors answer at most 6, low growth at most 2;
   *  high risk is both, moderate either. */
  function TurnoverDetailed(rows: seq<AnswerPair>): TurnoverBreakdown
  {
    var pairs := Aligned(rows);
    if pairs == [] then TurnoverBreakdown(None, None, None, None, 0, 0, 0)
    else TurnoverBreakdown(
      RateOf(pairs, FirstAtMost6AndSecondAtMost2), RateOf(pairs, FirstAtMost6OrSecondAtMost2),
      RateOf(pairs, FirstAtMost6), RateOf(pairs, SecondAtMost2),
      Stats.Count(pairs, FirstAtMost6AndSecondAtMost2), Stats.Count(pairs, FirstAtMost6), Stats.Count(pairs, SecondAtMost2))
  }

  /** High risk is at most either group, the moderate count is detractors plus low growth
   *  minus high risk, and the simple turnover risk (both at most 2) never exceeds the
   *  detailed high-risk rate. */
  lemma TurnoverTiers(rows: seq<AnswerPair>)
    ensures var t := TurnoverDetailed(rows);
      t.totalHighRisk <= t.totalDetractors && t.totalHighRisk <= t.totalLowGrowth
    ensures Aligned(rows) != [] ==>
      Stats.Count(Aligned(rows), FirstAtMost6OrSecondAtMost2) ==
        TurnoverDetailed(rows).totalDetractors + TurnoverDetailed(rows).totalLowGrowth - TurnoverDetailed(rows).totalHighRisk
    ensures TurnoverRisk(rows).Some? ==> TurnoverRisk(rows).value <= TurnoverDetailed(rows).highRiskRate.value
  {
    var pairs := Aligned(rows);
    Stats.CountMonotone(pairs, FirstAtMost6AndSecondAtMost2, FirstAtMost6);
    Stats.CountMonotone(pairs, FirstAtMost6AndSecondAtMost2, SecondAtMost2);
    Stats.CountUnion(pairs, FirstAtMost6, SecondAtMost2, FirstAtMost6OrSecondAtMost2, FirstAtMost6AndSecondAtMost2);
    Stats.CountMonotone(pairs, BothAtMost2, FirstAtMost6AndSecondAtMost2);
    if pairs != [] {
      PercentMonotone(Stats.Count(pairs, BothAtMost2), Stats.Count(pairs, FirstAtMost6AndSecondAtMost2), |pairs|);
    }
  }

  /** `calculate_response_rate`: NaN without employees. */
  function ResponseRate(actual: int, total: int): (r: Option<real>)
    ensures r.None? <==> total == 0
  {
    if total == 0 then None else Some(actual as real / total as real * 100.0)
  }

  lemma ResponseRateWithin(actual: int, total: int)
    requires 0 <= actual <= total && total > 0
    ensures 0.0 <= ResponseRate(actual, total).value <= 100.0
    ensures ResponseRate(actual, total).value == 100.0 <==> actual == total
  {
    var q := actual as real / total as real;
    assert q * total as real == actual as real;
    RatioWithin(actual as real, total as real);
  }

  // ---------------------------------------------------------------- seasons and rows

  /** `get_season` of `preprocess_data`. */
  function Season(month: int): (r: string)
    ensures r == "Winter" <==> month == 12 || month == 1 || month == 2
    ensures r == "Spring" <==> 3 <= month <= 5
    ensures r == "Summer" <==> 6 <= month <= 8
    ensures r == "Fall" <==> !(month == 12 || 1 <= month <= 8)
  {
    if month in {12, 1, 2} then "Winter"
    else if month in {3, 4, 5} then "Spring"
    else if month in {6, 7, 8} then "Summer"
    else "Fall"
  }

  const SurveyScoreColumns: seq<string> :=
    ["Q1_Recommend", "Q23_Job_Sat", "Q29_Health_Safety", "Q17_Rarely_Look_Job", "Q28_Stay_2_Years"]

  /** The first of `cols` the row answers with a non-zero value, scanning in order. */
  function FirstScored(row: map<string, real>, cols: seq<string>): (r: Option<nat>)
    ensures r.Some? ==> r.value < |cols| && cols[r.value] in row && row[cols[r.value]] != 0.0
    ensures r.None? <==> forall i :: 0 <= i < |cols| ==> cols[i] !in row || row[cols[i]] == 0.0
  {
    if cols == [] then None
    else if cols[0] in row && row[cols[0]] != 0.0 then Some(0)
    else match FirstScored(row, cols[1..]) case None => None case Some(k) => Some(k + 1)
  }

  /** `has_valid_survey_scores`: one of the five score columns is present, not NaN and not 0
   *  (a missing key of `row` is a NaN cell). */
  predicate HasValidSurveyScores(row: map<string, real>)
  {
    FirstScored(row, SurveyScoreColumns).Some?
  }

  lemma HasValidSurveyScoresIff(row: map<string, real>)
    ensures HasValidSurveyScores(row) <==>
      exists i :: 0 <= i < |SurveyScoreColumns| && SurveyScoreColumns[i] in row && row[SurveyScoreColumns[i]] != 0.0
  {
    if HasValidSurveyScores(row) {
      var k := FirstScored(row, SurveyScoreColumns).value;
      assert SurveyScoreColumns[k] in row;
    }
  }

  /** The group-by columns of `aggregate_metrics`: the requested ones (by default Department,
   *  Year, Quarter) that the frame has; None where it raises ValueError. */
  function GroupColumns(groupBy: Option<seq<string>>, columns: seq<string>): (r: Option<seq<string>>)
    ensures r.Some? ==> r.value != [] && forall c :: c in r.value ==> c in columns
    ensures r.None? <==> forall c :: c in groupBy.GetOr(["Department", "Year", "Quarter"]) ==> c !in columns
  {
    var requested := groupBy.GetOr(["Department", "Year", "Quarter"]);
    var present := KeepPresent(requested, columns);
    if present == [] then None
    else
      assert present[0] in present;
      Some(present)
  }

  function KeepPresent(requested: seq<string>, columns: seq<string>): (r: seq<string>)
    ensures forall c :: c in r <==> c in requested && c in columns
    ensures |r| <= |requested|
  {
    if requested == [] then []
    else (if requested[0] in columns then [requested[0]] else []) + KeepPresent(requested[1..], columns)
  }

  // ---------------------------------------------------------------- per-group counts

  /** A survey record of a group: its respondent id (None where NaN) and its numeric cells. */
  datatype SurveyRecord = SurveyRecord(respondent: Option<string>, scores: map<string, real>)

  function SurveyResponses(group: seq<SurveyRecord>): (r: seq<SurveyRecord>)
    ensures |r| <= |group|
    ensures forall i :: 0 <= i < |r| ==> HasValidSurveyScores(r[i].scores)
  {
    if group == [] then []
    else (if HasValidSurveyScores(group[0].scores) then [group[0]] else []) + SurveyResponses(group[1..])
  }

  function Respondents(records: seq<SurveyRecord>): set<string>
  {
    set i | 0 <= i < |records| && records[i].respondent.Some? :: records[i].respondent.value
  }

  lemma {:induction false} RespondentsBounded(records: seq<SurveyRecord>)
    ensures |Respondents(records)| <= |records|
  {
    if records != [] {
      var rest := records[1..];
      RespondentsBounded(rest);
      var head := if records[0].respondent.Some? then {records[0].respondent.value} else {};
      assert Respondents(records) == head + Respondents(rest) by {
        forall x | x in Respondents(records) ensures x in head + Respondents(rest) {
          var i :| 0 <= i < |records| && records[i].respondent.Some? && records[i].respondent.value == x;
          if i > 0 {
            assert rest[i - 1] == records[i];
          }
        }
        forall x | x in Respondents(rest) ensures x in Respondents(records) {
          var i :| 0 <= i < |rest| && rest[i].respondent.Some? && rest[i].respondent.value == x;
          assert records[i + 1] == rest[i];
        }
      }
    }
  }

  datatype GroupCounts = GroupCounts(
    responseCount: nat, totalEmployees: int, responseRate: Option<real>,
    totalFeedbackCount: nat, openTextOnlyCount: nat)

  /** The counts `aggregate_metrics` reports for one group: distinct respondents among the
   *  full survey responses (every full response when the frame has no id column), and the
   *  open-text-only records as the rest of the group. */
  function GroupCountsOf(group: seq<SurveyRecord>, hasIdColumn: bool, totalEmployees: int): (g: GroupCounts)
    ensures g.totalFeedbackCount == |group|
    ensures g.responseCount + g.openTextOnlyCount <= g.totalFeedbackCount
    ensures g.openTextOnlyCount == |group| - |SurveyResponses(group)|
    ensures !hasIdColumn ==> g.responseCount + g.openTextOnlyCount == g.totalFeedbackCount
  {
    var responses := SurveyResponses(group);
    RespondentsBounded(responses);
    var count := if hasIdColumn then |Respondents(responses)| else |responses|;
    GroupCounts(count, totalEmployees, ResponseRate(count, totalEmployees), |group|, |group| - |responses|)
  }

  /** The group loop of `aggregate_metrics`, one result per group in group order. */
  method AggregateGroups(groups: seq<seq<SurveyRecord>>, hasIdColumn: bool, totalEmployees: seq<int>)
    returns (results: seq<GroupCounts>)
    requires |totalEmployees| == |groups|
    ensures |results| == |groups|
    ensures forall i :: 0 <= i < |groups| ==> results[i] == GroupCountsOf(groups[i], hasIdColumn, totalEmployees[i])
  {
    results := [];
    var i := 0;
    while i < |groups|
      invariant 0 <= i <= |groups|
      invariant |results| == i
      invariant forall j :: 0 <= j < i ==> results[j] == GroupCountsOf(groups[j], hasIdColumn, totalEmployees[j])
    {
      results := results + [GroupCountsOf(groups[i], hasIdColumn, totalEmployees[i])];
      i := i + 1;
    }
  }

  /** `get_risk_summary` needs a department or a position: an empty or missing pair raises
   *  ValueError (None here). */
  function RiskSummaryFilter(department: Option<string>, position: Option<string>): (r: Option<(Option<string>, Option<string>)>)
    ensures r.None? <==> (department.None? || department.value == "") && (position.None? || position.value == "")
    ensures r.Some? ==> r.value == (department, position)
  {
    if (department.None? || department.value == "") && (position.None? || position.value == "") then None
    else Some((department, position))
  }
}
