/**
 * The insights route: for a date range (week, month, quarter or year) it reads the feedback and
 * the survey tables, ranks the feedback themes of the window by impact, computes the engagement
 * metrics of the window against the window before, asks a language model for a summary, and
 * answers with the summary, the critical team count, the top theme and the engagement trend.
 */
module Insight {
  import opened Wrappers
  import PyText
  import Sorting
  import Stats
  import opened Frames
  import Theme
  import LlmJson
  import RiskEngineHelpers

  // ---------------------------------------------------------------- date range

  datatype Period = Week | Month | Quarter | Year

  const ValidRanges: seq<string> := ["week", "month", "quarter", "year"]

  /** The period a `dateRange` names, compared lower-cased. */
  function PeriodOf(dateRange: string): (p: Option<Period>)
    ensures p.Some? <==> PyText.Lower(dateRange) in ValidRanges
  {
    var r := PyText.Lower(dateRange);
    if r == "week" then Some(Week)
    else if r == "month" then Some(Month)
    else if r == "quarter" then Some(Quarter)
    else if r == "year" then Some(Year)
    else None
  }

  function Days(p: Period): nat
  {
    match p
    case Week => 7
    case Month => 30
    case Quarter => 90
    case Year => 365
  }

  /** The current window `[start, end]` and the previous one `[prevStart, prevEnd)`, in seconds. */
  datatype Bounds = Bounds(start: int, end: int, prevStart: int, prevEnd: int)

  /** `get_date_range`: the window of the period ending now, and the window of the same length
   *  before it; an unknown range raises `ValueError`. */
  function DateRange(today: int, dateRange: string): Result<Bounds>
  {
    match PeriodOf(dateRange)
    case None => Err(HttpError(500, "Invalid date range: " + dateRange))
    case Some(p) =>
      var start := today - Days(p) * Theme.SecondsPerDay;
      Ok(Bounds(start, today, start - Days(p) * Theme.SecondsPerDay, start))
  }

  /** The range is known exactly for the four period names; the current window ends now, the
   *  previous window ends where the current one starts, and both last the period's days. */
  lemma DateRangeShape(today: int, dateRange: string)
    ensures DateRange(today, dateRange).Ok? <==> PyText.Lower(dateRange) in ValidRanges
    ensures DateRange(today, dateRange).Err? ==>
      DateRange(today, dateRange).error.detail == "Invalid date range: " + dateRange
    ensures DateRange(today, dateRange).Ok? ==>
      var b := DateRange(today, dateRange).value;
      var p := PeriodOf(dateRange).value;
      b.end == today && b.prevEnd == b.start
      && b.end - b.start == Days(p) * Theme.SecondsPerDay
      && b.prevEnd - b.prevStart == Days(p) * Theme.SecondsPerDay
      && b.prevStart < b.start < b.end
  {
  }

  // ---------------------------------------------------------------- dominant sentiment

  /** The index among `cands[i..]` (or `best`) of the first label occurring most often in
   *  `labels`. */
  function ModeIndex(labels: seq<string>, cands: seq<string>, i: nat, best: nat): (r: nat)
    requires best < i <= |cands|
    ensures r < |cands|
    decreases |cands| - i
  {
    if i == |cands| then best
    else if Theme.Occurrences(labels, cands[i]) > Theme.Occurrences(labels, cands[best]) then ModeIndex(labels, cands, i + 1, i)
    else ModeIndex(labels, cands, i + 1, best)
  }

  /** `mode()[0]`: the modes of the labels come sorted, and the first is taken. */
  function SmallestMode(labels: seq<string>): string
    requires labels != []
  {
    var cands := Sorting.SortedUnique(labels);
    assert labels[0] in cands;
    cands[ModeIndex(labels, cands, 1, 0)]
  }

  lemma {:induction false} ModeIndexFirst(labels: seq<string>, cands: seq<string>, i: nat, best: nat)
    requires best < i <= |cands|
    requires forall k :: 0 <= k < i ==> Theme.Occurrences(labels, cands[k]) <= Theme.Occurrences(labels, cands[best])
    requires forall k :: 0 <= k < best ==> Theme.Occurrences(labels, cands[k]) < Theme.Occurrences(labels, cands[best])
    ensures var r := ModeIndex(labels, cands, i, best);
      (forall k :: 0 <= k < |cands| ==> Theme.Occurrences(labels, cands[k]) <= Theme.Occurrences(labels, cands[r]))
      && (forall k :: 0 <= k < r ==> Theme.Occurrences(labels, cands[k]) < Theme.Occurrences(labels, cands[r]))
    decreases |cands| - i
  {
    if i < |cands| {
      if Theme.Occurrences(labels, cands[i]) > Theme.Occurrences(labels, cands[best]) {
        ModeIndexFirst(labels, cands, i + 1, i);
      } else {
        ModeIndexFirst(labels, cands, i + 1, best);
      }
    }
  }

  /** The dominant sentiment is a label no other label outnumbers, and of the labels as frequent
   *  as it, the smallest. */
  lemma SmallestModeIsMode(labels: seq<string>)
    requires labels != []
    ensures SmallestMode(labels) in labels
    ensures forall l :: l in labels ==> Theme.Occurrences(labels, l) <= Theme.Occurrences(labels, SmallestMode(labels))
    ensures forall l :: l in labels && Theme.Occurrences(labels, l) == Theme.Occurrences(labels, SmallestMode(labels)) ==>
      l == SmallestMode(labels) || Sorting.LexLess(SmallestMode(labels), l)
  {
    var cands := Sorting.SortedUnique(labels);
    assert labels[0] in cands;
    var r := ModeIndex(labels, cands, 1, 0);
    ModeIndexFirst(labels, cands, 1, 0);
    Sorting.SortedUniqueIncreasing(labels);
    forall l | l in labels
      ensures Theme.Occurrences(labels, l) <= Theme.Occurrences(labels, cands[r])
      ensures Theme.Occurrences(labels, l) == Theme.Occurrences(labels, cands[r]) ==> l == cands[r] || Sorting.LexLess(cands[r], l)
    {
      assert l in cands;
      var k :| 0 <= k < |cands| && cands[k] == l;
      if k > r {
        assert Sorting.LexLess(cands[r], cands[k]);
      }
    }
  }

  /** The sentiment of a theme: "neutral" without a label column, otherwise the smallest mode
   *  of the group's labels; None when the group has no label at all, where `mode()[0]` raises
   *  `KeyError: 0`. */
  function Dominant(group: seq<Theme.Mention>, labelled: bool): (r: Option<string>)
    ensures !labelled ==> r == Some("neutral")
    ensures r.None? <==> labelled && Theme.Labels(group) == []
    ensures labelled && r.Some? ==> r.value in Theme.Labels(group)
    ensures labelled && r.Some? ==> forall l :: l in Theme.Labels(group) ==> Theme.Occurrences(Theme.Labels(group), l) <= Theme.Occurrences(Theme.Labels(group), r.value)
  {
    if !labelled then Some("neutral")
    else
      var labels := Theme.Labels(group);
      if labels == [] then None
      else
        SmallestModeIsMode(labels);
        Some(SmallestMode(labels))
  }

  // ---------------------------------------------------------------- themes

  datatype InsightTheme = InsightTheme(name: string, impact: int, sentiment: string)

  /** The ranked themes and the first of them. */
  datatype ThemeData = ThemeData(themes: seq<InsightTheme>, top: Option<InsightTheme>)

  const NoThemes: ThemeData := ThemeData([], None)

  /** A mention of the current window `[start, end]`. */
  predicate InWindow(b: Bounds, m: Theme.Mention)
  {
    m.submitted.Some? && b.start <= m.submitted.value <= b.end
  }

  function InWindowOf(b: Bounds): Theme.Mention -> bool
  {
    (m: Theme.Mention) => InWindow(b, m)
  }

  /** The mentions of category `c`. */
  function Mentioned(current: seq<Theme.Mention>, c: string): nat
  {
    Stats.Count(current, Theme.OfCategory(c))
  }

  /** `a` comes before `b` in `value_counts()`: it has more mentions. */
  function ByCount(current: seq<Theme.Mention>): (string, string) -> bool
  {
    (a: string, b: string) => Mentioned(current, a) > Mentioned(current, b)
  }

  /** The order `value_counts()` yields the named categories in: most mentioned first. */
  function CountOrder(current: seq<Theme.Mention>): (r: seq<string>)
    ensures multiset(r) == multiset(Theme.Categories(current))
    ensures forall i, j :: 0 <= i < j < |r| ==> Mentioned(current, r[i]) >= Mentioned(current, r[j])
  {
    Sorting.SortByPermutes(Theme.Categories(current), ByCount(current));
    ByCountIsStrictOrder(current);
    Sorting.SortBySorted(Theme.Categories(current), ByCount(current));
    Sorting.SortBy(Theme.Categories(current), ByCount(current))
  }

  /** The theme of category `c`: its impact among all current mentions and its dominant
   *  sentiment; None when that sentiment raises. */
  function RowOf(current: seq<Theme.Mention>, labelled: bool, c: string): (r: Option<InsightTheme>)
    ensures r.None? <==> labelled && Theme.Labels(Stats.Filter(current, Theme.OfCategory(c))) == []
    ensures r.Some? ==> r.value.name == c && 0 <= r.value.impact <= 100
    ensures r.Some? ==> r.value.impact == Theme.ImpactQuotient(Mentioned(current, c), |current|)
    ensures r.Some? && !labelled ==> r.value.sentiment == "neutral"
    ensures r.Some? && labelled ==> r.value.sentiment in Theme.Labels(Stats.Filter(current, Theme.OfCategory(c)))
  {
    var group := Stats.Filter(current, Theme.OfCategory(c));
    Theme.ImpactBounds(|group|, |current|);
    Theme.ImpactIsQuotient(|group|, |current|);
    var sentiment := Dominant(group, labelled);
    if sentiment.None? then None
    else Some(InsightTheme(c, Theme.ImpactQuotient(|group|, |current|), sentiment.value))
  }

  /** The loop over `value_counts()`: one theme per category in `order`; the first category whose
   *  sentiment raises ends it with the 500 the route answers for `KeyError: 0`. */
  function ThemeRows(current: seq<Theme.Mention>, labelled: bool, order: seq<string>): (r: Result<seq<InsightTheme>>)
    ensures r.Ok? ==> |r.value| == |order|
    ensures r.Ok? ==> forall i :: 0 <= i < |order| ==> RowOf(current, labelled, order[i]) == Some(r.value[i])
    ensures r.Err? ==> r.error == HttpError(500, "0")
    decreases |order|
  {
    if order == [] then Ok([])
    else
      var init := ThemeRows(current, labelled, order[..|order| - 1]);
      var row := RowOf(current, labelled, order[|order| - 1]);
      if init.Err? then init
      else if row.None? then Err(HttpError(500, "0"))
      else
        assert forall i :: 0 <= i < |order| - 1 ==> order[..|order| - 1][i] == order[i];
        Ok(init.value + [row.value])
  }

  /** `a` sorts before `b` in `themes.sort(key=impact, reverse=True)`. */
  predicate HigherImpact(a: InsightTheme, b: InsightTheme)
  {
    a.impact > b.impact
  }

  /** The themes sorted by impact and the first of them. */
  function Ranked(rows: seq<InsightTheme>): ThemeData
  {
    var themes := Sorting.SortBy(rows, HigherImpact);
    ThemeData(themes, if themes == [] then None else Some(themes[0]))
  }

  /** `get_theme_data`: nothing for an empty table or an empty window; a 500 for an unparsable
   *  date, a missing date or category column, or a theme whose sentiment labels are all NaN;
   *  otherwise the ranked themes of the window. */
  function ThemeDataOf(f: Frame, parse: string -> Option<int>, b: Bounds): (r: Result<ThemeData>)
    ensures f.rows == [] || f.columns == {} ==> r == Ok(NoThemes)
    ensures "submission_date" !in f.columns && f.rows != [] && f.columns != {} ==> r == Err(HttpError(500, "'submission_date'"))
    ensures r.Err? ==> r.error.status == 500
    ensures r.Ok? ==> (forall i, j :: 0 <= i < j < |r.value.themes| ==> r.value.themes[i].impact >= r.value.themes[j].impact)
    ensures r.Ok? ==> (r.value.top.None? <==> r.value.themes == [])
    ensures r.Ok? && r.value.top.Some? ==> r.value.top.value == r.value.themes[0]
  {
    if f.rows == [] || f.columns == {} then Ok(NoThemes)
    else if "submission_date" !in f.columns then Err(HttpError(500, "'submission_date'"))
    else
      var ms := Theme.Mentions(f.rows, parse);
      if ms.Err? then Err(ms.error)
      else
        var current := Stats.Filter(ms.value, InWindowOf(b));
        if current == [] then Ok(NoThemes)
        else if "category" !in f.columns then Err(HttpError(500, "'category'"))
        else
          var rows := ThemeRows(current, "sentiment_label" in f.columns, CountOrder(current));
          if rows.Err? then Err(rows.error)
          else
            RankedSorted(rows.value);
            Ok(Ranked(rows.value))
  }

  /** The themes are sorted by impact, highest first, and are a permutation of the rows; the top
   *  theme is the first, has the highest impact, and is absent only when there is no theme. */
  lemma RankedSorted(rows: seq<InsightTheme>)
    ensures var d := Ranked(rows);
      multiset(d.themes) == multiset(rows)
      && (forall i, j :: 0 <= i < j < |d.themes| ==> d.themes[i].impact >= d.themes[j].impact)
      && (d.top.None? <==> rows == [])
      && (d.top.Some? ==> d.top.value in rows && forall t :: t in rows ==> t.impact <= d.top.value.impact)
  {
    var themes := Sorting.SortBy(rows, HigherImpact);
    Sorting.SortByPermutes(rows, HigherImpact);
    assert Sorting.StrictOrder(HigherImpact);
    Sorting.SortBySorted(rows, HigherImpact);
    if themes != [] {
      assert themes[0] in multiset(rows);
      forall t | t in rows ensures t.impact <= themes[0].impact {
        assert t in multiset(themes);
        var k :| 0 <= k < |themes| && themes[k] == t;
        if k > 0 {
          assert !HigherImpact(themes[k], themes[0]);
        }
      }
    }
  }

  lemma ByCountIsStrictOrder(current: seq<Theme.Mention>)
    ensures Sorting.StrictOrder(ByCount(current))
  {
  }

  /** The categories come most mentioned first, so their impacts never rise along the rows and
   *  sorting by impact leaves the rows in `value_counts()` order. */
  lemma ImpactSortKeepsCountOrder(current: seq<Theme.Mention>, labelled: bool)
    requires ThemeRows(current, labelled, CountOrder(current)).Ok?
    ensures var rows := ThemeRows(current, labelled, CountOrder(current)).value;
      Ranked(rows).themes == rows
  {
    var order := CountOrder(current);
    var rows := ThemeRows(current, labelled, order).value;
    ByCountIsStrictOrder(current);
    Sorting.SortBySorted(Theme.Categories(current), ByCount(current));
    forall i, j | 0 <= i < j < |rows| ensures !HigherImpact(rows[j], rows[i]) {
      assert !ByCount(current)(order[j], order[i]);
      ImpactQuotientMonotone(Mentioned(current, order[j]), Mentioned(current, order[i]), |current|);
      assert rows[i].impact == Theme.ImpactQuotient(Mentioned(current, order[i]), |current|);
      assert rows[j].impact == Theme.ImpactQuotient(Mentioned(current, order[j]), |current|);
    }
    Sorting.SortByOrdered(rows, HigherImpact);
  }

  lemma ImpactQuotientMonotone(f1: nat, f2: nat, total: nat)
    requires f1 <= f2
    ensures Theme.ImpactQuotient(f1, total) <= Theme.ImpactQuotient(f2, total)
  {
    Theme.ImpactMonotone(f1, f2, total);
    Theme.ImpactIsQuotient(f1, total);
    Theme.ImpactIsQuotient(f2, total);
  }

  /** The themes are exactly the named categories of the window. */
  lemma ThemeRowsNamed(current: seq<Theme.Mention>, labelled: bool)
    requires ThemeRows(current, labelled, CountOrder(current)).Ok?
    ensures var rows := ThemeRows(current, labelled, CountOrder(current)).value;
      forall c :: (exists i :: 0 <= i < |rows| && rows[i].name == c) <==>
        c != "" && exists m :: m in current && m.category == Some(c)
  {
    var order := CountOrder(current);
    var rows := ThemeRows(current, labelled, order).value;
    var cats := Theme.Categories(current);
    assert |rows| == |order| && forall i :: 0 <= i < |rows| ==> rows[i].name == order[i] by {
      ThemeRowsImpact(current, labelled, order);
    }
    assert multiset(order) == multiset(cats) by {
      Sorting.SortByPermutes(cats, ByCount(current));
    }
    assert forall c :: c in cats <==> c != "" && exists m :: m in current && m.category == Some(c) by {
      Theme.CategoriesNamed(current);
    }
    NamesCover(rows, order, cats);
  }

  /** Rows named after a permutation of `cats` name exactly the elements of `cats`. */
  lemma NamesCover(rows: seq<InsightTheme>, order: seq<string>, cats: seq<string>)
    requires |rows| == |order| && forall i :: 0 <= i < |rows| ==> rows[i].name == order[i]
    requires multiset(order) == multiset(cats)
    ensures forall c :: (exists i :: 0 <= i < |rows| && rows[i].name == c) <==> c in cats
  {
    forall c ensures (exists i :: 0 <= i < |rows| && rows[i].name == c) <==> c in cats {
      if c in cats {
        assert c in multiset(order);
        var i :| 0 <= i < |order| && order[i] == c;
        assert rows[i].name == c;
      }
      if exists i :: 0 <= i < |rows| && rows[i].name == c {
        var i :| 0 <= i < |rows| && rows[i].name == c;
        assert order[i] in multiset(cats);
      }
    }
  }

  /** Each theme has the share of the window's mentions its category has, in percent rounded
   *  down. */
  lemma ThemeRowsImpact(current: seq<Theme.Mention>, labelled: bool, order: seq<string>)
    requires ThemeRows(current, labelled, order).Ok?
    ensures var rows := ThemeRows(current, labelled, order).value;
      forall i :: 0 <= i < |rows| ==>
        rows[i].name == order[i]
        && rows[i].impact == Theme.ImpactQuotient(Mentioned(current, rows[i].name), |current|)
        && 0 <= rows[i].impact <= 100
  {
    var rows := ThemeRows(current, labelled, order).value;
    forall i | 0 <= i < |rows|
      ensures rows[i].name == order[i]
      ensures rows[i].impact == Theme.ImpactQuotient(Mentioned(current, rows[i].name), |current|)
      ensures 0 <= rows[i].impact <= 100
    {
      assert RowOf(current, labelled, order[i]) == Some(rows[i]);
      var n := Mentioned(current, order[i]);
      Theme.ImpactBounds(n, |current|);
      Theme.ImpactIsQuotient(n, |current|);
    }
  }

  /** The sentiment raises exactly when the table has a label column and some category of
   *  `order` has no label among its mentions. */
  lemma {:induction false} ThemeRowsFail(current: seq<Theme.Mention>, labelled: bool, order: seq<string>)
    ensures ThemeRows(current, labelled, order).Err? <==>
      labelled && exists i :: 0 <= i < |order| && Theme.Labels(Stats.Filter(current, Theme.OfCategory(order[i]))) == []
    decreases |order|
  {
    if order != [] {
      var init := order[..|order| - 1];
      ThemeRowsFail(current, labelled, init);
      assert forall i :: 0 <= i < |init| ==> init[i] == order[i];
      if labelled && exists i :: 0 <= i < |order| && Theme.Labels(Stats.Filter(current, Theme.OfCategory(order[i]))) == [] {
        var i :| 0 <= i < |order| && Theme.Labels(Stats.Filter(current, Theme.OfCategory(order[i]))) == [];
        if i < |init| {
          assert Theme.Labels(Stats.Filter(current, Theme.OfCategory(init[i]))) == [];
        }
      }
    }
  }

  /** Once a prefix of `order` fails, the whole loop fails. */
  lemma {:induction false} ThemeRowsFailSticks(current: seq<Theme.Mention>, labelled: bool, order: seq<string>, n: nat)
    requires n <= |order| && ThemeRows(current, labelled, order[..n]).Err?
    ensures ThemeRows(current, labelled, order).Err?
    decreases |order|
  {
    if n < |order| {
      var init := order[..|order| - 1];
      assert init[..n] == order[..n];
      ThemeRowsFailSticks(current, labelled, init, n);
    } else {
      assert order[..n] == order;
    }
  }

  /** The loop of `get_theme_data` over the categories. */
  method BuildThemes(current: seq<Theme.Mention>, labelled: bool, order: seq<string>)
    returns (r: Result<seq<InsightTheme>>)
    ensures r == ThemeRows(current, labelled, order)
  {
    var themes: seq<InsightTheme> := [];
    var i := 0;
    while i < |order|
      invariant 0 <= i <= |order|
      invariant ThemeRows(current, labelled, order[..i]) == Ok(themes)
    {
      var c := order[i];
      var group := Stats.Filter(current, Theme.OfCategory(c));
      var sentiment := Dominant(group, labelled);
      if sentiment.None? {
        ThemeRowsStep(current, labelled, order, i);
        ThemeRowsFailSticks(current, labelled, order, i + 1);
        return Err(HttpError(500, "0"));
      }
      var row := InsightTheme(c, Theme.ImpactQuotient(|group|, |current|), sentiment.value);
      ThemeRowsStep(current, labelled, order, i);
      themes := themes + [row];
      i := i + 1;
    }
    assert order[..i] == order;
    r := Ok(themes);
  }

  /** One more category: the loop fails or gains that category's row. */
  lemma ThemeRowsStep(current: seq<Theme.Mention>, labelled: bool, order: seq<string>, i: nat)
    requires i < |order| && ThemeRows(current, labelled, order[..i]).Ok?
    ensures var row := RowOf(current, labelled, order[i]);
      ThemeRows(current, labelled, order[..i + 1]) ==
        if row.None? then Err(HttpError(500, "0")) else Ok(ThemeRows(current, labelled, order[..i]).value + [row.value])
  {
    assert order[..i + 1][..i] == order[..i];
  }

  /** `get_theme_data`, the loop and the sort as the route runs them. */
  method GetThemeData(f: Frame, parse: string -> Option<int>, b: Bounds) returns (r: Result<ThemeData>)
    ensures r == ThemeDataOf(f, parse, b)
  {
    if f.rows == [] || f.columns == {} {
      return Ok(NoThemes);
    }
    if "submission_date" !in f.columns {
      return Err(HttpError(500, "'submission_date'"));
    }
    var ms := Theme.Mentions(f.rows, parse);
    if ms.Err? {
      return Err(ms.error);
    }
    var current := Stats.Filter(ms.value, InWindowOf(b));
    if current == [] {
      return Ok(NoThemes);
    }
    if "category" !in f.columns {
      return Err(HttpError(500, "'category'"));
    }
    var rows := BuildThemes(current, "sentiment_label" in f.columns, CountOrder(current));
    if rows.Err? {
      return Err(rows.error);
    }
    var themes := Sorting.SortBy(rows.value, HigherImpact);
    r := Ok(ThemeData(themes, if themes == [] then None else Some(themes[0])));
  }

  // ---------------------------------------------------------------- metrics

  /** A survey item: its numeric answers by column, its raw submission date, department and
   *  `burnout_rate` (None where the item lacks them). */
  datatype SurveyRow = SurveyRow(answers: map<string, real>, submitted: Option<string>,
                                 department: Option<string>, burnout: Option<real>)

  /** The survey frame: its column labels in order and its rows. */
  datatype Survey = Survey(columns: seq<string>, rows: seq<SurveyRow>)

  /** A survey row after `calculate_row_metrics` and `pd.to_datetime(errors='coerce')`. */
  datatype Scored = Scored(when: Option<int>, department: Option<string>, engagement: Option<real>,
                           attrition: Option<real>, burnout: Option<real>)

  predicate Percentage(r: Option<real>)
  {
    r.Some? ==> 0.0 <= r.value <= 100.0
  }

  /** One row's rates; `parse` stands for `pd.to_datetime` on one value (None for NaT). */
  function ScoredOf(columns: seq<string>, parse: string -> Option<int>, row: SurveyRow): (x: Scored)
    ensures Percentage(x.engagement) && Percentage(x.attrition)
  {
    var scores := RiskEngineHelpers.ScoresOf(RiskEngineHelpers.RowMetrics, columns, row.answers);
    Scored(if row.submitted.Some? then parse(row.submitted.value) else None, row.department,
           scores.engagementRate, scores.attritionRate, row.burnout)
  }

  function ScoredRows(s: Survey, parse: string -> Option<int>): (r: seq<Scored>)
    ensures |r| == |s.rows|
    ensures forall i :: 0 <= i < |r| ==> Percentage(r[i].engagement) && Percentage(r[i].attrition)
  {
    seq(|s.rows|, i requires 0 <= i < |s.rows| => ScoredOf(s.columns, parse, s.rows[i]))
  }

  predicate InCurrent(b: Bounds, x: Scored)
  {
    x.when.Some? && b.start <= x.when.value <= b.end
  }

  predicate InPrevious(b: Bounds, x: Scored)
  {
    x.when.Some? && b.prevStart <= x.when.value < b.prevEnd
  }

  function CurrentOf(b: Bounds): Scored -> bool
  {
    (x: Scored) => InCurrent(b, x)
  }

  function PreviousOf(b: Bounds): Scored -> bool
  {
    (x: Scored) => InPrevious(b, x)
  }

  /** The engagement rates that are not NaN, in order. */
  function Engagements(xs: seq<Scored>): (r: seq<real>)
    ensures |r| <= |xs|
    ensures (forall i :: 0 <= i < |xs| ==> Percentage(xs[i].engagement)) ==>
      forall i :: 0 <= i < |r| ==> 0.0 <= r[i] <= 100.0
  {
    if xs == [] then []
    else (if xs[0].engagement.Some? then [xs[0].engagement.value] else []) + Engagements(xs[1..])
  }

  /** `['engagement_rate'].mean()`: NaN (None) when every rate is NaN. */
  function MeanEngagement(xs: seq<Scored>): Option<real>
  {
    Stats.Mean(Engagements(xs))
  }

  /** The change from the previous mean to the current one in percent of the previous; 0 when
   *  the previous mean is not positive (NaN included). */
  function TrendOf(avg: Option<real>, prev: Option<real>): (r: Option<real>)
    ensures r.None? <==> prev.Some? && prev.value > 0.0 && avg.None?
    ensures avg == prev ==> r == Some(0.0)
  {
    if prev.Some? && prev.value > 0.0 then
      (if avg.Some? then Some((avg.value - prev.value) / prev.value * 100.0) else None)
    else Some(0.0)
  }

  /** The trend rises exactly when the current mean is above a positive previous one, falls when
   *  it is below, and is 0 otherwise. */
  lemma TrendOfSign(avg: Option<real>, prev: Option<real>)
    ensures !(prev.Some? && prev.value > 0.0) ==> TrendOf(avg, prev) == Some(0.0)
    ensures prev.Some? && prev.value > 0.0 && avg.Some? ==>
      (TrendOf(avg, prev).value > 0.0 <==> avg.value > prev.value)
      && (TrendOf(avg, prev).value < 0.0 <==> avg.value < prev.value)
      && (TrendOf(avg, prev).value == 0.0 <==> avg.value == prev.value)
  {
    if prev.Some? && prev.value > 0.0 && avg.Some? {
      var d := avg.value - prev.value;
      assert TrendOf(avg, prev).value == d / prev.value * 100.0;
      assert d > 0.0 <==> d / prev.value > 0.0;
      assert d < 0.0 <==> d / prev.value < 0.0;
    }
  }

  /** The department groups of `groupby('department')`: the distinct names, NaN left out. */
  function DepartmentNames(xs: seq<Scored>): (r: seq<string>)
    ensures forall d :: d in r <==> exists x :: x in xs && x.department == Some(d)
  {
    Sorting.SortedUnique(Departments(xs))
  }

  function Departments(xs: seq<Scored>): (r: seq<string>)
    ensures forall d :: d in r <==> exists x :: x in xs && x.department == Some(d)
  {
    if xs == [] then []
    else
      var rest := Departments(xs[1..]);
      assert forall x :: x in xs[1..] ==> x in xs;
      assert forall x :: x in xs ==> x == xs[0] || x in xs[1..];
      (if xs[0].department.Some? then [xs[0].department.value] else []) + rest
  }

  function InDepartment(d: string): Scored -> bool
  {
    (x: Scored) => x.department == Some(d)
  }

  /** A department whose mean engagement in the window is below 55. */
  predicate IsCritical(xs: seq<Scored>, d: string)
  {
    var m := MeanEngagement(Stats.Filter(xs, InDepartment(d)));
    m.Some? && m.value < 55.0
  }

  function CriticalOf(xs: seq<Scored>): string -> bool
  {
    (d: string) => IsCritical(xs, d)
  }

  predicate BurnoutAlert(x: Scored)
  {
    x.burnout.Some? && x.burnout.value > 50.0
  }

  predicate AttritionRisk(x: Scored)
  {
    x.attrition.Some? && x.attrition.value > 50.0
  }

  datatype MetricsData = MetricsData(avgEngagement: Option<real>, engagementTrend: Option<real>,
                                     criticalTeams: nat, burnoutAlerts: nat, attritionRisk: nat)

  const NoMetrics: MetricsData := MetricsData(Some(0.0), Some(0.0), 0, 0, 0)

  /** `get_metrics_data`: zeros for an empty table, a 500 when the date column is missing,
   *  otherwise the window's mean engagement, its trend against the previous window (the current
   *  mean standing in for an empty previous window), the departments below 55, and the rows over
   *  50 in burnout (when the column exists) and in attrition. */
  function MetricsDataOf(s: Survey, parse: string -> Option<int>, b: Bounds): (r: Result<MetricsData>)
    ensures s.rows == [] || s.columns == [] ==> r == Ok(NoMetrics)
    ensures r.Err? <==> s.rows != [] && s.columns != [] && "submission_date" !in s.columns
    ensures r.Err? ==> r.error == HttpError(500, "'submission_date'")
    ensures r.Ok? ==> r.value.burnoutAlerts <= |s.rows| && r.value.attritionRisk <= |s.rows|
    ensures r.Ok? && "department" !in s.columns ==> r.value.criticalTeams == 0
    ensures r.Ok? && "burnout_rate" !in s.columns ==> r.value.burnoutAlerts == 0
    ensures r.Ok? ==> Percentage(r.value.avgEngagement)
  {
    if s.rows == [] || s.columns == [] then Ok(NoMetrics)
    else if "submission_date" !in s.columns then Err(HttpError(500, "'submission_date'"))
    else
      var xs := ScoredRows(s, parse);
      var current := Stats.Filter(xs, CurrentOf(b));
      assert forall i :: 0 <= i < |current| ==> current[i] in xs;
      MeanEngagementRange(current);
      var previous := Stats.Filter(xs, PreviousOf(b));
      var avg := if current == [] then Some(0.0) else MeanEngagement(current);
      var prev := if previous == [] then avg else MeanEngagement(previous);
      var critical := if current != [] && "department" in s.columns then Stats.Count(DepartmentNames(current), CriticalOf(current)) else 0;
      Ok(MetricsData(avg, TrendOf(avg, prev), critical,
                     if "burnout_rate" in s.columns then Stats.Count(current, BurnoutAlert) else 0,
                     Stats.Count(current, AttritionRisk)))
  }

  lemma MeanEngagementRange(xs: seq<Scored>)
    requires forall i :: 0 <= i < |xs| ==> Percentage(xs[i].engagement)
    ensures Percentage(MeanEngagement(xs))
  {
    Stats.MeanWithin(Engagements(xs), 0.0, 100.0);
  }

  /** The critical count is the number of the window's departments with a mean engagement below
   *  55: none when no department is below, all of them when every one is. */
  lemma CriticalTeamsCount(xs: seq<Scored>)
    ensures Stats.Count(DepartmentNames(xs), CriticalOf(xs)) <= |DepartmentNames(xs)|
    ensures (forall d :: d in DepartmentNames(xs) ==> !IsCritical(xs, d)) ==>
      Stats.Count(DepartmentNames(xs), CriticalOf(xs)) == 0
    ensures (forall d :: d in DepartmentNames(xs) ==> IsCritical(xs, d)) ==>
      Stats.Count(DepartmentNames(xs), CriticalOf(xs)) == |DepartmentNames(xs)|
  {
    var names := DepartmentNames(xs);
    CountAll(names, CriticalOf(xs));
  }

  lemma {:induction false} CountAll<T>(s: seq<T>, p: T -> bool)
    ensures (forall x :: x in s ==> !p(x)) ==> Stats.Count(s, p) == 0
    ensures (forall x :: x in s ==> p(x)) ==> Stats.Count(s, p) == |s|
  {
    if s != [] {
      assert forall x :: x in s[1..] ==> x in s;
      CountAll(s[1..], p);
    }
  }

  /** Without submissions in the previous window the trend is 0. */
  lemma TrendWithoutHistory(s: Survey, parse: string -> Option<int>, b: Bounds)
    requires MetricsDataOf(s, parse, b).Ok?
    requires Stats.Filter(ScoredRows(s, parse), PreviousOf(b)) == []
    ensures MetricsDataOf(s, parse, b).value.engagementTrend == Some(0.0)
  {
    if !(s.rows == [] || s.columns == []) {
      var xs := ScoredRows(s, parse);
      var current := Stats.Filter(xs, CurrentOf(b));
      var avg := if current == [] then Some(0.0) else MeanEngagement(current);
      if avg.Some? && avg.value > 0.0 {
        assert (avg.value - avg.value) / avg.value * 100.0 == 0.0;
      }
    }
  }

  /** With submissions in both windows, the trend compares their mean engagements. */
  lemma TrendComparesWindows(s: Survey, parse: string -> Option<int>, b: Bounds)
    requires s.rows != [] && s.columns != [] && "submission_date" in s.columns
    ensures var xs := ScoredRows(s, parse);
      var current := Stats.Filter(xs, CurrentOf(b));
      var previous := Stats.Filter(xs, PreviousOf(b));
      current != [] && previous != [] ==>
        MetricsDataOf(s, parse, b).value.avgEngagement == MeanEngagement(current)
        && MetricsDataOf(s, parse, b).value.engagementTrend == TrendOf(MeanEngagement(current), MeanEngagement(previous))
  {
  }

  // ---------------------------------------------------------------- the summary

  /** The pattern line 141 of the route actually replaces: the two string literals there are read
   *  as one triple-quoted string. */
  const MisreadPattern: string := ", '\"').replace("

  /** The route's clean-up as written: fences, outermost braces, control characters, and the
   *  replacement of `MisreadPattern` by a quote. */
  function CleanSummaryTextAsWritten(raw: string): (r: string)
    ensures '\'' !in CommonSteps(raw) ==> r == CommonSteps(raw)
  {
    ApostropheInPattern();
    if '\'' !in CommonSteps(raw) then
      ReplaceAbsent(CommonSteps(raw), MisreadPattern, "\"", '\'');
      PyText.Replace(CommonSteps(raw), MisreadPattern, "\"")
    else PyText.Replace(CommonSteps(raw), MisreadPattern, "\"")
  }

  /** The steps both clean-ups share: fences, outermost braces, control characters. */
  function CommonSteps(raw: string): string
  {
    LlmJson.DropControls(LlmJson.ExtractObject(LlmJson.StripFences(raw)))
  }

  /** Curly double quotes to '"'. */
  function StraightenDoubleQuotes(s: string): (r: string)
    ensures |r| == |s|
    ensures forall i :: 0 <= i < |r| ==> r[i] != '“' && r[i] != '”'
    ensures forall i :: 0 <= i < |s| && s[i] != '“' && s[i] != '”' ==> r[i] == s[i]
  {
    PyText.ReplaceChar(PyText.ReplaceChar(s, '“', '"'), '”', '"')
  }

  /** The clean-up as intended: the same steps, then the curly double quotes straightened. */
  function CleanSummaryText(raw: string): (r: string)
    ensures '“' !in r && '”' !in r
    ensures |r| == |CommonSteps(raw)|
    ensures forall i :: 0 <= i < |r| && CommonSteps(raw)[i] != '“' && CommonSteps(raw)[i] != '”' ==> r[i] == CommonSteps(raw)[i]
  {
    StraightenDoubleQuotes(CommonSteps(raw))
  }

  /** A text of one object without a fence, a control character or an apostrophe passes the
   *  clean-up as written unchanged, curly quotes included. */
  lemma CurlyQuotesKeptAsWritten(s: string)
    requires |s| >= 2 && s[0] == '{' && s[|s| - 1] == '}'
    requires !PyText.Contains(s, LlmJson.Fence)
    requires forall i :: 0 <= i < |s| ==> !LlmJson.IsControl(s[i])
    requires '\'' !in s
    ensures CleanSummaryTextAsWritten(s) == s
  {
    var common := CommonSteps(s);
    assert common == s by {
      CommonStepsKeep(s);
    }
    assert PyText.Replace(common, MisreadPattern, "\"") == common by {
      ApostropheInPattern();
      ReplaceAbsent(common, MisreadPattern, "\"", '\'');
    }
  }

  /** The intended clean-up leaves no curly double quote, whatever the reply. */
  lemma NoCurlyDoubleQuotesLeft(raw: string)
    ensures '“' !in CleanSummaryText(raw) && '”' !in CleanSummaryText(raw)
  {
    var r := CleanSummaryText(raw);
    assert forall i :: 0 <= i < |r| ==> r[i] != '“' && r[i] != '”';
  }

  lemma ApostropheInPattern()
    ensures '\'' in MisreadPattern
  {
    assert MisreadPattern[2] == '\'';
  }

  /** Replacing a pattern with a character the text lacks changes nothing. */
  lemma ReplaceAbsent(s: string, pat: string, rep: string, c: char)
    requires |pat| > 0 && c in pat && c !in s
    ensures PyText.Replace(s, pat, rep) == s
  {
    NotContained(s, pat, c);
  }

  /** Such a text passes the steps both clean-ups share unchanged. */
  lemma CommonStepsKeep(s: string)
    requires |s| >= 2 && s[0] == '{' && s[|s| - 1] == '}'
    requires !PyText.Contains(s, LlmJson.Fence)
    requires forall i :: 0 <= i < |s| ==> !LlmJson.IsControl(s[i])
    ensures CommonSteps(s) == s
  {
    assert LlmJson.StripFences(s) == s;
    assert LlmJson.ExtractObject(s) == s by {
      assert '}' !in s[|s|..];
      assert s[..0] == [];
      LlmJson.ExtractObjectSpan(s, 0, |s| - 1);
      assert s[0..|s|] == s;
    }
    LlmJson.DropControlsClean(s);
  }

  /** A text lacking a character of `t` does not contain `t`. */
  lemma {:induction false} NotContained(s: string, t: string, c: char)
    requires c in t && c !in s
    ensures !PyText.Contains(s, t)
    decreases |s|
  {
    if |s| > 0 {
      assert c !in s[1..];
      NotContained(s[1..], t, c);
    }
    var k :| 0 <= k < |t| && t[k] == c;
    LlmJson.Absent(s, c);
    if |t| <= |s| {
      assert s[..|t|][k] != t[k];
    }
  }

  /** The reply `{“}` keeps its curly quote as written, and the intended clean-up leaves none. */
  lemma CurlyQuotesExample(reply: string)
    requires reply == ['{', '“', '}']
    ensures CleanSummaryTextAsWritten(reply) == reply && '“' in CleanSummaryTextAsWritten(reply)
    ensures '“' !in CleanSummaryText(reply)
  {
    assert !PyText.Contains(reply, LlmJson.Fence) by {
      assert LlmJson.Fence[0] == '`';
      NotContained(reply, LlmJson.Fence, '`');
    }
    assert forall i :: 0 <= i < |reply| ==> !LlmJson.IsControl(reply[i]);
    CurlyQuotesKeptAsWritten(reply);
    NoCurlyDoubleQuotesLeft(reply);
    assert reply[1] == '“';
  }

  datatype KeyObservation = KeyObservation(title: string, insight: string)

  /** The object the model answered with: its `summary` and `keyObservations` entries, None where
   *  absent. */
  datatype AiSummary = AiSummary(summary: Option<string>, keyObservations: Option<seq<KeyObservation>>)

  const FallbackSummary: AiSummary := AiSummary(Some("Data processed."), Some([]))

  /** `generate_ai_summary` as written: `reply` is the model's message (None when the call fails)
   *  and `decode` stands for `json.loads` (None when it raises); any failure gives the fallback,
   *  and otherwise the summary is what the decoder made of the cleaned reply. */
  function AiSummaryOf(reply: Option<string>, decode: string -> Option<AiSummary>): (r: AiSummary)
    ensures reply.None? ==> r == FallbackSummary
    ensures r == FallbackSummary || exists t :: decode(t) == Some(r)
  {
    if reply.None? then FallbackSummary
    else
      match decode(CleanSummaryTextAsWritten(PyText.Strip(reply.value)))
      case None => FallbackSummary
      case Some(a) => a
  }

  /** `generate_ai_summary` with the intended clean-up: the decoder is only ever handed a text
   *  without curly double quotes. */
  function AiSummaryOfCorrected(reply: Option<string>, decode: string -> Option<AiSummary>): (r: AiSummary)
    ensures reply.None? ==> r == FallbackSummary
    ensures r == FallbackSummary || exists t :: '“' !in t && '”' !in t && decode(t) == Some(r)
  {
    if reply.None? then FallbackSummary
    else
      var text := CleanSummaryText(PyText.Strip(reply.value));
      NoCurlyDoubleQuotesLeft(PyText.Strip(reply.value));
      match decode(text)
      case None => FallbackSummary
      case Some(a) => a
  }

  // ---------------------------------------------------------------- the route

  datatype TopTheme = TopTheme(name: string, impact: int)

  datatype InsightData = InsightData(summary: string, keyObservations: seq<KeyObservation>, criticalTeamsCount: nat,
                                     topTheme: TopTheme, engagementTrend: Option<real>, generatedAt: string)

  /** What the route reads: the feedback and survey tables with their date parsers, and the
   *  language model's reply with the JSON decoder. */
  datatype Sources = Sources(feedback: Frame, parseFeedback: string -> Option<int>,
                             survey: Survey, parseSurvey: string -> Option<int>,
                             reply: Option<string>, decode: string -> Option<AiSummary>)

  function TopOf(top: Option<InsightTheme>): TopTheme
  {
    match top
    case None => TopTheme("None", 0)
    case Some(t) => TopTheme(t.name, t.impact)
  }

  /** `get_insights` at time `today` (in seconds; `generatedAt` is its ISO text), as written: 400
   *  for an unknown range and 500 for anything the helpers raise. */
  function Insights(today: int, generatedAt: string, dateRange: string, src: Sources): (r: Result<InsightData>)
    ensures r.Err? ==> r.error.status == 400 || r.error.status == 500
    ensures (r.Err? && r.error.status == 400) <==> PyText.Lower(dateRange) !in ValidRanges
    ensures r.Ok? ==> r.value.generatedAt == generatedAt
    ensures r.Ok? && src.reply.None? ==> r.value.summary == "Data processed." && r.value.keyObservations == []
  {
    InsightsWith(today, generatedAt, dateRange, src, AiSummaryOf(src.reply, src.decode))
  }

  /** `get_insights` with the intended summary clean-up: the same answer as written except for the
   *  summary and its observations. */
  function InsightsCorrected(today: int, generatedAt: string, dateRange: string, src: Sources): (r: Result<InsightData>)
    ensures r.Ok? <==> Insights(today, generatedAt, dateRange, src).Ok?
    ensures r.Err? ==> r == Insights(today, generatedAt, dateRange, src)
    ensures r.Ok? ==> var w := Insights(today, generatedAt, dateRange, src).value;
      r.value.criticalTeamsCount == w.criticalTeamsCount && r.value.topTheme == w.topTheme
      && r.value.engagementTrend == w.engagementTrend && r.value.generatedAt == w.generatedAt
  {
    SummaryOnlyDiffers(today, generatedAt, dateRange, src, AiSummaryOfCorrected(src.reply, src.decode), AiSummaryOf(src.reply, src.decode));
    InsightsWith(today, generatedAt, dateRange, src, AiSummaryOfCorrected(src.reply, src.decode))
  }

  /** Two summaries give the same answer but for its summary and observations. */
  lemma SummaryOnlyDiffers(today: int, generatedAt: string, dateRange: string, src: Sources, a: AiSummary, b: AiSummary)
    ensures var x := InsightsWith(today, generatedAt, dateRange, src, a);
      var y := InsightsWith(today, generatedAt, dateRange, src, b);
      (x.Ok? <==> y.Ok?) && (x.Err? ==> x == y)
      && (x.Ok? ==> x.value.criticalTeamsCount == y.value.criticalTeamsCount && x.value.topTheme == y.value.topTheme
                    && x.value.engagementTrend == y.value.engagementTrend && x.value.generatedAt == y.value.generatedAt)
  {
    var x := InsightsWith(today, generatedAt, dateRange, src, a);
    var y := InsightsWith(today, generatedAt, dateRange, src, b);
    if PeriodOf(dateRange).Some? {
      var range := DateRange(today, dateRange);
      if range.Ok? {
        var themes := ThemeDataOf(src.feedback, src.parseFeedback, range.value);
        var metrics := MetricsDataOf(src.survey, src.parseSurvey, range.value);
        if themes.Ok? && metrics.Ok? {
          assert x.Ok? && y.Ok?;
          assert x.value.(summary := "", keyObservations := []) == y.value.(summary := "", keyObservations := []);
        }
      }
    }
  }

  /** The route's body once the summary `ai` is known: 400 for an unknown range, 500 with the
   *  message of anything the helpers raise, otherwise the summary (with its defaults), the
   *  critical team count, the top theme (or "None" with impact 0) and the engagement trend. */
  function InsightsWith(today: int, generatedAt: string, dateRange: string, src: Sources, ai: AiSummary): (r: Result<InsightData>)
    ensures r.Err? ==> r.error.status == 400 || r.error.status == 500
    ensures (r.Err? && r.error.status == 400) <==> PyText.Lower(dateRange) !in ValidRanges
    ensures r.Ok? ==> r.value.generatedAt == generatedAt && r.value.summary == ai.summary.GetOr("Summary unavailable")
                      && r.value.keyObservations == ai.keyObservations.GetOr([])
  {
    if PeriodOf(dateRange).None? then Err(HttpError(400, "Invalid dateRange"))
    else
      var range := DateRange(today, dateRange);
      if range.Err? then Err(range.error)
      else
        var themes := ThemeDataOf(src.feedback, src.parseFeedback, range.value);
        if themes.Err? then Err(HttpError(500, themes.error.detail))
        else
          var metrics := MetricsDataOf(src.survey, src.parseSurvey, range.value);
          if metrics.Err? then Err(HttpError(500, metrics.error.detail))
          else
            Ok(InsightData(ai.summary.GetOr("Summary unavailable"), ai.keyObservations.GetOr([]),
                           metrics.value.criticalTeams, TopOf(themes.value.top),
                           metrics.value.engagementTrend, generatedAt))
  }

  /** The route answers 400 exactly for an unknown range and 500 for every other failure; a
   *  response carries the window's critical team count and trend, the top theme of the window
   *  with the highest impact (or "None" when the window has no theme), and the fallback summary
   *  when the model cannot be reached. */
  lemma InsightsCases(today: int, generatedAt: string, dateRange: string, src: Sources)
    ensures var r := Insights(today, generatedAt, dateRange, src);
      (r.Err? && r.error.status == 400 <==> PyText.Lower(dateRange) !in ValidRanges)
      && (r.Err? ==> r.error.status == 400 || r.error.status == 500)
    ensures var r := Insights(today, generatedAt, dateRange, src);
      r.Ok? ==>
        var b := DateRange(today, dateRange).value;
        ThemeDataOf(src.feedback, src.parseFeedback, b).Ok?
        && MetricsDataOf(src.survey, src.parseSurvey, b).Ok?
        && r.value.criticalTeamsCount == MetricsDataOf(src.survey, src.parseSurvey, b).value.criticalTeams
        && r.value.engagementTrend == MetricsDataOf(src.survey, src.parseSurvey, b).value.engagementTrend
        && r.value.topTheme == TopOf(ThemeDataOf(src.feedback, src.parseFeedback, b).value.top)
        && r.value.generatedAt == generatedAt
    ensures var r := Insights(today, generatedAt, dateRange, src);
      r.Ok? && src.reply.None? ==> r.value.summary == "Data processed." && r.value.keyObservations == []
  {
    DateRangeShape(today, dateRange);
  }

  /** The top theme of a response is a theme of the window with no theme above it in impact, and
   *  "None" with impact 0 exactly when the window has no theme. */
  lemma TopThemeIsHighest(f: Frame, parse: string -> Option<int>, b: Bounds)
    requires ThemeDataOf(f, parse, b).Ok?
    ensures var d := ThemeDataOf(f, parse, b).value;
      (d.top.None? <==> d.themes == [])
      && (d.top.Some? ==> d.top.value in d.themes && forall t :: t in d.themes ==> t.impact <= d.top.value.impact)
  {
    var d := ThemeDataOf(f, parse, b).value;
    if d != NoThemes {
      var ms := Theme.Mentions(f.rows, parse);
      var current := Stats.Filter(ms.value, InWindowOf(b));
      var rows := ThemeRows(current, "sentiment_label" in f.columns, CountOrder(current)).value;
      RankedSorted(rows);
      assert forall t :: t in d.themes <==> t in rows by {
        assert multiset(d.themes) == multiset(rows);
        forall t ensures t in d.themes <==> t in rows {
          assert t in d.themes <==> t in multiset(d.themes);
        }
      }
    }
  }
}
