/**
 * The theme analysis route: the feedback of a date window grouped by category, each theme with
 * its frequency, dominant sentiment, trend against the window before, impact score and the time
 * it was last seen, most frequent first.
 */
module Theme {
  import opened Wrappers
  import PyText
  import Sorting
  import Stats
  import opened Frames

  // ---------------------------------------------------------------- impact and trend

  /** `calculate_impact_score`: 0 for no mentions, otherwise the share of the mentions, in percent,
   *  truncated. */
  function Impact(frequency: nat, total: nat): (r: int)
    ensures r >= 0
    ensures total == 0 || frequency == 0 ==> r == 0
    ensures total > 0 && frequency == total ==> r == 100
  {
    if total == 0 then 0
    else
      assert frequency == total ==> frequency as real / total as real == 1.0;
      ((frequency as real / total as real) * 100.0).Floor
  }

  /** The same score in integer arithmetic: the quotient of `100·frequency` by the total. */
  function ImpactQuotient(frequency: nat, total: nat): int
  {
    if total == 0 then 0 else (frequency * 100) / total
  }

  lemma CastProduct(a: int, b: int)
    ensures (a * b) as real == a as real * b as real
  {
  }

  /** An exact quotient is its integer part plus the remainder's share. */
  lemma DivSplit(n: nat, t: nat)
    requires t > 0
    ensures (n as real) / (t as real) == ((n / t) as real) + ((n % t) as real) / (t as real)
  {
    var k := n / t;
    var m := n % t;
    assert n == k * t + m;
    CastProduct(k, t);
    var tr := t as real;
    assert n as real == (k as real) * tr + m as real;
    assert (n as real) / tr == ((k as real) * tr) / tr + (m as real) / tr;
    assert ((k as real) * tr) / tr == k as real;
  }

  lemma FractionBelowOne(m: nat, t: nat)
    requires m < t
    ensures 0.0 <= (m as real) / (t as real) < 1.0
  {
  }

  /** In exact arithmetic the truncated percentage is the integer quotient of `100·frequency` by
   *  the total. */
  lemma ImpactIsQuotient(frequency: nat, total: nat)
    ensures Impact(frequency, total) == ImpactQuotient(frequency, total)
  {
    if total > 0 { ImpactQuotientPositive(frequency, total); }
  }

  lemma ImpactQuotientPositive(frequency: nat, total: nat)
    requires total > 0
    ensures Impact(frequency, total) == (frequency * 100) / total
  {
    DivSplit(frequency * 100, total);
    FractionBelowOne((frequency * 100) % total, total);
    CastProduct(frequency, 100);
    assert (frequency as real / total as real) * 100.0 == ((frequency * 100) as real) / (total as real);
  }

  lemma QuotientBounds(n: nat, t: nat)
    requires t > 0
    ensures (n / t) * t <= n < (n / t + 1) * t
    ensures n <= 100 * t ==> n / t <= 100
  {
    assert n == (n / t) * t + n % t;
  }

  /** The impact is the percentage rounded down, so it lies in 0..100 for a frequency that is at
   *  most the total. */
  lemma ImpactBounds(frequency: nat, total: nat)
    ensures total == 0 ==> Impact(frequency, total) == 0
    ensures total > 0 ==> Impact(frequency, total) * total <= frequency * 100 < (Impact(frequency, total) + 1) * total
    ensures frequency <= total ==> 0 <= Impact(frequency, total) <= 100
  {
    if total > 0 {
      ImpactQuotientPositive(frequency, total);
      QuotientBounds(frequency * 100, total);
    }
  }

  /** A higher frequency over the same total never lowers the impact. */
  lemma ImpactMonotone(f1: nat, f2: nat, total: nat)
    requires f1 <= f2
    ensures Impact(f1, total) <= Impact(f2, total)
  {
    if total > 0 {
      ImpactQuotientPositive(f1, total);
      ImpactQuotientPositive(f2, total);
      QuotientBounds(f1 * 100, total);
      QuotientBounds(f2 * 100, total);
      MulCancel((f1 * 100) / total, (f2 * 100) / total + 1, total);
    }
  }

  lemma MulCancel(a: int, b: int, t: int)
    requires t > 0 && a * t < b * t
    ensures a < b
  {
  }

  datatype Direction = Up | Down | Stable

  function DirectionName(d: Direction): string
  {
    match d
    case Up => "up"
    case Down => "down"
    case Stable => "stable"
  }

  /** `get_trend`: with no previous mentions "up" when there are current ones, otherwise the
   *  percentage change against the previous count, with 2% either way counted as stable. */
  function Trend(current: nat, previous: nat): (r: Direction)
    ensures r == Up ==> current > previous
    ensures r == Down ==> current < previous
    ensures current == previous ==> r == Stable
  {
    if previous == 0 then (if current > 0 then Up else Stable)
    else
      var change := ((current as real - previous as real) / previous as real) * 100.0;
      if change > 2.0 then Up else if change < -2.0 then Down else Stable
  }

  /** The same classification on the counts alone: more than 2% above the previous count is
   *  50·current > 51·previous, more than 2% below it 50·current < 49·previous. */
  function TrendByCounts(current: nat, previous: nat): Direction
  {
    if previous == 0 then (if current > 0 then Up else Stable)
    else if 50 * current > 51 * previous then Up
    else if 50 * current < 49 * previous then Down
    else Stable
  }

  /** With no previous mentions the trend is up exactly when there are current ones. */
  lemma TrendFromNothing(current: nat)
    ensures Trend(current, 0) == Up <==> current > 0
    ensures Trend(current, 0) != Down
  {
  }

  /** Otherwise up means more than 2% above the previous count (50·current > 51·previous), down
   *  more than 2% below it (50·current < 49·previous), and stable in between. */
  lemma TrendThresholds(current: nat, previous: nat)
    requires previous > 0
    ensures Trend(current, previous) == Up <==> 50 * current > 51 * previous
    ensures Trend(current, previous) == Down <==> 50 * current < 49 * previous
    ensures Trend(current, previous) == Stable <==> 49 * previous <= 50 * current <= 51 * previous
  {
    ChangeBeyond(current as real, previous as real);
  }

  /** The percentage classification and the classification on counts agree everywhere. */
  lemma TrendIsByCounts(current: nat, previous: nat)
    ensures Trend(current, previous) == TrendByCounts(current, previous)
  {
    if previous > 0 {
      TrendThresholds(current, previous);
    }
  }

  lemma ScaleLess(x: real, y: real, p: real)
    requires p > 0.0
    ensures x < y <==> x * p < y * p
  {
  }

  /** The percentage change of `c` against `p` beyond ±2%, without division. */
  lemma ChangeBeyond(c: real, p: real)
    requires p > 0.0
    ensures ((c - p) / p) * 100.0 > 2.0 <==> c > 1.02 * p
    ensures ((c - p) / p) * 100.0 < -2.0 <==> c < 0.98 * p
  {
    var d := (c - p) / p;
    assert d * p == c - p;
    ScaleLess(0.02, d, p);
    ScaleLess(d, -0.02, p);
    assert 0.02 * p < d * p <==> 1.02 * p < c;
    assert d * p < -0.02 * p <==> c < 0.98 * p;
  }

  // ---------------------------------------------------------------- windows

  const SecondsPerDay: int := 86400

  /** The days the window looks back; an unknown range leaves the start at today. */
  function WindowDays(dateRange: string): (r: nat)
    ensures r == 0 <==> PyText.Lower(dateRange) !in ["week", "month", "quarter", "year"]
    ensures r <= 365
  {
    var r := PyText.Lower(dateRange);
    if r == "week" then 7
    else if r == "month" then 30
    else if r == "quarter" then 90
    else if r == "year" then 365
    else 0
  }

  /** The start of the current window, with `today` in seconds. */
  function WindowStart(today: int, dateRange: string): int
  {
    today - WindowDays(dateRange) * SecondsPerDay
  }

  /** The start of the previous window: as long as the current one, before its start. */
  function PreviousStart(today: int, dateRange: string): int
  {
    WindowStart(today, dateRange) - WindowDays(dateRange) * SecondsPerDay
  }

  /** The previous window `[PreviousStart, WindowStart)` is as long as the current one
   *  `[WindowStart, today]` and ends where it starts; an unknown range makes both windows start
   *  today. */
  lemma WindowShape(today: int, dateRange: string)
    ensures WindowStart(today, dateRange) - PreviousStart(today, dateRange) == today - WindowStart(today, dateRange)
    ensures PreviousStart(today, dateRange) <= WindowStart(today, dateRange) <= today
    ensures PyText.Lower(dateRange) !in ["week", "month", "quarter", "year"] ==>
      WindowStart(today, dateRange) == today && PreviousStart(today, dateRange) == today
    ensures PyText.Lower(dateRange) == "week" ==> WindowStart(today, dateRange) == today - 7 * SecondsPerDay
  {
  }

  // ---------------------------------------------------------------- mentions

  /** A feedback row after `pd.to_datetime`: its submission time (None for NaT), and its sentiment
   *  label and category (None for NaN). */
  datatype Mention = Mention(submitted: Option<int>, sentiment: Option<string>, category: Option<string>)

  function Field(row: Item, col: string): Option<string>
  {
    if col in row then Some(row[col]) else None
  }

  /** The rows with their dates parsed; an unparsable date raises, and the route answers 500.
   *  `parse` stands for `pd.to_datetime` on one value. */
  function Mentions(rows: seq<Item>, parse: string -> Option<int>): (r: Result<seq<Mention>>)
    ensures r.Ok? ==> |r.value| == |rows|
    ensures r.Err? ==> r.error.status == 500
  {
    if rows == [] then Ok([])
    else
      var rest := Mentions(rows[1..], parse);
      var row := rows[0];
      if "submission_date" in row && parse(row["submission_date"]).None? then Err(HttpError(500, "Unknown datetime string format"))
      else if rest.Err? then rest
      else
        var submitted := if "submission_date" in row then parse(row["submission_date"]) else None;
        Ok([Mention(submitted, Field(row, "sentiment_label"), Field(row, "category"))] + rest.value)
  }

  datatype ThemeQuery = ThemeQuery(dateRange: string, sentiment: Option<string>, limit: int)

  /** The sentiment filter, when one is given: `astype(str).str.lower()` of the label against the
   *  lower-cased filter. */
  predicate SentimentMatches(q: ThemeQuery, m: Mention)
  {
    PyText.Truthy(q.sentiment) ==>
      PyText.Lower(if m.sentiment.Some? then m.sentiment.value else "nan") == PyText.Lower(q.sentiment.value)
  }

  /** A mention of the current window `[start, ∞)` that passes the sentiment filter. */
  predicate InCurrent(q: ThemeQuery, start: int, m: Mention)
  {
    m.submitted.Some? && m.submitted.value >= start && SentimentMatches(q, m)
  }

  /** A mention of the previous window `[from, to)` that passes the sentiment filter. */
  predicate InPrevious(q: ThemeQuery, from: int, to: int, m: Mention)
  {
    m.submitted.Some? && from <= m.submitted.value < to && SentimentMatches(q, m)
  }

  function CurrentOf(q: ThemeQuery, start: int): Mention -> bool
  {
    (m: Mention) => InCurrent(q, start, m)
  }

  function PreviousOf(q: ThemeQuery, from: int, to: int): Mention -> bool
  {
    (m: Mention) => InPrevious(q, from, to, m)
  }

  /** A mention of category `c`. */
  function OfCategory(c: string): Mention -> bool
  {
    (m: Mention) => m.category == Some(c)
  }

  /** The named categories, in order, NaN and empty ones left out. */
  function Named(ms: seq<Mention>): (r: seq<string>)
    ensures forall c :: c in r <==> c != "" && exists m :: m in ms && m.category == Some(c)
  {
    if ms == [] then []
    else
      var rest := Named(ms[1..]);
      assert forall m :: m in ms[1..] ==> m in ms;
      assert forall m :: m in ms ==> m == ms[0] || m in ms[1..];
      if ms[0].category.Some? && ms[0].category.value != "" then [ms[0].category.value] + rest else rest
  }

  /** The groups of `groupby('category')` the loop keeps: its distinct non-empty keys in increasing
   *  order. */
  function Categories(ms: seq<Mention>): seq<string>
  {
    Sorting.SortedUnique(Named(ms))
  }

  // ---------------------------------------------------------------- dominant sentiment

  /** The labels of a group, NaN left out: what `value_counts()` counts. */
  function Labels(ms: seq<Mention>): (r: seq<string>)
    ensures forall l :: l in r <==> exists m :: m in ms && m.sentiment == Some(l)
  {
    if ms == [] then []
    else
      var rest := Labels(ms[1..]);
      assert forall m :: m in ms[1..] ==> m in ms;
      assert forall m :: m in ms ==> m == ms[0] || m in ms[1..];
      (if ms[0].sentiment.Some? then [ms[0].sentiment.value] else []) + rest
  }

  function Occurrences(labels: seq<string>, l: string): nat
  {
    if labels == [] then 0 else (if labels[0] == l then 1 else 0) + Occurrences(labels[1..], l)
  }

  /** The first of `labels[i..]` occurring most often in `labels`, or `best` if that occurs more. */
  function ModeFrom(labels: seq<string>, i: nat, best: string): string
    requires i <= |labels|
    decreases |labels| - i
  {
    if i == |labels| then best
    else if Occurrences(labels, labels[i]) > Occurrences(labels, best) then ModeFrom(labels, i + 1, labels[i])
    else ModeFrom(labels, i + 1, best)
  }

  /** `value_counts().idxmax()`, "neutral" when there are no labels; ties go to the label seen
   *  first. */
  function Dominant(labels: seq<string>): (r: string)
    ensures labels == [] ==> r == "neutral"
    ensures labels != [] ==> r in labels
  {
    if labels == [] then "neutral"
    else
      ModeFromBest(labels, 1, labels[0]);
      ModeFrom(labels, 1, labels[0])
  }

  lemma {:induction false} ModeFromBest(labels: seq<string>, i: nat, best: string)
    requires i <= |labels|
    requires best in labels
    requires forall k :: 0 <= k < i ==> Occurrences(labels, labels[k]) <= Occurrences(labels, best)
    ensures ModeFrom(labels, i, best) in labels
    ensures forall k :: 0 <= k < |labels| ==> Occurrences(labels, labels[k]) <= Occurrences(labels, ModeFrom(labels, i, best))
    decreases |labels| - i
  {
    if i < |labels| {
      if Occurrences(labels, labels[i]) > Occurrences(labels, best) {
        ModeFromBest(labels, i + 1, labels[i]);
      } else {
        ModeFromBest(labels, i + 1, best);
      }
    }
  }

  /** The dominant sentiment is a label of the group that no other label outnumbers, and "neutral"
   *  for a group without labels. */
  lemma DominantIsMode(labels: seq<string>)
    ensures labels == [] ==> Dominant(labels) == "neutral"
    ensures labels != [] ==> Dominant(labels) in labels
    ensures forall l :: l in labels ==> Occurrences(labels, l) <= Occurrences(labels, Dominant(labels))
  {
    if labels != [] {
      ModeFromBest(labels, 1, labels[0]);
    }
  }

  // ---------------------------------------------------------------- theme rows

  /** The latest submission time of a group of dated mentions. */
  function Latest(ms: seq<Mention>): (r: int)
    requires ms != [] && forall m :: m in ms ==> m.submitted.Some?
    ensures forall m :: m in ms ==> m.submitted.value <= r
    ensures exists m :: m in ms && m.submitted.value == r
  {
    if |ms| == 1 then ms[0].submitted.value
    else
      assert ms[1..][0] == ms[1];
      var rest := Latest(ms[1..]);
      assert forall m :: m in ms ==> m == ms[0] || m in ms[1..];
      if ms[0].submitted.value > rest then ms[0].submitted.value else rest
  }

  datatype ThemeItem = ThemeItem(id: string, theme: string, sentiment: string, frequency: nat,
                                 trend: Direction, impactScore: int, lastDetected: string)

  /** The row of one category: its group among the current mentions, whose mentions all have a
   *  date. */
  function ThemeOf(current: seq<Mention>, previous: seq<Mention>, iso: int -> string, id: string, c: string): (t: ThemeItem)
    requires forall m :: m in current ==> m.submitted.Some?
    ensures t.id == id && t.theme == c
    ensures t.frequency == Stats.Count(current, OfCategory(c)) && t.frequency <= |current|
    ensures t.trend == Trend(t.frequency, Stats.Count(previous, OfCategory(c)))
    ensures 0 <= t.impactScore <= 100 && t.impactScore == Impact(t.frequency, |current|)
    ensures t.frequency == 0 ==> t.sentiment == "neutral" && t.lastDetected == ""
  {
    var group := Stats.Filter(current, OfCategory(c));
    ImpactBounds(|group|, |current|);
    ImpactIsQuotient(|group|, |current|);
    TrendIsByCounts(|group|, Stats.Count(previous, OfCategory(c)));
    ThemeItem(id, c, Dominant(Labels(group)), |group|, TrendByCounts(|group|, Stats.Count(previous, OfCategory(c))),
              ImpactQuotient(|group|, |current|), if group == [] then "" else iso(Latest(group)))
  }

  /** `a` sorts before `b` on frequency, highest first. */
  predicate MoreFrequent(a: ThemeItem, b: ThemeItem)
  {
    a.frequency > b.frequency
  }

  lemma MoreFrequentIsStrictOrder()
    ensures Sorting.StrictOrder(MoreFrequent)
  {
  }

  /** The theme rows in group order, the i-th with id `newIds(i)`. */
  function Themes(current: seq<Mention>, previous: seq<Mention>, iso: int -> string, newIds: nat -> string, cats: seq<string>): (r: seq<ThemeItem>)
    requires forall m :: m in current ==> m.submitted.Some?
    ensures |r| == |cats|
  {
    seq(|cats|, i requires 0 <= i < |cats| => ThemeOf(current, previous, iso, newIds(i), cats[i]))
  }

  /** The current and previous mentions of a request: parsed, windowed and filtered. */
  datatype Windows = Windows(current: seq<Mention>, previous: seq<Mention>)

  function WindowsOf(ms: seq<Mention>, today: int, q: ThemeQuery): (w: Windows)
    ensures forall m :: m in w.current ==> m.submitted.Some?
  {
    var start := WindowStart(today, q.dateRange);
    Windows(Stats.Filter(ms, CurrentOf(q, start)), Stats.Filter(ms, PreviousOf(q, PreviousStart(today, q.dateRange), start)))
  }

  /** `get_theme_analysis`: nothing for an empty table or an empty window; a 500 for an unparsable
   *  date, or a column the route reads that the table lacks; otherwise the theme rows, most
   *  frequent first, cut to `limit`. */
  function ThemeAnalysis(f: Frame, parse: string -> Option<int>, iso: int -> string, newIds: nat -> string,
                         today: int, q: ThemeQuery): (r: Result<seq<ThemeItem>>)
    ensures r.Err? ==> r.error.status == 500
    ensures f.rows == [] || f.columns == {} ==> r == Ok([])
    ensures "submission_date" !in f.columns && f.rows != [] && f.columns != {} ==> r == Err(HttpError(500, "'submission_date'"))
    ensures r.Ok? && q.limit >= 0 ==> |r.value| <= q.limit
    ensures r.Ok? && q.limit >= 0 ==> forall i, j :: 0 <= i < j < |r.value| ==> r.value[i].frequency >= r.value[j].frequency
  {
    if f.rows == [] || f.columns == {} then Ok([])
    else if "submission_date" !in f.columns then Err(HttpError(500, "'submission_date'"))
    else
      var ms := Mentions(f.rows, parse);
      if ms.Err? then Err(ms.error)
      else if PyText.Truthy(q.sentiment) && "sentiment_label" !in f.columns then Err(HttpError(500, "'sentiment_label'"))
      else
        var w := WindowsOf(ms.value, today, q);
        if w.current == [] then Ok([])
        else if "category" !in f.columns then Err(HttpError(500, "'category'"))
        else
          var cats := Categories(w.current);
          if cats != [] && "sentiment_label" !in f.columns then Err(HttpError(500, "'sentiment_label'"))
          else Ok(TopThemes(w.current, w.previous, iso, newIds, q.limit))
  }

  /** The theme rows of the window, most frequent first, cut to `limit`. */
  function TopThemes(current: seq<Mention>, previous: seq<Mention>, iso: int -> string, newIds: nat -> string,
                     limit: int): (r: seq<ThemeItem>)
    requires forall m :: m in current ==> m.submitted.Some?
    ensures limit >= 0 ==> |r| <= limit
    ensures limit >= 0 ==> forall i, j :: 0 <= i < j < |r| ==> r[i].frequency >= r[j].frequency
  {
    var sorted := Sorting.SortBy(Themes(current, previous, iso, newIds, Categories(current)), MoreFrequent);
    if limit >= 0 then
      ThemesRanked(current, previous, iso, newIds, limit);
      PyText.Slice(sorted, 0, limit)
    else PyText.Slice(sorted, 0, limit)
  }

  /** The theme rows are sorted most frequent first, there are at most `limit` of them, and no
   *  row left out is more frequent than one kept. */
  lemma ThemesRanked(current: seq<Mention>, previous: seq<Mention>, iso: int -> string, newIds: nat -> string, limit: int)
    requires forall m :: m in current ==> m.submitted.Some?
    requires limit >= 0
    ensures var cats := Categories(current);
      var sorted := Sorting.SortBy(Themes(current, previous, iso, newIds, cats), MoreFrequent);
      var out := PyText.Slice(sorted, 0, limit);
      |out| == (if limit < |cats| then limit else |cats|)
      && out == sorted[..|out|]
      && (forall i, j :: 0 <= i < j < |sorted| ==> sorted[i].frequency >= sorted[j].frequency)
  {
    var themes := Themes(current, previous, iso, newIds, Categories(current));
    MoreFrequentIsStrictOrder();
    Sorting.SortBySorted(themes, MoreFrequent);
  }

  /** The i-th row in group order is the row of the i-th category, counting its current
   *  mentions. */
  lemma ThemeAt(current: seq<Mention>, previous: seq<Mention>, iso: int -> string, newIds: nat -> string,
                cats: seq<string>, i: nat)
    requires forall m :: m in current ==> m.submitted.Some?
    requires i < |cats|
    ensures var t := Themes(current, previous, iso, newIds, cats)[i];
      t == ThemeOf(current, previous, iso, newIds(i), cats[i])
      && t.theme == cats[i] && t.frequency == Stats.Count(current, OfCategory(cats[i]))
  {
    var group := Stats.Filter(current, OfCategory(cats[i]));
    assert |group| == Stats.Count(current, OfCategory(cats[i]));
  }

  /** The groups are exactly the non-empty categories of the window. */
  lemma CategoriesNamed(current: seq<Mention>)
    ensures forall c :: c in Categories(current) <==> c != "" && exists m :: m in current && m.category == Some(c)
  {
    var named := Named(current);
    assert forall c :: c in Categories(current) <==> c in named;
  }

  /** Every theme row counts the current mentions of its category, which is a named category of
   *  the window. */
  lemma ThemesSound(current: seq<Mention>, previous: seq<Mention>, iso: int -> string, newIds: nat -> string)
    requires forall m :: m in current ==> m.submitted.Some?
    ensures var cats := Categories(current);
      var sorted := Sorting.SortBy(Themes(current, previous, iso, newIds, cats), MoreFrequent);
      forall t :: t in sorted ==>
        t.theme in cats && t.frequency == Stats.Count(current, OfCategory(t.theme))
  {
    var cats := Categories(current);
    var themes := Themes(current, previous, iso, newIds, cats);
    var sorted := Sorting.SortBy(themes, MoreFrequent);
    Sorting.SortByPermutes(themes, MoreFrequent);
    forall t | t in sorted
      ensures t.theme in cats && t.frequency == Stats.Count(current, OfCategory(t.theme))
    {
      assert t in multiset(themes);
      var i :| 0 <= i < |themes| && themes[i] == t;
      ThemeAt(current, previous, iso, newIds, cats, i);
    }
  }

  /** Every non-empty category of the window has its row. */
  lemma ThemesComplete(current: seq<Mention>, previous: seq<Mention>, iso: int -> string, newIds: nat -> string)
    requires forall m :: m in current ==> m.submitted.Some?
    ensures var cats := Categories(current);
      var sorted := Sorting.SortBy(Themes(current, previous, iso, newIds, cats), MoreFrequent);
      forall c :: c != "" && (exists m :: m in current && m.category == Some(c)) ==>
        exists t :: t in sorted && t.theme == c
  {
    var cats := Categories(current);
    var themes := Themes(current, previous, iso, newIds, cats);
    var sorted := Sorting.SortBy(themes, MoreFrequent);
    Sorting.SortByPermutes(themes, MoreFrequent);
    CategoriesNamed(current);
    forall c | c != "" && (exists m :: m in current && m.category == Some(c))
      ensures exists t :: t in sorted && t.theme == c
    {
      assert c in cats;
      var i :| 0 <= i < |cats| && cats[i] == c;
      ThemeAt(current, previous, iso, newIds, cats, i);
      assert themes[i] in multiset(sorted);
    }
  }

  /** One pass of the aggregation loop: the row of category `c`. */
  method ThemeRow(current: seq<Mention>, previous: seq<Mention>, iso: int -> string, id: string, c: string)
    returns (t: ThemeItem)
    requires forall m :: m in current ==> m.submitted.Some?
    ensures t == ThemeOf(current, previous, iso, id, c)
  {
    var group := Stats.Filter(current, OfCategory(c));
    var frequency := |group|;
    var lastDetected := if group == [] then "" else iso(Latest(group));
    var trend := Trend(frequency, Stats.Count(previous, OfCategory(c)));
    var impact := Impact(frequency, |current|);
    TrendIsByCounts(frequency, Stats.Count(previous, OfCategory(c)));
    ImpactIsQuotient(frequency, |current|);
    t := ThemeItem(id, c, Dominant(Labels(group)), frequency, trend, impact, lastDetected);
  }

  /** The aggregation loop of `get_theme_analysis`: one row per kept group, appended in group order. */
  method BuildThemes(current: seq<Mention>, previous: seq<Mention>, iso: int -> string, newIds: nat -> string, cats: seq<string>)
    returns (themes: seq<ThemeItem>)
    requires forall m :: m in current ==> m.submitted.Some?
    ensures themes == Themes(current, previous, iso, newIds, cats)
  {
    ghost var all := Themes(current, previous, iso, newIds, cats);
    themes := [];
    for i := 0 to |cats|
      invariant themes == all[..i]
    {
      var t := ThemeRow(current, previous, iso, newIds(i), cats[i]);
      assert all[..i + 1] == all[..i] + [all[i]];
      themes := themes + [t];
    }
    assert all[..|cats|] == all;
  }

  /** `get_theme_analysis`, building the theme rows in a loop before sorting them. */
  method GetThemeAnalysis(f: Frame, parse: string -> Option<int>, iso: int -> string, newIds: nat -> string,
                          today: int, q: ThemeQuery) returns (r: Result<seq<ThemeItem>>)
    ensures r == ThemeAnalysis(f, parse, iso, newIds, today, q)
  {
    if f.rows == [] || f.columns == {} {
      return Ok([]);
    }
    if "submission_date" !in f.columns {
      return Err(HttpError(500, "'submission_date'"));
    }
    var ms := Mentions(f.rows, parse);
    if ms.Err? {
      return Err(ms.error);
    }
    if PyText.Truthy(q.sentiment) && "sentiment_label" !in f.columns {
      return Err(HttpError(500, "'sentiment_label'"));
    }
    var w := WindowsOf(ms.value, today, q);
    if w.current == [] {
      return Ok([]);
    }
    if "category" !in f.columns {
      return Err(HttpError(500, "'category'"));
    }
    var cats := Categories(w.current);
    if cats != [] && "sentiment_label" !in f.columns {
      return Err(HttpError(500, "'sentiment_label'"));
    }
    var themes := BuildThemes(w.current, w.previous, iso, newIds, cats);
    return Ok(PyText.Slice(Sorting.SortBy(themes, MoreFrequent), 0, q.limit));
  }
}
