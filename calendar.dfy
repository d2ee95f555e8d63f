/** The proleptic Gregorian calendar as Python's `datetime` computes it: validity of a date,
 *  ordinals (`date.toordinal()`, 0001-01-01 is day 1, a Monday), ISO weeks
 *  (`date.isocalendar()`) and `datetime.strptime(s, "%Y-%m-%d")`. */
module Calendar {
  import opened Wrappers
  import PyText

  datatype Date = Date(year: int, month: int, day: int)

  predicate IsLeap(y: int)
  {
    y % 4 == 0 && (y % 100 != 0 || y % 400 == 0)
  }

  function DaysInMonth(y: int, m: int): (n: int)
    requires 1 <= m <= 12
    ensures 28 <= n <= 31
  {
    if m == 2 then (if IsLeap(y) then 29 else 28)
    else if m == 4 || m == 6 || m == 9 || m == 11 then 30
    else 31
  }

  /** `datetime(y, m, d)` accepts the date (MINYEAR 1, MAXYEAR 9999). */
  predicate ValidDate(d: Date)
  {
    1 <= d.year <= 9999 && 1 <= d.month <= 12 && 1 <= d.day <= DaysInMonth(d.year, d.month)
  }

  function DaysInYear(y: int): int
  {
    if IsLeap(y) then 366 else 365
  }

  function DaysBeforeYear(y: int): int
  {
    var p := y - 1;
    p * 365 + p / 4 - p / 100 + p / 400
  }

  function DaysBeforeMonth(y: int, m: int): (n: int)
    requires 1 <= m <= 12
  {
    var base := if m == 1 then 0 else if m == 2 then 31 else if m == 3 then 59
      else if m == 4 then 90 else if m == 5 then 120 else if m == 6 then 151
      else if m == 7 then 181 else if m == 8 then 212 else if m == 9 then 243
      else if m == 10 then 273 else if m == 11 then 304 else 334;
    base + (if m > 2 && IsLeap(y) then 1 else 0)
  }

  /** `date.toordinal()`. */
  function Ordinal(d: Date): int
    requires ValidDate(d)
  {
    DaysBeforeYear(d.year) + DaysBeforeMonth(d.year, d.month) + d.day
  }

  lemma DaysBeforeNextYear(y: int)
    ensures DaysBeforeYear(y + 1) == DaysBeforeYear(y) + DaysInYear(y)
  {
    Div4Step(y);
    Div100Step(y);
    Div400Step(y);
  }

  /** Counting the multiples of 4, 100 and 400 up to `y` rather than `y - 1` adds one exactly
   *  when `y` is one. */
  lemma Div4Step(y: int)
    ensures y / 4 == (y - 1) / 4 + (if y % 4 == 0 then 1 else 0)
  {
  }

  lemma Div100Step(y: int)
    ensures y / 100 == (y - 1) / 100 + (if y % 100 == 0 then 1 else 0)
    ensures y % 100 == 0 ==> y % 4 == 0
  {
  }

  lemma Div400Step(y: int)
    ensures y / 400 == (y - 1) / 400 + (if y % 400 == 0 then 1 else 0)
    ensures y % 400 == 0 ==> y % 100 == 0
  {
  }

  /** A valid date lies inside its own year: its ordinal is below the first day of the next year. */
  lemma OrdinalWithinYear(d: Date)
    requires ValidDate(d)
    ensures DaysBeforeYear(d.year) + 1 <= Ordinal(d) <= DaysBeforeYear(d.year + 1)
  {
    DaysBeforeNextYear(d.year);
  }

  /** `date.weekday()`: Monday is 0. */
  function Weekday(ordinal: int): int
  {
    (ordinal + 6) % 7
  }

  /** The ordinal of the Monday that starts ISO week 1 of `y` (the week holding 4 January). */
  function IsoWeek1Monday(y: int): int
  {
    Week1Monday(DaysBeforeYear(y) + 1)
  }

  /** The Monday of the week holding the fourth day counted from `firstDay`. */
  function Week1Monday(firstDay: int): int
  {
    var firstWeekday := (firstDay + 6) % 7;
    if firstWeekday > 3 then firstDay - firstWeekday + 7 else firstDay - firstWeekday
  }

  lemma Week1MondayFacts(firstDay: int)
    ensures Weekday(Week1Monday(firstDay)) == 0
    ensures firstDay - 3 <= Week1Monday(firstDay) <= firstDay + 3
  {
    var fw := (firstDay + 6) % 7;
    assert firstDay + 6 == 7 * ((firstDay + 6) / 7) + fw;
  }

  lemma IsoWeek1MondayFacts(y: int)
    ensures Weekday(IsoWeek1Monday(y)) == 0
    ensures DaysBeforeYear(y) - 2 <= IsoWeek1Monday(y) <= DaysBeforeYear(y) + 4
  {
    Week1MondayFacts(DaysBeforeYear(y) + 1);
  }

  datatype IsoDate = IsoDate(year: int, week: int, weekday: int)

  /** `date.isocalendar()`: ISO year, ISO week number and ISO weekday (Monday 1 .. Sunday 7). */
  function IsoCalendar(d: Date): IsoDate
    requires ValidDate(d)
  {
    var y := d.year;
    IsoPick(Ordinal(d), y, IsoWeek1Monday(y - 1), IsoWeek1Monday(y), IsoWeek1Monday(y + 1))
  }

  /** The case analysis of `isocalendar`, given the Mondays starting week 1 of the previous,
   *  the current and the next year. */
  function IsoPick(today: int, y: int, w0: int, w1: int, w2: int): IsoDate
  {
    var week := (today - w1) / 7;
    var day := (today - w1) % 7;
    if week < 0 then IsoDate(y - 1, (today - w0) / 7 + 1, (today - w0) % 7 + 1)
    else if week >= 52 && today >= w2 then IsoDate(y + 1, 1, day + 1)
    else IsoDate(y, week + 1, day + 1)
  }

  /** Two Mondays are a whole number of weeks apart. */
  lemma MondaysApart(a: int, b: int)
    requires Weekday(a) == 0 && Weekday(b) == 0
    ensures (b - a) % 7 == 0
  {
    assert a + 6 == 7 * ((a + 6) / 7);
    assert b + 6 == 7 * ((b + 6) / 7);
    assert b - a == 7 * ((b + 6) / 7 - (a + 6) / 7);
  }

  /** When a date at the end of December already belongs to week 1 of the next ISO year, the weekday
   *  counted from this year's week 1 is its offset from next year's week 1. */
  lemma WeekdayFromNextYear(today: int, w1: int, w2: int)
    requires Weekday(w1) == 0 && Weekday(w2) == 0
    requires 0 <= today - w2 <= 2
    ensures (today - w1) % 7 == today - w2
  {
    MondaysApart(w1, w2);
    var q := (w2 - w1) / 7;
    assert w2 - w1 == 7 * q;
    assert today - w1 == 7 * q + (today - w2);
  }

  lemma DivMod7(x: int)
    ensures x == 7 * (x / 7) + x % 7 && 0 <= x % 7 < 7
  {
  }

  lemma {:induction false} IsoPickOrdinal(today: int, y: int, w0: int, w1: int, w2: int)
    requires Weekday(w0) == 0 && Weekday(w1) == 0 && Weekday(w2) == 0
    requires today >= w2 ==> today - w2 <= 2
    ensures var iso := IsoPick(today, y, w0, w1, w2);
      var w := if iso.year == y - 1 then w0 else if iso.year == y + 1 then w2 else w1;
      today == w + 7 * (iso.week - 1) + (iso.weekday - 1) && 1 <= iso.weekday <= 7
  {
    DivMod7(today - w1);
    DivMod7(today - w0);
    if (today - w1) / 7 >= 0 && (today - w1) / 7 >= 52 && today >= w2 {
      WeekdayFromNextYear(today, w1, w2);
    }
  }

  /** The ISO year and week pin the date down to one Monday-to-Sunday week:
   *  the ordinal is the Monday of week 1 plus whole weeks plus the weekday. */
  lemma {:induction false} IsoCalendarOrdinal(d: Date)
    requires ValidDate(d)
    ensures IsoCalendar(d).year >= 1
    ensures var iso := IsoCalendar(d);
      Ordinal(d) == IsoWeek1Monday(iso.year) + 7 * (iso.week - 1) + (iso.weekday - 1)
      && 1 <= iso.weekday <= 7
  {
    IsoPickApplies(d);
    IsoPickWeek1(Ordinal(d), d.year, IsoWeek1Monday);
    IsoYearPositive(d);
  }

  /** `IsoPickOrdinal` with the three Mondays given by one function of the year. */
  lemma IsoPickWeek1(today: int, y: int, monday: int -> int)
    requires Weekday(monday(y - 1)) == 0 && Weekday(monday(y)) == 0 && Weekday(monday(y + 1)) == 0
    requires today >= monday(y + 1) ==> today - monday(y + 1) <= 2
    ensures var iso := IsoPick(today, y, monday(y - 1), monday(y), monday(y + 1));
      today == monday(iso.year) + 7 * (iso.week - 1) + (iso.weekday - 1) && 1 <= iso.weekday <= 7
  {
    IsoPickOrdinal(today, y, monday(y - 1), monday(y), monday(y + 1));
  }

  /** The three week-1 Mondays around a date meet what `IsoPickOrdinal` needs. */
  lemma IsoPickApplies(d: Date)
    requires ValidDate(d)
    ensures Weekday(IsoWeek1Monday(d.year - 1)) == 0 && Weekday(IsoWeek1Monday(d.year)) == 0
    ensures Weekday(IsoWeek1Monday(d.year + 1)) == 0
    ensures Ordinal(d) >= IsoWeek1Monday(d.year + 1) ==> Ordinal(d) - IsoWeek1Monday(d.year + 1) <= 2
  {
    IsoWeek1MondayFacts(d.year - 1);
    IsoWeek1MondayFacts(d.year);
    IsoWeek1MondayFacts(d.year + 1);
    OrdinalWithinYear(d);
  }

  lemma IsoYearPositive(d: Date)
    requires ValidDate(d)
    ensures IsoCalendar(d).year >= 1
  {
    var y := d.year;
    if y == 1 {
      OrdinalWithinYear(d);
      assert DaysBeforeYear(1) == 0;
      assert Week1Monday(1) == 1;
      var today := Ordinal(d);
      assert (today - 1) / 7 >= 0;
    }
  }

  predicate IsDigit(c: char)
  {
    '0' <= c <= '9'
  }

  function DigitValue(c: char): (n: nat)
    requires IsDigit(c)
    ensures n < 10
  {
    c as int - '0' as int
  }

  /** The alternatives of `%m` in `strptime`'s pattern, `1[0-2]|0[1-9]|[1-9]`, in the order the
   *  regular expression tries them: each matching one as (value, length). */
  function MonthAlternatives(t: string): seq<(nat, nat)>
  {
    (if |t| >= 2 && t[0] == '1' && '0' <= t[1] <= '2' then [(10 + DigitValue(t[1]), 2)] else [])
    + (if |t| >= 2 && t[0] == '0' && '1' <= t[1] <= '9' then [(DigitValue(t[1]), 2)] else [])
    + (if |t| >= 1 && '1' <= t[0] <= '9' then [(DigitValue(t[0]), 1)] else [])
  }

  /** The first alternative of `%d`, `3[01]|[12]\d|0[1-9]|[1-9]| [1-9]`, that matches at the start of `t`. */
  function DayAlternative(t: string): Option<(nat, nat)>
  {
    if |t| >= 2 && t[0] == '3' && '0' <= t[1] <= '1' then Some((30 + DigitValue(t[1]), 2))
    else if |t| >= 2 && '1' <= t[0] <= '2' && IsDigit(t[1]) then Some((10 * DigitValue(t[0]) + DigitValue(t[1]), 2))
    else if |t| >= 2 && t[0] == '0' && '1' <= t[1] <= '9' then Some((DigitValue(t[1]), 2))
    else if |t| >= 1 && '1' <= t[0] <= '9' then Some((DigitValue(t[0]), 1))
    else if |t| >= 2 && t[0] == ' ' && '1' <= t[1] <= '9' then Some((DigitValue(t[1]), 2))
    else None
  }

  /** Tries the month alternatives in order, as the regular expression backtracks; the first
   *  one followed by `-` and a day decides the match. The match must use the whole string
   *  ("unconverted data remains" otherwise) and the date must exist. */
  function MatchMonthDay(year: int, alts: seq<(nat, nat)>, t: string): Option<Date>
  {
    if alts == [] then None
    else
      var m := alts[0].0;
      var len := alts[0].1;
      if len < |t| && t[len] == '-' && DayAlternative(t[len + 1..]).Some? then
        var dayAlt := DayAlternative(t[len + 1..]).value;
        var candidate := Date(year, m, dayAlt.0);
        if dayAlt.1 == |t| - len - 1 && ValidDate(candidate) then Some(candidate) else None
      else MatchMonthDay(year, alts[1..], t)
  }

  /** `datetime.strptime(s, "%Y-%m-%d")`; None where it raises ValueError. */
  function ParseYmd(s: string): (r: Option<Date>)
    ensures r.Some? ==> ValidDate(r.value)
  {
    if |s| >= 5 && IsDigit(s[0]) && IsDigit(s[1]) && IsDigit(s[2]) && IsDigit(s[3]) && s[4] == '-' then
      var year := 1000 * DigitValue(s[0]) + 100 * DigitValue(s[1]) + 10 * DigitValue(s[2]) + DigitValue(s[3]);
      MatchResult(MatchMonthDay(year, MonthAlternatives(s[5..]), s[5..]))
    else None
  }

  function MatchResult(r: Option<Date>): (o: Option<Date>)
    ensures o.Some? ==> ValidDate(o.value)
  {
    if r.Some? && ValidDate(r.value) then r else None
  }

  /** Two-digit, zero-padded `{n:02d}` for n < 100. */
  function Pad2(n: nat): (r: string)
    requires n < 100
    ensures |r| == 2
  {
    [PyText.DigitChar(n / 10), PyText.DigitChar(n % 10)]
  }

  /** `date.isoformat()` for a four-digit year: `YYYY-MM-DD`. */
  function IsoFormat(d: Date): (r: string)
    requires ValidDate(d)
    ensures |r| == 10
  {
    [PyText.DigitChar(d.year / 1000), PyText.DigitChar(d.year / 100 % 10),
     PyText.DigitChar(d.year / 10 % 10), PyText.DigitChar(d.year % 10)]
    + "-" + Pad2(d.month) + "-" + Pad2(d.day)
  }

  lemma DigitRoundTrip(n: nat)
    requires n < 10
    ensures IsDigit(PyText.DigitChar(n)) && DigitValue(PyText.DigitChar(n)) == n
  {
  }

  lemma Pad2Digits(n: nat)
    requires n < 100
    ensures IsDigit(Pad2(n)[0]) && IsDigit(Pad2(n)[1])
    ensures DigitValue(Pad2(n)[0]) == n / 10 && DigitValue(Pad2(n)[1]) == n % 10
  {
  }

  lemma MonthPad(m: int, rest: string)
    requires 1 <= m <= 12
    ensures |MonthAlternatives(Pad2(m) + rest)| > 0
    ensures MonthAlternatives(Pad2(m) + rest)[0] == (m as nat, 2)
  {
    Pad2Digits(m);
  }

  lemma DayPad(d: int)
    requires 1 <= d <= 31
    ensures DayAlternative(Pad2(d)) == Some((d as nat, 2))
  {
    Pad2Digits(d);
  }

  lemma YearDigits(y: int)
    requires 1 <= y <= 9999
    ensures 1000 * (y / 1000) + 100 * (y / 100 % 10) + 10 * (y / 10 % 10) + y % 10 == y
  {
    var t := y / 10;
    assert y == 10 * t + y % 10;
    var h := t / 10;
    assert t == 10 * h + t % 10;
    assert h == y / 100;
    assert h == 10 * (h / 10) + h % 10;
    assert h / 10 == y / 1000;
  }

  /** `strptime` reads back every date that `isoformat` writes. */
  lemma {:induction false} ParseIsoFormat(d: Date)
    requires ValidDate(d)
    ensures ParseYmd(IsoFormat(d)) == Some(d)
  {
    var s := IsoFormat(d);
    var y := d.year;
    DigitRoundTrip(y / 1000);
    DigitRoundTrip(y / 100 % 10);
    DigitRoundTrip(y / 10 % 10);
    DigitRoundTrip(y % 10);
    YearDigits(y);
    var t := s[5..];
    assert t == Pad2(d.month) + ("-" + Pad2(d.day));
    MonthPad(d.month, "-" + Pad2(d.day));
    DayPad(d.day);
    assert t[3..] == Pad2(d.day);
  }
}
