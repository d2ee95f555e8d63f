/** `get_quarter`: the calendar quarter of a `YYYY-MM-DD` date string. */
module Quarter {
  import opened Wrappers
  import Calendar

  /** The quarter label for a month 1..12. */
  function QuarterOfMonth(month: int): (q: string)
    requires 1 <= month <= 12
    ensures q == "Q1" <==> month <= 3
    ensures q == "Q2" <==> 4 <= month <= 6
    ensures q == "Q3" <==> 7 <= month <= 9
    ensures q == "Q4" <==> 10 <= month
  {
    if month <= 3 then "Q1" else if month <= 6 then "Q2" else if month <= 9 then "Q3" else "Q4"
  }

  /** `get_quarter(date_str)`; None where it raises ValueError (the text does not parse as
   *  `%Y-%m-%d` or names a day that does not exist). */
  function GetQuarter(dateStr: string): (r: Option<string>)
    ensures r.Some? <==> Calendar.ParseYmd(dateStr).Some?
    ensures r.Some? ==> r.value == QuarterOfMonth(Calendar.ParseYmd(dateStr).value.month)
  {
    match Calendar.ParseYmd(dateStr)
    case None => None
    case Some(d) => Some(QuarterOfMonth(d.month))
  }

  /** Every date written as `YYYY-MM-DD` gets the quarter of its month:
   *  months 1-3 are Q1, 4-6 Q2, 7-9 Q3 and 10-12 Q4. */
  lemma {:induction false} QuarterOfIsoDate(d: Calendar.Date)
    requires Calendar.ValidDate(d)
    ensures GetQuarter(Calendar.IsoFormat(d)) == Some(QuarterOfMonth(d.month))
    ensures GetQuarter(Calendar.IsoFormat(d)).value == "Q" + [('0' as int + (d.month - 1) / 3 + 1) as char]
  {
    Calendar.ParseIsoFormat(d);
  }

  /** The two documented examples. */
  lemma QuarterExamples()
    ensures GetQuarter("2024-03-15") == Some("Q1")
    ensures GetQuarter("2024-07-01") == Some("Q3")
  {
    var t1 := "03-15";
    assert "2024-03-15"[5..] == t1;
    assert Calendar.MonthAlternatives(t1) == [(3, 2)];
    assert t1[3..] == "15";
    assert Calendar.DayAlternative("15") == Some((15, 2));
    assert Calendar.ValidDate(Calendar.Date(2024, 3, 15));
    var t2 := "07-01";
    assert "2024-07-01"[5..] == t2;
    assert Calendar.MonthAlternatives(t2) == [(7, 2)];
    assert t2[3..] == "01";
    assert Calendar.DayAlternative("01") == Some((1, 2));
    assert Calendar.ValidDate(Calendar.Date(2024, 7, 1));
  }

  /** A day that does not exist and a text in another format both raise. */
  lemma QuarterRejects()
    ensures GetQuarter("2024-02-30") == None
    ensures GetQuarter("15/03/2024") == None
  {
    var t := "02-30";
    assert "2024-02-30"[5..] == t;
    assert Calendar.MonthAlternatives(t) == [(2, 2)];
    assert t[3..] == "30";
    assert Calendar.DayAlternative("30") == Some((30, 2));
    assert !Calendar.ValidDate(Calendar.Date(2024, 2, 30));
  }
}
