/** `classify_festival_date`: where a date falls relative to the public holidays of a year. */
module SeasonDetect {
  import opened Wrappers
  import Calendar

  /** One entry of the holiday table, in the table's own order. */
  datatype Holiday = Holiday(date: Calendar.Date, name: string)

  /** The date to classify: a `YYYY-MM-DD` string, or a `datetime` (its time of day does not
   *  change the whole-day difference to a holiday at midnight). */
  datatype DateInput = DateText(text: string) | DateTimeValue(date: Calendar.Date)

  /** The label a single holiday contributes for a date `diff` days after it, if any. */
  function LabelFor(diff: int, name: string): (r: seq<string>)
    ensures |r| <= 1
    ensures r == [] <==> diff < -15 || diff > 15
  {
    if diff == 0 then ["festival: " + name]
    else if -15 <= diff < 0 then ["pre-festival: " + name]
    else if 0 < diff <= 15 then ["post-festival: " + name]
    else []
  }

  predicate ValidTable(holidays: seq<Holiday>)
  {
    forall i :: 0 <= i < |holidays| ==> Calendar.ValidDate(holidays[i].date)
  }

  /** The labels of the first holidays of the table, in table order: one per holiday within 15
   *  days, so never more labels than holidays, none exactly when every holiday is more than 15
   *  days away in either direction, and each starting with the `f` of "festival" or the `p` of
   *  "pre-"/"post-festival". */
  function Labels(ordinal: int, holidays: seq<Holiday>): (r: seq<string>)
    requires ValidTable(holidays)
    ensures |r| <= |holidays|
    ensures r == [] <==>
      forall i :: 0 <= i < |holidays| ==>
        ordinal - Calendar.Ordinal(holidays[i].date) < -15 || ordinal - Calendar.Ordinal(holidays[i].date) > 15
    ensures forall i :: 0 <= i < |r| ==> |r[i]| > 0 && (r[i][0] == 'f' || r[i][0] == 'p')
  {
    if holidays == [] then []
    else
      var init := holidays[..|holidays| - 1];
      var last := holidays[|holidays| - 1];
      assert forall i :: 0 <= i < |init| ==> init[i] == holidays[i];
      Labels(ordinal, init) + LabelFor(ordinal - Calendar.Ordinal(last.date), last.name)
  }

  /** The classification of a parsed date: its labels, or `["normal day"]` when there are none.
   *  It is never empty, and it is `["normal day"]` exactly when no holiday is within 15 days. */
  function Classification(ordinal: int, holidays: seq<Holiday>): (r: seq<string>)
    requires ValidTable(holidays)
    ensures |r| >= 1
    ensures r == ["normal day"] <==>
      forall i :: 0 <= i < |holidays| ==>
        ordinal - Calendar.Ordinal(holidays[i].date) < -15 || ordinal - Calendar.Ordinal(holidays[i].date) > 15
  {
    var labels := Labels(ordinal, holidays);
    if labels == [] then ["normal day"]
    else
      assert labels[0][0] != "normal day"[0];
      labels
  }

  /** One more holiday adds its own label, if any, after those of the holidays before it. */
  lemma LabelsSnoc(ordinal: int, holidays: seq<Holiday>, i: nat)
    requires ValidTable(holidays) && i < |holidays|
    ensures ValidTable(holidays[..i]) && ValidTable(holidays[..i + 1])
    ensures Labels(ordinal, holidays[..i + 1])
      == Labels(ordinal, holidays[..i]) + LabelFor(ordinal - Calendar.Ordinal(holidays[i].date), holidays[i].name)
  {
    assert holidays[..i + 1][..i] == holidays[..i];
  }

  function InputOrdinal(input: DateInput): Option<int>
  {
    match input
    case DateText(t) =>
      (match Calendar.ParseYmd(t) case None => None case Some(d) => Some(Calendar.Ordinal(d)))
    case DateTimeValue(d) => if Calendar.ValidDate(d) then Some(Calendar.Ordinal(d)) else None
  }

  /** `classify_festival_date(input_date, year)` with `holidays` the table for `year`;
   *  None where parsing the string raises ValueError. */
  method ClassifyFestivalDate(input: DateInput, holidays: seq<Holiday>) returns (r: Option<seq<string>>)
    requires ValidTable(holidays)
    ensures r.None? <==> InputOrdinal(input).None?
    ensures r.Some? ==> r.value == Classification(InputOrdinal(input).value, holidays)
  {
    var ord := InputOrdinal(input);
    if ord.None? {
      return None;
    }
    var results := HolidayLabels(ord.value, holidays);
    if results == [] {
      results := ["normal day"];
    }
    return Some(results);
  }

  /** The loop of `classify_festival_date` over the holiday table: one label per holiday within
   *  15 days of the date, in table order. */
  method HolidayLabels(ordinal: int, holidays: seq<Holiday>) returns (results: seq<string>)
    requires ValidTable(holidays)
    ensures results == Labels(ordinal, holidays)
  {
    results := [];
    var i := 0;
    while i < |holidays|
      invariant 0 <= i <= |holidays|
      invariant results == Labels(ordinal, holidays[..i])
    {
      var h := holidays[i];
      var diff := ordinal - Calendar.Ordinal(h.date);
      var found: seq<string> := [];
      if diff == 0 {
        found := ["festival: " + h.name];
      } else if -15 <= diff < 0 {
        found := ["pre-festival: " + h.name];
      } else if 0 < diff <= 15 {
        found := ["post-festival: " + h.name];
      }
      assert found == LabelFor(diff, h.name);
      LabelsSnoc(ordinal, holidays, i);
      results := results + found;
      i := i + 1;
    }
    assert holidays[..i] == holidays;
  }
}
