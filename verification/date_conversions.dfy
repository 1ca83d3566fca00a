/**
 * `src/calendar_logic/date_conversions.rs`: the free-function predecessors of
 * the `Date` methods, on bare `i32` day, month and year.  Each is shown to
 * compute exactly what the corresponding `Date` method computes, so everything
 * proved in `Dates` carries over (including the Sunday reported as 0).
 */
module DateConversions {
  import opened RustOps
  import opened Dates

  /** `date_to_day_of_the_week`. */
  function DateToDayOfTheWeek(day: int, month: int, year: int): (w: int)
    ensures w == DayOfWeek(Date(day, month, year))
    ensures 0 <= w <= 7
    ensures w != 0 ==> w == DayOfWeekFixed(Date(day, month, year))
  {
    var newMonth := if month == 1 || month == 2 then month + 12 else month;
    var newYear := if month == 1 || month == 2 then year - 1 else year;
    var yearOfCentury := Rem(newYear, 100);
    var zeroBasedCentury := Div(newYear, 100);
    SameZellerSum(day, month, year);
    var dayOfTheWeek := Rem(day + Div(13 * (newMonth + 1), 5) + yearOfCentury
      + Div(yearOfCentury, 4) + Div(zeroBasedCentury, 4) - 2 * zeroBasedCentury, 7);
    Rem(dayOfTheWeek + 5, 7) + 1
  }

  /** The sum `date_to_day_of_the_week` reduces is the Zeller sum of `day_of_week`. */
  lemma SameZellerSum(day: int, month: int, year: int)
    ensures var newMonth := if month == 1 || month == 2 then month + 12 else month;
      var newYear := if month == 1 || month == 2 then year - 1 else year;
      day + Div(13 * (newMonth + 1), 5) + Rem(newYear, 100) + Div(Rem(newYear, 100), 4)
        + Div(Div(newYear, 100), 4) - 2 * Div(newYear, 100)
      == ZellerSum(day, month, year)
  {
  }

  /** `is_leap_year`: 1 for a leap year, 0 otherwise. */
  function IsLeapYearFlag(year: int): (r: int)
    ensures r == 1 <==> year % 4 == 0 && (year % 100 != 0 || year % 400 == 0)
    ensures r == 0 || r == 1
  {
    RemZeroLeapModuli(year);
    if Rem(year, 4) == 0 then
      if Rem(year, 100) == 0 then
        if Rem(year, 400) == 0 then 1 else 0
      else 1
    else 0
  }

  /** `month_to_days_in_month`. */
  function MonthToDaysInMonth(month: int, year: int): (r: int)
    ensures r == MaxDay(Date(1, month, year))
    ensures 1 <= month <= 12 ==> 28 <= r <= 31
  {
    var leapYear := IsLeapYearFlag(year);
    if month == 2 then 28 + leapYear else 31 - Rem(Rem(month - 1, 7), 2)
  }
}
