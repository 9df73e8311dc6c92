/** Proleptic Gregorian calendar dates and the normalisation that the
    JavaScript `Date(year, monthIndex, day)` constructor applies to its
    arguments (time zones and clock time play no part here). */
module Calendar {

  datatype CivilDate = CivilDate(year: int, month: int, day: int)

  predicate IsLeapYear(year: int) {
    (year % 4 == 0 && year % 100 != 0) || year % 400 == 0
  }

  function DaysInMonth(month: int, year: int): (n: int)
    requires 1 <= month <= 12
    ensures 28 <= n <= 31
    ensures n == 29 <==> month == 2 && IsLeapYear(year)
  {
    if month == 2 then (if IsLeapYear(year) then 29 else 28)
    else if month == 4 || month == 6 || month == 9 || month == 11 then 30
    else 31
  }

  /** A real day of a real month: 1 <= month <= 12 and 1 <= day <= days of that month. */
  predicate IsCalendarDate(year: int, month: int, day: int) {
    1 <= month <= 12 && 1 <= day <= DaysInMonth(month, year)
  }

  /** Moves a day number that lies outside its month into the neighbouring
      months, one month at a time: day 0 is the last day of the previous
      month, day 32 of January is the 1st of February. */
  function Rollover(year: int, month: int, day: int): (r: CivilDate)
    requires 1 <= month <= 12
    ensures IsCalendarDate(r.year, r.month, r.day)
    decreases if day < 1 then 1 else 0, if day < 1 then -day else day
  {
    if day < 1 then
      var py := if month == 1 then year - 1 else year;
      var pm := if month == 1 then 12 else month - 1;
      Rollover(py, pm, day + DaysInMonth(pm, py))
    else if day > DaysInMonth(month, year) then
      var ny := if month == 12 then year + 1 else year;
      var nm := if month == 12 then 1 else month + 1;
      Rollover(ny, nm, day - DaysInMonth(month, year))
    else
      CivilDate(year, month, day)
  }

  /** `new Date(year, monthIndex, day)` read back through getFullYear,
      getMonth + 1 and getDate. A year 0..99 means 1900..1999; a month index
      outside 0..11 carries into the year (floor division); the day then
      rolls over month by month. */
  function LocalDate(year: int, monthIndex: int, day: int): (r: CivilDate)
    ensures IsCalendarDate(r.year, r.month, r.day)
  {
    var fullYear := if 0 <= year <= 99 then 1900 + year else year;
    Rollover(fullYear + monthIndex / 12, monthIndex % 12 + 1, day)
  }

  /** The date built from the parsed parts reads back as the same parts
      (getMonth is zero-based, hence the month index month - 1). */
  predicate RoundTrips(day: int, month: int, year: int) {
    var date := LocalDate(year, month - 1, day);
    date.day == day && date.month == month && date.year == year
  }

  /** Rolling over a non-negative day moves back at most one year. */
  lemma {:induction false} RolloverYearLowerBound(year: int, month: int, day: int)
    requires 1 <= month <= 12
    requires day >= 0
    ensures day >= 1 ==> Rollover(year, month, day).year >= year
    ensures Rollover(year, month, day).year >= year - 1
    decreases if day < 1 then 1 else 0, day
  {
    if day < 1 {
      var py := if month == 1 then year - 1 else year;
      var pm := if month == 1 then 12 else month - 1;
      RolloverYearLowerBound(py, pm, day + DaysInMonth(pm, py));
    } else if day > DaysInMonth(month, year) {
      var ny := if month == 12 then year + 1 else year;
      var nm := if month == 12 then 1 else month + 1;
      RolloverYearLowerBound(ny, nm, day - DaysInMonth(month, year));
    }
  }

  /** For the non-negative parts a numeric pattern can produce, the Date
      round trip holds exactly for real calendar dates from year 100 on. */
  lemma RoundTripIsCalendarDate(day: int, month: int, year: int)
    requires day >= 0 && month >= 0 && year >= 0
    ensures RoundTrips(day, month, year) <==> 100 <= year && IsCalendarDate(year, month, day)
  {
    var date := LocalDate(year, month - 1, day);
    if year <= 99 {
      var fullYear := 1900 + year;
      assert (month - 1) / 12 >= -1;
      RolloverYearLowerBound(fullYear + (month - 1) / 12, (month - 1) % 12 + 1, day);
      assert date.year != year;
    }
    if 100 <= year && IsCalendarDate(year, month, day) {
      assert (month - 1) / 12 == 0;
      assert (month - 1) % 12 + 1 == month;
    }
  }
}
