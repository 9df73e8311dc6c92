/** The input validators: pure string checks that answer either with a
    value or with a locale key naming the error. */
module Validators {
  import opened Strings
  import opened Calendar

  datatype Validation<T> = Valid(value: T) | Invalid(error: string)

  const InvalidDateFormat := "validation.invalidDateFormat"
  const InvalidDate := "validation.invalidDate"
  const LeapYearError := "validation.leapYearError"
  const InvalidTimeFormat := "validation.invalidTimeFormat"
  const NameRequired := "validation.nameRequired"
  const NameTooLong := "validation.nameTooLong"
  const InvalidCategory := "validation.invalidCategory"

  /** Earliest accepted birth year. */
  const MinYear := 1900
  /** Longest accepted name, in UTF-16 code units. */
  const MaxNameLength := 100
  const Categories: seq<string> := ["family", "friends", "colleagues", "other"]

  // ----- Dates -----------------------------------------------------------

  /** The three capture groups of a date. */
  datatype DateFields = DateFields(day: string, month: string, year: string)

  /** What `^(\d{1,2})\.(\d{1,2})\.(\d{4})$` demands of its groups. */
  predicate IsDateShape(f: DateFields) {
    && 1 <= |f.day| <= 2 && AllDigits(f.day)
    && 1 <= |f.month| <= 2 && AllDigits(f.month)
    && |f.year| == 4 && AllDigits(f.year)
  }

  function DateText(f: DateFields): string {
    f.day + "." + f.month + "." + f.year
  }

  lemma JoinThree(a: string, b: string, c: string, sep: char)
    ensures Join([a, b, c], sep) == a + [sep] + b + [sep] + c
  {
    assert [a, b, c][1..] == [b, c];
    assert [b, c][1..] == [c];
    assert Join([b, c], sep) == b + [sep] + c;
  }

  lemma JoinTwo(a: string, b: string, sep: char)
    ensures Join([a, b], sep) == a + [sep] + b
  {
    assert [a, b][1..] == [b];
  }

  /** Matches the date pattern; the groups put back together are the input. */
  function MatchDate(s: string): (m: Option<DateFields>)
    ensures m.Some? ==> IsDateShape(m.value) && DateText(m.value) == s
  {
    var parts := Split(s, '.');
    if |parts| == 3 && IsDateShape(DateFields(parts[0], parts[1], parts[2])) then
      JoinSplit(s, '.');
      assert parts == [parts[0], parts[1], parts[2]];
      JoinThree(parts[0], parts[1], parts[2], '.');
      Some(DateFields(parts[0], parts[1], parts[2]))
    else
      None
  }

  /** Every string of the pattern's shape is matched, with its own groups. */
  lemma MatchDateComplete(f: DateFields)
    requires IsDateShape(f)
    ensures MatchDate(DateText(f)) == Some(f)
  {
    var parts := [f.day, f.month, f.year];
    DigitsExclude(f.day);
    DigitsExclude(f.month);
    DigitsExclude(f.year);
    JoinThree(f.day, f.month, f.year, '.');
    SplitJoin(parts, '.');
  }

  /** `validateDateString` with the clock's current year as a parameter:
      the pattern, then the Date round trip, then the 29 February check,
      then the year window [1900, currentYear]. */
  function ValidateDate(s: string, currentYear: int): Validation<CivilDate> {
    match MatchDate(s)
    case None => Invalid(InvalidDateFormat)
    case Some(f) =>
      var day := ParseDigits(f.day);
      var month := ParseDigits(f.month);
      var year := ParseDigits(f.year);
      if !RoundTrips(day, month, year) then Invalid(InvalidDate)
      else if month == 2 && day == 29 && !IsLeapYear(year) then Invalid(LeapYearError)
      else if year > currentYear || year < MinYear then Invalid(InvalidDate)
      else Valid(LocalDate(year, month - 1, day))
  }

  /** The meaning of the date validator, with no reference to Date: a
      format error for anything off the pattern, otherwise valid exactly
      for calendar dates whose year lies in the window, carrying the parsed
      day, month and year. */
  lemma ValidateDateMeaning(s: string, currentYear: int)
    ensures MatchDate(s).None? ==> ValidateDate(s, currentYear) == Invalid(InvalidDateFormat)
    ensures MatchDate(s).Some? ==>
      var f := MatchDate(s).value;
      var day, month, year := ParseDigits(f.day), ParseDigits(f.month), ParseDigits(f.year);
      ValidateDate(s, currentYear) ==
        if IsCalendarDate(year, month, day) && MinYear <= year <= currentYear
        then Valid(CivilDate(year, month, day))
        else Invalid(InvalidDate)
  {
    if MatchDate(s).Some? {
      var f := MatchDate(s).value;
      var day, month, year := ParseDigits(f.day), ParseDigits(f.month), ParseDigits(f.year);
      RoundTripIsCalendarDate(day, month, year);
      if IsCalendarDate(year, month, day) && 100 <= year {
        assert (month - 1) / 12 == 0 && (month - 1) % 12 + 1 == month;
        assert LocalDate(year, month - 1, day) == CivilDate(year, month, day);
      }
    }
  }

  /** The leap-year error is never produced: 29 February of a common year
      already fails the Date round trip. */
  lemma LeapYearErrorUnreachable(s: string, currentYear: int)
    ensures ValidateDate(s, currentYear) != Invalid(LeapYearError)
  {
    ValidateDateMeaning(s, currentYear);
  }

  /** The outcome for a date in the pattern's shape, stated on its groups. */
  lemma ValidateDateOfFields(f: DateFields, currentYear: int)
    requires IsDateShape(f)
    ensures
      var day, month, year := ParseDigits(f.day), ParseDigits(f.month), ParseDigits(f.year);
      ValidateDate(DateText(f), currentYear) ==
        if IsCalendarDate(year, month, day) && MinYear <= year <= currentYear
        then Valid(CivilDate(year, month, day))
        else Invalid(InvalidDate)
  {
    MatchDateComplete(f);
    ValidateDateMeaning(DateText(f), currentYear);
  }

  lemma OneDigit(s: string)
    requires |s| == 1 && AllDigits(s)
    ensures ParseDigits(s) == DigitValue(s[0])
  {
    assert s[..0] == "";
  }

  lemma FourDigits(s: string)
    requires |s| == 4 && AllDigits(s)
    ensures ParseDigits(s) == 1000 * DigitValue(s[0]) + 100 * DigitValue(s[1]) + 10 * DigitValue(s[2]) + DigitValue(s[3])
  {
    var p3 := s[..3];
    var p2 := p3[..2];
    assert AllDigits(p3) && AllDigits(p2);
    TwoDigits(p2);
    assert p3[..|p3| - 1] == p2;
    assert s[..|s| - 1] == p3;
  }

  /** The outcome for a concrete date, computed from its digits. */
  lemma ValidateDateOfDigits(day: string, month: string, year: string, currentYear: int)
    requires |day| == 2 && |month| == 2 && |year| == 4
    requires AllDigits(day) && AllDigits(month) && AllDigits(year)
    ensures
      var d := 10 * DigitValue(day[0]) + DigitValue(day[1]);
      var m := 10 * DigitValue(month[0]) + DigitValue(month[1]);
      var y := 1000 * DigitValue(year[0]) + 100 * DigitValue(year[1]) + 10 * DigitValue(year[2]) + DigitValue(year[3]);
      ValidateDate(day + "." + month + "." + year, currentYear) ==
        if IsCalendarDate(y, m, d) && MinYear <= y <= currentYear
        then Valid(CivilDate(y, m, d))
        else Invalid(InvalidDate)
  {
    TwoDigits(day);
    TwoDigits(month);
    FourDigits(year);
    ValidateDateOfFields(DateFields(day, month, year), currentYear);
  }

  /** Dates the pattern matches but the calendar does not have are invalid
      dates: 29 February of a common year (not a leap-year error) and
      31 April. */
  lemma ImpossibleDateExamples()
    ensures ValidateDate("29" + "." + "02" + "." + "2001", 2026) == Invalid(InvalidDate)
    ensures ValidateDate("31" + "." + "04" + "." + "2020", 2026) == Invalid(InvalidDate)
  {
    ImpossibleDate("29", "02", "2001");
    ImpossibleDate("31", "04", "2020");
  }

  lemma ImpossibleDate(day: string, month: string, year: string)
    requires (day, month, year) in {("29", "02", "2001"), ("31", "04", "2020")}
    ensures ValidateDate(day + "." + month + "." + year, 2026) == Invalid(InvalidDate)
  {
    ValidateDateOfDigits(day, month, year, 2026);
  }

  lemma LeapDayExample()
    ensures ValidateDate("29" + "." + "02" + "." + "2000", 2026) == Valid(CivilDate(2000, 2, 29))
  {
    ValidateDateOfDigits("29", "02", "2000", 2026);
  }

  /** Single-digit day and month pass the pattern. */
  lemma SingleDigitExample()
    ensures ValidateDate("5" + "." + "3" + "." + "1990", 2026) == Valid(CivilDate(1990, 3, 5))
  {
    OneDigit("5");
    OneDigit("3");
    FourDigits("1990");
    ValidateDateOfFields(DateFields("5", "3", "1990"), 2026);
  }

  /** Years before 1900 and after the current year are rejected. */
  lemma YearWindowExamples()
    ensures ValidateDate("15" + "." + "03" + "." + "1899", 2026) == Invalid(InvalidDate)
    ensures ValidateDate("01" + "." + "01" + "." + "2027", 2026) == Invalid(InvalidDate)
  {
    ValidateDateOfDigits("15", "03", "1899", 2026);
    ValidateDateOfDigits("01", "01", "2027", 2026);
  }

  /** A string with a separator other than a dot is a format error. */
  lemma DateFormatExample()
    ensures ValidateDate("1990-03-15", 2026) == Invalid(InvalidDateFormat)
  {
    SplitFreePrefix("1990-03-15", "", '.');
    assert "1990-03-15" + "" == "1990-03-15";
  }

  // ----- Times -----------------------------------------------------------

  /** The hour group `[01]?[0-9]|2[0-3]`. */
  predicate IsHourPattern(h: string) {
    || (|h| == 1 && IsDigit(h[0]))
    || (|h| == 2 && (h[0] == '0' || h[0] == '1') && IsDigit(h[1]))
    || (|h| == 2 && h[0] == '2' && '0' <= h[1] <= '3')
  }

  /** The minute group `[0-5][0-9]`. */
  predicate IsMinutePattern(m: string) {
    |m| == 2 && '0' <= m[0] <= '5' && IsDigit(m[1])
  }

  /** A clock time read numerically: a one- or two-digit hour up to 23 and
      a two-digit minute up to 59. */
  predicate IsClockTime(hour: string, minute: string) {
    && 1 <= |hour| <= 2 && AllDigits(hour) && ParseDigits(hour) <= 23
    && |minute| == 2 && AllDigits(minute) && ParseDigits(minute) <= 59
  }

  /** `validateTime`: the input itself when it matches
      `^([01]?[0-9]|2[0-3]):([0-5][0-9])$`. */
  function ValidateTime(s: string): Validation<string> {
    var parts := Split(s, ':');
    if |parts| == 2 && IsHourPattern(parts[0]) && IsMinutePattern(parts[1]) then Valid(s)
    else Invalid(InvalidTimeFormat)
  }

  lemma TwoDigits(s: string)
    requires |s| == 2 && AllDigits(s)
    ensures ParseDigits(s) == 10 * DigitValue(s[0]) + DigitValue(s[1])
  {
    assert s[..1][..0] == "";
    assert s[..1][0] == s[0];
    assert ParseDigits(s[..1]) == DigitValue(s[0]);
  }

  lemma HourPatternMeaning(h: string)
    ensures IsHourPattern(h) <==> 1 <= |h| <= 2 && AllDigits(h) && ParseDigits(h) <= 23
  {
    if |h| == 1 && AllDigits(h) {
      assert h[..0] == "";
    }
    if |h| == 2 && AllDigits(h) {
      TwoDigits(h);
    }
  }

  lemma MinutePatternMeaning(m: string)
    ensures IsMinutePattern(m) <==> |m| == 2 && AllDigits(m) && ParseDigits(m) <= 59
  {
    if |m| == 2 && AllDigits(m) {
      TwoDigits(m);
    }
  }

  /** Digit strings contain neither separator. */
  lemma DigitsExclude(s: string)
    requires AllDigits(s)
    ensures ':' !in s && '.' !in s
  {
    assert forall k | 0 <= k < |s| :: s[k] != ':' && s[k] != '.';
  }

  /** Valid times are exactly an hour up to 23 (one or two digits), a
      colon and a two-digit minute up to 59; the value is the input
      unchanged, so `7:30` is not padded. */
  lemma ValidateTimeMeaning(s: string)
    ensures ValidateTime(s).Valid? ==>
      var parts := Split(s, ':');
      && |parts| == 2 && s == parts[0] + ":" + parts[1]
      && IsClockTime(parts[0], parts[1])
      && ValidateTime(s).value == s
    ensures ValidateTime(s).Invalid? ==> ValidateTime(s).error == InvalidTimeFormat
  {
    var parts := Split(s, ':');
    if ValidateTime(s).Valid? {
      HourPatternMeaning(parts[0]);
      MinutePatternMeaning(parts[1]);
      JoinSplit(s, ':');
      assert parts == [parts[0], parts[1]];
      JoinTwo(parts[0], parts[1], ':');
    }
  }

  /** The outcome for a time given as its two colon-free halves: valid,
      with the input as value, exactly when the hour and minute are in range. */
  lemma ValidateTimeOfParts(hour: string, minute: string)
    requires ':' !in hour && ':' !in minute
    ensures ValidateTime(hour + ":" + minute) ==
      if IsClockTime(hour, minute) then Valid(hour + ":" + minute) else Invalid(InvalidTimeFormat)
  {
    HourPatternMeaning(hour);
    MinutePatternMeaning(minute);
    JoinTwo(hour, minute, ':');
    SplitJoin([hour, minute], ':');
  }

  lemma TimeExamples()
    ensures ValidateTime("7" + ":" + "30") == Valid("7" + ":" + "30")
    ensures ValidateTime("23" + ":" + "59") == Valid("23" + ":" + "59")
    ensures ValidateTime("24" + ":" + "00") == Invalid(InvalidTimeFormat)
    ensures ValidateTime("12" + ":" + "60") == Invalid(InvalidTimeFormat)
    ensures ValidateTime("12" + ":" + "5") == Invalid(InvalidTimeFormat)
  {
    OneDigit("7");
    TwoDigits("30");
    ValidateTimeOfParts("7", "30");
    TwoDigits("23");
    TwoDigits("59");
    ValidateTimeOfParts("23", "59");
    TwoDigits("24");
    ValidateTimeOfParts("24", "00");
    TwoDigits("60");
    ValidateTimeOfParts("12", "60");
    ValidateTimeOfParts("12", "5");
  }

  // ----- Names -----------------------------------------------------------

  /** The WhiteSpace and LineTerminator code points that
      `String.prototype.trim` removes. */
  predicate IsJsWhitespace(c: char) {
    || c == '\t' || c == '\n' || c == '\U{000B}' || c == '\U{000C}' || c == '\r' || c == ' '
    || c == '\U{00A0}' || c == '\U{1680}' || ('\U{2000}' <= c <= '\U{200A}')
    || c == '\U{2028}' || c == '\U{2029}' || c == '\U{202F}' || c == '\U{205F}'
    || c == '\U{3000}' || c == '\U{FEFF}'
  }

  predicate AllWhitespace(s: string) {
    forall i | 0 <= i < |s| :: IsJsWhitespace(s[i])
  }

  /** Neither end is whitespace. */
  predicate IsTrimmed(s: string) {
    |s| == 0 || (!IsJsWhitespace(s[0]) && !IsJsWhitespace(s[|s| - 1]))
  }

  /** Number of leading whitespace characters. */
  function LeadingSpace(s: string): (n: nat)
    ensures n <= |s|
    ensures AllWhitespace(s[..n])
    ensures n < |s| ==> !IsJsWhitespace(s[n])
  {
    if |s| == 0 || !IsJsWhitespace(s[0]) then 0
    else
      var n := 1 + LeadingSpace(s[1..]);
      assert s[..n] == [s[0]] + s[1..][..n - 1];
      n
  }

  /** Number of trailing whitespace characters. */
  function TrailingSpace(s: string): (n: nat)
    ensures n <= |s|
    ensures AllWhitespace(s[|s| - n..])
    ensures n < |s| ==> !IsJsWhitespace(s[|s| - n - 1])
  {
    if |s| == 0 || !IsJsWhitespace(s[|s| - 1]) then 0
    else
      var t := s[..|s| - 1];
      var n := 1 + TrailingSpace(t);
      assert s[|s| - n..] == t[|t| - (n - 1)..] + [s[|s| - 1]];
      n
  }

  /** `s.trim()`: the input without its leading and trailing whitespace.
      What is removed in front is all whitespace, what is kept follows it
      directly, what is removed behind is all whitespace, and the result
      is trimmed; these four facts determine the result. */
  function Trim(s: string): (r: string)
    ensures IsTrimmed(r)
    ensures LeadingSpace(s) + |r| <= |s|
    ensures r == s[LeadingSpace(s)..LeadingSpace(s) + |r|]
    ensures AllWhitespace(s[LeadingSpace(s) + |r|..])
  {
    var lead := LeadingSpace(s);
    if lead == |s| then ""
    else
      var trail := TrailingSpace(s);
      assert forall k | |s| - trail <= k < |s| :: IsJsWhitespace(s[k]) by {
        forall k | |s| - trail <= k < |s| ensures IsJsWhitespace(s[k]) {
          assert s[|s| - trail..][k - (|s| - trail)] == s[k];
        }
      }
      assert !IsJsWhitespace(s[lead]);
      s[lead..|s| - trail]
  }

  /** Trimming a trimmed string changes nothing. */
  lemma TrimOfTrimmed(s: string)
    requires IsTrimmed(s)
    ensures Trim(s) == s
  {
    if |s| > 0 {
      assert LeadingSpace(s) == 0;
      assert TrailingSpace(s) == 0;
    }
  }

  /** Trimming is idempotent. */
  lemma TrimIdempotent(s: string)
    ensures Trim(Trim(s)) == Trim(s)
  {
    TrimOfTrimmed(Trim(s));
  }

  /** The string length JavaScript reports: code points above U+FFFF take
      two UTF-16 code units. */
  function Utf16Length(s: string): (n: nat)
    ensures |s| <= n <= 2 * |s|
  {
    if |s| == 0 then 0
    else (if s[0] as int > 0xFFFF then 2 else 1) + Utf16Length(s[1..])
  }

  /** `validateName`: the trimmed name, which must be non-empty and at most
      100 UTF-16 code units long. */
  function ValidateName(name: string): (r: Validation<string>)
    ensures r.Valid? ==> IsTrimmed(r.value) && |r.value| >= 1 && Utf16Length(r.value) <= MaxNameLength
    ensures r.Valid? ==> r.value == Trim(name)
    ensures r == Invalid(NameRequired) <==> AllWhitespace(name)
    ensures r == Invalid(NameTooLong) <==> Utf16Length(Trim(name)) > MaxNameLength
    ensures r.Invalid? ==> r.error == NameRequired || r.error == NameTooLong
  {
    var trimmed := Trim(name);
    if Utf16Length(trimmed) < 1 then
      Invalid(NameRequired)
    else if Utf16Length(trimmed) > MaxNameLength then
      Invalid(NameTooLong)
    else
      Valid(trimmed)
  }

  /** A validated name validates to itself. */
  lemma ValidateNameIdempotent(name: string)
    requires ValidateName(name).Valid?
    ensures ValidateName(ValidateName(name).value) == ValidateName(name)
  {
    TrimOfTrimmed(ValidateName(name).value);
  }

  // ----- Categories ------------------------------------------------------

  /** `validateCategory`: one of the four fixed categories, unchanged. */
  function ValidateCategory(category: string): (r: Validation<string>)
    ensures r.Valid? <==> category in {"family", "friends", "colleagues", "other"}
    ensures r.Valid? ==> r.value == category
    ensures r.Invalid? ==> r.error == InvalidCategory
  {
    if category in Categories then Valid(category) else Invalid(InvalidCategory)
  }
}
