/**
 * The field validators of the debt worker (src/utils/validator.ts). Each one is a pure
 * function of its input that returns whether the field is valid and a map from field
 * name to error message, which is empty exactly when the field is valid.
 */
module Validator {
  import opened Text

  // ---------------------------------------------------------------- amount

  const AmountNotANumberMessage := "Amount is not a number"

  /**
   * The amount as `Math.round((parseFloat(amount) + Number.EPSILON) * 100)` leaves it:
   * NaN when the text does not parse, otherwise a whole number of cents (of either sign).
   */
  datatype Amount = NotANumber | Cents(cents: int)

  datatype AmountValidation = AmountValidation(valid: bool, errors: map<string, string>, rounded: Amount)

  /** validateAmount, taking the parsed and rounded amount. */
  function ValidateAmount(parsed: Amount): (r: AmountValidation)
    ensures r.valid <==> r.errors == map[]
    ensures r.valid <==> parsed.Cents?
    ensures r.errors.Keys <= {"amount"}
    ensures !r.valid ==> r.errors == map["amount" := AmountNotANumberMessage]
    ensures r.rounded == parsed
  {
    var errors := if parsed.NotANumber? then map["amount" := AmountNotANumberMessage] else map[];
    AmountValidation(|errors| < 1, errors, parsed)
  }

  // ---------------------------------------------------------------- free text

  const ConceptEmptyMessage := "Concept must not be empty"
  const LoanerEmptyMessage := "Loaner cannot be empty"

  datatype TextValidation = TextValidation(valid: bool, errors: map<string, string>, trimmed: string)

  /** validateConcept for a non-null concept: valid unless it is blank, and trimmed either way. */
  function ValidateConcept(concept: string): (r: TextValidation)
    ensures r.valid <==> r.errors == map[]
    ensures r.valid <==> !AllWhitespace(concept)
    ensures r.errors.Keys <= {"concept"}
    ensures !r.valid ==> r.errors == map["concept" := ConceptEmptyMessage]
    ensures r.trimmed == Trim(concept)
  {
    var errors := if Trim(concept) == "" then map["concept" := ConceptEmptyMessage] else map[];
    TextValidation(|errors| < 1, errors, Trim(concept))
  }

  /** validateLoaner for a non-null loaner: valid unless it is blank, and trimmed either way. */
  function ValidateLoaner(loaner: string): (r: TextValidation)
    ensures r.valid <==> r.errors == map[]
    ensures r.valid <==> !AllWhitespace(loaner)
    ensures r.errors.Keys <= {"loaner"}
    ensures !r.valid ==> r.errors == map["loaner" := LoanerEmptyMessage]
    ensures r.trimmed == Trim(loaner)
  {
    var errors := if Trim(loaner) == "" then map["loaner" := LoanerEmptyMessage] else map[];
    TextValidation(|errors| < 1, errors, Trim(loaner))
  }

  // ---------------------------------------------------------------- date

  const DateFormatMessage := "The date must be in YYYY-MM-DD format"
  const InvalidDateMessage := "Invalid date"

  datatype DateValidation = DateValidation(valid: bool, errors: map<string, string>)

  /**
   * The test of `/^([0-9]{4})-(0[1-9]|1[0-2])-(0[1-9]|[1-2]\d|3[0-1])/`: anchored at the
   * start only, so whatever follows the first ten characters is not looked at.
   */
  predicate MatchesDateFormat(s: string): (matched: bool)
    ensures matched ==> |s| >= 10 && IsDateShaped(s[..10])
  {
    && |s| >= 10
    && IsDigit(s[0]) && IsDigit(s[1]) && IsDigit(s[2]) && IsDigit(s[3])
    && s[4] == '-'
    && ((s[5] == '0' && '1' <= s[6] <= '9') || (s[5] == '1' && '0' <= s[6] <= '2'))
    && s[7] == '-'
    && ((s[8] == '0' && '1' <= s[9] <= '9') || ('1' <= s[8] <= '2' && IsDigit(s[9]))
        || (s[8] == '3' && '0' <= s[9] <= '1'))
  }

  /** The `-`-separated pieces of a date that passed the format test: year, month, and the day piece. */
  lemma DatePieces(s: string)
    requires MatchesDateFormat(s)
    ensures |Split(s, '-')| >= 3
    ensures Split(s, '-')[0] == s[..4]
    ensures Split(s, '-')[1] == s[5..7]
    ensures Split(s, '-')[2] == TakeUntil(s[8..], '-')
  {
    TakeUntilAt(s, '-', 4);
    SplitFirstPiece(s, '-');
    var t := s[5..];
    assert t[2] == '-' && t[..2] == s[5..7];
    TakeUntilAt(t, '-', 2);
    SplitFirstPiece(t, '-');
    assert t[3..] == s[8..];
    SplitFirstPiece(s[8..], '-');
  }

  /** The month/day switch of validateDate over the pieces of `date.split('-')`: true when it finds the date invalid. */
  predicate RejectedByCalendar(splitDate: seq<string>): (rejected: bool)
    requires |splitDate| >= 3
    ensures splitDate[1] !in {"02", "04", "06", "09", "11"} ==> !rejected
    ensures splitDate[1] in {"04", "06", "09", "11"} ==> (rejected <==> splitDate[2] == "31")
    ensures splitDate[1] == "02" && ParseLeadingInt(splitDate[2]) < 29 ==> !rejected
    ensures splitDate[1] == "02" && ParseLeadingInt(splitDate[2]) == 29 ==>
      (rejected <==> !IsLeapYear(ParseLeadingInt(splitDate[0])))
  {
    if splitDate[1] == "02" then
      var day := ParseLeadingInt(splitDate[2]);
      day > 29 || (day == 29 && !IsLeapYear(ParseLeadingInt(splitDate[0])))
    else if splitDate[1] in {"04", "06", "09", "11"} then
      splitDate[2] == "31"
    else
      false
  }

  predicate IsLeapYear(year: nat) {
    year % 400 == 0 || (year % 4 == 0 && year % 100 != 0)
  }

  /** validateDate. */
  function ValidateDate(date: string): (r: DateValidation)
    ensures r.valid <==> r.errors == map[]
    ensures r.errors.Keys <= {"date"}
    ensures r.errors == map["date" := DateFormatMessage] <==> !MatchesDateFormat(date)
    ensures !r.valid && MatchesDateFormat(date) ==> r.errors == map["date" := InvalidDateMessage]
  {
    var errors :=
      if !MatchesDateFormat(date) then
        map["date" := DateFormatMessage]
      else
        var splitDate := Split(date, '-');
        assert |splitDate| >= 3 by { DatePieces(date); }
        if RejectedByCalendar(splitDate) then map["date" := InvalidDateMessage] else map[];
    DateValidation(|errors| < 1, errors)
  }

  /** The year a format-valid date names: its first four digits. */
  function YearOf(date: string): nat
    requires MatchesDateFormat(date)
  {
    DecimalValue(date[..4])
  }

  /** The day number `parseInt` reads from the day piece: the digits from position 8 up to the first non-digit. */
  function DayNumberOf(date: string): nat
    requires MatchesDateFormat(date)
  {
    ParseLeadingInt(date[8..])
  }

  /** The calendar check of validateDate in terms of the date text itself. */
  lemma CalendarCheckOf(date: string)
    requires MatchesDateFormat(date)
    ensures ValidateDate(date).valid <==>
      if date[5..7] == "02" then
        DayNumberOf(date) < 29 || (DayNumberOf(date) == 29 && IsLeapYear(YearOf(date)))
      else if date[5..7] in {"04", "06", "09", "11"} then
        TakeUntil(date[8..], '-') != "31"
      else
        true
  {
    DatePieces(date);
    LeadingDigitsOfDigits(date[..4]);
    LeadingDigitsBeforeSeparator(date[8..], '-');
  }

  /** February: a day after the 29th is an invalid date. */
  lemma FebruaryAfter29th(date: string)
    requires MatchesDateFormat(date) && date[5..7] == "02" && DayNumberOf(date) > 29
    ensures ValidateDate(date).errors == map["date" := InvalidDateMessage]
  {
    CalendarCheckOf(date);
  }

  /** February 29th is valid exactly in the leap years of the Gregorian calendar. */
  lemma February29th(date: string)
    requires MatchesDateFormat(date) && date[5..7] == "02" && DayNumberOf(date) == 29
    ensures ValidateDate(date).valid <==>
      YearOf(date) % 400 == 0 || (YearOf(date) % 4 == 0 && YearOf(date) % 100 != 0)
  {
    CalendarCheckOf(date);
  }

  /**
   * April, June, September and November: the date is invalid exactly when its day piece
   * (the text after the second `-` up to the next `-`) is the two characters "31".
   */
  lemma ThirtyDayMonths(date: string)
    requires MatchesDateFormat(date) && date[5..7] in {"04", "06", "09", "11"}
    ensures ValidateDate(date).valid <==> TakeUntil(date[8..], '-') != "31"
  {
    CalendarCheckOf(date);
  }

  /** Any other month takes every day the format admits. */
  lemma ThirtyOneDayMonths(date: string)
    requires MatchesDateFormat(date) && date[5..7] !in {"02", "04", "06", "09", "11"}
    ensures ValidateDate(date).valid
  {
    CalendarCheckOf(date);
  }

  // ---------------------------------------------------------------- calendar reference

  function DaysInMonth(year: nat, month: nat): nat
    requires 1 <= month <= 12
  {
    if month == 2 then (if IsLeapYear(year) then 29 else 28)
    else if month in {4, 6, 9, 11} then 30
    else 31
  }

  /** A day of the proleptic Gregorian calendar. */
  predicate IsCalendarDate(year: nat, month: nat, day: nat) {
    1 <= month <= 12 && 1 <= day <= DaysInMonth(year, month)
  }

  /** Four digits, a dash, two digits, a dash, two digits, and nothing else. */
  predicate IsDateShaped(s: string) {
    |s| == 10 && AllDigits(s[..4]) && s[4] == '-' && AllDigits(s[5..7]) && s[7] == '-' && AllDigits(s[8..])
  }

  /**
   * For a string of exactly ten characters validateDate is the calendar: it accepts
   * precisely the YYYY-MM-DD texts that name a real day, leap years included.
   */
  lemma ValidateDateIsCalendar(s: string)
    requires |s| == 10
    ensures ValidateDate(s).valid <==>
      IsDateShaped(s) && IsCalendarDate(DecimalValue(s[..4]), DecimalValue(s[5..7]), DecimalValue(s[8..]))
  {
    if MatchesDateFormat(s) {
      WellFormedDateIsCalendar(s);
    } else if IsDateShaped(s) {
      TwoDigitValue(s[5..7]);
      TwoDigitValue(s[8..]);
    }
  }

  lemma WellFormedDateIsCalendar(s: string)
    requires |s| == 10 && MatchesDateFormat(s)
    ensures IsDateShaped(s)
    ensures ValidateDate(s).valid <==> IsCalendarDate(DecimalValue(s[..4]), DecimalValue(s[5..7]), DecimalValue(s[8..]))
  {
    assert AllDigits(s[..4]);
    assert AllDigits(s[5..7]);
    assert AllDigits(s[8..]);
    TwoDigitValue(s[5..7]);
    TwoDigitValue(s[8..]);
    CalendarCheckOf(s);
    TakeUntilAbsent(s[8..], '-');
    LeadingDigitsOfDigits(s[8..]);
    MonthNames(s[5..7]);
    assert s[8..] == [s[8], s[9]];
    assert s[8..] == "31" <==> DecimalValue(s[8..]) == 31;
  }

  /** A two-digit month piece names February or a 30-day month exactly when its value does. */
  lemma MonthNames(m: string)
    requires |m| == 2 && AllDigits(m)
    ensures m == "02" <==> DecimalValue(m) == 2
    ensures m in {"04", "06", "09", "11"} <==> DecimalValue(m) in {4, 6, 9, 11}
  {
    TwoDigitValue(m);
    assert m == [m[0], m[1]];
  }

  /**
   * The format test in numbers: the first ten characters are YYYY-MM-DD with a month
   * from 1 to 12 and a day from 1 to 31, whatever the month.
   */
  lemma DateFormatIsRanges(s: string)
    requires |s| >= 10
    ensures var head := s[..10];
      MatchesDateFormat(s) <==> IsDateShaped(head) && 1 <= DecimalValue(head[5..7]) <= 12 && 1 <= DecimalValue(head[8..]) <= 31
  {
    var head := s[..10];
    assert head[..4] == [s[0], s[1], s[2], s[3]];
    assert head[5..7] == [s[5], s[6]] && head[8..] == [s[8], s[9]];
    if IsDateShaped(head) {
      TwoDigitValue(head[5..7]);
      TwoDigitValue(head[8..]);
    }
  }

  /** Text after the first ten characters does not affect the format test. */
  lemma FormatIgnoresTrailingText(s: string, t: string)
    requires MatchesDateFormat(s)
    ensures MatchesDateFormat(s + t)
  {
  }

  /**
   * Because the 30-day-month rule compares the whole day piece with "31", a 31st of
   * April followed by a time of day is accepted although the bare date is refused.
   */
  lemma ThirtyFirstOfAprilWithTime(bare: string, timed: string)
    requires bare == "2023-04-31" && timed == bare + "T10:00:00Z"
    ensures !ValidateDate(bare).valid
    ensures ValidateDate(timed).valid
  {
    assert MatchesDateFormat(bare) && MatchesDateFormat(timed);
    assert bare[5..7] == "04" && timed[5..7] == "04";
    ThirtyDayMonths(bare);
    ThirtyDayMonths(timed);
    TakeUntilAbsent(bare[8..], '-');
    assert '-' !in timed[8..];
    TakeUntilAbsent(timed[8..], '-');
  }

  /** The year piece of the two February examples. */
  lemma YearExamples()
    ensures DecimalValue("2024") == 2024 && DecimalValue("2023") == 2023
  {
    assert "2024"[..3] == "202" && "2023"[..3] == "202" && "202"[..2] == "20" && "20"[..1] == "2" && "2"[..0] == "";
  }

  /** The 29th of February is a day of 2024, a leap year. */
  lemma LeapDayExample(leap: string)
    requires leap == "2024-02-29"
    ensures ValidateDate(leap).valid
  {
    assert MatchesDateFormat(leap);
    assert leap[5..7] == "02" && leap[8..] == "29" && leap[..4] == "2024";
    LeadingDigitsOfDigits("29");
    TwoDigitValue("29");
    YearExamples();
    February29th(leap);
  }

  /** There is no 29th of February in 2023. */
  lemma NonLeapDayExample(plain: string)
    requires plain == "2023-02-29"
    ensures !ValidateDate(plain).valid
  {
    assert MatchesDateFormat(plain);
    assert plain[5..7] == "02" && plain[8..] == "29" && plain[..4] == "2023";
    LeadingDigitsOfDigits("29");
    TwoDigitValue("29");
    YearExamples();
    February29th(plain);
  }

  /** A thirteenth month fails the format test itself. */
  lemma ThirteenthMonthExample(thirteenth: string)
    requires thirteenth == "2024-13-01"
    ensures ValidateDate(thirteenth).errors == map["date" := DateFormatMessage]
  {
    assert !MatchesDateFormat(thirteenth);
  }
}
