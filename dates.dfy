/** `profiles/models.py` `Date`: a partial calendar date (a year, a year and month, or a full
    date, as ISO 8601 reduced-precision calendar dates), and its expansion to the earliest and
    latest instants it may denote. */
module Dates {
  import opened Wrappers
  import opened Decimal

  /** Python's `calendar.isleap`: the Gregorian rule. */
  predicate IsLeapYear(year: int) {
    year % 4 == 0 && (year % 100 != 0 || year % 400 == 0)
  }

  /** `calendar.monthrange(year, month)[1]`. */
  function DaysInMonth(year: int, month: int): (n: int)
    requires 1 <= month <= 12
    ensures 28 <= n <= 31
    ensures n == 29 <==> month == 2 && IsLeapYear(year)
  {
    if month == 2 then (if IsLeapYear(year) then 29 else 28)
    else if month == 4 || month == 6 || month == 9 || month == 11 then 30
    else 31
  }

  /** What `datetime.date(year, month, day)` accepts. */
  predicate IsCalendarDate(year: int, month: int, day: int) {
    1 <= year <= 9999 && 1 <= month <= 12 && 1 <= day <= DaysInMonth(year, month)
  }

  lemma LeapDay(year: int)
    requires 1 <= year <= 9999
    ensures IsCalendarDate(year, 2, 29) <==> IsLeapYear(year)
  {
  }

  datatype Date = Date(year: int, month: Option<int>, day: Option<int>)

  /** The `ValueError`s of the constructor: 'Month is missing', 'Invalid date', and the one
      `pendulum.date` raises for a day that is not on the calendar. */
  datatype DateError = MonthMissing | InvalidMonth | NotACalendarDate

  /** `Date(year, month, day)`. */
  function NewDate(year: int, month: Option<int>, day: Option<int>): (r: Result<Date, DateError>)
    ensures r.Ok? <==> && (day.Some? ==> month.Some?)
                       && (month.Some? ==> 1 <= month.value <= 12)
                       && (day.Some? ==> IsCalendarDate(year, month.value, day.value))
    ensures r.Ok? ==> r.value == Date(year, month, day)
    ensures r == Err(MonthMissing) <==> day.Some? && month.None?
    ensures r == Err(InvalidMonth) <==> !(day.Some? && month.None?) && month.Some? && !(1 <= month.value <= 12)
  {
    if day.Some? && month.None? then Err(MonthMissing)
    else if month.Some? && !(1 <= month.value <= 12) then Err(InvalidMonth)
    else if day.Some? && !IsCalendarDate(year, month.value, day.value) then Err(NotACalendarDate)
    else Ok(Date(year, month, day))
  }

  /** The dates the constructor admits. */
  predicate WellFormed(d: Date) {
    NewDate(d.year, d.month, d.day).Ok?
  }

  lemma RejectedExamples()
    ensures NewDate(2017, Some(0), None).Err? && NewDate(2017, Some(13), None).Err?
    ensures NewDate(2017, None, Some(2)) == Err(MonthMissing)
    ensures NewDate(2017, Some(12), Some(32)).Err? && NewDate(2017, Some(2), Some(29)).Err?
    ensures NewDate(2016, Some(2), Some(29)).Ok?
  {
  }

  /** Python truthiness of an optional integer field. */
  predicate Set(v: Option<int>) {
    v.Some? && v.value != 0
  }

  /** `str(date)`: the year as four zero-padded digits, then `-MM` and `-DD` for the parts set. */
  function ToString(d: Date): (s: string)
    ensures 0 <= d.year <= 9999 && WellFormed(d) ==> |s| == 4 + (if d.month.Some? then 3 else 0) + (if d.day.Some? then 3 else 0)
  {
    var yearPart := ZeroPadded(d.year, 4);
    var monthPart := if Set(d.month) then "-" + ZeroPadded(d.month.value, 2) else "";
    var dayPart := if Set(d.day) then "-" + ZeroPadded(d.day.value, 2) else "";
    assert 0 <= d.year <= 9999 && WellFormed(d) ==> |yearPart| == 4 && |monthPart| == (if d.month.Some? then 3 else 0) && |dayPart| == (if d.day.Some? then 3 else 0) by {
      if 0 <= d.year <= 9999 && WellFormed(d) {
        Pow10Values();
        ZeroPaddedFixed(d.year, 4);
        if d.month.Some? { ZeroPaddedFixed(d.month.value, 2); }
        if d.day.Some? { ZeroPaddedFixed(d.day.value, 2); }
      }
    }
    yearPart + monthPart + dayPart
  }

  lemma Pow10Values()
    ensures Pow10(2) == 100 && Pow10(4) == 10000
  {
    assert Pow10(1) == 10;
    assert Pow10(3) == 1000;
  }

  /** Reads a rendered date back: `YYYY`, `YYYY-MM` or `YYYY-MM-DD`. */
  function ParseDate(s: string): Option<Date> {
    if |s| == 4 && AllDigits(s) then Some(Date(Value(s), None, None))
    else if |s| == 7 && AllDigits(s[..4]) && s[4] == '-' && AllDigits(s[5..]) then
      Some(Date(Value(s[..4]), Some(Value(s[5..])), None))
    else if |s| == 10 && AllDigits(s[..4]) && s[4] == '-' && AllDigits(s[5..7]) && s[7] == '-' && AllDigits(s[8..]) then
      Some(Date(Value(s[..4]), Some(Value(s[5..7])), Some(Value(s[8..]))))
    else None
  }

  /** The rendering of a date with a year of at most four digits loses nothing. */
  lemma ToStringRoundTrip(d: Date)
    requires WellFormed(d) && 0 <= d.year <= 9999
    ensures ParseDate(ToString(d)) == Some(d)
  {
    Pow10Values();
    ZeroPaddedFixed(d.year, 4);
    var y := ZeroPadded(d.year, 4);
    var s := ToString(d);
    assert s[..4] == y;
    if d.month.Some? {
      ZeroPaddedFixed(d.month.value, 2);
      var m := ZeroPadded(d.month.value, 2);
      if d.day.Some? {
        ZeroPaddedFixed(d.day.value, 2);
        var dd := ZeroPadded(d.day.value, 2);
        assert s == y + "-" + m + "-" + dd;
        assert s[5..7] == m && s[8..] == dd;
      } else {
        assert s == y + "-" + m;
        assert s[5..] == m;
      }
    } else {
      assert s == y;
    }
  }

  /** Two such dates are equal (`__eq__`, field by field) exactly when they render alike. */
  lemma ToStringInjective(d: Date, e: Date)
    requires WellFormed(d) && 0 <= d.year <= 9999
    requires WellFormed(e) && 0 <= e.year <= 9999
    ensures ToString(d) == ToString(e) <==> d == e
  {
    ToStringRoundTrip(d);
    ToStringRoundTrip(e);
  }

  /** A naive `datetime`: a calendar day and the second within it. */
  datatype DateTime = DateTime(year: int, month: int, day: int, second: int)

  predicate Before(a: DateTime, b: DateTime) {
    a.year < b.year ||
    (a.year == b.year && (a.month < b.month ||
      (a.month == b.month && (a.day < b.day || (a.day == b.day && a.second < b.second)))))
  }

  predicate AtMost(a: DateTime, b: DateTime) {
    a == b || Before(a, b)
  }

  /** `date.lowest_possible()`: `datetime(year, month or 1, day or 1)`, a ValueError
      when that is not a calendar date. */
  function LowestPossible(d: Date): (r: Result<DateTime, DateError>)
    ensures r.Ok? <==> IsCalendarDate(d.year, if Set(d.month) then d.month.value else 1, if Set(d.day) then d.day.value else 1)
    ensures r.Ok? ==> r.value.second == 0 && r.value.year == d.year
  {
    var m := if Set(d.month) then d.month.value else 1;
    var day := if Set(d.day) then d.day.value else 1;
    if IsCalendarDate(d.year, m, day) then Ok(DateTime(d.year, m, day, 0)) else Err(NotACalendarDate)
  }

  /** `date.highest_possible()`: `datetime(year, month or 12, day or <last day of that month>)`. */
  function HighestPossible(d: Date): (r: Result<DateTime, DateError>)
    ensures r.Ok? ==> r.value.second == 0 && r.value.year == d.year
    ensures r.Ok? ==> IsCalendarDate(r.value.year, r.value.month, r.value.day)
  {
    var m := if Set(d.month) then d.month.value else 12;
    if !(1 <= m <= 12) then Err(NotACalendarDate)
    else
      var day := if Set(d.day) then d.day.value else DaysInMonth(d.year, m);
      if IsCalendarDate(d.year, m, day) then Ok(DateTime(d.year, m, day, 0)) else Err(NotACalendarDate)
  }

  /** A calendar day that the partial date may denote. */
  predicate Denotes(d: Date, t: DateTime) {
    && t.year == d.year
    && (d.month.Some? ==> t.month == d.month.value)
    && (d.day.Some? ==> t.day == d.day.value)
    && IsCalendarDate(t.year, t.month, t.day)
  }

  /** For a well-formed date both expansions exist exactly when the year is between 1 and 9999;
      each denotes the date itself, and every day the date denotes lies between them. */
  lemma PossibleBounds(d: Date, t: DateTime)
    requires WellFormed(d)
    ensures LowestPossible(d).Ok? <==> 1 <= d.year <= 9999
    ensures HighestPossible(d).Ok? <==> 1 <= d.year <= 9999
    ensures LowestPossible(d).Ok? ==> Denotes(d, LowestPossible(d).value) && Denotes(d, HighestPossible(d).value)
    ensures LowestPossible(d).Ok? ==> AtMost(LowestPossible(d).value, HighestPossible(d).value)
    ensures Denotes(d, t) && 0 <= t.second ==> AtMost(LowestPossible(d).value, t)
    ensures Denotes(d, t) && t.second == 0 ==> AtMost(t, HighestPossible(d).value)
  {
  }
}
