/**
 * The slice of Python's `datetime` that the salary month range needs:
 * proleptic Gregorian date-times with microseconds, years 1 to 9999.
 */
module Calendar {
  import opened Wrappers
  import opened Text

  const MinYear: int := 1
  const MaxYear: int := 9999

  /** The message of the OverflowError Python raises when arithmetic leaves the range. */
  const OutOfRange: string := "date value out of range"

  /** The bounds of the C `int` and `long` that `datetime(year, month, day)` converts its arguments to. */
  const IntMax: int := 0x7fff_ffff
  const IntMin: int := -0x8000_0000
  const LongMax: int := 0x7fff_ffff_ffff_ffff
  const LongMin: int := -0x8000_0000_0000_0000

  /**
   * The message `datetime(year, month, day)` raises for a year or month it
   * refuses: an OverflowError when the year does not fit a C `long`, then
   * a C `int`, and otherwise the ValueError of the range check.
   */
  function ConstructorError(year: int, month: int): string {
    if !(LongMin <= year <= LongMax) then "Python int too large to convert to C long"
    else if year > IntMax then "signed integer is greater than maximum"
    else if year < IntMin then "signed integer is less than minimum"
    else if !(MinYear <= year <= MaxYear) then "year " + IntString(year) + " is out of range"
    else "month must be in 1..12"
  }

  datatype DateTime = DateTime(year: int, month: int, day: int, hour: int, minute: int, second: int, microsecond: int)

  /** The earliest value a `datetime` can hold. */
  const Earliest: DateTime := DateTime(MinYear, 1, 1, 0, 0, 0, 0)

  predicate IsLeapYear(y: int) {
    y % 4 == 0 && (y % 100 != 0 || y % 400 == 0)
  }

  function DaysInMonth(y: int, m: int): (d: int)
    requires 1 <= m <= 12
    ensures 28 <= d <= 31
  {
    if m == 2 then (if IsLeapYear(y) then 29 else 28)
    else if m == 4 || m == 6 || m == 9 || m == 11 then 30
    else 31
  }

  /** The values a `datetime` object can take. */
  predicate Valid(d: DateTime) {
    && MinYear <= d.year <= MaxYear
    && 1 <= d.month <= 12
    && 1 <= d.day <= DaysInMonth(d.year, d.month)
    && 0 <= d.hour < 24 && 0 <= d.minute < 60 && 0 <= d.second < 60
    && 0 <= d.microsecond < 1000000
  }

  /** `a < b` on `datetime`: field by field, most significant first. */
  predicate Before(a: DateTime, b: DateTime) {
    if a.year != b.year then a.year < b.year
    else if a.month != b.month then a.month < b.month
    else if a.day != b.day then a.day < b.day
    else if a.hour != b.hour then a.hour < b.hour
    else if a.minute != b.minute then a.minute < b.minute
    else if a.second != b.second then a.second < b.second
    else a.microsecond < b.microsecond
  }

  /** `a <= b` on `datetime`. */
  predicate NotAfter(a: DateTime, b: DateTime) {
    !Before(b, a)
  }

  /** Midnight at the start of a day: `datetime(year, month, day)`. */
  function Midnight(year: int, month: int, day: int): DateTime {
    DateTime(year, month, day, 0, 0, 0, 0)
  }

  /** `d - timedelta(microseconds=1)`; Python raises OverflowError below the earliest value. */
  function PreviousMicrosecond(d: DateTime): (r: Result<DateTime, string>)
    requires Valid(d)
    ensures r.Success? <==> d != Earliest
    ensures r.Success? ==> Valid(r.value) && Before(r.value, d)
  {
    if d.microsecond > 0 then Success(d.(microsecond := d.microsecond - 1))
    else if d.second > 0 then Success(d.(second := d.second - 1, microsecond := 999999))
    else if d.minute > 0 then Success(d.(minute := d.minute - 1, second := 59, microsecond := 999999))
    else if d.hour > 0 then Success(d.(hour := d.hour - 1, minute := 59, second := 59, microsecond := 999999))
    else if d.day > 1 then Success(DateTime(d.year, d.month, d.day - 1, 23, 59, 59, 999999))
    else if d.month > 1 then
      Success(DateTime(d.year, d.month - 1, DaysInMonth(d.year, d.month - 1), 23, 59, 59, 999999))
    else if d.year > MinYear then Success(DateTime(d.year - 1, 12, 31, 23, 59, 59, 999999))
    else Failure(OutOfRange)
  }

  /** Nothing lies strictly between a value and the one a microsecond before it. */
  lemma PreviousIsImmediate(d: DateTime, x: DateTime)
    requires Valid(d) && d != Earliest
    requires Valid(x) && Before(x, d)
    ensures NotAfter(x, PreviousMicrosecond(d).value)
  {
  }

  /**
   * `month_date_range(year, month)`: the first instant of the month and the
   * instant one microsecond before the first of the next month, December
   * rolling into January of the next year.  Python raises when either
   * `datetime` it builds is out of range.
   */
  function MonthDateRange(year: int, month: int): (r: Result<(DateTime, DateTime), string>)
    ensures r.Success? <==> MinYear <= year <= MaxYear && 1 <= month <= 12 && !(year == MaxYear && month == 12)
    ensures r.Success? ==> r.value.0 == Midnight(year, month, 1)
    ensures r.Success? ==> r.value.1 == DateTime(year, month, DaysInMonth(year, month), 23, 59, 59, 999999)
  {
    if !(MinYear <= year <= MaxYear && 1 <= month <= 12) then Failure(ConstructorError(year, month))
    else if month == 12 && year + 1 > MaxYear then Failure(ConstructorError(year + 1, 1))
    else
      var start := Midnight(year, month, 1);
      var next := if month == 12 then Midnight(year + 1, 1, 1) else Midnight(year, month + 1, 1);
      match PreviousMicrosecond(next)
      case Failure(e) => Failure(e)
      case Success(end) => Success((start, end))
  }

  /** A year beyond the C `int` range fails in argument conversion, before the range check. */
  lemma OverflowingYearMessage(month: int)
    requires 1 <= month <= 12
    ensures MonthDateRange(IntMax + 1, month) == Failure("signed integer is greater than maximum")
    ensures MonthDateRange(LongMax + 1, month) == Failure("Python int too large to convert to C long")
    ensures MonthDateRange(MaxYear + 1, month) == Failure("year " + IntString(MaxYear + 1) + " is out of range")
  {
  }

  /** The inclusive range holds exactly the instants of the requested month. */
  lemma MonthRangeIsTheMonth(year: int, month: int, d: DateTime)
    requires MonthDateRange(year, month).Success?
    requires Valid(d)
    ensures var (start, end) := MonthDateRange(year, month).value;
      NotAfter(start, d) && NotAfter(d, end) <==> d.year == year && d.month == month
  {
  }
}
