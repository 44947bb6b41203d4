/** Month arithmetic on calendar dates, as the loan schedules step through it. */
module Calendar {
  import opened Prelude

  datatype Date = Date(year: int, month: int, day: int)

  /** `date(year, ...)` raises ValueError outside years 1 to 9999. */
  datatype DateError = OutOfRange

  predicate IsLeap(year: int) {
    year % 4 == 0 && (year % 100 != 0 || year % 400 == 0)
  }

  /** The length of month `month` (1 to 12). */
  function MonthLength(year: int, month: int): int
    requires 1 <= month <= 12
  {
    [31, if IsLeap(year) then 29 else 28, 31, 30, 31, 30, 31, 31, 30, 31, 30, 31][month - 1]
  }

  /** Months counted from month 1 of year 0. */
  function Index(d: Date): int {
    12 * d.year + d.month - 1
  }

  function LengthAt(index: int): int {
    MonthLength(index / 12, index % 12 + 1)
  }

  predicate InRange(index: int) {
    1 <= index / 12 <= 9999
  }

  predicate ValidDate(d: Date) {
    1 <= d.month <= 12 && InRange(Index(d)) && 1 <= d.day <= LengthAt(Index(d))
  }

  /** A date object is always a date of the calendar. */
  type Day = d: Date | ValidDate(d) witness Date(2000, 1, 1)

  ghost predicate Before(a: Date, b: Date) {
    a.year < b.year || (a.year == b.year && (a.month < b.month || (a.month == b.month && a.day < b.day)))
  }

  function Min(a: int, b: int): int {
    if a <= b then a else b
  }

  /** `_add_months`: floor division and remainder by 12 carry the year, then the day is clipped. */
  function AddMonths(d: Date, months: int): Result<Date, DateError> {
    var m := d.month - 1 + months;
    var year, month := d.year + m / 12, m % 12 + 1;
    if 1 <= year <= 9999 then Success(Date(year, month, Min(d.day, MonthLength(year, month)))) else Failure(OutOfRange)
  }

  /** `n` steps of one month each. */
  function Steps(d: Date, n: nat): Result<Date, DateError> {
    if n == 0 then Success(d)
    else
      match Steps(d, n - 1)
      case Failure(e) => Failure(e)
      case Success(d1) => AddMonths(d1, 1)
  }

  lemma MonthLengths(index: int)
    ensures 28 <= LengthAt(index) <= 31
  {
  }

  /** The result is a valid date exactly `months` calendar months away, or out of the year range. */
  lemma AddMonthsLands(d: Date, months: int)
    requires ValidDate(d)
    ensures AddMonths(d, months).Success? <==> InRange(Index(d) + months)
    ensures AddMonths(d, months).Success? ==>
              var r := AddMonths(d, months).value;
              ValidDate(r) && Index(r) == Index(d) + months && r.day == Min(d.day, LengthAt(Index(d) + months))
  {
    hide MonthLength;
    var m := d.month - 1 + months;
    var year, month := d.year + m / 12, m % 12 + 1;
    assert (Index(d) + months) / 12 == year && (Index(d) + months) % 12 + 1 == month;
    MonthLengths(Index(d) + months);
  }

  /** The day left after visiting months index+1 to index+n: the least of `day` and their lengths. */
  function ClippedDay(day: int, index: int, n: nat): int {
    if n == 0 then day else Min(ClippedDay(day, index, n - 1), LengthAt(index + n))
  }

  lemma InRangeBetween(i: int, j: int, k: int)
    requires i <= j <= k && InRange(i) && InRange(k)
    ensures InRange(j)
  {
  }

  /** Month after month, the day is clipped by every month on the way and never grows back. */
  lemma {:induction false} StepsLand(d: Date, n: nat)
    requires ValidDate(d)
    ensures Steps(d, n).Success? <==> InRange(Index(d) + n)
    ensures Steps(d, n).Success? ==>
              var r := Steps(d, n).value;
              ValidDate(r) && Index(r) == Index(d) + n && r.day == ClippedDay(d.day, Index(d), n)
  {
    hide AddMonths, LengthAt, InRange, Index;
    if n > 0 {
      if InRange(Index(d) + n) {
        InRangeBetween(Index(d), Index(d) + n - 1, Index(d) + n);
      }
      StepsLand(d, n - 1);
      if Steps(d, n - 1).Success? {
        AddMonthsLands(Steps(d, n - 1).value, 1);
      }
    }
  }

  lemma {:induction false} ClippedDayIsLeast(day: int, index: int, n: nat)
    ensures ClippedDay(day, index, n) <= day
    ensures forall m :: index < m <= index + n ==> ClippedDay(day, index, n) <= LengthAt(m)
    ensures ClippedDay(day, index, n) == day || exists m :: index < m <= index + n && ClippedDay(day, index, n) == LengthAt(m)
  {
    hide LengthAt;
    if n > 0 {
      ClippedDayIsLeast(day, index, n - 1);
    }
  }

  lemma ClippedOnlyAtTarget(day: int, index: int, n: nat)
    requires n > 0
    ensures ClippedDay(day, index, n) == Min(day, LengthAt(index + n)) <==>
            forall m :: index < m <= index + n ==> LengthAt(m) >= Min(day, LengthAt(index + n))
    ensures day <= 28 ==> ClippedDay(day, index, n) == Min(day, LengthAt(index + n))
  {
    ClippedDayIsLeast(day, index, n);
    hide LengthAt, ClippedDay;
    forall m | index < m <= index + n
      ensures LengthAt(m) >= 28
    {
      MonthLengths(m);
    }
    assert LengthAt(index + n) >= ClippedDay(day, index, n);
  }

  /** Stepping month by month agrees with one jump iff no month on the way clips the day further
      than the target month does. */
  lemma StepsAgreeWithJump(d: Date, n: nat)
    requires ValidDate(d) && n > 0
    requires InRange(Index(d) + n)
    ensures Steps(d, n) == AddMonths(d, n) <==>
            forall m :: Index(d) < m <= Index(d) + n ==> LengthAt(m) >= Min(d.day, LengthAt(Index(d) + n))
    ensures d.day <= 28 ==> Steps(d, n) == AddMonths(d, n)
  {
    hide *;
    StepsLand(d, n);
    AddMonthsLands(d, n);
    SameIndexSameMonth(Steps(d, n).value, AddMonths(d, n).value);
    ClippedOnlyAtTarget(d.day, Index(d), n);
  }

  lemma SameIndexSameMonth(a: Date, b: Date)
    requires ValidDate(a) && ValidDate(b) && Index(a) == Index(b)
    ensures a.year == b.year && a.month == b.month
  {
  }

  /** From 31 January, two single steps reach 28 March, one double step 31 March. */
  lemma StepsCanDrift()
    ensures Steps(Date(2023, 1, 31), 2) == Success(Date(2023, 3, 28))
    ensures AddMonths(Date(2023, 1, 31), 2) == Success(Date(2023, 3, 31))
  {
    assert AddMonths(Date(2023, 1, 31), 2) == Success(Date(2023, 3, 31));
    var first := AddMonths(Date(2023, 1, 31), 1);
    assert first == Success(Date(2023, 2, 28));
    assert AddMonths(Date(2023, 2, 28), 1) == Success(Date(2023, 3, 28));
    hide AddMonths;
    assert Steps(Date(2023, 1, 31), 1) == first;
  }

  /** Dates of successive months strictly increase. */
  lemma StepsIncrease(d: Date, i: nat, j: nat)
    requires ValidDate(d) && i < j && Steps(d, j).Success?
    ensures Steps(d, i).Success? && Before(Steps(d, i).value, Steps(d, j).value)
  {
    StepsLand(d, i);
    StepsLand(d, j);
    assert InRange(Index(d) + i);
  }

  // ---------------------------------------------------------------------------------------------
  // Days between dates
  // ---------------------------------------------------------------------------------------------

  /** The day number in the proleptic Gregorian calendar, so that dates subtract to days. */
  function DayNumber(d: Date): int
    requires 1 <= d.month <= 12
  {
    var y := d.year - 1;
    365 * y + y / 4 - y / 100 + y / 400 + DaysBeforeMonth(d.year, d.month) + d.day
  }

  function DaysBeforeMonth(year: int, month: int): int
    requires 1 <= month <= 12
  {
    if month == 1 then 0 else DaysBeforeMonth(year, month - 1) + MonthLength(year, month - 1)
  }

  /** Months follow each other without gap or overlap, over year ends and leap days too. */
  lemma MonthsAreContiguous(year: int, month: int)
    requires 1 <= month <= 12
    ensures var next := if month < 12 then Date(year, month + 1, 1) else Date(year + 1, 1, 1);
      DayNumber(next) == DayNumber(Date(year, month, 1)) + MonthLength(year, month)
  {
    if month == 12 {
      YearLength(year);
      LeapDays(year);
    }
  }

  /** Days before each month of a year, and in the whole year. */
  lemma YearLength(year: int)
    ensures var leap := if IsLeap(year) then 1 else 0;
      && DaysBeforeMonth(year, 1) == 0 && DaysBeforeMonth(year, 2) == 31
      && DaysBeforeMonth(year, 3) == 59 + leap && DaysBeforeMonth(year, 4) == 90 + leap && DaysBeforeMonth(year, 5) == 120 + leap
      && DaysBeforeMonth(year, 6) == 151 + leap && DaysBeforeMonth(year, 7) == 181 + leap && DaysBeforeMonth(year, 8) == 212 + leap
      && DaysBeforeMonth(year, 9) == 243 + leap && DaysBeforeMonth(year, 10) == 273 + leap
      && DaysBeforeMonth(year, 11) == 304 + leap && DaysBeforeMonth(year, 12) == 334 + leap
    ensures DaysBeforeMonth(year, 12) + 31 == if IsLeap(year) then 366 else 365
  {
    assert DaysBeforeMonth(year, 2) == 31;
    assert DaysBeforeMonth(year, 3) == 31 + MonthLength(year, 2);
    assert DaysBeforeMonth(year, 4) == DaysBeforeMonth(year, 3) + 31;
    assert DaysBeforeMonth(year, 5) == DaysBeforeMonth(year, 4) + 30;
    assert DaysBeforeMonth(year, 6) == DaysBeforeMonth(year, 5) + 31;
    assert DaysBeforeMonth(year, 7) == DaysBeforeMonth(year, 6) + 30;
    assert DaysBeforeMonth(year, 8) == DaysBeforeMonth(year, 7) + 31;
    assert DaysBeforeMonth(year, 9) == DaysBeforeMonth(year, 8) + 31;
    assert DaysBeforeMonth(year, 10) == DaysBeforeMonth(year, 9) + 30;
    assert DaysBeforeMonth(year, 11) == DaysBeforeMonth(year, 10) + 31;
    assert DaysBeforeMonth(year, 12) == DaysBeforeMonth(year, 11) + 30;
  }

  /** The day number without a table of months: years count from March, so that the leap day comes
      last, and five months in a row make 153 days. */
  lemma DayNumberIsCivil(d: Date)
    requires 1 <= d.month <= 12
    ensures var y := if d.month <= 2 then d.year - 1 else d.year;
      DayNumber(d) == 365 * y + y / 4 - y / 100 + y / 400 + (153 * ((d.month + 9) % 12) + 2) / 5 + d.day - 306
  {
    YearLength(d.year);
    LeapDays(d.year);
    hide DaysBeforeMonth, IsLeap;
  }

  /** The first day of a month, by its index. */
  function FirstOf(index: int): (d: Date)
    ensures Index(d) == index && 1 <= d.month <= 12
  {
    Date(index / 12, index % 12 + 1, 1)
  }

  lemma NextMonth(index: int)
    ensures DayNumber(FirstOf(index + 1)) == DayNumber(FirstOf(index)) + LengthAt(index)
  {
    var year, month := index / 12, index % 12 + 1;
    MonthsAreContiguous(year, month);
    NextIndex(index);
    assert LengthAt(index) == MonthLength(year, month);
    hide DayNumber, MonthLength, LengthAt, Index;
    assert FirstOf(index) == Date(year, month, 1);
    assert FirstOf(index + 1) == if month < 12 then Date(year, month + 1, 1) else Date(year + 1, 1, 1);
  }

  lemma NextIndex(i: int)
    ensures (i + 1) / 12 == (if i % 12 == 11 then i / 12 + 1 else i / 12)
    ensures (i + 1) % 12 == if i % 12 == 11 then 0 else i % 12 + 1
  {
  }

  lemma {:induction false} MonthStarts(index: int, n: nat)
    ensures n > 0 ==> DayNumber(FirstOf(index + n)) >= DayNumber(FirstOf(index)) + LengthAt(index)
  {
    hide *;
    if n > 0 {
      MonthStarts(index, n - 1);
      NextMonth(index + n - 1);
      MonthLengths(index + n - 1);
    }
  }

  lemma DayOfMonth(d: Date)
    requires ValidDate(d)
    ensures DayNumber(d) == DayNumber(FirstOf(Index(d))) + d.day - 1 && 1 <= d.day <= LengthAt(Index(d))
  {
    hide DaysBeforeMonth;
    assert FirstOf(Index(d)) == Date(d.year, d.month, 1);
  }

  /** Later dates have higher day numbers, so that day counts have the sign of the order. */
  lemma DayNumberIncreases(a: Date, b: Date)
    requires ValidDate(a) && ValidDate(b) && Before(a, b)
    ensures DayNumber(a) < DayNumber(b)
  {
    hide DayNumber, LengthAt, FirstOf;
    DayOfMonth(a);
    DayOfMonth(b);
    if Index(a) < Index(b) {
      MonthStarts(Index(a), Index(b) - Index(a));
    }
  }

  lemma LeapDays(year: int)
    ensures var y := year - 1;
      (year / 4 - year / 100 + year / 400) - (y / 4 - y / 100 + y / 400) == if IsLeap(year) then 1 else 0
  {
    QuarterStep(year);
    CenturyStep(year);
    FourCenturyStep(year);
    Divisibility(year);
  }

  lemma QuarterStep(y: int)
    ensures y / 4 - (y - 1) / 4 == if y % 4 == 0 then 1 else 0
  {
  }

  lemma CenturyStep(y: int)
    ensures y / 100 - (y - 1) / 100 == if y % 100 == 0 then 1 else 0
  {
  }

  lemma FourCenturyStep(y: int)
    ensures y / 400 - (y - 1) / 400 == if y % 400 == 0 then 1 else 0
  {
  }

  lemma Divisibility(year: int)
    ensures year % 400 == 0 ==> year % 100 == 0
    ensures year % 100 == 0 ==> year % 4 == 0
  {
  }
}
