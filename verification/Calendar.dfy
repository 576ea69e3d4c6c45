/** The date arithmetic of web/lib/dates.ts against a day count of the Gregorian calendar. */
module Calendar {
  import opened Common
  import opened DateText

  const DAYS_IN_MONTH_COMMON := [31, 28, 31, 30, 31, 30, 31, 31, 30, 31, 30, 31]

  predicate IsLeapYear(year: int) {
    (year % 4 == 0 && year % 100 != 0) || year % 400 == 0
  }

  function DaysInMonth(year: int, month: int): (n: int)
    ensures 28 <= n <= 31
  {
    if month == 2 && IsLeapYear(year) then 29
    else if 1 <= month <= 12 then DAYS_IN_MONTH_COMMON[month - 1] else 30
  }

  // ----- the day count, the reference for everything below --------------------------------

  /** Days from 1 January of year 1 to 1 January of `year`. */
  function DaysBeforeYear(year: int): int {
    365 * (year - 1) + (year - 1) / 4 - (year - 1) / 100 + (year - 1) / 400
  }

  /** Days from the first of January to the first of `month`, counted back for months before January. */
  function DaysBeforeMonth(year: int, month: int): int
    decreases if month > 1 then month else 1 - month
  {
    if month == 1 then 0
    else if month > 1 then DaysBeforeMonth(year, month - 1) + DaysInMonth(year, month - 1)
    else DaysBeforeMonth(year, month + 1) - DaysInMonth(year, month)
  }

  function DayNumber(p: DateParts): int {
    DaysBeforeYear(p.year) + DaysBeforeMonth(p.year, p.month) + p.day
  }

  predicate ValidDate(p: DateParts) {
    1 <= p.month <= 12 && 1 <= p.day <= DaysInMonth(p.year, p.month)
  }

  lemma YearLength(year: int)
    ensures DaysBeforeYear(year + 1) - DaysBeforeYear(year) == if IsLeapYear(year) then 366 else 365
  {
    PassesFour(year);
    PassesHundred(year);
    PassesFourHundred(year);
  }

  lemma PassesFour(year: int)
    ensures year / 4 - (year - 1) / 4 == if year % 4 == 0 then 1 else 0
  {
  }

  lemma PassesHundred(year: int)
    ensures year / 100 - (year - 1) / 100 == if year % 100 == 0 then 1 else 0
    ensures year % 100 == 0 ==> year % 4 == 0
  {
    HundredSteps(year / 100, year % 100);
    if year % 100 == 0 {
      FourDivides(year / 100);
    }
  }

  lemma HundredSteps(q: int, r: int)
    requires 0 <= r < 100
    ensures (100 * q + r - 1) / 100 == if r == 0 then q - 1 else q
  {
  }

  lemma FourDivides(q: int)
    ensures (100 * q) % 4 == 0
  {
    assert 100 * q == 4 * (25 * q);
  }

  lemma PassesFourHundred(year: int)
    ensures year / 400 - (year - 1) / 400 == if year % 400 == 0 then 1 else 0
    ensures year % 400 == 0 ==> year % 100 == 0
  {
    FourHundredSteps(year / 400, year % 400);
    if year % 400 == 0 {
      HundredDivides(year / 400);
    }
  }

  lemma FourHundredSteps(q: int, r: int)
    requires 0 <= r < 400
    ensures (400 * q + r - 1) / 400 == if r == 0 then q - 1 else q
  {
  }

  lemma HundredDivides(q: int)
    ensures (400 * q) % 100 == 0
  {
    assert 400 * q == 100 * (4 * q);
  }

  lemma MonthsOfYear(year: int)
    ensures DaysBeforeMonth(year, 12) + 31 == if IsLeapYear(year) then 366 else 365
  {
    assert DaysBeforeMonth(year, 5) == DaysBeforeMonth(year, 3) + 61;
    assert DaysBeforeMonth(year, 8) == DaysBeforeMonth(year, 5) + 92;
    assert DaysBeforeMonth(year, 10) == DaysBeforeMonth(year, 8) + 61;
    assert DaysBeforeMonth(year, 12) == DaysBeforeMonth(year, 10) + 61;
  }

  /** The day after the last of December is the first of January. */
  lemma YearEnds(year: int)
    ensures DayNumber(DateParts(year + 1, 1, 1)) == DayNumber(DateParts(year, 12, 31)) + 1
  {
    YearLength(year);
    MonthsOfYear(year);
  }

  lemma {:induction false} MonthsAscend(year: int, m: int, n: int)
    requires 1 <= m < n
    ensures DaysBeforeMonth(year, m) + DaysInMonth(year, m) <= DaysBeforeMonth(year, n)
    decreases n
  {
    if m < n - 1 {
      MonthsAscend(year, m, n - 1);
    }
  }

  lemma {:induction false} YearsAscend(y: int, z: int)
    requires y <= z
    ensures DaysBeforeYear(y) <= DaysBeforeYear(z)
    decreases z - y
  {
    if y < z {
      YearLength(z - 1);
      YearsAscend(y, z - 1);
    }
  }

  predicate Before(p: DateParts, q: DateParts) {
    p.year < q.year || (p.year == q.year && (p.month < q.month || (p.month == q.month && p.day < q.day)))
  }

  /** The day count orders valid dates as the calendar does, so it tells them apart. */
  lemma DayNumberOrders(p: DateParts, q: DateParts)
    requires ValidDate(p) && ValidDate(q)
    ensures DayNumber(p) < DayNumber(q) <==> Before(p, q)
    ensures DayNumber(p) == DayNumber(q) <==> p == q
  {
    if Before(p, q) {
      BeforeCounts(p, q);
    } else if Before(q, p) {
      BeforeCounts(q, p);
    }
  }

  lemma BeforeCounts(p: DateParts, q: DateParts)
    requires ValidDate(p) && ValidDate(q) && Before(p, q)
    ensures DayNumber(p) < DayNumber(q)
  {
    if p.year < q.year {
      EndsWithinYear(p);
      YearsAscend(p.year + 1, q.year);
      MonthNotNegative(q.year, q.month);
    } else if p.month < q.month {
      MonthsAscend(p.year, p.month, q.month);
    }
  }

  lemma EndsWithinYear(p: DateParts)
    requires ValidDate(p)
    ensures DayNumber(p) <= DaysBeforeYear(p.year + 1)
  {
    if p.month < 12 {
      MonthsAscend(p.year, p.month, 12);
    }
    YearEnds(p.year);
  }

  lemma {:induction false} MonthNotNegative(year: int, month: int)
    requires month >= 1
    ensures DaysBeforeMonth(year, month) >= 0
    decreases month
  {
    if month > 1 {
      MonthNotNegative(year, month - 1);
    }
  }

  const FIRST_DAY := -365
  const LAST_DAY := 3652059
  const EPOCH := 719163

  /** The first and the last day a four-digit year can name, and the first day of 1970. */
  lemma LandmarkDays()
    ensures DayNumber(DateParts(0, 1, 1)) == FIRST_DAY && DayNumber(DateParts(9999, 12, 31)) == LAST_DAY
    ensures DayNumber(DateParts(1970, 1, 1)) == EPOCH
  {
    MonthsOfYear(9999);
  }

  predicate InRange(n: int) {
    FIRST_DAY <= n <= LAST_DAY
  }

  lemma YearsInRange(p: DateParts)
    requires ValidDate(p)
    ensures 0 <= p.year <= 9999 <==> InRange(DayNumber(p))
  {
    LandmarkDays();
    DayNumberOrders(p, DateParts(0, 1, 1));
    DayNumberOrders(p, DateParts(9999, 12, 31));
  }

  /** A date's string can be read back exactly for the days of years 0000 to 9999. */
  lemma ReadBack(p: DateParts)
    requires ValidDate(p)
    ensures ParseDate(Format(p)) == if InRange(DayNumber(p)) then Some(p) else None
  {
    ParseOfFormat(p);
    YearsInRange(p);
  }

  // ----- addDays -------------------------------------------------------------------------------

  /** A date string with an existing month; its day may lie outside the month. */
  predicate Dated(value: string) {
    ParseDate(value).Some? && 1 <= ParseDate(value).value.month <= 12
  }

  function DayOf(value: string): int
    requires Dated(value)
  {
    DayNumber(ParseDate(value).value)
  }

  predicate IsDay(p: DateParts, n: int) {
    ValidDate(p) && DayNumber(p) == n
  }

  /**
   `None` is the error thrown by parseDate.  A day outside its month counts on into the next ones, and a
   month outside the year counts as one of thirty days.
  */
  method AddDays(value: string, delta: int) returns (r: Option<string>, ghost p: DateParts)
    ensures r == if ParseDate(value).Some? then Some(Format(p)) else None
    ensures r.Some? ==> DayNumber(p) == DayNumber(ParseDate(value).value) + delta && 1 <= p.day <= DaysInMonth(p.year, p.month)
    ensures Dated(value) ==> IsDay(p, DayOf(value) + delta)
  {
    var parsed := ParseDate(value);
    if parsed.None? {
      p := DateParts(0, 0, 0);
      return None, p;
    }
    var moved := Walk(parsed.value, delta);
    p := moved;
    r := Some(FormatDate(moved.year, moved.month, moved.day));
  }

  /** The laws of a day count that the walks rely on. */
  ghost predicate Rolls(count: DateParts -> int, year: int, month: int, day: int) {
    && count(DateParts(year, month, day + DaysInMonth(year, month))) == count(DateParts(year, month + 1, day))
    && count(DateParts(year, 13, day)) == count(DateParts(year + 1, 1, day))
  }

  ghost predicate Counts(count: DateParts -> int) {
    forall year, month, day :: Rolls(count, year, month, day)
  }

  /** The two boundary walks; they end for every parsed value, also one with no such month. */
  method Walk(start: DateParts, delta: int) returns (p: DateParts)
    ensures DayNumber(p) == DayNumber(start) + delta && 1 <= p.day <= DaysInMonth(p.year, p.month)
    ensures 1 <= start.month <= 12 ==> 1 <= p.month <= 12
  {
    DayNumberCounts();
    p := start.(day := start.day + delta);
    p := WalkForward(p, DayNumber);
    p := WalkBack(p, DayNumber);
  }

  method WalkForward(start: DateParts, ghost count: DateParts -> int) returns (p: DateParts)
    requires Counts(count)
    ensures count(p) == count(start) && p.day <= DaysInMonth(p.year, p.month)
    ensures 1 <= start.month <= 12 ==> 1 <= p.month <= 12
  {
    var DateParts(year, month, day) := start;
    while day > DaysInMonth(year, month)
      invariant count(DateParts(year, month, day)) == count(start)
      invariant 1 <= start.month <= 12 ==> 1 <= month <= 12
      decreases day
    {
      assert Rolls(count, year, month, day - DaysInMonth(year, month));
      day := day - DaysInMonth(year, month);
      if month == 12 {
        month := 1;
        year := year + 1;
      } else {
        month := month + 1;
      }
    }
    p := DateParts(year, month, day);
  }

  method WalkBack(start: DateParts, ghost count: DateParts -> int) returns (p: DateParts)
    requires Counts(count) && start.day <= DaysInMonth(start.year, start.month)
    ensures count(p) == count(start) && 1 <= p.day <= DaysInMonth(p.year, p.month)
    ensures 1 <= start.month <= 12 ==> 1 <= p.month <= 12
  {
    var DateParts(year, month, day) := start;
    while day < 1
      invariant day <= DaysInMonth(year, month)
      invariant count(DateParts(year, month, day)) == count(start)
      invariant 1 <= start.month <= 12 ==> 1 <= month <= 12
      decreases 1 - day
    {
      assert Rolls(count, year - 1, month, day);
      if month == 1 {
        month := 12;
        year := year - 1;
      } else {
        month := month - 1;
      }
      assert Rolls(count, year, month, day);
      day := day + DaysInMonth(year, month);
    }
    p := DateParts(year, month, day);
  }

  lemma DayNumberCounts()
    ensures Counts(DayNumber)
  {
    forall year, month, day ensures Rolls(DayNumber, year, month, day) {
      MonthRolls(year, month, day);
      YearRolls(year, day);
    }
  }

  /** Counting on past a month's end is counting from the next month's start. */
  lemma MonthRolls(year: int, month: int, day: int)
    ensures DayNumber(DateParts(year, month, day + DaysInMonth(year, month))) == DayNumber(DateParts(year, month + 1, day))
  {
  }

  /** What would be the thirteenth month is January of the next year. */
  lemma YearRolls(year: int, day: int)
    ensures DayNumber(DateParts(year, 13, day)) == DayNumber(DateParts(year + 1, 1, day))
  {
    YearLength(year);
    MonthsOfYear(year);
  }

  lemma MonthBoundary(year: int, month: int, day: int)
    requires 1 <= month <= 12
    ensures var next := if month == 12 then DateParts(year + 1, 1, day) else DateParts(year, month + 1, day);
            DayNumber(DateParts(year, month, day + DaysInMonth(year, month))) == DayNumber(next)
  {
    MonthRolls(year, month, day);
    if month == 12 {
      YearRolls(year, day);
    }
  }

  /** `p` is what `value` becomes when it is moved by `delta` days. */
  predicate Shifted(value: string, delta: int, p: DateParts) {
    Dated(value) && IsDay(p, DayOf(value) + delta)
  }

  /** There is only one such date. */
  lemma ShiftUnique(value: string, delta: int, p: DateParts, q: DateParts)
    requires Shifted(value, delta, p) && Shifted(value, delta, q)
    ensures p == q
  {
    DayNumberOrders(p, q);
  }

  /** Shifts add up, as long as the string in between can be parsed at all. */
  lemma ShiftsCompose(value: string, a: int, p: DateParts, b: int, q: DateParts)
    requires Shifted(value, a, p) && Shifted(Format(p), b, q)
    ensures Shifted(value, a + b, q)
  {
    ReadBack(p);
  }

  /** And undo each other, down to the string, for every real date. */
  lemma ShiftsUndo(value: string, delta: int, p: DateParts, q: DateParts)
    requires Dated(value) && ValidDate(ParseDate(value).value)
    requires Shifted(value, delta, p) && Shifted(Format(p), -delta, q)
    ensures Format(q) == value
  {
    ShiftsCompose(value, delta, p, -delta, q);
    DayNumberOrders(q, ParseDate(value).value);
    FormatOfParse(value);
  }

  // ----- addMonths ------------------------------------------------------------------------------

  /** `%` of JavaScript: the sign follows the dividend. */
  function Remainder(a: int, b: int): int
    requires b > 0
  {
    if a >= 0 then a % b else -((-a) % b)
  }

  function MonthCount(year: int, month: int): int {
    12 * year + month - 1
  }

  function AddMonths(year: int, month: int, delta: int): (int, int) {
    var absolute := year * 12 + (month - 1) + delta;
    (absolute / 12, Remainder(absolute, 12) + 1)
  }

  /** The rollover is right exactly for a count of months from year 0 on, and for any January. */
  lemma AddMonthsCorrectIff(year: int, month: int, delta: int)
    ensures var (y, m) := AddMonths(year, month, delta);
            && ((1 <= m <= 12 && MonthCount(y, m) == MonthCount(year, month) + delta)
                <==> (MonthCount(year, month) + delta >= 0 || (MonthCount(year, month) + delta) % 12 == 0))
  {
  }

  // ----- weekdays --------------------------------------------------------------------------------

  /** 0 is Sunday; the epoch was a Thursday. */
  function WeekdayOfDay(n: int): int {
    (n - EPOCH + 4) % 7
  }

  /** `Date.UTC` reads years 0 to 99 as 1900 to 1999 (ECMA-262, section 21.4.3.4), then carries months into years. */
  function UtcDay(year: int, month: int, day: int): int {
    var y := if 0 <= year <= 99 then 1900 + year else year;
    DayNumber(DateParts(y + (month - 1) / 12, (month - 1) % 12 + 1, day))
  }

  const MAX_TIME_DAYS := 100000000

  /** The days a Date can hold, 100000000 on either side of the epoch (ECMA-262, section 21.4.1.1). */
  predicate InTime(n: int) {
    -MAX_TIME_DAYS <= n - EPOCH <= MAX_TIME_DAYS
  }

  /** `getUTCDay` of `Date.UTC`; `None` is NaN. */
  function WeekdayOf(year: int, month: int, day: int): Option<int> {
    if InTime(UtcDay(year, month, day)) then Some(WeekdayOfDay(UtcDay(year, month, day))) else None
  }

  function WeekdayOfFirst(year: int, month: int): Option<int> {
    WeekdayOf(year, month, 1)
  }

  lemma {:induction false} MonthStarts(y: int, z: int, month: int)
    requires 1 <= month <= 12
    ensures DaysBeforeMonth(z, month) - DaysBeforeMonth(y, month)
            == if month <= 2 || IsLeapYear(y) == IsLeapYear(z) then 0 else if IsLeapYear(z) then 1 else -1
  {
    if month > 1 {
      MonthStarts(y, z, month - 1);
    }
  }

  lemma DayNineteenHundredYearsOn(p: DateParts)
    requires 0 <= p.year <= 99 && 1 <= p.month <= 12
    ensures CenturiesOn(DayNumber(p), DayNumber(p.(year := 1900 + p.year)))
  {
    var q := p.(year := 1900 + p.year);
    DayNumberIsSum(p);
    DayNumberIsSum(q);
    YearsShift(p.year);
    MonthsShift(p.year, p.month);
    ShiftsAdd(DaysBeforeYear, DaysBeforeMonth, DayNumber, p, q);
  }

  /** A day count made of a part for the year, a part for the month and the day. */
  predicate IsSum(years: int -> int, months: (int, int) -> int, count: DateParts -> int, p: DateParts) {
    count(p) == years(p.year) + months(p.year, p.month) + p.day
  }

  predicate YearsApart(years: int -> int, year: int) {
    years(1900 + year) - years(year) == if year == 0 then 693961 else 693960
  }

  predicate MonthsApart(months: (int, int) -> int, year: int, month: int) {
    months(1900 + year, month) - months(year, month) == if year == 0 && month > 2 then -1 else 0
  }

  lemma DayNumberIsSum(p: DateParts)
    ensures IsSum(DaysBeforeYear, DaysBeforeMonth, DayNumber, p)
  {
  }

  lemma YearsShift(year: int)
    requires 0 <= year <= 99
    ensures YearsApart(DaysBeforeYear, year)
  {
    CenturyShift(year);
  }

  lemma MonthsShift(year: int, month: int)
    requires 0 <= year <= 99 && 1 <= month <= 12
    ensures MonthsApart(DaysBeforeMonth, year, month)
  {
    MonthShift(year, month);
  }

  lemma ShiftsAdd(years: int -> int, months: (int, int) -> int, count: DateParts -> int, p: DateParts, q: DateParts)
    requires q == p.(year := 1900 + p.year) && IsSum(years, months, count, p) && IsSum(years, months, count, q)
    requires YearsApart(years, p.year) && MonthsApart(months, p.year, p.month)
    ensures CenturiesOn(count(p), count(q))
  {
  }

  /** Day numbers that lie nineteen centuries apart. */
  predicate CenturiesOn(n: int, m: int) {
    m - n == 693960 || m - n == 693961
  }

  lemma MonthShift(year: int, month: int)
    requires 0 <= year <= 99 && 1 <= month <= 12
    ensures DaysBeforeMonth(1900 + year, month) - DaysBeforeMonth(year, month) == if year == 0 && month > 2 then -1 else 0
  {
    LeapsRepeat(year);
    MonthStarts(year, 1900 + year, month);
  }

  lemma NotSevenfold(n: int, m: int)
    requires CenturiesOn(n, m)
    ensures WeekdayOfDay(n) != WeekdayOfDay(m)
  {
    var a := n - EPOCH + 4;
    assert m - EPOCH + 4 == a + 7 * 99137 + (m - n - 693959);
    assert (m - EPOCH + 4) % 7 == (a + (m - n - 693959)) % 7;
  }

  lemma UtcDayIs(p: DateParts)
    requires 1 <= p.month <= 12
    ensures UtcDay(p.year, p.month, p.day) == DayNumber(if 0 <= p.year <= 99 then p.(year := 1900 + p.year) else p)
  {
    NothingCarried(p.month - 1);
  }

  lemma NothingCarried(k: int)
    requires 0 <= k < 12
    ensures k / 12 == 0 && k % 12 == k
  {
  }

  /** The weekday is right if and only if `Date.UTC` leaves the year alone and a Date can hold the day. */
  lemma WeekdayCorrectIff(p: DateParts)
    requires 1 <= p.month <= 12
    ensures WeekdayOf(p.year, p.month, p.day) == Some(WeekdayOfDay(DayNumber(p)))
            <==> !(0 <= p.year <= 99) && InTime(DayNumber(p))
  {
    UtcDayIs(p);
    if 0 <= p.year <= 99 {
      DayNineteenHundredYearsOn(p);
      NotSevenfold(DayNumber(p), DayNumber(p.(year := 1900 + p.year)));
    }
  }

  /** Four-digit years are far inside that range. */
  lemma FourDigitsInTime(p: DateParts)
    requires 0 <= p.year <= 9999 && 1 <= p.month <= 12 && 0 <= p.day <= 99
    ensures InTime(DayNumber(p)) && InTime(UtcDay(p.year, p.month, p.day))
  {
    var q := if p.year <= 99 then p.(year := 1900 + p.year) else p;
    UtcDayIs(p);
    FourDigitsBounded(p);
    FourDigitsBounded(q);
  }

  lemma FourDigitsBounded(p: DateParts)
    requires 0 <= p.year <= 9999 && 1 <= p.month <= 12 && 0 <= p.day <= 99
    ensures FIRST_DAY - 1 <= DayNumber(p) <= LAST_DAY + 99
  {
    LandmarkDays();
    YearsAscend(0, p.year);
    YearsAscend(p.year, 9999);
    MonthNotNegative(p.year, p.month);
    MonthsOfYear(p.year);
    MonthsOfYear(9999);
    if p.month < 12 {
      MonthsAscend(p.year, p.month, 12);
    }
  }

  lemma CenturyShift(year: int)
    requires 0 <= year <= 99
    ensures DaysBeforeYear(1900 + year) - DaysBeforeYear(year) == if year == 0 then 693961 else 693960
  {
    Quarters(year - 1);
    Centuries(year - 1);
    FourCenturies(year - 1);
  }

  lemma Quarters(n: int)
    ensures (1900 + n) / 4 == n / 4 + 475
  {
  }

  lemma Centuries(n: int)
    ensures (1900 + n) / 100 == n / 100 + 19
  {
  }

  lemma FourCenturies(n: int)
    requires -1 <= n <= 98
    ensures (1900 + n) / 400 == 4 && n / 400 == if n == -1 then -1 else 0
  {
  }

  /** The years 1 to 99 are leap exactly as 1901 to 1999 are; 1900 is not, but year 0 is. */
  lemma LeapsRepeat(year: int)
    requires 0 <= year <= 99
    ensures IsLeapYear(0) && !IsLeapYear(1900)
    ensures year > 0 ==> IsLeapYear(year) == IsLeapYear(1900 + year)
  {
    if year > 0 {
      assert year % 100 != 0 && (1900 + year) % 100 != 0;
    }
  }
}
