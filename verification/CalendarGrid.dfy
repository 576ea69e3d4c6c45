/** Month and week grids of web/lib/dates.ts. */
module CalendarGrid {
  import opened Common
  import opened DateText
  import opened Calendar

  const WEEK_STARTS_ON := 0

  datatype DayCell = DayCell(date: string, day: int, inMonth: bool)

  datatype DateRange = DateRange(start: string, end: string)

  // ----- month grid --------------------------------------------------------------------------

  /** The cell of a date in the grid for a month. */
  function CellOf(p: DateParts, year: int, month: int): DayCell {
    DayCell(Format(p), p.day, p.year == year && p.month == month)
  }

  /** `dates` are consecutive days from day `first` on. */
  predicate Consecutive(dates: seq<DateParts>, first: int) {
    forall i :: 0 <= i < |dates| ==> IsDay(dates[i], first + i)
  }

  function FirstOf(year: int, month: int): int {
    DayNumber(DateParts(year, month, 1))
  }

  function Leading(year: int, month: int): int {
    DaysIntoWeek(WeekdayOfFirst(year, month))
  }

  /** How far a weekday is behind the column 0 of a week; a loop up to NaN does not run. */
  function DaysIntoWeek(weekday: Option<int>): int {
    if weekday.None? then 0 else (weekday.value - WEEK_STARTS_ON + 7) % 7
  }

  /** Whether addMonths can name the months around this one. */
  predicate Named(year: int, month: int) {
    1 <= month <= 12 && year >= 0 && !(year == 0 && month == 1)
  }

  /** Rows of seven whose concatenation is `cells`. */
  ghost predicate InRows(rows: seq<seq<DayCell>>, cells: seq<DayCell>) {
    && |cells| == 7 * |rows|
    && forall w :: 0 <= w < |rows| ==> rows[w] == cells[7 * w..7 * w + 7]
  }

  lemma DatesJoined(a: seq<DateParts>, b: seq<DateParts>, first: int)
    requires Consecutive(a, first) && Consecutive(b, first + |a|)
    ensures Consecutive(a + b, first)
  {
    forall i | 0 <= i < |a + b|
      ensures IsDay((a + b)[i], first + i)
    {
      if i >= |a| {
        assert IsDay(b[i - |a|], first + |a| + (i - |a|));
      }
    }
  }

  /** `first` is the day number of day `from` of an existing month. */
  ghost predicate Begins(first: int, year: int, month: int, from: int) {
    1 <= month <= 12 && DayNumber(DateParts(year, month, from)) == first
  }

  /** Days `from` to `to` of one month. */
  method DaysFrom(year: int, month: int, from: int, to: int, ghost first: int) returns (dates: seq<DateParts>)
    requires 1 <= from <= to + 1 && to <= DaysInMonth(year, month)
    ensures |dates| == to + 1 - from && forall i :: 0 <= i < |dates| ==> dates[i] == DateParts(year, month, from + i)
    ensures Begins(first, year, month, from) ==> Consecutive(dates, first)
  {
    dates := [];
    for day := from to to + 1
      invariant |dates| == day - from && forall i :: 0 <= i < |dates| ==> dates[i] == DateParts(year, month, from + i)
      invariant Begins(first, year, month, from) ==> Consecutive(dates, first)
    {
      dates := dates + [DateParts(year, month, day)];
    }
  }

  lemma RowAdded(weeks: seq<seq<DayCell>>, cells: seq<DayCell>, row: seq<DayCell>)
    requires InRows(weeks, cells) && |row| == 7
    ensures InRows(weeks + [row], cells + row)
  {
    var rows, all := weeks + [row], cells + row;
    forall w | 0 <= w < |rows|
      ensures rows[w] == all[7 * w..7 * w + 7]
    {
      if w < |weeks| {
        assert rows[w] == weeks[w] == cells[7 * w..7 * w + 7];
        assert 7 * w + 7 <= |cells| && all[..|cells|] == cells;
        assert all[7 * w..7 * w + 7] == all[..|cells|][7 * w..7 * w + 7];
      } else {
        assert all[|cells|..|cells| + 7] == row;
      }
    }
  }

  /** Cuts the flat list into weeks; `cells` is a whole number of them. */
  method Weeks(cells: seq<DayCell>) returns (weeks: seq<seq<DayCell>>)
    requires |cells| % 7 == 0
    ensures InRows(weeks, cells)
  {
    weeks := [];
    var i := 0;
    while i < |cells|
      invariant 0 <= i <= |cells| && i == 7 * |weeks|
      invariant InRows(weeks, cells[..i])
    {
      RowAdded(weeks, cells[..i], cells[i..i + 7]);
      assert cells[..i + 7] == cells[..i] + cells[i..i + 7];
      weeks := weeks + [cells[i..i + 7]];
      i := i + 7;
    }
    assert cells[..i] == cells;
  }

  /** A run of days that shows a whole month, `leading` days of the one before and less than seven of the one after. */
  predicate Shows(dates: seq<DateParts>, leading: int, year: int, month: int) {
    && 0 <= leading < 7
    && leading + DaysInMonth(year, month) <= |dates| < leading + DaysInMonth(year, month) + 7
    && Consecutive(dates, FirstOf(year, month) - leading)
  }

  predicate CellsOf(cells: seq<DayCell>, dates: seq<DateParts>, year: int, month: int) {
    |cells| == |dates| && forall i :: 0 <= i < |dates| ==> cells[i] == CellOf(dates[i], year, month)
  }

  /** The first cell before the month's own. */
  function FirstLeading(year: int, month: int, leadingCount: int): DateParts {
    var (y, m) := AddMonths(year, month, -1);
    DateParts(y, m, DaysInMonth(y, m) - leadingCount + 1)
  }

  predicate AllReadable(cells: seq<DayCell>) {
    forall i :: 0 <= i < |cells| ==> ParseDate(cells[i].date).Some?
  }

  /**
   `cells` is the flat list behind the rows, and `dates` are the days it shows.  From year 0 on the grid is
   right for every month but the first; of the four-digit years only the very first and the very last month
   show a date that cannot be read back.
  */
  method MonthGrid(year: int, month: int) returns (weeks: seq<seq<DayCell>>, ghost cells: seq<DayCell>, ghost dates: seq<DateParts>)
    requires 1 <= month <= 12
    ensures InRows(weeks, cells) && CellsOf(cells, dates, year, month)
    ensures year >= 0 ==> (Shows(dates, Leading(year, month), year, month) <==> Named(year, month))
    ensures 0 <= year <= 9999 ==> (AllReadable(cells) <==> (year, month) != (0, 1) && (year, month) != (9999, 12))
  {
    var days := GridDates(year, month, Leading(year, month));
    var all := Cells(days, year, month);
    weeks := Weeks(all);
    cells, dates := all, days;
    GridIsRight(cells, dates, year, month, Leading(year, month));
  }

  lemma GridIsRight(cells: seq<DayCell>, dates: seq<DateParts>, year: int, month: int, leading: int)
    requires 1 <= month <= 12 && leading == Leading(year, month) && dates != [] && |dates| % 7 == 0
    requires CellsOf(cells, dates, year, month) && (Named(year, month) ==> Shows(dates, leading, year, month))
    requires leading > 0 ==> dates[0] == FirstLeading(year, month, leading)
    ensures year >= 0 ==> (Shows(dates, leading, year, month) <==> Named(year, month))
    ensures 0 <= year <= 9999 ==> (AllReadable(cells) <==> (year, month) != (0, 1) && (year, month) != (9999, 12))
  {
    if (year, month) == (0, 1) {
      FirstOfYearZero();
      YearZeroStartsBadly(cells, dates);
      assert cells[0].date == Format(dates[0]);
    } else if 0 <= year <= 9999 {
      ReadableIff(cells, dates, year, month);
    }
  }

  method Cells(days: seq<DateParts>, year: int, month: int) returns (cells: seq<DayCell>)
    ensures CellsOf(cells, days, year, month)
  {
    ghost var cellOf := p => CellOf(p, year, month);
    cells := [];
    for i := 0 to |days|
      invariant AreCells(cells, days, i, cellOf)
    {
      CellAdded(cells, days, i, cellOf);
      cells := cells + [CellOf(days[i], year, month)];
    }
  }

  ghost predicate AreCells(cells: seq<DayCell>, days: seq<DateParts>, n: nat, cellOf: DateParts -> DayCell) {
    |cells| == n <= |days| && forall j :: 0 <= j < n ==> cells[j] == cellOf(days[j])
  }

  lemma CellAdded(cells: seq<DayCell>, days: seq<DateParts>, n: nat, cellOf: DateParts -> DayCell)
    requires AreCells(cells, days, n, cellOf) && n < |days|
    ensures AreCells(cells + [cellOf(days[n])], days, n + 1, cellOf)
  {
  }

  method GridDates(year: int, month: int, leadingCount: int) returns (dates: seq<DateParts>)
    requires 1 <= month <= 12 && 0 <= leadingCount < 7
    ensures |dates| % 7 == 0 && leadingCount + DaysInMonth(year, month) <= |dates| < leadingCount + DaysInMonth(year, month) + 7
    ensures leadingCount > 0 ==> dates[0] == FirstLeading(year, month, leadingCount)
    ensures Named(year, month) ==> Shows(dates, leadingCount, year, month)
  {
    ghost var first := FirstOf(year, month) - leadingCount;
    dates := Started(year, month, leadingCount, first);
    dates := Completed(dates, year, month, first);
  }

  /** The leading days from the previous month and the month's own days. */
  method Started(year: int, month: int, leadingCount: int, ghost first: int) returns (dates: seq<DateParts>)
    requires 1 <= month <= 12 && 0 <= leadingCount < 7
    requires Begins(first + leadingCount, year, month, 1)
    ensures |dates| == leadingCount + DaysInMonth(year, month)
    ensures leadingCount > 0 ==> dates[0] == FirstLeading(year, month, leadingCount)
    ensures Named(year, month) ==> Consecutive(dates, first)
  {
    var before := LeadingDays(year, month, leadingCount, first);
    var days := DaysFrom(year, month, 1, DaysInMonth(year, month), first + leadingCount);
    dates := before + days;
    if Named(year, month) {
      DatesJoined(before, days, first);
    }
  }

  method LeadingDays(year: int, month: int, leadingCount: int, ghost first: int) returns (dates: seq<DateParts>)
    requires 1 <= month <= 12 && 0 <= leadingCount < 7
    requires Begins(first + leadingCount, year, month, 1)
    ensures |dates| == leadingCount && (leadingCount > 0 ==> dates[0] == FirstLeading(year, month, leadingCount))
    ensures Named(year, month) ==> Consecutive(dates, first)
  {
    var (prevYear, prevMonth) := AddMonths(year, month, -1);
    var prevDays := DaysInMonth(prevYear, prevMonth);
    dates := DaysFrom(prevYear, prevMonth, prevDays - leadingCount + 1, prevDays, first);
    if Named(year, month) {
      PreviousMonth(year, month, leadingCount, first);
    }
  }

  /** The trailing days from the next month, to complete the final week. */
  method Completed(dates: seq<DateParts>, year: int, month: int, ghost first: int) returns (all: seq<DateParts>)
    requires 1 <= month <= 12
    requires Begins(first + |dates|, year, month, 1 + DaysInMonth(year, month))
    ensures |all| % 7 == 0 && |dates| <= |all| < |dates| + 7 && dates <= all
    ensures year >= 0 && Consecutive(dates, first) ==> Consecutive(all, first)
  {
    var remainder := |dates| % 7;
    all := dates;
    if remainder != 0 {
      var trailingCount := 7 - remainder;
      var after := TrailingDays(year, month, trailingCount, first + |dates|);
      if year >= 0 && Consecutive(dates, first) {
        DatesJoined(dates, after, first);
      }
      all := dates + after;
    }
  }

  method TrailingDays(year: int, month: int, trailingCount: int, ghost end: int) returns (dates: seq<DateParts>)
    requires 1 <= month <= 12 && 0 <= trailingCount < 7
    requires Begins(end, year, month, 1 + DaysInMonth(year, month))
    ensures |dates| == trailingCount
    ensures year >= 0 ==> Consecutive(dates, end)
  {
    var (nextYear, nextMonth) := AddMonths(year, month, 1);
    dates := DaysFrom(nextYear, nextMonth, 1, trailingCount, end);
    if year >= 0 {
      NextMonth(year, month, end);
    }
  }

  lemma OtherMonth(year: int, month: int)
    requires 1 <= month <= 12
    ensures year >= 0 ==> AddMonths(year, month, 1) == if month == 12 then (year + 1, 1) else (year, month + 1)
    ensures Named(year, month) ==> AddMonths(year, month, -1) == if month == 1 then (year - 1, 12) else (year, month - 1)
  {
  }

  lemma PreviousMonth(year: int, month: int, leading: int, first: int)
    requires Named(year, month) && Begins(first + leading, year, month, 1)
    ensures var (y, m) := AddMonths(year, month, -1);
            Begins(first, y, m, DaysInMonth(y, m) - leading + 1)
  {
    OtherMonth(year, month);
    MonthBefore(if month == 1 then year - 1 else year, if month == 1 then 12 else month - 1, year, month, leading, first);
  }

  lemma MonthBefore(y: int, m: int, year: int, month: int, leading: int, first: int)
    requires 1 <= m <= 12 && (year, month) == if m == 12 then (y + 1, 1) else (y, m + 1)
    requires Begins(first + leading, year, month, 1)
    ensures Begins(first, y, m, DaysInMonth(y, m) - leading + 1)
  {
    MonthBoundary(y, m, 1);
  }

  lemma NextMonth(year: int, month: int, end: int)
    requires year >= 0 && Begins(end, year, month, 1 + DaysInMonth(year, month))
    ensures var (y, m) := AddMonths(year, month, 1);
            Begins(end, y, m, 1)
  {
    OtherMonth(year, month);
    MonthAfter(year, month, end);
  }

  lemma MonthAfter(year: int, month: int, end: int)
    requires Begins(end, year, month, 1 + DaysInMonth(year, month))
    ensures if month == 12 then Begins(end, year + 1, 1, 1) else Begins(end, year, month + 1, 1)
  {
    MonthBoundary(year, month, 1);
  }

  // ----- what the grid shows -------------------------------------------------------------------

  /** Its `inMonth` cells are exactly the month's days, once each and in order. */
  lemma MonthShownOnce(cells: seq<DayCell>, dates: seq<DateParts>, leading: int, year: int, month: int, i: nat)
    requires 1 <= month <= 12 && Shows(dates, leading, year, month) && CellsOf(cells, dates, year, month) && i < |cells|
    ensures var day := i - leading + 1;
            && (cells[i].inMonth <==> 1 <= day <= DaysInMonth(year, month))
            && (cells[i].inMonth ==> cells[i].day == day && cells[i].date == FormatDate(year, month, day))
  {
    DateShown(dates, leading, year, month, i);
  }

  lemma DateShown(dates: seq<DateParts>, leading: int, year: int, month: int, i: nat)
    requires 1 <= month <= 12 && Shows(dates, leading, year, month) && i < |dates|
    ensures var day, p := i - leading + 1, dates[i];
            && (p.year == year && p.month == month <==> 1 <= day <= DaysInMonth(year, month))
            && (p.year == year && p.month == month ==> p == DateParts(year, month, day))
  {
    var day := i - leading + 1;
    assert IsDay(dates[i], FirstOf(year, month) - leading + i);
    if 1 <= day <= DaysInMonth(year, month) {
      DayNumberOrders(dates[i], DateParts(year, month, day));
    }
  }

  /** Column 0 is a Sunday if and only if `Date.UTC` does not remap the year; past its range, if the month starts on one. */
  lemma SundayFirstIff(year: int, month: int)
    requires Named(year, month)
    ensures WeekdayOfDay(FirstOf(year, month) - Leading(year, month)) == WEEK_STARTS_ON
            <==> if InTime(FirstOf(year, month)) then year >= 100 else WeekdayOfDay(FirstOf(year, month)) == WEEK_STARTS_ON
  {
    FirstWeekday(year, month);
    if InTime(FirstOf(year, month)) {
      ColumnZero(FirstOf(year, month), WeekdayOfFirst(year, month), year >= 100);
    } else {
      NoWeekday(FirstOf(year, month), WeekdayOfFirst(year, month));
    }
  }

  lemma FirstWeekday(year: int, month: int)
    requires Named(year, month)
    ensures var weekday := WeekdayOfFirst(year, month);
            && (weekday.Some? <==> InTime(FirstOf(year, month)))
            && (weekday.Some? ==> 0 <= weekday.value < 7 && (weekday == Some(WeekdayOfDay(FirstOf(year, month))) <==> year >= 100))
  {
    var first := DateParts(year, month, 1);
    UtcDayIs(first);
    if year <= 99 {
      FourDigitsInTime(first);
    }
    if InTime(DayNumber(first)) {
      WeekdayCorrectIff(first);
    }
  }

  lemma NoWeekday(n: int, weekday: Option<int>)
    requires weekday.None?
    ensures n - DaysIntoWeek(weekday) == n
  {
  }

  lemma ColumnZero(n: int, weekday: Option<int>, right: bool)
    requires weekday.Some? && 0 <= weekday.value < 7 && (weekday == Some(WeekdayOfDay(n)) <==> right)
    ensures WeekdayOfDay(n - DaysIntoWeek(weekday)) == WEEK_STARTS_ON <==> right
  {
    StepsBack(n, weekday.value);
  }

  /** Stepping back by a weekday reaches Sunday exactly when it was the day's own weekday. */
  lemma StepsBack(n: int, weekday: int)
    requires 0 <= weekday < 7
    ensures WeekdayOfDay(n - DaysIntoWeek(Some(weekday))) == WEEK_STARTS_ON <==> weekday == WeekdayOfDay(n)
  {
    var a := n - EPOCH + 4;
    assert DaysIntoWeek(Some(weekday)) == weekday;
    assert (a - weekday) % 7 == 0 <==> a % 7 == weekday;
  }

  lemma FirstOfYearZero()
    ensures Leading(0, 1) == 1 && FirstLeading(0, 1, 1) == DateParts(-1, 0, 30)
  {
    UtcDayIs(DateParts(0, 1, 1));
    CenturyStart();
    MondayFirst(UtcDay(0, 1, 1));
  }

  lemma CenturyStart()
    ensures DayNumber(DateParts(1900, 1, 1)) == EPOCH - 25567
  {
  }

  lemma MondayFirst(n: int)
    requires n == EPOCH - 25567
    ensures InTime(n) && DaysIntoWeek(Some(WeekdayOfDay(n))) == 1
  {
  }

  /** The grid of the first month of year 0 begins with a month that does not exist and a string that cannot be read back. */
  lemma YearZeroStartsBadly(cells: seq<DayCell>, dates: seq<DateParts>)
    requires CellsOf(cells, dates, 0, 1) && dates != [] && dates[0] == FirstLeading(0, 1, Leading(0, 1))
    ensures !Shows(dates, Leading(0, 1), 0, 1) && ParseDate(cells[0].date) == None
  {
    FirstOfYearZero();
    ParseOfFormat(DateParts(-1, 0, 30));
    assert !IsDay(dates[0], FirstOf(0, 1) - 1 + 0);
  }

  /** A shown day can be read back exactly if it lies in the four-digit years. */
  lemma CellReadable(cells: seq<DayCell>, dates: seq<DateParts>, leading: int, year: int, month: int, i: nat)
    requires CellsOf(cells, dates, year, month) && Shows(dates, leading, year, month) && i < |cells|
    ensures ParseDate(cells[i].date).Some? <==> InRange(FirstOf(year, month) - leading + i)
  {
    assert IsDay(dates[i], FirstOf(year, month) - leading + i);
    ReadBack(dates[i]);
  }

  /** From its second month on, year 0 begins more than six days before. */
  lemma StartsLate(year: int, month: int)
    requires Named(year, month)
    ensures FirstOf(year, month) >= FIRST_DAY + 31
  {
    LandmarkDays();
    MonthBoundary(0, 1, 1);
    DayNumberOrders(DateParts(0, 2, 1), DateParts(year, month, 1));
  }

  /** Every month before the last ends at least thirty-one days before the last day. */
  lemma EndsEarly(year: int, month: int)
    requires 0 <= year <= 9999 && 1 <= month <= 12 && (year, month) != (9999, 12)
    ensures FirstOf(year, month) + DaysInMonth(year, month) <= LAST_DAY - 30
  {
    LandmarkDays();
    MonthBoundary(year, month, 1);
    var next := if month == 12 then DateParts(year + 1, 1, 1) else DateParts(year, month + 1, 1);
    DayNumberOrders(next, DateParts(9999, 12, 1));
  }

  lemma LastMonth()
    ensures Leading(9999, 12) == 3 && FirstOf(9999, 12) + 30 == LAST_DAY
  {
    LastFirst();
    UtcDayIs(DateParts(9999, 12, 1));
    WednesdayFirst(DayNumber(DateParts(9999, 12, 1)));
  }

  lemma LastFirst()
    ensures DayNumber(DateParts(9999, 12, 1)) == LAST_DAY - 30
  {
    LandmarkDays();
    OneMonth(9999, 12, 1, 31);
  }

  lemma OneMonth(year: int, month: int, d: int, e: int)
    ensures DayNumber(DateParts(year, month, e)) - DayNumber(DateParts(year, month, d)) == e - d
  {
  }

  lemma WednesdayFirst(n: int)
    requires n == LAST_DAY - 30
    ensures InTime(n) && DaysIntoWeek(Some(WeekdayOfDay(n))) == 3
  {
  }

  /** The grid of the last month goes one day beyond the four-digit years; every other one from February 0000 on stays inside. */
  lemma ReadableIff(cells: seq<DayCell>, dates: seq<DateParts>, year: int, month: int)
    requires 0 <= year <= 9999 && Named(year, month) && |dates| % 7 == 0
    requires CellsOf(cells, dates, year, month) && Shows(dates, Leading(year, month), year, month)
    ensures AllReadable(cells) <==> (year, month) != (9999, 12)
  {
    var leading := Leading(year, month);
    if (year, month) == (9999, 12) {
      LastMonth();
      CellReadable(cells, dates, leading, year, month, 34);
    } else {
      StartsLate(year, month);
      EndsEarly(year, month);
      forall i | 0 <= i < |cells|
        ensures ParseDate(cells[i].date).Some?
      {
        CellReadable(cells, dates, leading, year, month, i);
      }
    }
  }
}
