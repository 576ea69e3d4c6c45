/** The week views of web/lib/dates.ts. */
module CalendarWeek {
  import opened Common
  import opened DateText
  import opened Calendar
  import opened CalendarGrid

  /** How many days back the week is said to start; the weekday of a parsed value is never NaN. */
  function Offset(p: DateParts): (k: int)
    ensures 0 <= k < 7
  {
    DaysIntoWeek(WeekdayOf(p.year, p.month, p.day))
  }

  /** The day number of the week's start. */
  function FirstOfWeek(value: string): int
    requires Dated(value)
  {
    DayOf(value) - Offset(ParseDate(value).value)
  }

  method WeekStart(value: string) returns (r: Option<string>, ghost p: DateParts)
    ensures r == if ParseDate(value).Some? then Some(Format(p)) else None
    ensures Dated(value) ==> IsDay(p, FirstOfWeek(value))
  {
    var parsed := ParseDate(value);
    if parsed.None? {
      p := DateParts(0, 0, 0);
      return None, p;
    }
    r, p := AddDays(value, -Offset(parsed.value));
  }

  /** addDays on the string of a known day; `None` where that string cannot be read back. */
  method AddToDay(value: string, delta: int, ghost p: DateParts) returns (r: Option<string>, ghost q: DateParts)
    requires value == Format(p)
    ensures r.Some? ==> r.value == Format(q)
    ensures ValidDate(p) ==> (r.Some? <==> InRange(DayNumber(p)))
    ensures ValidDate(p) && r.Some? ==> IsDay(q, DayNumber(p) + delta)
  {
    if ValidDate(p) {
      ReadBack(p);
    }
    r, q := AddDays(value, delta);
  }

  /** The cell of a date in a week grid. */
  function WeekCell(p: DateParts): DayCell {
    DayCell(Format(p), p.day, true)
  }

  /** The `i`-th cell of a week that starts on `p`; `None` is the thrown error. */
  method CellOfWeek(start: string, i: int, ghost p: DateParts) returns (r: Option<DayCell>, ghost q: DateParts)
    requires start == Format(p)
    ensures ValidDate(p) ==> (r.Some? <==> InRange(DayNumber(p)) && InRange(DayNumber(p) + i))
    ensures ValidDate(p) && r.Some? ==> r.value == WeekCell(q) && IsDay(q, DayNumber(p) + i)
  {
    var date;
    date, q := AddToDay(start, i, p);
    if date.None? {
      return None, q;
    }
    if ValidDate(p) {
      ReadBack(q);
    }
    var parsed := ParseDate(date.value);
    if parsed.None? {
      return None, q;
    }
    r := Some(DayCell(date.value, parsed.value.day, true));
  }

  predicate WeekCells(cells: seq<DayCell>, dates: seq<DateParts>) {
    |cells| == |dates| && forall i :: 0 <= i < |dates| ==> cells[i] == WeekCell(dates[i])
  }

  /** The seven cells from `p` on. */
  method SevenCells(start: string, ghost p: DateParts) returns (r: Option<seq<DayCell>>, ghost dates: seq<DateParts>)
    requires start == Format(p)
    ensures ValidDate(p) ==> (r.Some? <==> InRange(DayNumber(p)) && InRange(DayNumber(p) + 6))
    ensures ValidDate(p) && r.Some? ==> |dates| == 7 && WeekCells(r.value, dates) && Consecutive(dates, DayNumber(p))
  {
    var cells: seq<DayCell> := [];
    ghost var first := DayNumber(p);
    ghost var valid := ValidDate(p);
    dates := [];
    for i := 0 to 7
      invariant |dates| == i && (valid ==> WeekCells(cells, dates) && Consecutive(dates, first))
      invariant valid && i > 0 ==> InRange(first) && InRange(first + i - 1)
    {
      ghost var q;
      var cell;
      cell, q := CellOfWeek(start, i, p);
      if cell.None? {
        return None, dates;
      }
      if valid {
        WeekAdded(cells, dates, first, q);
      }
      cells := cells + [cell.value];
      dates := dates + [q];
    }
    r := Some(cells);
  }

  lemma WeekAdded(cells: seq<DayCell>, dates: seq<DateParts>, first: int, q: DateParts)
    requires WeekCells(cells, dates) && Consecutive(dates, first) && IsDay(q, first + |dates|)
    ensures WeekCells(cells + [WeekCell(q)], dates + [q]) && Consecutive(dates + [q], first)
  {
  }

  /** `None` is the error thrown for a value, or for a day of its week, that is not a date of a four-digit year. */
  method WeekGrid(value: string) returns (r: Option<seq<DayCell>>, ghost dates: seq<DateParts>)
    ensures ParseDate(value).None? ==> r.None?
    ensures Dated(value) ==> (r.Some? <==> InRange(FirstOfWeek(value)) && InRange(FirstOfWeek(value) + 6))
    ensures Dated(value) && r.Some? ==> |dates| == 7 && WeekCells(r.value, dates) && Consecutive(dates, FirstOfWeek(value))
  {
    var start, p := WeekStart(value);
    if start.None? {
      return None, [];
    }
    r, dates := SevenCells(start.value, p);
  }

  method WeekRange(value: string) returns (r: Option<DateRange>, ghost p: DateParts, ghost q: DateParts)
    ensures ParseDate(value).None? ==> r.None?
    ensures r.Some? ==> r.value == DateRange(Format(p), Format(q))
    ensures Dated(value) ==> (r.Some? <==> InRange(FirstOfWeek(value)))
    ensures Dated(value) && r.Some? ==> IsDay(p, FirstOfWeek(value)) && IsDay(q, FirstOfWeek(value) + 7)
  {
    var start;
    start, p := WeekStart(value);
    if start.None? {
      return None, p, p;
    }
    var end;
    end, q := AddToDay(start.value, 7, p);
    r := if end.None? then None else Some(DateRange(start.value, end.value));
  }

  /** The week holds the date, and starts on a Sunday if and only if `Date.UTC` takes the year as it is. */
  lemma WeekHoldsDate(value: string)
    requires Dated(value)
    ensures FirstOfWeek(value) <= DayOf(value) < FirstOfWeek(value) + 7
    ensures WeekdayOfDay(FirstOfWeek(value)) == WEEK_STARTS_ON <==> ParseDate(value).value.year >= 100
  {
    PartsAreSmall(value);
    OffsetReachesSunday(ParseDate(value).value);
  }

  lemma PartsAreSmall(value: string)
    requires ParseDate(value).Some?
    ensures var p := ParseDate(value).value; 0 <= p.year <= 9999 && 0 <= p.day <= 99
  {
    FormatOfParse(value);
  }

  lemma OffsetReachesSunday(p: DateParts)
    requires 0 <= p.year <= 9999 && 1 <= p.month <= 12 && 0 <= p.day <= 99
    ensures WeekdayOfDay(DayNumber(p) - Offset(p)) == WEEK_STARTS_ON <==> !(0 <= p.year <= 99)
  {
    WeekdayCorrectIff(p);
    FourDigitsInTime(p);
    ColumnZero(DayNumber(p), WeekdayOf(p.year, p.month, p.day), !(0 <= p.year <= 99));
  }

  /** The range and the grid show the same week: it starts with the first cell and ends the day after the last. */
  lemma RangeAgreesWithGrid(cells: seq<DayCell>, dates: seq<DateParts>, first: int, p: DateParts, q: DateParts, after: DateParts)
    requires |dates| == 7 && WeekCells(cells, dates) && Consecutive(dates, first)
    requires IsDay(p, first) && IsDay(q, first + 7) && Shifted(cells[6].date, 1, after)
    ensures cells[0].date == Format(p) && after == q
  {
    assert IsDay(dates[0], first + 0) && IsDay(dates[6], first + 6);
    DayNumberOrders(dates[0], p);
    ReadBack(dates[6]);
    DayNumberOrders(after, q);
  }
}
