/**
 * The date picker: a Monday-first grid of 42 consecutive days for the
 * displayed month, the selection state behind it (displayed month and
 * year, tentative selection) and the `YYYY-MM-DD` string it commits.
 */
module Calendar {
  import opened Wrappers
  import opened Text
  import opened Dates

  /** One button of the grid. */
  datatype CalendarDay = CalendarDay(
    date: int,             // getDate() of fullDate
    isCurrentMonth: bool,
    isToday: bool,
    isSelected: bool,
    fullDate: Date)

  /** Two dates fall on the same calendar day when day, month and year agree. */
  function IsSameDay(date1: Date, date2: Date): (r: bool)
    ensures r <==> date1 == date2
  {
    date1.day == date2.day && date1.month == date2.month && date1.year == date2.year
  }

  /** Column of `d` in a Monday-first week: `(getDay() + 6) % 7`, Monday = 0 .. Sunday = 6. */
  function MondayOffset(d: Date): (k: int)
    requires 0 <= d.month < 12
    ensures 0 <= k < 7
  {
    (Weekday(d) + 6) % 7
  }

  /** The first cell: the Monday on or before the 1st of the displayed month. */
  function GridStart(year: int, month: int): Date
    requires 0 <= month < 12
  {
    var first := MonthStart(year, month);
    AddDays(first, -MondayOffset(first))
  }

  /** The date of cell `i`: `i` days after the grid's first Monday. */
  function GridDay(year: int, month: int, i: int): (d: Date)
    requires 0 <= month < 12
    ensures ValidDate(d)
    ensures DayNumber(d) == DayNumber(MonthStart(year, month)) - MondayOffset(MonthStart(year, month)) + i
  {
    AddDays(GridStart(year, month), i)
  }

  /** The cell shown for day `d` when `month` is displayed. */
  function DayCell(d: Date, month: int, today: Date, selected: Option<Date>): CalendarDay
  {
    CalendarDay(d.day, d.month == month, IsSameDay(d, today),
                selected.Some? && IsSameDay(d, selected.value), d)
  }

  /** The grid for (`year`, `month`): the 42 days from `GridStart`, each marked against `today` and `selected`. */
  function CalendarGrid(year: int, month: int, today: Date, selected: Option<Date>): seq<CalendarDay>
    requires 0 <= month < 12
  {
    seq(42, i requires 0 <= i < 42 => DayCell(GridDay(year, month, i), month, today, selected))
  }

  // ---------------------------------------------------------------------
  // Properties of the grid

  /** 42 cells, each a real calendar day, each exactly one day after the one before. */
  lemma GridConsecutive(year: int, month: int, today: Date, selected: Option<Date>)
    requires 0 <= month < 12
    ensures var cells := CalendarGrid(year, month, today, selected);
      && |cells| == 42
      && (forall i :: 0 <= i < 42 ==>
            ValidDate(cells[i].fullDate) && cells[i].date == cells[i].fullDate.day
            && DayNumber(cells[i].fullDate) == DayNumber(cells[0].fullDate) + i)
      && (forall i :: 0 <= i < 41 ==> cells[i + 1].fullDate == NextDay(cells[i].fullDate))
  {
  }

  lemma ShiftMod7(c: int, x: int)
    ensures (7 * c + x) % 7 == x % 7
  {
    DivOf(7 * c + x, 7, c + x / 7, x % 7);
  }

  /**
   * The grid starts on a Monday 0..6 days before the 1st of the month,
   * and column `i % 7` of every row is a fixed weekday (Monday first,
   * Sunday last), so cell 41 is a Sunday.
   */
  lemma GridWeekdays(year: int, month: int, today: Date, selected: Option<Date>)
    requires 0 <= month < 12
    ensures var cells := CalendarGrid(year, month, today, selected);
      && var first := MonthStart(year, month);
      && 0 <= DayNumber(first) - DayNumber(cells[0].fullDate) <= 6
      && Weekday(cells[0].fullDate) == 1
      && Weekday(cells[41].fullDate) == 0
      && forall i :: 0 <= i < 42 ==> Weekday(cells[i].fullDate) == (i + 1) % 7
  {
    var cells := CalendarGrid(year, month, today, selected);
    var first := MonthStart(year, month);
    forall i | 0 <= i < 42
      ensures Weekday(cells[i].fullDate) == (i + 1) % 7
    {
      CellNearMonthStart(year, month, today, selected, i);
      ColumnWeekday(cells[i].fullDate, first, i);
    }
    CellNearMonthStart(year, month, today, selected, 0);
  }

  /** A day `i` days after the Monday that starts `first`'s week falls on weekday `(i + 1) % 7`. */
  lemma ColumnWeekday(c: Date, first: Date, i: int)
    requires 0 <= c.month < 12 && 0 <= first.month < 12
    requires DayNumber(c) == DayNumber(first) - MondayOffset(first) + i
    ensures Weekday(c) == (i + 1) % 7
  {
    MondayColumn(DayNumber(first), i);
  }

  /** Going back `(getDay() + 6) % 7` days from day number `n` reaches a Monday; `i` days later is weekday `(i + 1) % 7`. */
  lemma MondayColumn(n: int, i: int)
    ensures var off := ((n + 6) % 7 + 6) % 7;
      (n - off + i + 6) % 7 == (i + 1) % 7
  {
    var w := (n + 6) % 7;
    var off := (w + 6) % 7;
    assert n + 6 == 7 * ((n + 6) / 7) + w;
    assert w + 6 == 7 * ((w + 6) / 7) + off;
    assert n - off + i + 6 == 7 * ((n + 6) / 7 + (w + 6) / 7 - 1) + (i + 1);
    ShiftMod7((n + 6) / 7 + (w + 6) / 7 - 1, i + 1);
  }

  /** Days in the same month whose day numbers are close belong to the same year. */
  lemma SameMonthSameYear(a: Date, b: Date)
    requires ValidDate(a) && ValidDate(b) && a.month == b.month
    requires -300 <= DayNumber(a) - DayNumber(b) <= 300
    ensures a.year == b.year
  {
    if a.year < b.year {
      YearStep(a.year);
      YearsMonotone(a.year + 1, b.year);
    } else if b.year < a.year {
      YearStep(b.year);
      YearsMonotone(b.year + 1, a.year);
    }
  }

  /** A date with the day number of cell `i` is the date of cell `i`. */
  lemma IsGridDay(year: int, month: int, d: Date, i: int)
    requires 0 <= month < 12 && ValidDate(d)
    requires DayNumber(d) == DayNumber(MonthStart(year, month)) - MondayOffset(MonthStart(year, month)) + i
    ensures d == GridDay(year, month, i)
  {
    DayNumberInjective(d, GridDay(year, month, i));
  }

  /** The first `n` cells of the grid, built one day at a time as the generating loop pushes them. */
  function GridPrefix(year: int, month: int, today: Date, selected: Option<Date>, n: nat): seq<CalendarDay>
    requires 0 <= month < 12
  {
    if n == 0 then [] else GridPrefix(year, month, today, selected, n - 1) + [DayCell(GridDay(year, month, n - 1), month, today, selected)]
  }

  /** Building cell by cell gives the grid's own prefix. */
  lemma {:induction false} GridPrefixIsPrefix(year: int, month: int, today: Date, selected: Option<Date>, n: nat)
    requires 0 <= month < 12 && n <= 42
    ensures GridPrefix(year, month, today, selected, n) == CalendarGrid(year, month, today, selected)[..n]
  {
    if n > 0 {
      GridPrefixIsPrefix(year, month, today, selected, n - 1);
      var grid := CalendarGrid(year, month, today, selected);
      PrefixExtend(grid, n);
      GridCellAt(year, month, today, selected, n - 1);
    }
  }

  /** Cell `i` of the grid shows the date of cell `i`. */
  lemma GridCellAt(year: int, month: int, today: Date, selected: Option<Date>, i: int)
    requires 0 <= month < 12 && 0 <= i < 42
    ensures CalendarGrid(year, month, today, selected)[i] == DayCell(GridDay(year, month, i), month, today, selected)
  {
  }

  /** A prefix one longer is the shorter prefix and the next element. */
  lemma PrefixExtend<T>(s: seq<T>, n: int)
    requires 0 < n <= |s|
    ensures s[..n] == s[..n - 1] + [s[n - 1]]
  {
  }

  /** Where a cell sits relative to the 1st of the displayed month. */
  lemma CellNearMonthStart(year: int, month: int, today: Date, selected: Option<Date>, i: int)
    requires 0 <= month < 12 && 0 <= i < 42
    ensures var cells := CalendarGrid(year, month, today, selected);
      && var first := MonthStart(year, month);
      && ValidDate(cells[i].fullDate)
      && DayNumber(cells[i].fullDate) == DayNumber(first) - MondayOffset(first) + i
  {
  }

  /**
   * `isCurrentMonth` compares only the month, yet it marks exactly the
   * days of the displayed month and year (the 42-day window never
   * reaches the same month of another year).
   */
  lemma GridCurrentMonth(year: int, month: int, today: Date, selected: Option<Date>)
    requires 0 <= month < 12
    ensures var cells := CalendarGrid(year, month, today, selected);
      && var first := MonthStart(year, month);
      && forall i :: 0 <= i < 42 ==>
           (cells[i].isCurrentMonth <==> cells[i].fullDate.month == month)
           && (cells[i].isCurrentMonth ==>
                 cells[i].fullDate.year == FullYear(year) && 1 <= cells[i].date <= DaysInMonth(FullYear(year), month))
  {
    var cells := CalendarGrid(year, month, today, selected);
    var first := MonthStart(year, month);
    forall i | 0 <= i < 42 && cells[i].isCurrentMonth
      ensures cells[i].fullDate.year == FullYear(year)
    {
      CellNearMonthStart(year, month, today, selected, i);
      SameMonthSameYear(cells[i].fullDate, first);
    }
  }

  /** Day `d` of a month lies `d - 1` days after its 1st. */
  lemma DayOfMonthNumber(first: Date, d: int)
    requires ValidDate(first) && first.day == 1
    ensures DayNumber(Date(first.year, first.month, d)) == DayNumber(first) + d - 1
  {
  }

  /** Day `d` of the displayed month is shown, as a current-month cell, at index `i`. */
  lemma GridShowsDay(year: int, month: int, today: Date, selected: Option<Date>, d: int) returns (i: int)
    requires 0 <= month < 12
    requires 1 <= d <= DaysInMonth(FullYear(year), month)
    ensures var cells := CalendarGrid(year, month, today, selected);
      && 0 <= i < 42
      && cells[i].fullDate == Date(FullYear(year), month, d)
      && cells[i].isCurrentMonth && cells[i].date == d
  {
    var cells := CalendarGrid(year, month, today, selected);
    var first := MonthStart(year, month);
    i := MondayOffset(first) + d - 1;
    CellNearMonthStart(year, month, today, selected, i);
    DayOfMonthNumber(first, d);
    DayNumberInjective(cells[i].fullDate, Date(FullYear(year), month, d));
  }

  /** No day of the displayed month appears in two current-month cells. */
  lemma GridMonthDaysDistinct(year: int, month: int, today: Date, selected: Option<Date>)
    requires 0 <= month < 12
    ensures var cells := CalendarGrid(year, month, today, selected);
      forall i, j ::
        0 <= i < 42 && 0 <= j < 42 && cells[i].isCurrentMonth && cells[j].isCurrentMonth
        && cells[i].date == cells[j].date
        ==> i == j
  {
    var cells := CalendarGrid(year, month, today, selected);
    GridCurrentMonth(year, month, today, selected);
    forall i, j | 0 <= i < 42 && 0 <= j < 42 && cells[i].isCurrentMonth
        && cells[j].isCurrentMonth && cells[i].date == cells[j].date
      ensures i == j
    {
      assert cells[i].fullDate == cells[j].fullDate;
      CellNearMonthStart(year, month, today, selected, i);
      CellNearMonthStart(year, month, today, selected, j);
    }
  }

  /**
   * `isSelected` holds exactly where the cell's day equals the selection,
   * so no cell is selected without a selection and at most one with it;
   * likewise at most one cell is `today`.
   */
  lemma GridSelection(year: int, month: int, today: Date, selected: Option<Date>)
    requires 0 <= month < 12
    ensures var cells := CalendarGrid(year, month, today, selected);
      && (forall i :: 0 <= i < 42 ==>
            (cells[i].isSelected <==> selected == Some(cells[i].fullDate))
            && (cells[i].isToday <==> cells[i].fullDate == today))
      && (selected == None ==> forall i :: 0 <= i < 42 ==> !cells[i].isSelected)
      && (forall i, j :: 0 <= i < 42 && 0 <= j < 42 && cells[i].isSelected && cells[j].isSelected ==> i == j)
      && (forall i, j :: 0 <= i < 42 && 0 <= j < 42 && cells[i].isToday && cells[j].isToday ==> i == j)
  {
    var cells := CalendarGrid(year, month, today, selected);
    forall i, j | 0 <= i < 42 && 0 <= j < 42 && cells[i].fullDate == cells[j].fullDate
      ensures i == j
    {
      CellNearMonthStart(year, month, today, selected, i);
      CellNearMonthStart(year, month, today, selected, j);
    }
  }

  /** February 2024 (a leap year) shows its 29th as a day of the month. */
  lemma LeapFebruaryShown(today: Date, selected: Option<Date>)
    ensures exists i :: 0 <= i < 42 && CalendarGrid(2024, 1, today, selected)[i].isCurrentMonth
                        && CalendarGrid(2024, 1, today, selected)[i].fullDate == Date(2024, 1, 29)
  {
    assert DaysInMonth(FullYear(2024), 1) == 29;
    var i := GridShowsDay(2024, 1, today, selected, 29);
  }

  /** February 2023 has no 29th anywhere in its grid. */
  lemma CommonFebruaryShort(today: Date, selected: Option<Date>)
    ensures forall i :: 0 <= i < 42 ==> CalendarGrid(2023, 1, today, selected)[i].fullDate != Date(2023, 1, 29)
  {
    GridConsecutive(2023, 1, today, selected);
  }

  /** The day numbers behind the December 2024 example: the 1st is a Sunday. */
  lemma December2024Numbers()
    ensures DayNumber(Date(2024, 11, 1)) == 739586
    ensures MondayOffset(Date(2024, 11, 1)) == 6
    ensures DayNumber(Date(2024, 10, 25)) == 739580
    ensures DayNumber(Date(2025, 0, 5)) == 739621
  {
  }

  /** December 2024 starts on Monday 25 November and ends with January 2025, up to Sunday the 5th. */
  lemma DecemberCarriesIntoJanuary(today: Date, selected: Option<Date>)
    ensures var cells := CalendarGrid(2024, 11, today, selected);
      && cells[0].fullDate == Date(2024, 10, 25)
      && cells[41].fullDate == Date(2025, 0, 5) && !cells[41].isCurrentMonth
  {
    var cells := CalendarGrid(2024, 11, today, selected);
    December2024Numbers();
    assert MonthStart(2024, 11) == Date(2024, 11, 1);
    DayNumberInjective(cells[0].fullDate, Date(2024, 10, 25));
    DayNumberInjective(cells[41].fullDate, Date(2025, 0, 5));
  }

  // ---------------------------------------------------------------------
  // The committed string

  /** `formatDate`: the year as `String` prints it, then the month 1..12 and the day, each padded to two digits. */
  function FormatDate(date: Date): (r: string)
    ensures ValidDate(date) ==>
      var k := |IntToString(date.year)|;
      && |r| == k + 6 && r[..k] == IntToString(date.year) && r[k] == '-' && r[k + 3] == '-'
      && AllDigits(r[k + 1..k + 3]) && ParseNat(r[k + 1..k + 3]) == date.month + 1
      && AllDigits(r[k + 4..]) && ParseNat(r[k + 4..]) == date.day
  {
    var y, m, d := IntToString(date.year), Pad2(date.month + 1), Pad2(date.day);
    if ValidDate(date) then
      Pad2Spec(date.month + 1);
      Pad2Spec(date.day);
      JoinedFields(y, m, d, date.month + 1, date.day);
      y + "-" + m + "-" + d
    else
      y + "-" + m + "-" + d
  }

  /** The shape of an RFC 3339 `full-date`: four digits, '-', two digits, '-', two digits. */
  predicate IsFullDate(s: string) {
    |s| == 10 && AllDigits(s[..4]) && s[4] == '-' && AllDigits(s[5..7]) && s[7] == '-' && AllDigits(s[8..])
  }

  /** Reading a `full-date` back into a date; anything else, or a day that does not exist, gives none. */
  function ParseFullDate(s: string): (r: Option<Date>)
    ensures r.Some? ==> IsFullDate(s) && ValidDate(r.value) && 0 <= r.value.year <= 9999
  {
    if IsFullDate(s) then
      ParseNatBelow(s[..4]);
      var d := Date(ParseNat(s[..4]), ParseNat(s[5..7]) - 1, ParseNat(s[8..]));
      if ValidDate(d) then Some(d) else None
    else None
  }

  /** The date a `full-date` reads as, when it reads as one. */
  lemma ParsedFields(s: string)
    requires ParseFullDate(s).Some?
    ensures ParseFullDate(s).value == Date(ParseNat(s[..4]), ParseNat(s[5..7]) - 1, ParseNat(s[8..]))
  {
  }

  lemma FormatOfParts(date: Date, y: string, m: string, d: string)
    requires IntToString(date.year) == y && Pad2(date.month + 1) == m && Pad2(date.day) == d
    ensures FormatDate(date) == y + "-" + m + "-" + d
  {
  }

  /** Where the parts of `y-mm-dd` sit, for two-character `mm` and `dd`. */
  lemma DashedParts(y: string, m: string, d: string)
    requires |m| == 2 && |d| == 2
    ensures var s := y + "-" + m + "-" + d;
      && |s| == |y| + 6
      && s[..|y|] == y && s[|y|] == '-' && s[|y| + 1..|y| + 3] == m && s[|y| + 3] == '-' && s[|y| + 4..] == d
  {
  }

  /** A `full-date` is its three fields joined by dashes. */
  lemma FullDateParts(s: string)
    requires IsFullDate(s)
    ensures s == s[..4] + "-" + s[5..7] + "-" + s[8..]
  {
    DashedParts(s[..4], s[5..7], s[8..]);
  }

  /** The fields of `y-mm-dd` read back as the two numbers written into it. */
  lemma JoinedFields(y: string, m: string, d: string, mv: int, dv: int)
    requires |m| == 2 && AllDigits(m) && ParseNat(m) == mv
    requires |d| == 2 && AllDigits(d) && ParseNat(d) == dv
    ensures var s := y + "-" + m + "-" + d;
      && |s| == |y| + 6
      && s[..|y|] == y && s[|y|] == '-' && s[|y| + 3] == '-'
      && AllDigits(s[|y| + 1..|y| + 3]) && ParseNat(s[|y| + 1..|y| + 3]) == mv
      && AllDigits(s[|y| + 4..]) && ParseNat(s[|y| + 4..]) == dv
  {
    DashedParts(y, m, d);
  }

  /** For a four-digit year the string is an RFC 3339 `full-date` that reads back as the same date. */
  lemma FormatDateRoundTrip(date: Date)
    requires ValidDate(date) && 1000 <= date.year <= 9999
    ensures IsFullDate(FormatDate(date))
    ensures ParseFullDate(FormatDate(date)) == Some(date)
  {
    var y, m, d := IntToString(date.year), Pad2(date.month + 1), Pad2(date.day);
    assert |y| == 4 && AllDigits(y) && ParseNat(y) == date.year by {
      NatToStringWidth(date.year);
      ParseNatToString(date.year);
    }
    assert |m| == 2 && AllDigits(m) && ParseNat(m) == date.month + 1 by {
      Pad2Spec(date.month + 1);
    }
    assert |d| == 2 && AllDigits(d) && ParseNat(d) == date.day by {
      Pad2Spec(date.day);
    }
    FormatOfParts(date, y, m, d);
    JoinedFields(y, m, d, date.month + 1, date.day);
    ParseFullDateOf(y + "-" + m + "-" + d, date);
  }

  /** A `full-date` whose three fields read as a valid date's year, 1-based month and day reads as that date. */
  lemma ParseFullDateOf(s: string, date: Date)
    requires IsFullDate(s) && ValidDate(date)
    requires ParseNat(s[..4]) == date.year && ParseNat(s[5..7]) == date.month + 1 && ParseNat(s[8..]) == date.day
    ensures ParseFullDate(s) == Some(date)
  {
  }

  /** Conversely, a `full-date` whose year has no leading zero is exactly what `FormatDate` prints for it. */
  lemma ParseFullDateRoundTrip(s: string)
    requires ParseFullDate(s).Some? && s[0] != '0'
    ensures FormatDate(ParseFullDate(s).value) == s
  {
    var y, m, d := s[..4], s[5..7], s[8..];
    ParsedFields(s);
    var date := Date(ParseNat(y), ParseNat(m) - 1, ParseNat(d));
    assert IntToString(date.year) == y by {
      assert y[0] == s[0];
      NatToStringParse(y);
    }
    assert Pad2(date.month + 1) == m by {
      Pad2Parse(m);
    }
    assert Pad2(date.day) == d by {
      Pad2Parse(d);
    }
    FullDateParts(s);
    FormatOfParts(date, y, m, d);
  }

  /** 7 March 2024 is committed as "2024-03-07". */
  lemma FormatDateExample()
    ensures FormatDate(Date(2024, 2, 7)) == "2024-03-07"
  {
    assert NatToString(2024) == "2024" by {
      assert NatToString(2) == "2";
      assert NatToString(20) == "20";
      assert NatToString(202) == "202";
    }
  }

  // ---------------------------------------------------------------------
  // The component

  /** `Array.from({ length: 10 }, (_, i) => year + i)`: the ten years the selector offers. */
  function YearWindow(year: int): (r: seq<int>)
    ensures |r| == 10 && r[0] == year
    ensures forall i :: 0 <= i < |r| - 1 ==> r[i + 1] == r[i] + 1
  {
    seq(10, i requires 0 <= i < 10 => year + i)
  }

  class CalendarComponent {
    /** `@Input() initialDate`. */
    const initialDate: Option<Date>
    /** The year selector's options, computed once at construction. */
    const availableYears: seq<int>
    /** The tentative selection. */
    var selectedDate: Option<Date>
    /** The displayed month (0..11) and year. */
    var currentMonth: int
    var currentYear: int

    ghost predicate Valid()
      reads this
    {
      && 0 <= currentMonth < 12
      && (initialDate.Some? ==> ValidDate(initialDate.value))
    }

    /** The field initialisers; `now` is the `new Date()` they read. */
    constructor (now: Date, initialDate: Option<Date>)
      requires ValidDate(now)
      requires initialDate.Some? ==> ValidDate(initialDate.value)
      ensures Valid()
      ensures this.initialDate == initialDate && availableYears == YearWindow(now.year)
      ensures selectedDate == None && currentMonth == now.month && currentYear == now.year
    {
      this.initialDate := initialDate;
      availableYears := YearWindow(now.year);
      selectedDate := None;
      currentMonth := now.month;
      currentYear := now.year;
    }

    /** `ngOnInit`: an initial date seeds the selection and the displayed month and year. */
    method NgOnInit()
      requires Valid()
      modifies this
      ensures Valid()
      ensures initialDate.Some? ==>
        && selectedDate == initialDate
        && currentMonth == initialDate.value.month
        && currentYear == initialDate.value.year
      ensures initialDate.None? ==>
        && selectedDate == old(selectedDate)
        && currentMonth == old(currentMonth)
        && currentYear == old(currentYear)
    {
      if initialDate.Some? {
        selectedDate := initialDate;
        currentMonth := initialDate.value.month;
        currentYear := initialDate.value.year;
      }
    }

    /**
     * `generateCalendarDays`: walks 42 days from the Monday on or before
     * the 1st, advancing with `setDate(getDate() + 1)`; `today` is the
     * `new Date()` it reads.
     */
    method GenerateCalendarDays(today: Date) returns (days: seq<CalendarDay>)
      requires Valid()
      ensures days == CalendarGrid(currentYear, currentMonth, today, selectedDate)
    {
      var year := currentYear;
      var month := currentMonth;
      var firstDay := MonthStart(year, month);
      var selected := selectedDate;

      var dayOfWeek := (Weekday(firstDay) + 6) % 7;
      var startDate := SetDateOf(firstDay, firstDay.day - dayOfWeek);

      IsGridDay(year, month, startDate, 0);

      days := [];
      var currentDate := startDate;
      for i := 0 to 42
        invariant currentDate == GridDay(year, month, i)
        invariant days == GridPrefix(year, month, today, selected, i)
      {
        var isCurrentMonth := currentDate.month == month;
        var isToday := IsSameDay(currentDate, today);
        var isSelected := if selected.Some? then IsSameDay(currentDate, selected.value) else false;
        var cell := CalendarDay(currentDate.day, isCurrentMonth, isToday, isSelected, currentDate);
        assert cell == DayCell(currentDate, month, today, selected);
        days := days + [cell];
        currentDate := SetDateOf(currentDate, currentDate.day + 1);
        IsGridDay(year, month, currentDate, i + 1);
      }
      GridPrefixIsPrefix(year, month, today, selected, 42);
    }

    /** `selectDate`: a day outside the displayed month is ignored; any other becomes the selection. */
    method SelectDate(day: CalendarDay)
      requires Valid()
      modifies this`selectedDate
      ensures Valid()
      ensures selectedDate == if day.isCurrentMonth then Some(day.fullDate) else old(selectedDate)
    {
      if !day.isCurrentMonth {
        return;
      }
      selectedDate := Some(day.fullDate);
    }

    /** `onMonthChange`: the month selector's value (0..11) becomes the displayed month. */
    method OnMonthChange(value: int)
      requires Valid() && 0 <= value < 12
      modifies this`currentMonth
      ensures Valid() && currentMonth == value
      ensures currentYear == old(currentYear) && selectedDate == old(selectedDate)
    {
      currentMonth := value;
    }

    /** `onYearChange`: the year selector's value becomes the displayed year. */
    method OnYearChange(value: int)
      requires Valid()
      modifies this`currentYear
      ensures Valid() && currentYear == value
      ensures currentMonth == old(currentMonth) && selectedDate == old(selectedDate)
    {
      currentYear := value;
    }

    /** `onApply`: emits the selection as `formatDate` prints it, and nothing without a selection. */
    method OnApply() returns (emitted: Option<string>)
      ensures selectedDate.None? ==> emitted.None?
      ensures selectedDate.Some? ==> emitted == Some(FormatDate(selectedDate.value))
    {
      var selected := selectedDate;
      if selected.Some? {
        var formattedDate := FormatDate(selected.value);
        emitted := Some(formattedDate);
      } else {
        emitted := None;
      }
    }

    /** `onCancel`: emits `cancelled` and changes nothing. */
    method OnCancel() returns (cancelled: bool)
      ensures cancelled
    {
      cancelled := true;
    }
  }

  /** The April 2024 page runs from Monday 1 April, after 7 March. */
  lemma April2024Numbers()
    ensures DayNumber(Date(2024, 3, 1)) == 739342
    ensures MondayOffset(Date(2024, 3, 1)) == 0
    ensures DayNumber(Date(2024, 2, 7)) == 739317
  {
  }

  /** With 7 March 2024 selected, no cell of the April 2024 page is marked selected. */
  lemma AprilPageShowsNoMarchSelection(today: Date)
    ensures forall i :: 0 <= i < 42 ==> !CalendarGrid(2024, 3, today, Some(Date(2024, 2, 7)))[i].isSelected
  {
    April2024Numbers();
    assert MonthStart(2024, 3) == Date(2024, 3, 1);
    GridSelection(2024, 3, today, Some(Date(2024, 2, 7)));
  }

  /**
   * Open on 7 March 2024, move to April (no cell selected there, the
   * selection kept), move back and apply.
   */
  method OpenNavigateApply(now: Date, today: Date) returns (april: seq<CalendarDay>, emitted: Option<string>)
    requires ValidDate(now)
    ensures |april| == 42 && forall i :: 0 <= i < 42 ==> !april[i].isSelected
    ensures emitted == Some("2024-03-07")
  {
    var calendar := new CalendarComponent(now, Some(Date(2024, 2, 7)));
    calendar.NgOnInit();
    calendar.OnMonthChange(3);
    april := calendar.GenerateCalendarDays(today);
    AprilPageShowsNoMarchSelection(today);
    calendar.OnMonthChange(2);
    emitted := calendar.OnApply();
    FormatDateExample();
  }
}
