/** The month calendar (src/composables/useCalendar.js): date keys, the
    holiday lookup, the month geometry read off JavaScript's `Date`
    constructor, the 42-cell month grid and month navigation. */
module Calendar {
  import opened Wrappers
  import opened Strings
  import opened Dates

  // Date keys and holidays.

  /** `formatDateString` is `Dates.FormatDate`: for four-digit years it is
      ten characters, `YYYY-MM-DD`, with the month and day as two digits. */
  lemma FormatDateShape(d: Date)
    requires ValidDate(d) && 1000 <= d.year <= 9999
    ensures |FormatDate(d)| == 10 && FormatDate(d)[4] == '-' && FormatDate(d)[7] == '-'
    ensures AllDigits(FormatDate(d)[..4]) && DigitsValue(FormatDate(d)[..4]) == d.year
    ensures AllDigits(FormatDate(d)[5..7]) && DigitsValue(FormatDate(d)[5..7]) == d.month
    ensures AllDigits(FormatDate(d)[8..]) && DigitsValue(FormatDate(d)[8..]) == d.day
  {
    ParseFormatDate(d);
  }

  /** `isToday`, with today's date passed in: same day, month and year. */
  predicate IsToday(date: Date, today: Date) {
    date.day == today.day && date.month == today.month && date.year == today.year
  }

  /** A date is today exactly when its date key is today's. */
  lemma IsTodaySameKey(date: Date, today: Date)
    requires ValidDate(date) && ValidDate(today)
    requires 1000 <= date.year <= 9999 && 1000 <= today.year <= 9999
    ensures IsToday(date, today) <==> FormatDate(date) == FormatDate(today)
  {
    ParseFormatDate(date);
    ParseFormatDate(today);
  }

  /** An entry of the holiday table; only its date key is read here. */
  datatype Holiday = Holiday(date: string, name: string)

  /** The position of the first holiday on `key`. */
  function FirstHoliday(holidays: seq<Holiday>, key: string): (r: Option<nat>)
    ensures r.None? <==> forall k :: 0 <= k < |holidays| ==> holidays[k].date != key
    ensures r.Some? ==> r.value < |holidays| && holidays[r.value].date == key
    ensures r.Some? ==> forall k :: 0 <= k < r.value ==> holidays[k].date != key
  {
    if holidays == [] then None
    else if holidays[0].date == key then Some(0)
    else
      var rest := FirstHoliday(holidays[1..], key);
      assert forall k :: 1 <= k < |holidays| ==> holidays[k] == holidays[1..][k - 1];
      if rest.None? then None else Some(rest.value + 1)
  }

  /** `getHolidayForDate`: the first holiday whose date key is the date's. */
  function HolidayForDate(holidays: seq<Holiday>, date: Date): Option<Holiday> {
    match FirstHoliday(holidays, FormatDate(date))
    case None => None
    case Some(k) => Some(holidays[k])
  }

  /** The holiday found is in the table on the date's key, and no earlier
      entry is; nothing is found exactly when no entry is on that key. */
  lemma HolidayForDateFirst(holidays: seq<Holiday>, date: Date)
    ensures HolidayForDate(holidays, date).None? <==> forall h :: h in holidays ==> h.date != FormatDate(date)
    ensures HolidayForDate(holidays, date).Some? ==>
      exists k :: 0 <= k < |holidays| && holidays[k] == HolidayForDate(holidays, date).value
        && holidays[k].date == FormatDate(date) && forall j :: 0 <= j < k ==> holidays[j].date != FormatDate(date)
  {
    var r := FirstHoliday(holidays, FormatDate(date));
    if r.None? {
      forall h | h in holidays ensures h.date != FormatDate(date) {
        var k :| 0 <= k < |holidays| && holidays[k] == h;
      }
    } else {
      assert holidays[r.value] in holidays;
    }
  }

  // Month geometry.

  /** The first day of month `m0` (zero-based, possibly outside 0..11) of
      year `y`, as `new Date(y, m0, 1)` carries it. */
  function MonthStart(y: int, m0: int): (r: Date)
    ensures ValidDate(r) && r.day == 1
  {
    Date(y + m0 / 12, m0 % 12 + 1, 1)
  }

  /** The number of months since year 0 of the month a date falls in. */
  function MonthIndex(d: Date): int {
    12 * d.year + d.month - 1
  }

  lemma MonthStartIndex(y: int, m0: int)
    ensures MonthIndex(MonthStart(y, m0)) == 12 * y + m0
  {
  }

  /** The length of the month `MonthStart(y, m0)` begins. */
  function MonthLength(y: int, m0: int): (n: int)
    ensures 28 <= n <= 31
  {
    DaysInMonth(MonthStart(y, m0).year, MonthStart(y, m0).month)
  }

  /** Consecutive months begin a month's length apart. */
  lemma MonthStartNext(y: int, m0: int)
    ensures DayNumber(MonthStart(y, m0 + 1)) == DayNumber(MonthStart(y, m0)) + MonthLength(y, m0)
  {
    var s := MonthStart(y, m0);
    assert m0 == 12 * (m0 / 12) + m0 % 12;
    assert m0 + 1 == 12 * ((m0 + 1) / 12) + (m0 + 1) % 12;
    if m0 % 12 < 11 {
      assert (m0 + 1) / 12 == m0 / 12 && (m0 + 1) % 12 == m0 % 12 + 1;
      DaysBeforeNextMonth(s.year, s.month);
    } else {
      assert (m0 + 1) / 12 == m0 / 12 + 1 && (m0 + 1) % 12 == 0;
      DaysBeforeNextYear(s.year);
    }
  }

  /** `new Date(y, m0, day)` is the date whose day number is `day - 1`
      after the start of month `m0`. */
  lemma MakeDateAt(y: int, m0: int, day: int, r: Date)
    requires ValidDate(r) && DayNumber(r) == DayNumber(MonthStart(y, m0)) + day - 1
    ensures MakeDate(y, m0, day) == r
  {
    AddDaysNumber(MonthStart(y, m0), day - 1);
    DayNumberInjective(MakeDate(y, m0, day), r);
  }

  /** `new Date(y, m0, 0)` is the last day of the month before `m0`. */
  lemma DayZero(y: int, m0: int)
    ensures MakeDate(y, m0, 0) == Date(MonthStart(y, m0 - 1).year, MonthStart(y, m0 - 1).month, MonthLength(y, m0 - 1))
  {
    MonthStartNext(y, m0 - 1);
    MakeDateAt(y, m0, 0, Date(MonthStart(y, m0 - 1).year, MonthStart(y, m0 - 1).month, MonthLength(y, m0 - 1)));
  }

  /** `daysInMonth`: `new Date(year, month + 1, 0).getDate()`. */
  function DaysInMonthOf(current: Date): int {
    MakeDate(current.year, current.month, 0).day
  }

  /** `firstDayOfMonth`: `new Date(year, month, 1).getDay()`. */
  function FirstDayOfMonth(current: Date): (w: int)
    ensures 0 <= w < 7
  {
    DayOfWeek(MakeDate(current.year, current.month - 1, 1))
  }

  /** `daysInPrevMonth`: `new Date(year, month, 0).getDate()`. */
  function DaysInPrevMonth(current: Date): int {
    MakeDate(current.year, current.month - 1, 0).day
  }

  /** `daysInMonth` is the Gregorian length of the current month, 29 for
      February exactly in leap years. */
  lemma DaysInMonthOfGregorian(current: Date)
    requires ValidDate(current)
    ensures DaysInMonthOf(current) == DaysInMonth(current.year, current.month)
    ensures current.month == 2 ==> (DaysInMonthOf(current) == 29 <==> IsLeapYear(current.year))
    ensures current.month != 2 ==> DaysInMonthOf(current) == (if current.month in {4, 6, 9, 11} then 30 else 31)
  {
    DayZero(current.year, current.month);
    assert MonthStart(current.year, current.month - 1) == Date(current.year, current.month, 1);
  }

  /** `firstDayOfMonth` is the weekday of the current month's first day. */
  lemma FirstDayOfMonthWeekday(current: Date)
    requires ValidDate(current)
    ensures FirstDayOfMonth(current) == DayOfWeek(Date(current.year, current.month, 1))
  {
    MakeDateAt(current.year, current.month - 1, 1, Date(current.year, current.month, 1));
  }

  /** `daysInPrevMonth` is the length of the month before the current one. */
  lemma DaysInPrevMonthLength(current: Date)
    ensures DaysInPrevMonth(current) == MonthLength(current.year, current.month - 2)
  {
    DayZero(current.year, current.month - 1);
  }

  // The grid.

  /** One cell of the month grid. */
  datatype Cell = Cell(date: int, isCurrentMonth: bool, fullDate: Date)

  /** Cell `k` of the grid: the trailing days of the previous month, the
      days of the month, then the first days of the next month. */
  function CellAt(current: Date, k: int): Cell {
    var first := FirstDayOfMonth(current);
    var dim := DaysInMonthOf(current);
    var prev := DaysInPrevMonth(current);
    if k < first then
      Cell(prev - (first - 1 - k), false, MakeDate(current.year, current.month - 2, prev - (first - 1 - k)))
    else if k < first + dim then
      Cell(k - first + 1, true, MakeDate(current.year, current.month - 1, k - first + 1))
    else
      Cell(k - first - dim + 1, false, MakeDate(current.year, current.month, k - first - dim + 1))
  }

  /** `calendarDays`: three loops fill the 42 cells of six weeks. */
  method CalendarDays(current: Date) returns (days: seq<Cell>)
    requires ValidDate(current)
    ensures |days| == 42
    ensures forall k :: 0 <= k < 42 ==> days[k] == CellAt(current, k)
  {
    hide MakeDate, DayOfWeek, FirstDayOfMonth, DaysInPrevMonth, DaysInMonthOf, DaysBeforeYear;
    days := [];
    var first := FirstDayOfMonth(current);
    var dim := DaysInMonthOf(current);
    var prev := DaysInPrevMonth(current);
    DaysInMonthOfGregorian(current);
    var i := first - 1;
    while i >= 0
      invariant -1 <= i <= first - 1
      invariant |days| == first - 1 - i
      invariant forall k :: 0 <= k < |days| ==> days[k] == CellAt(current, k)
    {
      days := days + [Cell(prev - i, false, MakeDate(current.year, current.month - 2, prev - i))];
      i := i - 1;
    }
    i := 1;
    while i <= dim
      invariant 1 <= i <= dim + 1
      invariant |days| == first + i - 1
      invariant forall k :: 0 <= k < |days| ==> days[k] == CellAt(current, k)
    {
      days := days + [Cell(i, true, MakeDate(current.year, current.month - 1, i))];
      i := i + 1;
    }
    var totalCells := 42;
    var remainingDays := totalCells - |days|;
    i := 1;
    while i <= remainingDays
      invariant 1 <= i <= remainingDays + 1
      invariant |days| == first + dim + i - 1
      invariant forall k :: 0 <= k < |days| ==> days[k] == CellAt(current, k)
    {
      days := days + [Cell(i, false, MakeDate(current.year, current.month, i))];
      i := i + 1;
    }
  }

  /** The cell's day number: the grid is 42 consecutive days, with the
      first of the month in column `firstDayOfMonth`. */
  function GridDayNumber(current: Date, k: int): int {
    DayNumber(MonthStart(current.year, current.month - 1)) - FirstDayOfMonth(current) + k
  }

  /** What a cell states about its date. */
  predicate CellShows(current: Date, k: int, cell: Cell)
    requires ValidDate(current)
  {
    && ValidDate(cell.fullDate)
    && cell.fullDate.day == cell.date
    && DayNumber(cell.fullDate) == GridDayNumber(current, k)
    && (cell.isCurrentMonth <==> cell.fullDate.year == current.year && cell.fullDate.month == current.month)
  }

  lemma LeadingCell(current: Date, k: int)
    requires ValidDate(current) && 0 <= k < FirstDayOfMonth(current)
    ensures CellShows(current, k, CellAt(current, k))
  {
    hide MakeDate, DayOfWeek, FirstDayOfMonth, DaysInPrevMonth, DaysInMonthOf, DaysBeforeYear;
    var y, m0 := current.year, current.month - 1;
    var first := FirstDayOfMonth(current);
    var prev := DaysInPrevMonth(current);
    DaysInPrevMonthLength(current);
    var c := prev - (first - 1 - k);
    var p := MonthStart(y, m0 - 1);
    MonthStartNext(y, m0 - 1);
    MakeDateAt(y, m0 - 1, c, Date(p.year, p.month, c));
    MonthStartIndex(y, m0 - 1);
    assert CellAt(current, k) == Cell(c, false, Date(p.year, p.month, c));
    assert MonthStart(y, m0) == Date(y, current.month, 1);
  }

  lemma MonthCell(current: Date, k: int)
    requires ValidDate(current) && FirstDayOfMonth(current) <= k < FirstDayOfMonth(current) + DaysInMonthOf(current)
    ensures CellShows(current, k, CellAt(current, k))
  {
    hide MakeDate, DayOfWeek, FirstDayOfMonth, DaysInPrevMonth, DaysInMonthOf, DaysBeforeYear;
    var y, m0 := current.year, current.month - 1;
    DaysInMonthOfGregorian(current);
    var c := k - FirstDayOfMonth(current) + 1;
    assert MonthStart(y, m0) == Date(y, current.month, 1);
    MakeDateAt(y, m0, c, Date(y, current.month, c));
    assert CellAt(current, k) == Cell(c, true, Date(y, current.month, c));
  }

  lemma TrailingCell(current: Date, k: int)
    requires ValidDate(current) && FirstDayOfMonth(current) + DaysInMonthOf(current) <= k < 42
    ensures CellShows(current, k, CellAt(current, k))
  {
    hide MakeDate, DayOfWeek, FirstDayOfMonth, DaysInPrevMonth, DaysInMonthOf, DaysBeforeYear;
    var y, m0 := current.year, current.month - 1;
    DaysInMonthOfGregorian(current);
    var c := k - FirstDayOfMonth(current) - DaysInMonthOf(current) + 1;
    var n := MonthStart(y, m0 + 1);
    assert MonthStart(y, m0) == Date(y, current.month, 1);
    MonthStartNext(y, m0);
    MakeDateAt(y, m0 + 1, c, Date(n.year, n.month, c));
    MonthStartIndex(y, m0 + 1);
    assert CellAt(current, k) == Cell(c, false, Date(n.year, n.month, c));
  }

  /** Every cell shows a real date whose day of the month is the cell's
      number, the cells run over consecutive days, and a cell is flagged
      current exactly when its date lies in the current month. */
  lemma GridCell(current: Date, k: int)
    requires ValidDate(current) && 0 <= k < 42
    ensures ValidDate(CellAt(current, k).fullDate)
    ensures CellAt(current, k).fullDate.day == CellAt(current, k).date
    ensures DayNumber(CellAt(current, k).fullDate) == GridDayNumber(current, k)
    ensures CellAt(current, k).isCurrentMonth <==>
      CellAt(current, k).fullDate.year == current.year && CellAt(current, k).fullDate.month == current.month
  {
    if k < FirstDayOfMonth(current) {
      LeadingCell(current, k);
    } else if k < FirstDayOfMonth(current) + DaysInMonthOf(current) {
      MonthCell(current, k);
    } else {
      TrailingCell(current, k);
    }
  }

  /** Column `k % 7` of the grid is weekday `k % 7`, Sunday first. */
  lemma GridWeekday(current: Date, k: int)
    requires ValidDate(current) && 0 <= k < 42
    ensures DayOfWeek(CellAt(current, k).fullDate) == k % 7
  {
    hide CellAt, MakeDate, DayOfWeek, DayNumber, FirstDayOfMonth, DaysInMonthOf;
    GridCell(current, k);
    FirstDayOfMonthWeekday(current);
    var start := Date(current.year, current.month, 1);
    assert MonthStart(current.year, current.month - 1) == start;
    ColumnWeekday(CellAt(current, k).fullDate, start, FirstDayOfMonth(current), k);
  }

  lemma ColumnWeekday(x: Date, start: Date, first: int, k: int)
    requires ValidDate(x) && ValidDate(start)
    requires first == DayOfWeek(start) && DayNumber(x) == DayNumber(start) - first + k
    ensures DayOfWeek(x) == k % 7
  {
    var a := DayNumber(start) + 1;
    WeekShift(a, k);
  }

  lemma WeekShift(a: int, k: int)
    ensures (a - a % 7 + k) % 7 == k % 7
  {
    var q := a / 7;
    assert a - a % 7 == 7 * q;
    assert (7 * q + k) % 7 == k % 7;
  }

  // Navigation.

  /** The text `${getFullYear()}-${getMonth()}` that tells months apart. */
  function MonthKey(d: Date): string {
    IntToString(d.year) + "-" + IntToString(d.month - 1)
  }

  /** `new Date(d)` after `setMonth(getMonth() + delta)`: the same day of
      the month `delta` months on, carried into the month after when that
      month is too short. */
  function Shifted(d: Date, delta: int): Date {
    MakeDate(d.year, d.month - 1 + delta, d.day)
  }

  /** The date after `navigateMonth` moves by `delta`: the shifted date
      when its month key differs, otherwise the date as it was. */
  function Navigated(d: Date, delta: int): Date {
    if MonthKey(Shifted(d, delta)) != MonthKey(d) then Shifted(d, delta) else d
  }

  lemma DashSplit(a: string, b: string, c: string, e: string)
    requires '-' !in a && '-' !in c && a + "-" + b == c + "-" + e
    ensures a == c && b == e
  {
    var s := a + "-" + b;
    assert s == c + "-" + e;
    assert s[|a|] == '-' && s[|c|] == '-';
    assert forall i :: 0 <= i < |a| ==> s[i] == a[i] && a[i] in a;
    assert forall i :: 0 <= i < |c| ==> s[i] == c[i] && c[i] in c;
    assert |a| == |c|;
    assert a == s[..|a|] && c == s[..|c|];
    assert b == s[|a| + 1..] && e == s[|c| + 1..];
  }

  lemma NatToStringInjective(a: nat, b: nat)
    requires NatToString(a) == NatToString(b)
    ensures a == b
  {
    NatToStringValue(a);
    NatToStringValue(b);
  }

  lemma DigitsHaveNoDash(s: string)
    requires AllDigits(s)
    ensures '-' !in s
  {
  }

  /** For dates in years from 0 on, month keys agree exactly when the
      dates lie in the same month. */
  lemma MonthKeySame(a: Date, b: Date)
    requires ValidDate(a) && ValidDate(b) && a.year >= 0 && b.year >= 0
    ensures MonthKey(a) == MonthKey(b) <==> a.year == b.year && a.month == b.month
  {
    if MonthKey(a) == MonthKey(b) {
      DigitsHaveNoDash(NatToString(a.year));
      DigitsHaveNoDash(NatToString(b.year));
      DashSplit(IntToString(a.year), IntToString(a.month - 1), IntToString(b.year), IntToString(b.month - 1));
      NatToStringInjective(a.year, b.year);
      NatToStringInjective(a.month - 1, b.month - 1);
    }
  }

  /** `d.day` of month `m0` when that month has the day, otherwise the
      day as far into the month after. */
  lemma ShiftedLands(y: int, m0: int, day: int)
    requires 1 <= day <= 31
    ensures day <= MonthLength(y, m0) ==>
      MakeDate(y, m0, day) == Date(MonthStart(y, m0).year, MonthStart(y, m0).month, day)
    ensures day > MonthLength(y, m0) ==>
      MakeDate(y, m0, day) == Date(MonthStart(y, m0 + 1).year, MonthStart(y, m0 + 1).month, day - MonthLength(y, m0))
  {
    var s := MonthStart(y, m0);
    if day <= MonthLength(y, m0) {
      MakeDateAt(y, m0, day, Date(s.year, s.month, day));
    } else {
      var n := MonthStart(y, m0 + 1);
      MonthStartNext(y, m0);
      MonthStartNext(y, m0 + 1);
      MakeDateAt(y, m0, day, Date(n.year, n.month, day - MonthLength(y, m0)));
    }
  }

  /** "next" always moves: to the same day of the next month, or, when
      that month is too short, into the month after it. */
  lemma NextMoves(d: Date)
    requires ValidDate(d) && d.year >= 0
    ensures Navigated(d, 1) == Shifted(d, 1)
    ensures d.day <= MonthLength(d.year, d.month) ==>
      Navigated(d, 1) == Date(MonthStart(d.year, d.month).year, MonthStart(d.year, d.month).month, d.day)
    ensures MonthIndex(Navigated(d, 1)) == MonthIndex(d) + (if d.day <= MonthLength(d.year, d.month) then 1 else 2)
  {
    hide MonthKey, MakeDate;
    var m0 := d.month - 1;
    assert MonthStart(d.year, m0) == Date(d.year, d.month, 1);
    ShiftedLands(d.year, m0 + 1, d.day);
    MonthStartIndex(d.year, m0 + 1);
    MonthStartIndex(d.year, m0 + 2);
    var t := Shifted(d, 1);
    assert ValidDate(t) && t.year >= 0;
    MonthKeySame(t, d);
  }

  /** "prev" moves to the same day of the previous month when that month
      has the day; otherwise the shifted date falls back into the current
      month, the month key does not change, and the date stays. */
  lemma PrevMoves(d: Date)
    requires ValidDate(d) && d.year >= 1
    ensures d.day <= MonthLength(d.year, d.month - 2) ==>
      Navigated(d, -1) == Date(MonthStart(d.year, d.month - 2).year, MonthStart(d.year, d.month - 2).month, d.day)
    ensures d.day > MonthLength(d.year, d.month - 2) ==> Navigated(d, -1) == d
  {
    hide MonthKey, MakeDate;
    var m0 := d.month - 1;
    assert MonthStart(d.year, m0) == Date(d.year, d.month, 1);
    ShiftedLands(d.year, m0 - 1, d.day);
    MonthStartIndex(d.year, m0 - 1);
    var t := Shifted(d, -1);
    assert ValidDate(t) && t.year >= 0;
    MonthKeySame(t, d);
  }

  /** The date the calendar shows. */
  class CalendarState {
    var currentDate: Date

    constructor(today: Date)
      ensures currentDate == today
    {
      currentDate := today;
    }

    /** `navigateMonth`: "prev" and "next" move by one month (when the month
        key changes); any other direction leaves the date unchanged. */
    method NavigateMonth(direction: string)
      modifies this
      ensures direction == "prev" ==> currentDate == Navigated(old(currentDate), -1)
      ensures direction == "next" ==> currentDate == Navigated(old(currentDate), 1)
      ensures direction != "prev" && direction != "next" ==> currentDate == old(currentDate)
    {
      var currentMonthYear := MonthKey(currentDate);
      var newDate: Date;
      if direction == "prev" {
        newDate := Shifted(currentDate, -1);
      } else if direction == "next" {
        newDate := Shifted(currentDate, 1);
      } else {
        return;
      }
      var newMonthYear := MonthKey(newDate);
      if currentMonthYear != newMonthYear {
        currentDate := newDate;
      }
    }

    /** `goToToday`, with today's date passed in. */
    method GoToToday(today: Date)
      modifies this
      ensures currentDate == today
    {
      currentDate := today;
    }
  }
}
