/**
 * The month grid (`MonthView`): every day from the Sunday on or before the first of the
 * view month to the Saturday on or after its last day. Cells outside the month are
 * dimmed; a cell counts the appointments on its day of the month and month.
 */
module MonthView {
  import opened Calendar
  import opened Domain
  import opened Decimal
  import opened Sequences

  function GridStart(date: Instant): DayNum { StartOfWeek(FirstOfMonth(DayOf(date))) }
  function GridEnd(date: Instant): DayNum { EndOfWeek(LastOfMonth(DayOf(date))) }

  /** Two Sundays are a whole number of weeks apart. */
  lemma SundaysWeeksApart(a: DayNum, b: DayNum)
    requires Weekday(a) == 0 && Weekday(b) == 0 && a <= b
    ensures (b - a) % 7 == 0
  {
    assert (a + 4) % 7 == 0 && (b + 4) % 7 == 0;
    assert b - a == ((b + 4) / 7 - (a + 4) / 7) * 7;
  }

  /** The grid spans whole weeks: 4, 5 or 6 of them. */
  lemma GridSpan(date: Instant)
    ensures var len := GridEnd(date) - GridStart(date) + 1; len == 28 || len == 35 || len == 42
    ensures GridStart(date) <= FirstOfMonth(DayOf(date)) && LastOfMonth(DayOf(date)) <= GridEnd(date)
  {
    var n := DayOf(date);
    var f, l := FirstOfMonth(n), LastOfMonth(n);
    var s, w := StartOfWeek(f), StartOfWeek(l);
    SundaysWeeksApart(s, w);
    WeeksBetween(s, f, w, l);
  }

  /** Sundays `s` and `w` whose weeks hold the first and last day of a month are 3 to 5 weeks apart. */
  lemma WeeksBetween(s: int, first: int, w: int, last: int)
    requires s <= first < s + 7 && w <= last < w + 7
    requires 28 <= last - first + 1 <= 31 && (w - s) % 7 == 0
    ensures var len := w - s + 7; len == 28 || len == 35 || len == 42
  {
    var q := (w - s) / 7;
    assert w - s == 7 * q;
  }

  /** `eachDayOfInterval({ start: startOfWeek(monthStart), end: endOfWeek(monthEnd) })`. */
  function CalendarDays(date: Instant): (days: seq<DayNum>)
    ensures |days| % 7 == 0 && 28 <= |days| <= 42
    ensures days[0] == GridStart(date) && Weekday(days[0]) == 0
    ensures days[|days| - 1] == GridEnd(date) && Weekday(days[|days| - 1]) == 6
    ensures forall i :: 0 <= i < |days| ==> days[i] == days[0] + i
    ensures days[0] <= FirstOfMonth(DayOf(date)) && LastOfMonth(DayOf(date)) <= days[|days| - 1]
  {
    GridSpan(date);
    var s := GridStart(date);
    seq(GridEnd(date) - s + 1, i => s + i)
  }

  /** `format(day, 'MM') !== format(date, 'MM')`: only the month number is compared. */
  predicate Dimmed(date: Instant, cell: DayNum)
  {
    MonthOf(cell) != MonthOf(DayOf(date))
  }

  /** The date of every cell: the tail of the previous month, the month itself, the head of the next month. */
  lemma CellDate(date: Instant, cell: DayNum)
    requires GridStart(date) <= cell <= GridEnd(date)
    ensures var n := DayOf(date); var first := FirstOfMonth(n); var last := LastOfMonth(n);
      var y := YearOf(n); var m := MonthOf(n);
      (cell < first ==>
        CivilOf(cell) == (if m > 1 then Date(y, m - 1, DaysInMonth(y, m - 1) - (first - 1 - cell))
                          else Date(y - 1, 12, 31 - (first - 1 - cell)))) &&
      (first <= cell <= last ==> CivilOf(cell) == Date(y, m, cell - first + 1)) &&
      (last < cell ==>
        CivilOf(cell) == (if m < 12 then Date(y, m + 1, cell - last) else Date(y + 1, 1, cell - last)))
  {
    var n := DayOf(date);
    if cell < FirstOfMonth(n) {
      CellBeforeMonth(n, cell);
    } else if cell <= LastOfMonth(n) {
      ForwardInMonth(FirstOfMonth(n), cell - FirstOfMonth(n));
    } else {
      CellAfterMonth(n, cell);
    }
  }

  /** A leading cell, less than a week before the 1st, is in the previous month. */
  lemma CellBeforeMonth(n: DayNum, cell: DayNum)
    requires FirstOfMonth(n) - 7 < cell < FirstOfMonth(n)
    ensures var k := FirstOfMonth(n) - 1 - cell; var y := YearOf(n); var m := MonthOf(n);
      CivilOf(cell) == (if m > 1 then Date(y, m - 1, DaysInMonth(y, m - 1) - k) else Date(y - 1, 12, 31 - k))
  {
    var first := FirstOfMonth(n);
    BeforeFirstOfMonth(n);
    BackwardInMonth(first - 1, first - 1 - cell);
  }

  /** A trailing cell, less than a week after the last day, is in the next month. */
  lemma CellAfterMonth(n: DayNum, cell: DayNum)
    requires LastOfMonth(n) < cell < LastOfMonth(n) + 7
    ensures var y := YearOf(n); var m := MonthOf(n); var d := cell - LastOfMonth(n);
      CivilOf(cell) == (if m < 12 then Date(y, m + 1, d) else Date(y + 1, 1, d))
  {
    var last := LastOfMonth(n);
    AfterLastOfMonth(n);
    ForwardInMonth(last + 1, cell - last - 1);
  }

  /** A cell is dimmed exactly when it lies outside the view month. */
  lemma DimmedIffOutside(date: Instant, i: int)
    requires 0 <= i < |CalendarDays(date)|
    ensures var c := CalendarDays(date)[i];
      Dimmed(date, c) <==> c < FirstOfMonth(DayOf(date)) || LastOfMonth(DayOf(date)) < c
  {
    CellDate(date, CalendarDays(date)[i]);
  }

  /** The undimmed cells show the days 1 to the month's length, in order: day `d` is at index `first - start + d - 1`. */
  lemma MonthDaysInOrder(date: Instant, d: int)
    requires var n := DayOf(date); 1 <= d <= DaysInMonth(YearOf(n), MonthOf(n))
    ensures var n := DayOf(date); var i := FirstOfMonth(n) - GridStart(date) + d - 1;
      0 <= i < |CalendarDays(date)| && !Dimmed(date, CalendarDays(date)[i]) &&
      CivilOf(CalendarDays(date)[i]) == Date(YearOf(n), MonthOf(n), d)
  {
    var n := DayOf(date);
    var first, last := FirstOfMonth(n), LastOfMonth(n);
    var i := first - GridStart(date) + d - 1;
    var days := CalendarDays(date);
    assert 0 <= i < |days| && days[i] == first + d - 1 by {
      assert first + d - 1 <= last;
    }
    var cell := first + d - 1;
    assert CivilOf(cell) == Date(YearOf(n), MonthOf(n), d) by {
      CellDate(date, cell);
    }
  }

  /** A cell carrying the view month and day `d` is at the index `MonthDaysInOrder` names, so each day appears once. */
  lemma MonthDayOnce(date: Instant, d: int, i: int)
    requires 0 <= i < |CalendarDays(date)|
    requires var c := CalendarDays(date)[i]; var n := DayOf(date);
      YearOf(c) == YearOf(n) && MonthOf(c) == MonthOf(n) && DayOfMonth(c) == d
    ensures i == FirstOfMonth(DayOf(date)) - GridStart(date) + d - 1
  {
    CellDate(date, CalendarDays(date)[i]);
  }

  /** The filter of one cell: same day of the month and same month, any year. */
  predicate CountedIn(a: Appointment, cell: DayNum)
  {
    DayOfMonth(DayOf(a.start)) == DayOfMonth(cell) && MonthOf(DayOf(a.start)) == MonthOf(cell)
  }

  /** `CountedIn` as the test handed to `filter`. */
  function CellTest(cell: DayNum): Appointment -> bool
  {
    a => CountedIn(a, cell)
  }

  /** `filter(...).length`: the number of positions of the list the cell counts. */
  function CellCount(apps: seq<Appointment>, cell: DayNum): (n: nat)
    ensures n <= |apps|
    ensures n == |set i | 0 <= i < |apps| && CountedIn(apps[i], cell)|
    ensures n == 0 <==> forall a :: a in apps ==> !CountedIn(a, cell)
  {
    var kept := Filter(CellTest(cell), apps);
    FilterCount(CellTest(cell), apps);
    assert Passing(CellTest(cell), apps) == set i | 0 <= i < |apps| && CountedIn(apps[i], cell);
    FilterMembers(CellTest(cell), apps);
    assert kept != [] ==> kept[0] in kept;
    |kept|
  }

  /** No two cells of the grid share a day of the month and a month, so no appointment is counted twice. */
  lemma AtMostOneCell(date: Instant, a: Appointment, i: int, j: int)
    requires 0 <= i < j < |CalendarDays(date)|
    requires CountedIn(a, CalendarDays(date)[i])
    ensures !CountedIn(a, CalendarDays(date)[j])
  {
    var days := CalendarDays(date);
    CellDate(date, days[i]);
    CellDate(date, days[j]);
  }

  /** The count under a cell's number; nothing is shown for an empty day. */
  function CellLabel(count: nat): (s: string)
    ensures count > 0 ==> s == NatToString(count) + " agd."
    ensures count == 0 <==> s == []
  {
    if count > 0 then NatToString(count) + " agd." else ""
  }

  /** Clicking a cell passes that day at midnight. */
  function CellClick(date: Instant, i: int): (t: Instant)
    requires 0 <= i < |CalendarDays(date)|
    ensures DayOf(t) == CalendarDays(date)[i] && TimeOfDay(t) == 0
  {
    DayDivMod(CalendarDays(date)[i], 0);
    DayStart(CalendarDays(date)[i])
  }
}
