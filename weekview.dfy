/**
 * The week grid (`WeekView`): seven day columns from the Sunday on or before the view
 * date, each with the number of appointments whose day of the month matches the
 * column's (the month is not compared).
 */
module WeekView {
  import opened Calendar
  import opened Domain
  import opened Decimal
  import opened Sequences

  /** `addDays(startOfWeek(date), index)` for index 0 to 6. */
  function Columns(date: Instant): (cols: seq<DayNum>)
    ensures |cols| == 7
    ensures Weekday(cols[0]) == 0 && cols[6] == EndOfWeek(DayOf(date))
    ensures forall i :: 0 <= i < 7 ==> cols[i] == StartOfWeek(DayOf(date)) + i
    ensures exists i :: 0 <= i < 7 && cols[i] == DayOf(date)
  {
    var start := StartOfWeek(DayOf(date));
    var cols := seq(7, i => start + i);
    assert cols[DayOf(date) - start] == DayOf(date);
    cols
  }

  /** `new Date(a.data_hora_inicio).getDate() === day.getDate()`. */
  predicate CountedIn(a: Appointment, col: DayNum)
  {
    DayOfMonth(DayOf(a.start)) == DayOfMonth(col)
  }

  /** `CountedIn` as the test handed to `filter`. */
  function ColumnTest(col: DayNum): Appointment -> bool
  {
    a => CountedIn(a, col)
  }

  /** `filter(...).length`: the number of positions of the list the column counts. */
  function ColumnCount(apps: seq<Appointment>, col: DayNum): (n: nat)
    ensures n <= |apps|
    ensures n == |set i | 0 <= i < |apps| && CountedIn(apps[i], col)|
    ensures n == 0 <==> forall a :: a in apps ==> !CountedIn(a, col)
  {
    var kept := Filter(ColumnTest(col), apps);
    FilterCount(ColumnTest(col), apps);
    assert Passing(ColumnTest(col), apps) == set i | 0 <= i < |apps| && CountedIn(apps[i], col);
    FilterMembers(ColumnTest(col), apps);
    assert kept != [] ==> kept[0] in kept;
    |kept|
  }

  /** Seven consecutive days have distinct days of the month, so an appointment is counted in at most one column. */
  lemma AtMostOneColumn(date: Instant, a: Appointment, i: int, j: int)
    requires 0 <= i < 7 && 0 <= j < 7 && i != j
    requires CountedIn(a, Columns(date)[i])
    ensures !CountedIn(a, Columns(date)[j])
  {
    var start := StartOfWeek(DayOf(date));
    if i < j {
      DistinctDayOfMonthInWeek(start, i, j);
    } else {
      DistinctDayOfMonthInWeek(start, j, i);
    }
  }

  /** How many of the seven columns count `a`. */
  function ColumnsCounting(a: Appointment, cols: seq<DayNum>): nat
  {
    if cols == [] then 0 else (if CountedIn(a, cols[0]) then 1 else 0) + ColumnsCounting(a, cols[1..])
  }

  /** The sum of the column counts of `cols`. */
  function TotalCount(apps: seq<Appointment>, cols: seq<DayNum>): nat
  {
    if cols == [] then 0 else ColumnCount(apps, cols[0]) + TotalCount(apps, cols[1..])
  }

  lemma {:induction false} OneColumnAtMost(date: Instant, a: Appointment, k: nat)
    requires k <= 7
    ensures ColumnsCounting(a, Columns(date)[7 - k..]) <= 1
    ensures (exists i :: 7 - k <= i < 7 && CountedIn(a, Columns(date)[i])) ==>
      ColumnsCounting(a, Columns(date)[7 - k..]) == 1
    ensures (forall i :: 7 - k <= i < 7 ==> !CountedIn(a, Columns(date)[i])) ==>
      ColumnsCounting(a, Columns(date)[7 - k..]) == 0
  {
    var cols := Columns(date);
    if k > 0 {
      OneColumnAtMost(date, a, k - 1);
      assert cols[7 - k..][1..] == cols[7 - (k - 1)..];
      if CountedIn(a, cols[7 - k]) {
        forall i | 7 - (k - 1) <= i < 7 ensures !CountedIn(a, cols[i]) {
          AtMostOneColumn(date, a, 7 - k, i);
        }
      }
    }
  }

  lemma {:induction false} TotalSplits(apps: seq<Appointment>, cols: seq<DayNum>)
    requires apps != []
    ensures TotalCount(apps, cols) == ColumnsCounting(apps[0], cols) + TotalCount(apps[1..], cols)
  {
    if cols != [] {
      TotalSplits(apps, cols[1..]);
      FilterCons(ColumnTest(cols[0]), apps[0], apps[1..]);
      assert [apps[0]] + apps[1..] == apps;
    }
  }

  /** Together the seven columns count no appointment twice: their counts add up to at most the list length. */
  lemma {:induction false} WeekCountsBounded(date: Instant, apps: seq<Appointment>)
    ensures TotalCount(apps, Columns(date)) <= |apps|
  {
    if apps == [] {
      TotalOfNone(Columns(date));
    } else {
      WeekCountsBounded(date, apps[1..]);
      TotalSplits(apps, Columns(date));
      OneColumnAtMost(date, apps[0], 7);
      assert Columns(date)[0..] == Columns(date);
    }
  }

  lemma {:induction false} TotalOfNone(cols: seq<DayNum>)
    ensures TotalCount([], cols) == 0
  {
    if cols != [] {
      TotalOfNone(cols[1..]);
    }
  }

  /** The line under a column's date. */
  function ColumnLabel(count: nat): (s: string)
    ensures count > 0 ==> s == NatToString(count) + " agendamentos"
    ensures count == 0 ==> s == "Nenhum agendamento"
  {
    if count > 0 then NatToString(count) + " agendamentos" else "Nenhum agendamento"
  }

  /** Clicking column `i` passes that column's day, at midnight. */
  function ColumnClick(date: Instant, i: int): (t: Instant)
    requires 0 <= i < 7
    ensures DayOf(t) == Columns(date)[i] && TimeOfDay(t) == 0
  {
    DayDivMod(Columns(date)[i], 0);
    DayStart(Columns(date)[i])
  }
}
