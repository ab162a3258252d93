/**
 * The agenda container (`Agenda`): the fetch window of each view mode, the date stepping
 * of the Previous / Next / "Hoje" buttons, and the appointment list that every fetch
 * replaces wholesale. Fetching the day window moves the current date, in place, to
 * 23:59:59.999 of its day.
 */
module Agenda {
  import opened Calendar
  import opened Domain
  import Store

  datatype ViewMode = DayMode | WeekMode | MonthMode

  /** The inclusive bounds put on `data_hora_inicio`. */
  datatype Window = Window(lo: Instant, hi: Instant)

  /** The window `fetchAppointments` queries for a view mode and a current date. */
  function WindowOf(view: ViewMode, date: Instant): (w: Window)
    ensures view == DayMode ==> w == Window(StartOfDay(date), DayEnd(DayOf(date)))
    ensures view == WeekMode ==> w == Window(DayStart(StartOfWeek(DayOf(date))), DayEnd(EndOfWeek(DayOf(date))))
    ensures view == MonthMode ==> w == Window(DayStart(FirstOfMonth(DayOf(date))), DayEnd(LastOfMonth(DayOf(date))))
    ensures w.lo <= date <= w.hi
  {
    var d := DayOf(date);
    match view
    case DayMode => Window(StartOfDay(date), DayEnd(d))
    case WeekMode => Window(DayStart(StartOfWeek(d)), DayEnd(EndOfWeek(d)))
    case MonthMode => Window(DayStart(FirstOfMonth(d)), DayEnd(LastOfMonth(d)))
  }

  /** The current date after `fetchAppointments`: the day view leaves it at 23:59:59.999. */
  function DateAfterFetch(view: ViewMode, date: Instant): (r: Instant)
    ensures view == DayMode ==> r == DayEnd(DayOf(date))
    ensures view != DayMode ==> r == date
    ensures DayOf(r) == DayOf(date)
  {
    if view == DayMode then DayEnd(DayOf(date)) else date
  }

  /**
   * Fetching again after a fetch queries the same window and leaves the date where the
   * first fetch put it, so repeated refreshes against an unchanged store agree.
   */
  lemma RefetchSameWindow(view: ViewMode, date: Instant)
    ensures WindowOf(view, DateAfterFetch(view, date)) == WindowOf(view, date)
    ensures DateAfterFetch(view, DateAfterFetch(view, date)) == DateAfterFetch(view, date)
  {
  }

  /** The day window runs from the date's midnight to the same day's last millisecond. */
  lemma DayWindowShape(date: Instant)
    ensures var w := WindowOf(DayMode, date);
      DayOf(w.lo) == DayOf(date) && TimeOfDay(w.lo) == 0 &&
      DayOf(w.hi) == DayOf(date) && TimeOfDay(w.hi) == MsPerDay - 1
  {
    StartOfDayIsMidnight(date);
  }

  /** The week window runs from a Sunday midnight to the following Saturday's last millisecond. */
  lemma WeekWindowShape(date: Instant)
    ensures var w := WindowOf(WeekMode, date);
      Weekday(DayOf(w.lo)) == 0 && TimeOfDay(w.lo) == 0 &&
      Weekday(DayOf(w.hi)) == 6 && TimeOfDay(w.hi) == MsPerDay - 1 &&
      w.hi - w.lo + 1 == 7 * MsPerDay
  {
    var d := StartOfWeek(DayOf(date));
    assert DayOf(DayStart(d)) == d && TimeOfDay(DayStart(d)) == 0 by {
      MinuteDivMod(DayStart(d), d * 1440, 0);
    }
  }

  /** The month window runs from the first day's midnight to the last day's last millisecond. */
  lemma MonthWindowShape(date: Instant)
    ensures var w := WindowOf(MonthMode, date);
      var c := CivilOf(DayOf(date));
      CivilOf(DayOf(w.lo)) == Date(c.year, c.month, 1) && TimeOfDay(w.lo) == 0 &&
      CivilOf(DayOf(w.hi)) == Date(c.year, c.month, DaysInMonth(c.year, c.month)) &&
      TimeOfDay(w.hi) == MsPerDay - 1
  {
    var d := FirstOfMonth(DayOf(date));
    assert DayOf(DayStart(d)) == d && TimeOfDay(DayStart(d)) == 0 by {
      MinuteDivMod(DayStart(d), d * 1440, 0);
    }
  }

  /** `addMonths`/`subMonths` by one on an instant: clamp the day, keep the time of day. */
  function MonthStep(date: Instant, forward: bool): (r: Instant)
    ensures TimeOfDay(r) == TimeOfDay(date)
    ensures CivilOf(DayOf(r)) ==
      (if forward then MonthAfter(CivilOf(DayOf(date))) else MonthBefore(CivilOf(DayOf(date))))
  {
    var tod := TimeOfDay(date);
    if forward then
      var n := NextMonthDay(DayOf(date));
      DayDivMod(n, tod);
      DayStart(n) + tod
    else
      var n := PrevMonthDay(DayOf(date));
      DayDivMod(n, tod);
      DayStart(n) + tod
  }

  /** `addDays`/`subDays`, `addWeeks`/`subWeeks`, `addMonths`/`subMonths` by one, keeping the time of day. */
  function Step(view: ViewMode, date: Instant, forward: bool): (r: Instant)
    ensures view == DayMode ==> r == date + (if forward then MsPerDay else -MsPerDay)
    ensures view == WeekMode ==> r == date + (if forward then 7 * MsPerDay else -7 * MsPerDay)
    ensures view == MonthMode ==> r == MonthStep(date, forward)
  {
    match view
    case DayMode => if forward then date + MsPerDay else date - MsPerDay
    case WeekMode => if forward then date + 7 * MsPerDay else date - 7 * MsPerDay
    case MonthMode => MonthStep(date, forward)
  }

  /** In the day and week views, Next then Previous (or the reverse) returns to the same date. */
  lemma StepInverse(view: ViewMode, date: Instant, forward: bool)
    requires view != MonthMode
    ensures Step(view, Step(view, date, forward), !forward) == date
  {
  }

  /**
   * In the month view the day is clamped, so Next then Previous from January 31 lands on
   * January 28 or 29, not back on the 31st.
   */
  lemma MonthStepNotInverse(date: Instant)
    requires CivilOf(DayOf(date)).month == 1 && CivilOf(DayOf(date)).day == 31
    ensures CivilOf(DayOf(Step(MonthMode, Step(MonthMode, date, true), false))).day < 31
    ensures Step(MonthMode, Step(MonthMode, date, true), false) != date
  {
    var c := CivilOf(DayOf(date));
    var feb := MonthAfter(c);
    assert feb.month == 2 && feb.day <= 29;
    var back := Step(MonthMode, Step(MonthMode, date, true), false);
    assert CivilOf(DayOf(back)) == MonthBefore(feb);
  }

  /** The agenda's state: the view mode, the current date and the fetched appointments. */
  class AgendaView {
    const establishmentId: string
    var view: ViewMode
    var currentDate: Instant
    var appointments: seq<Appointment>

    constructor (est: string, now: Instant)
      ensures establishmentId == est && view == DayMode && currentDate == now && appointments == []
    {
      establishmentId := est;
      view, currentDate, appointments := DayMode, now, [];
    }

    /**
     * `fetchAppointments` against the store contents `rows`: computes the window (moving the
     * date in the day view) and, unless the query fails, replaces the list with the rows of
     * this establishment whose start lies in the window.
     */
    method FetchAppointments(rows: seq<Appointment>, queryFails: bool)
      modifies this`currentDate, this`appointments
      ensures currentDate == DateAfterFetch(view, old(currentDate))
      ensures queryFails ==> appointments == old(appointments)
      ensures !queryFails ==> (appointments ==
        Store.QueryByStart(rows, establishmentId, WindowOf(view, old(currentDate)).lo, WindowOf(view, old(currentDate)).hi))
    {
      var w := WindowOf(view, currentDate);
      currentDate := DateAfterFetch(view, currentDate);
      if !queryFails {
        appointments := Store.QueryByStart(rows, establishmentId, w.lo, w.hi);
      }
    }

    method HandlePrevious()
      modifies this`currentDate
      ensures currentDate == Step(view, old(currentDate), false)
    {
      currentDate := Step(view, currentDate, false);
    }

    method HandleNext()
      modifies this`currentDate
      ensures currentDate == Step(view, old(currentDate), true)
    {
      currentDate := Step(view, currentDate, true);
    }

    /** The "Hoje" button. */
    method GoToToday(now: Instant)
      modifies this`currentDate
      ensures currentDate == now
    {
      currentDate := now;
    }

    method SetView(v: ViewMode)
      modifies this`view
      ensures view == v
    {
      view := v;
    }

    /**
     * The day view's status change: the store update, then a refetch only if the update
     * succeeded. Returns the store contents after the update.
     */
    method ChangeStatus(rows: seq<Appointment>, id: string, s: Status, updateFails: bool, queryFails: bool)
      returns (rowsAfter: seq<Appointment>)
      modifies this`currentDate, this`appointments
      ensures rowsAfter == if updateFails then rows else Store.UpdateStatus(rows, id, s)
      ensures updateFails ==> currentDate == old(currentDate) && appointments == old(appointments)
      ensures !updateFails ==> currentDate == DateAfterFetch(view, old(currentDate))
      ensures !updateFails && !queryFails ==> (appointments ==
        Store.QueryByStart(rowsAfter, establishmentId, WindowOf(view, old(currentDate)).lo, WindowOf(view, old(currentDate)).hi))
      ensures !updateFails && queryFails ==> appointments == old(appointments)
    {
      if updateFails {
        rowsAfter := rows;
      } else {
        rowsAfter := Store.UpdateStatus(rows, id, s);
        FetchAppointments(rowsAfter, queryFails);
      }
    }

    /**
     * A burst of `n` realtime change events against unchanged store contents: each triggers
     * the same full refetch, and the result is that of a single one.
     */
    method RealtimeBurst(rows: seq<Appointment>, n: nat)
      requires n > 0
      modifies this`currentDate, this`appointments
      ensures currentDate == DateAfterFetch(view, old(currentDate))
      ensures appointments ==
        Store.QueryByStart(rows, establishmentId, WindowOf(view, old(currentDate)).lo, WindowOf(view, old(currentDate)).hi)
    {
      FetchAppointments(rows, false);
      var i := 1;
      while i < n
        invariant 1 <= i <= n
        invariant currentDate == DateAfterFetch(view, old(currentDate))
        invariant appointments ==
          Store.QueryByStart(rows, establishmentId, WindowOf(view, old(currentDate)).lo, WindowOf(view, old(currentDate)).hi)
      {
        RefetchSameWindow(view, old(currentDate));
        FetchAppointments(rows, false);
        i := i + 1;
      }
    }
  }
}
