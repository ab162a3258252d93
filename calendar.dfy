/**
 * Calendar arithmetic without time zones.
 *
 * An instant is a count of milliseconds since 1970-01-01 00:00 of the local wall clock;
 * a day is a count of days since 1970-01-01 (a Thursday). A civil date (year, month, day)
 * is obtained from a day number by stepping forward or backward one day at a time from
 * the epoch, which is what makes the month lemmas below provable by small inductions.
 */
module Calendar {

  const MsPerMinute: int := 60_000
  const MsPerHour: int := 3_600_000
  const MsPerDay: int := 86_400_000

  type Instant = int
  type DayNum = int

  // ---------------------------------------------------------------------------
  // Instants: the JavaScript Date getters and setters the views use
  // ---------------------------------------------------------------------------

  /** The day an instant falls on (Dafny's `/` floors for a positive divisor). */
  function DayOf(t: Instant): DayNum { t / MsPerDay }

  /** Milliseconds since local midnight. */
  function TimeOfDay(t: Instant): (r: int)
    ensures 0 <= r < MsPerDay
    ensures t == DayOf(t) * MsPerDay + r
  {
    t % MsPerDay
  }

  /** date-fns startOfDay. */
  function StartOfDay(t: Instant): (r: Instant)
    ensures r <= t < r + MsPerDay
    ensures DayOf(r) == DayOf(t)
  {
    DayOf(t) * MsPerDay
  }

  /** Midnight at the start of day `d`. */
  function DayStart(d: DayNum): Instant { d * MsPerDay }

  /** startOfDay is the instant's own day at 00:00:00.000. */
  lemma StartOfDayIsMidnight(t: Instant)
    ensures StartOfDay(t) == DayStart(DayOf(t))
    ensures TimeOfDay(StartOfDay(t)) == 0
  {
    DayDivMod(DayOf(t), 0);
  }

  /** The last millisecond of day `d` (23:59:59.999). */
  function DayEnd(d: DayNum): (r: Instant)
    ensures DayOf(r) == d && TimeOfDay(r) == MsPerDay - 1
  {
    d * MsPerDay + MsPerDay - 1
  }

  /** Date.getHours. */
  function Hours(t: Instant): (r: int)
    ensures 0 <= r < 24
  {
    TimeOfDay(t) / MsPerHour
  }

  /** Date.getMinutes. */
  function Minutes(t: Instant): (r: int)
    ensures 0 <= r < 60
  {
    (TimeOfDay(t) % MsPerHour) / MsPerMinute
  }

  /** Seconds and milliseconds, the part of an instant below the minute. */
  function SubMinute(t: Instant): (r: int)
    ensures 0 <= r < MsPerMinute
  {
    t % MsPerMinute
  }

  /** An instant written as a day and a time of day has exactly that day and time of day. */
  lemma DayDivMod(n: DayNum, tod: int)
    requires 0 <= tod < MsPerDay
    ensures DayOf(DayStart(n) + tod) == n && TimeOfDay(DayStart(n) + tod) == tod
  {
  }

  /** A decomposition `t == q * MsPerMinute + r` with `0 <= r < MsPerMinute` is the one `/` and `%` give. */
  lemma MinuteDivMod(t: int, q: int, r: int)
    requires t == q * MsPerMinute + r && 0 <= r < MsPerMinute
    ensures t / MsPerMinute == q && t % MsPerMinute == r
  {
  }

  /**
   * Reading an instant back from its parts: an instant written as day, hour, minute and
   * a sub-minute remainder has exactly those as its getters.
   */
  lemma Decompose(t: Instant, d: DayNum, h: int, m: int, s: int)
    requires 0 <= h < 24 && 0 <= m < 60 && 0 <= s < MsPerMinute
    requires t == d * MsPerDay + h * MsPerHour + m * MsPerMinute + s
    ensures DayOf(t) == d && Hours(t) == h && Minutes(t) == m && SubMinute(t) == s
    ensures TimeOfDay(t) == h * MsPerHour + m * MsPerMinute + s
  {
    var x := h * MsPerHour + m * MsPerMinute + s;
    assert 0 <= x < MsPerDay;
    assert TimeOfDay(t) == x;
    var y := m * MsPerMinute + s;
    assert x % MsPerHour == y;
    assert y / MsPerMinute == m;
    MinuteDivMod(t, d * 1440 + h * 60 + m, s);
  }

  /** `getHours() * 60 + getMinutes()`: whole minutes since local midnight. */
  function MinuteOfDay(t: Instant): (r: int)
    ensures 0 <= r < 24 * 60
    ensures DayStart(DayOf(t)) + r * MsPerMinute + SubMinute(t) == t
  {
    var tod := TimeOfDay(t);
    var rem := tod % MsPerHour;
    assert tod == Hours(t) * MsPerHour + rem;
    assert rem == Minutes(t) * MsPerMinute + rem % MsPerMinute;
    MinuteDivMod(t, DayOf(t) * 1440 + Hours(t) * 60 + Minutes(t), rem % MsPerMinute);
    Hours(t) * 60 + Minutes(t)
  }

  /** `Math.trunc(ms / 60000)`: whole minutes in a millisecond span, truncated toward zero. */
  function TruncMinutes(ms: int): (q: int)
    ensures ms >= 0 ==> 0 <= q * MsPerMinute <= ms < q * MsPerMinute + MsPerMinute
    ensures ms < 0 ==> q * MsPerMinute - MsPerMinute < ms <= q * MsPerMinute <= 0
  {
    if ms >= 0 then ms / MsPerMinute else -((-ms) / MsPerMinute)
  }

  /** date-fns differenceInMinutes: whole minutes from `b` to `a`, truncated toward zero. */
  function DifferenceInMinutes(a: Instant, b: Instant): int
  {
    TruncMinutes(a - b)
  }

  // ---------------------------------------------------------------------------
  // Civil dates
  // ---------------------------------------------------------------------------

  datatype Date = Date(year: int, month: int, day: int)

  predicate IsLeapYear(y: int) { y % 4 == 0 && (y % 100 != 0 || y % 400 == 0) }

  function DaysInMonth(y: int, m: int): (r: int)
    requires 1 <= m <= 12
    ensures 28 <= r <= 31
    ensures r == 29 <==> m == 2 && IsLeapYear(y)
    ensures r == 28 <==> m == 2 && !IsLeapYear(y)
    ensures r == 30 <==> m in {4, 6, 9, 11}
  {
    if m == 2 then (if IsLeapYear(y) then 29 else 28)
    else if m == 4 || m == 6 || m == 9 || m == 11 then 30
    else 31
  }

  predicate ValidDate(d: Date)
  {
    1 <= d.month <= 12 && 1 <= d.day <= DaysInMonth(d.year, d.month)
  }

  /** The civil date of the following day. */
  function NextDate(d: Date): (r: Date)
    requires ValidDate(d)
    ensures ValidDate(r)
  {
    if d.day < DaysInMonth(d.year, d.month) then d.(day := d.day + 1)
    else if d.month < 12 then Date(d.year, d.month + 1, 1)
    else Date(d.year + 1, 1, 1)
  }

  /** The civil date of the preceding day. */
  function PrevDate(d: Date): (r: Date)
    requires ValidDate(d)
    ensures ValidDate(r)
  {
    if d.day > 1 then d.(day := d.day - 1)
    else if d.month > 1 then Date(d.year, d.month - 1, DaysInMonth(d.year, d.month - 1))
    else Date(d.year - 1, 12, 31)
  }

  lemma NextPrevInverse(d: Date)
    requires ValidDate(d)
    ensures NextDate(PrevDate(d)) == d
    ensures PrevDate(NextDate(d)) == d
  {
  }

  const Epoch: Date := Date(1970, 1, 1)

  /** The civil date of day number `n`. */
  function CivilOf(n: DayNum): (r: Date)
    ensures ValidDate(r)
    decreases if n >= 0 then n else -n
  {
    if n == 0 then Epoch
    else if n > 0 then NextDate(CivilOf(n - 1))
    else PrevDate(CivilOf(n + 1))
  }

  function DayOfMonth(n: DayNum): int { CivilOf(n).day }
  function MonthOf(n: DayNum): int { CivilOf(n).month }
  function YearOf(n: DayNum): int { CivilOf(n).year }

  lemma CivilSucc(n: DayNum)
    ensures CivilOf(n + 1) == NextDate(CivilOf(n))
  {
    if n < 0 {
      NextPrevInverse(CivilOf(n + 1));
    }
  }

  lemma CivilPred(n: DayNum)
    ensures CivilOf(n - 1) == PrevDate(CivilOf(n))
  {
    CivilSucc(n - 1);
    NextPrevInverse(CivilOf(n - 1));
  }

  /** Moving forward `k` days inside one month only advances the day of the month. */
  lemma {:induction false} ForwardInMonth(n: DayNum, k: nat)
    requires CivilOf(n).day + k <= DaysInMonth(CivilOf(n).year, CivilOf(n).month)
    ensures CivilOf(n + k) == CivilOf(n).(day := CivilOf(n).day + k)
  {
    if k > 0 {
      ForwardInMonth(n, k - 1);
      CivilSucc(n + k - 1);
    }
  }

  /** Moving backward fewer days than the day of the month stays in that month. */
  lemma {:induction false} BackwardInMonth(n: DayNum, k: nat)
    requires k < CivilOf(n).day
    ensures CivilOf(n - k) == CivilOf(n).(day := CivilOf(n).day - k)
  {
    if k > 0 {
      BackwardInMonth(n, k - 1);
      CivilPred(n - k + 1);
    }
  }

  /** Day number of the first day of the month containing `n` (date-fns startOfMonth). */
  function FirstOfMonth(n: DayNum): (r: DayNum)
    ensures r <= n
    ensures CivilOf(r) == Date(YearOf(n), MonthOf(n), 1)
  {
    BackwardInMonth(n, DayOfMonth(n) - 1);
    n - (DayOfMonth(n) - 1)
  }

  /** Day number of the last day of the month containing `n` (date-fns endOfMonth). */
  function LastOfMonth(n: DayNum): (r: DayNum)
    ensures n <= r
    ensures CivilOf(r) == Date(YearOf(n), MonthOf(n), DaysInMonth(YearOf(n), MonthOf(n)))
    ensures r - FirstOfMonth(n) + 1 == DaysInMonth(YearOf(n), MonthOf(n))
  {
    var c := CivilOf(n);
    ForwardInMonth(n, DaysInMonth(c.year, c.month) - c.day);
    n + (DaysInMonth(c.year, c.month) - c.day)
  }

  /** The day after the last day of a month is the first day of the next month. */
  lemma AfterLastOfMonth(n: DayNum)
    ensures CivilOf(LastOfMonth(n) + 1) ==
      if MonthOf(n) < 12 then Date(YearOf(n), MonthOf(n) + 1, 1) else Date(YearOf(n) + 1, 1, 1)
  {
    CivilSucc(LastOfMonth(n));
  }

  /** The day before the first day of a month is the last day of the previous month. */
  lemma BeforeFirstOfMonth(n: DayNum)
    ensures CivilOf(FirstOfMonth(n) - 1) ==
      if MonthOf(n) > 1 then Date(YearOf(n), MonthOf(n) - 1, DaysInMonth(YearOf(n), MonthOf(n) - 1))
      else Date(YearOf(n) - 1, 12, 31)
  {
    CivilPred(FirstOfMonth(n));
  }

  /**
   * Within any 7 consecutive days no day of the month repeats: every month is at least
   * 28 days long, so going around a month boundary cannot come back to the same number.
   */
  lemma DistinctDayOfMonthInWeek(n: DayNum, i: int, j: int)
    requires 0 <= i < j < 7
    ensures DayOfMonth(n + i) != DayOfMonth(n + j)
  {
    var a := n + i;
    var k := j - i;
    var c := CivilOf(a);
    var dim := DaysInMonth(c.year, c.month);
    if c.day + k <= dim {
      ForwardInMonth(a, k);
    } else {
      var e := dim - c.day;
      ForwardInMonth(a, e);
      CivilSucc(a + e);
      var f := CivilOf(a + e + 1);
      assert f.day == 1;
      ForwardInMonth(a + e + 1, k - e - 1);
      assert a + e + 1 + (k - e - 1) == n + j;
    }
  }

  // ---------------------------------------------------------------------------
  // Weeks (Sunday first, date-fns weekStartsOn: 0)
  // ---------------------------------------------------------------------------

  /** Date.getDay: 0 is Sunday. Day 0 (1970-01-01) was a Thursday. */
  function Weekday(n: DayNum): (r: int)
    ensures 0 <= r < 7
  {
    (n + 4) % 7
  }

  /** date-fns startOfWeek with weekStartsOn 0: the Sunday on or before `n`. */
  function StartOfWeek(n: DayNum): (r: DayNum)
    ensures Weekday(r) == 0
    ensures r <= n < r + 7
  {
    n - Weekday(n)
  }

  /** date-fns endOfWeek with weekStartsOn 0: the Saturday on or after `n`. */
  function EndOfWeek(n: DayNum): (r: DayNum)
    ensures Weekday(r) == 6
    ensures n <= r < n + 7
    ensures r == StartOfWeek(n) + 6
  {
    StartOfWeek(n) + 6
  }

  /** Every day of a week has the same week start. */
  lemma SameWeek(n: DayNum, i: int)
    requires 0 <= i < 7
    ensures StartOfWeek(StartOfWeek(n) + i) == StartOfWeek(n)
  {
  }

  // ---------------------------------------------------------------------------
  // Months (date-fns addMonths: clamps the day to the length of the target month)
  // ---------------------------------------------------------------------------

  function Min(a: int, b: int): int { if a <= b then a else b }

  /** The civil date one month after `c`, with the day clamped. */
  function MonthAfter(c: Date): (r: Date)
    requires ValidDate(c)
    ensures ValidDate(r)
    ensures if c.month < 12 then r.year == c.year && r.month == c.month + 1 else r.year == c.year + 1 && r.month == 1
    ensures r.day <= c.day && (r.day == c.day || r.day == DaysInMonth(r.year, r.month))
    ensures r.day == c.day <==> c.day <= DaysInMonth(r.year, r.month)
  {
    var y := if c.month < 12 then c.year else c.year + 1;
    var m := if c.month < 12 then c.month + 1 else 1;
    Date(y, m, Min(c.day, DaysInMonth(y, m)))
  }

  /** The civil date one month before `c`, with the day clamped. */
  function MonthBefore(c: Date): (r: Date)
    requires ValidDate(c)
    ensures ValidDate(r)
    ensures if c.month > 1 then r.year == c.year && r.month == c.month - 1 else r.year == c.year - 1 && r.month == 12
    ensures r.day <= c.day && (r.day == c.day || r.day == DaysInMonth(r.year, r.month))
    ensures r.day == c.day <==> c.day <= DaysInMonth(r.year, r.month)
  {
    var y := if c.month > 1 then c.year else c.year - 1;
    var m := if c.month > 1 then c.month - 1 else 12;
    Date(y, m, Min(c.day, DaysInMonth(y, m)))
  }

  /** The day number one month after `n` (addMonths(date, 1) on day numbers). */
  function NextMonthDay(n: DayNum): (r: DayNum)
    ensures CivilOf(r) == MonthAfter(CivilOf(n))
  {
    var r := LastOfMonth(n) + MonthAfter(CivilOf(n)).day;
    NextMonthLands(n);
    r
  }

  lemma NextMonthLands(n: DayNum)
    ensures CivilOf(LastOfMonth(n) + MonthAfter(CivilOf(n)).day) == MonthAfter(CivilOf(n))
  {
    var first := LastOfMonth(n) + 1;
    var target := MonthAfter(CivilOf(n));
    AfterLastOfMonth(n);
    DayInMonth(first, target);
  }

  lemma PrevMonthFirst(n: DayNum)
    ensures CivilOf(FirstOfMonth(FirstOfMonth(n) - 1)) ==
      Date(MonthBefore(CivilOf(n)).year, MonthBefore(CivilOf(n)).month, 1)
  {
    BeforeFirstOfMonth(n);
  }

  /** The day number one month before `n` (subMonths(date, 1) on day numbers). */
  function PrevMonthDay(n: DayNum): (r: DayNum)
    ensures CivilOf(r) == MonthBefore(CivilOf(n))
  {
    var first := FirstOfMonth(FirstOfMonth(n) - 1);
    var target := MonthBefore(CivilOf(n));
    PrevMonthFirst(n);
    DayInMonth(first, target);
    first + (target.day - 1)
  }

  /** From the 1st of a month, the date `c` of that month is `c.day - 1` days later. */
  lemma DayInMonth(first: DayNum, c: Date)
    requires ValidDate(c) && CivilOf(first) == Date(c.year, c.month, 1)
    ensures CivilOf(first + (c.day - 1)) == c
  {
    ForwardInMonth(first, c.day - 1);
  }
}
