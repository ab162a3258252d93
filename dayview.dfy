/**
 * The day timeline (`DayView`): the hour guide lines, the placement of each appointment
 * on a vertical axis of two pixels per minute measured from the opening time, the
 * click-to-time resolution snapped down to a quarter hour, the status actions and the
 * label policy of an appointment block.
 */
module DayView {
  import opened Wrappers
  import opened Calendar
  import opened Clock
  import opened Domain
  import opened Sequences

  const PixelsPerMinute: int := 2

  /** The parsed opening and closing settings. The closing minutes are never read. */
  datatype Grid = Grid(openingHour: int, openingMinute: int, closingHour: int)

  function GridOf(openingTime: string, closingTime: string): (g: Grid)
    requires WellFormedTime(openingTime) && WellFormedTime(closingTime)
    ensures g.openingHour * 60 + g.openingMinute == MinutesOf(openingTime)
    ensures g.closingHour * 60 <= MinutesOf(closingTime) < g.closingHour * 60 + 60
    ensures 0 <= g.openingHour <= 23 && 0 <= g.openingMinute <= 59 && 0 <= g.closingHour <= 23
  {
    Grid(HourOf(openingTime), MinuteOf(openingTime), HourOf(closingTime))
  }

  predicate ValidGrid(g: Grid)
  {
    0 <= g.openingHour <= 23 && 0 <= g.openingMinute <= 59 && 0 <= g.closingHour <= 23
  }

  /** `startOfDayMinutes`: the minute of the day the timeline's pixel 0 stands for. */
  function StartOfDayMinutes(g: Grid): int { g.openingHour * 60 + g.openingMinute }

  /** `totalMinutes`. */
  function TotalMinutes(g: Grid): int { (g.closingHour - g.openingHour) * 60 }

  /** The height of the time grid in pixels. */
  function GridHeight(g: Grid): (r: int)
    ensures r == (g.closingHour - g.openingHour) * 120
  {
    TotalMinutes(g) * PixelsPerMinute
  }

  // ---------------------------------------------------------------------------
  // Hour guide lines
  // ---------------------------------------------------------------------------

  /**
   * `setMinutes(setHours(date, h), 0)`: hour `h` of the view day. Setting hours and minutes
   * keeps the seconds and milliseconds `date` carries.
   */
  function HourMarkAt(date: Instant, h: int): Instant
  {
    StartOfDay(date) + h * MsPerHour + SubMinute(date)
  }

  /** The `hours` loop: one mark per hour from the opening hour to the closing hour inclusive. */
  method HourMarks(g: Grid, date: Instant) returns (marks: seq<Instant>)
    ensures |marks| == if g.closingHour >= g.openingHour then g.closingHour - g.openingHour + 1 else 0
    ensures forall k :: 0 <= k < |marks| ==> marks[k] == HourMarkAt(date, g.openingHour + k)
  {
    marks := [];
    var i := g.openingHour;
    while i <= g.closingHour
      invariant g.openingHour <= i
      invariant i <= if g.closingHour >= g.openingHour then g.closingHour + 1 else g.openingHour
      invariant |marks| == i - g.openingHour
      invariant forall k :: 0 <= k < |marks| ==> marks[k] == HourMarkAt(date, g.openingHour + k)
    {
      marks := marks + [HourMarkAt(date, i)];
      i := i + 1;
    }
  }

  /** The vertical position of a guide line, from the hours and minutes of its instant. */
  function MarkTop(g: Grid, mark: Instant): int
  {
    (MinuteOfDay(mark) - StartOfDayMinutes(g)) * PixelsPerMinute
  }

  /** The label of a guide line, `format(hour, 'HH:mm')`. */
  function MarkLabel(mark: Instant): string
  {
    FormatHHmm(MinuteOfDay(mark))
  }

  /**
   * The mark of hour `h` lies `(h * 60 - startOfDayMinutes) * 2` pixels down and reads
   * "hh:00", for every hour of the day; below the last hour, the next mark is 120 pixels
   * further down.
   */
  lemma MarkPosition(g: Grid, date: Instant, h: int)
    requires 0 <= h <= 23
    ensures MarkTop(g, HourMarkAt(date, h)) == (h * 60 - StartOfDayMinutes(g)) * 2
    ensures h <= 22 ==> MarkTop(g, HourMarkAt(date, h + 1)) - MarkTop(g, HourMarkAt(date, h)) == 120
    ensures MinutesOf(MarkLabel(HourMarkAt(date, h))) == h * 60
  {
    Decompose(HourMarkAt(date, h), DayOf(date), h, 0, SubMinute(date));
    if h <= 22 {
      Decompose(HourMarkAt(date, h + 1), DayOf(date), h + 1, 0, SubMinute(date));
    }
  }

  /** When the shop opens on the hour, the first guide line is at pixel 0. */
  lemma FirstMarkAtZero(g: Grid, date: Instant)
    requires ValidGrid(g) && g.openingMinute == 0
    ensures MarkTop(g, HourMarkAt(date, g.openingHour)) == 0
  {
    Decompose(HourMarkAt(date, g.openingHour), DayOf(date), g.openingHour, 0, SubMinute(date));
  }

  // ---------------------------------------------------------------------------
  // Which appointments the day shows, and where
  // ---------------------------------------------------------------------------

  /**
   * `isBefore(startOfDay(appDate), addMinutes(startOfDay(date), 24 * 60)) &&
   *  isAfter(appDate, startOfDay(date))`.
   */
  predicate ShownOn(date: Instant, a: Appointment)
  {
    StartOfDay(a.start) < StartOfDay(date) + 24 * 60 * MsPerMinute && a.start > StartOfDay(date)
  }

  /** An appointment is shown exactly when it starts on the view day, but not at its midnight. */
  lemma ShownOnIff(date: Instant, a: Appointment)
    ensures ShownOn(date, a) <==> DayOf(a.start) == DayOf(date) && a.start != StartOfDay(date)
  {
    var d, e := DayOf(date), DayOf(a.start);
    assert StartOfDay(a.start) == e * MsPerDay && StartOfDay(date) == d * MsPerDay;
    if ShownOn(date, a) {
      assert e * MsPerDay < d * MsPerDay + MsPerDay;
      assert e < d + 1;
      assert a.start < e * MsPerDay + MsPerDay;
      assert d * MsPerDay < e * MsPerDay + MsPerDay;
      assert d < e + 1;
    }
  }

  /** An appointment with its pixel position and extent. */
  datatype Placed = Placed(app: Appointment, top: int, height: int, duration: int)

  /** The placement of one appointment on the grid. */
  function Place(g: Grid, a: Appointment): (p: Placed)
    ensures p.app == a
    ensures p.duration == DifferenceInMinutes(a.end, a.start)
    ensures p.top == (MinuteOfDay(a.start) - StartOfDayMinutes(g)) * 2
    ensures p.height == p.duration * 2
  {
    var startMinutes := Hours(a.start) * 60 + Minutes(a.start);
    var duration := DifferenceInMinutes(a.end, a.start);
    Placed(a, (startMinutes - StartOfDayMinutes(g)) * PixelsPerMinute, duration * PixelsPerMinute, duration)
  }

  /** `ShownOn` as the test handed to a filter. */
  function ShownTest(date: Instant): Appointment -> bool
  {
    a => ShownOn(date, a)
  }

  /** `Place` on the grid as the callback handed to a map. */
  function PlaceOn(g: Grid): Appointment -> Placed
  {
    a => Place(g, a)
  }

  /**
   * `dayAppointments`: `filter` by the view day, then `map` to the placement. One placement
   * per shown position of the list, in list order; nothing else.
   */
  function DayAppointments(g: Grid, date: Instant, apps: seq<Appointment>): (r: seq<Placed>)
    ensures |r| <= |apps|
    ensures |r| == |set i | 0 <= i < |apps| && ShownOn(date, apps[i])|
    ensures MappedInOrder(ShownTest(date), PlaceOn(g), apps, r)
    ensures forall p :: p in r ==> p.app in apps && ShownOn(date, p.app) && p == Place(g, p.app)
    ensures forall a :: a in apps && ShownOn(date, a) ==> Place(g, a) in r
  {
    FilterCount(ShownTest(date), apps);
    assert Passing(ShownTest(date), apps) == set i | 0 <= i < |apps| && ShownOn(date, apps[i]);
    FilterMapInOrder(ShownTest(date), PlaceOn(g), apps);
    FilterMapMembers(ShownTest(date), PlaceOn(g), apps);
    FilterMap(ShownTest(date), PlaceOn(g), apps)
  }

  /**
   * Placement round trip: half the top offset added to the opening minute gives back the
   * start minute; an appointment on the view day that starts on a whole minute is
   * recovered exactly, and it sits above pixel 0 exactly when it starts before opening.
   */
  lemma PlacementRoundTrip(g: Grid, date: Instant, a: Appointment)
    requires ShownOn(date, a)
    ensures StartOfDayMinutes(g) + Place(g, a).top / 2 == MinuteOfDay(a.start)
    ensures SubMinute(a.start) == 0 ==>
      StartOfDay(date) + (StartOfDayMinutes(g) + Place(g, a).top / 2) * MsPerMinute == a.start
    ensures Place(g, a).top < 0 <==> MinuteOfDay(a.start) < StartOfDayMinutes(g)
  {
    ShownOnIff(date, a);
  }

  // ---------------------------------------------------------------------------
  // Clicking the background
  // ---------------------------------------------------------------------------

  /** `addMinutes(setMinutes(setHours(date, openingHour), openingMinute), y / 2)`. */
  function RawClickTime(g: Grid, date: Instant, y: int): Instant
  {
    StartOfDay(date) + g.openingHour * MsPerHour + g.openingMinute * MsPerMinute + SubMinute(date)
      + (y / PixelsPerMinute) * MsPerMinute
  }

  /** `addMinutes(t, -(t.getMinutes() % 15))`. */
  function SnapDown(t: Instant): (r: Instant)
    ensures Minutes(r) % 15 == 0
    ensures r <= t < r + 15 * MsPerMinute
    ensures SubMinute(r) == SubMinute(t)
    ensures Minutes(t) % 15 == 0 ==> r == t
  {
    var rem := Minutes(t) % 15;
    Decompose(t, DayOf(t), Hours(t), Minutes(t), SubMinute(t));
    Decompose(t - rem * MsPerMinute, DayOf(t), Hours(t), Minutes(t) - rem, SubMinute(t));
    t - rem * MsPerMinute
  }

  /**
   * `handleBackgroundClick` as written: the time handed to the booking request for a click
   * `y` pixels below the top of the grid. It keeps the seconds and milliseconds of `date`.
   */
  function ClickTimeAsWritten(g: Grid, date: Instant, y: int): Instant
  {
    SnapDown(RawClickTime(g, date, y))
  }

  /** The snapped time keeps whatever seconds and milliseconds the view date has. */
  lemma ClickKeepsSubMinute(g: Grid, date: Instant, y: int)
    requires ValidGrid(g)
    ensures SubMinute(ClickTimeAsWritten(g, date, y)) == SubMinute(date)
  {
    var t := RawClickTime(g, date, y);
    var q := DayOf(date) * 1440 + g.openingHour * 60 + g.openingMinute + y / 2;
    assert t == q * MsPerMinute + SubMinute(date);
    MinuteDivMod(t, q, SubMinute(date));
  }

  /**
   * After the day window has been fetched the view date is 23:59:59.999, so a click at the
   * top of a grid that opens at 08:00 proposes 08:00:59.999 rather than 08:00.
   */
  lemma ClickAfterDayFetch(d: DayNum)
    ensures ClickTimeAsWritten(Grid(8, 0, 20), DayEnd(d), 0) == DayStart(d) + 8 * MsPerHour + 59_999
    ensures ClickTimeAsWritten(Grid(8, 0, 20), DayEnd(d), 0) != ClickTime(Grid(8, 0, 20), DayEnd(d), 0)
  {
    var t := DayEnd(d);
    assert DayOf(t) == d;
    MinuteDivMod(t, d * 1440 + 1439, 59_999);
    var raw := RawClickTime(Grid(8, 0, 20), t, 0);
    assert raw == DayStart(d) + 8 * MsPerHour + 59_999;
    Decompose(raw, d, 8, 0, 59_999);
    Decompose(DayStart(d) + 8 * MsPerHour, d, 8, 0, 0);
  }

  /** The click resolution with the view date taken at midnight: whole minutes only. */
  function ClickTime(g: Grid, date: Instant, y: int): Instant
  {
    SnapDown(RawClickTime(g, StartOfDay(date), y))
  }

  /**
   * A click resolves to a whole minute that is a multiple of 15, never after the clicked
   * time and less than 15 minutes before it.
   */
  lemma ClickSnaps(g: Grid, date: Instant, y: int)
    requires ValidGrid(g)
    ensures Minutes(ClickTime(g, date, y)) % 15 == 0
    ensures SubMinute(ClickTime(g, date, y)) == 0
    ensures ClickTime(g, date, y) <= StartOfDay(date) + (StartOfDayMinutes(g) + y / 2) * MsPerMinute
    ensures StartOfDay(date) + (StartOfDayMinutes(g) + y / 2) * MsPerMinute < ClickTime(g, date, y) + 15 * MsPerMinute
  {
    var t := RawClickTime(g, StartOfDay(date), y);
    var q := DayOf(date) * 1440 + g.openingHour * 60 + g.openingMinute + y / 2;
    assert StartOfDay(StartOfDay(date)) == StartOfDay(date);
    assert t == q * MsPerMinute;
    MinuteDivMod(t, q, 0);
  }

  /** Clicking at the top of an appointment that starts on a quarter hour proposes its start. */
  lemma ClickAtAppointmentTop(g: Grid, date: Instant, a: Appointment)
    requires ValidGrid(g) && ShownOn(date, a)
    requires SubMinute(a.start) == 0 && Minutes(a.start) % 15 == 0
    ensures ClickTime(g, date, Place(g, a).top) == a.start
  {
    var top := Place(g, a).top;
    var m := top / 2;
    assert StartOfDay(date) + (StartOfDayMinutes(g) + m) * MsPerMinute == a.start by {
      PlacementRoundTrip(g, date, a);
    }
    var d := StartOfDay(date);
    assert StartOfDay(d) == d && SubMinute(d) == 0 by {
      assert d == DayOf(date) * MsPerDay;
      assert d == (DayOf(date) * 1440) * MsPerMinute;
    }
    calc {
      RawClickTime(g, d, top);
      d + g.openingHour * MsPerHour + g.openingMinute * MsPerMinute + m * MsPerMinute;
      { assert g.openingHour * MsPerHour == g.openingHour * 60 * MsPerMinute; }
      d + (StartOfDayMinutes(g) + m) * MsPerMinute;
      a.start;
    }
  }

  // ---------------------------------------------------------------------------
  // Clicking an appointment, and its label
  // ---------------------------------------------------------------------------

  /**
   * The status change a click on an appointment requests. Only an `agendado` appointment
   * reacts: the first confirmation completes it, else the second cancels it.
   */
  function StatusClick(s: Status, confirmComplete: bool, confirmCancel: bool): (r: Option<Status>)
    ensures r != None ==> s == Agendado
    ensures r == Some(Concluido) <==> s == Agendado && confirmComplete
    ensures r == Some(Cancelado) <==> s == Agendado && !confirmComplete && confirmCancel
    ensures r == None || r == Some(Concluido) || r == Some(Cancelado)
  {
    if s == Agendado then
      if confirmComplete then Some(Concluido)
      else if confirmCancel then Some(Cancelado)
      else None
    else None
  }

  /** The second line of a block: absent, empty (for a hold), or service and time range. */
  datatype SecondLine = NoLine | EmptyLine | ServiceLine(serviceName: Option<string>, from: string, to: string)

  datatype Label = Label(title: string, second: SecondLine)

  /** The text of an appointment block. */
  function BlockLabel(p: Placed): (l: Label)
    ensures p.app.status == Bloqueio ==> l.title == "Bloqueado"
    ensures l.second == NoLine <==> p.height <= 30
    ensures p.app.status == Bloqueio && p.height > 30 ==> l.second == EmptyLine
  {
    var title :=
      if p.app.status == Bloqueio then "Bloqueado"
      else if p.app.clientName.Some? && p.app.clientName.value != "" then p.app.clientName.value
      else "Cliente sem nome";
    var second :=
      if p.height <= 30 then NoLine
      else if p.app.status == Bloqueio then EmptyLine
      else ServiceLine(if p.app.service.Some? then Some(p.app.service.value.name) else None,
                       FormatHHmm(MinuteOfDay(p.app.start)), FormatHHmm(MinuteOfDay(p.app.end)));
    Label(title, second)
  }

  /** The second line shows exactly for appointments longer than 15 minutes. */
  lemma SecondLineIffLong(g: Grid, a: Appointment)
    ensures BlockLabel(Place(g, a)).second != NoLine <==> DifferenceInMinutes(a.end, a.start) > 15
  {
  }
}
