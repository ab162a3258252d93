/**
 * The dashboard's "today" page: the weekly aggregation loop (earnings, today's list and
 * count, the next client), the hourly timeline with its lunch row and its
 * "more than one appointment this hour" warning, and the booking dialog whose insert is
 * checked by the store's exclusion constraint.
 */
module Dashboard {
  import opened Wrappers
  import opened Calendar
  import opened Clock
  import opened Domain
  import Store
  import opened Sequences

  // ---------------------------------------------------------------------------
  // Schedule settings
  // ---------------------------------------------------------------------------

  datatype ScheduleSettings = ScheduleSettings(openingTime: string, closingTime: string, lunchStart: string, lunchEnd: string)

  const DefaultSettings: ScheduleSettings := ScheduleSettings("08:00", "20:00", "12:00", "13:00")

  /** `a || dflt` on an optional string. */
  function OrDefault(s: Option<string>, dflt: string): (r: string)
    ensures Truthy(s) ==> r == s.value
    ensures !Truthy(s) ==> r == dflt
  {
    if Truthy(s) then s.value else dflt
  }

  /**
   * The settings the page uses: the establishment's own, each missing one defaulted, but
   * only when it has an opening time; otherwise all four defaults.
   */
  function SettingsOf(est: Option<Establishment>): (r: ScheduleSettings)
    ensures est.None? || !Truthy(est.value.openingTime) ==> r == DefaultSettings
    ensures est.Some? && Truthy(est.value.openingTime) ==>
      r.openingTime == est.value.openingTime.value &&
      r.closingTime == OrDefault(est.value.closingTime, "20:00") &&
      r.lunchStart == OrDefault(est.value.lunchStart, "12:00") &&
      r.lunchEnd == OrDefault(est.value.lunchEnd, "13:00")
  {
    if est.Some? && Truthy(est.value.openingTime) then
      ScheduleSettings(est.value.openingTime.value,
                       OrDefault(est.value.closingTime, "20:00"),
                       OrDefault(est.value.lunchStart, "12:00"),
                       OrDefault(est.value.lunchEnd, "13:00"))
    else DefaultSettings
  }

  // ---------------------------------------------------------------------------
  // The aggregation loop of fetchDashboardData
  // ---------------------------------------------------------------------------

  /** What concluded appointments earn: the sum of their service prices. */
  function EarningsOf(s: seq<Appointment>): int
  {
    if s == [] then 0
    else
      var a := s[|s| - 1];
      EarningsOf(s[..|s| - 1]) + (if a.status == Concluido && a.service.Some? then a.service.value.priceCents else 0)
  }

  /** A concluded appointment without its joined service: reading its price throws. */
  predicate MissingPrice(s: seq<Appointment>)
  {
    exists j :: 0 <= j < |s| && s[j].status == Concluido && s[j].service.None?
  }

  /** `isSameDay(appDate, today) && app.status !== 'cancelado'`. */
  predicate CountsToday(a: Appointment, now: Instant)
  {
    DayOf(a.start) == DayOf(now) && a.status != Cancelado
  }

  /** `CountsToday` as the test handed to a filter. */
  function TodayTest(now: Instant): Appointment -> bool
  {
    a => CountsToday(a, now)
  }

  /** Today's non-cancelled appointments, in list order, as the loop pushes them. */
  function TodayOf(s: seq<Appointment>, now: Instant): (r: seq<Appointment>)
    ensures |r| <= |s|
  {
    Filter(TodayTest(now), s)
  }

  /** `app.status === 'agendado' && appDate > today`. */
  predicate FutureScheduled(a: Appointment, now: Instant)
  {
    a.status == Agendado && a.start > now
  }

  /**
   * Index `k` holds the earliest future scheduled appointment of `s`, and no earlier index
   * holds one starting at the same time.
   */
  predicate EarliestFirstAt(s: seq<Appointment>, now: Instant, k: int)
  {
    0 <= k < |s| && FutureScheduled(s[k], now) &&
    (forall j :: 0 <= j < |s| && FutureScheduled(s[j], now) ==> s[k].start <= s[j].start) &&
    (forall j :: 0 <= j < k && FutureScheduled(s[j], now) ==> s[k].start < s[j].start)
  }

  /** `nextClient` is absent iff nothing is scheduled in the future, else the first earliest one. */
  predicate IsNextClient(s: seq<Appointment>, now: Instant, next: Option<Appointment>)
  {
    (next.None? <==> forall j :: 0 <= j < |s| ==> !FutureScheduled(s[j], now)) &&
    (next.Some? ==> exists k :: 0 <= k < |s| && EarliestFirstAt(s, now, k) && s[k] == next.value)
  }

  predicate SortedByStart(s: seq<Appointment>)
  {
    forall i, j :: 0 <= i < j < |s| ==> s[i].start <= s[j].start
  }

  lemma SortedCons(a: Appointment, s: seq<Appointment>)
    requires SortedByStart(s) && (s != [] ==> a.start <= s[0].start)
    ensures SortedByStart([a] + s)
  {
    var r := [a] + s;
    forall i, j | 0 <= i < j < |r| ensures r[i].start <= r[j].start {
      if i == 0 {
        assert r[j] == s[j - 1];
      } else {
        assert r[i] == s[i - 1] && r[j] == s[j - 1];
      }
    }
  }

  /** Inserting after every element that starts no later, so equal starts keep their order. */
  function InsertByStart(x: Appointment, s: seq<Appointment>): (r: seq<Appointment>)
    requires SortedByStart(s)
    ensures SortedByStart(r)
    ensures multiset(r) == multiset(s) + multiset{x}
    ensures |r| == |s| + 1
    ensures r != [] && (r[0] == x || (s != [] && r[0] == s[0]))
  {
    if s == [] then [x]
    else if x.start < s[0].start then
      SortedCons(x, s);
      [x] + s
    else
      var rest := InsertByStart(x, s[1..]);
      InsertAfterHead(x, s, rest);
      [s[0]] + rest
  }

  /** Putting the head back in front of the insertion into the tail. */
  lemma InsertAfterHead(x: Appointment, s: seq<Appointment>, rest: seq<Appointment>)
    requires SortedByStart(s) && s != [] && s[0].start <= x.start
    requires SortedByStart(rest) && multiset(rest) == multiset(s[1..]) + multiset{x}
    requires rest != [] && (rest[0] == x || (|s| > 1 && rest[0] == s[1]))
    ensures SortedByStart([s[0]] + rest)
    ensures multiset([s[0]] + rest) == multiset(s) + multiset{x}
  {
    assert s == [s[0]] + s[1..];
    SortedCons(s[0], rest);
  }

  /** `sort((a, b) => start(a) - start(b))`: a stable sort by start. */
  function SortByStart(s: seq<Appointment>): (r: seq<Appointment>)
    ensures SortedByStart(r)
    ensures multiset(r) == multiset(s)
    ensures |r| == |s|
  {
    if s == [] then []
    else
      assert s == s[..|s| - 1] + [s[|s| - 1]];
      InsertByStart(s[|s| - 1], SortByStart(s[..|s| - 1]))
  }

  /** The test "starts at `t`", handed to a filter to pick the appointments that tie at `t`. */
  function StartsAt(t: Instant): Appointment -> bool
  {
    (a: Appointment) => a.start == t
  }

  /** Inserting keeps the appointments tying at any start in their order, the new one last. */
  lemma {:induction false} InsertKeepsTies(x: Appointment, s: seq<Appointment>, t: Instant)
    requires SortedByStart(s)
    ensures Filter(StartsAt(t), InsertByStart(x, s)) == Filter(StartsAt(t), s) + Filter(StartsAt(t), [x])
    decreases |s|
  {
    if s == [] {
      assert InsertByStart(x, s) == [x];
    } else if x.start < s[0].start {
      assert InsertByStart(x, s) == [x] + s;
      TiesInFront(x, s, t);
    } else {
      var rest := InsertByStart(x, s[1..]);
      assert InsertByStart(x, s) == [s[0]] + rest;
      InsertKeepsTies(x, s[1..], t);
      TiesAfterHead(s, rest, Filter(StartsAt(t), [x]), t);
    }
  }

  /** Put in front of a sorted list starting later, the new appointment ties with none of it. */
  lemma TiesInFront(x: Appointment, s: seq<Appointment>, t: Instant)
    requires SortedByStart(s) && s != [] && x.start < s[0].start
    ensures Filter(StartsAt(t), [x] + s) == Filter(StartsAt(t), s) + Filter(StartsAt(t), [x])
  {
    var p := StartsAt(t);
    FilterOne(p, x);
    FilterAppend(p, [x], s);
    if x.start == t {
      assert forall i :: 0 <= i < |s| ==> !p(s[i]) by {
        forall i | 0 <= i < |s| ensures s[i].start > t {
          if i > 0 { assert s[0].start <= s[i].start; }
        }
      }
      FilterNone(p, s);
    }
  }

  /** The head stays in front of the insertion into the tail. */
  lemma TiesAfterHead(s: seq<Appointment>, rest: seq<Appointment>, tail: seq<Appointment>, t: Instant)
    requires s != []
    requires Filter(StartsAt(t), rest) == Filter(StartsAt(t), s[1..]) + tail
    ensures Filter(StartsAt(t), [s[0]] + rest) == Filter(StartsAt(t), s) + tail
  {
    var p := StartsAt(t);
    var head := Filter(p, [s[0]]);
    calc {
      Filter(p, [s[0]] + rest);
      { FilterAppend(p, [s[0]], rest); }
      head + Filter(p, rest);
      head + (Filter(p, s[1..]) + tail);
      (head + Filter(p, s[1..])) + tail;
      { FilterAppend(p, [s[0]], s[1..]); assert [s[0]] + s[1..] == s; }
      Filter(p, s) + tail;
    }
  }

  /** The sort is stable: the appointments tying at any start keep the order of the input. */
  lemma {:induction false} SortByStartStable(s: seq<Appointment>, t: Instant)
    ensures Filter(StartsAt(t), SortByStart(s)) == Filter(StartsAt(t), s)
  {
    if s != [] {
      var init, last := s[..|s| - 1], s[|s| - 1];
      var p, sorted := StartsAt(t), SortByStart(init);
      calc {
        Filter(p, SortByStart(s));
        Filter(p, InsertByStart(last, sorted));
        { InsertKeepsTies(last, sorted, t); }
        Filter(p, sorted) + Filter(p, [last]);
        { SortByStartStable(init, t); }
        Filter(p, init) + Filter(p, [last]);
        { FilterAppend(p, init, [last]); }
        Filter(p, init + [last]);
        { assert init + [last] == s; }
        Filter(p, s);
      }
    }
  }

  datatype Stats = Stats(weeklyEarnings: int, todayAppointments: int, nextClient: Option<Appointment>)

  datatype Summary = Summary(stats: Stats, today: seq<Appointment>)

  /**
   * The `forEach` over the week's appointments with its accumulators, then the sort.
   * A concluded appointment without a joined service makes the loop throw.
   */
  method Aggregate(weekData: seq<Appointment>, now: Instant) returns (r: Result<Summary, string>)
    ensures r.Err? <==> MissingPrice(weekData)
    ensures r.Ok? ==> r.value.stats.weeklyEarnings == EarningsOf(weekData)
    ensures r.Ok? ==> r.value.stats.todayAppointments == |TodayOf(weekData, now)|
    ensures r.Ok? ==> r.value.stats.todayAppointments == |set j | 0 <= j < |weekData| && CountsToday(weekData[j], now)|
    ensures r.Ok? ==> r.value.today == SortByStart(TodayOf(weekData, now))
    ensures r.Ok? ==> IsNextClient(weekData, now, r.value.stats.nextClient)
  {
    var earnings := 0;
    var todayCount := 0;
    var next: Option<Appointment> := None;
    var closest: Option<int> := None;   // `closestTime`, None standing for Infinity
    var list: seq<Appointment> := [];
    ghost var k := 0;
    var i := 0;
    while i < |weekData|
      invariant 0 <= i <= |weekData|
      invariant !MissingPrice(weekData[..i])
      invariant earnings == EarningsOf(weekData[..i])
      invariant list == TodayOf(weekData[..i], now)
      invariant todayCount == |list|
      invariant next.None? <==> closest.None?
      invariant next.None? <==> forall j :: 0 <= j < i ==> !FutureScheduled(weekData[j], now)
      invariant next.Some? ==> EarliestFirstAt(weekData[..i], now, k) && weekData[k] == next.value
      invariant next.Some? ==> closest.value == next.value.start - now
    {
      var app := weekData[i];
      PrefixStep(weekData, i, now);
      if app.status == Concluido {
        if app.service.None? {
          r := Err("Erro ao carregar dados do dashboard");
          return;
        }
        earnings := earnings + app.service.value.priceCents;
      }
      if DayOf(app.start) == DayOf(now) && app.status != Cancelado {
        todayCount := todayCount + 1;
        list := list + [app];
      }
      if app.status == Agendado && app.start > now {
        var diff := app.start - now;
        if closest.None? || diff < closest.value {
          EarliestFromHere(weekData, now, i, k);
          closest := Some(diff);
          next := Some(app);
          k := i;
        } else {
          EarliestStays(weekData, now, i, k);
        }
      } else if next.Some? {
        EarliestStays(weekData, now, i, k);
      }
      i := i + 1;
    }
    assert weekData[..i] == weekData;
    assert todayCount == |set j | 0 <= j < |weekData| && CountsToday(weekData[j], now)| by {
      TodayOfCount(weekData, now);
    }
    r := Ok(Summary(Stats(earnings, todayCount, next), SortByStart(list)));
  }

  /** One more element of the prefix: its price, its place in today's list, its missing service. */
  lemma PrefixStep(s: seq<Appointment>, i: int, now: Instant)
    requires 0 <= i < |s|
    ensures var a := s[i];
      EarningsOf(s[..i + 1]) == EarningsOf(s[..i]) + (if a.status == Concluido && a.service.Some? then a.service.value.priceCents else 0)
    ensures TodayOf(s[..i + 1], now) == TodayOf(s[..i], now) + (if CountsToday(s[i], now) then [s[i]] else [])
    ensures MissingPrice(s[..i + 1]) <==> MissingPrice(s[..i]) || (s[i].status == Concluido && s[i].service.None?)
  {
    assert s[..i + 1][..i] == s[..i];
    assert s[..i + 1][i] == s[i];
    if MissingPrice(s[..i + 1]) && !(s[i].status == Concluido && s[i].service.None?) {
      var j :| 0 <= j < i + 1 && s[..i + 1][j].status == Concluido && s[..i + 1][j].service.None?;
      assert s[..i][j] == s[j];
    }
  }

  /** A future appointment strictly earlier than every one before it becomes the earliest. */
  lemma EarliestFromHere(s: seq<Appointment>, now: Instant, i: int, k: int)
    requires 0 <= i < |s| && FutureScheduled(s[i], now)
    requires (forall j :: 0 <= j < i ==> !FutureScheduled(s[j], now)) ||
             (EarliestFirstAt(s[..i], now, k) && s[i].start < s[k].start)
    ensures EarliestFirstAt(s[..i + 1], now, i)
  {
    var t := s[..i + 1];
    forall j | 0 <= j < |t| && FutureScheduled(t[j], now) ensures t[i].start <= t[j].start {
      if j < i {
        assert s[..i][j] == s[j];
      }
    }
    forall j | 0 <= j < i && FutureScheduled(t[j], now) ensures t[i].start < t[j].start {
      assert s[..i][j] == s[j];
    }
  }

  /** One that is not earlier than the earliest so far leaves it in place. */
  lemma EarliestStays(s: seq<Appointment>, now: Instant, i: int, k: int)
    requires 0 <= i < |s| && EarliestFirstAt(s[..i], now, k)
    requires !FutureScheduled(s[i], now) || s[k].start <= s[i].start
    ensures EarliestFirstAt(s[..i + 1], now, k)
  {
    var t := s[..i + 1];
    assert t[k] == s[..i][k];
    forall j | 0 <= j < |t| && FutureScheduled(t[j], now) ensures t[k].start <= t[j].start {
      if j < i {
        assert s[..i][j] == s[j];
      }
    }
    forall j | 0 <= j < k && FutureScheduled(t[j], now) ensures t[k].start < t[j].start {
      assert s[..i][j] == s[j];
    }
  }

  /** The earnings of two lists together are the sum of their earnings. */
  lemma {:induction false} EarningsAdditive(s: seq<Appointment>, t: seq<Appointment>)
    ensures EarningsOf(s + t) == EarningsOf(s) + EarningsOf(t)
    decreases |t|
  {
    if t == [] {
      assert s + t == s;
    } else {
      assert (s + t)[..|s + t| - 1] == s + t[..|t| - 1];
      EarningsAdditive(s, t[..|t| - 1]);
    }
  }

  /** An appointment that is not concluded earns nothing. */
  lemma EarningsOfOne(a: Appointment)
    ensures EarningsOf([a]) == if a.status == Concluido && a.service.Some? then a.service.value.priceCents else 0
  {
    assert [a][..0] == [];
  }

  /** Only concluded appointments earn: appending appointments none of which is concluded leaves the sum alone. */
  lemma {:induction false} EarningsOnlyConcluded(s: seq<Appointment>, t: seq<Appointment>)
    requires forall j :: 0 <= j < |t| ==> t[j].status != Concluido
    ensures EarningsOf(s + t) == EarningsOf(s)
    decreases |t|
  {
    if t == [] {
      assert s + t == s;
    } else {
      assert (s + t)[..|s + t| - 1] == s + t[..|t| - 1];
      EarningsOnlyConcluded(s, t[..|t| - 1]);
    }
  }

  /**
   * The today list holds exactly today's non-cancelled appointments, each as often as the
   * week lists it, in the week's order.
   */
  lemma TodayOfMembers(s: seq<Appointment>, now: Instant)
    ensures forall a :: a in TodayOf(s, now) <==> a in s && CountsToday(a, now)
    ensures forall a :: multiset(TodayOf(s, now))[a] == if CountsToday(a, now) then multiset(s)[a] else 0
    ensures FilteredInOrder(TodayTest(now), s, TodayOf(s, now))
  {
    FilterMembers(TodayTest(now), s);
    FilterMultiset(TodayTest(now), s);
    FilterInOrder(TodayTest(now), s);
  }

  /** `todayCount` counts the positions of the week holding one of today's non-cancelled appointments. */
  lemma TodayOfCount(s: seq<Appointment>, now: Instant)
    ensures |TodayOf(s, now)| == |set j | 0 <= j < |s| && CountsToday(s[j], now)|
  {
    FilterCount(TodayTest(now), s);
    assert Passing(TodayTest(now), s) == set j | 0 <= j < |s| && CountsToday(s[j], now);
  }

  predicate IsConcluded(a: Appointment)
  {
    a.status == Concluido
  }

  /** The concluded appointments of `s`, each as often as `s` lists it, in order. */
  function Concluded(s: seq<Appointment>): (r: seq<Appointment>)
    ensures |r| <= |s|
    ensures forall a :: a in r <==> a in s && a.status == Concluido
    ensures forall a :: multiset(r)[a] == if a.status == Concluido then multiset(s)[a] else 0
    ensures FilteredInOrder(IsConcluded, s, r)
  {
    FilterMembers(IsConcluded, s);
    FilterMultiset(IsConcluded, s);
    FilterInOrder(IsConcluded, s);
    Filter(IsConcluded, s)
  }

  /** "Histórico Recente": `filter(a => a.status === 'concluido').slice(0, 5)` of the today list. */
  function RecentHistory(today: seq<Appointment>): (r: seq<Appointment>)
    ensures |r| == Min(5, |Concluded(today)|)
    ensures r == Concluded(today)[..|r|]
    ensures forall a :: a in r ==> a in today && a.status == Concluido
  {
    var c := Concluded(today);
    if |c| <= 5 then c else c[..5]
  }

  // ---------------------------------------------------------------------------
  // The hourly timeline
  // ---------------------------------------------------------------------------

  /** The `timeSlots` loop: hour `i` of the day for every `i` from the start hour to the end hour. */
  method TimeSlots(today: Instant, startHour: int, endHour: int) returns (slots: seq<Instant>)
    ensures |slots| == if endHour >= startHour then endHour - startHour + 1 else 0
    ensures forall k :: 0 <= k < |slots| ==> slots[k] == StartOfDay(today) + (startHour + k) * MsPerHour
  {
    slots := [];
    var i := startHour;
    while i <= endHour
      invariant startHour <= i <= if endHour >= startHour then endHour + 1 else startHour
      invariant |slots| == i - startHour
      invariant forall k :: 0 <= k < |slots| ==> slots[k] == StartOfDay(today) + (startHour + k) * MsPerHour
    {
      slots := slots + [StartOfDay(today) + i * MsPerHour];
      i := i + 1;
    }
  }

  /** `setMinutes(setHours(slot, slot.getHours() + 1), 0)`. */
  function SlotEnd(slot: Instant): Instant
  {
    StartOfDay(slot) + (Hours(slot) + 1) * MsPerHour + SubMinute(slot)
  }

  /** A slot on the hour ends one hour later, also at 23:00 where the end is the next midnight. */
  lemma SlotEndIsOneHourLater(d: DayNum, h: int)
    requires 0 <= h <= 23
    ensures SlotEnd(DayStart(d) + h * MsPerHour) == DayStart(d) + h * MsPerHour + MsPerHour
  {
    Decompose(DayStart(d) + h * MsPerHour, d, h, 0, 0);
  }

  predicate InSlot(a: Appointment, slot: Instant)
  {
    slot <= a.start < SlotEnd(slot) && a.status != Cancelado
  }

  /** `InSlot` as the test handed to a filter. */
  function SlotTest(slot: Instant): Appointment -> bool
  {
    a => InSlot(a, slot)
  }

  /**
   * `slotAppointments`: the non-cancelled appointments starting within the slot's hour, each
   * as often as the list holds it, in list order.
   */
  function SlotBucket(apps: seq<Appointment>, slot: Instant): (r: seq<Appointment>)
    ensures |r| <= |apps|
    ensures forall a :: a in r <==> a in apps && InSlot(a, slot)
    ensures forall a :: multiset(r)[a] == if InSlot(a, slot) then multiset(apps)[a] else 0
    ensures FilteredInOrder(SlotTest(slot), apps, r)
  {
    FilterMembers(SlotTest(slot), apps);
    FilterMultiset(SlotTest(slot), apps);
    FilterInOrder(SlotTest(slot), apps);
    Filter(SlotTest(slot), apps)
  }

  /** The bucket holds more than one appointment exactly when two positions of the list fall in the slot. */
  lemma SlotConflict(apps: seq<Appointment>, slot: Instant)
    ensures |SlotBucket(apps, slot)| > 1 <==>
      exists i, j :: 0 <= i < j < |apps| && InSlot(apps[i], slot) && InSlot(apps[j], slot)
  {
    FilterMoreThanOne(SlotTest(slot), apps);
  }

  /** `isLunchTime`: the slot's "HH:mm" compared as a string with the lunch settings. */
  predicate IsLunchTime(settings: ScheduleSettings, slot: Instant)
  {
    var text := FormatHHmm(MinuteOfDay(slot));
    !StringLess(text, settings.lunchStart) && StringLess(text, settings.lunchEnd)
  }

  /** With well-formed lunch settings, the string test is the time interval [lunchStart, lunchEnd). */
  lemma LunchTimeIsInterval(settings: ScheduleSettings, slot: Instant)
    requires WellFormedTime(settings.lunchStart) && WellFormedTime(settings.lunchEnd)
    ensures IsLunchTime(settings, slot) <==>
      MinutesOf(settings.lunchStart) <= MinuteOfDay(slot) < MinutesOf(settings.lunchEnd)
  {
    var text := FormatHHmm(MinuteOfDay(slot));
    StringLessIsTimeLess(text, settings.lunchStart);
    StringLessIsTimeLess(text, settings.lunchEnd);
  }

  /** What a timeline row shows. */
  datatype SlotView =
    | LunchRow
    | Bucket(apps: seq<Appointment>, conflictWarning: bool)
    | BookButton(slot: Instant)

  /** A row: lunch first, then the bucket with its warning, else the booking button. */
  function SlotRow(settings: ScheduleSettings, apps: seq<Appointment>, slot: Instant): (v: SlotView)
    ensures v.LunchRow? <==> IsLunchTime(settings, slot)
    ensures v.Bucket? ==> v.apps == SlotBucket(apps, slot) && |v.apps| > 0
    ensures v.Bucket? ==> (v.conflictWarning <==> |v.apps| > 1)
    ensures v.Bucket? ==> (v.conflictWarning <==>
      exists i, j :: 0 <= i < j < |apps| && InSlot(apps[i], slot) && InSlot(apps[j], slot))
    ensures v.BookButton? <==> !IsLunchTime(settings, slot) && forall a :: a in apps ==> !InSlot(a, slot)
    ensures v.BookButton? ==> v.slot == slot
  {
    var bucket := SlotBucket(apps, slot);
    if IsLunchTime(settings, slot) then LunchRow
    else if |bucket| > 0 then
      assert bucket[0] in bucket;
      SlotConflict(apps, slot);
      Bucket(bucket, |bucket| > 1)
    else
      assert forall a :: a in apps ==> !InSlot(a, slot) by {
        forall a | a in apps ensures !InSlot(a, slot) { assert a !in bucket; }
      }
      BookButton(slot)
  }

  /** The controls next to an appointment of the timeline. */
  datatype RowActions = CompleteOrCancel | DoneBadge | NoActions

  function ActionsFor(s: Status): (r: RowActions)
    ensures r == CompleteOrCancel <==> s == Agendado
    ensures r == DoneBadge <==> s == Concluido
  {
    if s == Agendado then CompleteOrCancel else if s == Concluido then DoneBadge else NoActions
  }

  // ---------------------------------------------------------------------------
  // Status changes and booking
  // ---------------------------------------------------------------------------

  datatype Toast = NoToast | Success(text: string) | Error(text: string)

  /** What happens after the status update returns: refetch on success only. */
  datatype Effect = Effect(toast: Toast, closeDialog: bool, refetch: bool)

  function StatusChangeEffect(newStatus: Status, updateOk: bool): (e: Effect)
    requires newStatus == Concluido || newStatus == Cancelado
    ensures e.refetch <==> updateOk
    ensures !e.closeDialog
    ensures e.toast.Success? <==> updateOk
  {
    if updateOk then
      Effect(Success(if newStatus == Concluido then "Agendamento concluído!" else "Agendamento cancelado!"), false, true)
    else Effect(Error("Erro ao atualizar status"), false, false)
  }

  /** The row sent to the appointments table by a booking. */
  datatype NewAppointment = NewAppointment(
    establishmentId: Option<string>, clientId: string, barberId: Option<string>, serviceId: string,
    start: Instant, end: Instant, status: Status)

  /** `services.find(s => s.id === serviceId)`: the first service with that id. */
  function FindService(services: seq<Service>, id: string): (r: Option<Service>)
    ensures r.None? <==> forall s :: s in services ==> s.id != id
    ensures r.Some? ==> r.value in services && r.value.id == id
    ensures r.Some? ==> exists k :: 0 <= k < |services| && services[k] == r.value &&
                                    forall j :: 0 <= j < k ==> services[j].id != id
  {
    if services == [] then None
    else if services[0].id == id then Some(services[0])
    else
      var r := FindService(services[1..], id);
      assert forall s :: s in services <==> s == services[0] || s in services[1..];
      if r.Some? then
        var k :| 0 <= k < |services[1..]| && services[1..][k] == r.value &&
                 forall j :: 0 <= j < k ==> services[1..][j].id != id;
        assert services[k + 1] == r.value;
        r
      else r
  }

  datatype BookingPlan = MissingFields | UnknownService | Insert(row: NewAppointment)

  /** The guard and the row of `handleCreateAppointment`. */
  function PlanBooking(clientId: string, serviceId: string, slot: Option<Instant>, services: seq<Service>,
                       est: Option<string>, user: Option<string>): (p: BookingPlan)
    ensures p.MissingFields? <==> clientId == "" || serviceId == "" || slot.None?
    ensures p.UnknownService? <==> !p.MissingFields? && FindService(services, serviceId).None?
    ensures p.Insert? ==>
      p.row.status == Agendado && p.row.start == slot.value && p.row.clientId == clientId &&
      p.row.serviceId == serviceId && p.row.establishmentId == est && p.row.barberId == user &&
      p.row.end == p.row.start + FindService(services, serviceId).value.duracao * MsPerMinute
  {
    if clientId == "" || serviceId == "" || slot.None? then MissingFields
    else
      var svc := FindService(services, serviceId);
      if svc.None? then UnknownService
      else Insert(NewAppointment(est, clientId, user, serviceId, slot.value,
                                 slot.value + svc.value.duracao * MsPerMinute, Agendado))
  }

  /** The Postgres error code of an exclusion constraint violation. */
  const ExclusionViolation: string := "23P01"

  /** What the page does with the insert's outcome (`None` is success, else the error code). */
  function InsertEffect(error: Option<string>): (e: Effect)
    ensures error.None? <==> e.closeDialog
    ensures e.refetch <==> error.None?
    ensures error == Some(ExclusionViolation) ==>
      e.toast == Error("Conflito de horário! Já existe um agendamento neste período.")
    ensures error.Some? && error.value != ExclusionViolation ==> e.toast == Error("Erro ao criar agendamento")
  {
    if error.None? then Effect(Success("Agendamento realizado com sucesso!"), true, true)
    else if error.value == ExclusionViolation then
      Effect(Error("Conflito de horário! Já existe um agendamento neste período."), false, false)
    else Effect(Error("Erro ao criar agendamento"), false, false)
  }

  /** The booking dialog's state. */
  class BookingDialog {
    var open: bool
    var selectedSlot: Option<Instant>
    var clientId: string
    var serviceId: string

    constructor ()
      ensures !open && selectedSlot.None? && clientId == "" && serviceId == ""
    {
      open, selectedSlot, clientId, serviceId := false, None, "", "";
    }

    /** `handleBookSlot`: remember the slot, clear the choices, open the dialog. */
    method BookSlot(slot: Instant)
      modifies this
      ensures open && selectedSlot == Some(slot) && clientId == "" && serviceId == ""
    {
      selectedSlot := Some(slot);
      clientId, serviceId := "", "";
      open := true;
    }

    method SelectClient(id: string)
      modifies this`clientId
      ensures clientId == id
    {
      clientId := id;
    }

    method SelectService(id: string)
      modifies this`serviceId
      ensures serviceId == id
    {
      serviceId := id;
    }

    /**
     * `handleCreateAppointment`: `insertError` is the store's answer to the insert, read only
     * when an insert is issued. Returns the row sent (if any) and whether to refetch.
     */
    method CreateAppointment(services: seq<Service>, est: Option<string>, user: Option<string>,
                             insertError: Option<string>)
      returns (sent: Option<NewAppointment>, toast: Toast, refetch: bool)
      modifies this`open
      ensures var p := PlanBooking(clientId, serviceId, selectedSlot, services, est, user);
        && (sent.Some? <==> p.Insert?)
        && (p.Insert? ==> sent.value == p.row)
        && (p.MissingFields? ==> toast == Error("Preencha todos os campos") && !refetch && open == old(open))
        && (p.UnknownService? ==> toast == NoToast && !refetch && open == old(open))
        && (p.Insert? ==> toast == InsertEffect(insertError).toast && refetch == InsertEffect(insertError).refetch
                          && open == (old(open) && !InsertEffect(insertError).closeDialog))
    {
      var p := PlanBooking(clientId, serviceId, selectedSlot, services, est, user);
      match p
      case MissingFields =>
        sent, toast, refetch := None, Error("Preencha todos os campos"), false;
      case UnknownService =>
        sent, toast, refetch := None, NoToast, false;
      case Insert(row) =>
        var e := InsertEffect(insertError);
        sent, toast, refetch := Some(row), e.toast, e.refetch;
        if e.closeDialog {
          open := false;
        }
    }
  }

  // ---------------------------------------------------------------------------
  // The page state replaced by fetchDashboardData
  // ---------------------------------------------------------------------------

  class DashboardPage {
    var stats: Stats
    var appointments: seq<Appointment>

    constructor ()
      ensures stats == Stats(0, 0, None) && appointments == []
    {
      stats, appointments := Stats(0, 0, None), [];
    }

    /**
     * `fetchDashboardData`: query the week around `now` (Sunday 00:00 to Saturday
     * 23:59:59.999, both inclusive), aggregate, and replace the state; on a failed query
     * or a failed aggregation the state is left as it was.
     */
    method FetchDashboardData(rows: seq<Appointment>, est: string, now: Instant, queryFails: bool)
      returns (toast: Toast)
      modifies this
      ensures var week := Store.QueryByStart(rows, est, DayStart(StartOfWeek(DayOf(now))),
                                             DayEnd(EndOfWeek(DayOf(now))));
        if queryFails || MissingPrice(week) then
          stats == old(stats) && appointments == old(appointments) && toast == Error("Erro ao carregar dados do dashboard")
        else
          toast == NoToast &&
          stats.weeklyEarnings == EarningsOf(week) &&
          stats.todayAppointments == |TodayOf(week, now)| &&
          IsNextClient(week, now, stats.nextClient) &&
          appointments == SortByStart(TodayOf(week, now))
    {
      if queryFails {
        return Error("Erro ao carregar dados do dashboard");
      }
      var week := Store.QueryByStart(rows, est, DayStart(StartOfWeek(DayOf(now))), DayEnd(EndOfWeek(DayOf(now))));
      var r := Aggregate(week, now);
      if r.Err? {
        return Error("Erro ao carregar dados do dashboard");
      }
      stats := r.value.stats;
      appointments := r.value.today;
      toast := NoToast;
    }
  }
}
