# Barber shop calendar core, modelled in Dafny

This project models the scheduling logic of the barber-shop web app (barberProject). That logic is tangled into its React pages and components. The project also models the statement splitter of `run_migration.py`. It covers:

- **Day timeline** (`DayView`). It parses the `"HH:mm"` opening and closing times, builds the hour marks and the grid height, and filters appointments to the view day. Each kept appointment is placed at `top = (startMin − openMin)·2` with `height = duration·2`. A click's pixel offset becomes a start time snapped down to the quarter hour. The module also has the status-click rule and the label-height rule.
- **Dashboard** (`Dashboard`). The aggregation loop computes weekly earnings, today's count and list, and the next client. The page also has:
  - the hourly slot loop;
  - the per-slot bucket, lunch test and "more than one in this hour" warning;
  - row actions and the recent-history list;
  - the booking dialog: its guard, the row it inserts (`end = start + duracao`), and the effect of a `23P01` exclusion violation.
- **Agenda** (`Agenda`). It computes the fetch window per view mode and steps the date back and forth. The view is a class whose `currentDate` and `appointments` change as the component's state does. It also covers the refetch after a status change and after realtime events.
- **Week and month grids** (`WeekView`, `MonthView`). The week is 7 Sunday-start columns. The month is a calendar-aligned grid padded to whole weeks. Both show per-day counts, their labels and their clicks, and the month also dims days outside it.
- **Registration** (`Register`). It covers slug generation, the three step validators, the 3-step wizard as a class, and the branch decisions of the final submit.
- **Route gating** (`Routes`). The priority cascade of `ProtectedRoute`.
- **Public profile title** (`PublicProfile`). The slug is shown with `-` replaced by a space.
- **Migration splitter** (`Migration`). It drops comment and blank lines, then splits on `;` into stripped statements.

Supporting modules:

- `Calendar` models local wall-clock time:
  - an instant is an `int` number of milliseconds, and a day number is an `int` with day 0 a Thursday;
  - civil dates are defined by a recursive successor and predecessor;
  - it provides the date-fns operations the components use: `startOfDay`, `setHours` (which keeps seconds and milliseconds), `differenceInMinutes` (which truncates), `startOfWeek`/`endOfWeek` (Sunday first), `startOfMonth`/`endOfMonth`, and `addMonths` (which clamps the day).
- `Clock` handles `"HH:mm"` strings and their lexicographic comparison.
- `Decimal` renders numbers as decimal digits.
- `Domain` holds the records of `frontend/src/types/db.ts`.
- `Sequences` models `Array.prototype.filter` and `filter(...).map(...)`. It proves what they keep: the passing elements, each as often as it occurs, at the passing positions in increasing order, one per passing position. The day filter, today's list, the slot bucket, the history filter, the grid counts and the migration's line filter and statement comprehension are all built on it.
- `Store` models the appointments table as the rows a range query and a status update see.

Every call into the data store, every `window.confirm`, the zod email check and the parsed price are parameters of the members that need them. Prices are integer cents.

## Model

| member | source | states |
|---|---|---|
| Sequences.Filter | frontend/src/components/agenda/DayView.tsx:37-40 | `Array.prototype.filter`, built the way a `forEach` that pushes the passing elements builds it; never longer than its input |
| Sequences.FilterMembers | frontend/src/pages/dashboard/dashboard.tsx:394-397 | an element is in the filter exactly when it is in the input and passes the test |
| Sequences.FilterMultiset | frontend/src/pages/dashboard/dashboard.tsx:394-397 | every passing element is kept exactly as often as the input holds it, and no other element is kept |
| Sequences.Positions | frontend/src/pages/dashboard/dashboard.tsx:394-397 | the filter is the input read at strictly increasing positions, each of which passes |
| Sequences.PositionsStep | frontend/src/pages/dashboard/dashboard.tsx:394-397 | one more input element adds its position exactly when it passes, keeping the positions increasing |
| Sequences.PositionsComplete | frontend/src/pages/dashboard/dashboard.tsx:394-397 | no passing position of the input is skipped by the filter |
| Sequences.FilterCount | frontend/src/components/agenda/WeekView.tsx:23 | the filter has one element per passing position of the input |
| Sequences.FilterOne | frontend/src/pages/dashboard/dashboard.tsx:394-397 | a one-element list keeps its element exactly when it passes |
| Sequences.FilterAppend | frontend/src/pages/dashboard/dashboard.tsx:394-397 | the filter of a concatenation is the concatenation of the filters |
| Sequences.FilterCons | frontend/src/pages/dashboard/dashboard.tsx:394-397 | the filter of a list is the first element (if it passes) followed by the filter of the rest |
| Sequences.FilterNone | frontend/src/pages/dashboard/dashboard.tsx:394-397 | when no element passes, the filter is empty |
| Sequences.FilterMoreThanOne | frontend/src/pages/dashboard/dashboard.tsx:394-431 | the filter holds more than one element exactly when two different positions of the input pass |
| Sequences.TwoKeptTwoPassing | frontend/src/pages/dashboard/dashboard.tsx:394-431 | two kept elements come from two different passing positions |
| Sequences.TwoPassingTwoKept | frontend/src/pages/dashboard/dashboard.tsx:394-431 | two different passing positions give at least two kept elements |
| Sequences.FilterInOrder | frontend/src/pages/dashboard/dashboard.tsx:394-397 | the filter lists the elements at exactly the passing positions, in increasing position order |
| Sequences.FilterMap | frontend/src/components/agenda/DayView.tsx:36-52 | `s.filter(p).map(f)`: as many results as the filter keeps |
| Sequences.FilterMapInOrder | frontend/src/components/agenda/DayView.tsx:36-52 | result k is `f` of the input at the k-th passing position; the positions increase and none is skipped |
| Sequences.FilterMapMembers | frontend/src/components/agenda/DayView.tsx:36-52 | a value is a result exactly when it is `f` of some passing input element |
| Sequences.FilterMapCons | run_migration.py:41 | mapping the filter of a list gives the first element's image (if it passes) followed by the result for the rest |
| Calendar.TimeOfDay | frontend/src/components/agenda/DayView.tsx:39-40 | the time of day lies in `[0, MsPerDay)`, and the day's start plus the time of day rebuild the instant |
| Calendar.StartOfDay | frontend/src/components/agenda/Agenda.tsx:61 | `startOfDay` is on the same day, at or before the instant and less than a day before it; `StartOfDayIsMidnight` states that it is that day's midnight |
| Calendar.StartOfDayIsMidnight | frontend/src/components/agenda/Agenda.tsx:61 | `startOfDay(t)` is the midnight that opens t's day, time of day 00:00:00.000 |
| Calendar.DayEnd | frontend/src/components/agenda/Agenda.tsx:62 | the last millisecond of a day, 23:59:59.999, on the same day |
| Calendar.MinuteOfDay | frontend/src/components/agenda/DayView.tsx:44 | `getHours()*60 + getMinutes()` is in `[0, 1440)` and equals the time of day in whole minutes |
| Calendar.TruncMinutes | frontend/src/components/agenda/DayView.tsx:45 | `differenceInMinutes` truncates toward zero: a non-negative gap rounds down, a negative one rounds up |
| Calendar.DifferenceInMinutes | frontend/src/components/agenda/DayView.tsx:45 | `differenceInMinutes(a, b)` is the millisecond gap truncated toward zero to whole minutes, as `TruncMinutes` states |
| Calendar.DaysInMonth | frontend/src/components/agenda/MonthView.tsx:12-13 | a month has 28 to 31 days, and February has 29 exactly in leap years |
| Calendar.CivilOf | frontend/src/components/agenda/MonthView.tsx:29 | every day number has a valid civil date (a month in 1..12, a day within the month's length) |
| Calendar.ForwardInMonth | frontend/src/components/agenda/MonthView.tsx:17 | k days forward without leaving the month adds k to the day of the month, keeping month and year |
| Calendar.BackwardInMonth | frontend/src/components/agenda/MonthView.tsx:17 | k days back without leaving the month subtracts k from the day of the month |
| Calendar.FirstOfMonth | frontend/src/components/agenda/MonthView.tsx:12 | `startOfMonth` is the day of the same month and year whose day of the month is 1, and is ≤ the day |
| Calendar.LastOfMonth | frontend/src/components/agenda/MonthView.tsx:13 | `endOfMonth` is the day of the same month whose day of the month is its length, and is ≥ the day |
| Calendar.AfterLastOfMonth | frontend/src/components/agenda/MonthView.tsx:15 | the day after the last of the month is the 1st of the next month (January of the next year after December) |
| Calendar.BeforeFirstOfMonth | frontend/src/components/agenda/MonthView.tsx:14 | the day before the 1st is the last day of the previous month (31 December of the year before in January) |
| Calendar.DistinctDayOfMonthInWeek | frontend/src/components/agenda/WeekView.tsx:21-23 | two different days less than 7 apart never share a day of the month |
| Calendar.Weekday | frontend/src/components/agenda/WeekView.tsx:12 | the weekday number is in 0..6 (0 is Sunday; day 0 is a Thursday) |
| Calendar.StartOfWeek | frontend/src/components/agenda/WeekView.tsx:12 | the Sunday on or before the day, at most 6 days earlier |
| Calendar.EndOfWeek | frontend/src/components/agenda/WeekView.tsx:13 | the Saturday on or after the day, 6 days after its week's Sunday |
| Calendar.SameWeek | frontend/src/components/agenda/WeekView.tsx:21-22 | the 7 days from a week's Sunday all have that week's Sunday as start of week |
| Calendar.MonthAfter | frontend/src/components/agenda/Agenda.tsx:95 | `addMonths(d, 1)` moves to the next month (January of the next year after December); the day is kept if the month has it and is otherwise the month's last day |
| Calendar.MonthBefore | frontend/src/components/agenda/Agenda.tsx:89 | `subMonths(d, 1)` moves to the previous month (December of the year before after January); the day is kept if the month has it and is otherwise the month's last day |
| Calendar.NextMonthDay | frontend/src/components/agenda/Agenda.tsx:95 | the day number whose civil date is the clamped date one month later |
| Calendar.PrevMonthDay | frontend/src/components/agenda/Agenda.tsx:89 | the day number whose civil date is the clamped date one month earlier |
| Clock.MinutesOf | frontend/src/components/agenda/DayView.tsx:19-21 | a well-formed `"HH:mm"` denotes a minute of the day in `[0, 1440)` |
| Clock.FormatHHmm | frontend/src/components/agenda/DayView.tsx:77 | `format(…, 'HH:mm')` gives a well-formed time string that parses back to the same minute |
| Clock.StringLess | frontend/src/pages/dashboard/dashboard.tsx:399-402 | `<` on strings character by character, by Unicode scalar value: JavaScript's order on strings without astral characters, which includes the `"HH:mm"` values compared; on two well-formed `"HH:mm"` values it is the time order, as `StringLessIsTimeLess` proves |
| Clock.StringLessIsTimeLess | frontend/src/pages/dashboard/dashboard.tsx:399-402 | the string `<` on two `"HH:mm"` values holds exactly when the first time is earlier |
| Decimal.NatToString | frontend/src/components/agenda/WeekView.tsx:30 | a number is rendered as non-empty decimal digits without a leading zero |
| Decimal.NatToStringRoundTrip | frontend/src/components/agenda/WeekView.tsx:30 | reading the digits back gives the number |
| Store.QueryByStart | frontend/src/components/agenda/Agenda.tsx:71-76 | the query keeps exactly the rows of the establishment whose start lies in `[lo, hi]`, both ends inclusive, and adds no row |
| Store.UpdateStatus | frontend/src/components/agenda/Agenda.tsx:141 | the rows with the id get the new status, and all else is unchanged |
| DayView.GridOf | frontend/src/components/agenda/DayView.tsx:19-21 | the parsed opening hour and minute make up the opening time; the closing hour is the closing time's hour, with its minutes dropped |
| DayView.GridHeight | frontend/src/components/agenda/DayView.tsx:33 | the grid is `(closingHour − openingHour)·60·2` px tall, whatever the closing minutes are |
| DayView.HourMarkAt | frontend/src/components/agenda/DayView.tsx:27 | `setMinutes(setHours(date, h), 0)`: hour h of the view day, keeping the seconds and milliseconds of the date |
| DayView.MarkTop | frontend/src/components/agenda/DayView.tsx:73 | a guide line sits at `(hours·60 + minutes − startOfDayMinutes)·2` px; `MarkPosition` gives its value |
| DayView.HourMarks | frontend/src/components/agenda/DayView.tsx:24-30 | one mark per hour from the opening to the closing hour inclusive (none when closing < opening), mark k at hour `openingHour + k`, minute 0, on the view date |
| DayView.MarkPosition | frontend/src/components/agenda/DayView.tsx:73-77 | every mark the loop emits, hours 0 to 23, sits at `(h·60 − startOfDayMinutes)·2` and its label reads hour h; below hour 23 the next mark is 120 px further down |
| DayView.FirstMarkAtZero | frontend/src/components/agenda/DayView.tsx:73 | with opening minute 0, the first mark is at 0 px |
| DayView.ShownOn | frontend/src/components/agenda/DayView.tsx:37-40 | the day filter as written (`startOfDay(start)` before the next midnight and the start after this midnight); `ShownOnIff` states what it accepts |
| DayView.ShownOnIff | frontend/src/components/agenda/DayView.tsx:37-40 | an appointment is shown iff it starts on the view day and not exactly at its midnight |
| DayView.Place | frontend/src/components/agenda/DayView.tsx:41-51 | `top = (startMinutes − startOfDayMinutes)·2`, `height = duration·2` with the truncated duration, and the placed record keeps its appointment |
| DayView.DayAppointments | frontend/src/components/agenda/DayView.tsx:36-52 | one placement per appointment the day filter accepts, as many as there are accepting positions, in list order (placement k is `Place` of the k-th accepted appointment); nothing else is placed |
| DayView.PlacementRoundTrip | frontend/src/components/agenda/DayView.tsx:44-48 | `startOfDayMinutes + top/2` is the start minute; a whole-minute start is rebuilt exactly; `top` is negative iff the start is before opening |
| DayView.RawClickTime | frontend/src/components/agenda/DayView.tsx:57-59 | `addMinutes(setMinutes(setHours(date, openingHour), openingMinute), y / 2)`, keeping the date's seconds and milliseconds |
| DayView.ClickTimeAsWritten | frontend/src/components/agenda/DayView.tsx:55-63 | the click handler as written: the raw click time snapped down to the quarter hour; `ClickKeepsSubMinute` and `ClickAfterDayFetch` state what it yields |
| DayView.SnapDown | frontend/src/components/agenda/DayView.tsx:61-63 | subtracting `getMinutes() % 15` gives a time whose minute is a multiple of 15, ≤ the time and less than 15 minutes before it, keeping seconds and milliseconds |
| DayView.ClickKeepsSubMinute | frontend/src/components/agenda/DayView.tsx:55-63 | as written, the click time keeps the seconds and milliseconds of the view date |
| DayView.ClickAfterDayFetch | frontend/src/components/agenda/DayView.tsx:59 | after a day fetch (date at 23:59:59.999), a click at 0 px on an 08:00 grid proposes 08:00:59.999, not 08:00 |
| DayView.ClickTime | frontend/src/components/agenda/DayView.tsx:57-63 | the corrected click handler: the same computation from the view day's midnight; `ClickSnaps` states that it lands on a quarter hour with zero seconds |
| DayView.ClickSnaps | frontend/src/components/agenda/DayView.tsx:57-63 | the corrected click time is on a quarter hour with zero seconds, ≤ the clicked minute and less than 15 minutes before it |
| DayView.ClickAtAppointmentTop | frontend/src/components/agenda/DayView.tsx:47-63 | clicking at the `top` of an appointment that starts on a quarter hour proposes that start |
| DayView.StatusClick | frontend/src/components/agenda/DayView.tsx:100-110 | only an `agendado` appointment requests a change: `concluido` if the first confirm is accepted, otherwise `cancelado` if the second is, otherwise none |
| DayView.BlockLabel | frontend/src/components/agenda/DayView.tsx:121-127 | a `bloqueio` is titled "Bloqueado"; the second line appears iff height > 30, and is empty for a `bloqueio` |
| DayView.SecondLineIffLong | frontend/src/components/agenda/DayView.tsx:124 | the second line appears iff the duration is more than 15 minutes |
| Dashboard.OrDefault | frontend/src/pages/dashboard/dashboard.tsx:78-80 | `x \|\| dflt`: a present non-empty string is kept, anything else gives the default |
| Dashboard.SettingsOf | frontend/src/pages/dashboard/dashboard.tsx:53-81 | without an establishment or an opening time the defaults 08:00/20:00/12:00/13:00 stay; otherwise the opening time is taken and each other field falls back to its default |
| Dashboard.EarningsOf | frontend/src/pages/dashboard/dashboard.tsx:135-137 | the sum of the service prices of the `concluido` appointments, in list order; `EarningsAdditive`, `EarningsOfOne` and `EarningsOnlyConcluded` state its properties |
| Dashboard.TodayOf | frontend/src/pages/dashboard/dashboard.tsx:139-142 | the list the loop pushes: the filter by "same day as now and not `cancelado`"; `TodayOfMembers` and `TodayOfCount` state what it holds |
| Dashboard.EarliestFirstAt | frontend/src/pages/dashboard/dashboard.tsx:144-150 | index k holds a future `agendado` appointment starting no later than any other, and no earlier index holds one with the same start |
| Dashboard.IsNextClient | frontend/src/pages/dashboard/dashboard.tsx:144-150 | the next client is absent iff no appointment is future `agendado`, and otherwise is the first earliest one |
| Dashboard.InsertByStart | frontend/src/pages/dashboard/dashboard.tsx:153 | inserting into a list sorted by start keeps it sorted and adds exactly the element |
| Dashboard.SortByStart | frontend/src/pages/dashboard/dashboard.tsx:153 | the list is sorted ascending by start and is a permutation of its input |
| Dashboard.InsertKeepsTies | frontend/src/pages/dashboard/dashboard.tsx:153 | inserting into a sorted list keeps the appointments with any given start in their order, the new one after them |
| Dashboard.TiesInFront | frontend/src/pages/dashboard/dashboard.tsx:153 | an appointment put in front of a sorted list that starts later ties with none of it |
| Dashboard.TiesAfterHead | frontend/src/pages/dashboard/dashboard.tsx:153 | the head stays in front of the ties of the insertion into the tail |
| Dashboard.SortByStartStable | frontend/src/pages/dashboard/dashboard.tsx:153 | the sort is stable: for any start time, the appointments starting then come out in their input order |
| Dashboard.Aggregate | frontend/src/pages/dashboard/dashboard.tsx:125-153 | the loop fails iff a `concluido` appointment has no service; otherwise earnings are the price sum over `concluido`; today's count is the number of positions of the week holding a same-day non-`cancelado` appointment, and the list those appointments sorted ascending; the next client is the earliest future `agendado` (first on ties), or none |
| Dashboard.EarningsAdditive | frontend/src/pages/dashboard/dashboard.tsx:132-137 | earnings of two lists concatenated are the sum of their earnings |
| Dashboard.EarningsOfOne | frontend/src/pages/dashboard/dashboard.tsx:135-137 | one appointment contributes its price iff it is `concluido`, otherwise 0 |
| Dashboard.EarningsOnlyConcluded | frontend/src/pages/dashboard/dashboard.tsx:135 | appending appointments of any other status leaves earnings unchanged |
| Dashboard.TodayOfMembers | frontend/src/pages/dashboard/dashboard.tsx:139-142 | today's list holds exactly the same-day, non-`cancelado` appointments, each as often as the week holds it, in the week's order |
| Dashboard.TodayOfCount | frontend/src/pages/dashboard/dashboard.tsx:139-141 | `todayCount` is the number of positions of the week holding a same-day, non-`cancelado` appointment |
| Dashboard.Concluded | frontend/src/pages/dashboard/dashboard.tsx:525 | the filter holds exactly the `concluido` appointments, each as often as the list holds it, in list order |
| Dashboard.RecentHistory | frontend/src/pages/dashboard/dashboard.tsx:525-526 | the history is the first `min(5, n)` `concluido` appointments of today's list |
| Dashboard.TimeSlots | frontend/src/pages/dashboard/dashboard.tsx:262-268 | one slot per hour from the start hour to the end hour inclusive, slot k at hour `startHour + k` of today |
| Dashboard.SlotEnd | frontend/src/pages/dashboard/dashboard.tsx:392 | `setMinutes(setHours(slot, hours + 1), 0)`; `SlotEndIsOneHourLater` gives its value for a slot on the hour |
| Dashboard.SlotEndIsOneHourLater | frontend/src/pages/dashboard/dashboard.tsx:392 | a slot ends exactly one hour after it starts |
| Dashboard.InSlot | frontend/src/pages/dashboard/dashboard.tsx:394-397 | an appointment belongs to a slot when it starts in `[slot, slotEnd)` and is not `cancelado` |
| Dashboard.SlotBucket | frontend/src/pages/dashboard/dashboard.tsx:394-397 | the bucket holds exactly the non-`cancelado` appointments starting in `[slot, slot + 1h)`, each as often as the list holds it, in list order |
| Dashboard.SlotConflict | frontend/src/pages/dashboard/dashboard.tsx:394-431 | the bucket holds more than one appointment exactly when two different positions of the list fall in the slot |
| Dashboard.IsLunchTime | frontend/src/pages/dashboard/dashboard.tsx:399-402 | the string comparison of the slot's `"HH:mm"` with the lunch settings; `LunchTimeIsInterval` states it as a time interval |
| Dashboard.LunchTimeIsInterval | frontend/src/pages/dashboard/dashboard.tsx:399-402 | a slot is lunch iff `lunchStart ≤ its HH:mm < lunchEnd` as times of day |
| Dashboard.SlotRow | frontend/src/pages/dashboard/dashboard.tsx:410-461 | lunch takes precedence over the bucket and the booking button; the bucket shows iff non-empty, and the conflict warning shows iff two different appointments of the list fall in the slot; otherwise the booking button books this slot |
| Dashboard.ActionsFor | frontend/src/pages/dashboard/dashboard.tsx:431-441 | complete/cancel buttons iff `agendado`, the done badge iff `concluido`, nothing otherwise |
| Dashboard.StatusChangeEffect | frontend/src/pages/dashboard/dashboard.tsx:170-184 | the update refetches and shows success iff it succeeded |
| Dashboard.FindService | frontend/src/pages/dashboard/dashboard.tsx:198 | `find` gives the first service with the id, or none iff no service has it |
| Dashboard.PlanBooking | frontend/src/pages/dashboard/dashboard.tsx:193-214 | refused iff client, service or slot is missing; nothing happens for an unknown service; otherwise the row is `agendado`, starts at the slot and ends `duracao` minutes later |
| Dashboard.InsertEffect | frontend/src/pages/dashboard/dashboard.tsx:216-232 | success closes the dialog and refetches; `23P01` shows the conflict message; any other error the generic one; neither refetches nor closes |
| Dashboard.BookingDialog.constructor | frontend/src/pages/dashboard/dashboard.tsx:62-69 | the dialog starts closed with nothing selected |
| Dashboard.BookingDialog.BookSlot | frontend/src/pages/dashboard/dashboard.tsx:186-190 | the slot is remembered, both choices are cleared and the dialog opens |
| Dashboard.BookingDialog.SelectClient | frontend/src/pages/dashboard/dashboard.tsx:493 | the client choice is set |
| Dashboard.BookingDialog.SelectService | frontend/src/pages/dashboard/dashboard.tsx:506 | the service choice is set |
| Dashboard.BookingDialog.CreateAppointment | frontend/src/pages/dashboard/dashboard.tsx:192-233 | a row is sent iff the plan is an insert; missing fields give "Preencha todos os campos"; the toast, the refetch and the closing follow the insert's effect |
| Dashboard.DashboardPage.constructor | frontend/src/pages/dashboard/dashboard.tsx:46-51 | zero stats and no appointments before the first fetch |
| Dashboard.DashboardPage.FetchDashboardData | frontend/src/pages/dashboard/dashboard.tsx:109-168 | queries the Sunday-to-Saturday week of now (inclusive); on failure the state is kept and the error toast shown; on success the stats and the sorted today list are those of the aggregation |
| Agenda.WindowOf | frontend/src/components/agenda/Agenda.tsx:60-69 | day: 00:00:00.000 to 23:59:59.999 of the date; week: Sunday start to Saturday end; month: the 1st's start to the last day's end; the date lies inside |
| Agenda.DayWindowShape | frontend/src/components/agenda/Agenda.tsx:60-62 | the day window runs from the date's midnight (00:00:00.000) to 23:59:59.999 of the same day |
| Agenda.DateAfterFetch | frontend/src/components/agenda/Agenda.tsx:61-62 | a day fetch leaves `currentDate` at 23:59:59.999 of its own day; other views leave it unchanged |
| Agenda.RefetchSameWindow | frontend/src/components/agenda/Agenda.tsx:60-62 | a second fetch queries the same window and leaves the same date |
| Agenda.WeekWindowShape | frontend/src/components/agenda/Agenda.tsx:63-65 | the week window runs from a Sunday at 00:00 to a Saturday at 23:59:59.999, exactly 7 days |
| Agenda.MonthWindowShape | frontend/src/components/agenda/Agenda.tsx:66-68 | the month window runs from the 1st at 00:00 to the last day of the same month at 23:59:59.999 |
| Agenda.MonthStep | frontend/src/components/agenda/Agenda.tsx:89-95 | one month forward or back keeps the time of day and goes to the clamped date of the next or previous month |
| Agenda.Step | frontend/src/components/agenda/Agenda.tsx:86-96 | the step is 1 day, 7 days or one month by view |
| Agenda.StepInverse | frontend/src/components/agenda/Agenda.tsx:86-96 | in day and week views, Next then Previous (or the reverse) returns the original date |
| Agenda.MonthStepNotInverse | frontend/src/components/agenda/Agenda.tsx:89-95 | from 31 January, Next then Previous lands on an earlier day than the 31st |
| Agenda.AgendaView.constructor | frontend/src/components/agenda/Agenda.tsx:26-36 | day view, date now, no appointments |
| Agenda.AgendaView.FetchAppointments | frontend/src/components/agenda/Agenda.tsx:56-84 | the date is left as `DateAfterFetch`; on success the list becomes the query result for the window, on error it stays |
| Agenda.AgendaView.HandlePrevious | frontend/src/components/agenda/Agenda.tsx:86-90 | the date steps back by the view's step |
| Agenda.AgendaView.HandleNext | frontend/src/components/agenda/Agenda.tsx:92-96 | the date steps forward by the view's step |
| Agenda.AgendaView.GoToToday | frontend/src/components/agenda/Agenda.tsx:113 | "Hoje" sets the date to now |
| Agenda.AgendaView.SetView | frontend/src/components/agenda/Agenda.tsx:119 | the view mode is set |
| Agenda.AgendaView.ChangeStatus | frontend/src/components/agenda/Agenda.tsx:140-147 | a failed update changes nothing; a successful one updates the store and refetches |
| Agenda.AgendaView.RealtimeBurst | frontend/src/components/agenda/Agenda.tsx:43-48 | n ≥ 1 realtime events against an unchanged store leave the same list and date as one fetch |
| WeekView.Columns | frontend/src/components/agenda/WeekView.tsx:12-22 | exactly 7 columns, column i is `startOfWeek + i` with Sunday first, the last is the end of the week, and the date is among them |
| WeekView.ColumnCount | frontend/src/components/agenda/WeekView.tsx:23 | the count is the number of positions of the list whose appointment has the column's day of the month; it is at most the list length and 0 iff none has that day |
| WeekView.AtMostOneColumn | frontend/src/components/agenda/WeekView.tsx:21-23 | an appointment counted in one column is counted in no other |
| WeekView.OneColumnAtMost | frontend/src/components/agenda/WeekView.tsx:21-23 | over any suffix of the columns, an appointment is counted at most once |
| WeekView.TotalSplits | frontend/src/components/agenda/WeekView.tsx:23 | the total count splits into the first appointment's columns and the rest |
| WeekView.TotalCount | frontend/src/components/agenda/WeekView.tsx:23 | the sum of the column counts; `TotalSplits` and `WeekCountsBounded` state its properties |
| WeekView.WeekCountsBounded | frontend/src/components/agenda/WeekView.tsx:21-23 | the column counts of a week sum to at most the number of appointments |
| WeekView.TotalOfNone | frontend/src/components/agenda/WeekView.tsx:23 | no appointments give a total count of 0 |
| WeekView.ColumnLabel | frontend/src/components/agenda/WeekView.tsx:30 | "N agendamentos" iff the count is positive, else "Nenhum agendamento" |
| WeekView.ColumnClick | frontend/src/components/agenda/WeekView.tsx:26 | clicking column i passes that column's day at midnight |
| MonthView.SundaysWeeksApart | frontend/src/components/agenda/MonthView.tsx:14-15 | two Sundays are a whole number of weeks apart |
| MonthView.GridSpan | frontend/src/components/agenda/MonthView.tsx:12-17 | the grid covers the whole month and spans exactly 4, 5 or 6 weeks |
| MonthView.CalendarDays | frontend/src/components/agenda/MonthView.tsx:12-17 | 28 to 42 cells, a multiple of 7, consecutive, from the Sunday on or before the 1st to the Saturday on or after the last day |
| MonthView.CellDate | frontend/src/components/agenda/MonthView.tsx:17 | every cell's civil date: the tail of the previous month, the month itself, or the head of the next |
| MonthView.Dimmed | frontend/src/components/agenda/MonthView.tsx:31 | a cell is dimmed when its month differs from the view month; `DimmedIffOutside` states what that means for the grid |
| MonthView.DimmedIffOutside | frontend/src/components/agenda/MonthView.tsx:31 | a cell is dimmed iff it lies outside the view month |
| MonthView.MonthDaysInOrder | frontend/src/components/agenda/MonthView.tsx:17-31 | day d of the month is at index `first − start + d − 1`, undimmed, with that civil date |
| MonthView.MonthDayOnce | frontend/src/components/agenda/MonthView.tsx:17 | a cell with the view year, month and day d is at that index only, so each day appears exactly once |
| MonthView.CellCount | frontend/src/components/agenda/MonthView.tsx:29 | the count is the number of positions of the list whose appointment shares the cell's day of the month and month (year not compared); 0 iff there is none |
| MonthView.AtMostOneCell | frontend/src/components/agenda/MonthView.tsx:29 | no appointment is counted in two cells of the grid |
| MonthView.CellLabel | frontend/src/components/agenda/MonthView.tsx:34 | "N agd." for a positive count; empty iff the count is 0 |
| MonthView.CellClick | frontend/src/components/agenda/MonthView.tsx:31 | clicking a cell passes that cell's day at midnight |
| Register.Slugify | frontend/src/pages/register.tsx:255 | `toLowerCase`, runs of non-`[a-z0-9]` to `-`, then one leading and one trailing `-` removed; `SlugifyIsClean`, `SlugifyKeepsLetters` and `SlugifyIdempotent` state its properties |
| Register.Trim | frontend/src/pages/register.tsx:255 | `replace(/(^-\|-$)/g, '')`: one leading and one trailing `-` removed; `TrimIsClean` and `TrimKeepsLetters` state its properties |
| Register.Lower | frontend/src/pages/register.tsx:255 | `toLowerCase` maps every character, keeping the length |
| Register.DropRun | frontend/src/pages/register.tsx:255 | dropping a run of non-`[a-z0-9]` characters leaves a suffix that is empty or starts with a slug character |
| Register.Collapse | frontend/src/pages/register.tsx:255 | empty iff the input is; the first character is kept or becomes `-` |
| Register.CollapseShaped | frontend/src/pages/register.tsx:255 | replacing runs gives only `[a-z0-9-]` with no `--` |
| Register.ShapedDropFirst | frontend/src/pages/register.tsx:255 | removing the leading character keeps that shape |
| Register.ShapedDropLast | frontend/src/pages/register.tsx:255 | removing the trailing character keeps that shape |
| Register.TrimIsClean | frontend/src/pages/register.tsx:255 | `replace(/(^-\|-$)/g, '')` on a shaped string leaves no leading or trailing `-` |
| Register.SlugifyIsClean | frontend/src/pages/register.tsx:255 | the generated slug has only `[a-z0-9-]`, no `--`, and no leading or trailing `-` |
| Register.LettersAndDigitsAppend | frontend/src/pages/register.tsx:255 | keeping only `[a-z0-9]` distributes over concatenation |
| Register.DropRunKeepsLetters | frontend/src/pages/register.tsx:255 | the dropped run held no slug characters |
| Register.CollapseKeepsLetters | frontend/src/pages/register.tsx:255 | collapsing runs keeps every letter and digit, in order |
| Register.TrimKeepsLetters | frontend/src/pages/register.tsx:255 | trimming dashes keeps every letter and digit |
| Register.SlugifyKeepsLetters | frontend/src/pages/register.tsx:255 | the slug's letters and digits are exactly those of the lowercased name, in order |
| Register.CollapseFixesShaped | frontend/src/pages/register.tsx:255 | collapsing a shaped string changes nothing |
| Register.CleanSlugIsFixed | frontend/src/pages/register.tsx:255 | a clean slug is its own slug |
| Register.SlugifyIdempotent | frontend/src/pages/register.tsx:255 | generating a slug from a slug changes nothing |
| Register.Step1Error | frontend/src/pages/register.tsx:13-17 | step 1 passes iff name length ≥ 3, the email is valid and password length ≥ 6; otherwise the first failing field's message |
| Register.Step2Error | frontend/src/pages/register.tsx:19-23 | step 2 passes iff shop-name length ≥ 3, slug length ≥ 3 and the slug matches `^[a-z0-9-]+$`; otherwise the first failing check's message: "Nome da barbearia é obrigatório", "URL única é obrigatória" or "Use apenas letras minúsculas, números e hífens" |
| Register.Step3Error | frontend/src/pages/register.tsx:25-28 | step 3 passes iff service-name length ≥ 2 and the price is non-empty; otherwise "Nome do serviço é obrigatório" or "Preço é obrigatório", the first that fails |
| Register.GeneratedSlugPassesPattern | frontend/src/pages/register.tsx:255 | with the generated slug, step 2 passes iff the shop name has ≥ 3 characters and the slug ≥ 3 |
| Register.StepError | frontend/src/pages/register.tsx:52-56 | steps 1 and 2 are checked by their validators; any other step passes unchecked |
| Register.RegisterWizard.constructor | frontend/src/pages/register.tsx:32-48 | step 1 with the initial form ("Corte de Cabelo", "35.00") |
| Register.RegisterWizard.HandleNext | frontend/src/pages/register.tsx:50-63 | the step advances by exactly 1 iff the current step's check passes, else it stays and the first error is returned; the form is unchanged; offered from 1..2 it stays in 1..3 |
| Register.RegisterWizard.HandleBack | frontend/src/pages/register.tsx:65 | the step decreases by 1; offered from 2..3 it stays in 1..3 |
| Register.RegisterWizard.OnBarbershopNameChange | frontend/src/pages/register.tsx:252-257 | the name is stored and the slug regenerated from it, always clean |
| Register.RegisterWizard.OnFieldChange | frontend/src/pages/register.tsx:36-48 | one form field is set; the step is unchanged |
| Register.LongPhraseContainsShort | frontend/src/pages/register.tsx:88 | a message containing "User already registered" contains "already registered", so the second test adds nothing |
| Register.NoYNotRegistered | frontend/src/pages/register.tsx:180 | a message without the letter `y` is never taken for "already registered" |
| Register.Caught | frontend/src/pages/register.tsx:176-186 | success iff the message mentions "already registered"; otherwise the message (or the default) is shown |
| Register.OwnErrorsShown | frontend/src/pages/register.tsx:96-124 | the submit's own two messages reach the error toast unchanged |
| Register.Submit | frontend/src/pages/register.tsx:67-190 | an invalid step 3 writes nothing; a sign-up error goes through the catch; no user gives "Erro ao criar usuário"; `23505` on the establishment gives "URL já está em uso"; the service (duracao 30, the parsed price) is written only when no establishment existed |
| Register.NewOwnerWritesThreeRows | frontend/src/pages/register.tsx:109-174 | a new owner with every call succeeding gets establishment, profile and service rows, in that order, and the account is ready |
| Register.ProfileFailureCanReportSuccess | frontend/src/pages/register.tsx:152-184 | a failed profile insert whose message says "already registered" still reports success, and no service is created |
| Routes.ProtectedRoute | frontend/src/App.tsx:36-95 | loading shows the spinner; then an error shows the retry screen; no user and no guest flag goes to /login; a user without profile goes to /register; a user without establishment nor guest flag sees "no barbershop"; everything else renders the outlet |
| Routes.GuestDoesNotSkipRegister | frontend/src/App.tsx:76-79 | a user without profile goes to /register whatever the guest flag |
| Routes.GuestWithoutUser | frontend/src/App.tsx:71-94 | with no user, the guest flag alone decides between the outlet and /login |
| PublicProfile.Title | frontend/src/pages/public-profile.tsx:26 | no slug renders nothing; otherwise same length, no `-`, every `-` a space, every other character unchanged |
| PublicProfile.DashesToSpaces | frontend/src/pages/public-profile.tsx:26 | `replace(/-/g, ' ')` pointwise |
| PublicProfile.SpacesToDashes | frontend/src/pages/public-profile.tsx:26 | the opposite replacement, pointwise |
| PublicProfile.TitleDeterminesSlug | frontend/src/pages/public-profile.tsx:26 | for a generated slug, or a hand-typed one the step-2 pattern accepts, the title gives the slug back |
| Migration.Lead | run_migration.py:35 | the count of leading whitespace |
| Migration.Trail | run_migration.py:35 | the count of trailing whitespace |
| Migration.Strip | run_migration.py:35 | `strip()` is empty iff the line is all whitespace; otherwise a contiguous slice with no whitespace at either end, and everything cut is whitespace |
| Migration.Split | run_migration.py:31 | `split` gives at least one piece, none containing the separator |
| Migration.Join | run_migration.py:40 | `sep.join(pieces)`; `JoinSplit` proves that it undoes `split` |
| Migration.JoinSplit | run_migration.py:31-40 | joining the pieces with the separator gives the text back |
| Migration.SplitWithoutSeparator | run_migration.py:31 | text without the separator is one piece |
| Migration.SplitAtFirstSeparator | run_migration.py:31 | split at the first separator, then the rest |
| Migration.Keep | run_migration.py:35-36 | a line is kept when its stripped form is non-empty and does not start with `--` |
| Migration.KeptLines | run_migration.py:33-37 | exactly the lines `Keep` accepts, each verbatim and as often as it occurs, at the positions where they occur, in increasing order, skipping none |
| Migration.CleanLines | run_migration.py:32-37 | the loop computes the kept lines |
| Migration.CodeLineKeptWhole | run_migration.py:35-36 | a line starting with code is kept, even with a later inline `--` |
| Migration.StatementsOf | run_migration.py:41 | one well-formed statement per non-blank piece (ends with `;`, no other `;`, non-blank before it); statement k is the k-th non-blank piece stripped plus `;`, in the pieces' order, skipping none |
| Migration.StatementsOfMembers | run_migration.py:40-41 | a text is a statement exactly when it is some non-blank piece, stripped, plus `;` |
| Migration.StatementsWellFormed | run_migration.py:41 | every non-blank piece without `;` yields a well-formed statement |
| Migration.Statements | run_migration.py:40-41 | the statements of a text: split on `;`, then the comprehension; `TwoPiecesTwoStatements` computes an instance |
| Migration.PrepareStatements | run_migration.py:31-41 | the statements of the cleaned text joined by line breaks, split on `;`, stripped and terminated, all well formed |
| Migration.StatementsOfCons | run_migration.py:41 | the statements of a list of pieces are the first piece's then the rest's |
| Migration.TwoPiecesTwoStatements | run_migration.py:40-41 | two non-blank pieces around one `;` give exactly two statements, each piece stripped and closed with `;` |
| Migration.PairStatements | run_migration.py:41 | the comprehension over two non-blank pieces gives their two statements in order |
| Migration.TrailingCommentBecomesStatement | run_migration.py:36-41 | a `--` comment after code and a `;` on the same line is not filtered: it becomes the second statement, still starting with `--` |

## Left out

- `frontend/src/contexts/auth-context.tsx` is not part of this model: its session handling is asynchronous (a race against a 20 s timer, auth subscriptions). `ProtectedRoute` takes its fields as inputs.
- `frontend/src/pages/login.tsx` is not part of this model (authentication I/O and navigation).
- Every data-store call, the realtime channel's subscribe and unsubscribe lifecycle, `toast`, `window.confirm`, the clipboard and `localStorage`. Their results are parameters. The model does not capture a stale response landing after a newer one.
- Time zones, daylight saving, `toISOString` and ISO parsing. Time is local wall time in milliseconds.
- Fractional click offsets. The pixel offset is an integer and the clicked minute is `y / 2` floored.
- Floating-point prices. `preco` and the `parseFloat` of the price are integer cents, given as a parameter.
- The zod email check. It is a boolean parameter.
- Register.Submit: a failed step-3 validation is reported as the first issue's message. The component shows the `ZodError`'s own message text, which the model does not reproduce.
- Register.Lower: lower-cases ASCII letters only. JavaScript's `toLowerCase` also maps other letters, and it can change the length of some strings.
- Register.Step1Error: zod's lengths count UTF-16 code units, while the model counts characters.
- Register.Step2Error: zod's lengths count UTF-16 code units, while the model counts characters.
- Register.Step3Error: zod's lengths count UTF-16 code units, while the model counts characters.
- Agenda.AgendaView.HandlePrevious, Agenda.AgendaView.HandleNext, Agenda.AgendaView.GoToToday and Agenda.AgendaView.SetView do not fetch. The component's effect (`frontend/src/components/agenda/Agenda.tsx` lines 39-54) refetches and resubscribes whenever `currentDate`, `view` or `establishmentId` changes. In the model the caller runs `FetchAppointments` after each of them. A day fetch moves `currentDate` to 23:59:59.999 in place (`setHours` on the same `Date` object), so the effect's dependencies do not change and no further fetch follows.
- Locale date formats in headings: "Semana de …", "MMMM yyyy", the weekday names and `capitalize`.
- The `loading` flags of the dashboard and the register page.
- `saveSettings`, `copyShareLink` and `fetchServicesAndClients` in the dashboard: store writes and reads with no decision to verify.
- The file reading, printing and database execution of `run_migration.py`.
- Register.RegisterWizard.HandleNext: keeps the step within 1..3 only when Next is offered (step < 3), as the buttons guarantee. The method itself accepts any step.
- Register.RegisterWizard.HandleBack: keeps the step within 1..3 only when Back is offered (step > 1).
- A client-side interval-overlap validator and a fallback for malformed opening times. Neither exists in the code. `"HH:mm"` inputs are required to be well formed, and the only conflict authority is the store's `23P01`.

## Findings

| source | as written | input that shows it | evidently intended | confidence | as-written member | corrected member |
|---|---|---|---|---|---|---|
| frontend/src/components/agenda/DayView.tsx:59-63 | modelled by `DayView.ClickTimeAsWritten`: `setHours`/`setMinutes` keep the view date's seconds and milliseconds, and the snap removes only `getMinutes() % 15`, so the proposed booking start keeps them | day view after a fetch (`currentDate` left at 23:59:59.999 by Agenda.tsx:62), opening 08:00, click at 0 px: proposed start 08:00:59.999 | a start on the quarter hour with zero seconds, 08:00:00.000, as `DayView.ClickTime` computes from the view day's midnight | not executed | DayView.ClickAfterDayFetch | DayView.ClickSnaps |
