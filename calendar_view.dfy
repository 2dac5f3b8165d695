/**
 * The calendar page: bookings from the server turned into appointments, the
 * appointments of the selected day, the mini-calendar's grid of days with its
 * labels, and the selected date moved by the day and month buttons.
 */
module CalendarView {
  import opened Js
  import opened Clock
  import opened Dates
  import DayViewWithSlots
  import AppointmentStore

  type Appointment = DayViewWithSlots.Appointment

  // ---------------------------------------------------------------- bookings

  /** `dayjs.utc(booking.appointment_time)`: the UTC date and time of day the string denotes. */
  datatype UtcTime = UtcTime(date: Date, hour: int, minute: int)

  predicate ValidUtc(t: UtcTime) {
    Valid(t.date) && 0 <= t.hour < 24 && 0 <= t.minute < 60
  }

  /** The fields of a booking the transformation reads. */
  datatype Booking = Booking(id: int, appointmentTime: UtcTime, comment: string)

  /** `appointmentDate.format("HH:mm")`. */
  function StartTime(hour: int, minute: int): (s: string)
    ensures 0 <= hour < 24 && 0 <= minute < 60 ==> ClockParts(s) == (Fin(hour), Fin(minute))
  {
    assert 0 <= hour < 24 && 0 <= minute < 60 ==> ClockParts(FormatClock(hour, minute)) == (Fin(hour), Fin(minute)) by {
      if 0 <= hour < 24 && 0 <= minute < 60 {
        ClockRoundTrip(hour, minute);
      }
    }
    FormatClock(hour, minute)
  }

  /** `appointmentDate.add(1, "hour").format("HH:mm")`. */
  function EndTime(hour: int, minute: int): (s: string)
    ensures 0 <= minute < 60 ==> ClockParts(s) == (Fin((hour + 1) % 24), Fin(minute))
  {
    assert 0 <= minute < 60 ==> ClockParts(FormatClock((hour + 1) % 24, minute)) == (Fin((hour + 1) % 24), Fin(minute)) by {
      if 0 <= minute < 60 {
        ClockRoundTrip((hour + 1) % 24, minute);
      }
    }
    FormatClock((hour + 1) % 24, minute)
  }

  /**
   * One booking as an appointment: the UTC date and "HH:mm" start, an end one
   * hour after the start on the clock, and the comment or "Appointment #<id>".
   */
  function ToAppointment(b: Booking): (a: Appointment)
    ensures a.date == Some(FormatDate(b.appointmentTime.date))
    ensures var t := b.appointmentTime;
      a.startTime == StartTime(t.hour, t.minute) && a.endTime == EndTime(t.hour, t.minute)
  {
    var t := b.appointmentTime;
    DayViewWithSlots.Appointment(
      IntToString(b.id),
      Some(FormatDate(t.date)),
      StartTime(t.hour, t.minute),
      EndTime(t.hour, t.minute),
      if b.comment != "" then b.comment else "Appointment #" + IntToString(b.id))
  }

  /** `bookings.map(...)`. */
  function ToAppointments(bookings: seq<Booking>): (r: seq<Appointment>)
    ensures |r| == |bookings| && forall i :: 0 <= i < |r| ==> r[i] == ToAppointment(bookings[i])
  {
    seq(|bookings|, i requires 0 <= i < |bookings| => ToAppointment(bookings[i]))
  }

  /** An appointment's start reads back as the booking's UTC hour and minute. */
  lemma StartReadsBack(b: Booking)
    requires ValidUtc(b.appointmentTime)
    ensures var t := b.appointmentTime;
      ClockParts(ToAppointment(b).startTime) == (Fin(t.hour), Fin(t.minute))
  {
  }

  /** One hour after h:m on the clock, in minutes since midnight, wrapping at midnight. */
  lemma HourLaterWraps(h: int, m: int)
    requires 0 <= h < 24 && 0 <= m < 60
    ensures Minutes((h + 1) % 24, m) == (Minutes(h, m) + 60) % 1440
  {
    if h == 23 {
      assert Minutes(h, m) + 60 == 1440 + m;
    }
  }

  /**
   * An appointment's end reads back as the hour after the booking's, at the
   * same minute: with `HourLaterWraps`, one hour later on the clock (23:30
   * ends at 00:30). No end time from the server is involved.
   */
  lemma EndIsOneHourLater(b: Booking)
    requires ValidUtc(b.appointmentTime)
    ensures var t := b.appointmentTime;
      ClockParts(ToAppointment(b).endTime) == (Fin((t.hour + 1) % 24), Fin(t.minute))
  {
  }

  /**
   * The appointment id is `booking.id.toString()`, the plain decimal text of
   * the booking number, and `parseInt` (as the details modal applies it)
   * reads the number back.
   */
  lemma IdReadsBack(b: Booking)
    ensures ToAppointment(b).id == IntToString(b.id)
    ensures ParseInt(ToAppointment(b).id) == Fin(b.id)
  {
    ParseIntOfIntToString(b.id);
  }

  /** Different bookings get different appointment ids. */
  lemma IdsDistinct(b: Booking, c: Booking)
    requires b.id != c.id
    ensures ToAppointment(b).id != ToAppointment(c).id
  {
    IdReadsBack(b);
    IdReadsBack(c);
  }

  /**
   * The title is the comment when it is not empty, otherwise
   * "Appointment #" followed by the booking number, which reads back from
   * the title; either way it is never empty.
   */
  lemma TitleFallback(b: Booking)
    ensures ToAppointment(b).title == (if b.comment != "" then b.comment else "Appointment #" + IntToString(b.id))
    ensures ToAppointment(b).title != ""
    ensures b.comment == "" ==> ParseInt(ToAppointment(b).title[13..]) == Fin(b.id)
  {
    var fallback := "Appointment #" + IntToString(b.id);
    assert fallback[0] == 'A';
    assert fallback[13..] == IntToString(b.id);
    ParseIntOfIntToString(b.id);
  }

  /** The date reads back as the booking's UTC year, month and day. */
  lemma DateReadsBack(b: Booking)
    requires ValidUtc(b.appointmentTime) && b.appointmentTime.date.year >= 0
    ensures var d := b.appointmentTime.date;
      DateFields(ToAppointment(b).date.value) == (Fin(d.year), Fin(d.month), Fin(d.day))
  {
    FormatDateReads(b.appointmentTime.date);
  }

  // ---------------------------------------------------------------- the selected day

  /** The test `apt => apt.date === selectedDateStr`. */
  function OnDate(selectedDateStr: string): Appointment -> bool {
    (a: Appointment) => a.date == Some(selectedDateStr)
  }

  /** `appointments.filter(apt => apt.date === selectedDateStr)`. */
  function DailyAppointments(apts: seq<Appointment>, selectedDateStr: string): (r: seq<Appointment>)
    ensures |r| <= |apts|
    ensures forall a :: a in r <==> a in apts && a.date == Some(selectedDateStr)
  {
    FilterMembers(apts, OnDate(selectedDateStr));
    Filter(apts, OnDate(selectedDateStr))
  }

  /** The filter keeps the original order: it distributes over concatenation. */
  lemma DailyInOrder(a: seq<Appointment>, b: seq<Appointment>, selectedDateStr: string)
    ensures DailyAppointments(a + b, selectedDateStr)
      == DailyAppointments(a, selectedDateStr) + DailyAppointments(b, selectedDateStr)
  {
    FilterConcat(a, b, OnDate(selectedDateStr));
  }

  /** A booking is shown on the selected day exactly when its UTC date is that day. */
  lemma BookingShownOnItsDay(bookings: seq<Booking>, i: nat, selected: Date)
    requires i < |bookings| && ValidUtc(bookings[i].appointmentTime) && bookings[i].appointmentTime.date.year >= 0
    requires Valid(selected) && selected.year >= 0
    ensures ToAppointment(bookings[i]) in DailyAppointments(ToAppointments(bookings), FormatDate(selected))
      <==> bookings[i].appointmentTime.date == selected
  {
    var d := bookings[i].appointmentTime.date;
    if FormatDate(d) == FormatDate(selected) {
      FormatDateInjective(d, selected);
    }
  }

  // ---------------------------------------------------------------- the mini calendar

  function MonthStart(sel: Date): Date {
    Date(sel.year, sel.month, 1)
  }

  function MonthEnd(sel: Date): Date
    requires 1 <= sel.month <= 12
  {
    Date(sel.year, sel.month, DaysInMonth(sel.year, sel.month))
  }

  /** Days shown before the first of the month: its weekday, as weeks start on Sunday. */
  function Lead(sel: Date): nat
    requires Valid(sel)
  {
    Weekday(MonthStart(sel))
  }

  /** `startOf("month").startOf("week")`: the Sunday on or before the first of the month. */
  function GridStart(sel: Date): Date
    requires Valid(sel)
  {
    Retreat(MonthStart(sel), Lead(sel))
  }

  /** `endOf("month").endOf("week")`: the Saturday on or after the last of the month. */
  function GridEnd(sel: Date): Date
    requires Valid(sel)
  {
    Advance(MonthEnd(sel), 6 - Weekday(MonthEnd(sel)))
  }

  /** The number of days from the grid's first day to its last. */
  function GridLength(sel: Date): nat
    requires Valid(sel)
  {
    Lead(sel) + DaysInMonth(sel.year, sel.month) + (6 - Weekday(MonthEnd(sel)))
  }

  /** The k-th day of the grid. */
  function GridDay(sel: Date, k: nat): Date
    requires Valid(sel)
  {
    Advance(GridStart(sel), k)
  }

  /** One entry of `calendarDays`. */
  datatype CalendarDay = CalendarDay(date: string, isCurrentMonth: bool, isToday: bool, isSelected: bool)

  /** The entry for day d; `isSame(…, "day")` compares whole dates, `month()` only the month. */
  function DayEntry(d: Date, sel: Date, today: Date): CalendarDay {
    CalendarDay(FormatDate(d), d.month == sel.month, d == today, d == sel)
  }

  /** The last of the month lies `DaysInMonth - 1` days after the first. */
  lemma MonthEndNumber(sel: Date)
    requires Valid(sel)
    ensures DayNumber(MonthEnd(sel)) == DayNumber(MonthStart(sel)) + DaysInMonth(sel.year, sel.month) - 1
  {
    var n := DaysInMonth(sel.year, sel.month);
    AdvanceInMonth(sel.year, sel.month, n);
    AdvanceNumber(MonthStart(sel), n - 1);
  }

  /** The grid runs from `GridStart` to `GridEnd`, one day at a time. */
  lemma GridEndNumber(sel: Date)
    requires Valid(sel)
    ensures DayNumber(GridStart(sel)) == DayNumber(MonthStart(sel)) - Lead(sel)
    ensures DayNumber(GridEnd(sel)) == DayNumber(GridStart(sel)) + GridLength(sel) - 1
  {
    RetreatNumber(MonthStart(sel), Lead(sel));
    AdvanceNumber(MonthEnd(sel), 6 - Weekday(MonthEnd(sel)));
    MonthEndNumber(sel);
  }

  /** Rounding a day number down to a multiple of seven lands on a Sunday. */
  lemma WeekFloor(x: int)
    ensures (x - x % 7) % 7 == 0
  {
    assert x - x % 7 == 7 * (x / 7);
  }

  /** Rounding a day number up to one short of a multiple of seven lands on a Saturday. */
  lemma WeekCeiling(x: int)
    ensures (x + 6 - x % 7) % 7 == 6
  {
    assert x + 6 - x % 7 == 7 * (x / 7) + 6;
  }

  /**
   * A month of n days starting at day number f, widened back to a Sunday and
   * forward to a Saturday, spans four to six whole weeks.
   */
  lemma WeekSpan(f: int, n: int)
    requires 28 <= n <= 31
    ensures var len := f % 7 + n + (6 - (f + n - 1) % 7); len % 7 == 0 && 28 <= len <= 42
  {
    var q, a := f / 7, f % 7;
    var p, b := (f + n - 1) / 7, (f + n - 1) % 7;
    assert f == 7 * q + a && f + n - 1 == 7 * p + b;
    assert 7 * (p - q) == n - 1 - b + a;
    assert 3 <= p - q <= 5;
    assert f % 7 + n + (6 - (f + n - 1) % 7) == 7 * (p - q + 1);
  }

  lemma GridStartsOnSunday(sel: Date)
    requires Valid(sel)
    ensures Weekday(GridStart(sel)) == 0
  {
    RetreatNumber(MonthStart(sel), Lead(sel));
    WeekFloor(DayNumber(MonthStart(sel)));
  }

  lemma GridEndsOnSaturday(sel: Date)
    requires Valid(sel)
    ensures Weekday(GridEnd(sel)) == 6
  {
    AdvanceNumber(MonthEnd(sel), 6 - Weekday(MonthEnd(sel)));
    WeekCeiling(DayNumber(MonthEnd(sel)));
  }

  lemma GridLengthInWeeks(sel: Date)
    requires Valid(sel)
    ensures GridLength(sel) % 7 == 0 && 28 <= GridLength(sel) <= 42
  {
    MonthEndNumber(sel);
    WeekSpan(DayNumber(MonthStart(sel)), DaysInMonth(sel.year, sel.month));
  }

  /** The grid starts on a Sunday, ends on a Saturday and holds whole weeks: four to six of them. */
  lemma GridWholeWeeks(sel: Date)
    requires Valid(sel)
    ensures Weekday(GridStart(sel)) == 0 && Weekday(GridEnd(sel)) == 6
    ensures GridLength(sel) % 7 == 0 && 28 <= GridLength(sel) <= 42
  {
    GridStartsOnSunday(sel);
    GridEndsOnSaturday(sel);
    GridLengthInWeeks(sel);
  }

  /** Every day of the selected month is in the grid: day j of the month is entry `Lead + j - 1`. */
  lemma MonthDayInGrid(sel: Date, j: int)
    requires Valid(sel) && 1 <= j <= DaysInMonth(sel.year, sel.month)
    ensures Lead(sel) + j - 1 < GridLength(sel)
    ensures GridDay(sel, Lead(sel) + j - 1) == Date(sel.year, sel.month, j)
  {
    AdvanceRetreat(MonthStart(sel), Lead(sel));
    AdvanceAdd(GridStart(sel), Lead(sel), j - 1);
    AdvanceInMonth(sel.year, sel.month, j);
  }

  /** Different positions of the grid hold different days. */
  lemma GridDaysDistinct(sel: Date, i: nat, k: nat)
    requires Valid(sel) && i != k
    ensures GridDay(sel, i) != GridDay(sel, k)
  {
    AdvanceNumber(GridStart(sel), i);
    AdvanceNumber(GridStart(sel), k);
  }

  /** Exactly one entry of the grid is the selected date (`isSelected`): entry `Lead + day - 1`. */
  lemma SelectedExactlyOnce(sel: Date, k: nat)
    requires Valid(sel) && k < GridLength(sel)
    ensures GridDay(sel, k) == sel <==> k == Lead(sel) + sel.day - 1
  {
    MonthDayInGrid(sel, sel.day);
    if k != Lead(sel) + sel.day - 1 {
      GridDaysDistinct(sel, k, Lead(sel) + sel.day - 1);
    }
  }

  /** The grid days before the first of the month belong to the month before. */
  lemma LeadingDaysInPreviousMonth(sel: Date, k: nat)
    requires Valid(sel) && k < Lead(sel)
    ensures GridDay(sel, k).month == PrevMonth(sel.year, sel.month).1 != sel.month
  {
    AdvanceRetreatPartial(MonthStart(sel), Lead(sel), k);
    RetreatFromFirst(sel.year, sel.month, Lead(sel) - k);
  }

  /** The grid days after the last of the month belong to the month after. */
  lemma TrailingDaysInNextMonth(sel: Date, k: nat)
    requires Valid(sel) && Lead(sel) + DaysInMonth(sel.year, sel.month) <= k < GridLength(sel)
    ensures GridDay(sel, k).month == NextMonth(sel.year, sel.month).1 != sel.month
  {
    var n := DaysInMonth(sel.year, sel.month);
    var last := Lead(sel) + n - 1;
    MonthDayInGrid(sel, n);
    AdvanceAdd(GridStart(sel), last, k - last);
    AdvanceFromLast(sel.year, sel.month, k - last);
  }

  /**
   * An entry's month equals the selected month (`isCurrentMonth`) exactly when
   * its day lies in the selected month of the selected year.
   */
  lemma CurrentMonthExactly(sel: Date, k: nat)
    requires Valid(sel) && k < GridLength(sel)
    ensures GridDay(sel, k).month == sel.month <==> Lead(sel) <= k < Lead(sel) + DaysInMonth(sel.year, sel.month)
    ensures GridDay(sel, k).month == sel.month ==> GridDay(sel, k).year == sel.year
  {
    var n := DaysInMonth(sel.year, sel.month);
    if k < Lead(sel) {
      LeadingDaysInPreviousMonth(sel, k);
    } else if k < Lead(sel) + n {
      MonthDayInGrid(sel, k - Lead(sel) + 1);
    } else {
      TrailingDaysInNextMonth(sel, k);
    }
  }

  /** `days` holds the entries of the first `|days|` grid days, in order. */
  predicate IsGridPrefix(days: seq<CalendarDay>, sel: Date, today: Date)
    requires Valid(sel)
    decreases |days|
  {
    days == [] ||
    (IsGridPrefix(days[..|days| - 1], sel, today) && days[|days| - 1] == DayEntry(GridDay(sel, |days| - 1), sel, today))
  }

  lemma {:induction false} GridPrefixAt(days: seq<CalendarDay>, sel: Date, today: Date, k: nat)
    requires Valid(sel) && IsGridPrefix(days, sel, today) && k < |days|
    ensures days[k] == DayEntry(GridDay(sel, k), sel, today)
    decreases |days|
  {
    if k < |days| - 1 {
      GridPrefixAt(days[..|days| - 1], sel, today, k);
    }
  }

  lemma AppendGridDay(days: seq<CalendarDay>, sel: Date, today: Date)
    requires Valid(sel) && IsGridPrefix(days, sel, today)
    ensures IsGridPrefix(days + [DayEntry(GridDay(sel, |days|), sel, today)], sel, today)
  {
    var t := days + [DayEntry(GridDay(sel, |days|), sel, today)];
    assert t[..|t| - 1] == days;
  }

  /**
   * `calendarDays`: one entry per day from the grid's first day while the day
   * is before or on the grid's last day (`isBefore(endDate) || isSame(endDate, "day")`).
   */
  method CalendarDays(sel: Date, today: Date) returns (days: seq<CalendarDay>)
    requires Valid(sel)
    ensures |days| == GridLength(sel)
    ensures forall k :: 0 <= k < |days| ==> days[k] == DayEntry(GridDay(sel, k), sel, today)
  {
    var startDate := GridStart(sel);
    var endDate := GridEnd(sel);
    days := [];
    var currentDate := startDate;
    GridInRange(sel, 0);
    while DayNumber(currentDate) <= DayNumber(endDate)
      invariant |days| <= GridLength(sel)
      invariant currentDate == GridDay(sel, |days|)
      invariant IsGridPrefix(days, sel, today)
      decreases GridLength(sel) - |days|
    {
      GridInRange(sel, |days|);
      GridStep(days, sel, today);
      days := days + [DayEntry(currentDate, sel, today)];
      currentDate := NextDay(currentDate);
    }
    GridInRange(sel, |days|);
    GridPrefixAll(days, sel, today);
  }

  /** The k-th grid day is on or before the grid's last day exactly while k is inside the grid. */
  lemma GridInRange(sel: Date, k: nat)
    requires Valid(sel)
    ensures DayNumber(GridDay(sel, k)) <= DayNumber(GridEnd(sel)) <==> k < GridLength(sel)
  {
    GridEndNumber(sel);
    AdvanceNumber(GridStart(sel), k);
  }

  /** One turn of the `calendarDays` loop: the entry of the current grid day is appended and the next day comes up. */
  lemma GridStep(days: seq<CalendarDay>, sel: Date, today: Date)
    requires Valid(sel) && IsGridPrefix(days, sel, today)
    ensures var d := GridDay(sel, |days|);
      IsGridPrefix(days + [DayEntry(d, sel, today)], sel, today) && GridDay(sel, |days| + 1) == NextDay(d)
  {
    AppendGridDay(days, sel, today);
  }

  lemma GridPrefixAll(days: seq<CalendarDay>, sel: Date, today: Date)
    requires Valid(sel) && IsGridPrefix(days, sel, today)
    ensures forall k :: 0 <= k < |days| ==> days[k] == DayEntry(GridDay(sel, k), sel, today)
  {
    forall k | 0 <= k < |days|
      ensures days[k] == DayEntry(GridDay(sel, k), sel, today)
    {
      GridPrefixAt(days, sel, today, k);
    }
  }

  /** `day.date.split("-").pop()?.replace(/^0/, "")`: the last field, one leading '0' removed. */
  function DayLabel(date: string): string {
    var parts := Split(date, '-');
    var last := parts[|parts| - 1];
    if |last| > 0 && last[0] == '0' then last[1..] else last
  }

  /** A two-digit field loses its padding zero and nothing else. */
  lemma UnpaddedDay(n: int)
    requires 1 <= n < 100
    ensures var p := Pad2(n);
      (if |p| > 0 && p[0] == '0' then p[1..] else p) == NatToString(n)
  {
    if n >= 10 {
      NatToStringNoLeadingZero(n);
    } else {
      assert Pad2(n) == "0" + NatToString(n);
    }
  }

  /** The label of a grid day is its day of the month without padding: "7", "31". */
  lemma DayLabelOfDate(d: Date)
    requires Valid(d) && d.year >= 0
    ensures DayLabel(FormatDate(d)) == NatToString(d.day)
  {
    FormatDateSplit(d);
    UnpaddedDay(d.day);
  }

  // ---------------------------------------------------------------- moving the selected date

  /** `date.add(delta, "month")`: the same day delta months on, clamped to that month's length. */
  function AddMonths(d: Date, delta: int): (r: Date)
    requires Valid(d)
    ensures Valid(r)
    ensures r.year * 12 + r.month == d.year * 12 + d.month + delta
    ensures r.day == d.day || (r.day < d.day && r.day == DaysInMonth(r.year, r.month))
  {
    var index := d.year * 12 + (d.month - 1) + delta;
    var y, m := index / 12, index % 12 + 1;
    var n := DaysInMonth(y, m);
    Date(y, m, if d.day <= n then d.day else n)
  }

  /** A month on and a month back returns to the same date when the day exists in every month. */
  lemma MonthBackAndForth(d: Date)
    requires Valid(d) && d.day <= 28
    ensures AddMonths(AddMonths(d, 1), -1) == d
    ensures AddMonths(AddMonths(d, -1), 1) == d
  {
  }

  /** Otherwise it need not: 31 January, a month on and back, is 28 January. */
  lemma MonthStepsClampDay()
    ensures AddMonths(Date(2025, 1, 31), 1) == Date(2025, 2, 28)
    ensures AddMonths(AddMonths(Date(2025, 1, 31), 1), -1) == Date(2025, 1, 28)
  {
  }

  /** The calendar page: the selected date, the loaded appointments and the loading flag. */
  class Calendar {
    var selectedDate: Date
    var appointments: seq<Appointment>
    var isLoading: bool
    const store: AppointmentStore.Store

    predicate Valid()
      reads this
    {
      Dates.Valid(selectedDate)
    }

    /** The page opens on today, with nothing loaded yet. */
    constructor (store: AppointmentStore.Store, today: Date)
      requires Dates.Valid(today)
      ensures Valid() && this.store == store
      ensures selectedDate == today && appointments == [] && isLoading
    {
      this.store := store;
      selectedDate := today;
      appointments := [];
      isLoading := true;
    }

    /** The fetch effect: the transformed bookings on success, the old list on failure; loading ends either way. */
    method FetchAppointments(result: Option<seq<Booking>>)
      modifies this
      ensures selectedDate == old(selectedDate) && !isLoading
      ensures result.Some? ==> appointments == ToAppointments(result.value)
      ensures result.None? ==> appointments == old(appointments)
    {
      isLoading := true;
      if result.Some? {
        appointments := ToAppointments(result.value);
      }
      isLoading := false;
    }

    /** The appointments of the selected day, as `DayViewWithSlots` receives them. */
    function Daily(): seq<Appointment>
      reads this
    {
      DailyAppointments(appointments, FormatDate(selectedDate))
    }

    method HandlePreviousDay()
      requires Valid()
      modifies this
      ensures Valid() && selectedDate == PrevDay(old(selectedDate))
      ensures DayNumber(selectedDate) == DayNumber(old(selectedDate)) - 1
      ensures appointments == old(appointments) && isLoading == old(isLoading)
    {
      PrevDayNumber(selectedDate);
      selectedDate := PrevDay(selectedDate);
    }

    method HandleNextDay()
      requires Valid()
      modifies this
      ensures Valid() && selectedDate == NextDay(old(selectedDate))
      ensures DayNumber(selectedDate) == DayNumber(old(selectedDate)) + 1
      ensures appointments == old(appointments) && isLoading == old(isLoading)
    {
      NextDayNumber(selectedDate);
      selectedDate := NextDay(selectedDate);
    }

    method HandleToday(today: Date)
      requires Dates.Valid(today)
      modifies this
      ensures Valid() && selectedDate == today
      ensures appointments == old(appointments) && isLoading == old(isLoading)
    {
      selectedDate := today;
    }

    /** A click on a mini-calendar entry selects that entry's day. */
    method SelectDay(d: Date)
      requires Dates.Valid(d)
      modifies this
      ensures Valid() && selectedDate == d
      ensures appointments == old(appointments) && isLoading == old(isLoading)
    {
      selectedDate := d;
    }

    /** The previous-month and next-month buttons. */
    method ShiftMonth(delta: int)
      requires Valid() && (delta == 1 || delta == -1)
      modifies this
      ensures Valid() && selectedDate == AddMonths(old(selectedDate), delta)
      ensures appointments == old(appointments) && isLoading == old(isLoading)
    {
      selectedDate := AddMonths(selectedDate, delta);
    }

    /** `handleAddEvent`: opens the appointment form through the store. */
    method HandleAddEvent()
      modifies store
      ensures store.Snapshot() == AppointmentStore.SetFormOpen(old(store.Snapshot()), true)
    {
      store.SetAppointmentFormOpen(true);
    }
  }
}
