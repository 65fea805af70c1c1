/**
 * The calendar's computations: which bookings fall on a day and in a time
 * slot, the time slots of a day, the 12-hour labels, the week's days as
 * day numbers, and the view dispatch. Dates are whole day numbers (day 0
 * is 1 January 1970, a Thursday); the HTML is left out.
 */
module Calendar {
  import opened Wrappers
  import opened Strings
  import opened Seqs
  import opened Conflicts

  // ---------------------------------------------------------------------
  // Bookings of a day and of a slot

  /** `schedule.days && schedule.days.includes(dayName)`. */
  predicate OnDay(s: Schedule, dayName: string) {
    s.days.Some? && dayName in s.days.value
  }

  function OnDayTest(dayName: string): Schedule -> bool { (s: Schedule) => OnDay(s, dayName) }

  /** `getSchedulesForDate`, with the weekday name of the date as the parameter. */
  function SchedulesForDate(schedules: seq<Schedule>, dayName: string): seq<Schedule> {
    Filter(schedules, OnDayTest(dayName))
  }

  /** A booking is listed for a day exactly when it has a days list naming that day. */
  lemma SchedulesForDateMembers(schedules: seq<Schedule>, dayName: string)
    ensures forall s :: s in SchedulesForDate(schedules, dayName) <==>
      s in schedules && s.days.Some? && dayName in s.days.value
  {
    FilterMembers(schedules, OnDayTest(dayName));
  }

  function InSlotTest(slotStart: int): Schedule -> bool { (s: Schedule) => InBooking(s, slotStart) }

  /** `getSchedulesForTimeSlot`: the bookings running at the slot's first minute. */
  function SchedulesForTimeSlot(daySchedules: seq<Schedule>, hour: nat, minute: nat): seq<Schedule> {
    Filter(daySchedules, InSlotTest(hour * 60 + minute))
  }

  /** A booking is in the slot exactly when the slot's first minute lies in its half-open interval. */
  lemma SchedulesForTimeSlotMembers(daySchedules: seq<Schedule>, hour: nat, minute: nat)
    ensures forall s :: s in SchedulesForTimeSlot(daySchedules, hour, minute) <==>
      s in daySchedules && StartOf(s) <= hour * 60 + minute < EndOf(s)
  {
    FilterMembers(daySchedules, InSlotTest(hour * 60 + minute));
  }

  /** The slot lists keep the day's order: filtering a concatenation filters each part. */
  lemma SchedulesForTimeSlotKeepsOrder(a: seq<Schedule>, b: seq<Schedule>, hour: nat, minute: nat)
    ensures SchedulesForTimeSlot(a + b, hour, minute) == SchedulesForTimeSlot(a, hour, minute) + SchedulesForTimeSlot(b, hour, minute)
  {
    FilterConcat(a, b, InSlotTest(hour * 60 + minute));
  }

  /** A booking ending at the minute a slot starts is not in that slot. */
  lemma EndingBookingLeavesSlot(daySchedules: seq<Schedule>, s: Schedule)
    requires s in daySchedules && EndOf(s) > 0
    ensures var m := EndOf(s);
      s !in SchedulesForTimeSlot(daySchedules, m / 60, m % 60)
  {
    SchedulesForTimeSlotMembers(daySchedules, EndOf(s) / 60, EndOf(s) % 60);
  }

  // ---------------------------------------------------------------------
  // Time slots

  /**
   * The number of loop rounds of `renderTimeSlots`: the rounds `i` with
   * `i < totalMinutes / timeSlotDuration`, the division being exact.
   */
  function SlotCount(startHour: nat, endHour: nat, duration: nat): nat
    requires duration > 0
  {
    var total := (endHour - startHour) * 60;
    if total <= 0 then 0 else (total + duration - 1) / duration
  }

  /** Round `i` runs exactly when `i * duration` is below the day's minutes. */
  lemma SlotCountMeans(startHour: nat, endHour: nat, duration: nat, i: nat)
    requires duration > 0
    ensures i < SlotCount(startHour, endHour, duration) <==> i * duration < (endHour - startHour) * 60
  {
    var total := (endHour - startHour) * 60;
    if total > 0 {
      var q := total + duration - 1;
      var n := q / duration;
      assert q == n * duration + q % duration;
      if i < n {
        MulMonotone(i, n - 1, duration);
        assert (n - 1) * duration == n * duration - duration;
      } else {
        MulMonotone(n, i, duration);
      }
    }
  }

  lemma MulMonotone(a: nat, b: nat, c: nat)
    requires a <= b
    ensures a * c <= b * c
  {
    assert b * c == a * c + (b - a) * c;
  }

  /** The first minute of slot `i`, which the source computes as a fractional hour. */
  function SlotMinute(startHour: nat, duration: nat, i: nat): nat {
    startHour * 60 + i * duration
  }

  /** The defaults, 07:00 to 21:00 in 30-minute slots, give 28 slots, the last at 20:30. */
  lemma DefaultSlots()
    ensures SlotCount(7, 21, 30) == 28
    ensures SlotMinute(7, 30, 0) == 420 && SlotMinute(7, 30, 27) == 1230
  {
  }

  /** Every slot starts within the day's hours, each one `duration` after the previous. */
  lemma SlotsWithinDay(startHour: nat, endHour: nat, duration: nat, i: nat)
    requires duration > 0 && i < SlotCount(startHour, endHour, duration)
    ensures startHour * 60 <= SlotMinute(startHour, duration, i) < endHour * 60
    ensures i > 0 ==> SlotMinute(startHour, duration, i) == SlotMinute(startHour, duration, i - 1) + duration
  {
    SlotCountMeans(startHour, endHour, duration, i);
  }

  // ---------------------------------------------------------------------
  // 12-hour labels

  /** `hour % 12 || 12`. */
  function DisplayHour(hour: nat): (h: nat)
    ensures 1 <= h <= 12 && h % 12 == hour % 12
  {
    if hour % 12 == 0 then 12 else hour % 12
  }

  function Meridiem(hour: nat): string { if hour >= 12 then "PM" else "AM" }

  /** `formatTime`: display hour, colon, two-digit minute, space, AM or PM. */
  function FormatTime(hour: nat, minute: nat): string {
    NatToString(DisplayHour(hour)) + ":" + PadStart2(NatToString(minute)) + " " + Meridiem(hour)
  }

  /** Reads a label of the form "H:MM AM" back into the hour of the day and the minute. */
  function ParseTime12(text: string): Option<(nat, nat)> {
    ParseLabelParts(Split(text, ' '))
  }

  /** The clock text and the meridiem, as `ParseTime12` splits them at the space. */
  function ParseLabelParts(parts: seq<string>): Option<(nat, nat)> {
    if |parts| == 2 && (parts[1] == "AM" || parts[1] == "PM") then ParseClockDigits(Split(parts[0], ':'), parts[1] == "PM")
    else None
  }

  /** The hour and minute digits, as `ParseTime12` splits them at the colon. */
  function ParseClockDigits(clock: seq<string>, pm: bool): Option<(nat, nat)> {
    if |clock| == 2 && AllDigits(clock[0]) && AllDigits(clock[1]) then
      Some((DecimalValue(clock[0]) % 12 + (if pm then 12 else 0), DecimalValue(clock[1])))
    else None
  }

  /** Two digit texts joined by a colon split back at the colon, and contain no space. */
  lemma DigitsSplitAtColon(a: string, b: string)
    requires AllDigits(a) && AllDigits(b)
    ensures Split(a + ":" + b, ':') == [a, b] && ' ' !in a + ":" + b
  {
    NoneBut(a, ':');
    NoneBut(b, ':');
    NoneBut(a, ' ');
    NoneBut(b, ' ');
    assert a + ":" + b == a + [':'] + b;
    SplitAround(a, ':', b);
    SplitNone(b, ':');
  }

  /** The clock part of a label splits at its colon into the two numbers' digits. */
  lemma ClockPart(h: nat, minute: nat)
    ensures var a := NatToString(h);
      var b := PadStart2(NatToString(minute));
      Split(a + ":" + b, ':') == [a, b] && ' ' !in a + ":" + b && AllDigits(a) && AllDigits(b)
      && DecimalValue(a) == h && DecimalValue(b) == minute
  {
    PaddedDecimal(minute);
    NatToStringRoundTrip(h);
    DigitsSplitAtColon(NatToString(h), PadStart2(NatToString(minute)));
  }

  /** Reading back the label of a time of day gives the hour and minute again. */
  /** A label made of two digit texts and a meridiem reads back as the values of its digits. */
  lemma ParseLabel(a: string, b: string, meridiem: string)
    requires AllDigits(a) && AllDigits(b) && ' ' !in meridiem
    ensures ParseTime12(a + ":" + b + " " + meridiem) == ParseLabelParts([a + ":" + b, meridiem])
    ensures Split(a + ":" + b, ':') == [a, b]
  {
    DigitsSplitAtColon(a, b);
    LabelSplitsAtSpace(a + ":" + b, meridiem);
  }

  /** A text without spaces, a space and another such text split back at the space. */
  lemma LabelSplitsAtSpace(c: string, meridiem: string)
    requires ' ' !in c && ' ' !in meridiem
    ensures Split(c + " " + meridiem, ' ') == [c, meridiem]
  {
    SplitAround(c, ' ', meridiem);
    SplitNone(meridiem, ' ');
    assert c + " " + meridiem == c + [' '] + meridiem;
  }

  lemma FormatTimeRoundTrip(hour: nat, minute: nat)
    requires hour < 24
    ensures ParseTime12(FormatTime(hour, minute)) == Some((hour, minute))
  {
    var a := NatToString(DisplayHour(hour));
    var b := PadStart2(NatToString(minute));
    ClockPart(DisplayHour(hour), minute);
    assert ' ' !in Meridiem(hour);
    ParseLabel(a, b, Meridiem(hour));
    assert ParseLabelParts([a + ":" + b, Meridiem(hour)]) == ParseClockDigits([a, b], hour >= 12);
    TwelveHourClock(hour);
  }

  /** The display hour and the meridiem give back the hour of the day. */
  lemma TwelveHourClock(hour: nat)
    requires hour < 24
    ensures DisplayHour(hour) % 12 + (if hour >= 12 then 12 else 0) == hour
  {
  }

  // ---------------------------------------------------------------------
  // Weeks

  /** `date.getDay()` of a day number: 0 is Sunday; day 0 was a Thursday. */
  function Weekday(day: int): (w: nat)
    ensures w < 7
  {
    (day + 4) % 7
  }

  /** `getWeekStart`: back by the weekday index, to the Sunday of the same week. */
  function GetWeekStart(day: int): (start: int)
    ensures Weekday(start) == 0 && day - 6 <= start <= day
  {
    day - Weekday(day)
  }

  /** The days `weekStart + i`, i in lo .. hi-1. */
  function DaysFrom(weekStart: int, lo: nat, hi: nat): (r: seq<int>)
    requires lo <= hi
    ensures |r| == hi - lo && forall k :: 0 <= k < |r| ==> r[k] == weekStart + lo + k
    decreases hi - lo
  {
    if lo == hi then [] else [weekStart + lo] + DaysFrom(weekStart, lo + 1, hi)
  }

  lemma DaysFromSnoc(weekStart: int, lo: nat, hi: nat)
    requires lo <= hi
    ensures DaysFrom(weekStart, lo, hi + 1) == DaysFrom(weekStart, lo, hi) + [weekStart + hi]
  {
  }

  lemma DaysFromTail(weekStart: int, lo: nat, hi: nat)
    requires lo < hi
    ensures DaysFrom(weekStart, lo, hi)[1..] == DaysFrom(weekStart, lo + 1, hi)
  {
  }

  // ---------------------------------------------------------------------
  // The view

  datatype Body = DayView | WeekView | MonthView

  /** `renderBody`: the day, week or month view, the week view for any other name. */
  function RenderBody(view: string): (b: Body)
    ensures b == DayView <==> view == "day"
    ensures b == MonthView <==> view == "month"
  {
    if view == "day" then DayView else if view == "month" then MonthView else WeekView
  }

  /** One row of the day view: the label and the bookings running at the slot. */
  datatype SlotRow = SlotRow(minute: nat, text: string, schedules: seq<Schedule>)

  function SlotRowAt(daySchedules: seq<Schedule>, m: nat): SlotRow {
    SlotRow(m, FormatTime(m / 60, m % 60), SchedulesForTimeSlot(daySchedules, m / 60, m % 60))
  }

  /** Row `k` of the day view, as a function of `k`. */
  function SlotRowOf(daySchedules: seq<Schedule>, startHour: nat, duration: nat): nat -> SlotRow {
    (k: nat) => SlotRowAt(daySchedules, SlotMinute(startHour, duration, k))
  }

  /** One row of the week view: the label and, per day of the week, the bookings running at the slot. */
  datatype WeekRow = WeekRow(minute: nat, text: string, cells: seq<seq<Schedule>>)

  function CellFor(schedules: seq<Schedule>, m: nat): string -> seq<Schedule> {
    (dayName: string) => SchedulesForTimeSlot(SchedulesForDate(schedules, dayName), m / 60, m % 60)
  }

  /** The caller's settings; an absent one keeps the default. */
  datatype Options = Options(view: Option<string>, startHour: Option<nat>, endHour: Option<nat>,
    timeSlotDuration: Option<nat>, showWeekends: Option<bool>, schedules: Option<seq<Schedule>>)

  /** The week view's row for the slot starting at minute `m`: its label and one cell per day. */
  function WeekRowAt(schedules: seq<Schedule>, m: nat, weekDays: seq<string>): WeekRow {
    WeekRow(m, FormatTime(m / 60, m % 60), Map(weekDays, CellFor(schedules, m)))
  }

  /** The week row of minute `m` has the slot's label and, for each day in order, the bookings of that day running then. */
  lemma WeekRowCells(schedules: seq<Schedule>, m: nat, weekDays: seq<string>)
    ensures var r := WeekRowAt(schedules, m, weekDays);
      r.minute == m && r.text == FormatTime(m / 60, m % 60) && |r.cells| == |weekDays|
      && forall d :: 0 <= d < |weekDays| ==>
        r.cells[d] == SchedulesForTimeSlot(SchedulesForDate(schedules, weekDays[d]), m / 60, m % 60)
  {
    forall d | 0 <= d < |weekDays|
      ensures WeekRowAt(schedules, m, weekDays).cells[d]
        == SchedulesForTimeSlot(SchedulesForDate(schedules, weekDays[d]), m / 60, m % 60)
    {
      MapAt(weekDays, CellFor(schedules, m), d);
    }
  }

  /** Row `k` of the week view, as a function of `k`. */
  function WeekRowOf(schedules: seq<Schedule>, weekDays: seq<string>, startHour: nat, duration: nat): nat -> WeekRow {
    (k: nat) => WeekRowAt(schedules, SlotMinute(startHour, duration, k), weekDays)
  }

  class CalendarSystem {
    var view: string
    var startHour: nat
    var endHour: nat
    var timeSlotDuration: nat
    var showWeekends: bool
    var schedules: seq<Schedule>

    /** The defaults — week view, 7 to 21, 30-minute slots, no weekends — under the caller's settings. */
    constructor(options: Options)
      ensures view == options.view.GetOr("week") && startHour == options.startHour.GetOr(7)
      ensures endHour == options.endHour.GetOr(21) && timeSlotDuration == options.timeSlotDuration.GetOr(30)
      ensures showWeekends == options.showWeekends.GetOr(false) && schedules == options.schedules.GetOr([])
    {
      view := options.view.GetOr("week");
      startHour := options.startHour.GetOr(7);
      endHour := options.endHour.GetOr(21);
      timeSlotDuration := options.timeSlotDuration.GetOr(30);
      showWeekends := options.showWeekends.GetOr(false);
      schedules := options.schedules.GetOr([]);
    }

    /** `changeView`: stores the view name; nothing else changes. */
    method ChangeView(v: string)
      modifies this`view
      ensures view == v
    {
      view := v;
    }

    /** `updateSchedules`. */
    method UpdateSchedules(ss: seq<Schedule>)
      modifies this`schedules
      ensures schedules == ss
    {
      schedules := ss;
    }

    /** `renderTimeSlots`: one row per slot, in order, labelled and listing the bookings running then. */
    method RenderTimeSlots(daySchedules: seq<Schedule>) returns (rows: seq<SlotRow>)
      requires timeSlotDuration > 0
      ensures |rows| == SlotCount(startHour, endHour, timeSlotDuration)
      ensures forall i :: 0 <= i < |rows| ==> rows[i] == SlotRowAt(daySchedules, SlotMinute(startHour, timeSlotDuration, i))
    {
      var count := SlotCount(startHour, endHour, timeSlotDuration);
      ghost var row := SlotRowOf(daySchedules, startHour, timeSlotDuration);
      rows := [];
      var i := 0;
      while i < count
        invariant 0 <= i <= count && rows == Tabulate(row, i)
      {
        var m := SlotMinute(startHour, timeSlotDuration, i);
        rows := rows + [SlotRowAt(daySchedules, m)];
        i := i + 1;
      }
      forall i | 0 <= i < |rows| ensures rows[i] == SlotRowAt(daySchedules, SlotMinute(startHour, timeSlotDuration, i)) {
        TabulateAt(row, count, i);
      }
    }

    /**
     * `renderWeekTimeSlots`: per slot, the label and one cell per day of the
     * week, in order. `renderWeekView` passes the days of GetWeekDays; here
     * each is given by the weekday name `getSchedulesForDate` matches on.
     */
    method RenderWeekTimeSlots(weekDays: seq<string>) returns (rows: seq<WeekRow>)
      requires timeSlotDuration > 0
      ensures |rows| == SlotCount(startHour, endHour, timeSlotDuration)
      ensures forall i :: 0 <= i < |rows| ==>
        var m := SlotMinute(startHour, timeSlotDuration, i);
        rows[i].minute == m && rows[i].text == FormatTime(m / 60, m % 60) && |rows[i].cells| == |weekDays|
        && forall d :: 0 <= d < |weekDays| ==>
          rows[i].cells[d] == SchedulesForTimeSlot(SchedulesForDate(schedules, weekDays[d]), m / 60, m % 60)
    {
      var count := SlotCount(startHour, endHour, timeSlotDuration);
      ghost var row := WeekRowOf(schedules, weekDays, startHour, timeSlotDuration);
      rows := [];
      var i := 0;
      while i < count
        invariant 0 <= i <= count && rows == Tabulate(row, i)
      {
        var m := SlotMinute(startHour, timeSlotDuration, i);
        rows := rows + [WeekRowAt(schedules, m, weekDays)];
        i := i + 1;
      }
      forall i | 0 <= i < |rows|
        ensures var m := SlotMinute(startHour, timeSlotDuration, i);
          rows[i].minute == m && rows[i].text == FormatTime(m / 60, m % 60) && |rows[i].cells| == |weekDays|
          && forall d :: 0 <= d < |weekDays| ==>
            rows[i].cells[d] == SchedulesForTimeSlot(SchedulesForDate(schedules, weekDays[d]), m / 60, m % 60)
      {
        TabulateAt(row, count, i);
        WeekRowCells(schedules, SlotMinute(startHour, timeSlotDuration, i), weekDays);
      }
    }


    /**
     * `getWeekDays` as evidently intended (see WeekDaysAsWritten): all
     * seven days with weekends; without, the loop's Monday to Friday,
     * with no further slice.
     */
    method GetWeekDays(weekStart: int) returns (days: seq<int>)
      ensures days == WeekDaysIntended(weekStart, showWeekends)
    {
      days := [];
      var i := 0;
      while i < 7
        invariant 0 <= i <= 7
        invariant days == if showWeekends then DaysFrom(weekStart, 0, i)
          else if i <= 1 then [] else DaysFrom(weekStart, 1, if i < 6 then i else 6)
      {
        if showWeekends {
          DaysFromSnoc(weekStart, 0, i);
        } else if 1 <= i < 6 {
          DaysFromSnoc(weekStart, 1, i);
        }
        if showWeekends || (i > 0 && i < 6) {
          days := days + [weekStart + i];
        }
        i := i + 1;
      }
    }
  }

  /** `getWeekDays` as evidently intended: the whole week, or Monday to Friday. */
  function WeekDaysIntended(weekStart: int, showWeekends: bool): seq<int> {
    if showWeekends then DaysFrom(weekStart, 0, 7) else DaysFrom(weekStart, 1, 6)
  }

  /** From a Sunday, the intended working week is exactly the five days whose weekday is 1 to 5. */
  lemma WeekDaysIntendedAreWorkingDays(weekStart: int, d: int)
    requires Weekday(weekStart) == 0
    ensures d in WeekDaysIntended(weekStart, false) <==> weekStart <= d < weekStart + 7 && 1 <= Weekday(d) <= 5
    ensures |WeekDaysIntended(weekStart, false)| == 5
  {
    var r := WeekDaysIntended(weekStart, false);
    if weekStart <= d < weekStart + 7 {
      assert Weekday(d) == d - weekStart by {
        assert (weekStart + 4) % 7 == 0;
      }
      if 1 <= Weekday(d) <= 5 {
        assert r[d - weekStart - 1] == d;
      }
    }
  }

  /**
   * `getWeekDays` as written: without weekends the loop collects Monday to
   * Friday and `slice(1, 6)` then drops the first of them.
   */
  function WeekDaysAsWritten(weekStart: int, showWeekends: bool): seq<int> {
    if showWeekends then DaysFrom(weekStart, 0, 7) else DaysFrom(weekStart, 1, 6)[1..]
  }

  /** As written, the week view without weekends shows four days and leaves out Monday. */
  lemma WeekDaysAsWrittenDropMonday(weekStart: int)
    requires Weekday(weekStart) == 0
    ensures var r := WeekDaysAsWritten(weekStart, false);
      |r| == 4 && weekStart + 1 !in r && Weekday(weekStart + 1) == 1
      && r == WeekDaysIntended(weekStart, false)[1..]
  {
    DaysFromTail(weekStart, 1, 6);
    assert (weekStart + 4) % 7 == 0;
  }
}
