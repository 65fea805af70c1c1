/**
 * The conflict engine of the scheduling front end: room and faculty
 * double-booking, room-capacity violations, the window two bookings share,
 * the alternative-room suggestion, validation of a candidate booking, the
 * advisory warnings, the summary of the last detection pass and the
 * automatic room-change proposals.
 *
 * The pure checks are functions; `ConflictDetector` is the object whose
 * `schedules` and `conflicts` fields the JavaScript class updates in place.
 */
module Conflicts {
  import opened Wrappers
  import opened Strings
  import opened Seqs
  import opened Scans

  // ---------------------------------------------------------------------
  // Times of day

  /**
   * A time of day as `timeToMinutes` reads it: the number before the
   * colon and the number after it. Nothing bounds them; "25:99" is read
   * as 25 * 60 + 99 like any other text.
   */
  datatype Clock = Clock(hours: nat, minutes: nat)

  /** `timeToMinutes`: minutes since midnight; for a proper minute field it splits back into the two numbers. */
  function TimeToMinutes(t: Clock): (m: nat)
    ensures t.minutes < 60 ==> m / 60 == t.hours && m % 60 == t.minutes
  {
    t.hours * 60 + t.minutes
  }

  /** `minutesToTime`, before formatting: whole hours and the remaining minutes; reading it back gives `m`. */
  function MinutesToTime(m: nat): (t: Clock)
    ensures TimeToMinutes(t) == m && t.minutes < 60
  {
    Clock(m / 60, m % 60)
  }

  /** Converting a time with a proper minute field to minutes and back gives the same time. */
  lemma ClockRoundTrip(t: Clock)
    requires t.minutes < 60
    ensures MinutesToTime(TimeToMinutes(t)) == t
  {
  }

  /** The text `minutesToTime` writes: both numbers left-padded to two digits, joined by a colon. */
  function ClockText(t: Clock): string {
    PadStart2(NatToString(t.hours)) + ":" + PadStart2(NatToString(t.minutes))
  }

  /** `timeStr.split(':').map(Number)` for a text made of two groups of decimal digits. */
  function ParseClock(text: string): Option<Clock> {
    var parts := Split(text, ':');
    if |parts| == 2 && |parts[0]| > 0 && AllDigits(parts[0]) && |parts[1]| > 0 && AllDigits(parts[1])
    then Some(Clock(DecimalValue(parts[0]), DecimalValue(parts[1])))
    else None
  }

  /** Reading back the text of any time gives the time again. */
  lemma ClockTextRoundTrip(t: Clock)
    ensures ParseClock(ClockText(t)) == Some(t)
  {
    var h := PadStart2(NatToString(t.hours));
    var m := PadStart2(NatToString(t.minutes));
    PaddedDecimal(t.hours);
    PaddedDecimal(t.minutes);
    SplitAround(h, ':', m);
    SplitNone(m, ':');
    assert ClockText(t) == h + [':'] + m;
  }

  /**
   * Different times have different texts, so for times written by
   * `minutesToTime` comparing the texts, as the source does, is comparing
   * the times.
   */
  lemma ClockTextInjective(a: Clock, b: Clock)
    ensures ClockText(a) == ClockText(b) <==> a == b
  {
    ClockTextRoundTrip(a);
    ClockTextRoundTrip(b);
  }

  /** For a time of day, the text is the five characters "HH:MM". */
  lemma ClockTextOfDay(m: nat)
    requires m < 1440
    ensures |ClockText(MinutesToTime(m))| == 5
  {
    TwoDigits(m / 60);
    TwoDigits(m % 60);
  }

  function Max(a: int, b: int): int { if a >= b then a else b }
  function Min(a: int, b: int): int { if a <= b then a else b }

  // ---------------------------------------------------------------------
  // Bookings

  /**
   * One weekly booking. `id` is absent for a booking not yet saved (an
   * absent id equals another absent id, as `undefined === undefined` does);
   * `days` and `maxStudents` are absent when the record lacks the key.
   */
  datatype Schedule = Schedule(
    id: Option<int>,
    subjectCode: string,
    faculty: string,
    roomName: string,
    startTime: Clock,
    endTime: Clock,
    days: Option<seq<string>>,
    maxStudents: Option<nat>)

  function StartOf(s: Schedule): nat { TimeToMinutes(s.startTime) }
  function EndOf(s: Schedule): nat { TimeToMinutes(s.endTime) }

  /** The booking ends after it starts; the engine never checks this. */
  predicate WellTimed(s: Schedule) { StartOf(s) < EndOf(s) }

  /** Minute `m` lies in the half-open interval of the booking. */
  predicate InBooking(s: Schedule, m: int) { StartOf(s) <= m < EndOf(s) }

  predicate IntervalsOverlap(s1: int, e1: int, s2: int, e2: int) { s1 < e2 && s2 < e1 }

  /** `hasTimeOverlap`. */
  predicate HasTimeOverlap(a: Schedule, b: Schedule) {
    IntervalsOverlap(StartOf(a), EndOf(a), StartOf(b), EndOf(b))
  }

  /** For well-timed bookings, overlapping means sharing at least one minute. */
  lemma SharedMinute(a: Schedule, b: Schedule)
    requires WellTimed(a) && WellTimed(b)
    ensures HasTimeOverlap(a, b) <==> exists m: int :: InBooking(a, m) && InBooking(b, m)
  {
    if HasTimeOverlap(a, b) {
      assert InBooking(a, Max(StartOf(a), StartOf(b))) && InBooking(b, Max(StartOf(a), StartOf(b)));
    }
  }

  /** `schedule.days || []`. */
  function DaysOf(s: Schedule): seq<string> { s.days.GetOr([]) }

  /** `d1.some(day => d2.includes(day))`. */
  predicate SharesDay(d1: seq<string>, d2: seq<string>) {
    exists i :: 0 <= i < |d1| && d1[i] in d2
  }

  lemma SharesDaySymmetric(d1: seq<string>, d2: seq<string>)
    ensures SharesDay(d1, d2) <==> SharesDay(d2, d1)
  {
    if SharesDay(d1, d2) {
      var i :| 0 <= i < |d1| && d1[i] in d2;
      var j :| 0 <= j < |d2| && d2[j] == d1[i];
      assert d2[j] in d1;
    }
    if SharesDay(d2, d1) {
      var i :| 0 <= i < |d2| && d2[i] in d1;
      var j :| 0 <= j < |d1| && d1[j] == d2[i];
      assert d1[j] in d2;
    }
  }

  /** `hasDayOverlap`. */
  predicate HasDayOverlap(a: Schedule, b: Schedule) { SharesDay(DaysOf(a), DaysOf(b)) }

  /** `hasRoomConflict`: same room, different ids, overlapping times, a common day. */
  predicate HasRoomConflict(a: Schedule, b: Schedule) {
    a.roomName == b.roomName && a.id != b.id && HasTimeOverlap(a, b) && HasDayOverlap(a, b)
  }

  /** `hasFacultyConflict`: as a room conflict, keyed on the faculty member. */
  predicate HasFacultyConflict(a: Schedule, b: Schedule) {
    a.faculty == b.faculty && a.id != b.id && HasTimeOverlap(a, b) && HasDayOverlap(a, b)
  }

  /** Both checks are symmetric, so the i < j scan loses no pair. */
  lemma ConflictSymmetric(a: Schedule, b: Schedule)
    ensures HasRoomConflict(a, b) <==> HasRoomConflict(b, a)
    ensures HasFacultyConflict(a, b) <==> HasFacultyConflict(b, a)
  {
    SharesDaySymmetric(DaysOf(a), DaysOf(b));
  }

  /**
   * For well-timed bookings a room conflict means: same room, different
   * ids, a minute both occupy and a day both list.
   */
  lemma RoomConflictMeans(a: Schedule, b: Schedule)
    requires WellTimed(a) && WellTimed(b)
    ensures HasRoomConflict(a, b) <==>
      a.roomName == b.roomName && a.id != b.id
      && (exists m: int :: InBooking(a, m) && InBooking(b, m))
      && (exists d :: d in DaysOf(a) && d in DaysOf(b))
  {
    SharedMinute(a, b);
    if exists d :: d in DaysOf(a) && d in DaysOf(b) {
      var d :| d in DaysOf(a) && d in DaysOf(b);
      var i :| 0 <= i < |DaysOf(a)| && DaysOf(a)[i] == d;
      assert SharesDay(DaysOf(a), DaysOf(b));
    }
  }

  /** A booking that ends exactly when another starts never clashes with it. */
  lemma AdjacentBookingsDoNotClash(a: Schedule, b: Schedule)
    requires EndOf(a) == StartOf(b)
    ensures !HasRoomConflict(a, b) && !HasFacultyConflict(a, b)
  {
  }

  // ---------------------------------------------------------------------
  // The shared window

  /** The `{start, end, duration}` object of `getOverlapTime`. */
  datatype Window = Window(start: Clock, end: Clock, duration: nat)

  predicate InWindow(w: Window, m: int) { TimeToMinutes(w.start) <= m < TimeToMinutes(w.end) }

  /**
   * `getOverlapTime`: present exactly when both bookings are well timed and
   * overlap; the window holds exactly the minutes both occupy.
   */
  function GetOverlapTime(a: Schedule, b: Schedule): (w: Option<Window>)
    ensures w.Some? <==> HasTimeOverlap(a, b) && WellTimed(a) && WellTimed(b)
    ensures w.Some? ==>
      w.value.duration == TimeToMinutes(w.value.end) - TimeToMinutes(w.value.start) > 0
      && forall m: int :: InWindow(w.value, m) <==> InBooking(a, m) && InBooking(b, m)
  {
    var lo := Max(StartOf(a), StartOf(b));
    var hi := Min(EndOf(a), EndOf(b));
    if lo >= hi then None else Some(Window(MinutesToTime(lo), MinutesToTime(hi), hi - lo))
  }

  // ---------------------------------------------------------------------
  // Rooms

  datatype RoomType = LectureHall | Classroom | Laboratory
  datatype Building = MainBuilding | ScienceBuilding | EngineeringBuilding

  /** The `type` text of a room entry. */
  function RoomTypeName(t: RoomType): string {
    match t
    case LectureHall => "Lecture Hall"
    case Classroom => "Classroom"
    case Laboratory => "Laboratory"
  }

  /** The `building` text of a room entry. */
  function BuildingName(b: Building): string {
    match b
    case MainBuilding => "Main Building"
    case ScienceBuilding => "Science Building"
    case EngineeringBuilding => "Engineering Building"
  }

  /** The `{capacity, type, building}` object of a room entry. */
  datatype Room = Room(capacity: nat, roomType: RoomType, building: Building)

  /** The fixed room table of `getRoomDetails`, in its declaration order. */
  const RoomDirectory: seq<(string, Room)> := [
    ("Room 101", Room(30, LectureHall, MainBuilding)),
    ("Room 102", Room(25, Classroom, MainBuilding)),
    ("Room 201", Room(40, LectureHall, MainBuilding)),
    ("Room 105", Room(45, Classroom, ScienceBuilding)),
    ("Lab 201", Room(20, Laboratory, ScienceBuilding)),
    ("Lab 202", Room(20, Laboratory, ScienceBuilding)),
    ("Lab 301", Room(20, Laboratory, EngineeringBuilding)),
    ("Lab 302", Room(25, Laboratory, EngineeringBuilding)),
    ("Room 350", Room(60, LectureHall, EngineeringBuilding))
  ]

  /** `getRoomDetails(roomName)`: the room's entry, absent for an unknown name. */
  function GetRoomDetails(roomName: string): Option<Room> {
    Lookup(RoomDirectory, roomName)
  }

  /** A name has details exactly when the directory lists it, and they are its first entry's. */
  lemma RoomDetailsFromDirectory(roomName: string)
    ensures GetRoomDetails(roomName).Some? <==> exists i :: 0 <= i < |RoomDirectory| && RoomDirectory[i].0 == roomName
    ensures GetRoomDetails(roomName).Some? ==>
      exists i :: FirstKeyAt(RoomDirectory, roomName, i) && RoomDirectory[i].1 == GetRoomDetails(roomName).value
  {
    LookupFirst(RoomDirectory, roomName);
  }

  /** `schedule.maxStudents` is truthy: present and not zero. */
  predicate HasEnrolment(s: Schedule) { s.maxStudents.Some? && s.maxStudents.value != 0 }

  /** `schedule.maxStudents || 20`. */
  function StudentsOr20(s: Schedule): nat { if HasEnrolment(s) then s.maxStudents.value else 20 }

  /** The condition of `checkCapacityViolations`: a known room smaller than the enrolment. */
  predicate OverCapacity(s: Schedule) {
    var room := GetRoomDetails(s.roomName);
    room.Some? && HasEnrolment(s) && s.maxStudents.value > room.value.capacity
  }

  // ---------------------------------------------------------------------
  // The alternative-room suggestion of a room conflict

  /** `isRoomBusyAtTime`'s test against one existing booking. */
  predicate BusyWith(s: Schedule, roomName: string, w: Window, days: seq<string>) {
    s.roomName == roomName
    && IntervalsOverlap(TimeToMinutes(w.start), TimeToMinutes(w.end), StartOf(s), EndOf(s))
    && SharesDay(days, DaysOf(s))
  }

  /** `isRoomBusyAtTime`: never busy without a window or a days list. */
  predicate IsRoomBusyAtTime(base: seq<Schedule>, roomName: string, slot: Option<Window>, days: Option<seq<string>>) {
    slot.Some? && days.Some? && exists k :: 0 <= k < |base| && BusyWith(base[k], roomName, slot.value, days.value)
  }

  /** `Math.max(schedule1.maxStudents || 20, schedule2.maxStudents || 20)`. */
  function RequiredCapacity(a: Schedule, b: Schedule): nat { Max(StudentsOr20(a), StudentsOr20(b)) }

  function Fits(required: nat): ((string, Room)) -> bool {
    (e: (string, Room)) => e.1.capacity >= required
  }

  function FreeDuring(base: seq<Schedule>, slot: Option<Window>, days: Option<seq<string>>): ((string, Room)) -> bool {
    (e: (string, Room)) => !IsRoomBusyAtTime(base, e.0, slot, days)
  }

  /**
   * The `suggestion` text of a conflict record, by template: the record
   * holds the template and its parameter, and AdviceText spells it out.
   */
  datatype Advice = MoveTo(roomName: string) | NoSuitableRoom | RescheduleOrReassign | EnlargeOrReduce(capacity: nat)

  function AdviceText(a: Advice): string {
    match a
    case MoveTo(roomName) => "Consider moving to " + roomName + " which is available during this time"
    case NoSuitableRoom => "No suitable alternative rooms found. Consider changing the schedule time."
    case RescheduleOrReassign => "Consider rescheduling one of the classes or assigning a different faculty member"
    case EnlargeOrReduce(capacity) => "Consider moving to a larger room or reducing class size to " + NatToString(capacity)
  }

  /**
   * `suggestRoomAlternative`, reading the whole room table (see the
   * findings): the rooms large enough for both classes, then those not
   * busy in the shared window on the first booking's days, first one wins.
   */
  function SuggestRoomAlternative(base: seq<Schedule>, a: Schedule, b: Schedule): Advice {
    var slot := GetOverlapTime(a, b);
    var large := Filter(RoomDirectory, Fits(RequiredCapacity(a, b)));
    var free := Filter(large, FreeDuring(base, slot, a.days));
    if |free| > 0 then MoveTo(free[0].0) else NoSuitableRoom
  }

  /** A directory entry the suggestion may name. */
  predicate Suitable(base: seq<Schedule>, a: Schedule, b: Schedule, e: (string, Room)) {
    e.1.capacity >= RequiredCapacity(a, b) && !IsRoomBusyAtTime(base, e.0, GetOverlapTime(a, b), a.days)
  }

  predicate FirstSuitableAt(base: seq<Schedule>, a: Schedule, b: Schedule, k: int) {
    0 <= k < |RoomDirectory| && Suitable(base, a, b, RoomDirectory[k])
    && forall j :: 0 <= j < k ==> !Suitable(base, a, b, RoomDirectory[j])
  }

  /**
   * The suggestion names the first suitable room in directory order, and
   * falls back to the fixed advice exactly when no room is suitable.
   */
  lemma SuggestionIsFirstSuitable(base: seq<Schedule>, a: Schedule, b: Schedule)
    ensures SuggestRoomAlternative(base, a, b) == NoSuitableRoom <==>
      forall k :: 0 <= k < |RoomDirectory| ==> !Suitable(base, a, b, RoomDirectory[k])
    ensures forall k :: FirstSuitableAt(base, a, b, k) ==>
      SuggestRoomAlternative(base, a, b) == MoveTo(RoomDirectory[k].0)
  {
    var slot := GetOverlapTime(a, b);
    var p := Fits(RequiredCapacity(a, b));
    var q := FreeDuring(base, slot, a.days);
    FilterFilter(RoomDirectory, p, q);
    var both := And(p, q);
    assert forall e :: both(e) == Suitable(base, a, b, e);
    FilterEmpty(RoomDirectory, both);
    forall k | FirstSuitableAt(base, a, b, k)
      ensures SuggestRoomAlternative(base, a, b) == MoveTo(RoomDirectory[k].0)
    {
      FilterFirst(RoomDirectory, both, k);
    }
  }

  // ---------------------------------------------------------------------
  // Conflict records

  datatype ConflictType = RoomConflict | FacultyConflict | CapacityViolation
  datatype Severity = High | Medium | Low

  /** One record of `this.conflicts`; a capacity violation has no window. */
  datatype Conflict = Conflict(
    ctype: ConflictType,
    severity: Severity,
    message: string,
    details: string,
    schedules: seq<Schedule>,
    conflictTime: Option<Window>,
    suggestion: Advice)

  function RoomConflictRecord(base: seq<Schedule>, a: Schedule, b: Schedule): Conflict {
    Conflict(RoomConflict, High,
      "Room " + a.roomName + " is double-booked",
      a.subjectCode + " and " + b.subjectCode + " are both scheduled in " + a.roomName,
      [a, b], GetOverlapTime(a, b), SuggestRoomAlternative(base, a, b))
  }

  function FacultyConflictRecord(a: Schedule, b: Schedule): Conflict {
    Conflict(FacultyConflict, High,
      a.faculty + " is double-booked",
      a.faculty + " is scheduled for both " + a.subjectCode + " and " + b.subjectCode,
      [a, b], GetOverlapTime(a, b),
      RescheduleOrReassign)
  }

  /**
   * The record of an over-capacity booking. It is total so that it can be
   * passed around as a value; the fallbacks are never reached, since only
   * over-capacity bookings get a record.
   */
  function CapacityRecord(s: Schedule): Conflict {
    var room := GetRoomDetails(s.roomName);
    var capacity := if room.Some? then room.value.capacity else 0;
    Conflict(CapacityViolation, Medium,
      s.roomName + " capacity exceeded",
      s.subjectCode + " has " + NatToString(s.maxStudents.GetOr(0)) + " students but "
        + s.roomName + " only accommodates " + NatToString(capacity),
      [s], None,
      EnlargeOrReduce(capacity))
  }

  /** Which of the two pairwise scans: rooms or faculty. */
  datatype PairKind = RoomPairs | FacultyPairs

  predicate Clashes(kind: PairKind, a: Schedule, b: Schedule) {
    match kind
    case RoomPairs => HasRoomConflict(a, b)
    case FacultyPairs => HasFacultyConflict(a, b)
  }

  function ClashTest(kind: PairKind): (Schedule, Schedule) -> bool {
    (a: Schedule, b: Schedule) => Clashes(kind, a, b)
  }

  function PairRecord(base: seq<Schedule>, kind: PairKind, a: Schedule, b: Schedule): Conflict {
    match kind
    case RoomPairs => RoomConflictRecord(base, a, b)
    case FacultyPairs => FacultyConflictRecord(a, b)
  }

  function RecordFor(base: seq<Schedule>, kind: PairKind): ((Schedule, Schedule)) -> Conflict {
    (p: (Schedule, Schedule)) => PairRecord(base, kind, p.0, p.1)
  }

  function KindType(kind: PairKind): ConflictType {
    match kind
    case RoomPairs => RoomConflict
    case FacultyPairs => FacultyConflict
  }

  /** A pair record is a high-severity record of the scan's type naming the two bookings, first one first. */
  lemma PairRecordShape(base: seq<Schedule>, kind: PairKind, a: Schedule, b: Schedule)
    ensures var c := PairRecord(base, kind, a, b);
      c.ctype == KindType(kind) && c.severity == High && c.schedules == [a, b]
      && c.conflictTime == GetOverlapTime(a, b)
  {
  }

  /** A capacity record is a medium-severity record naming the one booking, without a window. */
  lemma CapacityRecordShape(s: Schedule)
    ensures var c := CapacityRecord(s);
      c.ctype == CapacityViolation && c.severity == Medium && c.schedules == [s] && c.conflictTime.None?
  {
  }

  /** The pairs i < j of `ss`, in loop order, that `checkRoomConflicts` / `checkFacultyConflicts` report. */
  function ClashingPairs(ss: seq<Schedule>, kind: PairKind): seq<(Schedule, Schedule)> {
    PairScan(ss, ClashTest(kind), |ss|)
  }

  /** The records `checkRoomConflicts` / `checkFacultyConflicts` push for the list `ss`. */
  function PairConflicts(base: seq<Schedule>, ss: seq<Schedule>, kind: PairKind): seq<Conflict> {
    Map(ClashingPairs(ss, kind), RecordFor(base, kind))
  }

  function IsOverCapacity(): Schedule -> bool {
    (s: Schedule) => OverCapacity(s)
  }

  function CapacityRecordOf(): Schedule -> Conflict {
    (s: Schedule) => CapacityRecord(s)
  }

  /** The records `checkCapacityViolations` pushes for the list `ss`: one per over-capacity booking, in order. */
  function CapacityConflicts(ss: seq<Schedule>): seq<Conflict> {
    Map(Filter(ss, IsOverCapacity()), CapacityRecordOf())
  }

  /** The list one detection pass leaves in `this.conflicts`: rooms, then faculty, then capacity. */
  function DetectedConflicts(base: seq<Schedule>, ss: seq<Schedule>): seq<Conflict> {
    PairConflicts(base, ss, RoomPairs) + PairConflicts(base, ss, FacultyPairs) + CapacityConflicts(ss)
  }

  /** Bookings `i < j` of `ss` clash and form the pair `p`. */
  predicate ClashPairAt(ss: seq<Schedule>, kind: PairKind, i: int, j: int, p: (Schedule, Schedule)) {
    0 <= i < j < |ss| && Clashes(kind, ss[i], ss[j]) && p == (ss[i], ss[j])
  }

  /** The scan finds exactly the pairs of bookings i < j that clash. */
  lemma ClashingPairsMembers(ss: seq<Schedule>, kind: PairKind, p: (Schedule, Schedule))
    ensures p in ClashingPairs(ss, kind) <==> exists i, j :: ClashPairAt(ss, kind, i, j, p)
  {
    if p in ClashingPairs(ss, kind) {
      var i, j := PairScanOnly(ss, ClashTest(kind), |ss|, p);
      assert ClashPairAt(ss, kind, i, j, p);
    }
    if exists i, j :: ClashPairAt(ss, kind, i, j, p) {
      var i, j :| ClashPairAt(ss, kind, i, j, p);
      PairScanFinds(ss, ClashTest(kind), |ss|, i, j);
    }
  }

  /** A record is in the capacity scan exactly when some over-capacity booking produces it. */
  lemma CapacityConflictsMembers(ss: seq<Schedule>, c: Conflict)
    ensures c in CapacityConflicts(ss) <==> exists s :: s in ss && OverCapacity(s) && c == CapacityRecord(s)
  {
    MapMembers(Filter(ss, IsOverCapacity()), CapacityRecordOf(), c);
    FilterMembers(ss, IsOverCapacity());
  }

  /** The properties every record of a pairwise scan has. */
  predicate PairShaped(kind: PairKind, c: Conflict) {
    c.ctype == KindType(kind) && c.severity == High && |c.schedules| == 2
    && Clashes(kind, c.schedules[0], c.schedules[1])
  }

  function PairShapedTest(kind: PairKind): Conflict -> bool {
    (c: Conflict) => PairShaped(kind, c)
  }

  /**
   * Every record of a pairwise scan is a high-severity record of that
   * scan's type naming two bookings that clash.
   */
  lemma PairConflictsShape(base: seq<Schedule>, ss: seq<Schedule>, kind: PairKind)
    ensures forall c :: c in PairConflicts(base, ss, kind) ==> PairShaped(kind, c)
  {
    var pairs := ClashingPairs(ss, kind);
    forall p | p in pairs ensures PairShapedTest(kind)(RecordFor(base, kind)(p)) {
      ClashingPairsMembers(ss, kind, p);
      PairRecordShape(base, kind, p.0, p.1);
    }
    MapForall(pairs, RecordFor(base, kind), PairShapedTest(kind));
  }

  /** The properties every capacity record has. */
  predicate CapacityShaped(c: Conflict) {
    c.ctype == CapacityViolation && c.severity == Medium && |c.schedules| == 1 && OverCapacity(c.schedules[0])
  }

  function CapacityShapedTest(): Conflict -> bool {
    (c: Conflict) => CapacityShaped(c)
  }

  /** Every capacity record is a medium-severity record naming one over-capacity booking. */
  lemma CapacityConflictsShape(ss: seq<Schedule>)
    ensures forall c :: c in CapacityConflicts(ss) ==> CapacityShaped(c)
  {
    var flagged := Filter(ss, IsOverCapacity());
    FilterMembers(ss, IsOverCapacity());
    forall s | s in flagged ensures CapacityShapedTest()(CapacityRecordOf()(s)) {
      CapacityRecordShape(s);
    }
    MapForall(flagged, CapacityRecordOf(), CapacityShapedTest());
  }

  /** `newSchedule ? [...this.schedules, newSchedule] : this.schedules`. */
  function WorkingSet(schedules: seq<Schedule>, candidate: Option<Schedule>): seq<Schedule> {
    if candidate.Some? then schedules + [candidate.value] else schedules
  }

  // ---------------------------------------------------------------------
  // Validation of a candidate booking

  /** The fallback identity test of `validateSchedule`: same subject code and start time. */
  predicate SameSlotSubject(s: Schedule, cand: Schedule) {
    s.subjectCode == cand.subjectCode && s.startTime == cand.startTime
  }

  /**
   * The record names the candidate. The source also accepts the candidate
   * object itself, which always passes the fallback test, so the fallback
   * alone decides.
   */
  predicate Involves(c: Conflict, cand: Schedule) {
    exists k :: 0 <= k < |c.schedules| && SameSlotSubject(c.schedules[k], cand)
  }

  function InvolvesCandidate(cand: Schedule): Conflict -> bool {
    (c: Conflict) => Involves(c, cand)
  }

  /** The conflicts `validateSchedule` keeps: those of the working set that involve the candidate. */
  function CandidateConflicts(base: seq<Schedule>, cand: Schedule): seq<Conflict> {
    Filter(DetectedConflicts(base, base + [cand]), InvolvesCandidate(cand))
  }

  /** Bookings `i < j` of `ws` clash and one of them has the candidate's subject and start. */
  predicate TouchesAt(ws: seq<Schedule>, kind: PairKind, cand: Schedule, i: int, j: int) {
    0 <= i < j < |ws| && Clashes(kind, ws[i], ws[j])
    && (SameSlotSubject(ws[i], cand) || SameSlotSubject(ws[j], cand))
  }

  /**
   * No clashing pair of the working set touches a booking with the
   * candidate's subject and start, and no such booking is over capacity.
   */
  ghost predicate CleanFor(ws: seq<Schedule>, cand: Schedule) {
    !(exists i, j :: TouchesAt(ws, RoomPairs, cand, i, j))
    && !(exists i, j :: TouchesAt(ws, FacultyPairs, cand, i, j))
    && !(exists s :: s in ws && OverCapacity(s) && SameSlotSubject(s, cand))
  }

  /** A record naming exactly `a` and `b` involves the candidate exactly when one of them does. */
  lemma NamingTwoInvolves(c: Conflict, a: Schedule, b: Schedule, cand: Schedule)
    requires c.schedules == [a, b]
    ensures Involves(c, cand) <==> SameSlotSubject(a, cand) || SameSlotSubject(b, cand)
  {
    if Involves(c, cand) {
      var k :| 0 <= k < |c.schedules| && SameSlotSubject(c.schedules[k], cand);
      assert c.schedules[k] == a || c.schedules[k] == b;
    }
    if SameSlotSubject(a, cand) {
      assert SameSlotSubject(c.schedules[0], cand);
    }
    if SameSlotSubject(b, cand) {
      assert SameSlotSubject(c.schedules[1], cand);
    }
  }

  /** A record naming exactly `s` involves the candidate exactly when `s` does. */
  lemma NamingOneInvolves(c: Conflict, s: Schedule, cand: Schedule)
    requires c.schedules == [s]
    ensures Involves(c, cand) <==> SameSlotSubject(s, cand)
  {
    if SameSlotSubject(s, cand) {
      assert SameSlotSubject(c.schedules[0], cand);
    }
  }

  function TouchesCandidate(cand: Schedule): ((Schedule, Schedule)) -> bool {
    (p: (Schedule, Schedule)) => SameSlotSubject(p.0, cand) || SameSlotSubject(p.1, cand)
  }

  function SameSlotTest(cand: Schedule): Schedule -> bool {
    (s: Schedule) => SameSlotSubject(s, cand)
  }

  /** A pair's record involves the candidate exactly when one of the pair does. */
  lemma PairRecordsInvolve(base: seq<Schedule>, kind: PairKind, cand: Schedule)
    ensures forall p :: InvolvesCandidate(cand)(RecordFor(base, kind)(p)) == TouchesCandidate(cand)(p)
  {
    forall p ensures InvolvesCandidate(cand)(RecordFor(base, kind)(p)) == TouchesCandidate(cand)(p) {
      PairRecordShape(base, kind, p.0, p.1);
      NamingTwoInvolves(RecordFor(base, kind)(p), p.0, p.1, cand);
    }
  }

  /** Some record of a pairwise scan involves the candidate exactly when a clashing pair touches it. */
  lemma PairScanInvolves(base: seq<Schedule>, ws: seq<Schedule>, kind: PairKind, cand: Schedule)
    ensures (exists c :: c in PairConflicts(base, ws, kind) && InvolvesCandidate(cand)(c)) <==>
      exists i, j :: TouchesAt(ws, kind, cand, i, j)
  {
    var pairs := ClashingPairs(ws, kind);
    PairRecordsInvolve(base, kind, cand);
    MapExists(pairs, RecordFor(base, kind), InvolvesCandidate(cand), TouchesCandidate(cand));
    if exists p :: p in pairs && TouchesCandidate(cand)(p) {
      var p :| p in pairs && TouchesCandidate(cand)(p);
      ClashingPairsMembers(ws, kind, p);
      var i, j :| ClashPairAt(ws, kind, i, j, p);
      assert TouchesAt(ws, kind, cand, i, j);
    }
    if exists i, j :: TouchesAt(ws, kind, cand, i, j) {
      var i, j :| TouchesAt(ws, kind, cand, i, j);
      var p := (ws[i], ws[j]);
      assert ClashPairAt(ws, kind, i, j, p);
      ClashingPairsMembers(ws, kind, p);
      assert p in pairs && TouchesCandidate(cand)(p);
    }
  }

  /** A capacity record involves the candidate exactly when its booking does. */
  lemma CapacityRecordsInvolve(cand: Schedule)
    ensures forall s :: InvolvesCandidate(cand)(CapacityRecordOf()(s)) == SameSlotTest(cand)(s)
  {
    forall s ensures InvolvesCandidate(cand)(CapacityRecordOf()(s)) == SameSlotTest(cand)(s) {
      CapacityRecordShape(s);
      NamingOneInvolves(CapacityRecordOf()(s), s, cand);
    }
  }

  /** Some capacity record involves the candidate exactly when an over-capacity booking has its subject and start. */
  lemma CapacityScanInvolves(ws: seq<Schedule>, cand: Schedule)
    ensures (exists c :: c in CapacityConflicts(ws) && InvolvesCandidate(cand)(c)) <==>
      exists s :: s in ws && OverCapacity(s) && SameSlotSubject(s, cand)
  {
    var flagged := Filter(ws, IsOverCapacity());
    CapacityRecordsInvolve(cand);
    MapExists(flagged, CapacityRecordOf(), InvolvesCandidate(cand), SameSlotTest(cand));
    FilterMembers(ws, IsOverCapacity());
  }

  /**
   * The candidate is accepted exactly when the working set is clean for
   * it: an existing clash between two other bookings that share the
   * candidate's subject and start time also rejects it.
   */
  lemma ValidIff(base: seq<Schedule>, cand: Schedule)
    ensures |CandidateConflicts(base, cand)| == 0 <==> CleanFor(base + [cand], cand)
  {
    var ws := base + [cand];
    var rooms := PairConflicts(base, ws, RoomPairs);
    var people := PairConflicts(base, ws, FacultyPairs);
    var capacity := CapacityConflicts(ws);
    FilterNonEmpty(DetectedConflicts(base, ws), InvolvesCandidate(cand));
    ExistsInConcat3(rooms, people, capacity, InvolvesCandidate(cand));
    PairScanInvolves(base, ws, RoomPairs, cand);
    PairScanInvolves(base, ws, FacultyPairs, cand);
    CapacityScanInvolves(ws, cand);
  }

  /** A candidate that clashes with an existing booking, or overfills its room, is rejected. */
  lemma ClashInvalidates(base: seq<Schedule>, cand: Schedule)
    ensures (exists k :: 0 <= k < |base| && (HasRoomConflict(base[k], cand) || HasFacultyConflict(base[k], cand)))
      ==> |CandidateConflicts(base, cand)| > 0
    ensures OverCapacity(cand) ==> |CandidateConflicts(base, cand)| > 0
  {
    var ws := base + [cand];
    ValidIff(base, cand);
    if exists k :: 0 <= k < |base| && (HasRoomConflict(base[k], cand) || HasFacultyConflict(base[k], cand)) {
      var k :| 0 <= k < |base| && (HasRoomConflict(base[k], cand) || HasFacultyConflict(base[k], cand));
      assert ws[k] == base[k] && ws[|base|] == cand;
      if HasRoomConflict(base[k], cand) {
        assert TouchesAt(ws, RoomPairs, cand, k, |base|);
      } else {
        assert TouchesAt(ws, FacultyPairs, cand, k, |base|);
      }
    }
    if OverCapacity(cand) {
      assert cand in ws;
    }
  }

  // ---------------------------------------------------------------------
  // Warnings

  datatype WarningType = BackToBack | UnusualHours | LongDuration

  /**
   * One warning of `generateWarnings`, by template: its type and the
   * faculty member the back-to-back message names; the texts follow.
   */
  datatype Warning = Warning(wtype: WarningType, faculty: string)

  function WarningMessage(w: Warning): string {
    match w.wtype
    case BackToBack => w.faculty + " has back-to-back classes"
    case UnusualHours => "Class scheduled outside normal hours (7 AM - 6 PM)"
    case LongDuration => "Class duration exceeds 3 hours"
  }

  function WarningSuggestion(w: Warning): string {
    match w.wtype
    case BackToBack => "Consider adding a break between classes"
    case UnusualHours => "Confirm if this time is acceptable"
    case LongDuration => "Consider adding breaks or splitting into multiple sessions"
  }

  /**
   * What `generateWarnings` needs so as not to throw: every booking of the
   * same faculty member has a days list, and a non-empty one makes the
   * candidate's days list read.
   */
  predicate WarningsDefined(base: seq<Schedule>, cand: Schedule) {
    forall k :: 0 <= k < |base| && base[k].faculty == cand.faculty ==>
      base[k].days.Some? && (|base[k].days.value| > 0 ==> cand.days.Some?)
  }

  /** Same faculty, a common day, and one booking ends at the minute the other starts. */
  predicate BackToBackWith(s: Schedule, cand: Schedule) {
    s.faculty == cand.faculty && SharesDay(DaysOf(s), DaysOf(cand))
    && (EndOf(s) == StartOf(cand) || EndOf(cand) == StartOf(s))
  }

  function BackToBackTest(cand: Schedule): Schedule -> bool {
    (s: Schedule) => BackToBackWith(s, cand)
  }

  /** `startHour < 7 || startHour > 18` with `startHour` the fractional hour. */
  predicate UnusualStart(s: Schedule) {
    var hour := StartOf(s) as real / 60.0;
    hour < 7.0 || hour > 18.0
  }

  /** In minutes: before 07:00, or after 18:00 (18:00 itself is normal). */
  lemma UnusualStartInMinutes(s: Schedule)
    ensures UnusualStart(s) <==> StartOf(s) < 420 || StartOf(s) > 1080
  {
  }

  predicate LongClass(s: Schedule) { EndOf(s) - StartOf(s) > 180 }

  predicate HasWarning(ws: seq<Warning>, t: WarningType) {
    exists k :: 0 <= k < |ws| && ws[k].wtype == t
  }

  /** `generateWarnings`: each warning type at most once, each exactly when its condition holds. */
  function GenerateWarnings(base: seq<Schedule>, cand: Schedule): (ws: seq<Warning>)
    requires WarningsDefined(base, cand)
    ensures HasWarning(ws, BackToBack) <==> exists k :: 0 <= k < |base| && BackToBackWith(base[k], cand)
    ensures HasWarning(ws, UnusualHours) <==> UnusualStart(cand)
    ensures HasWarning(ws, LongDuration) <==> LongClass(cand)
    ensures forall i, j :: 0 <= i < j < |ws| ==> ws[i].wtype != ws[j].wtype
  {
    var adjacent := Filter(base, BackToBackTest(cand));
    FilterEmpty(base, BackToBackTest(cand));
    var ws := WarningIf(|adjacent| > 0, BackToBack, cand.faculty) + WarningIf(UnusualStart(cand), UnusualHours, cand.faculty)
      + WarningIf(LongClass(cand), LongDuration, cand.faculty);
    ThreeWarnings(|adjacent| > 0, UnusualStart(cand), LongClass(cand), cand.faculty);
    ws
  }

  /** The warning of type `t` when `c` holds, nothing otherwise. */
  function WarningIf(c: bool, t: WarningType, faculty: string): seq<Warning> {
    if c then [Warning(t, faculty)] else []
  }

  /** The three optional warnings, in order, contain each type exactly when its condition holds, and no type twice. */
  lemma ThreeWarnings(b1: bool, b2: bool, b3: bool, faculty: string)
    ensures var ws := WarningIf(b1, BackToBack, faculty) + WarningIf(b2, UnusualHours, faculty)
        + WarningIf(b3, LongDuration, faculty);
      (HasWarning(ws, BackToBack) <==> b1) && (HasWarning(ws, UnusualHours) <==> b2)
      && (HasWarning(ws, LongDuration) <==> b3)
      && forall i, j :: 0 <= i < j < |ws| ==> ws[i].wtype != ws[j].wtype
  {
    var w1 := WarningIf(b1, BackToBack, faculty);
    var w2 := WarningIf(b2, UnusualHours, faculty);
    var w3 := WarningIf(b3, LongDuration, faculty);
    var ws := w1 + w2 + w3;
    assert forall k :: 0 <= k < |ws| ==> ws[k] in w1 || ws[k] in w2 || ws[k] in w3;
    assert b1 ==> ws[0].wtype == BackToBack;
    assert b2 ==> ws[|w1|].wtype == UnusualHours;
    assert b3 ==> ws[|w1| + |w2|].wtype == LongDuration;
  }

  /** The `{isValid, conflicts, warnings}` object of `validateSchedule`. */
  datatype Validation = Validation(isValid: bool, conflicts: seq<Conflict>, warnings: seq<Warning>)

  /** `validateSchedule`'s answer; the warnings play no part in `isValid`. */
  function Validate(base: seq<Schedule>, cand: Schedule): (v: Validation)
    requires WarningsDefined(base, cand)
    ensures v.isValid <==> CleanFor(base + [cand], cand)
    ensures v.isValid <==> |v.conflicts| == 0
    ensures forall c :: c in v.conflicts <==> c in DetectedConflicts(base, base + [cand]) && Involves(c, cand)
    ensures v.warnings == GenerateWarnings(base, cand)
  {
    ValidIff(base, cand);
    FilterMembers(DetectedConflicts(base, base + [cand]), InvolvesCandidate(cand));
    var cs := CandidateConflicts(base, cand);
    Validation(|cs| == 0, cs, GenerateWarnings(base, cand))
  }

  // ---------------------------------------------------------------------
  // Summary

  datatype Summary = Summary(total: nat, high: nat, medium: nat, low: nat, byType: map<ConflictType, nat>)

  function OfSeverity(sv: Severity): Conflict -> bool { (c: Conflict) => c.severity == sv }
  function OfType(t: ConflictType): Conflict -> bool { (c: Conflict) => c.ctype == t }

  function CountSeverity(cs: seq<Conflict>, sv: Severity): nat { |Filter(cs, OfSeverity(sv))| }
  function CountType(cs: seq<Conflict>, t: ConflictType): nat { |Filter(cs, OfType(t))| }

  lemma CountTypeSnoc(cs: seq<Conflict>, i: nat, t: ConflictType)
    requires i < |cs|
    ensures CountType(cs[..i + 1], t) == CountType(cs[..i], t) + (if cs[i].ctype == t then 1 else 0)
  {
    FilterSnoc(cs, i, OfType(t));
  }

  /** Every record has exactly one severity. */
  lemma {:induction false} SeveritiesPartition(cs: seq<Conflict>)
    ensures CountSeverity(cs, High) + CountSeverity(cs, Medium) + CountSeverity(cs, Low) == |cs|
    decreases |cs|
  {
    if |cs| > 0 {
      SeveritiesPartition(cs[..|cs| - 1]);
    }
  }

  /** Every record has exactly one type. */
  lemma {:induction false} TypesPartition(cs: seq<Conflict>)
    ensures CountType(cs, RoomConflict) + CountType(cs, FacultyConflict) + CountType(cs, CapacityViolation) == |cs|
    decreases |cs|
  {
    if |cs| > 0 {
      TypesPartition(cs[..|cs| - 1]);
    }
  }

  function CountIn(m: map<ConflictType, nat>, t: ConflictType): nat { if t in m then m[t] else 0 }

  // ---------------------------------------------------------------------
  // Alternative rooms for an automatic fix

  /** The rooms `findAlternativeRoom` tries: large enough and not the booking's own room. */
  predicate CanHost(e: (string, Room), s: Schedule) {
    e.1.capacity >= StudentsOr20(s) && e.0 != s.roomName
  }

  function MovableTo(s: Schedule): ((string, Room)) -> bool {
    (e: (string, Room)) => CanHost(e, s)
  }

  function RoomOptions(s: Schedule): seq<(string, Room)> { Filter(RoomDirectory, MovableTo(s)) }

  /** Validation accepts the booking once moved to `roomName`. */
  predicate AcceptsMove(base: seq<Schedule>, s: Schedule, roomName: string) {
    |CandidateConflicts(base, s.(roomName := roomName))| == 0
  }

  function AcceptsMoveTest(base: seq<Schedule>, s: Schedule): ((string, Room)) -> bool {
    (e: (string, Room)) => AcceptsMove(base, s, e.0)
  }

  /** `findAlternativeRoom`'s answer: the first option room where validation accepts the move. */
  function FindAlternative(base: seq<Schedule>, s: Schedule): Option<string> {
    match FindFirst(RoomOptions(s), AcceptsMoveTest(base, s))
    case None => None
    case Some(e) => Some(e.0)
  }

  /** The bookings other than `s`: the ones a moved copy of `s` has to fit beside. */
  function Others(base: seq<Schedule>, s: Schedule): seq<Schedule> {
    Filter(base, NotBooking(s))
  }

  function NotBooking(s: Schedule): Schedule -> bool {
    (t: Schedule) => t != s
  }

  /** Setting the booking aside keeps every other booking and drops only the booking itself. */
  lemma OthersMeans(base: seq<Schedule>, s: Schedule)
    ensures forall t :: t in Others(base, s) <==> t in base && t != s
    ensures s !in base ==> Others(base, s) == base
    ensures WarningsDefined(base, s) ==> WarningsDefined(Others(base, s), s)
  {
    FilterMembers(base, NotBooking(s));
    if s !in base {
      FilterAll(base, NotBooking(s));
      assert forall k :: 0 <= k < |base| ==> NotBooking(s)(base[k]);
    }
    if WarningsDefined(base, s) {
      var os := Others(base, s);
      forall k | 0 <= k < |os| && os[k].faculty == s.faculty
        ensures os[k].days.Some? && (|os[k].days.value| > 0 ==> s.days.Some?)
      {
        assert os[k] in base;
      }
    }
  }

  /**
   * The room search as intended: the moved copy of `s` is validated beside
   * the other bookings, with `s` itself set aside.
   */
  function MoveTarget(base: seq<Schedule>, s: Schedule): Option<string> {
    FindAlternative(Others(base, s), s)
  }

  /** `roomName` is a room of the directory with room for the class of `s`. */
  predicate InDirectoryFor(roomName: string, s: Schedule) {
    exists k :: 0 <= k < |RoomDirectory| && RoomDirectory[k].0 == roomName && RoomDirectory[k].1.capacity >= StudentsOr20(s)
  }

  /**
   * If present, the answer is a different room of the directory with room
   * for the class, where validation accepts the move; it is absent only
   * when no such room exists.
   */
  lemma FindAlternativeSound(base: seq<Schedule>, s: Schedule)
    ensures var r := FindAlternative(base, s);
      r.Some? ==> r.value != s.roomName && AcceptsMove(base, s, r.value) && InDirectoryFor(r.value, s)
    ensures FindAlternative(base, s).None? <==>
      forall k :: 0 <= k < |RoomDirectory| && CanHost(RoomDirectory[k], s) ==> !AcceptsMove(base, s, RoomDirectory[k].0)
  {
    FindInFilter(RoomDirectory, MovableTo(s), AcceptsMoveTest(base, s));
    var r := FindAlternative(base, s);
    if r.Some? {
      var k :| 0 <= k < |RoomDirectory| && RoomDirectory[k].0 == r.value && CanHost(RoomDirectory[k], s)
        && AcceptsMove(base, s, RoomDirectory[k].0);
      assert InDirectoryFor(r.value, s);
    }
  }

  /** The value `this.conflicts` holds after trying `opts` in turn, starting from `current`. */
  function ConflictsAfterSearch(base: seq<Schedule>, s: Schedule, opts: seq<(string, Room)>, current: seq<Conflict>): seq<Conflict>
    decreases |opts|
  {
    if |opts| == 0 then current
    else
      var now := DetectedConflicts(base, base + [s.(roomName := opts[0].0)]);
      if AcceptsMove(base, s, opts[0].0) then now else ConflictsAfterSearch(base, s, opts[1..], now)
  }

  /** Trying option `k`: on acceptance the search stops there, otherwise it goes on with the next option. */
  lemma SearchStep(base: seq<Schedule>, s: Schedule, opts: seq<(string, Room)>, k: nat, current: seq<Conflict>)
    requires k < |opts|
    ensures var now := DetectedConflicts(base, base + [s.(roomName := opts[k].0)]);
      var p := AcceptsMoveTest(base, s);
      if AcceptsMove(base, s, opts[k].0) then
        FindFirst(opts[k..], p) == Some(opts[k]) && ConflictsAfterSearch(base, s, opts[k..], current) == now
      else
        FindFirst(opts[k..], p) == FindFirst(opts[k + 1..], p)
        && ConflictsAfterSearch(base, s, opts[k..], current) == ConflictsAfterSearch(base, s, opts[k + 1..], now)
  {
    assert opts[k..][0] == opts[k];
    assert opts[k..][1..] == opts[k + 1..];
  }

  /**
   * As written, the search validates the moved copy beside the booking it
   * copies. The copy keeps the subject code and start time, so validation
   * counts every clash of the original as the copy's own: a booking with a
   * room conflict against another stored booking never finds a room.
   */
  lemma NoAlternativeForExistingClash(base: seq<Schedule>, i: nat, j: nat)
    requires i < |base| && j < |base| && HasRoomConflict(base[i], base[j])
    ensures FindAlternative(base, base[i]).None?
  {
    var s := base[i];
    ConflictSymmetric(base[i], base[j]);
    assert i != j;
    forall k | 0 <= k < |RoomDirectory| && CanHost(RoomDirectory[k], s)
      ensures !AcceptsMove(base, s, RoomDirectory[k].0)
    {
      var moved := s.(roomName := RoomDirectory[k].0);
      var ws := base + [moved];
      ValidIff(base, moved);
      assert ws[i] == base[i] && ws[j] == base[j];
      if i < j {
        assert TouchesAt(ws, RoomPairs, moved, i, j);
      } else {
        assert TouchesAt(ws, RoomPairs, moved, j, i);
      }
    }
    FindAlternativeSound(base, s);
  }

  /**
   * The intended search finds a room whenever some option room suits the
   * moved copy: none of the other bookings clashes with it or shares its
   * subject code and start time, and it fits the room.
   */
  lemma MoveTargetFinds(base: seq<Schedule>, s: Schedule, k: nat)
    requires k < |RoomDirectory| && CanHost(RoomDirectory[k], s)
    requires var moved := s.(roomName := RoomDirectory[k].0);
      forall t :: t in Others(base, s) ==>
        !HasRoomConflict(t, moved) && !HasFacultyConflict(t, moved) && !SameSlotSubject(t, s)
    requires !OverCapacity(s.(roomName := RoomDirectory[k].0))
    ensures MoveTarget(base, s).Some?
  {
    var os := Others(base, s);
    var moved := s.(roomName := RoomDirectory[k].0);
    var ws := os + [moved];
    ValidIff(os, moved);
    forall a, b, kind: PairKind | 0 <= a < b < |ws| ensures !TouchesAt(ws, kind, moved, a, b) {
      assert ws[a] in os;
      if b < |os| {
        assert ws[b] in os;
      } else {
        assert ws[b] == moved;
      }
    }
    forall t | t in ws ensures !(OverCapacity(t) && SameSlotSubject(t, moved)) {
      if t != moved {
        assert t in os;
      }
    }
    assert AcceptsMove(os, s, RoomDirectory[k].0);
    FindAlternativeSound(os, s);
  }

  /** Where the booking is not stored, setting it aside changes nothing: both searches agree. */
  lemma MoveTargetUnstored(base: seq<Schedule>, s: Schedule)
    requires s !in base
    ensures MoveTarget(base, s) == FindAlternative(base, s)
  {
    OthersMeans(base, s);
  }

  /** One element of the list `autoResolveConflicts` returns. */
  datatype Resolution = Resolution(conflict: Conflict, resolution: string, details: string, schedule: Schedule, newRoom: string)

  /** The proposals for one conflict: a room move for a room conflict whose first booking can move. */
  function ResolutionFor(base: seq<Schedule>, c: Conflict): seq<Resolution> {
    if c.ctype != RoomConflict || |c.schedules| == 0 then []
    else
      match MoveTarget(base, c.schedules[0])
      case None => []
      case Some(room) => [Proposal(c, room)]
  }

  /** The record proposing to move the conflict's first booking to `room`. */
  function Proposal(c: Conflict, room: string): Resolution
    requires |c.schedules| > 0
  {
    Resolution(c, "room_change", "Move " + c.schedules[0].subjectCode + " to " + room, c.schedules[0], room)
  }

  function Resolutions(base: seq<Schedule>, cs: seq<Conflict>): seq<Resolution>
    decreases |cs|
  {
    if |cs| == 0 then [] else Resolutions(base, cs[..|cs| - 1]) + ResolutionFor(base, cs[|cs| - 1])
  }

  /** The value `this.conflicts` holds after the proposals for `cs`, starting from `init`. */
  function ConflictsAfterResolve(base: seq<Schedule>, cs: seq<Conflict>, init: seq<Conflict>): seq<Conflict>
    decreases |cs|
  {
    if |cs| == 0 then init
    else
      var acc := ConflictsAfterResolve(base, cs[..|cs| - 1], init);
      var c := cs[|cs| - 1];
      if c.ctype == RoomConflict && |c.schedules| > 0 then
        ConflictsAfterSearch(Others(base, c.schedules[0]), c.schedules[0], RoomOptions(c.schedules[0]), acc)
      else acc
  }

  /**
   * The record's first booking moves to another, large enough room where
   * validation beside the other bookings accepts it.
   */
  predicate SoundProposal(base: seq<Schedule>, r: Resolution) {
    r.conflict.ctype == RoomConflict && |r.conflict.schedules| > 0
    && r.schedule == r.conflict.schedules[0] && r.resolution == "room_change"
    && r.newRoom != r.schedule.roomName && AcceptsMove(Others(base, r.schedule), r.schedule, r.newRoom)
    && InDirectoryFor(r.newRoom, r.schedule)
  }

  /** At most one proposal per conflict, each for a room conflict of the list and sound. */
  lemma {:induction false} ResolutionsSound(base: seq<Schedule>, cs: seq<Conflict>)
    ensures |Resolutions(base, cs)| <= |cs|
    ensures forall k :: 0 <= k < |Resolutions(base, cs)| ==>
      Resolutions(base, cs)[k].conflict in cs && SoundProposal(base, Resolutions(base, cs)[k])
    decreases |cs|
  {
    if |cs| > 0 {
      var prefix := cs[..|cs| - 1];
      ResolutionsSound(base, prefix);
      var rs := Resolutions(base, cs);
      var before := Resolutions(base, prefix);
      var last := cs[|cs| - 1];
      ResolutionForSound(base, last);
      assert rs == before + ResolutionFor(base, last);
      forall k | 0 <= k < |rs| ensures rs[k].conflict in cs && SoundProposal(base, rs[k]) {
        if k < |before| {
          assert rs[k] == before[k];
          assert rs[k].conflict in prefix;
        } else {
          assert k - |before| == 0;
          assert rs[k] == ResolutionFor(base, last)[0];
        }
      }
    }
  }

  /** One conflict gets at most one proposal, for that conflict and sound. */
  lemma ResolutionForSound(base: seq<Schedule>, c: Conflict)
    ensures |ResolutionFor(base, c)| <= 1
    ensures |ResolutionFor(base, c)| == 1 ==>
      ResolutionFor(base, c)[0].conflict == c && SoundProposal(base, ResolutionFor(base, c)[0])
  {
    if c.ctype == RoomConflict && |c.schedules| > 0 && MoveTarget(base, c.schedules[0]).Some? {
      var r := Proposal(c, MoveTarget(base, c.schedules[0]).value);
      MoveIsSound(base, c, r);
      assert ResolutionFor(base, c) == [r];
    }
  }

  /** The move the intended search finds for a room conflict's first booking is a sound proposal. */
  lemma MoveIsSound(base: seq<Schedule>, c: Conflict, r: Resolution)
    requires c.ctype == RoomConflict && |c.schedules| > 0 && MoveTarget(base, c.schedules[0]).Some?
    requires r.conflict == c && r.resolution == "room_change"
    requires r.schedule == c.schedules[0] && r.newRoom == MoveTarget(base, c.schedules[0]).value
    ensures SoundProposal(base, r)
  {
    FindAlternativeSound(Others(base, r.schedule), r.schedule);
  }

  /** A room conflict whose first booking has an alternative always gets a proposal. */
  lemma {:induction false} ResolutionsComplete(base: seq<Schedule>, cs: seq<Conflict>, i: nat)
    requires i < |cs| && cs[i].ctype == RoomConflict && |cs[i].schedules| > 0
    requires MoveTarget(base, cs[i].schedules[0]).Some?
    ensures exists k :: 0 <= k < |Resolutions(base, cs)| && Resolutions(base, cs)[k].conflict == cs[i]
    decreases |cs|
  {
    var prefix := cs[..|cs| - 1];
    if i < |cs| - 1 {
      assert prefix[i] == cs[i];
      ResolutionsComplete(base, prefix, i);
      var k :| 0 <= k < |Resolutions(base, prefix)| && Resolutions(base, prefix)[k].conflict == cs[i];
      assert Resolutions(base, cs)[k] == Resolutions(base, prefix)[k];
    } else {
      assert Resolutions(base, cs)[|Resolutions(base, prefix)|].conflict == cs[i];
    }
  }

  /** One more conflict of the snapshot adds its proposals and its searches. */
  lemma ResolveStep(base: seq<Schedule>, cs: seq<Conflict>, init: seq<Conflict>, i: nat)
    requires i < |cs|
    ensures Resolutions(base, cs[..i + 1]) == Resolutions(base, cs[..i]) + ResolutionFor(base, cs[i])
    ensures ConflictsAfterResolve(base, cs[..i + 1], init) ==
      if cs[i].ctype == RoomConflict && |cs[i].schedules| > 0 then
        ConflictsAfterSearch(Others(base, cs[i].schedules[0]), cs[i].schedules[0], RoomOptions(cs[i].schedules[0]),
          ConflictsAfterResolve(base, cs[..i], init))
      else ConflictsAfterResolve(base, cs[..i], init)
  {
    assert cs[..i + 1][..i] == cs[..i];
  }

  /** What `autoResolveConflicts` needs so as not to throw: see WarningsDefined. */
  predicate Resolvable(base: seq<Schedule>, cs: seq<Conflict>) {
    forall k :: 0 <= k < |cs| && cs[k].ctype == RoomConflict ==>
      |cs[k].schedules| > 0 && WarningsDefined(base, cs[k].schedules[0])
  }

  // ---------------------------------------------------------------------
  // The detector object

  class ConflictDetector {
    var schedules: seq<Schedule>
    var conflicts: seq<Conflict>

    constructor(schedules: seq<Schedule>)
      ensures this.schedules == schedules && conflicts == []
    {
      this.schedules := schedules;
      conflicts := [];
    }

    /** `detectConflicts`: rebuilds `conflicts` for the bookings plus the optional candidate. */
    method DetectConflicts(newSchedule: Option<Schedule>) returns (r: seq<Conflict>)
      modifies this`conflicts
      ensures conflicts == DetectedConflicts(schedules, WorkingSet(schedules, newSchedule))
      ensures r == conflicts
    {
      var toCheck := WorkingSet(schedules, newSchedule);
      conflicts := [];
      CheckPairConflicts(toCheck, RoomPairs);
      ghost var rooms := conflicts;
      assert rooms == PairConflicts(schedules, toCheck, RoomPairs);
      CheckPairConflicts(toCheck, FacultyPairs);
      ghost var people := conflicts;
      assert people == rooms + PairConflicts(schedules, toCheck, FacultyPairs);
      CheckCapacityViolations(toCheck);
      assert conflicts == people + CapacityConflicts(toCheck);
      r := conflicts;
    }

    /** `checkRoomConflicts` / `checkFacultyConflicts`: one push per clashing pair i < j. */
    method CheckPairConflicts(ss: seq<Schedule>, kind: PairKind)
      modifies this`conflicts
      ensures conflicts == old(conflicts) + PairConflicts(schedules, ss, kind)
    {
      ScanPairs(ss, ClashTest(kind), RecordFor(schedules, kind));
    }

    /**
     * The nested loops of the pairwise checks, for any clash test and any
     * record builder: row by row, one push per clashing pair i < j.
     */
    method ScanPairs(ss: seq<Schedule>, clash: (Schedule, Schedule) -> bool, record: ((Schedule, Schedule)) -> Conflict)
      modifies this`conflicts
      ensures conflicts == old(conflicts) + Map(PairScan(ss, clash, |ss|), record)
    {
      var i := 0;
      while i < |ss|
        invariant 0 <= i <= |ss|
        invariant conflicts == old(conflicts) + Map(PairScan(ss, clash, i), record)
      {
        PairRecordsStep(old(conflicts), ss, clash, record, i);
        ScanRow(ss, clash, record, i);
        i := i + 1;
      }
    }

    /** The inner loop of the pairwise checks: row `i`, one push per later booking that clashes with booking `i`. */
    method ScanRow(ss: seq<Schedule>, clash: (Schedule, Schedule) -> bool, record: ((Schedule, Schedule)) -> Conflict, i: nat)
      requires i < |ss|
      modifies this`conflicts
      ensures conflicts == old(conflicts) + Map(RowScan(ss, clash, i, |ss|), record)
    {
      var j := i + 1;
      while j < |ss|
        invariant i + 1 <= j <= |ss|
        invariant conflicts == old(conflicts) + Map(RowScan(ss, clash, i, j), record)
      {
        RowRecordsStep(old(conflicts), ss, clash, record, i, j);
        conflicts := conflicts + if clash(ss[i], ss[j]) then [record((ss[i], ss[j]))] else [];
        j := j + 1;
      }
    }

    /** `checkCapacityViolations`: one push per over-capacity booking, in order. */
    method CheckCapacityViolations(ss: seq<Schedule>)
      modifies this`conflicts
      ensures conflicts == old(conflicts) + CapacityConflicts(ss)
    {
      var i := 0;
      while i < |ss|
        invariant 0 <= i <= |ss|
        invariant conflicts == old(conflicts) + Map(Filter(ss[..i], IsOverCapacity()), CapacityRecordOf())
      {
        ghost var flagged := Filter(ss[..i], IsOverCapacity());
        FilterSnoc(ss, i, IsOverCapacity());
        var room := GetRoomDetails(ss[i].roomName);
        if room.Some? && HasEnrolment(ss[i]) && ss[i].maxStudents.value > room.value.capacity {
          assert IsOverCapacity()(ss[i]);
          MapSnoc(flagged, ss[i], CapacityRecordOf());
          AppendAssoc(old(conflicts), Map(flagged, CapacityRecordOf()), [CapacityRecord(ss[i])]);
          conflicts := conflicts + [CapacityRecord(ss[i])];
        } else {
          assert !IsOverCapacity()(ss[i]);
          assert flagged + [] == flagged;
        }
        i := i + 1;
      }
      assert ss[..i] == ss;
    }

    /** `validateSchedule`: runs a detection pass with the candidate, leaving its result in `conflicts`. */
    method ValidateSchedule(newSchedule: Schedule) returns (v: Validation)
      requires WarningsDefined(schedules, newSchedule)
      modifies this`conflicts
      ensures conflicts == DetectedConflicts(schedules, schedules + [newSchedule])
      ensures v == Validate(schedules, newSchedule)
    {
      var temp := DetectConflicts(Some(newSchedule));
      var own := Filter(temp, InvolvesCandidate(newSchedule));
      v := Validation(|own| == 0, own, GenerateWarnings(schedules, newSchedule));
    }

    /** `getConflictSummary` over the last detection pass. */
    method GetConflictSummary() returns (s: Summary)
      ensures s.total == |conflicts|
      ensures s.high == CountSeverity(conflicts, High) && s.medium == CountSeverity(conflicts, Medium)
        && s.low == CountSeverity(conflicts, Low)
      ensures s.high + s.medium + s.low == s.total
      ensures forall t :: t in s.byType <==> CountType(conflicts, t) > 0
      ensures forall t :: t in s.byType ==> s.byType[t] == CountType(conflicts, t)
      ensures CountIn(s.byType, RoomConflict) + CountIn(s.byType, FacultyConflict)
        + CountIn(s.byType, CapacityViolation) == s.total
    {
      var byType: map<ConflictType, nat> := map[];
      var i := 0;
      while i < |conflicts|
        invariant 0 <= i <= |conflicts|
        invariant forall t :: t in byType <==> CountType(conflicts[..i], t) > 0
        invariant forall t :: t in byType ==> byType[t] == CountType(conflicts[..i], t)
      {
        var t := conflicts[i].ctype;
        byType := byType[t := CountIn(byType, t) + 1];
        forall u: ConflictType
          ensures CountType(conflicts[..i + 1], u) == CountType(conflicts[..i], u) + (if conflicts[i].ctype == u then 1 else 0)
        {
          CountTypeSnoc(conflicts, i, u);
        }
        i := i + 1;
      }
      assert conflicts[..i] == conflicts;
      SeveritiesPartition(conflicts);
      TypesPartition(conflicts);
      s := Summary(|conflicts|, CountSeverity(conflicts, High), CountSeverity(conflicts, Medium),
        CountSeverity(conflicts, Low), byType);
    }

    /** `getScheduleConflicts`: the records of the last pass that name a booking with this id. */
    function GetScheduleConflicts(scheduleId: Option<int>): (r: seq<Conflict>)
      reads this
      ensures forall c :: c in r <==> c in conflicts && Names(c, scheduleId)
      ensures r == ConflictsNaming(conflicts, scheduleId)
    {
      ConflictsNamingMembers(conflicts, scheduleId);
      Filter(conflicts, NamesTest(scheduleId))
    }

    /** `updateSchedules`: replaces the bookings and re-detects. */
    method UpdateSchedules(ss: seq<Schedule>) returns (r: seq<Conflict>)
      modifies this
      ensures schedules == ss
      ensures conflicts == DetectedConflicts(ss, ss) && r == conflicts
    {
      schedules := ss;
      r := DetectConflicts(None);
    }

    /**
     * `findAlternativeRoom`: validates the moved booking in each option room
     * in turn and returns the first accepted one; each try overwrites
     * `conflicts`. As intended, the booking's own entry is set aside while
     * its moved copy is validated, and put back afterwards.
     */
    method FindAlternativeRoom(schedule: Schedule) returns (r: Option<string>)
      requires WarningsDefined(schedules, schedule)
      modifies this`schedules, this`conflicts
      ensures schedules == old(schedules)
      ensures r == MoveTarget(schedules, schedule)
      ensures conflicts == ConflictsAfterSearch(Others(schedules, schedule), schedule, RoomOptions(schedule), old(conflicts))
    {
      var all := schedules;
      OthersMeans(all, schedule);
      schedules := Others(all, schedule);
      var options := RoomOptions(schedule);
      r := None;
      var k := 0;
      while k < |options|
        invariant 0 <= k <= |options|
        invariant schedules == Others(all, schedule)
        invariant FindFirst(options, AcceptsMoveTest(schedules, schedule))
          == FindFirst(options[k..], AcceptsMoveTest(schedules, schedule))
        invariant ConflictsAfterSearch(schedules, schedule, options, old(conflicts))
          == ConflictsAfterSearch(schedules, schedule, options[k..], conflicts)
      {
        var test := schedule.(roomName := options[k].0);
        assert WarningsDefined(schedules, test);
        SearchStep(schedules, schedule, options, k, conflicts);
        var validation := ValidateSchedule(test);
        if validation.isValid {
          r := Some(options[k].0);
          break;
        }
        k := k + 1;
      }
      schedules := all;
    }

    /** `autoResolveConflicts`: one proposal per room conflict of the snapshot that can move. */
    method AutoResolveConflicts() returns (rs: seq<Resolution>)
      requires Resolvable(schedules, conflicts)
      modifies this`schedules, this`conflicts
      ensures schedules == old(schedules)
      ensures rs == Resolutions(schedules, old(conflicts))
      ensures conflicts == ConflictsAfterResolve(schedules, old(conflicts), old(conflicts))
    {
      var snapshot := conflicts;
      rs := [];
      var i := 0;
      while i < |snapshot|
        invariant 0 <= i <= |snapshot|
        invariant schedules == old(schedules)
        invariant rs == Resolutions(schedules, snapshot[..i])
        invariant conflicts == ConflictsAfterResolve(schedules, snapshot[..i], snapshot)
      {
        var c := snapshot[i];
        ResolveStep(schedules, snapshot, snapshot, i);
        if c.ctype == RoomConflict {
          var alternative := FindAlternativeRoom(c.schedules[0]);
          if alternative.Some? {
            rs := rs + [Proposal(c, alternative.value)];
          }
        }
        i := i + 1;
      }
      assert snapshot[..i] == snapshot;
    }
  }

  /** `conflict.schedules.some(s => s.id === scheduleId)`. */
  predicate Names(c: Conflict, scheduleId: Option<int>) {
    exists k :: 0 <= k < |c.schedules| && c.schedules[k].id == scheduleId
  }

  function NamesTest(scheduleId: Option<int>): Conflict -> bool {
    (c: Conflict) => Names(c, scheduleId)
  }

  /** The records of `cs` that name a booking with this id, in their order in `cs`. */
  function ConflictsNaming(cs: seq<Conflict>, scheduleId: Option<int>): seq<Conflict> {
    Filter(cs, NamesTest(scheduleId))
  }

  lemma ConflictsNamingMembers(cs: seq<Conflict>, scheduleId: Option<int>)
    ensures forall c :: c in ConflictsNaming(cs, scheduleId) <==> c in cs && Names(c, scheduleId)
  {
    FilterMembers(cs, NamesTest(scheduleId));
  }

  /** The order is kept: the records for `a + b` are those for `a`, then those for `b`. */
  lemma ConflictsNamingKeepsOrder(a: seq<Conflict>, b: seq<Conflict>, scheduleId: Option<int>)
    ensures ConflictsNaming(a + b, scheduleId) == ConflictsNaming(a, scheduleId) + ConflictsNaming(b, scheduleId)
  {
    FilterConcat(a, b, NamesTest(scheduleId));
  }

  // ---------------------------------------------------------------------
  // As written: the suggestion reads the room table without a name

  /** The exception `Object.entries(undefined)` raises. */
  datatype Fault = TypeError

  /**
   * The room scan as written: `suggestRoomAlternative` calls
   * `getRoomDetails()` with no name, gets `undefined` and throws, so the
   * first clashing pair aborts the whole detection pass.
   */
  function RoomRowAsWritten(ss: seq<Schedule>, i: nat, j: nat): Result<seq<Conflict>, Fault>
    requires i < |ss| && j <= |ss|
    decreases j
  {
    if j <= i + 1 then Success([])
    else
      match RoomRowAsWritten(ss, i, j - 1)
      case Failure(e) => Failure(e)
      case Success(acc) => if HasRoomConflict(ss[i], ss[j - 1]) then Failure(TypeError) else Success(acc)
  }

  function RoomScanAsWritten(ss: seq<Schedule>, n: nat): Result<seq<Conflict>, Fault>
    requires n <= |ss|
    decreases n
  {
    if n == 0 then Success([])
    else
      match RoomScanAsWritten(ss, n - 1)
      case Failure(e) => Failure(e)
      case Success(acc) =>
        match RoomRowAsWritten(ss, n - 1, |ss|)
        case Failure(e) => Failure(e)
        case Success(row) => Success(acc + row)
  }

  lemma {:induction false} RoomRowAsWrittenThrows(ss: seq<Schedule>, i: nat, j: nat)
    requires i < |ss| && j <= |ss|
    ensures RoomRowAsWritten(ss, i, j).Failure? <==> exists k :: i < k < j && HasRoomConflict(ss[i], ss[k])
    ensures RoomRowAsWritten(ss, i, j).Success? ==> RoomRowAsWritten(ss, i, j).value == []
    decreases j
  {
    if j > i + 1 {
      RoomRowAsWrittenThrows(ss, i, j - 1);
    }
  }

  /**
   * As written, the room scan throws exactly when some pair of bookings
   * has a room conflict, and otherwise finds nothing; so no room conflict
   * is ever reported.
   */
  lemma {:induction false} RoomScanAsWrittenThrows(ss: seq<Schedule>, n: nat)
    requires n <= |ss|
    ensures RoomScanAsWritten(ss, n).Failure? <==>
      exists i, j :: 0 <= i < n && i < j < |ss| && HasRoomConflict(ss[i], ss[j])
    ensures RoomScanAsWritten(ss, n).Success? ==> RoomScanAsWritten(ss, n).value == []
    decreases n
  {
    if n > 0 {
      RoomScanAsWrittenThrows(ss, n - 1);
      RoomRowAsWrittenThrows(ss, n - 1, |ss|);
    }
  }

  /**
   * `findAlternativeRoom` as written: `getRoomDetails()` without a name
   * looks up the key `undefined`, which no room has, and
   * `Object.entries(undefined)` throws before any room is tried. (Were
   * there such a room, its entries would carry no capacity and no option
   * would pass the filter.)
   */
  function FindAlternativeAsWritten(base: seq<Schedule>, s: Schedule): Result<Option<string>, Fault> {
    match GetRoomDetails("undefined")
    case None => Failure(TypeError)
    case Some(_) => Success(None)
  }

  /** As written, every call of `findAlternativeRoom` throws, so `autoResolveConflicts` throws on its first room conflict. */
  lemma FindAlternativeAsWrittenThrows(base: seq<Schedule>, s: Schedule)
    ensures FindAlternativeAsWritten(base, s) == Failure(TypeError)
  {
    RoomDetailsFromDirectory("undefined");
  }
}
