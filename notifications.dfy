/**
 * `NotificationManager`: the on/off setting and its storage, the id
 * counter, the newest-first list of notification records, the badge on the
 * bell and the relative timestamps of the panel. The clock is the
 * parameter `now` (milliseconds); toasts, sounds, browser notifications,
 * polling and the panel's markup are left out.
 */
module Notifications {
  import opened Wrappers
  import opened Strings

  // ---------------------------------------------------------------------
  // Records

  /**
   * One key of the object a caller passes to `show`: absent, present but
   * holding `undefined` (what a `showX` helper passes for an omitted
   * argument), or given a value.
   */
  datatype Field<T> = Absent | Undefined | Given(value: T)

  /** The record's value for a key: the caller's value, else the default (the corrected reading, see Findings). */
  function FieldOr<T>(f: Field<T>, default: T): T {
    if f.Given? then f.value else default
  }

  /** What a caller passes to `show`. */
  datatype Input = Input(
    id: Field<int>,
    ntype: Field<string>,
    title: Field<string>,
    message: Field<string>,
    timestamp: Field<int>,
    actions: Field<seq<string>>,
    persistent: Field<bool>)

  /** A stored notification; an action is its label. */
  datatype Record = Record(id: int, ntype: string, title: string, message: string, timestamp: int,
    actions: seq<string>, persistent: bool)

  /**
   * The record `show` builds: the defaults, then every field the caller
   * gave, because `...notification` comes last — including `id` and
   * `timestamp`, and a caller's empty title or message. A key holding
   * `undefined` keeps the default, as evidently intended (see Findings).
   */
  function MakeRecord(id: int, n: Input, now: int): Record {
    Record(FieldOr(n.id, id), FieldOr(n.ntype, "info"), FieldOr(n.title, "Notification"), FieldOr(n.message, ""),
      FieldOr(n.timestamp, now), FieldOr(n.actions, []), FieldOr(n.persistent, false))
  }

  /**
   * Without caller values the record has the new id, the clock's time and
   * the defaults; every given field is the caller's, and a key left absent
   * or holding `undefined` gets the default.
   */
  lemma MakeRecordDefaults(id: int, n: Input, now: int)
    ensures MakeRecord(id, Input(Absent, Absent, Absent, Absent, Absent, Absent, Absent), now)
      == Record(id, "info", "Notification", "", now, [], false)
    ensures MakeRecord(id, Input(Undefined, Undefined, Undefined, Undefined, Undefined, Undefined, Undefined), now)
      == Record(id, "info", "Notification", "", now, [], false)
    ensures var r := MakeRecord(id, n, now);
      (n.id.Given? ==> r.id == n.id.value) && (!n.id.Given? ==> r.id == id)
      && (n.ntype.Given? ==> r.ntype == n.ntype.value) && (n.title.Given? ==> r.title == n.title.value)
      && (n.message.Given? ==> r.message == n.message.value) && (n.timestamp.Given? ==> r.timestamp == n.timestamp.value)
      && (n.actions.Given? ==> r.actions == n.actions.value) && (!n.actions.Given? ==> r.actions == [])
      && (n.persistent.Given? ==> r.persistent == n.persistent.value)
  {
  }

  /** The `showX` helpers: each fixes the type, and `showError` and `showConflict` also make it persistent. */
  datatype HelperKind = Success | Error | Warning | Info | ConflictNotice | ScheduleUpdate

  function HelperType(kind: HelperKind): string {
    match kind
    case Success => "success"
    case Error => "error"
    case Warning => "warning"
    case Info => "info"
    case ConflictNotice => "conflict"
    case ScheduleUpdate => "schedule"
  }

  /** A positional argument: an omitted one arrives as `undefined`. */
  function Argument<T>(a: Option<T>): Field<T> {
    if a.Some? then Given(a.value) else Undefined
  }

  /** The object a helper passes: `{ type, title, message, actions }`, plus `persistent: true` for errors and conflicts. */
  function HelperInput(kind: HelperKind, title: Option<string>, message: Option<string>, actions: Option<seq<string>>): Input {
    Input(Absent, Given(HelperType(kind)), Argument(title), Argument(message), Absent, Argument(actions),
      if kind == Error || kind == ConflictNotice then Given(true) else Absent)
  }

  /** The `actions` the record holds as written: the spread puts `undefined` (here None) over the `[]` default. */
  function ActionsAsWritten(n: Input): Option<seq<string>> {
    match n.actions
    case Absent => Some([])
    case Undefined => None
    case Given(a) => Some(a)
  }

  /**
   * As written, a helper called without actions stores `actions: undefined`,
   * so `createToastNotification` throws reading its `length`; the corrected
   * record has no actions.
   */
  lemma HelperWithoutActionsThrows(kind: HelperKind, title: Option<string>, message: Option<string>, id: int, now: int)
    ensures ActionsAsWritten(HelperInput(kind, title, message, None)).None?
    ensures forall a :: ActionsAsWritten(HelperInput(kind, title, message, Some(a))) == Some(a)
    ensures MakeRecord(id, HelperInput(kind, title, message, None), now).actions == []
    ensures MakeRecord(id, HelperInput(kind, title, message, None), now).ntype == HelperType(kind)
  {
  }

  /** Ids strictly decrease from the front, and none exceeds the counter. */
  predicate NewestFirst(list: seq<Record>, counter: int) {
    (forall i, j :: 0 <= i < j < |list| ==> list[i].id > list[j].id)
    && forall k :: 0 <= k < |list| ==> list[k].id <= counter
  }

  /** A record with the counter's next id, put in front, keeps the list newest-first with the new counter. */
  lemma ShowKeepsNewestFirst(list: seq<Record>, counter: int, n: Input, now: int)
    requires NewestFirst(list, counter) && !n.id.Given?
    ensures NewestFirst([MakeRecord(counter + 1, n, now)] + list, counter + 1)
    ensures forall k :: 0 <= k < |list| ==> list[k].id != counter + 1
  {
    var l := [MakeRecord(counter + 1, n, now)] + list;
    forall i, j | 0 <= i < j < |l| ensures l[i].id > l[j].id {
      if i > 0 { assert l[i] == list[i - 1] && l[j] == list[j - 1]; } else { assert l[j] == list[j - 1]; }
    }
  }

  // ---------------------------------------------------------------------
  // Badge and timestamps

  /** The bell's badge: hidden for no notifications, the count up to 99, then `99+`. */
  function BadgeText(count: nat): Option<string> {
    if count > 0 then Some(if count > 99 then "99+" else NatToString(count)) else None
  }

  /** The badge is hidden exactly at 0, reads back as the count from 1 to 99, and is `99+` beyond. */
  lemma BadgeTextMeans(count: nat)
    ensures BadgeText(count).None? <==> count == 0
    ensures 0 < count <= 99 ==> AllDigits(BadgeText(count).value) && DecimalValue(BadgeText(count).value) == count
    ensures count > 99 ==> BadgeText(count) == Some("99+")
    ensures BadgeText(count).Some? ==> 1 <= |BadgeText(count).value| <= 3
  {
    if 0 < count <= 99 {
      NatToStringRoundTrip(count);
      if count >= 10 {
        assert NatToString(count) == NatToString(count / 10) + [DigitChar(count % 10)];
      }
    }
  }

  const Minute: nat := 60000
  const Hour: nat := 3600000
  const Day: nat := 86400000

  /** `formatTimestamp`: the age of a timestamp, with `dateText` standing for `toLocaleDateString()`. */
  function FormatTimestamp(timestamp: int, now: int, dateText: string): string {
    var diff := now - timestamp;
    if diff < Minute then "Just now"
    else if diff < Hour then NatToString(diff / Minute) + "m ago"
    else if diff < Day then NatToString(diff / Hour) + "h ago"
    else dateText
  }

  /** Under a minute (or in the future) is `Just now`; then whole minutes 1-59, whole hours 1-23, then the date. */
  lemma FormatTimestampBuckets(timestamp: int, now: int, dateText: string)
    ensures var diff := now - timestamp;
      var r := FormatTimestamp(timestamp, now, dateText);
      (diff < Minute ==> r == "Just now")
      && (Minute <= diff < Hour ==>
           exists m: nat :: 1 <= m <= 59 && m * Minute <= diff < (m + 1) * Minute && r == NatToString(m) + "m ago")
      && (Hour <= diff < Day ==>
           exists h: nat :: 1 <= h <= 23 && h * Hour <= diff < (h + 1) * Hour && r == NatToString(h) + "h ago")
      && (diff >= Day ==> r == dateText)
  {
    var diff := now - timestamp;
    if Minute <= diff < Hour {
      var m := diff / Minute;
      assert diff == m * Minute + diff % Minute;
      assert 1 <= m <= 59 && m * Minute <= diff < (m + 1) * Minute;
      assert FormatTimestamp(timestamp, now, dateText) == NatToString(m) + "m ago";
    } else if Hour <= diff < Day {
      var h := diff / Hour;
      assert diff == h * Hour + diff % Hour;
      assert 1 <= h <= 23 && h * Hour <= diff < (h + 1) * Hour;
      assert FormatTimestamp(timestamp, now, dateText) == NatToString(h) + "h ago";
    }
  }

  // ---------------------------------------------------------------------
  // Settings

  /** A stored flag is on unless it reads `false`. */
  function StoredFlag(stored: Option<string>): bool {
    !(stored.Some? && stored.value == "false")
  }

  /** A flag written to storage reads back as itself, and an absent one is on. */
  lemma StoredFlagRoundTrip(b: bool)
    ensures StoredFlag(Some(BoolText(b))) == b
    ensures StoredFlag(None)
  {
  }

  /** The caller's options; a 0 counts as absent. */
  datatype Options = Options(endpoint: Option<string>, maxNotifications: Option<nat>, autoDismissDelay: Option<nat>)

  function OrNat(v: Option<nat>, fallback: nat): nat {
    if v.Some? && v.value != 0 then v.value else fallback
  }

  // ---------------------------------------------------------------------
  // The cap that is never applied

  /** The list after a show as written: `unshift` puts the new record in front and the list only grows. */
  function ShowListAsWritten(list: seq<Record>, r: Record): seq<Record> {
    [r] + list
  }

  /** A cap on the list: at least one notification. */
  type Cap = n: nat | n >= 1 witness 1

  /** The evidently intended list after a show: the new record in front, the oldest dropped beyond the cap. */
  function CappedList(list: seq<Record>, r: Record, max: nat): seq<Record> {
    var l := ShowListAsWritten(list, r);
    if |l| > max then l[..max] else l
  }

  /**
   * On a list already at the cap, the show as written outgrows it by one,
   * while the capped show stays at the cap and keeps all but the oldest
   * record of the uncapped list.
   */
  lemma ShowOutgrowsCap(list: seq<Record>, r: Record, max: nat)
    requires |list| >= max
    ensures |ShowListAsWritten(list, r)| == |list| + 1 > max
    ensures |CappedList(list, r, max)| == max
    ensures CappedList(list, r, max) == ShowListAsWritten(list, r)[..max]
  {
  }

  /** The capped list never exceeds a positive cap, starts with the new record and continues with the newest old ones. */
  lemma CappedListMeans(list: seq<Record>, r: Record, max: nat)
    requires max >= 1
    ensures var c := CappedList(list, r, max);
      |c| <= max && |c| >= 1 && c[0] == r && c[1..] == list[..|c| - 1]
      && (|list| < max ==> c == [r] + list)
  {
  }

  /** Dropping the oldest records keeps a list newest-first. */
  lemma NewestFirstPrefix(list: seq<Record>, counter: int, n: nat)
    requires NewestFirst(list, counter) && n <= |list|
    ensures NewestFirst(list[..n], counter)
  {
  }

  class NotificationManager {
    var endpoint: string
    var maxNotifications: Cap
    var autoDismissDelay: nat
    var enabled: bool
    var soundEnabled: bool
    /** `localStorage['notificationsEnabled']`. */
    var storedEnabled: Option<string>
    var notifications: seq<Record>
    var notificationId: nat

    /** The constructor: the options with their fallbacks, the stored settings, no notifications, counter 0. */
    constructor(o: Options, storedEnabled: Option<string>, storedSound: Option<string>)
      ensures endpoint == if o.endpoint.Some? && o.endpoint.value != "" then o.endpoint.value else "/notifications"
      ensures maxNotifications == OrNat(o.maxNotifications, 50) && autoDismissDelay == OrNat(o.autoDismissDelay, 5000)
      ensures enabled == StoredFlag(storedEnabled) && soundEnabled == StoredFlag(storedSound)
      ensures this.storedEnabled == storedEnabled
      ensures notifications == [] && notificationId == 0 && NewestFirst(notifications, notificationId)
    {
      endpoint := if o.endpoint.Some? && o.endpoint.value != "" then o.endpoint.value else "/notifications";
      maxNotifications := OrNat(o.maxNotifications, 50);
      autoDismissDelay := OrNat(o.autoDismissDelay, 5000);
      enabled := StoredFlag(storedEnabled);
      soundEnabled := StoredFlag(storedSound);
      this.storedEnabled := storedEnabled;
      notifications := [];
      notificationId := 0;
    }

    /**
     * `show`: when disabled, nothing changes and nothing is returned;
     * otherwise the counter goes up by one, the new record goes to the
     * front of the list, and the new counter is returned. The list is
     * capped at `maxNotifications`, and a key holding `undefined` keeps
     * its default, both as evidently intended (see ShowOutgrowsCap and
     * HelperWithoutActionsThrows).
     */
    method Show(n: Input, now: int) returns (r: Option<nat>)
      modifies this`notificationId, this`notifications
      ensures !enabled ==> r.None? && notificationId == old(notificationId) && notifications == old(notifications)
      ensures enabled ==>
        notificationId == old(notificationId) + 1 && r == Some(notificationId)
        && notifications == CappedList(old(notifications), MakeRecord(notificationId, n, now), maxNotifications)
      ensures enabled ==> 1 <= |notifications| <= maxNotifications && notifications[0] == MakeRecord(notificationId, n, now)
      ensures enabled && !n.id.Given? && old(NewestFirst(notifications, notificationId)) ==>
        NewestFirst(notifications, notificationId)
    {
      if !enabled {
        return None;
      }
      ghost var before := notifications;
      notificationId := notificationId + 1;
      var data := MakeRecord(notificationId, n, now);
      notifications := CappedList(notifications, data, maxNotifications);
      CappedListMeans(before, data, maxNotifications);
      if !n.id.Given? && NewestFirst(before, notificationId - 1) {
        ShowKeepsNewestFirst(before, notificationId - 1, n, now);
        NewestFirstPrefix([data] + before, notificationId, |notifications|);
      }
      return Some(notificationId);
    }

    /**
     * The `showX` helpers: `show` of the helper's object, so the new record
     * has the helper's type and the given actions, or none.
     */
    method ShowHelper(kind: HelperKind, title: Option<string>, message: Option<string>, actions: Option<seq<string>>, now: int)
      returns (r: Option<nat>)
      modifies this`notificationId, this`notifications
      ensures !enabled ==> r.None? && notificationId == old(notificationId) && notifications == old(notifications)
      ensures enabled ==>
        notificationId == old(notificationId) + 1 && r == Some(notificationId)
        && notifications == CappedList(old(notifications), MakeRecord(notificationId, HelperInput(kind, title, message, actions), now), maxNotifications)
      ensures enabled ==> notifications[0].ntype == HelperType(kind) && notifications[0].actions == if actions.Some? then actions.value else []
      ensures enabled && old(NewestFirst(notifications, notificationId)) ==> NewestFirst(notifications, notificationId)
    {
      r := Show(HelperInput(kind, title, message, actions), now);
    }

    /** `clearAll`: the list is emptied but the counter is kept, so later ids stay new. */
    method ClearAll()
      modifies this`notifications
      ensures notifications == [] && NewestFirst(notifications, notificationId)
    {
      notifications := [];
    }

    /** `updateNotificationCount`: the badge for the current list. */
    method UpdateNotificationCount() returns (badge: Option<string>)
      ensures badge == BadgeText(|notifications|)
    {
      var count := |notifications|;
      if count > 0 {
        badge := Some(if count > 99 then "99+" else NatToString(count));
      } else {
        badge := None;
      }
    }

    /** The settings checkbox: the flag is set and stored as text. */
    method SetEnabled(checked: bool)
      modifies this`enabled, this`storedEnabled
      ensures enabled == checked && storedEnabled == Some(BoolText(checked))
      ensures StoredFlag(storedEnabled) == enabled
    {
      enabled := checked;
      storedEnabled := Some(BoolText(checked));
    }
  }
}
