/**
 * `DataDensityManager`: the view mode (kept in local storage and shown as a
 * `view-<mode>` class on the page body), its keyboard shortcuts, the
 * status-word colouring, the quick statistics over status badges and the
 * row filter of an enhanced table. Storage is a field, the body's class
 * list a sequence of class names, table rows their texts.
 */
module Density {
  import opened Wrappers
  import opened Strings
  import opened Seqs

  // ---------------------------------------------------------------------
  // View modes

  const ViewModes: seq<string> := ["compact", "comfortable", "spacious"]

  const DefaultViewMode: string := "comfortable"

  /** `localStorage.getItem('viewMode') || 'comfortable'`: a stored empty text counts as none. */
  function InitialViewMode(stored: Option<string>): string {
    if stored.Some? && stored.value != "" then stored.value else DefaultViewMode
  }

  /** The stored mode is used when there is a non-empty one; the result is never empty. */
  lemma InitialViewModeChoice(stored: Option<string>)
    ensures InitialViewMode(stored) != ""
    ensures stored.Some? && stored.value != "" ==> InitialViewMode(stored) == stored.value
    ensures stored.None? || stored.value == "" ==> InitialViewMode(stored) == ViewModes[1]
  {
  }

  /** The mode Ctrl or Cmd with `1`, `2` or `3` selects, if any. */
  function ShortcutMode(ctrl: bool, meta: bool, key: string): Option<string> {
    if !(ctrl || meta) then None
    else if key == "1" then Some("compact")
    else if key == "2" then Some("comfortable")
    else if key == "3" then Some("spacious")
    else None
  }

  /** Exactly the three digit keys with a modifier select a mode, each a different one of the three modes. */
  lemma ShortcutModes(ctrl: bool, meta: bool, key: string, key2: string)
    ensures ShortcutMode(ctrl, meta, key).Some? <==> (ctrl || meta) && key in ["1", "2", "3"]
    ensures ShortcutMode(ctrl, meta, key).Some? ==> ShortcutMode(ctrl, meta, key).value in ViewModes
    ensures ShortcutMode(ctrl, meta, key).Some? && key != key2 ==> ShortcutMode(ctrl, meta, key) != ShortcutMode(ctrl, meta, key2)
  {
  }

  /** A class the `view-\w+` pattern matches: `view-` and at least one more character. */
  predicate IsViewClass(t: string) {
    |t| > 5 && t[..5] == "view-"
  }

  function NotViewClass(): string -> bool {
    (t: string) => !IsViewClass(t)
  }

  function ViewClass(mode: string): string {
    "view-" + mode
  }

  /** The body's classes after `applyViewMode`: the view classes removed, then `view-<mode>` added unless present. */
  function WithViewClass(classes: seq<string>, mode: string): seq<string> {
    var kept := Filter(classes, NotViewClass());
    if ViewClass(mode) in kept then kept else kept + [ViewClass(mode)]
  }

  /** Afterwards the mode's class is present, it is the only view class, and every other class is kept. */
  lemma WithViewClassMeans(classes: seq<string>, mode: string)
    requires mode != ""
    ensures ViewClass(mode) in WithViewClass(classes, mode)
    ensures forall t :: t in WithViewClass(classes, mode) && IsViewClass(t) ==> t == ViewClass(mode)
    ensures forall t :: !IsViewClass(t) ==> (t in WithViewClass(classes, mode) <==> t in classes)
  {
    FilterMembers(classes, NotViewClass());
    assert IsViewClass(ViewClass(mode));
  }

  /** The view-class change never repeats a class: a list without repeats keeps none. */
  lemma WithViewClassDistinct(classes: seq<string>, mode: string)
    requires Distinct(classes)
    ensures Distinct(WithViewClass(classes, mode))
  {
    var kept := Filter(classes, NotViewClass());
    FilterDistinct(classes, NotViewClass());
    if ViewClass(mode) !in kept {
      DistinctSnoc(kept, ViewClass(mode));
    }
  }

  // ---------------------------------------------------------------------
  // Status words

  /** `getStatusColor` as written: the first rule whose words occur in the lower-cased status wins. */
  function GetStatusColor(status: string): string {
    var s := Lower(status);
    if Contains(s, "active") || Contains(s, "available") then "green"
    else if Contains(s, "pending") || Contains(s, "scheduled") then "yellow"
    else if Contains(s, "inactive") || Contains(s, "occupied") then "red"
    else "gray"
  }

  /** A lower-cased text that contains `inactive` contains `active`. */
  lemma InactiveContainsActive(s: string)
    requires Contains(s, "inactive")
    ensures Contains(s, "active")
  {
    ContainsSuffix(s, "inactive", 2);
    assert "inactive"[2..] == "active";
  }

  /** As written, any status with `inactive` in it is green: the red rule fires only for `occupied`. */
  lemma InactiveIsGreen(status: string)
    ensures Contains(Lower(status), "inactive") ==> GetStatusColor(status) == "green"
    ensures GetStatusColor(status) == "red" ==> Contains(Lower(status), "occupied")
  {
    if Contains(Lower(status), "inactive") {
      InactiveContainsActive(Lower(status));
    }
  }

  /** The colour does not depend on letter case. */
  lemma StatusColorIgnoresCase(status: string)
    ensures GetStatusColor(status) == GetStatusColor(Lower(status))
  {
    LowerIdempotent(status);
  }

  /** The colouring the rules evidently intend: `inactive` is checked before `active`. */
  function StatusColorIntended(status: string): string {
    if Contains(Lower(status), "inactive") then "red" else GetStatusColor(status)
  }

  /** The intended colouring makes `inactive` red and agrees with the written one on every other status. */
  lemma StatusColorIntendedMeans(status: string)
    ensures Contains(Lower(status), "inactive") ==> StatusColorIntended(status) == "red"
    ensures !Contains(Lower(status), "inactive") ==> StatusColorIntended(status) == GetStatusColor(status)
    ensures StatusColorIntended(status) == "green" ==> !Contains(Lower(status), "inactive")
  {
  }

  // ---------------------------------------------------------------------
  // Quick statistics

  datatype Badge = ActiveBadge | PendingBadge | InactiveBadge

  /** The badge class of `calculateQuickStats` as written: active words, then pending words, everything else inactive. */
  function BadgeClass(status: string): Badge {
    var s := Lower(status);
    if Contains(s, "active") || Contains(s, "available") then ActiveBadge
    else if Contains(s, "pending") || Contains(s, "scheduled") then PendingBadge
    else InactiveBadge
  }

  /** The evidently intended class: a badge reading `inactive` is inactive. */
  function BadgeClassIntended(status: string): Badge {
    if Contains(Lower(status), "inactive") then InactiveBadge else BadgeClass(status)
  }

  /** An item's badge text, `None` when it has no badge element. */
  function IsClassed(classify: string -> Badge, b: Badge): Option<string> -> bool {
    (item: Option<string>) => item.Some? && classify(item.value) == b
  }

  function HasBadge(): Option<string> -> bool {
    (item: Option<string>) => item.Some?
  }

  datatype Stats = Stats(total: nat, active: nat, pending: nat, inactive: nat)

  /** The statistics by counting: all items, and the badged items of each class. */
  function QuickStats(items: seq<Option<string>>, classify: string -> Badge): Stats {
    Stats(|items|,
      |Filter(items, IsClassed(classify, ActiveBadge))|,
      |Filter(items, IsClassed(classify, PendingBadge))|,
      |Filter(items, IsClassed(classify, InactiveBadge))|)
  }

  /** Each badged item is counted in exactly one class, so the three counts add up to the badged items and no more than the total. */
  lemma {:induction false} QuickStatsAddUp(items: seq<Option<string>>, classify: string -> Badge)
    ensures var st := QuickStats(items, classify);
      st.active + st.pending + st.inactive == |Filter(items, HasBadge())| <= st.total
    decreases |items|
  {
    if |items| > 0 {
      QuickStatsAddUp(items[..|items| - 1], classify);
    }
  }

  /** As written, a badge reading "Inactive" is counted as active. */
  lemma InactiveBadgeCountsActive()
    ensures var st := QuickStats([Some("Inactive")], BadgeClass);
      st.active == 1 && st.inactive == 0
  {
    assert Lower("Inactive") == "inactive";
    ContainsAt("inactive", "inactive", 0);
    InactiveContainsActive("inactive");
    assert BadgeClass("Inactive") == ActiveBadge;
    var items := [Some("Inactive")];
    assert items[..0] == [];
    assert Filter(items, IsClassed(BadgeClass, ActiveBadge)) == [items[0]];
    assert Filter(items, IsClassed(BadgeClass, InactiveBadge)) == [];
  }

  /** With the intended class, every badge that reads `inactive` is counted as inactive, and the counts still add up. */
  lemma InactiveBadgeIntended(items: seq<Option<string>>, k: nat)
    requires k < |items| && items[k].Some? && Contains(Lower(items[k].value), "inactive")
    ensures items[k] in Filter(items, IsClassed(BadgeClassIntended, InactiveBadge))
    ensures items[k] !in Filter(items, IsClassed(BadgeClassIntended, ActiveBadge))
  {
    FilterMembers(items, IsClassed(BadgeClassIntended, InactiveBadge));
    FilterMembers(items, IsClassed(BadgeClassIntended, ActiveBadge));
  }

  /** The visible count of the filtered table, as the info line reads. */
  function ItemsInfo(visible: nat, total: nat): string {
    NatToString(visible) + " of " + NatToString(total) + " items"
  }

  /** A row of an enhanced table shows when its lower-cased text contains the lower-cased query. */
  predicate RowMatches(query: string, row: string) {
    Contains(Lower(row), Lower(query))
  }

  function RowTest(query: string): string -> bool {
    (row: string) => RowMatches(query, row)
  }

  /** An empty query shows every row. */
  lemma EmptyQueryShowsAll(rows: seq<string>)
    ensures Filter(rows, RowTest("")) == rows
  {
    forall k | 0 <= k < |rows| ensures RowMatches("", rows[k]) {
      ContainsEmpty(Lower(rows[k]));
    }
    FilterAll(rows, RowTest(""));
  }

  /** What `applyAdvancedFilter` leaves: each row's visibility and the info line, if the table has one. */
  datatype FilterView = FilterView(shown: seq<bool>, info: Option<string>)

  class DataDensityManager {
    var currentViewMode: string
    /** `localStorage['viewMode']`. */
    var storedViewMode: Option<string>
    /** The class names on `document.body`. */
    var bodyClasses: seq<string>

    /** The constructor: the stored mode or `comfortable`, applied to the body's class list (a DOM class list has no repeats). */
    constructor(stored: Option<string>, classes: seq<string>)
      requires Distinct(classes)
      ensures currentViewMode == InitialViewMode(stored) && storedViewMode == stored
      ensures bodyClasses == WithViewClass(classes, currentViewMode) && Distinct(bodyClasses)
    {
      currentViewMode := InitialViewMode(stored);
      storedViewMode := stored;
      bodyClasses := classes;
      new;
      ApplyViewMode();
      WithViewClassDistinct(classes, currentViewMode);
    }

    /** `applyViewMode`: one view class on the body, the current mode's. */
    method ApplyViewMode()
      modifies this`bodyClasses
      ensures bodyClasses == WithViewClass(old(bodyClasses), currentViewMode)
    {
      var kept := Filter(bodyClasses, NotViewClass());
      if ViewClass(currentViewMode) !in kept {
        kept := kept + [ViewClass(currentViewMode)];
      }
      bodyClasses := kept;
    }

    /** `setViewMode`: the mode is current, stored and applied. */
    method SetViewMode(mode: string)
      modifies this`currentViewMode, this`storedViewMode, this`bodyClasses
      ensures currentViewMode == mode && storedViewMode == Some(mode)
      ensures bodyClasses == WithViewClass(old(bodyClasses), mode)
    {
      currentViewMode := mode;
      storedViewMode := Some(mode);
      ApplyViewMode();
    }

    /** The keydown handler: a shortcut sets its mode, any other key changes nothing. */
    method HandleKeydown(ctrl: bool, meta: bool, key: string)
      modifies this`currentViewMode, this`storedViewMode, this`bodyClasses
      ensures ShortcutMode(ctrl, meta, key).None? ==>
        currentViewMode == old(currentViewMode) && storedViewMode == old(storedViewMode) && bodyClasses == old(bodyClasses)
      ensures ShortcutMode(ctrl, meta, key).Some? ==>
        var m := ShortcutMode(ctrl, meta, key).value;
        currentViewMode == m && storedViewMode == Some(m) && bodyClasses == WithViewClass(old(bodyClasses), m)
    {
      var m := ShortcutMode(ctrl, meta, key);
      if m.Some? {
        SetViewMode(m.value);
      }
    }

    /**
     * `calculateQuickStats`: one pass over the items, classifying each badge
     * as evidently intended, with `inactive` checked first (see BadgeClass).
     */
    method CalculateQuickStats(items: seq<Option<string>>) returns (stats: Stats)
      ensures stats == QuickStats(items, BadgeClassIntended)
    {
      stats := Stats(|items|, 0, 0, 0);
      var i := 0;
      while i < |items|
        invariant 0 <= i <= |items|
        invariant stats == Stats(|items|,
          |Filter(items[..i], IsClassed(BadgeClassIntended, ActiveBadge))|,
          |Filter(items[..i], IsClassed(BadgeClassIntended, PendingBadge))|,
          |Filter(items[..i], IsClassed(BadgeClassIntended, InactiveBadge))|)
      {
        FilterSnoc(items, i, IsClassed(BadgeClassIntended, ActiveBadge));
        FilterSnoc(items, i, IsClassed(BadgeClassIntended, PendingBadge));
        FilterSnoc(items, i, IsClassed(BadgeClassIntended, InactiveBadge));
        if items[i].Some? {
          var b := BadgeClassIntended(items[i].value);
          if b == ActiveBadge {
            stats := stats.(active := stats.active + 1);
          } else if b == PendingBadge {
            stats := stats.(pending := stats.pending + 1);
          } else {
            stats := stats.(inactive := stats.inactive + 1);
          }
        }
        i := i + 1;
      }
      assert items[..|items|] == items;
    }

    /**
     * `applyAdvancedFilter`: nothing outside an enhanced table; otherwise
     * each row is shown exactly when it matches, and the info line, when the
     * table has one (`hasInfo`), counts the shown rows against all rows.
     */
    method ApplyAdvancedFilter(table: Option<seq<string>>, hasInfo: bool, query: string) returns (r: Option<FilterView>)
      ensures table.None? <==> r.None?
      ensures r.Some? ==>
        |r.value.shown| == |table.value|
        && (forall k :: 0 <= k < |table.value| ==> (r.value.shown[k] <==> RowMatches(query, table.value[k])))
        && (r.value.info.Some? <==> hasInfo)
        && (hasInfo ==> r.value.info == Some(ItemsInfo(|Filter(table.value, RowTest(query))|, |table.value|)))
    {
      if table.None? {
        return None;
      }
      var rows := table.value;
      var shown: seq<bool> := [];
      var i := 0;
      while i < |rows|
        invariant 0 <= i <= |rows| && |shown| == i
        invariant forall k :: 0 <= k < i ==> (shown[k] <==> RowMatches(query, rows[k]))
      {
        shown := shown + [RowMatches(query, rows[i])];
        i := i + 1;
      }
      var visible := Filter(rows, RowTest(query));
      var info := if hasInfo then Some(ItemsInfo(|visible|, |rows|)) else None;
      return Some(FilterView(shown, info));
    }
  }
}
