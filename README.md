# Room-scheduling front end: a verified model

This project models the client-side logic of a university room-management
web application. Eight browser-side components are modelled:

- **Conflict engine** (`ConflictDetector`): finds room clashes, faculty
  clashes and over-capacity bookings among the scheduled classes. It
  suggests alternative rooms, validates a candidate booking, and
  summarises and reports the conflicts.
- **Calendar** (`CalendarSystem`): slices the teaching day into time
  slots, labels them, and picks the bookings of a date and of a slot.
- **Performance monitor** (`PerformanceMonitor`): its configuration
  merge, the TTL cache with insertion-order eviction, the
  resource-timing buffer, the threshold checks and the resource-type
  classifier.
- **Table enhancer** (`TableEnhancer`): search, column filters and
  column sorting over a captured copy of the table's rows.
- **Data-density manager** (`DataDensityManager`): the view modes, the
  status colours, the quick statistics and the row filter.
- **Notification manager** (`NotificationManager`): the on/off setting,
  the id counter, the newest-first list, the bell badge and the relative
  timestamps.
- **Contextual help** (`ContextualHelpManager`): guided tours (which skip steps whose target is not on the page), help mode,
  the keyboard handlers and the help lookup for an element.
- **Theme manager** (`ThemeManager`): the built-in themes, auto mode
  following the system preference, the theme class on the root element,
  the CSS custom properties, the meta theme colour and the CSS export.

Value-level logic (time arithmetic, overlap tests, lookups, formatting)
is written as functions with lemmas. Each component's object is a
`class` whose methods update its fields, and every method states its
whole new state. The source's loops are methods with loop invariants:

- the nested conflict scans;
- the slot rows;
- the quick statistics;
- the search over alternative rooms;
- the CSS-variable loop.

Each such method is proved against a specification function, and the
properties that function forms are proved as lemmas.

Shared modules:

- `Wrappers`: `Option` and `Result`.
- `Strings`: decimal text, padding, lower case, substring search, and
  split and join.
- `Seqs`: filter and map, with their lemmas.
- `Scans`: the generic nested i < j scan.

The inputs the browser provides become parameters:

- the clock, as `now` in milliseconds;
- stored settings, as `Option<string>`;
- media queries, as booleans;
- the table's rows and an element's tag, classes and attributes, as values.

Numbers are unbounded integers. Times of day are whole minutes.

## Model

| member | source | states |
|---|---|---|
| Conflicts.TimeToMinutes | public/js/conflict-detector.js:147-150 | minutes since midnight, and for a minute field below 60 it splits back into the hour and minute |
| Conflicts.MinutesToTime | public/js/conflict-detector.js:153-157 | whole hours and remaining minutes (below 60), which convert back to the same minute count |
| Conflicts.ClockRoundTrip | public/js/conflict-detector.js:147-157 | time to minutes and back is the identity for a proper minute field |
| Conflicts.ClockTextRoundTrip | public/js/conflict-detector.js:147-157 | parsing the padded "HH:MM" text of any time gives that time back |
| Conflicts.ClockTextInjective | public/js/conflict-detector.js:153-157 | two times have the same "HH:MM" text exactly when they are the same time |
| Conflicts.ClockTextOfDay | public/js/conflict-detector.js:153-157 | the text of a time of day is five characters with the colon in the middle |
| Conflicts.SharedMinute | public/js/conflict-detector.js:110-117 | two well-timed bookings overlap exactly when some minute lies in both |
| Conflicts.SharesDaySymmetric | public/js/conflict-detector.js:120-125 | the day-overlap test gives the same answer with its arguments swapped |
| Conflicts.ConflictSymmetric | public/js/conflict-detector.js:92-107 | room and faculty conflicts are symmetric, so the i < j scan misses no pair |
| Conflicts.RoomConflictMeans | public/js/conflict-detector.js:92-98 | a room conflict means same room, different ids, a shared minute and a shared day (both directions) |
| Conflicts.AdjacentBookingsDoNotClash | public/js/conflict-detector.js:110-117 | a booking ending when another starts never conflicts with it |
| Conflicts.GetOverlapTime | public/js/conflict-detector.js:128-144 | present exactly for overlapping well-timed bookings; the window holds exactly their common minutes and its duration is positive |
| Conflicts.RoomDetailsFromDirectory | public/js/conflict-detector.js:160-174 | a room has details exactly when the directory lists it, and they are its entry |
| Conflicts.SuggestionIsFirstSuitable | public/js/conflict-detector.js:177-197 | the suggestion names the first room large enough and free in the shared window; the fixed advice appears exactly when there is none |
| Conflicts.PairRecordShape | public/js/conflict-detector.js:31-72 | a pair record is high severity, of the scan's type, and names the two bookings in order |
| Conflicts.CapacityRecordShape | public/js/conflict-detector.js:75-89 | a capacity record is medium severity and names the one booking |
| Conflicts.ClashingPairsMembers | public/js/conflict-detector.js:31-72 | a pair is reported exactly when it is bookings i < j that clash |
| Conflicts.CapacityConflictsMembers | public/js/conflict-detector.js:75-89 | a capacity record is reported exactly when some booking exceeds a known room's capacity |
| Conflicts.PairConflictsShape | public/js/conflict-detector.js:31-72 | every record of a pairwise scan names two clashing bookings, with high severity |
| Conflicts.CapacityConflictsShape | public/js/conflict-detector.js:75-89 | every capacity record names one over-capacity booking, with medium severity |
| Conflicts.NamingTwoInvolves | public/js/conflict-detector.js:220-233 | a record of two bookings involves the candidate exactly when one of them has its subject and start |
| Conflicts.NamingOneInvolves | public/js/conflict-detector.js:220-233 | a record of one booking involves the candidate exactly when that booking does |
| Conflicts.PairRecordsInvolve | public/js/conflict-detector.js:220-233 | a pair's record involves the candidate exactly when one booking of the pair does |
| Conflicts.PairScanInvolves | public/js/conflict-detector.js:220-233 | some pair record involves the candidate exactly when a clashing pair touches it |
| Conflicts.CapacityRecordsInvolve | public/js/conflict-detector.js:220-233 | a capacity record involves the candidate exactly when its booking does |
| Conflicts.CapacityScanInvolves | public/js/conflict-detector.js:220-233 | some capacity record involves the candidate exactly when an over-capacity booking has its subject and start |
| Conflicts.ValidIff | public/js/conflict-detector.js:220-233 | the candidate is valid exactly when no clash and no overfilled room of the working set touches it |
| Conflicts.ClashInvalidates | public/js/conflict-detector.js:220-233 | a candidate that clashes with an existing booking, or overfills its room, is rejected |
| Conflicts.UnusualStartInMinutes | public/js/conflict-detector.js:256-263 | the fractional-hour test means a start before 07:00 or after 18:00 |
| Conflicts.GenerateWarnings | public/js/conflict-detector.js:236-276 | each of the three warning types appears exactly when its condition holds, and at most once |
| Conflicts.ThreeWarnings | public/js/conflict-detector.js:236-276 | the three optional warnings contain each type exactly when its flag holds, with no type twice |
| Conflicts.Validate | public/js/conflict-detector.js:220-233 | valid exactly when the conflict list is empty, and exactly when no clash or overfilled room of the working set touches the candidate; a record is listed exactly when the pass found it and it involves the candidate; the warnings are the candidate's |
| Conflicts.CountTypeSnoc | public/js/conflict-detector.js:279-293 | one more record adds one to its own type's count and nothing to the others |
| Conflicts.SeveritiesPartition | public/js/conflict-detector.js:279-293 | the high, medium and low counts add up to the total |
| Conflicts.TypesPartition | public/js/conflict-detector.js:279-293 | the counts by type add up to the total |
| Conflicts.OthersMeans | public/js/conflict-detector.js:341-342 | setting a booking aside keeps exactly the other bookings, changes nothing for an unstored one, and keeps the warnings defined |
| Conflicts.FindAlternativeSound | public/js/conflict-detector.js:332-350 | a found room is another directory room large enough where validation accepts the move; none is found exactly when no such room exists |
| Conflicts.NoAlternativeForExistingClash | public/js/conflict-detector.js:341-342 | as written, a booking with a room conflict against another stored booking never finds an alternative room |
| Conflicts.MoveTargetFinds | public/js/conflict-detector.js:332-350 | intended: a room is found whenever some option room suits the moved copy beside the other bookings |
| Conflicts.MoveTargetUnstored | public/js/conflict-detector.js:332-350 | for a booking that is not stored, the intended search and the search as written agree |
| Conflicts.SearchStep | public/js/conflict-detector.js:332-350 | trying one more room stops the search on acceptance and otherwise moves on |
| Conflicts.ResolutionForSound | public/js/conflict-detector.js:313-324 | one conflict gets at most one proposal, for that conflict and a sound move |
| Conflicts.ResolutionsSound | public/js/conflict-detector.js:309-329 | at most one proposal per conflict, each for a room conflict of the list and each a sound move beside the other bookings |
| Conflicts.ResolutionsComplete | public/js/conflict-detector.js:309-329 | a room conflict whose first booking has an alternative beside the other bookings always gets a proposal |
| Conflicts.ResolveStep | public/js/conflict-detector.js:309-329 | one more conflict adds its proposals and its searches' effect on the conflict list |
| Conflicts.ConflictDetector.constructor | public/js/conflict-detector.js:5-8 | the given bookings and no conflicts |
| Conflicts.ConflictDetector.DetectConflicts | public/js/conflict-detector.js:11-28 | the conflict list becomes room, then faculty, then capacity records of the bookings plus the candidate |
| Conflicts.ConflictDetector.CheckPairConflicts | public/js/conflict-detector.js:31-72 | appends one record per clashing pair i < j, in loop order |
| Conflicts.ConflictDetector.ScanPairs | public/js/conflict-detector.js:32-49 | the outer loop appends the records of every row in order |
| Conflicts.ConflictDetector.ScanRow | public/js/conflict-detector.js:33-48 | the inner loop appends one record per later booking that clashes with booking i |
| Conflicts.ConflictDetector.CheckCapacityViolations | public/js/conflict-detector.js:75-89 | appends one record per over-capacity booking, in order |
| Conflicts.ConflictDetector.ValidateSchedule | public/js/conflict-detector.js:220-233 | the answer is Validate's, and the conflict list holds the pass with the candidate |
| Conflicts.ConflictDetector.GetConflictSummary | public/js/conflict-detector.js:279-293 | total, severity counts and type counts of the current list |
| Conflicts.ConflictDetector.GetScheduleConflicts | public/js/conflict-detector.js:296-300 | exactly the records that name a booking with that id, in their order in the list |
| Conflicts.ConflictsNamingMembers | public/js/conflict-detector.js:296-300 | a record is selected exactly when it is in the list and names a booking with that id |
| Conflicts.ConflictsNamingKeepsOrder | public/js/conflict-detector.js:296-300 | the selection keeps order: for two lists joined, it is the first list's selection followed by the second's |
| Conflicts.ConflictDetector.UpdateSchedules | public/js/conflict-detector.js:303-306 | replaces the bookings and re-detects their conflicts |
| Conflicts.ConflictDetector.FindAlternativeRoom | public/js/conflict-detector.js:332-350 | returns the first option room where validation beside the other bookings accepts the move (the corrected search); the conflict list is the last try's, and the bookings are unchanged |
| Conflicts.ConflictDetector.AutoResolveConflicts | public/js/conflict-detector.js:309-329 | the proposals for the snapshot's room conflicts, the conflict list the searches leave, and the bookings unchanged |
| Conflicts.RoomRowAsWrittenThrows | public/js/conflict-detector.js:177-183 | as written, a row of the room scan throws exactly when it meets a room conflict |
| Conflicts.RoomScanAsWrittenThrows | public/js/conflict-detector.js:31-50 | as written, the room scan throws exactly when any room conflict exists, and otherwise reports none |
| Conflicts.FindAlternativeAsWrittenThrows | public/js/conflict-detector.js:334 | as written, every call of the room search throws before any room is tried |
| ConflictUtils.IconFor | public/js/conflict-detector.js:362-368 | every icon text, spelled with the file's own code points, is non-empty (so `||` falls back only on a missed lookup), and the fallback is given exactly to a text naming no type |
| ConflictUtils.IconsIdentifyType | public/js/conflict-detector.js:361-369 | each conflict type has its own icon text of the file, never the fallback |
| ConflictUtils.FormatMessageParts | public/js/conflict-detector.js:361-369 | the formatted message is the icon, a space, then the unchanged message |
| ConflictUtils.UnknownTypeFallsBack | public/js/conflict-detector.js:361-369 | a text naming no type gets the fallback text of :368 |
| ConflictUtils.SeverityColorsDistinct | public/js/conflict-detector.js:372-380 | the three severities get three different colours, none of them grey |
| ConflictUtils.UnknownSeverityIsGray | public/js/conflict-detector.js:372-380 | any other severity text is grey |
| ConflictUtils.ReportDetails | public/js/conflict-detector.js:383-396 | one detail per record, in order, copying type, message, severity and suggestion |
| ConflictUtils.ReportSummaryCount | public/js/conflict-detector.js:383-396 | the summary line's number reads back as the record count |
| ConflictUtils.AffectedOfPair | public/js/conflict-detector.js:383-396 | a two-booking record lists both subject codes, first one first |
| Scans.PairScanFinds | public/js/conflict-detector.js:32-49 | every clashing pair i < j in the rows scanned is found |
| Scans.PairScanOnly | public/js/conflict-detector.js:32-49 | only clashing pairs i < j in the rows scanned are found |
| Scans.RowScanFinds | public/js/conflict-detector.js:33-48 | the inner loop finds every later item that clashes with item i |
| Scans.RowScanOnly | public/js/conflict-detector.js:33-48 | the inner loop finds only later items that clash with item i |
| Scans.RowScanLength | public/js/conflict-detector.js:33-48 | a row finds at most one pair per later item |
| Scans.RowRecordsStep | public/js/conflict-detector.js:33-48 | one more column adds its record exactly when that pair clashes |
| Scans.PairRecordsStep | public/js/conflict-detector.js:32-49 | one more row appends that row's records after the earlier rows' |
| Calendar.SchedulesForDateMembers | public/js/calendar-system.js:367-374 | a booking is listed for a day exactly when its days list names the day |
| Calendar.SchedulesForTimeSlotMembers | public/js/calendar-system.js:376-387 | a booking is in a slot exactly when the slot's first minute lies in its interval |
| Calendar.SchedulesForTimeSlotKeepsOrder | public/js/calendar-system.js:376-387 | the slot list keeps the day's order |
| Calendar.EndingBookingLeavesSlot | public/js/calendar-system.js:376-387 | a booking ending when a slot starts is not in that slot |
| Calendar.SlotCountMeans | public/js/calendar-system.js:164-188 | round i runs exactly when i times the duration is below the day's minutes |
| Calendar.DefaultSlots | public/js/calendar-system.js:8-12 | the defaults give 28 slots, the last at 20:30 |
| Calendar.SlotsWithinDay | public/js/calendar-system.js:164-188 | every slot starts within the day, one duration after the previous |
| Calendar.DisplayHour | public/js/calendar-system.js:420-424 | the display hour is 1 to 12 and agrees with the hour modulo 12 |
| Calendar.ClockPart | public/js/calendar-system.js:420-424 | the label's clock part splits at its colon into the two numbers' digits |
| Calendar.FormatTimeRoundTrip | public/js/calendar-system.js:420-424 | reading back a time label gives the hour and minute again |
| Calendar.Weekday | public/js/calendar-system.js:328-333 | `getDay()` of a day number is 0 (Sunday) to 6 |
| Calendar.GetWeekStart | public/js/calendar-system.js:328-333 | the week starts on a Sunday at most six days earlier |
| Calendar.DaysFrom | public/js/calendar-system.js:335-345 | consecutive day numbers from the given offset |
| Calendar.RenderBody | public/js/calendar-system.js:85-96 | the day, week or month view for its name, and the week view for any other name |
| Calendar.CalendarSystem.constructor | public/js/calendar-system.js:5-24 | the defaults, overridden by each setting the caller gives |
| Calendar.CalendarSystem.ChangeView | public/js/calendar-system.js:322-325 | stores the view name and changes nothing else |
| Calendar.CalendarSystem.UpdateSchedules | public/js/calendar-system.js:441-444 | replaces the bookings |
| Calendar.CalendarSystem.RenderTimeSlots | public/js/calendar-system.js:164-188 | one row per slot, in order, with its label and the bookings running then |
| Calendar.CalendarSystem.RenderWeekTimeSlots | public/js/calendar-system.js:190-218 | per slot, the label and one cell per day of the week, in order |
| Calendar.CalendarSystem.GetWeekDays | public/js/calendar-system.js:335-345 | the whole week with weekends, Monday to Friday without (the corrected reading) |
| Calendar.WeekDaysIntendedAreWorkingDays | public/js/calendar-system.js:335-345 | from a Sunday, the intended list is exactly the five days with weekday 1 to 5 |
| Calendar.WeekDaysAsWrittenDropMonday | public/js/calendar-system.js:344 | as written, the week without weekends has four days and leaves out Monday |
| Performance.ThresholdsAsWrittenDropDefaults | public/js/performance-monitor.js:10-17 | as written, giving one threshold drops the defaults for the others |
| Performance.CacheSizeAsWrittenKeepsZero | public/js/performance-monitor.js:9-17 | as written, a cache size of 0 survives the fallback |
| Performance.ConfigIntendedMerges | public/js/performance-monitor.js:10-15 | each default threshold is kept unless the caller sets that one, and the caller's value wins |
| Performance.ConfigIntendedDefaults | public/js/performance-monitor.js:9-16 | the intended cache size and interval are never 0, and no options give the defaults |
| Performance.CheckThresholdsMonotone | public/js/performance-monitor.js:324-329 | a larger value is reported too, and a value at the threshold never is |
| Performance.GetResourceType | public/js/performance-monitor.js:584-599 | the type of a known extension, otherwise `other` |
| Performance.ResourceTypeOfExtension | public/js/performance-monitor.js:584-599 | a URL is classified by its last extension, in any letter case |
| Performance.PerformanceMonitor.constructor | public/js/performance-monitor.js:5-35 | the configuration, an empty cache, zero counters and no timings |
| Performance.PerformanceMonitor.SetCache | public/js/performance-monitor.js:293-304 | at or over capacity the earliest key is evicted first; then the key maps to the data with its expiry |
| Performance.PerformanceMonitor.GetFromCache | public/js/performance-monitor.js:306-316 | nothing for a missing key; a stale entry is deleted; a fresh one is returned with the cache unchanged |
| Performance.PerformanceMonitor.ClearCache | public/js/performance-monitor.js:318-322 | empties the cache and zeroes both counters |
| Performance.PerformanceMonitor.RecordResourceMetrics | public/js/performance-monitor.js:118-133 | past 1000 entries the buffer keeps the last 500, then the new entry is appended |
| Table.WalkFalsy | public/js/table-enhancements.js:188-190 | a falsy value passes through every remaining key unchanged |
| Table.WalkConcat | public/js/table-enhancements.js:188-190 | walking two key lists in turn is walking their concatenation |
| Table.WalkStopsAtFalsy | public/js/table-enhancements.js:188-190 | the walk stops at a falsy intermediate value and returns it |
| Table.NestedSingleKey | public/js/table-enhancements.js:188-190 | a path without a dot is one field lookup |
| Table.NestedDotted | public/js/table-enhancements.js:188-190 | a dotted path looks up its head, then the rest |
| Table.CodePointCompare | public/js/table-enhancements.js:137 | the comparison is -1, 0 or 1, the sign `localeCompare` gives |
| Table.CodePointCompareLaws | public/js/table-enhancements.js:137 | swapping the texts negates the comparison, and only equal texts compare equal |
| Table.CompareValuesAntisymmetric | public/js/table-enhancements.js:134-142 | swapping the values negates the comparison |
| Table.NumbersCompareByValue | public/js/table-enhancements.js:138-139 | numbers rank by numeric order |
| Table.MixedValuesCompareInCycle | public/js/table-enhancements.js:134-142 | a column mixing numbers and texts compares in a cycle, so no order fits it |
| Table.DescReversesAsc | public/js/table-enhancements.js:144 | descending is ascending with the rows swapped |
| Table.CompareRowsAntisymmetric | public/js/table-enhancements.js:129-145 | neither direction ranks two rows each before the other |
| Table.NextSortToggles | public/js/table-enhancements.js:79-86 | the same field flips the direction, a new one starts ascending, and two clicks come back |
| Table.ArrangedPermutes | public/js/table-enhancements.js:126-146 | sorting only reorders; no field means no change; with a field every adjacent pair is in comparator order |
| Table.VisibleMembers | public/js/table-enhancements.js:97-124 | a row is kept exactly when it matches the search, if any, and every filtering select |
| Table.VisibleKeepsOrder | public/js/table-enhancements.js:97-124 | filtering keeps the original order |
| Table.BlankSearchShowsAll | public/js/table-enhancements.js:63-65 | a blank search with no filtering select keeps every row |
| Table.SearchStep | public/js/table-enhancements.js:101-107 | the search step leaves the rows that pass the search |
| Table.PassesNext | public/js/table-enhancements.js:110-120 | passing one more select is passing the earlier ones and that select |
| Table.FilterSelectStep | public/js/table-enhancements.js:110-120 | each filtering select narrows the rows to those whose field matches |
| Table.FilterRows | public/js/table-enhancements.js:98-122 | the search and each filtering select in turn leave exactly the visible rows, in order |
| Table.TableEnhancer.constructor | public/js/table-enhancements.js:5-20 | the body's rows, displayed in order, with no sort field |
| Table.TableEnhancer.CaptureOriginalData | public/js/table-enhancements.js:27-37 | no body changes nothing; otherwise its rows, displayed in order |
| Table.TableEnhancer.ApplySort | public/js/table-enhancements.js:126-146 | the displayed rows are re-arranged by the current field and direction |
| Table.TableEnhancer.ApplyFiltersAndSort | public/js/table-enhancements.js:97-124 | the displayed rows are the sorted visible originals |
| Table.TableEnhancer.HandleSearch | public/js/table-enhancements.js:63-77 | the box holds the query, and the rows are the full pipeline's |
| Table.TableEnhancer.HandleSort | public/js/table-enhancements.js:79-90 | the sort state moves on and the rows are re-sorted without re-filtering |
| Table.TableEnhancer.HandleFilter | public/js/table-enhancements.js:92-95 | the pipeline re-runs with the selects as they read now |
| Table.TableEnhancer.Refresh | public/js/table-enhancements.js:193-197 | the rows are captured again and the pipeline re-runs |
| Density.InitialViewModeChoice | public/js/data-density-manager.js:12 | a stored non-empty mode is used, otherwise comfortable; never empty |
| Density.ShortcutModes | public/js/data-density-manager.js:384-401 | exactly Ctrl or Cmd with 1, 2 or 3 selects a mode, each a different one |
| Density.WithViewClassDistinct | public/js/data-density-manager.js:349-352 | a class list without repeats keeps none |
| Density.WithViewClassMeans | public/js/data-density-manager.js:349-352 | the mode's class is the only view class, and all other classes stay |
| Density.InactiveContainsActive | public/js/data-density-manager.js:712-718 | a text containing `inactive` contains `active` |
| Density.InactiveIsGreen | public/js/data-density-manager.js:714-716 | as written, any `inactive` status is green |
| Density.StatusColorIgnoresCase | public/js/data-density-manager.js:712-718 | the colour does not depend on letter case |
| Density.StatusColorIntendedMeans | public/js/data-density-manager.js:712-718 | intended: `inactive` is red, and every other status keeps its colour |
| Density.QuickStatsAddUp | public/js/data-density-manager.js:666-689 | the three counts add up to the badged items, at most the total |
| Density.InactiveBadgeCountsActive | public/js/data-density-manager.js:678-684 | as written, an "Inactive" badge counts as active |
| Density.InactiveBadgeIntended | public/js/data-density-manager.js:678-684 | intended: an `inactive` badge counts as inactive and not as active |
| Density.EmptyQueryShowsAll | public/js/data-density-manager.js:590-611 | an empty query shows every row |
| Density.DataDensityManager.constructor | public/js/data-density-manager.js:5-17 | the stored mode or comfortable, applied to the body |
| Density.DataDensityManager.ApplyViewMode | public/js/data-density-manager.js:349-352 | one view class on the body, the current mode's |
| Density.DataDensityManager.SetViewMode | public/js/data-density-manager.js:563-575 | the mode is current, stored and applied |
| Density.DataDensityManager.HandleKeydown | public/js/data-density-manager.js:384-401 | a shortcut sets its mode, and any other key changes nothing |
| Density.DataDensityManager.CalculateQuickStats | public/js/data-density-manager.js:666-689 | the counts of all items and of each badge class (the corrected classes) |
| Density.DataDensityManager.ApplyAdvancedFilter | public/js/data-density-manager.js:590-611 | nothing outside a table; each row shown exactly when it matches; the info line exists exactly when the table has one, and counts the shown rows |
| Help.TourForPathDefined | public/js/contextual-help-manager.js:758-778 | with no name, some registered tour is picked, and the colleges tour exactly on a colleges page that is not a dashboard |
| Help.ShowFindsPresent | public/js/contextual-help-manager.js:781-792 | showing a step lands on the first step from there whose target is on the page, skipping exactly the missing ones, and ends the tour exactly when every later target is missing |
| Help.NavigationInRange | public/js/contextual-help-manager.js:781-923 | showing, Next and Previous keep the step in range whatever the page holds |
| Help.AllPresentNavigation | public/js/contextual-help-manager.js:781-923 | with every target on the page nothing is skipped, and Next and Previous are plain steps |
| Help.PreviousBounces | public/js/contextual-help-manager.js:786-790 | Previous onto a missing target is skipped forward again, back to the present current step |
| Help.TourNavigation | public/js/contextual-help-manager.js:904-923 | with every target on the page, Next and Previous keep the step in range and undo each other; Next on the last step ends the tour |
| Help.TourWalk | public/js/contextual-help-manager.js:904-913 | with every target on the page, Next walks one step at a time and ends the tour just after the last step |
| Help.NoTourStays | public/js/contextual-help-manager.js:904-913 | with no tour, Next changes nothing |
| Help.GenericHelpMeans | public/js/contextual-help-manager.js:1007-1030 | generic help exists exactly for a known role or tag, and prefers the role |
| Help.ElementHelpPriority | public/js/contextual-help-manager.js:988-1004 | the first selector with an entry decides, and generic help is used only when none has one |
| Help.EmptyContentIsGeneric | public/js/contextual-help-manager.js:5-15 | since help entries are never added, every element gets the generic help |
| Help.ContextualHelpManager.constructor | public/js/contextual-help-manager.js:5-15 | the registered tours, no entries, no tour, help mode off |
| Help.ContextualHelpManager.StartTour | public/js/contextual-help-manager.js:758-778 | an unknown tour changes nothing; a known one is shown from its first step, skipping missing targets, and is marked seen if that ends it |
| Help.ContextualHelpManager.ShowTourStep | public/js/contextual-help-manager.js:781-792 | a step whose target is on the page stays; a missing one moves on with Next, which may end the tour and mark it seen |
| Help.ContextualHelpManager.EndTour | public/js/contextual-help-manager.js:926-944 | no tour, step 0, marked seen; a running tour is reported with its progress |
| Help.ContextualHelpManager.NextStep | public/js/contextual-help-manager.js:904-913 | the next step, shown (skipping missing targets), or the end of the tour, which marks it seen |
| Help.ContextualHelpManager.PreviousStep | public/js/contextual-help-manager.js:916-923 | one step back and shown (a missing target moves on again), never before the first |
| Help.ContextualHelpManager.ToggleHelpMode | public/js/contextual-help-manager.js:947-972 | help mode flips |
| Help.ContextualHelpManager.HandleEscape | public/js/contextual-help-manager.js:552-561 | ends a tour, else leaves help mode, else changes nothing |
| Help.ContextualHelpManager.HandleArrow | public/js/contextual-help-manager.js:600-610 | during a tour, right or down is Next and left or up is Previous, both on the page given; anything else changes nothing |
| Help.ContextualHelpManager.GetElementHelp | public/js/contextual-help-manager.js:988-1004 | the entry of the first selector that has one, else the generic help |
| Notifications.MakeRecordDefaults | public/js/notification-manager.js:325-334 | without caller values, the new id, the clock's time and the defaults; each given field is the caller's; a key holding `undefined` keeps its default (the corrected reading, see Findings) |
| Notifications.HelperWithoutActionsThrows | public/js/notification-manager.js:333 | as written, a helper called without actions stores `actions: undefined`, which the toast reads the `length` of at :389; given actions are stored; the corrected record has none and the helper's type |
| Notifications.ShowKeepsNewestFirst | public/js/notification-manager.js:321-337 | a record with the next id put in front keeps the list newest-first, and its id is new |
| Notifications.BadgeTextMeans | public/js/notification-manager.js:487-499 | hidden exactly at 0, the count itself from 1 to 99, `99+` beyond |
| Notifications.FormatTimestampBuckets | public/js/notification-manager.js:512-520 | under a minute is "Just now"; then whole minutes, then whole hours, then the date |
| Notifications.StoredFlagRoundTrip | public/js/notification-manager.js:284-287 | a stored flag reads back as itself, and an absent one is on |
| Notifications.ShowOutgrowsCap | public/js/notification-manager.js:337 | on a list at the cap, the show as written makes it one longer than the cap, while the capped show stays at the cap and is the uncapped list without its oldest record |
| Notifications.CappedListMeans | public/js/notification-manager.js:7 | intended: within the cap, the new record first, then the newest old ones |
| Notifications.NotificationManager.constructor | public/js/notification-manager.js:5-13 | the options with their fallbacks, the stored settings, an empty list and counter 0 |
| Notifications.NotificationManager.Show | public/js/notification-manager.js:321-364 | disabled: nothing changes; enabled: the next id, the corrected record in front within the cap, newest-first kept |
| Notifications.NotificationManager.ShowHelper | public/js/notification-manager.js:577-599 | `show` of the helper's object: the helper's type, the given actions or none, and what Show promises |
| Notifications.NotificationManager.ClearAll | public/js/notification-manager.js:501-504 | the list is empty and the counter is kept |
| Notifications.NotificationManager.UpdateNotificationCount | public/js/notification-manager.js:487-499 | the badge for the current list |
| Notifications.NotificationManager.SetEnabled | public/js/notification-manager.js:284-287 | the flag is set and stored, and the stored text reads back as it |
| Theme.InitialDefaults | public/js/theme-manager.js:6-8 | no storage gives light without auto mode; stored auto mode reads back; an empty stored theme is light |
| Theme.WithThemeClassIdempotent | public/js/theme-manager.js:60-61 | applying a theme's class twice leaves the classes as applying it once |
| Theme.WithThemeClassDistinct | public/js/theme-manager.js:60-61 | like `classList.add`, a class list without repeats keeps none |
| Theme.WithThemeClassMeans | public/js/theme-manager.js:60-61 | the theme's class is present, a built-in class is present exactly when it is the theme's, and other classes stay |
| Theme.VarNameInjective | public/js/theme-manager.js:64-69 | different keys give different variable names |
| Theme.SetVarsMeans | public/js/theme-manager.js:64-69 | each non-name entry's variable holds that entry's value |
| Theme.SetVarsMerges | public/js/theme-manager.js:64-69 | setting a theme's variables merges that theme's own variables over the old ones |
| Theme.SetVarsTwice | public/js/theme-manager.js:64-69 | setting the same theme's variables twice is setting them once |
| Theme.SetVarsKeepsOthers | public/js/theme-manager.js:64-69 | variables not named by the theme keep their values |
| Theme.ExportCssLines | public/js/theme-manager.js:550-558 | the export is `:root {`, one declaration line per variable entry in order, then `}` |
| Theme.PaletteShape | public/js/theme-manager.js:10-43 | a palette has six distinct keys, name first, and its primary colour as given |
| Theme.PaletteLineFree | public/js/theme-manager.js:10-43 | a palette of single-line texts has no line break in any key or value |
| Theme.PaletteWellFormed | public/js/theme-manager.js:10-43 | a palette of single-line texts is a well-formed theme |
| Theme.BuiltInThemeShape | public/js/theme-manager.js:10-43 | every built-in theme is well formed |
| Theme.VariablesAfterName | public/js/theme-manager.js:552-553 | for a well-formed theme the exported entries are all but the name |
| Theme.BuiltInExportLines | public/js/theme-manager.js:550-558 | a built-in theme exports exactly its five colour declarations |
| Theme.ThemeManager.constructor | public/js/theme-manager.js:5-46 | the stored theme and auto mode, the system preference, the built-in themes |
| Theme.ThemeManager.ApplyTheme | public/js/theme-manager.js:55-78 | succeeds exactly for a registered effective theme; sets its class, its variables and the meta colour |
| Theme.ThemeManager.SetTheme | public/js/theme-manager.js:471-491 | an unknown name changes nothing; a known one is current and stored, turns auto mode off, and is applied: its class, its variables over the old ones, and its primary colour as the meta colour |
| Theme.ThemeManager.ToggleAutoMode | public/js/theme-manager.js:493-517 | auto mode is set and stored; the effective theme's class is set, and when it is registered its variables and meta colour too, otherwise both stay |
| Theme.ThemeManager.SystemPreferenceChanged | public/js/theme-manager.js:80-88 | the preference is recorded; only in auto mode is the system theme applied (class, and variables and meta colour when registered) |
| Theme.ThemeManager.ResetTheme | public/js/theme-manager.js:519-529 | light, auto mode off, both stored; the classes, variables and meta colour are those of applying light once to the old state |
| Theme.ThemeManager.GetCurrentTheme | public/js/theme-manager.js:541-548 | the chosen theme's name and data, auto mode and the system preference |
| Theme.ThemeManager.ExportThemeCss | public/js/theme-manager.js:550-558 | the chosen theme's CSS, or nothing for an unregistered one |
| Theme.ThemeManager.AddCustomTheme | public/js/theme-manager.js:561-564 | the theme is registered under its name, replacing any theme of that name, a built-in one included; every other theme is unchanged |

## Findings

| source | as written | input that shows it | evidently intended | confidence | as-written member | corrected member |
|---|---|---|---|---|---|---|
| public/js/conflict-detector.js:183 | `Object.entries(this.getRoomDetails())` calls the lookup with no room name, which yields `undefined`, so `Object.entries` throws | any two bookings with a room conflict: the room scan throws and no room conflict is ever reported | iterate over the whole room table | not executed; high | Conflicts.RoomScanAsWrittenThrows | Conflicts.SuggestionIsFirstSuitable |
| public/js/conflict-detector.js:334 | the same call with no room name in `findAlternativeRoom` | any direct call to `findAlternativeRoom` | iterate over the whole room table | not executed; high | Conflicts.FindAlternativeAsWrittenThrows | Conflicts.FindAlternativeSound |
| public/js/conflict-detector.js:341-342 | the moved copy is validated beside the booking it copies, which keeps its subject code and start time, so the validation filter counts the original's clashes as the copy's | two stored bookings in one room at the same time: `autoResolveConflicts` proposes no move for the first | validate the moved copy beside the other bookings only | not executed; medium | Conflicts.NoAlternativeForExistingClash | Conflicts.MoveTargetFinds |
| public/js/calendar-system.js:344 | without weekends, the loop already collects Monday to Friday and `slice(1, 6)` then drops Monday | `showWeekends` false: the week view shows Tuesday to Friday | Monday to Friday | not executed; high | Calendar.WeekDaysAsWrittenDropMonday | Calendar.WeekDaysIntendedAreWorkingDays |
| public/js/performance-monitor.js:17 | the trailing `...options` puts the caller's `performanceThresholds` back over the merged thresholds | options with only a `loadTime` threshold: the interaction-time and memory defaults are gone | caller thresholds merged over the defaults | not executed; high | Performance.ThresholdsAsWrittenDropDefaults | Performance.ConfigIntendedMerges |
| public/js/performance-monitor.js:9 | the trailing `...options` also puts an explicit `cacheSize: 0` back over the `\|\| 100` fallback | `cacheSize: 0`: every insertion into a non-empty cache evicts a key | a cache size of 0 falls back to 100 | not executed; medium | Performance.CacheSizeAsWrittenKeepsZero | Performance.ConfigIntendedDefaults |
| public/js/data-density-manager.js:714-716 | the `active` rule is checked before the `inactive` rule, and every text containing `inactive` contains `active` | status "inactive" is coloured green | `inactive` is red | not executed; high | Density.InactiveIsGreen | Density.StatusColorIntendedMeans |
| public/js/data-density-manager.js:678-684 | the badge test for `active` comes first and also matches `inactive` | a badge reading "Inactive" is counted as active | `inactive` badges count as inactive | not executed; high | Density.InactiveBadgeCountsActive | Density.InactiveBadgeIntended |
| public/js/notification-manager.js:337 | `maxNotifications` (line 7) is stored but never read; `unshift` grows the list without bound | 51 notifications with the default cap of 50 | keep at most `maxNotifications` records, dropping the oldest | not executed; medium | Notifications.ShowOutgrowsCap | Notifications.CappedListMeans |
| public/js/notification-manager.js:333 | `...notification` comes last, so a key present but holding `undefined` overrides its default; every `showX` helper (:577-599) passes `actions` that way when it is omitted, and `createToastNotification` then reads `notification.actions.length` (:389) and throws, after the list and badge are updated | `showWarning('Performance Warning', message)`: the record holds `actions: undefined` and the call throws instead of returning the id | an omitted argument keeps its default, `actions: []` | not executed; high | Notifications.HelperWithoutActionsThrows | Notifications.MakeRecordDefaults |

The classes use the corrected definitions:
- `SuggestRoomAlternative` and `FindAlternativeRoom` read the whole room table;
- `FindAlternativeRoom` sets the booking aside while its moved copy is validated, and `AutoResolveConflicts` proposes the moves that search finds;
- `GetWeekDays` returns Monday to Friday;
- the `PerformanceMonitor` constructor uses `ConfigIntended`;
- `CalculateQuickStats` tests `inactive` first;
- `Show` caps the list and keeps the default for a key holding `undefined`.

`GetStatusColor` is also modelled as written, because no operation of the model uses it.

## Left out

- Document, DOM, timers, `fetch`, `localStorage` and media queries: their values are parameters or fields (the tour's page is the set of selectors `document.querySelector` finds, fixed during one call), and the markup and event wiring are not modelled.
- Floating point: the calendar's fractional hours and the monitor's timings are whole minutes and whole milliseconds.
- Month view: `getMonthWeeks` and calendar navigation are not modelled, and the month body is a tag.
- Conflicts.SameSlotSubject: compares start times as Clock values, while the source compares the `startTime` texts; the two agree for times written in the canonical zero-padded "HH:MM" form (ClockTextInjective), and texts such as "9:00" and "09:00", equal here, differ in the source.
- Conflicts.Others: sets aside every stored booking equal to the one being moved, where a corrected source would more likely drop only the one object.
- Conflicts.ParseClock: reads only texts made of digit groups, with no `Number` coercion of other text.
- Conflicts.GenerateWarnings: requires every booking to have a days list (WarningsDefined), because the source throws on a missing one.
- Conflicts.ConflictDetector.FindAlternativeRoom: requires WarningsDefined, for the same reason.
- Conflicts.Validate: requires WarningsDefined, because `validateSchedule` reaches `generateWarnings`, which throws on a booking without a days list.
- Conflicts.ConflictDetector.ValidateSchedule: requires WarningsDefined, for the same reason.
- Conflicts.ConflictDetector.AutoResolveConflicts: requires Resolvable, for the same reason.
- Conflicts: the advice and warning texts are constructors, not the source's template strings, and room types and buildings are enumerations.
- Calendar.CalendarSystem.RenderTimeSlots: requires a positive slot duration, because the source's loop never ends for a duration of 0 when the end hour is after the start hour; the requires also excludes a duration of 0 with the start hour at or after the end hour, where the source's slot count is NaN or negative infinity and its loop renders nothing.
- Calendar.SlotCount: requires a positive slot duration, for the same reason and with the same excluded case.
- Calendar.CalendarSystem.RenderWeekTimeSlots: requires a positive slot duration, for the same reason and with the same excluded case.
- Calendar: slot durations and hours are natural numbers, so negative configuration values are not modelled.
- Theme.ThemeManager.constructor: requires a class list without repeats, as a DOM class list is.
- Density.DataDensityManager.constructor: requires a class list without repeats, as a DOM class list is.
- Performance.PerformanceMonitor.constructor: uses the corrected configuration (see Findings), not the as-written spread.
- Performance: `recordMetric` with dynamic category keys, the cache hit and miss counting in the observers, and reporting are not modelled.
- ConflictUtils.IconFor: the icon texts are the code points the source file holds, a double encoding of the house, teacher, people and warning-sign emoji evidently meant; the intended emoji are not modelled.
- ConflictUtils.IconFor: `icons[type]` also finds inherited `Object.prototype` keys such as `toString` or `constructor`, whose values are functions, not the fallback text; the model gives those the fallback.
- ConflictUtils.UnknownTypeFallsBack: holds for the model's lookup only; in the source, inherited `Object.prototype` keys (`toString`, `constructor`, `__proto__`, ...) do not fall back.
- ConflictUtils.GetSeverityColor: inherited `Object.prototype` keys of the colour table are not modelled; the model gives them grey.
- ConflictUtils.UnknownSeverityIsGray: holds for the model's lookup only; in the source, inherited `Object.prototype` keys such as `toString` are not grey.
- Performance.GetResourceType: the extension is lower-cased for ASCII letters only (Strings.Lower).
- Performance.GetResourceType: inherited `Object.prototype` keys in the lookup table are not modelled.
- Help.GenericHelp: inherited `Object.prototype` keys in the lookup table are not modelled.
- Help.TourNavigation: states the undoing of Next and Previous only for a page holding every tour target; with a missing target the two do not undo each other (PreviousBounces), and ShowFindsPresent states where a skip lands.
- Help.TourWalk: the one-step walk is stated for a page holding every tour target, for the same reason.
- Help.ContextualHelpManager.ShowTourStep: the page is fixed during one call; the warning logged for a missing target and the completion report of a tour ended by a skip are dropped.
- Table: `localeCompare` is replaced by code-point order.
- Table: values have no arrays and no fractional numbers.
- Table.Row: a row's `data` is given already parsed; `JSON.parse` of a malformed `data-item` attribute throws in `captureOriginalData` (public/js/table-enhancements.js:33), and that error is not modelled.
- Table: a field key that is present but holds `undefined` is the same as an absent one.
- Table.TableEnhancer.ApplySort: the browser's sort is modelled as a stable insertion sort; for a column that mixes numbers and texts the comparator is cyclic, and the browser's order may differ.
- Table: a missing `data-filter-field` attribute is not modelled.
- Table.Member: a member of a text, number or boolean (such as `"abc"['length']`) and an inherited `Object.prototype` key of an object are `undefined` here, while the source finds a value.
- Table.SearchMatch: `toLowerCase` folds only ASCII letters here (Strings.Lower); other letters keep their case.
- Table.FieldMatch: case folding is ASCII-only, as for SearchMatch.
- Density: the row filter and the status and badge tests fold case for ASCII letters only.
- Help: the element's tag name is lower-cased for ASCII letters only.
- Density: the `view-\w+` regular expression is modelled on whole class tokens.
- Density: `toggleColumn`, `renderEnhancedTable` and `exportData` are not modelled.
- Notifications: sounds, toasts, browser notifications, auto-dismiss, single dismissal and server polling are not modelled.
- Notifications.NotificationManager.Show: builds the corrected record (see Findings); as written, an input whose `actions` key holds `undefined` updates the list, the counter and the badge and then throws in the toast, returning no id.
- Notifications.NotificationManager.ShowHelper: the same, for a helper called without actions.
- Notifications.FieldOr: a title or message holding `undefined` would show as the text "undefined" in the source; the corrected record gives it the default.
- Theme.ThemeManager.constructor: sets the fields only; the first `applyTheme` of `init` is the ApplyTheme method, to be called next, so its throw on an unknown stored theme is not part of the constructor.
- Theme.ThemeManager.SetTheme: the registration test `this.themes[theme]` also accepts inherited `Object.prototype` keys such as `toString`; the model's `in themes` does not.
- Theme.ThemeManager.ApplyTheme: `this.themes[...]` for an inherited `Object.prototype` key finds a function rather than nothing; not modelled (the same holds for the registration test of ToggleAutoMode, SystemPreferenceChanged and ExportThemeCss).
- Theme.ThemeManager.ApplyTheme: `classList.add` throwing on an empty or whitespace class name is not modelled.
- Theme: the `themechange` event, screen-reader announcements and the theme-control markup are not modelled.
- Help: analytics (`trackEvent`) and tour-tooltip positioning are not modelled.
