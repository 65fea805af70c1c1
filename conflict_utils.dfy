/**
 * `window.ConflictUtils`: the display helpers over conflict records — the
 * icon-prefixed message, the severity colour classes and the report.
 */
module ConflictUtils {
  import opened Strings
  import opened Seqs
  import opened Conflicts

  /** The `type` string of a record. */
  function ConflictTypeName(t: ConflictType): string {
    match t
    case RoomConflict => "room_conflict"
    case FacultyConflict => "faculty_conflict"
    case CapacityViolation => "capacity_violation"
  }

  /** The `severity` string of a record. */
  function SeverityName(sv: Severity): string {
    match sv
    case High => "high"
    case Medium => "medium"
    case Low => "low"
  }

  /**
   * The icon texts are the source file's own characters: each is the UTF-8
   * encoding of an emoji (house, teacher, people, warning sign) read back as
   * Windows-1252, so these are the code points the browser gets.
   */
  const FallbackIcon: string := "\U{E2}\U{161}\U{A0}\U{EF}\U{B8}"

  /** `icons[type] || fallback`: one text per record type, else the fallback. */
  function IconFor(typeName: string): (r: string)
    ensures r != ""
    ensures r == FallbackIcon <==> typeName !in {"room_conflict", "faculty_conflict", "capacity_violation"}
  {
    if typeName == "room_conflict" then "\U{F0}\U{178}\U{A0}"
    else if typeName == "faculty_conflict" then "\U{F0}\U{178}\U{2018}\U{A8}\U{E2}\U{20AC}\U{F0}\U{178}\U{AB}"
    else if typeName == "capacity_violation" then "\U{F0}\U{178}\U{2018}\U{A5}"
    else FallbackIcon
  }

  /** `formatConflictMessage`: the type's icon, a space, then the message. */
  function FormatConflictMessage(c: Conflict): string {
    IconFor(ConflictTypeName(c.ctype)) + " " + c.message
  }

  /** Every record type has an icon of its own, never the fallback. */
  lemma IconsIdentifyType(t1: ConflictType, t2: ConflictType)
    ensures IconFor(ConflictTypeName(t1)) != FallbackIcon
    ensures IconFor(ConflictTypeName(t1)) == IconFor(ConflictTypeName(t2)) <==> t1 == t2
  {
    var i1 := IconFor(ConflictTypeName(t1));
    var i2 := IconFor(ConflictTypeName(t2));
    if t1 != t2 {
      assert |i1| != |i2|;
    }
  }

  /** The formatted message is the type's icon and a space ahead of the unchanged message. */
  lemma FormatMessageParts(c: Conflict)
    ensures var r := FormatConflictMessage(c);
      var icon := IconFor(ConflictTypeName(c.ctype));
      |r| == |icon| + 1 + |c.message| && r[..|icon|] == icon && r[|icon|] == ' ' && r[|icon| + 1..] == c.message
  {
  }

  /** A text that names no record type gets the warning sign. */
  lemma UnknownTypeFallsBack(typeName: string)
    requires forall t: ConflictType :: typeName != ConflictTypeName(t)
    ensures IconFor(typeName) == FallbackIcon
  {
    assert typeName != ConflictTypeName(RoomConflict);
    assert typeName != ConflictTypeName(FacultyConflict);
    assert typeName != ConflictTypeName(CapacityViolation);
  }

  const GrayClasses: string := "text-gray-600 bg-gray-100"

  /** `getSeverityColor`: red, yellow and blue classes for high, medium and low, grey otherwise. */
  function GetSeverityColor(severity: string): string {
    if severity == "high" then "text-red-600 bg-red-100"
    else if severity == "medium" then "text-yellow-600 bg-yellow-100"
    else if severity == "low" then "text-blue-600 bg-blue-100"
    else GrayClasses
  }

  /** The three severities get three different colours, none of them the grey fallback. */
  lemma SeverityColorsDistinct(s1: Severity, s2: Severity)
    ensures GetSeverityColor(SeverityName(s1)) != GrayClasses
    ensures GetSeverityColor(SeverityName(s1)) == GetSeverityColor(SeverityName(s2)) <==> s1 == s2
  {
    var c1 := GetSeverityColor(SeverityName(s1));
    var c2 := GetSeverityColor(SeverityName(s2));
    if s1 != s2 {
      assert c1[5] != c2[5];
    }
    assert c1[5] != GrayClasses[5];
  }

  /** Any other severity text is grey. */
  lemma UnknownSeverityIsGray(severity: string)
    requires forall sv: Severity :: severity != SeverityName(sv)
    ensures GetSeverityColor(severity) == GrayClasses
  {
    assert severity != SeverityName(High);
    assert severity != SeverityName(Medium);
    assert severity != SeverityName(Low);
  }

  /** One entry of `generateConflictReport`'s `details`. */
  datatype Detail = Detail(ctype: ConflictType, message: string, severity: Severity, affectedSchedules: string, suggestion: Advice)

  datatype Report = Report(summary: string, details: seq<Detail>)

  function SubjectOf(s: Schedule): string { s.subjectCode }

  function SubjectsOf(): Schedule -> string { (s: Schedule) => SubjectOf(s) }

  /** The subject codes of the record's bookings, joined by ", ". */
  function Affected(c: Conflict): string {
    Join(Map(c.schedules, SubjectsOf()), ", ")
  }

  function DetailOf(c: Conflict): Detail {
    Detail(c.ctype, c.message, c.severity, Affected(c), c.suggestion)
  }

  function DetailsOf(): Conflict -> Detail { (c: Conflict) => DetailOf(c) }

  /** `generateConflictReport`: a count line and one detail per record, in order. */
  function GenerateConflictReport(cs: seq<Conflict>): Report {
    Report("Found " + NatToString(|cs|) + " conflicts", Map(cs, DetailsOf()))
  }

  /** The report has one detail per record, copying its type, message, severity and suggestion. */
  lemma ReportDetails(cs: seq<Conflict>)
    ensures var r := GenerateConflictReport(cs);
      |r.details| == |cs|
      && forall k :: 0 <= k < |cs| ==>
        r.details[k].ctype == cs[k].ctype && r.details[k].message == cs[k].message
        && r.details[k].severity == cs[k].severity && r.details[k].suggestion == cs[k].suggestion
        && r.details[k].affectedSchedules == Affected(cs[k])
  {
    forall k | 0 <= k < |cs| ensures GenerateConflictReport(cs).details[k] == DetailOf(cs[k]) {
      MapAt(cs, DetailsOf(), k);
    }
  }

  /** The count in the summary line reads back as the number of records. */
  lemma ReportSummaryCount(cs: seq<Conflict>)
    ensures var r := GenerateConflictReport(cs);
      var digits := r.summary[6..|r.summary| - 10];
      AllDigits(digits) && DecimalValue(digits) == |cs|
  {
    var r := GenerateConflictReport(cs);
    assert r.summary[6..|r.summary| - 10] == NatToString(|cs|);
    NatToStringRoundTrip(|cs|);
  }

  /** A two-booking record lists the two subject codes, first one first. */
  lemma AffectedOfPair(c: Conflict, a: Schedule, b: Schedule)
    requires c.schedules == [a, b]
    ensures Affected(c) == a.subjectCode + ", " + b.subjectCode
  {
    MapSnoc([], a, SubjectsOf());
    assert [] + [a] == [a];
    MapSnoc([a], b, SubjectsOf());
    assert [a] + [b] == [a, b];
    var names := Map([a, b], SubjectsOf());
    assert names == [a.subjectCode, b.subjectCode];
    assert names[1..] == [b.subjectCode];
    assert Join(names, ", ") == a.subjectCode + ", " + Join([b.subjectCode], ", ");
    assert Affected(c) == Join(names, ", ");
  }
}
