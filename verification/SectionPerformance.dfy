/**
 * The section performance bar chart (components/section-performance-card.tsx):
 * one row per grouped section with its issue count and the number of its
 * audits at each of the four charted severities, and one clickable stacked
 * segment per severity.
 */
module SectionPerformance {
  import opened Wrappers
  import opened Schemas
  import Filters
  import SeverityDist
  import Dashboard

  /** One bar of the chart. */
  datatype Row = Row(name: string, issues: nat, score: int, critical: nat, high: nat, medium: nat, low: nat)

  /** `lineByLineAudit.filter(a => a.severity === s).length` */
  function CountWithSeverity(audits: seq<Issue>, s: string): nat {
    |Dashboard.AuditsWithSeverity(audits, s)|
  }

  /**
   * One section's bar: its name, score and issue count, and per segment the
   * number of the section's audits with exactly that severity; the four
   * segments never exceed the count.
   */
  function SectionRow(s: Dashboard.GroupedSection): (r: Row)
    ensures r.name == s.sectionName && r.score == s.sectionScore && r.issues == |s.lineByLineAudit|
    ensures r.critical == multiset(SeverityDist.Severities(s.lineByLineAudit))["Critical"]
    ensures r.high == multiset(SeverityDist.Severities(s.lineByLineAudit))["High"]
    ensures r.medium == multiset(SeverityDist.Severities(s.lineByLineAudit))["Medium"]
    ensures r.low == multiset(SeverityDist.Severities(s.lineByLineAudit))["Low"]
    ensures r.critical + r.high + r.medium + r.low <= r.issues
  {
    var a := s.lineByLineAudit;
    SegmentsPartitionIssues(a);
    Dashboard.SeverityCountMatches(a, "Critical");
    Dashboard.SeverityCountMatches(a, "High");
    Dashboard.SeverityCountMatches(a, "Medium");
    Dashboard.SeverityCountMatches(a, "Low");
    Row(s.sectionName, |a|, s.sectionScore,
        CountWithSeverity(a, "Critical"), CountWithSeverity(a, "High"),
        CountWithSeverity(a, "Medium"), CountWithSeverity(a, "Low"))
  }

  /** The `data` memo: one row per section, in section order. */
  function Rows(sections: seq<Dashboard.GroupedSection>): (r: seq<Row>)
    ensures |r| == |sections|
    ensures forall i :: 0 <= i < |sections| ==> r[i] == SectionRow(sections[i])
    ensures forall i :: 0 <= i < |sections| ==>
      r[i].name == sections[i].sectionName && r[i].score == sections[i].sectionScore
      && r[i].issues == |sections[i].lineByLineAudit|
  {
    seq(|sections|, i requires 0 <= i < |sections| => SectionRow(sections[i]))
  }

  predicate Charted(s: string) {
    s in {"Critical", "High", "Medium", "Low"}
  }

  /** The audits whose severity is none of the four charted ones. */
  function Uncharted(audits: seq<Issue>): seq<Issue> {
    if audits == [] then []
    else
      var last := audits[|audits| - 1];
      Uncharted(audits[..|audits| - 1]) + (if Charted(last.severity) then [] else [last])
  }

  /** Every audit lands in exactly one of the four segments or among the uncharted ones. */
  lemma {:induction false} SegmentsPartitionIssues(audits: seq<Issue>)
    ensures CountWithSeverity(audits, "Critical") + CountWithSeverity(audits, "High")
      + CountWithSeverity(audits, "Medium") + CountWithSeverity(audits, "Low") + |Uncharted(audits)| == |audits|
    ensures forall x :: x in Uncharted(audits) <==> x in audits && !Charted(x.severity)
  {
    if audits != [] {
      var init := audits[..|audits| - 1];
      SegmentsPartitionIssues(init);
      assert forall x :: x in audits <==> x in init || x == audits[|audits| - 1];
    }
  }

  /**
   * The stacked segments fill the issue count exactly when no audit has an
   * uncharted severity; among schema-valid audits the
   * only uncharted severity is "Good".
   */
  lemma SegmentsFillBar(s: Dashboard.GroupedSection)
    ensures var r := SectionRow(s);
      r.critical + r.high + r.medium + r.low == r.issues <==> forall x :: x in s.lineByLineAudit ==> Charted(x.severity)
    ensures (forall x :: x in s.lineByLineAudit ==> ValidIssue(x)) ==>
      var r := SectionRow(s);
      (r.critical + r.high + r.medium + r.low == r.issues <==> forall x :: x in s.lineByLineAudit ==> x.severity != "Good")
  {
    var a := s.lineByLineAudit;
    SegmentsPartitionIssues(a);
    if Uncharted(a) != [] {
      assert Uncharted(a)[0] in Uncharted(a);
    }
    if forall x :: x in s.lineByLineAudit ==> ValidIssue(x) {
      forall x | x in s.lineByLineAudit
        ensures Charted(x.severity) <==> x.severity != "Good"
      {
        assert ValidIssue(x);
      }
    }
  }

  /**
   * A segment's length is the number of issues the dashboard lists once the
   * section and that segment's severity are selected.
   */
  lemma {:induction false} SegmentIsFilterSize(audits: seq<Issue>, name: string, severity: string)
    requires name != "" && severity != ""
    ensures CountWithSeverity(Dashboard.AuditsOf(audits, name), severity)
      == |Dashboard.FilteredIssues(audits, Filters.Selection(None, Some(severity), Some(name)))|
  {
    if audits != [] {
      var init, last := audits[..|audits| - 1], audits[|audits| - 1];
      SegmentIsFilterSize(init, name, severity);
      var g := Dashboard.AuditsOf(init, name);
      if last.section == name {
        assert (g + [last])[..|g|] == g;
      } else {
        assert g + [] == g;
      }
    }
  }

  /** The four stacked bars. */
  datatype Segment = CriticalBar | HighBar | MediumBar | LowBar

  /** The literal each bar's click handler passes to `setSeverity`. */
  function SegmentSeverity(seg: Segment): string {
    match seg
    case CriticalBar => "Critical"
    case HighBar => "High"
    case MediumBar => "Medium"
    case LowBar => "Low"
  }

  function SegmentFill(seg: Segment): string {
    match seg
    case CriticalBar => "#dc2626"
    case HighBar => "#ea580c"
    case MediumBar => "#ca8a04"
    case LowBar => "#16a34a"
  }

  /** Each bar's literal is a schema severity other than "Good", and its fill is the pie slice's colour for it. */
  lemma SegmentsMatchSchemaAndPie(seg: Segment)
    ensures ParseSeverity(SegmentSeverity(seg)).Some? && SegmentSeverity(seg) != "Good"
    ensures SegmentFill(seg) == SeverityDist.SliceColor(SegmentSeverity(seg))
  {
  }

  /** Clicking a segment selects its severity and leaves the other selectors alone. */
  method ClickSegment(store: Filters.FilterStore, seg: Segment)
    modifies store
    ensures store.Snapshot() == old(store.Snapshot()).WithSeverity(Some(SegmentSeverity(seg)))
  {
    store.SetSeverity(Some(SegmentSeverity(seg)));
  }
}
