/**
 * The analysis dashboard (components/analysis-dashboard.tsx): the issue list
 * filtered by the three selectors of the filter store, the sections with
 * their audits attached, the pillar card's icon, and what the statistics
 * tab hands to the severity chart.
 */
module Dashboard {
  import opened Wrappers
  import opened Schemas
  import Filters
  import Scores
  import SeverityDist
  import JsObject

  // ---------------------------------------------------------------------
  // filteredIssues

  /** A selector takes part in the filter only when it is truthy: set and non-empty. */
  predicate Active(f: Option<string>) {
    f.Some? && f.value != ""
  }

  /** One test of the filter callback: an active selector must equal the field exactly. */
  predicate Passes(f: Option<string>, field: string) {
    !Active(f) || field == f.value
  }

  /** The filter callback: an issue is kept when no active selector rejects it. */
  predicate Retained(issue: Issue, sel: Filters.Selection) {
    && Passes(sel.pillar, issue.pillar)
    && Passes(sel.severity, issue.severity)
    && Passes(sel.section, issue.section)
  }

  /** `lineByLineAudit.filter(...)`: the retained issues, in audit order. */
  function FilteredIssues(audits: seq<Issue>, sel: Filters.Selection): (r: seq<Issue>)
    ensures |r| <= |audits|
  {
    if audits == [] then []
    else
      var last := audits[|audits| - 1];
      FilteredIssues(audits[..|audits| - 1], sel) + (if Retained(last, sel) then [last] else [])
  }

  /** An issue is shown exactly when it is among the audits and every active selector matches it. */
  lemma {:induction false} FilteredMembers(audits: seq<Issue>, sel: Filters.Selection)
    ensures forall x :: x in FilteredIssues(audits, sel) <==> x in audits && Retained(x, sel)
  {
    if audits != [] {
      var init, last := audits[..|audits| - 1], audits[|audits| - 1];
      assert audits == init + [last];
      FilteredMembers(init, sel);
    }
  }

  /** The positions of `audits` the filter keeps, in ascending order. */
  function KeptPositions(audits: seq<Issue>, sel: Filters.Selection): seq<nat> {
    if audits == [] then []
    else
      KeptPositions(audits[..|audits| - 1], sel) + (if Retained(audits[|audits| - 1], sel) then [|audits| - 1] else [])
  }

  predicate Ascending(p: seq<nat>) {
    forall i, j :: 0 <= i < j < |p| ==> p[i] < p[j]
  }

  /**
   * The filter result is the subsequence of `audits` at the kept positions:
   * ascending positions, so original order and no duplication; nothing
   * inserted; and a position is kept exactly when its issue is retained.
   */
  lemma FilterIsSubsequence(audits: seq<Issue>, sel: Filters.Selection)
    ensures |FilteredIssues(audits, sel)| == |KeptPositions(audits, sel)|
    ensures Ascending(KeptPositions(audits, sel))
    ensures forall k :: 0 <= k < |KeptPositions(audits, sel)| ==>
      KeptPositions(audits, sel)[k] < |audits| && FilteredIssues(audits, sel)[k] == audits[KeptPositions(audits, sel)[k]]
    ensures forall i: nat :: i < |audits| ==> (i in KeptPositions(audits, sel) <==> Retained(audits[i], sel))
  {
    KeptPositionsFacts(audits, sel);
    FilteredAtKeptPositions(audits, sel);
  }

  /** The kept positions ascend, lie inside the list, and are exactly those of the retained issues. */
  lemma {:induction false} KeptPositionsFacts(audits: seq<Issue>, sel: Filters.Selection)
    ensures Ascending(KeptPositions(audits, sel))
    ensures forall k :: 0 <= k < |KeptPositions(audits, sel)| ==> KeptPositions(audits, sel)[k] < |audits|
    ensures forall i: nat :: i < |audits| ==> (i in KeptPositions(audits, sel) <==> Retained(audits[i], sel))
  {
    if audits != [] {
      var init, n := audits[..|audits| - 1], |audits| - 1;
      KeptPositionsFacts(init, sel);
      var p := KeptPositions(init, sel);
      assert n !in p;
      assert forall i :: 0 <= i < n ==> audits[i] == init[i];
    }
  }

  /** The filter result holds, in order, the issues at the kept positions. */
  lemma {:induction false} FilteredAtKeptPositions(audits: seq<Issue>, sel: Filters.Selection)
    ensures |FilteredIssues(audits, sel)| == |KeptPositions(audits, sel)|
    ensures forall k :: 0 <= k < |KeptPositions(audits, sel)| ==>
      KeptPositions(audits, sel)[k] < |audits| && FilteredIssues(audits, sel)[k] == audits[KeptPositions(audits, sel)[k]]
  {
    if audits != [] {
      var init, last := audits[..|audits| - 1], audits[|audits| - 1];
      FilteredAtKeptPositions(init, sel);
      var f, p := FilteredIssues(init, sel), KeptPositions(init, sel);
      forall k | 0 <= k < |p|
        ensures p[k] < |init| && audits[p[k]] == init[p[k]]
      {
      }
      if Retained(last, sel) {
        assert FilteredIssues(audits, sel) == f + [last];
        assert KeptPositions(audits, sel) == p + [|init|];
      } else {
        assert FilteredIssues(audits, sel) == f;
        assert KeptPositions(audits, sel) == p;
      }
    }
  }

  /** Counting form of the same fact: a retained issue keeps all its copies, any other loses them all. */
  lemma {:induction false} FilterMultiplicity(audits: seq<Issue>, sel: Filters.Selection, x: Issue)
    ensures multiset(FilteredIssues(audits, sel))[x] == if Retained(x, sel) then multiset(audits)[x] else 0
  {
    if audits != [] {
      var init, last := audits[..|audits| - 1], audits[|audits| - 1];
      FilterMultiplicity(init, sel, x);
      assert audits == init + [last];
      assert multiset(audits)[x] == multiset(init)[x] + (if x == last then 1 else 0);
    }
  }

  /** Every retained issue equals each active selector exactly on its field. */
  lemma FilterSound(audits: seq<Issue>, sel: Filters.Selection, x: Issue)
    requires x in FilteredIssues(audits, sel)
    ensures x in audits
    ensures Active(sel.pillar) ==> x.pillar == sel.pillar.value
    ensures Active(sel.severity) ==> x.severity == sel.severity.value
    ensures Active(sel.section) ==> x.section == sel.section.value
  {
    FilterMultiplicity(audits, sel, x);
  }

  /** Every issue of the list that every active selector accepts is kept. */
  lemma FilterComplete(audits: seq<Issue>, sel: Filters.Selection, x: Issue)
    requires x in audits && Retained(x, sel)
    ensures x in FilteredIssues(audits, sel)
  {
    FilterMultiplicity(audits, sel, x);
  }

  /** With every selector unset (`null` or `""`) the whole list comes back. */
  lemma {:induction false} UnsetFiltersKeepAll(audits: seq<Issue>, sel: Filters.Selection)
    requires !Active(sel.pillar) && !Active(sel.severity) && !Active(sel.section)
    ensures FilteredIssues(audits, sel) == audits
  {
    if audits != [] {
      UnsetFiltersKeepAll(audits[..|audits| - 1], sel);
    }
  }

  /** The store's initial (and cleared) state filters nothing out. */
  lemma ClearedKeepsAll(audits: seq<Issue>)
    ensures FilteredIssues(audits, Filters.Cleared) == audits
  {
    UnsetFiltersKeepAll(audits, Filters.Cleared);
  }

  /** Whether an issue is kept does not depend on a field whose selector is unset. */
  lemma UnsetSelectorIgnoresField(x: Issue, sel: Filters.Selection, v: string)
    ensures Retained(x, sel.WithPillar(None)) == Retained(x.(pillar := v), sel.WithPillar(None))
    ensures Retained(x, sel.WithSeverity(None)) == Retained(x.(severity := v), sel.WithSeverity(None))
    ensures Retained(x, sel.WithSection(None)) == Retained(x.(section := v), sel.WithSection(None))
  {
  }

  /** Clearing one selector never drops an issue: the result can only grow. */
  lemma ClearingWidens(audits: seq<Issue>, sel: Filters.Selection)
    ensures multiset(FilteredIssues(audits, sel)) <= multiset(FilteredIssues(audits, sel.WithPillar(None)))
    ensures multiset(FilteredIssues(audits, sel)) <= multiset(FilteredIssues(audits, sel.WithSeverity(None)))
    ensures multiset(FilteredIssues(audits, sel)) <= multiset(FilteredIssues(audits, sel.WithSection(None)))
  {
    forall x
      ensures multiset(FilteredIssues(audits, sel))[x] <= multiset(FilteredIssues(audits, sel.WithPillar(None)))[x]
      ensures multiset(FilteredIssues(audits, sel))[x] <= multiset(FilteredIssues(audits, sel.WithSeverity(None)))[x]
      ensures multiset(FilteredIssues(audits, sel))[x] <= multiset(FilteredIssues(audits, sel.WithSection(None)))[x]
    {
      FilterMultiplicity(audits, sel, x);
      FilterMultiplicity(audits, sel.WithPillar(None), x);
      FilterMultiplicity(audits, sel.WithSeverity(None), x);
      FilterMultiplicity(audits, sel.WithSection(None), x);
    }
  }

  function SampleIssue(severity: string): Issue {
    Issue("Bullet", "Led a team", "Vague", "Led a team of 5", "Scope is unclear", severity, "Work Experience", PillarName(ContentImpact))
  }

  /** A Low, High, Low list filtered on "Low" keeps positions 0 and 2. */
  lemma FilteredSnoc(xs: seq<Issue>, x: Issue, sel: Filters.Selection)
    ensures FilteredIssues(xs + [x], sel) == FilteredIssues(xs, sel) + (if Retained(x, sel) then [x] else [])
    ensures KeptPositions(xs + [x], sel) == KeptPositions(xs, sel) + (if Retained(x, sel) then [|xs|] else [])
  {
    assert (xs + [x])[..|xs|] == xs;
  }

  lemma SeverityFilterExample()
    ensures var audits := [SampleIssue("Low"), SampleIssue("High"), SampleIssue("Low")];
      var sel := Filters.Cleared.WithSeverity(Some("Low"));
      KeptPositions(audits, sel) == [0, 2] && FilteredIssues(audits, sel) == [audits[0], audits[2]]
  {
    var low, high := SampleIssue("Low"), SampleIssue("High");
    var sel := Filters.Cleared.WithSeverity(Some("Low"));
    assert Retained(low, sel) && !Retained(high, sel);
    FilteredSnoc([], low, sel);
    FilteredSnoc([low], high, sel);
    FilteredSnoc([low, high], low, sel);
    assert [low] + [high] == [low, high];
    assert [low, high] + [low] == [low, high, low];
  }

  // ---------------------------------------------------------------------
  // sectionAnalysis: audits grouped by section name

  /** A schema section with the audits naming it attached. */
  datatype GroupedSection = GroupedSection(
    sectionName: string,
    sectionScore: int,
    comments: string,
    lineByLineAudit: seq<Issue>)

  /** `Object.groupBy(audits, ({section}) => section)[name] ?? []`: the audits naming `name`, in order. */
  function AuditsOf(audits: seq<Issue>, name: string): (r: seq<Issue>)
    ensures |r| <= |audits|
  {
    if audits == [] then []
    else
      var last := audits[|audits| - 1];
      AuditsOf(audits[..|audits| - 1], name) + (if last.section == name then [last] else [])
  }

  /** The group of `name` holds exactly the audits naming `name`. */
  lemma {:induction false} AuditsOfMembers(audits: seq<Issue>, name: string)
    ensures forall x :: x in AuditsOf(audits, name) <==> x in audits && x.section == name
  {
    if audits != [] {
      var init, last := audits[..|audits| - 1], audits[|audits| - 1];
      AuditsOfMembers(init, name);
      assert audits == init + [last];
    }
  }

  /**
   * Grouping keeps audit order for every name, the empty one included: the
   * group of a concatenation is the concatenation of the groups.  With
   * `AuditsOfSingle` this determines the group of any list.
   */
  lemma {:induction false} AuditsOfAppend(a: seq<Issue>, b: seq<Issue>, name: string)
    ensures AuditsOf(a + b, name) == AuditsOf(a, name) + AuditsOf(b, name)
  {
    if b == [] {
      assert a + b == a;
    } else {
      var init, last := b[..|b| - 1], b[|b| - 1];
      assert b == init + [last];
      AuditsOfAppend(a, init, name);
      AuditsOfAppendStep(a, init, last, name);
    }
  }

  lemma AuditsOfAppendStep(a: seq<Issue>, init: seq<Issue>, last: Issue, name: string)
    requires AuditsOf(a + init, name) == AuditsOf(a, name) + AuditsOf(init, name)
    ensures AuditsOf(a + (init + [last]), name) == AuditsOf(a, name) + AuditsOf(init + [last], name)
  {
    var tail := if last.section == name then [last] else [];
    Associative(a, init, [last]);
    AuditsOfSnoc(a + init, last, name);
    AuditsOfSnoc(init, last, name);
    Associative(AuditsOf(a, name), AuditsOf(init, name), tail);
  }

  lemma Associative(p: seq<Issue>, q: seq<Issue>, t: seq<Issue>)
    ensures (p + q) + t == p + (q + t)
  {
  }

  lemma AuditsOfSnoc(xs: seq<Issue>, x: Issue, name: string)
    ensures AuditsOf(xs + [x], name) == AuditsOf(xs, name) + (if x.section == name then [x] else [])
    ensures x.section != name ==> AuditsOf(xs + [x], name) == AuditsOf(xs, name)
  {
    assert (xs + [x])[..|xs|] == xs;
    assert AuditsOf(xs, name) + [] == AuditsOf(xs, name);
  }

  lemma AuditsOfSingle(x: Issue, name: string)
    ensures AuditsOf([x], name) == if x.section == name then [x] else []
  {
    assert [x][..0] == [];
  }

  /** Grouping keeps every copy of an audit filed under `name` and none of any other. */
  lemma {:induction false} AuditsOfMultiplicity(audits: seq<Issue>, name: string, x: Issue)
    ensures multiset(AuditsOf(audits, name))[x] == if x.section == name then multiset(audits)[x] else 0
  {
    if audits != [] {
      var init, last := audits[..|audits| - 1], audits[|audits| - 1];
      AuditsOfMultiplicity(init, name, x);
      assert audits == init + [last];
    }
  }

  /** For a non-empty name, grouping and the section selector of the filter pick the same audits. */
  lemma {:induction false} AuditsOfIsSectionFilter(audits: seq<Issue>, name: string)
    requires name != ""
    ensures AuditsOf(audits, name) == FilteredIssues(audits, Filters.Cleared.WithSection(Some(name)))
  {
    if audits != [] {
      AuditsOfIsSectionFilter(audits[..|audits| - 1], name);
    }
  }

  /** The section-list `map`: one grouped section per schema section, same order, same fields. */
  function GroupSections(sections: seq<SectionAnalysis>, audits: seq<Issue>): (r: seq<GroupedSection>)
    ensures |r| == |sections|
    ensures forall i :: 0 <= i < |sections| ==>
      && r[i].sectionName == sections[i].sectionName
      && r[i].sectionScore == sections[i].sectionScore
      && r[i].comments == sections[i].comments
      && r[i].lineByLineAudit == AuditsOf(audits, sections[i].sectionName)
      && (forall x :: x in r[i].lineByLineAudit <==> x in audits && x.section == sections[i].sectionName)
  {
    if sections == [] then []
    else
      var s := sections[|sections| - 1];
      AuditsOfMembers(audits, s.sectionName);
      GroupSections(sections[..|sections| - 1], audits)
        + [GroupedSection(s.sectionName, s.sectionScore, s.comments, AuditsOf(audits, s.sectionName))]
  }

  /** An audit whose section names none of the sections is attached to no group. */
  lemma UnmatchedIssueInNoGroup(sections: seq<SectionAnalysis>, audits: seq<Issue>, x: Issue)
    requires forall i :: 0 <= i < |sections| ==> sections[i].sectionName != x.section
    ensures forall g :: g in GroupSections(sections, audits) ==> x !in g.lineByLineAudit
  {
  }

  /** An issue filed under "Skills" is not attached to a section called "Skills & Tools". */
  lemma NearMissSectionName()
    ensures var x := SampleIssue("Medium").(section := "Skills");
      var s := SectionAnalysis("Skills & Tools", 70, "Lists tools");
      GroupSections([s], [x]) == [GroupedSection("Skills & Tools", 70, "Lists tools", [])]
  {
    var x := SampleIssue("Medium").(section := "Skills");
    var s := SectionAnalysis("Skills & Tools", 70, "Lists tools");
    assert [s][..0] == [] && [x][..0] == [];
    assert AuditsOf([x], s.sectionName) == [];
  }

  // ---------------------------------------------------------------------
  // QualityPillarCard

  /** The status icon of a pillar card with its colour class. */
  datatype PillarIcon = PillarIcon(icon: Scores.Icon, color: string)

  function PillarCardIcon(score: int): (r: PillarIcon)
    ensures r.color == Scores.GetScoreColor(score)
  {
    if score >= 80 then PillarIcon(Scores.CheckCircle, Scores.Green)
    else if score >= 60 then PillarIcon(Scores.AlertCircle, Scores.Yellow)
    else PillarIcon(Scores.XCircle, Scores.Red)
  }

  /** The icon follows the score label: a check exactly for "Excellent", an X exactly for "Fair" and "Poor". */
  lemma PillarIconFollowsLabel(score: int)
    ensures PillarCardIcon(score).icon == Scores.CheckCircle <==> Scores.GetScoreLabel(score) == "Excellent"
    ensures PillarCardIcon(score).icon == Scores.AlertCircle <==> Scores.GetScoreLabel(score) == "Good"
    ensures PillarCardIcon(score).icon == Scores.XCircle <==> Scores.GetScoreLabel(score) in {"Fair", "Poor"}
  {
  }

  // ---------------------------------------------------------------------
  // The dashboard as a whole

  datatype DashboardView =
    | NoAnalysisData
    | Tabs(analysis: ResumeAnalysis, filteredIssues: seq<Issue>, sections: seq<GroupedSection>)

  /** A JavaScript `TypeError`: a property read on `undefined`. */
  datatype Crash = PropertyOfUndefined(property: string)

  /**
   * The component as written: the grouping memo's dependency list
   * `[analysis.sectionAnalysis, analysis.lineByLineAudit]` is evaluated on
   * every render, before the `!analysis` guard, so a missing analysis throws
   * on `analysis.sectionAnalysis` instead of reaching the "No Analysis Data"
   * card.
   */
  function RenderAsWritten(analysis: Option<ResumeAnalysis>, sel: Filters.Selection): (r: Result<DashboardView, Crash>)
    ensures analysis.None? <==> r.Failure?
    ensures r.Failure? ==> r.error.property == "sectionAnalysis"
  {
    match analysis
    case None => Failure(PropertyOfUndefined("sectionAnalysis"))
    case Some(a) => Success(Tabs(a, FilteredIssues(a.lineByLineAudit, sel), GroupSections(a.sectionAnalysis, a.lineByLineAudit)))
  }

  /**
   * The component with the grouping memo guarded like the filter memo, in its
   * dependency list as well as in its callback: the tabs show the given
   * analysis, its filtered issue list and its sections with their audits.
   */
  function Render(analysis: Option<ResumeAnalysis>, sel: Filters.Selection): (r: DashboardView)
    ensures r == NoAnalysisData <==> analysis.None?
    ensures analysis.Some? ==> r == Tabs(analysis.value, FilteredIssues(analysis.value.lineByLineAudit, sel),
      GroupSections(analysis.value.sectionAnalysis, analysis.value.lineByLineAudit))
  {
    match analysis
    case None => NoAnalysisData
    case Some(a) => Tabs(a, FilteredIssues(a.lineByLineAudit, sel), GroupSections(a.sectionAnalysis, a.lineByLineAudit))
  }

  /** The placeholder branch is unreachable as written; the guarded version reaches it and agrees otherwise. */
  lemma NoAnalysisBranchUnreachable(analysis: Option<ResumeAnalysis>, sel: Filters.Selection)
    ensures RenderAsWritten(analysis, sel).Success? ==> RenderAsWritten(analysis, sel).value != NoAnalysisData
    ensures RenderAsWritten(analysis, sel).Success? ==> RenderAsWritten(analysis, sel).value == Render(analysis, sel)
    ensures analysis.None? ==> RenderAsWritten(analysis, sel).Failure? && Render(analysis, sel) == NoAnalysisData
  {
  }

  // ---------------------------------------------------------------------
  // The severity chart on the statistics tab

  /**
   * What the statistics tab hands to the severity chart as written: the raw
   * analysis, whose schema sections carry no audit list.
   */
  function ChartInputAsWritten(sections: seq<SectionAnalysis>): (r: seq<SeverityDist.ChartSection>)
    ensures |r| == |sections|
    ensures SeverityDist.Flat(r) == []
  {
    if sections == [] then []
    else
      var s := sections[|sections| - 1];
      var init := ChartInputAsWritten(sections[..|sections| - 1]);
      var r := init + [SeverityDist.ChartSection(s.sectionName, s.sectionScore, s.comments, None)];
      assert r[..|r| - 1] == init;
      r
  }

  /** The grouped sections, each carrying its audits, as the chart reads them. */
  function ChartInput(grouped: seq<GroupedSection>): (r: seq<SeverityDist.ChartSection>)
    ensures |r| == |grouped|
    ensures forall i :: 0 <= i < |grouped| ==> r[i].lineByLineAudit == Some(grouped[i].lineByLineAudit)
  {
    if grouped == [] then []
    else
      var g := grouped[|grouped| - 1];
      ChartInput(grouped[..|grouped| - 1]) + [SeverityDist.ChartSection(g.sectionName, g.sectionScore, g.comments, Some(g.lineByLineAudit))]
  }

  function Names(sections: seq<SectionAnalysis>): (r: seq<string>)
    ensures |r| == |sections|
    ensures forall i :: 0 <= i < |sections| ==> r[i] == sections[i].sectionName
  {
    if sections == [] then [] else Names(sections[..|sections| - 1]) + [sections[|sections| - 1].sectionName]
  }

  predicate DistinctNames(sections: seq<SectionAnalysis>) {
    forall i, j :: 0 <= i < j < |sections| ==> sections[i].sectionName != sections[j].sectionName
  }

  /** The audits whose section is one of `names`, in order. */
  function ListedAudits(audits: seq<Issue>, names: seq<string>): seq<Issue> {
    if audits == [] then []
    else
      var last := audits[|audits| - 1];
      ListedAudits(audits[..|audits| - 1], names) + (if last.section in names then [last] else [])
  }

  lemma SeveritiesSnocOne(xs: seq<Issue>, y: Issue)
    ensures SeverityDist.Severities(xs + [y]) == SeverityDist.Severities(xs) + (if y.severity != "" then [y.severity] else [])
  {
    assert (xs + [y])[..|xs|] == xs;
  }

  /** The severity an issue contributes to the chart: its own when truthy, none otherwise. */
  function SeverityBag(x: Issue): multiset<string> {
    if x.severity != "" then multiset{x.severity} else multiset{}
  }

  /** Appending an issue adds its truthy severity (or nothing) to the counted severities. */
  lemma SeveritiesSnocBag(xs: seq<Issue>, x: Issue)
    ensures multiset(SeverityDist.Severities(xs + [x])) == multiset(SeverityDist.Severities(xs)) + SeverityBag(x)
  {
    SeveritiesSnocOne(xs, x);
    if x.severity == "" {
      assert SeverityDist.Severities(xs) + [] == SeverityDist.Severities(xs);
    }
  }

  lemma BagShuffle(x: multiset<string>, y: multiset<string>, d: multiset<string>)
    ensures (x + y) + d == (x + d) + y
    ensures (x + y) + d == x + (y + d)
  {
  }

  lemma ListedAuditsSnoc(xs: seq<Issue>, x: Issue, names: seq<string>)
    ensures x.section in names ==> ListedAudits(xs + [x], names) == ListedAudits(xs, names) + [x]
    ensures x.section !in names ==> ListedAudits(xs + [x], names) == ListedAudits(xs, names)
  {
    assert (xs + [x])[..|xs|] == xs;
    assert ListedAudits(xs, names) + [] == ListedAudits(xs, names);
  }

  /** Listing one more (new) name adds exactly that name's audits. */
  lemma {:induction false} ListedSnoc(audits: seq<Issue>, names: seq<string>, n: string)
    requires n !in names
    ensures multiset(SeverityDist.Severities(ListedAudits(audits, names + [n])))
      == multiset(SeverityDist.Severities(ListedAudits(audits, names))) + multiset(SeverityDist.Severities(AuditsOf(audits, n)))
  {
    if audits != [] {
      var init, last := audits[..|audits| - 1], audits[|audits| - 1];
      assert audits == init + [last];
      ListedSnoc(init, names, n);
      ListedSnocStep(init, last, names, n);
    }
  }

  lemma ListedSnocStep(init: seq<Issue>, last: Issue, names: seq<string>, n: string)
    requires n !in names
    requires multiset(SeverityDist.Severities(ListedAudits(init, names + [n])))
      == multiset(SeverityDist.Severities(ListedAudits(init, names))) + multiset(SeverityDist.Severities(AuditsOf(init, n)))
    ensures multiset(SeverityDist.Severities(ListedAudits(init + [last], names + [n])))
      == multiset(SeverityDist.Severities(ListedAudits(init + [last], names))) + multiset(SeverityDist.Severities(AuditsOf(init + [last], n)))
  {
    var inOld := last.section in names;
    var inNew := last.section == n;
    assert last.section in names + [n] <==> inOld || inNew;
    ListedAuditsSnoc(init, last, names + [n]);
    ListedAuditsSnoc(init, last, names);
    AuditsOfSnoc(init, last, n);
    var x := multiset(SeverityDist.Severities(ListedAudits(init, names)));
    var y := multiset(SeverityDist.Severities(AuditsOf(init, n)));
    if inOld {
      SeveritiesSnocBag(ListedAudits(init, names + [n]), last);
      SeveritiesSnocBag(ListedAudits(init, names), last);
      BagShuffle(x, y, SeverityBag(last));
    } else if inNew {
      SeveritiesSnocBag(ListedAudits(init, names + [n]), last);
      SeveritiesSnocBag(AuditsOf(init, n), last);
      BagShuffle(x, y, SeverityBag(last));
    }
  }

  lemma FlatSnocOne(cs: seq<SeverityDist.ChartSection>, c: SeverityDist.ChartSection)
    ensures SeverityDist.Flat(cs + [c])
      == SeverityDist.Flat(cs) + (if c.lineByLineAudit.Some? then SeverityDist.Severities(c.lineByLineAudit.value) else [])
  {
    assert (cs + [c])[..|cs|] == cs;
  }

  /**
   * Fed the grouped sections, the chart counts every audit filed under one
   * of the (distinct) section names exactly once.
   */
  lemma {:induction false} GroupedChartCountsListedAudits(sections: seq<SectionAnalysis>, audits: seq<Issue>)
    requires DistinctNames(sections)
    ensures multiset(SeverityDist.Flat(ChartInput(GroupSections(sections, audits))))
      == multiset(SeverityDist.Severities(ListedAudits(audits, Names(sections))))
  {
    if sections == [] {
      ListedNone(audits);
    } else {
      var init, s := sections[..|sections| - 1], sections[|sections| - 1];
      GroupedChartCountsListedAudits(init, audits);
      var g := GroupSections(init, audits);
      var gs := GroupedSection(s.sectionName, s.sectionScore, s.comments, AuditsOf(audits, s.sectionName));
      var c := SeverityDist.ChartSection(s.sectionName, s.sectionScore, s.comments, Some(AuditsOf(audits, s.sectionName)));
      assert (g + [gs])[..|g|] == g;
      assert ChartInput(GroupSections(sections, audits)) == ChartInput(g) + [c];
      FlatSnocOne(ChartInput(g), c);
      assert s.sectionName !in Names(init) by {
        forall i | 0 <= i < |init|
          ensures Names(init)[i] != s.sectionName
        {
          assert sections[i] == init[i];
        }
      }
      ListedSnoc(audits, Names(init), s.sectionName);
    }
  }

  lemma {:induction false} ListedNone(audits: seq<Issue>)
    ensures ListedAudits(audits, []) == []
  {
    if audits != [] {
      ListedNone(audits[..|audits| - 1]);
    }
  }

  /** When every audit names a listed section, nothing is dropped. */
  lemma {:induction false} ListedAll(audits: seq<Issue>, names: seq<string>)
    requires forall i :: 0 <= i < |audits| ==> audits[i].section in names
    ensures ListedAudits(audits, names) == audits
  {
    if audits != [] {
      var init, last := audits[..|audits| - 1], audits[|audits| - 1];
      ListedAll(init, names);
      assert ListedAudits(audits, names) == init + [last];
    }
  }

  /** Every schema-valid issue has a truthy severity, so the chart counts each one. */
  lemma {:induction false} ValidIssuesAllCounted(audits: seq<Issue>)
    requires forall x :: x in audits ==> ValidIssue(x)
    ensures |SeverityDist.Severities(audits)| == |audits|
  {
    if audits != [] {
      var init := audits[..|audits| - 1];
      forall x | x in init
        ensures ValidIssue(x)
      {
        var i :| 0 <= i < |init| && init[i] == x;
        assert audits[i] in audits;
      }
      ValidIssuesAllCounted(init);
      assert audits[|audits| - 1] in audits;
    }
  }

  /** The severities of schema-valid issues are schema severities, and so name no inherited member. */
  lemma {:induction false} ValidSeveritiesNotInherited(audits: seq<Issue>)
    requires forall x :: x in audits ==> ValidIssue(x)
    ensures forall y :: y in SeverityDist.Severities(audits) ==> y in SeverityLevels && !JsObject.Inherited(y)
  {
    if audits != [] {
      var init, last := audits[..|audits| - 1], audits[|audits| - 1];
      forall x | x in init
        ensures ValidIssue(x)
      {
        var i :| 0 <= i < |init| && init[i] == x;
        assert audits[i] in audits;
      }
      ValidSeveritiesNotInherited(init);
      assert last in audits;
      SeverityDist.SeverityLevelsNotInherited();
    }
  }

  /** A list holding the severities of schema-valid issues is counted in full by the chart. */
  lemma ValidSeveritiesCountable(xs: seq<string>, audits: seq<Issue>)
    requires forall x :: x in audits ==> ValidIssue(x)
    requires multiset(xs) == multiset(SeverityDist.Severities(audits))
    ensures SeverityDist.Countable(xs) == xs
  {
    ValidSeveritiesNotInherited(audits);
    forall y | y in xs
      ensures !JsObject.Inherited(y)
    {
      assert y in multiset(SeverityDist.Severities(audits));
    }
    SeverityDist.CountableOfOwnNames(xs);
  }

  /** The example that shows the discrepancy: one High issue in the only section. */
  function ExampleAnalysis(): (r: ResumeAnalysis)
    ensures ValidAnalysis(r)
  {
    var issue := SampleIssue("High").(section := "Skills");
    ResumeAnalysis(
      72,
      CandidateProfile("Mid-level", "Engineer", "One page"),
      RecruiterGutCheck("Solid", []),
      [],
      [SectionAnalysis("Skills", 65, "Short list")],
      [issue])
  }

  /** As written, the one High issue never reaches the chart; through the grouped sections it does. */
  lemma RawAnalysisHidesIssues()
    ensures SeverityDist.Flat(ChartInputAsWritten(ExampleAnalysis().sectionAnalysis)) == []
    ensures SeverityDist.Flat(ChartInput(GroupSections(ExampleAnalysis().sectionAnalysis, ExampleAnalysis().lineByLineAudit))) == ["High"]
  {
    var a := ExampleAnalysis();
    var g := GroupSections(a.sectionAnalysis, a.lineByLineAudit);
    assert a.lineByLineAudit[..0] == [];
    assert AuditsOf(a.lineByLineAudit, "Skills") == a.lineByLineAudit;
    var ci := ChartInput(g);
    assert ci[..0] == [];
    FlatSnocOne([], ci[0]);
    assert ci == [] + [ci[0]];
    SeveritiesSnocOne([], a.lineByLineAudit[0]);
    assert a.lineByLineAudit == [] + [a.lineByLineAudit[0]];
  }

  /**
   * A schema-valid analysis with at least one section, no two sections
   * sharing a name, and every audit filed under one of them.
   */
  predicate WellFiled(a: ResumeAnalysis) {
    && ValidAnalysis(a)
    && a.sectionAnalysis != []
    && DistinctNames(a.sectionAnalysis)
    && (forall x :: x in a.lineByLineAudit ==> x.section in Names(a.sectionAnalysis))
  }

  /** The statistics tab's severity chart as written: any non-empty section list shows "No issues found". */
  method StatsSeverityChartAsWritten(a: ResumeAnalysis) returns (view: SeverityDist.SeverityChartView)
    ensures view == if a.sectionAnalysis == [] then SeverityDist.NoIssueData else SeverityDist.NoIssuesFound
  {
    view := SeverityDist.SeverityDistributionChart(Some(ChartInputAsWritten(a.sectionAnalysis)));
  }

  /**
   * The statistics tab's severity chart fed the grouped sections: for a
   * schema-valid analysis whose audits all name one of its distinctly named
   * sections, the pie counts every audit and totals the audit list.
   */
  method StatsSeverityChart(a: ResumeAnalysis) returns (view: SeverityDist.SeverityChartView)
    ensures view == SeverityDist.NoIssueData <==> a.sectionAnalysis == []
    ensures WellFiled(a) ==> (view == SeverityDist.NoIssuesFound <==> a.lineByLineAudit == [])
    ensures WellFiled(a) && view.PieChart? ==> view.totalIssues == |a.lineByLineAudit|
    ensures WellFiled(a) && view.PieChart? ==>
      forall e :: e in view.data ==> e.value == |AuditsWithSeverity(a.lineByLineAudit, e.name)|
  {
    var input := ChartInput(GroupSections(a.sectionAnalysis, a.lineByLineAudit));
    view := SeverityDist.SeverityDistributionChart(Some(input));
    if WellFiled(a) {
      var audits := a.lineByLineAudit;
      GroupedChartCountsListedAudits(a.sectionAnalysis, audits);
      forall i | 0 <= i < |audits|
        ensures audits[i].section in Names(a.sectionAnalysis)
      {
        assert audits[i] in audits;
      }
      ListedAll(audits, Names(a.sectionAnalysis));
      ValidIssuesAllCounted(audits);
      var sevs := SeverityDist.Severities(audits);
      assert |SeverityDist.Flat(input)| == |audits| by {
        assert |multiset(SeverityDist.Flat(input))| == |multiset(sevs)|;
      }
      ValidSeveritiesCountable(SeverityDist.Flat(input), audits);
      if view.PieChart? {
        SeverityDist.EntriesFacts(SeverityDist.Flat(input));
        forall e | e in view.data
          ensures e.value == |AuditsWithSeverity(audits, e.name)|
        {
          SeverityCountMatches(audits, e.name);
        }
      }
    }
  }

  /** The audits with severity exactly `s`. */
  function AuditsWithSeverity(audits: seq<Issue>, s: string): seq<Issue> {
    if audits == [] then []
    else
      var last := audits[|audits| - 1];
      AuditsWithSeverity(audits[..|audits| - 1], s) + (if last.severity == s then [last] else [])
  }

  lemma {:induction false} SeverityCountMatches(audits: seq<Issue>, s: string)
    requires s != ""
    ensures multiset(SeverityDist.Severities(audits))[s] == |AuditsWithSeverity(audits, s)|
  {
    if audits != [] {
      var init, last := audits[..|audits| - 1], audits[|audits| - 1];
      SeverityCountMatches(init, s);
      assert AuditsWithSeverity(audits, s) == AuditsWithSeverity(init, s) + (if last.severity == s then [last] else []);
    }
  }
}
