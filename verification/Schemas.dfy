/**
 * The shape of one resume critique (lib/schemas.ts) and the constraints the
 * zod schema checks: scores between 0 and 100, a severity from a five-value
 * enumeration and a pillar from a four-value enumeration.  Every field is
 * required; nothing relates an issue's `section` to the section list.
 */
module Schemas {
  import opened Wrappers

  /** The values of `SeverityLevels`, in declaration order. */
  datatype Severity = Good | Critical | High | Medium | Low

  /** The four literals of the `Pillar` union, in declaration order. */
  datatype Pillar = StrategicAlignment | TechnicalCompliance | ContentImpact | Completeness

  function SeverityName(s: Severity): string {
    match s
    case Good => "Good"
    case Critical => "Critical"
    case High => "High"
    case Medium => "Medium"
    case Low => "Low"
  }

  function PillarName(p: Pillar): string {
    match p
    case StrategicAlignment => "Strategic Alignment & Targeting"
    case TechnicalCompliance => "Technical Compliance & Readability"
    case ContentImpact => "Content Impact & Persuasion"
    case Completeness => "Completeness & Professionalism"
  }

  /** `SeverityLevels` as the source lists it. */
  const SeverityLevels: seq<string> := ["Good", "Critical", "High", "Medium", "Low"]

  /** `Pillars`: the option values of the `Pillar` union, in declaration order. */
  const Pillars: seq<string> := [PillarName(StrategicAlignment), PillarName(TechnicalCompliance),
                                 PillarName(ContentImpact), PillarName(Completeness)]

  /** What `z.enum(SeverityLevels)` accepts. */
  function ParseSeverity(s: string): (r: Option<Severity>)
    ensures r.Some? <==> s in SeverityLevels
    ensures r.Some? ==> SeverityName(r.value) == s
  {
    if s == "Good" then Some(Good)
    else if s == "Critical" then Some(Critical)
    else if s == "High" then Some(High)
    else if s == "Medium" then Some(Medium)
    else if s == "Low" then Some(Low)
    else None
  }

  /** What the `Pillar` union of literals accepts. */
  function ParsePillar(s: string): (r: Option<Pillar>)
    ensures r.Some? <==> s in Pillars
    ensures r.Some? ==> PillarName(r.value) == s
  {
    if s == PillarName(StrategicAlignment) then Some(StrategicAlignment)
    else if s == PillarName(TechnicalCompliance) then Some(TechnicalCompliance)
    else if s == PillarName(ContentImpact) then Some(ContentImpact)
    else if s == PillarName(Completeness) then Some(Completeness)
    else None
  }

  /** Every enumeration value is accepted back as itself. */
  lemma EnumRoundTrip(s: Severity, p: Pillar)
    ensures ParseSeverity(SeverityName(s)) == Some(s)
    ensures ParsePillar(PillarName(p)) == Some(p)
  {
  }

  /** `Pillars` lists the four names, distinct, in declaration order. */
  lemma PillarsInOrder()
    ensures |Pillars| == 4
    ensures forall i :: 0 <= i < 4 ==> ParsePillar(Pillars[i]) == Some([StrategicAlignment, TechnicalCompliance, ContentImpact, Completeness][i])
    ensures forall i, j :: 0 <= i < j < 4 ==> Pillars[i] != Pillars[j]
  {
  }

  datatype QualityPillar = QualityPillar(pillar: string, description: string, score: int, findings: string)

  datatype Issue = Issue(
    element: string,
    originalText: string,
    critique: string,
    suggestedRevision: string,
    reasoning: string,
    severity: string,
    section: string,
    pillar: string)

  datatype SectionAnalysis = SectionAnalysis(sectionName: string, sectionScore: int, comments: string)

  datatype CandidateProfile = CandidateProfile(
    inferredExperienceLevel: string,
    inferredRole: string,
    resumeLengthAnalysis: string)

  datatype RecruiterGutCheck = RecruiterGutCheck(firstImpression: string, redFlags: seq<string>)

  datatype ResumeAnalysis = ResumeAnalysis(
    score: int,
    candidateProfile: CandidateProfile,
    recruiterGutCheck: RecruiterGutCheck,
    qualityPillarsAnalysis: seq<QualityPillar>,
    sectionAnalysis: seq<SectionAnalysis>,
    lineByLineAudit: seq<Issue>)

  /** `z.number().min(0).max(100)`. */
  predicate ScoreInRange(n: int) {
    0 <= n <= 100
  }

  predicate ValidQualityPillar(p: QualityPillar) {
    ParsePillar(p.pillar).Some? && ScoreInRange(p.score)
  }

  predicate ValidIssue(i: Issue) {
    ParseSeverity(i.severity).Some? && ParsePillar(i.pillar).Some?
  }

  predicate ValidSection(s: SectionAnalysis) {
    ScoreInRange(s.sectionScore)
  }

  /** Everything `ResumeAnalysisSchema` checks. */
  predicate ValidAnalysis(a: ResumeAnalysis): (r: bool)
    ensures r ==> 0 <= a.score <= 100
    ensures r ==> forall p :: p in a.qualityPillarsAnalysis ==> 0 <= p.score <= 100 && p.pillar in Pillars
    ensures r ==> forall s :: s in a.sectionAnalysis ==> 0 <= s.sectionScore <= 100
    ensures r ==> forall i :: i in a.lineByLineAudit ==> i.severity in SeverityLevels && i.pillar in Pillars
  {
    && ScoreInRange(a.score)
    && (forall p :: p in a.qualityPillarsAnalysis ==> ValidQualityPillar(p))
    && (forall s :: s in a.sectionAnalysis ==> ValidSection(s))
    && (forall i :: i in a.lineByLineAudit ==> ValidIssue(i))
  }

  /** Where a violated constraint sits, as a zod issue path. */
  datatype SchemaError =
    | ScoreOutOfRange
    | PillarOutOfDomain(pillarAt: nat)
    | PillarScoreOutOfRange(pillarAt: nat)
    | SectionScoreOutOfRange(sectionAt: nat)
    | SeverityOutOfDomain(issueAt: nat)
    | IssuePillarOutOfDomain(issueAt: nat)

  /** The errors of the single pillar at position `k`. */
  function PillarErrorsAt(p: QualityPillar, k: nat): (r: seq<SchemaError>)
    ensures ScoreOutOfRange !in r
    ensures forall e :: e in r ==> (e.PillarOutOfDomain? || e.PillarScoreOutOfRange?) && e.pillarAt == k
    ensures PillarOutOfDomain(k) in r <==> ParsePillar(p.pillar).None?
    ensures PillarScoreOutOfRange(k) in r <==> !ScoreInRange(p.score)
    ensures r == [] <==> ValidQualityPillar(p)
  {
    (if ParsePillar(p.pillar).None? then [PillarOutOfDomain(k)] else [])
    + (if !ScoreInRange(p.score) then [PillarScoreOutOfRange(k)] else [])
  }

  /** The errors found in `ps[k..]`, positions counted from the start of `ps`. */
  function PillarErrors(ps: seq<QualityPillar>, k: nat): (r: seq<SchemaError>)
    requires k <= |ps|
    ensures ScoreOutOfRange !in r
    ensures r == [] <==> forall j :: k <= j < |ps| ==> ValidQualityPillar(ps[j])
    ensures forall j :: k <= j < |ps| ==>
      (PillarOutOfDomain(j) in r <==> ParsePillar(ps[j].pillar).None?) &&
      (PillarScoreOutOfRange(j) in r <==> !ScoreInRange(ps[j].score))
    ensures forall e :: e in r ==> (e.PillarOutOfDomain? || e.PillarScoreOutOfRange?) && k <= e.pillarAt < |ps|
    decreases |ps| - k
  {
    if k == |ps| then []
    else PillarErrorsAt(ps[k], k) + PillarErrors(ps, k + 1)
  }

  /** The errors of the single section at position `k`. */
  function SectionErrorsAt(s: SectionAnalysis, k: nat): (r: seq<SchemaError>)
    ensures ScoreOutOfRange !in r
    ensures forall e :: e in r ==> e.SectionScoreOutOfRange? && e.sectionAt == k
    ensures SectionScoreOutOfRange(k) in r <==> !ScoreInRange(s.sectionScore)
    ensures r == [] <==> ValidSection(s)
  {
    if !ScoreInRange(s.sectionScore) then [SectionScoreOutOfRange(k)] else []
  }

  function SectionErrors(ss: seq<SectionAnalysis>, k: nat): (r: seq<SchemaError>)
    requires k <= |ss|
    ensures ScoreOutOfRange !in r
    ensures r == [] <==> forall j :: k <= j < |ss| ==> ValidSection(ss[j])
    ensures forall j :: k <= j < |ss| ==> (SectionScoreOutOfRange(j) in r <==> !ScoreInRange(ss[j].sectionScore))
    ensures forall e :: e in r ==> e.SectionScoreOutOfRange? && k <= e.sectionAt < |ss|
    decreases |ss| - k
  {
    if k == |ss| then []
    else SectionErrorsAt(ss[k], k) + SectionErrors(ss, k + 1)
  }

  /** The errors of the single issue at position `k`. */
  function IssueErrorsAt(i: Issue, k: nat): (r: seq<SchemaError>)
    ensures ScoreOutOfRange !in r
    ensures forall e :: e in r ==> (e.SeverityOutOfDomain? || e.IssuePillarOutOfDomain?) && e.issueAt == k
    ensures SeverityOutOfDomain(k) in r <==> ParseSeverity(i.severity).None?
    ensures IssuePillarOutOfDomain(k) in r <==> ParsePillar(i.pillar).None?
    ensures r == [] <==> ValidIssue(i)
  {
    (if ParseSeverity(i.severity).None? then [SeverityOutOfDomain(k)] else [])
    + (if ParsePillar(i.pillar).None? then [IssuePillarOutOfDomain(k)] else [])
  }

  function IssueErrors(audits: seq<Issue>, k: nat): (r: seq<SchemaError>)
    requires k <= |audits|
    ensures ScoreOutOfRange !in r
    ensures r == [] <==> forall j :: k <= j < |audits| ==> ValidIssue(audits[j])
    ensures forall j :: k <= j < |audits| ==>
      (SeverityOutOfDomain(j) in r <==> ParseSeverity(audits[j].severity).None?) &&
      (IssuePillarOutOfDomain(j) in r <==> ParsePillar(audits[j].pillar).None?)
    ensures forall e :: e in r ==> (e.SeverityOutOfDomain? || e.IssuePillarOutOfDomain?) && k <= e.issueAt < |audits|
    decreases |audits| - k
  {
    if k == |audits| then []
    else IssueErrorsAt(audits[k], k) + IssueErrors(audits, k + 1)
  }

  /** Every constraint `ResumeAnalysisSchema` reports on, in schema order. */
  function AnalysisErrors(a: ResumeAnalysis): (r: seq<SchemaError>)
    ensures r == [] <==> ValidAnalysis(a)
    ensures ScoreOutOfRange in r <==> !ScoreInRange(a.score)
  {
    var ps, ss, audits := a.qualityPillarsAnalysis, a.sectionAnalysis, a.lineByLineAudit;
    ElementwiseValidity(a);
    var top := if ScoreInRange(a.score) then [] else [ScoreOutOfRange];
    var pe, se, ie := PillarErrors(ps, 0), SectionErrors(ss, 0), IssueErrors(audits, 0);
    top + pe + se + ie
  }

  /** The membership form of each list constraint is its position-by-position form. */
  lemma ElementwiseValidity(a: ResumeAnalysis)
    ensures var ps := a.qualityPillarsAnalysis;
      (forall p :: p in ps ==> ValidQualityPillar(p)) <==> (forall j :: 0 <= j < |ps| ==> ValidQualityPillar(ps[j]))
    ensures var ss := a.sectionAnalysis;
      (forall s :: s in ss ==> ValidSection(s)) <==> (forall j :: 0 <= j < |ss| ==> ValidSection(ss[j]))
    ensures var audits := a.lineByLineAudit;
      (forall i :: i in audits ==> ValidIssue(i)) <==> (forall j :: 0 <= j < |audits| ==> ValidIssue(audits[j]))
  {
  }

  /** `ResumeAnalysisSchema.safeParse`: the analysis itself, or every violated constraint. */
  function Parse(a: ResumeAnalysis): (r: Result<ResumeAnalysis, seq<SchemaError>>)
    ensures r.Success? <==> ValidAnalysis(a)
    ensures r.Success? ==> r.value == a
    ensures r.Failure? ==> r.error != [] && (ScoreOutOfRange in r.error <==> !ScoreInRange(a.score))
  {
    var errs := AnalysisErrors(a);
    if errs == [] then Success(a) else Failure(errs)
  }

  /** An analysis whose only issue names "Skills" while its only section is "Skills & Tools". */
  function UnlinkedIssueExample(): ResumeAnalysis {
    var issue := Issue("Skills", "System design", "Add more", "System design, testing", "Why",
                       "Low", "Skills", PillarName(ContentImpact));
    ResumeAnalysis(88, CandidateProfile("Senior", "Engineer", "Fine"), RecruiterGutCheck("Good", []),
                   [], [SectionAnalysis("Skills & Tools", 88, "Well-targeted")], [issue])
  }

  /**
   * The schema has no cross-field constraint: an issue may name a section
   * that the section list does not hold.
   */
  lemma IssueSectionIsUnconstrained()
    ensures var a := UnlinkedIssueExample();
      ValidAnalysis(a) && |a.lineByLineAudit| == 1 &&
      forall s :: s in a.sectionAnalysis ==> s.sectionName != a.lineByLineAudit[0].section
  {
    var a := UnlinkedIssueExample();
    var issue := a.lineByLineAudit[0];
    assert ParseSeverity(issue.severity) == Some(Low);
    assert ParsePillar(issue.pillar) == Some(ContentImpact);
    assert a.lineByLineAudit == [issue];
    assert |a.sectionAnalysis[0].sectionName| != |issue.section|;
    assert a.sectionAnalysis == [a.sectionAnalysis[0]];
  }
}
