/**
 * The overview card (components/overview-card.tsx).  It guards every field
 * it reads, so its input is modelled with each field optional; a schema
 * analysis is the case where every field is present.
 */
module OverviewCard {
  import opened Wrappers
  import Schemas
  import ScoreCard

  datatype ProfileInput = ProfileInput(
    inferredExperienceLevel: Option<string>,
    inferredRole: Option<string>,
    resumeLengthAnalysis: Option<string>)

  datatype GutCheckInput = GutCheckInput(firstImpression: Option<string>, redFlags: Option<seq<string>>)

  datatype OverviewInput = OverviewInput(
    score: Option<int>,
    candidateProfile: Option<ProfileInput>,
    recruiterGutCheck: Option<GutCheckInput>)

  /** The red-flags block: drawn only for a non-empty list, one "• " line per flag. */
  datatype GutCheckView = GutCheckView(firstImpression: string, redFlagLines: Option<seq<string>>)

  datatype OverviewView = OverviewView(
    scoreCard: ScoreCard.ScoreCardView,
    progress: int,
    experienceLevel: string,
    targetRole: string,
    lengthAnalysis: string,
    gutCheck: Option<GutCheckView>)

  /** `value || fallback` for a string: missing and empty both fall back. */
  function OrElse(value: Option<string>, fallback: string): (r: string)
    ensures value.Some? && value.value != "" ==> r == value.value
    ensures value.None? || value.value == "" ==> r == fallback
  {
    if value.Some? && value.value != "" then value.value else fallback
  }

  /** `analysis.score || 0`. */
  function DisplayedScore(score: Option<int>): (r: int)
    ensures score.None? || score.value == 0 ==> r == 0
    ensures score.Some? ==> r == score.value
  {
    if score.Some? && score.value != 0 then score.value else 0
  }

  function Description(score: int): string {
    if score >= 80 then "Strong chance of getting noticed"
    else if score >= 60 then "Needs improvement to stand out"
    else "Major issues need immediate attention"
  }

  function Bullet(flag: string): string {
    "• " + flag
  }

  function RedFlagLines(flags: seq<string>): (r: seq<string>)
    ensures |r| == |flags|
    ensures forall i :: 0 <= i < |flags| ==> r[i] == Bullet(flags[i])
  {
    seq(|flags|, i requires 0 <= i < |flags| => Bullet(flags[i]))
  }

  function RenderGutCheck(g: GutCheckInput): GutCheckView {
    GutCheckView(
      OrElse(g.firstImpression, "No impression available"),
      if g.redFlags.Some? && |g.redFlags.value| > 0 then Some(RedFlagLines(g.redFlags.value)) else None)
  }

  /**
   * The card: one displayed score for the score card and the bar, each
   * profile field or its fallback, and the gut-check block when given: the
   * first impression or its fallback, and the red-flag lines for a
   * non-empty list.
   */
  function Render(a: OverviewInput): (r: OverviewView)
    ensures r.scoreCard.score == r.progress == DisplayedScore(a.score)
    ensures a.candidateProfile.None? ==> r.experienceLevel == "Unknown" && r.targetRole == "Unknown" && r.lengthAnalysis == "N/A"
    ensures a.candidateProfile.Some? ==> r.experienceLevel == OrElse(a.candidateProfile.value.inferredExperienceLevel, "Unknown")
    ensures a.candidateProfile.Some? ==> r.targetRole == OrElse(a.candidateProfile.value.inferredRole, "Unknown")
    ensures a.candidateProfile.Some? ==> r.lengthAnalysis == OrElse(a.candidateProfile.value.resumeLengthAnalysis, "N/A")
    ensures r.gutCheck.Some? <==> a.recruiterGutCheck.Some?
    ensures r.gutCheck.Some? ==>
      r.gutCheck.value.firstImpression == OrElse(a.recruiterGutCheck.value.firstImpression, "No impression available")
    ensures r.gutCheck.Some? ==>
      (r.gutCheck.value.redFlagLines.Some? <==> a.recruiterGutCheck.value.redFlags.Some? && a.recruiterGutCheck.value.redFlags.value != [])
    ensures r.gutCheck.Some? && r.gutCheck.value.redFlagLines.Some? ==>
      r.gutCheck.value.redFlagLines.value == RedFlagLines(a.recruiterGutCheck.value.redFlags.value)
  {
    var score := DisplayedScore(a.score);
    var profile := a.candidateProfile;
    OverviewView(
      ScoreCard.Render(score, "Overall Score", Some(Description(score))),
      score,
      OrElse(if profile.Some? then profile.value.inferredExperienceLevel else None, "Unknown"),
      OrElse(if profile.Some? then profile.value.inferredRole else None, "Unknown"),
      OrElse(if profile.Some? then profile.value.resumeLengthAnalysis else None, "N/A"),
      if a.recruiterGutCheck.Some? then Some(RenderGutCheck(a.recruiterGutCheck.value)) else None)
  }

  /**
   * One displayed score drives the card, its description band and the
   * progress bar; a missing score shows as 0 with the lowest band.
   */
  lemma ScoreDrivesCardAndBar(a: OverviewInput)
    ensures var v, s := Render(a), DisplayedScore(a.score);
      v.scoreCard.score == s && v.progress == s
      && v.scoreCard.description == Some(Description(s))
      && (s >= 80 <==> v.scoreCard.description == Some("Strong chance of getting noticed"))
      && (60 <= s < 80 <==> v.scoreCard.description == Some("Needs improvement to stand out"))
      && (s < 60 <==> v.scoreCard.description == Some("Major issues need immediate attention"))
    ensures a.score.None? ==> Render(a).progress == 0
  {
  }

  /** The red-flags block appears exactly for a non-empty list, with the flags in order. */
  lemma RedFlagsShownIffNonEmpty(g: GutCheckInput)
    ensures RenderGutCheck(g).redFlagLines.Some? <==> g.redFlags.Some? && g.redFlags.value != []
    ensures RenderGutCheck(g).redFlagLines.Some? ==>
      forall i :: 0 <= i < |g.redFlags.value| ==> RenderGutCheck(g).redFlagLines.value[i] == "• " + g.redFlags.value[i]
  {
  }

  /** The card's view of a schema analysis: every field present. */
  function FromAnalysis(a: Schemas.ResumeAnalysis): OverviewInput {
    var p := a.candidateProfile;
    OverviewInput(
      Some(a.score),
      Some(ProfileInput(Some(p.inferredExperienceLevel), Some(p.inferredRole), Some(p.resumeLengthAnalysis))),
      Some(GutCheckInput(Some(a.recruiterGutCheck.firstImpression), Some(a.recruiterGutCheck.redFlags))))
  }

  /**
   * For a schema analysis the card shows the analysis's own score, and each
   * profile text as given, or its own fallback when that text is empty.
   */
  lemma SchemaAnalysisShownAsIs(a: Schemas.ResumeAnalysis)
    ensures Render(FromAnalysis(a)).progress == a.score
    ensures var p, v := a.candidateProfile, Render(FromAnalysis(a));
      && v.experienceLevel == (if p.inferredExperienceLevel == "" then "Unknown" else p.inferredExperienceLevel)
      && v.targetRole == (if p.inferredRole == "" then "Unknown" else p.inferredRole)
      && v.lengthAnalysis == (if p.resumeLengthAnalysis == "" then "N/A" else p.resumeLengthAnalysis)
    ensures Render(FromAnalysis(a)).gutCheck.Some?
  {
  }
}
