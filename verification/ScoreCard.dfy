/**
 * The score card (components/score-card.tsx): a score with its colour,
 * a badge whose variant follows the score band, the band's label, and an
 * optional description.
 */
module ScoreCard {
  import opened Wrappers
  import Scores

  /** The component's own copy of `getScoreColor`. */
  function LocalScoreColor(score: int): string {
    if score >= 80 then "text-green-600"
    else if score >= 60 then "text-yellow-600"
    else "text-red-600"
  }

  /** The component's own copy of `getScoreLabel`. */
  function LocalScoreLabel(score: int): string {
    if score >= 80 then "Excellent"
    else if score >= 60 then "Good"
    else if score >= 40 then "Fair"
    else "Poor"
  }

  /** The local copies agree with lib/utils.ts on every score. */
  lemma LocalCopiesAgree(score: int)
    ensures LocalScoreColor(score) == Scores.GetScoreColor(score)
    ensures LocalScoreLabel(score) == Scores.GetScoreLabel(score)
  {
  }

  /** The badge variant of a score band. */
  function BadgeVariant(score: int): (r: string)
    ensures r == "default" <==> score >= 80
    ensures r == "secondary" <==> 60 <= score < 80
    ensures r == "destructive" <==> score < 60
  {
    if score >= 80 then "default" else if score >= 60 then "secondary" else "destructive"
  }

  /** The badge is destructive exactly for the Fair and Poor bands, and plain exactly for Excellent. */
  lemma BadgeVariantFollowsLabel(score: int)
    ensures BadgeVariant(score) == "destructive" <==> LocalScoreLabel(score) in {"Fair", "Poor"}
    ensures BadgeVariant(score) == "default" <==> LocalScoreLabel(score) == "Excellent"
  {
  }

  datatype ScoreCardView = ScoreCardView(
    score: int,
    color: string,
    title: string,
    badgeVariant: string,
    badgeLabel: string,
    description: Option<string>)

  /** The rendered card; `description &&` draws the text only when it is given and non-empty. */
  function Render(score: int, title: string, description: Option<string>): (v: ScoreCardView)
    ensures v.description.Some? <==> description.Some? && description.value != ""
    ensures v.description.Some? ==> v.description == description
    ensures v.badgeVariant == BadgeVariant(score)
    ensures v.badgeVariant == "destructive" <==> score < 60
    ensures v.color == Scores.GetScoreColor(score) && v.badgeLabel == Scores.GetScoreLabel(score)
  {
    ScoreCardView(score, LocalScoreColor(score), title, BadgeVariant(score), LocalScoreLabel(score),
                  if description.Some? && description.value != "" then description else None)
  }
}
