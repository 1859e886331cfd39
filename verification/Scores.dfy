/**
 * Score bands and the severity style table of lib/utils.ts.
 */
module Scores {

  /** The icons the dashboard draws from its icon set. */
  datatype Icon = XCircle | AlertTriangle | AlertCircle | CheckCircle

  const Green := "text-green-600"
  const Yellow := "text-yellow-600"
  const Red := "text-red-600"

  /** `getScoreColor`: the text colour class of a score. */
  function GetScoreColor(score: int): (r: string)
    ensures r == Green <==> score >= 80
    ensures r == Yellow <==> 60 <= score < 80
    ensures r == Red <==> score < 60
  {
    if score >= 80 then Green
    else if score >= 60 then Yellow
    else Red
  }

  /** `getScoreLabel`: the word shown for a score. */
  function GetScoreLabel(score: int): (r: string)
    ensures r == "Excellent" <==> score >= 80
    ensures r == "Good" <==> 60 <= score < 80
    ensures r == "Fair" <==> 40 <= score < 60
    ensures r == "Poor" <==> score < 40
  {
    if score >= 80 then "Excellent"
    else if score >= 60 then "Good"
    else if score >= 40 then "Fair"
    else "Poor"
  }

  /** The order of the colours, red lowest. */
  function ColorRank(color: string): int {
    if color == Green then 2 else if color == Yellow then 1 else 0
  }

  /** The order of the labels, Poor lowest. */
  function LabelRank(name: string): int {
    if name == "Excellent" then 3 else if name == "Good" then 2 else if name == "Fair" then 1 else 0
  }

  /** A higher score never gets a lower-ranked colour or label. */
  lemma ScoreBandsMonotone(a: int, b: int)
    requires a <= b
    ensures ColorRank(GetScoreColor(a)) <= ColorRank(GetScoreColor(b))
    ensures LabelRank(GetScoreLabel(a)) <= LabelRank(GetScoreLabel(b))
  {
  }

  /** The label is Excellent exactly when the colour is green, Good exactly when yellow; Fair and Poor are red. */
  lemma LabelAgreesWithColor(score: int)
    ensures GetScoreLabel(score) == "Excellent" <==> GetScoreColor(score) == Green
    ensures GetScoreLabel(score) == "Good" <==> GetScoreColor(score) == Yellow
    ensures GetScoreLabel(score) in {"Fair", "Poor"} <==> GetScoreColor(score) == Red
  {
  }

  /** One row of `SEVERITY_DATA`; `labelText` is its `label` field (a reserved word here). */
  datatype SeverityStyle = SeverityStyle(color: string, labelText: string, icon: Icon, variant: string)

  const SEVERITY_DATA: map<string, SeverityStyle> := map[
    "Critical" := SeverityStyle("#dc2626", "Critical", XCircle, "destructive"),
    "High" := SeverityStyle("#ea580c", "High", AlertTriangle, "destructive"),
    "Medium" := SeverityStyle("#ca8a04", "Medium", AlertCircle, "secondary"),
    "Low" := SeverityStyle("#6b7280", "Low", CheckCircle, "outline")
  ]

  /** The table covers the four ranked severities, labels each by its key, and has no row for "Good". */
  lemma SeverityDataShape()
    ensures SEVERITY_DATA.Keys == {"Critical", "High", "Medium", "Low"}
    ensures "Good" !in SEVERITY_DATA
    ensures forall k :: k in SEVERITY_DATA ==> SEVERITY_DATA[k].labelText == k
    ensures SEVERITY_DATA["Critical"].variant == "destructive" && SEVERITY_DATA["High"].variant == "destructive"
    ensures SEVERITY_DATA["Medium"].variant == "secondary" && SEVERITY_DATA["Low"].variant == "outline"
  {
  }
}
