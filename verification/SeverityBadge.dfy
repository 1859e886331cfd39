/**
 * The severity badge (components/severity-badge.tsx): two lookup tables keyed
 * by severity.  Neither has an entry for "Good", although the schema allows
 * it, so the icon lookup yields `undefined` and rendering fails.
 */
module SeverityBadge {
  import opened Wrappers
  import opened Schemas
  import Scores

  const Variants: map<string, string> := map[
    "Critical" := "destructive",
    "High" := "destructive",
    "Medium" := "secondary",
    "Low" := "outline"
  ]

  const Icons: map<string, Scores.Icon> := map[
    "Critical" := Scores.XCircle,
    "High" := Scores.AlertTriangle,
    "Medium" := Scores.AlertCircle,
    "Low" := Scores.CheckCircle
  ]

  datatype Badge = Badge(variant: string, icon: Scores.Icon, text: string)

  /** Rendering a component whose type is `undefined` throws. */
  datatype RenderError = UndefinedIcon(severity: string)

  /**
   * The badge for the prop `severity`, typed as the schema's severity
   * enumeration, so no name inherited from `Object.prototype` reaches the
   * table lookups.
   */
  function Render(severity: Severity): (r: Result<Badge, RenderError>)
    ensures r.Success? <==> SeverityName(severity) in Icons
    ensures r.Success? ==> var name := SeverityName(severity);
      r.value.text == name && r.value.variant == Variants[name] && r.value.icon == Icons[name]
    ensures r.Failure? ==> r.error == UndefinedIcon(SeverityName(severity))
  {
    var name := SeverityName(severity);
    if name in Icons && name in Variants then Success(Badge(Variants[name], Icons[name], name))
    else Failure(UndefinedIcon(name))
  }

  /** Of the five schema severities exactly "Good" cannot be rendered. */
  lemma OnlyGoodFails(s: Severity)
    ensures Render(s).Failure? <==> s == Good
  {
  }

  /** The badge tables agree with `SEVERITY_DATA` on every key, in variant and in icon. */
  lemma TablesAgreeWithSeverityData()
    ensures Variants.Keys == Scores.SEVERITY_DATA.Keys && Icons.Keys == Scores.SEVERITY_DATA.Keys
    ensures forall k :: k in Variants ==> Variants[k] == Scores.SEVERITY_DATA[k].variant
    ensures forall k :: k in Icons ==> Icons[k] == Scores.SEVERITY_DATA[k].icon
  {
  }
}
