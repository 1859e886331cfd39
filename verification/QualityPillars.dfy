/**
 * The quality pillars radar chart (components/quality-pillars-card.tsx):
 * a placeholder when there are no pillars, otherwise one datum per pillar
 * whose axis label breaks the name before its first " & ", plus one
 * button per pillar that selects it in the filter store.
 */
module QualityPillars {
  import opened Wrappers
  import opened Schemas
  import Text
  import Filters

  /** One radar point: the axis label, the score and the unmodified name. */
  datatype Datum = Datum(pillar: string, score: int, fullName: string)

  datatype PillarsView = NoPillarData | Radar(data: seq<Datum>)

  const Separator: string := " & "
  const BrokenSeparator: string := "\n& "

  /** `name.replace(' & ', '\n& ')`: the axis label. */
  function PillarLabel(name: string): (r: string)
    ensures |r| == |name|
    ensures !Text.Contains(name, Separator) ==> r == name
  {
    Text.ReplaceFirstShape(name, Separator, BrokenSeparator);
    Text.ReplaceFirst(name, Separator, BrokenSeparator)
  }

  /** The rewrite adds exactly one line break when the name holds " & ", and none otherwise. */
  lemma LabelLineBreaks(name: string)
    ensures Text.CountChar(PillarLabel(name), '\n')
      == Text.CountChar(name, '\n') + (if Text.Contains(name, Separator) then 1 else 0)
  {
    if Text.Contains(name, Separator) {
      assert multiset(Separator)['\n'] == 0;
      assert multiset(BrokenSeparator)['\n'] == 1;
      Text.ReplaceFirstCountChar(name, Separator, BrokenSeparator, '\n');
    }
  }

  /** A text without line breaks from `from` on holds no "\n& " there. */
  lemma NoBrokenSeparator(s: string, from: nat)
    requires forall k :: from <= k < |s| ==> s[k] != '\n'
    ensures forall j :: from <= j ==> !Text.OccursAt(s, BrokenSeparator, j)
  {
    forall j | from <= j
      ensures !Text.OccursAt(s, BrokenSeparator, j)
    {
      if j + 3 <= |s| {
        assert s[j..j + 3][0] == s[j];
      }
    }
  }

  /** "\n& " at `i` with no line break before it is the first occurrence. */
  lemma FirstBrokenSeparator(s: string, i: nat)
    requires Text.OccursAt(s, BrokenSeparator, i)
    requires forall k :: 0 <= k < i ==> s[k] != '\n'
    ensures Text.IndexOf(s, BrokenSeparator) == Some(i)
  {
    forall j | 0 <= j < i
      ensures !Text.OccursAt(s, BrokenSeparator, j)
    {
      assert s[j..j + 3][0] == s[j];
    }
  }

  /** For a name without line breaks, undoing the rewrite gives the name back: the label loses nothing. */
  lemma LabelRoundTrip(name: string)
    requires '\n' !in name
    ensures Text.ReplaceFirst(PillarLabel(name), BrokenSeparator, Separator) == name
  {
    var lab := PillarLabel(name);
    if Text.Contains(name, Separator) {
      var i := Text.IndexOf(name, Separator).value;
      var before, after := name[..i], name[i + 3..];
      assert lab == before + BrokenSeparator + after;
      assert lab[i..i + 3] == BrokenSeparator;
      forall k | 0 <= k < i
        ensures lab[k] != '\n'
      {
        assert lab[k] == name[k];
        assert name[k] in name;
      }
      FirstBrokenSeparator(lab, i);
      assert lab[..i] == before && lab[i + 3..] == after;
      assert name[i..i + 3] == Separator;
      assert name == before + name[i..i + 3] + after;
    } else {
      forall k | 0 <= k < |name|
        ensures name[k] != '\n'
      {
        assert name[k] in name;
      }
      NoBrokenSeparator(name, 0);
    }
  }

  /** A line-break-free name holding " & " gets a label with exactly one line break. */
  lemma OneSeparatorOneBreak(name: string, at: nat)
    requires Text.OccursAt(name, Separator, at)
    requires '\n' !in name
    ensures Text.Contains(name, Separator)
    ensures Text.CountChar(PillarLabel(name), '\n') == 1
  {
    Text.ContainsIff(name, Separator);
    assert '\n' !in multiset(name);
    LabelLineBreaks(name);
  }

  /** Where " & " sits in each schema pillar name. */
  function SeparatorAt(p: Pillar): nat {
    match p
    case StrategicAlignment => 19
    case TechnicalCompliance => 20
    case ContentImpact => 14
    case Completeness => 12
  }

  lemma StrategicAlignmentNameShape()
    ensures Text.OccursAt(PillarName(StrategicAlignment), Separator, 19)
    ensures '\n' !in PillarName(StrategicAlignment)
  {
    assert PillarName(StrategicAlignment)[19..22] == Separator;
  }

  lemma TechnicalComplianceNameShape()
    ensures Text.OccursAt(PillarName(TechnicalCompliance), Separator, 20)
    ensures '\n' !in PillarName(TechnicalCompliance)
  {
    assert PillarName(TechnicalCompliance)[20..23] == Separator;
  }

  lemma ContentImpactNameShape()
    ensures Text.OccursAt(PillarName(ContentImpact), Separator, 14)
    ensures '\n' !in PillarName(ContentImpact)
  {
    assert PillarName(ContentImpact)[14..17] == Separator;
  }

  lemma CompletenessNameShape()
    ensures Text.OccursAt(PillarName(Completeness), Separator, 12)
    ensures '\n' !in PillarName(Completeness)
  {
    assert PillarName(Completeness)[12..15] == Separator;
  }

  lemma PillarNameShape(p: Pillar)
    ensures Text.OccursAt(PillarName(p), Separator, SeparatorAt(p))
    ensures '\n' !in PillarName(p)
  {
    match p
    case StrategicAlignment => StrategicAlignmentNameShape();
    case TechnicalCompliance => TechnicalComplianceNameShape();
    case ContentImpact => ContentImpactNameShape();
    case Completeness => CompletenessNameShape();
  }

  /** Each of the four schema pillar names contains " & ", so its label holds exactly one line break. */
  lemma SchemaPillarLabels(p: Pillar)
    ensures Text.Contains(PillarName(p), Separator)
    ensures Text.CountChar(PillarLabel(PillarName(p)), '\n') == 1
  {
    PillarNameShape(p);
    OneSeparatorOneBreak(PillarName(p), SeparatorAt(p));
  }

  function Datums(pillars: seq<QualityPillar>): (r: seq<Datum>)
    ensures |r| == |pillars|
    ensures forall i :: 0 <= i < |pillars| ==> r[i] == Datum(PillarLabel(pillars[i].pillar), pillars[i].score, pillars[i].pillar)
  {
    if pillars == [] then []
    else
      var p := pillars[|pillars| - 1];
      Datums(pillars[..|pillars| - 1]) + [Datum(PillarLabel(p.pillar), p.score, p.pillar)]
  }

  /**
   * `QualityPillarsCard`: the placeholder for missing or empty pillars,
   * otherwise one datum per pillar, in order: its axis label, and its score
   * and full name copied.
   */
  function Render(pillars: Option<seq<QualityPillar>>): (r: PillarsView)
    ensures r == NoPillarData <==> pillars.None? || pillars.value == []
    ensures r.Radar? ==> |r.data| == |pillars.value|
    ensures r.Radar? ==> forall i :: 0 <= i < |r.data| ==>
      r.data[i].score == pillars.value[i].score && r.data[i].fullName == pillars.value[i].pillar
    ensures r.Radar? ==> forall i :: 0 <= i < |r.data| ==> r.data[i].pillar == PillarLabel(pillars.value[i].pillar)
  {
    if pillars.None? || |pillars.value| == 0 then NoPillarData
    else Radar(Datums(pillars.value))
  }

  /** For a schema-valid analysis, every radar label is a pillar name broken over exactly two lines. */
  lemma ValidPillarsHaveTwoLineLabels(a: ResumeAnalysis)
    requires ValidAnalysis(a) && a.qualityPillarsAnalysis != []
    ensures Render(Some(a.qualityPillarsAnalysis)).Radar?
    ensures forall d :: d in Render(Some(a.qualityPillarsAnalysis)).data ==> Text.CountChar(d.pillar, '\n') == 1
  {
    var data := Render(Some(a.qualityPillarsAnalysis)).data;
    forall d | d in data
      ensures Text.CountChar(d.pillar, '\n') == 1
    {
      var i :| 0 <= i < |data| && data[i] == d;
      var q := a.qualityPillarsAnalysis[i];
      assert ValidQualityPillar(q);
      SchemaPillarLabels(ParsePillar(q.pillar).value);
    }
  }

  /** A pillar button selects that pillar's full name and leaves the other selectors alone. */
  method ClickPillar(store: Filters.FilterStore, p: QualityPillar)
    modifies store
    ensures store.Snapshot() == old(store.Snapshot()).WithPillar(Some(p.pillar))
  {
    store.SetPillar(Some(p.pillar));
  }
}
