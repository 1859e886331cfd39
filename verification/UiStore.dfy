/**
 * The dashboard's UI store (lib/stores/ui.ts): a flag for the recruiter panel
 * and a record of expanded sections keyed by section name.  The record is a
 * plain object, so a missing key reads as collapsed unless the name is one
 * the object inherits from `Object.prototype`.
 */
module UiStore {
  import JsObject

  /** `!!expandedSections[name]` on a record whose own properties are `m`. */
  function Expanded(m: map<string, bool>, name: string): (r: bool)
    ensures name in m ==> r == m[name]
    ensures name !in m ==> (r <==> JsObject.Inherited(name))
  {
    if name in m then m[name] else JsObject.Inherited(name)
  }

  /** The record after `toggleSection(name)`. */
  function Toggled(m: map<string, bool>, name: string): (r: map<string, bool>)
    ensures name in r && r.Keys == m.Keys + {name}
    ensures Expanded(r, name) == !Expanded(m, name)
    ensures forall k :: k != name ==> (k in r <==> k in m) && (k in m ==> r[k] == m[k])
  {
    m[name := !Expanded(m, name)]
  }

  /**
   * Toggling a section that was never toggled expands it, except for a
   * section named after an inherited member, whose truthy read makes the
   * first toggle store `false`.
   */
  lemma FirstToggleExpands(m: map<string, bool>, name: string)
    requires name !in m
    ensures Toggled(m, name)[name] <==> !JsObject.Inherited(name)
  {
  }

  /** A section named "constructor" stays collapsed on its first toggle. */
  lemma FirstToggleOfConstructorCollapses()
    ensures Toggled(map[], "constructor") == map["constructor" := false]
  {
    assert JsObject.Inherited("constructor");
  }

  /** Toggling the same section twice restores what it shows, absent keys reading as collapsed. */
  lemma ToggleTwiceRestores(m: map<string, bool>, name: string)
    ensures Expanded(Toggled(Toggled(m, name), name), name) == Expanded(m, name)
    ensures forall k :: k != name ==> Expanded(Toggled(Toggled(m, name), name), k) == Expanded(m, k)
  {
  }

  class UiState {
    var recruiterExpanded: bool
    var expandedSections: map<string, bool>

    function IsExpanded(name: string): bool
      reads this
    {
      Expanded(expandedSections, name)
    }

    constructor ()
      ensures !recruiterExpanded && expandedSections == map[]
    {
      recruiterExpanded := false;
      expandedSections := map[];
    }

    method ToggleRecruiter()
      modifies this
      ensures recruiterExpanded == !old(recruiterExpanded)
      ensures expandedSections == old(expandedSections)
    {
      recruiterExpanded := !recruiterExpanded;
    }

    method ToggleSection(sectionName: string)
      modifies this
      ensures expandedSections == Toggled(old(expandedSections), sectionName)
      ensures recruiterExpanded == old(recruiterExpanded)
    {
      expandedSections := expandedSections[sectionName := !IsExpanded(sectionName)];
    }
  }

  /** Two `toggleRecruiter` calls restore the flag and leave the sections alone. */
  method ToggleRecruiterTwice(ui: UiState)
    modifies ui
    ensures ui.recruiterExpanded == old(ui.recruiterExpanded)
    ensures ui.expandedSections == old(ui.expandedSections)
  {
    ui.ToggleRecruiter();
    ui.ToggleRecruiter();
  }
}
