/**
 * The dashboard's filter store (lib/stores/filters.ts): three independent
 * selectors, each unset (`null`) or holding one string, overwritten by one
 * setter per field and reset together by `clearAll`.
 */
module Filters {
  import opened Wrappers

  /** A snapshot of the three selectors; `None` stands for `null`. */
  datatype Selection = Selection(pillar: Option<string>, severity: Option<string>, section: Option<string>) {
    /** The state `set({ pillar: p })` merges in. */
    function WithPillar(p: Option<string>): Selection { this.(pillar := p) }
    function WithSeverity(s: Option<string>): Selection { this.(severity := s) }
    function WithSection(s: Option<string>): Selection { this.(section := s) }
  }

  /** The state the store is created with, and the one `clearAll` restores. */
  const Cleared: Selection := Selection(None, None, None)

  class FilterStore {
    var pillar: Option<string>
    var severity: Option<string>
    var section: Option<string>

    function Snapshot(): Selection
      reads this
    {
      Selection(pillar, severity, section)
    }

    constructor ()
      ensures Snapshot() == Cleared
    {
      pillar, severity, section := None, None, None;
    }

    method SetPillar(p: Option<string>)
      modifies this
      ensures Snapshot() == old(Snapshot()).WithPillar(p)
    {
      pillar := p;
    }

    method SetSeverity(s: Option<string>)
      modifies this
      ensures Snapshot() == old(Snapshot()).WithSeverity(s)
    {
      severity := s;
    }

    method SetSection(s: Option<string>)
      modifies this
      ensures Snapshot() == old(Snapshot()).WithSection(s)
    {
      section := s;
    }

    method ClearAll()
      modifies this
      ensures Snapshot() == Cleared
    {
      pillar, severity, section := None, None, None;
    }
  }

  /** A setter changes its own field and leaves the other two as they were. */
  lemma SettersTouchOneField(sel: Selection, v: Option<string>)
    ensures var r := sel.WithPillar(v); r.pillar == v && r.severity == sel.severity && r.section == sel.section
    ensures var r := sel.WithSeverity(v); r.severity == v && r.pillar == sel.pillar && r.section == sel.section
    ensures var r := sel.WithSection(v); r.section == v && r.pillar == sel.pillar && r.severity == sel.severity
  {
  }

  /** Applying a setter twice with the same value is the same as applying it once. */
  lemma SettersIdempotent(sel: Selection, v: Option<string>)
    ensures sel.WithPillar(v).WithPillar(v) == sel.WithPillar(v)
    ensures sel.WithSeverity(v).WithSeverity(v) == sel.WithSeverity(v)
    ensures sel.WithSection(v).WithSection(v) == sel.WithSection(v)
  {
  }

  /** Setters of different fields commute. */
  lemma SettersCommute(sel: Selection, p: Option<string>, v: Option<string>, s: Option<string>)
    ensures sel.WithPillar(p).WithSeverity(v) == sel.WithSeverity(v).WithPillar(p)
    ensures sel.WithPillar(p).WithSection(s) == sel.WithSection(s).WithPillar(p)
    ensures sel.WithSeverity(v).WithSection(s) == sel.WithSection(s).WithSeverity(v)
  {
  }
}
