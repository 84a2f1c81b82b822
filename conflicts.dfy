/** The conflict panel: scheduling conflicts listed by severity tab, one of
    them selected, and the selection resolved by reassigning or
    rescheduling. */
module Conflicts {
  import opened Js
  import Seqs

  datatype Role = FE | BE | QA
  datatype Developer = Developer(id: string, name: string, avatar: Option<string>, role: Role)
  datatype Project = Project(id: string, name: string)
  datatype Severity = High | Medium | Low

  datatype Conflict = Conflict(id: string, developer: Developer, date: string,
                               projects: seq<Project>, severity: Severity)

  datatype Resolution = Reassign | Reschedule

  /** The string a conflict's `severity` holds. */
  function SeverityName(s: Severity): (name: string)
    ensures name != "all"
  {
    match s
    case High => "high"
    case Medium => "medium"
    case Low => "low"
  }

  /** `filteredConflicts` for the active tab. */
  function FilteredConflicts(conflicts: seq<Conflict>, activeTab: string): (r: seq<Conflict>)
    ensures |r| <= |conflicts|
    ensures activeTab == "all" ==> r == conflicts
    ensures activeTab != "all" ==>
      (forall i :: 0 <= i < |r| ==> r[i] in conflicts && SeverityName(r[i].severity) == activeTab)
      && (forall i :: 0 <= i < |conflicts| && SeverityName(conflicts[i].severity) == activeTab ==> conflicts[i] in r)
  {
    if activeTab == "all" then conflicts
    else Seqs.Filter(conflicts, (c: Conflict) => SeverityName(c.severity) == activeTab)
  }

  /** Filtering keeps the original order. */
  lemma FilterKeepsOrder(a: seq<Conflict>, b: seq<Conflict>, activeTab: string)
    ensures FilteredConflicts(a + b, activeTab) == FilteredConflicts(a, activeTab) + FilteredConflicts(b, activeTab)
  {
    if activeTab != "all" {
      Seqs.FilterAppend(a, b, (c: Conflict) => SeverityName(c.severity) == activeTab);
    }
  }

  /** The panel's tabs are "all", "high" and "medium": a low-severity
      conflict is listed only under "all". */
  lemma LowOnlyUnderAll(conflicts: seq<Conflict>, activeTab: string, c: Conflict)
    requires activeTab == "all" || activeTab == "high" || activeTab == "medium"
    requires c.severity == Low
    ensures c in FilteredConflicts(conflicts, activeTab) <==> activeTab == "all" && c in conflicts
  {
    if activeTab != "all" {
      var r := FilteredConflicts(conflicts, activeTab);
      var keep := (x: Conflict) => SeverityName(x.severity) == activeTab;
      Seqs.FilterMultiplicity(conflicts, keep, c);
      assert multiset(r)[c] == 0;
    }
  }

  /** The selection cell and the resolutions reported to `onResolveConflict`. */
  class ConflictPanel {
    var selectedConflict: Option<Conflict>
    var activeTab: string
    /** Every (conflict id, resolution) passed to `onResolveConflict`, oldest first. */
    var resolutions: seq<(string, Resolution)>

    constructor ()
      ensures selectedConflict == None && activeTab == "all" && resolutions == []
    {
      selectedConflict := None;
      activeTab := "all";
      resolutions := [];
    }

    method SetActiveTab(tab: string)
      modifies this`activeTab
      ensures activeTab == tab
    {
      activeTab := tab;
    }

    /** `handleSelectConflict`. */
    method HandleSelectConflict(conflict: Conflict)
      modifies this`selectedConflict
      ensures selectedConflict == Some(conflict)
    {
      selectedConflict := Some(conflict);
    }

    /** `handleResolveConflict`: without a selection nothing happens; with one,
        its id and the resolution are reported once and the selection is
        cleared. */
    method HandleResolveConflict(resolution: Resolution)
      modifies this`selectedConflict, this`resolutions
      ensures old(selectedConflict).None? ==> selectedConflict == None && resolutions == old(resolutions)
      ensures old(selectedConflict).Some? ==>
        && resolutions == old(resolutions) + [(old(selectedConflict).value.id, resolution)]
        && selectedConflict == None
    {
      if selectedConflict.Some? {
        resolutions := resolutions + [(selectedConflict.value.id, resolution)];
        selectedConflict := None;
      }
    }
  }
}
