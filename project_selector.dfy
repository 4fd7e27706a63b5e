/** The project picker of the chat page (components/ProjectSelector.tsx): the
    two tabs (projects from the API and the saved manual list), the search
    filter, the selection cap and the manual add/remove controls. The
    selection belongs to the chat page; the API list is what the API hook
    currently holds and is passed in. */
module ProjectSelector {
  import opened Wrappers
  import opened Text
  import opened Seqs
  import opened Types
  import opened ProjectsStore

  datatype Tab = ApiTab | ManualTab

  /** The `maxSelections` property's default. */
  const DefaultMaxSelections := 5

  // ---------------------------------------------------------------------------
  // Listing

  /** `includedDocuments?.length || 0`. */
  function DocumentCount(p: ApiProject): (n: nat)
    ensures p.includedDocuments.None? ==> n == 0
    ensures p.includedDocuments.Some? ==> n == |p.includedDocuments.value|
  {
    match p.includedDocuments
    case None => 0
    case Some(documents) => |documents|
  }

  /** A saved project as listed: no document count. */
  function FromManaged(p: ManagedProject): Project {
    Project(p.id, p.name, Manual, None)
  }

  /** An API project as listed: its `projectName` and its document count. */
  function FromApi(p: ApiProject): Project {
    Project(p.id, p.projectName, Api, Some(DocumentCount(p)))
  }

  function ManualList(ps: seq<ManagedProject>): (r: seq<Project>)
    ensures |r| == |ps|
    ensures forall i :: 0 <= i < |ps| ==> r[i] == FromManaged(ps[i])
  {
    seq(|ps|, i requires 0 <= i < |ps| => FromManaged(ps[i]))
  }

  function ApiList(ps: seq<ApiProject>): (r: seq<Project>)
    ensures |r| == |ps|
    ensures forall i :: 0 <= i < |ps| ==> r[i] == FromApi(ps[i])
  {
    seq(|ps|, i requires 0 <= i < |ps| => FromApi(ps[i]))
  }

  /** The lower-cased term occurs in the lower-cased name or id. */
  predicate ProjectMatches(term: string, p: Project) {
    Contains(ToLower(p.name), ToLower(term)) || Contains(ToLower(p.id), ToLower(term))
  }

  function MatchesTerm(term: string): Project -> bool {
    (p: Project) => ProjectMatches(term, p)
  }

  /** `getFilteredProjects`: the active tab's list, narrowed by a non-empty
      search term. */
  function FilteredProjects(tab: Tab, api: seq<Project>, manual: seq<Project>, term: string): (r: seq<Project>)
    ensures var list := if tab == ApiTab then api else manual;
      && (term == "" ==> r == list)
      && (forall p :: p in r <==> p in list && ProjectMatches(term, p))
      && |r| <= |list|
  {
    var list := if tab == ApiTab then api else manual;
    if term == "" then
      EveryProjectMatchesEmpty(list);
      list
    else Filter(list, MatchesTerm(term))
  }

  /** The empty term matches every project, so the early return for it
      agrees with filtering. */
  lemma EveryProjectMatchesEmpty(list: seq<Project>)
    ensures forall p :: ProjectMatches("", p)
    ensures Filter(list, MatchesTerm("")) == list
  {
    forall p: Project ensures ProjectMatches("", p) {
      assert OccursAt(ToLower(p.name), "", 0);
    }
    FilterKeepsAll(list, MatchesTerm(""));
  }

  // ---------------------------------------------------------------------------
  // Selection cap

  predicate CanSelectMore(selected: seq<string>, maxSelections: int) {
    |selected| < maxSelections
  }

  /** The Select button's `disabled`: `!canSelect && !isSelected` with
      `canSelect = !isSelected && canSelectMore`. */
  predicate SelectDisabled(selected: seq<string>, id: string, maxSelections: int) {
    var isSelected := id in selected;
    var canSelect := !isSelected && CanSelectMore(selected, maxSelections);
    !canSelect && !isSelected
  }

  /** A button is disabled exactly for an unselected project once the cap is
      reached; a selected project can always be clicked to deselect it. */
  lemma SelectDisabledIff(selected: seq<string>, id: string, maxSelections: int)
    ensures SelectDisabled(selected, id, maxSelections) <==> id !in selected && |selected| >= maxSelections
  {
  }

  // ---------------------------------------------------------------------------
  // The component

  class ProjectSelector {
    var activeTab: Tab
    var searchTerm: string
    var showAddManual: bool
    var newProjectId: string
    /** The saved manual list (`useProjects`). */
    var manual: ProjectsStore

    constructor(manual0: ProjectsStore)
      ensures activeTab == ApiTab && searchTerm == "" && !showAddManual && newProjectId == ""
      ensures manual == manual0
    {
      activeTab := ApiTab;
      searchTerm := "";
      showAddManual := false;
      newProjectId := "";
      manual := manual0;
    }

    /** What the list shows, given the API hook's projects. */
    function GetFilteredProjects(apiProjects: seq<ApiProject>): (r: seq<Project>)
      reads this, manual
      ensures activeTab == ManualTab && searchTerm == "" ==> r == ManualList(manual.projects)
      ensures activeTab == ApiTab && searchTerm == "" ==> r == ApiList(apiProjects)
      ensures forall p :: p in r <==>
        p in (if activeTab == ApiTab then ApiList(apiProjects) else ManualList(manual.projects)) && ProjectMatches(searchTerm, p)
      ensures r == FilteredProjects(activeTab, ApiList(apiProjects), ManualList(manual.projects), searchTerm)
    {
      FilteredProjects(activeTab, ApiList(apiProjects), ManualList(manual.projects), searchTerm)
    }

    method SetActiveTab(tab: Tab)
      modifies this
      ensures activeTab == tab && searchTerm == old(searchTerm)
      ensures manual == old(manual) && newProjectId == old(newProjectId) && showAddManual == old(showAddManual)
    {
      activeTab := tab;
    }

    /** `handleSearch` and `handleClearSearch`, less the API search. */
    method SetSearchTerm(term: string)
      modifies this
      ensures searchTerm == term && activeTab == old(activeTab)
      ensures manual == old(manual) && newProjectId == old(newProjectId) && showAddManual == old(showAddManual)
    {
      searchTerm := term;
    }

    /** The "Add Manual Project" button opens the manual form. */
    method OpenManualForm()
      modifies this
      ensures showAddManual
      ensures manual == old(manual) && activeTab == old(activeTab) && searchTerm == old(searchTerm)
      ensures newProjectId == old(newProjectId)
    {
      showAddManual := true;
    }

    /** The manual form's "Cancel" button closes it and clears the typed id. */
    method CancelManualForm()
      modifies this
      ensures !showAddManual && newProjectId == ""
      ensures manual == old(manual) && activeTab == old(activeTab) && searchTerm == old(searchTerm)
    {
      showAddManual := false;
      newProjectId := "";
    }

    method SetNewProjectId(id: string)
      modifies this
      ensures newProjectId == id
      ensures manual == old(manual) && activeTab == old(activeTab) && searchTerm == old(searchTerm)
      ensures showAddManual == old(showAddManual)
    {
      newProjectId := id;
    }

    /** `handleAddManualProject`: a blank id is ignored; otherwise the
        trimmed id is saved as "Project <id>" and the form is cleared and
        closed. No shape or duplicate check is made here. */
    method HandleAddManualProject()
      modifies this, manual
      ensures manual == old(manual) && activeTab == old(activeTab) && searchTerm == old(searchTerm)
      ensures manual.isLoaded == old(manual.isLoaded)
      ensures IsBlank(old(newProjectId)) ==>
        manual.projects == old(manual.projects) && newProjectId == old(newProjectId) && showAddManual == old(showAddManual)
      ensures !IsBlank(old(newProjectId)) ==>
        var id := Trim(old(newProjectId));
        && manual.projects == old(manual.projects) + [ManagedProject(id, "Project " + id, "")]
        && newProjectId == "" && !showAddManual
    {
      if !IsBlank(newProjectId) {
        var id := Trim(newProjectId);
        manual.AddProject(id, "Project " + id, "");
        newProjectId := "";
        showAddManual := false;
      }
    }

    /** `handleRemoveManualProject`: the project leaves the saved list, and
        `deselect` says whether the selection callback is called for it,
        which is exactly when it is selected. */
    method HandleRemoveManualProject(projectId: string, selected: seq<string>) returns (deselect: bool)
      modifies manual
      ensures manual.projects == Removed(old(manual.projects), projectId)
      ensures manual.isLoaded == old(manual.isLoaded)
      ensures deselect <==> projectId in selected
    {
      manual.RemoveProject(projectId);
      deselect := projectId in selected;
    }
  }
}
