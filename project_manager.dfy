/** The admin list of project ITB ids (components/ProjectManager.tsx): adding a
    project after checking its id, editing a project's name and description,
    and deleting a project. The list is the component's `projects` property;
    `onProjectsChange` replacing it is modelled as the `projects` field being
    reassigned. The confirmation dialog's answer is a parameter. */
module ProjectManager {
  import opened Wrappers
  import opened Text
  import opened Types
  import opened ProjectsStore

  const InvalidUuidAlert := "Please enter a valid UUID format (e.g., 12345678-1234-1234-1234-123456789012)"
  const DuplicateIdAlert := "A project with this ID already exists"

  /** The cleared form. */
  const EmptyForm := ManagedProject("", "", "")

  // ---------------------------------------------------------------------------
  // The id check

  /** `[0-9a-f]` under the `i` flag. */
  predicate IsHexDigit(c: char) {
    IsDigit(c) || 'a' <= c <= 'f' || 'A' <= c <= 'F'
  }

  predicate IsDashPosition(i: int) {
    i == 8 || i == 13 || i == 18 || i == 23
  }

  /** The anchored pattern 8-4-4-4-12 hexadecimal digits, case-insensitive. */
  predicate IsUuid(s: string) {
    |s| == 36 && forall i :: 0 <= i < |s| ==> (if IsDashPosition(i) then s[i] == '-' else IsHexDigit(s[i]))
  }

  /** An id of UUID shape is its own trim and not blank, so the blank test
      before the pattern test only decides which message is shown. */
  lemma UuidIsTrimmed(s: string)
    ensures IsUuid(s) ==> Trim(s) == s && !IsBlank(s)
  {
    if IsUuid(s) {
      assert IsHexDigit(s[0]) && IsHexDigit(s[35]);
      TrimTrimmed(s);
    }
  }

  /** The example the alert offers has the required shape. */
  lemma AlertExampleIsUuid()
    ensures IsUuid("12345678-1234-1234-1234-123456789012")
  {
  }

  /** What `handleAddProject` does with the form. */
  datatype AddOutcome = Ignored | Alerted(message: string) | Added

  /** The three checks in order: a blank id is ignored, an id not of UUID
      shape and an id already in the list are refused with an alert, any
      other candidate is added. */
  function AddOutcomeOf(projects: seq<ManagedProject>, candidate: ManagedProject): (r: AddOutcome)
    ensures r == Ignored <==> IsBlank(candidate.id)
    ensures r == Alerted(InvalidUuidAlert) <==> !IsBlank(candidate.id) && !IsUuid(candidate.id)
    ensures r == Alerted(DuplicateIdAlert) <==> IsUuid(candidate.id) && HasId(projects, candidate.id)
    ensures r == Added <==> IsUuid(candidate.id) && !HasId(projects, candidate.id)
  {
    UuidIsTrimmed(candidate.id);
    if IsBlank(candidate.id) then Ignored
    else if !IsUuid(candidate.id) then Alerted(InvalidUuidAlert)
    else if HasId(projects, candidate.id) then Alerted(DuplicateIdAlert)
    else Added
  }

  /** An accepted project keeps the ids unique. */
  lemma AddKeepsUnique(projects: seq<ManagedProject>, candidate: ManagedProject)
    requires UniqueIds(projects)
    requires AddOutcomeOf(projects, candidate) == Added
    ensures UniqueIds(projects + [candidate])
  {
    AppendedUnique(projects, candidate);
  }

  // ---------------------------------------------------------------------------
  // Editing

  /** `projects.map(p => p.id === editingId ? editProject : p)`; with no
      project being edited nothing matches. */
  function Edited(ps: seq<ManagedProject>, editingId: Option<string>, edit: ManagedProject): (r: seq<ManagedProject>)
    ensures |r| == |ps|
    ensures forall i :: 0 <= i < |ps| ==> r[i] == (if editingId == Some(ps[i].id) then edit else ps[i])
  {
    seq(|ps|, i requires 0 <= i < |ps| => if editingId == Some(ps[i].id) then edit else ps[i])
  }

  /** The edit form carries the edited project's id, so saving leaves the
      ids (and their uniqueness) as they were; with nothing being edited the
      list is unchanged. */
  lemma EditKeepsIds(ps: seq<ManagedProject>, editingId: Option<string>, edit: ManagedProject)
    requires editingId.Some? ==> edit.id == editingId.value
    ensures Ids(Edited(ps, editingId, edit)) == Ids(ps)
    ensures editingId.None? ==> Edited(ps, editingId, edit) == ps
  {
    var r := Edited(ps, editingId, edit);
    assert forall i :: 0 <= i < |ps| ==> Ids(r)[i] == Ids(ps)[i];
  }

  // ---------------------------------------------------------------------------
  // The component

  class ProjectManager {
    var projects: seq<ManagedProject>
    var isAdding: bool
    var editingId: Option<string>
    var newProject: ManagedProject
    var editProject: ManagedProject

    /** While a project is being edited, the edit form holds its id. */
    predicate Valid()
      reads this
    {
      editingId.Some? ==> editProject.id == editingId.value
    }

    constructor(projects0: seq<ManagedProject>)
      ensures projects == projects0 && !isAdding && editingId == None
      ensures newProject == EmptyForm && editProject == EmptyForm
      ensures Valid()
    {
      projects := projects0;
      isAdding := false;
      editingId := None;
      newProject := EmptyForm;
      editProject := EmptyForm;
    }

    /** The "Add Project" button opens the form. */
    method OpenAddForm()
      modifies this
      ensures isAdding
      ensures projects == old(projects) && newProject == old(newProject)
      ensures editingId == old(editingId) && editProject == old(editProject)
    {
      isAdding := true;
    }

    /** The add form's "Cancel" button closes the form and clears it. */
    method CancelAddForm()
      modifies this
      ensures !isAdding && newProject == EmptyForm
      ensures projects == old(projects)
      ensures editingId == old(editingId) && editProject == old(editProject)
    {
      isAdding := false;
      newProject := EmptyForm;
    }

    /** Typing into the add form. */
    method SetNewProject(form: ManagedProject)
      modifies this
      ensures newProject == form
      ensures projects == old(projects) && isAdding == old(isAdding)
      ensures editingId == old(editingId) && editProject == old(editProject)
    {
      newProject := form;
    }

    /** `handleAddProject`: the form is appended as it was typed when it
        passes the checks, and the form is then cleared and closed. */
    method HandleAddProject() returns (outcome: AddOutcome)
      modifies this
      ensures outcome == AddOutcomeOf(old(projects), old(newProject))
      ensures outcome == Added ==> projects == old(projects) + [old(newProject)] && newProject == EmptyForm && !isAdding
      ensures outcome != Added ==> projects == old(projects) && newProject == old(newProject) && isAdding == old(isAdding)
      ensures editingId == old(editingId) && editProject == old(editProject)
      ensures UniqueIds(old(projects)) ==> UniqueIds(projects)
    {
      if IsBlank(newProject.id) {
        return Ignored;
      }
      if !IsUuid(newProject.id) {
        return Alerted(InvalidUuidAlert);
      }
      if HasId(projects, newProject.id) {
        return Alerted(DuplicateIdAlert);
      }
      if UniqueIds(projects) {
        AddKeepsUnique(projects, newProject);
      }
      projects := projects + [newProject];
      newProject := EmptyForm;
      isAdding := false;
      outcome := Added;
    }

    /** `handleDeleteProject`: once confirmed, every project with the id
        goes. */
    method HandleDeleteProject(id: string, confirmed: bool)
      modifies this
      ensures confirmed ==> projects == Removed(old(projects), id)
      ensures !confirmed ==> projects == old(projects)
      ensures isAdding == old(isAdding) && newProject == old(newProject)
      ensures editingId == old(editingId) && editProject == old(editProject)
      ensures UniqueIds(old(projects)) ==> UniqueIds(projects)
    {
      if confirmed {
        if UniqueIds(projects) {
          RemovedKeepsUnique(projects, id);
        }
        projects := Removed(projects, id);
      }
    }

    /** `handleStartEdit`: the form is loaded with the project. */
    method HandleStartEdit(project: ManagedProject)
      modifies this
      ensures editProject == project && editingId == Some(project.id)
      ensures projects == old(projects) && isAdding == old(isAdding) && newProject == old(newProject)
      ensures Valid()
    {
      editProject := project;
      editingId := Some(project.id);
    }

    /** Typing into the edit form, which offers the name and description. */
    method SetEditFields(name: string, description: string)
      modifies this
      ensures editProject == old(editProject).(name := name, description := description)
      ensures editingId == old(editingId)
      ensures projects == old(projects) && isAdding == old(isAdding) && newProject == old(newProject)
      ensures old(Valid()) ==> Valid()
    {
      editProject := editProject.(name := name, description := description);
    }

    /** `handleSaveEdit`: refused for a blank name; otherwise the edited
        project is replaced by the form and editing ends. */
    method HandleSaveEdit() returns (saved: bool)
      modifies this
      ensures saved <==> !IsBlank(old(editProject.name))
      ensures saved ==> projects == Edited(old(projects), old(editingId), old(editProject))
      ensures saved ==> editingId == None && editProject == EmptyForm
      ensures !saved ==> projects == old(projects) && editingId == old(editingId) && editProject == old(editProject)
      ensures isAdding == old(isAdding) && newProject == old(newProject)
      ensures old(Valid()) ==> Valid() && Ids(projects) == Ids(old(projects))
    {
      if IsBlank(editProject.name) {
        return false;
      }
      if Valid() {
        EditKeepsIds(projects, editingId, editProject);
      }
      projects := Edited(projects, editingId, editProject);
      editingId := None;
      editProject := EmptyForm;
      saved := true;
    }

    /** `handleCancelEdit`. */
    method HandleCancelEdit()
      modifies this
      ensures editingId == None && editProject == EmptyForm
      ensures projects == old(projects) && isAdding == old(isAdding) && newProject == old(newProject)
    {
      editingId := None;
      editProject := EmptyForm;
    }
  }
}
