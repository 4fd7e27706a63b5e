/** The saved list of project ids (lib/useProjects.ts): the projects the
    project manager edits and the chat page and selector read. Writing the list
    back to browser storage is not modelled; a load receives what was stored. */
module ProjectsStore {
  import opened Seqs
  import opened Types
  import opened Storage

  /** `projects.map(p => p.id)`. */
  function Ids(ps: seq<ManagedProject>): (r: seq<string>)
    ensures |r| == |ps|
    ensures forall i :: 0 <= i < |ps| ==> r[i] == ps[i].id
  {
    KeysBy(ps, IdOf)
  }

  /** `projects.some(p => p.id === id)`. */
  predicate HasId(ps: seq<ManagedProject>, id: string) {
    exists i :: 0 <= i < |ps| && ps[i].id == id
  }

  /** No two projects share an id. */
  predicate UniqueIds(ps: seq<ManagedProject>) {
    NoDuplicates(Ids(ps))
  }

  /** `p => p.id`. */
  function IdOf(p: ManagedProject): string {
    p.id
  }

  function IdIsNot(id: string): ManagedProject -> bool {
    (p: ManagedProject) => p.id != id
  }

  function IsNot(id: string): string -> bool {
    (x: string) => x != id
  }

  /** `projects.filter(p => p.id !== id)`: no project keeps the id, every
      other project stays. */
  function Removed(ps: seq<ManagedProject>, id: string): (r: seq<ManagedProject>)
    ensures !HasId(r, id)
    ensures forall i :: 0 <= i < |ps| && ps[i].id != id ==> ps[i] in r
    ensures forall x :: x in r ==> x in ps
  {
    Filter(ps, IdIsNot(id))
  }

  /** The ids after a removal are the old ids, in order, without `id`. */
  lemma RemovedIds(ps: seq<ManagedProject>, id: string)
    ensures Ids(Removed(ps, id)) == Filter(Ids(ps), IsNot(id))
  {
    KeysOfFilter(ps, IdOf, IdIsNot(id), IsNot(id));
  }

  /** Removing keeps the ids unique. */
  lemma RemovedKeepsUnique(ps: seq<ManagedProject>, id: string)
    requires UniqueIds(ps)
    ensures UniqueIds(Removed(ps, id))
  {
    RemovedIds(ps, id);
    FilterNoDuplicates(Ids(ps), IsNot(id));
  }

  /** Appending keeps the ids unique exactly when the new id is not taken. */
  lemma AppendedUnique(ps: seq<ManagedProject>, p: ManagedProject)
    ensures UniqueIds(ps + [p]) <==> UniqueIds(ps) && !HasId(ps, p.id)
  {
    var ids := Ids(ps + [p]);
    assert ids == Ids(ps) + [p.id];
    if UniqueIds(ps + [p]) {
      forall i | 0 <= i < |ps| ensures ps[i].id != p.id {
        assert ids[i] != ids[|ps|];
      }
      forall i, j | 0 <= i < j < |ps| ensures Ids(ps)[i] != Ids(ps)[j] {
        assert ids[i] != ids[j];
      }
    }
  }

  /** `useEffect`'s load: the stored list, or the bundled default list when
      nothing is stored or it does not parse. */
  function LoadedProjects(stored: Stored<seq<ManagedProject>>, defaults: seq<ManagedProject>): (r: seq<ManagedProject>)
    ensures stored.Parsed? ==> r == stored.value
    ensures !stored.Parsed? ==> r == defaults
  {
    if stored.Parsed? then stored.value else defaults
  }

  class ProjectsStore {
    var projects: seq<ManagedProject>
    var isLoaded: bool

    constructor()
      ensures projects == [] && !isLoaded
    {
      projects := [];
      isLoaded := false;
    }

    /** The mount effect. */
    method Load(stored: Stored<seq<ManagedProject>>, defaults: seq<ManagedProject>)
      modifies this
      ensures projects == LoadedProjects(stored, defaults) && isLoaded
    {
      projects := LoadedProjects(stored, defaults);
      isLoaded := true;
    }

    /** `updateProjects`: the new list replaces the old one. */
    method UpdateProjects(newProjects: seq<ManagedProject>)
      modifies this
      ensures projects == newProjects && isLoaded == old(isLoaded)
    {
      projects := newProjects;
    }

    /** `getProjectIds`. */
    function GetProjectIds(): (r: seq<string>)
      reads this
      ensures |r| == |projects|
      ensures forall i :: 0 <= i < |projects| ==> r[i] == projects[i].id
    {
      Ids(projects)
    }

    /** `addProject`: appended at the end (callers that omit the description
        pass ""). */
    method AddProject(id: string, name: string, description: string)
      modifies this
      ensures projects == old(projects) + [ManagedProject(id, name, description)]
      ensures isLoaded == old(isLoaded)
    {
      UpdateProjects(projects + [ManagedProject(id, name, description)]);
    }

    /** `removeProject`. */
    method RemoveProject(id: string)
      modifies this
      ensures projects == Removed(old(projects), id)
      ensures isLoaded == old(isLoaded)
    {
      UpdateProjects(Removed(projects, id));
    }
  }
}
