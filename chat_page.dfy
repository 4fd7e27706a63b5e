/** The chat page (app/chat/page.tsx): the project selection it owns, the
    names it gives a new conversation, the id-to-name map it hands the chat
    interface, and the conversation tabs. */
module ChatPage {
  import opened Wrappers
  import opened Seqs
  import opened Types
  import opened ProjectsStore
  import opened ProjectSelector
  import opened ChatHistory

  // ---------------------------------------------------------------------------
  // Selection

  /** `handleProjectToggle`: a selected id is removed (every copy of it), an
      unselected one is appended. */
  function Toggled(selected: seq<string>, id: string): (r: seq<string>)
    ensures id in selected ==> id !in r && |r| < |selected|
    ensures id in selected ==> forall x :: x != id ==> (x in r <==> x in selected)
    ensures id !in selected ==> r == selected + [id]
  {
    if id in selected then
      var r := Filter(selected, IsNot(id));
      assert |r| < |selected| by {
        var i :| 0 <= i < |selected| && selected[i] == id;
        var before := selected[..i];
        var after := selected[i + 1..];
        assert selected == before + [id] + after;
        FilterConcat(before + [id], after, IsNot(id));
        FilterConcat(before, [id], IsNot(id));
      }
      r
    else selected + [id]
  }

  /** Toggling an unselected project twice restores the selection. */
  lemma ToggleTwice(selected: seq<string>, id: string)
    requires id !in selected
    ensures Toggled(Toggled(selected, id), id) == selected
  {
    FilterConcat(selected, [id], IsNot(id));
    FilterKeepsAll(selected, IsNot(id));
  }

  /** Toggling keeps the selection free of duplicates. */
  lemma ToggleKeepsDistinct(selected: seq<string>, id: string)
    requires NoDuplicates(selected)
    ensures NoDuplicates(Toggled(selected, id))
  {
    if id in selected {
      FilterNoDuplicates(selected, IsNot(id));
    }
  }

  /** Clicking only enabled Select buttons never takes the selection past the
      cap. */
  lemma ToggleWithinCap(selected: seq<string>, id: string, maxSelections: int)
    requires |selected| <= maxSelections
    requires !SelectDisabled(selected, id, maxSelections)
    ensures |Toggled(selected, id)| <= maxSelections
  {
  }

  // ---------------------------------------------------------------------------
  // Name of a new conversation's projects

  /** The first index whose key is `id` (`find`). */
  function FirstIndex<T>(s: seq<T>, key: T -> string, id: string): (r: Option<nat>)
    ensures r.Some? ==> r.value < |s| && key(s[r.value]) == id
    ensures r.Some? ==> forall j :: 0 <= j < r.value ==> key(s[j]) != id
    ensures r.None? ==> forall j :: 0 <= j < |s| ==> key(s[j]) != id
  {
    if s == [] then None
    else if key(s[0]) == id then Some(0)
    else match FirstIndex(s[1..], key, id)
      case None => None
      case Some(k) => Some(k + 1)
  }

  function ManagedKey(): ManagedProject -> string {
    (p: ManagedProject) => p.id
  }

  function ApiKey(): ApiProject -> string {
    (p: ApiProject) => p.id
  }

  /** `id.slice(0, 8)`. */
  function Prefix8(id: string): (r: string)
    ensures |id| <= 8 ==> r == id
    ensures |id| > 8 ==> |r| == 8 && id[..8] == r
  {
    if |id| <= 8 then id else id[..8]
  }

  /** The name a new conversation records for a project: the first saved
      project's name, else the first API project's name, else a shortened
      id. */
  function ResolveName(id: string, manual: seq<ManagedProject>, api: seq<ApiProject>): (r: string)
    ensures FirstIndex(manual, ManagedKey(), id).Some? ==> r == manual[FirstIndex(manual, ManagedKey(), id).value].name
    ensures FirstIndex(manual, ManagedKey(), id).None? && FirstIndex(api, ApiKey(), id).Some? ==>
      r == api[FirstIndex(api, ApiKey(), id).value].projectName
    ensures FirstIndex(manual, ManagedKey(), id).None? && FirstIndex(api, ApiKey(), id).None? ==>
      r == "Project " + Prefix8(id) + "..."
  {
    match FirstIndex(manual, ManagedKey(), id)
    case Some(i) => manual[i].name
    case None =>
      match FirstIndex(api, ApiKey(), id)
      case Some(j) => api[j].projectName
      case None => "Project " + Prefix8(id) + "..."
  }

  /** `selectedProjects.map(...)`: one name per selected id, in order. */
  function ResolveNames(selected: seq<string>, manual: seq<ManagedProject>, api: seq<ApiProject>): (r: seq<string>)
    ensures |r| == |selected|
    ensures forall i :: 0 <= i < |selected| ==> r[i] == ResolveName(selected[i], manual, api)
  {
    seq(|selected|, i requires 0 <= i < |selected| => ResolveName(selected[i], manual, api))
  }

  // ---------------------------------------------------------------------------
  // The `projectNames` map

  /** The last index whose key is `id`: the entry a run of assignments
      leaves in place. */
  function LastIndex<T>(s: seq<T>, key: T -> string, id: string): (r: Option<nat>)
    ensures r.Some? ==> r.value < |s| && key(s[r.value]) == id
    ensures r.Some? ==> forall j :: r.value < j < |s| ==> key(s[j]) != id
    ensures r.None? ==> forall j :: 0 <= j < |s| ==> key(s[j]) != id
  {
    if s == [] then None
    else if key(s[|s| - 1]) == id then Some(|s| - 1)
    else LastIndex(s[..|s| - 1], key, id)
  }

  /** `s.forEach(p => names[key(p)] = name(p))` starting from `m`: the keys of
      `m` and of `s`, each key of `s` holding the name of its last entry. */
  function Assigned<T>(m: map<string, string>, s: seq<T>, key: T -> string, name: T -> string): (r: map<string, string>)
    ensures forall k :: k in r <==> k in m || LastIndex(s, key, k).Some?
    ensures forall k :: k in r && LastIndex(s, key, k).Some? ==> r[k] == name(s[LastIndex(s, key, k).value])
    ensures forall k :: k in r && LastIndex(s, key, k).None? ==> r[k] == m[k]
  {
    if s == [] then m
    else
      var prev := Assigned(m, s[..|s| - 1], key, name);
      AssignedStep(m, s, key, name, prev);
      prev[key(s[|s| - 1]) := name(s[|s| - 1])]
  }

  /** One more assignment, given what the earlier ones left. */
  lemma AssignedStep<T>(m: map<string, string>, s: seq<T>, key: T -> string, name: T -> string, prev: map<string, string>)
    requires s != []
    requires forall k :: k in prev <==> k in m || LastIndex(s[..|s| - 1], key, k).Some?
    requires forall k :: k in prev && LastIndex(s[..|s| - 1], key, k).Some? ==> prev[k] == name(s[..|s| - 1][LastIndex(s[..|s| - 1], key, k).value])
    requires forall k :: k in prev && LastIndex(s[..|s| - 1], key, k).None? ==> prev[k] == m[k]
    ensures var r := prev[key(s[|s| - 1]) := name(s[|s| - 1])];
      && (forall k :: k in r <==> k in m || LastIndex(s, key, k).Some?)
      && (forall k :: k in r && LastIndex(s, key, k).Some? ==> r[k] == name(s[LastIndex(s, key, k).value]))
      && (forall k :: k in r && LastIndex(s, key, k).None? ==> r[k] == m[k])
  {
    var p := s[..|s| - 1];
    var x := s[|s| - 1];
    var r := prev[key(x) := name(x)];
    forall k
      ensures k in r <==> k in m || LastIndex(s, key, k).Some?
      ensures k in r && LastIndex(s, key, k).Some? ==> r[k] == name(s[LastIndex(s, key, k).value])
      ensures k in r && LastIndex(s, key, k).None? ==> r[k] == m[k]
    {
      if key(x) == k {
        assert LastIndex(s, key, k) == Some(|s| - 1);
      } else {
        assert LastIndex(s, key, k) == LastIndex(p, key, k);
        assert k in r <==> k in prev;
        if k in prev && LastIndex(p, key, k).Some? {
          assert p[LastIndex(p, key, k).value] == s[LastIndex(p, key, k).value];
        }
      }
    }
  }

  function ManagedName(): ManagedProject -> string {
    (p: ManagedProject) => p.name
  }

  function ApiName(): ApiProject -> string {
    (p: ApiProject) => p.projectName
  }

  /** The page's `projectNames`: saved names first, then API names over them. */
  function ProjectNames(manual: seq<ManagedProject>, api: seq<ApiProject>): (r: map<string, string>)
    ensures forall k :: k in r <==> LastIndex(manual, ManagedKey(), k).Some? || LastIndex(api, ApiKey(), k).Some?
    ensures forall k :: LastIndex(api, ApiKey(), k).Some? ==> k in r && r[k] == api[LastIndex(api, ApiKey(), k).value].projectName
    ensures forall k :: LastIndex(api, ApiKey(), k).None? && LastIndex(manual, ManagedKey(), k).Some? ==>
      k in r && r[k] == manual[LastIndex(manual, ManagedKey(), k).value].name
  {
    Assigned(Assigned(map[], manual, ManagedKey(), ManagedName()), api, ApiKey(), ApiName())
  }

  /** The two `forEach` loops that fill `projectNames`. */
  method BuildProjectNames(manual: seq<ManagedProject>, api: seq<ApiProject>) returns (names: map<string, string>)
    ensures names == ProjectNames(manual, api)
  {
    names := map[];
    for i := 0 to |manual|
      invariant names == Assigned(map[], manual[..i], ManagedKey(), ManagedName())
    {
      assert manual[..i + 1][..i] == manual[..i];
      names := names[manual[i].id := manual[i].name];
    }
    assert manual[..|manual|] == manual;
    ghost var base := names;
    for j := 0 to |api|
      invariant names == Assigned(base, api[..j], ApiKey(), ApiName())
    {
      assert api[..j + 1][..j] == api[..j];
      names := names[api[j].id := api[j].projectName];
    }
    assert api[..|api|] == api;
  }

  /** No two entries share an id. */
  predicate DistinctKeys<T>(s: seq<T>, key: T -> string) {
    forall i, j :: 0 <= i < j < |s| ==> key(s[i]) != key(s[j])
  }

  /** With distinct ids, the first entry with an id is the last one. */
  lemma FirstIsLast<T>(s: seq<T>, key: T -> string, id: string)
    requires DistinctKeys(s, key)
    ensures FirstIndex(s, key, id) == LastIndex(s, key, id)
  {
    var f := FirstIndex(s, key, id);
    var l := LastIndex(s, key, id);
    if f.Some? && l.Some? {
      assert !(f.value < l.value) && !(l.value < f.value);
    }
  }

  /** When a project is known to only one of the two lists, and ids are
      distinct in each, the map and the new conversation's name agree. */
  lemma NamesAgreeWhenUnambiguous(id: string, manual: seq<ManagedProject>, api: seq<ApiProject>)
    requires DistinctKeys(manual, ManagedKey()) && DistinctKeys(api, ApiKey())
    requires FirstIndex(manual, ManagedKey(), id).None? || FirstIndex(api, ApiKey(), id).None?
    requires FirstIndex(manual, ManagedKey(), id).Some? || FirstIndex(api, ApiKey(), id).Some?
    ensures id in ProjectNames(manual, api) && ProjectNames(manual, api)[id] == ResolveName(id, manual, api)
  {
    FirstIsLast(manual, ManagedKey(), id);
    FirstIsLast(api, ApiKey(), id);
  }

  /** A project in both lists is titled by its saved name in a new
      conversation but labelled by its API name in replies. */
  lemma NamesDifferWhenBothKnown()
    ensures var manual := [ManagedProject("p", "Saved name", "")];
      var api := [ApiProject("p", "API name", None)];
      && ResolveName("p", manual, api) == "Saved name"
      && ProjectNames(manual, api)["p"] == "API name"
  {
    var manual := [ManagedProject("p", "Saved name", "")];
    var api := [ApiProject("p", "API name", None)];
    assert FirstIndex(manual, ManagedKey(), "p") == Some(0);
    assert LastIndex(api, ApiKey(), "p") == Some(0);
  }

  // ---------------------------------------------------------------------------
  // Conversation tabs

  /** The close control is drawn on each tab only while more than one
      conversation exists. */
  predicate ShowsCloseControl(conversationList: seq<ChatConversation>) {
    |conversationList| > 1
  }

  /** Closing through that control never leaves the page without a
      conversation. */
  lemma CloseLeavesOne(cs: seq<ChatConversation>, id: string)
    requires ChatHistory.UniqueIds(cs) && ShowsCloseControl(NewestFirst(cs))
    ensures |RemoveId(cs, id)| >= 1
  {
    RemoveIdFacts(cs, id);
    assert |NewestFirst(cs)| == |multiset(NewestFirst(cs))| == |multiset(cs)| == |cs|;
  }

  // ---------------------------------------------------------------------------
  // The page

  class ChatPage {
    var selectedProjects: seq<string>
    /** The chat history hook's state. */
    var history: ChatHistoryStore

    constructor(history0: ChatHistoryStore)
      ensures selectedProjects == [] && history == history0
    {
      selectedProjects := [];
      history := history0;
    }

    /** `handleProjectToggle`. */
    method HandleProjectToggle(projectId: string)
      modifies this
      ensures selectedProjects == Toggled(old(selectedProjects), projectId)
      ensures history == old(history)
    {
      selectedProjects := Toggled(selectedProjects, projectId);
    }

    /** `handleCreateNewConversation`: nothing without a selection; else a
        conversation over the selected ids and their resolved names.
        `conversationId`, `now` and `dateText` stand for the fresh uuid, the
        clock and its date text. */
    method HandleCreateNewConversation(manual: seq<ManagedProject>, api: seq<ApiProject>, conversationId: string, now: int, dateText: string)
      requires history.Valid() && !ChatHistory.HasId(history.conversations, conversationId)
      modifies history
      ensures history.Valid()
      ensures selectedProjects == [] ==> history.conversations == old(history.conversations)
      ensures selectedProjects == [] ==> history.activeConversationId == old(history.activeConversationId)
      ensures selectedProjects != [] ==> history.activeConversationId == Some(conversationId)
      ensures selectedProjects != [] ==> history.conversations == Enforced(old(history.conversations) +
        [NewConversation(conversationId, selectedProjects, ResolveNames(selectedProjects, manual, api), now, dateText)],
        history.maxConversations)
    {
      if selectedProjects == [] {
        return;
      }
      var names := ResolveNames(selectedProjects, manual, api);
      var _ := history.CreateConversation(selectedProjects, names, conversationId, now, dateText);
    }

    /** The conversation tabs, newest first. */
    function ConversationList(): (r: seq<ChatConversation>)
      reads this, history
      ensures multiset(r) == multiset(history.conversations)
      ensures forall i, j :: 0 <= i < j < |r| ==> r[i].updatedAt >= r[j].updatedAt
    {
      NewestFirst(history.conversations)
    }

    /** `handleCloseConversation`. */
    method HandleCloseConversation(conversationId: string)
      requires history.Valid()
      modifies history
      ensures history.Valid()
      ensures history.conversations == RemoveId(old(history.conversations), conversationId)
      ensures old(ShowsCloseControl(ConversationList())) ==> |history.conversations| >= 1
    {
      if ShowsCloseControl(ConversationList()) {
        CloseLeavesOne(history.conversations, conversationId);
      }
      history.DeleteConversation(conversationId);
    }

    /** The selector's Remove button: the saved project goes and, when it
        was selected, the toggle callback deselects it. */
    method RemoveManualProject(selector: ProjectSelector, projectId: string)
      modifies selector.manual, this
      ensures selector.manual.projects == Removed(old(selector.manual.projects), projectId)
      ensures projectId !in selectedProjects
      ensures forall x :: x != projectId ==> (x in selectedProjects <==> x in old(selectedProjects))
      ensures history == old(history)
    {
      var deselect := selector.HandleRemoveManualProject(projectId, selectedProjects);
      if deselect {
        HandleProjectToggle(projectId);
      }
    }
  }
}
