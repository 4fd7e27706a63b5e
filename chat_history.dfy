/** The chat history store (lib/useChatHistory.ts). The conversation record
    is a list in key-insertion order, which is the order `Object.keys` and
    `Object.values` report for the generated ids; ids are unique in it. */
module ChatHistory {
  import opened Wrappers
  import opened Text
  import opened Seqs
  import opened Types

  const DefaultMaxConversations := 50
  const DefaultMaxMessages := 500
  const NoActiveConversation := "No active conversation to add message to"

  // ---------------------------------------------------------------------------
  // The conversation record as a list with unique ids

  predicate UniqueIds(cs: seq<ChatConversation>) {
    forall i, j :: 0 <= i < j < |cs| ==> cs[i].id != cs[j].id
  }

  /** Some conversation has id `id`. */
  predicate HasId(cs: seq<ChatConversation>, id: string) {
    exists i :: 0 <= i < |cs| && cs[i].id == id
  }

  /** The ids, in order. */
  function Ids(cs: seq<ChatConversation>): (r: seq<string>)
    ensures |r| == |cs|
    ensures forall i :: 0 <= i < |cs| ==> r[i] == cs[i].id
  {
    KeysBy(cs, (c: ChatConversation) => c.id)
  }

  /** `conversations[id]`. */
  function Lookup(cs: seq<ChatConversation>, id: string): (r: Option<ChatConversation>)
    ensures r.Some? ==> r.value in cs && r.value.id == id
    ensures r.None? <==> !HasId(cs, id)
  {
    if cs == [] then None
    else if cs[0].id == id then Some(cs[0])
    else
      assert forall i :: 1 <= i < |cs| ==> cs[i] == cs[1..][i - 1];
      Lookup(cs[1..], id)
  }

  /** The position of the conversation with id `id`. */
  function IndexOf(cs: seq<ChatConversation>, id: string): (k: nat)
    requires HasId(cs, id)
    ensures k < |cs| && cs[k].id == id
    ensures forall j :: 0 <= j < k ==> cs[j].id != id
  {
    if cs[0].id == id then 0
    else
      assert HasId(cs[1..], id) by {
        var i :| 0 <= i < |cs| && cs[i].id == id;
        assert cs[1..][i - 1] == cs[i];
      }
      1 + IndexOf(cs[1..], id)
  }

  /** With unique ids, the lookup finds the conversation at that id's position. */
  lemma LookupUnique(cs: seq<ChatConversation>, k: nat)
    requires UniqueIds(cs) && k < |cs|
    ensures Lookup(cs, cs[k].id) == Some(cs[k])
    ensures IndexOf(cs, cs[k].id) == k
  {
    var r := Lookup(cs, cs[k].id);
    var j :| 0 <= j < |cs| && cs[j] == r.value;
    var m := IndexOf(cs, cs[k].id);
    assert !(m < k) && !(k < m);
    assert !(j < k) && !(k < j);
  }

  function IdIsNot(id: string): ChatConversation -> bool {
    (c: ChatConversation) => c.id != id
  }

  /** `delete conversations[id]`. */
  function RemoveId(cs: seq<ChatConversation>, id: string): seq<ChatConversation> {
    Filter(cs, IdIsNot(id))
  }

  /** Deleting a key keeps ids unique, removes exactly the entries with that
      id, and shortens the list by one when the id was present. */
  lemma RemoveIdFacts(cs: seq<ChatConversation>, id: string)
    requires UniqueIds(cs)
    ensures UniqueIds(RemoveId(cs, id))
    ensures forall x :: x in RemoveId(cs, id) <==> x in cs && x.id != id
    ensures |RemoveId(cs, id)| == if HasId(cs, id) then |cs| - 1 else |cs|
  {
    RemoveIdUnique(cs, id);
    RemoveIdLength(cs, id);
    var r := RemoveId(cs, id);
    forall x ensures x in r <==> x in cs && x.id != id {
      if x in r {
        var i :| 0 <= i < |r| && r[i] == x;
      }
      if x in cs && x.id != id {
        var i :| 0 <= i < |cs| && cs[i] == x;
      }
    }
  }

  /** The tail of a record with unique ids has unique ids. */
  lemma TailUniqueIds(cs: seq<ChatConversation>)
    requires cs != [] && UniqueIds(cs)
    ensures UniqueIds(cs[1..])
    ensures forall i :: 0 <= i < |cs| - 1 ==> cs[1..][i].id != cs[0].id
  {
    var tail := cs[1..];
    forall i, j | 0 <= i < j < |tail| ensures tail[i].id != tail[j].id {
      assert tail[i] == cs[i + 1] && tail[j] == cs[j + 1];
    }
    forall i | 0 <= i < |tail| ensures tail[i].id != cs[0].id {
      assert tail[i] == cs[i + 1];
    }
  }

  lemma {:induction false} RemoveIdUnique(cs: seq<ChatConversation>, id: string)
    requires UniqueIds(cs)
    ensures UniqueIds(RemoveId(cs, id))
  {
    if cs != [] {
      var tail := cs[1..];
      TailUniqueIds(cs);
      RemoveIdUnique(tail, id);
      if cs[0].id != id {
        var rt := RemoveId(tail, id);
        var r := RemoveId(cs, id);
        assert r == [cs[0]] + rt;
        HeadIdNotInTail(cs);
        forall i, j | 0 <= i < j < |r| ensures r[i].id != r[j].id {
          assert r[j] == rt[j - 1] && rt[j - 1] in tail;
          if i > 0 {
            assert r[i] == rt[i - 1];
          }
        }
      }
    }
  }

  /** No later conversation shares the first one's id. */
  lemma HeadIdNotInTail(cs: seq<ChatConversation>)
    requires UniqueIds(cs) && cs != []
    ensures forall x :: x in cs[1..] ==> x.id != cs[0].id
  {
    forall x | x in cs[1..] ensures x.id != cs[0].id {
      var k :| 0 <= k < |cs[1..]| && cs[1..][k] == x;
      assert cs[k + 1] == x;
    }
  }

  lemma {:induction false} RemoveIdLength(cs: seq<ChatConversation>, id: string)
    requires UniqueIds(cs)
    ensures |RemoveId(cs, id)| == if HasId(cs, id) then |cs| - 1 else |cs|
  {
    if cs != [] {
      var tail := cs[1..];
      TailUniqueIds(cs);
      RemoveIdLength(tail, id);
      assert HasId(cs, id) <==> cs[0].id == id || HasId(tail, id) by {
        if HasId(cs, id) && cs[0].id != id {
          var i :| 0 <= i < |cs| && cs[i].id == id;
          assert tail[i - 1] == cs[i];
        }
        if HasId(tail, id) {
          var i :| 0 <= i < |tail| && tail[i].id == id;
          assert cs[i + 1] == tail[i];
        }
      }
    }
  }

  /** The record after deleting each id of `ids` in turn. */
  function RemoveAll(cs: seq<ChatConversation>, ids: seq<string>): seq<ChatConversation> {
    if ids == [] then cs else RemoveId(RemoveAll(cs, ids[..|ids| - 1]), ids[|ids| - 1])
  }

  /** Deleting several present, distinct ids removes exactly those entries:
      one per id. */
  lemma {:induction false} RemoveAllFacts(cs: seq<ChatConversation>, ids: seq<string>)
    requires UniqueIds(cs) && NoDuplicates(ids)
    requires forall k :: 0 <= k < |ids| ==> HasId(cs, ids[k])
    ensures UniqueIds(RemoveAll(cs, ids))
    ensures forall x :: x in RemoveAll(cs, ids) <==> x in cs && x.id !in ids
    ensures |RemoveAll(cs, ids)| == |cs| - |ids|
  {
    if ids != [] {
      var init := ids[..|ids| - 1];
      var last := ids[|ids| - 1];
      RemoveAllFacts(cs, init);
      var before := RemoveAll(cs, init);
      RemoveIdFacts(before, last);
      assert HasId(before, last) by {
        var i :| 0 <= i < |cs| && cs[i].id == last;
        assert cs[i] in before;
        var j :| 0 <= j < |before| && before[j] == cs[i];
      }
      assert forall s :: s in ids <==> s in init || s == last;
    }
  }

  // ---------------------------------------------------------------------------
  // Eviction of the least recently updated conversations

  /** The order the eviction sort puts conversations in: oldest update first. */
  function UpdatedNoLater(): (ChatConversation, ChatConversation) -> bool {
    (a: ChatConversation, b: ChatConversation) => a.updatedAt <= b.updatedAt
  }

  /** `(a, b) => b.updatedAt - a.updatedAt`: newest first. */
  function UpdatedNoEarlier(): (ChatConversation, ChatConversation) -> bool {
    (a: ChatConversation, b: ChatConversation) => a.updatedAt >= b.updatedAt
  }

  lemma UpdatedOrders()
    ensures TotalPreorder(UpdatedNoLater())
    ensures TotalPreorder(UpdatedNoEarlier())
  {
  }

  /** The conversations the limit removes: the `|cs| - max` oldest ones. */
  function Evicted(cs: seq<ChatConversation>, max: nat): (r: seq<ChatConversation>)
    requires |cs| > max
    ensures |r| == |cs| - max
  {
    UpdatedOrders();
    SortBy(cs, UpdatedNoLater())[..|cs| - max]
  }

  /** The record once the conversation limit is enforced (0 means no limit). */
  function Enforced(cs: seq<ChatConversation>, max: nat): seq<ChatConversation> {
    if max > 0 && |cs| > max then RemoveAll(cs, Ids(Evicted(cs, max))) else cs
  }

  /** A reordering of a record with unique ids holds the same entries, with
      unique ids. */
  lemma PermutationUniqueIds(cs: seq<ChatConversation>, ps: seq<ChatConversation>)
    requires multiset(cs) == multiset(ps) && UniqueIds(cs)
    ensures UniqueIds(ps)
    ensures forall x :: x in ps <==> x in cs
  {
    assert NoDuplicates(cs);
    PermutationSameElements(cs, ps);
    forall a, b | 0 <= a < b < |ps| ensures ps[a].id != ps[b].id {
      assert ps[a] in ps && ps[b] in ps;
      var p :| 0 <= p < |cs| && cs[p] == ps[a];
      var q :| 0 <= q < |cs| && cs[q] == ps[b];
      assert p != q;
    }
  }

  /** The eviction order holds the record's entries, with unique ids; the
      evicted ids are its first ids, distinct and all present. */
  lemma EvictedIds(cs: seq<ChatConversation>, max: nat)
    requires UniqueIds(cs) && |cs| > max
    ensures var sorted := SortBy(cs, UpdatedNoLater());
      && UniqueIds(sorted) && (forall x :: x in sorted <==> x in cs)
      && (forall t :: 0 <= t < |cs| - max ==> Ids(Evicted(cs, max))[t] == sorted[t].id)
    ensures NoDuplicates(Ids(Evicted(cs, max)))
    ensures forall k :: 0 <= k < |cs| - max ==> HasId(cs, Ids(Evicted(cs, max))[k])
  {
    UpdatedOrders();
    var sorted := SortBy(cs, UpdatedNoLater());
    var ev := Evicted(cs, max);
    var ids := Ids(ev);
    PermutationUniqueIds(cs, sorted);
    assert ev == sorted[..|cs| - max];
    forall t | 0 <= t < |ev| ensures ids[t] == sorted[t].id {
      assert ev[t] == sorted[t];
    }
    forall a, b | 0 <= a < b < |ids| ensures ids[a] != ids[b] {
      assert ids[a] == sorted[a].id && ids[b] == sorted[b].id;
    }
    forall k | 0 <= k < |ids| ensures HasId(cs, ids[k]) {
      assert sorted[k] in sorted;
      var p :| 0 <= p < |cs| && cs[p] == sorted[k];
      assert cs[p].id == ids[k];
    }
  }

  /** Enforcing the limit leaves at most `max` conversations (when there is
      a limit), with unique ids, all from the record. */
  lemma EnforcedBound(cs: seq<ChatConversation>, max: nat)
    requires UniqueIds(cs)
    ensures UniqueIds(Enforced(cs, max))
    ensures max > 0 ==> |Enforced(cs, max)| <= max
    ensures |Enforced(cs, max)| <= |cs|
    ensures forall x :: x in Enforced(cs, max) <==> x in cs && (max > 0 && |cs| > max ==> x.id !in Ids(Evicted(cs, max)))
  {
    if max > 0 && |cs| > max {
      EvictedIds(cs, max);
      RemoveAllFacts(cs, Ids(Evicted(cs, max)));
    }
  }

  /** Every conversation the limit removes was updated no later than every
      conversation it keeps. */
  lemma EnforcedKeepsNewest(cs: seq<ChatConversation>, max: nat)
    requires UniqueIds(cs)
    ensures forall x, y :: x in cs && x !in Enforced(cs, max) && y in Enforced(cs, max) ==> x.updatedAt <= y.updatedAt
  {
    EnforcedBound(cs, max);
    forall x, y | x in cs && x !in Enforced(cs, max) && y in Enforced(cs, max) ensures x.updatedAt <= y.updatedAt {
      EvictedBeforeKept(cs, max, x, y);
    }
  }

  lemma EvictedBeforeKept(cs: seq<ChatConversation>, max: nat, x: ChatConversation, y: ChatConversation)
    requires UniqueIds(cs) && max > 0 && |cs| > max
    requires x in cs && x.id in Ids(Evicted(cs, max))
    requires y in cs && y.id !in Ids(Evicted(cs, max))
    ensures x.updatedAt <= y.updatedAt
  {
    UpdatedOrders();
    var sorted := SortBy(cs, UpdatedNoLater());
    var ids := Ids(Evicted(cs, max));
    EvictedIds(cs, max);
    assert x in sorted && y in sorted;
    var i :| 0 <= i < |sorted| && sorted[i] == x;
    var j :| 0 <= j < |sorted| && sorted[j] == y;
    var k :| 0 <= k < |ids| && ids[k] == x.id;
    assert sorted[k].id == sorted[i].id;
    assert i == k;
    assert sorted[j].id == y.id;
    assert j >= |ids|;
    assert i < j;
    assert SortedBy(sorted, UpdatedNoLater());
    assert UpdatedNoLater()(sorted[i], sorted[j]);
  }

  // ---------------------------------------------------------------------------
  // Messages

  /** A `Partial<ChatMessage>`: the fields an update sets. */
  datatype MessageUpdate = MessageUpdate(
    id: Option<string>,
    mtype: Option<MessageType>,
    content: Option<string>,
    timestamp: Option<int>,
    sources: Option<seq<Source>>,
    metadata: Option<Option<MessageMetadata>>)

  /** `{ ...message, ...updates }`. */
  function MergeMessage(m: ChatMessage, u: MessageUpdate): (r: ChatMessage)
    ensures u.id.Some? ==> r.id == u.id.value
    ensures u.id.None? ==> r.id == m.id
    ensures u.mtype.Some? ==> r.mtype == u.mtype.value
    ensures u.mtype.None? ==> r.mtype == m.mtype
    ensures u.content.Some? ==> r.content == u.content.value
    ensures u.content.None? ==> r.content == m.content
    ensures u.timestamp.Some? ==> r.timestamp == u.timestamp.value
    ensures u.timestamp.None? ==> r.timestamp == m.timestamp
    ensures u.sources.Some? ==> r.sources == u.sources.value
    ensures u.sources.None? ==> r.sources == m.sources
    ensures u.metadata.Some? ==> r.metadata == u.metadata.value
    ensures u.metadata.None? ==> r.metadata == m.metadata
    ensures u == MessageUpdate(None, None, None, None, None, None) ==> r == m
  {
    ChatMessage(u.id.GetOr(m.id), u.mtype.GetOr(m.mtype), u.content.GetOr(m.content),
      u.timestamp.GetOr(m.timestamp), u.sources.GetOr(m.sources), u.metadata.GetOr(m.metadata))
  }

  /** The messages kept under a cap of `max` (0: no cap): the newest ones. */
  function Capped(msgs: seq<ChatMessage>, max: nat): (r: seq<ChatMessage>)
    ensures max > 0 ==> |r| <= max
    ensures max == 0 || |msgs| <= max ==> r == msgs
    ensures max > 0 && |msgs| > max ==> |r| == max
    ensures r == msgs[|msgs| - |r|..]
  {
    if max > 0 && |msgs| > max then msgs[|msgs| - max..] else msgs
  }

  /** A message just appended survives the cap, as the last message. */
  lemma AppendedIsLast(msgs: seq<ChatMessage>, m: ChatMessage, max: nat)
    ensures var r := Capped(msgs + [m], max);
      r != [] && r[|r| - 1] == m
  {
    var r := Capped(msgs + [m], max);
    var all := msgs + [m];
    assert r == all[|all| - |r|..];
    assert max == 0 || |all| <= max ==> r == all;
  }

  /** `messages.findIndex(m => m.id === id)`, with -1 as `None`. */
  function FindMessage(msgs: seq<ChatMessage>, id: string): (r: Option<nat>)
    ensures r.Some? ==> r.value < |msgs| && msgs[r.value].id == id
    ensures r.Some? ==> forall j :: 0 <= j < r.value ==> msgs[j].id != id
    ensures r.None? ==> forall j :: 0 <= j < |msgs| ==> msgs[j].id != id
  {
    if msgs == [] then None
    else if msgs[0].id == id then Some(0)
    else
      match FindMessage(msgs[1..], id)
      case None => None
      case Some(k) => Some(k + 1)
  }

  /** Sum of the message counts. */
  function MessageTotal(cs: seq<ChatConversation>): nat {
    if cs == [] then 0 else |cs[0].messages| + MessageTotal(cs[1..])
  }

  /** Adding a conversation at the end adds its message count. */
  lemma {:induction false} MessageTotalSnoc(cs: seq<ChatConversation>, c: ChatConversation)
    ensures MessageTotal(cs + [c]) == MessageTotal(cs) + |c.messages|
  {
    if cs != [] {
      assert (cs + [c])[1..] == cs[1..] + [c];
      MessageTotalSnoc(cs[1..], c);
    } else {
      assert (cs + [c])[1..] == [];
    }
  }

  /** Every conversation holds at most `cap` messages. */
  predicate WithinCap(cs: seq<ChatConversation>, cap: nat) {
    forall i :: 0 <= i < |cs| ==> |cs[i].messages| <= cap
  }

  /** Under a cap, the total is at most the cap times the number of conversations. */
  lemma {:induction false} MessageTotalAtMost(cs: seq<ChatConversation>, cap: nat)
    requires WithinCap(cs, cap)
    ensures MessageTotal(cs) <= |cs| * cap
  {
    if cs != [] {
      assert WithinCap(cs[1..], cap) by {
        forall i | 0 <= i < |cs| - 1 ensures |cs[1..][i].messages| <= cap {
          assert cs[1..][i] == cs[i + 1];
        }
      }
      MessageTotalAtMost(cs[1..], cap);
    }
  }

  /** Replacing one conversation changes the total by the change in its count. */
  lemma {:induction false} MessageTotalReplace(cs: seq<ChatConversation>, k: nat, c: ChatConversation)
    requires k < |cs|
    ensures MessageTotal(cs[k := c]) == MessageTotal(cs) - |cs[k].messages| + |c.messages|
  {
    if k > 0 {
      assert cs[k := c][1..] == cs[1..][k - 1 := c];
      MessageTotalReplace(cs[1..], k - 1, c);
    }
  }

  /** The conversation a new record entry starts as. */
  function NewConversation(id: string, projectIds: seq<string>, projectNames: seq<string>, now: int, dateText: string): (c: ChatConversation)
    ensures c.id == id && c.messages == [] && c.createdAt == now && c.updatedAt == now
    ensures StartsWith(c.title, Join(projectNames, ", ") + " - ")
  {
    var title := Join(projectNames, ", ") + " - " + dateText;
    assert title[..|Join(projectNames, ", ") + " - "|] == Join(projectNames, ", ") + " - ";
    ChatConversation(id, projectIds, projectNames, [], now, now, title)
  }

  /** `Object.keys(conversations)[0] || null`. */
  function FirstKeyOrNull(cs: seq<ChatConversation>): (r: Option<string>)
    ensures r.Some? ==> cs != [] && r.value == cs[0].id && r.value != ""
    ensures r.None? ==> cs == [] || cs[0].id == ""
  {
    if cs == [] || cs[0].id == "" then None else Some(cs[0].id)
  }

  /** `record[c.id] = c`: replaces the entry in place, or adds a key at the end. */
  function Put(cs: seq<ChatConversation>, c: ChatConversation): (r: seq<ChatConversation>)
    requires UniqueIds(cs)
    ensures UniqueIds(r)
    ensures HasId(cs, c.id) ==> Ids(r) == Ids(cs)
    ensures !HasId(cs, c.id) ==> Ids(r) == Ids(cs) + [c.id]
  {
    if HasId(cs, c.id) then
      var k := IndexOf(cs, c.id);
      var r := cs[k := c];
      assert forall i :: 0 <= i < |r| ==> r[i].id == cs[i].id;
      assert Ids(r) == Ids(cs);
      r
    else
      var r := cs + [c];
      AppendFreshUnique(cs, c);
      assert Ids(r) == Ids(cs) + [c.id];
      r
  }

  /** Reading a key after `Put`: the new entry for its id, the old ones otherwise. */
  lemma PutLookup(cs: seq<ChatConversation>, c: ChatConversation, id: string)
    requires UniqueIds(cs)
    ensures Lookup(Put(cs, c), id) == if id == c.id then Some(c) else Lookup(cs, id)
  {
    var r := Put(cs, c);
    assert forall i :: 0 <= i < |cs| ==> r[i].id == cs[i].id;
    assert forall i :: 0 <= i < |cs| && cs[i].id != c.id ==> r[i] == cs[i];
    if id == c.id {
      var j: nat := if HasId(cs, c.id) then IndexOf(cs, c.id) else |cs|;
      assert r[j] == c;
      LookupUnique(r, j);
    } else if HasId(cs, id) {
      var j := IndexOf(cs, id);
      LookupUnique(cs, j);
      assert r[j] == cs[j];
      LookupUnique(r, j);
    } else {
      assert !HasId(r, id) by {
        forall i | 0 <= i < |r| ensures r[i].id != id {
          if i < |cs| {
            assert r[i].id == cs[i].id;
          } else {
            assert r[i] == c;
          }
        }
      }
    }
  }

  /** The record `importConversations` builds: one `Put` per conversation, in order. */
  function Imported(cs: seq<ChatConversation>): (r: seq<ChatConversation>)
    ensures UniqueIds(r)
  {
    if cs == [] then [] else Put(Imported(cs[..|cs| - 1]), cs[|cs| - 1])
  }

  /** The last conversation in `cs` with id `id`: the reference for what an
      import keeps. */
  function LastWithId(cs: seq<ChatConversation>, id: string): (r: Option<ChatConversation>)
    ensures r.Some? ==> r.value in cs && r.value.id == id
    ensures r.None? <==> !HasId(cs, id)
  {
    if cs == [] then None
    else if cs[|cs| - 1].id == id then Some(cs[|cs| - 1])
    else
      assert forall i :: 0 <= i < |cs| - 1 ==> cs[..|cs| - 1][i] == cs[i];
      LastWithId(cs[..|cs| - 1], id)
  }

  /** Importing keeps, for each id, the last conversation carrying it. */
  lemma {:induction false} ImportLastWins(cs: seq<ChatConversation>, id: string)
    ensures Lookup(Imported(cs), id) == LastWithId(cs, id)
  {
    if cs != [] {
      ImportLastWins(cs[..|cs| - 1], id);
      PutLookup(Imported(cs[..|cs| - 1]), cs[|cs| - 1], id);
    }
  }

  /** Conversations that include `projectId`. */
  function InProject(projectId: string): ChatConversation -> bool {
    (c: ChatConversation) => projectId in c.projectIds
  }

  /** `Object.values(conversations)` newest first. */
  function NewestFirst(cs: seq<ChatConversation>): (r: seq<ChatConversation>)
    ensures multiset(r) == multiset(cs)
    ensures forall i, j :: 0 <= i < j < |r| ==> r[i].updatedAt >= r[j].updatedAt
  {
    UpdatedOrders();
    var r := SortBy(cs, UpdatedNoEarlier());
    assert forall i, j :: 0 <= i < j < |r| ==> UpdatedNoEarlier()(r[i], r[j]);
    r
  }

  /** A conversation with a new id keeps the ids unique. */
  lemma AppendFreshUnique(cs: seq<ChatConversation>, c: ChatConversation)
    requires UniqueIds(cs) && !HasId(cs, c.id)
    ensures UniqueIds(cs + [c])
  {
    var r := cs + [c];
    forall i, j | 0 <= i < j < |r| ensures r[i].id != r[j].id {
      assert r[i] == cs[i];
      if j < |cs| {
        assert r[j] == cs[j];
      }
    }
  }

  /** The eviction loop of `createConversation`: the oldest conversations'
      ids are deleted one by one. */
  method EvictOldest(cs: seq<ChatConversation>, max: nat) returns (kept: seq<ChatConversation>)
    requires max > 0 && |cs| > max
    ensures kept == Enforced(cs, max)
  {
    var toRemove := Evicted(cs, max);
    var ids := Ids(toRemove);
    kept := cs;
    var j := 0;
    while j < |toRemove|
      invariant 0 <= j <= |toRemove|
      invariant kept == RemoveAll(cs, ids[..j])
    {
      assert ids[..j + 1][..j] == ids[..j];
      kept := RemoveId(kept, toRemove[j].id);
      j := j + 1;
    }
    assert ids[..j] == ids;
  }

  class ChatHistoryStore {
    var conversations: seq<ChatConversation>
    var activeConversationId: Option<string>
    var isLoading: bool
    var error: Option<string>
    const maxConversations: nat
    const maxMessagesPerConversation: nat

    /** Conversation ids are unique, as record keys are. */
    predicate Valid()
      reads this
    {
      UniqueIds(conversations)
    }

    /** The options default to 50 conversations and 500 messages each; 0
        switches a limit off. */
    constructor(maxConversationsOption: Option<nat>, maxMessagesOption: Option<nat>)
      ensures Valid()
      ensures conversations == [] && activeConversationId == None && !isLoading && error == None
      ensures maxConversations == maxConversationsOption.GetOr(DefaultMaxConversations)
      ensures maxMessagesPerConversation == maxMessagesOption.GetOr(DefaultMaxMessages)
    {
      conversations := [];
      activeConversationId := None;
      isLoading := false;
      error := None;
      maxConversations := maxConversationsOption.GetOr(DefaultMaxConversations);
      maxMessagesPerConversation := maxMessagesOption.GetOr(DefaultMaxMessages);
    }

    /** The active id when it is set and non-empty: the source tests it for
        truthiness. */
    function ActiveId(): (r: Option<string>)
      reads this
      ensures r.Some? ==> activeConversationId == r && r.value != ""
      ensures r.None? ==> activeConversationId.None? || activeConversationId.value == ""
    {
      if activeConversationId.Some? && activeConversationId.value != "" then activeConversationId else None
    }

    /** `activeConversation`. */
    function ActiveConversation(): (r: Option<ChatConversation>)
      reads this
      ensures r.Some? ==> ActiveId().Some? && r.value in conversations && r.value.id == ActiveId().value
      ensures r.None? <==> ActiveId().None? || !HasId(conversations, ActiveId().value)
    {
      if ActiveId().None? then None else Lookup(conversations, ActiveId().value)
    }

    /** `createConversation`; `conversationId` is the fresh uuid, `now` the
        clock and `dateText` its `toLocaleDateString()`. */
    method CreateConversation(projectIds: seq<string>, projectNames: seq<string>, conversationId: string, now: int, dateText: string)
      returns (id: string)
      requires Valid() && !HasId(conversations, conversationId)
      modifies this
      ensures Valid()
      ensures id == conversationId
      ensures conversations == Enforced(old(conversations) + [NewConversation(id, projectIds, projectNames, now, dateText)], maxConversations)
      ensures maxConversations > 0 ==> |conversations| <= maxConversations
      ensures activeConversationId == Some(id) && error == None && isLoading == old(isLoading)
    {
      id := conversationId;
      var newConversation := NewConversation(id, projectIds, projectNames, now, dateText);
      var cs := conversations + [newConversation];
      AppendFreshUnique(conversations, newConversation);
      EnforcedBound(cs, maxConversations);
      if maxConversations > 0 && |cs| > maxConversations {
        cs := EvictOldest(cs, maxConversations);
      }
      conversations := cs;
      activeConversationId := Some(id);
      error := None;
    }

    /** `switchConversation`. */
    method SwitchConversation(conversationId: string)
      modifies this
      ensures !HasId(old(conversations), conversationId) ==> unchanged(this)
      ensures HasId(old(conversations), conversationId) ==>
        activeConversationId == Some(conversationId) && error == None
        && conversations == old(conversations) && isLoading == old(isLoading)
    {
      if Lookup(conversations, conversationId).None? {
        return;
      }
      activeConversationId := Some(conversationId);
      error := None;
    }

    /** `deleteConversation`. */
    method DeleteConversation(conversationId: string)
      requires Valid()
      modifies this
      ensures Valid()
      ensures conversations == RemoveId(old(conversations), conversationId)
      ensures !HasId(conversations, conversationId)
      ensures forall x :: x in conversations <==> x in old(conversations) && x.id != conversationId
      ensures old(activeConversationId) == Some(conversationId) ==> activeConversationId == FirstKeyOrNull(conversations)
      ensures old(activeConversationId) != Some(conversationId) ==> activeConversationId == old(activeConversationId)
      ensures isLoading == old(isLoading) && error == old(error)
    {
      var cs := RemoveId(conversations, conversationId);
      RemoveIdFacts(conversations, conversationId);
      var activeId := if activeConversationId == Some(conversationId) then FirstKeyOrNull(cs) else activeConversationId;
      conversations := cs;
      activeConversationId := activeId;
    }

    /** `addMessage`; `messageId` is the fresh uuid and `now` the clock. The
        error it throws without an active conversation is `Err`. */
    method AddMessage(content: string, mtype: MessageType, metadata: Option<MessageMetadata>, messageId: string, now: int)
      returns (r: Result<string, string>)
      requires Valid()
      modifies this
      ensures Valid()
      ensures old(ActiveId()).None? ==> r == Err(NoActiveConversation) && unchanged(this)
      ensures old(ActiveId()).Some? ==> r == Ok(messageId)
      ensures old(ActiveConversation()).None? ==> unchanged(this)
      ensures old(ActiveConversation()).Some? ==>
        var k := IndexOf(old(conversations), old(ActiveId()).value);
        var c := old(conversations)[k];
        var m := ChatMessage(messageId, mtype, content, now, [], metadata);
        && conversations == old(conversations)[k := c.(messages := Capped(c.messages + [m], maxMessagesPerConversation), updatedAt := now)]
        && activeConversationId == old(activeConversationId) && isLoading == old(isLoading) && error == old(error)
      ensures maxMessagesPerConversation > 0 && old(WithinCap(conversations, maxMessagesPerConversation)) ==>
        WithinCap(conversations, maxMessagesPerConversation)
    {
      if ActiveId().None? {
        return Err(NoActiveConversation);
      }
      var newMessage := ChatMessage(messageId, mtype, content, now, [], metadata);
      r := Ok(messageId);
      var activeConv := Lookup(conversations, ActiveId().value);
      if activeConv.None? {
        return;
      }
      var k := IndexOf(conversations, ActiveId().value);
      LookupUnique(conversations, k);
      var c := conversations[k];
      var updatedMessages := c.messages + [newMessage];
      if maxMessagesPerConversation > 0 && |updatedMessages| > maxMessagesPerConversation {
        updatedMessages := updatedMessages[|updatedMessages| - maxMessagesPerConversation..];
      }
      conversations := conversations[k := c.(messages := updatedMessages, updatedAt := now)];
    }

    /** `updateMessage`; `now` is the clock. */
    method UpdateMessage(messageId: string, updates: MessageUpdate, now: int)
      requires Valid()
      modifies this
      ensures Valid()
      ensures old(ActiveConversation()).None? ==> unchanged(this)
      ensures old(ActiveConversation()).Some? && FindMessage(old(ActiveConversation()).value.messages, messageId).None? ==> unchanged(this)
      ensures old(ActiveConversation()).Some? && FindMessage(old(ActiveConversation()).value.messages, messageId).Some? ==>
        var k := IndexOf(old(conversations), old(ActiveId()).value);
        var c := old(conversations)[k];
        var i := FindMessage(c.messages, messageId).value;
        && conversations == old(conversations)[k := c.(messages := c.messages[i := MergeMessage(c.messages[i], updates)], updatedAt := now)]
        && activeConversationId == old(activeConversationId) && isLoading == old(isLoading) && error == old(error)
    {
      if ActiveId().None? {
        return;
      }
      var activeConv := Lookup(conversations, ActiveId().value);
      if activeConv.None? {
        return;
      }
      var k := IndexOf(conversations, ActiveId().value);
      LookupUnique(conversations, k);
      var c := conversations[k];
      var messageIndex := FindMessage(c.messages, messageId);
      if messageIndex.None? {
        return;
      }
      var i := messageIndex.value;
      var updatedMessages := c.messages[i := MergeMessage(c.messages[i], updates)];
      conversations := conversations[k := c.(messages := updatedMessages, updatedAt := now)];
    }

    /** `addSourcesToLastMessage`; `now` is the clock. */
    method AddSourcesToLastMessage(sources: seq<Source>, now: int)
      requires Valid()
      modifies this
      ensures Valid()
      ensures activeConversationId == old(activeConversationId) && isLoading == old(isLoading) && error == old(error)
      ensures old(ActiveConversation()).None? ==> conversations == old(conversations)
      ensures old(ActiveConversation()).Some? ==>
        var k := IndexOf(old(conversations), old(ActiveId()).value);
        var c := old(conversations)[k];
        if c.messages != [] && c.messages[|c.messages| - 1].mtype == Assistant then
          var last := c.messages[|c.messages| - 1];
          conversations == old(conversations)[k := c.(messages := c.messages[|c.messages| - 1 := last.(sources := last.sources + sources)], updatedAt := now)]
        else conversations == old(conversations)
    {
      if ActiveId().None? {
        return;
      }
      var activeConv := Lookup(conversations, ActiveId().value);
      if activeConv.None? {
        return;
      }
      var k := IndexOf(conversations, ActiveId().value);
      LookupUnique(conversations, k);
      var c := conversations[k];
      if c.messages == [] {
        return;
      }
      var lastMessage := c.messages[|c.messages| - 1];
      if lastMessage.mtype == Assistant {
        var updatedMessages := c.messages[|c.messages| - 1 := lastMessage.(sources := lastMessage.sources + sources)];
        conversations := conversations[k := c.(messages := updatedMessages, updatedAt := now)];
      }
    }

    /** `setLoading`. */
    method SetLoading(loading: bool)
      modifies this
      ensures isLoading == loading
      ensures conversations == old(conversations) && activeConversationId == old(activeConversationId) && error == old(error)
    {
      isLoading := loading;
    }

    /** `setError`. */
    method SetError(e: Option<string>)
      modifies this
      ensures error == e
      ensures conversations == old(conversations) && activeConversationId == old(activeConversationId) && isLoading == old(isLoading)
    {
      error := e;
    }

    /** `clearError`. */
    method ClearError()
      modifies this
      ensures error == None
      ensures conversations == old(conversations) && activeConversationId == old(activeConversationId) && isLoading == old(isLoading)
    {
      error := None;
    }

    /** `getTotalMessageCount`. */
    function GetTotalMessageCount(): (n: nat)
      reads this
      ensures n == MessageTotal(conversations)
      ensures WithinCap(conversations, maxMessagesPerConversation) ==> n <= |conversations| * maxMessagesPerConversation
    {
      assert WithinCap(conversations, maxMessagesPerConversation) ==>
        MessageTotal(conversations) <= |conversations| * maxMessagesPerConversation by {
        if WithinCap(conversations, maxMessagesPerConversation) {
          MessageTotalAtMost(conversations, maxMessagesPerConversation);
        }
      }
      MessageTotal(conversations)
    }

    /** `updateConversationTitle`; `now` is the clock. */
    method UpdateConversationTitle(conversationId: string, title: string, now: int)
      requires Valid()
      modifies this
      ensures Valid()
      ensures !HasId(old(conversations), conversationId) ==> unchanged(this)
      ensures HasId(old(conversations), conversationId) ==>
        var k := IndexOf(old(conversations), conversationId);
        && conversations == old(conversations)[k := old(conversations)[k].(title := title, updatedAt := now)]
        && activeConversationId == old(activeConversationId) && isLoading == old(isLoading) && error == old(error)
    {
      if Lookup(conversations, conversationId).None? {
        return;
      }
      var k := IndexOf(conversations, conversationId);
      conversations := conversations[k := conversations[k].(title := title, updatedAt := now)];
      assert forall i :: 0 <= i < |conversations| ==> conversations[i].id == old(conversations)[i].id;
    }

    /** `getConversationsByProject`: the conversations that include the
        project, newest first. */
    function GetConversationsByProject(projectId: string): (r: seq<ChatConversation>)
      reads this
      ensures forall x :: x in r <==> x in conversations && projectId in x.projectIds
      ensures multiset(r) == multiset(Filter(conversations, InProject(projectId)))
      ensures forall i, j :: 0 <= i < j < |r| ==> r[i].updatedAt >= r[j].updatedAt
    {
      var kept := Filter(conversations, InProject(projectId));
      var r := NewestFirst(kept);
      assert forall x :: x in r <==> x in multiset(r);
      r
    }

    /** `exportConversations`: every conversation, newest first. */
    function ExportConversations(): (r: seq<ChatConversation>)
      reads this
      ensures multiset(r) == multiset(conversations)
      ensures forall i, j :: 0 <= i < j < |r| ==> r[i].updatedAt >= r[j].updatedAt
    {
      NewestFirst(conversations)
    }

    /** `importConversations`: the record is rebuilt from `cs`, a later
        conversation replacing an earlier one with the same id, and the first
        key becomes active. */
    method ImportConversations(cs: seq<ChatConversation>)
      modifies this
      ensures Valid()
      ensures conversations == Imported(cs)
      ensures forall id :: Lookup(conversations, id) == LastWithId(cs, id)
      ensures activeConversationId == FirstKeyOrNull(conversations)
      ensures isLoading == old(isLoading) && error == old(error)
    {
      var record: seq<ChatConversation> := [];
      var i := 0;
      while i < |cs|
        invariant 0 <= i <= |cs|
        invariant record == Imported(cs[..i])
      {
        assert cs[..i + 1][..i] == cs[..i];
        record := Put(record, cs[i]);
        i := i + 1;
      }
      assert cs[..i] == cs;
      forall id ensures Lookup(record, id) == LastWithId(cs, id) {
        ImportLastWins(cs, id);
      }
      conversations := record;
      activeConversationId := FirstKeyOrNull(record);
    }

    /** `clearAllConversations`. */
    method ClearAllConversations()
      modifies this
      ensures Valid()
      ensures conversations == [] && activeConversationId == None && error == None && isLoading == old(isLoading)
    {
      conversations := [];
      activeConversationId := None;
      error := None;
    }
  }
}
