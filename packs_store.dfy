/** The question-pack store (store/packs.ts): a list of packs replaced by
    append, merge-by-id and filter-by-id. */
module PacksStore {
  import opened Wrappers
  import opened Seqs
  import opened Types
  import opened Storage

  /** A `Partial<QuestionPack>`: the fields an update sets. */
  datatype PackUpdate = PackUpdate(
    id: Option<string>,
    name: Option<string>,
    trades: Option<seq<string>>,
    questions: Option<seq<Question>>,
    filters: Option<PackFilters>,
    createdAt: Option<int>)

  /** `{ ...pack, ...updates }`. */
  function Merge(p: QuestionPack, u: PackUpdate): (r: QuestionPack)
    ensures u.id.Some? ==> r.id == u.id.value
    ensures u.id.None? ==> r.id == p.id
    ensures u.name.Some? ==> r.name == u.name.value
    ensures u.name.None? ==> r.name == p.name
    ensures u.trades.Some? ==> r.trades == u.trades.value
    ensures u.trades.None? ==> r.trades == p.trades
    ensures u.questions.Some? ==> r.questions == u.questions.value
    ensures u.questions.None? ==> r.questions == p.questions
    ensures u.filters.Some? ==> r.filters == u.filters.value
    ensures u.filters.None? ==> r.filters == p.filters
    ensures u.createdAt.Some? ==> r.createdAt == u.createdAt.value
    ensures u.createdAt.None? ==> r.createdAt == p.createdAt
    ensures u == PackUpdate(None, None, None, None, None, None) ==> r == p
  {
    QuestionPack(
      u.id.GetOr(p.id), u.name.GetOr(p.name), u.trades.GetOr(p.trades),
      u.questions.GetOr(p.questions), u.filters.GetOr(p.filters), u.createdAt.GetOr(p.createdAt))
  }

  /** `i` is the first position holding a pack with id `id`. */
  predicate FirstWithId(packs: seq<QuestionPack>, id: string, i: int) {
    0 <= i < |packs| && packs[i].id == id && forall j :: 0 <= j < i ==> packs[j].id != id
  }

  /** `packs.find(p => p.id === id)`. */
  function FindPack(packs: seq<QuestionPack>, id: string): (r: Option<QuestionPack>)
    ensures r.Some? <==> exists i :: 0 <= i < |packs| && packs[i].id == id
    ensures r.Some? ==> exists i :: FirstWithId(packs, id, i) && packs[i] == r.value
  {
    if packs == [] then None
    else if packs[0].id == id then Some(packs[0])
    else
      var r := FindPack(packs[1..], id);
      assert forall i :: 0 <= i < |packs| - 1 ==> packs[1..][i] == packs[i + 1];
      if r.Some? then
        var i :| FirstWithId(packs[1..], id, i) && packs[1..][i] == r.value;
        assert FirstWithId(packs, id, i + 1);
        r
      else r
  }

  /** `packs.map(p => p.id === id ? { ...p, ...u } : p)`. */
  function UpdateWhere(packs: seq<QuestionPack>, id: string, u: PackUpdate): (r: seq<QuestionPack>)
    ensures |r| == |packs|
    ensures forall i :: 0 <= i < |packs| ==> r[i] == if packs[i].id == id then Merge(packs[i], u) else packs[i]
  {
    if packs == [] then []
    else [if packs[0].id == id then Merge(packs[0], u) else packs[0]] + UpdateWhere(packs[1..], id, u)
  }

  /** Whether a pack's id differs from `id`. */
  function IdIsNot(id: string): QuestionPack -> bool {
    (p: QuestionPack) => p.id != id
  }

  /** Appending leaves every earlier lookup as it was, and a new id finds the
      appended pack. */
  lemma {:induction false} FindAfterAppend(packs: seq<QuestionPack>, p: QuestionPack, id: string)
    ensures FindPack(packs + [p], id) ==
      if FindPack(packs, id).Some? then FindPack(packs, id)
      else if p.id == id then Some(p) else None
  {
    if packs == [] {
      assert packs + [p] == [p];
    } else {
      assert (packs + [p])[1..] == packs[1..] + [p];
      FindAfterAppend(packs[1..], p, id);
    }
  }

  /** After deleting `id` no pack has it, and every other lookup is unchanged. */
  lemma {:induction false} FindAfterDelete(packs: seq<QuestionPack>, id: string, other: string)
    ensures FindPack(Filter(packs, IdIsNot(id)), id).None?
    ensures other != id ==> FindPack(Filter(packs, IdIsNot(id)), other) == FindPack(packs, other)
  {
    if packs != [] {
      FindAfterDelete(packs[1..], id, other);
    }
  }

  /** An update that keeps ids finds the merged version of the pack found before. */
  lemma {:induction false} FindAfterUpdate(packs: seq<QuestionPack>, id: string, u: PackUpdate)
    requires u.id.None? || u.id == Some(id)
    ensures FindPack(UpdateWhere(packs, id, u), id) ==
      if FindPack(packs, id).Some? then Some(Merge(FindPack(packs, id).value, u)) else None
  {
    if packs != [] {
      FindAfterUpdate(packs[1..], id, u);
      assert UpdateWhere(packs, id, u)[1..] == UpdateWhere(packs[1..], id, u);
    }
  }

  /** `loadPacks`: the stored list, or empty when there is none. */
  function LoadedPacks(stored: Stored<seq<QuestionPack>>): (r: seq<QuestionPack>)
    ensures !stored.Parsed? ==> r == []
    ensures stored.Parsed? ==> r == stored.value
  {
    if stored.Parsed? then stored.value else []
  }

  class PacksStore {
    var packs: seq<QuestionPack>

    constructor()
      ensures packs == []
    {
      packs := [];
    }

    /** `addPack`. */
    method AddPack(pack: QuestionPack)
      modifies this
      ensures packs == old(packs) + [pack]
    {
      packs := packs + [pack];
    }

    /** `updatePack`: same length, only the packs with that id merged. */
    method UpdatePack(id: string, updates: PackUpdate)
      modifies this
      ensures packs == UpdateWhere(old(packs), id, updates)
    {
      packs := UpdateWhere(packs, id, updates);
    }

    /** `deletePack`. */
    method DeletePack(id: string)
      modifies this
      ensures packs == Filter(old(packs), IdIsNot(id))
    {
      packs := Filter(packs, IdIsNot(id));
    }

    /** `getPackById`. */
    function GetPackById(id: string): (r: Option<QuestionPack>)
      reads this
      ensures r == FindPack(packs, id)
    {
      FindPack(packs, id)
    }

    /** `getAllPacks`. */
    function GetAllPacks(): (r: seq<QuestionPack>)
      reads this
      ensures r == packs
    {
      packs
    }

    /** `loadFromStorage`. */
    method LoadFromStorage(stored: Stored<seq<QuestionPack>>)
      modifies this
      ensures packs == LoadedPacks(stored)
    {
      packs := LoadedPacks(stored);
    }
  }
}
