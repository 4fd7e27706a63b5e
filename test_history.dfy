/** The saved test-run history (lib/useTestHistory.ts): a list of saved runs,
    most recent first, with at most one entry per `packId-projectId` key. */
module TestHistory {
  import opened Wrappers
  import opened Text
  import opened Seqs
  import opened Types
  import opened Storage

  /** `${packId}-${projectId}`: the id a saved run is stored under. */
  function ResultKey(packId: string, projectId: string): (k: string)
    ensures StartsWith(k, packId + "-") && EndsWith(k, projectId)
    ensures |k| == |packId| + 1 + |projectId|
  {
    var k := packId + "-" + projectId;
    assert k[..|packId| + 1] == packId + "-";
    assert k[|k| - |projectId|..] == projectId;
    k
  }

  /** The key is a plain concatenation, so a pack id or project id holding
      `-` can make two different pairs share one key. */
  lemma KeyCollision()
    ensures ("a-b", "c") != ("a", "b-c")
    ensures ResultKey("a-b", "c") == ResultKey("a", "b-c")
  {
  }

  /** Whether an entry's id differs from `id`. */
  function IdOtherThan(id: string): SavedTestResult -> bool {
    (r: SavedTestResult) => r.id != id
  }

  function OfPack(packId: string): SavedTestResult -> bool {
    (r: SavedTestResult) => r.packId == packId
  }

  function OfProject(projectId: string): SavedTestResult -> bool {
    (r: SavedTestResult) => r.projectId == projectId
  }

  /** No two entries share an id. */
  predicate UniqueIds(results: seq<SavedTestResult>) {
    forall i, j :: 0 <= i < j < |results| ==> results[i].id != results[j].id
  }

  /** `results.find(r => r.id === id)`. */
  function FindResult(results: seq<SavedTestResult>, id: string): (r: Option<SavedTestResult>)
    ensures r.Some? ==> r.value in results && r.value.id == id
    ensures r.None? <==> forall i :: 0 <= i < |results| ==> results[i].id != id
  {
    if results == [] then None
    else if results[0].id == id then Some(results[0])
    else
      var r := FindResult(results[1..], id);
      assert forall i :: 1 <= i < |results| ==> results[i] == results[1..][i - 1];
      r
  }

  /** The list after saving `saved`: it first, then every older entry with
      another id, in their order. */
  function AfterSave(results: seq<SavedTestResult>, saved: SavedTestResult): (r: seq<SavedTestResult>)
    ensures r != [] && r[0] == saved
    ensures forall i :: 1 <= i < |r| ==> r[i].id != saved.id && r[i] in results
  {
    [saved] + Filter(results, IdOtherThan(saved.id))
  }

  /** Filtering keeps ids unique. */
  lemma {:induction false} FilterKeepsUniqueIds(results: seq<SavedTestResult>, p: SavedTestResult -> bool)
    requires UniqueIds(results)
    ensures UniqueIds(Filter(results, p))
  {
    if results != [] {
      var tail := results[1..];
      assert UniqueIds(tail) by {
        forall i, j | 0 <= i < j < |tail| ensures tail[i].id != tail[j].id {
          assert tail[i] == results[i + 1] && tail[j] == results[j + 1];
        }
      }
      FilterKeepsUniqueIds(tail, p);
      var f := Filter(tail, p);
      forall x | x in f ensures x.id != results[0].id {
        var k :| 0 <= k < |tail| && tail[k] == x;
        assert results[k + 1] == x;
      }
    }
  }

  /** Saving keeps at most one entry per id. */
  lemma SaveKeepsUniqueIds(results: seq<SavedTestResult>, saved: SavedTestResult)
    requires UniqueIds(results)
    ensures UniqueIds(AfterSave(results, saved))
  {
    FilterKeepsUniqueIds(results, IdOtherThan(saved.id));
  }

  /** Saving leaves the other entries in their order: apart from the saved
      id, the list reads as before. */
  lemma SaveKeepsOthersInOrder(results: seq<SavedTestResult>, saved: SavedTestResult)
    ensures Filter(AfterSave(results, saved), IdOtherThan(saved.id)) == Filter(results, IdOtherThan(saved.id))
  {
    var p := IdOtherThan(saved.id);
    var rest := Filter(results, p);
    assert AfterSave(results, saved)[1..] == rest;
    FilterIdempotent(results, p);
  }

  /** Looking up the pair just saved finds the record just saved. */
  lemma SaveThenGet(results: seq<SavedTestResult>, saved: SavedTestResult, packId: string, projectId: string)
    requires saved.id == ResultKey(packId, projectId)
    ensures FindResult(AfterSave(results, saved), ResultKey(packId, projectId)) == Some(saved)
  {
  }

  /** Deleting `id` removes every entry with it and keeps every other lookup. */
  lemma {:induction false} DeleteRemovesOnly(results: seq<SavedTestResult>, id: string, other: string)
    ensures FindResult(Filter(results, IdOtherThan(id)), id).None?
    ensures other != id ==> FindResult(Filter(results, IdOtherThan(id)), other) == FindResult(results, other)
  {
    if results != [] {
      DeleteRemovesOnly(results[1..], id, other);
    }
  }

  class TestHistoryStore {
    var savedResults: seq<SavedTestResult>
    var isLoading: bool

    constructor()
      ensures savedResults == [] && isLoading
    {
      savedResults := [];
      isLoading := true;
    }

    /** The mount-time load: a stored list replaces the empty one; nothing
        stored or an unreadable entry leaves it. Loading ends either way. */
    method Load(stored: Stored<seq<SavedTestResult>>)
      modifies this
      ensures stored.Parsed? ==> savedResults == stored.value
      ensures !stored.Parsed? ==> savedResults == old(savedResults)
      ensures !isLoading
    {
      if stored.Parsed? {
        savedResults := stored.value;
      }
      isLoading := false;
    }

    /** `saveTestResult`; `now` stands for the clock. */
    method SaveTestResult(testRun: TestRun, pack: QuestionPack, projectName: string, now: int)
      returns (saved: SavedTestResult)
      modifies this
      ensures saved == SavedTestResult(ResultKey(pack.id, testRun.projectId), pack.id, pack.name,
        testRun.projectId, projectName, testRun, now)
      ensures savedResults == AfterSave(old(savedResults), saved)
      ensures isLoading == old(isLoading)
    {
      var resultKey := ResultKey(pack.id, testRun.projectId);
      saved := SavedTestResult(resultKey, pack.id, pack.name, testRun.projectId, projectName, testRun, now);
      var filtered := Filter(savedResults, IdOtherThan(resultKey));
      savedResults := [saved] + filtered;
    }

    /** `deleteTestResult`. */
    method DeleteTestResult(resultId: string)
      modifies this
      ensures savedResults == Filter(old(savedResults), IdOtherThan(resultId))
      ensures isLoading == old(isLoading)
    {
      savedResults := Filter(savedResults, IdOtherThan(resultId));
    }

    /** `getTestResult`. */
    function GetTestResult(packId: string, projectId: string): (r: Option<SavedTestResult>)
      reads this
      ensures r == FindResult(savedResults, ResultKey(packId, projectId))
    {
      FindResult(savedResults, ResultKey(packId, projectId))
    }

    /** `getAllResultsForPack`. */
    function GetAllResultsForPack(packId: string): (r: seq<SavedTestResult>)
      reads this
      ensures forall i :: 0 <= i < |r| ==> r[i].packId == packId && r[i] in savedResults
      ensures forall i :: 0 <= i < |savedResults| && savedResults[i].packId == packId ==> savedResults[i] in r
    {
      Filter(savedResults, OfPack(packId))
    }

    /** `getAllResultsForProject`. */
    function GetAllResultsForProject(projectId: string): (r: seq<SavedTestResult>)
      reads this
      ensures forall i :: 0 <= i < |r| ==> r[i].projectId == projectId && r[i] in savedResults
      ensures forall i :: 0 <= i < |savedResults| && savedResults[i].projectId == projectId ==> savedResults[i] in r
    {
      Filter(savedResults, OfProject(projectId))
    }

    /** `clearAllResults`. */
    method ClearAllResults()
      modifies this
      ensures savedResults == [] && isLoading == old(isLoading)
    {
      savedResults := [];
    }
  }
}
