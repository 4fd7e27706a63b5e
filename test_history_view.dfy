/** The saved-results table (components/TestHistory.tsx): the search box,
    the four sort orders, the verdict badge and the summary counts. */
module TestHistoryView {
  import opened Wrappers
  import opened Text
  import opened Seqs
  import opened Types

  datatype SortKey = ByDate | ByScore | ByPack | ByProject

  const PassBadge := "bg-green-100 text-green-700 border-green-200"
  const BidBadge := "bg-yellow-100 text-yellow-700 border-yellow-200"
  const FailBadge := "bg-red-100 text-red-700 border-red-200"
  const OtherBadge := "bg-gray-100 text-gray-700 border-gray-200"

  // ---------------------------------------------------------------------------
  // Search

  /** The lower-cased term occurs in the lower-cased pack name, project name
      or verdict. */
  predicate Matches(term: string, result: SavedTestResult) {
    var t := ToLower(term);
    Contains(ToLower(result.packName), t) || Contains(ToLower(result.projectName), t) || Contains(ToLower(result.testRun.verdict), t)
  }

  function MatchesTerm(term: string): SavedTestResult -> bool {
    (result: SavedTestResult) => Matches(term, result)
  }

  /** `filteredResults`: the saved results the term matches, in stored order. */
  function FilteredResults(saved: seq<SavedTestResult>, term: string): (r: seq<SavedTestResult>)
    ensures forall x :: x in r <==> x in saved && Matches(term, x)
    ensures |r| <= |saved|
  {
    Filter(saved, MatchesTerm(term))
  }

  /** The empty search keeps every result, in order. */
  lemma EmptyTermKeepsAll(saved: seq<SavedTestResult>)
    ensures FilteredResults(saved, "") == saved
  {
    forall x: SavedTestResult ensures MatchesTerm("")(x) {
      assert OccursAt(ToLower(x.packName), "", 0);
    }
    FilterKeepsAll(saved, MatchesTerm(""));
  }

  // ---------------------------------------------------------------------------
  // Sorting

  /** "May come first" for each sort order: newest `createdAt`, highest final
      score, pack name and project name ascending. */
  function NotAfter(key: SortKey): (SavedTestResult, SavedTestResult) -> bool {
    match key
    case ByDate => (a: SavedTestResult, b: SavedTestResult) => a.createdAt >= b.createdAt
    case ByScore => (a: SavedTestResult, b: SavedTestResult) => a.testRun.finalScore >= b.testRun.finalScore
    case ByPack => (a: SavedTestResult, b: SavedTestResult) => LexLe(a.packName, b.packName)
    case ByProject => (a: SavedTestResult, b: SavedTestResult) => LexLe(a.projectName, b.projectName)
  }

  /** Every sort order is a total preorder, as `sort` needs. */
  lemma NotAfterTotalPreorder(key: SortKey)
    ensures TotalPreorder(NotAfter(key))
  {
    var le := NotAfter(key);
    if key == ByPack || key == ByProject {
      var name := if key == ByPack then (x: SavedTestResult) => x.packName else (x: SavedTestResult) => x.projectName;
      assert forall a, b :: le(a, b) == LexLe(name(a), name(b));
      forall a, b ensures le(a, b) || le(b, a) {
        LexLeTotal(name(a), name(b));
      }
      forall a, b, c | le(a, b) && le(b, c) ensures le(a, c) {
        LexLeTrans(name(a), name(b), name(c));
      }
    }
  }

  /** `sortedResults`: a sorted copy of the filtered results. */
  function SortedResults(saved: seq<SavedTestResult>, term: string, key: SortKey): (r: seq<SavedTestResult>)
    ensures multiset(r) == multiset(FilteredResults(saved, term))
    ensures SortedBy(r, NotAfter(key))
  {
    NotAfterTotalPreorder(key);
    SortBy(FilteredResults(saved, term), NotAfter(key))
  }

  /** What each order promises of the displayed list, and that it lists
      exactly the matching results. */
  lemma SortedResultsOrder(saved: seq<SavedTestResult>, term: string, key: SortKey)
    ensures var r := SortedResults(saved, term, key);
      && (forall x :: x in r <==> x in saved && Matches(term, x))
      && (key == ByDate ==> forall i, j :: 0 <= i < j < |r| ==> r[i].createdAt >= r[j].createdAt)
      && (key == ByScore ==> forall i, j :: 0 <= i < j < |r| ==> r[i].testRun.finalScore >= r[j].testRun.finalScore)
      && (key == ByPack ==> forall i, j :: 0 <= i < j < |r| ==> LexLe(r[i].packName, r[j].packName))
      && (key == ByProject ==> forall i, j :: 0 <= i < j < |r| ==> LexLe(r[i].projectName, r[j].projectName))
  {
    var r := SortedResults(saved, term, key);
    var f := FilteredResults(saved, term);
    forall x ensures x in r <==> x in f {
      assert x in r <==> x in multiset(r);
      assert x in f <==> x in multiset(f);
    }
  }

  // ---------------------------------------------------------------------------
  // Badge and counts

  /** `getVerdictBadge`: a fixed colour for each verdict the scorer produces
      except "No questions", grey for anything else. */
  function VerdictBadge(verdict: string): (r: string)
    ensures verdict == "Pass" ==> r == PassBadge
    ensures verdict == "Bid" ==> r == BidBadge
    ensures verdict == "Fail (critical)" ==> r == FailBadge
    ensures verdict !in {"Pass", "Bid", "Fail (critical)"} ==> r == OtherBadge
  {
    if verdict == "Pass" then PassBadge
    else if verdict == "Bid" then BidBadge
    else if verdict == "Fail (critical)" then FailBadge
    else OtherBadge
  }

  function HasVerdict(verdict: string): SavedTestResult -> bool {
    (r: SavedTestResult) => r.testRun.verdict == verdict
  }

  /** The summary cards: the total, then the Pass, Bid and critical-fail
      counts. */
  datatype Summary = Summary(total: nat, passed: nat, bid: nat, failed: nat)

  /** The positions of `shown` whose run has verdict `verdict`. */
  ghost function VerdictPositions(shown: seq<SavedTestResult>, verdict: string): set<nat> {
    set i: nat | i < |shown| && shown[i].testRun.verdict == verdict
  }

  function SummaryOf(shown: seq<SavedTestResult>): (s: Summary)
    ensures s.total == |shown|
    ensures s.passed == |VerdictPositions(shown, "Pass")|
    ensures s.bid == |VerdictPositions(shown, "Bid")|
    ensures s.failed == |VerdictPositions(shown, "Fail (critical)")|
    ensures s.passed + s.bid + s.failed <= s.total
  {
    CountsDisjoint(shown);
    CountIsPositions(shown, "Pass");
    CountIsPositions(shown, "Bid");
    CountIsPositions(shown, "Fail (critical)");
    Summary(|shown|, Count(shown, HasVerdict("Pass")), Count(shown, HasVerdict("Bid")), Count(shown, HasVerdict("Fail (critical)")))
  }

  /** A result has one verdict, so the three counts never add up to more
      than the total. */
  lemma {:induction false} CountsDisjoint(s: seq<SavedTestResult>)
    ensures Count(s, HasVerdict("Pass")) + Count(s, HasVerdict("Bid")) + Count(s, HasVerdict("Fail (critical)")) <= |s|
  {
    if s != [] {
      var p := s[..|s| - 1];
      var x := s[|s| - 1];
      assert s == p + [x];
      CountsDisjoint(p);
      CountSnoc(p, x, HasVerdict("Pass"));
      CountSnoc(p, x, HasVerdict("Bid"));
      CountSnoc(p, x, HasVerdict("Fail (critical)"));
    }
  }

  /** The filter's count is the number of positions holding the verdict. */
  lemma {:induction false} CountIsPositions(s: seq<SavedTestResult>, verdict: string)
    ensures Count(s, HasVerdict(verdict)) == |VerdictPositions(s, verdict)|
  {
    if s == [] {
      assert VerdictPositions(s, verdict) == {};
    } else {
      var p := s[..|s| - 1];
      var x := s[|s| - 1];
      assert s == p + [x];
      CountIsPositions(p, verdict);
      CountSnoc(p, x, HasVerdict(verdict));
      PositionsSnoc(p, x, verdict);
    }
  }

  /** One more result adds its own position when it has the verdict. */
  lemma PositionsSnoc(p: seq<SavedTestResult>, x: SavedTestResult, verdict: string)
    ensures |VerdictPositions(p + [x], verdict)|
      == |VerdictPositions(p, verdict)| + if x.testRun.verdict == verdict then 1 else 0
  {
    var before := VerdictPositions(p, verdict);
    PositionsSnocSet(p, x, verdict);
    assert |p| !in before;
  }

  lemma PositionsSnocSet(p: seq<SavedTestResult>, x: SavedTestResult, verdict: string)
    ensures VerdictPositions(p + [x], verdict)
      == VerdictPositions(p, verdict) + if x.testRun.verdict == verdict then {|p|} else {}
  {
    var s := p + [x];
    forall i: nat | i < |p|
      ensures s[i] == p[i]
    {
    }
  }

  /** Counting one more element. */
  lemma CountSnoc<T>(s: seq<T>, x: T, p: T -> bool)
    ensures Count(s + [x], p) == Count(s, p) + (if p(x) then 1 else 0)
  {
    FilterConcat(s, [x], p);
  }
}
