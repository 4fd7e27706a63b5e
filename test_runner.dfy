/** The test runner page's `runTest` (app/run/page.tsx): one question at a
    time, ask the GraphRAG service, parse and judge its answer, and score the
    run. The service is an oracle `ask`: `ask(projectId, q)` is the outcome
    of querying project `projectId` with the prompt `GraphRag.BuildPrompt(q)`
    makes of question `q`. */
module TestRunner {
  import opened Wrappers
  import opened Text
  import opened Types
  import opened Scoring
  import opened GraphRag
  import opened PacksStore

  /** The run object the page builds. It carries `score` and `passed` rather
      than the fields the `TestRun` type declares. */
  datatype ProducedRun = ProducedRun(
    id: string,
    packId: string,
    projectId: string,
    results: seq<TestResult>,
    score: int,
    passed: bool,
    completedAt: int)

  /** The result recorded for question `q` when its query ends in `outcome`. */
  function ResultFor(q: Question, outcome: QueryOutcome): TestResult {
    match outcome
    case Answered(raw) =>
      var answer := ExtractAnswer(raw, q.qtype);
      TestResult(q.id, q.text, answer, CleanText(raw), EvaluateAnswer(q, answer), SourcesFrom(raw, 0), q.critical, q.weight)
    case Failed(message) =>
      TestResult(q.id, q.text, "Error", "Error: " + message.GetOr("Unknown error"), false, [], q.critical, q.weight)
  }

  /** A result carries its question's id, text, `critical` and `weight`; a
      failed query is an unpassed "Error" with no sources, an answered one is
      judged on the answer extracted from the response. */
  lemma ResultForFields(q: Question, outcome: QueryOutcome)
    ensures var r := ResultFor(q, outcome);
      && r.questionId == q.id && r.question == q.text
      && r.critical == q.critical && r.weight == q.weight
      && (outcome.Failed? ==> r.answer == "Error" && !r.passed && r.sources == [] && StartsWith(r.rawResponse, "Error: "))
      && (outcome.Answered? ==>
        && r.answer == ExtractAnswer(outcome.text, q.qtype)
        && r.passed == EvaluateAnswer(q, r.answer)
        && r.rawResponse == CleanText(outcome.text)
        && r.sources == SourcesFrom(outcome.text, 0))
  {
    if outcome.Failed? {
      var raw := "Error: " + outcome.message.GetOr("Unknown error");
      assert raw[..7] == "Error: ";
    }
  }

  /** The results of a run over `questions`: one per question, in order. */
  function RunResults(questions: seq<Question>, projectId: string, ask: (string, Question) -> QueryOutcome): (r: seq<TestResult>)
    ensures |r| == |questions|
  {
    if questions == [] then []
    else
      var last := questions[|questions| - 1];
      RunResults(questions[..|questions| - 1], projectId, ask) + [ResultFor(last, ask(projectId, last))]
  }

  /** One more question adds its result at the end. */
  lemma RunResultsSnoc(questions: seq<Question>, projectId: string, ask: (string, Question) -> QueryOutcome, i: nat)
    requires i < |questions|
    ensures RunResults(questions[..i + 1], projectId, ask)
      == RunResults(questions[..i], projectId, ask) + [ResultFor(questions[i], ask(projectId, questions[i]))]
  {
    assert questions[..i + 1][..i] == questions[..i];
  }

  /** The run's results are one per question, in question order. */
  lemma {:induction false} RunResultsAt(questions: seq<Question>, projectId: string, ask: (string, Question) -> QueryOutcome, i: nat)
    requires i < |questions|
    ensures RunResults(questions, projectId, ask)[i] == ResultFor(questions[i], ask(projectId, questions[i]))
  {
    if i < |questions| - 1 {
      RunResultsAt(questions[..|questions| - 1], projectId, ask, i);
    }
  }

  /** The run built from `results`: its score is the final score, and it
      passes exactly when the verdict is Bid. */
  function RunOf(id: string, packId: string, projectId: string, results: seq<TestResult>, now: int): (run: ProducedRun)
    ensures run.results == results
    ensures run.score == CalculateScore(results).finalScore
    ensures run.passed <==> CalculateScore(results).verdict == Bid
  {
    var s := CalculateScore(results);
    ProducedRun(id, packId, projectId, results, s.finalScore, s.verdict == Bid, now)
  }

  /** `shown` is the sequence of values `currentQuestion` takes while `n`
      questions run: 0, then 1 up to `n`, then 0 again. */
  predicate IsProgress(shown: seq<nat>, n: nat) {
    |shown| == n + 2 && shown[n + 1] == 0 && forall k :: 0 <= k <= n ==> shown[k] == k
  }

  /** Showing 0, then each question number, then 0 again is progress. */
  lemma ShownIsProgress(asked: seq<nat>, n: nat)
    requires |asked| == n && forall k :: 0 <= k < n ==> asked[k] == k + 1
    ensures IsProgress([0] + asked + [0], n)
  {
    var shown := [0] + asked + [0];
    forall k | 0 < k <= n
      ensures shown[k] == k
    {
      assert shown[k] == asked[k - 1];
    }
  }

  /** `selectedPackId ? getPackById(selectedPackId) : null`. */
  function SelectedPack(packs: seq<QuestionPack>, id: string): (r: Option<QuestionPack>)
    ensures id == "" ==> r.None?
    ensures id != "" ==> r == FindPack(packs, id)
  {
    if id == "" then None else FindPack(packs, id)
  }

  /** A run in which every query fails earns nothing: its score is 0 and it
      does not pass. */
  lemma {:induction false} AllFailedRunScoresZero(questions: seq<Question>, projectId: string, ask: (string, Question) -> QueryOutcome)
    requires forall i :: 0 <= i < |questions| ==> ask(projectId, questions[i]).Failed?
    ensures var results := RunResults(questions, projectId, ask);
      var run := RunOf("", "", projectId, results, 0);
      run.score == 0 && !run.passed
  {
    var results := RunResults(questions, projectId, ask);
    forall i | 0 <= i < |results| ensures !results[i].passed {
      RunResultsAt(questions, projectId, ask, i);
      ResultForFields(questions[i], ask(projectId, questions[i]));
    }
    NothingPassedEarnsZero(results);
    if TotalWeight(results) > 0 {
      ZeroPercent(TotalWeight(results));
    }
  }

  lemma {:induction false} NothingPassedEarnsZero(results: seq<TestResult>)
    requires forall i :: 0 <= i < |results| ==> !results[i].passed
    ensures EarnedWeight(results) == 0
  {
    if results != [] {
      NothingPassedEarnsZero(results[1..]);
    }
  }

  /** Earning nothing rounds to 0 percent. */
  lemma ZeroPercent(total: int)
    requires total > 0
    ensures RoundedPercent(0, total) == 0
  {
    var r := RoundedPercent(0, total);
    MulPosCancel(total, 2 * r - 1, 0);
    MulPosCancel(total, 0, 2 * r + 1);
  }

  /** The body of the per-question `try`/`catch`: parse and judge a
      response, or record the error the query threw. */
  method JudgeQuestion(question: Question, outcome: QueryOutcome) returns (result: TestResult)
    ensures result == ResultFor(question, outcome)
  {
    match outcome {
      case Answered(raw) =>
        var cleanResponse, sources := ParseSources(raw);
        var answer := ExtractAnswer(raw, question.qtype);
        var passed := EvaluateAnswer(question, answer);
        result := TestResult(question.id, question.text, answer, cleanResponse, passed, sources, question.critical, question.weight);
      case Failed(message) =>
        result := TestResult(question.id, question.text, "Error", "Error: " + message.GetOr("Unknown error"),
          false, [], question.critical, question.weight);
    }
  }

  class TestRunnerPage {
    var selectedPackId: string
    var selectedProjectId: string
    var isRunning: bool
    var currentQuestion: nat
    var testRun: Option<ProducedRun>
    var error: Option<string>

    constructor(packParam: Option<string>)
      ensures selectedPackId == packParam.GetOr("") && selectedProjectId == ""
      ensures !isRunning && currentQuestion == 0 && testRun == None && error == None
    {
      selectedPackId := packParam.GetOr("");
      selectedProjectId := "";
      isRunning := false;
      currentQuestion := 0;
      testRun := None;
      error := None;
    }

    /** `runTest`. `shown` lists the values `currentQuestion` is set to, in
        order; `runId` and `now` stand for the random run id and the clock. */
    method RunTest(packs: seq<QuestionPack>, ask: (string, Question) -> QueryOutcome, runId: string, now: int)
      returns (ghost shown: seq<nat>)
      modifies this
      ensures SelectedPack(packs, old(selectedPackId)).None? ==> unchanged(this) && shown == []
      ensures SelectedPack(packs, old(selectedPackId)).Some? ==>
        var pack := SelectedPack(packs, old(selectedPackId)).value;
        && selectedPackId == old(selectedPackId) && selectedProjectId == old(selectedProjectId)
        && !isRunning && currentQuestion == 0 && error == None
        && testRun == Some(RunOf(runId, pack.id, selectedProjectId,
             RunResults(pack.questions, selectedProjectId, ask), now))
        && IsProgress(shown, |pack.questions|)
    {
      var selected := SelectedPack(packs, selectedPackId);
      if selected.None? {
        return [];
      }
      var pack := selected.value;
      isRunning := true;
      error := None;
      currentQuestion := 0;
      var results, asked := AskQuestions(pack.questions, ask);
      shown := [0] + asked + [0];
      ShownIsProgress(asked, |pack.questions|);
      testRun := Some(RunOf(runId, pack.id, selectedProjectId, results, now));
      isRunning := false;
      currentQuestion := 0;
    }

    /** The `for` loop of `runTest`: each question in turn is shown, sent to
        the service and judged. `shown` lists the values `currentQuestion`
        is set to. */
    method AskQuestions(questions: seq<Question>, ask: (string, Question) -> QueryOutcome)
      returns (results: seq<TestResult>, ghost shown: seq<nat>)
      requires currentQuestion == 0
      modifies this`currentQuestion
      ensures results == RunResults(questions, selectedProjectId, ask)
      ensures currentQuestion == |questions|
      ensures |shown| == |questions| && forall k :: 0 <= k < |shown| ==> shown[k] == k + 1
      ensures selectedPackId == old(selectedPackId) && selectedProjectId == old(selectedProjectId)
      ensures isRunning == old(isRunning) && error == old(error) && testRun == old(testRun)
    {
      results := [];
      shown := [];
      var i := 0;
      while i < |questions|
        invariant 0 <= i <= |questions|
        invariant results == RunResults(questions[..i], selectedProjectId, ask)
        invariant currentQuestion == i
        invariant |shown| == i && forall k :: 0 <= k < i ==> shown[k] == k + 1
      {
        var question := questions[i];
        currentQuestion := i + 1;
        shown := shown + [i + 1];
        var outcome := ask(selectedProjectId, question);
        var result := JudgeQuestion(question, outcome);
        RunResultsSnoc(questions, selectedProjectId, ask, i);
        results := results + [result];
        i := i + 1;
      }
      assert questions[..i] == questions;
    }
  }
}
