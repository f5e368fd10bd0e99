/** Running every scenario on one test, in order (src/ScenarioManager.py). */
module Manager {
  import opened Wrappers
  import opened TestData
  import opened Scenarios

  /** The leading present values of `s`, up to the first `None`. */
  function TakeUntilNone<T>(s: seq<Option<T>>): (r: seq<T>)
    ensures |r| <= |s|
    ensures forall j :: 0 <= j < |r| ==> s[j] == Some(r[j])
    ensures |r| < |s| ==> s[|r|].None?
  {
    if s == [] || s[0].None? then [] else [s[0].value] + TakeUntilNone(s[1..])
  }

  /** The prefix up to the first `None` is determined by those three facts. */
  lemma {:induction false} TakeUntilNoneUnique<T>(s: seq<Option<T>>, r: seq<T>)
    requires |r| <= |s|
    requires forall j :: 0 <= j < |r| ==> s[j] == Some(r[j])
    requires |r| < |s| ==> s[|r|].None?
    ensures TakeUntilNone(s) == r
  {
    if s != [] && s[0].Some? {
      assert r[0] == s[0].value;
      TakeUntilNoneUnique(s[1..], r[1..]);
    }
  }

  /** With no `None` anywhere, nothing is dropped. */
  lemma TakeUntilNoneAll<T>(s: seq<Option<T>>)
    requires forall j :: 0 <= j < |s| ==> s[j].Some?
    ensures |TakeUntilNone(s)| == |s|
  {
  }

  /** What each scenario's `execute` returns on this test, by position. */
  function Outcomes(scenarios: seq<Scenario>, t: TestObject, answer: string, chats: nat -> Conversation): (r: seq<Option<ScenarioResult>>)
    ensures |r| == |scenarios|
    ensures forall j :: 0 <= j < |r| ==> r[j] == scenarios[j].Outcome(t, answer, chats(j))
  {
    seq(|scenarios|, j requires 0 <= j < |scenarios| => scenarios[j].Outcome(t, answer, chats(j)))
  }

  /**
   * One `scenario.execute(testObject, baseResulttext)` call, seen from the
   * manager: only its result matters here, which is `outcome`, the
   * scenario's outcome on this test and conversation.
   */
  method ExecuteScenario(scenario: Scenario, t: TestObject, baseResulttext: string, conv: Conversation, ghost outcome: Option<ScenarioResult>)
    returns (result: Option<ScenarioResult>)
    requires outcome == scenario.Outcome(t, baseResulttext, conv)
    modifies scenario
    ensures result == outcome
  {
    ghost var statistic: map<string, int>;
    ghost var statisticCaseNo: Value;
    result, statistic, statisticCaseNo := scenario.Execute(t, baseResulttext, conv);
  }

  /** One more result collected: the results still match the outcomes they came from. */
  lemma CollectedStep(outcomes: seq<Option<ScenarioResult>>, collected: seq<ScenarioResult>, v: ScenarioResult)
    requires |collected| < |outcomes| && outcomes[|collected|] == Some(v)
    requires forall j :: 0 <= j < |collected| ==> outcomes[j] == Some(collected[j])
    ensures forall j :: 0 <= j < |collected| + 1 ==> outcomes[j] == Some((collected + [v])[j])
  {
    forall j | 0 <= j < |collected| + 1
      ensures outcomes[j] == Some((collected + [v])[j])
    {
      if j < |collected| {
        assert (collected + [v])[j] == collected[j];
      }
    }
  }

  /**
   * The loop of `ScenarioManager.processQuestion`: execute the scenarios in
   * turn and collect their results, stopping at the first that returns None.
   * `chats(j)` is what the chats of scenario `j` produce; `executed` is the
   * number of scenarios whose `execute` was called. Only those scenarios'
   * state may change.
   */
  method RunScenarios(all: seq<Scenario>, t: TestObject, baseResulttext: string, chats: nat -> Conversation)
    returns (scenarioResults: seq<ScenarioResult>, ghost executed: nat)
    modifies set s | s in all
    ensures scenarioResults == TakeUntilNone(Outcomes(all, t, baseResulttext, chats))
    ensures executed == if |scenarioResults| < |all| then |scenarioResults| + 1 else |all|
    ensures forall j :: 0 <= j < |all| && all[j] !in all[..executed] ==>
      all[j].agentUsages == old(all[j].agentUsages) && all[j].caseNo == old(all[j].caseNo)
  {
    ghost var outcomes := Outcomes(all, t, baseResulttext, chats);
    scenarioResults := [];
    executed := 0;
    var i := 0;
    while i < |all|
      invariant 0 <= i <= |all|
      invariant executed == i
      invariant |scenarioResults| == i
      invariant forall j :: 0 <= j < i ==> outcomes[j] == Some(scenarioResults[j])
      invariant forall j :: 0 <= j < |all| && all[j] !in all[..i] ==>
        all[j].agentUsages == old(all[j].agentUsages) && all[j].caseNo == old(all[j].caseNo)
    {
      var scenario := all[i];
      var result := ExecuteScenario(scenario, t, baseResulttext, chats(i), outcomes[i]);
      executed := executed + 1;
      assert all[..i + 1] == all[..i] + [scenario];
      if result.None? {
        break;
      }
      // A scenario that requires user input would consult the user here.
      CollectedStep(outcomes, scenarioResults, result.value);
      scenarioResults := scenarioResults + [result.value];
      i := i + 1;
    }
    TakeUntilNoneUnique(outcomes, scenarioResults);
  }

  class ScenarioManager {
    var scenarios: seq<Scenario>

    constructor()
      ensures scenarios == []
    {
      scenarios := [];
    }

    /** `ScenarioManager.processQuestion` over the registered scenarios. */
    method ProcessQuestion(t: TestObject, baseResulttext: string, chats: nat -> Conversation)
      returns (scenarioResults: seq<ScenarioResult>, ghost executed: nat)
      modifies set s | s in scenarios
      ensures scenarioResults == TakeUntilNone(Outcomes(scenarios, t, baseResulttext, chats))
      ensures executed == if |scenarioResults| < |scenarios| then |scenarioResults| + 1 else |scenarios|
      ensures forall j :: 0 <= j < |scenarios| && scenarios[j] !in scenarios[..executed] ==>
        scenarios[j].agentUsages == old(scenarios[j].agentUsages) && scenarios[j].caseNo == old(scenarios[j].caseNo)
    {
      scenarioResults, executed := RunScenarios(scenarios, t, baseResulttext, chats);
    }
  }
}
