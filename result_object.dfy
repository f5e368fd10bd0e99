/**
 * The records that collect the outcome of one test (src/ResultObject.py):
 * the test, the single agent's base answer, and the results of the
 * scenarios run on it.
 */
module Results {
  import opened TestData
  import opened Scenarios

  /** The registry of all result records, in order of creation. */
  class ResultObjects {
    var results: seq<ResultObject>

    constructor()
      ensures results == []
    {
      results := [];
    }
  }

  class ResultObject {
    const test: TestObject
    const baseResulttext: string
    const baseResultanswer: int
    const hasFoundAnswer: bool
    var scenarioResults: seq<ScenarioResult>

    /**
     * A new record for `test` with the base answer; it adds itself to the
     * registry.
     */
    constructor(test: TestObject, baseResulttext: string, baseResultanswer: int, registry: ResultObjects)
      modifies registry
      ensures this.test == test && this.baseResulttext == baseResulttext && this.baseResultanswer == baseResultanswer
      ensures hasFoundAnswer <==> test.positiveResult == baseResultanswer
      ensures hasFoundAnswer == HasFoundExpectedAnswer(baseResultanswer, test)
      ensures scenarioResults == []
      ensures registry.results == old(registry.results) + [this]
    {
      this.test := test;
      this.baseResulttext := baseResulttext;
      this.baseResultanswer := baseResultanswer;
      if test.positiveResult == baseResultanswer {
        hasFoundAnswer := true;
      } else {
        hasFoundAnswer := false;
      }
      scenarioResults := [];
      new;
      registry.results := registry.results + [this];
    }
  }
}
