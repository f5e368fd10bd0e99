/**
 * The deterministic parts of the experiment driver (src/Evaluator.py): the
 * choice of test records by identifier, the answer handed to the scenarios,
 * the confusion counter tallied over all result records, and the layout of
 * the result table with its header, data and summary rows.
 */
module Evaluation {
  import opened Wrappers
  import opened Text
  import opened TestData
  import opened Scenarios
  import opened Results

  // ---------------------------------------------------------------------------
  // Choosing the test records (evaluateQuestions)

  /** `obj.refId in testIds`: only an integer identifier can equal one of the listed integers. */
  predicate Chosen(t: TestObject, testIds: seq<int>) {
    t.refId.Int? && t.refId.i in testIds
  }

  /** `[obj for obj in fullQuestionList if obj.refId in testIds]`. */
  function SelectByIds(full: seq<TestObject>, testIds: seq<int>): (r: seq<TestObject>)
    ensures |r| <= |full|
    ensures forall t :: t in r <==> t in full && Chosen(t, testIds)
  {
    if full == [] then []
    else (if Chosen(full[0], testIds) then [full[0]] else []) + SelectByIds(full[1..], testIds)
  }

  /** The selection keeps the original order: it distributes over concatenation. */
  lemma {:induction false} SelectByIdsAppend(a: seq<TestObject>, b: seq<TestObject>, testIds: seq<int>)
    ensures SelectByIds(a + b, testIds) == SelectByIds(a, testIds) + SelectByIds(b, testIds)
  {
    if a != [] {
      assert (a + b)[0] == a[0];
      assert (a + b)[1..] == a[1..] + b;
      SelectByIdsAppend(a[1..], b, testIds);
    } else {
      assert a + b == b;
    }
  }

  /** A record that is chosen is kept in place, and one that is not is dropped. */
  lemma SelectByIdsOne(t: TestObject, testIds: seq<int>)
    ensures SelectByIds([t], testIds) == if Chosen(t, testIds) then [t] else []
  {
    assert [t][1..] == [];
  }

  // ---------------------------------------------------------------------------
  // The answer handed to the scenarios

  /** `baseResultAnswer`: the label extracted from the base chat if there is one, else its summary. */
  function BaseResultAnswer(summary: string, foundAnswer: string): string {
    if |foundAnswer| > 0 then foundAnswer else summary
  }

  /**
   * The scenarios discuss the label of the newest turn that names one answer,
   * and only when no turn does they discuss the base summary.
   */
  lemma BaseResultAnswerChoice(chatHistory: seq<Turn>, t: TestObject, role: string)
    ensures var r := BaseResultAnswer(SummaryOf(chatHistory, role), FoundAnswer(chatHistory, t, role));
      && ((exists j :: 0 <= j < |chatHistory| && Answers(t, role, chatHistory[j])) ==>
            r == FoundAnswer(chatHistory, t, role) && r != "")
      && ((forall j :: 0 <= j < |chatHistory| ==> !Answers(t, role, chatHistory[j])) ==>
            r == SummaryOf(chatHistory, role))
  {
    FoundAnswerIsLatest(chatHistory, t, role);
  }

  // ---------------------------------------------------------------------------
  // The confusion counter (writeResults)

  /**
   * What the tally reads from one result record: the answer number of each
   * slot (slot 0 is the base answer, slot i + 1 the answer of scenario i) and
   * the expected answer.
   */
  datatype Tallied = Tallied(answers: seq<int>, expected: int)

  function AnswerNumbers(scenarioResults: seq<ScenarioResult>): (r: seq<int>)
    ensures |r| == |scenarioResults|
    ensures forall i :: 0 <= i < |r| ==> r[i] == scenarioResults[i].resultValue
  {
    seq(|scenarioResults|, i requires 0 <= i < |scenarioResults| => scenarioResults[i].resultValue)
  }

  function TalliedOf(r: ResultObject): Tallied
    reads r
  {
    Tallied([r.baseResultanswer] + AnswerNumbers(r.scenarioResults), r.test.positiveResult)
  }

  function TalliedAll(rs: seq<ResultObject>): (vs: seq<Tallied>)
    reads rs
    ensures |vs| == |rs|
    ensures forall j :: 0 <= j < |rs| ==> vs[j] == TalliedOf(rs[j])
  {
    if rs == [] then [] else TalliedAll(rs[..|rs| - 1]) + [TalliedOf(rs[|rs| - 1])]
  }

  /** An answer number and an expected answer that the counter has a cell for. */
  predicate InRange(n: int) {
    0 <= n <= 2
  }

  /** 1 when record `v` adds to cell `[slot][p][e]`, else 0. */
  function Hit(v: Tallied, slot: nat, p: int, e: int): nat {
    if slot < |v.answers| && v.answers[slot] == p && v.expected == e && InRange(p) && InRange(e) then 1 else 0
  }

  /** The number of records among `vs` that add to cell `[slot][p][e]`. */
  function Count(vs: seq<Tallied>, slot: nat, p: int, e: int): nat {
    if vs == [] then 0 else Count(vs[..|vs| - 1], slot, p, e) + Hit(vs[|vs| - 1], slot, p, e)
  }

  /** The number of records whose answer in `slot` and whose expected answer both have a cell. */
  function Resolved(vs: seq<Tallied>, slot: nat): nat {
    if vs == [] then 0
    else
      var v := vs[|vs| - 1];
      Resolved(vs[..|vs| - 1], slot) + if slot < |v.answers| && InRange(v.answers[slot]) && InRange(v.expected) then 1 else 0
  }

  /** The cells `counter[slot][p][e]` as a 3 x 3 matrix, indexed `[predicted][expected]`. */
  function SlotMatrix(counter: array3<int>, slot: nat): (m: seq<seq<int>>)
    requires slot < counter.Length0 && counter.Length1 == 3 && counter.Length2 == 3
    reads counter
    ensures IsMatrix(m)
  {
    seq(3, p requires 0 <= p < 3 reads counter => seq(3, e requires 0 <= e < 3 reads counter => counter[slot, p, e]))
  }

  /** The 3 x 3 matrix of counts of `vs` for `slot`. */
  function CountMatrix(vs: seq<Tallied>, slot: nat): (m: seq<seq<int>>)
    ensures IsMatrix(m)
    ensures forall p, e :: 0 <= p < 3 && 0 <= e < 3 ==> m[p][e] == Count(vs, slot, p, e)
  {
    seq(3, p requires 0 <= p < 3 => seq(3, e requires 0 <= e < 3 => Count(vs, slot, p, e)))
  }

  predicate IsMatrix(m: seq<seq<int>>) {
    |m| == 3 && forall p :: 0 <= p < 3 ==> |m[p]| == 3
  }

  /** The sum of the nine cells of a slot. */
  function SlotTotal(m: seq<seq<int>>): int
    requires IsMatrix(m)
  {
    m[0][0] + m[0][1] + m[0][2] + m[1][0] + m[1][1] + m[1][2] + m[2][0] + m[2][1] + m[2][2]
  }

  lemma {:induction false} HitSum(v: Tallied, slot: nat)
    ensures Hit(v, slot, 0, 0) + Hit(v, slot, 0, 1) + Hit(v, slot, 0, 2)
          + Hit(v, slot, 1, 0) + Hit(v, slot, 1, 1) + Hit(v, slot, 1, 2)
          + Hit(v, slot, 2, 0) + Hit(v, slot, 2, 1) + Hit(v, slot, 2, 2)
         == if slot < |v.answers| && InRange(v.answers[slot]) && InRange(v.expected) then 1 else 0
  {
  }

  /**
   * The cells of a slot add up to the number of records whose answer and
   * expected answer both lie in 0..2: an unresolved answer (-1) is never counted.
   */
  lemma {:induction false} SlotTotalIsResolved(vs: seq<Tallied>, slot: nat)
    ensures SlotTotal(CountMatrix(vs, slot)) == Resolved(vs, slot)
  {
    if vs != [] {
      SlotTotalIsResolved(vs[..|vs| - 1], slot);
      HitSum(vs[|vs| - 1], slot);
    }
  }

  /** Counting one more record adds its hit to every cell. */
  lemma CountStep(vs: seq<Tallied>, k: nat)
    requires k < |vs|
    ensures forall a: nat, p, e :: Count(vs[..k + 1], a, p, e) == Count(vs[..k], a, p, e) + Hit(vs[k], a, p, e)
  {
    assert vs[..k + 1][..k] == vs[..k];
  }

  /** One step of the nine-way `if`/`elif` chain: cell `[slot][answer][label]` grows by one when it exists. */
  method AddRecord(counter: array3<int>, slot: nat, answer: int, expected: int)
    requires slot < counter.Length0 && counter.Length1 == 3 && counter.Length2 == 3
    modifies counter
    ensures forall a, p, e :: 0 <= a < counter.Length0 && 0 <= p < 3 && 0 <= e < 3 ==>
      counter[a, p, e] == old(counter[a, p, e]) + if a == slot && p == answer && e == expected then 1 else 0
  {
    if InRange(answer) && InRange(expected) {
      counter[slot, answer, expected] := counter[slot, answer, expected] + 1;
    }
  }

  // ---------------------------------------------------------------------------
  // Header and data rows (writeResults)

  /** A quotient `num / den`, kept exact. */
  datatype Ratio = Ratio(num: int, den: int)

  /**
   * A cell of the result table. `Question(t)` is the cell holding the start
   * question of test `t`, the text `GetQuestion(t)`; it is kept symbolic so
   * that the long prompt text is spelt out only where it is wanted.
   */
  datatype Cell = Text(s: string) | Number(n: int) | Flag(b: bool) | Id(v: Value) | Question(test: TestObject) | Scores(ratios: seq<Ratio>)

  /** The header of the six columns every record fills. */
  const BaseHeaders: seq<string> := ["Reference Id", "Start question", "Expected result", "Initial result text", "Initial answerNo", "Initial expectation fulfilled"]

  /** The four column headers of scenario `i` (counted from 0, shown from 1). */
  function ScenarioHeaders(i: nat): (h: seq<string>) {
    var n := NatToString(i + 1);
    ["Scenario " + n + " expert answer", "Scenario " + n + " answer text",
     "Scenario " + n + " answer no", "Scenario " + n + " expectation fulfilled"]
  }

  /** The header for a record with `n` scenario results. */
  function Headers(n: nat): seq<string> {
    if n == 0 then BaseHeaders else Headers(n - 1) + ScenarioHeaders(n - 1)
  }

  /** The headers of a record with `n` scenario results: the six base columns, then four per scenario. */
  lemma {:induction false} HeadersShape(n: nat)
    ensures |Headers(n)| == 6 + 4 * n
    ensures Headers(n)[..6] == BaseHeaders
    ensures forall i :: 0 <= i < n ==> Headers(n)[6 + 4 * i..10 + 4 * i] == ScenarioHeaders(i)
  {
    if n > 0 {
      HeadersShape(n - 1);
      var h := Headers(n - 1);
      assert Headers(n) == h + ScenarioHeaders(n - 1);
      forall i | 0 <= i < n ensures Headers(n)[6 + 4 * i..10 + 4 * i] == ScenarioHeaders(i) {
        if i < n - 1 {
          assert Headers(n)[6 + 4 * i..10 + 4 * i] == h[6 + 4 * i..10 + 4 * i];
        }
      }
    }
  }

  /** The header row as `writeResults` builds it, appending four entries per scenario. */
  method BuildHeaders(n: nat) returns (headers: seq<string>)
    ensures headers == Headers(n)
  {
    headers := BaseHeaders;
    var i := 0;
    while i < n
      invariant 0 <= i <= n
      invariant headers == Headers(i)
    {
      var number := NatToString(i + 1);
      headers := headers + ["Scenario " + number + " expert answer"];
      headers := headers + ["Scenario " + number + " answer text"];
      headers := headers + ["Scenario " + number + " answer no"];
      headers := headers + ["Scenario " + number + " expectation fulfilled"];
      i := i + 1;
    }
  }

  /** The six cells every record fills. */
  function BaseCells(r: ResultObject): seq<Cell> {
    [Id(r.test.refId), Question(r.test), Number(r.test.positiveResult),
     Text(r.baseResulttext), Number(r.baseResultanswer), Flag(r.hasFoundAnswer)]
  }

  /** The four cells of one scenario result. */
  function ScenarioCells(s: ScenarioResult): seq<Cell> {
    [Text(s.expertAnswer), Text(s.resultText), Number(s.resultValue), Flag(s.hasFoundAnswer)]
  }

  /** `base` followed by the four cells of each scenario result, in order. */
  function RowCells(base: seq<Cell>, scenarioResults: seq<ScenarioResult>): seq<Cell> {
    if scenarioResults == [] then base
    else RowCells(base, scenarioResults[..|scenarioResults| - 1]) + ScenarioCells(scenarioResults[|scenarioResults| - 1])
  }

  /** The data row of a record. */
  function RowOf(r: ResultObject): seq<Cell>
    reads r
  {
    RowCells(BaseCells(r), r.scenarioResults)
  }

  /** The data rows of all records, in order. */
  function RowsOf(rs: seq<ResultObject>): (rows: seq<seq<Cell>>)
    reads rs
    ensures |rows| == |rs|
    ensures forall j :: 0 <= j < |rs| ==> rows[j] == RowOf(rs[j])
  {
    if rs == [] then [] else RowsOf(rs[..|rs| - 1]) + [RowOf(rs[|rs| - 1])]
  }

  lemma RowCellsStep(base: seq<Cell>, scenarioResults: seq<ScenarioResult>, i: nat)
    requires i < |scenarioResults|
    ensures RowCells(base, scenarioResults[..i + 1]) == RowCells(base, scenarioResults[..i]) + ScenarioCells(scenarioResults[i])
  {
    assert scenarioResults[..i + 1][..i] == scenarioResults[..i];
  }

  /** A row keeps its base cells in front and then holds four cells per scenario result, in order. */
  lemma {:induction false} RowCellsShape(base: seq<Cell>, scenarioResults: seq<ScenarioResult>)
    ensures |RowCells(base, scenarioResults)| == |base| + 4 * |scenarioResults|
    ensures RowCells(base, scenarioResults)[..|base|] == base
    ensures forall i :: 0 <= i < |scenarioResults| ==>
      RowCells(base, scenarioResults)[|base| + 4 * i..|base| + 4 * i + 4] == ScenarioCells(scenarioResults[i])
  {
    var n := |scenarioResults|;
    if n > 0 {
      var front := scenarioResults[..n - 1];
      RowCellsShape(base, front);
      var previous := RowCells(base, front);
      var c := RowCells(base, scenarioResults);
      assert c == previous + ScenarioCells(scenarioResults[n - 1]);
      assert c[..|base|] == previous[..|base|];
      forall i | 0 <= i < n ensures c[|base| + 4 * i..|base| + 4 * i + 4] == ScenarioCells(scenarioResults[i]) {
        if i < n - 1 {
          assert c[|base| + 4 * i..|base| + 4 * i + 4] == previous[|base| + 4 * i..|base| + 4 * i + 4];
          assert front[i] == scenarioResults[i];
        }
      }
    }
  }

  /**
   * A record's data row has one cell per header of that record, and scenario
   * `i`'s four cells stand under scenario `i`'s four headers.
   */
  lemma RowFitsHeaders(r: ResultObject)
    ensures |RowOf(r)| == |Headers(|r.scenarioResults|)| == 6 + 4 * |r.scenarioResults|
    ensures RowOf(r)[..6] == BaseCells(r)
    ensures forall i :: 0 <= i < |r.scenarioResults| ==>
      RowOf(r)[6 + 4 * i..10 + 4 * i] == ScenarioCells(r.scenarioResults[i])
  {
    RowCellsShape(BaseCells(r), r.scenarioResults);
    HeadersShape(|r.scenarioResults|);
  }

  /** The data row of a record, built as `writeResults` builds it: six cells, then four per scenario result. */
  method BuildRow(r: ResultObject) returns (row: seq<Cell>)
    ensures row == RowOf(r)
  {
    var scenarioResults := r.scenarioResults;
    var base := BaseCells(r);
    row := base;
    var i := 0;
    while i < |scenarioResults|
      invariant 0 <= i <= |scenarioResults|
      invariant row == RowCells(base, scenarioResults[..i])
    {
      RowCellsStep(base, scenarioResults, i);
      row := row + ScenarioCells(scenarioResults[i]);
      i := i + 1;
    }
    assert scenarioResults[..i] == scenarioResults;
  }

  /** Adds the answer of every slot of one record to the counter. */
  method TallyAnswers(counter: array3<int>, v: Tallied)
    requires |v.answers| <= counter.Length0 && counter.Length1 == 3 && counter.Length2 == 3
    modifies counter
    ensures forall a, p, e :: 0 <= a < counter.Length0 && 0 <= p < 3 && 0 <= e < 3 ==>
      counter[a, p, e] == old(counter[a, p, e]) + Hit(v, a, p, e)
  {
    var i := 0;
    while i < |v.answers|
      invariant 0 <= i <= |v.answers|
      invariant forall a, p, e :: 0 <= a < counter.Length0 && 0 <= p < 3 && 0 <= e < 3 ==>
        counter[a, p, e] == old(counter[a, p, e]) + if a < i then Hit(v, a, p, e) else 0
    {
      AddRecord(counter, i, v.answers[i], v.expected);
      i := i + 1;
    }
  }

  // ---------------------------------------------------------------------------
  // Precision, recall and the summary rows (writeCountResults)

  /** `sumActual`: the records of a slot that expected answer `e`, a column sum of the matrix. */
  function ColumnSum(m: seq<seq<int>>, e: int): int
    requires IsMatrix(m) && InRange(e)
  {
    m[0][e] + m[1][e] + m[2][e]
  }

  /** `sumPredicted`: the records of a slot that gave answer `p`, a row sum of the matrix. */
  function RowSum(m: seq<seq<int>>, p: int): int
    requires IsMatrix(m) && InRange(p)
  {
    m[p][0] + m[p][1] + m[p][2]
  }

  function AtLeastOne(n: int): (r: int)
    ensures r >= 1 && r >= n
  {
    if n < 1 then 1 else n
  }

  /** `precisionA`, `precisionB`, `precisionC` as written: the diagonal cell over the column sum. */
  function PrecisionAsWritten(m: seq<seq<int>>, k: int): (r: Ratio)
    requires IsMatrix(m) && InRange(k)
    ensures r.den >= 1 && r.den >= ColumnSum(m, k)
  {
    Ratio(m[k][k], AtLeastOne(ColumnSum(m, k)))
  }

  /** `recallA`, `recallB`, `recallC` as written: the diagonal cell over the row sum. */
  function RecallAsWritten(m: seq<seq<int>>, k: int): (r: Ratio)
    requires IsMatrix(m) && InRange(k)
    ensures r.den >= 1 && r.den >= RowSum(m, k)
  {
    Ratio(m[k][k], AtLeastOne(RowSum(m, k)))
  }

  /**
   * Precision of answer `k`: of the records that gave answer `k`, the share
   * that expected it. This is `RecallAsWritten` under its textbook name, kept
   * apart as the corrected half of the swap between the two.
   */
  function Precision(m: seq<seq<int>>, k: int): (r: Ratio)
    requires IsMatrix(m) && InRange(k)
    ensures r.den >= 1 && r.den >= RowSum(m, k)
  {
    Ratio(m[k][k], AtLeastOne(RowSum(m, k)))
  }

  /**
   * Recall of answer `k`: of the records that expected answer `k`, the share
   * that gave it. This is `PrecisionAsWritten` under its textbook name, kept
   * apart as the corrected half of the swap between the two.
   */
  function Recall(m: seq<seq<int>>, k: int): (r: Ratio)
    requires IsMatrix(m) && InRange(k)
    ensures r.den >= 1 && r.den >= ColumnSum(m, k)
  {
    Ratio(m[k][k], AtLeastOne(ColumnSum(m, k)))
  }

  /** The records among `vs` that gave answer `k` in `slot`, and whose expected answer lies in 0..2. */
  function AnsweredAs(vs: seq<Tallied>, slot: nat, k: int): nat {
    if vs == [] then 0
    else
      var v := vs[|vs| - 1];
      AnsweredAs(vs[..|vs| - 1], slot, k) + if slot < |v.answers| && v.answers[slot] == k && InRange(k) && InRange(v.expected) then 1 else 0
  }

  /** The records among `vs` that expected answer `k`, and whose answer in `slot` lies in 0..2. */
  function ExpectedAs(vs: seq<Tallied>, slot: nat, k: int): nat {
    if vs == [] then 0
    else
      var v := vs[|vs| - 1];
      ExpectedAs(vs[..|vs| - 1], slot, k) + if slot < |v.answers| && InRange(v.answers[slot]) && v.expected == k && InRange(k) then 1 else 0
  }

  /** The row sum for answer `k` counts the records that gave `k`; the column sum those that expected `k`. */
  lemma {:induction false} SumsCount(vs: seq<Tallied>, slot: nat, k: int)
    requires InRange(k)
    ensures RowSum(CountMatrix(vs, slot), k) == AnsweredAs(vs, slot, k)
    ensures ColumnSum(CountMatrix(vs, slot), k) == ExpectedAs(vs, slot, k)
  {
    if vs != [] {
      SumsCount(vs[..|vs| - 1], slot, k);
    }
  }

  /** The corrected precision is the share of the answers `k` that were expected, and recall the converse. */
  lemma PrecisionAndRecallMeaning(vs: seq<Tallied>, slot: nat, k: int)
    requires InRange(k)
    ensures Precision(CountMatrix(vs, slot), k) == Ratio(Count(vs, slot, k, k), AtLeastOne(AnsweredAs(vs, slot, k)))
    ensures Recall(CountMatrix(vs, slot), k) == Ratio(Count(vs, slot, k, k), AtLeastOne(ExpectedAs(vs, slot, k)))
  {
    SumsCount(vs, slot, k);
  }

  /** As written, "precision" is the share of the expected answers `k` that were given, and "recall" the converse: the two are swapped. */
  lemma AsWrittenMeaning(vs: seq<Tallied>, slot: nat, k: int)
    requires InRange(k)
    ensures PrecisionAsWritten(CountMatrix(vs, slot), k) == Ratio(Count(vs, slot, k, k), AtLeastOne(ExpectedAs(vs, slot, k)))
    ensures RecallAsWritten(CountMatrix(vs, slot), k) == Ratio(Count(vs, slot, k, k), AtLeastOne(AnsweredAs(vs, slot, k)))
    ensures PrecisionAsWritten(CountMatrix(vs, slot), k) == Recall(CountMatrix(vs, slot), k)
    ensures RecallAsWritten(CountMatrix(vs, slot), k) == Precision(CountMatrix(vs, slot), k)
  {
    SumsCount(vs, slot, k);
  }

  /**
   * Two base answers 0, one expected 0 and one expected 1: half of the answers
   * 0 were right, yet the precision as written is 1/1, the recall of answer 0.
   */
  lemma PrecisionAsWrittenIsRecall(vs: seq<Tallied>)
    requires |vs| == 2 && vs[0] == Tallied([0], 0) && vs[1] == Tallied([0], 1)
    ensures PrecisionAsWritten(CountMatrix(vs, 0), 0) == Ratio(1, 1)
    ensures Precision(CountMatrix(vs, 0), 0) == Ratio(1, 2)
  {
    PrecisionAndRecallMeaning(vs, 0, 0);
    var front := vs[..1];
    assert vs[..|vs| - 1] == front && front[..0] == [] && front[0] == vs[0];
    assert Count(front, 0, 0, 0) == 1 && AnsweredAs(front, 0, 0) == 1 && ExpectedAs(front, 0, 0) == 1;
    assert Count(vs, 0, 0, 0) == 1 && AnsweredAs(vs, 0, 0) == 2 && ExpectedAs(vs, 0, 0) == 1;
  }

  const PrecisionTitle := "Average precision"
  const RecallTitle := "Average recall"
  const FScoreTitle := "F-Score"
  const Blanks: seq<Cell> := [Text(""), Text(""), Text("")]

  /** A summary row: the title and four blanks, then one cell per slot with three blanks between slots. */
  function SummaryRow(title: string, cells: seq<Cell>): seq<Cell> {
    if cells == [] then [Text(title), Text(""), Text(""), Text(""), Text("")]
    else
      var n := |cells| - 1;
      SummaryRow(title, cells[..n]) + (if n > 0 then Blanks else []) + [cells[n]]
  }

  lemma SummaryRowStep(title: string, cells: seq<Cell>, i: nat)
    requires i < |cells|
    ensures SummaryRow(title, cells[..i + 1]) == SummaryRow(title, cells[..i]) + (if i > 0 then Blanks else []) + [cells[i]]
  {
    assert cells[..i + 1][..i] == cells[..i];
  }

  /** The value of slot `i` stands in column 5 + 4i; every other column but the title is blank. */
  lemma {:induction false} SummaryRowShape(title: string, cells: seq<Cell>)
    ensures |SummaryRow(title, cells)| == if cells == [] then 5 else 2 + 4 * |cells|
    ensures SummaryRow(title, cells)[0] == Text(title)
    ensures forall i :: 0 <= i < |cells| ==> SummaryRow(title, cells)[5 + 4 * i] == cells[i]
    ensures forall j :: 0 < j < |SummaryRow(title, cells)| && (j < 5 || (j - 5) % 4 != 0) ==> SummaryRow(title, cells)[j] == Text("")
  {
    if cells != [] {
      var n := |cells| - 1;
      SummaryRowShape(title, cells[..n]);
      var previous := SummaryRow(title, cells[..n]);
      var row := SummaryRow(title, cells);
      var gap := if n > 0 then Blanks else [];
      assert row == previous + gap + [cells[n]];
      forall i | 0 <= i < n ensures row[5 + 4 * i] == cells[i] {
        assert row[5 + 4 * i] == previous[5 + 4 * i];
      }
    }
  }

  /** Column 5 + 4i, where the summary puts slot i, is the "expectation fulfilled" column of slot i. */
  lemma SummaryUnderFulfilledColumns(n: nat)
    ensures |Headers(n)| == 6 + 4 * n
    ensures Headers(n)[5] == "Initial expectation fulfilled"
    ensures forall i :: 1 <= i <= n ==> Headers(n)[5 + 4 * i] == "Scenario " + NatToString(i) + " expectation fulfilled"
  {
    HeadersShape(n);
    forall i | 1 <= i <= n ensures Headers(n)[5 + 4 * i] == "Scenario " + NatToString(i) + " expectation fulfilled" {
      assert Headers(n)[6 + 4 * (i - 1)..10 + 4 * (i - 1)] == ScenarioHeaders(i - 1);
    }
  }

  /** The counter's slots as matrices. */
  function Slots(counter: array3<int>): (ms: seq<seq<seq<int>>>)
    requires counter.Length1 == 3 && counter.Length2 == 3
    reads counter
    ensures |ms| == counter.Length0
    ensures forall i :: 0 <= i < |ms| ==> ms[i] == SlotMatrix(counter, i)
  {
    seq(counter.Length0, i requires 0 <= i < counter.Length0 reads counter => SlotMatrix(counter, i))
  }

  /** The count matrices of the first `n` slots of `vs`. */
  function CountMatrices(vs: seq<Tallied>, n: nat): (ms: seq<seq<seq<int>>>)
    ensures |ms| == n
    ensures forall i :: 0 <= i < n ==> ms[i] == CountMatrix(vs, i)
  {
    seq(n, i requires 0 <= i < n => CountMatrix(vs, i))
  }

  /** A counter whose cells are the counts of `vs` holds, slot by slot, their count matrices. */
  lemma SlotsAreCounts(counter: array3<int>, vs: seq<Tallied>)
    requires counter.Length1 == 3 && counter.Length2 == 3
    requires forall a, p, e :: 0 <= a < counter.Length0 && 0 <= p < 3 && 0 <= e < 3 ==>
      counter[a, p, e] == Count(vs, a, p, e)
    ensures Slots(counter) == CountMatrices(vs, counter.Length0)
  {
    var ms, cs := Slots(counter), CountMatrices(vs, counter.Length0);
    forall i | 0 <= i < counter.Length0 ensures ms[i] == cs[i] {
      var m, c := SlotMatrix(counter, i), CountMatrix(vs, i);
      forall p | 0 <= p < 3 ensures m[p] == c[p] {
        assert forall e :: 0 <= e < 3 ==> m[p][e] == c[p][e];
      }
    }
  }

  /** `precisionA`, `precisionB`, `precisionC` of one slot, as the code computes them. */
  function Precisions(m: seq<seq<int>>): seq<Ratio>
    requires IsMatrix(m)
  {
    [PrecisionAsWritten(m, 0), PrecisionAsWritten(m, 1), PrecisionAsWritten(m, 2)]
  }

  /** `recallA`, `recallB`, `recallC` of one slot, as the code computes them. */
  function Recalls(m: seq<seq<int>>): seq<Ratio>
    requires IsMatrix(m)
  {
    [RecallAsWritten(m, 0), RecallAsWritten(m, 1), RecallAsWritten(m, 2)]
  }

  /** The cells of the three summary rows for the slots `ms`: precisions, recalls, and both for the F-score. */
  function PrecisionCells(ms: seq<seq<seq<int>>>): (cells: seq<Cell>)
    requires forall i :: 0 <= i < |ms| ==> IsMatrix(ms[i])
    ensures |cells| == |ms|
  {
    seq(|ms|, i requires 0 <= i < |ms| && IsMatrix(ms[i]) => Scores(Precisions(ms[i])))
  }

  function RecallCells(ms: seq<seq<seq<int>>>): (cells: seq<Cell>)
    requires forall i :: 0 <= i < |ms| ==> IsMatrix(ms[i])
    ensures |cells| == |ms|
  {
    seq(|ms|, i requires 0 <= i < |ms| && IsMatrix(ms[i]) => Scores(Recalls(ms[i])))
  }

  function FScoreCells(ms: seq<seq<seq<int>>>): (cells: seq<Cell>)
    requires forall i :: 0 <= i < |ms| ==> IsMatrix(ms[i])
    ensures |cells| == |ms|
  {
    seq(|ms|, i requires 0 <= i < |ms| && IsMatrix(ms[i]) => Scores(Precisions(ms[i]) + Recalls(ms[i])))
  }

  /** The three summary rows for the slots `ms`. */
  function SummaryRows(ms: seq<seq<seq<int>>>): seq<seq<Cell>>
    requires forall i :: 0 <= i < |ms| ==> IsMatrix(ms[i])
  {
    [SummaryRow(PrecisionTitle, PrecisionCells(ms)), SummaryRow(RecallTitle, RecallCells(ms)), SummaryRow(FScoreTitle, FScoreCells(ms))]
  }

  /**
   * What the summary rows of count matrices report for slot `i`: the precision
   * row holds hits over records expected k, the recall row hits over records
   * answered k, for k = 0, 1, 2.
   */
  lemma SummaryCellsMeaning(vs: seq<Tallied>, n: nat, i: nat)
    requires i < n
    ensures PrecisionCells(CountMatrices(vs, n))[i] == Scores(seq(3, k requires 0 <= k < 3 =>
      Ratio(Count(vs, i, k, k), AtLeastOne(ExpectedAs(vs, i, k)))))
    ensures RecallCells(CountMatrices(vs, n))[i] == Scores(seq(3, k requires 0 <= k < 3 =>
      Ratio(Count(vs, i, k, k), AtLeastOne(AnsweredAs(vs, i, k)))))
  {
    AsWrittenMeaning(vs, i, 0);
    AsWrittenMeaning(vs, i, 1);
    AsWrittenMeaning(vs, i, 2);
  }

  /** One slot's addition to a summary row: three blanks unless it is the first slot, then its cell. */
  method AddSlot(row: seq<Cell>, cell: Cell, i: nat) returns (extended: seq<Cell>)
    ensures extended == row + (if i > 0 then Blanks else []) + [cell]
  {
    extended := row;
    if i > 0 {
      extended := extended + Blanks;
    }
    extended := extended + [cell];
  }

  /**
   * `writeCountResults`, file output aside: one pass over the slots, each
   * adding its cell to the three summary rows.
   */
  method WriteCountResults(counter: array3<int>) returns (rows: seq<seq<Cell>>)
    requires counter.Length1 == 3 && counter.Length2 == 3
    ensures rows == SummaryRows(Slots(counter))
  {
    ghost var ms := Slots(counter);
    ghost var precisionCells, recallCells, fScoreCells := PrecisionCells(ms), RecallCells(ms), FScoreCells(ms);
    var row0: seq<Cell> := [Text(PrecisionTitle), Text(""), Text(""), Text(""), Text("")];
    var row1: seq<Cell> := [Text(RecallTitle), Text(""), Text(""), Text(""), Text("")];
    var row2: seq<Cell> := [Text(FScoreTitle), Text(""), Text(""), Text(""), Text("")];
    var i := 0;
    while i < counter.Length0
      invariant 0 <= i <= counter.Length0
      invariant row0 == SummaryRow(PrecisionTitle, precisionCells[..i])
      invariant row1 == SummaryRow(RecallTitle, recallCells[..i])
      invariant row2 == SummaryRow(FScoreTitle, fScoreCells[..i])
    {
      var m := SlotMatrix(counter, i);
      var precisions := [PrecisionAsWritten(m, 0), PrecisionAsWritten(m, 1), PrecisionAsWritten(m, 2)];
      var recalls := [RecallAsWritten(m, 0), RecallAsWritten(m, 1), RecallAsWritten(m, 2)];
      SummaryRowStep(PrecisionTitle, precisionCells, i);
      SummaryRowStep(RecallTitle, recallCells, i);
      SummaryRowStep(FScoreTitle, fScoreCells, i);
      row0 := AddSlot(row0, Scores(precisions), i);
      row1 := AddSlot(row1, Scores(recalls), i);
      row2 := AddSlot(row2, Scores(precisions + recalls), i);
      i := i + 1;
    }
    assert precisionCells[..i] == precisionCells;
    assert recallCells[..i] == recallCells;
    assert fScoreCells[..i] == fScoreCells;
    rows := [row0, row1, row2];
  }

  /** The summary rows of a counter that holds the counts of `vs`: those of their count matrices. */
  method SummarizeCounts(counter: array3<int>, ghost vs: seq<Tallied>) returns (rows: seq<seq<Cell>>)
    requires counter.Length1 == 3 && counter.Length2 == 3
    requires forall a, p, e :: 0 <= a < counter.Length0 && 0 <= p < 3 && 0 <= e < 3 ==>
      counter[a, p, e] == Count(vs, a, p, e)
    ensures rows == SummaryRows(CountMatrices(vs, counter.Length0))
  {
    rows := WriteCountResults(counter);
    SlotsAreCounts(counter, vs);
  }

  // ---------------------------------------------------------------------------
  // writeResults

  /** `maxExistingScenarioResults`: the largest number of scenario results of any record, 0 for none. */
  function MostScenarioResults(rs: seq<ResultObject>): (most: nat)
    reads set r | r in rs
    ensures forall j :: 0 <= j < |rs| ==> |rs[j].scenarioResults| <= most
    ensures most == 0 || exists j :: 0 <= j < |rs| && |rs[j].scenarioResults| == most
  {
    if rs == [] then 0
    else
      var before := MostScenarioResults(rs[..|rs| - 1]);
      var last := |rs[|rs| - 1].scenarioResults|;
      if before < last then last else before
  }

  /** The loop of `writeResults` that finds the largest number of scenario results. */
  method MaxScenarioResults(testResults: seq<ResultObject>) returns (most: nat)
    ensures most == MostScenarioResults(testResults)
  {
    most := 0;
    for k := 0 to |testResults|
      invariant most == MostScenarioResults(testResults[..k])
    {
      assert testResults[..k + 1][..k] == testResults[..k];
      most := if most < |testResults[k].scenarioResults| then |testResults[k].scenarioResults| else most;
    }
    assert testResults[..|testResults|] == testResults;
  }

  /**
   * One pass of the record loop of `Evaluator.writeResults`: the record's
   * header and data row are built, and its answers are added to the counter.
   */
  method WriteRecord(testResult: ResultObject, counter: array3<int>) returns (headers: seq<string>, row: seq<Cell>)
    requires |testResult.scenarioResults| < counter.Length0 && counter.Length1 == 3 && counter.Length2 == 3
    modifies counter
    ensures headers == Headers(|testResult.scenarioResults|)
    ensures row == RowOf(testResult)
    ensures forall a, p, e :: 0 <= a < counter.Length0 && 0 <= p < 3 && 0 <= e < 3 ==>
      counter[a, p, e] == old(counter[a, p, e]) + Hit(TalliedOf(testResult), a, p, e)
  {
    headers := BuildHeaders(|testResult.scenarioResults|);
    row := BuildRow(testResult);
    TallyAnswers(counter, TalliedOf(testResult));
  }

  lemma PrefixStep<T>(s: seq<T>, k: nat)
    requires k < |s|
    ensures s[..k + 1] == s[..k] + [s[k]]
  {
  }

  /**
   * The record loop of `Evaluator.writeResults`: for each record, its header
   * and data row (the row goes to the result file) and its answers added to
   * the counter. `vs` and `allRows` are what the records tally to and the
   * rows they fill on entry. Afterwards the rows are those, in order, and
   * each cell counts the records whose answer in that slot and whose
   * expected answer it stands for.
   */
  method TallyRecords(testResults: seq<ResultObject>, counter: array3<int>, ghost vs: seq<Tallied>, ghost allRows: seq<seq<Cell>>)
    returns (rows: seq<seq<Cell>>)
    requires counter.Length1 == 3 && counter.Length2 == 3
    requires forall j :: 0 <= j < |testResults| ==> |testResults[j].scenarioResults| < counter.Length0
    requires forall a, p, e :: 0 <= a < counter.Length0 && 0 <= p < 3 && 0 <= e < 3 ==> counter[a, p, e] == 0
    requires vs == TalliedAll(testResults) && allRows == RowsOf(testResults)
    modifies counter
    ensures rows == allRows
    ensures forall a, p, e :: 0 <= a < counter.Length0 && 0 <= p < 3 && 0 <= e < 3 ==>
      counter[a, p, e] == Count(vs, a, p, e)
  {
    rows := [];
    for k := 0 to |testResults|
      invariant rows == allRows[..k]
      invariant forall a, p, e :: 0 <= a < counter.Length0 && 0 <= p < 3 && 0 <= e < 3 ==>
        counter[a, p, e] == Count(vs[..k], a, p, e)
    {
      // The header goes only to a file that does not exist yet; files are not modelled.
      var _, row := WriteRecord(testResults[k], counter);
      assert row == allRows[k];
      PrefixStep(allRows, k);
      rows := rows + [row];
      CountStep(vs, k);
    }
    assert vs[..|testResults|] == vs;
    assert allRows[..|testResults|] == allRows;
  }

  /**
   * The counter `writeResults` allocates: a slot for each scenario result of
   * the record with the most of them, and one for the initial answer; 3 x 3
   * cells per slot, all zero.
   */
  method NewCounter(testResults: seq<ResultObject>) returns (counter: array3<int>)
    ensures fresh(counter) && counter.Length1 == 3 && counter.Length2 == 3
    ensures counter.Length0 == MostScenarioResults(testResults) + 1
    ensures forall a, p, e :: 0 <= a < counter.Length0 && 0 <= p < 3 && 0 <= e < 3 ==> counter[a, p, e] == 0
  {
    var most := MaxScenarioResults(testResults);
    counter := new int[most + 1, 3, 3]((a, p, e) => 0);
  }

  /**
   * `Evaluator.writeResults` on at least one record, file output aside: the
   * data rows are those of the records, in order; the counter has one slot
   * more than the most scenario results of any record; each of its cells
   * counts the records whose answer in that slot and whose expected answer
   * it stands for, and the summary rows are those of the count matrices.
   */
  method WriteRecords(testResults: seq<ResultObject>) returns (counter: array3<int>, rows: seq<seq<Cell>>, summary: seq<seq<Cell>>)
    requires testResults != []
    ensures rows == old(RowsOf(testResults))
    ensures fresh(counter) && counter.Length1 == 3 && counter.Length2 == 3
    ensures counter.Length0 == old(MostScenarioResults(testResults)) + 1
    ensures forall a, p, e :: 0 <= a < counter.Length0 && 0 <= p < 3 && 0 <= e < 3 ==>
      counter[a, p, e] == Count(old(TalliedAll(testResults)), a, p, e)
    ensures summary == SummaryRows(CountMatrices(old(TalliedAll(testResults)), counter.Length0))
  {
    ghost var vs, allRows := TalliedAll(testResults), RowsOf(testResults);
    counter := NewCounter(testResults);
    rows := TallyRecords(testResults, counter, vs, allRows);
    summary := SummarizeCounts(counter, vs);
  }

  /** `Evaluator.writeResults`: with no records it returns before writing anything. */
  method WriteResults(testResults: seq<ResultObject>) returns (counter: array3?<int>, rows: seq<seq<Cell>>, summary: seq<seq<Cell>>)
    ensures testResults == [] <==> counter == null
    ensures counter == null ==> rows == [] && summary == []
    ensures counter != null ==> rows == old(RowsOf(testResults))
    ensures counter != null ==> fresh(counter) && counter.Length1 == 3 && counter.Length2 == 3
    ensures counter != null ==> counter.Length0 == old(MostScenarioResults(testResults)) + 1
    ensures counter != null ==> forall a, p, e :: 0 <= a < counter.Length0 && 0 <= p < 3 && 0 <= e < 3 ==>
      counter[a, p, e] == Count(old(TalliedAll(testResults)), a, p, e)
    ensures counter != null ==> summary == SummaryRows(CountMatrices(old(TalliedAll(testResults)), counter.Length0))
  {
    if |testResults| == 0 {
      return null, [], [];
    }
    var c;
    c, rows, summary := WriteRecords(testResults);
    counter := c;
  }
}
