/**
 * Scenarios and answer extraction (src/Scenario.py). A chat history is a
 * sequence of turns with a role and a content; everything an external chat
 * produces reaches the model as such a history, a summary text, or the
 * `None` that stands for an exception.
 */
module Scenarios {
  import opened Wrappers
  import opened Text
  import opened TestData

  datatype Turn = Turn(role: string, content: string)

  /** What `initiate_chat` hands back: the framework's summary and the exchanged turns. */
  datatype ChatResult = ChatResult(summary: string, chatHistory: seq<Turn>)

  const TerminalReply := "Conversation ended successfully."
  const CourtesyPhrase := "Thank you"
  const TerminatedNotice := "The conversation was terminated."
  const ExecuterName := "executerAssistant"
  const UserRole := "user"

  // ---------------------------------------------------------------------------
  // Newest-first scanning

  /** The index of the last element satisfying `p`, or -1 when there is none. */
  function LatestIndex<T>(s: seq<T>, p: T -> bool): (r: int)
    ensures -1 <= r < |s|
    ensures r >= 0 ==> p(s[r])
    ensures forall j :: r < j < |s| ==> !p(s[j])
  {
    if s == [] then -1
    else if p(s[|s| - 1]) then |s| - 1
    else LatestIndex(s[..|s| - 1], p)
  }

  // ---------------------------------------------------------------------------
  // isRealContent

  /** `Scenario.isRealContent`: the text is neither the automatic closing reply nor a courtesy. */
  predicate IsRealContent(text: string) {
    if Contains(text, TerminalReply) then false
    else if Contains(text, CourtesyPhrase) then false
    else true
  }

  /** A turn carrying the closing reply or a thank-you anywhere in it is never real content. */
  lemma FillerIsNotReal(before: string, after: string)
    ensures !IsRealContent(before + TerminalReply + after)
    ensures !IsRealContent(before + CourtesyPhrase + after)
  {
    ContainsInfix(before, TerminalReply, after);
    ContainsInfix(before, CourtesyPhrase, after);
  }

  // ---------------------------------------------------------------------------
  // Matching a text against the three choices

  /** Choice `k`, upper-cased, occurs in the already upper-cased `content`. */
  predicate Names(t: TestObject, content: string, k: int)
    requires 0 <= k <= 2
  {
    Contains(content, Upper(Choice(t, k)))
  }

  /** Choice `k` is named where its upper-cased text stands at position `i`. */
  lemma NamedAt(t: TestObject, content: string, k: int, i: nat)
    requires 0 <= k <= 2
    requires i + |Choice(t, k)| <= |content| && content[i..i + |Choice(t, k)|] == Upper(Choice(t, k))
    ensures Names(t, content, k)
  {
    ContainsAt(content, Upper(Choice(t, k)), i);
  }

  /** Choice `k` is not named when the upper case of its first letter occurs nowhere. */
  lemma NotNamed(t: TestObject, content: string, k: int)
    requires 0 <= k <= 2 && |Choice(t, k)| > 0
    requires UpperChar(Choice(t, k)[0]) !in content
    ensures !Names(t, content, k)
  {
    NotContainsFirst(content, Upper(Choice(t, k)));
  }

  /** Choice `k` occurs in `content` and neither of the other two does. */
  predicate NamesOnly(t: TestObject, content: string, k: int)
    requires 0 <= k <= 2
  {
    && Names(t, content, k)
    && (k == 0 || !Names(t, content, 0))
    && (k == 1 || !Names(t, content, 1))
    && (k == 2 || !Names(t, content, 2))
  }

  /** Branch `k` of the extraction: choice `k` alone is named, or the text is the digit `k`. */
  predicate Selects(t: TestObject, content: string, digits: string, k: int)
    requires 0 <= k <= 2
  {
    NamesOnly(t, content, k) || digits == NatToString(k)
  }

  /** The three branches, tried in the order 0, 1, 2. */
  function Pick(t: TestObject, content: string, digits: string): int {
    if Selects(t, content, digits, 0) then 0
    else if Selects(t, content, digits, 1) then 1
    else if Selects(t, content, digits, 2) then 2
    else -1
  }

  /**
   * `Scenario.resultNoFromChatHistory`: the index of the answer a text gives,
   * -1 when it gives none. The role parameter of the source is unused there
   * and is left out.
   */
  function ResultNoFromChatHistory(summary: string, t: TestObject): (r: int)
    ensures -1 <= r <= 2
    ensures summary == "" || !HasChoices(t) ==> r == -1
    ensures r >= 0 ==>
      && summary != "" && HasChoices(t)
      && Selects(t, Upper(summary), summary, r)
      && forall j :: 0 <= j < r ==> !Selects(t, Upper(summary), summary, j)
    ensures summary != "" && HasChoices(t) && (exists k :: 0 <= k <= 2 && Selects(t, Upper(summary), summary, k)) ==> r >= 0
  {
    if summary != "" && HasChoices(t) then Pick(t, Upper(summary), summary) else -1
  }

  /** A text naming one choice alone yields that choice, unless the text is literally the digit of an earlier one. */
  lemma ResultNoNamesOnlyChoice(summary: string, t: TestObject, k: int)
    requires HasChoices(t) && 0 <= k <= 2
    requires NamesOnly(t, Upper(summary), k)
    requires forall d :: 0 <= d < k ==> summary != NatToString(d)
    ensures ResultNoFromChatHistory(summary, t) == k
  {
    ContainsImpliesLonger(Upper(summary), Upper(Choice(t, k)));
  }

  /** The bare digit "d" yields d, unless an earlier choice alone occurs in it. */
  lemma ResultNoDigit(d: nat, t: TestObject)
    requires HasChoices(t) && d <= 2
    requires forall j :: 0 <= j < d ==> !NamesOnly(t, NatToString(d), j)
    ensures ResultNoFromChatHistory(NatToString(d), t) == d
  {
    UpperIsDigitsExactly(NatToString(d), NatToString(d));
  }

  /** Two choices occurring together make a text ambiguous, unless it is a bare digit. */
  lemma ResultNoAmbiguous(summary: string, t: TestObject, j: int, k: int)
    requires 0 <= j <= 2 && 0 <= k <= 2 && j != k
    requires Names(t, Upper(summary), j) && Names(t, Upper(summary), k)
    requires forall d :: 0 <= d <= 2 ==> summary != NatToString(d)
    ensures ResultNoFromChatHistory(summary, t) == -1
  {
  }

  /** The bare digit "1" does not always yield 1: a first choice "1" claims it first. */
  lemma DigitShadowedByFirstChoice(t: TestObject, text: string)
    requires t.expectedAnswer1 == "1" && t.expectedAnswer2 == "Nurse" && t.expectedAnswer3 == "Patient"
    requires text == "1"
    ensures ResultNoFromChatHistory(text, t) == 0
  {
    var u := Upper(text);
    assert u == "1";
    NamedAt(t, u, 0, 0);
    NotNamed(t, u, 1);
    NotNamed(t, u, 2);
  }

  // ---------------------------------------------------------------------------
  // foundResultFromChatHistory

  /** The extraction as applied to one turn: the digit is compared with the upper-cased content too. */
  function TurnChoice(t: TestObject, content: string): int {
    var u := Upper(content);
    Pick(t, u, u)
  }

  /** Comparing the upper-cased or the raw content with "0", "1", "2" makes no difference. */
  lemma TurnChoiceIsResultNo(t: TestObject, content: string)
    requires HasChoices(t)
    ensures TurnChoice(t, content) == ResultNoFromChatHistory(content, t)
  {
    DigitStrings();
    var u := Upper(content);
    if content == "" {
      assert !Contains("", Upper(t.expectedAnswer1));
      assert !Contains("", Upper(t.expectedAnswer2));
      assert !Contains("", Upper(t.expectedAnswer3));
    } else {
      forall k | 0 <= k <= 2 ensures Selects(t, u, u, k) == Selects(t, u, content, k) {
        UpperIsDigitsExactly(content, NatToString(k));
      }
    }
  }

  /** A turn that `foundResultFromChatHistory` accepts. */
  predicate Answers(t: TestObject, role: string, turn: Turn) {
    turn.role == role && IsRealContent(turn.content) && HasChoices(t) && TurnChoice(t, turn.content) != -1
  }

  /** What `foundResultFromChatHistory` returns: the label of the answer in the latest accepted turn, or "". */
  function FoundAnswer(chatHistory: seq<Turn>, t: TestObject, role: string): string {
    var i := LatestIndex(chatHistory, (turn: Turn) => Answers(t, role, turn));
    if i < 0 then "" else Label(t, TurnChoice(t, chatHistory[i].content))
  }

  /** The answer found is the one of the latest accepted turn. */
  lemma FoundAnswerAt(chatHistory: seq<Turn>, t: TestObject, role: string, i: int)
    requires 0 <= i < |chatHistory| && Answers(t, role, chatHistory[i])
    requires forall j :: i < j < |chatHistory| ==> !Answers(t, role, chatHistory[j])
    ensures FoundAnswer(chatHistory, t, role) == Label(t, TurnChoice(t, chatHistory[i].content))
  {
    var p := (turn: Turn) => Answers(t, role, turn);
    var r := LatestIndex(chatHistory, p);
    assert p(chatHistory[i]);
    assert r == i;
  }

  /** The body of the scan for one turn: whether it names an answer, and that answer's label. */
  method TurnAnswer(chat: Turn, t: TestObject, role: string) returns (found: bool, answer: string)
    ensures found == Answers(t, role, chat)
    ensures found ==> answer == Label(t, TurnChoice(t, chat.content))
  {
    LabelsSpelledOut(t);
    found, answer := false, "";
    if chat.role == role && IsRealContent(chat.content) {
      if HasChoices(t) {
        var content := Upper(chat.content);
        if Selects(t, content, content, 0) {
          found, answer := true, "0 = " + t.expectedAnswer1;
        } else if Selects(t, content, content, 1) {
          found, answer := true, "1 = " + t.expectedAnswer2;
        } else if Selects(t, content, content, 2) {
          found, answer := true, "2 = " + t.expectedAnswer3;
        }
      }
    }
  }

  /** `Scenario.foundResultFromChatHistory`: scan the turns newest first, skipping the ones that name no answer. */
  method FoundResultFromChatHistory(chatHistory: seq<Turn>, t: TestObject, role: string) returns (r: string)
    ensures r == FoundAnswer(chatHistory, t, role)
  {
    var i := |chatHistory|;
    while i > 0
      invariant 0 <= i <= |chatHistory|
      invariant forall j :: i <= j < |chatHistory| ==> !Answers(t, role, chatHistory[j])
    {
      i := i - 1;
      var found, answer := TurnAnswer(chatHistory[i], t, role);
      if found {
        FoundAnswerAt(chatHistory, t, role, i);
        return answer;
      }
    }
    return "";
  }

  /** An empty answer means no turn qualified; otherwise it is the label of the newest qualifying turn's answer. */
  lemma FoundAnswerIsLatest(chatHistory: seq<Turn>, t: TestObject, role: string)
    ensures FoundAnswer(chatHistory, t, role) == "" <==> forall j :: 0 <= j < |chatHistory| ==> !Answers(t, role, chatHistory[j])
    ensures FoundAnswer(chatHistory, t, role) != "" ==>
      exists i :: 0 <= i < |chatHistory| && Answers(t, role, chatHistory[i])
        && (forall j :: i < j < |chatHistory| ==> !Answers(t, role, chatHistory[j]))
        && ResultNoFromChatHistory(chatHistory[i].content, t) >= 0
        && FoundAnswer(chatHistory, t, role) == Label(t, ResultNoFromChatHistory(chatHistory[i].content, t))
  {
    var i := LatestIndex(chatHistory, (turn: Turn) => Answers(t, role, turn));
    if i >= 0 {
      TurnChoiceIsResultNo(t, chatHistory[i].content);
      assert Answers(t, role, chatHistory[i]);
    }
  }

  /** An extracted answer is always one of the "k = choice" entries the prompt offered. */
  lemma FoundAnswerIsOffered(chatHistory: seq<Turn>, t: TestObject, role: string)
    requires FoundAnswer(chatHistory, t, role) != ""
    ensures HasChoices(t)
    ensures Contains(GetPossibleAnswers(t), FoundAnswer(chatHistory, t, role))
    ensures Contains(GetQuestion(t), FoundAnswer(chatHistory, t, role))
  {
    var i := LatestIndex(chatHistory, (turn: Turn) => Answers(t, role, turn));
    assert Answers(t, role, chatHistory[i]);
    PossibleAnswersListEveryChoice(t);
    QuestionListsEveryChoice(t);
  }

  /** Reading a reported label "k = choice" back yields k, unless another choice occurs inside that label. */
  lemma LabelReadsBack(t: TestObject, k: int)
    requires HasChoices(t) && 0 <= k <= 2
    requires forall j :: 0 <= j <= 2 && j != k ==> !Names(t, Upper(Label(t, k)), j)
    ensures ResultNoFromChatHistory(Label(t, k), t) == k
  {
    DigitStrings();
    var prefix := NatToString(k) + " = ";
    UpperAppend(prefix, Choice(t, k));
    ContainsInfix(Upper(prefix), Upper(Choice(t, k)), "");
    assert Upper(prefix) + Upper(Choice(t, k)) + "" == Upper(Label(t, k));
    assert |Label(t, k)| > 1;
    ResultNoNamesOnlyChoice(Label(t, k), t, k);
  }

  /**
   * A choice that is a digit can make a reported label unreadable: against
   * the choices 1, Nurse, Patient, the turn "Nurse" is reported as "1 = Nurse",
   * and that label names both the first and the second choice.
   */
  lemma LabelMayNotReadBack(t: TestObject, h: seq<Turn>)
    requires t.expectedAnswer1 == "1" && t.expectedAnswer2 == "Nurse" && t.expectedAnswer3 == "Patient"
    requires |h| == 1 && h[0].role == UserRole && h[0].content == "Nurse"
    ensures FoundAnswer(h, t, UserRole) == "1 = Nurse"
    ensures ResultNoFromChatHistory(FoundAnswer(h, t, UserRole), t) == -1
  {
    NurseTurnAnswersSecond(t, h);
    LabelNamesFirstAndSecond(t, FoundAnswer(h, t, UserRole));
  }

  lemma NurseTurnAnswersSecond(t: TestObject, h: seq<Turn>)
    requires t.expectedAnswer1 == "1" && t.expectedAnswer2 == "Nurse" && t.expectedAnswer3 == "Patient"
    requires |h| == 1 && h[0].role == UserRole && h[0].content == "Nurse"
    ensures FoundAnswer(h, t, UserRole) == "1 = Nurse"
  {
    NurseNamesSecond(t, h[0].content);
    NotContainsFirst(h[0].content, TerminalReply);
    NotContainsFirst(h[0].content, CourtesyPhrase);
    LabelsSpelledOut(t);
    FoundAnswerAt(h, t, UserRole, 0);
  }

  lemma NurseNamesSecond(t: TestObject, c: string)
    requires t.expectedAnswer1 == "1" && t.expectedAnswer2 == "Nurse" && t.expectedAnswer3 == "Patient"
    requires c == "Nurse"
    ensures TurnChoice(t, c) == 1
  {
    var v := Upper(c);
    assert v == "NURSE";
    assert Upper("Nurse") == "NURSE";
    NotNamed(t, v, 0);
    NamedAt(t, v, 1, 0);
    NotNamed(t, v, 2);
  }

  lemma LabelNamesFirstAndSecond(t: TestObject, text: string)
    requires t.expectedAnswer1 == "1" && t.expectedAnswer2 == "Nurse" && t.expectedAnswer3 == "Patient"
    requires text == "1 = Nurse"
    ensures ResultNoFromChatHistory(text, t) == -1
  {
    DigitStrings();
    var u := Upper(text);
    UpperAppend("1 = ", "Nurse");
    assert Upper("1 = ") == "1 = " && Upper("Nurse") == "NURSE";
    assert u == "1 = NURSE";
    assert Upper("1") == "1";
    NamedAt(t, u, 0, 0);
    NamedAt(t, u, 1, 4);
    ResultNoAmbiguous(text, t, 0, 1);
  }

  // ---------------------------------------------------------------------------
  // summaryFromChatHistory

  /** A turn that `summaryFromChatHistory` accepts. */
  predicate SummaryCandidate(role: string, turn: Turn) {
    turn.role == role && IsRealContent(turn.content) && turn.content != TerminatedNotice
  }

  /** What `summaryFromChatHistory` returns: the content of the latest accepted turn, or "". */
  function SummaryOf(chatHistory: seq<Turn>, role: string): (s: string)
    ensures IsRealContent(s) && s != TerminatedNotice
    ensures (forall j :: 0 <= j < |chatHistory| ==> !SummaryCandidate(role, chatHistory[j])) ==> s == ""
    ensures s != "" ==>
      exists i :: 0 <= i < |chatHistory| && SummaryCandidate(role, chatHistory[i])
        && (forall j :: i < j < |chatHistory| ==> !SummaryCandidate(role, chatHistory[j]))
        && s == chatHistory[i].content
    ensures forall i ::
      (0 <= i < |chatHistory| && SummaryCandidate(role, chatHistory[i])
        && forall j :: i < j < |chatHistory| ==> !SummaryCandidate(role, chatHistory[j]))
      ==> s == chatHistory[i].content
  {
    var i := LatestIndex(chatHistory, (turn: Turn) => SummaryCandidate(role, turn));
    if i < 0 then "" else chatHistory[i].content
  }

  /** `Scenario.summaryFromChatHistory`: scan the turns newest first and stop at the first accepted one. */
  method SummaryFromChatHistory(chatHistory: seq<Turn>, role: string) returns (summary: string)
    ensures summary == SummaryOf(chatHistory, role)
  {
    summary := "";
    var i := |chatHistory|;
    while i > 0
      invariant 0 <= i <= |chatHistory|
      invariant forall j :: i <= j < |chatHistory| ==> !SummaryCandidate(role, chatHistory[j])
    {
      i := i - 1;
      var chat := chatHistory[i];
      if SummaryCandidate(role, chat) {
        summary := chat.content;
        break;
      }
    }
  }

  // ---------------------------------------------------------------------------
  // stringFromArray

  /** An element of the list handed to `stringFromArray`, by its Python type. */
  datatype Part =
    | TextPart(text: string)                  // a str
    | BaseResultPart(baseResulttext: string)  // a ResultObject, by its baseResulttext
    | ScenarioResultPart(resultText: string)  // a ScenarioResult, by its resultText
    | OtherPart                               // anything else, which is only reported

  /** The text `stringFromArray` builds: each part of a known type adds a space and its text. */
  function Joined(parts: seq<Part>): string {
    if parts == [] then ""
    else
      var before := Joined(parts[..|parts| - 1]);
      match parts[|parts| - 1]
      case TextPart(s) => before + " " + s
      case BaseResultPart(s) => before + " " + s
      case ScenarioResultPart(s) => before + " " + s
      case OtherPart => before
  }

  /** `Scenario.stringFromArray`. */
  method StringFromArray(items: seq<Part>) returns (result: string)
    ensures result == Joined(items)
  {
    result := "";
    for i := 0 to |items|
      invariant result == Joined(items[..i])
    {
      assert items[..i + 1][..i] == items[..i];
      match items[i]
      case TextPart(s) => result := result + " " + s;
      case BaseResultPart(s) => result := result + " " + s;
      case ScenarioResultPart(s) => result := result + " " + s;
      case OtherPart =>
    }
    assert items[..|items|] == items;
  }

  /** The text of a list is the text of its parts, in order. */
  lemma {:induction false} JoinedAppend(a: seq<Part>, b: seq<Part>)
    ensures Joined(a + b) == Joined(a) + Joined(b)
    decreases |b|
  {
    if b != [] {
      var b' := b[..|b| - 1];
      assert (a + b)[..|a + b| - 1] == a + b';
      JoinedAppend(a, b');
    } else {
      assert a + b == a;
    }
  }

  /** Elements of other types leave no trace; each text element contributes a space and its text. */
  lemma JoinedPieces(a: seq<Part>, s: string, b: seq<Part>)
    ensures Joined(a + [OtherPart] + b) == Joined(a) + Joined(b)
    ensures Joined(a + [TextPart(s)] + b) == Joined(a) + " " + s + Joined(b)
  {
    JoinedAppend(a + [OtherPart], b);
    JoinedAppend(a, [OtherPart]);
    JoinedAppend(a + [TextPart(s)], b);
    JoinedAppend(a, [TextPart(s)]);
  }

  // ---------------------------------------------------------------------------
  // Results of a scenario

  datatype ScenarioResult = ScenarioResult(
    testNo: Value,
    scenarioName: string,
    expertAnswer: string,
    resultText: string,
    resultValue: int,
    hasFoundAnswer: bool)

  /** `Scenario.hasFoundExpectedAnswer`. */
  predicate HasFoundExpectedAnswer(answerNo: int, t: TestObject) {
    answerNo == t.positiveResult
  }

  /** An unresolved answer never counts as found for a label in 0..2. */
  lemma UnresolvedNeverFound(t: TestObject)
    requires 0 <= t.positiveResult <= 2
    ensures !HasFoundExpectedAnswer(-1, t)
    ensures forall s :: ResultNoFromChatHistory(s, t) == -1 ==> !HasFoundExpectedAnswer(ResultNoFromChatHistory(s, t), t)
  {
  }

  // ---------------------------------------------------------------------------
  // Usage statistics

  /** `agentUsages.get(name, 0)`. */
  function Usage(m: map<string, int>, name: string): int {
    if name in m then m[name] else 0
  }

  /** The map after counting each name of `names`, in order, with `get + 1`. */
  function Counted(m: map<string, int>, names: seq<string>): map<string, int> {
    if names == [] then m
    else
      var before := Counted(m, names[..|names| - 1]);
      var name := names[|names| - 1];
      before[name := Usage(before, name) + 1]
  }

  function Occurrences(names: seq<string>, name: string): nat {
    if names == [] then 0
    else Occurrences(names[..|names| - 1], name) + (if names[|names| - 1] == name then 1 else 0)
  }

  /** The sum of all counts in the map. */
  ghost function Total(m: map<string, int>): int
    decreases |m|
  {
    if m == map[] then 0
    else
      var k :| k in m;
      m[k] + Total(m - {k})
  }

  lemma {:induction false} TotalRemove(m: map<string, int>, k: string)
    requires k in m
    ensures Total(m) == m[k] + Total(m - {k})
    decreases |m|
  {
    var j :| j in m && Total(m) == m[j] + Total(m - {j});
    if j != k {
      assert (m - {j}).Keys == m.Keys - {j};
      assert (m - {k}).Keys == m.Keys - {k};
      TotalRemove(m - {j}, k);
      TotalRemove(m - {k}, j);
      assert m - {j} - {k} == m - {k} - {j};
    }
  }

  /** Raising one count by one raises the total by one. */
  lemma TotalBump(m: map<string, int>, name: string)
    ensures Total(m[name := Usage(m, name) + 1]) == Total(m) + 1
  {
    var m' := m[name := Usage(m, name) + 1];
    TotalRemove(m', name);
    assert m' - {name} == m - {name};
    if name in m {
      TotalRemove(m, name);
    } else {
      assert m - {name} == m;
    }
  }

  /** Counting a list of names raises each name's count by its number of occurrences. */
  lemma {:induction false} CountedUsage(m: map<string, int>, names: seq<string>, name: string)
    ensures Usage(Counted(m, names), name) == Usage(m, name) + Occurrences(names, name)
    decreases |names|
  {
    if names != [] {
      CountedUsage(m, names[..|names| - 1], name);
    }
  }

  /** Counting a list of names raises the total of all counts by its length. */
  lemma {:induction false} CountedTotal(m: map<string, int>, names: seq<string>)
    ensures Total(Counted(m, names)) == Total(m) + |names|
    decreases |names|
  {
    if names != [] {
      CountedTotal(m, names[..|names| - 1]);
      TotalBump(Counted(m, names[..|names| - 1]), names[|names| - 1]);
    }
  }

  /** Counting two lists one after the other is counting their concatenation. */
  lemma {:induction false} CountedAppend(m: map<string, int>, a: seq<string>, b: seq<string>)
    ensures Counted(Counted(m, a), b) == Counted(m, a + b)
    decreases |b|
  {
    if b == [] {
      assert a + b == a;
    } else {
      assert (a + b)[..|a + b| - 1] == a + b[..|b| - 1];
      CountedAppend(m, a, b[..|b| - 1]);
    }
  }

  // ---------------------------------------------------------------------------
  // execute

  /**
   * What the external chats of one `execute` call produce. `None` stands for
   * an exception raised by `initiate_chat`.
   */
  datatype Conversation = Conversation(
    expertChat: Option<ChatResult>,     // the chat with the single critic, or with the group-chat manager
    roundRobinSummary: string,          // createSummary(discussTopic(...)) when no group chat is used
    roundRobinResponders: seq<string>,  // the critics that answered in discussTopic, in order
    groupSpeakers: seq<string>,         // the name on every message in the group chat
    finalChat: Option<ChatResult>)      // the re-ask of the original question by userProxy2

  /** The critics' verdict taken from an expert chat: its summary, else the latest real turn of the user. */
  function ExpertOpinion(reply: ChatResult): string {
    if |reply.summary| > 0 then reply.summary else SummaryOf(reply.chatHistory, UserRole)
  }

  /** The new answer of the final chat: an extracted label, else the chat's summary. */
  function FinalAnswer(reply: ChatResult, t: TestObject): string {
    var found := FoundAnswer(reply.chatHistory, t, UserRole);
    if found == "" then reply.summary else found
  }

  /** The verdict read from an expert chat: its summary when it has one, else the scan of its history. */
  method ExpertVerdict(response: ChatResult) returns (result: string)
    ensures result == ExpertOpinion(response)
  {
    if |response.summary| > 0 {
      result := response.summary;
    } else {
      result := SummaryFromChatHistory(response.chatHistory, UserRole);
    }
  }

  class Scenario {
    const name: string
    const executerMessage: string
    /** The names of the scenario's critic agents. */
    const agents: seq<string>
    const useGroupChat: bool
    const requiresUserInput: bool
    var agentUsages: map<string, int>
    /** The " caseNo" entry of the source's usage dictionary. */
    var caseNo: Value

    constructor(name: string, executerMessage: string, agents: seq<string>)
      ensures this.name == name && this.executerMessage == executerMessage && this.agents == agents
      ensures !useGroupChat && !requiresUserInput
      ensures agentUsages == map[] && caseNo == Null
    {
      this.name := name;
      this.executerMessage := executerMessage;
      this.agents := agents;
      useGroupChat := false;
      requiresUserInput := false;
      agentUsages := map[];
      caseNo := Null;
    }

    /** The critics were reached: there is at least one, and the chat with them did not raise. */
    predicate ExpertPhaseOk(conv: Conversation) {
      |agents| >= 1 && ((|agents| == 1 || useGroupChat) ==> conv.expertChat.Some?)
    }

    function ExpertResult(conv: Conversation): string
      requires ExpertPhaseOk(conv)
    {
      if |agents| == 1 || useGroupChat then ExpertOpinion(conv.expertChat.value) else conv.roundRobinSummary
    }

    /** The names counted before the final chat once the critics were reached. */
    function ExpertUsages(conv: Conversation): seq<string>
      requires ExpertPhaseOk(conv)
    {
      if |agents| == 1 then [ExecuterName, agents[0]]
      else if useGroupChat then conv.groupSpeakers
      else conv.roundRobinResponders + conv.groupSpeakers
    }

    /** The result of `execute` as a function of the chats it runs. */
    function Outcome(t: TestObject, answerToDiscuss: string, conv: Conversation): (r: Option<ScenarioResult>)
      ensures r.Some? <==> ExpertPhaseOk(conv) && conv.finalChat.Some?
      ensures r.Some? ==>
        && r.value.testNo == t.refId && r.value.scenarioName == name
        && r.value.expertAnswer == " " + ExpertResult(conv)
        && r.value.resultText == FinalAnswer(conv.finalChat.value, t)
        && -1 <= r.value.resultValue <= 2
        && r.value.resultValue == ResultNoFromChatHistory(r.value.resultText, t)
        && r.value.hasFoundAnswer == HasFoundExpectedAnswer(r.value.resultValue, t)
    {
      if ExpertPhaseOk(conv) && conv.finalChat.Some? then
        var newAnswer := FinalAnswer(conv.finalChat.value, t);
        var resultNo := ResultNoFromChatHistory(newAnswer, t);
        Some(ScenarioResult(t.refId, name, " " + ExpertResult(conv), newAnswer, resultNo, resultNo == t.positiveResult))
      else None
    }

    /** One `agentUsages[name] = agentUsages.get(name, 0) + 1`. */
    method CountUsage(agent: string)
      modifies this
      ensures agentUsages == Counted(old(agentUsages), [agent])
      ensures caseNo == old(caseNo)
    {
      agentUsages := agentUsages[agent := Usage(agentUsages, agent) + 1];
    }

    /** The counting loop over the messages of a chat. */
    method CountUsages(speakers: seq<string>)
      modifies this
      ensures agentUsages == Counted(old(agentUsages), speakers)
      ensures caseNo == old(caseNo)
    {
      var agentCounter := 0;
      for i := 0 to |speakers|
        invariant agentUsages == Counted(old(agentUsages), speakers[..i])
        invariant caseNo == old(caseNo)
        invariant agentCounter == i
      {
        assert speakers[..i + 1][..i] == speakers[..i];
        var assistantName := speakers[i];
        var agentOfUse := Usage(agentUsages, assistantName);
        agentUsages := agentUsages[assistantName := agentOfUse + 1];
        agentCounter := agentCounter + 1;
      }
      assert speakers[..|speakers|] == speakers;
    }

    /**
     * The first half of `execute`: ask the critics about the answer under
     * discussion and count who spoke. `ok` is false where the source returns
     * None before the final chat.
     */
    method ConsultCritics(conv: Conversation) returns (ok: bool, summary: string)
      modifies this
      ensures ok == ExpertPhaseOk(conv)
      ensures ok ==> summary == " " + ExpertResult(conv) && agentUsages == Counted(old(agentUsages), ExpertUsages(conv))
      ensures !ok ==> agentUsages == old(agentUsages)
      ensures caseNo == old(caseNo)
    {
      var results: seq<Part> := [];
      if |agents| == 1 {
        if conv.expertChat.None? {
          return false, "";
        }
        var result := ExpertVerdict(conv.expertChat.value);
        results := [TextPart(result)];
        CountUsage(ExecuterName);
        CountUsage(agents[0]);
        CountedAppend(old(agentUsages), [ExecuterName], [agents[0]]);
      } else if |agents| > 1 {
        if useGroupChat {
          if conv.expertChat.None? {
            return false, "";
          }
          var result := ExpertVerdict(conv.expertChat.value);
          results := results + [TextPart(result)];
        } else {
          // discussTopic counts every critic that answered; createSummary condenses the answers.
          CountUsages(conv.roundRobinResponders);
          results := results + [TextPart(conv.roundRobinSummary)];
        }
        CountUsages(conv.groupSpeakers);
        if !useGroupChat {
          CountedAppend(old(agentUsages), conv.roundRobinResponders, conv.groupSpeakers);
        }
      } else {
        return false, "";
      }
      ok := true;
      summary := StringFromArray(results);
      assert results == [] + [TextPart(ExpertResult(conv))] + [];
      JoinedPieces([], ExpertResult(conv), []);
    }

    /**
     * `Scenario.execute`. The ghost `statistic` and `statisticCaseNo` are the
     * usage map and its " caseNo" entry at the moment they are written to the
     * statistics file; on success the map, the case number with it, is then
     * reset.
     */
    method Execute(t: TestObject, answerToDiscuss: string, conv: Conversation)
      returns (r: Option<ScenarioResult>, ghost statistic: map<string, int>, ghost statisticCaseNo: Value)
      modifies this
      ensures r == Outcome(t, answerToDiscuss, conv)
      ensures r.Some? ==> caseNo == Null
      ensures r.None? ==> caseNo == t.refId
      ensures r.Some? ==> statistic == Counted(old(agentUsages), ExpertUsages(conv) + [ExecuterName])
      ensures r.Some? ==> statisticCaseNo == t.refId
      ensures r.Some? ==> agentUsages == map[]
      ensures r.None? && ExpertPhaseOk(conv) ==> agentUsages == Counted(old(agentUsages), ExpertUsages(conv))
      ensures r.None? && !ExpertPhaseOk(conv) ==> agentUsages == old(agentUsages)
    {
      statistic := agentUsages;
      caseNo := t.refId;
      var ok, summary := ConsultCritics(conv);
      if !ok || conv.finalChat.None? {
        return None, statistic, caseNo;
      }
      var newResponse := conv.finalChat.value;
      CountUsage(ExecuterName);
      CountedAppend(old(agentUsages), ExpertUsages(conv), [ExecuterName]);
      statistic := agentUsages;
      statisticCaseNo := caseNo;
      var newAnswer := FoundResultFromChatHistory(newResponse.chatHistory, t, UserRole);
      if newAnswer == "" {
        newAnswer := newResponse.summary;
      }
      var resultNo := ResultNoFromChatHistory(newAnswer, t);
      r := Some(ScenarioResult(t.refId, name, summary, newAnswer, resultNo, resultNo == t.positiveResult));
      agentUsages := map[];
      caseNo := Null;
    }
  }

  /** Over a successful call, every critic's count rises by its number of turns and the total by the number of turns. */
  lemma ExecuteStatistic(s: Scenario, conv: Conversation, before: map<string, int>, agent: string)
    requires s.ExpertPhaseOk(conv)
    ensures var log := s.ExpertUsages(conv) + [ExecuterName];
      && Usage(Counted(before, log), agent) == Usage(before, agent) + Occurrences(log, agent)
      && Total(Counted(before, log)) == Total(before) + |log|
  {
    CountedUsage(before, s.ExpertUsages(conv) + [ExecuterName], agent);
    CountedTotal(before, s.ExpertUsages(conv) + [ExecuterName]);
  }
}
