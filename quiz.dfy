/**
 * The verification quiz of internal/bot/quiz.go: the question deck and the effect of one button
 * press (the handler CreateQuizHandler builds, behind the OnlyNewbies gate of internal/bot/utils.go)
 * on the verification state.
 */
module Quiz {
  import opened Wrappers
  import opened CoreState

  datatype Button = Button(unique: string, text: string)

  datatype Question = Question(text: string, buttons: seq<Button>, answer: string)

  /** The localized question texts; the deck itself is fixed. */
  datatype QuizTexts = QuizTexts(q1: string, q2: string, q3: string)

  /** A question whose answer is the tag of one of its own buttons. */
  predicate Answerable(q: Question) {
    exists b :: b in q.buttons && b.unique == q.answer
  }

  /** The pass threshold of the last question's verdict. */
  const PassMark: int := 2

  /** DefaultQuiz: three questions of three buttons, each answered by one of its own buttons. */
  function DefaultQuiz(t: QuizTexts): (qs: seq<Question>)
    ensures |qs| == 3
    ensures forall i :: 0 <= i < |qs| ==> |qs[i].buttons| == 3 && Answerable(qs[i])
  {
    var q1 := Question(t.q1, [Button("q1_usos", "USOS"), Button("q1_edupl", "EDUPL"), Button("q1_muci", "MUCI")], "q1_usos");
    var q2 := Question(t.q2, [Button("q2_gmail", "Gmail"), Button("q2_outlook", "Outlook"), Button("q2_yahoo", "Yahoo")], "q2_outlook");
    var q3 := Question(t.q3, [Button("q3_niepodleglosci", "Ul. Niepodleg\U{142}o\U{15B}ci"),
                              Button("q3_chinska", "Ul. Chi\U{144}ska"),
                              Button("q3_roz", "Ul. R\U{F3}\U{17C}")], "q3_niepodleglosci");
    assert q1.buttons[0] in q1.buttons && q2.buttons[1] in q2.buttons && q3.buttons[0] in q3.buttons;
    [q1, q2, q3]
  }

  /** What a button press leads to. */
  datatype Outcome =
    | NextQuestion(index: nat)   // the next question is shown, no verdict yet
    | Passed                     // restriction lifted, newbie flag cleared
    | Failed                     // restriction stays
    | NotYourButton              // OnlyNewbies refused the press

  function Point(q: Question, btn: Button): nat {
    if btn.unique == q.answer then 1 else 0
  }

  /**
   * The quiz handler for button `btn` of question `i`: a correct press adds one; before the last
   * question nothing else happens; on the last one the verdict is Passed iff the count reaches
   * PassMark, only a pass clears the newbie flag, and the count entry is dropped either way.
   */
  function AnswerStep(v: Verification, quiz: seq<Question>, i: nat, btn: Button, u: int): (r: (Verification, Outcome))
    requires i < |quiz|
    ensures i + 1 < |quiz| ==> r.1 == NextQuestion(i + 1) && r.0.newbie == v.newbie
                               && r.0.TotalCorrect(u) == v.TotalCorrect(u) + Point(quiz[i], btn)
    ensures i + 1 == |quiz| ==> (r.1 == Passed <==> v.TotalCorrect(u) + Point(quiz[i], btn) >= PassMark)
    ensures i + 1 == |quiz| ==> (r.1 == Passed || r.1 == Failed) && u !in r.0.userCorrect
    ensures r.1 == Passed ==> !r.0.IsNewbie(u)
    ensures r.1 == Failed ==> r.0.newbie == v.newbie
    ensures SameExcept(v.userCorrect, r.0.userCorrect, u) && SameExcept(v.newbie, r.0.newbie, u)
  {
    var v1 := if btn.unique == quiz[i].answer then v.IncCorrect(u) else v;
    if i + 1 < |quiz| then (v1, NextQuestion(i + 1))
    else if v1.TotalCorrect(u) >= PassMark then (v1.ClearNewbie(u).Reset(u), Passed)
    else (v1.Reset(u), Failed)
  }

  /** OnlyNewbies around the quiz handler: only a known sender who is a newbie gets through. */
  function PressButton(v: Verification, sender: Option<int>, quiz: seq<Question>, i: nat, btn: Button): (r: (Verification, Outcome))
    requires i < |quiz|
    ensures (sender.None? || !v.IsNewbie(sender.value)) ==> r == (v, NotYourButton)
    ensures sender.Some? && v.IsNewbie(sender.value) ==> r == AnswerStep(v, quiz, i, btn, sender.value)
  {
    if sender.Some? && v.IsNewbie(sender.value) then AnswerStep(v, quiz, i, btn, sender.value)
    else (v, NotYourButton)
  }

  /** The number of correct presses among `answers`, given to questions i, i+1, ... */
  function Score(quiz: seq<Question>, i: nat, answers: seq<Button>): nat
    requires i + |answers| <= |quiz|
    decreases |answers|
  {
    if answers == [] then 0 else Point(quiz[i], answers[0]) + Score(quiz, i + 1, answers[1..])
  }

  /** The user `u` presses one button per question, from question i to the last. */
  function Run(v: Verification, quiz: seq<Question>, u: int, i: nat, answers: seq<Button>): (Verification, Outcome)
    requires i < |quiz| && |answers| == |quiz| - i
    decreases |answers|
  {
    var (w, o) := PressButton(v, Some(u), quiz, i, answers[0]);
    if o.NextQuestion? && i + 1 < |quiz| then Run(w, quiz, u, i + 1, answers[1..]) else (w, o)
  }

  /**
   * From question i on, a newbie is never refused by the gate; the verdict is Passed iff the count
   * so far plus the correct presses still to come reaches PassMark; the count entry ends up deleted,
   * a pass clears the flag, a failure leaves every flag as it was, and other users are untouched.
   */
  lemma {:induction false} RunVerdict(v: Verification, quiz: seq<Question>, u: int, i: nat, answers: seq<Button>)
    requires i < |quiz| && |answers| == |quiz| - i
    requires v.IsNewbie(u)
    ensures var (w, o) := Run(v, quiz, u, i, answers);
      && (o == Passed || o == Failed)
      && (o == Passed <==> v.TotalCorrect(u) + Score(quiz, i, answers) >= PassMark)
      && u !in w.userCorrect
      && (o == Passed ==> !w.IsNewbie(u))
      && (o == Failed ==> w.newbie == v.newbie)
      && SameExcept(v.userCorrect, w.userCorrect, u) && SameExcept(v.newbie, w.newbie, u)
    decreases |answers|
  {
    var (w, o) := PressButton(v, Some(u), quiz, i, answers[0]);
    if i + 1 < |quiz| {
      assert w.IsNewbie(u);
      RunVerdict(w, quiz, u, i + 1, answers[1..]);
    } else {
      assert answers[1..] == [];
    }
  }

  /** The whole quiz after HandleStudent reset the count: pass iff at least PassMark answers are right. */
  lemma QuizFromStart(v: Verification, quiz: seq<Question>, u: int, answers: seq<Button>)
    requires |quiz| > 0 && |answers| == |quiz|
    requires v.IsNewbie(u)
    ensures var (w, o) := Run(v.InitUser(u), quiz, u, 0, answers);
      && (o == Passed <==> Score(quiz, 0, answers) >= PassMark)
      && (o == Failed ==> w.IsNewbie(u))
      && u !in w.userCorrect
  {
    RunVerdict(v.InitUser(u), quiz, u, 0, answers);
  }

  /** The default deck: [correct, wrong, correct] passes, [wrong, wrong, correct] fails. */
  lemma DefaultQuizExamples(t: QuizTexts, v: Verification, u: int)
    requires v.IsNewbie(u)
    ensures Run(v.InitUser(u), DefaultQuiz(t), u, 0,
                [Button("q1_usos", "USOS"), Button("q2_gmail", "Gmail"), Button("q3_niepodleglosci", "")]).1 == Passed
    ensures Run(v.InitUser(u), DefaultQuiz(t), u, 0,
                [Button("q1_edupl", "EDUPL"), Button("q2_gmail", "Gmail"), Button("q3_niepodleglosci", "")]).1 == Failed
  {
    var quiz := DefaultQuiz(t);
    var good := [Button("q1_usos", "USOS"), Button("q2_gmail", "Gmail"), Button("q3_niepodleglosci", "")];
    var bad := [Button("q1_edupl", "EDUPL"), Button("q2_gmail", "Gmail"), Button("q3_niepodleglosci", "")];
    assert Score(quiz, 0, good) == 2;
    assert Score(quiz, 0, bad) == 1;
    QuizFromStart(v, quiz, u, good);
    QuizFromStart(v, quiz, u, bad);
  }
}
