/** The answer sheet of the quiz page: the list of chosen options, the question cursor, and the
    result panel that a successful submission opens. */
module QuizPage {
  import opened Wrappers
  import opened Seqs
  import opened Schema
  import opened Routes

  /** One chosen option, by its index in the question's option list. */
  datatype Answer = Answer(questionId: string, selectedAnswer: int)

  /** No two entries answer the same question. */
  predicate NoDuplicateIds(answers: seq<Answer>) {
    forall i, j :: 0 <= i < j < |answers| ==> answers[i].questionId != answers[j].questionId
  }

  predicate Names(questionId: string, a: Answer) {
    a.questionId == questionId
  }

  /** The option chosen for `questionId`, if any (`answers.find(...)?.selectedAnswer`). */
  function SelectedAnswer(answers: seq<Answer>, questionId: string): (r: Option<int>)
    ensures r.None? <==> forall a :: a in answers ==> a.questionId != questionId
    ensures r.Some? ==> Answer(questionId, r.value) in answers
  {
    match First(answers, a => Names(questionId, a))
    case None => None
    case Some(a) => Some(a.selectedAnswer)
  }

  /** The state updater of `handleSelectAnswer`: overwrite the entry for `questionId` where it
      stands, or append a new one. */
  function SetAnswer(prev: seq<Answer>, questionId: string, answerIndex: int): (r: seq<Answer>)
    ensures |r| == |prev| || |r| == |prev| + 1
  {
    match FirstIndex(prev, a => Names(questionId, a))
    case Some(k) => prev[k := Answer(questionId, answerIndex)]
    case None => prev + [Answer(questionId, answerIndex)]
  }

  /** Where an entry already existed, only its position changes; otherwise exactly one entry
      is appended at the end. */
  lemma SetAnswerShape(prev: seq<Answer>, questionId: string, answerIndex: int)
    ensures var r := SetAnswer(prev, questionId, answerIndex);
            if exists a :: a in prev && a.questionId == questionId then
              |r| == |prev|
              && exists k :: 0 <= k < |prev| && prev[k].questionId == questionId
                             && r[k] == Answer(questionId, answerIndex)
                             && forall j :: 0 <= j < |prev| && j != k ==> r[j] == prev[j]
            else
              r == prev + [Answer(questionId, answerIndex)]
  {
    var p := (a: Answer) => Names(questionId, a);
    match FirstIndex(prev, p)
    case Some(k) => {
    }
    case None => {
      assert forall a :: a in prev ==> !p(a);
    }
  }

  /** After selecting, the sheet reports the new choice for that question. */
  lemma SelectedAfterSet(prev: seq<Answer>, questionId: string, answerIndex: int)
    ensures SelectedAnswer(SetAnswer(prev, questionId, answerIndex), questionId) == Some(answerIndex)
  {
    var p := (a: Answer) => Names(questionId, a);
    var r := SetAnswer(prev, questionId, answerIndex);
    match FirstIndex(prev, p)
    case Some(k) => {
      var f := FirstIndex(r, p);
      assert p(r[k]);
      assert f.Some? && f.value <= k;
      assert f.value == k;
    }
    case None => {
      var f := FirstIndex(r, p);
      assert p(r[|prev|]);
      assert f.Some? && f.value == |prev|;
    }
  }

  /** Selecting for one question leaves every other question's choice as it was. */
  lemma OthersUnchangedBySet(prev: seq<Answer>, questionId: string, answerIndex: int, other: string)
    requires other != questionId
    ensures SelectedAnswer(SetAnswer(prev, questionId, answerIndex), other) == SelectedAnswer(prev, other)
  {
    var p := (a: Answer) => Names(questionId, a);
    var q := (a: Answer) => Names(other, a);
    var r := SetAnswer(prev, questionId, answerIndex);
    match FirstIndex(prev, p)
    case Some(k) => {
      assert |r| == |prev|;
      assert forall j :: 0 <= j < |r| ==> (q(r[j]) <==> q(prev[j]));
      assert forall j :: 0 <= j < |r| && q(r[j]) ==> r[j] == prev[j];
      SameFirstWhere(prev, r, q);
    }
    case None => {
      assert !q(r[|prev|]);
      assert forall j :: 0 <= j < |prev| ==> r[j] == prev[j];
      AppendedNonMatching(prev, Answer(questionId, answerIndex), q);
    }
  }

  /** Two equally long lists that agree wherever `p` holds in either have the same first match. */
  lemma SameFirstWhere(s: seq<Answer>, t: seq<Answer>, p: Answer -> bool)
    requires |s| == |t|
    requires forall j :: 0 <= j < |s| ==> (p(s[j]) <==> p(t[j]))
    requires forall j :: 0 <= j < |s| && p(t[j]) ==> t[j] == s[j]
    ensures First(s, p) == First(t, p)
  {
    var fs, ft := FirstIndex(s, p), FirstIndex(t, p);
    if fs.Some? {
      assert ft.Some?;
      assert fs.value == ft.value;
    } else {
      assert ft.None?;
    }
  }

  /** Appending an element that fails `p` keeps the first match. */
  lemma AppendedNonMatching(s: seq<Answer>, x: Answer, p: Answer -> bool)
    requires !p(x)
    ensures First(s + [x], p) == First(s, p)
  {
    FirstSkipsNonMatching(s, x, [], p);
    assert s + [x] + [] == s + [x];
    assert s + [] == s;
  }

  /** Selecting never creates a second entry for a question. */
  lemma SetAnswerKeepsNoDuplicates(prev: seq<Answer>, questionId: string, answerIndex: int)
    requires NoDuplicateIds(prev)
    ensures NoDuplicateIds(SetAnswer(prev, questionId, answerIndex))
  {
    var p := (a: Answer) => Names(questionId, a);
    match FirstIndex(prev, p)
    case Some(k) => {
    }
    case None => {
      var r := SetAnswer(prev, questionId, answerIndex);
      forall i, j | 0 <= i < j < |r|
        ensures r[i].questionId != r[j].questionId
      {
        if j == |prev| {
          assert !p(prev[i]);
        }
      }
    }
  }

  function AnswerIds(answers: seq<Answer>): (ids: seq<string>)
    ensures |ids| == |answers| && forall i :: 0 <= i < |answers| ==> ids[i] == answers[i].questionId
  {
    seq(|answers|, i requires 0 <= i < |answers| => answers[i].questionId)
  }

  /** With no duplicate entries, every entry naming a displayed question, and as many entries as
      questions, every displayed question has been answered. */
  lemma EveryQuestionAnswered(answers: seq<Answer>, questionIds: seq<string>)
    requires NoDuplicateIds(answers) && Distinct(questionIds)
    requires forall a :: a in answers ==> a.questionId in questionIds
    requires |answers| == |questionIds|
    ensures forall q :: q in questionIds ==> SelectedAnswer(answers, q).Some?
  {
    var ids := AnswerIds(answers);
    DistinctCard(ids);
    DistinctCard(questionIds);
    var given, shown := set x | x in ids, set x | x in questionIds;
    assert given <= shown by {
      forall x | x in given ensures x in shown {
        var i :| 0 <= i < |ids| && ids[i] == x;
        assert answers[i] in answers;
      }
    }
    if given != shown {
      var x :| x in shown && x !in given;
      assert given <= shown - {x};
      SubsetCard(given, shown - {x});
    }
    forall q | q in questionIds
      ensures SelectedAnswer(answers, q).Some?
    {
      assert q in given;
      var i :| 0 <= i < |ids| && ids[i] == q;
      assert answers[i] in answers;
    }
  }

  /** The "previous" cursor update: one step back, but never below zero. */
  function PrevIndex(current: int): (r: int)
    ensures 0 <= r && current - 1 <= r
    ensures r == 0 || r == current - 1
  {
    if 0 > current - 1 then 0 else current - 1
  }

  /** The "next" cursor update; a missing or empty question list counts as length 1. */
  function NextIndex(current: int, questionCount: Option<nat>): (r: int)
    ensures var n := if questionCount.None? || questionCount == Some(0) then 1 else questionCount.value;
            r <= n - 1 && (r == current + 1 || r == n - 1)
  {
    var n := match questionCount
      case None => 1
      case Some(k) => if k == 0 then 1 else k;
    if n - 1 < current + 1 then n - 1 else current + 1
  }

  /** A cursor inside the list stays inside under both buttons, moving by at most one. */
  lemma CursorStaysInRange(current: int, count: nat)
    requires 0 <= current < count
    ensures 0 <= PrevIndex(current) < count && 0 <= NextIndex(current, Some(count)) < count
    ensures PrevIndex(current) == if current == 0 then 0 else current - 1
    ensures NextIndex(current, Some(count)) == if current == count - 1 then current else current + 1
  {
  }

  /** `isLastQuestion`: a missing list counts as length 0. */
  function IsLastQuestion(current: int, questionCount: Option<nat>): (r: bool)
    ensures questionCount.Some? ==> (r <==> current == questionCount.value - 1)
    ensures questionCount.None? ==> (r <==> current == -1)
  {
    current == questionCount.GetOr(0) - 1
  }

  /** `allQuestionsAnswered`: false while the question list is missing. */
  function AllQuestionsAnswered(answers: seq<Answer>, questionCount: Option<nat>): (r: bool)
    ensures r <==> questionCount == Some(|answers|)
  {
    match questionCount
    case None => false
    case Some(n) => |answers| == n
  }

  /** The submit button is enabled only when all questions are answered and no submission is
      in flight. */
  function SubmitEnabled(answers: seq<Answer>, questionCount: Option<nat>, pending: bool): (r: bool)
    ensures r <==> !pending && questionCount == Some(|answers|)
  {
    AllQuestionsAnswered(answers, questionCount) && !pending
  }

  /** With the sheet's invariants, an enabled submit button means every displayed question has a
      chosen option. */
  lemma EnabledSubmitMeansAllAnswered(answers: seq<Answer>, questionIds: seq<string>, pending: bool)
    requires NoDuplicateIds(answers) && Distinct(questionIds)
    requires forall a :: a in answers ==> a.questionId in questionIds
    requires SubmitEnabled(answers, Some(|questionIds|), pending)
    ensures forall q :: q in questionIds ==> SelectedAnswer(answers, q).Some?
  {
    EveryQuestionAnswered(answers, questionIds);
  }

  /** The request body of `handleSubmitQuiz`: nothing is sent without a (non-empty) module id. */
  function SubmitBody(moduleId: Option<string>, answers: seq<Answer>): (r: Option<Json>)
    ensures r.None? <==> moduleId.None? || moduleId == Some("")
  {
    match moduleId
    case None => None
    case Some(m) =>
      if m == "" then None
      else Some(EncodeSubmission(Submission(m, ToServer(answers))))
  }

  /** The sheet's entries in the server's terms: option indices become JSON numbers. */
  function ToServer(answers: seq<Answer>): (r: seq<QuizAnswer>)
    ensures |r| == |answers|
    ensures forall i :: 0 <= i < |answers| ==>
              r[i].questionId == answers[i].questionId && r[i].selectedAnswer == answers[i].selectedAnswer as real
  {
    seq(|answers|, i requires 0 <= i < |answers| => QuizAnswer(answers[i].questionId, answers[i].selectedAnswer as real))
  }

  /** The server's validator accepts every body the page sends and reads back the sheet. */
  lemma SubmitBodyAccepted(moduleId: string, answers: seq<Answer>)
    requires moduleId != ""
    ensures SubmitBody(Some(moduleId), answers).Some?
    ensures ParseSubmission(SubmitBody(Some(moduleId), answers).value) == Some(Submission(moduleId, ToServer(answers)))
  {
    SubmissionRoundTrip(Submission(moduleId, ToServer(answers)));
  }

  /** The question under the cursor, in `orderIndex` order. */
  function CurrentQuestion(questions: seq<PublicQuestion>, current: int): (r: Option<PublicQuestion>)
    ensures r.Some? <==> 0 <= current < |questions|
    ensures r.Some? ==> r.value in questions
  {
    var sorted := SortBy(questions, (q: PublicQuestion) => q.orderIndex);
    if 0 <= current < |sorted| then Some(sorted[current]) else None
  }

  /** Stepping the cursor forward never shows a question with a smaller `orderIndex`. */
  lemma CurrentQuestionOrdered(questions: seq<PublicQuestion>, i: int, j: int)
    requires 0 <= i < j < |questions|
    ensures CurrentQuestion(questions, i).value.orderIndex <= CurrentQuestion(questions, j).value.orderIndex
  {
  }

  /** The page state the handlers update. */
  class QuizSheet {
    var currentQuestion: int
    var answers: seq<Answer>
    var showResults: bool
    var quizResult: Option<QuizOutcome>

    ghost predicate Valid()
      reads this
    {
      0 <= currentQuestion && NoDuplicateIds(answers)
    }

    constructor ()
      ensures Valid()
      ensures currentQuestion == 0 && answers == [] && !showResults && quizResult.None?
    {
      currentQuestion, answers, showResults, quizResult := 0, [], false, None;
    }

    /** `getSelectedAnswer`. */
    function Selected(questionId: string): (r: Option<int>)
      reads this
      ensures r.None? <==> forall a :: a in answers ==> a.questionId != questionId
    {
      SelectedAnswer(answers, questionId)
    }

    /** `handleSelectAnswer`. */
    method SelectAnswer(questionId: string, answerIndex: int)
      requires Valid()
      modifies this`answers
      ensures Valid()
      ensures answers == SetAnswer(old(answers), questionId, answerIndex)
      ensures Selected(questionId) == Some(answerIndex)
      ensures forall q :: q != questionId ==> Selected(q) == old(Selected(q))
    {
      SetAnswerKeepsNoDuplicates(answers, questionId, answerIndex);
      SelectedAfterSet(answers, questionId, answerIndex);
      forall q | q != questionId
        ensures SelectedAnswer(SetAnswer(answers, questionId, answerIndex), q) == SelectedAnswer(answers, q)
      {
        OthersUnchangedBySet(answers, questionId, answerIndex, q);
      }
      answers := SetAnswer(answers, questionId, answerIndex);
    }

    /** `handleRetakeQuiz`. */
    method Retake()
      modifies this
      ensures Valid()
      ensures currentQuestion == 0 && answers == [] && !showResults && quizResult.None?
    {
      currentQuestion, answers, showResults, quizResult := 0, [], false, None;
    }

    /** The "previous" button. */
    method Previous()
      requires Valid()
      modifies this`currentQuestion
      ensures Valid()
      ensures currentQuestion == PrevIndex(old(currentQuestion))
    {
      currentQuestion := if 0 > currentQuestion - 1 then 0 else currentQuestion - 1;
    }

    /** The "next" button. */
    method Next(questionCount: Option<nat>)
      requires Valid()
      modifies this`currentQuestion
      ensures Valid()
      ensures currentQuestion == NextIndex(old(currentQuestion), questionCount)
    {
      var n := if questionCount.None? || questionCount == Some(0) then 1 else questionCount.value;
      currentQuestion := if n - 1 < currentQuestion + 1 then n - 1 else currentQuestion + 1;
    }

    /** A click on a question number in the navigation grid. */
    method JumpTo(index: nat)
      requires Valid()
      modifies this`currentQuestion
      ensures Valid() && currentQuestion == index
    {
      currentQuestion := index;
    }

    /** A successful submission shows the server's outcome. */
    method ReceiveResult(result: QuizOutcome)
      requires Valid()
      modifies this`quizResult, this`showResults
      ensures Valid() && quizResult == Some(result) && showResults
    {
      quizResult, showResults := Some(result), true;
    }
  }
}
