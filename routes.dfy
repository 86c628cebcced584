/** The HTTP routes that carry logic: the password strip of GET /api/auth/user, the answer-key
    sanitiser of GET /api/modules/:id/questions, the content-completion patch, and quiz scoring
    with its two writes in POST /api/quiz/submit. */
module Routes {
  import opened Wrappers
  import opened Seqs
  import opened Schema
  import opened Storage
  import opened Http
  import opened Auth

  // ----- GET /api/auth/user

  /** A user as sent to the client: every column except `password`. */
  datatype PublicUser = PublicUser(
    id: string, email: string, firstName: Option<string>, lastName: Option<string>,
    profileImageUrl: Option<string>, emailVerified: bool, verificationToken: Option<string>,
    verificationTokenExpires: Option<int>, resetPasswordToken: Option<string>,
    resetPasswordExpires: Option<int>, createdAt: int, updatedAt: int)

  function WithPassword(p: PublicUser, password: string): User {
    User(p.id, p.email, password, p.firstName, p.lastName, p.profileImageUrl, p.emailVerified,
         p.verificationToken, p.verificationTokenExpires, p.resetPasswordToken, p.resetPasswordExpires,
         p.createdAt, p.updatedAt)
  }

  /** Drops the password and nothing else: putting it back restores the user. */
  function WithoutPassword(u: User): (r: PublicUser)
    ensures WithPassword(r, u.password) == u
  {
    PublicUser(u.id, u.email, u.firstName, u.lastName, u.profileImageUrl, u.emailVerified,
               u.verificationToken, u.verificationTokenExpires, u.resetPasswordToken,
               u.resetPasswordExpires, u.createdAt, u.updatedAt)
  }

  function CurrentUser(store: Store, session: Session): (r: Reply<PublicUser>)
    reads store
    ensures Authorize(store, session).Granted? ==>
              r == Ok(200, WithoutPassword(Authorize(store, session).user))
    ensures !Authorize(store, session).Granted? ==> r == Rejection(Authorize(store, session))
  {
    match Authorize(store, session)
    case Granted(u) => Ok(200, WithoutPassword(u))
    case a => Rejection(a)
  }

  // ----- GET /api/modules, /api/modules/:id

  function ListModules(store: Store): (r: Reply<seq<CourseModule>>)
    reads store
    ensures r.Ok? && r.status == 200
    ensures SortedBy(r.value, (m: CourseModule) => m.orderIndex) && multiset(r.value) == multiset(store.modules)
  {
    Ok(200, store.GetAllModules())
  }

  function GetModuleRoute(store: Store, id: string): (r: Reply<CourseModule>)
    reads store
    ensures r.Fail? <==> forall m :: m in store.modules ==> m.id != id
    ensures r.Fail? ==> r == Fail(404, ModuleNotFound)
    ensures r.Ok? ==> r.status == 200 && r.value in store.modules && r.value.id == id
  {
    match store.GetModule(id)
    case None => Fail(404, ModuleNotFound)
    case Some(m) => Ok(200, m)
  }

  // ----- GET /api/modules/:id/questions

  /** A question as sent to the client: no `correctAnswer`. */
  datatype PublicQuestion = PublicQuestion(
    id: string, moduleId: string, questionText: string, options: seq<string>, orderIndex: int)

  function WithAnswerKey(p: PublicQuestion, correctAnswer: int): Question {
    Question(p.id, p.moduleId, p.questionText, p.options, correctAnswer, p.orderIndex)
  }

  /** Keeps length and order and every field but the answer key, which is all that is lost:
      putting each question's key back restores the catalogue. */
  function Sanitize(qs: seq<Question>): (r: seq<PublicQuestion>)
    ensures |r| == |qs|
    ensures forall i :: 0 <= i < |qs| ==> WithAnswerKey(r[i], qs[i].correctAnswer) == qs[i]
  {
    seq(|qs|, i requires 0 <= i < |qs| =>
      PublicQuestion(qs[i].id, qs[i].moduleId, qs[i].questionText, qs[i].options, qs[i].orderIndex))
  }

  function ListQuestions(store: Store, session: Session, moduleId: string): (r: Reply<seq<PublicQuestion>>)
    reads store
    ensures Authorize(store, session).Granted? ==>
              r == Ok(200, Sanitize(store.GetQuestionsByModule(moduleId)))
    ensures !Authorize(store, session).Granted? ==> r == Rejection(Authorize(store, session))
  {
    if Authorize(store, session).Granted? then Ok(200, Sanitize(store.GetQuestionsByModule(moduleId)))
    else Rejection(Authorize(store, session))
  }

  // ----- GET /api/progress, GET /api/results

  function ListProgress(store: Store, session: Session): (r: Reply<seq<UserProgress>>)
    reads store
    ensures Authorize(store, session).Granted? ==>
              r == Ok(200, store.GetUserProgress(Authorize(store, session).user.id))
    ensures !Authorize(store, session).Granted? ==> r == Rejection(Authorize(store, session))
  {
    match Authorize(store, session)
    case Granted(u) => Ok(200, store.GetUserProgress(u.id))
    case a => Rejection(a)
  }

  function ListResults(store: Store, session: Session): (r: Reply<seq<QuizResult>>)
    reads store
    ensures Authorize(store, session).Granted? ==>
              r == Ok(200, store.GetQuizResultsByUser(Authorize(store, session).user.id))
    ensures !Authorize(store, session).Granted? ==> r == Rejection(Authorize(store, session))
  {
    match Authorize(store, session)
    case Granted(u) => Ok(200, store.GetQuizResultsByUser(u.id))
    case a => Rejection(a)
  }

  // ----- POST /api/progress/:moduleId/content-completed

  /** The only patch content completion sends. */
  function ContentPatch(userId: string, moduleId: string): (p: ProgressPatch)
    ensures p.userId == userId && p.moduleId == moduleId
    ensures forall e: UserProgress, t: int {:trigger MergedProgress(e, p, t)} ::
              MergedProgress(e, p, t) == e.(contentCompleted := true, updatedAt := t)
    ensures forall id: string, t: int {:trigger InsertedProgress(id, p, t)} ::
              var r := InsertedProgress(id, p, t);
              r.contentCompleted && !r.quizCompleted && r.bestScore.None?
  {
    ProgressPatch(userId, moduleId, Some(true), None, None)
  }

  /** POST /api/progress/:moduleId/content-completed. Behind the guard, the only write is the
      upsert of {contentCompleted: true}. A failing insert (a clashing id, or a module id no
      module has, which the foreign key refuses) yields 500 and changes nothing. */
  method ContentCompleted(store: Store, session: Session, moduleId: string, progressId: string, now: int)
    returns (reply: Reply<UserProgress>)
    requires store.Valid()
    modifies store`progress
    ensures store.Valid()
    ensures !Authorize(store, session).Granted? ==>
              reply == Rejection(Authorize(store, session)) && store.progress == old(store.progress)
    ensures Authorize(store, session).Granted? ==>
              match UpsertProgressRows(old(store.progress), ContentPatch(Authorize(store, session).user.id, moduleId), progressId, now,
                                       store.GetModule(moduleId).Some?)
              case Success(after) => store.progress == after.0 && reply == Ok(200, after.1)
              case Failure(_) => store.progress == old(store.progress) && reply == Fail(500, InternalError)
  {
    var access := Authorize(store, session);
    if !access.Granted? {
      return Rejection(access);
    }
    var r := store.UpsertUserProgress(ContentPatch(access.user.id, moduleId), progressId, now);
    if r.Failure? {
      return Fail(500, InternalError);
    }
    reply := Ok(200, r.value);
  }

  // ----- POST /api/quiz/submit

  /** The first submitted answer naming `questionId` (`answers.find`). */
  function AnswerFor(answers: seq<QuizAnswer>, questionId: string): (r: Option<QuizAnswer>)
    ensures r.Some? ==> r.value in answers && r.value.questionId == questionId
    ensures r.None? <==> forall a :: a in answers ==> a.questionId != questionId
  {
    First(answers, (a: QuizAnswer) => a.questionId == questionId)
  }

  /** A question counts as correct when its first matching answer selects the stored key;
      an unanswered question counts as incorrect. */
  predicate AnsweredCorrectly(q: Question, answers: seq<QuizAnswer>) {
    var a := AnswerFor(answers, q.id);
    a.Some? && a.value.selectedAnswer == q.correctAnswer as real
  }

  /** A correct mark needs a submitted answer for the question selecting its key; with no answer
      for it the mark is incorrect; and when every answer for it agrees, the mark is correct
      exactly when one was submitted and selects the key. */
  lemma AnsweredCorrectlyMeans(q: Question, answers: seq<QuizAnswer>)
    ensures AnsweredCorrectly(q, answers) ==>
              exists a :: a in answers && a.questionId == q.id && a.selectedAnswer == q.correctAnswer as real
    ensures (forall a :: a in answers ==> a.questionId != q.id) ==> !AnsweredCorrectly(q, answers)
    ensures (forall a :: a in answers && a.questionId == q.id ==> a.selectedAnswer == q.correctAnswer as real) ==>
              (AnsweredCorrectly(q, answers) <==> exists a :: a in answers && a.questionId == q.id)
  {
  }

  /** The number of questions answered correctly. */
  function CorrectCount(qs: seq<Question>, answers: seq<QuizAnswer>): (n: nat)
    ensures n <= |qs|
  {
    if |qs| == 0 then 0
    else CorrectCount(qs[..|qs| - 1], answers) + (if AnsweredCorrectly(qs[|qs| - 1], answers) then 1 else 0)
  }

  /** The correct option indices, in catalogue order. */
  function AnswerKey(qs: seq<Question>): (key: seq<int>)
    ensures |key| == |qs| && forall i :: 0 <= i < |qs| ==> key[i] == qs[i].correctAnswer
  {
    seq(|qs|, i requires 0 <= i < |qs| => qs[i].correctAnswer)
  }

  /** The 60% pass rule, in integers: for a non-empty quiz it is the source's percentage test
      `score / total * 100 >= 60` in exact arithmetic. */
  function Passed(score: int, total: int): (r: bool)
    ensures total > 0 ==> (r <==> (score as real / total as real) * 100.0 >= 60.0)
  {
    SixtyPercentInIntegers(score, total);
    100 * score >= 60 * total
  }

  /** The scoring loop: walks the questions in order, looks up each one's answer, counts the
      correct ones and collects the answer key. */
  method ScoreAnswers(questions: seq<Question>, answers: seq<QuizAnswer>)
    returns (correctCount: nat, correctAnswers: seq<int>)
    ensures correctCount == CorrectCount(questions, answers) && correctCount <= |questions|
    ensures correctAnswers == AnswerKey(questions)
  {
    correctCount := 0;
    correctAnswers := [];
    for i := 0 to |questions|
      invariant correctCount == CorrectCount(questions[..i], answers)
      invariant correctAnswers == AnswerKey(questions[..i])
    {
      var question := questions[i];
      assert questions[..i + 1] == questions[..i] + [question];
      CorrectCountSnoc(questions[..i], question, answers);
      var userAnswer := AnswerFor(answers, question.id);
      if userAnswer.Some? && userAnswer.value.selectedAnswer == question.correctAnswer as real {
        correctCount := correctCount + 1;
      }
      correctAnswers := correctAnswers + [question.correctAnswer];
    }
    assert questions[..|questions|] == questions;
  }

  /** The JSON reply of a scored submission. */
  datatype QuizOutcome = QuizOutcome(score: nat, totalQuestions: nat, passed: bool, correctAnswers: seq<int>)

  /** The outcome of scoring `answers` against the module's questions. */
  function Outcome(qs: seq<Question>, answers: seq<QuizAnswer>): (o: QuizOutcome)
    ensures o.score == Count(qs, (q: Question) => AnsweredCorrectly(q, answers)) && o.score <= |qs|
    ensures o.totalQuestions == |qs| && (o.passed <==> Passed(o.score, |qs|))
    ensures o.correctAnswers == AnswerKey(qs)
  {
    CorrectCountIsCount(qs, answers);
    var score := CorrectCount(qs, answers);
    QuizOutcome(score, |qs|, Passed(score, |qs|), AnswerKey(qs))
  }

  /** The patch a submission sends to the progress table. */
  function QuizPatch(userId: string, moduleId: string, score: nat): (p: ProgressPatch)
    ensures p.userId == userId && p.moduleId == moduleId
    ensures forall e: UserProgress, t: int {:trigger MergedProgress(e, p, t)} ::
              MergedProgress(e, p, t) == e.(quizCompleted := true, bestScore := Some(Max(score, e.bestScore.GetOr(0))), updatedAt := t)
    ensures forall id: string, t: int {:trigger InsertedProgress(id, p, t)} ::
              var r := InsertedProgress(id, p, t);
              !r.contentCompleted && r.quizCompleted && r.bestScore == Some(score)
  {
    ProgressPatch(userId, moduleId, None, Some(true), Some(score))
  }

  /** POST /api/quiz/submit. After the guard and `submitQuizSchema`, a module with no questions
      yields 404 and writes nothing. Otherwise one quiz result carrying the reply's score, total and
      verdict is appended, and the progress row receives exactly {quizCompleted: true,
      bestScore: score}. A failing write (a clashing id, or a foreign key naming a missing user or
      module) yields 500; a result written before it stays written. */
  method SubmitQuiz(store: Store, session: Session, body: Json, resultId: string, progressId: string, now: int)
    returns (reply: Reply<QuizOutcome>)
    requires store.Valid()
    modifies store`results, store`progress
    ensures store.Valid()
    ensures !Authorize(store, session).Granted? ==>
              reply == Rejection(Authorize(store, session))
              && store.results == old(store.results) && store.progress == old(store.progress)
    ensures Authorize(store, session).Granted? && ParseSubmission(body).None? ==>
              reply == Fail(400, InvalidQuizData)
              && store.results == old(store.results) && store.progress == old(store.progress)
    ensures Authorize(store, session).Granted? && ParseSubmission(body).Some? ==>
              var userId := Authorize(store, session).user.id;
              var sub := ParseSubmission(body).value;
              var qs := old(store.GetQuestionsByModule(sub.moduleId));
              var out := Outcome(qs, sub.answers);
              var row := QuizResult(resultId, userId, sub.moduleId, out.score, out.totalQuestions, out.passed, now);
              if |qs| == 0 then
                reply == Fail(404, NoQuestions)
                && store.results == old(store.results) && store.progress == old(store.progress)
              else if (exists x :: x in old(store.results) && x.id == resultId) || store.GetModule(sub.moduleId).None? then
                reply == Fail(500, InternalError)
                && store.results == old(store.results) && store.progress == old(store.progress)
              else
                && store.results == old(store.results) + [row]
                && match UpsertProgressRows(old(store.progress), QuizPatch(userId, sub.moduleId, out.score), progressId, now, true)
                   case Success(after) => store.progress == after.0 && reply == Ok(200, out)
                   case Failure(_) => store.progress == old(store.progress) && reply == Fail(500, InternalError)
  {
    var access := Authorize(store, session);
    if !access.Granted? {
      return Rejection(access);
    }
    var userId := access.user.id;
    var parsed := ParseSubmission(body);
    if parsed.None? {
      return Fail(400, InvalidQuizData);
    }
    var moduleId, answers := parsed.value.moduleId, parsed.value.answers;
    var questions := store.GetQuestionsByModule(moduleId);
    if |questions| == 0 {
      return Fail(404, NoQuestions);
    }
    var correctCount, correctAnswers := ScoreAnswers(questions, answers);
    var outcome := QuizOutcome(correctCount, |questions|, Passed(correctCount, |questions|), correctAnswers);
    reply := RecordOutcome(store, userId, moduleId, outcome, resultId, progressId, now);
  }

  /** The two writes of a scored submission: the quiz result row, then the progress patch. */
  method RecordOutcome(store: Store, userId: string, moduleId: string, out: QuizOutcome,
                       resultId: string, progressId: string, now: int)
    returns (reply: Reply<QuizOutcome>)
    requires store.Valid()
    modifies store`results, store`progress
    ensures store.Valid()
    ensures var row := QuizResult(resultId, userId, moduleId, out.score, out.totalQuestions, out.passed, now);
            if (exists x :: x in old(store.results) && x.id == resultId) || !store.Parents(userId, moduleId) then
              reply == Fail(500, InternalError)
              && store.results == old(store.results) && store.progress == old(store.progress)
            else
              && store.results == old(store.results) + [row]
              && match UpsertProgressRows(old(store.progress), QuizPatch(userId, moduleId, out.score), progressId, now, true)
                 case Success(after) => store.progress == after.0 && reply == Ok(200, out)
                 case Failure(_) => store.progress == old(store.progress) && reply == Fail(500, InternalError)
  {
    var saved := store.CreateQuizResult(QuizResult(resultId, userId, moduleId, out.score, out.totalQuestions, out.passed, now));
    if saved.Failure? {
      return Fail(500, InternalError);
    }
    var updated := store.UpsertUserProgress(QuizPatch(userId, moduleId, out.score), progressId, now);
    if updated.Failure? {
      return Fail(500, InternalError);
    }
    reply := Ok(200, out);
  }

  // ----- Properties of the scoring

  /** With no answers at all every question counts as incorrect. */
  lemma {:induction false} NoAnswersScoreZero(qs: seq<Question>)
    ensures CorrectCount(qs, []) == 0
  {
    if |qs| > 0 {
      NoAnswersScoreZero(qs[..|qs| - 1]);
    }
  }

  /** An answer naming no question of the module has no effect, wherever it stands in the list. */
  lemma {:induction false} UnknownAnswerIgnored(qs: seq<Question>, pre: seq<QuizAnswer>, a: QuizAnswer, post: seq<QuizAnswer>)
    requires forall q :: q in qs ==> q.id != a.questionId
    ensures CorrectCount(qs, pre + [a] + post) == CorrectCount(qs, pre + post)
  {
    if |qs| > 0 {
      var last := qs[|qs| - 1];
      UnknownAnswerIgnored(qs[..|qs| - 1], pre, a, post);
      FirstSkipsNonMatching(pre, a, post, (x: QuizAnswer) => x.questionId == last.id);
    }
  }

  /** Answers that exactly reproduce the key. */
  function KeyAnswers(qs: seq<Question>): (r: seq<QuizAnswer>)
    ensures |r| == |qs|
  {
    seq(|qs|, i requires 0 <= i < |qs| => QuizAnswer(qs[i].id, qs[i].correctAnswer as real))
  }

  lemma {:induction false} AllCorrectScoresFull(qs: seq<Question>, answers: seq<QuizAnswer>)
    requires forall q :: q in qs ==> AnsweredCorrectly(q, answers)
    ensures CorrectCount(qs, answers) == |qs|
  {
    if |qs| > 0 {
      assert qs[|qs| - 1] in qs;
      AllCorrectScoresFull(qs[..|qs| - 1], answers);
    }
  }

  /** Submitting the key scores every question of a module whose question ids are distinct. */
  lemma KeyScoresFull(qs: seq<Question>)
    requires QuestionIdsUnique(qs)
    ensures CorrectCount(qs, KeyAnswers(qs)) == |qs|
  {
    var answers := KeyAnswers(qs);
    forall q | q in qs
      ensures AnsweredCorrectly(q, answers)
    {
      var i :| 0 <= i < |qs| && qs[i] == q;
      var p := (x: QuizAnswer) => x.questionId == q.id;
      var f := FirstIndex(answers, p);
      assert p(answers[i]);
      assert f.Some?;
      assert f.value == i;
    }
    AllCorrectScoresFull(qs, answers);
  }

  /** The score counts the correctly answered questions: the same number as counting them from
      the front with `Count`. */
  lemma {:induction false} CorrectCountIsCount(qs: seq<Question>, answers: seq<QuizAnswer>)
    ensures CorrectCount(qs, answers) == Count(qs, (q: Question) => AnsweredCorrectly(q, answers))
  {
    var p := (q: Question) => AnsweredCorrectly(q, answers);
    if |qs| > 0 {
      var init, last := qs[..|qs| - 1], qs[|qs| - 1];
      assert init + [last] == qs;
      CorrectCountIsCount(init, answers);
      CorrectCountSnoc(init, last, answers);
      CountSnoc(init, last, p);
    }
  }

  lemma SixtyPercentInIntegers(score: int, total: int)
    ensures total > 0 ==> (100 * score >= 60 * total <==> (score as real / total as real) * 100.0 >= 60.0)
  {
    if total > 0 {
      RatioRule(score as real, total as real);
      assert (100 * score) as real == 100.0 * score as real;
      assert (60 * total) as real == 60.0 * total as real;
    }
  }

  lemma RatioRule(s: real, t: real)
    requires t > 0.0
    ensures (s / t) * 100.0 >= 60.0 <==> 100.0 * s >= 60.0 * t
  {
    var ratio := s / t;
    DivTimes(s, t);
    ScaleBothSides(ratio * 100.0, 60.0, t);
    Rearrange(ratio, 100.0, t);
  }

  lemma DivTimes(s: real, t: real)
    requires t > 0.0
    ensures (s / t) * t == s
  {
  }

  lemma Rearrange(a: real, b: real, c: real)
    ensures (a * b) * c == b * (a * c)
  {
  }

  lemma ScaleBothSides(a: real, b: real, t: real)
    requires t > 0.0
    ensures a >= b <==> a * t >= b * t
  {
    assert a * t - b * t == (a - b) * t;
    if a >= b {
      assert (a - b) * t >= 0.0;
    } else {
      assert (b - a) * t > 0.0;
    }
  }

  /** `AnswerFor` finds the answer at `i` when no earlier answer names the same question. */
  lemma AnswerForAt(answers: seq<QuizAnswer>, i: nat)
    requires i < |answers|
    requires forall j :: 0 <= j < i ==> answers[j].questionId != answers[i].questionId
    ensures AnswerFor(answers, answers[i].questionId) == Some(answers[i])
  {
    var p := (a: QuizAnswer) => a.questionId == answers[i].questionId;
    assert p(answers[i]);
    var f := FirstIndex(answers, p);
    assert f.Some?;
    assert f.value == i;
  }

  /** Five questions of module `m` with answer keys [0, 1, 2, 3, 0]. */
  function ScenarioQuestions(m: string): seq<Question> {
    [Question("q1", m, "", [], 0, 1), Question("q2", m, "", [], 1, 2),
     Question("q3", m, "", [], 2, 3), Question("q4", m, "", [], 3, 4),
     Question("q5", m, "", [], 0, 5)]
  }

  /** A submission selecting [0, 1, 0, 3, 0]: the third answer is wrong. */
  function ScenarioAnswers(): seq<QuizAnswer> {
    [QuizAnswer("q1", 0.0), QuizAnswer("q2", 1.0), QuizAnswer("q3", 0.0),
     QuizAnswer("q4", 3.0), QuizAnswer("q5", 0.0)]
  }

  lemma ScenarioLookups(m: string)
    ensures forall i :: 0 <= i < 5 ==>
              AnswerFor(ScenarioAnswers(), ScenarioQuestions(m)[i].id) == Some(ScenarioAnswers()[i])
  {
    var qs, answers := ScenarioQuestions(m), ScenarioAnswers();
    var ids := ["q1", "q2", "q3", "q4", "q5"];
    forall i | 0 <= i < 5
      ensures answers[i].questionId == ids[i] && qs[i].id == ids[i]
    {
    }
    forall i, j | 0 <= j < i < 5
      ensures ids[j] != ids[i]
    {
      assert ids[j][1] != ids[i][1];
    }
    forall i | 0 <= i < 5
      ensures AnswerFor(answers, qs[i].id) == Some(answers[i])
    {
      AnswerForAt(answers, i);
    }
  }

  lemma ScenarioMarks(m: string)
    ensures var qs, answers := ScenarioQuestions(m), ScenarioAnswers();
            && AnsweredCorrectly(qs[0], answers) && AnsweredCorrectly(qs[1], answers)
            && !AnsweredCorrectly(qs[2], answers) && AnsweredCorrectly(qs[3], answers)
            && AnsweredCorrectly(qs[4], answers)
  {
    var qs, answers := ScenarioQuestions(m), ScenarioAnswers();
    ScenarioLookups(m);
    assert AnswerFor(answers, qs[0].id) == Some(answers[0]);
    assert AnswerFor(answers, qs[1].id) == Some(answers[1]);
    assert AnswerFor(answers, qs[2].id) == Some(answers[2]);
    assert AnswerFor(answers, qs[3].id) == Some(answers[3]);
    assert AnswerFor(answers, qs[4].id) == Some(answers[4]);
  }

  lemma ScenarioScore(m: string)
    ensures CorrectCount(ScenarioQuestions(m), ScenarioAnswers()) == 4
  {
    var qs := ScenarioQuestions(m);
    ScenarioMarks(m);
    FourOfFive(qs[0], qs[1], qs[2], qs[3], qs[4], ScenarioAnswers());
    assert [qs[0], qs[1], qs[2], qs[3], qs[4]] == qs;
  }

  lemma FourOfFive(q0: Question, q1: Question, q2: Question, q3: Question, q4: Question, answers: seq<QuizAnswer>)
    requires AnsweredCorrectly(q0, answers) && AnsweredCorrectly(q1, answers) && !AnsweredCorrectly(q2, answers)
    requires AnsweredCorrectly(q3, answers) && AnsweredCorrectly(q4, answers)
    ensures CorrectCount([q0, q1, q2, q3, q4], answers) == 4
  {
    var s5 := [q0, q1, q2, q3, q4];
    assert s5[..4] == [q0, q1, q2, q3] && [q0, q1, q2, q3][..3] == [q0, q1, q2];
    assert [q0, q1, q2][..2] == [q0, q1] && [q0, q1][..1] == [q0] && [q0][..0] == [];
    assert CorrectCount([q0], answers) == 1;
    assert CorrectCount([q0, q1], answers) == 2;
    assert CorrectCount([q0, q1, q2], answers) == 2;
    assert CorrectCount([q0, q1, q2, q3], answers) == 3;
  }

  /** Appending a question adds one to the score exactly when it is answered correctly. */
  lemma CorrectCountSnoc(qs: seq<Question>, q: Question, answers: seq<QuizAnswer>)
    ensures CorrectCount(qs + [q], answers) == CorrectCount(qs, answers) + (if AnsweredCorrectly(q, answers) then 1 else 0)
  {
    assert (qs + [q])[..|qs|] == qs;
  }

  lemma ScenarioKey(m: string)
    ensures AnswerKey(ScenarioQuestions(m)) == [0, 1, 2, 3, 0]
  {
    var key := AnswerKey(ScenarioQuestions(m));
    assert |key| == 5;
    assert key[0] == 0 && key[1] == 1 && key[2] == 2 && key[3] == 3 && key[4] == 0;
  }

  /** Scenario: four of five correct is a pass, and the reply lists the key. */
  lemma FiveQuestionScenario(m: string)
    ensures Outcome(ScenarioQuestions(m), ScenarioAnswers()) == QuizOutcome(4, 5, true, [0, 1, 2, 3, 0])
  {
    var qs := ScenarioQuestions(m);
    ScenarioScore(m);
    ScenarioKey(m);
    assert |qs| == 5;
    assert Passed(4, 5);
  }
}
