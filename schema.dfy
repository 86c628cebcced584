/** The record shapes of the five tables, their column defaults, and the request validators
    (`registerSchema`, `loginSchema`, `verifyEmailSchema`, `submitQuizSchema`). Nullable columns
    are `Option`s; timestamps are whole numbers of milliseconds. */
module Schema {
  import opened Wrappers

  /** A row of `users`. `email` is unique; `password` holds the hash, never the plain text. */
  datatype User = User(
    id: string,
    email: string,
    password: string,
    firstName: Option<string>,
    lastName: Option<string>,
    profileImageUrl: Option<string>,
    emailVerified: bool,
    verificationToken: Option<string>,
    verificationTokenExpires: Option<int>,
    resetPasswordToken: Option<string>,
    resetPasswordExpires: Option<int>,
    createdAt: int,
    updatedAt: int)

  /** The values a caller supplies when inserting a user; the table fills in the rest. */
  datatype NewUser = NewUser(
    email: string,
    password: string,
    firstName: Option<string>,
    lastName: Option<string>,
    profileImageUrl: Option<string>,
    emailVerified: Option<bool>,
    verificationToken: Option<string>,
    verificationTokenExpires: Option<int>)

  /** The row an insert of `data` creates: `emailVerified` defaults to false, the reset-token
      columns to null, both timestamps to the insertion time. */
  function InsertedUser(id: string, data: NewUser, now: int): (u: User)
    ensures u.id == id && u.email == data.email && u.password == data.password
    ensures u.firstName == data.firstName && u.lastName == data.lastName
    ensures u.profileImageUrl == data.profileImageUrl
    ensures u.emailVerified == (data.emailVerified == Some(true))
    ensures u.verificationToken == data.verificationToken
    ensures u.verificationTokenExpires == data.verificationTokenExpires
    ensures u.resetPasswordToken.None? && u.resetPasswordExpires.None?
    ensures u.createdAt == now && u.updatedAt == now
  {
    User(id, data.email, data.password, data.firstName, data.lastName, data.profileImageUrl,
         data.emailVerified.GetOr(false), data.verificationToken, data.verificationTokenExpires,
         None, None, now, now)
  }

  /** One field of a partial update: left as it is, or set to a value (which may be null). */
  datatype Update<+T> = Keep | Set(value: T) {
    function Apply(current: T): T {
      match this
      case Keep => current
      case Set(v) => v
    }
  }

  /** A partial user update (`Partial<UpsertUser>` without the id and the timestamps). */
  datatype UserPatch = UserPatch(
    email: Update<string>,
    password: Update<string>,
    firstName: Update<Option<string>>,
    lastName: Update<Option<string>>,
    profileImageUrl: Update<Option<string>>,
    emailVerified: Update<bool>,
    verificationToken: Update<Option<string>>,
    verificationTokenExpires: Update<Option<int>>,
    resetPasswordToken: Update<Option<string>>,
    resetPasswordExpires: Update<Option<int>>)

  /** A row of `modules`. */
  datatype CourseModule = CourseModule(
    id: string, title: string, description: string, content: string, icon: string, orderIndex: int)

  /** A row of `questions`: `correctAnswer` is the zero-based index of the right option. */
  datatype Question = Question(
    id: string, moduleId: string, questionText: string, options: seq<string>,
    correctAnswer: int, orderIndex: int)

  /** A row of `quiz_results`: one per submitted attempt. */
  datatype QuizResult = QuizResult(
    id: string, userId: string, moduleId: string, score: int, totalQuestions: int,
    passed: bool, completedAt: int)

  /** A row of `user_progress`. */
  datatype UserProgress = UserProgress(
    id: string, userId: string, moduleId: string, contentCompleted: bool, quizCompleted: bool,
    bestScore: Option<int>, updatedAt: int)

  /** An `InsertUserProgress` value: the key, and the fields a caller chose to supply. */
  datatype ProgressPatch = ProgressPatch(
    userId: string, moduleId: string, contentCompleted: Option<bool>, quizCompleted: Option<bool>,
    bestScore: Option<int>)

  /** The row an insert of `p` creates: both flags default to false, `bestScore` to null. */
  function InsertedProgress(id: string, p: ProgressPatch, now: int): (r: UserProgress)
    ensures r.id == id && r.userId == p.userId && r.moduleId == p.moduleId
    ensures r.contentCompleted <==> p.contentCompleted == Some(true)
    ensures r.quizCompleted <==> p.quizCompleted == Some(true)
    ensures r.bestScore == p.bestScore && r.updatedAt == now
  {
    UserProgress(id, p.userId, p.moduleId, p.contentCompleted.GetOr(false),
                 p.quizCompleted.GetOr(false), p.bestScore, now)
  }

  // ---------------------------------------------------------------------------------------
  // Request bodies and their validators

  /** A parsed JSON request body. Object keys are unique; numbers are exact reals. */
  datatype Json =
    | JNull
    | JBool(b: bool)
    | JNum(n: real)
    | JStr(s: string)
    | JArr(items: seq<Json>)
    | JObj(fields: map<string, Json>)

  /** The string at `key` of an object body, if the body is an object and that value a string. */
  function StringField(body: Json, key: string): (r: Option<string>)
    ensures r.Some? <==> body.JObj? && key in body.fields && body.fields[key].JStr?
    ensures r.Some? ==> body.fields[key] == JStr(r.value)
  {
    if body.JObj? && key in body.fields && body.fields[key].JStr? then Some(body.fields[key].s)
    else None
  }

  datatype RegisterInput = RegisterInput(email: string, password: string, firstName: string, lastName: string)
  datatype LoginInput = LoginInput(email: string, password: string)

  /** What `loginSchema` demands: a well-formed email and a non-empty password (no minimum of 8). */
  function ValidLogin(i: LoginInput, isEmail: string -> bool): (r: bool)
    ensures r ==> isEmail(i.email)
    ensures |i.password| == 0 ==> !r
  {
    isEmail(i.email) && |i.password| >= 1
  }

  /** What `registerSchema` demands of its fields; `isEmail` stands for the email format check.
      Credentials a registration accepts are always accepted by the login schema. */
  function ValidRegistration(i: RegisterInput, isEmail: string -> bool): (r: bool)
    ensures r ==> ValidLogin(LoginInput(i.email, i.password), isEmail)
    ensures |i.password| < 8 || |i.firstName| == 0 || |i.lastName| == 0 ==> !r
  {
    isEmail(i.email) && |i.password| >= 8 && |i.firstName| >= 1 && |i.lastName| >= 1
  }

  /** `registerSchema.safeParse`: four string fields, each meeting its rule; other keys ignored. */
  function ParseRegister(body: Json, isEmail: string -> bool): (r: Option<RegisterInput>)
    ensures r.Some? <==>
      && StringField(body, "email").Some? && StringField(body, "password").Some?
      && StringField(body, "firstName").Some? && StringField(body, "lastName").Some?
      && ValidRegistration(RegisterInput(StringField(body, "email").value, StringField(body, "password").value,
                                         StringField(body, "firstName").value, StringField(body, "lastName").value), isEmail)
    ensures r.Some? ==> StringField(body, "firstName") == Some(r.value.firstName) && StringField(body, "lastName") == Some(r.value.lastName)
    ensures r.Some? ==> JStr(r.value.email) == body.fields["email"] && JStr(r.value.password) == body.fields["password"]
  {
    match (StringField(body, "email"), StringField(body, "password"),
           StringField(body, "firstName"), StringField(body, "lastName"))
    case (Some(e), Some(p), Some(f), Some(l)) =>
      var i := RegisterInput(e, p, f, l);
      if ValidRegistration(i, isEmail) then Some(i) else None
    case _ => None
  }

  /** `loginSchema.safeParse`. */
  function ParseLogin(body: Json, isEmail: string -> bool): (r: Option<LoginInput>)
    ensures r.Some? <==>
      && StringField(body, "email").Some? && StringField(body, "password").Some?
      && ValidLogin(LoginInput(StringField(body, "email").value, StringField(body, "password").value), isEmail)
    ensures r.Some? ==> JStr(r.value.email) == body.fields["email"] && JStr(r.value.password) == body.fields["password"]
  {
    match (StringField(body, "email"), StringField(body, "password"))
    case (Some(e), Some(p)) => if ValidLogin(LoginInput(e, p), isEmail) then Some(LoginInput(e, p)) else None
    case _ => None
  }

  /** `verifyEmailSchema.safeParse`: a non-empty `token` string. */
  function ParseVerifyEmail(body: Json): (r: Option<string>)
    ensures r.Some? <==> StringField(body, "token").Some? && |StringField(body, "token").value| >= 1
    ensures r.Some? ==> body.fields["token"] == JStr(r.value) && |r.value| >= 1
  {
    match StringField(body, "token")
    case Some(t) => if |t| >= 1 then Some(t) else None
    case None => None
  }

  /** One submitted answer. Nothing constrains the range of `selectedAnswer` or the uniqueness of
      `questionId`. */
  datatype QuizAnswer = QuizAnswer(questionId: string, selectedAnswer: real)
  datatype Submission = Submission(moduleId: string, answers: seq<QuizAnswer>)

  /** One element of `answers`: an object with a string `questionId` and a number `selectedAnswer`. */
  function ParseAnswer(j: Json): (r: Option<QuizAnswer>)
    ensures r.Some? <==> StringField(j, "questionId").Some? && "selectedAnswer" in j.fields && j.fields["selectedAnswer"].JNum?
    ensures r.Some? ==> j.fields["questionId"] == JStr(r.value.questionId) && j.fields["selectedAnswer"] == JNum(r.value.selectedAnswer)
  {
    match StringField(j, "questionId")
    case Some(q) =>
      if "selectedAnswer" in j.fields && j.fields["selectedAnswer"].JNum?
      then Some(QuizAnswer(q, j.fields["selectedAnswer"].n)) else None
    case None => None
  }

  /** The whole `answers` array: accepted only when every element is. */
  function ParseAnswers(items: seq<Json>): (r: Option<seq<QuizAnswer>>)
    ensures r.Some? <==> forall i :: 0 <= i < |items| ==> ParseAnswer(items[i]).Some?
    ensures r.Some? ==> |r.value| == |items|
    ensures r.Some? ==> forall i :: 0 <= i < |items| ==> ParseAnswer(items[i]) == Some(r.value[i])
  {
    if |items| == 0 then Some([])
    else
      match (ParseAnswer(items[0]), ParseAnswers(items[1..]))
      case (Some(a), Some(rest)) =>
        assert forall i :: 1 <= i < |items| ==> items[i] == items[1..][i - 1];
        Some([a] + rest)
      case (None, _) => None
      case (_, None) =>
        assert forall i :: 0 <= i < |items| - 1 ==> items[1..][i] == items[i + 1];
        None
  }

  /** `submitQuizSchema.safeParse`: a string `moduleId` and an array `answers`. */
  function ParseSubmission(body: Json): (r: Option<Submission>)
    ensures r.Some? ==> StringField(body, "moduleId") == Some(r.value.moduleId)
    ensures r.Some? ==> (body.JObj? && "answers" in body.fields && body.fields["answers"].JArr?
                         && ParseAnswers(body.fields["answers"].items) == Some(r.value.answers))
    ensures r.None? <==> (|| StringField(body, "moduleId").None? || "answers" !in body.fields
                          || !body.fields["answers"].JArr? || ParseAnswers(body.fields["answers"].items).None?)
  {
    match StringField(body, "moduleId")
    case None => None
    case Some(m) =>
      if "answers" in body.fields && body.fields["answers"].JArr? then
        match ParseAnswers(body.fields["answers"].items)
        case Some(answers) => Some(Submission(m, answers))
        case None => None
      else None
  }

  // Encoders: the bodies a well-behaved client sends. The validators invert them.

  function EncodeRegister(i: RegisterInput): Json {
    JObj(map["email" := JStr(i.email), "password" := JStr(i.password),
             "firstName" := JStr(i.firstName), "lastName" := JStr(i.lastName)])
  }

  function EncodeAnswer(a: QuizAnswer): Json {
    JObj(map["questionId" := JStr(a.questionId), "selectedAnswer" := JNum(a.selectedAnswer)])
  }

  function EncodeSubmission(s: Submission): Json {
    JObj(map["moduleId" := JStr(s.moduleId),
             "answers" := JArr(seq(|s.answers|, i requires 0 <= i < |s.answers| => EncodeAnswer(s.answers[i])))])
  }

  /** A registration body is accepted exactly when its fields meet the schema, and then it is
      read back unchanged. */
  lemma RegisterRoundTrip(i: RegisterInput, isEmail: string -> bool)
    ensures ParseRegister(EncodeRegister(i), isEmail) == if ValidRegistration(i, isEmail) then Some(i) else None
  {
  }

  /** Every quiz submission a client can build is accepted and read back unchanged. */
  lemma {:induction false} SubmissionRoundTrip(s: Submission)
    ensures ParseSubmission(EncodeSubmission(s)) == Some(s)
  {
    var items := EncodeSubmission(s).fields["answers"].items;
    forall i | 0 <= i < |items|
      ensures ParseAnswer(items[i]) == Some(s.answers[i])
    {
      assert items[i] == EncodeAnswer(s.answers[i]);
    }
    var r := ParseAnswers(items);
    assert r.Some?;
    assert r.value == s.answers;
  }

  /** Every body `registerSchema` accepts is also accepted by `loginSchema` with the same
      email and password: login asks strictly less of a password. */
  lemma RegisterBodyIsLoginBody(body: Json, isEmail: string -> bool)
    requires ParseRegister(body, isEmail).Some?
    ensures ParseLogin(body, isEmail) ==
      Some(LoginInput(ParseRegister(body, isEmail).value.email, ParseRegister(body, isEmail).value.password))
  {
  }

  /** A one-character password passes `loginSchema` but never `registerSchema`. */
  lemma ShortPasswordLoginOnly(email: string, isEmail: string -> bool)
    requires isEmail(email)
    ensures var body := JObj(map["email" := JStr(email), "password" := JStr("x"),
                                 "firstName" := JStr("A"), "lastName" := JStr("B")]);
            ParseLogin(body, isEmail).Some? && ParseRegister(body, isEmail).None?
  {
  }

  /** Column defaults: a user inserted without `emailVerified` is unverified. */
  lemma NewUserUnverifiedByDefault(id: string, data: NewUser, now: int)
    requires data.emailVerified.None?
    ensures !InsertedUser(id, data, now).emailVerified
  {
  }
}
