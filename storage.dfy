/** `DatabaseStorage`: an in-memory repository holding the rows of the five tables in storage
    order. Every query is a function of the rows; every write is a method that changes one table. */
module Storage {
  import opened Wrappers
  import opened Seqs
  import opened Schema

  /** `UserNotFound` is the "User not found" error of `updateUser`; `DuplicateKey` a violated
      primary-key or unique constraint; `ForeignKey` an insert whose `userId` or `moduleId` names
      no stored user or module (the `references` columns, enforced by the SQLite driver). */
  datatype StoreError = UserNotFound | DuplicateKey | ForeignKey

  /** Primary key `id` and the unique `email` column of `users`. */
  predicate UsersUnique(us: seq<User>) {
    forall i, j :: 0 <= i < j < |us| ==> us[i].id != us[j].id && us[i].email != us[j].email
  }

  predicate ModuleIdsUnique(ms: seq<CourseModule>) {
    forall i, j :: 0 <= i < j < |ms| ==> ms[i].id != ms[j].id
  }

  predicate QuestionIdsUnique(qs: seq<Question>) {
    forall i, j :: 0 <= i < j < |qs| ==> qs[i].id != qs[j].id
  }

  predicate ResultIdsUnique(rs: seq<QuizResult>) {
    forall i, j :: 0 <= i < j < |rs| ==> rs[i].id != rs[j].id
  }

  /** Primary key `id`, and at most one row per (userId, moduleId): the application-level key
      that `upsertUserProgress` maintains by looking up before it writes. */
  predicate ProgressUnique(ps: seq<UserProgress>) {
    forall i, j :: 0 <= i < j < |ps| ==>
      ps[i].id != ps[j].id && (ps[i].userId != ps[j].userId || ps[i].moduleId != ps[j].moduleId)
  }

  /** The row `updateUser` writes: every supplied field takes its new value, every other field
      keeps its old one, and `updatedAt` becomes the time of the update. */
  function PatchedUser(u: User, p: UserPatch, now: int): (r: User)
    ensures r.id == u.id && r.createdAt == u.createdAt && r.updatedAt == now
    ensures r.email == p.email.Apply(u.email) && r.password == p.password.Apply(u.password)
    ensures r.emailVerified == p.emailVerified.Apply(u.emailVerified)
    ensures r.verificationToken == p.verificationToken.Apply(u.verificationToken)
    ensures r.verificationTokenExpires == p.verificationTokenExpires.Apply(u.verificationTokenExpires)
    ensures r.firstName == p.firstName.Apply(u.firstName) && r.lastName == p.lastName.Apply(u.lastName)
    ensures r.profileImageUrl == p.profileImageUrl.Apply(u.profileImageUrl)
    ensures r.resetPasswordToken == p.resetPasswordToken.Apply(u.resetPasswordToken)
    ensures r.resetPasswordExpires == p.resetPasswordExpires.Apply(u.resetPasswordExpires)
  {
    u.(email := p.email.Apply(u.email),
       password := p.password.Apply(u.password),
       firstName := p.firstName.Apply(u.firstName),
       lastName := p.lastName.Apply(u.lastName),
       profileImageUrl := p.profileImageUrl.Apply(u.profileImageUrl),
       emailVerified := p.emailVerified.Apply(u.emailVerified),
       verificationToken := p.verificationToken.Apply(u.verificationToken),
       verificationTokenExpires := p.verificationTokenExpires.Apply(u.verificationTokenExpires),
       resetPasswordToken := p.resetPasswordToken.Apply(u.resetPasswordToken),
       resetPasswordExpires := p.resetPasswordExpires.Apply(u.resetPasswordExpires),
       updatedAt := now)
  }

  /** The merge of `upsertUserProgress` into an existing row: a flag the patch supplies replaces
      the stored one, an omitted flag is kept; a supplied `bestScore` becomes the larger of it and
      the stored score (null counting as 0), an omitted one keeps the stored score. */
  function MergedProgress(existing: UserProgress, p: ProgressPatch, now: int): (r: UserProgress)
    ensures r.id == existing.id && r.userId == existing.userId && r.moduleId == existing.moduleId
    ensures r.updatedAt == now
  {
    existing.(
      contentCompleted := p.contentCompleted.GetOr(existing.contentCompleted),
      quizCompleted := p.quizCompleted.GetOr(existing.quizCompleted),
      bestScore := if p.bestScore.Some?
                   then Some(Max(p.bestScore.value, existing.bestScore.GetOr(0)))
                   else existing.bestScore,
      updatedAt := now)
  }

  /** `Math.max`: the larger of the two. */
  function Max(a: int, b: int): (m: int)
    ensures m >= a && m >= b && (m == a || m == b)
  {
    if a >= b then a else b
  }

  /** A flag takes the patch's value when supplied and keeps the stored value otherwise; in
      particular a set flag is never cleared by a patch that omits it. */
  lemma MergeFlags(existing: UserProgress, p: ProgressPatch, now: int)
    ensures var r := MergedProgress(existing, p, now);
      && (p.contentCompleted.Some? ==> r.contentCompleted == p.contentCompleted.value)
      && (p.contentCompleted.None? ==> r.contentCompleted == existing.contentCompleted)
      && (p.quizCompleted.Some? ==> r.quizCompleted == p.quizCompleted.value)
      && (p.quizCompleted.None? ==> r.quizCompleted == existing.quizCompleted)
  {
  }

  /** A supplied `bestScore` yields max(patch, stored or 0); an omitted one keeps the stored
      score. Either way a stored score never decreases. */
  lemma MergeBestScore(existing: UserProgress, p: ProgressPatch, now: int)
    ensures var r := MergedProgress(existing, p, now);
      && (p.bestScore.Some? ==> r.bestScore.Some? && r.bestScore.value >= p.bestScore.value
                                && r.bestScore.value >= existing.bestScore.GetOr(0)
                                && (r.bestScore.value == p.bestScore.value || r.bestScore.value == existing.bestScore.GetOr(0)))
      && (p.bestScore.None? ==> r.bestScore == existing.bestScore)
      && (existing.bestScore.Some? ==> r.bestScore.Some? && r.bestScore.value >= existing.bestScore.value)
  {
  }

  /** The write sequence of the final-answer scenario: quiz scores 3 and then 1 leave 3, and
      content completion after a quiz submission keeps `quizCompleted`. */
  lemma SequentialUpserts(id: string, u: string, m: string, t0: int, t1: int, t2: int)
    ensures var first := InsertedProgress(id, ProgressPatch(u, m, None, Some(true), Some(3)), t0);
            var second := MergedProgress(first, ProgressPatch(u, m, None, Some(true), Some(1)), t1);
            var third := MergedProgress(second, ProgressPatch(u, m, Some(true), None, None), t2);
            && second.bestScore == Some(3)
            && third.bestScore == Some(3) && third.quizCompleted && third.contentCompleted
  {
  }

  /** The progress table after `upsertUserProgress(p)`, paired with the row it returns. When a
      row for (p.userId, p.moduleId) exists, it is merged in place: same position, same row count,
      every other row untouched. Otherwise exactly one row built from the patch is appended, unless
      its id is already taken or `parents` says the user or the module it references is missing. */
  function UpsertProgressRows(rows: seq<UserProgress>, p: ProgressPatch, id: string, now: int, parents: bool)
    : (r: Result<(seq<UserProgress>, UserProgress), StoreError>)
    ensures match FirstIndex(rows, (x: UserProgress) => x.userId == p.userId && x.moduleId == p.moduleId)
      case Some(i) =>
        && r.Success? && r.value.1 == MergedProgress(rows[i], p, now)
        && |r.value.0| == |rows| && r.value.0[i] == r.value.1
        && (forall j :: 0 <= j < |rows| && j != i ==> r.value.0[j] == rows[j])
      case None =>
        if exists x :: x in rows && x.id == id then r == Failure(DuplicateKey)
        else if !parents then r == Failure(ForeignKey)
        else r.Success? && r.value.1 == InsertedProgress(id, p, now) && r.value.0 == rows + [r.value.1]
  {
    match FirstIndex(rows, (x: UserProgress) => x.userId == p.userId && x.moduleId == p.moduleId)
    case Some(i) =>
      var merged := MergedProgress(rows[i], p, now);
      Success((rows[i := merged], merged))
    case None =>
      if exists x :: x in rows && x.id == id then Failure(DuplicateKey)
      else if !parents then Failure(ForeignKey)
      else
        var row := InsertedProgress(id, p, now);
        Success((rows + [row], row))
  }

  /** Sequential upserts keep at most one row per (userId, moduleId), and unique row ids. */
  /** The rows of one user, filtered out of a table with the progress key constraints, name
      distinct modules. */
  lemma OneUsersRowsDistinct(rows: seq<UserProgress>, mine: UserProgress -> bool, userId: string)
    requires forall x :: mine(x) ==> x.userId == userId
    ensures ProgressUnique(rows) ==>
              forall i, j :: 0 <= i < j < |Filter(rows, mine)| ==> Filter(rows, mine)[i].moduleId != Filter(rows, mine)[j].moduleId
  {
    if ProgressUnique(rows) {
      var distinct := (a: UserProgress, b: UserProgress) => a.userId != b.userId || a.moduleId != b.moduleId;
      assert Pairwise(rows, distinct);
      FilterPairwise(rows, mine, distinct);
      var r := Filter(rows, mine);
      forall i, j | 0 <= i < j < |r| ensures r[i].moduleId != r[j].moduleId {
        assert r[i] in r && r[j] in r;
        assert distinct(r[i], r[j]);
      }
    }
  }

  lemma UpsertKeepsProgressUnique(rows: seq<UserProgress>, p: ProgressPatch, id: string, now: int, parents: bool)
    requires ProgressUnique(rows)
    ensures UpsertProgressRows(rows, p, id, now, parents).Success? ==> ProgressUnique(UpsertProgressRows(rows, p, id, now, parents).value.0)
  {
    match FirstIndex(rows, (x: UserProgress) => x.userId == p.userId && x.moduleId == p.moduleId)
    case Some(i) =>
      var after := UpsertProgressRows(rows, p, id, now, parents).value.0;
      forall a, b | 0 <= a < b < |after|
        ensures after[a].id != after[b].id && (after[a].userId != after[b].userId || after[a].moduleId != after[b].moduleId)
      {
        assert a != i ==> after[a] == rows[a];
        assert b != i ==> after[b] == rows[b];
      }
    case None =>
  }

  /** After a successful upsert, the lookup by (userId, moduleId) finds exactly the returned row. */
  lemma UpsertFindsRow(rows: seq<UserProgress>, p: ProgressPatch, id: string, now: int, parents: bool)
    requires ProgressUnique(rows)
    ensures UpsertProgressRows(rows, p, id, now, parents).Success? ==>
      var after := UpsertProgressRows(rows, p, id, now, parents).value;
      First(after.0, (x: UserProgress) => x.userId == p.userId && x.moduleId == p.moduleId) == Some(after.1)
  {
    var key := (x: UserProgress) => x.userId == p.userId && x.moduleId == p.moduleId;
    if UpsertProgressRows(rows, p, id, now, parents).Success? {
      var after := UpsertProgressRows(rows, p, id, now, parents).value;
      UpsertKeepsProgressUnique(rows, p, id, now, parents);
      var k :| 0 <= k < |after.0| && after.0[k] == after.1;
      assert key(after.0[k]);
      var f := FirstIndex(after.0, key).value;
      assert f == k;
    }
  }

  class Store {
    var users: seq<User>
    var modules: seq<CourseModule>
    var questions: seq<Question>
    var results: seq<QuizResult>
    var progress: seq<UserProgress>

    /** The key constraints of the tables. */
    ghost predicate Valid()
      reads this
    {
      && UsersUnique(users) && ModuleIdsUnique(modules) && QuestionIdsUnique(questions)
      && ResultIdsUnique(results) && ProgressUnique(progress)
    }

    constructor ()
      ensures Valid()
      ensures users == [] && modules == [] && questions == [] && results == [] && progress == []
    {
      users, modules, questions, results, progress := [], [], [], [], [];
    }

    // ----- users

    /** Position of the user with primary key `id`, if any. */
    function UserIndex(id: string): (r: Option<nat>)
      reads this
      ensures r.Some? ==> r.value < |users| && users[r.value].id == id
      ensures r.None? <==> forall j :: 0 <= j < |users| ==> users[j].id != id
    {
      FirstIndex(users, (u: User) => u.id == id)
    }

    function GetUser(id: string): (r: Option<User>)
      reads this
      ensures r.Some? ==> r.value in users && r.value.id == id
      ensures r.None? <==> forall u :: u in users ==> u.id != id
    {
      match UserIndex(id)
      case None => None
      case Some(i) => Some(users[i])
    }

    /** The user whose email equals `email` exactly, or nothing. */
    function GetUserByEmail(email: string): (r: Option<User>)
      reads this
      ensures r.Some? ==> r.value in users && r.value.email == email
      ensures r.None? <==> forall u :: u in users ==> u.email != email
    {
      First(users, (u: User) => u.email == email)
    }

    /** The user whose verification token equals `token` exactly (a null token matches nothing). */
    function GetUserByVerificationToken(token: string): (r: Option<User>)
      reads this
      ensures r.Some? ==> r.value in users && r.value.verificationToken == Some(token)
      ensures r.None? <==> forall u :: u in users ==> u.verificationToken != Some(token)
    {
      First(users, (u: User) => u.verificationToken == Some(token))
    }

    /** `createUser`: inserts one row; the primary key and the unique email column reject a clash. */
    method CreateUser(id: string, data: NewUser, now: int) returns (r: Result<User, StoreError>)
      requires Valid()
      modifies this`users
      ensures Valid()
      ensures r.Failure? <==> old(GetUser(id)).Some? || old(GetUserByEmail(data.email)).Some?
      ensures r.Failure? ==> r.error == DuplicateKey && users == old(users)
      ensures r.Success? ==> r.value == InsertedUser(id, data, now) && users == old(users) + [r.value]
    {
      if GetUser(id).Some? || GetUserByEmail(data.email).Some? {
        return Failure(DuplicateKey);
      }
      var u := InsertedUser(id, data, now);
      users := users + [u];
      r := Success(u);
    }

    /** `updateUser`: an unknown id fails with "User not found"; on a known id only the supplied
        fields and `updatedAt` change, unless the new email belongs to another user. */
    method UpdateUser(id: string, p: UserPatch, now: int) returns (r: Result<User, StoreError>)
      requires Valid()
      modifies this`users
      ensures Valid()
      ensures old(UserIndex(id)).None? ==>
                r == Failure(UserNotFound) && users == old(users)
      ensures old(UserIndex(id)).Some? ==>
                var i := old(UserIndex(id)).value;
                var updated := PatchedUser(old(users)[i], p, now);
                if exists j :: 0 <= j < |old(users)| && j != i && old(users)[j].email == updated.email
                then r == Failure(DuplicateKey) && users == old(users)
                else r == Success(updated) && users == old(users)[i := updated]
    {
      var found := UserIndex(id);
      if found.None? {
        return Failure(UserNotFound);
      }
      var i := found.value;
      var updated := PatchedUser(users[i], p, now);
      if exists j :: 0 <= j < |users| && j != i && users[j].email == updated.email {
        return Failure(DuplicateKey);
      }
      users := users[i := updated];
      r := Success(updated);
    }

    /** `upsertUser`: inserts the record, or, when its id is stored, overwrites that row with it
        and refreshes `updatedAt`. An email held by another row is a constraint violation. */
    method UpsertUser(row: User, now: int) returns (r: Result<User, StoreError>)
      requires Valid()
      modifies this`users
      ensures Valid()
      ensures old(UserIndex(row.id)).None? ==>
                if old(GetUserByEmail(row.email)).Some?
                then r == Failure(DuplicateKey) && users == old(users)
                else r == Success(row) && users == old(users) + [row]
      ensures old(UserIndex(row.id)).Some? ==>
                var i := old(UserIndex(row.id)).value;
                if exists j :: 0 <= j < |old(users)| && j != i && old(users)[j].email == row.email
                then r == Failure(DuplicateKey) && users == old(users)
                else r == Success(row.(updatedAt := now)) && users == old(users)[i := row.(updatedAt := now)]
    {
      var found := UserIndex(row.id);
      if found.None? {
        if GetUserByEmail(row.email).Some? {
          return Failure(DuplicateKey);
        }
        users := users + [row];
        return Success(row);
      }
      var i := found.value;
      if exists j :: 0 <= j < |users| && j != i && users[j].email == row.email {
        return Failure(DuplicateKey);
      }
      var updated := row.(updatedAt := now);
      users := users[i := updated];
      r := Success(updated);
    }

    // ----- modules

    /** All modules ordered by `orderIndex`. */
    function GetAllModules(): (r: seq<CourseModule>)
      reads this
      ensures SortedBy(r, (m: CourseModule) => m.orderIndex)
      ensures multiset(r) == multiset(modules)
    {
      SortBy(modules, (m: CourseModule) => m.orderIndex)
    }

    function GetModule(id: string): (r: Option<CourseModule>)
      reads this
      ensures r.Some? ==> r.value in modules && r.value.id == id
      ensures r.None? <==> forall m :: m in modules ==> m.id != id
    {
      First(modules, (m: CourseModule) => m.id == id)
    }

    /** `createModule`: inserts the module, or replaces the stored module with the same id. */
    method CreateModule(m: CourseModule) returns (r: CourseModule)
      requires Valid()
      modifies this`modules
      ensures Valid() && r == m
      ensures old(FirstIndex(modules, (x: CourseModule) => x.id == m.id)).None? ==> modules == old(modules) + [m]
      ensures old(FirstIndex(modules, (x: CourseModule) => x.id == m.id)).Some? ==>
                modules == old(modules)[old(FirstIndex(modules, (x: CourseModule) => x.id == m.id)).value := m]
    {
      var found := FirstIndex(modules, (x: CourseModule) => x.id == m.id);
      if found.Some? {
        modules := modules[found.value := m];
      } else {
        modules := modules + [m];
      }
      r := m;
    }

    // ----- questions

    /** Exactly the questions of `moduleId`, ordered by `orderIndex`. */
    function GetQuestionsByModule(moduleId: string): (r: seq<Question>)
      reads this
      ensures SortedBy(r, (q: Question) => q.orderIndex)
      ensures multiset(r) == multiset(Filter(questions, (q: Question) => q.moduleId == moduleId))
      ensures forall q :: q in r <==> q in questions && q.moduleId == moduleId
    {
      SortBy(Filter(questions, (q: Question) => q.moduleId == moduleId), (q: Question) => q.orderIndex)
    }

    /** `createQuestion`: the id must be new and `moduleId` must name a stored module. */
    method CreateQuestion(q: Question) returns (r: Result<Question, StoreError>)
      requires Valid()
      modifies this`questions
      ensures Valid()
      ensures r.Failure? <==> (exists x :: x in old(questions) && x.id == q.id) || GetModule(q.moduleId).None?
      ensures r.Failure? ==> questions == old(questions)
      ensures r.Failure? ==> (r.error == DuplicateKey <==> exists x :: x in old(questions) && x.id == q.id)
      ensures r.Failure? ==> r.error in {DuplicateKey, ForeignKey}
      ensures r.Success? ==> r.value == q && questions == old(questions) + [q]
    {
      if exists x :: x in questions && x.id == q.id {
        return Failure(DuplicateKey);
      }
      if GetModule(q.moduleId).None? {
        return Failure(ForeignKey);
      }
      questions := questions + [q];
      r := Success(q);
    }

    // ----- quiz results

    /** The user's results, ordered by completion time. */
    function GetQuizResultsByUser(userId: string): (r: seq<QuizResult>)
      reads this
      ensures SortedBy(r, (x: QuizResult) => x.completedAt)
      ensures forall x :: x in r <==> x in results && x.userId == userId
      ensures forall x :: multiset(r)[x] == if x.userId == userId then multiset(results)[x] else 0
    {
      FilterMultiplicity(results, (x: QuizResult) => x.userId == userId);
      SortBy(Filter(results, (x: QuizResult) => x.userId == userId), (x: QuizResult) => x.completedAt)
    }

    function GetQuizResultsByUserAndModule(userId: string, moduleId: string): (r: seq<QuizResult>)
      reads this
      ensures forall x :: x in r <==> x in results && x.userId == userId && x.moduleId == moduleId
      ensures forall x :: multiset(r)[x] ==
                if x.userId == userId && x.moduleId == moduleId then multiset(results)[x] else 0
    {
      FilterMultiplicity(results, (x: QuizResult) => x.userId == userId && x.moduleId == moduleId);
      Filter(results, (x: QuizResult) => x.userId == userId && x.moduleId == moduleId)
    }

    /** `createQuizResult`: the id must be new, and the user and the module must be stored. */
    method CreateQuizResult(row: QuizResult) returns (r: Result<QuizResult, StoreError>)
      requires Valid()
      modifies this`results
      ensures Valid()
      ensures r.Failure? <==> (exists x :: x in old(results) && x.id == row.id) || !Parents(row.userId, row.moduleId)
      ensures r.Failure? ==> results == old(results)
      ensures r.Failure? ==> (r.error == DuplicateKey <==> exists x :: x in old(results) && x.id == row.id)
      ensures r.Failure? ==> r.error in {DuplicateKey, ForeignKey}
      ensures r.Success? ==> r.value == row && results == old(results) + [row]
    {
      if exists x :: x in results && x.id == row.id {
        return Failure(DuplicateKey);
      }
      if !Parents(row.userId, row.moduleId) {
        return Failure(ForeignKey);
      }
      results := results + [row];
      r := Success(row);
    }

    // ----- progress

    /** The rows a `userId`/`moduleId` pair references both exist. */
    predicate Parents(userId: string, moduleId: string)
      reads this
    {
      GetUser(userId).Some? && GetModule(moduleId).Some?
    }

    /** The user's rows, each as often as stored; under the key constraints they name distinct
        modules. */
    function GetUserProgress(userId: string): (r: seq<UserProgress>)
      reads this
      ensures forall x :: x in r <==> x in progress && x.userId == userId
      ensures forall x :: multiset(r)[x] == if x.userId == userId then multiset(progress)[x] else 0
      ensures ProgressUnique(progress) ==> forall i, j :: 0 <= i < j < |r| ==> r[i].moduleId != r[j].moduleId
    {
      var mine := (x: UserProgress) => x.userId == userId;
      FilterMultiplicity(progress, mine);
      OneUsersRowsDistinct(progress, mine, userId);
      Filter(progress, mine)
    }

    /** Position of the row for (userId, moduleId), if any. */
    function ProgressIndex(userId: string, moduleId: string): (r: Option<nat>)
      reads this
      ensures r.Some? ==> r.value < |progress| && progress[r.value].userId == userId && progress[r.value].moduleId == moduleId
      ensures r.None? <==> forall j :: 0 <= j < |progress| ==> progress[j].userId != userId || progress[j].moduleId != moduleId
    {
      FirstIndex(progress, (x: UserProgress) => x.userId == userId && x.moduleId == moduleId)
    }

    function GetUserModuleProgress(userId: string, moduleId: string): (r: Option<UserProgress>)
      reads this
      ensures r.Some? ==> r.value in progress && r.value.userId == userId && r.value.moduleId == moduleId
      ensures r.None? <==> forall x :: x in progress ==> x.userId != userId || x.moduleId != moduleId
    {
      First(progress, (x: UserProgress) => x.userId == userId && x.moduleId == moduleId)
    }

    /** `upsertUserProgress`: the lookup-then-write merge, sequentially. */
    method UpsertUserProgress(p: ProgressPatch, id: string, now: int) returns (r: Result<UserProgress, StoreError>)
      requires Valid()
      modifies this`progress
      ensures Valid()
      ensures match UpsertProgressRows(old(progress), p, id, now, Parents(p.userId, p.moduleId))
              case Success(after) => progress == after.0 && r == Success(after.1)
              case Failure(e) => progress == old(progress) && r == Failure(e)
      ensures r.Success? ==> GetUserModuleProgress(p.userId, p.moduleId) == Some(r.value)
    {
      var existing := ProgressIndex(p.userId, p.moduleId);
      if existing.Some? {
        var i := existing.value;
        var merged := MergedProgress(progress[i], p, now);
        progress := progress[i := merged];
        r := Success(merged);
      } else {
        if exists x :: x in progress && x.id == id {
          return Failure(DuplicateKey);
        }
        if !Parents(p.userId, p.moduleId) {
          return Failure(ForeignKey);
        }
        var row := InsertedProgress(id, p, now);
        progress := progress + [row];
        r := Success(row);
      }
      UpsertKeepsProgressUnique(old(progress), p, id, now, Parents(p.userId, p.moduleId));
      UpsertFindsRow(old(progress), p, id, now, Parents(p.userId, p.moduleId));
    }
  }
}
