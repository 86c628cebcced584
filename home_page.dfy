/** The dashboard's derived values: per-module progress lookups, the completed-module count, the
    user's initials and display name, and the state of each module card. */
module HomePage {
  import opened Wrappers
  import opened Seqs
  import opened Schema
  import opened Routes
  import Storage

  /** `getModuleProgress`: the first progress row of the module, if any. */
  function ModuleProgress(progress: Option<seq<UserProgress>>, moduleId: string): (r: Option<UserProgress>)
    ensures r.Some? ==> progress.Some? && r.value in progress.value && r.value.moduleId == moduleId
    ensures r.Some? ==> exists i :: 0 <= i < |progress.value| && progress.value[i] == r.value
                                   && forall j :: 0 <= j < i ==> progress.value[j].moduleId != moduleId
    ensures r.None? <==> progress.None? || forall p :: p in progress.value ==> p.moduleId != moduleId
  {
    match progress
    case None => None
    case Some(rows) => First(rows, (p: UserProgress) => p.moduleId == moduleId)
  }

  /** Whether `getModuleBestScore` is non-null: some result of the module exists. */
  function HasBestScore(results: Option<seq<QuizResult>>, moduleId: string): (r: bool)
    ensures r <==> results.Some? && exists x :: x in results.value && x.moduleId == moduleId
  {
    match results
    case None => false
    case Some(rs) => Count(rs, (x: QuizResult) => x.moduleId == moduleId) != 0
  }

  /** `completedModules`: the rows whose quiz is completed. */
  function CompletedModules(progress: Option<seq<UserProgress>>): (n: nat)
    ensures progress.None? ==> n == 0
    ensures progress.Some? ==> n <= |progress.value|
    ensures progress.Some? ==> (n == 0 <==> forall p :: p in progress.value ==> !p.quizCompleted)
  {
    match progress
    case None => 0
    case Some(rows) => Count(rows, (p: UserProgress) => p.quizCompleted)
  }

  /** `totalModules`: the module count, or 4 while the list is missing or empty. */
  function TotalModules(modules: Option<seq<CourseModule>>): (n: nat)
    ensures n >= 1
    ensures modules.Some? && |modules.value| > 0 ==> n == |modules.value|
    ensures modules.None? || |modules.value| == 0 ==> n == 4
  {
    match modules
    case None => 4
    case Some(ms) => if |ms| == 0 then 4 else |ms|
  }

  function ModuleIdsOf(ms: seq<CourseModule>): (ids: seq<string>)
    ensures |ids| == |ms| && forall i :: 0 <= i < |ms| ==> ids[i] == ms[i].id
  {
    seq(|ms|, i requires 0 <= i < |ms| => ms[i].id)
  }

  function ProgressModuleIds(rows: seq<UserProgress>): (ids: seq<string>)
    ensures |ids| == |rows| && forall i :: 0 <= i < |rows| ==> ids[i] == rows[i].moduleId
  {
    seq(|rows|, i requires 0 <= i < |rows| => rows[i].moduleId)
  }

  /** The progress list the dashboard fetches for a user names each module at most once, as the
      completed-module bound below requires. */
  lemma FetchedProgressDistinct(store: Storage.Store, userId: string)
    requires store.Valid()
    ensures Distinct(ProgressModuleIds(store.GetUserProgress(userId)))
  {
    var rows := store.GetUserProgress(userId);
    var ids := ProgressModuleIds(rows);
    forall i, j | 0 <= i < j < |ids| ensures ids[i] != ids[j] {
      assert ids[i] == rows[i].moduleId && ids[j] == rows[j].moduleId;
    }
  }

  /** For one user's rows (at most one per module, each naming a listed module of distinct ids),
      the completed count never exceeds the module total, so the overall percentage stays within
      100. */
  lemma CompletedWithinTotal(progress: seq<UserProgress>, modules: seq<CourseModule>)
    requires Distinct(ProgressModuleIds(progress)) && Distinct(ModuleIdsOf(modules))
    requires forall p :: p in progress ==> exists m :: m in modules && m.id == p.moduleId
    ensures CompletedModules(Some(progress)) <= TotalModules(Some(modules))
  {
    var pids, mids := ProgressModuleIds(progress), ModuleIdsOf(modules);
    forall x | x in pids
      ensures x in mids
    {
      var i :| 0 <= i < |pids| && pids[i] == x;
      assert progress[i] in progress;
      var m :| m in modules && m.id == x;
      var j :| 0 <= j < |modules| && modules[j] == m;
      assert mids[j] == x;
    }
    DistinctWithin(pids, mids);
  }

  /** `getUserInitials`: both names' first letters, else the email's first letter, upper-cased by
      `upper`; else "U". */
  function Initials(user: Option<PublicUser>, upper: string -> string): (r: string)
    ensures user.Some? && user.value.firstName.Some? && |user.value.firstName.value| > 0
            && user.value.lastName.Some? && |user.value.lastName.value| > 0 ==>
              r == upper([user.value.firstName.value[0], user.value.lastName.value[0]])
    ensures user.Some? && !(user.value.firstName.Some? && |user.value.firstName.value| > 0
            && user.value.lastName.Some? && |user.value.lastName.value| > 0) && |user.value.email| > 0 ==>
              r == upper([user.value.email[0]])
    ensures user.None? || (!(user.value.firstName.Some? && |user.value.firstName.value| > 0
            && user.value.lastName.Some? && |user.value.lastName.value| > 0) && |user.value.email| == 0) ==>
              r == "U"
  {
    match user
    case None => "U"
    case Some(u) =>
      if u.firstName.Some? && u.firstName.value != "" && u.lastName.Some? && u.lastName.value != "" then
        upper([u.firstName.value[0], u.lastName.value[0]])
      else if u.email != "" then upper([u.email[0]])
      else "U"
  }

  /** The text of `s` before its first `@` (`split("@")[0]`). */
  function BeforeAt(s: string): (r: string)
    ensures '@' !in r && |r| <= |s| && r == s[..|r|]
    ensures |r| < |s| ==> s[|r|] == '@'
  {
    if |s| == 0 || s[0] == '@' then "" else [s[0]] + BeforeAt(s[1..])
  }

  /** The placeholder shown when no name can be derived. */
  const Placeholder: string := "Қолданушы"

  /** `getUserName`: the first name, else the email's local part, else the placeholder. */
  function DisplayName(user: Option<PublicUser>): (r: string)
    ensures user.Some? && user.value.firstName.Some? && |user.value.firstName.value| > 0 ==>
              r == user.value.firstName.value
    ensures user.Some? && !(user.value.firstName.Some? && |user.value.firstName.value| > 0) && |user.value.email| > 0 ==>
              r == BeforeAt(user.value.email)
    ensures user.None? || (!(user.value.firstName.Some? && |user.value.firstName.value| > 0) && |user.value.email| == 0) ==>
              r == Placeholder
  {
    match user
    case None => Placeholder
    case Some(u) =>
      if u.firstName.Some? && u.firstName.value != "" then u.firstName.value
      else if u.email != "" then BeforeAt(u.email)
      else Placeholder
  }

  /** Which label the card's main button carries. */
  datatype ButtonLabel = Review | Continue | Start

  /** What a module card shows. */
  datatype Card = Card(showProgress: bool, bar: int, button: ButtonLabel, quizButton: bool)

  /** The card of a module given its progress row and whether it has a best score. */
  function CardState(row: Option<UserProgress>, hasBestScore: bool): (c: Card)
    ensures var completed := row.Some? && row.value.quizCompleted;
            var content := row.Some? && row.value.contentCompleted;
            && c.bar == (if completed then 100 else if content then 50 else 0)
            && (c.quizButton <==> content && !completed)
            && (c.showProgress <==> content || hasBestScore || completed)
            && (c.button == Review <==> completed)
            && (c.button == Continue <==> !completed && (content || hasBestScore))
  {
    var isCompleted := row.Some? && row.value.quizCompleted;
    var contentDone := row.Some? && row.value.contentCompleted;
    var isStarted := contentDone || hasBestScore;
    Card(isStarted || isCompleted,
         if isCompleted then 100 else if contentDone then 50 else 0,
         if isCompleted then Review else if isStarted then Continue else Start,
         contentDone && !isCompleted)
  }

  /** The card of a module as the dashboard derives it from the fetched lists. */
  function ModuleCard(progress: Option<seq<UserProgress>>, results: Option<seq<QuizResult>>, moduleId: string)
    : (c: Card)
    ensures c.bar > 0 ==> progress.Some? && exists p :: p in progress.value && p.moduleId == moduleId
                                                        && (p.contentCompleted || p.quizCompleted)
    ensures c.quizButton ==> progress.Some? && exists p :: p in progress.value && p.moduleId == moduleId
                                                           && p.contentCompleted && !p.quizCompleted
    ensures (progress.None? || forall p :: p in progress.value ==> p.moduleId != moduleId) ==>
              c.bar == 0 && !c.quizButton && c.button != Review
    ensures (results.Some? && exists x :: x in results.value && x.moduleId == moduleId) ==>
              c.showProgress && c.button != Start
    ensures c.button == Start <==> !c.showProgress
  {
    CardState(ModuleProgress(progress, moduleId), HasBestScore(results, moduleId))
  }

  /** A module with no progress row and no result shows a bare "start" card. */
  lemma UntouchedModuleCard(progress: Option<seq<UserProgress>>, results: Option<seq<QuizResult>>, moduleId: string)
    requires progress.None? || forall p :: p in progress.value ==> p.moduleId != moduleId
    requires results.None? || forall x :: x in results.value ==> x.moduleId != moduleId
    ensures ModuleCard(progress, results, moduleId) == Card(false, 0, Start, false)
  {
  }

  /** The bar never goes down under the patches the routes send (flags only ever set to true): a
      flag that was set stays set, so the bar after a merge is at least the bar before. */
  lemma BarNeverDecreases(existing: UserProgress, p: ProgressPatch, now: int, hasBestScore: bool)
    requires p.contentCompleted != Some(false) && p.quizCompleted != Some(false)
    ensures CardState(Some(existing), hasBestScore).bar <= CardState(Some(Storage.MergedProgress(existing, p, now)), hasBestScore).bar
  {
    Storage.MergeFlags(existing, p, now);
  }
}
