# Course platform core in Dafny

A model of the logic of a small course platform.
- Users register, confirm their email with a single-use token, log in, read four learning modules and take a quiz per module.
- The server keeps five tables (users, modules, questions, quiz results, per-user progress).
- The React client keeps the quiz answer sheet, turns module text into blocks, and derives the dashboard.

Each part below is one Dafny module (one file):

| file | module | models |
|---|---|---|
| wrappers.dfy | `Wrappers` | `Option` (nullable values, `undefined`) and `Result` |
| seqs.dfy | `Seqs` | `find`, `findIndex`, `filter(...).length`, SQL `WHERE` and `ORDER BY` / `sort` |
| http.dfy | `Http` | replies: a status code with a value or with one of the handlers' messages |
| schema.dfy | `Schema` | table rows, column defaults, request bodies as JSON values, the four zod validators |
| storage.dfy | `Storage` | `DatabaseStorage` as a class `Store` over five sequences; `upsertUserProgress` merge |
| auth.dfy | `Auth` | `isAuthenticated`, the local-strategy login decision, register, verify-email, login, logout |
| routes.dfy | `Routes` | password strip, answer-key sanitiser, content completion, quiz scoring and its two writes |
| quiz_page.dfy | `QuizPage` | class `QuizSheet`: answers list, cursor, retake, result panel; submit enabling |
| module_page.dfy | `ModulePage` | the content line classifier (regular expressions written out) and previous/next module |
| home_page.dfy | `HomePage` | progress lookup, completed/total counts, initials, display name, card state |

Modelling conventions:
- Nullable columns are `Option`.
- Timestamps are integers in milliseconds.
- The request time `now`, new row ids, the random verification token, the password hash, the hash comparison, the email-format check and the client's `toUpperCase` are parameters. Functions without bodies are not used.
- A session is the logged-in user's id, or none. The guard looks the user up in the store, as passport's deserialisation does. When no user has the stored id, `deserializeUser` passes `undefined` on, which passport treats as an error: the guarded routes then answer 500, not 401.
- A request body is a JSON value. Objects are maps, so a key occurs at most once.
- JSON numbers are reals. The server compares `selectedAnswer === correctAnswer` exactly, so `1.5` is a legal answer that is never correct.
- The pass rule is `100 * score >= 60 * total`. The contract of `Routes.Passed` states that it equals the source's percentage test in exact arithmetic.
- A write that violates a primary key or the unique email column fails with `DuplicateKey`. An insert whose `userId` or `moduleId` names no stored user or module fails with `ForeignKey`, as SQLite's foreign-key check does. The handlers answer 500 for both, as their `catch` blocks do.
- SQL `ORDER BY` and the client's `sort` by `orderIndex` are modelled as one stable insertion sort: rows with equal keys keep their order. For the client this is what ECMAScript's stable `Array.prototype.sort` does. For queries it is the model's choice, since SQLite promises no order among equal keys. `Seqs.SortBySortedUnchanged` proves one consequence of stability: a list already in key order, ties included, comes back unchanged.
- The client's fetched lists are `Option<seq<...>>`, where `None` means not loaded.

## Model

| member | source | states |
|---|---|---|
| Seqs.FirstIndex | client/src/pages/Quiz.tsx:107 | the index found satisfies the test and no earlier element does; none is found exactly when no element satisfies it |
| Seqs.First | server/routes.ts:138 | the element found is the one at `FirstIndex`, the first that satisfies the test; none is found exactly when no element does |
| Seqs.FirstSkipsNonMatching | server/routes.ts:138 | inserting anywhere an element that fails the test does not change which element `find` returns |
| Seqs.Filter | server/storage.ts:132 | an element is in the result exactly when it is in the input and satisfies the test; never longer than the input |
| Seqs.FilterMultiplicity | server/storage.ts:132 | every element satisfying the test is kept exactly as often as it occurs in the input; every other element occurs zero times |
| Seqs.FilterPairwise | server/storage.ts:163-165 | a relation that holds between every earlier and every later element of the input still holds in the filtered list |
| Seqs.Count | client/src/pages/Home.tsx:60 | the count is at most the length, and zero exactly when no element satisfies the test |
| Seqs.CountSnoc | client/src/pages/Home.tsx:60 | appending an element raises the count by one exactly when the element satisfies the test |
| Seqs.SortBy | server/storage.ts:107 | the result is ordered by the key, is a permutation of the input (same multiset), and has the same length and members |
| Seqs.SortBySortedUnchanged | client/src/pages/Quiz.tsx:136 | a list already in key order, ties included, is returned unchanged (a consequence of stability) |
| Seqs.DistinctWithin | client/src/pages/Quiz.tsx:140 | a repeat-free list all of whose elements occur in another repeat-free list is no longer than it |
| Schema.InsertedUser | shared/schema.ts:13-34 | a new user row has the given id, email, password, first and last name, profile image and tokens; it is unverified unless told otherwise; it has no reset token; both timestamps are the insertion time |
| Schema.NewUserUnverifiedByDefault | shared/schema.ts:27 | a user inserted without `emailVerified` is unverified |
| Schema.InsertedProgress | shared/schema.ts:95-109 | a new progress row has both flags false unless the patch sets them true, and `bestScore` as supplied (possibly null) |
| Schema.ParseRegister | shared/schema.ts:126-131 | accepted exactly when email, password, firstName and lastName are strings with a valid email, a password of at least 8 characters and non-empty names; the fields are read back as given |
| Schema.ParseLogin | shared/schema.ts:134-137 | accepted exactly when email and password are strings with a valid email and a non-empty password |
| Schema.ParseVerifyEmail | shared/schema.ts:140-142 | accepted exactly when `token` is a non-empty string, which is returned |
| Schema.ValidLogin | shared/schema.ts:134-137 | a valid login has a well-formed email; an empty password is never valid |
| Schema.ValidRegistration | shared/schema.ts:126-131 | valid registration credentials are valid login credentials; a password under 8 characters or an empty name is never valid |
| Schema.ParseAnswer | shared/schema.ts:118-121 | accepted exactly when `questionId` is a string and `selectedAnswer` a number, both read back; no range or uniqueness is demanded |
| Schema.ParseAnswers | shared/schema.ts:118-121 | the array is accepted exactly when every element is; the result has one answer per element, in order |
| Schema.ParseSubmission | shared/schema.ts:116-122 | accepted exactly when `moduleId` is a string and `answers` an array of valid answers; both read back |
| Schema.RegisterRoundTrip | shared/schema.ts:126-131 | a body built from registration fields is accepted exactly when the fields meet the rules, and then reads back unchanged |
| Schema.SubmissionRoundTrip | shared/schema.ts:116-122 | every submission a client can build is accepted and read back unchanged |
| Schema.RegisterBodyIsLoginBody | shared/schema.ts:126-137 | every body the registration validator accepts is accepted for login with the same email and password |
| Schema.ShortPasswordLoginOnly | shared/schema.ts:128-136 | a one-character password passes the login validator but never the registration validator |
| Storage.PatchedUser | server/storage.ts:75-88 | `updateUser`'s row: each supplied field takes its new value, every other field keeps its old one, id and createdAt are kept, updatedAt is the update time |
| Storage.MergedProgress | server/storage.ts:178-191 | the merged row keeps its id, user and module, and takes the update time |
| Storage.MergeFlags | server/storage.ts:183-184 | a flag takes the patch's value when supplied and keeps the stored one otherwise, so an omitted flag is never reset |
| Storage.MergeBestScore | server/storage.ts:185-187 | a supplied bestScore yields max(patch, stored or 0), an omitted one keeps the stored score, and a stored score never decreases |
| Storage.Max | server/storage.ts:186 | the result is one of the two and at least each of them |
| Storage.SequentialUpserts | server/storage.ts:175-197 | quiz scores 3 then 1 leave bestScore 3, and a later content completion keeps quizCompleted |
| Storage.UpsertProgressRows | server/storage.ts:175-197 | with a row for (user, module): that position is merged, row count and every other row unchanged; without one: a clashing id fails with DuplicateKey, a missing user or module fails with ForeignKey, otherwise exactly one row built from the patch is appended |
| Storage.UpsertKeepsProgressUnique | server/storage.ts:175-197 | upserting preserves unique row ids and at most one row per (userId, moduleId) |
| Storage.UpsertFindsRow | server/storage.ts:167-197 | after an upsert the lookup by (userId, moduleId) returns exactly the row the upsert returned |
| Storage.Store.constructor | server/storage.ts:200 | an empty store satisfies the key constraints |
| Storage.Store.UserIndex | server/storage.ts:52-55 | the position holds the user with that primary key; none exactly when no user has it |
| Storage.Store.GetUser | server/storage.ts:52-55 | returns a stored user with that id, or nothing exactly when there is none |
| Storage.Store.GetUserByEmail | server/storage.ts:57-60 | returns a stored user whose email equals the key exactly, or nothing exactly when none matches |
| Storage.Store.GetUserByVerificationToken | server/storage.ts:62-68 | returns a stored user holding exactly that token, or nothing exactly when none does |
| Storage.Store.CreateUser | server/storage.ts:70-73 | fails exactly when the id or the email is taken, changing nothing; otherwise appends exactly the inserted row |
| Storage.Store.UpdateUser | server/storage.ts:75-88 | an unknown id fails with "User not found" and changes nothing; a known id replaces only that row with the patched row (or fails on an email clash) |
| Storage.Store.UpsertUser | server/storage.ts:90-103 | inserts a new id, or overwrites the row with that id and refreshes updatedAt; an email held by another row fails |
| Storage.Store.GetAllModules | server/storage.ts:106-108 | all modules, ordered by orderIndex, as a permutation of the stored ones |
| Storage.Store.GetModule | server/storage.ts:110-113 | a stored module with that id, or nothing exactly when there is none |
| Storage.Store.CreateModule | server/storage.ts:115-125 | appends a new id, or replaces in place the module with the same id |
| Storage.Store.GetQuestionsByModule | server/storage.ts:128-134 | exactly the module's questions (as a multiset), ordered by orderIndex |
| Storage.Store.CreateQuestion | server/storage.ts:136-139 | appends the question; fails without change exactly when its id is taken (DuplicateKey) or no module has its moduleId (ForeignKey) |
| Storage.Store.GetQuizResultsByUser | server/storage.ts:142-148 | the user's results, each exactly as often as stored and no other row, ordered by completion time |
| Storage.Store.GetQuizResultsByUserAndModule | server/storage.ts:150-155 | the results of that user and module, each exactly as often as stored and no other row |
| Storage.Store.CreateQuizResult | server/storage.ts:157-160 | appends the result; fails without change exactly when its id is taken (DuplicateKey) or its user or module is missing (ForeignKey) |
| Storage.Store.GetUserProgress | server/storage.ts:163-165 | the user's progress rows, each exactly as often as stored and no other row; under the (user, module) key they name distinct modules |
| Storage.OneUsersRowsDistinct | server/storage.ts:163-165 | when stored rows are unique per (user, module), the rows filtered out for one user name pairwise distinct modules |
| Storage.Store.ProgressIndex | server/storage.ts:167-173 | the position of a row for (userId, moduleId), none exactly when no row has that pair |
| Storage.Store.GetUserModuleProgress | server/storage.ts:167-173 | a row for (userId, moduleId), or nothing exactly when there is none |
| Storage.Store.UpsertUserProgress | server/storage.ts:175-197 | the progress table becomes the one `UpsertProgressRows` describes given whether the user and module exist, the key constraints still hold, and the lookup then finds the returned row |
| Auth.Authorize | server/auth.ts:220-231 | unauthenticated exactly without a session; a stale session exactly when no user has the session's id; unverified exactly when that user is unverified; otherwise continue with the verified session user |
| Auth.Rejection | server/auth.ts:221-228 | a stopped request gets 401 exactly when unauthenticated, 403 exactly when unverified, and 500 exactly for a stale session |
| Auth.DecideLogin | server/auth.ts:48-68 | success exactly when the user exists, is verified and the password matches; the unverified message exactly for an existing unverified user; otherwise the generic message |
| Auth.UnknownEmailLooksLikeWrongPassword | server/auth.ts:50-62 | an unknown email and a wrong password for a verified user give the same decision |
| Auth.UnverifiedIgnoresPassword | server/auth.ts:55-59 | for an unverified account the decision is the same whatever the password or hash check |
| Auth.RegisteredUser | server/auth.ts:104-121 | the new user is unverified, has the hashed password, the names, the token, and an expiry 24 hours after the request |
| Auth.Expired | server/auth.ts:195 | a null expiry never expires; a set one is expired exactly when the request time is after it |
| Auth.RegisteredTokenLifetime | server/auth.ts:104-121 | a freshly registered token is expired exactly when more than 24 hours have passed, and stays expired later |
| Auth.VerifiedPatch | server/auth.ts:199-203 | applied to any user it sets emailVerified, clears token and expiry, refreshes updatedAt and changes nothing else |
| Auth.Register | server/auth.ts:86-139 | invalid body: 400, no change; taken email: 400, no change; a clashing new id: 500, no change; otherwise exactly one user appended and 201 with its id, whatever the email sending did |
| Auth.Login | server/auth.ts:142-175 | invalid body: 400; a rejected decision: 401 with its message and the session unchanged; success: the session holds the user and the reply its public fields |
| Auth.Summary | server/auth.ts:163-170 | the reply's user carries exactly id, email, names and profile image of the stored user |
| Auth.VerifyEmail | server/auth.ts:178-210 | 400 with no change for an invalid body, an unknown token or an expired one (a null expiry is accepted); otherwise only that user changes: verified, token and expiry cleared, so the token then finds no user |
| Auth.Logout | server/auth.ts:213-217 | always 200 and the session is empty afterwards |
| Routes.WithoutPassword | server/routes.ts:21-24 | the public user is the user minus exactly the password: putting the password back restores it |
| Routes.CurrentUser | server/routes.ts:19-29 | behind the guard, the session user without password |
| Routes.ListModules | server/routes.ts:32-40 | 200 with all modules in orderIndex order, a permutation of the stored ones |
| Routes.GetModuleRoute | server/routes.ts:42-53 | 404 exactly when no module has the id; otherwise 200 with a stored module of that id |
| Routes.Sanitize | server/routes.ts:59-65 | same length and order; each question keeps every field but the answer key, which is all that is lost |
| Routes.ListQuestions | server/routes.ts:55-71 | behind the guard, the module's questions in order with answer keys stripped |
| Routes.ListProgress | server/routes.ts:74-83 | behind the guard, the session user's progress rows |
| Routes.ListResults | server/routes.ts:104-113 | behind the guard, the session user's results ordered by completion time |
| Routes.ContentPatch | server/routes.ts:90-94 | merged into any row it sets contentCompleted and updatedAt only; a row it inserts has content done, quiz not done and no best score |
| Routes.ContentCompleted | server/routes.ts:85-101 | behind the guard, the only write is the upsert of the patch {contentCompleted: true}; a failing write (clashing id, or a module id no module has) is 500 with no change |
| Routes.AnswerFor | server/routes.ts:138 | the first submitted answer naming the question, or none exactly when no answer names it |
| Routes.AnsweredCorrectlyMeans | server/routes.ts:137-141 | a correct mark needs a submitted answer for the question that selects its key; with no answer it is incorrect; when all answers for it agree, it is correct exactly when one was submitted |
| Routes.CorrectCount | server/routes.ts:134-141 | the score never exceeds the number of questions |
| Routes.AnswerKey | server/routes.ts:135-142 | one entry per question, equal to its correct answer, in catalogue order |
| Routes.ScoreAnswers | server/routes.ts:134-143 | the loop's count is the number of questions whose first matching answer selects the key, and its list is the answer key |
| Routes.Outcome | server/routes.ts:134-171 | the score counts the correctly answered questions, the total is the question count, the verdict is the pass rule on them, and the key is listed in order |
| Routes.QuizPatch | server/routes.ts:159-164 | merged into any row it sets quizCompleted, raises bestScore to the max of score and stored, refreshes updatedAt and keeps contentCompleted; a row it inserts has the quiz done, content not done and the score |
| Routes.SubmitQuiz | server/routes.ts:115-176 | guard; invalid body 400; no questions 404 with nothing written; otherwise one result carrying the reply's score, total and verdict, then the progress patch {quizCompleted: true, bestScore: score}; a clashing id or a missing module is 500 |
| Routes.RecordOutcome | server/routes.ts:149-171 | the result row is appended with the outcome's values, then exactly the quiz patch is upserted; a failing write (clashing id, missing user or module) is 500 and a result written before it stays |
| Routes.NoAnswersScoreZero | server/routes.ts:138-141 | with no answers every question is incorrect: the score is 0 |
| Routes.UnknownAnswerIgnored | server/routes.ts:138-141 | an answer naming no question of the module does not change the score, wherever it is inserted |
| Routes.AllCorrectScoresFull | server/routes.ts:137-141 | when every question is answered correctly the score equals the number of questions |
| Routes.KeyScoresFull | server/routes.ts:137-141 | submitting the answer key scores every question when question ids are distinct |
| Routes.CorrectCountIsCount | server/routes.ts:134-141 | the score is the number of questions answered correctly, counted independently with `Count` |
| Routes.CorrectCountSnoc | server/routes.ts:137-141 | one more question raises the score by one exactly when it is answered correctly |
| Routes.AnswerForAt | server/routes.ts:138 | the lookup finds the answer at a position when no earlier answer names the same question |
| Routes.Passed | server/routes.ts:146-147 | for a non-empty quiz, the integer rule holds exactly when `score/total*100 >= 60` in exact arithmetic |
| Routes.FiveQuestionScenario | server/routes.ts:134-147 | keys [0,1,2,3,0] answered [0,1,0,3,0] give score 4 of 5, passed, and the key [0,1,2,3,0] |
| QuizPage.SelectedAnswer | client/src/pages/Quiz.tsx:117-119 | none exactly when no entry names the question; otherwise an entry with that question and option exists |
| QuizPage.SetAnswer | client/src/pages/Quiz.tsx:106-114 | the list keeps its length or grows by one |
| QuizPage.SetAnswerShape | client/src/pages/Quiz.tsx:107-113 | with an existing entry, the length is unchanged and only that position changes; otherwise exactly one entry is appended at the end |
| QuizPage.SelectedAfterSet | client/src/pages/Quiz.tsx:105-119 | after selecting option i for question q, the sheet reports i for q |
| QuizPage.OthersUnchangedBySet | client/src/pages/Quiz.tsx:105-119 | selecting for q leaves the reported option of every other question unchanged |
| QuizPage.SetAnswerKeepsNoDuplicates | client/src/pages/Quiz.tsx:107-113 | selecting never creates a second entry for a question |
| QuizPage.EveryQuestionAnswered | client/src/pages/Quiz.tsx:140 | no duplicates, entries naming displayed questions and as many entries as questions mean every displayed question is answered |
| QuizPage.EnabledSubmitMeansAllAnswered | client/src/pages/Quiz.tsx:406 | with the sheet's invariants, an enabled submit button means every displayed question has a chosen option |
| QuizPage.PrevIndex | client/src/pages/Quiz.tsx:394 | the result is never negative, never below one step back, and is either 0 or one step back |
| QuizPage.NextIndex | client/src/pages/Quiz.tsx:415 | one forward, clamped at length-1, a missing or empty list counting as length 1 |
| QuizPage.CursorStaysInRange | client/src/pages/Quiz.tsx:394-415 | a cursor inside the list stays inside under both buttons, moving by one unless at the end |
| QuizPage.IsLastQuestion | client/src/pages/Quiz.tsx:139 | the cursor is on the last question, a missing list counting as length 0 |
| QuizPage.AllQuestionsAnswered | client/src/pages/Quiz.tsx:140 | true exactly when the list is loaded and has as many questions as there are entries |
| QuizPage.SubmitEnabled | client/src/pages/Quiz.tsx:406 | enabled exactly when all questions are answered and no submission is pending |
| QuizPage.SubmitBody | client/src/pages/Quiz.tsx:121-127 | nothing is sent exactly when the module id is missing or empty |
| QuizPage.ToServer | client/src/pages/Quiz.tsx:123-126 | each entry becomes the server's answer with the same question and the option index as a number |
| QuizPage.SubmitBodyAccepted | client/src/pages/Quiz.tsx:121-127 | the server's submission validator accepts every body the page sends and reads back the module and the sheet |
| QuizPage.CurrentQuestion | client/src/pages/Quiz.tsx:136-137 | a question exactly when the cursor is inside the list, and it is one of the fetched questions |
| QuizPage.CurrentQuestionOrdered | client/src/pages/Quiz.tsx:136-137 | a later cursor position never shows a question with a smaller orderIndex than an earlier one |
| QuizPage.QuizSheet.constructor | client/src/pages/Quiz.tsx:44-47 | cursor 0, no answers, results hidden, no result |
| QuizPage.QuizSheet.Selected | client/src/pages/Quiz.tsx:117-119 | none exactly when no entry names the question |
| QuizPage.QuizSheet.SelectAnswer | client/src/pages/Quiz.tsx:105-115 | the sheet reports the new option for q and the old one for every other question, with no duplicate entries |
| QuizPage.QuizSheet.Retake | client/src/pages/Quiz.tsx:129-134 | cursor 0, answers empty, results hidden, result cleared |
| QuizPage.QuizSheet.Previous | client/src/pages/Quiz.tsx:394 | the cursor moves one back, clamped at 0 |
| QuizPage.QuizSheet.Next | client/src/pages/Quiz.tsx:415 | the cursor moves one forward, clamped at the last question |
| QuizPage.QuizSheet.JumpTo | client/src/pages/Quiz.tsx:340 | the cursor goes to the clicked question |
| QuizPage.QuizSheet.ReceiveResult | client/src/pages/Quiz.tsx:77-79 | a successful submission stores the server's outcome and shows the results |
| ModulePage.SplitLines | client/src/pages/Module.tsx:182 | at least one piece, and no piece contains a line feed |
| ModulePage.JoinSplit | client/src/pages/Module.tsx:182 | joining the pieces with line feeds restores the content; there is one more piece than line feeds |
| ModulePage.SplitJoin | client/src/pages/Module.tsx:182 | splitting a join of line-feed-free pieces gives the pieces back |
| ModulePage.DigitRun | client/src/pages/Module.tsx:214 | the longest run of ASCII digits from a position: what `\d+` takes |
| ModulePage.LineRun | client/src/pages/Module.tsx:196 | the longest run of characters other than the four line terminators: what `.+` takes |
| ModulePage.RestOfLine | client/src/pages/Module.tsx:196 | the text from a position up to the first line terminator, non-empty exactly when the position holds a non-terminator |
| ModulePage.SeparatorIsBoldEnd | client/src/pages/Module.tsx:196 | the character-wise separator test agrees with `** — ` being a prefix at that position |
| ModulePage.LazyEnd | client/src/pages/Module.tsx:196 | the lazy `.+?` stops at the first position from k on where `** — ` starts with a non-terminator after it, no terminator before; none exactly when no such position exists within the line |
| ModulePage.LazyTerm | client/src/pages/Module.tsx:196 | a match exactly when `LazyEnd` finds a stop; the term is the text up to the first `** — ` that is followed by a non-terminator, it is non-empty, and the explanation is the rest of the line |
| ModulePage.FirstBoldBullet | client/src/pages/Module.tsx:196 | the leftmost position where the bold-bullet pattern matches; none exactly when it matches nowhere |
| ModulePage.SearchBoldBullet | client/src/pages/Module.tsx:196 | no match exactly when the pattern matches at no position; otherwise the groups of the leftmost match |
| ModulePage.MatchNumberedBold | client/src/pages/Module.tsx:215 | a match exactly for digits, `. **` and a lazy term; the groups are the digits and the term's two parts |
| ModulePage.MatchNumbered | client/src/pages/Module.tsx:226 | a match exactly for digits, `. ` and a non-terminator; the number is the digit prefix, the text the rest of the line, and the match is a prefix of the line ending at a terminator or the end |
| ModulePage.TrimStart | client/src/pages/Module.tsx:236 | a suffix of the input, everything removed is white space, and it does not open with white space |
| ModulePage.TrimEnd | client/src/pages/Module.tsx:236 | a prefix of the input, everything removed is white space, and it does not end in white space |
| ModulePage.TrimEmptyIffAllTrimmed | client/src/pages/Module.tsx:236 | trimming yields the empty string exactly when every character is white space or a line terminator |
| ModulePage.IsBlank | client/src/pages/Module.tsx:236 | blank exactly when `trim` gives the empty string |
| ModulePage.HeadingBlock | client/src/pages/Module.tsx:183-194 | a heading exactly for the four prefixes; level 1 exactly for `# `; each heading is its prefix plus its text |
| ModulePage.BulletBlock | client/src/pages/Module.tsx:195-213 | a bullet exactly for lines opening with `- `; the bold form exactly when the line opens with `- **` and the bold pattern matches somewhere, with that match's groups; otherwise the line minus its first two characters |
| ModulePage.NumberedBlock | client/src/pages/Module.tsx:214-235 | only for a digit run followed by `. `, whose digits become the number; the bold form exactly when the numbered bold pattern matches, with its groups; the plain form exactly when it does not and the numbered pattern does, with its groups |
| ModulePage.Classify | client/src/pages/Module.tsx:182-239 | headings and bullets are prefix plus text; numbered items start with their digits and `. `; a spacer exactly for blank lines; a paragraph holds the whole line |
| ModulePage.ListBlock | client/src/pages/Module.tsx:195-239 | the tests after the headings never give a heading; bullets and numbered items start with their markers; a spacer exactly for blank lines |
| ModulePage.BlankHasNoMarker | client/src/pages/Module.tsx:236-238 | a blank line opens with no marker, so it reaches the spacer test |
| ModulePage.Render | client/src/pages/Module.tsx:182-240 | one block per line, each the classification of that line, in order |
| ModulePage.BlockPerLine | client/src/pages/Module.tsx:182 | a content with n line feeds gives n+1 blocks |
| ModulePage.HeadingLevels | client/src/pages/Module.tsx:183-194 | levels 2, 3 and 4 exactly for `## `, `### ` and `#### `: the four cases are mutually exclusive |
| ModulePage.LazyTermFinds | client/src/pages/Module.tsx:196 | the lazy group of `A** — B` stops after A when no `** — ` starts inside A and neither A nor B holds a line terminator |
| ModulePage.LazyEndFinds | client/src/pages/Module.tsx:196 | from any k inside A, the lazy stop in `A** — B` is the end of A |
| ModulePage.StarFreeTerm | client/src/pages/Module.tsx:196 | a term without `*` has no `** — ` starting inside it |
| ModulePage.NoSeparatorNoBold | client/src/pages/Module.tsx:196-215 | a line without `** — ` matches neither bold pattern |
| ModulePage.BoldBulletLine | client/src/pages/Module.tsx:195-204 | `- **A** — B` becomes the bold bullet (A, B) whenever no `** — ` starts inside A (so `a*b` is allowed) |
| ModulePage.PlainBulletLine | client/src/pages/Module.tsx:195-212 | a line opening with `- ` that either does not open with `- **` or is not matched by the bold pattern becomes a bullet without its first two characters |
| ModulePage.UnclosedBoldBullet | client/src/pages/Module.tsx:195-212 | `- **x` falls through to the plain bullet `**x` |
| ModulePage.NumberedBoldLine | client/src/pages/Module.tsx:214-224 | `N. **A** — B` becomes (N, A, B) whenever no `** — ` starts inside A |
| ModulePage.NumberedBoldBlock | client/src/pages/Module.tsx:214-224 | the numbered test alone classifies `N. **A** — B` as (N, A, B) |
| ModulePage.DigitLineNoMarker | client/src/pages/Module.tsx:183-213 | a line opening with a digit is neither a heading nor a bullet |
| ModulePage.NumberedLine | client/src/pages/Module.tsx:214-235 | `N. text` with non-empty text becomes (N, text) whenever the numbered bold pattern does not match, including a text opening with an unclosed `**` |
| ModulePage.NumberedBlockPlain | client/src/pages/Module.tsx:225-235 | the numbered test alone classifies `N. text` as (N, text) when the bold pattern does not match |
| ModulePage.PlainNumberedText | client/src/pages/Module.tsx:214 | a text not opening with `**` never matches the numbered bold pattern |
| ModulePage.UnclosedBoldNumbered | client/src/pages/Module.tsx:214-235 | `1. **x` falls through to the plain numbered item (1, `**x`) |
| ModulePage.Neighbours | client/src/pages/Module.tsx:90-93 | previous exists exactly when the index in orderIndex order is above 0, next exactly when it is below len-1 (an absent id counting as -1); each is the adjacent module |
| ModulePage.AbsentModuleNeighbours | client/src/pages/Module.tsx:91-93 | an id not in the list gives no previous module and the first module as next |
| ModulePage.NeighboursOrdered | client/src/pages/Module.tsx:90-93 | the previous module's orderIndex is not above the current one's, the next one's not below |
| HomePage.ModuleProgress | client/src/pages/Home.tsx:49-52 | the first loaded row of that module (no earlier row belongs to it), or nothing exactly when none is loaded |
| HomePage.HasBestScore | client/src/pages/Home.tsx:54-56 | a best score is shown exactly when some loaded result belongs to the module |
| HomePage.CompletedModules | client/src/pages/Home.tsx:60 | 0 while not loaded; otherwise at most the row count, and 0 exactly when no row has its quiz completed |
| HomePage.TotalModules | client/src/pages/Home.tsx:61 | the module count, or 4 when the list is missing or empty |
| HomePage.CompletedWithinTotal | client/src/pages/Home.tsx:60-62 | with at most one row per listed module, completed modules never exceed the total |
| HomePage.FetchedProgressDistinct | server/storage.ts:163-165 | in a valid store, the progress list fetched for a user names each module at most once, which is the first premise of `CompletedWithinTotal` |
| HomePage.Initials | client/src/pages/Home.tsx:68-76 | both names non-empty: their first letters upper-cased; else a non-empty email: its first letter upper-cased; else "U" |
| HomePage.BeforeAt | client/src/pages/Home.tsx:83 | the longest prefix without `@`, followed in the email by its first `@` if any |
| HomePage.DisplayName | client/src/pages/Home.tsx:78-86 | a non-empty first name; else the email before its first `@`; else the placeholder |
| HomePage.CardState | client/src/pages/Home.tsx:197-268 | bar 100/50/0 by quiz, content, neither; quiz button exactly when content is done and the quiz is not; label review, continue or start |
| HomePage.ModuleCard | client/src/pages/Home.tsx:194-198 | a non-zero bar needs a loaded row of the module with a flag set; the quiz button needs one with content done and quiz not done; with no row the bar is 0, no quiz button and no review label; a result of the module means a started card |
| HomePage.UntouchedModuleCard | client/src/pages/Home.tsx:195-268 | a module without progress and results shows a bare "start" card |
| HomePage.BarNeverDecreases | client/src/pages/Home.tsx:238 | under the patches the routes send, a merge never lowers the card's bar |

## Left out

- Floating-point percentages are not modelled. This covers `scorePercent` and `progressPercent` in the quiz page and the rounded best, overall and average percentages of the dashboard. The pass rule is modelled as the integer comparison.
- Session, passport and cookie plumbing are out: serialisation, `req.logIn`/`req.logout` callbacks and session-store errors. A session is an optional user id.
- bcrypt, `randomBytes`, UUID generation, the email transport, the SQLite connection, migrations and seeding are out. They are randomness, I/O or foreign code.
    - Hashing, comparison, token and ids are parameters.
    - The outcome of sending the verification email is a parameter that only gets logged.
- Storage.Store.UpsertUserProgress: only the sequential semantics are modelled. The source's read-then-write is not atomic, and concurrent requests can create two rows for one (user, module).
- Auth.RegisteredUser: the expiry is the request time plus 86,400,000 ms. `setHours(getHours() + 24)` in local time differs by an hour across a daylight-saving change.
- Timestamp columns are stored in whole seconds by the database. The model keeps milliseconds, so the expiry comparison is at millisecond precision.
- Storage.MergedProgress: an explicit `null` for a flag or `bestScore` in a patch is not modelled. Only "supplied" and "omitted" are. No route sends `null`.
- Storage.Store.UpsertUser: the argument is a complete row. Columns omitted from a partial insert, and their defaults, are not modelled.
- Storage.PatchedUser: a patch cannot change `id` or `createdAt`. The handlers never send those.
- Exceptions other than key and foreign-key violations are not modelled: database failures, a user deleted between lookup and update. The handlers' generic 500 replies appear only for those violations.
- Auth.Authorize: a stale session is answered 500 only by the guarded routes. In the source passport fails every request carrying it, unguarded ones (register, login, the module list) included, before any handler runs; the error handler of server/index.ts is not part of this model.
- Schema.ParseRegister: zod's `.min(8)` and `.min(1)` count UTF-16 code units, the model counts Unicode scalar values, so a password of four characters outside the Basic Multilingual Plane passes zod's `.min(8)` but not the model's.
- Strings are sequences of Unicode scalar values, while JavaScript indexes UTF-16 code units. `firstName[0]` and `email[0]` therefore differ for characters outside the Basic Multilingual Plane.
- HomePage.Initials: the upper-casing function is a parameter, not Unicode `toUpperCase`.
- QuizPage.Answer: a selected option is an integer index. The server accepts any JSON number.
- The colouring of the results grid in the quiz page is not modelled. It compares against `correctAnswer`, which the server strips from the questions it sends, so it never reflects the server's scoring.
- JSX rendering, toasts, redirects, loading skeletons and react-query caching are not modelled. This includes the landing, login, register, verify-email and not-found pages and `App`/`useAuth`.
- The client's answer submission is modelled as the request body it builds. The mutation's pending state is a parameter.
