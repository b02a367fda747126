# FitEd session and progress store, in Dafny

FitEd is a small React fitness application for students. The part with state is the
session and progress store (`AuthProvider`). It keeps three things:

- the list of registered users;
- the user who is logged in, if any;
- a copy of both in two browser storage keys, `fited-users` and `fited-current-user`.

It offers `login`, `signup`, `logout` and `updateUserProgress`. When it mounts, it seeds or
reloads the user list and resumes a stored session. Around the store sit a few pure
computations:

- the exercise card: the calorie credit, the completion guard and the difficulty badge;
- the exercise library: the search-and-selector filter and its option lists;
- the analytics page: counts per category and difficulty, guarded percentages, average
  calories per day, completion rate, and the scale of the weekly chart;
- the constant seed data: three demonstration accounts and a fifteen-exercise catalog.

The files follow the program's structure:

| file | module | models |
|---|---|---|
| `prelude.dfy` | `Prelude` | `Option`, duplicate-freedom, `Math.round`, `Math.max`, subsequences |
| `types.dfy` | `Types` | `User`, the signup `Profile`, `Exercise`, fitness levels and difficulties |
| `sample_data.dfy` | `SampleData` | `sampleUsers` and `exerciseDatabase`, with facts about them |
| `auth_context.dfy` | `AuthContext` | the store as a class `AuthProvider` whose methods update `users`, `user` and `storage` |
| `exercise_card.dfy` | `ExerciseCard` | the card as a class `Card` with its `isCompleted` flag, holding a reference to the store |
| `exercise_library.dfy` | `ExerciseLibrary` | the filter and the selector option lists |
| `analytics.dfy` | `Analytics` | the statistics page's computations |

Storage is a map from key to a stored value. The value is either a user list or one user
record, not JSON text. React state setters are immediate assignments. The `async` operations
are ordinary calls.

Three behaviours of the code that a reader might not expect:

1. `updateUserProgress` adds the calorie amount on every call. Only the completed list and
   the streak are guarded by the membership test (`src/context/AuthContext.tsx:88-92`).
   Within one session, the user interface still credits calories once per exercise, because
   the card's guard does not call the store a second time. `ProgressTwice` states what the
   store does on its own. `HandleComplete` and `CompleteTwice` state what the card does.
   Point 3 shows that this no longer holds across a reload.
2. `signup` does not check that the new id is unused, so the model does not promise unique ids.
3. On mount, the stored session's id is looked up in the seed list (`sampleUsers`) rather
   than in the freshly loaded list. This is because the effect reads the `users` value it
   captured on the first render (`src/context/AuthContext.tsx:36`). After a reload, the
   resumed user is therefore the seed record, without the progress saved before the reload.
   The card's guard then lets an exercise completed before the reload through again, and
   the next update writes the seed record plus one exercise over the saved entry. Progress
   saved before the reload is lost. `ProgressLostOnReload` walks through one case:
   - the first demonstration account logs in and completes exercise `2`;
   - the page reloads and the account completes exercise `4`;
   - the saved list is then `1, 3, 5, 4` with 498 calories. Exercise `2` and its 30 calories
     are gone.

   For the same reason, an account created by `signup` is never resumed after a reload: its
   id is not in the seed list, so the reloaded store has no current user.
   `SignupNotResumed` shows this for a new account with id `999`.

## Model

| member | source | states |
|---|---|---|
| Prelude.Round | src/components/Exercise/ExerciseCard.tsx:17 | `Math.round` gives the integer within one half of its argument, halves rounded up |
| Prelude.FindFirst | src/context/AuthContext.tsx:44 | `Array.find` gives a value exactly when some element satisfies the test, and then the first such element |
| Prelude.Max | src/components/Analytics/AnalyticsPage.tsx:34 | `Math.max` of two numbers is at least both and equal to one of them |
| Types.Difficulty.Name | src/types/index.ts:20 | the stored difficulty is one of `simple`, `moderate`, `hard` |
| Types.DifficultyNamesDistinct | src/types/index.ts:20 | two difficulty levels have the same string exactly when they are the same level |
| SampleData.CatalogIds | src/data/sampleUsers.ts:48-334 | the catalog has 15 exercises carrying ids `1` to `15` in order |
| SampleData.CatalogIdsDistinct | src/data/sampleUsers.ts:48-334 | no two catalog exercises share an id |
| SampleData.CatalogDifficulties | src/data/sampleUsers.ts:48-334 | simple exactly for ids 1, 2, 3, 5; moderate exactly for 4, 6, 8, 10; hard for the other seven |
| SampleData.CatalogWholePositive | src/data/sampleUsers.ts:48-334 | every duration and calorie rate is a positive whole number |
| SampleData.SampleUsersDistinct | src/data/sampleUsers.ts:3-46 | three demonstration accounts with ids `1`, `2`, `3` and pairwise distinct ids and emails |
| SampleData.SampleProgressWellFormed | src/data/sampleUsers.ts:3-46 | each account's completed list has no repeats, and every id in it is a catalog id |
| AuthContext.FindByCredentials | src/context/AuthContext.tsx:44 | a user is found exactly when some user has both the email and the password; it is the first such user |
| AuthContext.FindById | src/context/AuthContext.tsx:36 | a user is found exactly when some user has the id; it is the first such user |
| AuthContext.EmailTakenIffLoginPossible | src/context/AuthContext.tsx:55 | the signup duplicate check holds exactly for the emails with which some password logs in |
| AuthContext.ReloadKeepsUsers | src/context/AuthContext.tsx:25-31 | a reload from storage whose `fited-users` holds the live list gives back the same users and storage, and resumes `RestoredSession`: the seed account with the stored record's id, if there is one |
| AuthContext.RestoredSession | src/context/AuthContext.tsx:34-40 | a resumed session is a seed account whose id is that of the stored current-user record, and one is found whenever such a seed account exists; nothing is resumed without that record |
| AuthContext.NewUser | src/context/AuthContext.tsx:60-67 | the new record carries the signup profile, the given id and timestamp, no completed exercises, zero streak and zero calories |
| AuthContext.Progressed | src/context/AuthContext.tsx:86-93 | profile, id and timestamp are kept. The id is appended at the end only when absent, and the streak grows by exactly the number appended. The calories always grow by the amount. The completed ids become the old ones plus the new one. No-repeats is preserved |
| AuthContext.ReplaceById | src/context/AuthContext.tsx:95 | same length; each entry with the id becomes the updated record and every other entry is unchanged |
| AuthContext.AuthProvider.constructor | src/context/AuthContext.tsx:19-41 | users come from storage if it holds a list, otherwise the seed list is used; it is written only when the key is absent. The session is the stored id resolved against the seed list, so a resumed user is a seed account. Storage mirrors the list whenever it was absent or a list, and no-repeats holds when the loaded list has it |
| AuthContext.AuthProvider.Login | src/context/AuthContext.tsx:43-51 | true exactly when some user has the email and password. On success the first match becomes current and is written under `fited-current-user`. On failure nothing changes. The users never change. The persistence and no-repeats invariants are kept |
| AuthContext.AuthProvider.Signup | src/context/AuthContext.tsx:53-76 | false exactly when the email is taken, and then nothing changes. Otherwise exactly one new zero-progress user is appended, made current and written under both keys. Distinct emails and no-repeats are kept |
| AuthContext.AuthProvider.Logout | src/context/AuthContext.tsx:78-81 | no current user; only `fited-current-user` is removed from storage; the users and `fited-users` are untouched |
| AuthContext.AuthProvider.UpdateUserProgress | src/context/AuthContext.tsx:83-101 | with no current user, nothing changes. Otherwise the current user becomes the progressed record and only the entries with its id are replaced. Both keys hold the new snapshots. No-repeats is kept, and the current user stays in the list when it was in it |
| AuthContext.SignupKeepsEmailsDistinct | src/context/AuthContext.tsx:55-69 | appending a user whose email passed the duplicate check keeps all emails distinct |
| AuthContext.ReplaceKeepsMember | src/context/AuthContext.tsx:95-97 | if the current user was in the list, its replacement is in the new list |
| AuthContext.ProgressTwice | src/context/AuthContext.tsx:88-92 | a second identical progress update changes neither the completed list nor the streak, but adds the calories again |
| AuthContext.NewUserRoundTrip | src/context/AuthContext.tsx:60-67 | rebuilding a user from its profile, id and timestamp gives the same record exactly when its progress is still zero |
| AuthContext.FirstSeedAccount | src/context/AuthContext.tsx:36-44 | the first demonstration account's email and password log in to it, and its id finds it |
| AuthContext.FirstSeedProgress | src/context/AuthContext.tsx:86-93 | the first account completing exercise `2` lists `1, 3, 5, 2`; completing exercise `4` instead lists `1, 3, 5, 4` with 498 calories |
| AuthContext.FirstVisit | src/context/AuthContext.tsx:43-51 | logging in as the first account on fresh storage and completing exercise `2` saves the progressed record under both keys |
| AuthContext.SecondVisit | src/context/AuthContext.tsx:19-41 | reloading from that storage resumes a user whose list is `1, 3, 5`, without exercise `2`. Completing exercise `4` then leaves the first account saved under `fited-users` with `1, 3, 5, 4` and 498 calories |
| AuthContext.ProgressLostOnReload | src/context/AuthContext.tsx:83-101 | across a reload, exercise `2` completed before it is missing from the resumed user and is dropped from the saved list by the next update |
| AuthContext.SignupNotResumed | src/context/AuthContext.tsx:34-40 | after a successful signup on fresh storage, a reload resumes no user, because the new id is looked up in the seed list |
| ExerciseCard.CaloriesBurned | src/components/Exercise/ExerciseCard.tsx:17 | the credit is within one half of calorie rate times duration |
| ExerciseCard.CaloriesOfWholeValues | src/components/Exercise/ExerciseCard.tsx:17 | for whole-number rate and duration the credit is their exact product |
| ExerciseCard.CatalogCredits | src/components/Exercise/ExerciseCard.tsx:17 | every catalog exercise credits exactly rate times duration; exercise `1` credits 5 × 8 = 40 |
| ExerciseCard.DifficultyColor | src/components/Exercise/ExerciseCard.tsx:26-33 | green exactly for `simple`, yellow exactly for `moderate`, red exactly for `hard`, grey exactly for anything else |
| ExerciseCard.DifficultyColorsDistinct | src/components/Exercise/ExerciseCard.tsx:26-33 | every difficulty level gets a non-grey badge, and different levels get different badges |
| ExerciseCard.Card.constructor | src/components/Exercise/ExerciseCard.tsx:10-12 | a new card shows its exercise, is bound to the store, and its own flag is off |
| ExerciseCard.Card.HandleComplete | src/components/Exercise/ExerciseCard.tsx:16-24 | the guard `isExerciseCompleted` holds when the current user lists the exercise or the card's flag is set. If it holds, nothing changes. Otherwise the flag is set and the store performs `updateUserProgress` with the credit. With a user, that appends the id once, adds one streak day and the credit once. Afterwards the card reports completed, and no-repeats is kept |
| ExerciseCard.CompleteTwice | src/components/Exercise/ExerciseCard.tsx:16-24 | two clicks on a card not yet completed add the exercise, one streak day and its calories exactly once |
| ExerciseLibrary.ToLower | src/components/Exercise/ExerciseLibrary.tsx:12-13 | lower-casing keeps the length and maps each character on its own, ASCII capitals to small letters |
| ExerciseLibrary.Includes | src/components/Exercise/ExerciseLibrary.tsx:12-13 | the body is `String.prototype.includes`: the term occurs at some position of the text, which the empty term always does. The contract adds that an included term is no longer than the text |
| ExerciseLibrary.MatchesSearch | src/components/Exercise/ExerciseLibrary.tsx:12-13 | the body is the search test: the lower-cased term is included in the lower-cased name or in the lower-cased description. The contract adds that a matching term is no longer than one of them |
| ExerciseLibrary.IncludesEmpty | src/components/Exercise/ExerciseLibrary.tsx:12-13 | every text includes the empty search term |
| ExerciseLibrary.FilteredExercises | src/components/Exercise/ExerciseLibrary.tsx:11-18 | an exercise is shown exactly when it is in the catalog and matches the search in name or description, the difficulty unless `all`, and the category unless `all`; never more entries than the catalog |
| ExerciseLibrary.FilteredIsSubsequence | src/components/Exercise/ExerciseLibrary.tsx:11 | the shown list is a subsequence of the catalog, in catalog order |
| ExerciseLibrary.UnfilteredIsCatalog | src/components/Exercise/ExerciseLibrary.tsx:12-15 | empty search with both selectors on `all` shows the whole catalog |
| ExerciseLibrary.DifficultyNarrows | src/components/Exercise/ExerciseLibrary.tsx:14 | picking a difficulty instead of `all` shows a subsequence of what `all` shows |
| ExerciseLibrary.CategoryNarrows | src/components/Exercise/ExerciseLibrary.tsx:15 | picking a category instead of `all` shows a subsequence of what `all` shows |
| ExerciseLibrary.Distinct | src/components/Exercise/ExerciseLibrary.tsx:20 | `Array.from(new Set(xs))` has no repeats, the same elements as `xs`, and is no longer |
| ExerciseLibrary.DistinctInFirstAppearanceOrder | src/components/Exercise/ExerciseLibrary.tsx:20 | the distinct elements are in the order of their first appearance |
| ExerciseLibrary.CategoryOptions | src/components/Exercise/ExerciseLibrary.tsx:20 | the options begin with `all` and number at most one more than the catalog's exercises |
| ExerciseLibrary.DifficultyOptions | src/components/Exercise/ExerciseLibrary.tsx:21 | the difficulty selector offers `all`, then the name of each difficulty level exactly once, and nothing else |
| ExerciseLibrary.CategoryOptionsSpec | src/components/Exercise/ExerciseLibrary.tsx:20 | the category options start with `all`, then hold exactly the catalog's categories, without repeats when no category is named `all` |
| ExerciseLibrary.CatalogDistinctCategories | src/components/Exercise/ExerciseLibrary.tsx:20 | the catalog's fifteen categories reduce to Upper Body, Lower Body, Core, Cardio, Full Body, in that order |
| ExerciseLibrary.CatalogCategoryOptions | src/components/Exercise/ExerciseLibrary.tsx:20 | for the shipped catalog the options are `all`, Upper Body, Lower Body, Core, Cardio, Full Body |
| Analytics.FindExercise | src/components/Analytics/AnalyticsPage.tsx:50 | an exercise is found exactly when some catalog entry has the id; it is the first such entry |
| Analytics.FoundCount | src/components/Analytics/AnalyticsPage.tsx:49-55 | the completed ids that name a catalog entry are at most `totalExercises` |
| Analytics.CategoryCount | src/components/Analytics/AnalyticsPage.tsx:49-55 | the ids counted for one category are at most the completed ids found in the catalog |
| Analytics.DifficultyCount | src/components/Analytics/AnalyticsPage.tsx:387-390 | the ids counted for one difficulty are at most the completed ids found in the catalog |
| Analytics.DifficultyCountsSum | src/components/Analytics/AnalyticsPage.tsx:386-390 | the simple, moderate and hard counts add up to the completed ids found in the catalog |
| Analytics.Bump | src/components/Analytics/AnalyticsPage.tsx:52 | the breakdown gains an entry exactly when the category had no key, and otherwise keeps its length |
| Analytics.CategoryBreakdown | src/components/Analytics/AnalyticsPage.tsx:49-55 | the breakdown has no more entries than there are completed ids found in the catalog |
| Analytics.BumpSpec | src/components/Analytics/AnalyticsPage.tsx:52 | counting one more exercise of a category keeps keys distinct and counts positive. It adds the key if missing, adds one to that count and to the total, and leaves every other count alone |
| Analytics.KeyIffPositive | src/components/Analytics/AnalyticsPage.tsx:49-55 | a category has a key exactly when its count is positive |
| Analytics.CategoryBreakdownSpec | src/components/Analytics/AnalyticsPage.tsx:49-55 | keys are distinct and counts positive. Each category's count is the number of completed ids of that category, ids without a catalog entry being ignored. A key exists exactly for the categories met, and the counts sum to the found ids |
| Analytics.BreakdownDivisorPositive | src/components/Analytics/AnalyticsPage.tsx:250-251 | whenever the breakdown has an entry, `totalExercises` is positive and at least that entry's count, so the unguarded division is defined |
| Analytics.CategoryPercentage | src/components/Analytics/AnalyticsPage.tsx:251 | the category percentage lies between 0 and 100 when the count does not exceed the total, and is 100 when they are equal |
| Analytics.DifficultyPercentage | src/components/Analytics/AnalyticsPage.tsx:391 | 0 when there are no completed exercises, between 0 and 100 when the count does not exceed the total |
| Analytics.AverageCaloriesPerDay | src/components/Analytics/AnalyticsPage.tsx:34 | the divisor `max(streakDays, 1)` is at least 1 and the result is the rounded quotient; with a streak of at most 1 it is the calorie total |
| Analytics.CompletionRate | src/components/Analytics/AnalyticsPage.tsx:35 | between 0 and 100 when there are no more completions than catalog entries, 100 when equal, 0 with none |
| Analytics.CompletionRateBounded | src/components/Analytics/AnalyticsPage.tsx:35 | with no repeats and only catalog ids, as the seed data keeps them and the card's callers supply, the completions are no more than the catalog, so the rate is within 0 to 100 |
| Analytics.SampleHeadlines | src/components/Analytics/AnalyticsPage.tsx:33-35 | the demonstration accounts show completion rates 20, 33, 47 and 90, 65, 156 calories a day |
| Analytics.MaxValue | src/components/Analytics/AnalyticsPage.tsx:57 | the chart scale is at least the chosen metric of every day and equals one of them |
| Analytics.WeeklyDays | src/components/Analytics/AnalyticsPage.tsx:38-46 | the sample week has seven days, Monday to Sunday in order, each with positive calories, exercises and minutes |
| Analytics.WeeklyMaxima | src/components/Analytics/AnalyticsPage.tsx:38-57 | for the sample week the scale is 220 calories, 4 exercises, 28 minutes |

## Left out

- The presentation-only `Exercise` fields `instructions`, `targetMuscles` and `imageUrl` are not modelled, since no computation reads them. All JSX, class names other than the badge colours, icons, the detail and favourite toggles of the card, and the `timeRange` selector are left out too.
- JSON serialisation and `localStorage` itself are not modelled: storage is a map from key to a stored user list or user record. A storage failure, which the application lets propagate, is not modelled.
- AuthContext.AuthProvider.constructor: a `fited-users` value that is a single record rather than a list leaves the seed list in place. The application would adopt whatever the parse returns, and malformed JSON would throw.
- AuthContext.AuthProvider.UpdateUserProgress: the calorie amount is an integer. The application passes any number, but its only caller passes a rounded value.
- `Date.now()` and `new Date().toISOString()` are parameters `id` and `createdAt` of `Signup`.
- The `useAuth` guard that throws outside a provider (`src/context/AuthContext.tsx:7-13`) is left out, as is React's scheduling of state updates and effects.
- `toLowerCase` is modelled for ASCII letters only; Unicode case mapping is not.
- JavaScript numbers are exact reals here, so floating-point rounding in `caloriesPerMinute * duration` and in the percentage divisions is not modelled.
- Analytics.CompletionRate: requires a non-empty catalog. The page divides by the length of the constant catalog, which has 15 entries (`SampleData.CatalogIds`).
- Analytics.CategoryPercentage: requires a positive total. `Analytics.BreakdownDivisorPositive` shows every breakdown entry satisfies this.
- The analytics functions take the catalog as a parameter, where the page reads the constant. `SampleHeadlines` and the sample-data lemmas tie them to that constant.
- Analytics figures not listed in the Model table are left out:
  - weekly average exercises (`src/components/Analytics/AnalyticsPage.tsx:352`);
  - calories per exercise (line 360);
  - days active, which reads the clock (line 368);
  - bar heights and colour cycling (lines 226, 269);
  - the hard-coded weekly goals;
  - the JSON export (lines 77-99).
- The mock `weeklyData` is a constant; the page does not derive it from the user.
- src/components/Dashboard/Dashboard.tsx, src/components/Dashboard/UserProfile.tsx, src/components/BMI/BMICalculator.tsx, src/components/MentalHealth/MentalHealthPage.tsx and src/App.tsx are not part of this model. They hold routing, floating-point BMI arithmetic, sharing and mock mood data.
- The `WorkoutPlan` type (`src/types/index.ts:31-38`) is declared but used by no core code, so it is not modelled.
