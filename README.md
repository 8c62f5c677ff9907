# SmartHabit gamification core in Dafny

SmartHabit is a habit tracker that rewards check-ins with experience points (XP), levels, streaks
and achievements. This project models the rules behind those rewards and proves properties of them.
The repository has two backends that disagree with each other, and each is modelled on its own
terms:

- **The Convex functions in TypeScript** (`convex/habits.ts`, `convex/users.ts`,
  `convex/achievements.ts`, `convex/rewards.ts`, `convex/analytics.ts`). These use a tiered level
  table, difficulty-based XP and a daily streak keyed on date strings. They also cover achievement
  unlocks, a progress view, summary reports and analytics.
- **The older line.** This is the Express backend `backend/server.js` and the Convex files in
  JavaScript, `convex/users.js` and `convex/habits.js`. It uses an hours-based recurrence window,
  a streak that tolerates 1.5 times the recurrence, and one level per 100 XP.

Three client-side rules are modelled as well:

- the habit form of `frontend/src/pages/CreateHabit.jsx`;
- the heatmap of `frontend/src/components/analytics/StreakCalendar.jsx`;
- the achievement grouping of `frontend/src/components/achievements/AchievementsModal.jsx`.

## How the model is built

**Storage.** Each store is a class whose tables are `seq` fields:

- `ConvexStore.Db` holds the documents `convex/*.ts` writes;
- `JsStore.Db` holds the ones `convex/*.js` writes;
- `RestStore.Mongo` holds the Mongoose collections.

Each class also has an id counter. Inserts, patches and deletes are methods with `modifies` clauses
and a `Valid()` invariant: every id was handed out by the counter and is unique within its table.

**Handlers.** Mutations are methods on these stores. Each states its entire new state and its result
in terms of pure functions, such as `SetUser(old(users), CreditedUser(...))`. The properties that
matter are then proved about those functions as lemmas. Queries are functions, or methods that
change nothing, over snapshots of the tables.

**The clock.** The clock is a parameter:

- `now` is in milliseconds;
- today's and yesterday's date strings and the day of the week are passed in;
- functions from a millisecond time or a day offset to an ISO date string (`isoDate`, `dateOf`,
  `dayBack`, `dayOfMonth`) are passed in.

**Hour comparisons.** The Express handlers compare elapsed hours, and the model uses exact integers
for this:

- `diff < recurrenceHours * 3600000` for the window;
- `2 * diff <= 3 * recurrenceHours * 3600000` for the 1.5 tolerance.

`RestServer.HourComparisons` proves that both agree with the real-number division the source performs.

**JavaScript dictionaries.** These are `Tally.Dict`, an association list in insertion order. That is
what `Object.entries` returns for ordinary keys. Array-index keys and `Object.prototype` names are not
ordinary keys, and "## Left out" covers them. `JsText.Trim` is `String.prototype.trim`, over the white-space
and line-terminator code units ECMAScript defines.

**Quirks kept.** The model keeps these source behaviours as written:

- `completeHabit` stores the level of the XP *before* the streak bonus is added.
- Every unlock in `checkAchievements` patches XP from one stale snapshot of the user. After a batch,
  only the last reward has been added.
- An achievement that is already unlocked reports a progress of 1 out of 1.
- `updateHabit` recomputes `xpValue` only for a non-empty difficulty.
- The source's JavaScript truthiness is written out, for example `xpPerCompletion || 10` and
  `args.days || 30`.

## Model

| member | source | states |
|---|---|---|
| ConvexHabits.XpForDifficulty | convex/habits.ts:31-33 | "medium" gives 10 XP, "hard" gives 20, every other difficulty gives 5 |
| ConvexHabits.CalculateLevel | convex/habits.ts:370-381 | the level is between 1 and 10, 1 below 100 XP and 10 from 32000 XP |
| ConvexHabits.LevelCountsThresholds | convex/habits.ts:370-381 | the level is 1 plus the number of thresholds (100, 250, ..., 32000) the XP has reached |
| ConvexHabits.CalculateLevelMonotone | convex/habits.ts:370-381 | more XP never gives a lower level |
| ConvexHabits.CreateHabit | convex/habits.ts:21-60 | unknown user: "User not found" and nothing written; otherwise one habit inserted with the owner's id, the difficulty's XP, zeroed counters, active and not paused |
| ConvexHabits.GetUserHabits | convex/habits.ts:64-116 | unknown user gives []; the list is the table-order filter by `Listed`, so a habit is listed iff it is the user's and passes the status filter and the category filter; each carries whether a completion for today exists |
| ConvexHabits.NarrowHabits | convex/habits.ts:78-94 | the successive filters equal the single filter by `Listed` in table order: exactly the user's habits that match the filter and the category |
| ConvexHabits.TodaysHabits | convex/habits.ts:317-367 | a habit is listed iff it is the user's, active, not paused, and daily or weekly with today's weekday among its days |
| ConvexHabits.ApplyHabitUpdates | convex/habits.ts:146-157 | each of the twelve editable fields takes the supplied value or keeps the stored one; `updatedAt` is stamped; `createdAt`, counters, streaks and flags are kept; `xpValue` follows a non-empty difficulty |
| ConvexHabits.UpdatedDifficultySetsXp | convex/habits.ts:146-152 | after an update with a difficulty, the stored XP is the one that difficulty earns |
| ConvexHabits.EmptyUpdateOnlyTouchesTime | convex/habits.ts:154-157 | an update with no fields only moves `updatedAt` |
| ConvexHabits.UpdateHabit | convex/habits.ts:127-159 | missing habit: error and nothing written; otherwise the habit is patched with `ApplyHabitUpdates` and nothing else changes |
| ConvexHabits.ToggleHabitPause | convex/habits.ts:162-175 | missing habit: error and nothing written; otherwise `isPaused` flips, the new value is returned, and nothing else changes |
| ConvexHabits.DeleteCompletionsOf | convex/habits.ts:182-190 | the loop deletes exactly the completions of the habit and keeps the others in order |
| ConvexHabits.DeleteHabit | convex/habits.ts:178-195 | missing habit: error and nothing written (the handler's rollback); otherwise its completions and then the habit are removed, and users and other documents are kept |
| ConvexHabits.StreakBonusOnlyAtMilestones | convex/habits.ts:259-262 | the bonus is never negative and is non-zero exactly at streaks 7, 30 and 100 |
| ConvexHabits.CompletedHabitCounters | convex/habits.ts:222-250 | the new streak is one more than the current one when yesterday has a completion, else 1; the total grows by one; the current streak stays within the longest |
| ConvexHabits.CheckInReportsCredit | convex/habits.ts:264-278 | the reported XP is what the user gained, `leveledUp` holds iff the stored level rose, and the completed count grows by one |
| ConvexHabits.CreditedLevelLags | convex/habits.ts:255-269 | the stored level never exceeds the level of the stored XP, and equals it when there is no bonus |
| ConvexHabits.StoredLevelIgnoresBonus | convex/habits.ts:255-269 | there is a check-in whose bonus lifts the XP over a threshold while the stored level stays below |
| ConvexHabits.RecordCompletion | convex/habits.ts:234-250 | appends exactly one completion (today's date, the habit's XP, the new streak) and patches the habit's counters |
| ConvexHabits.CreditCheckIn | convex/habits.ts:253-279 | the user is patched with XP plus bonus, the pre-bonus level and one more completion; the summary reports it |
| ConvexHabits.CompleteHabit | convex/habits.ts:198-289 | missing habit or a completion already dated today: error and nothing written; otherwise the check-in is recorded and credited as the two steps above state |
| ConvexHabits.ApplyCheckIn | convex/habits.ts:234-287 | after both checks: the completion, the habit patch and the user credit (nothing when the user is missing), and the summary returned |
| ConvexUsers.CalculateLevel | convex/users.ts:171-184 | the level is between 1 and 10 |
| ConvexUsers.LevelTablesAgree | convex/users.ts:171-184 | the copy of the level table in `users.ts` gives every XP amount the same level as the one in `habits.ts` |
| ConvexUsers.CalculateLevelMonotone | convex/users.ts:171-184 | more XP never gives a lower level |
| ConvexUsers.CalculateXPForLevel | convex/users.ts:186-189 | undefined for a negative level, otherwise an entry between 0 and 64000 |
| ConvexUsers.XPForLevelStartsNextLevel | convex/users.ts:186-189 | for level L up to 9 the entry is the least XP of level L+1; from level 10 it is 64000 |
| ConvexUsers.Clamp | convex/users.ts:87 | the result lies in [0, 100] and leaves values already in range unchanged |
| ConvexUsers.LevelProgressAsWritten | convex/users.ts:79-81 | the progress as written: within [0, 100]; undefined for a negative level, and at level 10 or above with exactly 64000 XP |
| ConvexUsers.ProgressIsAlwaysZeroAsWritten | convex/users.ts:79-87 | as written, every user whose level matches the XP and is below 10 gets progress 0 |
| ConvexUsers.ProgressIsNaNAtTopAsWritten | convex/users.ts:79-81 | as written, 64000 XP at level 10 divides zero by zero |
| ConvexUsers.LevelProgress | convex/users.ts:79-87 | the corrected progress lies in [0, 100] |
| ConvexUsers.LevelProgressWithinLevel | convex/users.ts:79-87 | the corrected progress measures the XP from the start of the current level to the start of the next |
| ConvexUsers.GetUserStats | convex/users.ts:68-91 | unknown user gives null; otherwise the user with `calculateXPForLevel(level + 1)`, `calculateXPForLevel(level)` and the as-written clamped progress between them |
| ConvexUsers.StatsShowNoProgressAsWritten | convex/users.ts:79-87 | as written, a known user whose level matches their XP below 32000 is shown 0 percent, and the bound reported as the current level's is where the next level begins |
| ConvexUsers.GetUserStatsCorrected | convex/users.ts:68-91 | the corrected statistics: the bounds are where the user's level and the next level begin, and the progress runs between them |
| ConvexUsers.CorrectedStatsWithinLevel | convex/users.ts:79-87 | with the corrected bounds, a user whose level matches their XP lies inside the span and is shown their exact share of it, below 100 |
| ConvexUsers.NewUserStartsFresh | convex/users.ts:31-43 | a new user has 0 XP, level 1, both streaks 0 and nothing completed, and keeps both invariants |
| ConvexUsers.ResyncedKeepsProgress | convex/users.ts:19-27 | a repeated sign-in changes only email, name, avatar and `updatedAt` |
| ConvexUsers.CreateUser | convex/users.ts:5-48 | known id: the profile is patched and the same id returned; otherwise a fresh user is inserted; either way the id is then found under the external id |
| ConvexUsers.XpAddedMatchesLevel | convex/users.ts:102-109 | the new XP is the sum, the stored level is the level of that XP, and nothing else changes |
| ConvexUsers.LeveledUpIffThresholdCrossed | convex/users.ts:111-116 | `leveledUp` holds iff the added XP crosses a threshold that the stored level had not reached |
| ConvexUsers.UpdateUserXP | convex/users.ts:93-119 | missing user: error and nothing written; otherwise patched with `XpAdded`, and `leveledUp` holds iff the new level exceeds the old one |
| ConvexUsers.StreakUpdatesKeepInvariant | convex/users.ts:130-149 | an increment adds one and raises the longest streak to it if needed; a reset gives 0 and keeps the longest; both keep the current streak within the longest |
| ConvexUsers.UpdateUserStreak | convex/users.ts:121-153 | missing user: error and nothing written; otherwise the increment or the reset is patched and reported |
| ConvexUsers.CountedCompletionOnlyCounts | convex/users.ts:163-166 | exactly one more completed habit; only `updatedAt` also changes |
| ConvexUsers.IncrementHabitsCompleted | convex/users.ts:155-169 | missing user: error and nothing written; otherwise the user is patched with one more completed habit |
| ConvexAchievements.CatalogIdsDistinct | convex/achievements.ts:23-115 | ten entries, pairwise distinct ids, positive rewards |
| ConvexAchievements.MaxStreakReaches | convex/achievements.ts:189-195 | the largest current streak reaches n iff some habit's streak does |
| ConvexAchievements.CatalogUnlockRules | convex/achievements.ts:181-223 | each entry's rule in terms of the user and habits: completions, streaks, levels, matching time-of-day completions, distinct active categories |
| ConvexAchievements.OverachieverNeverUnlocks | convex/achievements.ts:61-223 | the "daily" entry has no case and never unlocks |
| ConvexAchievements.ShouldUnlockIgnoresXp | convex/achievements.ts:181-223 | the rules do not read XP or time stamps |
| ConvexAchievements.NewlyUnlocked | convex/achievements.ts:173-223 | an entry is unlocked iff it is in the catalog, not held, and its rule holds |
| ConvexAchievements.RecheckUnlocksNothing | convex/achievements.ts:173-177 | a second check right after the first unlocks nothing |
| ConvexAchievements.UnlockRecords | convex/achievements.ts:225-234 | one document per unlocked entry, with its catalog id as type and consecutive ids |
| ConvexAchievements.OnlyLastRewardSurvives | convex/achievements.ts:237-240 | a user who unlocks First Step and Rising Star together earns 60 XP but keeps only the last reward |
| ConvexAchievements.HeldAfterCheck | convex/achievements.ts:225-234 | after a check the user holds the former ids plus those of the batch |
| ConvexAchievements.CheckAchievements | convex/achievements.ts:145-251 | missing user gives [] and nothing written; otherwise the batch is inserted in catalog order, and XP becomes the snapshot plus the last reward |
| ConvexAchievements.FindUnlock | convex/achievements.ts:134 | finds an unlock of the id iff the user holds it |
| ConvexAchievements.GetUserAchievements | convex/achievements.ts:117-143 | unknown user gives []; otherwise each catalog entry, unlocked iff held |
| ConvexAchievements.ProgressOf | convex/achievements.ts:274-320 | progress at most the total, percentage at most 100, unlocked iff held; an unlocked entry reports 1 of 1 |
| ConvexAchievements.FullBarMeansUnlockable | convex/achievements.ts:183-318 | for an entry not held, the bar is full iff the unlock rule holds |
| ConvexAchievements.GetAchievementProgress | convex/achievements.ts:254-322 | unknown user gives []; otherwise one row per catalog entry |
| ConvexRewards.PeriodDays | convex/rewards.ts:15 | 7 days for "week", 30 for anything else |
| ConvexRewards.HabitIdsAtMostCompletions | convex/rewards.ts:39 | there are never more distinct habits than completions |
| ConvexRewards.ScanMax | convex/rewards.ts:49-63 | `maxCompletions` ends as the largest count, found or not |
| ConvexRewards.ScanBestIsAnEntry | convex/rewards.ts:49-63 | no counts gives no best habit; a best habit is a user's habit reported with its own count |
| ConvexRewards.ScanFirstMaximum | convex/rewards.ts:51-58 | a found best habit is the first entry with a strictly larger count; later ties do not replace it |
| ConvexRewards.AveragePerDay | convex/rewards.ts:40-80 | the average rounded to one decimal, within 0.05 of the exact value |
| ConvexRewards.CompletionRate | convex/rewards.ts:84-86 | 0 without habits, never negative |
| ConvexRewards.HabitCountsPositive | convex/rewards.ts:43-47 | every per-habit count is at least 1 and the counts add up to the completions |
| ConvexRewards.BestHabitOf | convex/rewards.ts:49-63 | the loop computes the scan above |
| ConvexRewards.GetSummaryReport | convex/rewards.ts:5-89 | null for a missing user; otherwise the window, the count, the XP sum, the distinct habits (at most the count), the best habit of the scan, the rounded average and rate, and whether a completion falls today |
| ConvexRewards.Percent | convex/rewards.ts:125 | the progress is at most 100, and 100 iff the requirement is met |
| ConvexRewards.GetUpcomingAchievements | convex/rewards.ts:92-209 | [] for a missing user; at most five entries, sorted by progress descending |
| ConvexRewards.UpcomingAreClosest | convex/rewards.ts:202-205 | the list is drawn from the open entries (not held, below 100%); every open entry left out has no more progress than any shown; fewer than five shown means all open entries are |
| ConvexRewards.ThemeLevel | convex/rewards.ts:222-229 | ocean 3, sunset 5, forest 7, galaxy 10, anything else 1 |
| ConvexRewards.UnlockTheme | convex/rewards.ts:212-241 | a missing user throws; otherwise refused iff the level is below the theme's requirement |
| ConvexRewards.UnlockThemeMonotone | convex/rewards.ts:231-233 | raising the level never locks a theme again |
| ConvexAnalytics.DaysOrDefault | convex/analytics.ts:18 | absent or 0 gives 30, anything else is kept |
| ConvexAnalytics.GetCompletionStats | convex/analytics.ts:5-56 | null for an unknown user; otherwise one row per day, oldest first, with that day's count and XP |
| ConvexAnalytics.DayRows | convex/analytics.ts:33-53 | exactly `days` rows (none for a non-positive count), each the per-date count and XP sum, 0/0 for a day without completions |
| ConvexAnalytics.DateCountsSumToCompletions | convex/analytics.ts:33-40 | each date appears once, and the per-date counts add up to the completions |
| ConvexAnalytics.GetCompletionRateByCategory | convex/analytics.ts:59-91 | [] for an unknown user; per category in first-appearance order (for ordinary keys, see "## Left out"), total is the sum of goals, completed the sum of completions, rate 0 when the total is 0 |
| ConvexAnalytics.GetStreakAnalysis | convex/analytics.ts:94-125 | null for an unknown user; the active habits are those active and not paused, at most all; one row each; the average of their streaks, 0 when there are none; the longest overall streak bounds every habit's and is 0 or one of them |
| ConvexAnalytics.LongestOverall | convex/analytics.ts:122 | the longest overall streak bounds every habit's and is one of them, or 0 without habits |
| ConvexAnalytics.TimeBucketsEmpty | convex/analytics.ts:143-148 | the four buckets in order, all 0 |
| ConvexAnalytics.SumRowsTotal | convex/analytics.ts:154-157 | the rows add up to the dictionary's total |
| ConvexAnalytics.GetTimeOfDayAnalysis | convex/analytics.ts:128-159 | [] for an unknown user; the four buckets first (for ordinary keys, see "## Left out"), each the sum of its habits' completions, and the whole equals all completions |
| ConvexAnalytics.LimitOrDefault | convex/analytics.ts:226 | absent or 0 gives 5 |
| ConvexAnalytics.Rated | convex/analytics.ts:229-234 | the rate is 0 when the goal is not positive |
| ConvexAnalytics.GetBestPerformingHabits | convex/analytics.ts:208-240 | [] for an unknown user; sorted by rate descending; `limit` entries (or all), a negative limit drops that many from the end; each a rated habit of the user |
| ConvexAnalytics.BestPerformingAreBest | convex/analytics.ts:236-238 | the result is drawn from the user's rated habits, and every habit left out rates no higher than any shown |
| RestServer.HourComparisons | backend/server.js:123-136 | the millisecond comparisons agree with dividing by an hour |
| RestServer.NextStreak | backend/server.js:133-143 | the streak becomes 1 or one more; one more only after a previous completion |
| RestServer.AfterCompletion | backend/server.js:130-144 | one more entry with the date now, `lastCompletionDate` now, the streak at least 1, and consistency kept |
| RestServer.StreakRule | backend/server.js:133-143 | first completion: 1; otherwise one more iff the last was at most 1.5 recurrences ago, else 1 |
| RestServer.CompletedIsDone | backend/server.js:122-127 | right after a completion, a second one is refused |
| RestServer.LevelFor | backend/server.js:150 | `floor(xp / 100) + 1`: xp lies in the 100-wide band of the level |
| RestServer.LevelForMonotone | backend/server.js:150 | more XP never gives a lower level |
| RestServer.XpOrDefault | backend/server.js:89 | missing or 0 gives 10, otherwise kept |
| RestServer.NewHabit | backend/server.js:84-90 | a new habit has no completions and streak 0, the trimmed title, and the XP default |
| RestServer.CreateHabit | backend/server.js:75-97 | accepted iff the title is non-blank and the recurrence is at least 1; 400 for a missing title or a recurrence missing or below 1; 500 for a blank title; no write on failure |
| RestServer.NewHabitTitle | backend/models/Habit.js:5 | a stored title is non-empty with no surrounding white space; a blank title trims to empty |
| RestServer.FirstCompletion | backend/server.js:122-195 | a new habit shows as pending, and its first completion starts the streak at 1 |
| RestServer.MaxStreakOf | backend/server.js:155-158 | the loop finds the largest habit streak, 0 without habits |
| RestServer.Credited | backend/server.js:148-159 | XP plus the reward, the level of the new XP, the overall streak |
| RestServer.RecordCompletion | backend/server.js:130-145 | the habit is saved as `AfterCompletion` |
| RestServer.CreditUser | backend/server.js:148-160 | the user is saved as `Credited`, with the largest streak of the saved habits |
| RestServer.CompleteHabit | backend/server.js:112-167 | 404 for a habit not found or not owned, 400 inside the window, no write on failure; otherwise habit and user saved |
| RestServer.ApplyCompletion | backend/server.js:130-162 | the habit part then the user part, and the reply reports the new XP, level and streak |
| RestServer.UserStreakCoversHabit | backend/server.js:154-159 | after a completion, the user's streak is at least the habit's, which is at least 1 |
| RestServer.Partition | backend/server.js:181-195 | completed holds the habits inside their window and pending holds the rest, in order |
| RestServer.PartitionExact | backend/server.js:181-195 | every habit is in exactly one of the two lists, counted with multiplicity |
| RestServer.GetDashboard | backend/server.js:171-229 | the partition of the user's habits, the user's XP, level and streak, and seven days in order, each with its count of completions |
| RestServer.WeeklyCounts | backend/server.js:198-213 | the seven prepared days are the keys, and each holds the number of completions on that day |
| ConvexUsersJs.FindByKindeId | convex/users.js:5-13 | finds a user with the id iff one exists |
| ConvexUsersJs.NewUserDefaults | convex/users.js:32-45 | a new user: 0 XP, level 1, streaks 0, nothing completed, light theme, notifications on, reminder at 09:00 |
| ConvexUsersJs.CreateUser | convex/users.js:15-47 | known id: that document is returned and nothing written; otherwise one user inserted and its id returned |
| ConvexUsersJs.CreateUserIdempotent | convex/users.js:23-30 | a second call with the same id finds the inserted user |
| ConvexUsersJs.StatsUpdated | convex/users.js:59-68 | XP plus the gain, level of the new XP, streak the given one or the old one, longest is the max, one more completion, nothing else |
| ConvexUsersJs.StatsKeepInvariants | convex/users.js:59-68 | the streak stays within the longest and the level matches the XP |
| ConvexUsersJs.UpdateUserStats | convex/users.js:49-73 | missing user: error and nothing written; otherwise patched with `StatsUpdated`, and the new values are returned |
| ConvexHabitsJs.GetUserHabits | convex/habits.js:5-14 | exactly the user's active habits |
| ConvexHabitsJs.NewHabit | convex/habits.js:35-40 | every argument stored, active, both time stamps now |
| ConvexHabitsJs.CreateHabit | convex/habits.js:17-42 | one habit inserted with the arguments |
| ConvexHabitsJs.CreatedIsListed | convex/habits.js:5-40 | a created habit is listed for its owner |
| ConvexHabitsJs.CompletedSince | convex/habits.js:60-66 | found iff the user has a completion of the habit since the start of today |
| ConvexHabitsJs.CompleteHabit | convex/habits.js:45-83 | unknown habit or already completed today: error and nothing written; otherwise one completion worth the habit's reward, which is returned, and nothing else changes |
| ConvexHabitsJs.CompletedTodayBlocks | convex/habits.js:56-70 | once a completion today is stored, a later one the same day is refused |
| ConvexHabitsJs.Patched | convex/habits.js:101-104 | each field given replaces the stored one, the others are kept, `updatedAt` is now |
| ConvexHabitsJs.EmptyPatchOnlyTouchesTime | convex/habits.js:101-104 | an empty update only moves `updatedAt` |
| ConvexHabitsJs.PatchIdempotent | convex/habits.js:101-104 | applying the same update twice is applying it once |
| ConvexHabitsJs.UpdateHabit | convex/habits.js:86-106 | missing habit: error and nothing written; otherwise patched with `Patched` |
| ConvexHabitsJs.DeleteHabit | convex/habits.js:109-116 | missing habit: error and nothing written; otherwise only `isActive` is cleared (and `updatedAt` moved), and the document stays |
| ConvexHabitsJs.DeletedIsNotListed | convex/habits.js:5-116 | a deleted habit is no longer listed, the others still are, the table keeps its size |
| CreateHabitForm.DifficultyXpMatchesServer | frontend/src/pages/CreateHabit.jsx:49-53 | the XP shown for easy, medium and hard is the XP the server stores for them |
| CreateHabitForm.TargetFromInput | frontend/src/pages/CreateHabit.jsx:356 | an entry that does not parse gives 0, and the target is below 1 iff the entry is |
| CreateHabitForm.ValidateForm | frontend/src/pages/CreateHabit.jsx:116-133 | the name error iff the name is blank; the weekday error iff weekly with no days; the goal error iff below 1; no duplicates; valid iff none |
| CreateHabitForm.ErrorKeys | frontend/src/pages/CreateHabit.jsx:117-132 | the three error entries are distinct, and each is present iff its condition holds |
| CreateHabitForm.ToggleWeekDay | frontend/src/pages/CreateHabit.jsx:172-179 | on a list of weekdays: a day is in the result iff it was in the list or is the toggled day, but not both; the result stays weekdays, and stays sorted and duplicate-free when the list was |
| CreateHabitForm.RemoveDay | frontend/src/pages/CreateHabit.jsx:176 | the filter keeps exactly the other days, and keeps the list sorted and duplicate-free |
| CreateHabitForm.AddDay | frontend/src/pages/CreateHabit.jsx:177 | adding a missing day and sorting gives the old days and the new one, ascending, and duplicate-free when the old list was |
| CreateHabitForm.ToggleTwice | frontend/src/pages/CreateHabit.jsx:172-179 | toggling the same day twice on a sorted, duplicate-free list gives the list back |
| CreateHabitForm.Toggled | frontend/src/pages/CreateHabit.jsx:172-179 | any run of toggles from the empty list leaves a sorted, duplicate-free list of weekdays |
| CreateHabitForm.Payload | frontend/src/pages/CreateHabit.jsx:146-160 | the name trimmed, an empty description dropped, weekdays only for weekly, reminder time only when enabled, the rest as in the form |
| CreateHabitForm.HandleSubmit | frontend/src/pages/CreateHabit.jsx:135-170 | sent iff the form is valid, and then the payload is sent |
| CreateHabitForm.SentPayloadIsClean | frontend/src/pages/CreateHabit.jsx:138-156 | a sent payload has a non-empty trimmed name, days for a weekly habit, a goal of at least 1 and no empty description |
| CreateHabitForm.ShownXpIsStored | frontend/src/pages/CreateHabit.jsx:49-157 | the XP shown for the chosen difficulty is what the created habit earns |
| CreateHabitForm.InitialFormNeedsOnlyAName | frontend/src/pages/CreateHabit.jsx:98-111 | the initial form is refused for its empty name only |
| StreakCalendar.FirstWithDate | frontend/src/components/analytics/StreakCalendar.jsx:19-20 | the first entry for the date, or the end when none matches |
| StreakCalendar.CountOn | frontend/src/components/analytics/StreakCalendar.jsx:19-24 | 0 without data or without a matching entry, otherwise the first match's count |
| StreakCalendar.GenerateCalendarData | frontend/src/components/analytics/StreakCalendar.jsx:11-28 | the loops build the grid: row w, column d is the day 7w+d back |
| StreakCalendar.WeekCells | frontend/src/components/analytics/StreakCalendar.jsx:16-25 | the inner loop builds one row of seven cells |
| StreakCalendar.GridWalksBack | frontend/src/components/analytics/StreakCalendar.jsx:11-28 | read row by row, the grid is the days 0, 1, 2, ... back, each once |
| StreakCalendar.GridSpan | frontend/src/components/analytics/StreakCalendar.jsx:11-28 | 84 cells, from today to 83 days back |
| StreakCalendar.IntensityColor | frontend/src/components/analytics/StreakCalendar.jsx:34-40 | always one of the five classes |
| StreakCalendar.IntensityIsLevel | frontend/src/components/analytics/StreakCalendar.jsx:34-40 | the class is the palette entry of the count's bucket: 0, 1-2, 3-4, 5-6, 7 and more |
| StreakCalendar.LevelMonotone | frontend/src/components/analytics/StreakCalendar.jsx:34-40 | more completions never give a lighter bucket |
| StreakCalendar.PaletteDistinct | frontend/src/components/analytics/StreakCalendar.jsx:35-39 | the five classes are pairwise different |
| StreakCalendar.LegendShowsPalette | frontend/src/components/analytics/StreakCalendar.jsx:93-98 | the legend shows each class once, lightest first |
| AchievementsModal.Group | frontend/src/components/achievements/AchievementsModal.jsx:13-25 | an absent list gives an empty group; otherwise exactly the matching achievements |
| AchievementsModal.Categories | frontend/src/components/achievements/AchievementsModal.jsx:10-27 | four named groups: each keyword group holds exactly the achievements whose type contains it, Special the rest |
| AchievementsModal.Render | frontend/src/components/achievements/AchievementsModal.jsx:8-56 | nothing when closed; otherwise the groups and the count of achievements (0 without a list) |
| AchievementsModal.EveryAchievementGrouped | frontend/src/components/achievements/AchievementsModal.jsx:10-27 | every achievement is shown in some group |
| AchievementsModal.SpecialIsExclusive | frontend/src/components/achievements/AchievementsModal.jsx:23-26 | Special iff in no keyword group |
| AchievementsModal.UntypedIsSpecial | frontend/src/components/achievements/AchievementsModal.jsx:23-26 | an achievement without a type is Special only |
| AchievementsModal.TwoKeywordsTwoGroups | frontend/src/components/achievements/AchievementsModal.jsx:10-22 | a type with two keywords shows in both groups and not under Special |
| AchievementsModal.NoAchievementsShowsEmpty | frontend/src/components/achievements/AchievementsModal.jsx:13-56 | without a list, four empty groups and a count of 0 |
| AchievementsModal.FromStatus | convex/achievements.ts:133-141 | a `getUserAchievements` row reaches the modal with its catalog kind as `type`, its title and its reward |
| AchievementsModal.ProfileList | frontend/src/pages/Profile.jsx:304-308 | the profile page passes every `getUserAchievements` row, locked ones included, in catalog order |
| AchievementsModal.ProfileGroupsByKind | frontend/src/components/achievements/AchievementsModal.jsx:10-27 | on the profile page each catalog entry is in a keyword group iff its kind is that keyword, and under Special iff its kind is none of them |
| AchievementsModal.ProfileHeaderCountsCatalog | frontend/src/components/achievements/AchievementsModal.jsx:56 | on the profile page the header's "Unlocked" count is 10 for every known user, whatever they hold |

## Left out

- Sign-up, login and the JWT middleware (`backend/server.js:25-72`, `backend/middleware/auth.js`): they rely on bcrypt, jsonwebtoken and Mongo. The authenticated user is a parameter given by id, and `RestServer.CompleteHabit` and `RestServer.GetDashboard` require that the user is stored, as the middleware guarantees.
- `GET /api/habits` (`backend/server.js:100-109`): a plain query with no rule in it.
- The hourly `cron.schedule` reminder (`backend/server.js:232-253`): it only logs.
- The Mongo connection, the Express wiring and `app.listen`: infrastructure.
- The 500 responses for failures of the database itself: the model's store does not fail.
- `getHabit` and `getHabitHistory` (`convex/habits.ts:119-124, 292-314`): a lookup, and a history list that only reads and sorts.
- `getUserByUserId` and the aliases `getUserByClerkId` and `syncUser`: the external-id lookup is `ConvexStore.UserByUserId`, used by every handler.
- `getWeeklyProgress` (`convex/analytics.ts:162-205`): it depends on calendar arithmetic of the host (`getDay`, `setDate`, `setHours`) that is not modelled.
- The completions query in `checkAchievements` (`convex/achievements.ts:160-164`): its result is never used. The `eventType` and `eventData` arguments are unused as well.
- The clock and the calendar: `Date.now()`, `new Date()`, `toISOString`, `toDateString`, `getDate`, `setHours` and time zones are parameters. `streakMaintained` in `getSummaryReport` is computed from a given `dateOf` function and today's date string.
- Floating-point numbers:
  - XP, counts and streaks are unbounded integers;
  - percentages and ratios are Dafny `real`, with no rounding error;
  - `RestServer` models `recurrenceHours` as a whole number of hours, although Mongoose also accepts fractions.
  - `ConvexRewards.AveragePerDay`: states the one-decimal rounding only up to 0.05 of the exact average, not the exact `Math.round` result.
- Non-number and NaN inputs: JavaScript values of the wrong type are outside the model; an absent optional number is `None`. `CreateHabitForm.TargetFromInput` models a `parseInt` that fails as `None`.
- The order of index scans: Convex `withIndex` and Mongoose `find` are modelled as table order. The only places where order shows are `getUserHabits` (stated by `ConvexHabits.NarrowHabits`), the ties of the best habit, and `Object.entries`; `Tally.Dict` gives the latter its insertion order, which holds for keys that are not array indices (see the next two lines).
- ConvexAnalytics.GetTimeOfDayAnalysis: its rows and their order, with the four buckets first, hold only when no `timeOfDay` is an array index such as "7" and none is an `Object.prototype` name such as "toString". `Object.entries` lists array-index keys first in numeric order. An inherited name makes `timeStats[key]` find the prototype's member, and the model keeps neither JavaScript rule.
- ConvexAnalytics.GetCompletionRateByCategory: its per-category rows and their first-appearance order hold only when no category is an array index such as "5" and none is an `Object.prototype` name such as "constructor". An array-index category is listed first. An inherited name skips the initialiser and writes onto the prototype, so it yields no row, and the model keeps neither JavaScript rule.
- `Habit.find` after `habit.save()`: the user's habits are re-read in `RestServer.CreditUser` from the saved table.
- `Promise.all` and concurrent requests: handlers run one at a time.
- `StreakCalendar.GenerateCalendarData`: the weekday labels Sun to Sat above the grid are presentation only. Row `w`, column `d` is the day `7w + d` back, so the columns are not the weekdays the labels name; the model states the grid as the code builds it.
- `CreateHabitForm.ToggleWeekDay` requires that the days are weekdays 0 to 6. JavaScript's `sort()` compares numbers as strings, which agrees with numeric order only for one-digit values.
- ConvexHabitsJs.GetUserHabits: states which habits are listed, not their table order, because its body is that one filter and an order clause would only repeat it.
- The rest of the client (pages, layout, charts, toasts, confetti, the theme hooks and `useConvex.ts`): presentation, or thin wrappers around the Convex and browser libraries.
- `convex/schema.ts`, `backend/models/Habit.js` and `backend/models/User.js` hold no logic. They shape the record datatypes, and the Mongoose `trim` of the title is modelled in `RestServer.NewHabit`.

The profile page passes `getUserAchievements`, which lists the whole catalog with an `unlocked` flag. The modal neither filters on that flag nor reads it. So its "Unlocked" badge counts all ten entries (`AchievementsModal.ProfileHeaderCountsCatalog`), and each group shows every catalog entry of its kind.

## Findings

| source | as written | input that shows it | evidently intended | confidence | as-written member | corrected member |
|---|---|---|---|---|---|---|
| convex/users.ts:79-81 | `levelProgress` measures from `calculateXPForLevel(level)` to `calculateXPForLevel(level + 1)`, but that table entry is where level `level + 1` begins | 150 XP at level 2: (150 - 250) / (500 - 250) is negative and clamps to 0; 64000 XP at level 10: 0 / 0 | the share of the way from the start of the current level to the start of the next | not executed | ConvexUsers.StatsShowNoProgressAsWritten | ConvexUsers.CorrectedStatsWithinLevel |
