# EcoTrack carbon accounting, modelled in Dafny

EcoTrack lets students log a day's habits and turns them into an amount of CO2e:
- **Transport:** a mode and a distance.
- **Meals:** a list of meal kinds with counts.
- **Digital:** emails and hours of streaming.

Each category is priced from a fixed emission-factor table and rounded to hundredths of a kilogram. The day's total is compared against a 25 kg baseline to give a 0-100 sustainability score. The server stores each day as a daily log, adds the day to the user's running total and keeps the latest score. It also answers questions about those logs and about the users:
- statistics and a recent-history window;
- leaderboards and a user's rank;
- the level progress, the active challenges, and joining a challenge.

The browser carries its own copy of the calculator so the daily-habit form can show a live preview before submitting.

The project has one module per part of the program:

| file | module | what it holds |
|---|---|---|
| `wrappers.dfy` | `Wrappers` | `Option` (an absent JavaScript field) and `Result` (a request rejected with an HTTP status) |
| `jsmath.dfy` | `JsMath` | `Math.round` on exact reals, rounding to two decimals, whole-hundredths values |
| `seqs.dfy` | `Seqs` | counting, filtering, sums, minimum/maximum, a descending sort and `limit` over sequences — the store's query operators |
| `models.dfy` | `Models` | the records: activity, daily log, user, challenge, factor table, lookups by id |
| `server_calculator.dfy` | `ServerCalculator` | the server's calculator |
| `client_calculator.dfy` | `ClientCalculator` | the browser's calculator, the level rule, and proofs that both calculators agree |
| `habit_form.dfy` | `HabitForm` | the form's state, its preview, its meal-list edits and how the form evolves |
| `carbon_controller.dfy` | `CarbonController` | logging a day, user statistics, footprint history |
| `leaderboard_controller.dfy` | `LeaderboardController` | leaderboards, rank, challenges |

How the model represents the program:
- **Numbers** are exact reals. JavaScript's `Math.round(y)` is `⌊y + 0.5⌋`.
- **The document store** becomes plain sequences of users, logs and challenges. `findById` finds the first record with the id.
- **Store queries:**
  - A `find` condition becomes a filter.
  - `sort({ f: -1 })` becomes a descending sort by key.
  - `limit(n)` keeps the first `n` records, and `n = 0` means no limit.
- **The clock:** "now" and "today" are parameters, as milliseconds since the epoch.

## Model

| member | source | states |
|---|---|---|
| JsMath.Round | server/utils/carbonCalculator.js:117 | the nearest integer, a half rounding up: the unique integer in (y − 0.5, y + 0.5] |
| JsMath.Round2 | server/utils/carbonCalculator.js:37 | the result is a whole number of hundredths and lies within half a hundredth of its argument |
| Models.Factor | server/utils/carbonCalculator.js:36 | a kind in the table reads its factor; a kind missing from the table reads as 0 |
| Models.FindUser | server/controllers/carbonController.js:13-16 | no result exactly when no user has the id; otherwise the position of a user with that id |
| Models.FindChallenge | server/controllers/leaderboardController.js:102-105 | no result exactly when no challenge has the id; otherwise the position of a challenge with that id |
| ServerCalculator.TransportationEmissions | server/utils/carbonCalculator.js:35-38 | whole hundredths within 0.005 kg of factor × distance; walking, cycling and any unknown mode emit 0 |
| ServerCalculator.MealEmissions | server/utils/carbonCalculator.js:46-49 | whole hundredths within 0.005 kg of factor × count; an unknown meal kind emits 0 |
| ServerCalculator.DigitalEmissions | server/utils/carbonCalculator.js:57-61 | whole hundredths within 0.005 kg of the unrounded email-plus-streaming sum |
| ServerCalculator.CountOrOne | server/utils/carbonCalculator.js:82 | a missing or zero count reads as one meal; any other count is used as given |
| ServerCalculator.MealsEmissions | server/utils/carbonCalculator.js:80-84 | the meals fold is whole hundredths, 0 for no meals, and within half a hundredth per meal of the unrounded sum of factor × (count or 1) |
| ServerCalculator.MealsEmissionsAppend | server/utils/carbonCalculator.js:81-83 | in `reduce` order: appending a meal adds exactly that meal's rounded price, with a missing or zero count read as one |
| ServerCalculator.DailyFootprint | server/utils/carbonCalculator.js:68-105 | each component is the matching category calculator's value, or 0 for a missing section; every figure is whole hundredths; the total is exactly the sum of the three components, so the final rounding changes nothing; the breakdown echoes the input sections |
| ServerCalculator.SustainabilityScore | server/utils/carbonCalculator.js:113-118 | never negative; at most 100 for non-negative emissions; 0 from the 25 kg baseline up; below the baseline, negative totals included, within 0.5 of 100 − 4 × emissions (so above 100 for a negative total) |
| ServerCalculator.TableCoversSchemaKinds | server/utils/carbonCalculator.js:8-22 | the factor table prices exactly the transport modes and meal kinds that the daily-log schema enumerates (server/models/DailyLog.js lines 16 and 28) |
| ServerCalculator.CategoryExamples | server/utils/carbonCalculator.js:35-61 | worked values: car 10 km = 2.10, bus 10 km = 0.89, train 10 km = 0.41, two meat meals = 10, three vegan meals = 4.5, 100 emails + 2 h streaming = 0.47 |
| ServerCalculator.DigitalRoundsTheSumOnce | server/utils/carbonCalculator.js:57-61 | the digital sum is rounded once: 2 emails + 1 h give 0.04, where rounding each term would give 0.05 |
| ServerCalculator.FalsyCountIsOneMeal | server/utils/carbonCalculator.js:82 | a missing meal count and a zero meal count are both priced as one meal |
| ServerCalculator.EndToEndDay | server/utils/carbonCalculator.js:68-118 | 10 km by car, two meat meals, 100 emails and 2 h streaming give 12.57 kg and a score of 50 |
| ServerCalculator.ScoreExamples | server/utils/carbonCalculator.js:113-118 | score 100 at 0 kg, 50 at 12.5 kg, 0 at 25 kg and at 50 kg |
| ServerCalculator.ScoreMonotone | server/utils/carbonCalculator.js:113-118 | more emissions never give a higher score |
| ClientCalculator.TransportationEmissions | client/src/utils/carbonCalculator.js:27-30 | whole hundredths within 0.005 kg of factor × distance; an unknown mode emits 0 |
| ClientCalculator.MealEmissions | client/src/utils/carbonCalculator.js:32-35 | whole hundredths within 0.005 kg of factor × count; an unknown meal kind emits 0 |
| ClientCalculator.DigitalEmissions | client/src/utils/carbonCalculator.js:37-41 | whole hundredths within 0.005 kg of the unrounded email-plus-streaming sum |
| ClientCalculator.SustainabilityScore | client/src/utils/carbonCalculator.js:43-47 | between 0 and 100 for non-negative emissions; 0 from the 25 kg baseline up; below it, negative totals included, within 0.5 of 100 − 4 × emissions |
| ClientCalculator.LevelFromPoints | client/src/utils/carbonCalculator.js:49-51 | level L covers exactly the points from 100·(L−1) up to, but not including, 100·L |
| ClientCalculator.FactorTablesAgree | client/src/utils/carbonCalculator.js:6-25 | the browser's factor table equals the server's entry for entry |
| ClientCalculator.TransportationAgrees | client/src/utils/carbonCalculator.js:27-30 | the browser and the server price transport identically for every input |
| ClientCalculator.MealAgrees | client/src/utils/carbonCalculator.js:32-35 | the browser and the server price a meal identically for every input |
| ClientCalculator.DigitalAgrees | client/src/utils/carbonCalculator.js:37-41 | the browser and the server price digital use identically for every input |
| ClientCalculator.ScoreAgrees | client/src/utils/carbonCalculator.js:43-47 | the browser and the server score identically for every total |
| ClientCalculator.LevelExamples | client/src/utils/carbonCalculator.js:49-51 | 0 and 99 points are level 1, 100 points level 2, 250 points level 3 |
| ClientCalculator.LevelAtLeastOne | client/src/utils/carbonCalculator.js:49-51 | non-negative points give a level of at least 1 |
| ClientCalculator.LevelMonotone | client/src/utils/carbonCalculator.js:49-51 | more points never give a lower level |
| ClientCalculator.LevelSteps | client/src/utils/carbonCalculator.js:49-51 | the level rises by exactly one at each multiple of 100 and is constant in between |
| HabitForm.PreviewMeals | client/src/components/DailyHabitForm.jsx:27-29 | the preview's meals fold is whole hundredths, 0 for no meals, and within half a hundredth per meal of the unrounded sum of factor × count, where only a missing count defaults to 1 |
| HabitForm.PreviewMealsAppend | client/src/components/DailyHabitForm.jsx:27-29 | in `reduce` order: appending a meal adds exactly that meal's rounded price with the count as entered |
| HabitForm.CalculateEmissions | client/src/components/DailyHabitForm.jsx:21-44 | the preview total is the unrounded sum of three whole-hundredths components, the meals part is the preview's meals fold, and the score is the browser's score of that total |
| HabitForm.MealsGap | client/src/components/DailyHabitForm.jsx:27-29 | the server's meals figure is the preview's plus one meal's price for each meal entered with count 0 |
| HabitForm.NoZeroCountNoGap | client/src/components/DailyHabitForm.jsx:27-29 | without zero counts that difference is 0 |
| HabitForm.PreviewMatchesServer | client/src/components/DailyHabitForm.jsx:21-44 | for any form and the same record sent to the server, the preview's transport and digital components equal the server's; the total the server stores is the preview total plus the zero-count difference; with no zero counts the totals and the scores coincide |
| HabitForm.ZeroCountMealDisagrees | client/src/components/DailyHabitForm.jsx:27-29 | a meat meal with count 0 previews as 0 kg, while the same record sent to the server is stored as 5 kg |
| HabitForm.InitialPreview | client/src/components/DailyHabitForm.jsx:11-15 | the untouched form previews one vegan meal: 1.5 kg, score 94 |
| HabitForm.AddMeal | client/src/components/DailyHabitForm.jsx:78-83 | the meal list keeps every meal in place and gains one vegan meal with count 1 at the end |
| HabitForm.DropIndex | client/src/components/DailyHabitForm.jsx:86 | filtering by position removes exactly the meal at the index, or nothing when the index is out of range |
| HabitForm.RemoveMeal | client/src/components/DailyHabitForm.jsx:85-89 | the list without the meal at the index, in order; an out-of-range index leaves it unchanged; other sections untouched |
| HabitForm.HandleMealChange | client/src/components/DailyHabitForm.jsx:57-65 | only the edited field of the edited meal changes; every other meal and section is kept |
| HabitForm.Step | client/src/components/DailyHabitForm.jsx:46-76 | a transport edit changes only the edited transport field, a digital edit only the edited digital field, and nothing else changes; a remove with one meal left, or an edit of a meal the form does not show, changes nothing |
| HabitForm.SubmitResets | client/src/components/DailyHabitForm.jsx:108-116 | a successful submit returns the form to its initial state, whatever was entered; a failed one keeps the entries |
| HabitForm.StepKeepsAMeal | client/src/components/DailyHabitForm.jsx:232 | since removal is offered only with more than one meal, no single action empties a non-empty meal list |
| HabitForm.RunKeepsAMeal | client/src/components/DailyHabitForm.jsx:232 | no sequence of actions empties a non-empty meal list |
| HabitForm.ReachableFormHasAMeal | client/src/components/DailyHabitForm.jsx:11-15 | every form reachable from the initial one shows at least one meal |
| CarbonController.Credit | server/controllers/carbonController.js:36-38 | the running total grows by the day's total, the daily score becomes the day's score, and no other profile field changes |
| CarbonController.LogDailyActivity | server/controllers/carbonController.js:8-53 | rejected with 404 exactly when the user is unknown; otherwise the log carrying the day's footprint total is appended to the store, that user's total grows by it, the daily score is replaced by its score, and no other user changes |
| CarbonController.LogDaysRejectsUnknownUser | server/controllers/carbonController.js:13-16 | any series of submissions fails exactly when the user is unknown |
| CarbonController.LogDaysAppendsOneLogPerDay | server/controllers/carbonController.js:26-34 | a series of submissions keeps the earlier logs and appends one log per day, carrying that day's footprint total, in order |
| CarbonController.LogDaysAccumulates | server/controllers/carbonController.js:36-39 | after a series of submissions the user's total is the old total plus the sum of the day totals, the daily score is the last day's, and no other user changes |
| CarbonController.AverageOrZero | server/controllers/carbonController.js:144-146 | 0 without logs; otherwise the mean of the day totals to two decimals (whole hundredths within half a hundredth of the mean), which lies between the rounded lowest and highest day |
| CarbonController.Figures | server/controllers/carbonController.js:144-152 | over a user's days: the lowest and highest are the rounded totals of actual days and bound every day; the average is the mean to two decimals and lies between them; all 0 without days |
| CarbonController.ExtremesBoundEveryDay | server/controllers/carbonController.js:147-152 | the rounded lowest and highest day bound every rounded day total |
| CarbonController.GetUserStats | server/controllers/carbonController.js:121-159 | 404 exactly for an unknown user; otherwise the profile fields as stored and the number of that user's logs; lowest and highest are the rounded totals of some day of the user's and bound every one of the user's days; the average is their mean to two decimals; all zeros without logs |
| CarbonController.Window | server/controllers/carbonController.js:66-68 | exactly the user's logs created at or after the start, each as often as it is stored |
| CarbonController.NewestFirst | server/controllers/carbonController.js:69 | a permutation of its input ordered by creation time, newest first |
| CarbonController.GetUserFootprintHistory | server/controllers/carbonController.js:58-84 | exactly the user's logs from the last `days` days (default 30), each as often as stored, newest first; the count is their number and the average is their mean to two decimals, lying between the rounded lowest and highest day, or 0 without logs |
| LeaderboardController.WithRanks | server/controllers/leaderboardController.js:19-28 | row i carries rank i + 1 and the i-th profile |
| LeaderboardController.Top | server/controllers/leaderboardController.js:14-17 | as many users as the limit allows, each at most as often as the pool holds it, keys descending, a prefix of the pool sorted descending, nobody left out above anybody kept |
| LeaderboardController.Board | server/controllers/leaderboardController.js:14-28 | as many rows as the limit allows; ranks 1, 2, 3, …; every row from the pool, each user at most as often as the pool holds it; keys descending; the rows are a prefix of the pool sorted descending, so nobody left out outranks anybody shown |
| LeaderboardController.GetLeaderboard | server/controllers/leaderboardController.js:7-37 | all users by the chosen field descending (by points when no field is given), each at most as often as stored, at most 50 by default, ranked by position, nobody left out ranking above anybody shown |
| LeaderboardController.MembersBoard | server/controllers/leaderboardController.js:138-151 | only the selected users, each at most as often as stored, by points descending, as many as the limit allows of those selected, ranked by position, no selected user left out with more points than one shown |
| LeaderboardController.GetUniversityLeaderboard | server/controllers/leaderboardController.js:134-161 | only users of that university, each at most as often as stored, by points descending, at most 30 by default, ranked by position, no member left out with more points than one shown |
| LeaderboardController.GetDepartmentLeaderboard | server/controllers/leaderboardController.js:166-193 | only users of that department, each at most as often as stored, by points descending, at most 30 by default, ranked by position, no member left out with more points than one shown |
| LeaderboardController.RankOf | server/controllers/leaderboardController.js:51-56 | a rank is at least 1 |
| LeaderboardController.NextLevelRequirement | server/controllers/leaderboardController.js:65 | the requirement as written is the first point count of level + 2 under the level rule: one point less is still level + 1 |
| LeaderboardController.PointsForNextLevel | server/controllers/leaderboardController.js:66 | never negative; the remaining gap to the requirement when there is one, otherwise 0 |
| LeaderboardController.GetUserRank | server/controllers/leaderboardController.js:42-72 | 404 exactly for an unknown user; otherwise the rank is one plus the number of users with strictly more points and lies between 1 and the number of users; the requirement is (level + 1) × 100 and the points still needed are max(0, requirement − points) |
| LeaderboardController.TopUserRanksFirst | server/controllers/leaderboardController.js:51-56 | a user nobody outscores has rank 1 |
| LeaderboardController.EqualPointsEqualRank | server/controllers/leaderboardController.js:51-56 | equal points give equal ranks |
| LeaderboardController.MorePointsBetterRank | server/controllers/leaderboardController.js:51-56 | strictly more points give a strictly smaller rank |
| LeaderboardController.PositionMatchesCount | server/controllers/leaderboardController.js:51-56 | in the points-sorted population, an entry whose points nobody else has sits at position rank − 1 |
| LeaderboardController.RanksAgreeWithoutTies | server/controllers/leaderboardController.js:19-20 | with all points distinct, the position rank on the points leaderboard equals the user's rank by count |
| LeaderboardController.TiedUsersDisagree | server/controllers/leaderboardController.js:19-20 | for any two users with equal points, the default leaderboard of just those two users ranks them 1 and 2 while both have rank 1 by count |
| LeaderboardController.NextLevelExample | server/controllers/leaderboardController.js:65-66 | 50 points at level 1: requirement 200, 150 points to go |
| LeaderboardController.RequirementIsTwoLevelsUp | server/controllers/leaderboardController.js:65 | the requirement as written is where level + 2 begins under the level rule; level + 1 begins 100 points earlier |
| LeaderboardController.ConsistentProfileGap | server/controllers/leaderboardController.js:66 | for a profile whose level matches its points, between 101 and 200 points remain |
| LeaderboardController.GetActiveChallenges | server/controllers/leaderboardController.js:77-93 | exactly the stored challenges with both dates set and start ≤ today ≤ end, each as often as stored |
| LeaderboardController.JoinChallenge | server/controllers/leaderboardController.js:98-129 | 404 for an unknown challenge, 400 when the user already takes part, and success exactly otherwise; success appends one fresh entry (progress 0, not completed) to that challenge and changes nothing else |
| LeaderboardController.JoinKeepsParticipantsUnique | server/controllers/leaderboardController.js:107-117 | joining keeps every challenge free of repeated participants, and the same user joining again is refused with 400 |
| HabitForm.ScreenStepAsWritten | client/src/components/DailyHabitForm.jsx:46-116 | as written: a handler updates the form, but the preview it stores is that of the form before the edit; adding a meal leaves the preview alone; a successful submit clears the preview and a failed one keeps it |
| HabitForm.StalePreviewAsWritten | client/src/components/DailyHabitForm.jsx:46-55 | as written: choosing a car, then setting the distance to 10 km in one change, displays 1.5 kg while the form on screen is stored as 3.6 kg |
| HabitForm.StalePreviewWhileTyping | client/src/components/DailyHabitForm.jsx:46-55 | as written: choosing a car, then typing the distance as "1" and "0" (two changes), displays 1.71 kg, the car at 1 km, while the form holds 10 km |
| HabitForm.ScreenStep | client/src/components/DailyHabitForm.jsx:91-93 | the same handlers with the preview taken from the edited form: after any offered edit the displayed figures are those of the form held; a successful submit clears the preview and a failed one keeps it |
| HabitForm.ScreenAlwaysCurrent | client/src/components/DailyHabitForm.jsx:130 | with the corrected handlers, a screen that displays its own form's figures keeps doing so after any sequence of actions |
| HabitForm.MountedScreenAlwaysCurrent | client/src/components/DailyHabitForm.jsx:126-130 | from the mounted form, the displayed figures are always those of the form held |

## Left out

- **HTTP layer:** routing, request parsing, response envelopes and the catch-all 500 handlers are not modelled. The model returns the data the handlers send, or the 404/400 rejection.
- **Persistence:** saving to MongoDB is not modelled, nor is schema validation on save (`required` and `enum` checks). The store is a sequence, and a failed save is not modelled.
- **Projections:** the `.select` field lists are not modelled; the model returns whole records.
- **Number representation:** IEEE-754 rounding artefacts are not modelled, because numbers are exact reals.
- **`toFixed(2)`:** it returns a string, and it rounds negative halves away from zero. Both are left out; the model treats `toFixed(2)` as the same two-decimal rounding as `Math.round(x * 100) / 100`, which agrees on the non-negative day totals the application stores.
- **Input parsing:** `parseInt` / `parseFloat` and NaN inputs are not modelled. Form values and query parameters arrive already parsed. Negative `limit` values are not modelled (`limit` is a natural number, 0 meaning no limit).
- **Clock:** the wall clock is a parameter. `setDate` across daylight-saving changes is not modelled; a day is 86 400 000 ms.
- **Factor lookup:** JavaScript prototype keys such as `constructor` in the factor lookup are not modelled; any name missing from the table reads as 0.
- **Concurrency:** the read-modify-write race when two submissions update the same profile at once is not modelled.
- getTodayFootprint is not modelled: it is one store query keyed on the local midnight of the server's clock, and holds no logic beyond the history window's.
- **Filter values:** an undefined `university` / `department` query value is not modelled; it is a string here.
- **Sort ties:** the store leaves the order of equal sort keys unspecified. The model uses one fixed order; the properties stated apart from the exact row sequence (keys descending, multiplicities kept, nobody left out above anybody shown) hold for any descending order of the same records.
- **Sort fields:** a `sortBy` naming a text field (such as `name` or `university`) makes the store sort strings; the model sorts only by the numeric profile fields, and `ByOtherField` stands for a field the profiles lack. The leaderboard page offers only points, level and daily score (client/src/components/Leaderboard.jsx lines 72-74).
- **Rendering:** React rendering, the `alert`, the loading and error state, and the API client are not modelled. Of the component's state, only the form and the stored preview are kept (`HabitForm.Screen`). A submit is represented only by whether it succeeded.
- **Source files:** the user model file is not part of this model; the profile fields are the ones the controllers read and write.
- **Points and challenges:** nothing in these files awards points, completes a challenge or awards badges, so neither does the model.
- **Input constraints:** the browser-side `min`, `max` and `step` attributes of the form's inputs (client/src/components/DailyHabitForm.jsx lines 170-171, 222-223, 273, 286-287) are not modelled; the model accepts any parsed value, as the server does for a record sent to it directly. Through the form, a meal count of 0 or a negative distance would be refused before submission, so the 0 kg against 5 kg difference then shows only in the preview.
- HabitForm.HandleMealChange: requires an index inside the meal list, because the form only renders change handlers for existing meals. `Step` ignores other indices.

## Findings

| source | as written | input that shows it | evidently intended | confidence | as-written member | corrected member |
|---|---|---|---|---|---|---|
| client/src/components/DailyHabitForm.jsx:46-93 | each change handler calls `setFormData(...)` and then `updatePreview()`, whose `calculateEmissions` reads the `formData` of the current render, that is, the form before the change; `addMeal` never refreshes the preview, and the form displays `preview` whenever it is set (line 130) | from the mounted form, choose car, then set the distance to 10 km in one change: the preview shows 1.5 kg, while submitting stores 3.6 kg; typed as "1" then "0", it shows 1.71 kg | the preview shows the figures of the form as currently entered | medium, not executed | HabitForm.ScreenStepAsWritten, HabitForm.StalePreviewAsWritten, HabitForm.StalePreviewWhileTyping | HabitForm.ScreenStep, HabitForm.MountedScreenAlwaysCurrent |
