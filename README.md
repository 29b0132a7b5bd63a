# 90-day action plan tracker, modelled in Dafny

This project models the action-plan tracker of X GetPaid Tool, a browser dashboard
for X creators. The tracker has:

- a fixed catalog of 18 action items in three phases of six, each marked critical,
  important or normal;
- a sparse completion map from action id to `{completed, completedDate}`;
- a list of the days on which something was completed, from which the daily
  streak is computed;
- four numeric goals (followers, impressions, revenue, tweets), each with a
  current value and a target;
- six milestones derived from the above;
- the monetisation eligibility check, which classifies six programs as eligible,
  partly eligible or not eligible.

Calendar dates are integers: days since 1970-01-01. Today's date is always a
parameter; it is never read from a clock.

Files and modules:

- `common.dfy`, module `Common`: days, `Option`, and JavaScript's `parsed || fallback`
  applied to a parsed number.
- `catalog.dfy`, module `Catalog`: `ACTION_PLAN_DATA`, phase filtering, the
  facts about the reference catalog (18 unique ids, six per phase).
- `progress.dfy`, module `Progress`: completed counts, per-phase progress, the
  next-action search (two loops), days left, milestones.
- `streak.dfy`, module `StreakCalculator`: `calculateStreak` as a method with a
  counting loop. It is proved equal to a definition on the set of active days:
  the run of consecutive active days ending at the latest one.
- `goals.dfy`, module `GoalTracker`: goal records, bar fill, the class
  `Goals` that the edit form overwrites.
- `eligibility.dfy`, module `Eligibility`: program requirements and the
  every/some classification.
- `store.dfy`, module `PlanStore`: the class `ActionPlan`, whose fields
  `actions` and `streakDates` `Toggle` updates in place, and the class `Store`,
  whose `InitActionPlan` creates the plan and the goals only when they are
  missing. Toggling is also given as functions on values, and the lemmas about
  toggling (round trip, counts, invariants) are stated on those functions.

Notes on what the code does:

- Toggling an id that is not in the catalog is not an error. The code inserts
  an entry for it. Such an entry never shows in a catalog count.
- Saving goals guarantees only that each target is non-zero. A negative target
  typed into the form is kept.
- Days left is `max(90 - (today - startDate), 0)`, with no floor on the days
  passed. A start date in the future gives more than 90 days left.
- The streak is not 0 when the latest active day is after today. Only a latest
  day more than one day in the past breaks it.
- The milestones use the literal thresholds 3, 6 and 18. The lemmas show
  that, on the reference catalog, 6 and 18 mean "the whole phase" and "the
  whole catalog".

The eligibility form asks for two-factor authentication, but no program
requires it (`Eligibility.TwoFactorIgnored`).

## Model

| member | source | states |
|---|---|---|
| `Common.OrElse` | src/main.js:1330-1337 | `x \|\| d` on a parsed number: a parsed non-zero value is kept, NaN or 0 gives the fallback, and a non-zero fallback gives a non-zero result |
| `Catalog.CatalogShape` | src/main.js:1121-1145 | the catalog has 18 items, no two share an id, every phase is 1, 2 or 3 |
| `Catalog.CatalogPhases` | src/main.js:1121-1145 | filtering the catalog by phase 1, 2 or 3 gives exactly that phase's block of six items, in order |
| `Catalog.InPhase` | src/main.js:1353 | `filter(a => a.phase === phase)`: the result is no longer than the list and every item of it has the phase |
| `Catalog.InPhaseKeeps` | src/main.js:1353 | the filter keeps every item of the phase |
| `Progress.IsCompleted` | src/main.js:1211-1214 | by definition `actions[id]?.completed`: an id is completed iff it has an entry and that entry is completed; an id without an entry is not |
| `Progress.CountCompleted` | src/main.js:1377 | the completed count is at most the number of items; it equals it iff every item is completed and is 0 iff none is |
| `Progress.PhaseProgress` | src/main.js:1377-1378 | a phase's `completed/total`: completed ≤ total, total is the phase size, and they are equal iff every item of the phase is completed |
| `Progress.CountMonotone` | src/main.js:1377 | completing more actions never lowers a completed count |
| `Progress.CountAfterChange` | src/main.js:1377 | when only one id changes completion, the count moves by that change times the number of items with that id |
| `Progress.PhaseCountAtMostTotal` | src/main.js:1515-1520 | a phase's completed count never exceeds the overall one |
| `Progress.CountIsSumOfPhases` | src/main.js:1421 | on a catalog whose phases are 1..3, the overall completed count is the sum of the three phase counts |
| `Progress.FindPending` | src/main.js:1211-1214 | `find`: the first uncompleted item of the given priority, or none when no item of that priority is uncompleted |
| `Progress.NextAction` | src/main.js:1207-1218 | the suggested item is uncompleted, and no uncompleted item has a higher priority or the same priority earlier in the catalog; there is none iff every item is completed |
| `Progress.NextActionUnique` | src/main.js:1207-1216 | at most one index meets that description, so the choice is determined |
| `Progress.DaysLeft` | src/main.js:1428-1431 | days left is never negative; it is 90 on the start date, at most 90 from then on, 0 exactly from day 90 on, and while positive it plus the days passed is 90 |
| `Progress.DaysLeftNonIncreasing` | src/main.js:1428-1431 | days left never grows as today advances |
| `Progress.MilestoneMeaning` | src/main.js:1518-1524 | on the reference catalog, "Phase 1 done" iff every phase-1 item is completed, "Master" iff every item is, "first step" iff some item is |
| `Progress.Achieved` | src/main.js:1515-1524 | by definition the six milestone checks: some item completed; at least 3 phase-1 items; revenue above 0; exactly 6 phase-1 items; at least 3 phase-2 items; exactly 18 items |
| `Progress.MilestonesMonotone` | src/main.js:1515-1524 | completing more actions and raising revenue never loses a reached milestone |
| `Progress.MilestoneLadder` | src/main.js:1518-1524 | Phase 1 done implies quick start, quick start implies first step, and Master implies Phase 1 done and momentum |
| `StreakCalculator.SortDescending` | src/main.js:1450-1452 | the copy is sorted latest first and is a permutation of the list |
| `StreakCalculator.Latest` | src/main.js:1458 | the most recent date is in the list and no date is later |
| `StreakCalculator.RunEndingAt` | src/main.js:1464-1476 | a run of consecutive active days is never longer than the number of distinct active days |
| `StreakCalculator.RunEndingAtMeans` | src/main.js:1464-1476 | the `n` days up to the given day are active and the day before them is not |
| `StreakCalculator.RunEndingAtExact` | src/main.js:1464-1476 | conversely, exactly `n` active days ending at a day, with the day before them inactive, give `n` |
| `StreakCalculator.Streak` | src/main.js:1447-1479 | the streak is 0 for no dates or when the latest date is more than a day before today, at least 1 otherwise, and never above the number of distinct dates |
| `StreakCalculator.StreakDaysActive` | src/main.js:1461-1476 | a positive streak ends no earlier than yesterday (a later day also counts); every day in it is active and the day before it is not |
| `StreakCalculator.StreakIgnoresOrderAndRepeats` | src/main.js:1450-1452 | lists holding the same days give the same streak, whatever their order and repeats |
| `StreakCalculator.CountRun` | src/main.js:1464-1478 | on a list sorted latest first, the counting loop returns the length of the run of consecutive days ending at the first one: every day of the run occurs and the day before it does not |
| `StreakCalculator.StreakIsRun` | src/main.js:1458-1478 | a run of exactly `n` listed days ending at the latest one, with the day before missing and the latest no more than a day before today, is a streak of `n` |
| `StreakCalculator.CalculateStreak` | src/main.js:1447-1479 | the sort-then-count loop, with its early return and `break`, returns exactly the run of consecutive active days ending at the latest one (0 when that is more than a day old); the list passed in is not reordered |
| `StreakCalculator.StreakSingleDay` | src/main.js:1461-1462 | one active day: today or yesterday gives 1, two days ago gives 0 |
| `StreakCalculator.StreakThreeDays` | src/main.js:1464-1476 | today, yesterday and the day before give 3 |
| `StreakCalculator.StreakStopsAtGap` | src/main.js:1473-1474 | today and two days ago give 1: the gap ends the run |
| `StreakCalculator.CountAsWritten` | src/main.js:1464-1476 | the counting loop on local midnights in hours, floor-dividing by 24; it never counts more than the number of dates |
| `StreakCalculator.StreakAsWritten` | src/main.js:1447-1479 | `calculateStreak` on local midnights in hours: the copy is sorted latest first before the stale check and the count; 0 for no dates, never more than the number of dates |
| `StreakCalculator.AsWrittenSortsFirst` | src/main.js:1450-1452 | because of the sort, the oldest-first list that toggling builds and the latest-first one give the same count: two midnights a day apart give 2 either way |
| `StreakCalculator.SpringForwardUndercount` | src/main.js:1470-1475 | two consecutive days whose local midnights are 23 hours apart give 1 as written, and 2 on day numbers |
| `GoalTracker.BarFill` | src/main.js:1254 | the bar is at most 100%; for a positive target it is 100% iff current ≥ target, 0% when current is 0, and not negative when current is not |
| `GoalTracker.BarFillMonotone` | src/main.js:1254 | for the same positive target, a larger current value never gives a shorter bar |
| `GoalTracker.Goals.BarFills` | src/main.js:1249-1254 | under `Valid()` the four bars of `renderGoals` are defined; each is at most 100%, and for a positive target it is 100% iff the goal is reached |
| `GoalTracker.FormGoal` | src/main.js:1330-1337 | a goal read from the form: current is the parsed value or 0; target is the parsed non-zero value, else the default, so it is never 0 |
| `GoalTracker.Goals.FromDefaults` | src/main.js:1174-1180 | new goals are the defaults (targets 500, 5000000, 200, 150), with the account's followers and impressions and the rounded revenue total as current values |
| `GoalTracker.Goals.Save` | src/main.js:1329-1337 | `saveGoals` overwrites all eight values from the form, and afterwards no target is 0 |
| `Eligibility.ReadForm` | src/main.js:826-833 | each numeric input is its parsed value, or 0 when it does not parse or is 0; the four check boxes are stored as they are |
| `Eligibility.Every` | src/main.js:911 | `every`: true iff every requirement is met (true for none) |
| `Eligibility.Any` | src/main.js:912 | `some`: true iff some requirement is met |
| `Eligibility.Classify` | src/main.js:911-913 | eligible iff all requirements are met; not eligible iff there are requirements and none is met; partial iff some are met and some are not |
| `Eligibility.Requirements` | src/main.js:839-901 | by definition the program table: for each of the six programs, whether each of its requirements is met by the account, in the listed order |
| `Eligibility.StatusOf` | src/main.js:910-913 | by definition a program's status is the classification of its requirement list |
| `Eligibility.ClassifyMonotone` | src/main.js:911-913 | meeting more requirements never gives a worse status |
| `Eligibility.StatusMonotone` | src/main.js:839-901 | an account that is at least as far along in every respect has no worse a status for any program |
| `Eligibility.SpacesFollows` | src/main.js:839-873 | being eligible for ad revenue sharing or for subscriptions implies being eligible for ticketed Spaces |
| `Eligibility.ArticlePrizeStatus` | src/main.js:883-891 | the article prize is eligible with premium and partial without it, never not eligible |
| `Eligibility.TwoFactorIgnored` | src/main.js:833-901 | flipping the two-factor flag changes no program's status |
| `PlanStore.ToggleActions` | src/main.js:1386-1398 | toggling flips the completion of the id: a completed id loses its entry, any other gets `{completed: true, completedDate: today}`; no other entry changes |
| `PlanStore.ToggleStreakDates` | src/main.js:1389-1403 | un-completing leaves the streak list alone; a day already in the list is never appended again, whatever the list holds; completing on a new day appends exactly that day at the end; the list stays free of duplicates |
| `PlanStore.ToggleTwice` | src/main.js:1386-1403 | toggling the same id twice restores its completion status and leaves every other entry as it was; the streak list loses nothing |
| `PlanStore.ToggleKeepsEntriesCompleted` | src/main.js:1391-1398 | after a toggle every entry of the map is still a completed one |
| `PlanStore.ToggleCount` | src/main.js:1386-1398 | toggling a catalog item moves the overall completed count by exactly one, down if it was completed and up otherwise |
| `PlanStore.TogglePhaseCount` | src/main.js:1377 | toggling an item moves its own phase's completed count by one and leaves the other phases' counts unchanged |
| `PlanStore.SeededActions` | src/main.js:1163-1170 | the seeded map holds exactly the ids of pre-completed items, all completed; each entry is dated by the helper `PreCompletionDate`, which is `a.preCompletedDate \|\| today` (src/main.js:1167) |
| `PlanStore.SeededDate` | src/main.js:1163-1170 | with unique ids, each pre-completed item has a completed entry dated with its own pre-completion date when it has one, and with today otherwise |
| `PlanStore.OnlyXPremiumPreCompleted` | src/main.js:1121-1145 | the X Premium item is the only pre-completed item of the catalog |
| `PlanStore.SeededReferenceCatalog` | src/main.js:1122-1170 | a new plan from the reference catalog holds only the X Premium item, dated 2026-02-20 |
| `PlanStore.ActionPlan.constructor` | src/main.js:1156-1170 | a new plan starts today, its actions are exactly the seeded pre-completed items, and its streak list is empty |
| `PlanStore.ActionPlan.Toggle` | src/main.js:1386-1403 | the map and the streak list become their toggled values; the start date does not change; the plan invariant is kept |
| `PlanStore.Store.constructor` | src/main.js:14-15 | on a first run there is no plan and no goals |
| `PlanStore.Store.InitActionPlan` | src/main.js:1154-1182 | an existing plan or existing goals are left untouched; a missing plan is created as above and missing goals from the defaults |
| `PlanStore.Store.CheckEligibility` | src/main.js:825-913 | the account information read from the form is stored, and each program gets the status its requirements give |
| `PlanStore.PreCompletedScenario` | src/main.js:1156-1170 | a plan made on day 0 from two phase-1 items, one pre-completed on day -5, has one phase-1 item completed, dated day -5 rather than the creation day, and the first-step milestone; its empty streak list is the constructor's `streakDates == []` |
| `PlanStore.ConsecutiveDaysScenario` | src/main.js:1386-1403 | completing two actions on consecutive days gives streak 2; un-completing the second leaves the streak list as it was |

## Findings

| source | as written | input that shows it | evidently intended | confidence | as-written member | corrected member |
|---|---|---|---|---|---|---|
| src/main.js:1466-1475 | the gap between two dates is `Math.floor` of their local-midnight difference over 24 hours, and a gap of 0 is skipped as a repeat | two consecutive active dates whose local midnights are 23 hours apart, which happens on the day clocks move forward: with the ISO strings parsed as UTC, `["2026-03-09", "2026-03-10"]` in America/New_York | two consecutive calendar days add one to the streak (2, not 1) | medium, not executed | `StreakCalculator.SpringForwardUndercount` (on `StreakCalculator.StreakAsWritten`) | `StreakCalculator.CalculateStreak` |

## Left out

- Rendering is not modelled: HTML templates, the modal, toasts, the checkbox
  animation and the progress circle. This includes the Turkish labels,
  the titles, descriptions and emoji of the items, and the display metadata of
  goals and milestones.
- Persistence is not modelled: `localStorage`, `saveStore` and JSON. The store
  is in-memory state. A saved map could hold an entry with `completed: false`;
  the model reads such an entry as not completed, as the code does.
- JavaScript `Date` is not modelled: ISO strings, UTC against local midnight,
  and time of day. Dates are day numbers, and "today" is one parameter for both
  the toggle and the streak. The code records the UTC date on a toggle but
  compares local midnights in the streak. Outside the finding above, the model
  assumes these agree.
- `GoalTracker.Goals.Save`: does not model fractional revenue. The revenue
  fields use `parseFloat`, and the model reads all eight inputs as integers
  (or not a number).
- `GoalTracker.BarFill`: is defined only for a non-zero target. `Goals.Valid()`
  guarantees a non-zero target after creation and after every save. A zero
  target could only come from edited saved data, where the code gives NaN or
  Infinity.
- `GoalTracker.BarFill`: works on real numbers, while the code computes the
  percentage on doubles. For very large values, rounding could make the code
  reach or miss 100% where the exact quotient does not.
- `PlanStore.Store.InitActionPlan`: the revenue total (a floating-point sum of
  the recorded revenue, rounded) is a parameter. A missing account count is
  read as 0, which leaves the default current value 0, as the code does.
- The compact K/M display of goal values (`toFixed`) is not modelled; it is
  display-only floating-point formatting.
- The percentage circle of overall progress is not modelled; it is a rounded
  floating-point percentage.
- `PlanStore.ActionPlan.Toggle` is the `toggleActionItem` handler without the
  redraw that follows it. It requires a plan to exist, because the handler is
  only reachable from items drawn after `initActionPlan`.
- Toggling the next action from the daily card calls the same toggle.
