# Habit streaks and productivity aggregation

This project models the two parts of the DigitalPlanner backend that hold
real state-transition rules, and proves properties of them with Dafny.

- **Habit streak engine** (`controllers/habitController.js`, module
  `HabitStreaks` in `habits.dfy`). A new habit starts with streak 0, not
  completed, and no last completion date. Listing habits applies a lazy day
  rollover: a habit flagged "completed today" whose last completion is not
  today has the flag cleared, and its streak is kept if the last completion
  was yesterday and reset to 0 otherwise. An update request may rename the
  habit, change its frequency, toggle its completion (which increments,
  restarts or decrements the streak and stamps the completion date), and
  override the streak.
- **Productivity aggregator** (`controllers/productivityController.js`,
  module `ProductivityAggregator` in `productivity.dfy`). One record per
  user holds the days with a completed task, a per-day completion count, the
  task, goal, focus-session and total-goal counters, and the unlocked badges.
  Each handler reads the record, changes its lists and maps, and writes it
  back.
- `basics.dfy` (module `Basics`) holds the optional-field type, the
  JavaScript truthiness of a string field, and `Max`.

How the model is set up:

- Calendar dates of habits are integer day numbers. The current day `today`
  is a parameter, and yesterday is `today - 1`. Productivity dates are the
  request's strings, never parsed, and used as keys of an ordinary map; the
  source's count map is a plain JavaScript object, and date strings that
  name `Object.prototype` members (see "## Left out") are not modelled.
- The record store is not modelled. A fetched row is a parameter of type
  `Option` (`None` when no row matches the id and owner), and a handler
  returns the row it writes, or an error value: `NotFoundOrUnauthorized`,
  `NotFound`, `Required` (a missing field), `Invalid` (a bad count), or the
  habit-creation errors `NameRequired` and `FrequencyRequired`.
- In the listing, the outcome of each reset write is a parameter
  (`persisted`), because it changes what the listing returns.
- The rollover (`Rollover`, `ListHabits`) is a pure map over the fetched
  habits, as in the source. `UpdateHabit` builds the update data field by
  field and merges it into the stored row (`Patched`). It is proved equal to
  the specification function `Updated`. The productivity handlers
  (`CompleteTask` and the others) are methods. Each one appends to a local
  copy of the day or badge list, or increments, decrements and deletes
  entries in a local copy of the count map. Each is proved equal to a record
  transformer (`WithTask` and the others). The properties are proved about
  those transformers, together with the invariant `Valid`: no duplicate days
  or badges, every stored count at least 1, every counted day a completed
  day, and no negative counter.

The model keeps four behaviours of the code that a reader might not expect:

- A rollover whose write fails still returns the habit with the flag cleared,
  but keeps its old streak. This is the spread copy at
  `controllers/habitController.js:97-100`.
- Listing is therefore idempotent only when the reset writes succeed. After a
  failed write the store still holds the old row, so the next listing on the
  same day redoes the rollover from it and can then reset the streak
  (`Stored`, `FailedResetShowsOldStreak`).
- `uncompleteTask` decrements any non-zero stored count, negative ones
  included, clamps the result at 0, and deletes the entry when it reaches 0.
  A stored 0 is left untouched.
- Completed days and badges are lists with an "append if absent" rule, not
  sets.

## Model

| member | source | states |
|---|---|---|
| `HabitStreaks.CreateHabit` | controllers/habitController.js:9-29 | rejected with name-required when the name is missing or empty, then with frequency-required; otherwise the new habit has streak 0, is not completed, has no last completion date, and carries the given id, owner, name and frequency |
| `HabitStreaks.NewHabitIsSettled` | controllers/habitController.js:24-26 | a new habit is consistent with every day, and listing returns it unchanged |
| `HabitStreaks.Rollover` | controllers/habitController.js:64-100 | reset happens exactly when the habit is flagged complete and its last date is not today. A habit last completed today is returned unchanged. After a reset the flag is false; a persisted reset keeps the streak if the last date was yesterday and sets it to 0 otherwise; a failed write keeps the streak. The last date, id, owner, name and frequency never change, and a non-negative streak stays non-negative |
| `HabitStreaks.ListHabits` | controllers/habitController.js:63-103 | the listing has as many habits as were fetched, and its i-th habit is the rollover of the i-th fetched one |
| `HabitStreaks.ListingSettlesEveryHabit` | controllers/habitController.js:92-100 | after listing, no habit is flagged complete unless its last completion is today, even when reset writes fail |
| `HabitStreaks.SecondListingReadsStoredRow` | controllers/habitController.js:65-100 | a second listing on the same day reads the stored row: after a successful reset write it shows the same habit again, and after a failed one it redoes the rollover from the old row |
| `HabitStreaks.ListingIsIdempotent` | controllers/habitController.js:51-101 | when every reset write of the first listing succeeded, listing again on the same day (from the rows then stored) gives the same habits |
| `HabitStreaks.FailedResetShowsOldStreak` | controllers/habitController.js:76-100 | a habit flagged on day 5 with streak 3 shows streak 3 from a day-7 listing whose write fails, then streak 0 from the next listing that day whose write succeeds |
| `HabitStreaks.Updated` | controllers/habitController.js:130-167 | id and owner are kept; name and frequency change only when given. Marking complete sets the flag and stamps today, and sets the streak to old + 1 when the last date is absent, today or yesterday, and to 1 otherwise. Marking incomplete clears the flag, keeps the last date, and decrements the streak (clamped at 0) only when the last date is today. With no toggle, the completion state is untouched. A supplied streak replaces the computed one |
| `HabitStreaks.UpdateHabit` | controllers/habitController.js:117-167 | a missing or foreign habit gives not-found-or-unauthorized; otherwise the update data built field by field and merged into the stored row gives exactly `Updated` |
| `HabitStreaks.UpdateKeepsStreakNonNegative` | controllers/habitController.js:151-167 | with a non-negative stored streak, and a non-negative override if there is one, the updated streak is non-negative |
| `HabitStreaks.UpdateKeepsSettled` | controllers/habitController.js:136-164 | an update on a day keeps a habit that was consistent with that day consistent |
| `HabitStreaks.NextDayKeepsStreak` | controllers/habitController.js:73-78 | completing on day d and listing on day d + 1 keeps the streak, clears the flag and leaves the last date at d |
| `HabitStreaks.GapBreaksStreak` | controllers/habitController.js:75-78 | completing on day d and listing two or more days later (with the reset written) sets the streak to 0 |
| `HabitStreaks.UndoRestoresStreak` | controllers/habitController.js:149-163 | completing and undoing on the same day gives back the streak the habit had whenever the completion added 1 to it (last date absent, today or yesterday); the last date stays at today |
| `HabitStreaks.SameDayRecompletionCountsAgain` | controllers/habitController.js:149-151 | marking complete twice on the same day adds 1 to the streak a second time |
| `HabitStreaks.ContinuityExample` | controllers/habitController.js:152-154 | last completion on day 5 with streak 3, completed on day 6, gives streak 4 and last date 6 |
| `HabitStreaks.GapExample` | controllers/habitController.js:155-158 | the same habit completed on day 8 restarts at streak 1 |
| `HabitStreaks.StaleFlagExample` | controllers/habitController.js:65-78 | a flag set on day 5 and listed on day 7 is cleared, and the streak is reset to 0 |
| `ProductivityAggregator.Initialize` | controllers/productivityController.js:44-70 | an existing record's id is reported and nothing is created; otherwise the new record has the user and the store-assigned id, all counters 0, and empty days, counts and badges, and it satisfies the invariant |
| `ProductivityAggregator.InitializeIsIdempotent` | controllers/productivityController.js:51-56 | initializing a second time reports the first record's id |
| `ProductivityAggregator.WithTask` | controllers/productivityController.js:120-137 | the date's count goes up by 1 (from 0 if absent) and other dates' counts are unchanged; the task counter goes up by 1; completed days gain the date only if it was absent, and nothing else changes; the invariant is preserved |
| `ProductivityAggregator.WithoutTask` | controllers/productivityController.js:189-206 | a count of 2 or more goes down by 1; a count of 1 (or a negative one) is deleted; an absent date stays absent; other dates, completed days and all other fields are unchanged; the task counter becomes max(0, old - 1); the invariant is preserved |
| `ProductivityAggregator.WithGoal` | controllers/productivityController.js:256 | goals completed goes up by exactly 1 and nothing else changes; the invariant is preserved |
| `ProductivityAggregator.WithFocusSession` | controllers/productivityController.js:357 | focus sessions goes up by exactly 1 and nothing else changes; the invariant is preserved |
| `ProductivityAggregator.WithTotalGoals` | controllers/productivityController.js:300-302 | total goals is set to exactly the given non-negative count and nothing else changes; the invariant is preserved |
| `ProductivityAggregator.WithBadge` | controllers/productivityController.js:409-413 | the badge is held afterwards; if it was already held the record is unchanged, otherwise it is appended; nothing else changes; the invariant is preserved |
| `ProductivityAggregator.CompleteTask` | controllers/productivityController.js:99-137 | a missing or empty date is rejected before the record is looked at; a missing record is not found; otherwise the handler writes `WithTask` |
| `ProductivityAggregator.UncompleteTask` | controllers/productivityController.js:168-206 | same rejections; otherwise the handler writes `WithoutTask` |
| `ProductivityAggregator.CompleteGoal` | controllers/productivityController.js:239-256 | a missing record is not found; otherwise the handler writes `WithGoal` |
| `ProductivityAggregator.CompleteFocusSession` | controllers/productivityController.js:340-357 | a missing record is not found; otherwise the handler writes `WithFocusSession` |
| `ProductivityAggregator.UpdateTotalGoals` | controllers/productivityController.js:287-313 | an absent or null count is required, and a non-number or negative count is invalid, both before any change; then a missing record is not found, otherwise total goals is set to the count |
| `ProductivityAggregator.UnlockBadge` | controllers/productivityController.js:388-443 | a missing or empty badge id is rejected; a missing record is not found; a held badge reports already-unlocked with the record unchanged; otherwise the badge is unlocked via `WithBadge` |
| `ProductivityAggregator.CompletedDayOccursOnce` | controllers/productivityController.js:123-126 | on a valid record, after a task completion the date occurs exactly once in the completed days |
| `ProductivityAggregator.UnlockTwice` | controllers/productivityController.js:411-443 | unlocking twice leaves the badge listed exactly once, and the second unlock changes nothing |
| `ProductivityAggregator.UndoTaskRestoresCounts` | controllers/productivityController.js:192-206 | completing and then uncompleting a task on a valid record restores the daily counts and the task counter, and the day stays among the completed days |
| `ProductivityAggregator.RequestsKeepValid` | controllers/productivityController.js:123-413 | no sequence of task, goal, focus, total-goal and badge requests (a rejected one, with an empty date or badge or a negative count, leaving the record as it is) breaks the invariant: counters stay non-negative, zero counts stay pruned, and days and badges stay unique |
| `ProductivityAggregator.TwoCompletionsOneUndoExample` | controllers/productivityController.js:124-129 | after initializing, two completions on 2024-03-01 give count 2, task counter 2 and the one completed day; one undo gives count 1 and task counter 1 |

## Left out

- Store access (Supabase queries, inserts and updates), HTTP status codes and response messages: this is I/O. A fetch is a parameter, and the outcome datatypes stand for the responses.
- Failed writes in the handlers (the 500 responses) and failed inserts, because the written row is simply lost. The exception is the listing's reset write, whose failure changes the returned habit and is modelled.
- The wall clock and time zones: `today` is a parameter. Yesterday is computed in local time and formatted in UTC at `controllers/habitController.js:69-71`, so near midnight the source can disagree with `today - 1`.
- The `created_at` and `updated_at` timestamps, because they come from the clock.
- `getHabits` ordering by creation time: the listing keeps whatever order the store returns. A failed fetch of the habit list is also left out, because it is an I/O error.
- `deleteHabit` and `getProductivity`: they contain no rules beyond the store call and the ownership filter.
- `Habit.streak`: it is never null in the model, so the source's `|| 0` fallback for a null streak (which an explicit `streak: null` override could store) is not modelled. JSON `null` sent for `habit_name`, `frequency`, `completed_today` or `streak` is likewise not distinguished from a real value.
- Null JSON columns in a productivity row: the model's `Record` always holds a list or map. The source's `|| []` and `|| {}` fallbacks (`controllers/productivityController.js:120-121, 189, 409`) treat a null `completed_days`, `productivity_data` or `unlocked_badges` as empty, so the model covers that case by taking the empty collection as the fetched value.
- WithTask: a date that names an `Object.prototype` member is not modelled, because the source's `productivity_data` is a plain JavaScript object. For `"constructor"` the source's line `controllers/productivityController.js:129` stores the string `"function Object() { [native code] }1"`, and for `"__proto__"` the assignment is ignored and no entry is created; the model stores the count 1 for both.
- WithoutTask: the same date keys are not modelled. For `"toString"` on a record without that key, `controllers/productivityController.js:192-196` reads the inherited function (truthy), stores `Math.max(0, NaN)`, which is NaN, and does not delete it, so the written row holds a null count; the model leaves the map unchanged. `RequestsKeepValid` (no stored count below 1) therefore holds for the model's map, not for such keys in the source.
- Non-string `date` or `badgeId` values in a request body: the model takes strings, and only absence and the empty string are falsy.
- Request field types: `habit_name` and `frequency` (checked by truthiness at `controllers/habitController.js:9,13`) are modelled as optional strings, and `completed_today` as an optional boolean. The source writes the raw `completed_today` value but branches on its truthiness (lines 136-139), so a non-boolean value such as `1` or `"yes"` is not modelled.
- Number width: JavaScript counters and streaks are doubles, while the model uses unbounded integers, so precision loss beyond 2^53 is not modelled.
- `UpdateTotalGoals`: fractional counts are not modelled, because counts are integers. A `count` of NaN (which `typeof` accepts) is also not modelled.
- In-place mutation of the fetched arrays and maps (the local lists alias the fetched row). The model uses local copies, and the aliasing is not observable in the responses.
- Concurrent requests, and the read-modify-write races between them: this is concurrency.
- Notifications, payments, authentication, AI templates and the plain CRUD controllers: these are outside the modelled core.
