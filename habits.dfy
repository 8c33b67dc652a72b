/** The habit streak engine: the default state of a new habit, the lazy
    day rollover applied when habits are listed, and the completion toggle
    applied by an update request.  Calendar dates are day numbers, so the
    day before `today` is `today - 1`; the current day is always a
    parameter, never read from a clock. */
module HabitStreaks {
  import opened Basics

  type Day = int

  function Yesterday(today: Day): Day {
    today - 1
  }

  /** One row of the habits table (timestamps left out). */
  datatype Habit = Habit(
    id: int,
    userId: string,
    name: string,
    frequency: string,
    streak: int,
    completedToday: bool,
    lastCompletedDate: Option<Day>)

  /** The habit has never been completed and carries no streak. */
  predicate Untouched(h: Habit) {
    h.streak == 0 && !h.completedToday && h.lastCompletedDate == None
  }

  /** Consistency of a habit with the calendar on `today`: the
      "completed today" flag only stands for a completion dated today. */
  predicate Settled(h: Habit, today: Day) {
    h.completedToday ==> h.lastCompletedDate == Some(today)
  }

  // ---------------------------------------------------------------------
  // Creating a habit
  // ---------------------------------------------------------------------

  datatype CreateError = NameRequired | FrequencyRequired

  datatype CreateOutcome = Created(habit: Habit) | Rejected(error: CreateError)

  /** Validates the request (name first, then frequency) and builds the row
      the store inserts; `id` is the identifier the store assigns. */
  function CreateHabit(id: int, userId: string, name: Option<string>, frequency: Option<string>): (r: CreateOutcome)
    ensures r.Created? <==> Truthy(name) && Truthy(frequency)
    ensures !Truthy(name) ==> r == Rejected(NameRequired)
    ensures Truthy(name) && !Truthy(frequency) ==> r == Rejected(FrequencyRequired)
    ensures r.Created? ==>
      && Untouched(r.habit)
      && r.habit.id == id && r.habit.userId == userId
      && r.habit.name == name.value && r.habit.frequency == frequency.value
  {
    if !Truthy(name) then Rejected(NameRequired)
    else if !Truthy(frequency) then Rejected(FrequencyRequired)
    else Created(Habit(id, userId, name.value, frequency.value, 0, false, None))
  }

  /** A freshly created habit is settled on every day and listing leaves it alone. */
  lemma NewHabitIsSettled(id: int, userId: string, name: Option<string>, frequency: Option<string>, today: Day, persisted: bool)
    requires CreateHabit(id, userId, name, frequency).Created?
    ensures var h := CreateHabit(id, userId, name, frequency).habit;
      Settled(h, today) && Rollover(h, today, persisted) == h
  {
  }

  // ---------------------------------------------------------------------
  // Listing: the lazy day rollover
  // ---------------------------------------------------------------------

  /** The listing resets a habit exactly when it is flagged complete but
      its last completion is not dated today. */
  predicate NeedsReset(h: Habit, today: Day) {
    h.lastCompletedDate != Some(today) && h.completedToday
  }

  /** The habit as the listing returns it.  When a reset is needed the
      listing writes `completedToday := false` and the new streak (kept if
      the last completion was yesterday, else 0); if that write succeeds
      (`persisted`) the written row is returned, otherwise a copy of the
      stored row with only the flag cleared. */
  function Rollover(h: Habit, today: Day, persisted: bool): (r: Habit)
    ensures Settled(r, today)
    ensures r.completedToday <==> h.completedToday && h.lastCompletedDate == Some(today)
    ensures r.id == h.id && r.userId == h.userId && r.name == h.name && r.frequency == h.frequency
    ensures r.lastCompletedDate == h.lastCompletedDate
    ensures !NeedsReset(h, today) ==> r == h
    ensures NeedsReset(h, today) && persisted && h.lastCompletedDate == Some(Yesterday(today)) ==> r.streak == h.streak
    ensures NeedsReset(h, today) && persisted && h.lastCompletedDate != Some(Yesterday(today)) ==> r.streak == 0
    ensures !persisted ==> r.streak == h.streak
    ensures h.streak >= 0 ==> r.streak >= 0
  {
    if NeedsReset(h, today) && persisted then
      var newStreak := if h.lastCompletedDate != Some(Yesterday(today)) then 0 else h.streak;
      h.(completedToday := false, streak := newStreak)
    else
      h.(completedToday := if h.lastCompletedDate == Some(today) then h.completedToday else false)
  }

  /** The listing: every habit is rolled over independently; `persisted[i]`
      says whether the reset write for the i-th habit succeeded. */
  function ListHabits(habits: seq<Habit>, today: Day, persisted: seq<bool>): (r: seq<Habit>)
    requires |persisted| == |habits|
    ensures |r| == |habits|
    ensures forall i :: 0 <= i < |habits| ==> r[i] == Rollover(habits[i], today, persisted[i])
  {
    if habits == [] then []
    else [Rollover(habits[0], today, persisted[0])] + ListHabits(habits[1..], today, persisted[1..])
  }

  /** After listing, no habit is flagged complete unless its last completion
      is today, whichever of the reset writes failed. */
  lemma ListingSettlesEveryHabit(habits: seq<Habit>, today: Day, persisted: seq<bool>)
    requires |persisted| == |habits|
    ensures forall h :: h in ListHabits(habits, today, persisted) ==> Settled(h, today)
  {
  }

  /** The row the store holds after the listing: the reset row when the
      reset write succeeded, the fetched row otherwise. */
  function Stored(h: Habit, today: Day, persisted: bool): Habit {
    if NeedsReset(h, today) && persisted then Rollover(h, today, true) else h
  }

  /** The rows the store holds after a listing. */
  function StoredAfterListing(habits: seq<Habit>, today: Day, persisted: seq<bool>): seq<Habit>
    requires |persisted| == |habits|
  {
    seq(|habits|, i requires 0 <= i < |habits| => Stored(habits[i], today, persisted[i]))
  }

  /** A second listing on the same day reads the stored row.  If the first
      reset write succeeded it shows the same habit again; if it failed, the
      second listing redoes the rollover from the old row. */
  lemma SecondListingReadsStoredRow(h: Habit, today: Day, first: bool, second: bool)
    ensures Rollover(Stored(h, today, first), today, second)
         == if first then Rollover(h, today, first) else Rollover(h, today, second)
  {
  }

  /** When every reset write of the first listing succeeded, listing again on
      the same day returns the same habits. */
  lemma ListingIsIdempotent(habits: seq<Habit>, today: Day, first: seq<bool>, second: seq<bool>)
    requires |first| == |habits| && |second| == |habits|
    requires forall i :: 0 <= i < |first| ==> first[i]
    ensures ListHabits(StoredAfterListing(habits, today, first), today, second) == ListHabits(habits, today, first)
  {
    var once := ListHabits(habits, today, first);
    var twice := ListHabits(StoredAfterListing(habits, today, first), today, second);
    forall i | 0 <= i < |habits| ensures twice[i] == once[i] {
      SecondListingReadsStoredRow(habits[i], today, first[i], second[i]);
    }
  }

  /** A failed reset write is not idempotent: a habit flagged on day 5 with
      streak 3 is shown with streak 3 by a listing on day 7 whose write fails,
      and with streak 0 by the next listing that day once its write succeeds. */
  lemma FailedResetShowsOldStreak()
    ensures var h := Habit(1, "u1", "Run", "daily", 3, true, Some(5));
      && Rollover(h, 7, false).streak == 3
      && Rollover(Stored(h, 7, false), 7, true).streak == 0
  {
  }

  // ---------------------------------------------------------------------
  // Updating: field changes and the completion toggle
  // ---------------------------------------------------------------------

  /** The fields an update request may carry; None when absent from the body. */
  datatype UpdateRequest = UpdateRequest(
    name: Option<string>,
    frequency: Option<string>,
    completedToday: Option<bool>,
    streak: Option<int>)

  /** The columns an update writes; None leaves the stored column as it is. */
  datatype UpdateData = UpdateData(
    name: Option<string>,
    frequency: Option<string>,
    completedToday: Option<bool>,
    lastCompletedDate: Option<Day>,
    streak: Option<int>)

  /** The store's update: every column the update data carries is overwritten. */
  function Patched(h: Habit, data: UpdateData): Habit {
    Habit(
      h.id, h.userId,
      data.name.GetOr(h.name),
      data.frequency.GetOr(h.frequency),
      data.streak.GetOr(h.streak),
      data.completedToday.GetOr(h.completedToday),
      if data.lastCompletedDate.Some? then data.lastCompletedDate else h.lastCompletedDate)
  }

  /** The streak a completion toggle computes, before any explicit override. */
  function ToggledStreak(h: Habit, today: Day, done: bool): int {
    var last := h.lastCompletedDate;
    if done then
      if last == None || last == Some(today) || last == Some(Yesterday(today)) then h.streak + 1 else 1
    else if last == Some(today) then Max(0, h.streak - 1)
    else h.streak
  }

  /** The habit after an update request on `today`. */
  function Updated(h: Habit, req: UpdateRequest, today: Day): (r: Habit)
    // identity and ownership never change; name and frequency only when given
    ensures r.id == h.id && r.userId == h.userId
    ensures r.name == (if req.name.Some? then req.name.value else h.name)
    ensures r.frequency == (if req.frequency.Some? then req.frequency.value else h.frequency)
    // an explicit streak wins over the computed one
    ensures req.streak.Some? ==> r.streak == req.streak.value
    // marking complete
    ensures req.completedToday == Some(true) ==> r.completedToday && r.lastCompletedDate == Some(today)
    ensures req.completedToday == Some(true) && req.streak == None ==>
      r.streak == (if h.lastCompletedDate in {None, Some(today), Some(Yesterday(today))} then h.streak + 1 else 1)
    // marking incomplete
    ensures req.completedToday == Some(false) ==> !r.completedToday && r.lastCompletedDate == h.lastCompletedDate
    ensures req.completedToday == Some(false) && req.streak == None && h.lastCompletedDate == Some(today) ==>
      r.streak == Max(0, h.streak - 1)
    ensures req.completedToday == Some(false) && req.streak == None && h.lastCompletedDate != Some(today) ==>
      r.streak == h.streak
    // no toggle: completion state untouched
    ensures req.completedToday == None ==>
      r.completedToday == h.completedToday && r.lastCompletedDate == h.lastCompletedDate
    ensures req.completedToday == None && req.streak == None ==> r.streak == h.streak
  {
    var computed := match req.completedToday {
      case None => h.streak
      case Some(done) => ToggledStreak(h, today, done)
    };
    h.(name := req.name.GetOr(h.name),
       frequency := req.frequency.GetOr(h.frequency),
       completedToday := req.completedToday.GetOr(h.completedToday),
       lastCompletedDate := if req.completedToday == Some(true) then Some(today) else h.lastCompletedDate,
       streak := req.streak.GetOr(computed))
  }

  datatype UpdateOutcome = HabitUpdated(habit: Habit) | NotFoundOrUnauthorized

  /** The update handler: `existing` is the stored habit with the requested
      id owned by the caller, or None.  The update data is assembled field by
      field and then merged into the stored row. */
  method UpdateHabit(existing: Option<Habit>, req: UpdateRequest, today: Day) returns (r: UpdateOutcome)
    ensures existing == None ==> r == NotFoundOrUnauthorized
    ensures existing.Some? ==> r == HabitUpdated(Updated(existing.value, req, today))
  {
    if existing == None {
      return NotFoundOrUnauthorized;
    }
    var h := existing.value;
    var data := UpdateData(None, None, None, None, None);
    if req.name.Some? {
      data := data.(name := req.name);
    }
    if req.frequency.Some? {
      data := data.(frequency := req.frequency);
    }
    if req.completedToday.Some? {
      data := data.(completedToday := req.completedToday);
      if req.completedToday.value {
        data := data.(lastCompletedDate := Some(today));
        var last := h.lastCompletedDate;
        var yesterday := Yesterday(today);
        if last == None || last == Some(today) {
          data := data.(streak := Some(h.streak + 1));
        } else if last == Some(yesterday) {
          data := data.(streak := Some(h.streak + 1));
        } else {
          data := data.(streak := Some(1));
        }
      } else if h.lastCompletedDate == Some(today) {
        data := data.(streak := Some(Max(0, h.streak - 1)));
      }
    }
    if req.streak.Some? {
      data := data.(streak := req.streak);
    }
    r := HabitUpdated(Patched(h, data));
  }

  // ---------------------------------------------------------------------
  // Properties relating the operations
  // ---------------------------------------------------------------------

  /** Streaks stay non-negative when the stored streak and any override are. */
  lemma UpdateKeepsStreakNonNegative(h: Habit, req: UpdateRequest, today: Day)
    requires h.streak >= 0
    requires req.streak.Some? ==> req.streak.value >= 0
    ensures Updated(h, req, today).streak >= 0
  {
  }

  /** An update keeps a habit consistent with the calendar on the same day. */
  lemma UpdateKeepsSettled(h: Habit, req: UpdateRequest, today: Day)
    requires Settled(h, today)
    ensures Settled(Updated(h, req, today), today)
  {
  }

  function MarkComplete(done: bool): UpdateRequest {
    UpdateRequest(None, None, Some(done), None)
  }

  /** Completing on day d and listing on d + 1 keeps the streak and clears the flag. */
  lemma NextDayKeepsStreak(h: Habit, d: Day, persisted: bool)
    ensures var done := Updated(h, MarkComplete(true), d);
      var listed := Rollover(done, d + 1, persisted);
      listed.streak == done.streak && !listed.completedToday && listed.lastCompletedDate == Some(d)
  {
  }

  /** Completing on day d and listing two or more days later breaks the streak
      once the reset is written. */
  lemma GapBreaksStreak(h: Habit, d: Day, later: Day)
    requires later >= d + 2
    ensures var listed := Rollover(Updated(h, MarkComplete(true), d), later, true);
      listed.streak == 0 && !listed.completedToday
  {
  }

  /** Completing, then undoing on the same day, gives back the streak the
      habit had whenever the completion added one to it (no earlier date,
      today, or yesterday); the last completion date stays at today. */
  lemma UndoRestoresStreak(h: Habit, today: Day)
    requires h.streak >= 0
    requires h.lastCompletedDate in {None, Some(today), Some(Yesterday(today))}
    ensures var undone := Updated(Updated(h, MarkComplete(true), today), MarkComplete(false), today);
      undone.streak == h.streak && !undone.completedToday && undone.lastCompletedDate == Some(today)
  {
  }

  /** Marking an already-completed habit complete again on the same day adds
      one more to the streak, as the source's own comment describes. */
  lemma SameDayRecompletionCountsAgain(h: Habit, today: Day)
    ensures Updated(Updated(h, MarkComplete(true), today), MarkComplete(true), today).streak
         == ToggledStreak(h, today, true) + 1
  {
  }

  /** Completion on the day after the last one continues the streak:
      day 5 with streak 3, completed on day 6, gives streak 4. */
  lemma ContinuityExample()
    ensures var h := Habit(1, "u1", "Run", "daily", 3, false, Some(5));
      var r := Updated(h, MarkComplete(true), 6);
      r.streak == 4 && r.lastCompletedDate == Some(6)
  {
  }

  /** A two-day gap restarts the streak at 1. */
  lemma GapExample()
    ensures var h := Habit(1, "u1", "Run", "daily", 3, false, Some(5));
      Updated(h, MarkComplete(true), 8).streak == 1
  {
  }

  /** A stale flag from day 5 is cleared on day 7 and the streak is broken. */
  lemma StaleFlagExample()
    ensures var h := Habit(1, "u1", "Run", "daily", 3, true, Some(5));
      var r := Rollover(h, 7, true);
      !r.completedToday && r.streak == 0
  {
  }
}
