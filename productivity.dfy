/** The productivity aggregator: one record per user holding the days with a
    completed task, a per-day completion count, cumulative counters and the
    unlocked badges.  Each handler is a read-modify-write over that record:
    it takes the fetched row (None when the user has none), changes local
    copies of its lists and maps, and returns the row to be written or the
    error the request gets.  Dates are the request's strings, used as keys of
    an ordinary map (the source's plain-object pitfalls are not modelled). */
module ProductivityAggregator {
  import opened Basics

  /** One row of the user_productivity table. */
  datatype Record = Record(
    id: int,
    userId: string,
    completedDays: seq<string>,
    dailyCounts: map<string, int>,
    tasksCompleted: int,
    goalsCompleted: int,
    totalGoals: int,
    focusSessions: int,
    unlockedBadges: seq<string>)

  datatype Error = NotFound | Required | Invalid

  datatype Outcome = Saved(record: Record) | Failed(error: Error)

  predicate NoDuplicates(s: seq<string>) {
    forall i, j :: 0 <= i < j < |s| ==> s[i] != s[j]
  }

  /** The count stored for `date`, 0 when the date has no entry. */
  function Count(m: map<string, int>, date: string): int {
    if date in m then m[date] else 0
  }

  /** The record invariant: no duplicate days or badges, no zero (or
      negative) daily count, every counted day is a completed day, and no
      counter below zero. */
  predicate Valid(p: Record) {
    && NoDuplicates(p.completedDays)
    && NoDuplicates(p.unlockedBadges)
    && (forall d :: d in p.dailyCounts ==> p.dailyCounts[d] >= 1)
    && (forall d :: d in p.dailyCounts ==> d in p.completedDays)
    && p.tasksCompleted >= 0
    && p.goalsCompleted >= 0
    && p.totalGoals >= 0
    && p.focusSessions >= 0
  }

  /** Every counter zero and every collection empty. */
  predicate Blank(p: Record) {
    && p.completedDays == [] && p.dailyCounts == map[] && p.unlockedBadges == []
    && p.tasksCompleted == 0 && p.goalsCompleted == 0 && p.totalGoals == 0 && p.focusSessions == 0
  }

  /** In a list without duplicates, a member occurs exactly once. */
  lemma {:induction false} OccursOnce(s: seq<string>, x: string)
    requires NoDuplicates(s) && x in s
    ensures multiset(s)[x] == 1
  {
    assert s == [s[0]] + s[1..];
    assert NoDuplicates(s[1..]) by {
      forall i, j | 0 <= i < j < |s[1..]| ensures s[1..][i] != s[1..][j] {
        assert s[1..][i] == s[i + 1] && s[1..][j] == s[j + 1];
      }
    }
    if s[0] == x {
      assert x !in s[1..] by {
        forall k | 0 <= k < |s[1..]| ensures s[1..][k] != x {
          assert s[1..][k] == s[k + 1];
        }
      }
      assert multiset(s[1..])[x] == 0;
    } else {
      OccursOnce(s[1..], x);
    }
    assert multiset(s) == multiset([s[0]]) + multiset(s[1..]);
  }

  /** Appending a value that is absent keeps a list free of duplicates. */
  lemma AppendAbsent(s: seq<string>, x: string)
    requires NoDuplicates(s) && x !in s
    ensures NoDuplicates(s + [x])
  {
  }

  // ---------------------------------------------------------------------
  // initializeProductivity
  // ---------------------------------------------------------------------

  datatype InitOutcome = AlreadyExists(id: int) | Initialized(record: Record)

  /** Idempotent creation: an existing record's id is reported and nothing is
      created; otherwise a blank record with the store-assigned `newId`. */
  function Initialize(existing: Option<Record>, userId: string, newId: int): (r: InitOutcome)
    ensures existing.Some? ==> r == AlreadyExists(existing.value.id)
    ensures existing == None ==>
      r.Initialized? && Blank(r.record) && Valid(r.record)
      && r.record.userId == userId && r.record.id == newId
  {
    match existing
    case Some(p) => AlreadyExists(p.id)
    case None => Initialized(Record(newId, userId, [], map[], 0, 0, 0, 0, []))
  }

  /** Initializing twice creates one record and reports its id the second time. */
  lemma InitializeIsIdempotent(userId: string, newId: int, otherId: int)
    ensures var first := Initialize(None, userId, newId);
      first.Initialized? && Initialize(Some(first.record), userId, otherId) == AlreadyExists(newId)
  {
  }

  // ---------------------------------------------------------------------
  // The record transformers (what each handler writes)
  // ---------------------------------------------------------------------

  /** A task completed on `date`. */
  function WithTask(p: Record, date: string): (r: Record)
    ensures Count(r.dailyCounts, date) == Count(p.dailyCounts, date) + 1
    ensures forall d :: d != date ==> Count(r.dailyCounts, d) == Count(p.dailyCounts, d)
    ensures r.dailyCounts.Keys == p.dailyCounts.Keys + {date}
    ensures r.tasksCompleted == p.tasksCompleted + 1
    // completed days only grow, by `date` and nothing else
    ensures date in r.completedDays && p.completedDays <= r.completedDays
    ensures forall d :: d in r.completedDays <==> d in p.completedDays || d == date
    ensures date in p.completedDays ==> r.completedDays == p.completedDays
    ensures date !in p.completedDays ==> r.completedDays == p.completedDays + [date]
    ensures r.(completedDays := p.completedDays, dailyCounts := p.dailyCounts, tasksCompleted := p.tasksCompleted) == p
    ensures Valid(p) ==> Valid(r)
  {
    var days := if date in p.completedDays then p.completedDays else p.completedDays + [date];
    assert Valid(p) && date !in p.completedDays ==> NoDuplicates(days) by {
      if Valid(p) && date !in p.completedDays {
        AppendAbsent(p.completedDays, date);
      }
    }
    p.(completedDays := days,
       dailyCounts := p.dailyCounts[date := Count(p.dailyCounts, date) + 1],
       tasksCompleted := p.tasksCompleted + 1)
  }

  /** A task on `date` marked not completed. */
  function WithoutTask(p: Record, date: string): (r: Record)
    // a count of two or more goes down by one
    ensures Count(p.dailyCounts, date) >= 2 ==>
      date in r.dailyCounts && r.dailyCounts[date] == p.dailyCounts[date] - 1
    // a count that would reach zero (or a negative one) is deleted
    ensures date in p.dailyCounts && p.dailyCounts[date] != 0 && p.dailyCounts[date] <= 1 ==>
      date !in r.dailyCounts
    // an absent date (or a stored zero) is left as it is
    ensures date !in p.dailyCounts || p.dailyCounts[date] == 0 ==> r.dailyCounts == p.dailyCounts
    ensures forall d :: d != date ==> Count(r.dailyCounts, d) == Count(p.dailyCounts, d)
    ensures r.dailyCounts - {date} == p.dailyCounts - {date}
    ensures r.dailyCounts.Keys <= p.dailyCounts.Keys
    ensures r.tasksCompleted >= 0
    ensures p.tasksCompleted >= 1 ==> r.tasksCompleted == p.tasksCompleted - 1
    ensures p.tasksCompleted <= 0 ==> r.tasksCompleted == 0
    // completed days are kept as they are
    ensures r.(dailyCounts := p.dailyCounts, tasksCompleted := p.tasksCompleted) == p
    ensures Valid(p) ==> Valid(r)
  {
    var m := p.dailyCounts;
    var counts :=
      if date in m && m[date] != 0 then
        var c := Max(0, m[date] - 1);
        if c == 0 then m - {date} else m[date := c]
      else m;
    p.(dailyCounts := counts, tasksCompleted := Max(0, p.tasksCompleted - 1))
  }

  /** One more goal completed. */
  function WithGoal(p: Record): (r: Record)
    ensures r.goalsCompleted == p.goalsCompleted + 1
    ensures r.(goalsCompleted := p.goalsCompleted) == p
    ensures Valid(p) ==> Valid(r)
  {
    p.(goalsCompleted := p.goalsCompleted + 1)
  }

  /** One more focus session completed. */
  function WithFocusSession(p: Record): (r: Record)
    ensures r.focusSessions == p.focusSessions + 1
    ensures r.(focusSessions := p.focusSessions) == p
    ensures Valid(p) ==> Valid(r)
  {
    p.(focusSessions := p.focusSessions + 1)
  }

  /** The total number of goals set to `count`, absolutely. */
  function WithTotalGoals(p: Record, count: int): (r: Record)
    requires count >= 0
    ensures r.totalGoals == count
    ensures r.(totalGoals := p.totalGoals) == p
    ensures Valid(p) ==> Valid(r)
  {
    p.(totalGoals := count)
  }

  /** `badge` added to the unlocked badges unless already there. */
  function WithBadge(p: Record, badge: string): (r: Record)
    ensures badge in r.unlockedBadges
    ensures badge in p.unlockedBadges ==> r == p
    ensures badge !in p.unlockedBadges ==> r.unlockedBadges == p.unlockedBadges + [badge]
    ensures r.(unlockedBadges := p.unlockedBadges) == p
    ensures Valid(p) ==> Valid(r)
  {
    if badge in p.unlockedBadges then p
    else
      assert Valid(p) ==> NoDuplicates(p.unlockedBadges + [badge]) by {
        if Valid(p) { AppendAbsent(p.unlockedBadges, badge); }
      }
      p.(unlockedBadges := p.unlockedBadges + [badge])
  }

  // ---------------------------------------------------------------------
  // The handlers
  // ---------------------------------------------------------------------

  /** completeTask: the date is required; the record must exist. */
  method CompleteTask(stored: Option<Record>, date: Option<string>) returns (r: Outcome)
    ensures !Truthy(date) ==> r == Failed(Required)
    ensures Truthy(date) && stored == None ==> r == Failed(NotFound)
    ensures Truthy(date) && stored.Some? ==> r == Saved(WithTask(stored.value, date.value))
  {
    if !Truthy(date) {
      return Failed(Required);
    }
    if stored == None {
      return Failed(NotFound);
    }
    var p := stored.value;
    var day := date.value;
    var completedDays := p.completedDays;
    var productivityData := p.dailyCounts;
    if day !in completedDays {
      completedDays := completedDays + [day];
    }
    var current := if day in productivityData then productivityData[day] else 0;
    productivityData := productivityData[day := current + 1];
    r := Saved(p.(completedDays := completedDays,
                  dailyCounts := productivityData,
                  tasksCompleted := p.tasksCompleted + 1));
  }

  /** uncompleteTask: the date is required; the record must exist. */
  method UncompleteTask(stored: Option<Record>, date: Option<string>) returns (r: Outcome)
    ensures !Truthy(date) ==> r == Failed(Required)
    ensures Truthy(date) && stored == None ==> r == Failed(NotFound)
    ensures Truthy(date) && stored.Some? ==> r == Saved(WithoutTask(stored.value, date.value))
  {
    if !Truthy(date) {
      return Failed(Required);
    }
    if stored == None {
      return Failed(NotFound);
    }
    var p := stored.value;
    var day := date.value;
    var productivityData := p.dailyCounts;
    if day in productivityData && productivityData[day] != 0 {
      productivityData := productivityData[day := Max(0, productivityData[day] - 1)];
      if productivityData[day] == 0 {
        productivityData := productivityData - {day};
      }
    }
    r := Saved(p.(dailyCounts := productivityData,
                  tasksCompleted := Max(0, p.tasksCompleted - 1)));
  }

  /** completeGoal: the record must exist. */
  method CompleteGoal(stored: Option<Record>) returns (r: Outcome)
    ensures stored == None ==> r == Failed(NotFound)
    ensures stored.Some? ==> r == Saved(WithGoal(stored.value))
  {
    if stored == None {
      return Failed(NotFound);
    }
    var p := stored.value;
    var goalsCompleted := p.goalsCompleted + 1;
    r := Saved(p.(goalsCompleted := goalsCompleted));
  }

  /** completeFocusSession: the record must exist. */
  method CompleteFocusSession(stored: Option<Record>) returns (r: Outcome)
    ensures stored == None ==> r == Failed(NotFound)
    ensures stored.Some? ==> r == Saved(WithFocusSession(stored.value))
  {
    if stored == None {
      return Failed(NotFound);
    }
    var p := stored.value;
    var focusSessions := p.focusSessions + 1;
    r := Saved(p.(focusSessions := focusSessions));
  }

  /** The JSON value a request body carries for `count`. */
  datatype JsonValue = Null | Number(n: int) | Text(s: string) | Boolean(b: bool)

  /** updateTotalGoals: the count is validated before the store is touched;
      an update that matches no record reports not-found. */
  method UpdateTotalGoals(stored: Option<Record>, count: Option<JsonValue>) returns (r: Outcome)
    ensures count == None || count == Some(Null) ==> r == Failed(Required)
    ensures count.Some? && count.value != Null && !(count.value.Number? && count.value.n >= 0) ==>
      r == Failed(Invalid)
    ensures count.Some? && count.value.Number? && count.value.n >= 0 ==>
      r == (if stored == None then Failed(NotFound) else Saved(WithTotalGoals(stored.value, count.value.n)))
  {
    if count == None || count == Some(Null) {
      return Failed(Required);
    }
    if !count.value.Number? || count.value.n < 0 {
      return Failed(Invalid);
    }
    if stored == None {
      return Failed(NotFound);
    }
    var p := stored.value;
    r := Saved(p.(totalGoals := count.value.n));
  }

  datatype BadgeOutcome =
    | BadgeUnlocked(record: Record)
    | AlreadyUnlocked(record: Record)
    | BadgeFailed(error: Error)

  /** unlockBadge: the badge id is required; the record must exist; a badge
      already held is reported and nothing is written. */
  method UnlockBadge(stored: Option<Record>, badgeId: Option<string>) returns (r: BadgeOutcome)
    ensures !Truthy(badgeId) ==> r == BadgeFailed(Required)
    ensures Truthy(badgeId) && stored == None ==> r == BadgeFailed(NotFound)
    ensures Truthy(badgeId) && stored.Some? && badgeId.value in stored.value.unlockedBadges ==>
      r == AlreadyUnlocked(stored.value)
    ensures Truthy(badgeId) && stored.Some? && badgeId.value !in stored.value.unlockedBadges ==>
      r == BadgeUnlocked(WithBadge(stored.value, badgeId.value))
  {
    if !Truthy(badgeId) {
      return BadgeFailed(Required);
    }
    if stored == None {
      return BadgeFailed(NotFound);
    }
    var p := stored.value;
    var unlockedBadges := p.unlockedBadges;
    if badgeId.value !in unlockedBadges {
      unlockedBadges := unlockedBadges + [badgeId.value];
      return BadgeUnlocked(p.(unlockedBadges := unlockedBadges));
    }
    r := AlreadyUnlocked(p);
  }

  // ---------------------------------------------------------------------
  // Properties
  // ---------------------------------------------------------------------

  /** After a completed task, its date is in the completed days exactly once,
      whether or not it was there before. */
  lemma CompletedDayOccursOnce(p: Record, date: string)
    requires Valid(p)
    ensures multiset(WithTask(p, date).completedDays)[date] == 1
  {
    OccursOnce(WithTask(p, date).completedDays, date);
  }

  /** Unlocking a badge twice: the second call finds it held, the record is
      unchanged, and the badge is listed exactly once. */
  lemma UnlockTwice(p: Record, badge: string)
    requires Valid(p)
    ensures var once := WithBadge(p, badge);
      && badge in once.unlockedBadges
      && WithBadge(once, badge) == once
      && multiset(once.unlockedBadges)[badge] == 1
  {
    OccursOnce(WithBadge(p, badge).unlockedBadges, badge);
  }

  /** Completing a task and then undoing it, on a valid record, restores the
      daily counts and the task counter; the day stays among the completed days. */
  lemma UndoTaskRestoresCounts(p: Record, date: string)
    requires Valid(p)
    ensures var r := WithoutTask(WithTask(p, date), date);
      && r.dailyCounts == p.dailyCounts
      && r.tasksCompleted == p.tasksCompleted
      && date in r.completedDays
  {
  }

  /** A request to the aggregator, with any date, badge or count, rejected
      ones included. */
  datatype Request =
    | TaskDone(date: string)
    | TaskUndone(date: string)
    | GoalDone
    | FocusDone
    | SetTotalGoals(count: int)
    | Unlock(badge: string)

  /** The record after one request.  A request the handler rejects (an empty
      date or badge, a negative count) leaves it as it is. */
  function Apply(p: Record, req: Request): Record {
    match req
    case TaskDone(date) => if date != "" then WithTask(p, date) else p
    case TaskUndone(date) => if date != "" then WithoutTask(p, date) else p
    case GoalDone => WithGoal(p)
    case FocusDone => WithFocusSession(p)
    case SetTotalGoals(count) => if count >= 0 then WithTotalGoals(p, count) else p
    case Unlock(badge) => if badge != "" then WithBadge(p, badge) else p
  }

  /** The record after a sequence of requests, in order. */
  function ApplyAll(p: Record, reqs: seq<Request>): Record
    decreases |reqs|
  {
    if reqs == [] then p else ApplyAll(Apply(p, reqs[0]), reqs[1..])
  }

  /** No sequence of requests breaks the record invariant: counters stay
      non-negative, zero counts stay pruned, days and badges stay unique. */
  lemma {:induction false} RequestsKeepValid(p: Record, reqs: seq<Request>)
    requires Valid(p)
    ensures Valid(ApplyAll(p, reqs))
    decreases |reqs|
  {
    if reqs != [] {
      RequestsKeepValid(Apply(p, reqs[0]), reqs[1..]);
    }
  }

  /** Initialize, complete a task on one day twice, then undo it once. */
  lemma TwoCompletionsOneUndoExample(newId: int)
    ensures var p0 := Initialize(None, "u1", newId).record;
      var p2 := WithTask(WithTask(p0, "2024-03-01"), "2024-03-01");
      var p3 := WithoutTask(p2, "2024-03-01");
      && p2.dailyCounts == map["2024-03-01" := 2] && p2.tasksCompleted == 2
      && p2.completedDays == ["2024-03-01"]
      && p3.dailyCounts == map["2024-03-01" := 1] && p3.tasksCompleted == 1
  {
    var day := "2024-03-01";
    var p0 := Initialize(None, "u1", newId).record;
    var p1 := WithTask(p0, day);
    assert p1.completedDays == [day] && p1.dailyCounts == map[day := 1];
    var p2 := WithTask(p1, day);
    assert p2.completedDays == [day] && p2.dailyCounts == map[day := 2];
    var p3 := WithoutTask(p2, day);
    assert p3.dailyCounts == map[day := 1];
  }
}
