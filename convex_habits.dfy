/**
 * The habit handlers of `convex/habits.ts`: creation with the difficulty-to-XP mapping, the
 * filtered habit lists, updates, pausing, the cascading delete, and the daily check-in that
 * drives streaks, XP and levels.  Each handler takes the database as its `ctx.db`; the clock and
 * the calendar (`Date.now()`, today's and yesterday's ISO date, the day of the week) are parameters.
 */
module ConvexHabits {
  import opened Wrappers
  import opened Seqs
  import opened ConvexStore

  // ---- XP and levels

  /** The XP one completion of a habit earns: "medium" 10, "hard" 20, every other difficulty 5. */
  function XpForDifficulty(difficulty: string): (xp: int)
    ensures xp == 10 <==> difficulty == "medium"
    ensures xp == 20 <==> difficulty == "hard"
    ensures xp == 5 <==> difficulty != "medium" && difficulty != "hard"
  {
    var xp := 5;
    var xp := if difficulty == "medium" then 10 else xp;
    if difficulty == "hard" then 20 else xp
  }

  /** The level reached with `xp` points: ten tiers whose lower bounds double from 500 on. */
  function CalculateLevel(xp: int): (level: int)
    ensures 1 <= level <= 10
    ensures xp < 100 ==> level == 1
    ensures xp >= 32000 ==> level == 10
  {
    if xp < 100 then 1
    else if xp < 250 then 2
    else if xp < 500 then 3
    else if xp < 1000 then 4
    else if xp < 2000 then 5
    else if xp < 4000 then 6
    else if xp < 8000 then 7
    else if xp < 16000 then 8
    else if xp < 32000 then 9
    else 10
  }

  /** The lowest XP of levels 2 to 10, the reference definition of the level table. */
  const LevelThresholds: seq<int> := [100, 250, 500, 1000, 2000, 4000, 8000, 16000, 32000]

  /** How many of the ascending thresholds `ts` the amount `xp` has reached. */
  function Reached(ts: seq<int>, xp: int): (n: nat)
    ensures n <= |ts|
  {
    if ts == [] then 0 else (if ts[0] <= xp then 1 else 0) + Reached(ts[1..], xp)
  }

  /** The level is one more than the number of thresholds reached. */
  lemma LevelCountsThresholds(xp: int)
    ensures CalculateLevel(xp) == 1 + Reached(LevelThresholds, xp)
  {
    var t := LevelThresholds;
    assert Reached(t[8..], xp) == (if 32000 <= xp then 1 else 0) by {
      assert t[8..][1..] == [];
    }
    assert Reached(t[7..], xp) == (if 16000 <= xp then 1 else 0) + Reached(t[8..], xp) by {
      assert t[7..][1..] == t[8..];
    }
    assert Reached(t[6..], xp) == (if 8000 <= xp then 1 else 0) + Reached(t[7..], xp) by {
      assert t[6..][1..] == t[7..];
    }
    assert Reached(t[5..], xp) == (if 4000 <= xp then 1 else 0) + Reached(t[6..], xp) by {
      assert t[5..][1..] == t[6..];
    }
    assert Reached(t[4..], xp) == (if 2000 <= xp then 1 else 0) + Reached(t[5..], xp) by {
      assert t[4..][1..] == t[5..];
    }
    assert Reached(t[3..], xp) == (if 1000 <= xp then 1 else 0) + Reached(t[4..], xp) by {
      assert t[3..][1..] == t[4..];
    }
    assert Reached(t[2..], xp) == (if 500 <= xp then 1 else 0) + Reached(t[3..], xp) by {
      assert t[2..][1..] == t[3..];
    }
    assert Reached(t[1..], xp) == (if 250 <= xp then 1 else 0) + Reached(t[2..], xp) by {
      assert t[1..][1..] == t[2..];
    }
  }

  lemma {:induction false} ReachedMonotone(ts: seq<int>, a: int, b: int)
    requires a <= b
    ensures Reached(ts, a) <= Reached(ts, b)
  {
    if ts != [] {
      ReachedMonotone(ts[1..], a, b);
    }
  }

  /** More XP never means a lower level. */
  lemma CalculateLevelMonotone(a: int, b: int)
    requires a <= b
    ensures CalculateLevel(a) <= CalculateLevel(b)
  {
    LevelCountsThresholds(a);
    LevelCountsThresholds(b);
    ReachedMonotone(LevelThresholds, a, b);
  }

  // ---- createHabit

  /** The arguments of `createHabit`. */
  datatype CreateHabitArgs = CreateHabitArgs(
    userId: string, name: string, description: Option<string>, category: string,
    frequency: string, weekDays: Option<seq<int>>, targetGoal: int, timeOfDay: string,
    reminderEnabled: bool, reminderTime: Option<string>, difficulty: string, icon: string,
    color: string)

  /** The document `createHabit` inserts for the user document `owner` (its id is assigned on insert). */
  function NewHabit(owner: Id, args: CreateHabitArgs, now: int): Habit {
    Habit(0, owner, args.name, args.description, args.category, args.frequency, args.weekDays,
          args.targetGoal, args.timeOfDay, args.reminderEnabled, args.reminderTime, args.difficulty,
          XpForDifficulty(args.difficulty), args.icon, args.color, 0, 0, 0, false, true, now, now)
  }

  method CreateHabit(db: Db, args: CreateHabitArgs, now: int) returns (r: Result<Id>)
    requires db.Valid()
    modifies db
    ensures db.Valid()
    ensures UserByUserId(old(db.users), args.userId).None? ==> r == Err("User not found") && unchanged(db)
    ensures UserByUserId(old(db.users), args.userId).Some? ==>
      var owner := UserByUserId(old(db.users), args.userId).value.id;
      && r == Ok(old(db.nextId))
      && db.habits == old(db.habits) + [NewHabit(owner, args, now).(id := old(db.nextId))]
      && db.users == old(db.users) && db.completions == old(db.completions)
      && db.achievements == old(db.achievements)
  {
    var user := UserByUserId(db.users, args.userId);
    if user.None? {
      return Err("User not found");
    }
    var id := db.InsertHabit(NewHabit(user.value.id, args, now));
    r := Ok(id);
  }

  // ---- getUserHabits and getTodaysHabits

  /** A habit as the list queries return it, with whether it has a completion dated today. */
  datatype HabitStatus = HabitStatus(habit: Habit, completedToday: bool)

  function HabitsIn(r: seq<HabitStatus>): (hs: seq<Habit>)
    ensures |hs| == |r| && forall i :: 0 <= i < |r| ==> hs[i] == r[i].habit
  {
    seq(|r|, i requires 0 <= i < |r| => r[i].habit)
  }

  /** The status filters of `getUserHabits` ("active", "paused", "completed"). */
  predicate KeptByStatus(status: string, h: Habit) {
    if status == "active" then h.isActive && !h.isPaused
    else if status == "paused" then h.isPaused
    else h.totalCompletions >= h.targetGoal
  }

  predicate InCategory(category: string, h: Habit) { h.category == category }

  /** What the `filter` argument asks of a habit; any other value, or none, asks nothing. */
  predicate MatchesFilter(filter: Option<string>, h: Habit) {
    && (filter == Some("active") ==> h.isActive && !h.isPaused)
    && (filter == Some("paused") ==> h.isPaused)
    && (filter == Some("completed") ==> h.totalCompletions >= h.targetGoal)
  }

  /** What the `category` argument asks of a habit; none, the empty string and "all" ask nothing. */
  predicate MatchesCategory(category: Option<string>, h: Habit) {
    category.Some? && category.value != "" && category.value != "all" ==> h.category == category.value
  }

  /** What the list asks of a habit: owned by `key.0`, passing the filter `key.1` and the category `key.2`. */
  predicate Listed(key: (Id, Option<string>, Option<string>), h: Habit) {
    h.userId == key.0 && MatchesFilter(key.1, h) && MatchesCategory(key.2, h)
  }

  /** Owned by `key.0` and passing the filter `key.1`: the list before the category step. */
  predicate OwnedMatching(key: (Id, Option<string>), h: Habit) {
    h.userId == key.0 && MatchesFilter(key.1, h)
  }

  /**
   * The user's habits, narrowed by one status filter and then by category, each with today's
   * completion flag; the habits come in table order.
   */
  method GetUserHabits(db: Db, userId: string, filter: Option<string>, category: Option<string>, today: string)
    returns (r: seq<HabitStatus>)
    ensures UserByUserId(db.users, userId).None? ==> r == []
    ensures UserByUserId(db.users, userId).Some? ==>
      HabitsIn(r) == FilterWith(db.habits, Listed, (UserByUserId(db.users, userId).value.id, filter, category))
    ensures forall h :: h in HabitsIn(r) <==>
      && UserByUserId(db.users, userId).Some?
      && h in db.habits && h.userId == UserByUserId(db.users, userId).value.id
      && MatchesFilter(filter, h) && MatchesCategory(category, h)
    ensures forall i :: 0 <= i < |r| ==>
      (r[i].completedToday <==> CompletionOn(db.completions, r[i].habit.id, today).Some?)
  {
    var user := UserByUserId(db.users, userId);
    if user.None? {
      return [];
    }
    var habits := NarrowHabits(db.habits, user.value.id, filter, category);
    var completions := db.completions;
    r := seq(|habits|, i requires 0 <= i < |habits| =>
      HabitStatus(habits[i], CompletionOn(completions, habits[i].id, today).Some?));
    assert HabitsIn(r) == habits;
  }

  /**
   * The `by_user` query on the user's id, then the status filter and the category filter when they
   * apply: exactly the habits `Listed` keeps, in table order.
   */
  method NarrowHabits(all: seq<Habit>, uid: Id, filter: Option<string>, category: Option<string>)
    returns (habits: seq<Habit>)
    ensures habits == FilterWith(all, Listed, (uid, filter, category))
    ensures forall h :: h in habits <==>
      h in all && h.userId == uid && MatchesFilter(filter, h) && MatchesCategory(category, h)
  {
    habits := FilterWith(all, HabitOwnedBy, uid);
    if filter == Some("active") || filter == Some("paused") || filter == Some("completed") {
      FilterThen(all, HabitOwnedBy, uid, KeptByStatus, filter.value, OwnedMatching, (uid, filter));
      habits := FilterWith(habits, KeptByStatus, filter.value);
    } else {
      FilterCongruent(all, HabitOwnedBy, uid, OwnedMatching, (uid, filter));
    }
    assert habits == FilterWith(all, OwnedMatching, (uid, filter));
    if category.Some? && category.value != "" && category.value != "all" {
      FilterThen(all, OwnedMatching, (uid, filter), InCategory, category.value, Listed, (uid, filter, category));
      habits := FilterWith(habits, InCategory, category.value);
    } else {
      FilterCongruent(all, OwnedMatching, (uid, filter), Listed, (uid, filter, category));
    }
  }

  /** Whether a habit is due on `dayOfWeek` (0 is Sunday): daily ones always, weekly ones on their days. */
  predicate DueOn(dayOfWeek: int, h: Habit) {
    if h.frequency == "daily" then true
    else if h.frequency == "weekly" && h.weekDays.Some? then dayOfWeek in h.weekDays.value
    else false
  }

  predicate ActiveAndRunning(uid: Id, h: Habit) { h.userId == uid && h.isActive && !h.isPaused }

  /** `getTodaysHabits`: the user's active, unpaused habits that are due today. */
  function TodaysHabits(users: seq<User>, habits: seq<Habit>, completions: seq<Completion>,
                        userId: string, dayOfWeek: int, today: string): (r: seq<HabitStatus>)
    ensures forall h :: h in HabitsIn(r) <==>
      && UserByUserId(users, userId).Some?
      && h in habits && h.userId == UserByUserId(users, userId).value.id
      && h.isActive && !h.isPaused
      && (h.frequency == "daily" || (h.frequency == "weekly" && h.weekDays.Some? && dayOfWeek in h.weekDays.value))
    ensures forall i :: 0 <= i < |r| ==>
      (r[i].completedToday <==> CompletionOn(completions, r[i].habit.id, today).Some?)
  {
    match UserByUserId(users, userId)
    case None => []
    case Some(user) =>
      var all := FilterWith(habits, ActiveAndRunning, user.id);
      var due := FilterWith(all, DueOn, dayOfWeek);
      var r := seq(|due|, i requires 0 <= i < |due| =>
        HabitStatus(due[i], CompletionOn(completions, due[i].id, today).Some?));
      assert HabitsIn(r) == due;
      r
  }

  // ---- updateHabit and toggleHabitPause

  /** The optional arguments of `updateHabit`. */
  datatype HabitUpdates = HabitUpdates(
    name: Option<string>, description: Option<string>, category: Option<string>,
    frequency: Option<string>, weekDays: Option<seq<int>>, targetGoal: Option<int>,
    timeOfDay: Option<string>, reminderEnabled: Option<bool>, reminderTime: Option<string>,
    difficulty: Option<string>, icon: Option<string>, color: Option<string>)

  const NoUpdates := HabitUpdates(None, None, None, None, None, None, None, None, None, None, None, None)

  /** The patch `updateHabit` applies: the supplied fields, `xpValue` when the difficulty is a non-empty string, and `updatedAt`. */
  function ApplyHabitUpdates(h: Habit, u: HabitUpdates, now: int): (r: Habit)
    ensures r.id == h.id && r.userId == h.userId && r.updatedAt == now
    ensures r.currentStreak == h.currentStreak && r.longestStreak == h.longestStreak
    ensures r.totalCompletions == h.totalCompletions && r.isPaused == h.isPaused && r.isActive == h.isActive
    ensures r.xpValue == if u.difficulty.Some? && u.difficulty.value != "" then XpForDifficulty(u.difficulty.value) else h.xpValue
    ensures r.createdAt == h.createdAt
    ensures r.name == u.name.GetOr(h.name) && r.category == u.category.GetOr(h.category)
    ensures r.description == (if u.description.Some? then u.description else h.description)
    ensures r.frequency == u.frequency.GetOr(h.frequency) && r.targetGoal == u.targetGoal.GetOr(h.targetGoal)
    ensures r.weekDays == (if u.weekDays.Some? then u.weekDays else h.weekDays)
    ensures r.timeOfDay == u.timeOfDay.GetOr(h.timeOfDay)
    ensures r.reminderEnabled == u.reminderEnabled.GetOr(h.reminderEnabled)
    ensures r.reminderTime == (if u.reminderTime.Some? then u.reminderTime else h.reminderTime)
    ensures r.difficulty == u.difficulty.GetOr(h.difficulty)
    ensures r.icon == u.icon.GetOr(h.icon) && r.color == u.color.GetOr(h.color)
  {
    var xpValue := if u.difficulty.Some? && u.difficulty.value != "" then XpForDifficulty(u.difficulty.value) else h.xpValue;
    h.(name := u.name.GetOr(h.name),
       description := if u.description.Some? then u.description else h.description,
       category := u.category.GetOr(h.category),
       frequency := u.frequency.GetOr(h.frequency),
       weekDays := if u.weekDays.Some? then u.weekDays else h.weekDays,
       targetGoal := u.targetGoal.GetOr(h.targetGoal),
       timeOfDay := u.timeOfDay.GetOr(h.timeOfDay),
       reminderEnabled := u.reminderEnabled.GetOr(h.reminderEnabled),
       reminderTime := if u.reminderTime.Some? then u.reminderTime else h.reminderTime,
       difficulty := u.difficulty.GetOr(h.difficulty),
       xpValue := xpValue,
       icon := u.icon.GetOr(h.icon),
       color := u.color.GetOr(h.color),
       updatedAt := now)
  }

  /** An update that supplies nothing only moves `updatedAt`. */
  lemma EmptyUpdateOnlyTouchesTime(h: Habit, now: int)
    ensures ApplyHabitUpdates(h, NoUpdates, now) == h.(updatedAt := now)
  {
  }

  /** Supplying a difficulty re-derives the XP value from it, whatever the habit's old difficulty was. */
  lemma UpdatedDifficultySetsXp(h: Habit, u: HabitUpdates, now: int)
    requires u.difficulty.Some? && u.difficulty.value != ""
    ensures ApplyHabitUpdates(h, u, now).xpValue == XpForDifficulty(ApplyHabitUpdates(h, u, now).difficulty)
  {
  }

  /** The error `ctx.db.patch` and `ctx.db.delete` raise for an id with no document. */
  const MissingDocument := "no document with this id"

  method UpdateHabit(db: Db, habitId: Id, u: HabitUpdates, now: int) returns (r: Result<()>)
    requires db.Valid()
    modifies db
    ensures db.Valid()
    ensures GetHabit(old(db.habits), habitId).None? ==> r == Err(MissingDocument) && unchanged(db)
    ensures GetHabit(old(db.habits), habitId).Some? ==>
      && r == Ok(())
      && db.habits == SetHabit(old(db.habits), ApplyHabitUpdates(GetHabit(old(db.habits), habitId).value, u, now))
      && db.users == old(db.users) && db.completions == old(db.completions)
      && db.achievements == old(db.achievements) && db.nextId == old(db.nextId)
  {
    var h := GetHabit(db.habits, habitId);
    if h.None? {
      return Err(MissingDocument);
    }
    db.PatchHabit(ApplyHabitUpdates(h.value, u, now));
    r := Ok(());
  }

  /** Flips `isPaused` and returns the new value. */
  method ToggleHabitPause(db: Db, habitId: Id, now: int) returns (r: Result<bool>)
    requires db.Valid()
    modifies db
    ensures db.Valid()
    ensures GetHabit(old(db.habits), habitId).None? ==> r == Err("Habit not found") && unchanged(db)
    ensures GetHabit(old(db.habits), habitId).Some? ==>
      var h := GetHabit(old(db.habits), habitId).value;
      && r == Ok(!h.isPaused)
      && GetHabit(db.habits, habitId) == Some(h.(isPaused := !h.isPaused, updatedAt := now))
      && db.habits == SetHabit(old(db.habits), h.(isPaused := !h.isPaused, updatedAt := now))
      && db.users == old(db.users) && db.completions == old(db.completions)
      && db.achievements == old(db.achievements) && db.nextId == old(db.nextId)
  {
    var h := GetHabit(db.habits, habitId);
    if h.None? {
      return Err("Habit not found");
    }
    var toggled := h.value.(isPaused := !h.value.isPaused, updatedAt := now);
    db.PatchHabit(toggled);
    GetSetHabit(old(db.habits), toggled, habitId);
    r := Ok(!h.value.isPaused);
  }

  // ---- deleteHabit

  predicate CompletionNotOfHabit(habitId: Id, c: Completion) { c.habitId != habitId }

  predicate CompletionIdNotIn(ids: set<Id>, c: Completion) { c.id !in ids }

  /** The ids of the completions `cs`. */
  function CompletionIds(cs: seq<Completion>): set<Id> {
    set c | c in cs :: c.id
  }

  /** Deleting one more id from an already thinned table is thinning it by the larger id set. */
  lemma {:induction false} DeleteOneMore(cs: seq<Completion>, ids: set<Id>, id: Id)
    ensures FilterWith(FilterWith(cs, CompletionIdNotIn, ids), CompletionIdIsNot, id)
         == FilterWith(cs, CompletionIdNotIn, ids + {id})
  {
    if cs != [] {
      DeleteOneMore(cs[1..], ids, id);
    }
  }

  /** Two filters that agree on every element of `cs` keep the same elements. */
  lemma {:induction false} SameCompletionFilter(cs: seq<Completion>, ids: set<Id>, habitId: Id)
    requires forall c :: c in cs ==> (c.id in ids <==> c.habitId == habitId)
    ensures FilterWith(cs, CompletionIdNotIn, ids) == FilterWith(cs, CompletionNotOfHabit, habitId)
  {
    if cs != [] {
      assert forall c :: c in cs[1..] ==> c in cs;
      SameCompletionFilter(cs[1..], ids, habitId);
    }
  }

  /** In a table whose ids are unique, an id belongs to a completion of the habit exactly when that completion is one. */
  lemma DoomedIds(cs: seq<Completion>, habitId: Id)
    requires forall c, d :: c in cs && d in cs && c.id == d.id ==> c == d
    ensures forall c :: c in cs ==>
      (c.id in CompletionIds(FilterWith(cs, CompletionOfHabit, habitId)) <==> c.habitId == habitId)
  {
    var doomed := FilterWith(cs, CompletionOfHabit, habitId);
    forall c | c in cs
      ensures c.id in CompletionIds(doomed) <==> c.habitId == habitId
    {
      if c.id in CompletionIds(doomed) {
        var d :| d in doomed && d.id == c.id;
        assert d in cs;
      }
    }
  }

  /** The loop of `deleteHabit` that deletes the habit's completions one at a time. */
  method DeleteCompletionsOf(db: Db, habitId: Id)
    requires db.Valid()
    modifies db
    ensures db.Valid()
    ensures db.completions == FilterWith(old(db.completions), CompletionNotOfHabit, habitId)
    ensures db.habits == old(db.habits) && db.users == old(db.users) && db.achievements == old(db.achievements)
  {
    var doomed := FilterWith(db.completions, CompletionOfHabit, habitId);
    ghost var start := db.completions;
    var i := 0;
    assert db.completions == FilterWith(start, CompletionIdNotIn, CompletionIds(doomed[..0])) by {
      assert CompletionIds(doomed[..0]) == {};
      SameCompletionFilterTrivial(start);
    }
    while i < |doomed|
      invariant 0 <= i <= |doomed|
      invariant db.Valid()
      invariant db.completions == FilterWith(start, CompletionIdNotIn, CompletionIds(doomed[..i]))
      invariant db.habits == old(db.habits) && db.users == old(db.users)
      invariant db.achievements == old(db.achievements)
    {
      DeleteOneMore(start, CompletionIds(doomed[..i]), doomed[i].id);
      CompletionIdsStep(doomed, i);
      db.DeleteCompletion(doomed[i].id);
      i := i + 1;
    }
    assert doomed[..i] == doomed;
    DoomedIds(start, habitId);
    SameCompletionFilter(start, CompletionIds(doomed), habitId);
  }

  lemma CompletionIdsStep(cs: seq<Completion>, i: nat)
    requires i < |cs|
    ensures CompletionIds(cs[..i + 1]) == CompletionIds(cs[..i]) + {cs[i].id}
  {
    assert cs[..i + 1] == cs[..i] + [cs[i]];
    assert forall d :: d in cs[..i + 1] <==> d in cs[..i] || d == cs[i];
  }

  /**
   * Deletes every completion of the habit, one by one, and then the habit itself.  The handler
   * deletes the completions first and fails on the habit's `delete` when there is no such habit;
   * Convex then rolls back the whole mutation, so the model tests the habit first and writes nothing.
   * That rollback is the transaction's guarantee and is not modelled step by step.
   */
  method DeleteHabit(db: Db, habitId: Id) returns (r: Result<()>)
    requires db.Valid()
    modifies db
    ensures db.Valid()
    ensures GetHabit(old(db.habits), habitId).None? ==> r == Err(MissingDocument) && unchanged(db)
    ensures GetHabit(old(db.habits), habitId).Some? ==>
      && r == Ok(())
      && db.completions == FilterWith(old(db.completions), CompletionNotOfHabit, habitId)
      && db.habits == FilterWith(old(db.habits), HabitIdIsNot, habitId)
      && db.users == old(db.users) && db.achievements == old(db.achievements)
  {
    if GetHabit(db.habits, habitId).None? {
      return Err(MissingDocument);
    }
    DeleteCompletionsOf(db, habitId);
    db.DeleteHabit(habitId);
    r := Ok(());
  }

  lemma {:induction false} SameCompletionFilterTrivial(cs: seq<Completion>)
    ensures FilterWith(cs, CompletionIdNotIn, {}) == cs
  {
    if cs != [] {
      SameCompletionFilterTrivial(cs[1..]);
      assert cs == [cs[0]] + cs[1..];
    }
  }

  // ---- completeHabit

  /** The summary `completeHabit` returns; `newLevel` is absent when the habit's user was not found. */
  datatype CheckIn = CheckIn(success: bool, xpEarned: int, newStreak: int, bonusXP: int,
                             leveledUp: bool, newLevel: Option<int>)

  /** The bonus for reaching a streak milestone on this check-in. */
  function StreakBonus(streak: int): int {
    var bonus := 0;
    var bonus := if streak == 7 then 10 else bonus;
    var bonus := if streak == 30 then 50 else bonus;
    if streak == 100 then 200 else bonus
  }

  lemma StreakBonusOnlyAtMilestones(streak: int)
    ensures StreakBonus(streak) >= 0
    ensures StreakBonus(streak) != 0 <==> streak == 7 || streak == 30 || streak == 100
  {
  }

  /** The streak after today's check-in: one more when yesterday has a completion, else a fresh 1. */
  function NextStreak(h: Habit, completions: seq<Completion>, yesterday: string): int {
    if CompletionOn(completions, h.id, yesterday).Some? then h.currentStreak + 1 else 1
  }

  /** The habit after a check-in that brings its streak to `streak`. */
  function CompletedHabit(h: Habit, streak: int, now: int): Habit {
    h.(currentStreak := streak,
       longestStreak := if h.longestStreak > streak then h.longestStreak else streak,
       totalCompletions := h.totalCompletions + 1,
       updatedAt := now)
  }

  /** The user after a check-in of `h` at streak `streak`: the level is taken before the bonus is added. */
  function CreditedUser(u: User, h: Habit, streak: int, now: int): User {
    u.(xp := u.xp + h.xpValue + StreakBonus(streak),
       level := CalculateLevel(u.xp + h.xpValue),
       totalHabitsCompleted := u.totalHabitsCompleted + 1,
       updatedAt := now)
  }

  function CheckInSummary(user: Option<User>, h: Habit, streak: int): CheckIn {
    match user
    case Some(u) =>
      CheckIn(true, h.xpValue + StreakBonus(streak), streak, StreakBonus(streak),
              CalculateLevel(u.xp + h.xpValue) > u.level, Some(CalculateLevel(u.xp + h.xpValue)))
    case None => CheckIn(true, h.xpValue, streak, 0, false, None)
  }

  /** A check-in keeps the current streak within the longest one and counts one more completion. */
  lemma CompletedHabitCounters(h: Habit, completions: seq<Completion>, yesterday: string, now: int)
    requires 0 <= h.currentStreak
    ensures var c := CompletedHabit(h, NextStreak(h, completions, yesterday), now);
      && 1 <= c.currentStreak <= c.longestStreak
      && c.longestStreak >= h.longestStreak
      && c.totalCompletions == h.totalCompletions + 1
      && (CompletionOn(completions, h.id, yesterday).None? ==> c.currentStreak == 1)
      && (CompletionOn(completions, h.id, yesterday).Some? ==> c.currentStreak == h.currentStreak + 1)
  {
  }

  /** The XP reported to the client is exactly the XP added to the user, and `leveledUp` compares the stored levels. */
  lemma CheckInReportsCredit(u: User, h: Habit, streak: int, now: int)
    ensures CheckInSummary(Some(u), h, streak).xpEarned == CreditedUser(u, h, streak, now).xp - u.xp
    ensures CheckInSummary(Some(u), h, streak).leveledUp <==> CreditedUser(u, h, streak, now).level > u.level
    ensures CheckInSummary(Some(u), h, streak).newLevel == Some(CreditedUser(u, h, streak, now).level)
    ensures CreditedUser(u, h, streak, now).totalHabitsCompleted == u.totalHabitsCompleted + 1
  {
  }

  /** The stored level never runs ahead of the level the stored XP deserves, and matches it without a bonus. */
  lemma CreditedLevelLags(u: User, h: Habit, streak: int, now: int)
    ensures CreditedUser(u, h, streak, now).level <= CalculateLevel(CreditedUser(u, h, streak, now).xp)
    ensures StreakBonus(streak) == 0 ==>
      CreditedUser(u, h, streak, now).level == CalculateLevel(CreditedUser(u, h, streak, now).xp)
  {
    StreakBonusOnlyAtMilestones(streak);
    CalculateLevelMonotone(u.xp + h.xpValue, u.xp + h.xpValue + StreakBonus(streak));
  }

  /** A seventh-day check-in from 90 XP stores 105 XP but level 1, although 105 XP is level 2. */
  lemma StoredLevelIgnoresBonus()
    ensures exists u: User, h: Habit ::
      CreditedUser(u, h, 7, 0).level != CalculateLevel(CreditedUser(u, h, 7, 0).xp)
  {
    var u := User(0, "u", "", "", None, 90, 1, 0, 0, 0, None, 0, 0);
    var h := Habit(1, 0, "", None, "", "daily", None, 1, "anytime", false, None, "easy", 5,
                   "", "", 6, 6, 6, false, true, 0, 0);
    assert CreditedUser(u, h, 7, 0).xp == 105;
    assert CreditedUser(u, h, 7, 0).level == 1;
  }

  /** The first half of a check-in: the completion row and the habit's new counters. */
  method RecordCompletion(db: Db, habit: Habit, streak: int, notes: Option<string>, now: int, today: string)
    requires db.Valid() && GetHabit(db.habits, habit.id) == Some(habit)
    modifies db
    ensures db.Valid()
    ensures db.completions == old(db.completions) +
      [Completion(old(db.nextId), habit.userId, habit.id, now, today, habit.xpValue, streak, notes)]
    ensures db.habits == SetHabit(old(db.habits), CompletedHabit(habit, streak, now))
    ensures db.users == old(db.users) && db.achievements == old(db.achievements)
  {
    var id := db.InsertCompletion(Completion(0, habit.userId, habit.id, now, today, habit.xpValue, streak, notes));
    assert db.completions == old(db.completions) +
      [Completion(id, habit.userId, habit.id, now, today, habit.xpValue, streak, notes)];
    var newLongestStreak := if habit.longestStreak > streak then habit.longestStreak else streak;
    var patched := habit.(currentStreak := streak, longestStreak := newLongestStreak,
                          totalCompletions := habit.totalCompletions + 1, updatedAt := now);
    assert patched == CompletedHabit(habit, streak, now) && patched.id == habit.id;
    assert GetHabit(db.habits, patched.id).Some?;
    db.PatchHabit(patched);
  }

  /** The second half of a check-in: the user's XP, level and completion count. */
  method CreditCheckIn(db: Db, u: User, habit: Habit, streak: int, now: int) returns (c: CheckIn)
    requires db.Valid() && GetUser(db.users, u.id) == Some(u)
    modifies db
    ensures db.Valid()
    ensures db.users == SetUser(old(db.users), CreditedUser(u, habit, streak, now))
    ensures db.habits == old(db.habits) && db.completions == old(db.completions)
    ensures db.achievements == old(db.achievements)
    ensures c == CheckInSummary(Some(u), habit, streak)
  {
    var newXP := u.xp + habit.xpValue;
    var newLevel := CalculateLevel(newXP);
    var bonusXP := StreakBonus(streak);
    var credited := u.(xp := newXP + bonusXP, level := newLevel,
                       totalHabitsCompleted := u.totalHabitsCompleted + 1, updatedAt := now);
    assert credited == CreditedUser(u, habit, streak, now);
    db.PatchUser(credited);
    c := CheckIn(true, habit.xpValue + bonusXP, streak, bonusXP, newLevel > u.level, Some(newLevel));
  }

  /**
   * The daily check-in: rejects an unknown habit and a second completion dated today, then records
   * the completion, advances the habit's counters and credits the habit's user.
   */
  method CompleteHabit(db: Db, habitId: Id, notes: Option<string>, now: int, today: string, yesterday: string)
    returns (r: Result<CheckIn>)
    requires db.Valid()
    modifies db
    ensures db.Valid()
    ensures GetHabit(old(db.habits), habitId).None? ==> r == Err("Habit not found") && unchanged(db)
    ensures GetHabit(old(db.habits), habitId).Some? && CompletionOn(old(db.completions), habitId, today).Some? ==>
      r == Err("Habit already completed today") && unchanged(db)
    ensures GetHabit(old(db.habits), habitId).Some? && CompletionOn(old(db.completions), habitId, today).None? ==>
      var h := GetHabit(old(db.habits), habitId).value;
      var streak := NextStreak(h, old(db.completions), yesterday);
      var user := GetUser(old(db.users), h.userId);
      && db.completions == old(db.completions) +
           [Completion(old(db.nextId), h.userId, habitId, now, today, h.xpValue, streak, notes)]
      && db.habits == SetHabit(old(db.habits), CompletedHabit(h, streak, now))
      && db.users == (if user.Some? then SetUser(old(db.users), CreditedUser(user.value, h, streak, now)) else old(db.users))
      && db.achievements == old(db.achievements)
      && r == Ok(CheckInSummary(user, h, streak))
  {
    var found := GetHabit(db.habits, habitId);
    if found.None? {
      return Err("Habit not found");
    }
    var habit := found.value;
    if CompletionOn(db.completions, habitId, today).Some? {
      return Err("Habit already completed today");
    }
    var newStreak := if CompletionOn(db.completions, habitId, yesterday).Some? then habit.currentStreak + 1 else 1;
    assert newStreak == NextStreak(habit, db.completions, yesterday);
    var summary := ApplyCheckIn(db, habit, newStreak, notes, now, today);
    r := Ok(summary);
  }

  /** A check-in that passed both checks: the completion row and the habit, then the user when there is one. */
  method ApplyCheckIn(db: Db, habit: Habit, streak: int, notes: Option<string>, now: int, today: string)
    returns (c: CheckIn)
    requires db.Valid() && GetHabit(db.habits, habit.id) == Some(habit)
    modifies db
    ensures db.Valid()
    ensures var user := GetUser(old(db.users), habit.userId);
      && db.completions == old(db.completions) +
           [Completion(old(db.nextId), habit.userId, habit.id, now, today, habit.xpValue, streak, notes)]
      && db.habits == SetHabit(old(db.habits), CompletedHabit(habit, streak, now))
      && db.users == (if user.Some? then SetUser(old(db.users), CreditedUser(user.value, habit, streak, now)) else old(db.users))
      && db.achievements == old(db.achievements)
      && c == CheckInSummary(user, habit, streak)
  {
    RecordCompletion(db, habit, streak, notes, now, today);
    var user := GetUser(db.users, habit.userId);
    if user.Some? {
      c := CreditCheckIn(db, user.value, habit, streak, now);
    } else {
      c := CheckIn(true, habit.xpValue, streak, 0, false, None);
    }
  }
}
