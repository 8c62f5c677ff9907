/**
 * `convex/habits.js`: the active-habit query, habit creation, the once-a-day completion, the
 * partial update and the soft delete, over the `convex/schema.ts` documents.
 *
 * `Date.now()` is the parameter `now` (one value for both timestamps of `createHabit`), and the
 * local midnight that `setHours(0, 0, 0, 0)` computes is the parameter `todayStart`.
 */
module ConvexHabitsJs {
  import opened Wrappers
  import opened Seqs
  import opened JsStore

  /** The error `ctx.db.patch` raises for an id with no document. */
  const MissingDocument := "no document with this id"

  /** The `by_user` index narrowed by `.filter(isActive == true)`. */
  predicate ActiveOf(uid: Id, h: Habit) { h.userId == uid && h.isActive }

  /** `getUserHabits`: the user's habits that are not deleted, in table order. */
  function GetUserHabits(habits: seq<Habit>, uid: Id): (r: seq<Habit>)
    ensures forall h :: h in r <==> h in habits && h.userId == uid && h.isActive
    ensures |r| <= |habits|
  {
    FilterWith(habits, ActiveOf, uid)
  }

  // ---- createHabit

  /** The arguments of `createHabit`, which are stored as given. */
  datatype HabitArgs = HabitArgs(
    userId: Id, title: string, description: Option<string>, category: string, priority: string,
    color: string, icon: string, frequency: Frequency, xpReward: int, targetCount: int)

  /** `{ ...args, isActive: true, createdAt: now, updatedAt: now }`. */
  function NewHabit(args: HabitArgs, now: int): (h: Habit)
    ensures h.isActive && h.createdAt == now && h.updatedAt == now
    ensures h.userId == args.userId && h.title == args.title && h.description == args.description
    ensures h.category == args.category && h.priority == args.priority && h.color == args.color
    ensures h.icon == args.icon && h.frequency == args.frequency && h.xpReward == args.xpReward
    ensures h.targetCount == args.targetCount
  {
    Habit(0, args.userId, args.title, args.description, args.category, args.priority, args.color, args.icon,
          args.frequency, args.xpReward, args.targetCount, true, now, now)
  }

  /** `createHabit`: inserts the habit; the owner is not looked up. */
  method CreateHabit(db: Db, args: HabitArgs, now: int) returns (id: Id)
    requires db.Valid()
    modifies db
    ensures db.Valid()
    ensures id == old(db.nextId)
    ensures db.habits == old(db.habits) + [NewHabit(args, now).(id := id)]
    ensures db.users == old(db.users) && db.completions == old(db.completions)
  {
    id := db.InsertHabit(NewHabit(args, now));
  }

  /** A created habit is listed among its owner's habits. */
  lemma CreatedIsListed(habits: seq<Habit>, args: HabitArgs, now: int, id: Id)
    ensures NewHabit(args, now).(id := id) in GetUserHabits(habits + [NewHabit(args, now).(id := id)], args.userId)
  {
    var h := NewHabit(args, now).(id := id);
    assert h in habits + [h];
  }

  // ---- completeHabit

  /** The `by_user_and_habit` index narrowed by `completedAt >= todayStart`. */
  predicate SameDayOf(key: (Id, Id, int), c: Completion) {
    c.userId == key.0 && c.habitId == key.1 && c.completedAt >= key.2
  }

  /** `.first()` of that query. */
  function CompletedSince(cs: seq<Completion>, uid: Id, habitId: Id, todayStart: int): (r: Option<Completion>)
    ensures r.Some? ==> r.value in cs && SameDayOf((uid, habitId, todayStart), r.value)
    ensures r.None? <==> forall c :: c in cs ==> !SameDayOf((uid, habitId, todayStart), c)
  {
    var found := FilterWith(cs, SameDayOf, (uid, habitId, todayStart));
    if found == [] then None else
      assert found[0] in found;
      Some(found[0])
  }

  /**
   * `completeHabit`: an unknown habit and a second completion since `todayStart` (by this user, of
   * this habit) are errors with nothing written; otherwise exactly one completion worth the habit's
   * `xpReward` is inserted and that reward returned. The habit's owner and its `isActive` flag are
   * not checked, and no habit or user field changes.
   */
  method CompleteHabit(db: Db, uid: Id, habitId: Id, notes: Option<string>, now: int, todayStart: int)
    returns (r: Result<int>)
    requires db.Valid()
    modifies db
    ensures db.Valid()
    ensures GetHabit(old(db.habits), habitId).None? ==> r == Err("Habit not found") && unchanged(db)
    ensures GetHabit(old(db.habits), habitId).Some? && CompletedSince(old(db.completions), uid, habitId, todayStart).Some? ==>
      r == Err("Habit already completed today") && unchanged(db)
    ensures r.Ok? <==>
      GetHabit(old(db.habits), habitId).Some? && CompletedSince(old(db.completions), uid, habitId, todayStart).None?
    ensures r.Ok? ==>
      var reward := GetHabit(old(db.habits), habitId).value.xpReward;
      && r.value == reward
      && db.completions == old(db.completions) + [Completion(old(db.nextId), uid, habitId, now, reward, notes)]
      && db.users == old(db.users) && db.habits == old(db.habits)
  {
    var habit := GetHabit(db.habits, habitId);
    if habit.None? {
      return Err("Habit not found");
    }
    var existing := CompletedSince(db.completions, uid, habitId, todayStart);
    if existing.Some? {
      return Err("Habit already completed today");
    }
    var _ := db.InsertCompletion(Completion(0, uid, habitId, now, habit.value.xpReward, notes));
    r := Ok(habit.value.xpReward);
  }

  /** Once a completion at `now >= todayStart` is stored, every later attempt on the same day is refused. */
  lemma CompletedTodayBlocks(cs: seq<Completion>, c: Completion, todayStart: int)
    requires c.completedAt >= todayStart
    ensures CompletedSince(cs + [c], c.userId, c.habitId, todayStart).Some?
  {
    assert c in cs + [c];
  }

  // ---- updateHabit

  /** `updates`: each field is either absent or the new value. */
  datatype HabitPatch = HabitPatch(
    title: Option<string>, description: Option<string>, category: Option<string>, priority: Option<string>,
    color: Option<string>, icon: Option<string>, xpReward: Option<int>, targetCount: Option<int>)

  function Pick<T>(update: Option<T>, current: T): T {
    if update.Some? then update.value else current
  }

  /** `{ ...updates, updatedAt: now }` applied to `h`. */
  function Patched(h: Habit, u: HabitPatch, now: int): (r: Habit)
    ensures r.title == Pick(u.title, h.title) && r.category == Pick(u.category, h.category)
    ensures r.description == (if u.description.Some? then u.description else h.description)
    ensures r.priority == Pick(u.priority, h.priority) && r.color == Pick(u.color, h.color)
    ensures r.icon == Pick(u.icon, h.icon) && r.xpReward == Pick(u.xpReward, h.xpReward)
    ensures r.targetCount == Pick(u.targetCount, h.targetCount) && r.updatedAt == now
    ensures r.id == h.id && r.userId == h.userId && r.frequency == h.frequency
    ensures r.isActive == h.isActive && r.createdAt == h.createdAt
  {
    h.(title := Pick(u.title, h.title),
       description := if u.description.Some? then u.description else h.description,
       category := Pick(u.category, h.category), priority := Pick(u.priority, h.priority),
       color := Pick(u.color, h.color), icon := Pick(u.icon, h.icon),
       xpReward := Pick(u.xpReward, h.xpReward), targetCount := Pick(u.targetCount, h.targetCount),
       updatedAt := now)
  }

  /** An update with no fields only moves `updatedAt`. */
  lemma EmptyPatchOnlyTouchesTime(h: Habit, now: int)
    ensures Patched(h, HabitPatch(None, None, None, None, None, None, None, None), now) == h.(updatedAt := now)
  {
  }

  /** Applying the same update twice is applying it once. */
  lemma PatchIdempotent(h: Habit, u: HabitPatch, now: int)
    ensures Patched(Patched(h, u, now), u, now) == Patched(h, u, now)
  {
  }

  method UpdateHabit(db: Db, habitId: Id, u: HabitPatch, now: int) returns (r: Result<()>)
    requires db.Valid()
    modifies db
    ensures db.Valid()
    ensures GetHabit(old(db.habits), habitId).None? ==> r == Err(MissingDocument) && unchanged(db)
    ensures GetHabit(old(db.habits), habitId).Some? ==>
      && r == Ok(())
      && db.habits == SetHabit(old(db.habits), Patched(GetHabit(old(db.habits), habitId).value, u, now))
      && db.users == old(db.users) && db.completions == old(db.completions) && db.nextId == old(db.nextId)
  {
    var h := GetHabit(db.habits, habitId);
    if h.None? {
      return Err(MissingDocument);
    }
    db.PatchHabit(Patched(h.value, u, now));
    r := Ok(());
  }

  // ---- deleteHabit

  /** `deleteHabit`: a soft delete that clears `isActive`; the habit and its completions stay stored. */
  method DeleteHabit(db: Db, habitId: Id, now: int) returns (r: Result<()>)
    requires db.Valid()
    modifies db
    ensures db.Valid()
    ensures GetHabit(old(db.habits), habitId).None? ==> r == Err(MissingDocument) && unchanged(db)
    ensures GetHabit(old(db.habits), habitId).Some? ==>
      var h := GetHabit(old(db.habits), habitId).value;
      && r == Ok(())
      && db.habits == SetHabit(old(db.habits), h.(isActive := false, updatedAt := now))
      && GetHabit(db.habits, habitId) == Some(h.(isActive := false, updatedAt := now))
      && db.users == old(db.users) && db.completions == old(db.completions) && db.nextId == old(db.nextId)
  {
    var h := GetHabit(db.habits, habitId);
    if h.None? {
      return Err(MissingDocument);
    }
    var deleted := h.value.(isActive := false, updatedAt := now);
    db.PatchHabit(deleted);
    GetSetHabit(old(db.habits), deleted, habitId);
    r := Ok(());
  }

  /**
   * After a soft delete the habit no longer appears in `getUserHabits`, the other listed habits are
   * the same, and the table keeps the same number of habits.
   */
  lemma DeletedIsNotListed(habits: seq<Habit>, h: Habit, uid: Id, now: int)
    requires h in habits
    requires forall g :: g in habits && g.id == h.id ==> g == h
    ensures var after := SetHabit(habits, h.(isActive := false, updatedAt := now));
      && |after| == |habits|
      && (forall g :: g in GetUserHabits(after, uid) ==> g.id != h.id)
      && (forall g :: g in GetUserHabits(habits, uid) && g.id != h.id ==> g in GetUserHabits(after, uid))
  {
    var after := SetHabit(habits, h.(isActive := false, updatedAt := now));
    forall g | g in GetUserHabits(habits, uid) && g.id != h.id
      ensures g in after
    {
      var i :| 0 <= i < |habits| && habits[i] == g;
      assert after[i] == g;
    }
    forall g | g in after
      ensures g.id == h.id ==> !g.isActive
    {
      var i :| 0 <= i < |after| && after[i] == g;
    }
  }
}
