/**
 * The Convex documents that the TypeScript handlers of the Convex backend (the `.ts` files) read and write, and the
 * `ctx.db` interface they use: `get`, the index queries, `insert`, `patch` and `delete`.
 *
 * Tables are sequences in insertion order, which is the order an index scan with equal keys and
 * a full `.collect()` return.  Every document id comes from one counter, `nextId`.
 */
module ConvexStore {
  import opened Wrappers
  import opened Seqs

  /** A document id (`Id<"users">`, `Id<"habits">`, ...). */
  type Id = nat

  /** A row of `users`, in the shape `convex/users.ts` writes. */
  datatype User = User(
    id: Id, userId: string, email: string, name: string, avatar: Option<string>,
    xp: int, level: int, currentStreak: int, longestStreak: int, totalHabitsCompleted: int,
    lastCheckIn: Option<int>, createdAt: int, updatedAt: int)

  /** A row of `habits`, in the shape `convex/habits.ts` writes. */
  datatype Habit = Habit(
    id: Id, userId: Id, name: string, description: Option<string>, category: string,
    frequency: string, weekDays: Option<seq<int>>, targetGoal: int, timeOfDay: string,
    reminderEnabled: bool, reminderTime: Option<string>, difficulty: string, xpValue: int,
    icon: string, color: string, currentStreak: int, longestStreak: int, totalCompletions: int,
    isPaused: bool, isActive: bool, createdAt: int, updatedAt: int)

  /** A row of `completions`: one check-in of one habit. */
  datatype Completion = Completion(
    id: Id, userId: Id, habitId: Id, completedAt: int, dateString: string,
    xpEarned: int, streakDay: int, notes: Option<string>)

  /** A row of `achievements`: one unlocked catalog entry, whose catalog id is stored as its `type`. */
  datatype Unlock = Unlock(
    id: Id, userId: Id, kind: string, title: string, description: string, icon: string,
    xpReward: int, unlockedAt: int)

  // ---- lookups: `ctx.db.get(id)` and `.withIndex(...).first()`

  function GetUser(us: seq<User>, id: Id): (r: Option<User>)
    ensures r.Some? ==> r.value in us && r.value.id == id
    ensures r.None? ==> forall u :: u in us ==> u.id != id
  {
    if us == [] then None
    else if us[0].id == id then Some(us[0])
    else
      assert forall u :: u in us ==> u == us[0] || u in us[1..];
      GetUser(us[1..], id)
  }

  /** The `by_user_id` index: the first user whose external (Clerk) id is `userId`. */
  function UserByUserId(us: seq<User>, userId: string): (r: Option<User>)
    ensures r.Some? ==> r.value in us && r.value.userId == userId
    ensures r.None? ==> forall u :: u in us ==> u.userId != userId
  {
    if us == [] then None
    else if us[0].userId == userId then Some(us[0])
    else
      assert forall u :: u in us ==> u == us[0] || u in us[1..];
      UserByUserId(us[1..], userId)
  }

  function GetHabit(hs: seq<Habit>, id: Id): (r: Option<Habit>)
    ensures r.Some? ==> r.value in hs && r.value.id == id
    ensures r.None? ==> forall h :: h in hs ==> h.id != id
  {
    if hs == [] then None
    else if hs[0].id == id then Some(hs[0])
    else
      assert forall h :: h in hs ==> h == hs[0] || h in hs[1..];
      GetHabit(hs[1..], id)
  }

  /** The `by_habit_and_date` index: the first completion of `habitId` whose date string is `date`. */
  function CompletionOn(cs: seq<Completion>, habitId: Id, date: string): (r: Option<Completion>)
    ensures r.Some? ==> r.value in cs && r.value.habitId == habitId && r.value.dateString == date
    ensures r.None? ==> forall c :: c in cs ==> !(c.habitId == habitId && c.dateString == date)
  {
    if cs == [] then None
    else if cs[0].habitId == habitId && cs[0].dateString == date then Some(cs[0])
    else
      assert forall c :: c in cs ==> c == cs[0] || c in cs[1..];
      CompletionOn(cs[1..], habitId, date)
  }

  // ---- the predicates that the index queries filter on

  predicate HabitOwnedBy(uid: Id, h: Habit) { h.userId == uid }

  predicate CompletionOfHabit(habitId: Id, c: Completion) { c.habitId == habitId }

  predicate CompletionOwnedBy(uid: Id, c: Completion) { c.userId == uid }

  predicate UnlockOwnedBy(uid: Id, a: Unlock) { a.userId == uid }

  predicate CompletionIdIsNot(id: Id, c: Completion) { c.id != id }

  predicate HabitIdIsNot(id: Id, h: Habit) { h.id != id }

  // ---- whole-document replacement, the effect of `ctx.db.patch` once the patch is applied

  function SetUser(us: seq<User>, u: User): (r: seq<User>)
    ensures |r| == |us|
    ensures forall i :: 0 <= i < |us| ==> r[i] == if us[i].id == u.id then u else us[i]
  {
    seq(|us|, i requires 0 <= i < |us| => if us[i].id == u.id then u else us[i])
  }

  function SetHabit(hs: seq<Habit>, h: Habit): (r: seq<Habit>)
    ensures |r| == |hs|
    ensures forall i :: 0 <= i < |hs| ==> r[i] == if hs[i].id == h.id then h else hs[i]
  {
    seq(|hs|, i requires 0 <= i < |hs| => if hs[i].id == h.id then h else hs[i])
  }

  /** After a patch, a lookup of the patched id finds the new document, and every other lookup is unchanged. */
  lemma {:induction false} GetSetUser(us: seq<User>, u: User, id: Id)
    ensures GetUser(SetUser(us, u), id) ==
      if id != u.id then GetUser(us, id) else if GetUser(us, u.id).Some? then Some(u) else None
  {
    if us != [] {
      assert SetUser(us, u)[1..] == SetUser(us[1..], u);
      GetSetUser(us[1..], u, id);
    }
  }

  lemma {:induction false} GetSetHabit(hs: seq<Habit>, h: Habit, id: Id)
    ensures GetHabit(SetHabit(hs, h), id) ==
      if id != h.id then GetHabit(hs, id) else if GetHabit(hs, h.id).Some? then Some(h) else None
  {
    if hs != [] {
      assert SetHabit(hs, h)[1..] == SetHabit(hs[1..], h);
      GetSetHabit(hs[1..], h, id);
    }
  }

  /** A second patch of the same document overrides the first. */
  lemma SetUserTwice(us: seq<User>, u: User, v: User)
    requires u.id == v.id
    ensures SetUser(SetUser(us, u), v) == SetUser(us, v)
  {
  }

  /**
   * A patch that keeps the patched user's external id leaves the `by_user_id` index on the same
   * document, which now reads as the patched one.
   */
  lemma {:induction false} UserByUserIdSet(us: seq<User>, u: User, key: string)
    requires forall v :: v in us && v.id == u.id ==> v.userId == u.userId
    ensures UserByUserId(SetUser(us, u), key) ==
      match UserByUserId(us, key)
      case None => None
      case Some(v) => Some(if v.id == u.id then u else v)
  {
    if us != [] {
      assert SetUser(us, u)[1..] == SetUser(us[1..], u);
      assert forall v :: v in us[1..] ==> v in us;
      UserByUserIdSet(us[1..], u, key);
    }
  }

  /** An inserted user is found by its external id unless an older document already has that id. */
  lemma {:induction false} UserByUserIdAppend(us: seq<User>, v: User, key: string)
    ensures UserByUserId(us + [v], key) ==
      if UserByUserId(us, key).Some? then UserByUserId(us, key)
      else if v.userId == key then Some(v) else None
  {
    if us != [] {
      assert (us + [v])[1..] == us[1..] + [v];
      UserByUserIdAppend(us[1..], v, key);
    } else {
      assert us + [v] == [v];
    }
  }

  /** The database behind `ctx.db`: four tables and the id counter. */
  class Db {
    var users: seq<User>
    var habits: seq<Habit>
    var completions: seq<Completion>
    var achievements: seq<Unlock>
    var nextId: Id

    /** Every id was handed out by the counter, and no id names two different documents of a table. */
    ghost predicate Valid()
      reads this
    {
      && (forall u :: u in users ==> u.id < nextId)
      && (forall h :: h in habits ==> h.id < nextId)
      && (forall c :: c in completions ==> c.id < nextId)
      && (forall a :: a in achievements ==> a.id < nextId)
      && (forall u, v :: u in users && v in users && u.id == v.id ==> u == v)
      && (forall h, g :: h in habits && g in habits && h.id == g.id ==> h == g)
      && (forall c, d :: c in completions && d in completions && c.id == d.id ==> c == d)
      && (forall a, b :: a in achievements && b in achievements && a.id == b.id ==> a == b)
    }

    constructor ()
      ensures Valid()
      ensures users == [] && habits == [] && completions == [] && achievements == [] && nextId == 0
    {
      users, habits, completions, achievements, nextId := [], [], [], [], 0;
    }

    /** `ctx.db.insert("users", u)`: stores `u` under a fresh id and returns it. */
    method InsertUser(u: User) returns (id: Id)
      requires Valid()
      modifies this
      ensures Valid()
      ensures id == old(nextId) && nextId == id + 1
      ensures users == old(users) + [u.(id := id)]
      ensures habits == old(habits) && completions == old(completions) && achievements == old(achievements)
    {
      id := nextId;
      users := users + [u.(id := id)];
      nextId := nextId + 1;
    }

    method InsertHabit(h: Habit) returns (id: Id)
      requires Valid()
      modifies this
      ensures Valid()
      ensures id == old(nextId) && nextId == id + 1
      ensures habits == old(habits) + [h.(id := id)]
      ensures users == old(users) && completions == old(completions) && achievements == old(achievements)
    {
      id := nextId;
      habits := habits + [h.(id := id)];
      nextId := nextId + 1;
    }

    method InsertCompletion(c: Completion) returns (id: Id)
      requires Valid()
      modifies this
      ensures Valid()
      ensures id == old(nextId) && nextId == id + 1
      ensures completions == old(completions) + [c.(id := id)]
      ensures users == old(users) && habits == old(habits) && achievements == old(achievements)
    {
      id := nextId;
      completions := completions + [c.(id := id)];
      nextId := nextId + 1;
    }

    method InsertUnlock(a: Unlock) returns (id: Id)
      requires Valid()
      modifies this
      ensures Valid()
      ensures id == old(nextId) && nextId == id + 1
      ensures achievements == old(achievements) + [a.(id := id)]
      ensures users == old(users) && habits == old(habits) && completions == old(completions)
    {
      id := nextId;
      achievements := achievements + [a.(id := id)];
      nextId := nextId + 1;
    }

    /** `ctx.db.patch(u.id, ...)` with the patched document `u`; Convex refuses a patch of a missing id. */
    method PatchUser(u: User)
      requires Valid() && GetUser(users, u.id).Some?
      modifies this
      ensures Valid()
      ensures users == SetUser(old(users), u)
      ensures habits == old(habits) && completions == old(completions) && achievements == old(achievements)
      ensures nextId == old(nextId)
    {
      users := SetUser(users, u);
      forall v | v in users
        ensures v.id < nextId && (v.id == u.id ==> v == u)
      {
        var i :| 0 <= i < |users| && users[i] == v;
      }
    }

    method PatchHabit(h: Habit)
      requires Valid() && GetHabit(habits, h.id).Some?
      modifies this
      ensures Valid()
      ensures habits == SetHabit(old(habits), h)
      ensures users == old(users) && completions == old(completions) && achievements == old(achievements)
      ensures nextId == old(nextId)
    {
      habits := SetHabit(habits, h);
      forall g | g in habits
        ensures g.id < nextId && (g.id == h.id ==> g == h)
      {
        var i :| 0 <= i < |habits| && habits[i] == g;
      }
    }

    /** `ctx.db.delete(id)` on the completions table. */
    method DeleteCompletion(id: Id)
      requires Valid()
      modifies this
      ensures Valid()
      ensures completions == FilterWith(old(completions), CompletionIdIsNot, id)
      ensures users == old(users) && habits == old(habits) && achievements == old(achievements)
      ensures nextId == old(nextId)
    {
      completions := FilterWith(completions, CompletionIdIsNot, id);
    }

    method DeleteHabit(id: Id)
      requires Valid()
      modifies this
      ensures Valid()
      ensures habits == FilterWith(old(habits), HabitIdIsNot, id)
      ensures users == old(users) && completions == old(completions) && achievements == old(achievements)
      ensures nextId == old(nextId)
    {
      habits := FilterWith(habits, HabitIdIsNot, id);
    }
  }
}
