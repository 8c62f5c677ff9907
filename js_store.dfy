/**
 * The Convex documents in the shape `convex/schema.ts` declares, which the JavaScript handlers
 * `convex/users.js` and `convex/habits.js` read and write (users keyed by their Kinde id, habits with
 * an `xpReward` and an `isActive` flag), and the `ctx.db` operations those handlers use.
 *
 * Tables are sequences in insertion order; every document id comes from one counter, `nextId`.
 */
module JsStore {
  import opened Wrappers
  import opened Seqs

  type Id = nat

  datatype Preferences = Preferences(theme: string, notifications: bool, reminderTime: string)

  datatype User = User(
    id: Id, kindeId: string, email: string, name: string, avatar: Option<string>,
    xp: int, level: int, streak: int, longestStreak: int, totalHabitsCompleted: int,
    joinedAt: int, preferences: Preferences)

  /** `frequency`: its `type` (daily, weekly, custom), the weekdays and the custom interval. */
  datatype Frequency = Frequency(kind: string, days: Option<seq<int>>, interval: Option<int>)

  datatype Habit = Habit(
    id: Id, userId: Id, title: string, description: Option<string>, category: string, priority: string,
    color: string, icon: string, frequency: Frequency, xpReward: int, targetCount: int,
    isActive: bool, createdAt: int, updatedAt: int)

  datatype Completion = Completion(
    id: Id, userId: Id, habitId: Id, completedAt: int, xpEarned: int, notes: Option<string>)

  function GetUser(us: seq<User>, id: Id): (r: Option<User>)
    ensures r.Some? ==> r.value in us && r.value.id == id
    ensures r.None? ==> forall u :: u in us ==> u.id != id
  {
    if us == [] then None
    else if us[0].id == id then Some(us[0])
    else
      assert forall u :: u in us ==> u == us[0] || u in us[1..];
      GetUser(us[1..], id)
  }

  /** The `by_kinde_id` index followed by `.first()`. */
  function UserByKindeId(us: seq<User>, kindeId: string): (r: Option<User>)
    ensures r.Some? ==> r.value in us && r.value.kindeId == kindeId
    ensures r.None? ==> forall u :: u in us ==> u.kindeId != kindeId
  {
    if us == [] then None
    else if us[0].kindeId == kindeId then Some(us[0])
    else
      assert forall u :: u in us ==> u == us[0] || u in us[1..];
      UserByKindeId(us[1..], kindeId)
  }

  function GetHabit(hs: seq<Habit>, id: Id): (r: Option<Habit>)
    ensures r.Some? ==> r.value in hs && r.value.id == id
    ensures r.None? ==> forall h :: h in hs ==> h.id != id
  {
    if hs == [] then None
    else if hs[0].id == id then Some(hs[0])
    else
      assert forall h :: h in hs ==> h == hs[0] || h in hs[1..];
      GetHabit(hs[1..], id)
  }

  function SetUser(us: seq<User>, u: User): (r: seq<User>)
    ensures |r| == |us|
    ensures forall i :: 0 <= i < |us| ==> r[i] == if us[i].id == u.id then u else us[i]
  {
    seq(|us|, i requires 0 <= i < |us| => if us[i].id == u.id then u else us[i])
  }

  function SetHabit(hs: seq<Habit>, h: Habit): (r: seq<Habit>)
    ensures |r| == |hs|
    ensures forall i :: 0 <= i < |hs| ==> r[i] == if hs[i].id == h.id then h else hs[i]
  {
    seq(|hs|, i requires 0 <= i < |hs| => if hs[i].id == h.id then h else hs[i])
  }

  /** After a patch, a lookup of the patched id finds the new document, and every other lookup is unchanged. */
  lemma {:induction false} GetSetHabit(hs: seq<Habit>, h: Habit, id: Id)
    ensures GetHabit(SetHabit(hs, h), id) ==
      if id != h.id then GetHabit(hs, id) else if GetHabit(hs, h.id).Some? then Some(h) else None
  {
    if hs != [] {
      assert SetHabit(hs, h)[1..] == SetHabit(hs[1..], h);
      GetSetHabit(hs[1..], h, id);
    }
  }

  lemma {:induction false} GetSetUser(us: seq<User>, u: User, id: Id)
    ensures GetUser(SetUser(us, u), id) ==
      if id != u.id then GetUser(us, id) else if GetUser(us, u.id).Some? then Some(u) else None
  {
    if us != [] {
      assert SetUser(us, u)[1..] == SetUser(us[1..], u);
      GetSetUser(us[1..], u, id);
    }
  }

  /** The database behind `ctx.db`: three tables and the id counter. */
  class Db {
    var users: seq<User>
    var habits: seq<Habit>
    var completions: seq<Completion>
    var nextId: Id

    /** Every id was handed out by the counter, and no id names two different documents of a table. */
    ghost predicate Valid()
      reads this
    {
      && (forall u :: u in users ==> u.id < nextId)
      && (forall h :: h in habits ==> h.id < nextId)
      && (forall c :: c in completions ==> c.id < nextId)
      && (forall u, v :: u in users && v in users && u.id == v.id ==> u == v)
      && (forall h, g :: h in habits && g in habits && h.id == g.id ==> h == g)
      && (forall c, d :: c in completions && d in completions && c.id == d.id ==> c == d)
    }

    constructor ()
      ensures Valid()
      ensures users == [] && habits == [] && completions == [] && nextId == 0
    {
      users, habits, completions, nextId := [], [], [], 0;
    }

    method InsertUser(u: User) returns (id: Id)
      requires Valid()
      modifies this
      ensures Valid()
      ensures id == old(nextId) && nextId == id + 1
      ensures users == old(users) + [u.(id := id)]
      ensures habits == old(habits) && completions == old(completions)
    {
      id := nextId;
      users := users + [u.(id := id)];
      nextId := nextId + 1;
    }

    method InsertHabit(h: Habit) returns (id: Id)
      requires Valid()
      modifies this
      ensures Valid()
      ensures id == old(nextId) && nextId == id + 1
      ensures habits == old(habits) + [h.(id := id)]
      ensures users == old(users) && completions == old(completions)
    {
      id := nextId;
      habits := habits + [h.(id := id)];
      nextId := nextId + 1;
    }

    method InsertCompletion(c: Completion) returns (id: Id)
      requires Valid()
      modifies this
      ensures Valid()
      ensures id == old(nextId) && nextId == id + 1
      ensures completions == old(completions) + [c.(id := id)]
      ensures users == old(users) && habits == old(habits)
    {
      id := nextId;
      completions := completions + [c.(id := id)];
      nextId := nextId + 1;
    }

    /** `ctx.db.patch` with the patched document; Convex refuses a patch of a missing id. */
    method PatchUser(u: User)
      requires Valid() && GetUser(users, u.id).Some?
      modifies this
      ensures Valid()
      ensures users == SetUser(old(users), u)
      ensures habits == old(habits) && completions == old(completions) && nextId == old(nextId)
    {
      users := SetUser(users, u);
      forall v | v in users
        ensures v.id < nextId && (v.id == u.id ==> v == u)
      {
        var i :| 0 <= i < |users| && users[i] == v;
      }
    }

    method PatchHabit(h: Habit)
      requires Valid() && GetHabit(habits, h.id).Some?
      modifies this
      ensures Valid()
      ensures habits == SetHabit(old(habits), h)
      ensures users == old(users) && completions == old(completions) && nextId == old(nextId)
    {
      habits := SetHabit(habits, h);
      forall g | g in habits
        ensures g.id < nextId && (g.id == h.id ==> g == h)
      {
        var i :| 0 <= i < |habits| && habits[i] == g;
      }
    }
  }
}
