/**
 * The MongoDB documents of the Express backend (`backend/models/User.js`, `backend/models/Habit.js`)
 * and the Mongoose operations `backend/server.js` uses on them: `findOne`, `find`, `save` of a new
 * or a loaded document.
 *
 * Collections are sequences in insertion order, which is the order `find` returns without a sort.
 * Every document id (`_id`) comes from one counter, `nextId`.  Dates are milliseconds since the epoch.
 */
module RestStore {
  import opened Wrappers

  /** A document id (`_id`, an ObjectId). */
  type Id = nat

  /** A `User` document; the password hash and the unused `lastHabitDate` are not modelled. */
  datatype User = User(id: Id, username: string, xp: int, level: int, streak: int)

  /** A `Habit` document; `completions` holds the `date` of each completion entry, in push order. */
  datatype Habit = Habit(
    id: Id, user: Id, title: string, description: string, recurrenceHours: int, xpPerCompletion: int,
    createdAt: int, completions: seq<int>, streak: int, lastCompletionDate: Option<int>)

  function FindUser(us: seq<User>, id: Id): (r: Option<User>)
    ensures r.Some? ==> r.value in us && r.value.id == id
    ensures r.None? ==> forall u :: u in us ==> u.id != id
  {
    if us == [] then None
    else if us[0].id == id then Some(us[0])
    else
      assert forall u :: u in us ==> u == us[0] || u in us[1..];
      FindUser(us[1..], id)
  }

  function FindHabit(hs: seq<Habit>, id: Id): (r: Option<Habit>)
    ensures r.Some? ==> r.value in hs && r.value.id == id
    ensures r.None? ==> forall h :: h in hs ==> h.id != id
  {
    if hs == [] then None
    else if hs[0].id == id then Some(hs[0])
    else
      assert forall h :: h in hs ==> h == hs[0] || h in hs[1..];
      FindHabit(hs[1..], id)
  }

  /** `Habit.findOne({ _id: id, user: uid })`: the first habit with that id that belongs to `uid`. */
  function FindOwnedHabit(hs: seq<Habit>, id: Id, uid: Id): (r: Option<Habit>)
    ensures r.Some? ==> r.value in hs && r.value.id == id && r.value.user == uid
    ensures r.None? ==> forall h :: h in hs ==> !(h.id == id && h.user == uid)
  {
    if hs == [] then None
    else if hs[0].id == id && hs[0].user == uid then Some(hs[0])
    else
      assert forall h :: h in hs ==> h == hs[0] || h in hs[1..];
      FindOwnedHabit(hs[1..], id, uid)
  }

  /** The filter of `Habit.find({ user: uid })`. */
  predicate OwnedBy(uid: Id, h: Habit) { h.user == uid }

  /** `doc.save()` of a loaded document: the stored document with that id is replaced. */
  function SetUser(us: seq<User>, u: User): (r: seq<User>)
    ensures |r| == |us|
    ensures forall i :: 0 <= i < |us| ==> r[i] == if us[i].id == u.id then u else us[i]
  {
    seq(|us|, i requires 0 <= i < |us| => if us[i].id == u.id then u else us[i])
  }

  function SetHabit(hs: seq<Habit>, h: Habit): (r: seq<Habit>)
    ensures |r| == |hs|
    ensures forall i :: 0 <= i < |hs| ==> r[i] == if hs[i].id == h.id then h else hs[i]
  {
    seq(|hs|, i requires 0 <= i < |hs| => if hs[i].id == h.id then h else hs[i])
  }

  /** The two collections and the id counter. */
  class Mongo {
    var users: seq<User>
    var habits: seq<Habit>
    var nextId: Id

    /**
     * Every id was handed out by the counter, no id names two documents of a collection, and every
     * stored habit passed the schema's `min: 1` check on `recurrenceHours`.
     */
    ghost predicate Valid()
      reads this
    {
      && (forall u :: u in users ==> u.id < nextId)
      && (forall h :: h in habits ==> h.id < nextId && h.recurrenceHours >= 1)
      && (forall u, v :: u in users && v in users && u.id == v.id ==> u == v)
      && (forall h, g :: h in habits && g in habits && h.id == g.id ==> h == g)
    }

    constructor ()
      ensures Valid()
      ensures users == [] && habits == [] && nextId == 0
    {
      users, habits, nextId := [], [], 0;
    }

    /** `new Habit(...).save()`: stores `h` under a fresh id. */
    method InsertHabit(h: Habit) returns (id: Id)
      requires Valid() && h.recurrenceHours >= 1
      modifies this
      ensures Valid()
      ensures id == old(nextId) && nextId == id + 1
      ensures habits == old(habits) + [h.(id := id)]
      ensures users == old(users)
    {
      id := nextId;
      habits := habits + [h.(id := id)];
      nextId := nextId + 1;
    }

    /** `habit.save()` of a loaded habit. */
    method SaveHabit(h: Habit)
      requires Valid() && FindHabit(habits, h.id).Some? && h.recurrenceHours >= 1
      modifies this
      ensures Valid()
      ensures habits == SetHabit(old(habits), h)
      ensures users == old(users) && nextId == old(nextId)
    {
      habits := SetHabit(habits, h);
      forall g | g in habits
        ensures g.id < nextId && g.recurrenceHours >= 1 && (g.id == h.id ==> g == h)
      {
        var i :| 0 <= i < |habits| && habits[i] == g;
      }
    }

    /** `user.save()` of a loaded user. */
    method SaveUser(u: User)
      requires Valid() && FindUser(users, u.id).Some?
      modifies this
      ensures Valid()
      ensures users == SetUser(old(users), u)
      ensures habits == old(habits) && nextId == old(nextId)
    {
      users := SetUser(users, u);
      forall v | v in users
        ensures v.id < nextId && (v.id == u.id ==> v == u)
      {
        var i :| 0 <= i < |users| && users[i] == v;
      }
    }
  }
}
