/**
 * `convex/users.js`: the user lookup by Kinde id, the `createUser` get-or-insert, and
 * `updateUserStats`, which uses the same linear level formula as the Express backend.
 */
module ConvexUsersJs {
  import opened Wrappers
  import opened JsStore
  import RestServer

  /** `getUser`: the first user with this Kinde id, if any. */
  function FindByKindeId(users: seq<User>, kindeId: string): (r: Option<User>)
    ensures r.Some? ==> r.value in users && r.value.kindeId == kindeId
    ensures r.None? <==> forall u :: u in users ==> u.kindeId != kindeId
  {
    UserByKindeId(users, kindeId)
  }

  const DefaultPreferences := Preferences("light", true, "09:00")

  /** The document a first sign-in inserts: the profile arguments and zeroed counters (its id is assigned on insert). */
  function NewUser(kindeId: string, email: string, name: string, avatar: Option<string>, now: int): User {
    User(0, kindeId, email, name, avatar, 0, 1, 0, 0, 0, now, DefaultPreferences)
  }

  /** What `createUser` returns: the stored document of a known user, or the id of the new one. */
  datatype Created = Existing(user: User) | Inserted(id: Id)

  /** A new user starts at level 1 with nothing earned, the light theme, notifications on and a 09:00 reminder. */
  lemma NewUserDefaults(kindeId: string, email: string, name: string, avatar: Option<string>, now: int)
    ensures var u := NewUser(kindeId, email, name, avatar, now);
      && u.xp == 0 && u.level == 1 && u.streak == 0 && u.longestStreak == 0 && u.totalHabitsCompleted == 0
      && u.preferences == Preferences("light", true, "09:00") && u.level == RestServer.LevelFor(u.xp)
      && u.kindeId == kindeId && u.email == email && u.name == name && u.avatar == avatar
  {
  }

  /** `createUser`: a known Kinde id gets its document back and nothing is written; otherwise a new user is inserted. */
  method CreateUser(db: Db, kindeId: string, email: string, name: string, avatar: Option<string>, now: int)
    returns (r: Created)
    requires db.Valid()
    modifies db
    ensures db.Valid()
    ensures UserByKindeId(old(db.users), kindeId).Some? ==>
      r == Existing(UserByKindeId(old(db.users), kindeId).value) && unchanged(db)
    ensures UserByKindeId(old(db.users), kindeId).None? ==>
      && r == Inserted(old(db.nextId))
      && db.users == old(db.users) + [NewUser(kindeId, email, name, avatar, now).(id := old(db.nextId))]
      && db.habits == old(db.habits) && db.completions == old(db.completions)
  {
    var existing := UserByKindeId(db.users, kindeId);
    if existing.Some? {
      return Existing(existing.value);
    }
    var id := db.InsertUser(NewUser(kindeId, email, name, avatar, now));
    r := Inserted(id);
  }

  /** A second `createUser` with the same Kinde id finds the user the first one inserted. */
  lemma {:induction false} CreateUserIdempotent(users: seq<User>, u: User)
    requires UserByKindeId(users, u.kindeId).None?
    ensures UserByKindeId(users + [u], u.kindeId) == Some(u)
  {
    if users != [] {
      assert (users + [u])[1..] == users[1..] + [u];
      CreateUserIdempotent(users[1..], u);
    } else {
      assert users + [u] == [u];
    }
  }

  // ---- updateUserStats

  /** What `updateUserStats` returns. */
  datatype Stats = Stats(newXp: int, newLevel: int, newStreak: int)

  /** The user after `updateUserStats`: `streakUpdate ?? user.streak` as the streak, one more completed habit. */
  function StatsUpdated(u: User, xpGained: int, streakUpdate: Option<int>): (r: User)
    ensures r.xp == u.xp + xpGained && r.level == RestServer.LevelFor(r.xp)
    ensures r.streak == (if streakUpdate.Some? then streakUpdate.value else u.streak)
    ensures r.longestStreak >= u.longestStreak && r.longestStreak >= r.streak
    ensures r.longestStreak == u.longestStreak || r.longestStreak == r.streak
    ensures r.totalHabitsCompleted == u.totalHabitsCompleted + 1
    ensures r.(xp := u.xp, level := u.level, streak := u.streak, longestStreak := u.longestStreak,
               totalHabitsCompleted := u.totalHabitsCompleted) == u
  {
    var xp := u.xp + xpGained;
    var streak := if streakUpdate.Some? then streakUpdate.value else u.streak;
    u.(xp := xp, level := xp / 100 + 1, streak := streak,
       longestStreak := if u.longestStreak > streak then u.longestStreak else streak,
       totalHabitsCompleted := u.totalHabitsCompleted + 1)
  }

  /** The streak stays within the longest streak, and the level stays the one the XP deserves. */
  lemma StatsKeepInvariants(u: User, xpGained: int, streakUpdate: Option<int>)
    requires u.streak <= u.longestStreak
    ensures var r := StatsUpdated(u, xpGained, streakUpdate);
      r.streak <= r.longestStreak && r.level == RestServer.LevelFor(r.xp)
    ensures streakUpdate.None? ==> StatsUpdated(u, xpGained, streakUpdate).longestStreak == u.longestStreak
  {
  }

  /** `updateUserStats`: a missing user is an error before any write; otherwise the user is patched. */
  method UpdateUserStats(db: Db, userId: Id, xpGained: int, streakUpdate: Option<int>) returns (r: Result<Stats>)
    requires db.Valid()
    modifies db
    ensures db.Valid()
    ensures GetUser(old(db.users), userId).None? ==> r == Err("User not found") && unchanged(db)
    ensures GetUser(old(db.users), userId).Some? ==>
      var u := StatsUpdated(GetUser(old(db.users), userId).value, xpGained, streakUpdate);
      && db.users == SetUser(old(db.users), u)
      && GetUser(db.users, userId) == Some(u)
      && r == Ok(Stats(u.xp, u.level, u.streak))
      && db.habits == old(db.habits) && db.completions == old(db.completions) && db.nextId == old(db.nextId)
  {
    var user := GetUser(db.users, userId);
    if user.None? {
      return Err("User not found");
    }
    var u := user.value;
    var newXp := u.xp + xpGained;
    var newLevel := newXp / 100 + 1;
    var newStreak := if streakUpdate.Some? then streakUpdate.value else u.streak;
    var patched := u.(xp := newXp, level := newLevel, streak := newStreak,
                      longestStreak := if u.longestStreak > newStreak then u.longestStreak else newStreak,
                      totalHabitsCompleted := u.totalHabitsCompleted + 1);
    assert patched == StatsUpdated(u, xpGained, streakUpdate);
    db.PatchUser(patched);
    GetSetUser(old(db.users), patched, userId);
    r := Ok(Stats(newXp, newLevel, newStreak));
  }
}
