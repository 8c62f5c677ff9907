/**
 * The user handlers of `convex/users.ts`: the sign-in upsert, the dashboard statistics with their
 * level progress, and the three updaters for XP, streaks and the completion counter.  The clock
 * (`Date.now()`) is the parameter `now`.
 */
module ConvexUsers {
  import opened Wrappers
  import opened ConvexStore
  import ConvexHabits

  // ---- levels

  /** The copy of the level table that `convex/users.ts` keeps for itself. */
  function CalculateLevel(xp: int): (level: int)
    ensures 1 <= level <= 10
  {
    if xp < 100 then 1
    else if xp < 250 then 2
    else if xp < 500 then 3
    else if xp < 1000 then 4
    else if xp < 2000 then 5
    else if xp < 4000 then 6
    else if xp < 8000 then 7
    else if xp < 16000 then 8
    else if xp < 32000 then 9
    else 10
  }

  /** Both copies of the level table give every XP amount the same level. */
  lemma LevelTablesAgree(xp: int)
    ensures CalculateLevel(xp) == ConvexHabits.CalculateLevel(xp)
  {
  }

  lemma CalculateLevelMonotone(a: int, b: int)
    requires a <= b
    ensures CalculateLevel(a) <= CalculateLevel(b)
  {
    LevelTablesAgree(a);
    LevelTablesAgree(b);
    ConvexHabits.CalculateLevelMonotone(a, b);
  }

  /** The table behind `calculateXPForLevel`. */
  const XpThresholds: seq<int> := [0, 100, 250, 500, 1000, 2000, 4000, 8000, 16000, 32000, 64000]

  /**
   * `calculateXPForLevel(level)`: the table entry at `min(level, 10)`.  A negative level reads
   * before the table and yields `undefined`, which is `None` here.
   */
  function CalculateXPForLevel(level: int): (r: Option<int>)
    ensures r.None? <==> level < 0
    ensures r.Some? ==> 0 <= r.value <= 64000
  {
    if level < 0 then None else Some(XpThresholds[if level < 10 then level else 10])
  }

  /**
   * For the levels 1 to 9 the table entry is the XP at which the NEXT level begins: the least
   * amount whose level exceeds `level`.  From level 10 on it is 64000.
   */
  lemma XPForLevelStartsNextLevel(level: int, xp: int)
    requires 1 <= level
    ensures level <= 9 ==>
      && CalculateLevel(CalculateXPForLevel(level).value) == level + 1
      && (CalculateLevel(xp) > level <==> xp >= CalculateXPForLevel(level).value)
    ensures level >= 10 ==> CalculateXPForLevel(level) == Some(64000)
  {
  }

  // ---- getUserStats

  /** `Math.min(100, Math.max(0, p))` on a number that is not NaN. */
  function Clamp(p: real): (c: real)
    ensures 0.0 <= c <= 100.0
    ensures 0.0 <= p <= 100.0 ==> c == p
  {
    if p < 0.0 then 0.0 else if p > 100.0 then 100.0 else p
  }

  /**
   * The completed share of the span from `lo` to `hi`, in percent and clamped, computed as JavaScript
   * numbers: a missing bound makes the arithmetic NaN (`None`), and an empty span divides by zero,
   * which makes the ratio plus or minus infinity (clamped to 100 or 0), or NaN when `xp == lo`.
   */
  function Progress(xp: int, lo: Option<int>, hi: Option<int>): (p: Option<real>)
    ensures p.Some? ==> 0.0 <= p.value <= 100.0
    ensures p.None? <==> lo.None? || hi.None? || (lo.value == hi.value && xp == lo.value)
  {
    if lo.None? || hi.None? then None
    else if lo.value == hi.value then
      (if xp > lo.value then Some(100.0) else if xp < lo.value then Some(0.0) else None)
    else Some(Clamp((xp - lo.value) as real / (hi.value - lo.value) as real * 100.0))
  }

  /** `levelProgress` as `getUserStats` computes it, from `calculateXPForLevel(level)` to `calculateXPForLevel(level + 1)`. */
  function LevelProgressAsWritten(xp: int, level: int): (p: Option<real>)
    ensures p.Some? ==> 0.0 <= p.value <= 100.0
    ensures p.None? <==> level < 0 || (level >= 10 && xp == 64000)
  {
    Progress(xp, CalculateXPForLevel(level), CalculateXPForLevel(level + 1))
  }

  /**
   * The span measured above is the NEXT level's: a user whose stored level matches their XP and is
   * below 10 is always shown 0 percent, however far into the level they are.
   */
  lemma ProgressIsAlwaysZeroAsWritten(xp: int)
    requires xp < 32000
    ensures LevelProgressAsWritten(xp, CalculateLevel(xp)) == Some(0.0)
  {
    var level := CalculateLevel(xp);
    var lo := CalculateXPForLevel(level).value;
    var hi := CalculateXPForLevel(level + 1).value;
    assert xp < lo < hi;
    assert (xp - lo) as real / (hi - lo) as real < 0.0;
  }

  /** At level 10 both bounds are 64000: 64000 XP divides zero by zero. */
  lemma ProgressIsNaNAtTopAsWritten()
    ensures CalculateLevel(64000) == 10
    ensures LevelProgressAsWritten(64000, CalculateLevel(64000)).None?
  {
  }

  /** The XP at which `level` begins: 0 for level 1, and the threshold of every later level. */
  function LevelStartXp(level: int): (r: Option<int>)
    ensures r.None? <==> level < 1
  {
    CalculateXPForLevel(level - 1)
  }

  /** Every level from 1 to 10 begins exactly at its start XP (level 1 also takes in every negative amount). */
  lemma LevelStartsAtStartXp(level: int, xp: int)
    requires 1 <= level <= 10
    ensures CalculateLevel(LevelStartXp(level).value) == level
    ensures level >= 2 ==> (CalculateLevel(xp) >= level <==> xp >= LevelStartXp(level).value)
  {
  }

  /** The progress through the current level: from the XP it begins at to the XP the next begins at. */
  function LevelProgress(xp: int, level: int): (p: Option<real>)
    ensures p.Some? ==> 0.0 <= p.value <= 100.0
  {
    Progress(xp, LevelStartXp(level), LevelStartXp(level + 1))
  }

  /**
   * For a user whose level matches their XP, the corrected progress is defined, needs no clamp, and
   * stays below 100 until 64000 XP.
   */
  lemma LevelProgressWithinLevel(xp: int)
    requires 0 <= xp < 64000
    ensures var level := CalculateLevel(xp);
      var lo := LevelStartXp(level).value;
      var hi := LevelStartXp(level + 1).value;
      && lo <= xp < hi
      && LevelProgress(xp, level) == Some((xp - lo) as real / (hi - lo) as real * 100.0)
      && 0.0 <= LevelProgress(xp, level).value < 100.0
  {
    var level := CalculateLevel(xp);
    var lo := LevelStartXp(level).value;
    var hi := LevelStartXp(level + 1).value;
    assert lo <= xp < hi;
    var q := (xp - lo) as real / (hi - lo) as real;
    assert 0.0 <= q < 1.0 by {
      assert (xp - lo) as real < (hi - lo) as real;
    }
  }

  /** What `getUserStats` adds to the user document. */
  datatype UserStats = UserStats(user: User, xpForNextLevel: Option<int>, xpForCurrentLevel: Option<int>,
                                 levelProgress: Option<real>)

  /**
   * `getUserStats`: `None` for an unknown external id; otherwise the user with the bounds
   * `calculateXPForLevel(level + 1)` and `calculateXPForLevel(level)` and the clamped share between
   * them, exactly as the handler computes them (see `ProgressIsAlwaysZeroAsWritten`).
   */
  function GetUserStats(users: seq<User>, userId: string): (r: Option<UserStats>)
    ensures r.None? <==> UserByUserId(users, userId).None?
    ensures r.Some? ==>
      var u := UserByUserId(users, userId).value;
      && r.value.user == u
      && r.value.xpForNextLevel == CalculateXPForLevel(u.level + 1)
      && r.value.xpForCurrentLevel == CalculateXPForLevel(u.level)
      && r.value.levelProgress == LevelProgressAsWritten(u.xp, u.level)
      && (r.value.levelProgress.Some? ==> 0.0 <= r.value.levelProgress.value <= 100.0)
  {
    match UserByUserId(users, userId)
    case None => None
    case Some(u) =>
      Some(UserStats(u, CalculateXPForLevel(u.level + 1), CalculateXPForLevel(u.level),
                     LevelProgressAsWritten(u.xp, u.level)))
  }

  /**
   * The dashboard as written: a known user whose stored level matches their XP below 32000 is
   * shown 0 percent, and the bound called "current" is where the next level begins.
   */
  lemma StatsShowNoProgressAsWritten(users: seq<User>, userId: string)
    requires UserByUserId(users, userId).Some?
    requires var u := UserByUserId(users, userId).value; LevelMatchesXp(u) && u.xp < 32000
    ensures var r := GetUserStats(users, userId).value;
      && r.levelProgress == Some(0.0)
      && CalculateLevel(r.xpForCurrentLevel.value) == r.user.level + 1
  {
    var u := UserByUserId(users, userId).value;
    ProgressIsAlwaysZeroAsWritten(u.xp);
    XPForLevelStartsNextLevel(u.level, u.xp);
  }

  /**
   * The statistics with the span the handler evidently means: from the XP the user's level begins
   * at to the XP the next one begins at, and the progress through that span.
   */
  function GetUserStatsCorrected(users: seq<User>, userId: string): (r: Option<UserStats>)
    ensures r.None? <==> UserByUserId(users, userId).None?
    ensures r.Some? ==>
      var u := UserByUserId(users, userId).value;
      && r.value.user == u
      && r.value.xpForCurrentLevel == LevelStartXp(u.level)
      && r.value.xpForNextLevel == LevelStartXp(u.level + 1)
      && r.value.levelProgress == LevelProgress(u.xp, u.level)
  {
    match UserByUserId(users, userId)
    case None => None
    case Some(u) =>
      Some(UserStats(u, LevelStartXp(u.level + 1), LevelStartXp(u.level), LevelProgress(u.xp, u.level)))
  }

  /**
   * With the corrected span, a user whose level matches their XP sits inside it, and the progress
   * is their exact share of it, below 100 until 64000 XP.
   */
  lemma CorrectedStatsWithinLevel(users: seq<User>, userId: string)
    requires UserByUserId(users, userId).Some?
    requires var u := UserByUserId(users, userId).value; LevelMatchesXp(u) && 0 <= u.xp < 64000
    ensures var r := GetUserStatsCorrected(users, userId).value;
      var lo := r.xpForCurrentLevel.value;
      var hi := r.xpForNextLevel.value;
      && lo <= r.user.xp < hi
      && r.levelProgress == Some((r.user.xp - lo) as real / (hi - lo) as real * 100.0)
      && r.levelProgress.value < 100.0
  {
    var u := UserByUserId(users, userId).value;
    LevelProgressWithinLevel(u.xp);
  }

  // ---- createUser

  /** The document `createUser` inserts for a first sign-in (its id is assigned on insert). */
  function NewUser(userId: string, email: string, name: string, avatar: Option<string>, now: int): User {
    User(0, userId, email, name, avatar, 0, 1, 0, 0, 0, None, now, now)
  }

  /** The document after a repeated sign-in: the profile fields are overwritten, an absent avatar removes it. */
  function Resynced(u: User, email: string, name: string, avatar: Option<string>, now: int): User {
    u.(email := email, name := name, avatar := avatar, updatedAt := now)
  }

  /** The level a user document stores is the one its XP deserves. */
  predicate LevelMatchesXp(u: User) {
    u.level == CalculateLevel(u.xp)
  }

  /** The current streak is a count within the longest one. */
  predicate StreakWithinLongest(u: User) {
    0 <= u.currentStreak <= u.longestStreak
  }

  /** A new user starts from nothing and satisfies both document invariants. */
  lemma NewUserStartsFresh(userId: string, email: string, name: string, avatar: Option<string>, now: int)
    ensures var u := NewUser(userId, email, name, avatar, now);
      && u.xp == 0 && u.level == 1 && u.currentStreak == 0 && u.longestStreak == 0
      && u.totalHabitsCompleted == 0 && u.lastCheckIn.None?
      && LevelMatchesXp(u) && StreakWithinLongest(u)
  {
  }

  /** A repeated sign-in keeps every gamification field. */
  lemma ResyncedKeepsProgress(u: User, email: string, name: string, avatar: Option<string>, now: int)
    ensures Resynced(u, email, name, avatar, now).(email := u.email, name := u.name, avatar := u.avatar,
                                                    updatedAt := u.updatedAt) == u
  {
  }

  /** The upsert keyed on the external (Clerk) id: patches the profile of a known user, or inserts a new one. */
  method CreateUser(db: Db, userId: string, email: string, name: string, avatar: Option<string>, now: int)
    returns (id: Id)
    requires db.Valid()
    modifies db
    ensures db.Valid()
    ensures UserByUserId(old(db.users), userId).Some? ==>
      var u := UserByUserId(old(db.users), userId).value;
      && id == u.id
      && db.users == SetUser(old(db.users), Resynced(u, email, name, avatar, now))
      && db.nextId == old(db.nextId)
    ensures UserByUserId(old(db.users), userId).None? ==>
      && id == old(db.nextId)
      && db.users == old(db.users) + [NewUser(userId, email, name, avatar, now).(id := id)]
    ensures db.habits == old(db.habits) && db.completions == old(db.completions)
    ensures db.achievements == old(db.achievements)
    ensures UserByUserId(db.users, userId).Some? && UserByUserId(db.users, userId).value.id == id
  {
    var existing := UserByUserId(db.users, userId);
    if existing.Some? {
      var u := existing.value;
      ghost var before := db.users;
      var patched := Resynced(u, email, name, avatar, now);
      assert GetUser(db.users, u.id).Some?;
      db.PatchUser(patched);
      UserByUserIdSet(before, patched, userId);
      return u.id;
    }
    ghost var before := db.users;
    id := db.InsertUser(NewUser(userId, email, name, avatar, now));
    UserByUserIdAppend(before, NewUser(userId, email, name, avatar, now).(id := id), userId);
  }

  // ---- updateUserXP

  /** What `updateUserXP` returns. */
  datatype XpUpdate = XpUpdate(leveledUp: bool, newLevel: int, newXP: int)

  /** The user after `xpToAdd` more points: the level is recomputed from the new total. */
  function XpAdded(u: User, xpToAdd: int, now: int): User {
    u.(xp := u.xp + xpToAdd, level := CalculateLevel(u.xp + xpToAdd), updatedAt := now)
  }

  /** Adding XP restores the level invariant, whatever the document held before, and touches nothing else. */
  lemma XpAddedMatchesLevel(u: User, xpToAdd: int, now: int)
    ensures LevelMatchesXp(XpAdded(u, xpToAdd, now))
    ensures XpAdded(u, xpToAdd, now).xp == u.xp + xpToAdd
    ensures XpAdded(u, xpToAdd, now).(xp := u.xp, level := u.level, updatedAt := u.updatedAt) == u
  {
  }

  /** How many of the ascending thresholds lie in the half-open span from `a` (excluded) to `b`. */
  lemma {:induction false} ReachedGrows(ts: seq<int>, a: int, b: int)
    requires a <= b
    ensures ConvexHabits.Reached(ts, b) > ConvexHabits.Reached(ts, a) <==>
      exists i :: 0 <= i < |ts| && a < ts[i] <= b
  {
    if ts != [] {
      ReachedGrows(ts[1..], a, b);
      ConvexHabits.ReachedMonotone(ts[1..], a, b);
      if exists i :: 0 <= i < |ts[1..]| && a < ts[1..][i] <= b {
        var i :| 0 <= i < |ts[1..]| && a < ts[1..][i] <= b;
        assert a < ts[i + 1] <= b;
      }
      if exists i :: 0 <= i < |ts| && a < ts[i] <= b {
        var i :| 0 <= i < |ts| && a < ts[i] <= b;
        if i > 0 {
          assert a < ts[1..][i - 1] <= b;
        }
      }
    }
  }

  /**
   * For a consistent user and a gain that is not negative, `leveledUp` holds exactly when the new
   * total reaches a level threshold the old total was below.
   */
  lemma LeveledUpIffThresholdCrossed(u: User, xpToAdd: int, now: int)
    requires LevelMatchesXp(u) && xpToAdd >= 0
    ensures XpAdded(u, xpToAdd, now).level > u.level <==>
      exists i :: 0 <= i < |ConvexHabits.LevelThresholds| &&
        u.xp < ConvexHabits.LevelThresholds[i] <= u.xp + xpToAdd
  {
    LevelTablesAgree(u.xp);
    LevelTablesAgree(u.xp + xpToAdd);
    ConvexHabits.LevelCountsThresholds(u.xp);
    ConvexHabits.LevelCountsThresholds(u.xp + xpToAdd);
    ReachedGrows(ConvexHabits.LevelThresholds, u.xp, u.xp + xpToAdd);
  }

  /** Adds XP to the user document `userId`, recomputes its level and reports whether it rose. */
  method UpdateUserXP(db: Db, userId: Id, xpToAdd: int, now: int) returns (r: Result<XpUpdate>)
    requires db.Valid()
    modifies db
    ensures db.Valid()
    ensures GetUser(old(db.users), userId).None? ==> r == Err("User not found") && unchanged(db)
    ensures GetUser(old(db.users), userId).Some? ==>
      var u := GetUser(old(db.users), userId).value;
      && db.users == SetUser(old(db.users), XpAdded(u, xpToAdd, now))
      && GetUser(db.users, userId) == Some(XpAdded(u, xpToAdd, now))
      && db.habits == old(db.habits) && db.completions == old(db.completions)
      && db.achievements == old(db.achievements)
      && r.Ok? && r.value.newXP == u.xp + xpToAdd && r.value.newLevel == CalculateLevel(u.xp + xpToAdd)
      && (r.value.leveledUp <==> r.value.newLevel > u.level)
  {
    var user := GetUser(db.users, userId);
    if user.None? {
      return Err("User not found");
    }
    var u := user.value;
    var newXP := u.xp + xpToAdd;
    var newLevel := CalculateLevel(newXP);
    var patched := u.(xp := newXP, level := newLevel, updatedAt := now);
    assert patched == XpAdded(u, xpToAdd, now);
    ghost var before := db.users;
    db.PatchUser(patched);
    GetSetUser(before, patched, userId);
    if newLevel > u.level {
      return Ok(XpUpdate(true, newLevel, newXP));
    }
    r := Ok(XpUpdate(false, newLevel, newXP));
  }

  // ---- updateUserStreak

  /** What `updateUserStreak` returns. */
  datatype StreakUpdate = StreakUpdate(currentStreak: int, longestStreak: int)

  /** The user after a check-in that continues the streak. */
  function StreakIncremented(u: User, now: int): User {
    var streak := u.currentStreak + 1;
    u.(currentStreak := streak,
       longestStreak := if u.longestStreak > streak then u.longestStreak else streak,
       lastCheckIn := Some(now), updatedAt := now)
  }

  /** The user after a broken streak: the longest streak is kept. */
  function StreakReset(u: User, now: int): User {
    u.(currentStreak := 0, updatedAt := now)
  }

  /** Both streak updates keep the current streak within the longest one, and the longest never shrinks. */
  lemma StreakUpdatesKeepInvariant(u: User, now: int)
    requires StreakWithinLongest(u)
    ensures StreakWithinLongest(StreakIncremented(u, now)) && StreakWithinLongest(StreakReset(u, now))
    ensures StreakIncremented(u, now).currentStreak == u.currentStreak + 1
    ensures StreakIncremented(u, now).longestStreak >= u.longestStreak
    ensures StreakIncremented(u, now).longestStreak == u.longestStreak ||
            StreakIncremented(u, now).longestStreak == u.currentStreak + 1
    ensures StreakReset(u, now).longestStreak == u.longestStreak
  {
  }

  /** Continues (`increment`) or resets the streak of the user document `userId`. */
  method UpdateUserStreak(db: Db, userId: Id, increment: bool, now: int) returns (r: Result<StreakUpdate>)
    requires db.Valid()
    modifies db
    ensures db.Valid()
    ensures GetUser(old(db.users), userId).None? ==> r == Err("User not found") && unchanged(db)
    ensures GetUser(old(db.users), userId).Some? ==>
      var u := GetUser(old(db.users), userId).value;
      var v := if increment then StreakIncremented(u, now) else StreakReset(u, now);
      && db.users == SetUser(old(db.users), v)
      && GetUser(db.users, userId) == Some(v)
      && db.habits == old(db.habits) && db.completions == old(db.completions)
      && db.achievements == old(db.achievements)
      && r == Ok(StreakUpdate(v.currentStreak, v.longestStreak))
  {
    var user := GetUser(db.users, userId);
    if user.None? {
      return Err("User not found");
    }
    var u := user.value;
    ghost var before := db.users;
    if increment {
      var newStreak := u.currentStreak + 1;
      var newLongestStreak := if u.longestStreak > newStreak then u.longestStreak else newStreak;
      var patched := u.(currentStreak := newStreak, longestStreak := newLongestStreak,
                        lastCheckIn := Some(now), updatedAt := now);
      assert patched == StreakIncremented(u, now);
      db.PatchUser(patched);
      GetSetUser(before, patched, userId);
      r := Ok(StreakUpdate(newStreak, newLongestStreak));
    } else {
      var patched := u.(currentStreak := 0, updatedAt := now);
      assert patched == StreakReset(u, now);
      db.PatchUser(patched);
      GetSetUser(before, patched, userId);
      r := Ok(StreakUpdate(0, u.longestStreak));
    }
  }

  // ---- incrementHabitsCompleted

  function CountedCompletion(u: User, now: int): User {
    u.(totalHabitsCompleted := u.totalHabitsCompleted + 1, updatedAt := now)
  }

  /** The counter goes up by exactly one and nothing else but the time stamp changes. */
  lemma CountedCompletionOnlyCounts(u: User, now: int)
    ensures CountedCompletion(u, now).totalHabitsCompleted == u.totalHabitsCompleted + 1
    ensures CountedCompletion(u, now).(totalHabitsCompleted := u.totalHabitsCompleted, updatedAt := u.updatedAt) == u
  {
  }

  method IncrementHabitsCompleted(db: Db, userId: Id, now: int) returns (r: Result<()>)
    requires db.Valid()
    modifies db
    ensures db.Valid()
    ensures GetUser(old(db.users), userId).None? ==> r == Err("User not found") && unchanged(db)
    ensures GetUser(old(db.users), userId).Some? ==>
      var u := GetUser(old(db.users), userId).value;
      && r == Ok(())
      && db.users == SetUser(old(db.users), CountedCompletion(u, now))
      && GetUser(db.users, userId) == Some(CountedCompletion(u, now))
      && db.habits == old(db.habits) && db.completions == old(db.completions)
      && db.achievements == old(db.achievements)
  {
    var user := GetUser(db.users, userId);
    if user.None? {
      return Err("User not found");
    }
    var u := user.value;
    var patched := u.(totalHabitsCompleted := u.totalHabitsCompleted + 1, updatedAt := now);
    assert patched == CountedCompletion(u, now);
    ghost var before := db.users;
    db.PatchUser(patched);
    GetSetUser(before, patched, userId);
    r := Ok(());
  }
}
