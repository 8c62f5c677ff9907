/**
 * The achievements of `convex/achievements.ts`: the fixed catalog, the unlock rules of
 * `checkAchievements` with the XP award that goes with each unlock, and the read-only progress
 * view of `getAchievementProgress`.
 */
module ConvexAchievements {
  import opened Wrappers
  import opened Seqs
  import opened ConvexStore

  // ---- the catalog

  /** The optional requirement fields of a catalog entry; each rule reads one of them. */
  datatype Requirement = Requirement(
    completions: Option<int>, streak: Option<int>, level: Option<int>, count: Option<int>,
    categories: Option<int>, timeOfDay: Option<string>, allComplete: Option<int>)

  const NoRequirement := Requirement(None, None, None, None, None, None, None)

  /** A catalog entry; `kind` is its `type`, which chooses the rule. */
  datatype Achievement = Achievement(
    id: string, kind: string, title: string, description: string, icon: string, xpReward: int,
    requirement: Requirement)

  const FirstStep := Achievement("first_step", "completion", "First Step", "Complete your first habit",
    "\U{1F463}", 10, NoRequirement.(completions := Some(1)))
  const WeekWarrior := Achievement("week_warrior", "streak", "Week Warrior", "Maintain a 7-day streak on any habit",
    "\U{1F525}", 25, NoRequirement.(streak := Some(7)))
  const MonthMaster := Achievement("month_master", "streak", "Month Master", "Maintain a 30-day streak on any habit",
    "\U{1F3C6}", 100, NoRequirement.(streak := Some(30)))
  const CenturyClub := Achievement("century_club", "completion", "Century Club", "Complete 100 total habits",
    "\U{1F4AF}", 50, NoRequirement.(completions := Some(100)))
  const Overachiever := Achievement("overachiever", "daily", "Overachiever", "Complete all habits for 30 consecutive days",
    "\U{2B50}", 150, NoRequirement.(allComplete := Some(30)))
  const EarlyBird := Achievement("early_bird", "time", "Early Bird", "Complete 10 morning habits",
    "\U{1F305}", 30, NoRequirement.(timeOfDay := Some("morning"), count := Some(10)))
  const NightOwl := Achievement("night_owl", "time", "Night Owl", "Complete 10 evening habits",
    "\U{1F989}", 30, NoRequirement.(timeOfDay := Some("evening"), count := Some(10)))
  const Diversified := Achievement("diversified", "category", "Diversified", "Have active habits in 5+ categories",
    "\U{1F308}", 40, NoRequirement.(categories := Some(5)))
  const RisingStar := Achievement("level_5", "level", "Rising Star", "Reach Level 5",
    "\U{2B50}", 50, NoRequirement.(level := Some(5)))
  const HabitMaster := Achievement("level_10", "level", "Habit Master", "Reach Level 10",
    "\U{1F451}", 200, NoRequirement.(level := Some(10)))

  /** `ACHIEVEMENTS`, in the order the unlock loop visits them. */
  const Catalog: seq<Achievement> := [FirstStep, WeekWarrior, MonthMaster, CenturyClub, Overachiever,
                                      EarlyBird, NightOwl, Diversified, RisingStar, HabitMaster]

  /** Ten entries, no two with the same id, every reward positive. */
  lemma CatalogIdsDistinct()
    ensures |Catalog| == 10
    ensures forall i, j :: 0 <= i < j < |Catalog| ==> Catalog[i].id != Catalog[j].id
    ensures forall i :: 0 <= i < |Catalog| ==> Catalog[i].xpReward > 0
  {
  }

  // ---- the unlock rules

  /** A requirement number is truthy: present and not 0. */
  predicate Truthy(n: Option<int>) {
    n.Some? && n.value != 0
  }

  function Streaks(hs: seq<Habit>): (r: seq<int>)
    ensures |r| == |hs| && forall i :: 0 <= i < |hs| ==> r[i] == hs[i].currentStreak
  {
    seq(|hs|, i requires 0 <= i < |hs| => hs[i].currentStreak)
  }

  /** `Math.max(...habits.map(h => h.currentStreak), 0)`. */
  function MaxStreak(hs: seq<Habit>): int {
    MaxOrZero(Streaks(hs))
  }

  /** A positive streak goal is met exactly when one of the habits has a current streak that long. */
  lemma MaxStreakReaches(hs: seq<Habit>, n: int)
    requires n > 0
    ensures MaxStreak(hs) >= n <==> exists h :: h in hs && h.currentStreak >= n
  {
    var s := Streaks(hs);
    if MaxStreak(hs) >= n {
      var i :| 0 <= i < |s| && s[i] == MaxStreak(hs);
      assert hs[i] in hs;
    }
    if exists h :: h in hs && h.currentStreak >= n {
      var h :| h in hs && h.currentStreak >= n;
      var i :| 0 <= i < |hs| && hs[i] == h;
      assert s[i] <= MaxStreak(hs);
    }
  }

  /** The completions summed over the habits whose `timeOfDay` equals the requirement's (an absent one matches none). */
  function TimeCompletions(hs: seq<Habit>, timeOfDay: Option<string>): int {
    if hs == [] then 0
    else TimeCompletions(hs[..|hs| - 1], timeOfDay) +
         (if Some(hs[|hs| - 1].timeOfDay) == timeOfDay then hs[|hs| - 1].totalCompletions else 0)
  }

  /** The distinct categories of the active habits. */
  function ActiveCategories(hs: seq<Habit>): set<string> {
    set h | h in hs && h.isActive :: h.category
  }

  /** The `switch` of `checkAchievements`: a `type` without a case, such as "daily", never unlocks. */
  predicate ShouldUnlock(a: Achievement, u: User, hs: seq<Habit>) {
    var req := a.requirement;
    match a.kind
    case "completion" => Truthy(req.completions) && u.totalHabitsCompleted >= req.completions.value
    case "streak" => Truthy(req.streak) && MaxStreak(hs) >= req.streak.value
    case "level" => Truthy(req.level) && u.level >= req.level.value
    case "time" => Truthy(req.count) && TimeCompletions(hs, req.timeOfDay) >= req.count.value
    case "category" => Truthy(req.categories) && |ActiveCategories(hs)| >= req.categories.value
    case _ => false
  }

  /** What each catalog entry asks for, stated on the user and the user's habits. */
  lemma CatalogUnlockRules(u: User, hs: seq<Habit>)
    ensures ShouldUnlock(FirstStep, u, hs) <==> u.totalHabitsCompleted >= 1
    ensures ShouldUnlock(WeekWarrior, u, hs) <==> exists h :: h in hs && h.currentStreak >= 7
    ensures ShouldUnlock(MonthMaster, u, hs) <==> exists h :: h in hs && h.currentStreak >= 30
    ensures ShouldUnlock(CenturyClub, u, hs) <==> u.totalHabitsCompleted >= 100
    ensures !ShouldUnlock(Overachiever, u, hs)
    ensures ShouldUnlock(EarlyBird, u, hs) <==> TimeCompletions(hs, Some("morning")) >= 10
    ensures ShouldUnlock(NightOwl, u, hs) <==> TimeCompletions(hs, Some("evening")) >= 10
    ensures ShouldUnlock(Diversified, u, hs) <==> |ActiveCategories(hs)| >= 5
    ensures ShouldUnlock(RisingStar, u, hs) <==> u.level >= 5
    ensures ShouldUnlock(HabitMaster, u, hs) <==> u.level >= 10
  {
    MaxStreakReaches(hs, 7);
    MaxStreakReaches(hs, 30);
  }

  /** Overachiever ("daily") has no rule, so no user ever unlocks it. */
  lemma OverachieverNeverUnlocks(u: User, hs: seq<Habit>)
    ensures Overachiever.id == "overachiever" && !ShouldUnlock(Overachiever, u, hs)
  {
  }

  /** The rules read the user's completion count and level, never the XP or the time stamps. */
  lemma ShouldUnlockIgnoresXp(a: Achievement, u: User, hs: seq<Habit>, xp: int, now: int)
    ensures ShouldUnlock(a, u.(xp := xp, updatedAt := now), hs) == ShouldUnlock(a, u, hs)
  {
  }

  // ---- checkAchievements

  /** The catalog ids a user already holds: the `type` of each of their unlock documents. */
  function UnlockedKinds(unlocks: seq<Unlock>): set<string> {
    set a | a in unlocks :: a.kind
  }

  /** The loop's test for one entry, with the user, habits and held ids as its context. */
  predicate Unlocks(ctx: (set<string>, User, seq<Habit>), a: Achievement) {
    a.id !in ctx.0 && ShouldUnlock(a, ctx.1, ctx.2)
  }

  /** The entries one check unlocks, in catalog order. */
  function NewlyUnlocked(held: set<string>, u: User, hs: seq<Habit>): (r: seq<Achievement>)
    ensures forall a :: a in r <==> a in Catalog && a.id !in held && ShouldUnlock(a, u, hs)
  {
    FilterWith(Catalog, Unlocks, (held, u, hs))
  }

  function IdsOf(as_: seq<Achievement>): set<string> {
    set a | a in as_ :: a.id
  }

  /**
   * Checking again once the new unlocks are held, with any XP, unlocks nothing: the stored
   * documents make `checkAchievements` idempotent.
   */
  lemma RecheckUnlocksNothing(held: set<string>, u: User, hs: seq<Habit>, xp: int, now: int)
    ensures NewlyUnlocked(held + IdsOf(NewlyUnlocked(held, u, hs)), u.(xp := xp, updatedAt := now), hs) == []
  {
    var first := NewlyUnlocked(held, u, hs);
    var again := NewlyUnlocked(held + IdsOf(first), u.(xp := xp, updatedAt := now), hs);
    if again != [] {
      var a := again[0];
      assert a in again;
      ShouldUnlockIgnoresXp(a, u, hs, xp, now);
      assert false;
    }
  }

  /** The unlock documents a batch inserts, with the consecutive ids they receive. */
  function UnlockRecords(batch: seq<Achievement>, userId: Id, now: int, firstId: Id): (r: seq<Unlock>)
    ensures |r| == |batch|
    ensures forall i :: 0 <= i < |batch| ==>
      r[i] == Unlock(firstId + i, userId, batch[i].id, batch[i].title, batch[i].description,
                     batch[i].icon, batch[i].xpReward, now)
  {
    seq(|batch|, i requires 0 <= i < |batch| =>
      Unlock(firstId + i, userId, batch[i].id, batch[i].title, batch[i].description,
             batch[i].icon, batch[i].xpReward, now))
  }

  /** The user after a batch: each unlock writes the snapshot's XP plus its own reward, so the last one wins. */
  function Rewarded(u: User, batch: seq<Achievement>, now: int): User {
    if batch == [] then u else u.(xp := u.xp + batch[|batch| - 1].xpReward, updatedAt := now)
  }

  /** A user at level 5 who has completed one habit unlocks two rewards worth 60 XP but keeps only 50. */
  lemma OnlyLastRewardSurvives(u: User, now: int)
    requires u.totalHabitsCompleted == 1 && u.level == 5
    ensures NewlyUnlocked({}, u, []) == [FirstStep, RisingStar]
    ensures FirstStep.xpReward + RisingStar.xpReward == 60
    ensures Rewarded(u, NewlyUnlocked({}, u, []), now).xp == u.xp + 50
  {
    var none: set<string> := {};
    var ctx := (none, u, []);
    CatalogUnlockRules(u, []);
    assert ActiveCategories([]) == {};
    assert forall k :: 0 <= k < |Catalog| && k != 0 && k != 8 ==> !Unlocks(ctx, Catalog[k]);
    FilterTwo(Catalog, Unlocks, ctx, 0, 8);
  }

  /** The `(entry, unlock id)` pairs a batch reports, with the consecutive ids it receives. */
  function Pairs(batch: seq<Achievement>, firstId: Id): (r: seq<(Achievement, Id)>)
    ensures |r| == |batch|
    ensures forall j :: 0 <= j < |batch| ==> r[j] == (batch[j], firstId + j)
  {
    seq(|batch|, j requires 0 <= j < |batch| => (batch[j], firstId + j))
  }

  /** The user documents after a batch has been credited to the snapshot `u`. */
  function UsersAfter(users0: seq<User>, u: User, batch: seq<Achievement>, now: int): seq<User> {
    if batch == [] then users0 else SetUser(users0, Rewarded(u, batch, now))
  }

  /** What the unlock loop has written once it has unlocked `batch`, starting from `users0`, `unlocks0` and `firstId`. */
  predicate Wrote(users: seq<User>, achievements: seq<Unlock>, nextId: Id, found: seq<(Achievement, Id)>,
                  u: User, now: int, batch: seq<Achievement>, users0: seq<User>, unlocks0: seq<Unlock>, firstId: Id)
  {
    && found == Pairs(batch, firstId)
    && achievements == unlocks0 + UnlockRecords(batch, u.id, now, firstId)
    && nextId == firstId + |batch|
    && users == UsersAfter(users0, u, batch, now)
  }

  /** `checkAchievements`: unlocks every entry whose rule holds and that the user does not hold yet. */
  method CheckAchievements(db: Db, userId: Id, now: int) returns (found: seq<(Achievement, Id)>)
    requires db.Valid()
    modifies db
    ensures db.Valid()
    ensures GetUser(old(db.users), userId).None? ==> found == [] && unchanged(db)
    ensures GetUser(old(db.users), userId).Some? ==>
      var u := GetUser(old(db.users), userId).value;
      var batch := NewlyUnlocked(UnlockedKinds(FilterWith(old(db.achievements), UnlockOwnedBy, userId)), u,
                                 FilterWith(old(db.habits), HabitOwnedBy, userId));
      && |found| == |batch|
      && (forall j :: 0 <= j < |batch| ==> found[j] == (batch[j], old(db.nextId) + j))
      && db.achievements == old(db.achievements) + UnlockRecords(batch, userId, now, old(db.nextId))
      && db.users == (if batch == [] then old(db.users) else SetUser(old(db.users), Rewarded(u, batch, now)))
      && db.habits == old(db.habits) && db.completions == old(db.completions)
  {
    var user := GetUser(db.users, userId);
    if user.None? {
      return [];
    }
    var u := user.value;
    var habits := FilterWith(db.habits, HabitOwnedBy, userId);
    var existing := FilterWith(db.achievements, UnlockOwnedBy, userId);
    var held := UnlockedKinds(existing);
    found := UnlockEach(db, u, now, Catalog, held, habits);
  }

  /** The loop of `checkAchievements` over the entries `cat`, with the snapshot `u` of the user. */
  method UnlockEach(db: Db, u: User, now: int, cat: seq<Achievement>, held: set<string>, habits: seq<Habit>)
    returns (found: seq<(Achievement, Id)>)
    requires db.Valid() && GetUser(db.users, u.id) == Some(u)
    modifies db
    ensures db.Valid()
    ensures Wrote(db.users, db.achievements, db.nextId, found, u, now, FilterWith(cat, Unlocks, (held, u, habits)),
                  old(db.users), old(db.achievements), old(db.nextId))
    ensures db.habits == old(db.habits) && db.completions == old(db.completions)
  {
    ghost var ctx := (held, u, habits);
    ghost var users0 := db.users;
    ghost var unlocks0 := db.achievements;
    ghost var firstId := db.nextId;
    found := [];
    var i := 0;
    assert cat[..0] == [];
    assert UnlockRecords([], u.id, now, firstId) == [];
    while i < |cat|
      invariant 0 <= i <= |cat|
      invariant db.Valid()
      invariant Wrote(db.users, db.achievements, db.nextId, found, u, now, FilterWith(cat[..i], Unlocks, ctx),
                      users0, unlocks0, firstId)
      invariant db.habits == old(db.habits) && db.completions == old(db.completions)
    {
      FilterPrefixStep(cat, i, Unlocks, ctx);
      found := VisitEntry(db, u, now, cat[i], held, habits, FilterWith(cat[..i], Unlocks, ctx), found,
                          users0, unlocks0, firstId);
      i := i + 1;
    }
    assert cat[..i] == cat;
  }

  /** One pass of the loop: skips a held entry, unlocks one whose rule holds, leaves the rest. */
  method VisitEntry(db: Db, u: User, now: int, a: Achievement, held: set<string>, habits: seq<Habit>,
                    ghost batch: seq<Achievement>, found0: seq<(Achievement, Id)>, ghost users0: seq<User>,
                    ghost unlocks0: seq<Unlock>, ghost firstId: Id)
    returns (found: seq<(Achievement, Id)>)
    requires db.Valid() && GetUser(users0, u.id) == Some(u)
    requires Wrote(db.users, db.achievements, db.nextId, found0, u, now, batch, users0, unlocks0, firstId)
    modifies db
    ensures db.Valid()
    ensures Wrote(db.users, db.achievements, db.nextId, found, u, now,
                  batch + (if Unlocks((held, u, habits), a) then [a] else []), users0, unlocks0, firstId)
    ensures db.habits == old(db.habits) && db.completions == old(db.completions)
  {
    found := found0;
    if a.id in held {
      assert batch + [] == batch;
      return;
    }
    if ShouldUnlock(a, u, habits) {
      found := UnlockOne(db, u, now, a, batch, found, users0, unlocks0, firstId);
    } else {
      assert batch + [] == batch;
    }
  }

  /** One unlock: inserts the document and writes the snapshot's XP plus this entry's reward. */
  method UnlockOne(db: Db, u: User, now: int, a: Achievement, ghost batch: seq<Achievement>,
                   found0: seq<(Achievement, Id)>, ghost users0: seq<User>, ghost unlocks0: seq<Unlock>,
                   ghost firstId: Id)
    returns (found: seq<(Achievement, Id)>)
    requires db.Valid() && GetUser(users0, u.id) == Some(u)
    requires Wrote(db.users, db.achievements, db.nextId, found0, u, now, batch, users0, unlocks0, firstId)
    modifies db
    ensures db.Valid()
    ensures Wrote(db.users, db.achievements, db.nextId, found, u, now, batch + [a], users0, unlocks0, firstId)
    ensures db.habits == old(db.habits) && db.completions == old(db.completions)
  {
    assert db.nextId == firstId + |batch|;
    var id := db.InsertUnlock(Unlock(0, u.id, a.id, a.title, a.description, a.icon, a.xpReward, now));
    UnlockStep(db.achievements, unlocks0, batch, a, u.id, now, firstId, id);
    assert db.achievements == unlocks0 + UnlockRecords(batch + [a], u.id, now, firstId);
    assert db.nextId == firstId + |batch + [a]|;
    GetSetUserAfterBatch(users0, u, batch, now);
    db.PatchUser(u.(xp := u.xp + a.xpReward, updatedAt := now));
    RewardedStep(users0, u, batch, a, now);
    assert db.users == UsersAfter(users0, u, batch + [a], now);
    PairsStep(batch, a, firstId, found0, id);
    found := found0 + [(a, id)];
  }

  lemma PairsStep(batch: seq<Achievement>, a: Achievement, firstId: Id, found0: seq<(Achievement, Id)>, id: Id)
    requires found0 == Pairs(batch, firstId) && id == firstId + |batch|
    ensures found0 + [(a, id)] == Pairs(batch + [a], firstId)
  {
  }

  /** Inserting the next unlock document extends the batch's records by one. */
  lemma UnlockStep(achievements: seq<Unlock>, unlocks0: seq<Unlock>, batch: seq<Achievement>, a: Achievement,
                   userId: Id, now: int, firstId: Id, id: Id)
    requires id == firstId + |batch|
    requires achievements == unlocks0 + UnlockRecords(batch, userId, now, firstId) +
      [Unlock(0, userId, a.id, a.title, a.description, a.icon, a.xpReward, now).(id := id)]
    ensures achievements == unlocks0 + UnlockRecords(batch + [a], userId, now, firstId)
  {
    assert UnlockRecords(batch + [a], userId, now, firstId) ==
      UnlockRecords(batch, userId, now, firstId) + [Unlock(id, userId, a.id, a.title, a.description, a.icon, a.xpReward, now)];
  }

  /** The user document stays findable under its id while the batch patches it. */
  lemma GetSetUserAfterBatch(users0: seq<User>, u: User, batch: seq<Achievement>, now: int)
    requires GetUser(users0, u.id) == Some(u)
    ensures GetUser(UsersAfter(users0, u, batch, now), u.id).Some?
  {
    if batch != [] {
      GetSetUser(users0, Rewarded(u, batch, now), u.id);
    }
  }

  lemma RewardedStep(users0: seq<User>, u: User, batch: seq<Achievement>, a: Achievement, now: int)
    ensures SetUser(UsersAfter(users0, u, batch, now), u.(xp := u.xp + a.xpReward, updatedAt := now))
         == UsersAfter(users0, u, batch + [a], now)
  {
    assert Rewarded(u, batch + [a], now) == u.(xp := u.xp + a.xpReward, updatedAt := now);
    if batch != [] {
      SetUserTwice(users0, Rewarded(u, batch, now), u.(xp := u.xp + a.xpReward, updatedAt := now));
    }
  }

  /** After a check, the user holds the ids they held before and the ids of the batch. */
  lemma HeldAfterCheck(unlocks0: seq<Unlock>, batch: seq<Achievement>, userId: Id, now: int, firstId: Id)
    ensures UnlockedKinds(FilterWith(unlocks0 + UnlockRecords(batch, userId, now, firstId), UnlockOwnedBy, userId))
         == UnlockedKinds(FilterWith(unlocks0, UnlockOwnedBy, userId)) + IdsOf(batch)
  {
    var recs := UnlockRecords(batch, userId, now, firstId);
    forall k
      ensures k in UnlockedKinds(FilterWith(unlocks0 + recs, UnlockOwnedBy, userId)) <==>
              k in UnlockedKinds(FilterWith(unlocks0, UnlockOwnedBy, userId)) + IdsOf(batch)
    {
      if k in IdsOf(batch) {
        var a :| a in batch && a.id == k;
        var j :| 0 <= j < |batch| && batch[j] == a;
        assert recs[j] in unlocks0 + recs;
      }
      if k in UnlockedKinds(FilterWith(unlocks0 + recs, UnlockOwnedBy, userId)) {
        var r :| r in FilterWith(unlocks0 + recs, UnlockOwnedBy, userId) && r.kind == k;
        if r !in unlocks0 {
          var j :| 0 <= j < |recs| && recs[j] == r;
          assert batch[j] in batch;
        }
      }
    }
  }

  // ---- getUserAchievements and getAchievementProgress

  /** `existingAchievements.find(a => a.type === id)`: the first unlock document of the catalog entry. */
  function FindUnlock(unlocks: seq<Unlock>, id: string): (r: Option<Unlock>)
    ensures r.Some? ==> r.value in unlocks && r.value.kind == id
    ensures r.None? <==> id !in UnlockedKinds(unlocks)
  {
    if unlocks == [] then None
    else if unlocks[0].kind == id then Some(unlocks[0])
    else
      var r := FindUnlock(unlocks[1..], id);
      assert UnlockedKinds(unlocks) == {unlocks[0].kind} + UnlockedKinds(unlocks[1..]) by {
        assert forall a :: a in unlocks <==> a == unlocks[0] || a in unlocks[1..];
      }
      r
  }

  /** One row of the achievements page. */
  datatype Status = Status(achievement: Achievement, unlocked: bool, unlockedAt: Option<int>)

  function StatusOf(unlocks: seq<Unlock>, a: Achievement): Status {
    var found := FindUnlock(unlocks, a.id);
    Status(a, found.Some?, if found.Some? then Some(found.value.unlockedAt) else None)
  }

  /** `getUserAchievements`: every catalog entry, marked unlocked exactly when the user holds its id. */
  function GetUserAchievements(users: seq<User>, unlocks: seq<Unlock>, userId: string): (r: seq<Status>)
    ensures UserByUserId(users, userId).None? ==> r == []
    ensures UserByUserId(users, userId).Some? ==>
      var held := UnlockedKinds(FilterWith(unlocks, UnlockOwnedBy, UserByUserId(users, userId).value.id));
      && |r| == |Catalog|
      && forall i :: 0 <= i < |Catalog| ==>
           r[i].achievement == Catalog[i] && (r[i].unlocked <==> Catalog[i].id in held)
  {
    match UserByUserId(users, userId)
    case None => []
    case Some(u) =>
      var mine := FilterWith(unlocks, UnlockOwnedBy, u.id);
      seq(|Catalog|, i requires 0 <= i < |Catalog| => StatusOf(mine, Catalog[i]))
  }

  /** One row of the progress view. */
  datatype ProgressRow = ProgressRow(achievement: Achievement, unlocked: bool, unlockedAt: Option<int>,
                                     progress: int, total: int, percentage: real)

  /** `n || 1`. */
  function OrOne(n: Option<int>): int {
    if Truthy(n) then n.value else 1
  }

  /** The raw progress and goal of an entry that is not unlocked; an entry without a case reports 0 of 1. */
  function RawProgress(a: Achievement, u: User, hs: seq<Habit>): (int, int) {
    var req := a.requirement;
    match a.kind
    case "completion" => (u.totalHabitsCompleted, OrOne(req.completions))
    case "streak" => (MaxStreak(hs), OrOne(req.streak))
    case "level" => (u.level, OrOne(req.level))
    case "time" => (TimeCompletions(hs, req.timeOfDay), OrOne(req.count))
    case "category" => (|ActiveCategories(hs)|, OrOne(req.categories))
    case _ => (0, 1)
  }

  /** The row of one entry; an unlocked entry reports its goal as 1 and its progress as the goal. */
  function ProgressOf(unlocks: seq<Unlock>, u: User, hs: seq<Habit>, a: Achievement): (row: ProgressRow)
    ensures row.achievement == a
    ensures row.unlocked <==> a.id in UnlockedKinds(unlocks)
    ensures row.progress <= row.total && row.percentage <= 100.0
    ensures row.unlocked ==> row.progress == 1 && row.total == 1 && row.percentage == 100.0
  {
    var found := FindUnlock(unlocks, a.id);
    var (progress, total) := if found.Some? then (1, 1) else RawProgress(a, u, hs);
    var ratio := progress as real / total as real * 100.0;
    ProgressRow(a, found.Some?, if found.Some? then Some(found.value.unlockedAt) else None,
                if progress < total then progress else total, total,
                if ratio < 100.0 then ratio else 100.0)
  }

  /** For a catalog entry not yet held, the bar is full exactly when `checkAchievements` would unlock it. */
  lemma FullBarMeansUnlockable(unlocks: seq<Unlock>, u: User, hs: seq<Habit>, i: nat)
    requires i < |Catalog|
    requires Catalog[i].id !in UnlockedKinds(unlocks)
    ensures ProgressOf(unlocks, u, hs, Catalog[i]).percentage >= 100.0 <==> ShouldUnlock(Catalog[i], u, hs)
  {
    var a := Catalog[i];
    var (p, t) := RawProgress(a, u, hs);
    assert t > 0;
    assert p as real / t as real * 100.0 >= 100.0 <==> p >= t by {
      RatioAtLeastOne(p, t);
    }
  }

  lemma RatioAtLeastOne(p: int, t: int)
    requires t > 0
    ensures p as real / t as real * 100.0 >= 100.0 <==> p >= t
  {
    var q := p as real / t as real;
    assert q * t as real == p as real;
  }

  /** `getAchievementProgress`: a row per catalog entry for a known user, none for an unknown one. */
  function GetAchievementProgress(users: seq<User>, habits: seq<Habit>, unlocks: seq<Unlock>, userId: string)
    : (r: seq<ProgressRow>)
    ensures UserByUserId(users, userId).None? ==> r == []
    ensures UserByUserId(users, userId).Some? ==>
      var u := UserByUserId(users, userId).value;
      var mine := FilterWith(unlocks, UnlockOwnedBy, u.id);
      var hs := FilterWith(habits, HabitOwnedBy, u.id);
      && |r| == |Catalog|
      && forall i :: 0 <= i < |Catalog| ==>
           && r[i].achievement == Catalog[i]
           && r[i].progress <= r[i].total && r[i].percentage <= 100.0
           && (r[i].unlocked <==> Catalog[i].id in UnlockedKinds(mine))
           && (r[i].unlocked ==> r[i].progress == r[i].total == 1)
           && (!r[i].unlocked ==> (r[i].percentage >= 100.0 <==> ShouldUnlock(Catalog[i], u, hs)))
  {
    match UserByUserId(users, userId)
    case None => []
    case Some(u) =>
      var mine := FilterWith(unlocks, UnlockOwnedBy, u.id);
      var hs := FilterWith(habits, HabitOwnedBy, u.id);
      var r := seq(|Catalog|, i requires 0 <= i < |Catalog| => ProgressOf(mine, u, hs, Catalog[i]));
      assert forall i :: 0 <= i < |Catalog| && !r[i].unlocked ==>
        (r[i].percentage >= 100.0 <==> ShouldUnlock(Catalog[i], u, hs)) by {
        forall i | 0 <= i < |Catalog| && !r[i].unlocked
          ensures r[i].percentage >= 100.0 <==> ShouldUnlock(Catalog[i], u, hs)
        {
          FullBarMeansUnlockable(mine, u, hs, i);
        }
      }
      r
  }
}
