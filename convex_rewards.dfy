/**
 * `convex/rewards.ts`: the summary report over a week or a month, the list of achievements
 * closest to unlocking, and the level gate for colour themes.
 *
 * The clock is the parameter `now` (ms); `dateOf` maps a timestamp to its `toDateString()`
 * and `today` is that string for the current day.
 */
module ConvexRewards {
  import opened Wrappers
  import opened Seqs
  import opened Tally
  import opened ConvexStore
  import ConvexAchievements

  /** One day in milliseconds, `24 * 60 * 60 * 1000`. */
  const DayMs: int := 86400000

  /** `Math.round`: rounds to the nearest integer, halves upwards. */
  function JsRound(x: real): (n: int)
    ensures n as real - 0.5 <= x < n as real + 0.5
  {
    (x + 0.5).Floor
  }

  // ---- getSummaryReport

  /** The length of the reporting window: 7 days for "week", 30 for every other period. */
  function PeriodDays(period: string): (days: int)
    ensures days == 7 <==> period == "week"
    ensures days == 7 || days == 30
  {
    if period == "week" then 7 else 30
  }

  /** The completions query: the user's completions at or after the start of the window. */
  predicate InWindow(w: (Id, int), c: Completion) {
    c.userId == w.0 && c.completedAt >= w.1
  }

  function HabitIdOf(c: Completion): Id { c.habitId }

  function XpOf(c: Completion): int { c.xpEarned }

  /** `new Set(completions.map(c => c.habitId))`. */
  function HabitIds(cs: seq<Completion>): set<Id> {
    set c | c in cs :: c.habitId
  }

  lemma {:induction false} HabitIdsAtMostCompletions(cs: seq<Completion>)
    ensures |HabitIds(cs)| <= |cs|
  {
    if cs != [] {
      var last := cs[|cs| - 1];
      HabitIdsAtMostCompletions(cs[..|cs| - 1]);
      assert HabitIds(cs) == HabitIds(cs[..|cs| - 1]) + {last.habitId} by {
        assert forall c :: c in cs <==> c in cs[..|cs| - 1] || c == last;
      }
    }
  }

  datatype BestHabit = BestHabit(name: string, completions: int)

  /**
   * The best-habit loop over `Object.entries(habitCompletionCount)`, as `(maxCompletions, bestHabit)`
   * after the entries `d`: a strictly larger count raises the maximum, and names the habit only when
   * `habits.find` finds it.
   */
  function Scan(d: Dict<Id>, hs: seq<Habit>): (int, Option<BestHabit>) {
    if d == [] then (0, None)
    else
      var prev := Scan(d[..|d| - 1], hs);
      var e := d[|d| - 1];
      if e.1 > prev.0 then
        (e.1, match GetHabit(hs, e.0) case Some(h) => Some(BestHabit(h.name, e.1)) case None => prev.1)
      else prev
  }

  /** `maxCompletions` ends as the largest count, whether or not its habit is found. */
  lemma {:induction false} ScanMax(d: Dict<Id>, hs: seq<Habit>)
    ensures Scan(d, hs).0 == MaxOrZero(Values(d))
  {
    if d != [] {
      ScanMax(d[..|d| - 1], hs);
      assert Values(d[..|d| - 1]) == Values(d)[..|d| - 1];
    }
  }

  /** A reported best habit is a habit of the user, reported with one entry's count, which is at most the maximum. */
  lemma {:induction false} ScanBestIsAnEntry(d: Dict<Id>, hs: seq<Habit>)
    ensures d == [] ==> Scan(d, hs).1.None?
    ensures Scan(d, hs).1.Some? ==>
      Scan(d, hs).1.value.completions <= Scan(d, hs).0 &&
      exists i :: 0 <= i < |d| && GetHabit(hs, d[i].0).Some? &&
        Scan(d, hs).1.value == BestHabit(GetHabit(hs, d[i].0).value.name, d[i].1)
  {
    if d != [] {
      var d0 := d[..|d| - 1];
      ScanBestIsAnEntry(d0, hs);
      if Scan(d, hs).1.Some? && Scan(d, hs).1 == Scan(d0, hs).1 {
        var i :| 0 <= i < |d0| && GetHabit(hs, d0[i].0).Some? &&
          Scan(d0, hs).1.value == BestHabit(GetHabit(hs, d0[i].0).value.name, d0[i].1);
        assert d[i] == d0[i];
      }
    }
  }

  /**
   * With every count at least 1, the first entry `k` holding the largest count decides the result: the
   * best habit is that entry's habit when it is found (so ties keep the first), and otherwise stays what
   * the earlier entries gave, whose count is below the maximum.
   */
  lemma {:induction false} ScanFirstMaximum(d: Dict<Id>, hs: seq<Habit>, k: nat)
    requires forall i :: 0 <= i < |d| ==> d[i].1 >= 1
    requires k < |d|
    requires forall i :: 0 <= i < |d| ==> d[i].1 <= d[k].1
    requires forall i :: 0 <= i < k ==> d[i].1 < d[k].1
    ensures Scan(d, hs).0 == d[k].1
    ensures Scan(d, hs).1 == match GetHabit(hs, d[k].0)
      case Some(h) => Some(BestHabit(h.name, d[k].1))
      case None => Scan(d[..k], hs).1
    ensures GetHabit(hs, d[k].0).None? ==> Scan(d, hs).1.None? || Scan(d, hs).1.value.completions < d[k].1
  {
    var d0 := d[..|d| - 1];
    if k == |d| - 1 {
      ScanMax(d0, hs);
      assert MaxOrZero(Values(d0)) < d[k].1;
      ScanBestIsAnEntry(d0, hs);
    } else {
      ScanFirstMaximum(d0, hs, k);
      assert d0[..k] == d[..k];
    }
  }

  /** `Math.round(totalCompletions / daysAgo * 10) / 10`: the daily average to one decimal place. */
  function AveragePerDay(total: nat, days: int): (avg: real)
    requires days > 0
    ensures avg >= 0.0
    ensures -0.05 < avg - total as real / days as real <= 0.05
  {
    var exact := total as real / days as real;
    assert exact >= 0.0;
    var n := JsRound(exact * 10.0);
    assert n as real - 0.5 <= exact * 10.0 < n as real + 0.5;
    n as real / 10.0
  }

  /** `completionRate`: completions per habit-day as a rounded percentage, 0 without habits. */
  function CompletionRate(total: nat, habitCount: nat, days: int): (rate: int)
    requires days > 0
    ensures habitCount == 0 ==> rate == 0
    ensures rate >= 0
  {
    if habitCount > 0 then
      var exact := total as real / (habitCount * days) as real;
      assert exact >= 0.0;
      JsRound(exact * 100.0)
    else 0
  }

  datatype Summary = Summary(
    period: string, startDate: int, endDate: int, totalCompletions: int, totalXP: int,
    uniqueHabitsCompleted: int, totalHabits: int, averageCompletionsPerDay: real,
    bestHabit: Option<BestHabit>, currentStreak: int, streakMaintained: bool, completionRate: int)

  /** `getSummaryReport`: null for a missing user, otherwise the aggregates over the window. */
  method GetSummaryReport(users: seq<User>, habits: seq<Habit>, completions: seq<Completion>, userId: Id,
                          period: string, now: int, dateOf: int -> string, today: string)
    returns (r: Option<Summary>)
    ensures r.None? <==> GetUser(users, userId).None?
    ensures r.Some? ==>
      var days := PeriodDays(period);
      var start := now - days * DayMs;
      var cs := FilterWith(completions, InWindow, (userId, start));
      var hs := FilterWith(habits, HabitOwnedBy, userId);
      && r.value.period == period && r.value.startDate == start && r.value.endDate == now
      && r.value.totalCompletions == |cs|
      && r.value.totalXP == SumOf(cs, XpOf)
      && r.value.uniqueHabitsCompleted == |HabitIds(cs)| <= |cs|
      && r.value.totalHabits == |hs|
      && r.value.averageCompletionsPerDay == AveragePerDay(|cs|, days)
      && r.value.bestHabit == Scan(Fold([], cs, HabitIdOf, One), hs).1
      && r.value.currentStreak == GetUser(users, userId).value.currentStreak
      && (r.value.streakMaintained <==> exists c :: c in cs && dateOf(c.completedAt) == today)
      && r.value.completionRate == CompletionRate(|cs|, |hs|, days)
  {
    var user := GetUser(users, userId);
    if user.None? {
      return None;
    }
    var days := PeriodDays(period);
    var start := now - days * DayMs;
    var cs := FilterWith(completions, InWindow, (userId, start));
    var hs := FilterWith(habits, HabitOwnedBy, userId);
    var totalXP := SumOf(cs, XpOf);
    var unique := |HabitIds(cs)|;
    HabitIdsAtMostCompletions(cs);
    var counts := TallyBy([], cs, HabitIdOf, One);
    var _, best := BestHabitOf(counts, hs);
    var maintained := exists c | c in cs :: dateOf(c.completedAt) == today;
    r := Some(Summary(period, start, now, |cs|, totalXP, unique, |hs|, AveragePerDay(|cs|, days),
                      best, user.value.currentStreak, maintained, CompletionRate(|cs|, |hs|, days)));
  }

  /** The `for ... of Object.entries(habitCompletionCount)` loop. */
  method BestHabitOf(counts: Dict<Id>, hs: seq<Habit>) returns (maxCompletions: int, best: Option<BestHabit>)
    ensures (maxCompletions, best) == Scan(counts, hs)
  {
    maxCompletions, best := 0, None;
    var i := 0;
    assert counts[..0] == [];
    while i < |counts|
      invariant 0 <= i <= |counts|
      invariant (maxCompletions, best) == Scan(counts[..i], hs)
    {
      assert counts[..i + 1][..i] == counts[..i];
      var habitId := counts[i].0;
      var count := counts[i].1;
      if count > maxCompletions {
        maxCompletions := count;
        var habit := GetHabit(hs, habitId);
        if habit.Some? {
          best := Some(BestHabit(habit.value.name, count));
        }
      }
      i := i + 1;
    }
    assert counts[..i] == counts;
  }

  /** Every count in the per-habit counter is at least 1, and the counts add up to the number of completions. */
  lemma HabitCountsPositive(cs: seq<Completion>)
    ensures forall i :: 0 <= i < |Fold([], cs, HabitIdOf, One)| ==> Fold([], cs, HabitIdOf, One)[i].1 >= 1
    ensures Total(Fold([], cs, HabitIdOf, One)) == |cs|
  {
    var none: Dict<Id> := [];
    FoldTallied(none, cs, HabitIdOf, One);
    SumOfOne(cs);
    var d := Fold(none, cs, HabitIdOf, One);
    forall i | 0 <= i < |d|
      ensures d[i].1 >= 1
    {
      GetAt(d, i);
      assert d[i].0 in KeyOrder([], cs, HabitIdOf) by { assert Keys(d)[i] == d[i].0; }
      var j :| 0 <= j < |cs| && HabitIdOf(cs[j]) == d[i].0;
      SumByOne(cs, HabitIdOf, d[i].0);
      CountByMember(cs, HabitIdOf, j);
    }
  }

  lemma {:induction false} CountByMember<T, K>(s: seq<T>, key: T -> K, j: nat)
    requires j < |s|
    ensures CountBy(s, key, key(s[j])) >= 1
  {
    if j < |s| - 1 {
      CountByMember(s[..|s| - 1], key, j);
    }
  }

  // ---- getUpcomingAchievements

  /** An entry of the upcoming-achievements list, with its progress percentage. */
  datatype Upcoming = Upcoming(
    kind: string, title: string, description: string, icon: string, xpReward: int,
    progress: real, required: int, current: int)

  function Min(x: real, y: real): real { if x <= y then x else y }

  /** `Math.min((current / required) * 100, 100)`. */
  function Percent(current: int, required: int): (p: real)
    requires required > 0
    ensures p <= 100.0
    ensures p == 100.0 <==> current >= required
  {
    Min((current as real / required as real) * 100.0, 100.0)
  }

  function MinInt(a: int, b: int): int { if a <= b then a else b }

  /** The nine entries of `allAchievements`, with the user's progress on each. */
  function UpcomingCatalog(u: User): (r: seq<Upcoming>)
    ensures |r| == 9
    ensures forall i :: 0 <= i < |r| ==> r[i].progress <= 100.0
  {
    [ Upcoming("first_habit", "Getting Started", "Create your first habit", "\U{1F3AF}", 50,
               if u.totalHabitsCompleted > 0 then 100.0 else 0.0, 1, MinInt(u.totalHabitsCompleted, 1)),
      Upcoming("streak_3", "On a Roll", "Maintain a 3-day streak", "\U{1F525}", 100,
               Percent(u.currentStreak, 3), 3, u.currentStreak),
      Upcoming("streak_7", "Week Warrior", "Maintain a 7-day streak", "\U{2694}\U{FE0F}", 200,
               Percent(u.currentStreak, 7), 7, u.currentStreak),
      Upcoming("streak_30", "Month Master", "Maintain a 30-day streak", "\U{1F451}", 500,
               Percent(u.currentStreak, 30), 30, u.currentStreak),
      Upcoming("complete_10", "Consistent", "Complete 10 habits", "\U{2705}", 100,
               Percent(u.totalHabitsCompleted, 10), 10, u.totalHabitsCompleted),
      Upcoming("complete_50", "Dedicated", "Complete 50 habits", "\U{1F4AA}", 300,
               Percent(u.totalHabitsCompleted, 50), 50, u.totalHabitsCompleted),
      Upcoming("complete_100", "Unstoppable", "Complete 100 habits", "\U{1F680}", 500,
               Percent(u.totalHabitsCompleted, 100), 100, u.totalHabitsCompleted),
      Upcoming("level_5", "Rising Star", "Reach Level 5", "\U{2B50}", 200,
               Percent(u.level, 5), 5, u.level),
      Upcoming("level_10", "Elite Tracker", "Reach Level 10 (Max Level)", "\U{1F48E}", 1000,
               Percent(u.level, 10), 10, u.level) ]
  }

  /** The filter `!unlockedTypes.has(a.type) && a.progress < 100`. */
  predicate StillOpen(held: set<string>, a: Upcoming) {
    a.kind !in held && a.progress < 100.0
  }

  function ProgressOf(a: Upcoming): real { a.progress }

  /** The types the user has unlocked (`unlockedTypes`). */
  function HeldTypes(unlocks: seq<Unlock>, userId: Id): set<string> {
    ConvexAchievements.UnlockedKinds(FilterWith(unlocks, UnlockOwnedBy, userId))
  }

  /** `getUpcomingAchievements`: the open entries, highest progress first, at most five. */
  function GetUpcomingAchievements(users: seq<User>, unlocks: seq<Unlock>, userId: Id): (r: seq<Upcoming>)
    ensures GetUser(users, userId).None? ==> r == []
    ensures |r| <= 5
    ensures SortedDesc(r, ProgressOf)
    ensures GetUser(users, userId).Some? ==> forall a :: a in r ==>
      a in UpcomingCatalog(GetUser(users, userId).value) && a.kind !in HeldTypes(unlocks, userId) && a.progress < 100.0
  {
    match GetUser(users, userId)
    case None => []
    case Some(u) =>
      var open := FilterWith(UpcomingCatalog(u), StillOpen, HeldTypes(unlocks, userId));
      SliceOfSortedFrom(open, ProgressOf, 5);
      SliceTo(SortDesc(open, ProgressOf), 5)
  }

  /**
   * The list holds the five open entries closest to unlocking: every open entry it leaves out has no
   * more progress than any entry it shows, and when it shows fewer than five it shows every open entry.
   */
  lemma UpcomingAreClosest(users: seq<User>, unlocks: seq<Unlock>, userId: Id)
    requires GetUser(users, userId).Some?
    ensures var open := FilterWith(UpcomingCatalog(GetUser(users, userId).value), StillOpen, HeldTypes(unlocks, userId));
      var r := GetUpcomingAchievements(users, unlocks, userId);
      && multiset(r) <= multiset(open)
      && (forall x :: multiset(open)[x] > multiset(r)[x] ==> forall y :: y in r ==> y.progress >= x.progress)
      && (|r| < 5 ==> multiset(r) == multiset(open))
  {
    var open := FilterWith(UpcomingCatalog(GetUser(users, userId).value), StillOpen, HeldTypes(unlocks, userId));
    SliceOfSortedIsTop(open, ProgressOf, 5);
    var t := SortDesc(open, ProgressOf);
    if |t| < 5 {
      assert SliceTo(t, 5) == t;
    }
  }

  // ---- unlockTheme

  /** `themeRequirements[themeName] || 1`: the level a theme needs. */
  function ThemeLevel(theme: string): (level: int)
    ensures theme == "ocean" ==> level == 3
    ensures theme == "sunset" ==> level == 5
    ensures theme == "forest" ==> level == 7
    ensures theme == "galaxy" ==> level == 10
    ensures theme !in {"ocean", "sunset", "forest", "galaxy"} ==> level == 1
  {
    var requirements := map["ocean" := 3, "sunset" := 5, "forest" := 7, "galaxy" := 10];
    if theme in requirements && requirements[theme] != 0 then requirements[theme] else 1
  }

  datatype ThemeOutcome = ThemeUnlocked(theme: string) | UserNotFound | LevelRequired(level: int)

  /** `unlockTheme`: throws for a missing user or a level below the theme's requirement. */
  function UnlockTheme(users: seq<User>, userId: Id, theme: string): (r: ThemeOutcome)
    ensures r.UserNotFound? <==> GetUser(users, userId).None?
    ensures GetUser(users, userId).Some? ==>
      (r.ThemeUnlocked? <==> GetUser(users, userId).value.level >= ThemeLevel(theme))
    ensures r.ThemeUnlocked? ==> r.theme == theme
    ensures r.LevelRequired? ==> r.level == ThemeLevel(theme)
  {
    match GetUser(users, userId)
    case None => UserNotFound
    case Some(u) =>
      var required := ThemeLevel(theme);
      if u.level < required then LevelRequired(required) else ThemeUnlocked(theme)
  }

  /** Raising the level never locks a theme again. */
  lemma UnlockThemeMonotone(users: seq<User>, u: User, level: int, theme: string)
    requires GetUser(users, u.id) == Some(u) && level >= u.level
    requires UnlockTheme(users, u.id, theme).ThemeUnlocked?
    ensures UnlockTheme(SetUser(users, u.(level := level)), u.id, theme).ThemeUnlocked?
  {
    GetSetUser(users, u.(level := level), u.id);
  }
}
