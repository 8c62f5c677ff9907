/**
 * `convex/analytics.ts`: the read-only statistics views over one user's habits and completions.
 * Every view looks the user up by the external `userId` string (the `by_user_id` index) first.
 *
 * The clock is the parameter `now` (ms); `isoDate` maps a timestamp to `toISOString().split('T')[0]`.
 */
module ConvexAnalytics {
  import opened Wrappers
  import opened Seqs
  import opened Tally
  import opened ConvexStore
  import opened ConvexRewards

  // ---- getCompletionStats

  /** `args.days || 30`: an absent or zero day count means 30. */
  function DaysOrDefault(days: Option<int>): (n: int)
    ensures days.None? || days == Some(0) ==> n == 30
    ensures days.Some? && days.value != 0 ==> n == days.value
  {
    match days
    case None => 30
    case Some(d) => if d == 0 then 30 else d
  }

  function DateOf(c: Completion): string { c.dateString }

  datatype DayStat = DayStat(date: string, completions: int, xp: int)

  /** The row for the day `offset` days before `now`, from the two per-date counters. */
  function DayRow(counts: Dict<string>, xps: Dict<string>, now: int, isoDate: int -> string, offset: int): DayStat {
    var date := isoDate(now - offset * DayMs);
    DayStat(date, Get(counts, date), Get(xps, date))
  }

  /**
   * `getCompletionStats`: null for an unknown user; otherwise one row per day of the window, oldest
   * first, each with that date's number of completions and XP earned (0 for a date without any).
   */
  method GetCompletionStats(users: seq<User>, completions: seq<Completion>, userId: string, days: Option<int>,
                            now: int, isoDate: int -> string)
    returns (r: Option<seq<DayStat>>)
    ensures r.None? <==> UserByUserId(users, userId).None?
    ensures r.Some? ==>
      var n := DaysOrDefault(days);
      var cs := FilterWith(completions, InWindow, (UserByUserId(users, userId).value.id, now - n * DayMs));
      && |r.value| == (if n > 0 then n else 0)
      && forall k :: 0 <= k < |r.value| ==>
           var date := isoDate(now - (n - 1 - k) * DayMs);
           r.value[k] == DayStat(date, CountBy(cs, DateOf, date), SumBy(cs, DateOf, XpOf, date))
  {
    var user := UserByUserId(users, userId);
    if user.None? {
      return None;
    }
    var n := DaysOrDefault(days);
    var cs := FilterWith(completions, InWindow, (user.value.id, now - n * DayMs));
    var rows := DayRows(cs, n, now, isoDate);
    r := Some(rows);
  }

  /** The rows of the `n` days before `now` for the window's completions `cs`, oldest first. */
  method DayRows(cs: seq<Completion>, n: int, now: int, isoDate: int -> string) returns (rows: seq<DayStat>)
    ensures |rows| == (if n > 0 then n else 0)
    ensures forall k :: 0 <= k < |rows| ==>
      var date := isoDate(now - (n - 1 - k) * DayMs);
      rows[k] == DayStat(date, CountBy(cs, DateOf, date), SumBy(cs, DateOf, XpOf, date))
  {
    var counts, xps := TallyTwo(cs, DateOf, One, XpOf);
    rows := FillDays(counts, xps, n, now, isoDate);
    DayRowsCount(cs, rows, n, now, isoDate);
  }

  /** Rows filled from the two tallies of `cs` hold, per day, the completions of `cs` dated that day. */
  lemma DayRowsCount(cs: seq<Completion>, rows: seq<DayStat>, n: int, now: int, isoDate: int -> string)
    requires forall k :: 0 <= k < |rows| ==>
      rows[k] == DayRow(Fold([], cs, DateOf, One), Fold([], cs, DateOf, XpOf), now, isoDate, n - 1 - k)
    ensures forall k :: 0 <= k < |rows| ==>
      var date := isoDate(now - (n - 1 - k) * DayMs);
      rows[k] == DayStat(date, CountBy(cs, DateOf, date), SumBy(cs, DateOf, XpOf, date))
  {
    forall k | 0 <= k < |rows|
      ensures var date := isoDate(now - (n - 1 - k) * DayMs);
        rows[k] == DayStat(date, CountBy(cs, DateOf, date), SumBy(cs, DateOf, XpOf, date))
    {
      DayRowCounts(cs, now, isoDate, n - 1 - k);
    }
  }

  /** A day's row holds the number of completions dated that day and the XP they earned. */
  lemma DayRowCounts(cs: seq<Completion>, now: int, isoDate: int -> string, offset: int)
    ensures var date := isoDate(now - offset * DayMs);
      DayRow(Fold([], cs, DateOf, One), Fold([], cs, DateOf, XpOf), now, isoDate, offset)
        == DayStat(date, CountBy(cs, DateOf, date), SumBy(cs, DateOf, XpOf, date))
  {
    var none: Dict<string> := [];
    FoldTallied(none, cs, DateOf, One);
    FoldTallied(none, cs, DateOf, XpOf);
    SumByOne(cs, DateOf, isoDate(now - offset * DayMs));
  }

  /** The `for (let i = days - 1; i >= 0; i--)` loop that pushes one row per day. */
  method FillDays(counts: Dict<string>, xps: Dict<string>, n: int, now: int, isoDate: int -> string)
    returns (rows: seq<DayStat>)
    ensures |rows| == if n > 0 then n else 0
    ensures forall k :: 0 <= k < |rows| ==> rows[k] == DayRow(counts, xps, now, isoDate, n - 1 - k)
  {
    rows := [];
    var i := n - 1;
    while i >= 0
      invariant n > 0 ==> -1 <= i
      invariant n <= 0 ==> i == n - 1
      invariant |rows| == n - 1 - i
      invariant forall k :: 0 <= k < |rows| ==> rows[k] == DayRow(counts, xps, now, isoDate, n - 1 - k)
      decreases i + 1
    {
      rows := rows + [DayRow(counts, xps, now, isoDate, i)];
      i := i - 1;
    }
  }

  /** The per-date counts add up to the number of completions in the window. */
  lemma DateCountsSumToCompletions(cs: seq<Completion>)
    ensures Total(Fold([], cs, DateOf, One)) == |cs|
    ensures Distinct(Keys(Fold([], cs, DateOf, One)))
  {
    var none: Dict<string> := [];
    FoldTallied(none, cs, DateOf, One);
    SumOfOne(cs);
  }

  // ---- getCompletionRateByCategory

  function CategoryOf(h: Habit): string { h.category }

  function TargetOf(h: Habit): int { h.targetGoal }

  function CompletionsOf(h: Habit): int { h.totalCompletions }

  /** `stats.total > 0 ? (stats.completed / stats.total) * 100 : 0`. */
  function RateOf(completed: int, total: int): real {
    if total > 0 then (completed as real / total as real) * 100.0 else 0.0
  }

  datatype CategoryRate = CategoryRate(category: string, rate: real, completed: int, total: int)

  /** The habits query `by_user` on the user's document id. */
  function UserHabits(habits: seq<Habit>, u: User): seq<Habit> {
    FilterWith(habits, HabitOwnedBy, u.id)
  }

  /**
   * `getCompletionRateByCategory`: one row per category of the user's habits, in order of first
   * appearance, holding the summed target goals and completions of that category.  This is what the
   * handler computes for categories that are neither array indices nor `Object.prototype` names
   * (see `Tally`).
   */
  method GetCompletionRateByCategory(users: seq<User>, habits: seq<Habit>, userId: string) returns (r: seq<CategoryRate>)
    ensures UserByUserId(users, userId).None? ==> r == []
    ensures UserByUserId(users, userId).Some? ==>
      var hs := UserHabits(habits, UserByUserId(users, userId).value);
      var cats := KeyOrder([], hs, CategoryOf);
      && |r| == |cats|
      && Distinct(cats)
      && (forall h :: h in hs ==> h.category in cats)
      && forall k :: 0 <= k < |r| ==>
           var total := SumBy(hs, CategoryOf, TargetOf, cats[k]);
           var completed := SumBy(hs, CategoryOf, CompletionsOf, cats[k]);
           r[k] == CategoryRate(cats[k], RateOf(completed, total), completed, total)
  {
    var user := UserByUserId(users, userId);
    if user.None? {
      return [];
    }
    var hs := UserHabits(habits, user.value);
    var totals, completed := TallyTwo(hs, CategoryOf, TargetOf, CompletionsOf);
    var none: Dict<string> := [];
    FoldTallied(none, hs, CategoryOf, TargetOf);
    FoldTallied(none, hs, CategoryOf, CompletionsOf);
    assert Keys(totals) == Keys(completed);
    r := seq(|totals|, k requires 0 <= k < |totals| =>
      CategoryRate(totals[k].0, RateOf(completed[k].1, totals[k].1), completed[k].1, totals[k].1));
    forall k | 0 <= k < |r|
      ensures var cat := KeyOrder([], hs, CategoryOf)[k];
        r[k] == CategoryRate(cat, RateOf(SumBy(hs, CategoryOf, CompletionsOf, cat), SumBy(hs, CategoryOf, TargetOf, cat)),
                             SumBy(hs, CategoryOf, CompletionsOf, cat), SumBy(hs, CategoryOf, TargetOf, cat))
    {
      assert Keys(totals)[k] == totals[k].0 && Keys(completed)[k] == completed[k].0;
      GetAt(totals, k);
      GetAt(completed, k);
    }
    forall h | h in hs
      ensures h.category in KeyOrder([], hs, CategoryOf)
    {
      var j :| 0 <= j < |hs| && hs[j] == h;
      assert CategoryOf(hs[j]) == h.category;
    }
  }

  // ---- getStreakAnalysis

  /** `h.isActive && !h.isPaused`. */
  predicate Running(u: (), h: Habit) { h.isActive && !h.isPaused }

  datatype StreakRow = StreakRow(habitName: string, streak: int, longest: int)

  datatype StreakAnalysis = StreakAnalysis(
    totalHabits: int, activeHabits: int, currentStreaks: seq<StreakRow>,
    averageStreak: real, longestOverallStreak: int)

  function CurrentStreaks(hs: seq<Habit>): (r: seq<int>)
    ensures |r| == |hs| && forall i :: 0 <= i < |hs| ==> r[i] == hs[i].currentStreak
  {
    seq(|hs|, i requires 0 <= i < |hs| => hs[i].currentStreak)
  }

  /** `activeHabits.map(h => ({ habitName, streak, longest }))`. */
  function StreakRows(hs: seq<Habit>): (r: seq<StreakRow>)
    ensures |r| == |hs|
    ensures forall i :: 0 <= i < |hs| ==> r[i] == StreakRow(hs[i].name, hs[i].currentStreak, hs[i].longestStreak)
  {
    seq(|hs|, i requires 0 <= i < |hs| => StreakRow(hs[i].name, hs[i].currentStreak, hs[i].longestStreak))
  }

  function LongestStreaks(hs: seq<Habit>): (r: seq<int>)
    ensures |r| == |hs| && forall i :: 0 <= i < |hs| ==> r[i] == hs[i].longestStreak
  {
    seq(|hs|, i requires 0 <= i < |hs| => hs[i].longestStreak)
  }

  /**
   * `getStreakAnalysis`: null for an unknown user; otherwise counts of all and of running habits, one
   * row per running habit, the mean current streak of the running habits (0 without any) and the
   * longest streak of any habit, running or not (0 without habits).
   */
  function GetStreakAnalysis(users: seq<User>, habits: seq<Habit>, userId: string): (r: Option<StreakAnalysis>)
    ensures r.None? <==> UserByUserId(users, userId).None?
    ensures r.Some? ==>
      var hs := UserHabits(habits, UserByUserId(users, userId).value);
      var running := FilterWith(hs, Running, ());
      && r.value.totalHabits == |hs|
      && r.value.activeHabits == |running| <= |hs|
      && |r.value.currentStreaks| == |running|
      && (forall i :: 0 <= i < |running| ==>
            r.value.currentStreaks[i] == StreakRow(running[i].name, running[i].currentStreak, running[i].longestStreak))
      && (running == [] ==> r.value.averageStreak == 0.0)
      && (running != [] ==> r.value.averageStreak == Sum(CurrentStreaks(running)) as real / |running| as real)
      && r.value.longestOverallStreak >= 0
      && (forall h :: h in hs ==> h.longestStreak <= r.value.longestOverallStreak)
      && (r.value.longestOverallStreak == 0 || exists h :: h in hs && h.longestStreak == r.value.longestOverallStreak)
  {
    match UserByUserId(users, userId)
    case None => None
    case Some(u) =>
      var hs := UserHabits(habits, u);
      var running := FilterWith(hs, Running, ());
      var rows := StreakRows(running);
      var average := if |running| > 0 then Sum(CurrentStreaks(running)) as real / |running| as real else 0.0;
      var longest := MaxOrZero(LongestStreaks(hs));
      LongestOverall(hs);
      Some(StreakAnalysis(|hs|, |running|, rows, average, longest))
  }

  /** `Math.max(...habits.map(h => h.longestStreak), 0)` bounds every habit's longest streak and is 0 or one of them. */
  lemma LongestOverall(hs: seq<Habit>)
    ensures forall h :: h in hs ==> h.longestStreak <= MaxOrZero(LongestStreaks(hs))
    ensures MaxOrZero(LongestStreaks(hs)) == 0 || exists h :: h in hs && h.longestStreak == MaxOrZero(LongestStreaks(hs))
  {
    var longest := MaxOrZero(LongestStreaks(hs));
    forall h | h in hs
      ensures h.longestStreak <= longest
    {
      var i :| 0 <= i < |hs| && hs[i] == h;
      assert LongestStreaks(hs)[i] == h.longestStreak;
    }
    if longest != 0 {
      var i :| 0 <= i < |hs| && LongestStreaks(hs)[i] == longest;
      assert hs[i] in hs;
    }
  }

  // ---- getTimeOfDayAnalysis

  function TimeOf(h: Habit): string { h.timeOfDay }

  /** The counter `timeStats` starts with the four buckets at 0. */
  const TimeBuckets: Dict<string> := [("morning", 0), ("afternoon", 0), ("evening", 0), ("anytime", 0)]

  datatype TimeRow = TimeRow(time: string, completions: int)

  function SumRows(rows: seq<TimeRow>): int {
    if rows == [] then 0 else rows[0].completions + SumRows(rows[1..])
  }

  function Rows(d: Dict<string>): (rows: seq<TimeRow>)
    ensures |rows| == |d| && forall i :: 0 <= i < |d| ==> rows[i] == TimeRow(d[i].0, d[i].1)
  {
    seq(|d|, i requires 0 <= i < |d| => TimeRow(d[i].0, d[i].1))
  }

  lemma {:induction false} SumRowsTotal(d: Dict<string>)
    ensures SumRows(Rows(d)) == Total(d)
  {
    if d != [] {
      assert Rows(d)[1..] == Rows(d[1..]);
      SumRowsTotal(d[1..]);
    }
  }

  lemma TimeBucketsEmpty()
    ensures Distinct(Keys(TimeBuckets))
    ensures Keys(TimeBuckets) == ["morning", "afternoon", "evening", "anytime"]
    ensures forall k :: Get(TimeBuckets, k) == 0
    ensures Total(TimeBuckets) == 0
  {
    assert Keys(TimeBuckets) == ["morning", "afternoon", "evening", "anytime"];
  }

  /**
   * `getTimeOfDayAnalysis`: [] for an unknown user; otherwise one row per time of day, the four
   * standard buckets first, each with the summed completions of the habits at that time.  This is
   * what the handler computes for times of day that are neither array indices nor
   * `Object.prototype` names (see `Tally`).
   */
  method GetTimeOfDayAnalysis(users: seq<User>, habits: seq<Habit>, userId: string) returns (r: seq<TimeRow>)
    ensures UserByUserId(users, userId).None? ==> r == []
    ensures UserByUserId(users, userId).Some? ==>
      var hs := UserHabits(habits, UserByUserId(users, userId).value);
      && |r| >= 4
      && r[0].time == "morning" && r[1].time == "afternoon" && r[2].time == "evening" && r[3].time == "anytime"
      && (forall i, j :: 0 <= i < j < |r| ==> r[i].time != r[j].time)
      && (forall k :: 0 <= k < |r| ==> r[k].completions == SumBy(hs, TimeOf, CompletionsOf, r[k].time))
      && (forall h :: h in hs ==> exists k :: 0 <= k < |r| && r[k].time == h.timeOfDay)
      && SumRows(r) == SumOf(hs, CompletionsOf)
  {
    var user := UserByUserId(users, userId);
    if user.None? {
      return [];
    }
    var hs := UserHabits(habits, user.value);
    TimeBucketsEmpty();
    var stats := TallyBy(TimeBuckets, hs, TimeOf, CompletionsOf);
    r := Rows(stats);
    TimeRows(hs, stats);
  }

  /** The rows of a filled `timeStats` counter, in the terms `getTimeOfDayAnalysis` promises. */
  lemma TimeRows(hs: seq<Habit>, stats: Dict<string>)
    requires Distinct(Keys(stats))
    requires Keys(stats) == KeyOrder(Keys(TimeBuckets), hs, TimeOf)
    requires forall k :: Get(stats, k) == Get(TimeBuckets, k) + SumBy(hs, TimeOf, CompletionsOf, k)
    requires Total(stats) == Total(TimeBuckets) + SumOf(hs, CompletionsOf)
    ensures var r := Rows(stats);
      && |r| >= 4
      && r[0].time == "morning" && r[1].time == "afternoon" && r[2].time == "evening" && r[3].time == "anytime"
      && (forall i, j :: 0 <= i < j < |r| ==> r[i].time != r[j].time)
      && (forall k :: 0 <= k < |r| ==> r[k].completions == SumBy(hs, TimeOf, CompletionsOf, r[k].time))
      && (forall h :: h in hs ==> exists k :: 0 <= k < |r| && r[k].time == h.timeOfDay)
      && SumRows(r) == SumOf(hs, CompletionsOf)
  {
    TimeRowsOrder(hs, stats);
    TimeRowsValues(hs, stats);
    TimeRowsCover(hs, stats);
    SumRowsTotal(stats);
    TimeBucketsEmpty();
  }

  lemma TimeRowsOrder(hs: seq<Habit>, stats: Dict<string>)
    requires Distinct(Keys(stats))
    requires Keys(stats) == KeyOrder(Keys(TimeBuckets), hs, TimeOf)
    ensures var r := Rows(stats);
      && |r| >= 4
      && r[0].time == "morning" && r[1].time == "afternoon" && r[2].time == "evening" && r[3].time == "anytime"
      && (forall i, j :: 0 <= i < j < |r| ==> r[i].time != r[j].time)
  {
    var r := Rows(stats);
    TimeBucketsEmpty();
    assert Keys(TimeBuckets) <= Keys(stats);
    assert Keys(stats)[..4] == Keys(TimeBuckets);
    assert r[0].time == Keys(stats)[0] && r[1].time == Keys(stats)[1];
    assert r[2].time == Keys(stats)[2] && r[3].time == Keys(stats)[3];
    forall i, j | 0 <= i < j < |r|
      ensures r[i].time != r[j].time
    {
      assert Keys(stats)[i] == r[i].time && Keys(stats)[j] == r[j].time;
    }
  }

  lemma TimeRowsValues(hs: seq<Habit>, stats: Dict<string>)
    requires Distinct(Keys(stats))
    requires forall k :: Get(stats, k) == Get(TimeBuckets, k) + SumBy(hs, TimeOf, CompletionsOf, k)
    ensures var r := Rows(stats);
      forall k :: 0 <= k < |r| ==> r[k].completions == SumBy(hs, TimeOf, CompletionsOf, r[k].time)
  {
    var r := Rows(stats);
    TimeBucketsEmpty();
    forall k | 0 <= k < |r|
      ensures r[k].completions == SumBy(hs, TimeOf, CompletionsOf, r[k].time)
    {
      GetAt(stats, k);
    }
  }

  lemma TimeRowsCover(hs: seq<Habit>, stats: Dict<string>)
    requires Keys(stats) == KeyOrder(Keys(TimeBuckets), hs, TimeOf)
    ensures var r := Rows(stats);
      forall h :: h in hs ==> exists k :: 0 <= k < |r| && r[k].time == h.timeOfDay
  {
    var r := Rows(stats);
    forall h | h in hs
      ensures exists k :: 0 <= k < |r| && r[k].time == h.timeOfDay
    {
      var j :| 0 <= j < |hs| && hs[j] == h;
      assert TimeOf(hs[j]) == h.timeOfDay;
      assert h.timeOfDay in Keys(stats);
      var k :| 0 <= k < |Keys(stats)| && Keys(stats)[k] == h.timeOfDay;
      assert r[k].time == h.timeOfDay;
    }
  }

  // ---- getBestPerformingHabits

  /** `args.limit || 5`: an absent or zero limit means 5. */
  function LimitOrDefault(limit: Option<int>): (n: int)
    ensures limit.None? || limit == Some(0) ==> n == 5
    ensures limit.Some? && limit.value != 0 ==> n == limit.value
  {
    match limit
    case None => 5
    case Some(l) => if l == 0 then 5 else l
  }

  /** A habit with its completion rate attached (`{ ...habit, completionRate }`). */
  datatype RatedHabit = RatedHabit(habit: Habit, completionRate: real)

  function Rated(h: Habit): (r: RatedHabit)
    ensures r.habit == h
    ensures h.targetGoal <= 0 ==> r.completionRate == 0.0
  {
    RatedHabit(h, RateOf(h.totalCompletions, h.targetGoal))
  }

  function RateKey(r: RatedHabit): real { r.completionRate }

  function RatedAll(hs: seq<Habit>): (r: seq<RatedHabit>)
    ensures |r| == |hs| && forall i :: 0 <= i < |hs| ==> r[i] == Rated(hs[i])
  {
    seq(|hs|, i requires 0 <= i < |hs| => Rated(hs[i]))
  }

  /**
   * `getBestPerformingHabits`: [] for an unknown user; otherwise the user's habits by completion rate,
   * highest first, cut to the limit (a negative limit drops that many from the end).
   */
  function GetBestPerformingHabits(users: seq<User>, habits: seq<Habit>, userId: string, limit: Option<int>)
    : (r: seq<RatedHabit>)
    ensures UserByUserId(users, userId).None? ==> r == []
    ensures SortedDesc(r, RateKey)
    ensures UserByUserId(users, userId).Some? ==>
      var hs := UserHabits(habits, UserByUserId(users, userId).value);
      var n := LimitOrDefault(limit);
      && (n >= 0 ==> |r| == if n < |hs| then n else |hs|)
      && (n < 0 ==> |r| == if |hs| + n > 0 then |hs| + n else 0)
      && forall x :: x in r ==> x.habit in hs && x == Rated(x.habit)
  {
    match UserByUserId(users, userId)
    case None => []
    case Some(u) =>
      var rated := RatedAll(UserHabits(habits, u));
      SliceOfSortedFrom(rated, RateKey, LimitOrDefault(limit));
      assert forall x :: x in rated ==> x.habit in UserHabits(habits, u) && x == Rated(x.habit);
      SliceTo(SortDesc(rated, RateKey), LimitOrDefault(limit))
  }

  /** The habits shown rate at least as high as every habit the limit leaves out. */
  lemma BestPerformingAreBest(users: seq<User>, habits: seq<Habit>, userId: string, limit: Option<int>)
    requires UserByUserId(users, userId).Some?
    ensures var rated := RatedAll(UserHabits(habits, UserByUserId(users, userId).value));
      var r := GetBestPerformingHabits(users, habits, userId, limit);
      && multiset(r) <= multiset(rated)
      && forall x :: multiset(rated)[x] > multiset(r)[x] ==> forall y :: y in r ==> y.completionRate >= x.completionRate
  {
    var rated := RatedAll(UserHabits(habits, UserByUserId(users, userId).value));
    SliceOfSortedIsTop(rated, RateKey, LimitOrDefault(limit));
  }
}
