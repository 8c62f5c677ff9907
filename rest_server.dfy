/**
 * The gamification handlers of the Express backend, `backend/server.js`: creating a habit
 * (`POST /api/habits`), completing it (`POST /api/habits/:habitId/complete`) and the dashboard
 * (`GET /api/dashboard`).
 *
 * The authenticated user (`req.user`) is given by id and is a stored user. `new Date()` is the
 * parameter `now`, in milliseconds. Elapsed hours are compared in whole milliseconds:
 * "fewer than `recurrenceHours` hours" is `diff < recurrenceHours * HourMs`, and
 * "at most 1.5 times `recurrenceHours` hours" is `2 * diff <= 3 * recurrenceHours * HourMs`.
 */
module RestServer {
  import opened Wrappers
  import opened Seqs
  import opened Tally
  import opened JsText
  import opened RestStore

  const HourMs := 3600000

  /** A handler's answer: the JSON body of a 200 response, or an error status with its message. */
  datatype Reply<T> = Success(value: T) | Failure(status: int, message: string)

  /** Dividing the elapsed milliseconds by an hour and comparing, as the handlers do, is the integer comparison. */
  lemma HourComparisons(diff: int, hours: int)
    ensures diff < hours * HourMs <==> (diff as real) / (HourMs as real) < hours as real
    ensures 2 * diff <= 3 * hours * HourMs <==> (diff as real) / (HourMs as real) <= (hours as real) * 1.5
  {
    var x := (diff as real) / (HourMs as real);
    assert diff as real == x * (HourMs as real);
    assert (hours * HourMs) as real == (hours as real) * (HourMs as real);
    assert (3 * hours * HourMs) as real == 3.0 * (hours as real) * (HourMs as real);
  }

  // ---- a habit's history

  /**
   * What every habit the handlers write keeps: the streak counts completions, so it never exceeds
   * their number, and `lastCompletionDate` is the date of the last completion entry.
   */
  predicate Consistent(h: Habit) {
    && 0 <= h.streak <= |h.completions|
    && h.lastCompletionDate == if h.completions == [] then None else Some(h.completions[|h.completions| - 1])
  }

  /**
   * The completion window: a last completion exists and fewer than `recurrenceHours` hours have
   * passed since. Inside it a completion is refused and the dashboard lists the habit as completed.
   */
  predicate DoneAt(now: int, h: Habit) {
    h.lastCompletionDate.Some? && now - h.lastCompletionDate.value < h.recurrenceHours * HourMs
  }

  predicate PendingAt(now: int, h: Habit) { !DoneAt(now, h) }

  /** The streak rule: a first completion starts at 1; a later one continues within 1.5 times the recurrence. */
  function NextStreak(h: Habit, now: int): (n: int)
    ensures n == 1 || n == h.streak + 1
    ensures n == h.streak + 1 && n != 1 ==> h.lastCompletionDate.Some?
  {
    match h.lastCompletionDate
    case None => 1
    case Some(last) => if 2 * (now - last) <= 3 * h.recurrenceHours * HourMs then h.streak + 1 else 1
  }

  /** The habit after a completion at `now`: one more entry, the new streak, `lastCompletionDate = now`. */
  function AfterCompletion(h: Habit, now: int): (r: Habit)
    ensures |r.completions| == |h.completions| + 1
    ensures r.completions[..|h.completions|] == h.completions && r.completions[|h.completions|] == now
    ensures r.lastCompletionDate == Some(now)
    ensures h.streak >= 0 ==> r.streak >= 1
    ensures Consistent(h) ==> Consistent(r)
    ensures r.id == h.id && r.user == h.user && r.recurrenceHours == h.recurrenceHours
  {
    h.(completions := h.completions + [now], streak := NextStreak(h, now), lastCompletionDate := Some(now))
  }

  /** The streak continues exactly when the previous completion lies at most 1.5 recurrences back. */
  lemma StreakRule(h: Habit, now: int)
    ensures h.lastCompletionDate.None? ==> AfterCompletion(h, now).streak == 1
    ensures h.lastCompletionDate.Some? ==>
      var hours := (now - h.lastCompletionDate.value) as real / (HourMs as real);
      AfterCompletion(h, now).streak == if hours <= (h.recurrenceHours as real) * 1.5 then h.streak + 1 else 1
  {
    if h.lastCompletionDate.Some? {
      HourComparisons(now - h.lastCompletionDate.value, h.recurrenceHours);
    }
  }

  /** Right after a completion the habit is inside its window: a second request at the same moment is refused. */
  lemma CompletedIsDone(h: Habit, now: int)
    requires h.recurrenceHours >= 1
    ensures DoneAt(now, AfterCompletion(h, now))
  {
  }

  /** `Math.floor(xp / 100) + 1`: one level per 100 XP. */
  function LevelFor(xp: int): (l: int)
    ensures 100 * (l - 1) <= xp < 100 * l
  {
    xp / 100 + 1
  }

  /** More XP never means a lower level. */
  lemma LevelForMonotone(a: int, b: int)
    requires a <= b
    ensures LevelFor(a) <= LevelFor(b)
  {
  }

  // ---- POST /api/habits

  const BadHabit := "Title and valid recurrenceHours required"
  const ServerError := "Server error"

  /** The request check: `!title || !recurrenceHours || recurrenceHours < 1`. */
  predicate Refused(title: Option<string>, recurrenceHours: Option<int>) {
    title.None? || title.value == [] || recurrenceHours.None? || recurrenceHours.value == 0
    || recurrenceHours.value < 1
  }

  /** `xpPerCompletion || 10`: a missing or zero value becomes 10. */
  function XpOrDefault(xp: Option<int>): (v: int)
    ensures v != 0
    ensures xp.Some? && xp.value != 0 ==> v == xp.value
  {
    if xp.None? || xp.value == 0 then 10 else xp.value
  }

  /**
   * The document `new Habit({...})` builds for `user`: Mongoose trims title and description, the
   * description defaults to '' (`description || ''`), `createdAt` is now, the history is empty.
   */
  function NewHabit(user: Id, title: string, description: Option<string>, recurrenceHours: int,
                    xp: Option<int>, now: int): (h: Habit)
    ensures Consistent(h) && h.streak == 0 && h.completions == [] && h.lastCompletionDate.None?
    ensures h.title == Trim(title) && h.user == user && h.recurrenceHours == recurrenceHours
    ensures h.xpPerCompletion == XpOrDefault(xp)
  {
    var desc := if description.None? || description.value == [] then "" else description.value;
    Habit(0, user, Trim(title), Trim(desc), recurrenceHours, XpOrDefault(xp), now, [], 0, None)
  }

  /**
   * `POST /api/habits`: 400 when the title or the recurrence is missing or the recurrence is below 1;
   * otherwise the habit is built and saved, where the schema's `required` check on the trimmed title
   * refuses a title of white space only, which the handler reports as a 500; otherwise 200 with the
   * stored habit.
   */
  method CreateHabit(db: Mongo, user: Id, title: Option<string>, description: Option<string>,
                     recurrenceHours: Option<int>, xp: Option<int>, now: int)
    returns (r: Reply<Habit>)
    requires db.Valid()
    modifies db
    ensures db.Valid()
    ensures r.Success? <==> title.Some? && Trim(title.value) != [] && recurrenceHours.Some? && recurrenceHours.value >= 1
    ensures Refused(title, recurrenceHours) ==> r == Failure(400, BadHabit)
    ensures !Refused(title, recurrenceHours) && !r.Success? ==> r == Failure(500, ServerError)
    ensures r.Failure? ==> db.habits == old(db.habits) && db.nextId == old(db.nextId)
    ensures r.Success? ==>
      && r.value == NewHabit(user, title.value, description, recurrenceHours.value, xp, now).(id := old(db.nextId))
      && db.habits == old(db.habits) + [r.value] && db.nextId == old(db.nextId) + 1
    ensures db.users == old(db.users)
  {
    if title.None? || title.value == [] || recurrenceHours.None? || recurrenceHours.value == 0
       || recurrenceHours.value < 1 {
      return Failure(400, BadHabit);
    }
    TrimEmptyIff(title.value);
    var h := NewHabit(user, title.value, description, recurrenceHours.value, xp, now);
    if h.title == [] {
      return Failure(500, ServerError);
    }
    var id := db.InsertHabit(h);
    r := Success(h.(id := id));
  }

  /** A stored title is never empty and never starts or ends with white space; a title of white space only is refused. */
  lemma NewHabitTitle(title: string)
    ensures Trim(title) == [] <==> forall i :: 0 <= i < |title| ==> IsSpace(title[i])
    ensures Trim(title) != [] ==> !IsSpace(Trim(title)[0]) && !IsSpace(Trim(title)[|Trim(title)| - 1])
  {
    TrimEmptyIff(title);
  }

  /** A new habit is pending on the dashboard, and its first completion is accepted and starts the streak at 1. */
  lemma FirstCompletion(user: Id, title: string, description: Option<string>, hours: int, xp: Option<int>,
                        created: int, now: int)
    ensures var h := NewHabit(user, title, description, hours, xp, created);
      PendingAt(now, h) && AfterCompletion(h, now).streak == 1
  {
  }

  // ---- POST /api/habits/:habitId/complete

  /** The user fields the completion response reports. */
  datatype Completed = Completed(habit: Habit, xp: int, level: int, streak: int)

  const NotFound := "Habit not found"
  const TooSoon := "You already completed this habit recently"

  /** The streak of each habit, in order. */
  function Streaks(hs: seq<Habit>): (r: seq<int>)
    ensures |r| == |hs|
    ensures forall i :: 0 <= i < |hs| ==> r[i] == hs[i].streak
  {
    seq(|hs|, i requires 0 <= i < |hs| => hs[i].streak)
  }

  /** The `forEach` that finds the user's overall streak: the largest habit streak, 0 when there is none. */
  method MaxStreakOf(hs: seq<Habit>) returns (m: int)
    ensures m == MaxOrZero(Streaks(hs))
  {
    m := 0;
    var i := 0;
    while i < |hs|
      invariant 0 <= i <= |hs|
      invariant m == MaxOrZero(Streaks(hs[..i]))
    {
      assert Streaks(hs[..i + 1])[..i] == Streaks(hs[..i]);
      if hs[i].streak > m {
        m := hs[i].streak;
      }
      i := i + 1;
    }
    assert hs[..i] == hs;
  }

  /** The user's overall streak: the largest streak among the user's habits, 0 when there is none. */
  function OverallStreak(habits: seq<Habit>, uid: Id): int {
    MaxOrZero(Streaks(FilterWith(habits, OwnedBy, uid)))
  }

  /** The user after a completion worth `gain` XP: more XP, the level for it, the given overall streak. */
  function Credited(u: User, gain: int, streak: int): (r: User)
    ensures r.id == u.id && r.username == u.username
    ensures r.xp == u.xp + gain && r.level == LevelFor(r.xp) && r.streak == streak
  {
    u.(xp := u.xp + gain, level := LevelFor(u.xp + gain), streak := streak)
  }

  /** The habit part of a completion: push the entry, update the streak and the last date, save. */
  method RecordCompletion(db: Mongo, habit: Habit, now: int) returns (h: Habit)
    requires db.Valid() && habit in db.habits
    modifies db
    ensures db.Valid()
    ensures h == AfterCompletion(habit, now)
    ensures db.habits == SetHabit(old(db.habits), h)
    ensures db.users == old(db.users) && db.nextId == old(db.nextId)
  {
    var streak := 1;
    if habit.lastCompletionDate.Some? {
      if 2 * (now - habit.lastCompletionDate.value) <= 3 * habit.recurrenceHours * HourMs {
        streak := habit.streak + 1;
      }
    }
    h := habit.(completions := habit.completions + [now], streak := streak, lastCompletionDate := Some(now));
    db.SaveHabit(h);
  }

  /** The user part: add the habit's XP, recompute the level, take the largest habit streak, save. */
  method CreditUser(db: Mongo, uid: Id, gain: int) returns (u: User)
    requires db.Valid() && FindUser(db.users, uid).Some?
    modifies db
    ensures db.Valid()
    ensures u == Credited(FindUser(old(db.users), uid).value, gain, OverallStreak(db.habits, uid))
    ensures db.users == SetUser(old(db.users), u)
    ensures db.habits == old(db.habits) && db.nextId == old(db.nextId)
  {
    var user := FindUser(db.users, uid).value;
    var xp := user.xp + gain;
    var level := xp / 100 + 1;
    var mine := FilterWith(db.habits, OwnedBy, uid);
    var maxStreak := MaxStreakOf(mine);
    u := user.(xp := xp, level := level, streak := maxStreak);
    db.SaveUser(u);
  }

  /**
   * `POST /api/habits/:habitId/complete`: 404 for a habit that is missing or belongs to someone else,
   * 400 inside the completion window, both without a change; otherwise the habit records the
   * completion and the user gains its XP, the level for the new XP and the largest habit streak.
   */
  method CompleteHabit(db: Mongo, uid: Id, habitId: Id, now: int) returns (r: Reply<Completed>)
    requires db.Valid() && FindUser(db.users, uid).Some?
    modifies db
    ensures db.Valid()
    ensures var found := FindOwnedHabit(old(db.habits), habitId, uid);
      && (found.None? ==> r == Failure(404, NotFound))
      && (found.Some? && DoneAt(now, found.value) ==> r == Failure(400, TooSoon))
      && (r.Success? <==> found.Some? && !DoneAt(now, found.value))
    ensures r.Failure? ==> db.users == old(db.users) && db.habits == old(db.habits) && db.nextId == old(db.nextId)
    ensures r.Success? ==>
      var habit := FindOwnedHabit(old(db.habits), habitId, uid).value;
      var u := Credited(FindUser(old(db.users), uid).value, habit.xpPerCompletion, OverallStreak(db.habits, uid));
      && db.habits == SetHabit(old(db.habits), AfterCompletion(habit, now))
      && db.users == SetUser(old(db.users), u)
      && r.value == Completed(AfterCompletion(habit, now), u.xp, u.level, u.streak)
  {
    var found := FindOwnedHabit(db.habits, habitId, uid);
    if found.None? {
      return Failure(404, NotFound);
    }
    var habit := found.value;
    if habit.lastCompletionDate.Some? {
      if now - habit.lastCompletionDate.value < habit.recurrenceHours * HourMs {
        return Failure(400, TooSoon);
      }
    }
    var c := ApplyCompletion(db, uid, habit, now);
    r := Success(c);
  }

  /** A completion that passed both checks: the habit's part, then the user's. */
  method ApplyCompletion(db: Mongo, uid: Id, habit: Habit, now: int) returns (c: Completed)
    requires db.Valid() && FindUser(db.users, uid).Some? && habit in db.habits
    modifies db
    ensures db.Valid()
    ensures var u := Credited(FindUser(old(db.users), uid).value, habit.xpPerCompletion, OverallStreak(db.habits, uid));
      && db.habits == SetHabit(old(db.habits), AfterCompletion(habit, now))
      && db.users == SetUser(old(db.users), u)
      && c == Completed(AfterCompletion(habit, now), u.xp, u.level, u.streak)
    ensures db.nextId == old(db.nextId)
  {
    ghost var users0 := db.users;
    var h := RecordCompletion(db, habit, now);
    assert db.users == users0;
    var u := CreditUser(db, uid, habit.xpPerCompletion);
    c := Completed(h, u.xp, u.level, u.streak);
  }

  /** After a completion the user's overall streak is at least the completed habit's streak, which is at least 1. */
  lemma UserStreakCoversHabit(habits: seq<Habit>, habit: Habit, uid: Id, now: int)
    requires habit in habits && habit.user == uid && habit.streak >= 0
    ensures var h := AfterCompletion(habit, now);
      OverallStreak(SetHabit(habits, h), uid) >= h.streak >= 1
  {
    var h := AfterCompletion(habit, now);
    var hs := SetHabit(habits, h);
    var i :| 0 <= i < |habits| && habits[i] == habit;
    assert hs[i] == h;
    var mine := FilterWith(hs, OwnedBy, uid);
    assert h in mine;
    var j :| 0 <= j < |mine| && mine[j] == h;
    assert Streaks(mine)[j] == h.streak;
  }

  // ---- GET /api/dashboard

  /** The `forEach` that sorts the user's habits into completed (inside the window) and pending. */
  method Partition(hs: seq<Habit>, now: int) returns (pending: seq<Habit>, completed: seq<Habit>)
    ensures completed == FilterWith(hs, DoneAt, now)
    ensures pending == FilterWith(hs, PendingAt, now)
  {
    pending, completed := [], [];
    var i := 0;
    while i < |hs|
      invariant 0 <= i <= |hs|
      invariant completed == FilterWith(hs[..i], DoneAt, now)
      invariant pending == FilterWith(hs[..i], PendingAt, now)
    {
      FilterPrefixStep(hs, i, DoneAt, now);
      FilterPrefixStep(hs, i, PendingAt, now);
      var habit := hs[i];
      var done := false;
      if habit.lastCompletionDate.Some? {
        if now - habit.lastCompletionDate.value < habit.recurrenceHours * HourMs {
          done := true;
        }
      }
      if done {
        completed := completed + [habit];
      } else {
        pending := pending + [habit];
      }
      i := i + 1;
    }
    assert hs[..i] == hs;
  }

  /** Every habit lands in exactly one of the two lists: together they are the habits, counted with multiplicity. */
  lemma {:induction false} PartitionExact(hs: seq<Habit>, now: int)
    ensures multiset(FilterWith(hs, DoneAt, now)) + multiset(FilterWith(hs, PendingAt, now)) == multiset(hs)
  {
    if hs != [] {
      var done0, pending0 := FilterWith(hs[1..], DoneAt, now), FilterWith(hs[1..], PendingAt, now);
      var done, pending := FilterWith(hs, DoneAt, now), FilterWith(hs, PendingAt, now);
      assert multiset(done0) + multiset(pending0) == multiset(hs[1..]) by {
        PartitionExact(hs[1..], now);
      }
      assert DoneAt(now, hs[0]) ==> done == [hs[0]] + done0 && pending == pending0 by {
        FilterCons(hs, DoneAt, now);
        FilterCons(hs, PendingAt, now);
      }
      assert !DoneAt(now, hs[0]) ==> done == done0 && pending == [hs[0]] + pending0 by {
        FilterCons(hs, DoneAt, now);
        FilterCons(hs, PendingAt, now);
      }
      SplitStep(hs[0], hs[1..], done0, pending0, done, pending, DoneAt(now, hs[0]));
      assert hs == [hs[0]] + hs[1..];
    }
  }

  /** The week `for` loop runs `i` from 6 down to 0. */
  const WeekOffsets: seq<int> := [6, 5, 4, 3, 2, 1, 0]

  function Zero(i: int): int { 0 }

  /** Every completion date of the habits, habit by habit: the two nested `forEach` loops. */
  function Stamps(hs: seq<Habit>): seq<int> {
    if hs == [] then [] else Stamps(hs[..|hs| - 1]) + hs[|hs| - 1].completions
  }

  /** `compDay in dailyCompletions`: the completion falls on one of the seven prepared days. */
  predicate OnKnownDay(ctx: (seq<string>, int -> string), t: int) { ctx.1(t) in ctx.0 }

  /** The dashboard body. */
  datatype Dashboard = Dashboard(pending: seq<Habit>, completed: seq<Habit>, xp: int, level: int, streak: int,
                                 weeklyData: Dict<string>)

  /**
   * `GET /api/dashboard`: the user's habits split into pending and completed, the user's counters,
   * and one row per day of the last seven (`dayBack(i)` is the ISO date `i` days before now, oldest
   * first) counting the completions of the user's habits whose ISO date (`isoDay`) is that day.
   */
  method GetDashboard(users: seq<User>, habits: seq<Habit>, uid: Id, now: int,
                      dayBack: int -> string, isoDay: int -> string)
    returns (view: Dashboard)
    requires FindUser(users, uid).Some?
    ensures var hs := FilterWith(habits, OwnedBy, uid);
      && view.completed == FilterWith(hs, DoneAt, now)
      && view.pending == FilterWith(hs, PendingAt, now)
    ensures var u := FindUser(users, uid).value;
      view.xp == u.xp && view.level == u.level && view.streak == u.streak
    ensures Distinct(Keys(view.weeklyData))
    ensures Keys(view.weeklyData) == KeyOrder([], WeekOffsets, dayBack)
    ensures forall k :: k in Keys(view.weeklyData) ==>
      Get(view.weeklyData, k) == CountBy(Stamps(FilterWith(habits, OwnedBy, uid)), isoDay, k)
  {
    var user := FindUser(users, uid).value;
    var hs := FilterWith(habits, OwnedBy, uid);
    var pending, completed := Partition(hs, now);
    var days := TallyBy([], WeekOffsets, dayBack, Zero);
    var known := FilterWith(Stamps(hs), OnKnownDay, (Keys(days), isoDay));
    var weekly := TallyBy(days, known, isoDay, One);
    WeeklyCounts(Stamps(hs), dayBack, isoDay);
    view := Dashboard(pending, completed, user.xp, user.level, user.streak, weekly);
  }

  /** The week counter: the seven days as keys, under each the number of completions on that day. */
  lemma WeeklyCounts(stamps: seq<int>, dayBack: int -> string, isoDay: int -> string)
    ensures var days := Fold([], WeekOffsets, dayBack, Zero);
      var w := Fold(days, FilterWith(stamps, OnKnownDay, (Keys(days), isoDay)), isoDay, One);
      && Keys(w) == Keys(days) == KeyOrder([], WeekOffsets, dayBack)
      && forall k :: k in Keys(w) ==> Get(w, k) == CountBy(stamps, isoDay, k)
  {
    var none: Dict<string> := [];
    var days := Fold(none, WeekOffsets, dayBack, Zero);
    FoldTallied(none, WeekOffsets, dayBack, Zero);
    var known := FilterWith(stamps, OnKnownDay, (Keys(days), isoDay));
    FoldTallied(days, known, isoDay, One);
    KeyOrderKnown(Keys(days), known, isoDay);
    forall k | k in Keys(days)
      ensures Get(Fold(days, known, isoDay, One), k) == CountBy(stamps, isoDay, k)
    {
      SumByZero(WeekOffsets, dayBack, k);
      SumByOne(known, isoDay, k);
      CountByKnown(stamps, Keys(days), isoDay, k);
    }
  }

  /** Keys that are all known already add nothing to the key order. */
  lemma {:induction false} KeyOrderKnown<T>(ks: seq<string>, s: seq<T>, key: T -> string)
    requires forall x :: x in s ==> key(x) in ks
    ensures KeyOrder(ks, s, key) == ks
  {
    if s != [] {
      assert forall x :: x in s[..|s| - 1] ==> x in s;
      KeyOrderKnown(ks, s[..|s| - 1], key);
      assert s[|s| - 1] in s;
    }
  }

  lemma {:induction false} SumByZero(s: seq<int>, key: int -> string, k: string)
    ensures SumBy(s, key, Zero, k) == 0
  {
    if s != [] {
      SumByZero(s[..|s| - 1], key, k);
    }
  }

  /** Counting a known day among the completions on known days counts it among all completions. */
  lemma {:induction false} CountByKnown(s: seq<int>, ks: seq<string>, key: int -> string, k: string)
    requires k in ks
    ensures CountBy(FilterWith(s, OnKnownDay, (ks, key)), key, k) == CountBy(s, key, k)
  {
    if s != [] {
      var s0, x := s[..|s| - 1], s[|s| - 1];
      assert s == s0 + [x];
      FilterWithSnoc(s0, x, OnKnownDay, (ks, key));
      CountByKnown(s0, ks, key, k);
      var f := FilterWith(s0, OnKnownDay, (ks, key));
      if OnKnownDay((ks, key), x) {
        assert (f + [x])[..|f + [x]| - 1] == f && (f + [x])[|f + [x]| - 1] == x;
      } else {
        assert key(x) != k;
        assert FilterWith(s, OnKnownDay, (ks, key)) == f;
        assert CountBy(s, key, k) == CountBy(s0, key, k);
      }
    }
  }
}
