/**
 * The habit form of `frontend/src/pages/CreateHabit.jsx`: its difficulty table, the validation run
 * on submit, the weekday toggle, and the arguments it sends to the Convex `createHabit` mutation.
 */
module CreateHabitForm {
  import opened Wrappers
  import opened Seqs
  import opened JsText
  import ConvexHabits

  /** One row of `DIFFICULTY_LEVELS`: the value sent, and the XP the form shows for it. */
  datatype Difficulty = Difficulty(value: string, caption: string, xp: int)

  const DifficultyLevels: seq<Difficulty> := [
    Difficulty("easy", "Easy", 5), Difficulty("medium", "Medium", 10), Difficulty("hard", "Hard", 20)]

  /** The XP the form shows for each difficulty is the XP `createHabit` stores for it. */
  lemma DifficultyXpMatchesServer()
    ensures forall d :: d in DifficultyLevels ==> d.xp == ConvexHabits.XpForDifficulty(d.value)
  {
    assert ConvexHabits.XpForDifficulty("easy") == 5;
  }

  /** The `formData` state. */
  datatype FormData = FormData(
    name: string, description: string, category: string, frequency: string, weekDays: seq<int>,
    targetGoal: int, timeOfDay: string, reminderEnabled: bool, reminderTime: string, difficulty: string,
    icon: string, color: string)

  const InitialForm := FormData("", "", "health", "daily", [], 30, "anytime", false, "09:00", "medium",
                                "target", "#3b82f6")

  /** The target field's `parseInt(value) || 0`, with `None` for an entry that does not parse (NaN). */
  function TargetFromInput(parsed: Option<int>): (t: int)
    ensures parsed.None? ==> t == 0
    ensures parsed.Some? ==> t == parsed.value
    ensures t < 1 <==> parsed.None? || parsed.value < 1
  {
    if parsed.None? || parsed.value == 0 then 0 else parsed.value
  }

  // ---- validateForm

  const NameRequired := ("name", "Habit name is required")
  const DaysRequired := ("weekDays", "Please select at least one day")
  const GoalTooSmall := ("targetGoal", "Target goal must be at least 1")

  /**
   * `validateForm`: fills `newErrors` field by field and reports the form valid when no key was
   * set. A name of white space only counts as missing; the weekday check applies to "weekly" only.
   */
  method ValidateForm(f: FormData) returns (errors: seq<(string, string)>, valid: bool)
    ensures forall e :: e in errors ==> e == NameRequired || e == DaysRequired || e == GoalTooSmall
    ensures Distinct(errors)
    ensures NameRequired in errors <==> forall i :: 0 <= i < |f.name| ==> IsSpace(f.name[i])
    ensures DaysRequired in errors <==> f.frequency == "weekly" && f.weekDays == []
    ensures GoalTooSmall in errors <==> f.targetGoal < 1
    ensures valid <==> errors == []
    ensures valid <==> Trim(f.name) != [] && !(f.frequency == "weekly" && f.weekDays == []) && f.targetGoal >= 1
  {
    var nameMissing := Trim(f.name) == [];
    var daysMissing := f.frequency == "weekly" && |f.weekDays| == 0;
    var goalTooSmall := f.targetGoal < 1;
    errors := [];
    if nameMissing {
      errors := errors + [NameRequired];
    }
    if daysMissing {
      errors := errors + [DaysRequired];
    }
    if goalTooSmall {
      errors := errors + [GoalTooSmall];
    }
    valid := |errors| == 0;
    ErrorKeys(nameMissing, daysMissing, goalTooSmall);
    TrimEmptyIff(f.name);
  }

  /** The error list `validateForm` builds from its three checks, in the order it makes them. */
  lemma ErrorKeys(nameMissing: bool, daysMissing: bool, goalTooSmall: bool)
    ensures var errors := (if nameMissing then [NameRequired] else []) + (if daysMissing then [DaysRequired] else [])
                          + (if goalTooSmall then [GoalTooSmall] else []);
      && (forall e :: e in errors ==> e == NameRequired || e == DaysRequired || e == GoalTooSmall)
      && Distinct(errors)
      && (NameRequired in errors <==> nameMissing)
      && (DaysRequired in errors <==> daysMissing)
      && (GoalTooSmall in errors <==> goalTooSmall)
      && (errors == [] <==> !nameMissing && !daysMissing && !goalTooSmall)
  {
    assert NameRequired.0[0] == 'n' && DaysRequired.0[0] == 'w' && GoalTooSmall.0[0] == 't';
  }

  // ---- handleWeekDayToggle

  predicate IsNot(day: int, d: int) { d != day }

  /** Every entry is a `WEEKDAYS` value. */
  predicate WeekDays(days: seq<int>) { forall d :: d in days ==> 0 <= d <= 6 }

  /** Dropping every copy of `day` removes its count and keeps every other count. */
  lemma {:induction false} FilterMultiset(s: seq<int>, day: int)
    ensures multiset(FilterWith(s, IsNot, day)) == multiset(s)[day := 0]
  {
    if s != [] {
      FilterMultiset(s[1..], day);
      assert s == [s[0]] + s[1..];
    }
  }

  /** Filtering keeps the order. */
  lemma {:induction false} FilterAscending(s: seq<int>, day: int)
    requires Ascending(s)
    ensures Ascending(FilterWith(s, IsNot, day))
  {
    if s != [] {
      FilterAscending(s[1..], day);
      var rest := FilterWith(s[1..], IsNot, day);
      if s[0] != day && rest != [] {
        assert rest[0] in s[1..];
        ConsAscending(s[0], rest);
      }
    }
  }

  /**
   * `prev.weekDays.includes(day) ? filter(d => d !== day) : [...prev.weekDays, day].sort()`.
   * The days are `WEEKDAYS` values, one digit each, so the default (text) order of `sort` is the
   * numeric one.
   */
  function ToggleWeekDay(days: seq<int>, day: int): (r: seq<int>)
    requires WeekDays(days) && 0 <= day <= 6
    ensures forall d :: d in r <==> (d in days) != (d == day)
    ensures WeekDays(r)
    ensures Ascending(days) ==> Ascending(r)
    ensures Distinct(days) ==> Distinct(r)
  {
    if day in days then
      RemoveDay(days, day);
      FilterWith(days, IsNot, day)
    else
      AddDay(days, day);
      SortAsc(days + [day])
  }

  /** The `filter` branch: the day goes, every other day stays, order and uniqueness are kept. */
  lemma RemoveDay(days: seq<int>, day: int)
    ensures var r := FilterWith(days, IsNot, day);
      && (forall d :: d in r <==> d in days && d != day)
      && (Ascending(days) ==> Ascending(r))
      && (Distinct(days) ==> Distinct(r))
  {
    var r := FilterWith(days, IsNot, day);
    FilterMultiset(days, day);
    if Ascending(days) {
      FilterAscending(days, day);
    }
    if Distinct(days) {
      forall x
        ensures multiset(r)[x] <= 1
      {
        DistinctMultiplicity(days, x);
      }
      MultiplicityDistinct(r);
    }
  }

  /** The `sort` branch for a day not yet chosen: the days plus the new one, ascending, still unique. */
  lemma AddDay(days: seq<int>, day: int)
    requires day !in days
    ensures var r := SortAsc(days + [day]);
      && (forall d :: d in r <==> d in days || d == day)
      && Ascending(r)
      && (Distinct(days) ==> Distinct(r))
  {
    var r := SortAsc(days + [day]);
    assert forall d :: d in r <==> d in multiset(days + [day]);
    if Distinct(days) {
      forall x
        ensures multiset(r)[x] <= 1
      {
        DistinctMultiplicity(days, x);
      }
      MultiplicityDistinct(r);
    }
  }

  /** On a sorted list without duplicates, toggling the same day twice gives the list back. */
  lemma ToggleTwice(days: seq<int>, day: int)
    requires WeekDays(days) && 0 <= day <= 6 && Ascending(days) && Distinct(days)
    ensures ToggleWeekDay(ToggleWeekDay(days, day), day) == days
  {
    if day in days {
      RemoveThenAdd(days, day);
    } else {
      AddThenRemove(days, day);
    }
  }

  lemma RemoveThenAdd(days: seq<int>, day: int)
    requires WeekDays(days) && 0 <= day <= 6 && Ascending(days) && Distinct(days) && day in days
    ensures ToggleWeekDay(ToggleWeekDay(days, day), day) == days
  {
    var once := FilterWith(days, IsNot, day);
    RemoveDay(days, day);
    assert ToggleWeekDay(days, day) == once;
    assert day !in once;
    var twice := SortAsc(once + [day]);
    assert ToggleWeekDay(once, day) == twice;
    FilterMultiset(days, day);
    DistinctMultiplicity(days, day);
    assert multiset(twice) == multiset(once) + multiset{day};
    assert multiset(days) == multiset(days)[day := 0] + multiset{day};
    AscendingUnique(twice, days);
  }

  lemma AddThenRemove(days: seq<int>, day: int)
    requires WeekDays(days) && 0 <= day <= 6 && Ascending(days) && day !in days
    ensures ToggleWeekDay(ToggleWeekDay(days, day), day) == days
  {
    var once := SortAsc(days + [day]);
    AddDay(days, day);
    assert ToggleWeekDay(days, day) == once;
    assert day in once;
    var twice := FilterWith(once, IsNot, day);
    assert ToggleWeekDay(once, day) == twice;
    FilterMultiset(once, day);
    FilterAscending(once, day);
    assert multiset(once) == multiset(days) + multiset{day};
    assert multiset(days)[day] == 0;
    assert multiset(twice) == multiset(days);
    AscendingUnique(twice, days);
  }

  /** The weekday list after clicking the days `toggles` in turn, starting from the initial `[]`. */
  function Toggled(toggles: seq<int>): (r: seq<int>)
    requires forall d :: d in toggles ==> 0 <= d <= 6
    ensures WeekDays(r) && Ascending(r) && Distinct(r)
  {
    if toggles == [] then []
    else
      var init, last := toggles[..|toggles| - 1], toggles[|toggles| - 1];
      assert forall d :: d in init ==> d in toggles;
      assert last in toggles;
      ToggleWeekDay(Toggled(init), last)
  }

  // ---- handleSubmit

  /** The argument object of `createHabit(...)`: the name trimmed, optional parts only where they apply. */
  function Payload(userId: string, f: FormData): (p: ConvexHabits.CreateHabitArgs)
    ensures p.name == Trim(f.name) && p.userId == userId
    ensures p.description == if Trim(f.description) == [] then None else Some(Trim(f.description))
    ensures p.weekDays == if f.frequency == "weekly" then Some(f.weekDays) else None
    ensures p.reminderTime == if f.reminderEnabled then Some(f.reminderTime) else None
    ensures p.category == f.category && p.frequency == f.frequency && p.targetGoal == f.targetGoal
    ensures p.timeOfDay == f.timeOfDay && p.reminderEnabled == f.reminderEnabled
    ensures p.difficulty == f.difficulty && p.icon == f.icon && p.color == f.color
  {
    ConvexHabits.CreateHabitArgs(
      userId, Trim(f.name), if Trim(f.description) == [] then None else Some(Trim(f.description)),
      f.category, f.frequency, if f.frequency == "weekly" then Some(f.weekDays) else None, f.targetGoal,
      f.timeOfDay, f.reminderEnabled, if f.reminderEnabled then Some(f.reminderTime) else None,
      f.difficulty, f.icon, f.color)
  }

  /** `handleSubmit`: nothing is sent for an invalid form; otherwise the payload is. */
  method HandleSubmit(userId: string, f: FormData) returns (sent: Option<ConvexHabits.CreateHabitArgs>)
    ensures sent.Some? <==> Trim(f.name) != [] && !(f.frequency == "weekly" && f.weekDays == []) && f.targetGoal >= 1
    ensures sent.Some? ==> sent.value == Payload(userId, f)
  {
    var _, valid := ValidateForm(f);
    if !valid {
      return None;
    }
    sent := Some(Payload(userId, f));
  }

  /**
   * What a sent payload guarantees the server: a non-empty name with no white space at either end,
   * a weekly habit with at least one day, a target of at least 1, and no empty description.
   */
  lemma SentPayloadIsClean(userId: string, f: FormData)
    requires Trim(f.name) != [] && !(f.frequency == "weekly" && f.weekDays == []) && f.targetGoal >= 1
    ensures var p := Payload(userId, f);
      && p.name != [] && Trim(p.name) == p.name
      && (p.frequency == "weekly" ==> p.weekDays.Some? && p.weekDays.value != [])
      && p.targetGoal >= 1
      && (p.description.Some? ==> p.description.value != [] && Trim(p.description.value) == p.description.value)
  {
    TrimIdempotent(f.name);
    TrimIdempotent(f.description);
  }

  /** The XP the form shows for the chosen difficulty is what the created habit earns per completion. */
  lemma ShownXpIsStored(userId: string, f: FormData, d: Difficulty, owner: ConvexHabits.ConvexStore.Id, now: int)
    requires d in DifficultyLevels && f.difficulty == d.value
    ensures ConvexHabits.NewHabit(owner, Payload(userId, f), now).xpValue == d.xp
  {
    DifficultyXpMatchesServer();
  }

  /** The initial form is refused for its empty name only. */
  lemma InitialFormNeedsOnlyAName()
    ensures Trim(InitialForm.name) == [] && InitialForm.frequency != "weekly" && InitialForm.targetGoal >= 1
  {
    var empty: string := [];
    assert InitialForm.name == empty;
    assert TrimStart(empty) == empty;
    assert InitialForm.frequency[0] != "weekly"[0];
  }
}
