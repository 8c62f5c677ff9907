/**
 * The grouping in `frontend/src/components/achievements/AchievementsModal.jsx` of the achievements
 * the modal is given: three groups by a keyword in the achievement's `type`, and a fourth for
 * everything that matches none of the keywords.
 */
module AchievementsModal {
  import opened Wrappers
  import opened Seqs
  import ConvexStore
  import ConvexAchievements

  /** An achievement as the modal receives it; `type` may be absent. */
  datatype Achievement = Achievement(kind: Option<string>, title: string, xpReward: int)

  /** `a.type?.includes(word)`: false when there is no type. */
  predicate HasKind(word: string, a: Achievement) {
    a.kind.Some? && IsInfix(word, a.kind.value)
  }

  const Keywords: seq<string> := ["streak", "completion", "level"]

  /** `!['streak', 'completion', 'level'].some(t => a.type?.includes(t))`. */
  predicate IsSpecial(unused: (), a: Achievement) {
    !(exists t :: t in Keywords && HasKind(t, a))
  }

  datatype Category = Category(name: string, achievements: seq<Achievement>)

  /** `achievements?.filter(p) || []`: an absent list gives an empty group. */
  function Group<K>(achievements: Option<seq<Achievement>>, p: (K, Achievement) -> bool, key: K): (r: seq<Achievement>)
    ensures achievements.None? ==> r == []
    ensures forall a :: a in r <==> achievements.Some? && a in achievements.value && p(key, a)
  {
    if achievements.None? then [] else FilterWith(achievements.value, p, key)
  }

  /** `achievementCategories`. */
  function Categories(achievements: Option<seq<Achievement>>): (r: seq<Category>)
    ensures |r| == 4
    ensures r[0].name == "Streak Achievements" && r[1].name == "Completion Achievements"
    ensures r[2].name == "Level Achievements" && r[3].name == "Special Achievements"
    ensures forall i :: 0 <= i < 3 ==> forall a ::
      a in r[i].achievements <==> achievements.Some? && a in achievements.value && HasKind(Keywords[i], a)
    ensures forall a :: a in r[3].achievements <==>
      achievements.Some? && a in achievements.value && forall t :: t in Keywords ==> !HasKind(t, a)
  {
    [Category("Streak Achievements", Group(achievements, HasKind, "streak")),
     Category("Completion Achievements", Group(achievements, HasKind, "completion")),
     Category("Level Achievements", Group(achievements, HasKind, "level")),
     Category("Special Achievements", Group(achievements, IsSpecial, ()))]
  }

  /** What the open modal shows: the `Unlocked` count in its header and the groups. */
  datatype Modal = Modal(unlocked: int, categories: seq<Category>)

  /** The component: nothing when it is closed; the header count is `achievements?.length || 0`. */
  function Render(isOpen: bool, achievements: Option<seq<Achievement>>): (r: Option<Modal>)
    ensures r.None? <==> !isOpen
    ensures r.Some? ==> r.value.categories == Categories(achievements)
    ensures r.Some? ==> r.value.unlocked == if achievements.None? then 0 else |achievements.value|
  {
    if !isOpen then None
    else Some(Modal(if achievements.None? then 0 else |achievements.value|, Categories(achievements)))
  }

  /** Every achievement the modal is given is shown in at least one group. */
  lemma EveryAchievementGrouped(achievements: seq<Achievement>, a: Achievement)
    requires a in achievements
    ensures exists i :: 0 <= i < 4 && a in Categories(Some(achievements))[i].achievements
  {
    var r := Categories(Some(achievements));
    if HasKind("streak", a) {
      assert a in r[0].achievements;
    } else if HasKind("completion", a) {
      assert a in r[1].achievements;
    } else if HasKind("level", a) {
      assert a in r[2].achievements;
    } else {
      assert a in r[3].achievements;
    }
  }

  /** A special achievement is in no keyword group, and a keyword achievement is never special. */
  lemma SpecialIsExclusive(achievements: seq<Achievement>, a: Achievement)
    requires a in achievements
    ensures var r := Categories(Some(achievements));
      a in r[3].achievements <==> forall i :: 0 <= i < 3 ==> a !in r[i].achievements
  {
    var r := Categories(Some(achievements));
    assert Keywords[0] == "streak" && Keywords[1] == "completion" && Keywords[2] == "level";
    if a in r[3].achievements {
      forall i | 0 <= i < 3
        ensures a !in r[i].achievements
      {
        assert Keywords[i] in Keywords;
      }
    }
  }

  /** An achievement without a type is special. */
  lemma UntypedIsSpecial(achievements: seq<Achievement>, a: Achievement)
    requires a in achievements && a.kind.None?
    ensures a in Categories(Some(achievements))[3].achievements
    ensures forall i :: 0 <= i < 3 ==> a !in Categories(Some(achievements))[i].achievements
  {
  }

  /** A type with two keywords, such as "streak_level", puts the achievement in both groups. */
  lemma TwoKeywordsTwoGroups(achievements: seq<Achievement>, a: Achievement, i: nat, j: nat)
    requires a in achievements && i < j < 3 && HasKind(Keywords[i], a) && HasKind(Keywords[j], a)
    ensures a in Categories(Some(achievements))[i].achievements
    ensures a in Categories(Some(achievements))[j].achievements
    ensures a !in Categories(Some(achievements))[3].achievements
  {
    assert Keywords[i] in Keywords;
  }

  /** With no list, the open modal shows four empty groups and an `Unlocked` count of 0. */
  lemma NoAchievementsShowsEmpty()
    ensures var r := Render(true, None);
      && r.Some? && r.value.unlocked == 0
      && forall i :: 0 <= i < 4 ==> r.value.categories[i].achievements == []
  {
  }

  // ---- the list the profile page passes in

  /**
   * A row of `getUserAchievements` as the modal reads it: the spread catalog entry, so its `type`
   * is the catalog kind ("streak", "completion", "daily", "time", "category" or "level").
   */
  function FromStatus(s: ConvexAchievements.Status): (a: Achievement)
    ensures a.kind == Some(s.achievement.kind) && a.title == s.achievement.title
    ensures a.xpReward == s.achievement.xpReward
  {
    Achievement(Some(s.achievement.kind), s.achievement.title, s.achievement.xpReward)
  }

  /**
   * The `achievements` the profile page hands to the modal once `useUserAchievements` has loaded:
   * every `getUserAchievements` row, locked ones included.
   */
  function ProfileList(users: seq<ConvexStore.User>, unlocks: seq<ConvexStore.Unlock>, userId: string)
    : (r: Option<seq<Achievement>>)
    ensures r.Some?
    ensures var rows := ConvexAchievements.GetUserAchievements(users, unlocks, userId);
      && |r.value| == |rows|
      && forall i :: 0 <= i < |rows| ==> r.value[i] == FromStatus(rows[i])
  {
    var rows := ConvexAchievements.GetUserAchievements(users, unlocks, userId);
    Some(seq(|rows|, i requires 0 <= i < |rows| => FromStatus(rows[i])))
  }

  /**
   * On the profile page each catalog entry lands in the group of its own kind: the two streak
   * entries under Streak, the two completion entries under Completion, the two level entries under
   * Level, and the "daily", "time" and "category" entries under Special.
   */
  lemma ProfileGroupsByKind(users: seq<ConvexStore.User>, unlocks: seq<ConvexStore.Unlock>, userId: string, i: nat)
    requires ConvexStore.UserByUserId(users, userId).Some? && i < |ConvexAchievements.Catalog|
    ensures var list := ProfileList(users, unlocks, userId);
      var r := Categories(list);
      var kind := ConvexAchievements.Catalog[i].kind;
      && i < |list.value|
      && (forall j :: 0 <= j < 3 ==> (list.value[i] in r[j].achievements <==> kind == Keywords[j]))
      && (list.value[i] in r[3].achievements <==> kind !in Keywords)
  {
    var list := ProfileList(users, unlocks, userId);
    var rows := ConvexAchievements.GetUserAchievements(users, unlocks, userId);
    assert list.value[i] == FromStatus(rows[i]);
    assert list.value[i] in list.value;
    CatalogKindKeywords(i);
  }

  /**
   * Because locked entries are passed too, the header's "Unlocked" count is the size of the
   * catalog, 10, for every known user, whatever they hold.
   */
  lemma ProfileHeaderCountsCatalog(users: seq<ConvexStore.User>, unlocks: seq<ConvexStore.Unlock>, userId: string)
    requires ConvexStore.UserByUserId(users, userId).Some?
    ensures Render(true, ProfileList(users, unlocks, userId)).value.unlocked == 10
  {
    ConvexAchievements.CatalogIdsDistinct();
  }

  /** A catalog kind contains a keyword exactly when it is that keyword. */
  lemma CatalogKindKeywords(k: nat)
    requires k < |ConvexAchievements.Catalog|
    ensures var kind := ConvexAchievements.Catalog[k].kind;
      forall j :: 0 <= j < 3 ==> (IsInfix(Keywords[j], kind) <==> kind == Keywords[j])
  {
    var kind := ConvexAchievements.Catalog[k].kind;
    assert kind == CatalogKinds[k];
    KindKeywords(kind);
  }

  const CatalogKinds: seq<string> := ["completion", "streak", "streak", "completion", "daily",
                                      "time", "time", "category", "level", "level"]

  /** The six kinds: each keyword is found in its own kind only. */
  lemma KindKeywords(kind: string)
    requires kind in CatalogKinds
    ensures IsInfix("streak", kind) <==> kind == "streak"
    ensures IsInfix("completion", kind) <==> kind == "completion"
    ensures IsInfix("level", kind) <==> kind == "level"
  {
    if kind == "streak" {
      KeywordKind("streak", 'p', 'v');
    } else if kind == "completion" {
      KeywordKind("completion", 's', 'v');
    } else if kind == "level" {
      KeywordKind("level", 's', 'p');
    } else if kind == "daily" {
      NoKeyword("daily");
    } else if kind == "time" {
      NoKeyword("time");
    } else {
      assert kind == "category";
      NoKeyword("category");
    }
  }

  /**
   * A keyword kind contains itself; lacking `x` and `y` it contains none of the keywords that have
   * them.
   */
  lemma KeywordKind(kind: string, x: char, y: char)
    requires x !in kind && y !in kind
    ensures IsInfix(kind, kind)
    ensures x in "streak" ==> !IsInfix("streak", kind)
    ensures x in "completion" || y in "completion" ==> !IsInfix("completion", kind)
    ensures y in "level" ==> !IsInfix("level", kind)
  {
    IsInfixAt(kind, kind, 0);
    if x in "streak" {
      NotInfixWithout("streak", kind, x);
    }
    if x in "completion" {
      NotInfixWithout("completion", kind, x);
    } else if y in "completion" {
      NotInfixWithout("completion", kind, y);
    }
    if y in "level" {
      NotInfixWithout("level", kind, y);
    }
  }

  /** A kind without an 's', a 'p' and a 'v' contains none of the three keywords. */
  lemma NoKeyword(kind: string)
    requires 's' !in kind && 'p' !in kind && 'v' !in kind
    ensures !IsInfix("streak", kind) && !IsInfix("completion", kind) && !IsInfix("level", kind)
  {
    NotInfixWithout("streak", kind, 's');
    NotInfixWithout("completion", kind, 'p');
    NotInfixWithout("level", kind, 'v');
  }
}
