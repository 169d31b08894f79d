/**
 * The achievements wall (src/components/tabs/AchievementsTab.tsx): the
 * signed-in user's achievements newest first, the create form, and likes.
 */
module Achievements {
  import opened Wrappers
  import opened Seqs
  import opened Entities
  import opened Store

  predicate OwnAchievement(viewer: Option<User>, a: Achievement) {
    viewer.Some? && a.userId == viewer.value.id
  }

  function AchievementDate(a: Achievement): int { a.date }

  /** `userAchievements`: exactly the signed-in user's achievements, newest first. */
  function Wall(achievements: seq<Achievement>, viewer: Option<User>): (r: seq<Achievement>)
    ensures multiset(r) == multiset(Filter(achievements, (a: Achievement) => OwnAchievement(viewer, a)))
    ensures forall x :: x in r <==> x in achievements && OwnAchievement(viewer, x)
    ensures SortedDesc(r, AchievementDate)
    ensures |r| <= |achievements|
  {
    var own := Filter(achievements, (a: Achievement) => OwnAchievement(viewer, a));
    var r := SortDesc(own, AchievementDate);
    SortDescMembers(own, AchievementDate);
    forall x | x in own ensures x in achievements && OwnAchievement(viewer, x) {
      var i :| 0 <= i < |own| && own[i] == x;
    }
    forall x | x in achievements && OwnAchievement(viewer, x) ensures x in own {
      var i :| 0 <= i < |achievements| && achievements[i] == x;
    }
    r
  }

  /** `achievements.find(a => a.id === id)`. */
  function FindAchievement(achievements: seq<Achievement>, id: Id): (r: Option<Achievement>)
    ensures r.None? <==> id !in Keys(achievements, AchievementId)
    ensures r.Some? ==> r.value in achievements && r.value.id == id
  {
    var r := Find(achievements, (a: Achievement) => a.id == id);
    assert r.None? ==> id !in Keys(achievements, AchievementId);
    r
  }

  /** The update `handleLike` sends: only the likes. */
  function LikesPatch(likes: seq<Id>): AchievementPatch {
    NoAchievementChange.(likes := Some(likes))
  }

  /**
   * The achievements after `handleLike` by `user`: the likes of the (first)
   * achievement with that id, toggled, are written into it; unchanged when there is
   * no such achievement.
   */
  function Liked(achievements: seq<Achievement>, id: Id, user: Id): (r: seq<Achievement>)
    ensures |r| == |achievements|
    ensures id !in Keys(achievements, AchievementId) ==> r == achievements
  {
    match FindAchievement(achievements, id)
    case None => achievements
    case Some(a) => UpdateWhere(achievements, AchievementId, id, ApplyAchievement, LikesPatch(Toggle(a.likes, user)))
  }

  /**
   * With unique ids, a like toggles `user` in that achievement's own likes (adding
   * it when absent, removing every copy when present) and changes nothing else.
   */
  lemma LikedShape(achievements: seq<Achievement>, id: Id, user: Id)
    requires UniqueKeys(achievements, AchievementId)
    ensures var r := Liked(achievements, id, user);
      forall i :: 0 <= i < |r| ==>
        r[i] == if achievements[i].id == id then achievements[i].(likes := Toggle(achievements[i].likes, user))
                else achievements[i]
  {
    var found := FindAchievement(achievements, id);
    if found.Some? {
      var patch := LikesPatch(Toggle(found.value.likes, user));
      var r := UpdateWhere(achievements, AchievementId, id, ApplyAchievement, patch);
      assert Liked(achievements, id, user) == r;
      var k :| 0 <= k < |achievements| && achievements[k] == found.value;
      forall i | 0 <= i < |r| && achievements[i].id == id
        ensures r[i] == achievements[i].(likes := Toggle(achievements[i].likes, user))
      {
        SameKeySameEntry(achievements, AchievementId, i, k);
        assert r[i] == ApplyAchievement(achievements[i], patch);
      }
    }
  }

  /** Two likes in a row by the same user leave every achievement with the same likers and the same other fields. */
  lemma LikeTwice(achievements: seq<Achievement>, id: Id, user: Id)
    requires UniqueKeys(achievements, AchievementId)
    ensures var twice := Liked(Liked(achievements, id, user), id, user);
      forall i :: 0 <= i < |achievements| ==>
        twice[i] == achievements[i].(likes := twice[i].likes) &&
        forall y :: y in twice[i].likes <==> y in achievements[i].likes
  {
    var once := Liked(achievements, id, user);
    LikedShape(achievements, id, user);
    assert Keys(once, AchievementId) == Keys(achievements, AchievementId);
    LikedShape(once, id, user);
    forall i | 0 <= i < |achievements| && achievements[i].id == id {
      ToggleTwice(achievements[i].likes, user);
    }
  }

  /**
   * `handleLike`: nothing happens without a signed-in user or when no achievement
   * has that id; otherwise the user's like on it is toggled.
   */
  method HandleLike(store: NexusStore, id: Id)
    requires store.Valid()
    modifies store`achievements
    ensures store.Valid()
    ensures store.currentUser.None? || id !in Keys(old(store.achievements), AchievementId) ==>
      store.achievements == old(store.achievements)
    ensures store.currentUser.Some? ==> store.achievements == Liked(old(store.achievements), id, store.currentUser.value.id)
  {
    if store.currentUser.None? {
      return;
    }
    var found := FindAchievement(store.achievements, id);
    if found.None? {
      return;
    }
    store.UpdateAchievement(id, LikesPatch(Toggle(found.value.likes, store.currentUser.value.id)));
  }

  /** The create form. */
  datatype AchievementForm = AchievementForm(
    open: bool, title: string, description: string, kind: AchievementKind, visibility: Visibility)

  const ClearedForm := AchievementForm(false, "", "", Mental, Private)

  /** The achievement `handleSave` creates: the user's, dated now, with no likes or comments. */
  function NewAchievement(f: AchievementForm, owner: Id, now: Timestamp): (a: Achievement)
    ensures a.userId == owner && a.likes == [] && a.comments == [] && a.date == now
    ensures a.title == f.title && a.description == f.description && a.kind == f.kind && a.visibility == f.visibility
  {
    Achievement("", owner, f.title, f.description, f.kind, now, f.visibility, [], [])
  }

  /**
   * `handleSave`: does nothing for an empty title or without a signed-in user;
   * otherwise appends the new achievement and clears the form.
   */
  method HandleSave(store: NexusStore, form: AchievementForm, now: Timestamp) returns (after: AchievementForm)
    requires store.Valid()
    modifies store`achievements
    ensures store.Valid()
    ensures form.title == "" || store.currentUser.None? ==> store.achievements == old(store.achievements) && after == form
    ensures form.title != "" && store.currentUser.Some? ==>
      after == ClearedForm &&
      |store.achievements| == |old(store.achievements)| + 1 &&
      store.achievements[..|old(store.achievements)|] == old(store.achievements) &&
      store.achievements[|old(store.achievements)|] ==
        NewAchievement(form, store.currentUser.value.id, now).(id := store.achievements[|old(store.achievements)|].id) &&
      store.achievements[|old(store.achievements)|].id !in Keys(old(store.achievements), AchievementId)
  {
    if form.title == "" || store.currentUser.None? {
      return form;
    }
    store.AddAchievement(NewAchievement(form, store.currentUser.value.id, now));
    after := ClearedForm;
  }
}
