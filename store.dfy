/**
 * The application state store (`useNexusStore`, src/lib/store.ts:237-572):
 * one object whose fields are the entity collections, the signed-in user and
 * the admin settings. Every action replaces some of these fields by a new
 * value computed from the old ones; each method's frame names exactly the
 * fields its action `set`s, so every other field is unchanged.
 *
 * `generateId` becomes `GenerateId`, which returns an id not yet used in the
 * collection it is for; `new Date().toISOString()` is the parameter `now`.
 */
module Store {
  import opened Wrappers
  import opened Text
  import opened Seqs
  import opened Entities
  import Social

  /** Returns an id that is not among `taken` (here: one character longer than every taken id). */
  method GenerateId(taken: seq<Id>) returns (id: Id)
    ensures id !in taken
    ensures id != ""
  {
    var longest: nat := 0;
    var i := 0;
    while i < |taken|
      invariant 0 <= i <= |taken|
      invariant forall j :: 0 <= j < i ==> |taken[j]| <= longest
    {
      if |taken[i]| > longest {
        longest := |taken[i]|;
      }
      i := i + 1;
    }
    id := seq(longest + 1, _ => 'x');
    assert |id| == longest + 1;
  }

  /** The user `login` signs in: the first whose username matches ignoring case and whose password matches exactly. */
  function FindLogin(users: seq<User>, username: string, password: string): (r: Option<User>)
    ensures r.None? <==>
      forall i :: 0 <= i < |users| ==> !(SameIgnoringCase(users[i].username, username) && users[i].password == password)
    ensures r.Some? ==> exists i :: (0 <= i < |users| && users[i] == r.value &&
      SameIgnoringCase(users[i].username, username) && users[i].password == password &&
      forall j :: 0 <= j < i ==> !(SameIgnoringCase(users[j].username, username) && users[j].password == password))
  {
    forall i | 0 <= i < |users| { LowerEqIffSameIgnoringCase(users[i].username, username); }
    Find(users, (u: User) => Lower(u.username) == Lower(username) && u.password == password)
  }

  /** `register`'s collision test: some username equals the new one ignoring case. */
  function UsernameTaken(users: seq<User>, username: string): (b: bool)
    ensures b <==> exists i :: 0 <= i < |users| && SameIgnoringCase(users[i].username, username)
  {
    forall i | 0 <= i < |users| { LowerEqIffSameIgnoringCase(users[i].username, username); }
    exists i :: 0 <= i < |users| && Lower(users[i].username) == Lower(username)
  }

  /** `likePost`'s change to one post: toggle `user` in its likes. */
  function ToggleLike(p: Post, user: Id): (r: Post)
    ensures r == p.(likes := r.likes)
    ensures user in r.likes <==> user !in p.likes
  {
    p.(likes := Toggle(p.likes, user))
  }

  /** `completeHabit`'s change to one habit: toggle `date`, and the streak becomes the number of completed dates. */
  function ToggleCompletion(h: Habit, date: Day): (r: Habit)
    ensures r == h.(completedDates := r.completedDates, streak := r.streak)
    ensures date in r.completedDates <==> date !in h.completedDates
    ensures r.streak == |r.completedDates|
  {
    var dates := Toggle(h.completedDates, date);
    h.(completedDates := dates, streak := |dates|)
  }

  /** `addComment`'s change to one post: the comment goes at the end. */
  function AppendComment(p: Post, c: Comment): Post {
    p.(comments := p.comments + [c])
  }

  /** Liking twice gives every post back its likes (as a set) and every other field. */
  lemma LikeTwice(posts: seq<Post>, postId: Id, user: Id)
    ensures var twice := UpdateWhere(UpdateWhere(posts, PostId, postId, ToggleLike, user), PostId, postId, ToggleLike, user);
      |twice| == |posts| &&
      forall i :: 0 <= i < |posts| ==>
        twice[i] == posts[i].(likes := twice[i].likes) &&
        (forall y :: y in twice[i].likes <==> y in posts[i].likes) &&
        (user !in posts[i].likes ==> twice[i] == posts[i])
  {
    var once := UpdateWhere(posts, PostId, postId, ToggleLike, user);
    forall i | 0 <= i < |posts| && posts[i].id == postId
      ensures once[i].id == postId
    {
    }
    forall i | 0 <= i < |posts| && posts[i].id == postId {
      ToggleTwice(posts[i].likes, user);
    }
  }

  /** Completing twice gives every habit back its completed dates (as a set). */
  lemma CompleteTwice(habits: seq<Habit>, habitId: Id, date: Day)
    ensures var twice := UpdateWhere(UpdateWhere(habits, HabitId, habitId, ToggleCompletion, date), HabitId, habitId, ToggleCompletion, date);
      |twice| == |habits| &&
      forall i :: 0 <= i < |habits| ==>
        (forall d :: d in twice[i].completedDates <==> d in habits[i].completedDates) &&
        (habits[i].id != habitId ==> twice[i] == habits[i]) &&
        (habits[i].id == habitId ==> twice[i].streak == |twice[i].completedDates|)
  {
    forall i | 0 <= i < |habits| && habits[i].id == habitId {
      ToggleTwice(habits[i].completedDates, date);
    }
  }

  /** Every comment id of every post. */
  function AllCommentIds(posts: seq<Post>): (r: seq<Id>)
    ensures forall i, j :: 0 <= i < |posts| && 0 <= j < |posts[i].comments| ==> posts[i].comments[j].id in r
    decreases |posts|
  {
    if posts == [] then []
    else
      var head := Keys(posts[0].comments, CommentId);
      assert forall j :: 0 <= j < |posts[0].comments| ==> head[j] == posts[0].comments[j].id;
      head + AllCommentIds(posts[1..])
  }

  class NexusStore {
    var currentUser: Option<User>
    var users: seq<User>
    var moodEntries: seq<MoodEntry>
    var goals: seq<Goal>
    var achievements: seq<Achievement>
    var posts: seq<Post>
    var journalEntries: seq<JournalEntry>
    var habits: seq<Habit>
    var resourceGroups: seq<ResourceGroup>
    var reports: seq<Report>
    var adminSettings: AdminSettings

    /** Ids are unique within every collection, since each new id is fresh for its collection. */
    predicate Valid()
      reads this
    {
      && UniqueKeys(users, UserId)
      && UniqueKeys(moodEntries, MoodId)
      && UniqueKeys(goals, GoalId)
      && UniqueKeys(achievements, AchievementId)
      && UniqueKeys(posts, PostId)
      && UniqueKeys(journalEntries, JournalId)
      && UniqueKeys(habits, HabitId)
      && UniqueKeys(resourceGroups, GroupId)
      && UniqueKeys(reports, ReportId)
    }

    /** The initial state: only the seeded administrator, nobody signed in (src/lib/store.ts:240-250). */
    constructor (loadedAt: Timestamp)
      ensures Valid()
      ensures currentUser == None && users == [SeedAdmin(loadedAt)]
      ensures moodEntries == [] && goals == [] && achievements == [] && posts == []
      ensures journalEntries == [] && habits == [] && resourceGroups == [] && reports == []
      ensures adminSettings == DefaultAdminSettings
    {
      currentUser := None;
      users := [SeedAdmin(loadedAt)];
      moodEntries, goals, achievements, posts := [], [], [], [];
      journalEntries, habits, resourceGroups, reports := [], [], [], [];
      adminSettings := DefaultAdminSettings;
    }

    // ---- Session ----------------------------------------------------------

    /** `login`: on a match the first matching user is signed in and returned; otherwise nothing changes. */
    method Login(username: string, password: string) returns (r: Option<User>)
      modifies this`currentUser
      ensures r == FindLogin(users, username, password)
      ensures currentUser == if r.Some? then r else old(currentUser)
    {
      r := FindLogin(users, username, password);
      if r.Some? {
        currentUser := r;
      }
    }

    /** `logout`: nobody is signed in; no data is touched. */
    method Logout()
      modifies this`currentUser
      ensures currentUser == None
    {
      currentUser := None;
    }

    /**
     * `register`: fails, changing nothing, when the username is taken ignoring case;
     * otherwise appends one private, non-admin user with empty social lists and signs it in.
     */
    method Register(username: string, password: string, displayName: string, now: Timestamp)
      returns (r: Option<User>)
      requires Valid()
      modifies this`users, this`currentUser
      ensures Valid()
      ensures UsernameTaken(old(users), username) ==>
        r == None && users == old(users) && currentUser == old(currentUser)
      ensures !UsernameTaken(old(users), username) ==>
        r.Some? && users == old(users) + [r.value] && currentUser == r &&
        r.value.id !in Keys(old(users), UserId) &&
        r.value == User(r.value.id, username, password, displayName, None, None, None,
                        false, true, now, [], [], [])
    {
      if UsernameTaken(users, username) {
        return None;
      }
      var id := GenerateId(Keys(users, UserId));
      var u := User(id, username, password, displayName, None, None, None, false, true, now, [], [], []);
      AppendUniqueKeys(users, u, UserId);
      users := users + [u];
      currentUser := Some(u);
      r := Some(u);
    }

    /** `updateUser`: merges the update into the user with that id, and into the signed-in copy when it is that user. */
    method UpdateUser(userId: Id, patch: UserPatch)
      requires Valid()
      modifies this`users, this`currentUser
      ensures Valid()
      ensures users == UpdateWhere(old(users), UserId, userId, ApplyUser, patch)
      ensures currentUser == if old(currentUser).Some? && old(currentUser).value.id == userId
                             then Some(ApplyUser(old(currentUser).value, patch)) else old(currentUser)
    {
      UpdateKeepsKeys(users, UserId, userId, ApplyUser, patch);
      users := UpdateWhere(users, UserId, userId, ApplyUser, patch);
      if currentUser.Some? && currentUser.value.id == userId {
        currentUser := Some(ApplyUser(currentUser.value, patch));
      }
    }

    /**
     * `deleteUser`: removes the user and everything it owns. Reports, the signed-in
     * copy and other users' friend and invite lists are not touched (they may now
     * name a user that no longer exists).
     */
    method DeleteUser(userId: Id)
      requires Valid()
      modifies this`users, this`posts, this`moodEntries, this`goals, this`achievements,
               this`journalEntries, this`habits, this`resourceGroups
      ensures Valid()
      ensures users == Without(old(users), UserId, userId)
      ensures posts == Without(old(posts), PostOwner, userId)
      ensures moodEntries == Without(old(moodEntries), MoodOwner, userId)
      ensures goals == Without(old(goals), GoalOwner, userId)
      ensures achievements == Without(old(achievements), AchievementOwner, userId)
      ensures journalEntries == Without(old(journalEntries), JournalOwner, userId)
      ensures habits == Without(old(habits), HabitOwner, userId)
      ensures resourceGroups == Without(old(resourceGroups), GroupOwner, userId)
    {
      DropUserAndFeed(userId);
      DropPrivateRecords(userId);
    }

    /** The first half of `deleteUser`'s cascade: the user, its posts, mood entries and goals. */
    method DropUserAndFeed(userId: Id)
      requires Valid()
      modifies this`users, this`posts, this`moodEntries, this`goals
      ensures Valid()
      ensures users == Without(old(users), UserId, userId)
      ensures posts == Without(old(posts), PostOwner, userId)
      ensures moodEntries == Without(old(moodEntries), MoodOwner, userId)
      ensures goals == Without(old(goals), GoalOwner, userId)
    {
      WithoutUniqueKeys(users, UserId, userId, UserId);
      users := Without(users, UserId, userId);
      WithoutUniqueKeys(posts, PostOwner, userId, PostId);
      posts := Without(posts, PostOwner, userId);
      WithoutUniqueKeys(moodEntries, MoodOwner, userId, MoodId);
      moodEntries := Without(moodEntries, MoodOwner, userId);
      WithoutUniqueKeys(goals, GoalOwner, userId, GoalId);
      goals := Without(goals, GoalOwner, userId);
    }

    /** The second half of `deleteUser`'s cascade: achievements, journal entries, habits and resource groups. */
    method DropPrivateRecords(userId: Id)
      requires Valid()
      modifies this`achievements, this`journalEntries, this`habits, this`resourceGroups
      ensures Valid()
      ensures achievements == Without(old(achievements), AchievementOwner, userId)
      ensures journalEntries == Without(old(journalEntries), JournalOwner, userId)
      ensures habits == Without(old(habits), HabitOwner, userId)
      ensures resourceGroups == Without(old(resourceGroups), GroupOwner, userId)
    {
      WithoutUniqueKeys(achievements, AchievementOwner, userId, AchievementId);
      achievements := Without(achievements, AchievementOwner, userId);
      WithoutUniqueKeys(journalEntries, JournalOwner, userId, JournalId);
      journalEntries := Without(journalEntries, JournalOwner, userId);
      WithoutUniqueKeys(habits, HabitOwner, userId, HabitId);
      habits := Without(habits, HabitOwner, userId);
      WithoutUniqueKeys(resourceGroups, GroupOwner, userId, GroupId);
      resourceGroups := Without(resourceGroups, GroupOwner, userId);
    }

    /** `createUserAsAdmin`: appends the given user with a fresh id and `createdAt`; no username check. */
    method CreateUserAsAdmin(data: User, now: Timestamp)
      requires Valid()
      modifies this`users
      ensures Valid()
      ensures |users| == |old(users)| + 1 && users[..|old(users)|] == old(users)
      ensures users[|old(users)|] == data.(id := users[|old(users)|].id, createdAt := now)
      ensures users[|old(users)|].id !in Keys(old(users), UserId)
    {
      var id := GenerateId(Keys(users, UserId));
      var u := data.(id := id, createdAt := now);
      AppendUniqueKeys(users, u, UserId);
      users := users + [u];
    }

    // ---- Mood entries -----------------------------------------------------

    /** `addMoodEntry`: appends the entry under a fresh id. */
    method AddMoodEntry(entry: MoodEntry)
      requires Valid()
      modifies this`moodEntries
      ensures Valid()
      ensures |moodEntries| == |old(moodEntries)| + 1 && moodEntries[..|old(moodEntries)|] == old(moodEntries)
      ensures moodEntries[|old(moodEntries)|] == entry.(id := moodEntries[|old(moodEntries)|].id)
      ensures moodEntries[|old(moodEntries)|].id !in Keys(old(moodEntries), MoodId)
    {
      var id := GenerateId(Keys(moodEntries, MoodId));
      AppendUniqueKeys(moodEntries, entry.(id := id), MoodId);
      moodEntries := moodEntries + [entry.(id := id)];
    }

    /** `updateMoodEntry`: merges the update into the entry with that id; no-op when there is none. */
    method UpdateMoodEntry(id: Id, patch: MoodPatch)
      requires Valid()
      modifies this`moodEntries
      ensures Valid()
      ensures moodEntries == UpdateWhere(old(moodEntries), MoodId, id, ApplyMood, patch)
    {
      UpdateKeepsKeys(moodEntries, MoodId, id, ApplyMood, patch);
      moodEntries := UpdateWhere(moodEntries, MoodId, id, ApplyMood, patch);
    }

    // ---- Goals ------------------------------------------------------------

    /** `addGoal`: appends the goal under a fresh id. */
    method AddGoal(goal: Goal)
      requires Valid()
      modifies this`goals
      ensures Valid()
      ensures |goals| == |old(goals)| + 1 && goals[..|old(goals)|] == old(goals)
      ensures goals[|old(goals)|] == goal.(id := goals[|old(goals)|].id)
      ensures goals[|old(goals)|].id !in Keys(old(goals), GoalId)
    {
      var id := GenerateId(Keys(goals, GoalId));
      AppendUniqueKeys(goals, goal.(id := id), GoalId);
      goals := goals + [goal.(id := id)];
    }

    /** `updateGoal`: merges the update into the goal with that id; no-op when there is none. */
    method UpdateGoal(id: Id, patch: GoalPatch)
      requires Valid()
      modifies this`goals
      ensures Valid()
      ensures goals == UpdateWhere(old(goals), GoalId, id, ApplyGoal, patch)
    {
      UpdateKeepsKeys(goals, GoalId, id, ApplyGoal, patch);
      goals := UpdateWhere(goals, GoalId, id, ApplyGoal, patch);
    }

    /** `deleteGoal`: removes the goals with that id. */
    method DeleteGoal(id: Id)
      requires Valid()
      modifies this`goals
      ensures Valid()
      ensures goals == Without(old(goals), GoalId, id)
    {
      WithoutUniqueKeys(goals, GoalId, id, GoalId);
      goals := Without(goals, GoalId, id);
    }

    // ---- Achievements -----------------------------------------------------

    /** `addAchievement`: appends the achievement under a fresh id. */
    method AddAchievement(a: Achievement)
      requires Valid()
      modifies this`achievements
      ensures Valid()
      ensures |achievements| == |old(achievements)| + 1 && achievements[..|old(achievements)|] == old(achievements)
      ensures achievements[|old(achievements)|] == a.(id := achievements[|old(achievements)|].id)
      ensures achievements[|old(achievements)|].id !in Keys(old(achievements), AchievementId)
    {
      var id := GenerateId(Keys(achievements, AchievementId));
      AppendUniqueKeys(achievements, a.(id := id), AchievementId);
      achievements := achievements + [a.(id := id)];
    }

    /** `updateAchievement`: merges the update into the achievement with that id; no-op when there is none. */
    method UpdateAchievement(id: Id, patch: AchievementPatch)
      requires Valid()
      modifies this`achievements
      ensures Valid()
      ensures achievements == UpdateWhere(old(achievements), AchievementId, id, ApplyAchievement, patch)
    {
      UpdateKeepsKeys(achievements, AchievementId, id, ApplyAchievement, patch);
      achievements := UpdateWhere(achievements, AchievementId, id, ApplyAchievement, patch);
    }

    // ---- Posts ------------------------------------------------------------

    /** `addPost`: appends the post under a fresh id. */
    method AddPost(p: Post)
      requires Valid()
      modifies this`posts
      ensures Valid()
      ensures |posts| == |old(posts)| + 1 && posts[..|old(posts)|] == old(posts)
      ensures posts[|old(posts)|] == p.(id := posts[|old(posts)|].id)
      ensures posts[|old(posts)|].id !in Keys(old(posts), PostId)
    {
      var id := GenerateId(Keys(posts, PostId));
      AppendUniqueKeys(posts, p.(id := id), PostId);
      posts := posts + [p.(id := id)];
    }

    /** `updatePost`: merges the update into the post with that id; no-op when there is none. */
    method UpdatePost(id: Id, patch: PostPatch)
      requires Valid()
      modifies this`posts
      ensures Valid()
      ensures posts == UpdateWhere(old(posts), PostId, id, ApplyPost, patch)
    {
      UpdateKeepsKeys(posts, PostId, id, ApplyPost, patch);
      posts := UpdateWhere(posts, PostId, id, ApplyPost, patch);
    }

    /** `deletePost`: removes the posts with that id. */
    method DeletePost(id: Id)
      requires Valid()
      modifies this`posts
      ensures Valid()
      ensures posts == Without(old(posts), PostId, id)
    {
      WithoutUniqueKeys(posts, PostId, id, PostId);
      posts := Without(posts, PostId, id);
    }

    /** `likePost`: toggles `userId` in the likes of the post with that id; every other post is unchanged. */
    method LikePost(postId: Id, userId: Id)
      requires Valid()
      modifies this`posts
      ensures Valid()
      ensures posts == UpdateWhere(old(posts), PostId, postId, ToggleLike, userId)
    {
      UpdateKeepsKeys(posts, PostId, postId, ToggleLike, userId);
      posts := UpdateWhere(posts, PostId, postId, ToggleLike, userId);
    }

    /** `addComment`: appends the comment, under a fresh id, to the post with that id. */
    method AddComment(postId: Id, comment: Comment)
      requires Valid()
      modifies this`posts
      ensures Valid()
      ensures exists id :: (id !in AllCommentIds(old(posts)) &&
        posts == UpdateWhere(old(posts), PostId, postId, AppendComment, comment.(id := id)))
    {
      var id := GenerateId(AllCommentIds(posts));
      UpdateKeepsKeys(posts, PostId, postId, AppendComment, comment.(id := id));
      posts := UpdateWhere(posts, PostId, postId, AppendComment, comment.(id := id));
    }

    // ---- Journal ----------------------------------------------------------

    /** `addJournalEntry`: appends the entry under a fresh id. */
    method AddJournalEntry(entry: JournalEntry)
      requires Valid()
      modifies this`journalEntries
      ensures Valid()
      ensures |journalEntries| == |old(journalEntries)| + 1 && journalEntries[..|old(journalEntries)|] == old(journalEntries)
      ensures journalEntries[|old(journalEntries)|] == entry.(id := journalEntries[|old(journalEntries)|].id)
      ensures journalEntries[|old(journalEntries)|].id !in Keys(old(journalEntries), JournalId)
    {
      var id := GenerateId(Keys(journalEntries, JournalId));
      AppendUniqueKeys(journalEntries, entry.(id := id), JournalId);
      journalEntries := journalEntries + [entry.(id := id)];
    }

    /** `updateJournalEntry`: merges the update into the entry with that id; no-op when there is none. */
    method UpdateJournalEntry(id: Id, patch: JournalPatch)
      requires Valid()
      modifies this`journalEntries
      ensures Valid()
      ensures journalEntries == UpdateWhere(old(journalEntries), JournalId, id, ApplyJournal, patch)
    {
      UpdateKeepsKeys(journalEntries, JournalId, id, ApplyJournal, patch);
      journalEntries := UpdateWhere(journalEntries, JournalId, id, ApplyJournal, patch);
    }

    /** `deleteJournalEntry`: removes the entries with that id. */
    method DeleteJournalEntry(id: Id)
      requires Valid()
      modifies this`journalEntries
      ensures Valid()
      ensures journalEntries == Without(old(journalEntries), JournalId, id)
    {
      WithoutUniqueKeys(journalEntries, JournalId, id, JournalId);
      journalEntries := Without(journalEntries, JournalId, id);
    }

    // ---- Habits -----------------------------------------------------------

    /** `addHabit`: appends the habit under a fresh id. */
    method AddHabit(h: Habit)
      requires Valid()
      modifies this`habits
      ensures Valid()
      ensures |habits| == |old(habits)| + 1 && habits[..|old(habits)|] == old(habits)
      ensures habits[|old(habits)|] == h.(id := habits[|old(habits)|].id)
      ensures habits[|old(habits)|].id !in Keys(old(habits), HabitId)
    {
      var id := GenerateId(Keys(habits, HabitId));
      AppendUniqueKeys(habits, h.(id := id), HabitId);
      habits := habits + [h.(id := id)];
    }

    /** `updateHabit`: merges the update into the habit with that id; no-op when there is none. */
    method UpdateHabit(id: Id, patch: HabitPatch)
      requires Valid()
      modifies this`habits
      ensures Valid()
      ensures habits == UpdateWhere(old(habits), HabitId, id, ApplyHabit, patch)
    {
      UpdateKeepsKeys(habits, HabitId, id, ApplyHabit, patch);
      habits := UpdateWhere(habits, HabitId, id, ApplyHabit, patch);
    }

    /** `deleteHabit`: removes the habits with that id. */
    method DeleteHabit(id: Id)
      requires Valid()
      modifies this`habits
      ensures Valid()
      ensures habits == Without(old(habits), HabitId, id)
    {
      WithoutUniqueKeys(habits, HabitId, id, HabitId);
      habits := Without(habits, HabitId, id);
    }

    /** `completeHabit`: toggles `date` in the habit with that id, whose streak becomes its number of dates. */
    method CompleteHabit(id: Id, date: Day)
      requires Valid()
      modifies this`habits
      ensures Valid()
      ensures habits == UpdateWhere(old(habits), HabitId, id, ToggleCompletion, date)
    {
      UpdateKeepsKeys(habits, HabitId, id, ToggleCompletion, date);
      habits := UpdateWhere(habits, HabitId, id, ToggleCompletion, date);
    }

    // ---- Resource groups --------------------------------------------------

    /** `addResourceGroup`: appends the group under a fresh id. */
    method AddResourceGroup(g: ResourceGroup)
      requires Valid()
      modifies this`resourceGroups
      ensures Valid()
      ensures |resourceGroups| == |old(resourceGroups)| + 1 && resourceGroups[..|old(resourceGroups)|] == old(resourceGroups)
      ensures resourceGroups[|old(resourceGroups)|] == g.(id := resourceGroups[|old(resourceGroups)|].id)
      ensures resourceGroups[|old(resourceGroups)|].id !in Keys(old(resourceGroups), GroupId)
    {
      var id := GenerateId(Keys(resourceGroups, GroupId));
      AppendUniqueKeys(resourceGroups, g.(id := id), GroupId);
      resourceGroups := resourceGroups + [g.(id := id)];
    }

    /** `updateResourceGroup`: merges the update into the group with that id; no-op when there is none. */
    method UpdateResourceGroup(id: Id, patch: GroupPatch)
      requires Valid()
      modifies this`resourceGroups
      ensures Valid()
      ensures resourceGroups == UpdateWhere(old(resourceGroups), GroupId, id, ApplyGroup, patch)
    {
      UpdateKeepsKeys(resourceGroups, GroupId, id, ApplyGroup, patch);
      resourceGroups := UpdateWhere(resourceGroups, GroupId, id, ApplyGroup, patch);
    }

    /** `deleteResourceGroup`: removes the groups with that id. */
    method DeleteResourceGroup(id: Id)
      requires Valid()
      modifies this`resourceGroups
      ensures Valid()
      ensures resourceGroups == Without(old(resourceGroups), GroupId, id)
    {
      WithoutUniqueKeys(resourceGroups, GroupId, id, GroupId);
      resourceGroups := Without(resourceGroups, GroupId, id);
    }

    // ---- Social -----------------------------------------------------------

    /** `sendFriendInvite`. */
    method SendFriendInvite(from: Id, to: Id)
      requires Valid()
      modifies this`users
      ensures Valid()
      ensures users == Social.SendInvite(old(users), from, to)
    {
      users := Social.SendInvite(users, from, to);
    }

    /** `acceptFriendInvite`. The signed-in copy is not refreshed. */
    method AcceptFriendInvite(user: Id, from: Id)
      requires Valid()
      modifies this`users
      ensures Valid()
      ensures users == Social.AcceptInvite(old(users), user, from)
    {
      users := Social.AcceptInvite(users, user, from);
    }

    /** `declineFriendInvite`. */
    method DeclineFriendInvite(user: Id, from: Id)
      requires Valid()
      modifies this`users
      ensures Valid()
      ensures users == Social.DeclineInvite(old(users), user, from)
    {
      users := Social.DeclineInvite(users, user, from);
    }

    /** `removeFriend`. */
    method RemoveFriend(user: Id, friend: Id)
      requires Valid()
      modifies this`users
      ensures Valid()
      ensures users == Social.RemoveFriend(old(users), user, friend)
    {
      users := Social.RemoveFriend(users, user, friend);
    }

    // ---- Reports and settings ---------------------------------------------

    /** `addReport`: appends the report, as given, under a fresh id. */
    method AddReport(report: Report)
      requires Valid()
      modifies this`reports
      ensures Valid()
      ensures |reports| == |old(reports)| + 1 && reports[..|old(reports)|] == old(reports)
      ensures reports[|old(reports)|] == report.(id := reports[|old(reports)|].id)
      ensures reports[|old(reports)|].id !in Keys(old(reports), ReportId)
    {
      var id := GenerateId(Keys(reports, ReportId));
      AppendUniqueKeys(reports, report.(id := id), ReportId);
      reports := reports + [report.(id := id)];
    }

    /** `updateReport`: merges the update into the report with that id; no-op when there is none. */
    method UpdateReport(id: Id, patch: ReportPatch)
      requires Valid()
      modifies this`reports
      ensures Valid()
      ensures reports == UpdateWhere(old(reports), ReportId, id, ApplyReport, patch)
    {
      UpdateKeepsKeys(reports, ReportId, id, ApplyReport, patch);
      reports := UpdateWhere(reports, ReportId, id, ApplyReport, patch);
    }

    /** `updateAdminSettings`: merges the update into the settings. */
    method UpdateAdminSettings(patch: SettingsPatch)
      modifies this`adminSettings
      ensures adminSettings == ApplySettings(old(adminSettings), patch)
    {
      adminSettings := ApplySettings(adminSettings, patch);
    }
  }
}
