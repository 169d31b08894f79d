/**
 * The records held by the store (src/lib/store.ts:5-135) and the partial
 * updates (`Partial<T>`) its `update*` actions merge into them.
 *
 * Ids are strings; calendar dates ('yyyy-MM-dd') are day numbers; ISO
 * timestamps are instants on an integer clock. The TypeScript field `type`
 * is `kind` here, since `type` is a Dafny keyword.
 */
module Entities {
  import opened Wrappers

  type Id = string
  /** A calendar day, as a day number. */
  type Day = int
  /** An instant, as an integer clock reading. */
  type Timestamp = int

  datatype Visibility = Private | Friends | Public
  datatype GoalStatus = Active | Completed | Paused
  datatype AchievementKind = Mental | Emotional | Professional | Social
  datatype PostKind = TextPost | MoodPost | AchievementPost | GoalPost | PhotoPost
  datatype Frequency = Daily | Weekly | Custom
  datatype ReportStatus = Pending | Reviewed | Resolved

  datatype User = User(
    id: Id, username: string, password: string, displayName: string,
    avatar: Option<string>, bio: Option<string>, values: Option<seq<string>>,
    isAdmin: bool, isPrivate: bool, createdAt: Timestamp,
    friends: seq<Id>, pendingInvites: seq<Id>, blockedUsers: seq<Id>)

  datatype MoodEntry = MoodEntry(
    id: Id, userId: Id, date: Day, mood: string, moodScore: int,
    emotions: seq<string>, intensity: int, note: Option<string>, isPrivate: bool)

  datatype Goal = Goal(
    id: Id, userId: Id, title: string, description: string, motivation: string,
    fear: Option<string>, difficulty: int, progress: int, status: GoalStatus,
    visibility: Visibility, linkedHabits: seq<Id>, createdAt: Timestamp, targetDate: Option<Day>)

  datatype Comment = Comment(id: Id, userId: Id, content: string, createdAt: Timestamp)

  datatype Achievement = Achievement(
    id: Id, userId: Id, title: string, description: string, kind: AchievementKind,
    date: Timestamp, visibility: Visibility, likes: seq<Id>, comments: seq<Comment>)

  datatype Post = Post(
    id: Id, userId: Id, content: string, images: Option<seq<string>>, kind: PostKind,
    visibility: Visibility, likes: seq<Id>, comments: seq<Comment>, createdAt: Timestamp)

  datatype JournalEntry = JournalEntry(
    id: Id, userId: Id, content: string, tags: seq<string>, mood: Option<string>, createdAt: Timestamp)

  datatype Habit = Habit(
    id: Id, userId: Id, title: string, description: Option<string>, frequency: Frequency,
    streak: int, completedDates: seq<Day>, isPublic: bool, createdAt: Timestamp)

  datatype ResourceMember = ResourceMember(
    id: Id, name: string, image: Option<string>, notes: Option<string>, tags: Option<seq<string>>)

  datatype ResourceGroup = ResourceGroup(
    id: Id, userId: Id, name: string, description: Option<string>, color: string,
    members: seq<ResourceMember>, createdAt: Timestamp)

  datatype Report = Report(
    id: Id, reporterId: Id, reportedUserId: Id, reason: string, status: ReportStatus,
    createdAt: Timestamp, adminNote: Option<string>)

  datatype AdminSettings = AdminSettings(
    primaryColor: string, accentColor: string, appName: string, welcomeMessage: string,
    maintenanceMode: bool)

  /** The settings the store starts with (src/lib/store.ts:215-221). */
  const DefaultAdminSettings := AdminSettings("174 72% 56%", "262 60% 60%", "NEXUS",
    "Bienvenue dans votre espace personnel", false)

  /** The seeded administrator account (src/lib/store.ts:224-235); `createdAt` is the load time. */
  function SeedAdmin(loadedAt: Timestamp): (u: User)
    ensures u.id == "admin-001" && u.username == "admin" && u.isAdmin && u.isPrivate
    ensures u.friends == [] && u.pendingInvites == [] && u.blockedUsers == []
  {
    User("admin-001", "admin", "aaddmiinee", "Administrateur", None, None, None,
         true, true, loadedAt, [], [], [])
  }

  // Keys, as functions, so the generic list operations can select by them.
  function UserId(u: User): Id { u.id }
  function MoodId(m: MoodEntry): Id { m.id }
  function MoodOwner(m: MoodEntry): Id { m.userId }
  function GoalId(g: Goal): Id { g.id }
  function GoalOwner(g: Goal): Id { g.userId }
  function AchievementId(a: Achievement): Id { a.id }
  function AchievementOwner(a: Achievement): Id { a.userId }
  function PostId(p: Post): Id { p.id }
  function PostOwner(p: Post): Id { p.userId }
  function JournalId(j: JournalEntry): Id { j.id }
  function JournalOwner(j: JournalEntry): Id { j.userId }
  function HabitId(h: Habit): Id { h.id }
  function HabitOwner(h: Habit): Id { h.userId }
  function GroupId(g: ResourceGroup): Id { g.id }
  function GroupOwner(g: ResourceGroup): Id { g.userId }
  function ReportId(r: Report): Id { r.id }
  function CommentId(c: Comment): Id { c.id }

  /** `{...old, ...patch}` on one optional field: a given value replaces the old one. */
  function Pick<T>(current: T, given: Option<T>): T {
    match given
    case Some(v) => v
    case None => current
  }

  /** The same on a field that is itself optional: a given value becomes the field's value. */
  function PickOpt<T>(current: Option<T>, given: Option<T>): Option<T> {
    if given.Some? then given else current
  }

  // Partial<T> for each record: a field that is `None` is absent from the update.
  // The id is not part of any update (no caller passes one).

  datatype UserPatch = UserPatch(
    username: Option<string>, password: Option<string>, displayName: Option<string>,
    avatar: Option<string>, bio: Option<string>, values: Option<seq<string>>,
    isAdmin: Option<bool>, isPrivate: Option<bool>, createdAt: Option<Timestamp>,
    friends: Option<seq<Id>>, pendingInvites: Option<seq<Id>>, blockedUsers: Option<seq<Id>>)

  const NoUserChange := UserPatch(None, None, None, None, None, None, None, None, None, None, None, None)

  function ApplyUser(u: User, p: UserPatch): (r: User)
    ensures r.id == u.id
    ensures p == NoUserChange ==> r == u
    ensures p.displayName.Some? ==> r.displayName == p.displayName.value
    ensures p.displayName.None? ==> r.displayName == u.displayName
    ensures p.bio.Some? ==> r.bio == p.bio
    ensures p.bio.None? ==> r.bio == u.bio
    ensures p.friends.None? && p.pendingInvites.None? ==> r.friends == u.friends && r.pendingInvites == u.pendingInvites
  {
    u.(username := Pick(u.username, p.username), password := Pick(u.password, p.password),
       displayName := Pick(u.displayName, p.displayName), avatar := PickOpt(u.avatar, p.avatar),
       bio := PickOpt(u.bio, p.bio), values := PickOpt(u.values, p.values),
       isAdmin := Pick(u.isAdmin, p.isAdmin), isPrivate := Pick(u.isPrivate, p.isPrivate),
       createdAt := Pick(u.createdAt, p.createdAt), friends := Pick(u.friends, p.friends),
       pendingInvites := Pick(u.pendingInvites, p.pendingInvites),
       blockedUsers := Pick(u.blockedUsers, p.blockedUsers))
  }

  datatype MoodPatch = MoodPatch(
    userId: Option<Id>, date: Option<Day>, mood: Option<string>, moodScore: Option<int>,
    emotions: Option<seq<string>>, intensity: Option<int>, note: Option<string>, isPrivate: Option<bool>)

  const NoMoodChange := MoodPatch(None, None, None, None, None, None, None, None)

  function ApplyMood(m: MoodEntry, p: MoodPatch): (r: MoodEntry)
    ensures r.id == m.id
    ensures p == NoMoodChange ==> r == m
    ensures p.userId.None? && p.date.None? ==> r.userId == m.userId && r.date == m.date
    ensures p.isPrivate.None? ==> r.isPrivate == m.isPrivate
  {
    m.(userId := Pick(m.userId, p.userId), date := Pick(m.date, p.date), mood := Pick(m.mood, p.mood),
       moodScore := Pick(m.moodScore, p.moodScore), emotions := Pick(m.emotions, p.emotions),
       intensity := Pick(m.intensity, p.intensity), note := PickOpt(m.note, p.note),
       isPrivate := Pick(m.isPrivate, p.isPrivate))
  }

  datatype GoalPatch = GoalPatch(
    userId: Option<Id>, title: Option<string>, description: Option<string>, motivation: Option<string>,
    fear: Option<string>, difficulty: Option<int>, progress: Option<int>, status: Option<GoalStatus>,
    visibility: Option<Visibility>, linkedHabits: Option<seq<Id>>, createdAt: Option<Timestamp>,
    targetDate: Option<Day>)

  const NoGoalChange := GoalPatch(None, None, None, None, None, None, None, None, None, None, None, None)

  function ApplyGoal(g: Goal, p: GoalPatch): (r: Goal)
    ensures r.id == g.id
    ensures p == NoGoalChange ==> r == g
    ensures p.progress.Some? ==> r.progress == p.progress.value
    ensures p.status.Some? ==> r.status == p.status.value
    ensures p.progress.None? ==> r.progress == g.progress
    ensures p.status.None? ==> r.status == g.status
    ensures p.userId.None? ==> r.userId == g.userId
    ensures p.createdAt.None? ==> r.createdAt == g.createdAt
  {
    g.(userId := Pick(g.userId, p.userId), title := Pick(g.title, p.title),
       description := Pick(g.description, p.description), motivation := Pick(g.motivation, p.motivation),
       fear := PickOpt(g.fear, p.fear), difficulty := Pick(g.difficulty, p.difficulty),
       progress := Pick(g.progress, p.progress), status := Pick(g.status, p.status),
       visibility := Pick(g.visibility, p.visibility), linkedHabits := Pick(g.linkedHabits, p.linkedHabits),
       createdAt := Pick(g.createdAt, p.createdAt), targetDate := PickOpt(g.targetDate, p.targetDate))
  }

  datatype AchievementPatch = AchievementPatch(
    userId: Option<Id>, title: Option<string>, description: Option<string>, kind: Option<AchievementKind>,
    date: Option<Timestamp>, visibility: Option<Visibility>, likes: Option<seq<Id>>,
    comments: Option<seq<Comment>>)

  const NoAchievementChange := AchievementPatch(None, None, None, None, None, None, None, None)

  function ApplyAchievement(a: Achievement, p: AchievementPatch): (r: Achievement)
    ensures r.id == a.id
    ensures p == NoAchievementChange ==> r == a
    ensures p.likes.Some? ==> r.likes == p.likes.value
    ensures p == NoAchievementChange.(likes := p.likes) ==> r == a.(likes := r.likes)
  {
    a.(userId := Pick(a.userId, p.userId), title := Pick(a.title, p.title),
       description := Pick(a.description, p.description), kind := Pick(a.kind, p.kind),
       date := Pick(a.date, p.date), visibility := Pick(a.visibility, p.visibility),
       likes := Pick(a.likes, p.likes), comments := Pick(a.comments, p.comments))
  }

  datatype PostPatch = PostPatch(
    userId: Option<Id>, content: Option<string>, images: Option<seq<string>>, kind: Option<PostKind>,
    visibility: Option<Visibility>, likes: Option<seq<Id>>, comments: Option<seq<Comment>>,
    createdAt: Option<Timestamp>)

  const NoPostChange := PostPatch(None, None, None, None, None, None, None, None)

  function ApplyPost(x: Post, p: PostPatch): (r: Post)
    ensures r.id == x.id
    ensures p == NoPostChange ==> r == x
  {
    x.(userId := Pick(x.userId, p.userId), content := Pick(x.content, p.content),
       images := PickOpt(x.images, p.images), kind := Pick(x.kind, p.kind),
       visibility := Pick(x.visibility, p.visibility), likes := Pick(x.likes, p.likes),
       comments := Pick(x.comments, p.comments), createdAt := Pick(x.createdAt, p.createdAt))
  }

  datatype JournalPatch = JournalPatch(
    userId: Option<Id>, content: Option<string>, tags: Option<seq<string>>, mood: Option<string>,
    createdAt: Option<Timestamp>)

  const NoJournalChange := JournalPatch(None, None, None, None, None)

  function ApplyJournal(j: JournalEntry, p: JournalPatch): (r: JournalEntry)
    ensures r.id == j.id
    ensures p == NoJournalChange ==> r == j
    ensures p.content.Some? ==> r.content == p.content.value
    ensures p.tags.Some? ==> r.tags == p.tags.value
    ensures p.userId.None? && p.mood.None? && p.createdAt.None? ==>
      r.userId == j.userId && r.mood == j.mood && r.createdAt == j.createdAt
  {
    j.(userId := Pick(j.userId, p.userId), content := Pick(j.content, p.content),
       tags := Pick(j.tags, p.tags), mood := PickOpt(j.mood, p.mood),
       createdAt := Pick(j.createdAt, p.createdAt))
  }

  datatype HabitPatch = HabitPatch(
    userId: Option<Id>, title: Option<string>, description: Option<string>, frequency: Option<Frequency>,
    streak: Option<int>, completedDates: Option<seq<Day>>, isPublic: Option<bool>,
    createdAt: Option<Timestamp>)

  const NoHabitChange := HabitPatch(None, None, None, None, None, None, None, None)

  function ApplyHabit(h: Habit, p: HabitPatch): (r: Habit)
    ensures r.id == h.id
    ensures p == NoHabitChange ==> r == h
  {
    h.(userId := Pick(h.userId, p.userId), title := Pick(h.title, p.title),
       description := PickOpt(h.description, p.description), frequency := Pick(h.frequency, p.frequency),
       streak := Pick(h.streak, p.streak), completedDates := Pick(h.completedDates, p.completedDates),
       isPublic := Pick(h.isPublic, p.isPublic), createdAt := Pick(h.createdAt, p.createdAt))
  }

  datatype GroupPatch = GroupPatch(
    userId: Option<Id>, name: Option<string>, description: Option<string>, color: Option<string>,
    members: Option<seq<ResourceMember>>, createdAt: Option<Timestamp>)

  const NoGroupChange := GroupPatch(None, None, None, None, None, None)

  function ApplyGroup(g: ResourceGroup, p: GroupPatch): (r: ResourceGroup)
    ensures r.id == g.id
    ensures p == NoGroupChange ==> r == g
  {
    g.(userId := Pick(g.userId, p.userId), name := Pick(g.name, p.name),
       description := PickOpt(g.description, p.description), color := Pick(g.color, p.color),
       members := Pick(g.members, p.members), createdAt := Pick(g.createdAt, p.createdAt))
  }

  datatype ReportPatch = ReportPatch(
    reporterId: Option<Id>, reportedUserId: Option<Id>, reason: Option<string>,
    status: Option<ReportStatus>, createdAt: Option<Timestamp>, adminNote: Option<string>)

  const NoReportChange := ReportPatch(None, None, None, None, None, None)

  function ApplyReport(x: Report, p: ReportPatch): (r: Report)
    ensures r.id == x.id
    ensures p == NoReportChange ==> r == x
    ensures p.status.Some? ==> r.status == p.status.value
  {
    x.(reporterId := Pick(x.reporterId, p.reporterId), reportedUserId := Pick(x.reportedUserId, p.reportedUserId),
       reason := Pick(x.reason, p.reason), status := Pick(x.status, p.status),
       createdAt := Pick(x.createdAt, p.createdAt), adminNote := PickOpt(x.adminNote, p.adminNote))
  }

  datatype SettingsPatch = SettingsPatch(
    primaryColor: Option<string>, accentColor: Option<string>, appName: Option<string>,
    welcomeMessage: Option<string>, maintenanceMode: Option<bool>)

  const NoSettingsChange := SettingsPatch(None, None, None, None, None)

  function ApplySettings(s: AdminSettings, p: SettingsPatch): (r: AdminSettings)
    ensures p == NoSettingsChange ==> r == s
    ensures p.maintenanceMode.Some? ==> r.maintenanceMode == p.maintenanceMode.value
    ensures p.maintenanceMode.None? ==> r.maintenanceMode == s.maintenanceMode
  {
    s.(primaryColor := Pick(s.primaryColor, p.primaryColor), accentColor := Pick(s.accentColor, p.accentColor),
       appName := Pick(s.appName, p.appName), welcomeMessage := Pick(s.welcomeMessage, p.welcomeMessage),
       maintenanceMode := Pick(s.maintenanceMode, p.maintenanceMode))
  }

  /** Merging the same update twice is merging it once. */
  lemma ApplyGoalIdempotent(g: Goal, p: GoalPatch)
    ensures ApplyGoal(ApplyGoal(g, p), p) == ApplyGoal(g, p)
  {
  }
}
