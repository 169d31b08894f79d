/**
 * The administration page (src/components/tabs/AdminTab.tsx): pending reports
 * and their resolution, account creation, and the user list with its delete
 * buttons. Everything is behind the administrator guard: for anyone else the
 * page offers nothing, so every handler here is a no-op for them.
 */
module Admin {
  import opened Wrappers
  import opened Seqs
  import opened Entities
  import opened Store

  /** `currentUser?.isAdmin`: the guard of the whole page. */
  predicate IsAdmin(viewer: Option<User>) {
    viewer.Some? && viewer.value.isAdmin
  }

  predicate IsPending(r: Report) {
    r.status == Pending
  }

  /** `pendingReports`: exactly the reports still waiting, in stored order. */
  function PendingReports(reports: seq<Report>): (r: seq<Report>)
    ensures forall i :: 0 <= i < |r| ==> r[i] in reports && r[i].status == Pending
    ensures forall i :: 0 <= i < |reports| && reports[i].status == Pending ==> reports[i] in r
  {
    Filter(reports, IsPending)
  }

  /**
   * The user list: everyone but the administrator looking at it. With unique ids
   * and the administrator among the users, exactly one user is left out.
   */
  function ListedUsers(users: seq<User>, admin: User): (r: seq<User>)
    ensures forall i :: 0 <= i < |r| ==> r[i] in users && r[i].id != admin.id
    ensures forall i :: 0 <= i < |users| && users[i].id != admin.id ==> users[i] in r
    ensures UniqueKeys(users, UserId) && admin.id in Keys(users, UserId) ==> |r| == |users| - 1
  {
    if UniqueKeys(users, UserId) && admin.id in Keys(users, UserId) then
      WithoutOneKey(users, UserId, admin.id);
      Without(users, UserId, admin.id)
    else
      Without(users, UserId, admin.id)
  }

  /** The account `handleCreateUser` passes on: a private, non-administrator user with empty social lists. */
  function AdminCreated(username: string, password: string, displayName: string): (u: User)
    ensures u.username == username && u.password == password && u.displayName == displayName
    ensures !u.isAdmin && u.isPrivate
    ensures u.friends == [] && u.pendingInvites == [] && u.blockedUsers == []
    ensures u.avatar == None && u.bio == None && u.values == None
  {
    User("", username, password, displayName, None, None, None, false, true, 0, [], [], [])
  }

  /**
   * `handleCreateUser`: for a non-administrator, or when any of the three inputs is
   * empty, nothing happens. Otherwise the account is appended under a fresh id,
   * whether or not the username is already taken, and the inputs are cleared.
   */
  method HandleCreateUser(store: NexusStore, username: string, password: string, displayName: string, now: Timestamp)
    returns (username': string, password': string, displayName': string)
    requires store.Valid()
    modifies store`users
    ensures store.Valid()
    ensures !IsAdmin(store.currentUser) || username == "" || password == "" || displayName == "" ==>
      store.users == old(store.users) &&
      username' == username && password' == password && displayName' == displayName
    ensures IsAdmin(store.currentUser) && username != "" && password != "" && displayName != "" ==>
      username' == "" && password' == "" && displayName' == "" &&
      |store.users| == |old(store.users)| + 1 && store.users[..|old(store.users)|] == old(store.users) &&
      store.users[|old(store.users)|] ==
        AdminCreated(username, password, displayName).(id := store.users[|old(store.users)|].id, createdAt := now) &&
      store.users[|old(store.users)|].id !in Keys(old(store.users), UserId)
  {
    if !IsAdmin(store.currentUser) || username == "" || password == "" || displayName == "" {
      return username, password, displayName;
    }
    store.CreateUserAsAdmin(AdminCreated(username, password, displayName), now);
    username', password', displayName' := "", "", "";
  }

  /** `reports.find(r => r.id === reportId)`. */
  function FindReport(reports: seq<Report>, id: Id): (r: Option<Report>)
    ensures r.None? <==> id !in Keys(reports, ReportId)
    ensures r.Some? ==> r.value in reports && r.value.id == id
  {
    var r := Find(reports, (x: Report) => x.id == id);
    assert r.None? ==> id !in Keys(reports, ReportId);
    r
  }

  /** The update `handleResolveReport` sends: only the status. */
  function StatusPatch(action: ReportStatus): (p: ReportPatch)
    ensures p.status == Some(action)
  {
    NoReportChange.(status := Some(action))
  }

  /** Resolving sets that report's status and keeps the rest of it. */
  lemma StatusShape(x: Report, action: ReportStatus)
    ensures ApplyReport(x, StatusPatch(action)) == x.(status := action)
  {
  }

  /**
   * Once a report is marked reviewed or resolved it is no longer pending, and
   * every other pending report still is.
   */
  lemma ResolvedLeavesPending(reports: seq<Report>, id: Id, action: ReportStatus)
    requires action != Pending
    ensures var after := UpdateWhere(reports, ReportId, id, ApplyReport, StatusPatch(action));
      (forall i :: 0 <= i < |PendingReports(after)| ==> PendingReports(after)[i].id != id) &&
      (forall i :: 0 <= i < |reports| && reports[i].id != id && reports[i].status == Pending ==>
         reports[i] in PendingReports(after))
  {
    var after := UpdateWhere(reports, ReportId, id, ApplyReport, StatusPatch(action));
    var pending := PendingReports(after);
    forall i | 0 <= i < |pending| ensures pending[i].id != id {
      var j :| 0 <= j < |after| && after[j] == pending[i];
      if reports[j].id == id {
        StatusShape(reports[j], action);
      }
    }
    forall i | 0 <= i < |reports| && reports[i].id != id && reports[i].status == Pending
      ensures reports[i] in pending
    {
      assert after[i] == reports[i];
    }
  }

  /** The collections `deleteUser` works on, taken together. */
  datatype AccountData = AccountData(
    users: seq<User>, posts: seq<Post>, moodEntries: seq<MoodEntry>, goals: seq<Goal>,
    achievements: seq<Achievement>, journalEntries: seq<JournalEntry>, habits: seq<Habit>,
    resourceGroups: seq<ResourceGroup>)

  function Accounts(store: NexusStore): AccountData
    reads store
  {
    AccountData(store.users, store.posts, store.moodEntries, store.goals, store.achievements,
                store.journalEntries, store.habits, store.resourceGroups)
  }

  /** The account data `deleteUser(userId)` leaves: that user and everything they own are gone, in the same order. */
  function Cascade(a: AccountData, userId: Id): AccountData {
    AccountData(Without(a.users, UserId, userId), Without(a.posts, PostOwner, userId),
                Without(a.moodEntries, MoodOwner, userId), Without(a.goals, GoalOwner, userId),
                Without(a.achievements, AchievementOwner, userId), Without(a.journalEntries, JournalOwner, userId),
                Without(a.habits, HabitOwner, userId), Without(a.resourceGroups, GroupOwner, userId))
  }

  /**
   * `handleResolveReport`: for a non-administrator nothing happens. Otherwise,
   * when the account is to be deleted and the report exists, the reported user is
   * deleted with everything they own; then, in every case, the report's status
   * becomes `action`.
   */
  method HandleResolveReport(store: NexusStore, reportId: Id, action: ReportStatus, deleteAccount: bool)
    requires store.Valid()
    requires action != Pending
    modifies store`users, store`posts, store`moodEntries, store`goals, store`achievements,
             store`journalEntries, store`habits, store`resourceGroups, store`reports
    ensures store.Valid()
    ensures !IsAdmin(store.currentUser) ==> store.reports == old(store.reports)
    ensures IsAdmin(store.currentUser) ==>
      store.reports == UpdateWhere(old(store.reports), ReportId, reportId, ApplyReport, StatusPatch(action))
    ensures Accounts(store) ==
      if IsAdmin(store.currentUser) && deleteAccount && FindReport(old(store.reports), reportId).Some?
      then Cascade(old(Accounts(store)), FindReport(old(store.reports), reportId).value.reportedUserId)
      else old(Accounts(store))
  {
    if !IsAdmin(store.currentUser) {
      return;
    }
    DeleteReported(store, FindReport(store.reports, reportId), deleteAccount);
    store.UpdateReport(reportId, StatusPatch(action));
  }

  /** The first step of `handleResolveReport`: the cascade delete of the reported user, when asked for and the report exists. */
  method DeleteReported(store: NexusStore, report: Option<Report>, deleteAccount: bool)
    requires store.Valid()
    modifies store`users, store`posts, store`moodEntries, store`goals, store`achievements,
             store`journalEntries, store`habits, store`resourceGroups
    ensures store.Valid()
    ensures Accounts(store) ==
      if deleteAccount && report.Some? then Cascade(old(Accounts(store)), report.value.reportedUserId)
      else old(Accounts(store))
  {
    if deleteAccount && report.Some? {
      store.DeleteUser(report.value.reportedUserId);
    }
  }

  /** The delete button on a listed user: for an administrator, deletes that user and everything they own. */
  method HandleDeleteUser(store: NexusStore, userId: Id)
    requires store.Valid()
    modifies store`users, store`posts, store`moodEntries, store`goals, store`achievements,
             store`journalEntries, store`habits, store`resourceGroups
    ensures store.Valid()
    ensures Accounts(store) ==
      if IsAdmin(store.currentUser) then Cascade(old(Accounts(store)), userId) else old(Accounts(store))
  {
    if IsAdmin(store.currentUser) {
      store.DeleteUser(userId);
    }
  }
}
