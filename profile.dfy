/**
 * The profile page (src/components/tabs/ProfileTab.tsx): the signed-in user's
 * friends, the invites waiting for them, the people search, the profile editor,
 * and the invite / accept / decline / unfriend buttons.
 */
module Profile {
  import opened Wrappers
  import opened Text
  import opened Seqs
  import opened Entities
  import opened Store
  import Social

  /** `currentUser?.friends.includes(u.id)`: false when nobody is signed in. */
  predicate IsFriend(viewer: Option<User>, u: User) {
    viewer.Some? && u.id in viewer.value.friends
  }

  /** `currentUser?.pendingInvites.includes(u.id)`. */
  predicate HasInvited(viewer: Option<User>, u: User) {
    viewer.Some? && u.id in viewer.value.pendingInvites
  }

  /** `friends`: exactly the users the signed-in user lists as friends; nobody without a user. */
  function Friends(users: seq<User>, viewer: Option<User>): (r: seq<User>)
    ensures forall i :: 0 <= i < |r| ==> r[i] in users && IsFriend(viewer, r[i])
    ensures forall i :: 0 <= i < |users| && IsFriend(viewer, users[i]) ==> users[i] in r
    ensures viewer.None? ==> r == []
  {
    FilterRejectsAll(users, (u: User) => IsFriend(viewer, u));
    Filter(users, (u: User) => IsFriend(viewer, u))
  }

  /** The friends list follows the order of `users`: one more user adds at most that user, at the end. */
  lemma FriendsInOrder(users: seq<User>, u: User, viewer: Option<User>)
    ensures Friends(users + [u], viewer) == Friends(users, viewer) + (if IsFriend(viewer, u) then [u] else [])
  {
    FilterConcat(users, [u], (x: User) => IsFriend(viewer, x));
    assert [u][1..] == [];
  }

  /** `pendingInvites`: exactly the users who have invited the signed-in user; nobody without a user. */
  function PendingInvites(users: seq<User>, viewer: Option<User>): (r: seq<User>)
    ensures forall i :: 0 <= i < |r| ==> r[i] in users && HasInvited(viewer, r[i])
    ensures forall i :: 0 <= i < |users| && HasInvited(viewer, users[i]) ==> users[i] in r
    ensures viewer.None? ==> r == []
  {
    FilterRejectsAll(users, (u: User) => HasInvited(viewer, u));
    Filter(users, (u: User) => HasInvited(viewer, u))
  }

  /** The invites list follows the order of `users` as well. */
  lemma InvitesInOrder(users: seq<User>, u: User, viewer: Option<User>)
    ensures PendingInvites(users + [u], viewer) ==
      PendingInvites(users, viewer) + (if HasInvited(viewer, u) then [u] else [])
  {
    FilterConcat(users, [u], (x: User) => HasInvited(viewer, x));
    assert [u][1..] == [];
  }

  /** The username or the display name contains the query, ignoring case. */
  predicate NameMatches(u: User, query: string) {
    Contains(Lower(u.username), Lower(query)) || Contains(Lower(u.displayName), Lower(query))
  }

  /**
   * Whether the search may offer `u`: neither the signed-in user nor one of their
   * friends. With nobody signed in both tests pass (`u.id !== undefined`, and
   * `!undefined`).
   */
  predicate Offerable(viewer: Option<User>, u: User) {
    viewer.None? || (u.id != viewer.value.id && u.id !in viewer.value.friends)
  }

  predicate Found(viewer: Option<User>, query: string, u: User) {
    Offerable(viewer, u) && NameMatches(u, query)
  }

  /**
   * `searchResults`: nothing for an empty query; otherwise the users whose name
   * matches, never the signed-in user or a friend, and every other matching user.
   */
  function SearchResults(users: seq<User>, viewer: Option<User>, query: string): (r: seq<User>)
    ensures query == "" ==> r == []
    ensures forall i :: 0 <= i < |r| ==> r[i] in users && NameMatches(r[i], query)
    ensures viewer.Some? ==> forall i :: 0 <= i < |r| ==>
      r[i].id != viewer.value.id && r[i].id !in viewer.value.friends
    ensures query != "" ==> forall i :: 0 <= i < |users| && Found(viewer, query, users[i]) ==> users[i] in r
  {
    if query == "" then [] else Filter(users, (u: User) => Found(viewer, query, u))
  }

  /** A friend is listed under friends and never among the search results. */
  lemma FriendsNotSearched(users: seq<User>, viewer: Option<User>, query: string, u: User)
    requires u in users && IsFriend(viewer, u)
    ensures u in Friends(users, viewer)
    ensures u !in SearchResults(users, viewer, query)
  {
    var i :| 0 <= i < |users| && users[i] == u;
  }

  /** The update `handleSave` sends: the display name and the bio, nothing else. */
  function ProfilePatch(displayName: string, bio: string): UserPatch {
    NoUserChange.(displayName := Some(displayName), bio := Some(bio))
  }

  /** The update rewrites the display name and bio and keeps every other field of the user. */
  lemma ProfileShape(u: User, displayName: string, bio: string)
    ensures ApplyUser(u, ProfilePatch(displayName, bio)) == u.(displayName := displayName, bio := Some(bio))
  {
  }

  /**
   * `handleSave`: without a signed-in user nothing happens and the editor stays
   * as it was; otherwise only that user's display name and bio change, in the
   * list and in the signed-in copy, and the editor closes.
   */
  method HandleSave(store: NexusStore, displayName: string, bio: string, editing: bool) returns (stillEditing: bool)
    requires store.Valid()
    modifies store`users, store`currentUser
    ensures store.Valid()
    ensures old(store.currentUser).None? ==>
      store.users == old(store.users) && store.currentUser == None && stillEditing == editing
    ensures old(store.currentUser).Some? ==> (!stillEditing &&
      store.currentUser == Some(old(store.currentUser).value.(displayName := displayName, bio := Some(bio))) &&
      |store.users| == |old(store.users)| &&
      forall i :: 0 <= i < |store.users| ==>
        store.users[i] == if old(store.users)[i].id == old(store.currentUser).value.id
          then old(store.users)[i].(displayName := displayName, bio := Some(bio))
          else old(store.users)[i])
  {
    if store.currentUser.None? {
      return editing;
    }
    ghost var me := store.currentUser.value;
    store.UpdateUser(store.currentUser.value.id, ProfilePatch(displayName, bio));
    ProfileShape(me, displayName, bio);
    forall i | 0 <= i < |store.users| && old(store.users)[i].id == me.id
      ensures store.users[i] == old(store.users)[i].(displayName := displayName, bio := Some(bio))
    {
      ProfileShape(old(store.users)[i], displayName, bio);
    }
    stillEditing := false;
  }

  /** The invite button on a search result: the signed-in user invites `to`; nothing without a user. */
  method Invite(store: NexusStore, to: Id)
    requires store.Valid()
    modifies store`users
    ensures store.Valid()
    ensures store.currentUser.None? ==> store.users == old(store.users)
    ensures store.currentUser.Some? ==> store.users == Social.SendInvite(old(store.users), store.currentUser.value.id, to)
  {
    if store.currentUser.Some? {
      store.SendFriendInvite(store.currentUser.value.id, to);
    }
  }

  /** The accept button on an invite from `from`. */
  method Accept(store: NexusStore, from: Id)
    requires store.Valid()
    modifies store`users
    ensures store.Valid()
    ensures store.currentUser.None? ==> store.users == old(store.users)
    ensures store.currentUser.Some? ==> store.users == Social.AcceptInvite(old(store.users), store.currentUser.value.id, from)
  {
    if store.currentUser.Some? {
      store.AcceptFriendInvite(store.currentUser.value.id, from);
    }
  }

  /** The decline button on an invite from `from`. */
  method Decline(store: NexusStore, from: Id)
    requires store.Valid()
    modifies store`users
    ensures store.Valid()
    ensures store.currentUser.None? ==> store.users == old(store.users)
    ensures store.currentUser.Some? ==> store.users == Social.DeclineInvite(old(store.users), store.currentUser.value.id, from)
  {
    if store.currentUser.Some? {
      store.DeclineFriendInvite(store.currentUser.value.id, from);
    }
  }

  /** The remove button on a friend. */
  method Unfriend(store: NexusStore, friend: Id)
    requires store.Valid()
    modifies store`users
    ensures store.Valid()
    ensures store.currentUser.None? ==> store.users == old(store.users)
    ensures store.currentUser.Some? ==> store.users == Social.RemoveFriend(old(store.users), store.currentUser.value.id, friend)
  {
    if store.currentUser.Some? {
      store.RemoveFriend(store.currentUser.value.id, friend);
    }
  }
}
