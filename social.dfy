/**
 * The friend-invite state machine of the store (src/lib/store.ts:485-540):
 * each action computes the new `users` list from the old one.
 */
module Social {
  import opened Seqs
  import opened Entities

  /** `sendFriendInvite(from, to)`: `from` joins `to`'s pending invites unless already there. */
  function SendInvite(users: seq<User>, from: Id, to: Id): (r: seq<User>)
    ensures |r| == |users|
    ensures forall i :: 0 <= i < |r| && users[i].id != to ==> r[i] == users[i]
    ensures forall i :: 0 <= i < |r| && users[i].id == to ==>
      from in r[i].pendingInvites &&
      r[i] == users[i].(pendingInvites := r[i].pendingInvites) &&
      (from in users[i].pendingInvites ==> r[i] == users[i]) &&
      (from !in users[i].pendingInvites ==> r[i].pendingInvites == users[i].pendingInvites + [from])
  {
    seq(|users|, i requires 0 <= i < |users| =>
      var u := users[i];
      if u.id == to && from !in u.pendingInvites then u.(pendingInvites := u.pendingInvites + [from]) else u)
  }

  /** A second identical invite changes nothing. */
  lemma SendInviteIdempotent(users: seq<User>, from: Id, to: Id)
    ensures SendInvite(SendInvite(users, from, to), from, to) == SendInvite(users, from, to)
  {
    var once := SendInvite(users, from, to);
    var twice := SendInvite(once, from, to);
    forall i | 0 <= i < |users| ensures twice[i] == once[i] {
      assert once[i].id == users[i].id;
    }
  }

  /** An invite keeps every user's pending list duplicate-free. */
  lemma SendInviteNoDup(users: seq<User>, from: Id, to: Id)
    requires forall i :: 0 <= i < |users| ==> NoDup(users[i].pendingInvites)
    ensures forall i :: 0 <= i < |users| ==> NoDup(SendInvite(users, from, to)[i].pendingInvites)
  {
  }

  /**
   * `acceptFriendInvite(user, from)`: `from` is appended to `user`'s friends and every
   * copy of it leaves `user`'s pending invites; `user` is appended to `from`'s friends.
   * Nothing checks that an invite was pending, nor that they were not friends already.
   */
  function AcceptInvite(users: seq<User>, user: Id, from: Id): (r: seq<User>)
    ensures |r| == |users|
    ensures forall i :: 0 <= i < |r| ==> r[i].id == users[i].id
    ensures forall i :: 0 <= i < |r| && users[i].id != user && users[i].id != from ==> r[i] == users[i]
    ensures forall i :: 0 <= i < |r| && users[i].id == user ==>
      r[i] == users[i].(friends := users[i].friends + [from],
                        pendingInvites := Erase(users[i].pendingInvites, from))
    ensures forall i :: 0 <= i < |r| && users[i].id == from && from != user ==>
      r[i] == users[i].(friends := users[i].friends + [user])
  {
    seq(|users|, i requires 0 <= i < |users| =>
      var u := users[i];
      if u.id == user then
        u.(friends := u.friends + [from], pendingInvites := Erase(u.pendingInvites, from))
      else if u.id == from then
        u.(friends := u.friends + [user])
      else u)
  }

  /** `declineFriendInvite(user, from)`: every copy of `from` leaves `user`'s pending invites, nothing is added to them, and friends are untouched. */
  function DeclineInvite(users: seq<User>, user: Id, from: Id): (r: seq<User>)
    ensures |r| == |users|
    ensures forall i :: 0 <= i < |r| && users[i].id != user ==> r[i] == users[i]
    ensures forall i :: 0 <= i < |r| && users[i].id == user ==>
      from !in r[i].pendingInvites &&
      r[i] == users[i].(pendingInvites := r[i].pendingInvites) &&
      (forall k :: 0 <= k < |users[i].pendingInvites| && users[i].pendingInvites[k] != from ==>
         users[i].pendingInvites[k] in r[i].pendingInvites) &&
      (forall k :: 0 <= k < |r[i].pendingInvites| ==> r[i].pendingInvites[k] in users[i].pendingInvites)
  {
    seq(|users|, i requires 0 <= i < |users| =>
      var u := users[i];
      if u.id == user then u.(pendingInvites := Erase(u.pendingInvites, from)) else u)
  }

  /**
   * `removeFriend(user, friend)`: both ids leave the friends of both users,
   * nothing is added to those lists, and no other user is touched.
   */
  function RemoveFriend(users: seq<User>, user: Id, friend: Id): (r: seq<User>)
    ensures |r| == |users|
    ensures forall i :: 0 <= i < |r| && users[i].id != user && users[i].id != friend ==> r[i] == users[i]
    ensures forall i :: 0 <= i < |r| && (users[i].id == user || users[i].id == friend) ==>
      user !in r[i].friends && friend !in r[i].friends &&
      r[i] == users[i].(friends := r[i].friends) &&
      (forall k :: 0 <= k < |users[i].friends| && users[i].friends[k] != user && users[i].friends[k] != friend ==>
         users[i].friends[k] in r[i].friends) &&
      (forall k :: 0 <= k < |r[i].friends| ==> r[i].friends[k] in users[i].friends)
  {
    seq(|users|, i requires 0 <= i < |users| =>
      var u := users[i];
      if u.id == user || u.id == friend then u.(friends := Erase(Erase(u.friends, user), friend)) else u)
  }

  /** Declining and removing are idempotent: the second identical call is a no-op. */
  lemma DeclineRemoveIdempotent(users: seq<User>, a: Id, b: Id)
    ensures DeclineInvite(DeclineInvite(users, a, b), a, b) == DeclineInvite(users, a, b)
    ensures RemoveFriend(RemoveFriend(users, a, b), a, b) == RemoveFriend(users, a, b)
  {
    var d := DeclineInvite(users, a, b);
    forall i | 0 <= i < |users| && users[i].id == a
      ensures DeclineInvite(d, a, b)[i] == d[i]
    {
      EraseAbsent(d[i].pendingInvites, b);
    }
    var r := RemoveFriend(users, a, b);
    forall i | 0 <= i < |users| && (users[i].id == a || users[i].id == b)
      ensures RemoveFriend(r, a, b)[i] == r[i]
    {
      EraseAbsent(r[i].friends, a);
      EraseAbsent(r[i].friends, b);
    }
  }

  /** No two users share an id. */
  predicate UniqueIds(users: seq<User>) {
    forall i, j :: 0 <= i < j < |users| ==> users[i].id != users[j].id
  }

  /** Among existing users, friendship goes both ways. */
  predicate FriendsSymmetric(users: seq<User>) {
    forall i, j :: 0 <= i < |users| && 0 <= j < |users| && users[j].id in users[i].friends ==>
      users[i].id in users[j].friends
  }

  /** Accepting an invite keeps friendship symmetric. */
  lemma AcceptKeepsSymmetry(users: seq<User>, user: Id, from: Id)
    requires UniqueIds(users) && FriendsSymmetric(users)
    ensures FriendsSymmetric(AcceptInvite(users, user, from))
  {
    var r := AcceptInvite(users, user, from);
    forall i, j | 0 <= i < |r| && 0 <= j < |r| && r[j].id in r[i].friends
      ensures r[i].id in r[j].friends
    {
      if users[j].id in users[i].friends {
        assert users[i].id in users[j].friends;
        // Friends lists only grow under an accept.
        assert forall x :: x in users[j].friends ==> x in r[j].friends;
      } else {
        // The new entry of i is the other party, whose list now names i.
        assert users[i].id == user || users[i].id == from;
        if users[i].id == user {
          assert r[i].friends == users[i].friends + [from];
          assert r[j].id == from;
        } else {
          assert r[i].friends == users[i].friends + [user];
          assert r[j].id == user;
        }
      }
    }
  }

  /** Removing a friendship keeps friendship symmetric. */
  lemma RemoveKeepsSymmetry(users: seq<User>, user: Id, friend: Id)
    requires UniqueIds(users) && FriendsSymmetric(users)
    ensures FriendsSymmetric(RemoveFriend(users, user, friend))
  {
    var r := RemoveFriend(users, user, friend);
    forall i, j | 0 <= i < |r| && 0 <= j < |r| && r[j].id in r[i].friends
      ensures r[i].id in r[j].friends
    {
      assert users[j].id in users[i].friends;
      assert users[i].id in users[j].friends;
      var k :| 0 <= k < |users[j].friends| && users[j].friends[k] == users[i].id;
    }
  }

  /** After `to` accepts what `from` sent, they are friends both ways and the invite is gone. */
  lemma InviteThenAccept(users: seq<User>, from: Id, to: Id, a: nat, b: nat)
    requires a < |users| && b < |users| && users[a].id == from && users[b].id == to && from != to
    ensures var r := AcceptInvite(SendInvite(users, from, to), to, from);
      to in r[a].friends && from in r[b].friends && from !in r[b].pendingInvites
  {
  }

  /** Two users: alice accepts bob's invite. */
  lemma AliceAndBob(admin: User, alice: User, bob: User)
    requires admin.id == "admin-001" && alice.id == "alice-id" && bob.id == "bob-id"
    requires alice.friends == [] && alice.pendingInvites == [] && bob.friends == [] && bob.pendingInvites == []
    ensures var s := SendInvite([admin, alice, bob], "bob-id", "alice-id");
      s[1].pendingInvites == ["bob-id"] &&
      var t := AcceptInvite(s, "alice-id", "bob-id");
      t[1].friends == ["bob-id"] && t[2].friends == ["alice-id"] && t[1].pendingInvites == [] && t[0] == admin
  {
    var s := SendInvite([admin, alice, bob], "bob-id", "alice-id");
    assert s[1].pendingInvites == [] + ["bob-id"];
    var t := AcceptInvite(s, "alice-id", "bob-id");
    assert Erase(s[1].pendingInvites, "bob-id") == [];
  }
}
