/**
 * The social feed (src/components/tabs/FeedTab.tsx): which posts a viewer may
 * see, the "friends only" filter, newest-first ordering, and the like, comment
 * and report handlers that forward to the store.
 */
module Feed {
  import opened Wrappers
  import opened Text
  import opened Seqs
  import opened Entities
  import opened Store

  /** The id the source compares friend lists against: the viewer's id, or `''` when nobody is signed in. */
  function ViewerKey(viewer: Option<User>): (k: Id)
    ensures viewer.Some? ==> k == viewer.value.id
    ensures viewer.None? ==> k == ""
  {
    if viewer.Some? then viewer.value.id else ""
  }

  /** `users.find(u => u.id === id)`: the first user with that id. */
  function Author(users: seq<User>, id: Id): (r: Option<User>)
    ensures r.None? <==> forall j :: 0 <= j < |users| ==> users[j].id != id
    ensures r.Some? ==> r.value.id == id && r.value in users
  {
    Find(users, (u: User) => u.id == id)
  }

  /** The first filter of `visiblePosts`: whether `viewer` may see `post`. */
  predicate CanSee(users: seq<User>, viewer: Option<User>, post: Post) {
    if viewer.Some? && post.userId == viewer.value.id then true
    else if post.visibility == Public then true
    else if post.visibility == Friends then
      var author := Author(users, post.userId);
      author.Some? && ViewerKey(viewer) in author.value.friends
    else false
  }

  /**
   * The visibility rules, one per kind of post: the viewer's own posts and public
   * posts are always shown; a friends-only post is shown iff its author exists and
   * lists the viewer as a friend (so is hidden when the author is gone); another
   * user's private post never is.
   */
  lemma VisibilityRules(users: seq<User>, viewer: Option<User>, post: Post)
    requires UniqueKeys(users, UserId)
    ensures viewer.Some? && post.userId == viewer.value.id ==> CanSee(users, viewer, post)
    ensures post.visibility == Public ==> CanSee(users, viewer, post)
    ensures post.visibility == Friends && !(viewer.Some? && post.userId == viewer.value.id) ==>
      (CanSee(users, viewer, post) <==>
        exists i :: 0 <= i < |users| && users[i].id == post.userId && ViewerKey(viewer) in users[i].friends)
    ensures post.visibility == Private && !(viewer.Some? && post.userId == viewer.value.id) ==>
      !CanSee(users, viewer, post)
  {
    var author := Author(users, post.userId);
    if author.Some? {
      var k :| 0 <= k < |users| && users[k] == author.value;
      forall i | 0 <= i < |users| && users[i].id == post.userId ensures users[i] == author.value {
        assert UserId(users[i]) == UserId(users[k]);
      }
    }
  }

  /** The feed's two filter tabs. */
  datatype FeedFilter = AllPosts | FriendsOnly

  /** The second filter of `visiblePosts`: under "friends", posts by the viewer's friends or by the viewer. */
  predicate PassesFilter(filter: FeedFilter, viewer: Option<User>, post: Post) {
    filter == AllPosts ||
    (viewer.Some? && (post.userId in viewer.value.friends || post.userId == viewer.value.id))
  }

  function PostCreatedAt(p: Post): int { p.createdAt }

  /** The first filter: the posts `viewer` may see, in their stored order. */
  function SeenPosts(posts: seq<Post>, users: seq<User>, viewer: Option<User>): (r: seq<Post>)
    ensures forall i :: 0 <= i < |r| ==> r[i] in posts && CanSee(users, viewer, r[i])
    ensures forall i :: 0 <= i < |posts| && CanSee(users, viewer, posts[i]) ==> posts[i] in r
  {
    Filter(posts, (p: Post) => CanSee(users, viewer, p))
  }

  /** The second filter, in stored order. */
  function FilteredPosts(posts: seq<Post>, filter: FeedFilter, viewer: Option<User>): (r: seq<Post>)
    ensures forall i :: 0 <= i < |r| ==> r[i] in posts && PassesFilter(filter, viewer, r[i])
    ensures forall i :: 0 <= i < |posts| && PassesFilter(filter, viewer, posts[i]) ==> posts[i] in r
  {
    Filter(posts, (p: Post) => PassesFilter(filter, viewer, p))
  }

  /** Whether a post is in the feed at all: both filters at once. */
  predicate Shown(users: seq<User>, viewer: Option<User>, filter: FeedFilter, post: Post) {
    CanSee(users, viewer, post) && PassesFilter(filter, viewer, post)
  }

  /** The reference subset: the stored posts that are shown, in stored order, by a single filter. */
  function ShownPosts(posts: seq<Post>, users: seq<User>, viewer: Option<User>, filter: FeedFilter): (r: seq<Post>)
    ensures forall i :: 0 <= i < |r| ==> r[i] in posts && Shown(users, viewer, filter, r[i])
    ensures forall i :: 0 <= i < |posts| && Shown(users, viewer, filter, posts[i]) ==> posts[i] in r
  {
    Filter(posts, (p: Post) => Shown(users, viewer, filter, p))
  }

  /**
   * `visiblePosts`: a newest-first reordering of exactly the shown posts (the
   * source's two filters in a row select the same subset as the single reference
   * filter); nothing passes the "friends" filter when nobody is signed in.
   */
  function VisiblePosts(posts: seq<Post>, users: seq<User>, viewer: Option<User>, filter: FeedFilter): (r: seq<Post>)
    ensures multiset(r) == multiset(ShownPosts(posts, users, viewer, filter))
    ensures SortedDesc(r, PostCreatedAt)
    ensures filter == FriendsOnly && viewer.None? ==> r == []
  {
    var kept := FilteredPosts(SeenPosts(posts, users, viewer), filter, viewer);
    FilterTwice(posts, (p: Post) => CanSee(users, viewer, p), (p: Post) => PassesFilter(filter, viewer, p),
                (p: Post) => Shown(users, viewer, filter, p));
    SortDesc(kept, PostCreatedAt)
  }

  /** Every shown post is in the feed, and the feed holds nothing else. */
  lemma VisiblePostsMembers(posts: seq<Post>, users: seq<User>, viewer: Option<User>, filter: FeedFilter, p: Post)
    ensures p in VisiblePosts(posts, users, viewer, filter) <==> p in posts && Shown(users, viewer, filter, p)
  {
    var r := VisiblePosts(posts, users, viewer, filter);
    var shown := ShownPosts(posts, users, viewer, filter);
    assert p in r <==> p in multiset(r);
    assert p in shown <==> p in multiset(shown);
    if p in shown {
      var j :| 0 <= j < |shown| && shown[j] == p;
    }
    if p in posts && Shown(users, viewer, filter, p) {
      var i :| 0 <= i < |posts| && posts[i] == p;
    }
  }

  /** `handleLike`: toggles the signed-in user's like on the post; does nothing without a signed-in user. */
  method HandleLike(store: NexusStore, postId: Id)
    requires store.Valid()
    modifies store`posts
    ensures store.Valid()
    ensures store.currentUser.None? ==> store.posts == old(store.posts)
    ensures store.currentUser.Some? ==>
      store.posts == UpdateWhere(old(store.posts), PostId, postId, ToggleLike, store.currentUser.value.id)
  {
    if store.currentUser.None? {
      return;
    }
    store.LikePost(postId, store.currentUser.value.id);
  }

  /**
   * `handleComment`: posts the untrimmed text as the signed-in user's comment and
   * clears the input; does nothing (and keeps the input) when the text is blank
   * after trimming or nobody is signed in.
   */
  method HandleComment(store: NexusStore, postId: Id, text: string, now: Timestamp) returns (input: string)
    requires store.Valid()
    modifies store`posts
    ensures store.Valid()
    ensures Trim(text) == "" || store.currentUser.None? ==> store.posts == old(store.posts) && input == text
    ensures Trim(text) != "" && store.currentUser.Some? ==> (input == "" &&
      exists id :: (id !in AllCommentIds(old(store.posts)) &&
        store.posts == UpdateWhere(old(store.posts), PostId, postId, AppendComment,
                                   Comment(id, store.currentUser.value.id, text, now))))
  {
    if Trim(text) == "" || store.currentUser.None? {
      return text;
    }
    store.AddComment(postId, Comment("", store.currentUser.value.id, text, now));
    input := "";
  }

  /**
   * `handleReport`: files a pending report by the signed-in user against `reported`
   * and clears the reason; does nothing when nobody is signed in or the reason is blank.
   */
  method HandleReport(store: NexusStore, reported: Id, reason: string, now: Timestamp) returns (input: string)
    requires store.Valid()
    modifies store`reports
    ensures store.Valid()
    ensures store.currentUser.None? || Trim(reason) == "" ==> store.reports == old(store.reports) && input == reason
    ensures store.currentUser.Some? && Trim(reason) != "" ==>
      input == "" &&
      |store.reports| == |old(store.reports)| + 1 && store.reports[..|old(store.reports)|] == old(store.reports) &&
      var r := store.reports[|old(store.reports)|];
      r == Report(r.id, store.currentUser.value.id, reported, reason, Pending, now, None) &&
      r.id !in Keys(old(store.reports), ReportId)
  {
    if store.currentUser.None? || Trim(reason) == "" {
      return reason;
    }
    store.AddReport(Report("", store.currentUser.value.id, reported, reason, Pending, now, None));
    input := "";
  }
}
