/** Properties of the follow graph as the follow and unfollow views change
    it. */
module FollowProperties {
  import opened Wrappers
  import opened Store
  import opened Views

  /** Following yourself leaves the store as it is and still redirects to
      your profile. */
  lemma SelfFollowIsNoop(s: Store, u: Username)
    requires u in s.users
    ensures ProfileFollow(s, Some(u), u) == Response(s, Redirect(ProfilePath(u)))
  {
  }

  /** The follow view never adds an edge from a user to themself. */
  lemma FollowKeepsNoSelfFollow(s: Store, user: Option<Username>, username: Username)
    requires NoSelfFollow(s.follows)
    ensures NoSelfFollow(ProfileFollow(s, user, username).store.follows)
  {
  }

  /** A second identical follow request changes nothing more than the first
      did and gets the same response. */
  lemma FollowIdempotent(s: Store, user: Option<Username>, username: Username)
    ensures var once := ProfileFollow(s, user, username);
            ProfileFollow(once.store, user, username) == once
  {
    var once := ProfileFollow(s, user, username);
    if user.Some? && username in s.users {
      var twice := ProfileFollow(once.store, user, username);
      assert twice.store.follows == once.store.follows;
    }
  }

  /** Following an existing other user adds exactly that one edge. */
  lemma FollowAddsEdge(s: Store, u: Username, username: Username)
    requires username in s.users && u != username
    ensures ProfileFollow(s, Some(u), username).store.follows == s.follows + {Follow(u, username)}
  {
    var after := ProfileFollow(s, Some(u), username).store.follows;
    assert forall f :: f in after <==> f in s.follows + {Follow(u, username)};
  }

  /** Unfollowing a followed user removes exactly that one edge. */
  lemma UnfollowRemovesEdge(s: Store, u: Username, username: Username)
    requires Follow(u, username) in s.follows
    ensures ProfileUnfollow(s, Some(u), username).store.follows == s.follows - {Follow(u, username)}
  {
    var after := ProfileUnfollow(s, Some(u), username).store.follows;
    assert forall f :: f in after <==> f in s.follows - {Follow(u, username)};
  }

  /** Following a new author and then unfollowing them restores the store. */
  lemma FollowThenUnfollow(s: Store, u: Username, username: Username)
    requires username in s.users && u != username && Follow(u, username) !in s.follows
    ensures var followed := ProfileFollow(s, Some(u), username);
            ProfileUnfollow(followed.store, Some(u), username) == Response(s, Redirect(ProfilePath(username)))
  {
    var followed := ProfileFollow(s, Some(u), username);
    FollowAddsEdge(s, u, username);
    UnfollowRemovesEdge(followed.store, u, username);
    assert s.follows + {Follow(u, username)} - {Follow(u, username)} == s.follows;
  }

  /** Unfollowing an author and following them again restores the store. */
  lemma UnfollowThenFollow(s: Store, u: Username, username: Username)
    requires Valid(s) && Follow(u, username) in s.follows
    ensures var unfollowed := ProfileUnfollow(s, Some(u), username);
            ProfileFollow(unfollowed.store, Some(u), username) == Response(s, Redirect(ProfilePath(username)))
  {
    var unfollowed := ProfileUnfollow(s, Some(u), username);
    UnfollowRemovesEdge(s, u, username);
    assert FollowWellFormed(s, Follow(u, username));
    FollowAddsEdge(unfollowed.store, u, username);
    assert s.follows - {Follow(u, username)} + {Follow(u, username)} == s.follows;
  }

  /** Whether or not the edge existed, a second unfollow of the same author
      is not found and changes nothing. */
  lemma UnfollowTwiceNotFound(s: Store, u: Username, username: Username)
    ensures var once := ProfileUnfollow(s, Some(u), username);
            ProfileUnfollow(once.store, Some(u), username) == Response(once.store, NotFound)
  {
  }
}
