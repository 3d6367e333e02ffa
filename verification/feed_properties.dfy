/** What the group, profile and follow listings contain, and how the
    writing views change them. */
module FeedProperties {
  import opened Wrappers
  import opened Store
  import opened Feeds
  import opened Views

  /** A user who follows nobody has an empty follow feed. */
  lemma NoFollowsEmptyFeed(s: Store, u: Username)
    requires forall a :: Follow(u, a) !in s.follows
    ensures FollowFeed(s, u) == []
  {
    SelectNoneMatching(s.posts, FollowedBy(u, s.follows));
  }

  /** The follow feed holds exactly the posts of followed authors, each as
      often as in the store. */
  lemma FollowFeedContents(s: Store, u: Username)
    ensures forall p :: multiset(FollowFeed(s, u))[p] == if Follow(u, p.author) in s.follows then multiset(s.posts)[p] else 0
  {
    SelectCounts(s.posts, FollowedBy(u, s.follows));
  }

  /** A post filed under one group never shows in another group's feed,
      and every post of a group shows in that group's feed. */
  lemma GroupFeedsSeparate(s: Store, p: Post, g1: Slug, g2: Slug)
    requires p in s.posts && p.group == Some(g1)
    ensures p in GroupFeed(s, g1)
    ensures g1 != g2 ==> p !in GroupFeed(s, g2)
  {
    SelectMembers(s.posts, InGroup(g1));
    SelectMembers(s.posts, InGroup(g2));
  }

  /** The profile feed holds exactly the author's posts. */
  lemma ProfileFeedContents(s: Store, author: Username)
    ensures forall p :: p in ProfileFeed(s, author) <==> p in s.posts && p.author == author
  {
    SelectMembers(s.posts, ByAuthor(author));
  }

  /** After following `author`, the follow feed holds exactly the posts it
      held before plus the posts of `author`. */
  lemma FollowExtendsFeed(s: Store, u: Username, author: Username)
    requires author in s.users && u != author
    ensures var after := ProfileFollow(s, Some(u), author).store;
            forall p :: p in FollowFeed(after, u) <==> p in s.posts && (Follow(u, p.author) in s.follows || p.author == author)
  {
    var after := ProfileFollow(s, Some(u), author).store;
    SelectMembers(after.posts, FollowedBy(u, after.follows));
  }

  /** After unfollowing `author`, none of their posts remain in the follow
      feed and every other followed post stays. */
  lemma UnfollowShrinksFeed(s: Store, u: Username, author: Username)
    requires Follow(u, author) in s.follows
    ensures var after := ProfileUnfollow(s, Some(u), author).store;
            forall p :: p in FollowFeed(after, u) <==> p in s.posts && Follow(u, p.author) in s.follows && p.author != author
  {
    var after := ProfileUnfollow(s, Some(u), author).store;
    SelectMembers(after.posts, FollowedBy(u, after.follows));
  }

  /** The post a valid create request adds is the last one of the author's
      profile feed, appears there and in the index exactly once, and
      appears exactly once in the feed of its group and in no other group
      feed. */
  lemma {:induction false} CreatedPostListedOnce(s: Store, u: Username, form: PostForm, g: Slug)
    requires Valid(s) && PostFormValid(s, Some(form))
    ensures var after := PostCreate(s, Some(u), Some(form)).store;
            var p := Post(s.nextId, form.text, u, form.group);
            && ProfileFeed(after, u) == ProfileFeed(s, u) + [p]
            && multiset(ProfileFeed(after, u))[p] == 1
            && multiset(IndexFeed(after))[p] == 1
            && multiset(GroupFeed(after, g))[p] == (if form.group == Some(g) then 1 else 0)
  {
    var after := PostCreate(s, Some(u), Some(form)).store;
    var p := Post(s.nextId, form.text, u, form.group);
    assert after.posts == s.posts + [p];
    forall i | 0 <= i < |s.posts|
      ensures s.posts[i] != p
    {
      assert PostWellFormed(s, s.posts[i]);
    }
    assert multiset(s.posts)[p] == 0;
    assert multiset(after.posts)[p] == 1;
    SelectAppend(s.posts, [p], ByAuthor(u));
    assert Select([p], ByAuthor(u)) == [p];
    SelectCounts(after.posts, ByAuthor(u));
    SelectCounts(after.posts, InGroup(g));
  }
}
