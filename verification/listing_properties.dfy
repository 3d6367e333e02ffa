/** Completeness of the listing views: every post a view's listing keeps is
    shown on one of the pages the view can be asked for. Together with the
    views' own contracts (a page shows only posts the listing keeps) this
    says each view shows exactly its listing. */
module ListingProperties {
  import opened Wrappers
  import opened Store
  import opened Pagination
  import opened Feeds
  import opened Views

  lemma IndexShowsEveryPost(s: Store, p: Post)
    requires p in s.posts
    ensures exists k :: 1 <= k <= NumPages(|s.posts|, PostsOnPage) && p in Index(s, Some(k)).outcome.page
  {
    ListedOnSomePage(s.posts, PostsOnPage, p);
    var k :| 1 <= k <= NumPages(|s.posts|, PostsOnPage) && p in GetPage(s.posts, PostsOnPage, Some(k));
    assert p in Index(s, Some(k)).outcome.page;
  }

  lemma GroupPostsShowsGroupPosts(s: Store, slug: Slug, p: Post)
    requires slug in s.groups && p in s.posts && p.group == Some(slug)
    ensures exists k :: 1 <= k <= NumPages(|GroupFeed(s, slug)|, PostsOnPage) && p in GroupPosts(s, slug, Some(k)).outcome.page
  {
    var feed := GroupFeed(s, slug);
    SelectMembers(s.posts, InGroup(slug));
    ListedOnSomePage(feed, PostsOnPage, p);
    var k :| 1 <= k <= NumPages(|feed|, PostsOnPage) && p in GetPage(feed, PostsOnPage, Some(k));
    assert p in GroupPosts(s, slug, Some(k)).outcome.page;
  }

  lemma ProfileShowsAuthorPosts(s: Store, username: Username, p: Post)
    requires username in s.users && p in s.posts && p.author == username
    ensures exists k :: 1 <= k <= NumPages(|ProfileFeed(s, username)|, PostsOnPage) && p in Profile(s, username, Some(k)).outcome.page
  {
    var feed := ProfileFeed(s, username);
    SelectMembers(s.posts, ByAuthor(username));
    ListedOnSomePage(feed, PostsOnPage, p);
    var k :| 1 <= k <= NumPages(|feed|, PostsOnPage) && p in GetPage(feed, PostsOnPage, Some(k));
    assert p in Profile(s, username, Some(k)).outcome.page;
  }

  lemma FollowIndexShowsFollowedPosts(s: Store, u: Username, p: Post)
    requires p in s.posts && Follow(u, p.author) in s.follows
    ensures exists k :: 1 <= k <= NumPages(|FollowFeed(s, u)|, PostsOnPage) && p in FollowIndex(s, Some(u), Some(k)).outcome.page
  {
    var feed := FollowFeed(s, u);
    SelectMembers(s.posts, FollowedBy(u, s.follows));
    ListedOnSomePage(feed, PostsOnPage, p);
    var k :| 1 <= k <= NumPages(|feed|, PostsOnPage) && p in GetPage(feed, PostsOnPage, Some(k));
    assert p in FollowIndex(s, Some(u), Some(k)).outcome.page;
  }

  /** Page k of each listing view is the k-th POSTS_ON_PAGE slice of its
      listing, and asking for pages 1..NumPages in turn shows the listing
      exactly, in store order. */
  lemma IndexPagesInOrder(s: Store)
    ensures forall k :: 1 <= k <= NumPages(|s.posts|, PostsOnPage) ==>
      Index(s, Some(k)).outcome.page == Pages(s.posts, PostsOnPage)[k - 1]
    ensures Shown((k: nat) => Index(s, Some(k)).outcome.page, NumPages(|s.posts|, PostsOnPage)) == s.posts
  {
    ShownRestoresListing((k: nat) => Index(s, Some(k)).outcome.page, s.posts, PostsOnPage);
  }

  lemma GroupPostsPagesInOrder(s: Store, slug: Slug)
    requires slug in s.groups
    ensures forall k :: 1 <= k <= NumPages(|GroupFeed(s, slug)|, PostsOnPage) ==>
      GroupPosts(s, slug, Some(k)).outcome.page == Pages(GroupFeed(s, slug), PostsOnPage)[k - 1]
    ensures Shown((k: nat) => GroupPosts(s, slug, Some(k)).outcome.page, NumPages(|GroupFeed(s, slug)|, PostsOnPage))
      == GroupFeed(s, slug)
  {
    ShownRestoresListing((k: nat) => GroupPosts(s, slug, Some(k)).outcome.page, GroupFeed(s, slug), PostsOnPage);
  }

  lemma ProfilePagesInOrder(s: Store, username: Username)
    requires username in s.users
    ensures forall k :: 1 <= k <= NumPages(|ProfileFeed(s, username)|, PostsOnPage) ==>
      Profile(s, username, Some(k)).outcome.page == Pages(ProfileFeed(s, username), PostsOnPage)[k - 1]
    ensures Shown((k: nat) => Profile(s, username, Some(k)).outcome.page, NumPages(|ProfileFeed(s, username)|, PostsOnPage))
      == ProfileFeed(s, username)
  {
    ShownRestoresListing((k: nat) => Profile(s, username, Some(k)).outcome.page, ProfileFeed(s, username), PostsOnPage);
  }

  lemma FollowIndexPagesInOrder(s: Store, u: Username)
    ensures forall k :: 1 <= k <= NumPages(|FollowFeed(s, u)|, PostsOnPage) ==>
      FollowIndex(s, Some(u), Some(k)).outcome.page == Pages(FollowFeed(s, u), PostsOnPage)[k - 1]
    ensures Shown((k: nat) => FollowIndex(s, Some(u), Some(k)).outcome.page, NumPages(|FollowFeed(s, u)|, PostsOnPage))
      == FollowFeed(s, u)
  {
    ShownRestoresListing((k: nat) => FollowIndex(s, Some(u), Some(k)).outcome.page, FollowFeed(s, u), PostsOnPage);
  }

  /** Index, group and profile listings of POSTS_ON_PAGE + 3 posts show a
      full first page and three posts on the second. */
  lemma IndexPagesOverflowByThree(s: Store)
    requires |s.posts| == PostsOnPage + 3
    ensures |Index(s, Some(1)).outcome.page| == PostsOnPage
    ensures |Index(s, Some(2)).outcome.page| == 3
  {
    OverflowByThree(s.posts, PostsOnPage);
  }

  lemma GroupPagesOverflowByThree(s: Store, slug: Slug)
    requires slug in s.groups && |GroupFeed(s, slug)| == PostsOnPage + 3
    ensures |GroupPosts(s, slug, Some(1)).outcome.page| == PostsOnPage
    ensures |GroupPosts(s, slug, Some(2)).outcome.page| == 3
  {
    OverflowByThree(GroupFeed(s, slug), PostsOnPage);
  }

  lemma ProfilePagesOverflowByThree(s: Store, username: Username)
    requires username in s.users && |ProfileFeed(s, username)| == PostsOnPage + 3
    ensures |Profile(s, username, Some(1)).outcome.page| == PostsOnPage
    ensures |Profile(s, username, Some(2)).outcome.page| == 3
  {
    OverflowByThree(ProfileFeed(s, username), PostsOnPage);
  }
}
