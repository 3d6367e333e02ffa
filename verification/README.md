# Yatube posts views in Dafny

Yatube is a small blogging site: users write posts, file them under groups,
comment on them and follow other authors. This project models the
request-handling layer of its `posts` application (`yatube/posts/views.py`)
as pure transitions over an abstract in-memory store, and proves what those
transitions do.

The store (`store.dfy`, module `Store`) holds:

- a set of usernames;
- a set of group slugs;
- a sequence of posts in store order, each with an id, text, author and optional group slug;
- a sequence of comments;
- a set of directed follow edges `Follow(user, author)`;
- the id the database will hand out next.

Each view is a function in module `Views` (`views.dfy`). It takes the store
and the request user, `None` for an anonymous visitor. It returns a
`Response`: the new store and an outcome. The outcome is one of `Redirect(path)`,
`LoginRedirect(next)`, `NotFound`, `RenderPage(template, page)` for
listings, or `RenderForm(template, post)` for form pages. `Handle` dispatches a
`Request` to its view.

The other modules:

- `Pagination` models the page object that `get_page_obj` obtains from the
  framework's paginator.
- `Feeds` models the post listings as one order-preserving selection with
  three filters (group, author, followed authors); the index lists every post
  unfiltered.
- `FollowProperties`, `FeedProperties`, `ListingProperties`, `PostProperties`,
  `PagingProperties` and `InvariantProperties` hold the lemmas that relate several calls.

`Store.Valid` is the store invariant:

- posts have existing authors, existing groups, non-empty text and unique ids
  below the next id;
- comments point at existing posts and users, with non-empty text;
- follow edges join two distinct existing users.

`InvariantProperties.RunPreservesValid` shows that any sequence of requests
from anonymous visitors or existing accounts keeps this invariant. These are
the only request users the framework produces. So no such sequence of requests
ever creates a self-follow edge.

The framework parts are abstracted, not reproduced:

- `login_required` becomes the `LoginRedirect(path)` outcome when the user is
  `None`. It is checked before any lookup, as the decorator runs first.
- `get_object_or_404` becomes the `NotFound` outcome.
- Form validation is an abstract predicate. A post form is valid when its text
  is non-empty and its group, if any, exists. A comment form is valid when its
  text is non-empty. `request.POST or None` becomes `Option<form>`, and an
  unbound form (`None`) is never valid.
- The database's duplicate-edge `IntegrityError` becomes "the edge is already
  in the set: leave the store as it is".

`profile_unfollow` (`views.py:125-127`) looks the edge up with
`get_object_or_404` before deleting it, so unfollowing someone you do not
follow is `NotFound`.

## Model

| member | source | states |
|---|---|---|
| `Store.IndexOf` | yatube/posts/views.py:65 | the lookup of a post by id finds a position holding that id, the first such, and fails exactly when no post has the id |
| `Pagination.NumPages` | yatube/posts/views.py:11-14 | a listing of n items fills the least k >= 1 pages of POSTS_ON_PAGE items with n <= k*size; an empty listing still has one page |
| `Pagination.StartIsProduct` | yatube/posts/views.py:11-14 | page p starts (p-1)*size items into the listing |
| `Pagination.Page` | yatube/posts/views.py:11-14 | page p holds at most size items; its length is min(size, len - (p-1)*size), or 0 past the end; its k-th item is listing item (p-1)*size + k |
| `Pagination.Pages` | yatube/posts/views.py:11-14 | the listing splits into NumPages pages, the k-th being page k+1, none of them empty unless the listing is |
| `Pagination.PagesRestoreListing` | yatube/posts/views.py:11-14 | the pages concatenated in order give back exactly the listing |
| `Pagination.PageNumber` | yatube/posts/views.py:14 | the page shown is always between 1 and the page count: a missing parameter gives 1, an in-range number is kept, any other number gives the last page |
| `Pagination.GetPage` | yatube/posts/views.py:11-14 | the page object never exceeds the page size, is non-empty whenever the listing is, and holds only listing items |
| `Pagination.OverflowByThree` | yatube/posts/tests/test_views.py:165-190 | for any page size >= 3, size+3 items give two pages, the first full and the second with three items |
| `Pagination.ConcatMember` | yatube/posts/views.py:11-14 | an item of the concatenated pages lies on one of the pages |
| `Pagination.ConcatPrefix` | yatube/posts/views.py:11-14 | concatenating the first n+1 pages is concatenating the first n and then page n+1 |
| `Pagination.ShownRestoresListing` | yatube/posts/views.py:11-14 | if asking for page k gives the k-th page of a listing, then asking for pages 1..NumPages in turn shows exactly that listing, in order |
| `Pagination.ListedOnSomePage` | yatube/posts/views.py:11-14 | every listing item is shown on some page number between 1 and the page count |
| `Views.GetPageObj` | yatube/posts/views.py:11-14 | the view-level page object holds at most POSTS_ON_PAGE posts, all from the listing, and is never empty for a non-empty listing |
| `PagingProperties.OverflowByThreePages` | yatube/posts/tests/test_views.py:165-190 | with POSTS_ON_PAGE+3 posts page 1 is full and page 2 has 3; no page parameter means page 1; page 0 or 3 means the last page |
| `PagingProperties.PageObjInRange` | yatube/posts/views.py:11-14 | asking for an in-range page k yields the k-th page of the listing |
| `Feeds.Select` | yatube/posts/views.py:27 | a filtered listing is no longer than the store and holds only posts the filter keeps |
| `Feeds.SelectCounts` | yatube/posts/views.py:27 | a kept post occurs in the listing exactly as often as in the store; any other post does not occur |
| `Feeds.SelectMembers` | yatube/posts/views.py:34 | a post is listed if and only if it is stored and the filter keeps it |
| `Feeds.SelectAppend` | yatube/posts/views.py:104 | selection distributes over concatenation, so a listing keeps store order |
| `Feeds.SelectNoneMatching` | yatube/posts/views.py:104 | a filter that keeps no stored post gives an empty listing |
| `Views.Index` | yatube/posts/views.py:17-20 | the index changes nothing and renders index.html with a page of stored posts |
| `ListingProperties.IndexShowsEveryPost` | yatube/posts/tests/test_views.py:73-91 | every stored post is shown on some index page |
| `ListingProperties.GroupPostsShowsGroupPosts` | yatube/posts/views.py:23-28 | every stored post of an existing group is shown on some page of that group's view; with `Views.GroupPosts` the view shows exactly the group's posts |
| `ListingProperties.ProfileShowsAuthorPosts` | yatube/posts/views.py:31-35 | every stored post of an existing author is shown on some page of the profile view; with `Views.Profile` the view shows exactly the author's posts |
| `ListingProperties.FollowIndexShowsFollowedPosts` | yatube/posts/views.py:99-106 | every stored post of a followed author is shown on some page of the follow view; with `Views.FollowIndex` the view shows exactly the followed authors' posts |
| `ListingProperties.IndexPagesInOrder` | yatube/posts/views.py:17-20 | index page k is the k-th POSTS_ON_PAGE slice of all posts, and pages 1..NumPages read in turn show every post once, in store order |
| `ListingProperties.GroupPostsPagesInOrder` | yatube/posts/views.py:23-28 | for an existing group, page k is the k-th slice of the group's listing, and pages 1..NumPages read in turn show that listing exactly, in store order |
| `ListingProperties.ProfilePagesInOrder` | yatube/posts/views.py:31-35 | for an existing author, page k is the k-th slice of the author's listing, and pages 1..NumPages read in turn show that listing exactly, in store order |
| `ListingProperties.FollowIndexPagesInOrder` | yatube/posts/views.py:99-106 | page k of the follow view is the k-th slice of the followed authors' posts, and pages 1..NumPages read in turn show exactly those posts, in store order |
| `ListingProperties.IndexPagesOverflowByThree` | yatube/posts/tests/test_views.py:165-190 | with POSTS_ON_PAGE+3 stored posts, index page 1 shows POSTS_ON_PAGE posts and page 2 shows 3 |
| `ListingProperties.GroupPagesOverflowByThree` | yatube/posts/tests/test_views.py:165-190 | with POSTS_ON_PAGE+3 posts in a group, its page 1 shows POSTS_ON_PAGE posts and page 2 shows 3 |
| `ListingProperties.ProfilePagesOverflowByThree` | yatube/posts/tests/test_views.py:165-190 | with POSTS_ON_PAGE+3 posts by an author, the profile's page 1 shows POSTS_ON_PAGE posts and page 2 shows 3 |
| `Views.GroupPosts` | yatube/posts/views.py:23-28 | an unknown slug is NotFound, otherwise the group page renders; every listed post is stored and filed under that slug; the store is unchanged |
| `Views.Profile` | yatube/posts/views.py:31-35 | an unknown username is NotFound, otherwise the profile page renders; every listed post is stored and written by that user; the store is unchanged |
| `Views.PostCreate` | yatube/posts/views.py:50-60 | anonymous: login redirect; invalid form: form re-rendered, store unchanged; valid form: exactly one post appended, authored by the request user with the form's text and group and a fresh id, then a redirect to that user's profile, nothing else changed |
| `Views.PostEdit` | yatube/posts/views.py:63-80 | anonymous: login redirect; unknown id: NotFound; non-author: redirect to the post page with the store unchanged; author with an invalid form: form re-rendered; author with a valid form: only that post's text and group replaced, id, author and position kept, then a redirect to the post page |
| `Views.AddComment` | yatube/posts/views.py:83-96 | anonymous: login redirect; unknown post: NotFound; valid form: exactly one comment appended with the request user and the post, then a redirect to the post page; an invalid form renders the URL name `posts:post_detail` as the template; every other case leaves the store unchanged |
| `Views.FollowIndex` | yatube/posts/views.py:99-106 | anonymous: login redirect; otherwise the follow page renders only stored posts whose author the request user follows; the store is unchanged |
| `Views.ProfileFollow` | yatube/posts/views.py:109-120 | anonymous: login redirect; unknown username: NotFound, store unchanged; otherwise always a redirect to that profile, the edge set becomes the old set plus the edge unless the target is the user themself, and nothing else changes |
| `Views.ProfileUnfollow` | yatube/posts/views.py:123-128 | anonymous: login redirect; a missing edge is NotFound with the store unchanged; otherwise exactly that edge is removed, every other edge kept, then a redirect to the profile |
| `FollowProperties.SelfFollowIsNoop` | yatube/posts/views.py:114-115 | following yourself leaves the store unchanged and redirects to your profile |
| `FollowProperties.FollowKeepsNoSelfFollow` | yatube/posts/views.py:114-115 | the follow view never introduces an edge from a user to themself |
| `FollowProperties.FollowIdempotent` | yatube/posts/views.py:116-120 | a repeated follow request gives the same store and response as the first |
| `FollowProperties.FollowAddsEdge` | yatube/posts/views.py:116-117 | following an existing other user yields the old edge set plus that one edge |
| `FollowProperties.UnfollowRemovesEdge` | yatube/posts/views.py:125-127 | unfollowing a followed user yields the old edge set minus that one edge |
| `FollowProperties.FollowThenUnfollow` | yatube/posts/views.py:109-128 | following a new author and then unfollowing them restores the original store |
| `FollowProperties.UnfollowThenFollow` | yatube/posts/views.py:109-128 | unfollowing a followed author and following them again restores the original store |
| `FollowProperties.UnfollowTwiceNotFound` | yatube/posts/tests/test_views.py:153-163 | whether or not the edge existed, a second unfollow of the same author is NotFound and changes nothing |
| `FeedProperties.NoFollowsEmptyFeed` | yatube/posts/tests/test_views.py:132-141 | a user who follows nobody gets an empty follow feed |
| `FeedProperties.FollowFeedContents` | yatube/posts/views.py:104 | the follow feed holds each post of a followed author as often as the store does, and nothing else |
| `FeedProperties.GroupFeedsSeparate` | yatube/posts/tests/test_views.py:132-141 | a post filed under G1 is in G1's feed and in no other group's feed |
| `FeedProperties.ProfileFeedContents` | yatube/posts/views.py:34 | the profile feed holds exactly the stored posts of that author |
| `FeedProperties.FollowExtendsFeed` | yatube/posts/views.py:104 | after following an author, the follow feed holds exactly the previously followed posts plus that author's posts |
| `FeedProperties.UnfollowShrinksFeed` | yatube/posts/views.py:104 | after unfollowing an author, the follow feed holds exactly the previously followed posts minus that author's posts |
| `FeedProperties.CreatedPostListedOnce` | yatube/posts/views.py:57-60 | a created post is appended to its author's profile feed, appears exactly once there and in the index, once in its group's feed and in no other group's feed |
| `PostProperties.EditKeepsIdsAndAuthors` | yatube/posts/views.py:63-80 | no edit request moves a post or changes its id or author |
| `PostProperties.NonAuthorCannotEdit` | yatube/posts/views.py:66-67 | a user who is not the author cannot change the store through the edit view and is redirected to the post page |
| `PostProperties.EditIdempotent` | yatube/posts/views.py:73-75 | repeating an edit request gives the same store and response as the first |
| `PostProperties.CreateThenEdit` | yatube/posts/views.py:50-80 | creating a post and then editing it as its author equals creating it with the edited fields |
| `InvariantProperties.CreatePreservesValid` | yatube/posts/views.py:57-59 | creating a post as an anonymous visitor or an existing account keeps the store invariant |
| `InvariantProperties.EditPreservesValid` | yatube/posts/views.py:73-74 | editing a post keeps the store invariant |
| `InvariantProperties.CommentPreservesValid` | yatube/posts/views.py:87-91 | adding a comment as an anonymous visitor or an existing account keeps the store invariant |
| `InvariantProperties.FollowPreservesValid` | yatube/posts/views.py:111-119 | following as an anonymous visitor or an existing account keeps the store invariant, in particular no self-follow edge |
| `InvariantProperties.UnfollowPreservesValid` | yatube/posts/views.py:125-127 | unfollowing keeps the store invariant |
| `InvariantProperties.HandlePreservesValid` | yatube/posts/views.py:17-128 | every view, requested by an anonymous visitor or an existing account, keeps the store invariant and the set of accounts |
| `InvariantProperties.RunPreservesValid` | yatube/posts/views.py:17-128 | any sequence of requests from anonymous visitors or existing accounts keeps the invariant and the accounts, and never yields a self-follow edge |

## Left out

- `post_detail` (`views.py:43-47`) only renders a post and its comment form. It is not modelled.
- Rendering is left out: templates appear only as names, and the context holds only the page posts or the post id.
- URL reversal is abstracted to the `Path` datatype. It names only the routes that some modelled response points to.
- The not-found template is left out.
- The login page URL and the exact `?next=` query string are abstracted to `LoginRedirect(path)`.
- The index page cache has wall-clock expiry, so it is not modelled.
- Image upload and storage is file I/O, so it is not modelled.
- The post and comment forms are not part of this model. `PostFormValid` and `CommentFormValid` are assumed validation rules.
- The `following` flag of `profile` (`views.py:36-38`) is not modelled. It filters on a boolean where a user is expected, so its intended meaning is unclear.
- `Views.AddComment`: for an invalid form, the view passes the URL name `posts:post_detail` as a template name. The contract states this as the outcome `RenderForm(UnresolvedTemplate("posts:post_detail"), Some(id))` with the store unchanged. What the renderer then does with that name is not modelled.
- `Pagination.PageNumber`: the paginator's clamping is library behaviour that `views.py` does not show, so it is a stated assumption. A missing or non-integer page parameter is `None` and gives page 1. Any number outside 1..NumPages gives the last page.
- `Pagination.PostsOnPage` is fixed at 10. The project settings are not part of this model. The lemmas of module `Pagination` hold for any positive page size, except `OverflowByThree`, which needs a page size of at least 3. The lemmas of `PagingProperties` and `ListingProperties` are stated for `PostsOnPage` only.
- Listings use store order, and a new post is appended at the end. The descending publication-date ordering comes from the post model's options, which are not part of this model.
- The database is reduced to values:
  - no concurrency;
  - follow edges are a set, so the uniqueness constraint holds by construction;
  - post ids come from a counter.
- Creating users and groups (registration, admin) is not modelled.
