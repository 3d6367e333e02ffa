/** The page objects of the listing views. */
module PagingProperties {
  import opened Wrappers
  import opened Store
  import opened Pagination
  import opened Views

  /** A listing of POSTS_ON_PAGE + 3 posts: page 1 is full, page 2 holds
      the other three, a missing page parameter means page 1 and a page
      number past the end means the last page. */
  lemma OverflowByThreePages(listing: seq<Post>)
    requires |listing| == PostsOnPage + 3
    ensures |GetPageObj(listing, Some(1))| == PostsOnPage
    ensures |GetPageObj(listing, Some(2))| == 3
    ensures GetPageObj(listing, None) == GetPageObj(listing, Some(1))
    ensures GetPageObj(listing, Some(3)) == GetPageObj(listing, Some(2))
    ensures GetPageObj(listing, Some(0)) == GetPageObj(listing, Some(2))
  {
    OverflowByThree(listing, PostsOnPage);
  }

  /** Asking for page k, with k in range, shows the k-th page. */
  lemma PageObjInRange(listing: seq<Post>, k: nat)
    requires 1 <= k <= NumPages(|listing|, PostsOnPage)
    ensures GetPageObj(listing, Some(k)) == Pages(listing, PostsOnPage)[k - 1]
  {
  }
}
