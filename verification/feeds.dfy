/** The post listings the views paginate: every post, one group, one
    author, or the authors a user follows. Each keeps store order. */
module Feeds {
  import opened Wrappers
  import opened Store

  /** Which posts a listing keeps. */
  datatype Filter =
    | InGroup(slug: Slug)
    | ByAuthor(author: Username)
    | FollowedBy(user: Username, follows: set<Follow>)

  predicate Matches(f: Filter, p: Post) {
    match f
    case InGroup(g) => p.group == Some(g)
    case ByAuthor(a) => p.author == a
    case FollowedBy(u, fs) => Follow(u, p.author) in fs
  }

  /** The posts of `xs` that `f` keeps, each as often as it occurs in `xs`
      and in the order of `xs`. */
  function Select(xs: seq<Post>, f: Filter): (r: seq<Post>)
    ensures |r| <= |xs|
    ensures forall i :: 0 <= i < |r| ==> Matches(f, r[i])
  {
    if |xs| == 0 then []
    else (if Matches(f, xs[0]) then [xs[0]] else []) + Select(xs[1..], f)
  }

  /** Every post `f` keeps occurs in the selection exactly as often as in
      `xs`; every other post does not occur at all. */
  lemma {:induction false} SelectCounts(xs: seq<Post>, f: Filter)
    ensures forall p :: multiset(Select(xs, f))[p] == if Matches(f, p) then multiset(xs)[p] else 0
    decreases |xs|
  {
    if |xs| > 0 {
      SelectCounts(xs[1..], f);
      assert xs == [xs[0]] + xs[1..];
    }
  }

  /** A post is selected exactly when it is in `xs` and `f` keeps it. */
  lemma SelectMembers(xs: seq<Post>, f: Filter)
    ensures forall p :: p in Select(xs, f) <==> p in xs && Matches(f, p)
  {
    SelectCounts(xs, f);
    forall p
      ensures p in Select(xs, f) <==> p in xs && Matches(f, p)
    {
      assert p in Select(xs, f) <==> multiset(Select(xs, f))[p] > 0;
      assert p in xs <==> multiset(xs)[p] > 0;
    }
  }

  /** Selection distributes over concatenation, so the selected posts keep
      their relative store order. */
  lemma {:induction false} SelectAppend(a: seq<Post>, b: seq<Post>, f: Filter)
    ensures Select(a + b, f) == Select(a, f) + Select(b, f)
    decreases |a|
  {
    if |a| == 0 {
      assert a + b == b;
    } else {
      assert (a + b)[0] == a[0];
      assert (a + b)[1..] == a[1..] + b;
      SelectAppend(a[1..], b, f);
    }
  }

  /** A filter that keeps none of the posts selects nothing. */
  lemma {:induction false} SelectNoneMatching(xs: seq<Post>, f: Filter)
    requires forall i :: 0 <= i < |xs| ==> !Matches(f, xs[i])
    ensures Select(xs, f) == []
    decreases |xs|
  {
    if |xs| > 0 {
      SelectNoneMatching(xs[1..], f);
    }
  }

  /** The index lists every post. */
  function IndexFeed(s: Store): seq<Post> {
    s.posts
  }

  function GroupFeed(s: Store, slug: Slug): seq<Post> {
    Select(s.posts, InGroup(slug))
  }

  function ProfileFeed(s: Store, author: Username): seq<Post> {
    Select(s.posts, ByAuthor(author))
  }

  function FollowFeed(s: Store, user: Username): seq<Post> {
    Select(s.posts, FollowedBy(user, s.follows))
  }
}
