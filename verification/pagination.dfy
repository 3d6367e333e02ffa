/** Fixed-size pages over an ordered listing, as the views obtain them from
    the framework's paginator: page numbers are 1-based, every page but the
    last holds exactly `size` items, and an empty listing still has one
    (empty) page. */
module Pagination {
  import opened Wrappers

  /** The project setting POSTS_ON_PAGE. */
  const PostsOnPage: nat := 10

  function Min(a: int, b: int): int {
    if a <= b then a else b
  }

  /** The number of pages a listing of `count` items fills: the least
      positive k with count <= k * size. */
  function NumPages(count: nat, size: nat): (r: nat)
    requires size > 0
    ensures r >= 1
    ensures count <= r * size
    ensures r == 1 || (r - 1) * size < count
    decreases count
  {
    if count <= size then 1 else 1 + NumPages(count - size, size)
  }

  /** The position of the first item of page `number`, counted by
      skipping whole pages. */
  function Start(size: nat, number: nat): nat
    requires number >= 1
  {
    if number == 1 then 0 else size + Start(size, number - 1)
  }

  /** Skipping number-1 pages skips (number-1)*size items. */
  lemma {:induction false} StartIsProduct(size: nat, number: nat)
    requires number >= 1
    ensures Start(size, number) == (number - 1) * size
  {
    if number > 1 {
      StartIsProduct(size, number - 1);
      assert (number - 1) * size == (number - 2) * size + size;
    }
  }

  /** Page `number` of `xs`: the items at positions Start(size, number),
      that is (number-1)*size, up to but excluding min(number*size, |xs|). */
  function Page<T>(xs: seq<T>, size: nat, number: nat): (r: seq<T>)
    requires size > 0 && number >= 1
    ensures |r| <= size
    ensures |r| == if Start(size, number) >= |xs| then 0 else Min(size, |xs| - Start(size, number))
    ensures forall k :: 0 <= k < |r| ==> r[k] == xs[Start(size, number) + k]
    decreases number
  {
    if number == 1 then xs[..Min(size, |xs|)]
    else if |xs| <= size then []
    else Page(xs[size..], size, number - 1)
  }

  /** All pages of `xs`, first to last. */
  function Pages<T>(xs: seq<T>, size: nat): (r: seq<seq<T>>)
    requires size > 0
    ensures |r| == NumPages(|xs|, size)
    ensures forall k :: 0 <= k < |r| ==> r[k] == Page(xs, size, k + 1)
    ensures |xs| > 0 ==> forall k :: 0 <= k < |r| ==> |r[k]| > 0
    decreases |xs|
  {
    if |xs| <= size then [xs]
    else [xs[..size]] + Pages(xs[size..], size)
  }

  function Concat<T>(pages: seq<seq<T>>): seq<T> {
    if |pages| == 0 then [] else pages[0] + Concat(pages[1..])
  }

  /** The pages, read in order, give back the whole listing: nothing is
      lost, repeated or reordered by pagination. */
  lemma {:induction false} PagesRestoreListing<T>(xs: seq<T>, size: nat)
    requires size > 0
    ensures Concat(Pages(xs, size)) == xs
    decreases |xs|
  {
    if |xs| > size {
      var rest := Pages(xs[size..], size);
      var ps := Pages(xs, size);
      assert ps == [xs[..size]] + rest;
      assert ps[0] == xs[..size] && ps[1..] == rest;
      assert Concat(ps) == xs[..size] + Concat(rest);
      PagesRestoreListing(xs[size..], size);
      SplitAt(xs, size);
    }
  }

  lemma SplitAt<T>(xs: seq<T>, n: nat)
    requires n <= |xs|
    ensures xs[..n] + xs[n..] == xs
  {
  }

  /** An item of a concatenation sits in one of the concatenated pieces. */
  lemma {:induction false} ConcatMember<T>(pages: seq<seq<T>>, x: T)
    requires x in Concat(pages)
    ensures exists k :: 0 <= k < |pages| && x in pages[k]
    decreases |pages|
  {
    if x !in pages[0] {
      ConcatMember(pages[1..], x);
      var k :| 0 <= k < |pages[1..]| && x in pages[1..][k];
      assert pages[k + 1] == pages[1..][k];
    }
  }

  /** The first n pages of `pages` concatenated are the first n-1 followed
      by page n. */
  lemma {:induction false} ConcatPrefix<T>(pages: seq<seq<T>>, n: nat)
    requires n < |pages|
    ensures Concat(pages[..n + 1]) == Concat(pages[..n]) + pages[n]
    decreases n
  {
    if n > 0 {
      var tail := pages[1..];
      assert pages[..n + 1][1..] == tail[..n];
      assert pages[..n][1..] == tail[..n - 1];
      ConcatPrefix(tail, n - 1);
      assert tail[n - 1] == pages[n];
    }
  }

  /** What a reader sees by asking for pages 1, 2, ..., n in turn. */
  function Shown<T>(page: nat -> seq<T>, n: nat): seq<T>
    decreases n
  {
    if n == 0 then [] else Shown(page, n - 1) + page(n)
  }

  /** If asking for page k gives the k-th page of `xs`, then asking for
      pages 1..NumPages in turn shows exactly `xs`, in order. */
  lemma {:induction false} ShownRestoresListing<T>(page: nat -> seq<T>, xs: seq<T>, size: nat)
    requires size > 0
    requires forall k :: 1 <= k <= NumPages(|xs|, size) ==> page(k) == Pages(xs, size)[k - 1]
    ensures Shown(page, NumPages(|xs|, size)) == xs
  {
    var ps := Pages(xs, size);
    var n := 0;
    while n < |ps|
      invariant n <= |ps|
      invariant Shown(page, n) == Concat(ps[..n])
    {
      ConcatPrefix(ps, n);
      n := n + 1;
    }
    assert ps[..|ps|] == ps;
    PagesRestoreListing(xs, size);
  }

  /** The page actually shown for the `page` query parameter: a missing or
      non-integer parameter (None) means page 1, and a number outside
      1..NumPages means the last page. */
  function PageNumber(requested: Option<int>, count: nat, size: nat): (r: nat)
    requires size > 0
    ensures 1 <= r <= NumPages(count, size)
    ensures requested.None? ==> r == 1
    ensures requested.Some? && 1 <= requested.value <= NumPages(count, size) ==> r == requested.value
    ensures requested.Some? && !(1 <= requested.value <= NumPages(count, size)) ==> r == NumPages(count, size)
  {
    match requested
    case None => 1
    case Some(p) =>
      var last := NumPages(count, size);
      if 1 <= p <= last then p else last
  }

  /** The page object for a request: never longer than `size`, made of
      consecutive listing items, and never empty when the listing is not. */
  function GetPage<T>(xs: seq<T>, size: nat, requested: Option<int>): (r: seq<T>)
    requires size > 0
    ensures |r| <= size
    ensures |xs| > 0 ==> |r| > 0
    ensures forall x :: x in r ==> x in xs
  {
    var number := PageNumber(requested, |xs|, size);
    var ps := Pages(xs, size);
    assert ps[number - 1] == Page(xs, size, number);
    Page(xs, size, number)
  }

  /** Every item of a listing is shown on some page that can be asked for. */
  lemma ListedOnSomePage<T>(xs: seq<T>, size: nat, x: T)
    requires size > 0 && x in xs
    ensures exists k :: 1 <= k <= NumPages(|xs|, size) && x in GetPage(xs, size, Some(k))
  {
    PagesRestoreListing(xs, size);
    var ps := Pages(xs, size);
    ConcatMember(ps, x);
    var k :| 0 <= k < |ps| && x in ps[k];
    assert GetPage(xs, size, Some(k + 1)) == ps[k];
  }

  /** With `size + 3` items the first page is full and the second holds
      the remaining three. */
  lemma OverflowByThree<T>(xs: seq<T>, size: nat)
    requires size >= 3 && |xs| == size + 3
    ensures |Page(xs, size, 1)| == size
    ensures |Page(xs, size, 2)| == 3
    ensures NumPages(|xs|, size) == 2
  {
  }
}
