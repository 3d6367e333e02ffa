/** The abstract in-memory store that the posts views read and write: the
    users, groups, posts, comments and follow edges of the database, with
    the object-relational layer replaced by plain values. */
module Store {
  import opened Wrappers

  type Username = string
  type Slug = string
  type PostId = nat

  /** A post: id and author never change after creation; text and group
      are the fields the edit form may replace. */
  datatype Post = Post(id: PostId, text: string, author: Username, group: Option<Slug>)

  /** A comment on the post `post`, written by `author`. */
  datatype Comment = Comment(post: PostId, author: Username, text: string)

  /** A directed follow edge: `user` follows `author`. */
  datatype Follow = Follow(user: Username, author: Username)

  /** Posts are kept in store order; `nextId` is the id the database will
      give the next post it saves. */
  datatype Store = Store(
    users: set<Username>,
    groups: set<Slug>,
    posts: seq<Post>,
    comments: seq<Comment>,
    follows: set<Follow>,
    nextId: PostId)

  /** The position of the first post with id `id`, if any. */
  function IndexOf(posts: seq<Post>, id: PostId): (r: Option<nat>)
    ensures r.Some? ==> r.value < |posts| && posts[r.value].id == id
    ensures r.Some? ==> forall j :: 0 <= j < r.value ==> posts[j].id != id
    ensures r.None? <==> forall j :: 0 <= j < |posts| ==> posts[j].id != id
  {
    if |posts| == 0 then None
    else if posts[0].id == id then Some(0)
    else
      match IndexOf(posts[1..], id)
      case None => None
      case Some(k) => Some(k + 1)
  }

  predicate HasPost(posts: seq<Post>, id: PostId) {
    exists j :: 0 <= j < |posts| && posts[j].id == id
  }

  predicate UniqueIds(posts: seq<Post>) {
    forall i, j :: 0 <= i < j < |posts| ==> posts[i].id != posts[j].id
  }

  /** A post refers to an existing author and, when it has one, an existing
      group; its id was handed out already; its text is not empty. */
  predicate PostWellFormed(s: Store, p: Post) {
    && p.id < s.nextId
    && p.author in s.users
    && (p.group.Some? ==> p.group.value in s.groups)
    && |p.text| > 0
  }

  predicate CommentWellFormed(s: Store, c: Comment) {
    c.author in s.users && HasPost(s.posts, c.post) && |c.text| > 0
  }

  /** A follow edge joins two existing users. */
  predicate FollowWellFormed(s: Store, f: Follow) {
    f.user in s.users && f.author in s.users
  }

  /** No edge joins a user to themself. */
  predicate NoSelfFollow(follows: set<Follow>) {
    forall f :: f in follows ==> f.user != f.author
  }

  /** The invariant every view keeps. */
  predicate Valid(s: Store) {
    && (forall i :: 0 <= i < |s.posts| ==> PostWellFormed(s, s.posts[i]))
    && UniqueIds(s.posts)
    && (forall i :: 0 <= i < |s.comments| ==> CommentWellFormed(s, s.comments[i]))
    && (forall f :: f in s.follows ==> FollowWellFormed(s, f))
    && NoSelfFollow(s.follows)
  }

  /** The request user, when there is one, is an account of the store. */
  predicate KnownUser(s: Store, user: Option<Username>) {
    user.None? || user.value in s.users
  }
}
