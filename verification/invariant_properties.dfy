/** The store invariant survives every request, so in particular no
    sequence of requests ever creates a self-follow edge or a dangling
    reference. */
module InvariantProperties {
  import opened Wrappers
  import opened Store
  import opened Views

  lemma CreatePreservesValid(s: Store, user: Option<Username>, form: Option<PostForm>)
    requires Valid(s) && KnownUser(s, user)
    ensures Valid(PostCreate(s, user, form).store)
  {
    var after := PostCreate(s, user, form).store;
    if after != s {
      forall i | 0 <= i < |after.posts|
        ensures PostWellFormed(after, after.posts[i])
      {
        if i < |s.posts| {
          assert PostWellFormed(s, s.posts[i]);
        }
      }
      forall i | 0 <= i < |after.comments|
        ensures CommentWellFormed(after, after.comments[i])
      {
        assert CommentWellFormed(s, s.comments[i]);
        var j :| 0 <= j < |s.posts| && s.posts[j].id == s.comments[i].post;
        assert after.posts[j] == s.posts[j];
      }
      assert forall i :: 0 <= i < |s.posts| ==> PostWellFormed(s, s.posts[i]);
    }
  }

  lemma EditPreservesValid(s: Store, user: Option<Username>, id: PostId, form: Option<PostForm>)
    requires Valid(s)
    ensures Valid(PostEdit(s, user, id, form).store)
  {
    var after := PostEdit(s, user, id, form).store;
    if after != s {
      var i := IndexOf(s.posts, id).value;
      assert PostWellFormed(s, s.posts[i]);
      forall j | 0 <= j < |after.posts|
        ensures PostWellFormed(after, after.posts[j])
      {
        assert PostWellFormed(s, s.posts[j]);
      }
      forall k | 0 <= k < |after.comments|
        ensures CommentWellFormed(after, after.comments[k])
      {
        assert CommentWellFormed(s, s.comments[k]);
        var j :| 0 <= j < |s.posts| && s.posts[j].id == s.comments[k].post;
        assert after.posts[j].id == s.posts[j].id;
      }
    }
  }

  lemma CommentPreservesValid(s: Store, user: Option<Username>, id: PostId, form: Option<CommentForm>)
    requires Valid(s) && KnownUser(s, user)
    ensures Valid(AddComment(s, user, id, form).store)
  {
    var after := AddComment(s, user, id, form).store;
    if after != s {
      forall k | 0 <= k < |after.comments|
        ensures CommentWellFormed(after, after.comments[k])
      {
        if k < |s.comments| {
          assert CommentWellFormed(s, s.comments[k]);
        } else {
          var j := IndexOf(s.posts, id).value;
          assert s.posts[j].id == id;
        }
      }
    }
  }

  lemma FollowPreservesValid(s: Store, user: Option<Username>, username: Username)
    requires Valid(s) && KnownUser(s, user)
    ensures Valid(ProfileFollow(s, user, username).store)
  {
  }

  lemma UnfollowPreservesValid(s: Store, user: Option<Username>, username: Username)
    requires Valid(s)
    ensures Valid(ProfileUnfollow(s, user, username).store)
  {
  }

  /** Every view keeps the store invariant and the set of accounts. */
  lemma HandlePreservesValid(s: Store, user: Option<Username>, req: Request)
    requires Valid(s) && KnownUser(s, user)
    ensures Valid(Handle(s, user, req).store)
    ensures Handle(s, user, req).store.users == s.users
  {
    match req
    case CreateRequest(form) => CreatePreservesValid(s, user, form);
    case EditRequest(id, form) => EditPreservesValid(s, user, id, form);
    case CommentRequest(id, form) => CommentPreservesValid(s, user, id, form);
    case FollowRequest(username) => FollowPreservesValid(s, user, username);
    case UnfollowRequest(username) => UnfollowPreservesValid(s, user, username);
    case _ =>
  }

  /** A request together with the user who sends it. */
  datatype Call = Call(user: Option<Username>, req: Request)

  /** The store after serving `calls` one after another. */
  function Run(s: Store, calls: seq<Call>): Store
    decreases |calls|
  {
    if |calls| == 0 then s
    else Run(Handle(s, calls[0].user, calls[0].req).store, calls[1..])
  }

  /** Serving any sequence of requests from signed-up users (or anonymous
      visitors) keeps the invariant; in particular no follow edge from a
      user to themself ever appears. */
  lemma {:induction false} RunPreservesValid(s: Store, calls: seq<Call>)
    requires Valid(s)
    requires forall i :: 0 <= i < |calls| ==> KnownUser(s, calls[i].user)
    ensures Valid(Run(s, calls))
    ensures Run(s, calls).users == s.users
    ensures NoSelfFollow(Run(s, calls).follows)
    decreases |calls|
  {
    if |calls| > 0 {
      var next := Handle(s, calls[0].user, calls[0].req).store;
      HandlePreservesValid(s, calls[0].user, calls[0].req);
      assert forall i :: 0 <= i < |calls[1..]| ==> KnownUser(next, calls[1..][i].user) by {
        forall i | 0 <= i < |calls[1..]|
          ensures KnownUser(next, calls[1..][i].user)
        {
          assert calls[1..][i] == calls[i + 1];
        }
      }
      RunPreservesValid(next, calls[1..]);
    }
  }
}
