/** Properties of creating and editing posts. */
module PostProperties {
  import opened Wrappers
  import opened Store
  import opened Views

  /** No edit request, by anyone and with any form, moves a post, changes
      its id or changes its author. */
  lemma EditKeepsIdsAndAuthors(s: Store, user: Option<Username>, id: PostId, form: Option<PostForm>)
    ensures var after := PostEdit(s, user, id, form).store;
            && |after.posts| == |s.posts|
            && forall j :: 0 <= j < |s.posts| ==> after.posts[j].id == s.posts[j].id && after.posts[j].author == s.posts[j].author
  {
  }

  /** A user who did not write post `id` cannot change the store through
      the edit view, whatever they submit. */
  lemma NonAuthorCannotEdit(s: Store, u: Username, id: PostId, form: Option<PostForm>)
    requires forall j :: 0 <= j < |s.posts| && s.posts[j].id == id ==> s.posts[j].author != u
    ensures PostEdit(s, Some(u), id, form).store == s
    ensures HasPost(s.posts, id) ==> PostEdit(s, Some(u), id, form).outcome == Redirect(PostDetailPath(id))
  {
  }

  /** Repeating an edit request changes nothing more than the first one. */
  lemma EditIdempotent(s: Store, user: Option<Username>, id: PostId, form: Option<PostForm>)
    ensures var once := PostEdit(s, user, id, form);
            PostEdit(once.store, user, id, form) == once
  {
    var once := PostEdit(s, user, id, form);
    if user.Some? && HasPost(s.posts, id) {
      var i := IndexOf(s.posts, id).value;
      var j := IndexOf(once.store.posts, id).value;
      assert j == i;
    }
  }

  /** Creating a post and then editing it as its author yields the same
      store as creating it with the edited fields in the first place. */
  lemma CreateThenEdit(s: Store, u: Username, first: PostForm, second: PostForm)
    requires Valid(s) && PostFormValid(s, Some(first)) && PostFormValid(s, Some(second))
    ensures var created := PostCreate(s, Some(u), Some(first)).store;
            PostEdit(created, Some(u), s.nextId, Some(second)).store == PostCreate(s, Some(u), Some(second)).store
  {
    var created := PostCreate(s, Some(u), Some(first)).store;
    forall j | 0 <= j < |s.posts|
      ensures created.posts[j].id != s.nextId
    {
      assert PostWellFormed(s, s.posts[j]);
    }
    assert IndexOf(created.posts, s.nextId) == Some(|s.posts|);
  }
}
