/** The request handlers of the posts application, one function per view.
    Each takes the store and the request user (None for an anonymous
    visitor) and returns the new store together with what the response
    does: redirect, render, report not-found, or send to the login page. */
module Views {
  import opened Wrappers
  import opened Store
  import opened Pagination
  import opened Feeds

  /** The named URL routes a response can point to. */
  datatype Path =
    | ProfilePath(username: Username)
    | PostDetailPath(id: PostId)
    | PostCreatePath
    | PostEditPath(id: PostId)
    | AddCommentPath(id: PostId)
    | FollowIndexPath
    | FollowPath(username: Username)
    | UnfollowPath(username: Username)

  /** Templates the views render. `UnresolvedTemplate` is a name passed to
      the renderer that is not a template path. */
  datatype Template =
    | IndexHtml
    | GroupListHtml
    | ProfileHtml
    | FollowHtml
    | CreatePostHtml
    | UnresolvedTemplate(name: string)

  datatype Outcome =
    | Redirect(to: Path)
    | LoginRedirect(next: Path)
    | NotFound
      /** A listing page with the posts of the current page object. */
    | RenderPage(template: Template, page: seq<Post>)
      /** A form page; `post` is the post in the context, if any. */
    | RenderForm(template: Template, post: Option<PostId>)

  datatype Response = Response(store: Store, outcome: Outcome)

  /** Submitted post form fields; None stands for no submitted data. */
  datatype PostForm = PostForm(text: string, group: Option<Slug>)

  datatype CommentForm = CommentForm(text: string)

  /** A post form validates when its text is not empty and its group, if
      chosen, exists. */
  predicate PostFormValid(s: Store, form: Option<PostForm>) {
    form.Some? && |form.value.text| > 0 && (form.value.group.Some? ==> form.value.group.value in s.groups)
  }

  predicate CommentFormValid(form: Option<CommentForm>) {
    form.Some? && |form.value.text| > 0
  }

  /** The page object of `listing` for the `page` query parameter. */
  function GetPageObj(listing: seq<Post>, requested: Option<int>): (r: seq<Post>)
    ensures |r| <= PostsOnPage
    ensures |listing| > 0 ==> |r| > 0
    ensures forall p :: p in r ==> p in listing
  {
    GetPage(listing, PostsOnPage, requested)
  }

  function Index(s: Store, requested: Option<int>): (r: Response)
    ensures r.store == s && r.outcome.RenderPage? && r.outcome.template == IndexHtml
    ensures forall p :: p in r.outcome.page ==> p in s.posts
  {
    Response(s, RenderPage(IndexHtml, GetPageObj(IndexFeed(s), requested)))
  }

  /** The posts of one group; an unknown slug is not found. */
  function GroupPosts(s: Store, slug: Slug, requested: Option<int>): (r: Response)
    ensures r.store == s
    ensures r.outcome == NotFound <==> slug !in s.groups
    ensures r.outcome != NotFound ==> r.outcome.RenderPage? && r.outcome.template == GroupListHtml
    ensures r.outcome.RenderPage? ==> forall p :: p in r.outcome.page ==> p in s.posts && p.group == Some(slug)
  {
    if slug !in s.groups then Response(s, NotFound)
    else
      SelectMembers(s.posts, InGroup(slug));
      Response(s, RenderPage(GroupListHtml, GetPageObj(GroupFeed(s, slug), requested)))
  }

  /** The posts of one author; an unknown username is not found. */
  function Profile(s: Store, username: Username, requested: Option<int>): (r: Response)
    ensures r.store == s
    ensures r.outcome == NotFound <==> username !in s.users
    ensures r.outcome != NotFound ==> r.outcome.RenderPage? && r.outcome.template == ProfileHtml
    ensures r.outcome.RenderPage? ==> forall p :: p in r.outcome.page ==> p in s.posts && p.author == username
  {
    if username !in s.users then Response(s, NotFound)
    else
      SelectMembers(s.posts, ByAuthor(username));
      Response(s, RenderPage(ProfileHtml, GetPageObj(ProfileFeed(s, username), requested)))
  }

  /** Creates a post authored by the request user from a valid form and
      goes to that user's profile; otherwise shows the form again. */
  function PostCreate(s: Store, user: Option<Username>, form: Option<PostForm>): (r: Response)
    ensures user.None? ==> r == Response(s, LoginRedirect(PostCreatePath))
    ensures user.Some? && !PostFormValid(s, form) ==> r == Response(s, RenderForm(CreatePostHtml, None))
    ensures user.Some? && PostFormValid(s, form) ==>
      && r.outcome == Redirect(ProfilePath(user.value))
      && |r.store.posts| == |s.posts| + 1
      && r.store.posts[..|s.posts|] == s.posts
      && r.store.posts[|s.posts|] == Post(s.nextId, form.value.text, user.value, form.value.group)
      && r.store.nextId > s.nextId
      && r.store == s.(posts := r.store.posts, nextId := r.store.nextId)
  {
    if user.None? then Response(s, LoginRedirect(PostCreatePath))
    else if !PostFormValid(s, form) then Response(s, RenderForm(CreatePostHtml, None))
    else
      var post := Post(s.nextId, form.value.text, user.value, form.value.group);
      Response(s.(posts := s.posts + [post], nextId := s.nextId + 1), Redirect(ProfilePath(user.value)))
  }

  /** Lets the author of post `id` replace its text and group. Anyone else
      is sent to the post page without an error; an invalid form is shown
      again. */
  function PostEdit(s: Store, user: Option<Username>, id: PostId, form: Option<PostForm>): (r: Response)
    ensures user.None? ==> r == Response(s, LoginRedirect(PostEditPath(id)))
    ensures user.Some? ==> (r.outcome == NotFound <==> !HasPost(s.posts, id))
    ensures r.outcome == NotFound ==> r.store == s
    ensures user.Some? && HasPost(s.posts, id) ==>
      var i := IndexOf(s.posts, id).value;
      if user.value != s.posts[i].author then
        r == Response(s, Redirect(PostDetailPath(id)))
      else if !PostFormValid(s, form) then
        r == Response(s, RenderForm(CreatePostHtml, Some(id)))
      else
        && r.outcome == Redirect(PostDetailPath(id))
        && r.store == s.(posts := r.store.posts)
        && |r.store.posts| == |s.posts|
        && r.store.posts[i] == Post(id, form.value.text, s.posts[i].author, form.value.group)
        && forall j :: 0 <= j < |s.posts| && j != i ==> r.store.posts[j] == s.posts[j]
  {
    if user.None? then Response(s, LoginRedirect(PostEditPath(id)))
    else
      match IndexOf(s.posts, id)
      case None => Response(s, NotFound)
      case Some(i) =>
        var post := s.posts[i];
        if user.value != post.author then Response(s, Redirect(PostDetailPath(id)))
        else if !PostFormValid(s, form) then Response(s, RenderForm(CreatePostHtml, Some(id)))
        else
          var edited := post.(text := form.value.text, group := form.value.group);
          Response(s.(posts := s.posts[i := edited]), Redirect(PostDetailPath(id)))
  }

  /** Adds a comment by the request user to post `id`. On an invalid form
      the handler renders a URL name where a template path belongs. */
  function AddComment(s: Store, user: Option<Username>, id: PostId, form: Option<CommentForm>): (r: Response)
    ensures user.None? ==> r == Response(s, LoginRedirect(AddCommentPath(id)))
    ensures user.Some? ==> (r.outcome == NotFound <==> !HasPost(s.posts, id))
    ensures user.Some? && HasPost(s.posts, id) && CommentFormValid(form) ==>
      r == Response(s.(comments := s.comments + [Comment(id, user.value, form.value.text)]), Redirect(PostDetailPath(id)))
    ensures !(user.Some? && HasPost(s.posts, id) && CommentFormValid(form)) ==> r.store == s
    ensures user.Some? && HasPost(s.posts, id) && !CommentFormValid(form) ==>
      r.outcome == RenderForm(UnresolvedTemplate("posts:post_detail"), Some(id))
  {
    if user.None? then Response(s, LoginRedirect(AddCommentPath(id)))
    else if IndexOf(s.posts, id).None? then Response(s, NotFound)
    else if CommentFormValid(form) then
      Response(s.(comments := s.comments + [Comment(id, user.value, form.value.text)]), Redirect(PostDetailPath(id)))
    else Response(s, RenderForm(UnresolvedTemplate("posts:post_detail"), Some(id)))
  }

  /** The posts of every author the request user follows, in store order. */
  function FollowIndex(s: Store, user: Option<Username>, requested: Option<int>): (r: Response)
    ensures r.store == s
    ensures user.None? ==> r.outcome == LoginRedirect(FollowIndexPath)
    ensures user.Some? ==> r.outcome.RenderPage? && r.outcome.template == FollowHtml
    ensures user.Some? ==> forall p :: p in r.outcome.page ==> p in s.posts && Follow(user.value, p.author) in s.follows
  {
    if user.None? then Response(s, LoginRedirect(FollowIndexPath))
    else
      SelectMembers(s.posts, FollowedBy(user.value, s.follows));
      Response(s, RenderPage(FollowHtml, GetPageObj(FollowFeed(s, user.value), requested)))
  }

  /** Makes the request user follow `username`. Following oneself is a
      no-op, and an edge that already exists is left as it is (the
      database refuses the duplicate and the handler swallows the error).
      The response always goes back to the profile. */
  function ProfileFollow(s: Store, user: Option<Username>, username: Username): (r: Response)
    ensures user.None? ==> r == Response(s, LoginRedirect(FollowPath(username)))
    ensures user.Some? && username !in s.users ==> r == Response(s, NotFound)
    ensures user.Some? && username in s.users ==>
      && r.outcome == Redirect(ProfilePath(username))
      && r.store == s.(follows := r.store.follows)
      && (forall f :: f in r.store.follows <==> f in s.follows || (f == Follow(user.value, username) && user.value != username))
  {
    if user.None? then Response(s, LoginRedirect(FollowPath(username)))
    else if username !in s.users then Response(s, NotFound)
    else
      var redirectPage := Redirect(ProfilePath(username));
      var edge := Follow(user.value, username);
      if user.value == username then Response(s, redirectPage)
      else if edge in s.follows then Response(s, redirectPage)
      else Response(s.(follows := s.follows + {edge}), redirectPage)
  }

  /** Removes the edge from the request user to `username`; a missing edge
      is not found. */
  function ProfileUnfollow(s: Store, user: Option<Username>, username: Username): (r: Response)
    ensures user.None? ==> r == Response(s, LoginRedirect(UnfollowPath(username)))
    ensures user.Some? && Follow(user.value, username) !in s.follows ==> r == Response(s, NotFound)
    ensures user.Some? && Follow(user.value, username) in s.follows ==>
      && r.outcome == Redirect(ProfilePath(username))
      && r.store == s.(follows := r.store.follows)
      && (forall f :: f in r.store.follows <==> f in s.follows && f != Follow(user.value, username))
  {
    if user.None? then Response(s, LoginRedirect(UnfollowPath(username)))
    else
      var edge := Follow(user.value, username);
      if edge !in s.follows then Response(s, NotFound)
      else Response(s.(follows := s.follows - {edge}), Redirect(ProfilePath(username)))
  }

  /** A request to one of the views, with its URL and form arguments. */
  datatype Request =
    | IndexRequest(page: Option<int>)
    | GroupRequest(slug: Slug, page: Option<int>)
    | ProfileRequest(username: Username, page: Option<int>)
    | CreateRequest(postForm: Option<PostForm>)
    | EditRequest(id: PostId, postForm: Option<PostForm>)
    | CommentRequest(id: PostId, commentForm: Option<CommentForm>)
    | FollowIndexRequest(page: Option<int>)
    | FollowRequest(username: Username)
    | UnfollowRequest(username: Username)

  /** Dispatches a request to its view. */
  function Handle(s: Store, user: Option<Username>, req: Request): Response {
    match req
    case IndexRequest(page) => Index(s, page)
    case GroupRequest(slug, page) => GroupPosts(s, slug, page)
    case ProfileRequest(username, page) => Profile(s, username, page)
    case CreateRequest(form) => PostCreate(s, user, form)
    case EditRequest(id, form) => PostEdit(s, user, id, form)
    case CommentRequest(id, form) => AddComment(s, user, id, form)
    case FollowIndexRequest(page) => FollowIndex(s, user, page)
    case FollowRequest(username) => ProfileFollow(s, user, username)
    case UnfollowRequest(username) => ProfileUnfollow(s, user, username)
  }
}
