/** The ownership policy shared by the editing views: the author test of
    IsAuthorMixin, PostMixin's answer to a failed test, CommentMixin's
    object lookup and redirect, and the order in which the framework's
    access mixins run them. */
module Mixins {
  import opened Collections
  import opened Models
  import opened Querysets

  /** `request.user`: the anonymous user or a user loaded from the table. */
  datatype Viewer = Anonymous | Member(user: User)

  /** The URL keyword arguments a handler was routed with. */
  datatype Route = Route(postId: Option<Id>, commentId: Option<Id>)

  /** Redirect targets, by URL name. */
  datatype Target = Login | Index | Profile(username: string) | PostDetail(postId: Id)

  /** What a handler answers. `Rendered` is a page (or a form shown again
      with its errors); `Http500` is an unhandled KeyError. */
  datatype Response = Rendered | Redirect(to: Target) | Http403 | Http404 | Http500

  /** Whether the access mixins let the request through to the handler. */
  datatype Gate = Proceed | Halt(response: Response)

  /** `request.user == author`: users compare by primary key, and the
      anonymous user equals no user. */
  predicate IsUser(viewer: Viewer, id: Id) {
    viewer.Member? && viewer.user.id == id
  }

  /** The session user is a row of the user table. */
  predicate KnownViewer(db: Db, viewer: Viewer) {
    viewer.Member? ==> viewer.user in db.users
  }

  /** The anonymous user's `username` is the empty string. */
  function ViewerName(viewer: Viewer): string {
    if viewer.Member? then viewer.user.username else ""
  }

  function CommentIdIs(id: Id): Comment -> bool { (c: Comment) => c.id == id }

  /** `get_object_or_404(Comment, pk=id)`. */
  function GetComment(comments: seq<Comment>, id: Id): (r: Lookup<Comment>)
    ensures r.Found? ==> r.value in comments && r.value.id == id
    ensures r.NotFound? <==> forall c :: c in comments ==> c.id != id
  {
    Find(comments, CommentIdIs(id))
  }

  lemma GetCommentFindsComment(comments: seq<Comment>, c: Comment)
    requires DistinctKeys(comments, CommentId) && c in comments
    ensures GetComment(comments, c.id) == Found(c)
  {
    KeyDeterminesRow(comments, CommentId, GetComment(comments, c.id).value, c);
  }

  /** IsAuthorMixin.test_func. With `comment_id` in the URL the comment's
      author is compared with the requester (the post is not consulted);
      otherwise, with `post_id`, the post's author; with neither, the
      requester is compared with itself. A missing row is a 404. */
  function TestFunc(viewer: Viewer, route: Route, db: Db): (r: Lookup<bool>)
    ensures route.commentId.Some? ==>
              (r.NotFound? <==> forall c :: c in db.comments ==> c.id != route.commentId.value)
    ensures route.commentId.Some? && r.Found? ==>
              exists c :: c in db.comments && c.id == route.commentId.value && r.value == IsUser(viewer, c.author)
    ensures route.commentId.None? && route.postId.Some? ==>
              (r.NotFound? <==> forall p :: p in db.posts ==> p.id != route.postId.value)
    ensures route.commentId.None? && route.postId.Some? && r.Found? ==>
              exists p :: p in db.posts && p.id == route.postId.value && r.value == IsUser(viewer, p.author)
    ensures route.commentId.None? && route.postId.None? ==> r == Found(true)
  {
    if route.commentId.Some? then
      match GetComment(db.comments, route.commentId.value)
      case Found(c) => Found(IsUser(viewer, c.author))
      case NotFound => NotFound
    else if route.postId.Some? then
      match GetPostById(db.posts, route.postId.value)
      case Found(p) => Found(IsUser(viewer, p.author))
      case NotFound => NotFound
    else
      Found(true)
  }

  /** With `comment_id`, the test is exactly "the requester wrote that comment". */
  lemma TestFuncCommentAuthor(viewer: Viewer, route: Route, db: Db, c: Comment)
    requires DistinctKeys(db.comments, CommentId) && c in db.comments
    requires route.commentId == Some(c.id)
    ensures TestFunc(viewer, route, db) == Found(IsUser(viewer, c.author))
  {
    GetCommentFindsComment(db.comments, c);
  }

  /** With `post_id` and no `comment_id`, the test is exactly "the requester
      wrote that post". */
  lemma TestFuncPostAuthor(viewer: Viewer, route: Route, db: Db, p: Post)
    requires DistinctKeys(db.posts, PostId) && p in db.posts
    requires route.commentId.None? && route.postId == Some(p.id)
    ensures TestFunc(viewer, route, db) == Found(IsUser(viewer, p.author))
  {
    GetPostByIdFindsPost(db.posts, p);
  }

  /** `comment_id` takes precedence: neither the `post_id` of the URL nor
      the post table changes the outcome. */
  lemma TestFuncIgnoresPost(viewer: Viewer, route: Route, db: Db, postId: Option<Id>, posts: seq<Post>)
    requires route.commentId.Some?
    ensures TestFunc(viewer, route, db) == TestFunc(viewer, route.(postId := postId), db.(posts := posts))
  {
  }

  /** PostMixin.handle_no_permission: an authenticated requester goes to the
      post's page (a KeyError when the URL has no `post_id`); an anonymous one
      to the login page. */
  function HandleNoPermission(viewer: Viewer, route: Route): (r: Response)
    ensures r.Redirect? <==> viewer.Anonymous? || route.postId.Some?
    ensures viewer.Anonymous? ==> r == Redirect(Login)
    ensures viewer.Member? && r.Redirect? ==> r.to == PostDetail(route.postId.value)
    ensures viewer.Member? && route.postId.None? ==> r == Http500
  {
    if viewer.Member? then
      if route.postId.Some? then Redirect(PostDetail(route.postId.value)) else Http500
    else
      Redirect(Login)
  }

  /** Access to the post views (PostMixin): test_func runs first, then the
      login check; either failure is answered by handle_no_permission. */
  function PostGate(viewer: Viewer, route: Route, db: Db): (g: Gate)
    ensures g == Proceed <==> viewer.Member? && TestFunc(viewer, route, db) == Found(true)
    ensures TestFunc(viewer, route, db).NotFound? ==> g == Halt(Http404)
    ensures TestFunc(viewer, route, db).Found? && g.Halt? ==> g.response == HandleNoPermission(viewer, route)
  {
    match TestFunc(viewer, route, db)
    case NotFound => Halt(Http404)
    case Found(ok) =>
      if ok && viewer.Member? then Proceed else Halt(HandleNoPermission(viewer, route))
  }

  /** Editing or deleting a post is allowed to its author alone; an
      authenticated non-author is sent to the post's page, an anonymous
      requester to the login page, and a missing post is a 404. */
  lemma PostGateOwnerOnly(viewer: Viewer, db: Db, p: Post)
    requires DistinctKeys(db.posts, PostId) && p in db.posts
    ensures PostGate(viewer, Route(Some(p.id), None), db) ==
            if IsUser(viewer, p.author) then Proceed
            else if viewer.Member? then Halt(Redirect(PostDetail(p.id)))
            else Halt(Redirect(Login))
  {
    TestFuncPostAuthor(viewer, Route(Some(p.id), None), db, p);
  }

  /** Access to the comment edit and delete views: CommentMixin puts the
      login check first; a failed test_func is then a PermissionDenied,
      the framework's answer to an authenticated requester. */
  function CommentGate(viewer: Viewer, route: Route, db: Db): (g: Gate)
    ensures viewer.Anonymous? ==> g == Halt(Redirect(Login))
    ensures viewer.Member? ==> (g == Proceed <==> TestFunc(viewer, route, db) == Found(true))
    ensures viewer.Member? && TestFunc(viewer, route, db).NotFound? ==> g == Halt(Http404)
    ensures viewer.Member? && TestFunc(viewer, route, db) == Found(false) ==> g == Halt(Http403)
  {
    if viewer.Anonymous? then Halt(Redirect(Login))
    else
      match TestFunc(viewer, route, db)
      case NotFound => Halt(Http404)
      case Found(ok) => if ok then Proceed else Halt(Http403)
  }

  /** CommentMixin.get_object: the comment is looked up by `comment_id`
      alone; the URL's `post_id` plays no part. */
  function CommentObject(db: Db, route: Route): (r: Lookup<Comment>)
    requires route.commentId.Some?
    ensures r.Found? ==> r.value in db.comments && r.value.id == route.commentId.value
    ensures r.NotFound? <==> forall c :: c in db.comments ==> c.id != route.commentId.value
  {
    GetComment(db.comments, route.commentId.value)
  }

  /** CommentMixin.get_success_url: the page of the URL's post. */
  function CommentSuccessUrl(route: Route): (t: Target)
    requires route.postId.Some?
    ensures t.PostDetail? && t.postId == route.postId.value
  {
    PostDetail(route.postId.value)
  }

  /** A comment of post 1 is found, and passes the author test, through a
      URL that names post 2; the success redirect then goes to post 2. */
  lemma CommentRouteNotScopedToPost()
    ensures var author := User(1, "alice", "", "", "");
            var c := Comment(7, "hi", 1, 1, 0);
            var db := Db([author], [], [], [Post(1, "t", "x", 0, 1, None, None, 0),
                                            Post(2, "u", "y", 0, 1, None, None, 0)], [c]);
            var route := Route(Some(2), Some(7));
            && CommentObject(db, route) == Found(c)
            && CommentGate(Member(author), route, db) == Proceed
            && CommentSuccessUrl(route) == PostDetail(2)
            && c.post != 2
  {
    var author := User(1, "alice", "", "", "");
    var c := Comment(7, "hi", 1, 1, 0);
    var db := Db([author], [], [], [Post(1, "t", "x", 0, 1, None, None, 0),
                                    Post(2, "u", "y", 0, 1, None, None, 0)], [c]);
    assert DistinctKeys(db.comments, CommentId);
    GetCommentFindsComment(db.comments, c);
  }
}
