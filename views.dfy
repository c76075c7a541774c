/** The request handlers: the three feeds, the post page with its comments,
    and the handlers that create, edit and delete posts, comments and
    profiles. Read-only handlers are functions of a snapshot; the others
    are methods over the store. */
module Views {
  import opened Collections
  import opened Models
  import opened Querysets
  import opened Mixins

  /** IndexListView as written: its queryset is a class attribute, built
      once when the module is imported, so the visibility filter compares
      with the import instant `loadedAt`; the request's `now` plays no part. */
  function IndexFeedAsWritten(db: Db, loadedAt: Time, now: Time): (r: seq<Row>)
    ensures forall row :: row in r <==> row in PostAnnotate(db) && Visible(row.post, db.categories, loadedAt)
    ensures NewestFirst(r)
  {
    PostFilterOrder(PostAnnotate(db), db.categories, loadedAt)
  }

  /** The home feed as intended: every post visible at the request's `now`,
      newest first. */
  function IndexFeed(db: Db, now: Time): (r: seq<Row>)
    ensures forall row :: row in r <==> row in PostAnnotate(db) && Visible(row.post, db.categories, now)
    ensures NewestFirst(r)
  {
    PostFilterOrder(PostAnnotate(db), db.categories, now)
  }

  /** A post scheduled after the process started never reaches the home feed
      as written, although it is visible at request time. */
  lemma IndexFeedFrozenAtImport()
    ensures var post := Post(1, "t", "x", 5, 1, None, Some(1), 0);
            var db := Db([User(1, "alice", "", "", "")], [Category(1, "c", "", "news", 0)], [], [post], []);
            && Row(post, 0) in IndexFeed(db, 10)
            && Row(post, 0) !in IndexFeedAsWritten(db, 0, 10)
  {
    var post := Post(1, "t", "x", 5, 1, None, Some(1), 0);
    var cat := Category(1, "c", "", "news", 0);
    var db := Db([User(1, "alice", "", "", "")], [cat], [], [post], []);
    assert CommentsOn(db.comments, 1) == [];
    assert cat in db.categories;
    assert Visible(post, db.categories, 10);
  }

  /** Both home feeds add and alter nothing: a row visible at the instant
      compared with occurs as often as among the annotated posts, any other
      row not at all. */
  lemma IndexFeedCounts(db: Db, loadedAt: Time, now: Time, row: Row)
    ensures multiset(IndexFeed(db, now))[row] ==
            if Visible(row.post, db.categories, now) then multiset(PostAnnotate(db))[row] else 0
    ensures multiset(IndexFeedAsWritten(db, loadedAt, now))[row] ==
            if Visible(row.post, db.categories, loadedAt) then multiset(PostAnnotate(db))[row] else 0
  {
    PostFilterOrderCounts(PostAnnotate(db), db.categories, now, row);
    PostFilterOrderCounts(PostAnnotate(db), db.categories, loadedAt, row);
  }

  function RowAuthorIs(author: Id): Row -> bool { (row: Row) => row.post.author == author }

  /** ProfileListView.get_queryset: the profile user's annotated posts; all
      of them for the user themself, only the visible ones for anyone else
      (whose `username` differs, the anonymous user's being empty). */
  function ProfileFeed(db: Db, viewer: Viewer, username: string, now: Time): (r: Lookup<seq<Row>>)
    ensures r.NotFound? <==> forall u :: u in db.users ==> u.username != username
    ensures r.Found? ==> NewestFirst(r.value)
    ensures r.Found? ==> forall row :: row in r.value ==>
              row in PostAnnotate(db) &&
              exists u :: u in db.users && u.username == username && row.post.author == u.id
  {
    match GetProfile(db.users, username)
    case NotFound => NotFound
    case Found(u) =>
      var own := Filter(PostAnnotate(db), RowAuthorIs(u.id));
      if username != ViewerName(viewer) then
        Found(PostFilterOrder(own, db.categories, now))
      else
        var r := SortBy(own, RowOrder);
        SortedIsNewestFirst(r);
        Found(r)
  }

  /** The owner of a profile sees every one of their posts. */
  lemma ProfileFeedOfOwner(db: Db, viewer: Viewer, u: User, now: Time)
    requires KeysUnique(db) && u in db.users && ViewerName(viewer) == u.username
    ensures ProfileFeed(db, viewer, u.username, now).Found?
    ensures forall row :: row in ProfileFeed(db, viewer, u.username, now).value <==>
              row in PostAnnotate(db) && row.post.author == u.id
  {
    GetProfileFindsUser(db.users, u);
  }

  /** Anyone else sees exactly the visible subset of them. */
  lemma ProfileFeedOfVisitor(db: Db, viewer: Viewer, u: User, now: Time)
    requires KeysUnique(db) && u in db.users && ViewerName(viewer) != u.username
    ensures ProfileFeed(db, viewer, u.username, now).Found?
    ensures forall row :: row in ProfileFeed(db, viewer, u.username, now).value <==>
              row in PostAnnotate(db) && row.post.author == u.id && Visible(row.post, db.categories, now)
  {
    GetProfileFindsUser(db.users, u);
  }

  /** The profile feed adds and alters nothing: each of the user's rows
      that the viewer may see occurs as often as among the annotated posts,
      every other row not at all. */
  lemma ProfileFeedCounts(db: Db, viewer: Viewer, u: User, now: Time, row: Row)
    requires KeysUnique(db) && u in db.users
    ensures ProfileFeed(db, viewer, u.username, now).Found?
    ensures multiset(ProfileFeed(db, viewer, u.username, now).value)[row] ==
            if row.post.author == u.id &&
               (ViewerName(viewer) == u.username || Visible(row.post, db.categories, now))
            then multiset(PostAnnotate(db))[row] else 0
  {
    GetProfileFindsUser(db.users, u);
    var own := Filter(PostAnnotate(db), RowAuthorIs(u.id));
    FilterCounts(PostAnnotate(db), RowAuthorIs(u.id), row);
    if ViewerName(viewer) != u.username {
      PostFilterOrderCounts(own, db.categories, now, row);
    }
  }

  function PublishedWithSlug(slug: string): Category -> bool {
    (c: Category) => c.isPublished && c.slug == slug
  }

  function RowCategoryIs(id: Id): Row -> bool { (row: Row) => row.post.category == Some(id) }

  /** CategoryListView.get_queryset: 404 unless a published category has the
      slug; then the visible posts of that category, newest first. */
  function CategoryFeed(db: Db, slug: string, now: Time): (r: Lookup<seq<Row>>)
    ensures r.NotFound? <==> forall c :: c in db.categories ==> !(c.isPublished && c.slug == slug)
    ensures r.Found? ==> NewestFirst(r.value)
    ensures r.Found? ==> forall row :: row in r.value ==>
              row in PostAnnotate(db) && Visible(row.post, db.categories, now) &&
              exists c :: c in db.categories && c.isPublished && c.slug == slug && row.post.category == Some(c.id)
  {
    match Find(db.categories, PublishedWithSlug(slug))
    case NotFound => NotFound
    case Found(c) =>
      var feed := PostFilterOrder(PostAnnotate(db), db.categories, now);
      NewestFirstIsSorted(feed);
      FilterKeepsSorted(feed, RowCategoryIs(c.id), RowOrder);
      var r := Filter(feed, RowCategoryIs(c.id));
      SortedIsNewestFirst(r);
      Found(r)
  }

  /** The feed of a published category holds exactly its visible posts. */
  lemma CategoryFeedOfPublished(db: Db, c: Category, now: Time)
    requires KeysUnique(db) && c in db.categories && c.isPublished
    ensures CategoryFeed(db, c.slug, now).Found?
    ensures forall row :: row in CategoryFeed(db, c.slug, now).value <==>
              row in PostAnnotate(db) && Visible(row.post, db.categories, now) && row.post.category == Some(c.id)
  {
    var found := Find(db.categories, PublishedWithSlug(c.slug));
    KeyDeterminesRow(db.categories, CategorySlug, found.value, c);
  }

  /** The category feed adds and alters nothing: each visible row of the
      category occurs as often as among the annotated posts, every other row
      not at all. */
  lemma CategoryFeedCounts(db: Db, c: Category, now: Time, row: Row)
    requires KeysUnique(db) && c in db.categories && c.isPublished
    ensures CategoryFeed(db, c.slug, now).Found?
    ensures multiset(CategoryFeed(db, c.slug, now).value)[row] ==
            if Visible(row.post, db.categories, now) && row.post.category == Some(c.id)
            then multiset(PostAnnotate(db))[row] else 0
  {
    var found := Find(db.categories, PublishedWithSlug(c.slug));
    KeyDeterminesRow(db.categories, CategorySlug, found.value, c);
    var feed := PostFilterOrder(PostAnnotate(db), db.categories, now);
    PostFilterOrderCounts(PostAnnotate(db), db.categories, now, row);
    FilterCounts(feed, RowCategoryIs(c.id), row);
  }

  function VisiblePostWithId(id: Id, categories: seq<Category>, now: Time): Post -> bool {
    (q: Post) => q.id == id && Visible(q, categories, now)
  }

  /** PostDetailView.get_object: the author gets their post whatever its
      state; anyone else gets it only when it is visible, else a 404. */
  function DetailObject(db: Db, viewer: Viewer, postId: Id, now: Time): (r: Lookup<Post>)
    ensures r.Found? ==> r.value in db.posts && r.value.id == postId
    ensures r.Found? ==> IsUser(viewer, r.value.author) || Visible(r.value, db.categories, now)
    ensures (forall p :: p in db.posts ==> p.id != postId) ==> r.NotFound?
  {
    match GetPostById(db.posts, postId)
    case NotFound => NotFound
    case Found(p) =>
      if IsUser(viewer, p.author) then Found(p)
      else Find(db.posts, VisiblePostWithId(postId, db.categories, now))
  }

  /** The post page's rule, for an existing post. */
  lemma PostDetailRule(db: Db, viewer: Viewer, p: Post, now: Time)
    requires DistinctKeys(db.posts, PostId) && p in db.posts
    ensures DetailObject(db, viewer, p.id, now) ==
            if IsUser(viewer, p.author) || Visible(p, db.categories, now) then Found(p) else NotFound
  {
    GetPostByIdFindsPost(db.posts, p);
    var second := Find(db.posts, VisiblePostWithId(p.id, db.categories, now));
    if second.Found? {
      KeyDeterminesRow(db.posts, PostId, second.value, p);
    }
  }

  /** What the post page renders: the post and its comments. */
  datatype DetailPage = DetailPage(post: Post, comments: seq<Comment>)

  /** PostDetailView with get_context_data: the page of an accessible post
      lists exactly that post's comments, oldest first. */
  function PostDetailPage(db: Db, viewer: Viewer, postId: Id, now: Time): (r: Lookup<DetailPage>)
    ensures r.Found? <==> DetailObject(db, viewer, postId, now).Found?
    ensures r.Found? ==> r.value.post == DetailObject(db, viewer, postId, now).value
    ensures r.Found? ==> forall c :: c in r.value.comments <==> c in db.comments && c.post == postId
    ensures r.Found? ==> SortedBy(r.value.comments, CommentOrder)
    ensures r.Found? ==> multiset(r.value.comments) == multiset(CommentsOn(db.comments, postId))
  {
    match DetailObject(db, viewer, postId, now)
    case NotFound => NotFound
    case Found(p) => Found(DetailPage(p, SortBy(CommentsOn(db.comments, p.id), CommentOrder)))
  }

  /** PostCreateView on a submitted form. PostMixin's test passes (no key in
      the URL), so only the login check can refuse; an invalid choice of
      category or location shows the form again; otherwise form_valid stamps
      the requester as author and the post is saved. */
  method PostCreate(store: Store, viewer: Viewer, f: PostFields, now: Time) returns (resp: Response)
    requires store.Valid() && KnownViewer(store.db, viewer)
    modifies store
    ensures store.Valid()
    ensures NoneBehind(old(store.Counters()), store.Counters())
    ensures viewer.Anonymous? ==> resp == Redirect(Login) && store.db == old(store.db)
    ensures viewer.Member? && !RefsResolve(old(store.db), f.location, f.category) ==>
              resp == Rendered && store.db == old(store.db)
    ensures viewer.Member? && RefsResolve(old(store.db), f.location, f.category) ==>
              && resp == Redirect(Profile(viewer.user.username))
              && exists p :: && store.db == old(store.db).(posts := old(store.db.posts) + [p])
                             && !HasPost(old(store.db), p.id)
                             && p == Edit(Post(p.id, "", "", 0, viewer.user.id, None, None, now), f)
  {
    var gate := PostGate(viewer, Route(None, None), store.db);
    if gate.Halt? {
      return gate.response;
    }
    if !RefsResolve(store.db, f.location, f.category) {
      return Rendered;
    }
    assert HasUser(store.db, viewer.user.id);
    var p := store.InsertPost(f, viewer.user.id, now);
    resp := Redirect(Profile(viewer.user.username));
  }

  /** PostUpdateView on a submitted form: only the author may save it. */
  method PostUpdate(store: Store, viewer: Viewer, postId: Id, f: PostFields) returns (resp: Response)
    requires store.Valid() && KnownViewer(store.db, viewer)
    modifies store
    ensures store.Valid()
    ensures NoneBehind(old(store.Counters()), store.Counters())
    ensures GetPostById(old(store.db.posts), postId).NotFound? ==> resp == Http404 && store.db == old(store.db)
    ensures GetPostById(old(store.db.posts), postId).Found? ==>
              var p := GetPostById(old(store.db.posts), postId).value;
              if !IsUser(viewer, p.author) then
                store.db == old(store.db) &&
                resp == Redirect(if viewer.Member? then PostDetail(postId) else Login)
              else if !RefsResolve(old(store.db), f.location, f.category) then
                store.db == old(store.db) && resp == Rendered
              else
                store.db == WithPostEdited(old(store.db), postId, f) && resp == Redirect(PostDetail(postId))
  {
    var found := GetPostById(store.db.posts, postId);
    if found.Found? {
      PostGateOwnerOnly(viewer, store.db, found.value);
    }
    var gate := PostGate(viewer, Route(Some(postId), None), store.db);
    if gate.Halt? {
      return gate.response;
    }
    if !RefsResolve(store.db, f.location, f.category) {
      return Rendered;
    }
    store.UpdatePost(postId, f);
    resp := Redirect(PostDetail(postId));
  }

  /** PostDeleteView: only the author may delete; the comments go with the
      post, and PostMixin's success URL (the author's profile) takes
      precedence over the view's own `success_url`. */
  method PostDelete(store: Store, viewer: Viewer, postId: Id) returns (resp: Response)
    requires store.Valid() && KnownViewer(store.db, viewer)
    modifies store
    ensures store.Valid()
    ensures NoneBehind(old(store.Counters()), store.Counters())
    ensures GetPostById(old(store.db.posts), postId).NotFound? ==> resp == Http404 && store.db == old(store.db)
    ensures GetPostById(old(store.db.posts), postId).Found? ==>
              var p := GetPostById(old(store.db.posts), postId).value;
              if !IsUser(viewer, p.author) then
                store.db == old(store.db) &&
                resp == Redirect(if viewer.Member? then PostDetail(postId) else Login)
              else
                store.db == WithoutPost(old(store.db), postId) && resp == Redirect(Profile(viewer.user.username))
  {
    var found := GetPostById(store.db.posts, postId);
    if found.Found? {
      PostGateOwnerOnly(viewer, store.db, found.value);
    }
    var gate := PostGate(viewer, Route(Some(postId), None), store.db);
    if gate.Halt? {
      return gate.response;
    }
    resp := Redirect(Profile(viewer.user.username));
    store.DeletePost(postId);
  }

  /** CommentCreateView on a submitted form: login required; form_valid
      stamps the requester as author and the URL's post as post (404 when
      that post does not exist), and the comment is saved. */
  method CommentCreate(store: Store, viewer: Viewer, postId: Id, text: string, now: Time)
    returns (resp: Response)
    requires store.Valid() && KnownViewer(store.db, viewer)
    modifies store
    ensures store.Valid()
    ensures NoneBehind(old(store.Counters()), store.Counters())
    ensures viewer.Anonymous? ==> resp == Redirect(Login) && store.db == old(store.db)
    ensures viewer.Member? && !HasPost(old(store.db), postId) ==> resp == Http404 && store.db == old(store.db)
    ensures viewer.Member? && HasPost(old(store.db), postId) ==>
              && resp == Redirect(PostDetail(postId))
              && exists c :: && store.db == old(store.db).(comments := old(store.db.comments) + [c])
                             && c.id !in (set d | d in old(store.db.comments) :: d.id)
                             && c == Comment(c.id, text, postId, viewer.user.id, now)
  {
    if viewer.Anonymous? {
      return Redirect(Login);
    }
    var post := GetPostById(store.db.posts, postId);
    if post.NotFound? {
      return Http404;
    }
    assert HasUser(store.db, viewer.user.id);
    var c := store.InsertComment(text, postId, viewer.user.id, now);
    resp := Redirect(CommentSuccessUrl(Route(Some(postId), Some(c.id))));
  }

  /** CommentUpdateView on a submitted form: login first, then the author
      test on the comment found by `comment_id` alone. */
  method CommentUpdate(store: Store, viewer: Viewer, postId: Id, commentId: Id, text: string)
    returns (resp: Response)
    requires store.Valid() && KnownViewer(store.db, viewer)
    modifies store
    ensures store.Valid()
    ensures NoneBehind(old(store.Counters()), store.Counters())
    ensures viewer.Anonymous? ==> resp == Redirect(Login) && store.db == old(store.db)
    ensures viewer.Member? && GetComment(old(store.db.comments), commentId).NotFound? ==>
              resp == Http404 && store.db == old(store.db)
    ensures viewer.Member? && GetComment(old(store.db.comments), commentId).Found? ==>
              var c := GetComment(old(store.db.comments), commentId).value;
              if !IsUser(viewer, c.author) then resp == Http403 && store.db == old(store.db)
              else store.db == WithCommentText(old(store.db), commentId, text) &&
                   resp == Redirect(PostDetail(postId))
  {
    var route := Route(Some(postId), Some(commentId));
    var found := GetComment(store.db.comments, commentId);
    if found.Found? {
      TestFuncCommentAuthor(viewer, route, store.db, found.value);
    }
    var gate := CommentGate(viewer, route, store.db);
    if gate.Halt? {
      return gate.response;
    }
    var c := CommentObject(store.db, route);
    store.UpdateComment(c.value.id, text);
    resp := Redirect(CommentSuccessUrl(route));
  }

  /** CommentDeleteView: login first, then the author test on the comment
      found by `comment_id` alone. */
  method CommentDelete(store: Store, viewer: Viewer, postId: Id, commentId: Id) returns (resp: Response)
    requires store.Valid() && KnownViewer(store.db, viewer)
    modifies store
    ensures store.Valid()
    ensures NoneBehind(old(store.Counters()), store.Counters())
    ensures viewer.Anonymous? ==> resp == Redirect(Login) && store.db == old(store.db)
    ensures viewer.Member? && GetComment(old(store.db.comments), commentId).NotFound? ==>
              resp == Http404 && store.db == old(store.db)
    ensures viewer.Member? && GetComment(old(store.db.comments), commentId).Found? ==>
              var c := GetComment(old(store.db.comments), commentId).value;
              if !IsUser(viewer, c.author) then resp == Http403 && store.db == old(store.db)
              else store.db == WithoutComment(old(store.db), commentId) &&
                   resp == Redirect(PostDetail(postId))
  {
    var route := Route(Some(postId), Some(commentId));
    var found := GetComment(store.db.comments, commentId);
    if found.Found? {
      TestFuncCommentAuthor(viewer, route, store.db, found.value);
    }
    var gate := CommentGate(viewer, route, store.db);
    if gate.Halt? {
      return gate.response;
    }
    var c := CommentObject(store.db, route);
    store.DeleteComment(c.value.id);
    resp := Redirect(CommentSuccessUrl(route));
  }

  /** ProfileUpdateView on a submitted form: login required, and the object
      edited is always the requester's own record. */
  method ProfileUpdate(store: Store, viewer: Viewer, f: ProfileFields) returns (resp: Response)
    requires store.Valid() && KnownViewer(store.db, viewer)
    modifies store
    ensures store.Valid()
    ensures NoneBehind(old(store.Counters()), store.Counters())
    ensures viewer.Anonymous? ==> resp == Redirect(Login) && store.db == old(store.db)
    ensures viewer.Member? ==>
              var free := forall u :: u in old(store.db.users) && u.username == f.username ==> u.id == viewer.user.id;
              if free then store.db == WithProfile(old(store.db), viewer.user.id, f) &&
                           resp == Redirect(Profile(f.username))
              else store.db == old(store.db) && resp == Rendered
  {
    if viewer.Anonymous? {
      return Redirect(Login);
    }
    var ok := store.UpdateUser(viewer.user.id, f);
    resp := if ok then Redirect(Profile(f.username)) else Rendered;
  }

  /** UserCreateView on a submitted form. The stock user creation form
      carries the username (and the password) only, so the new row's email
      and names are empty; a taken username shows the form again; otherwise
      the home page follows. */
  method Register(store: Store, username: string) returns (resp: Response)
    requires store.Valid()
    modifies store
    ensures store.Valid()
    ensures NoneBehind(old(store.Counters()), store.Counters())
    ensures (exists u :: u in old(store.db.users) && u.username == username) ==>
              resp == Rendered && store.db == old(store.db)
    ensures (forall u :: u in old(store.db.users) ==> u.username != username) ==>
              && resp == Redirect(Index)
              && exists u :: && store.db == old(store.db).(users := old(store.db.users) + [u])
                             && !HasUser(old(store.db), u.id)
                             && u == User(u.id, username, "", "", "")
  {
    var u := store.AddUser(ProfileFields(username, "", "", ""));
    resp := if u.Some? then Redirect(Index) else Rendered;
  }
}
