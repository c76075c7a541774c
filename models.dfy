/** The blog schema: users, categories, locations, posts and comments, the
    referential rules between them, and the store whose rows are inserted,
    edited and deleted in place (with the CASCADE and SET_NULL rules of the
    foreign keys). */
module Models {
  import opened Collections

  /** Primary keys of every table (auto-increment: the store's counters
      only grow, so a key is never handed out twice). */
  type Id = nat
  /** An instant, in seconds. */
  type Time = int

  /** The authentication system's user record. */
  datatype User = User(id: Id, username: string, email: string, firstName: string, lastName: string)

  /** `is_published` defaults to true for categories, locations and posts. */
  datatype Category = Category(id: Id, title: string, description: string, slug: string,
                               createdAt: Time, isPublished: bool := true)

  datatype Location = Location(id: Id, name: string, createdAt: Time, isPublished: bool := true)

  /** `author` is mandatory; `location` and `category` are nullable foreign keys. */
  datatype Post = Post(id: Id, title: string, text: string, pubDate: Time, author: Id,
                       location: Option<Id>, category: Option<Id>, createdAt: Time,
                       isPublished: bool := true)

  datatype Comment = Comment(id: Id, text: string, post: Id, author: Id, createdAt: Time)

  /** The editable fields of a post, as a submitted post form carries them. */
  datatype PostFields = PostFields(title: string, text: string, pubDate: Time,
                                   location: Option<Id>, category: Option<Id>,
                                   isPublished: bool := true)

  /** The editable fields of a user's profile. */
  datatype ProfileFields = ProfileFields(username: string, email: string, firstName: string, lastName: string)

  /** A snapshot of the five tables. */
  datatype Db = Db(users: seq<User>, categories: seq<Category>, locations: seq<Location>,
                   posts: seq<Post>, comments: seq<Comment>)

  function UserId(u: User): Id { u.id }
  function UserName(u: User): string { u.username }
  function CategoryId(c: Category): Id { c.id }
  function CategorySlug(c: Category): string { c.slug }
  function LocationId(l: Location): Id { l.id }
  function PostId(p: Post): Id { p.id }
  function CommentId(c: Comment): Id { c.id }

  /** Post.Meta.ordering = ('-pub_date',): ascending in this key is newest first. */
  function PostOrder(p: Post): int { -p.pubDate }
  /** CreatedAtModel.Meta.ordering = ('created_at',), which Comment.Meta inherits. */
  function CommentOrder(c: Comment): int { c.createdAt }

  predicate HasUser(db: Db, id: Id) { exists u :: u in db.users && u.id == id }
  predicate HasCategory(db: Db, id: Id) { exists c :: c in db.categories && c.id == id }
  predicate HasLocation(db: Db, id: Id) { exists l :: l in db.locations && l.id == id }
  predicate HasPost(db: Db, id: Id) { exists p :: p in db.posts && p.id == id }

  /** A non-null foreign key names an existing row. */
  predicate RefsResolve(db: Db, location: Option<Id>, category: Option<Id>) {
    (location.Some? ==> HasLocation(db, location.value)) &&
    (category.Some? ==> HasCategory(db, category.value))
  }

  /** Primary keys, `slug` and `username` are unique. */
  ghost predicate KeysUnique(db: Db) {
    && DistinctKeys(db.users, UserId) && DistinctKeys(db.users, UserName)
    && DistinctKeys(db.categories, CategoryId) && DistinctKeys(db.categories, CategorySlug)
    && DistinctKeys(db.locations, LocationId)
    && DistinctKeys(db.posts, PostId)
    && DistinctKeys(db.comments, CommentId)
  }

  /** Every post's author exists, and so do its location and category when set. */
  ghost predicate PostRefsResolve(db: Db) {
    forall p :: p in db.posts ==> HasUser(db, p.author) && RefsResolve(db, p.location, p.category)
  }

  /** Every comment's post and author exist. */
  ghost predicate CommentRefsResolve(db: Db) {
    forall c :: c in db.comments ==> HasPost(db, c.post) && HasUser(db, c.author)
  }

  /** The database's own integrity: unique keys, no dangling foreign key. */
  ghost predicate Consistent(db: Db) {
    KeysUnique(db) && PostRefsResolve(db) && CommentRefsResolve(db)
  }

  /** Applies an edit form to a post: the key, the author and the creation
      time are not editable. */
  function Edit(p: Post, f: PostFields): (r: Post)
    ensures r.id == p.id && r.author == p.author && r.createdAt == p.createdAt
    ensures r.title == f.title && r.text == f.text && r.pubDate == f.pubDate
    ensures r.location == f.location && r.category == f.category && r.isPublished == f.isPublished
  {
    p.(title := f.title, text := f.text, pubDate := f.pubDate, location := f.location,
       category := f.category, isPublished := f.isPublished)
  }

  /** Python's `s[:limit]`: the longest prefix of `s` no longer than `limit`. */
  function Truncated(s: string, limit: nat): (r: string)
    ensures r <= s && |r| <= limit
    ensures |r| < limit ==> r == s
  {
    if |s| <= limit then s else s[..limit]
  }

  /** Category.__str__: the title cut to SHORT_TITLE_LEN characters. */
  function CategoryStr(c: Category, shortTitleLen: nat): (r: string)
    ensures r <= c.title && |r| <= shortTitleLen
    ensures |r| < shortTitleLen ==> r == c.title
  {
    Truncated(c.title, shortTitleLen)
  }

  /** Location.__str__: the name cut to SHORT_TITLE_LEN characters. */
  function LocationStr(l: Location, shortTitleLen: nat): (r: string)
    ensures r <= l.name && |r| <= shortTitleLen
    ensures |r| < shortTitleLen ==> r == l.name
  {
    Truncated(l.name, shortTitleLen)
  }

  /** Post.__str__: the title cut to SHORT_TITLE_LEN characters. */
  function PostStr(p: Post, shortTitleLen: nat): (r: string)
    ensures r <= p.title && |r| <= shortTitleLen
    ensures |r| < shortTitleLen ==> r == p.title
  {
    Truncated(p.title, shortTitleLen)
  }

  // ---------------------------------------------------------------------
  // Row-level transitions of the database, and their integrity lemmas.
  // ---------------------------------------------------------------------

  function PostIdIsNot(id: Id): Post -> bool { (p: Post) => p.id != id }
  function CommentIdIsNot(id: Id): Comment -> bool { (c: Comment) => c.id != id }
  function CommentPostIsNot(id: Id): Comment -> bool { (c: Comment) => c.post != id }
  function UserIdIsNot(id: Id): User -> bool { (u: User) => u.id != id }
  function AuthorIsNot(id: Id): Post -> bool { (p: Post) => p.author != id }
  function CategoryIdIsNot(id: Id): Category -> bool { (c: Category) => c.id != id }
  function LocationIdIsNot(id: Id): Location -> bool { (l: Location) => l.id != id }

  /** Keys of the posts written by `author`. */
  function PostsBy(posts: seq<Post>, author: Id): (r: set<Id>)
    ensures forall id :: id in r <==> exists p :: p in posts && p.author == author && p.id == id
  {
    set p | p in posts && p.author == author :: p.id
  }

  /** A comment that survives the deletion of user `id`: neither written by
      that user nor attached to one of that user's posts. */
  function SurvivesUser(posts: seq<Post>, id: Id): Comment -> bool {
    var gone := PostsBy(posts, id);
    (c: Comment) => c.author != id && c.post !in gone
  }

  /** The rows left after deleting post `id`. Comment.post is CASCADE. */
  function WithoutPost(db: Db, id: Id): (r: Db)
    ensures r.users == db.users && r.categories == db.categories && r.locations == db.locations
    ensures forall p :: p in r.posts <==> p in db.posts && p.id != id
    ensures forall c :: c in r.comments <==> c in db.comments && c.post != id
  {
    db.(posts := Filter(db.posts, PostIdIsNot(id)),
        comments := Filter(db.comments, CommentPostIsNot(id)))
  }

  /** The rows left after deleting comment `id`. */
  function WithoutComment(db: Db, id: Id): (r: Db)
    ensures r == db.(comments := r.comments)
    ensures forall c :: c in r.comments <==> c in db.comments && c.id != id
  {
    db.(comments := Filter(db.comments, CommentIdIsNot(id)))
  }

  /** The rows left after deleting user `id`. Post.author and Comment.author
      are CASCADE, and so is Comment.post for the posts removed with the user. */
  function WithoutUser(db: Db, id: Id): (r: Db)
    ensures r.categories == db.categories && r.locations == db.locations
    ensures forall u :: u in r.users <==> u in db.users && u.id != id
    ensures forall p :: p in r.posts <==> p in db.posts && p.author != id
    ensures forall c :: c in r.comments <==>
              c in db.comments && c.author != id &&
              forall p :: p in db.posts && p.id == c.post ==> p.author != id
  {
    db.(users := Filter(db.users, UserIdIsNot(id)),
        posts := Filter(db.posts, AuthorIsNot(id)),
        comments := Filter(db.comments, SurvivesUser(db.posts, id)))
  }

  /** The rows after deleting category `id`. Post.category is SET_NULL. */
  function WithoutCategory(db: Db, id: Id): (r: Db)
    ensures r.users == db.users && r.locations == db.locations && r.comments == db.comments
    ensures forall c :: c in r.categories <==> c in db.categories && c.id != id
    ensures |r.posts| == |db.posts|
    ensures forall i :: 0 <= i < |r.posts| ==>
              r.posts[i] == if db.posts[i].category == Some(id)
                            then db.posts[i].(category := None) else db.posts[i]
  {
    var posts := db.posts;
    db.(categories := Filter(db.categories, CategoryIdIsNot(id)),
        posts := seq(|posts|, i requires 0 <= i < |posts| =>
                       if posts[i].category == Some(id) then posts[i].(category := None) else posts[i]))
  }

  /** The rows after deleting location `id`. Post.location is SET_NULL. */
  function WithoutLocation(db: Db, id: Id): (r: Db)
    ensures r.users == db.users && r.categories == db.categories && r.comments == db.comments
    ensures forall l :: l in r.locations <==> l in db.locations && l.id != id
    ensures |r.posts| == |db.posts|
    ensures forall i :: 0 <= i < |r.posts| ==>
              r.posts[i] == if db.posts[i].location == Some(id)
                            then db.posts[i].(location := None) else db.posts[i]
  {
    var posts := db.posts;
    db.(locations := Filter(db.locations, LocationIdIsNot(id)),
        posts := seq(|posts|, i requires 0 <= i < |posts| =>
                       if posts[i].location == Some(id) then posts[i].(location := None) else posts[i]))
  }

  /** The rows after saving an edit form over post `id`: only that post
      changes, and it keeps its key, author and creation time. */
  function WithPostEdited(db: Db, id: Id, f: PostFields): (r: Db)
    ensures r == db.(posts := r.posts) && |r.posts| == |db.posts|
    ensures forall i :: 0 <= i < |r.posts| ==>
              r.posts[i] == if db.posts[i].id == id then Edit(db.posts[i], f) else db.posts[i]
  {
    var posts := db.posts;
    db.(posts := seq(|posts|, i requires 0 <= i < |posts| =>
                       if posts[i].id == id then Edit(posts[i], f) else posts[i]))
  }

  /** The rows after saving a comment form over comment `id`. */
  function WithCommentText(db: Db, id: Id, text: string): (r: Db)
    ensures r == db.(comments := r.comments) && |r.comments| == |db.comments|
    ensures forall i :: 0 <= i < |r.comments| ==>
              r.comments[i] == if db.comments[i].id == id
                               then db.comments[i].(text := text) else db.comments[i]
  {
    var comments := db.comments;
    db.(comments := seq(|comments|, i requires 0 <= i < |comments| =>
                          if comments[i].id == id then comments[i].(text := text) else comments[i]))
  }

  /** The rows after saving a profile form over user `id`. */
  function WithProfile(db: Db, id: Id, f: ProfileFields): (r: Db)
    ensures r == db.(users := r.users) && |r.users| == |db.users|
    ensures forall i :: 0 <= i < |r.users| ==>
              r.users[i] == if db.users[i].id == id
                            then User(id, f.username, f.email, f.firstName, f.lastName) else db.users[i]
  {
    var users := db.users;
    db.(users := seq(|users|, i requires 0 <= i < |users| =>
                       if users[i].id == id then User(id, f.username, f.email, f.firstName, f.lastName)
                       else users[i]))
  }

  /** `slug` is unique: in a consistent database the slug names one category. */
  lemma SlugDeterminesCategory(db: Db, c: Category, d: Category)
    requires Consistent(db) && c in db.categories && d in db.categories && c.slug == d.slug
    ensures c == d
  {
    KeyDeterminesRow(db.categories, CategorySlug, c, d);
  }

  /** A category, location or post created without an explicit flag is published. */
  lemma PublishedByDefault(id: Id, title: string, slug: string, now: Time, author: Id)
    ensures Category(id, title, "", slug, now).isPublished
    ensures Location(id, title, now).isPublished
    ensures Post(id, title, "", now, author, None, None, now).isPublished
    ensures PostFields(title, "", now, None, None).isPublished
  {
  }

  /** Deleting post `id` removes exactly its comments, every copy of them,
      and leaves every other comment as often as before. */
  lemma WithoutPostCounts(db: Db, id: Id, c: Comment)
    ensures multiset(WithoutPost(db, id).comments)[c] == if c.post == id then 0 else multiset(db.comments)[c]
  {
    FilterCounts(db.comments, CommentPostIsNot(id), c);
  }

  /** Deleting user `id` removes exactly the comments they wrote and the
      comments on the posts they wrote; every other comment stays. */
  lemma WithoutUserCounts(db: Db, id: Id, c: Comment)
    ensures multiset(WithoutUser(db, id).comments)[c] ==
            if c.author == id || exists p :: p in db.posts && p.id == c.post && p.author == id
            then 0 else multiset(db.comments)[c]
  {
    FilterCounts(db.comments, SurvivesUser(db.posts, id), c);
  }

  /** Deleting a post leaves no dangling foreign key. */
  lemma WithoutPostConsistent(db: Db, id: Id)
    requires Consistent(db)
    ensures Consistent(WithoutPost(db, id))
  {
    var r := WithoutPost(db, id);
    FilterKeepsDistinct(db.posts, PostIdIsNot(id), PostId);
    FilterKeepsDistinct(db.comments, CommentPostIsNot(id), CommentId);
    assert KeysUnique(r);
    forall p | p in r.posts ensures HasUser(r, p.author) && RefsResolve(r, p.location, p.category) {
      assert p in db.posts;
    }
    forall c | c in r.comments ensures HasPost(r, c.post) && HasUser(r, c.author) {
      assert c in db.comments;
      var p :| p in db.posts && p.id == c.post;
      assert p in r.posts;
    }
  }

  lemma WithoutCommentConsistent(db: Db, id: Id)
    requires Consistent(db)
    ensures Consistent(WithoutComment(db, id))
  {
    var r := WithoutComment(db, id);
    FilterKeepsDistinct(db.comments, CommentIdIsNot(id), CommentId);
    assert KeysUnique(r);
    assert PostRefsResolve(r);
    forall c | c in r.comments ensures HasPost(r, c.post) && HasUser(r, c.author) {
      assert c in db.comments;
    }
  }

  /** Deleting a user, with its cascades, leaves no dangling foreign key. */
  lemma WithoutUserConsistent(db: Db, id: Id)
    requires Consistent(db)
    ensures Consistent(WithoutUser(db, id))
  {
    var r := WithoutUser(db, id);
    FilterKeepsDistinct(db.users, UserIdIsNot(id), UserId);
    FilterKeepsDistinct(db.users, UserIdIsNot(id), UserName);
    FilterKeepsDistinct(db.posts, AuthorIsNot(id), PostId);
    FilterKeepsDistinct(db.comments, SurvivesUser(db.posts, id), CommentId);
    assert KeysUnique(r);
    forall p | p in r.posts ensures HasUser(r, p.author) && RefsResolve(r, p.location, p.category) {
      assert p in db.posts;
      var u :| u in db.users && u.id == p.author;
      assert u in r.users;
    }
    forall c | c in r.comments ensures HasPost(r, c.post) && HasUser(r, c.author) {
      assert c in db.comments;
      var p :| p in db.posts && p.id == c.post;
      assert p in r.posts;
      var u :| u in db.users && u.id == c.author;
      assert u in r.users;
    }
  }

  /** Nulling a category leaves no dangling foreign key. */
  lemma WithoutCategoryConsistent(db: Db, id: Id)
    requires Consistent(db)
    ensures Consistent(WithoutCategory(db, id))
  {
    var r := WithoutCategory(db, id);
    FilterKeepsDistinct(db.categories, CategoryIdIsNot(id), CategoryId);
    FilterKeepsDistinct(db.categories, CategoryIdIsNot(id), CategorySlug);
    assert DistinctKeys(r.posts, PostId) by {
      assert forall i :: 0 <= i < |r.posts| ==> r.posts[i].id == db.posts[i].id;
    }
    assert KeysUnique(r);
    WithoutCategoryPostRefs(db, id);
    forall c | c in r.comments ensures HasPost(r, c.post) && HasUser(r, c.author) {
      var p :| p in db.posts && p.id == c.post;
      var i :| 0 <= i < |db.posts| && db.posts[i] == p;
      assert r.posts[i] in r.posts;
    }
  }

  lemma WithoutCategoryPostRefs(db: Db, id: Id)
    requires PostRefsResolve(db)
    ensures PostRefsResolve(WithoutCategory(db, id))
  {
    var r := WithoutCategory(db, id);
    forall p | p in r.posts ensures HasUser(r, p.author) && RefsResolve(r, p.location, p.category) {
      var i :| 0 <= i < |r.posts| && r.posts[i] == p;
      var q := db.posts[i];
      assert q in db.posts;
      assert HasUser(db, q.author) && RefsResolve(db, q.location, q.category);
      if p.category.Some? {
        assert q.category == p.category;
        var c :| c in db.categories && c.id == p.category.value;
        assert c in r.categories;
      }
    }
  }

  /** Nulling a location leaves no dangling foreign key. */
  lemma WithoutLocationConsistent(db: Db, id: Id)
    requires Consistent(db)
    ensures Consistent(WithoutLocation(db, id))
  {
    var r := WithoutLocation(db, id);
    FilterKeepsDistinct(db.locations, LocationIdIsNot(id), LocationId);
    assert DistinctKeys(r.posts, PostId) by {
      assert forall i :: 0 <= i < |r.posts| ==> r.posts[i].id == db.posts[i].id;
    }
    assert KeysUnique(r);
    forall p | p in r.posts ensures HasUser(r, p.author) && RefsResolve(r, p.location, p.category) {
      var i :| 0 <= i < |r.posts| && r.posts[i] == p;
      assert db.posts[i] in db.posts;
      if p.location.Some? {
        var l :| l in db.locations && l.id == p.location.value;
        assert l in r.locations;
      }
    }
    forall c | c in r.comments ensures HasPost(r, c.post) && HasUser(r, c.author) {
      var p :| p in db.posts && p.id == c.post;
      var i :| 0 <= i < |db.posts| && db.posts[i] == p;
      assert r.posts[i] in r.posts;
    }
  }

  lemma WithPostEditedConsistent(db: Db, id: Id, f: PostFields)
    requires Consistent(db) && RefsResolve(db, f.location, f.category)
    ensures Consistent(WithPostEdited(db, id, f))
  {
    var r := WithPostEdited(db, id, f);
    assert DistinctKeys(r.posts, PostId) by {
      assert forall i :: 0 <= i < |r.posts| ==> r.posts[i].id == db.posts[i].id;
    }
    assert KeysUnique(r);
    forall p | p in r.posts ensures HasUser(r, p.author) && RefsResolve(r, p.location, p.category) {
      var i :| 0 <= i < |r.posts| && r.posts[i] == p;
      assert db.posts[i] in db.posts;
    }
    forall c | c in r.comments ensures HasPost(r, c.post) && HasUser(r, c.author) {
      var p :| p in db.posts && p.id == c.post;
      var i :| 0 <= i < |db.posts| && db.posts[i] == p;
      assert r.posts[i] in r.posts;
    }
  }

  lemma WithCommentTextConsistent(db: Db, id: Id, text: string)
    requires Consistent(db)
    ensures Consistent(WithCommentText(db, id, text))
  {
    var r := WithCommentText(db, id, text);
    assert DistinctKeys(r.comments, CommentId) by {
      assert forall i :: 0 <= i < |r.comments| ==> r.comments[i].id == db.comments[i].id;
    }
    assert KeysUnique(r);
    forall c | c in r.comments ensures HasPost(r, c.post) && HasUser(r, c.author) {
      var i :| 0 <= i < |r.comments| && r.comments[i] == c;
      assert db.comments[i] in db.comments;
    }
  }

  /** Renaming a user keeps usernames unique when no other user holds the new one. */
  lemma WithProfileConsistent(db: Db, id: Id, f: ProfileFields)
    requires Consistent(db)
    requires forall u :: u in db.users && u.username == f.username ==> u.id == id
    ensures Consistent(WithProfile(db, id, f))
  {
    var r := WithProfile(db, id, f);
    assert DistinctKeys(r.users, UserId) by {
      assert forall i :: 0 <= i < |r.users| ==> r.users[i].id == db.users[i].id;
    }
    forall i, j | 0 <= i < j < |r.users| ensures r.users[i].username != r.users[j].username {
      assert db.users[i] in db.users && db.users[j] in db.users;
      assert db.users[i].id != db.users[j].id;
    }
    assert KeysUnique(r);
    forall p | p in r.posts ensures HasUser(r, p.author) {
      var u :| u in db.users && u.id == p.author;
      var i :| 0 <= i < |db.users| && db.users[i] == u;
      assert r.users[i] in r.users;
    }
    forall c | c in r.comments ensures HasUser(r, c.author) {
      var u :| u in db.users && u.id == c.author;
      var i :| 0 <= i < |db.users| && db.users[i] == u;
      assert r.users[i] in r.users;
    }
  }

  /** The next auto-increment key of each table. */
  datatype Keys = Keys(users: Id, categories: Id, locations: Id, posts: Id, comments: Id)

  /** No counter of `after` is behind the same counter of `before`. */
  predicate NoneBehind(before: Keys, after: Keys) {
    && before.users <= after.users && before.categories <= after.categories
    && before.locations <= after.locations && before.posts <= after.posts
    && before.comments <= after.comments
  }

  /** The database: five tables and their auto-increment counters. */
  class Store {
    var db: Db
    var nextUserId: Id
    var nextCategoryId: Id
    var nextLocationId: Id
    var nextPostId: Id
    var nextCommentId: Id

    /** Every key handed out so far is below its table's counter. */
    ghost predicate CountersAhead()
      reads this
    {
      && (forall u :: u in db.users ==> u.id < nextUserId)
      && (forall c :: c in db.categories ==> c.id < nextCategoryId)
      && (forall l :: l in db.locations ==> l.id < nextLocationId)
      && (forall p :: p in db.posts ==> p.id < nextPostId)
      && (forall c :: c in db.comments ==> c.id < nextCommentId)
    }

    ghost predicate Valid()
      reads this
    {
      Consistent(db) && CountersAhead()
    }

    /** The next key of each table. */
    function Counters(): Keys
      reads this
    {
      Keys(nextUserId, nextCategoryId, nextLocationId, nextPostId, nextCommentId)
    }

    constructor ()
      ensures Valid() && db == Db([], [], [], [], [])
      ensures Counters() == Keys(1, 1, 1, 1, 1)
    {
      db := Db([], [], [], [], []);
      nextUserId, nextCategoryId, nextLocationId, nextPostId, nextCommentId := 1, 1, 1, 1, 1;
    }

    /** Registers a user; refused when the username is taken. */
    method AddUser(f: ProfileFields) returns (r: Option<User>)
      requires Valid()
      modifies this
      ensures Valid()
      ensures r.None? ==> Counters() == old(Counters())
      ensures r.Some? ==> r.value.id == old(nextUserId) && Counters() == old(Counters()).(users := old(nextUserId) + 1)
      ensures r.None? <==> exists u :: u in old(db.users) && u.username == f.username
      ensures r.None? ==> db == old(db)
      ensures r.Some? ==> !HasUser(old(db), r.value.id)
      ensures r.Some? ==> r.value == User(r.value.id, f.username, f.email, f.firstName, f.lastName)
      ensures r.Some? ==> db == old(db).(users := old(db.users) + [r.value])
    {
      if exists u :: u in db.users && u.username == f.username {
        return None;
      }
      var u := User(nextUserId, f.username, f.email, f.firstName, f.lastName);
      var before := db;
      db := db.(users := db.users + [u]);
      nextUserId := nextUserId + 1;
      assert KeysUnique(db);
      forall p | p in db.posts ensures HasUser(db, p.author) {
        var v :| v in before.users && v.id == p.author;
        assert v in db.users;
      }
      forall c | c in db.comments ensures HasUser(db, c.author) {
        var v :| v in before.users && v.id == c.author;
        assert v in db.users;
      }
      r := Some(u);
    }

    /** Adds a category; refused when the slug is taken (`unique=True`). */
    method AddCategory(title: string, description: string, slug: string, now: Time,
                       isPublished: bool := true)
      returns (r: Option<Category>)
      requires Valid()
      modifies this
      ensures Valid()
      ensures r.None? ==> Counters() == old(Counters())
      ensures r.Some? ==> r.value.id == old(nextCategoryId) && Counters() == old(Counters()).(categories := old(nextCategoryId) + 1)
      ensures r.None? <==> exists c :: c in old(db.categories) && c.slug == slug
      ensures r.None? ==> db == old(db)
      ensures r.Some? ==> !HasCategory(old(db), r.value.id)
      ensures r.Some? ==> r.value == Category(r.value.id, title, description, slug, now, isPublished)
      ensures r.Some? ==> db == old(db).(categories := old(db.categories) + [r.value])
    {
      if exists c :: c in db.categories && c.slug == slug {
        return None;
      }
      var c := Category(nextCategoryId, title, description, slug, now, isPublished);
      var before := db;
      db := db.(categories := db.categories + [c]);
      nextCategoryId := nextCategoryId + 1;
      assert KeysUnique(db);
      forall p | p in db.posts ensures RefsResolve(db, p.location, p.category) {
        if p.category.Some? {
          var d :| d in before.categories && d.id == p.category.value;
          assert d in db.categories;
        }
      }
      r := Some(c);
    }

    method AddLocation(name: string, now: Time, isPublished: bool := true) returns (l: Location)
      requires Valid()
      modifies this
      ensures Valid()
      ensures l.id == old(nextLocationId) && Counters() == old(Counters()).(locations := old(nextLocationId) + 1)
      ensures !HasLocation(old(db), l.id)
      ensures l == Location(l.id, name, now, isPublished)
      ensures db == old(db).(locations := old(db.locations) + [l])
    {
      l := Location(nextLocationId, name, now, isPublished);
      var before := db;
      db := db.(locations := db.locations + [l]);
      nextLocationId := nextLocationId + 1;
      assert KeysUnique(db);
      forall p | p in db.posts ensures RefsResolve(db, p.location, p.category) {
        if p.location.Some? {
          var d :| d in before.locations && d.id == p.location.value;
          assert d in db.locations;
        }
      }
    }

    /** Saves a new post by `author`, created at `now`. */
    method InsertPost(f: PostFields, author: Id, now: Time) returns (p: Post)
      requires Valid() && HasUser(db, author) && RefsResolve(db, f.location, f.category)
      modifies this
      ensures Valid()
      ensures p.id == old(nextPostId) && Counters() == old(Counters()).(posts := old(nextPostId) + 1)
      ensures !HasPost(old(db), p.id)
      ensures p == Edit(Post(p.id, "", "", 0, author, None, None, now), f)
      ensures db == old(db).(posts := old(db.posts) + [p])
    {
      p := Post(nextPostId, f.title, f.text, f.pubDate, author, f.location, f.category, now, f.isPublished);
      var before := db;
      db := db.(posts := db.posts + [p]);
      nextPostId := nextPostId + 1;
      assert KeysUnique(db);
      forall c | c in db.comments ensures HasPost(db, c.post) {
        var q :| q in before.posts && q.id == c.post;
        assert q in db.posts;
      }
    }

    /** Saves a new comment by `author` on post `post`, created at `now`. */
    method InsertComment(text: string, post: Id, author: Id, now: Time) returns (c: Comment)
      requires Valid() && HasUser(db, author) && HasPost(db, post)
      modifies this
      ensures Valid()
      ensures c.id == old(nextCommentId) && Counters() == old(Counters()).(comments := old(nextCommentId) + 1)
      ensures !(exists d :: d in old(db.comments) && d.id == c.id)
      ensures c == Comment(c.id, text, post, author, now)
      ensures db == old(db).(comments := old(db.comments) + [c])
    {
      c := Comment(nextCommentId, text, post, author, now);
      db := db.(comments := db.comments + [c]);
      nextCommentId := nextCommentId + 1;
      assert KeysUnique(db);
    }

    /** Saves an edit form over post `id`. */
    method UpdatePost(id: Id, f: PostFields)
      requires Valid() && RefsResolve(db, f.location, f.category)
      modifies this
      ensures Valid()
      ensures Counters() == old(Counters())
      ensures db == WithPostEdited(old(db), id, f)
    {
      WithPostEditedConsistent(db, id, f);
      var before := db;
      db := WithPostEdited(db, id, f);
      forall p | p in db.posts ensures p.id < nextPostId {
        var i :| 0 <= i < |db.posts| && db.posts[i] == p;
        assert before.posts[i] in before.posts;
      }
    }

    /** Saves a comment form over comment `id`. */
    method UpdateComment(id: Id, text: string)
      requires Valid()
      modifies this
      ensures Valid()
      ensures Counters() == old(Counters())
      ensures db == WithCommentText(old(db), id, text)
    {
      WithCommentTextConsistent(db, id, text);
      var before := db;
      db := WithCommentText(db, id, text);
      forall c | c in db.comments ensures c.id < nextCommentId {
        var i :| 0 <= i < |db.comments| && db.comments[i] == c;
        assert before.comments[i] in before.comments;
      }
    }

    /** Saves a profile form over user `id`; refused when another user
        already has the username. */
    method UpdateUser(id: Id, f: ProfileFields) returns (ok: bool)
      requires Valid()
      modifies this
      ensures Valid()
      ensures Counters() == old(Counters())
      ensures ok <==> forall u :: u in old(db.users) && u.username == f.username ==> u.id == id
      ensures db == if ok then WithProfile(old(db), id, f) else old(db)
    {
      ok := forall u :: u in db.users && u.username == f.username ==> u.id == id;
      if ok {
        WithProfileConsistent(db, id, f);
        var before := db;
        db := WithProfile(db, id, f);
        forall u | u in db.users ensures u.id < nextUserId {
          var i :| 0 <= i < |db.users| && db.users[i] == u;
          assert before.users[i] in before.users;
        }
      }
    }

    /** Deletes post `id` and, by CASCADE, its comments. */
    method DeletePost(id: Id)
      requires Valid()
      modifies this
      ensures Valid()
      ensures Counters() == old(Counters())
      ensures db == WithoutPost(old(db), id)
    {
      WithoutPostConsistent(db, id);
      db := WithoutPost(db, id);
    }

    method DeleteComment(id: Id)
      requires Valid()
      modifies this
      ensures Valid()
      ensures Counters() == old(Counters())
      ensures db == WithoutComment(old(db), id)
    {
      WithoutCommentConsistent(db, id);
      db := WithoutComment(db, id);
    }

    /** Deletes user `id` and, by CASCADE, their posts and comments. */
    method DeleteUser(id: Id)
      requires Valid()
      modifies this
      ensures Valid()
      ensures Counters() == old(Counters())
      ensures db == WithoutUser(old(db), id)
    {
      WithoutUserConsistent(db, id);
      db := WithoutUser(db, id);
    }

    /** Deletes category `id`; its posts stay, uncategorised (SET_NULL). */
    method DeleteCategory(id: Id)
      requires Valid()
      modifies this
      ensures Valid()
      ensures Counters() == old(Counters())
      ensures db == WithoutCategory(old(db), id)
    {
      WithoutCategoryConsistent(db, id);
      var before := db;
      db := WithoutCategory(db, id);
      forall p | p in db.posts ensures p.id < nextPostId {
        var i :| 0 <= i < |db.posts| && db.posts[i] == p;
        assert before.posts[i] in before.posts;
      }
    }

    /** Deletes location `id`; its posts stay, without a location (SET_NULL). */
    method DeleteLocation(id: Id)
      requires Valid()
      modifies this
      ensures Valid()
      ensures Counters() == old(Counters())
      ensures db == WithoutLocation(old(db), id)
    {
      WithoutLocationConsistent(db, id);
      var before := db;
      db := WithoutLocation(db, id);
      forall p | p in db.posts ensures p.id < nextPostId {
        var i :| 0 <= i < |db.posts| && db.posts[i] == p;
        assert before.posts[i] in before.posts;
      }
    }
  }
}
