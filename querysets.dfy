/** The query library: the `comment_count` annotation, the visibility filter
    with newest-first ordering, and the get-or-404 lookups of a profile and
    of a post. Every query is evaluated over a snapshot of the tables. */
module Querysets {
  import opened Collections
  import opened Models

  /** A post together with its `comment_count` annotation. */
  datatype Row = Row(post: Post, commentCount: nat)

  function RowOrder(row: Row): int { PostOrder(row.post) }

  /** `order_by('-pub_date')`: no row is older than a row after it. */
  predicate NewestFirst(rows: seq<Row>) {
    forall i, j :: 0 <= i < j < |rows| ==> rows[i].post.pubDate >= rows[j].post.pubDate
  }

  lemma SortedIsNewestFirst(rows: seq<Row>)
    requires SortedBy(rows, RowOrder)
    ensures NewestFirst(rows)
  {
    forall i, j | 0 <= i < j < |rows| ensures rows[i].post.pubDate >= rows[j].post.pubDate {
      assert RowOrder(rows[i]) <= RowOrder(rows[j]);
    }
  }

  lemma NewestFirstIsSorted(rows: seq<Row>)
    requires NewestFirst(rows)
    ensures SortedBy(rows, RowOrder)
  {
  }

  function CommentPostIs(post: Id): Comment -> bool { (c: Comment) => c.post == post }

  /** The comments attached to `post` (the reverse relation `post.comments`). */
  function CommentsOn(comments: seq<Comment>, post: Id): (r: seq<Comment>)
    ensures forall c :: c in r <==> c in comments && c.post == post
  {
    Filter(comments, CommentPostIs(post))
  }

  /** `Count('comments')` for one post. */
  function CommentCount(comments: seq<Comment>, post: Id): nat {
    |CommentsOn(comments, post)|
  }

  /** The count is the number of distinct comment rows whose post is `post`. */
  lemma CommentCountIsNumberOfComments(db: Db, post: Id)
    requires KeysUnique(db)
    ensures CommentCount(db.comments, post) == |set c | c in db.comments && c.post == post|
  {
    var on := CommentsOn(db.comments, post);
    FilterKeepsDistinct(db.comments, CommentPostIs(post), CommentId);
    DistinctCardinality(on, CommentId);
    assert (set c | c in on) == (set c | c in db.comments && c.post == post);
  }

  /** `post_annotate()`: every post, each once, annotated with its number of
      comments. The query groups by post, so the model's default ordering
      does not apply and the rows come in no particular order. */
  function PostAnnotate(db: Db): (r: seq<Row>)
    ensures |r| == |db.posts|
    ensures forall row :: row in r <==> row.post in db.posts && row.commentCount == CommentCount(db.comments, row.post.id)
  {
    var posts := db.posts;
    var r := seq(|posts|, i requires 0 <= i < |posts| => Row(posts[i], CommentCount(db.comments, posts[i].id)));
    assert forall p :: p in posts ==> Row(p, CommentCount(db.comments, p.id)) in r by {
      forall p | p in posts ensures Row(p, CommentCount(db.comments, p.id)) in r {
        var i :| 0 <= i < |posts| && posts[i] == p;
        assert r[i] == Row(p, CommentCount(db.comments, p.id));
      }
    }
    r
  }

  /** `category__is_published=True` is a join through the category, so a
      post without a category never satisfies it. */
  predicate CategoryPublished(categories: seq<Category>, category: Option<Id>) {
    category.Some? && exists c :: c in categories && c.id == category.value && c.isPublished
  }

  /** The visibility predicate of the feeds and of the post page. */
  predicate Visible(p: Post, categories: seq<Category>, now: Time) {
    p.isPublished && CategoryPublished(categories, p.category) && p.pubDate <= now
  }

  function VisibleAt(categories: seq<Category>, now: Time): Row -> bool {
    (row: Row) => Visible(row.post, categories, now)
  }

  /** `post_filter_order(rows)`: the visible rows, newest first. */
  function PostFilterOrder(rows: seq<Row>, categories: seq<Category>, now: Time): (r: seq<Row>)
    ensures forall row :: row in r <==> row in rows && Visible(row.post, categories, now)
    ensures forall row :: row in r ==> row.post.isPublished && row.post.category.Some? && row.post.pubDate <= now
    ensures NewestFirst(r)
    ensures |r| <= |rows|
  {
    var kept := Filter(rows, VisibleAt(categories, now));
    var r := SortBy(kept, RowOrder);
    assert |multiset(r)| == |multiset(kept)|;
    assert forall row :: row in r <==> row in multiset(kept);
    SortedIsNewestFirst(r);
    r
  }

  /** The filter adds and alters nothing: each visible row occurs exactly as
      often as in the input, each hidden row not at all. */
  lemma PostFilterOrderCounts(rows: seq<Row>, categories: seq<Category>, now: Time, row: Row)
    ensures multiset(PostFilterOrder(rows, categories, now))[row] ==
            if Visible(row.post, categories, now) then multiset(rows)[row] else 0
  {
    FilterCounts(rows, VisibleAt(categories, now), row);
  }

  function UsernameIs(username: string): User -> bool { (u: User) => u.username == username }

  /** `get_profile`: the user called `username`, or 404. */
  function GetProfile(users: seq<User>, username: string): (r: Lookup<User>)
    ensures r.Found? ==> r.value in users && r.value.username == username
    ensures r.NotFound? <==> forall u :: u in users ==> u.username != username
  {
    Find(users, UsernameIs(username))
  }

  /** Usernames are unique, so the profile found is the user of that name. */
  lemma GetProfileFindsUser(users: seq<User>, u: User)
    requires DistinctKeys(users, UserName) && u in users
    ensures GetProfile(users, u.username) == Found(u)
  {
    var r := GetProfile(users, u.username);
    KeyDeterminesRow(users, UserName, r.value, u);
  }

  function PostIdIs(id: Id): Post -> bool { (p: Post) => p.id == id }

  /** `get_post_by_id`: the post with primary key `id`, or 404. */
  function GetPostById(posts: seq<Post>, id: Id): (r: Lookup<Post>)
    ensures r.Found? ==> r.value in posts && r.value.id == id
    ensures r.NotFound? <==> forall p :: p in posts ==> p.id != id
  {
    Find(posts, PostIdIs(id))
  }

  /** Post keys are unique, so the post found is the post with that key. */
  lemma GetPostByIdFindsPost(posts: seq<Post>, p: Post)
    requires DistinctKeys(posts, PostId) && p in posts
    ensures GetPostById(posts, p.id) == Found(p)
  {
    var r := GetPostById(posts, p.id);
    KeyDeterminesRow(posts, PostId, r.value, p);
  }
}
