# blogicum: visibility, ownership and delete rules

This project models the core of the blogicum Django blog: its schema and the
effect of each `on_delete` rule, the query library (`post_annotate`,
`post_filter_order`, `get_profile`, `get_post_by_id`), the author gate of the
editing views, and the handlers built on them.

The five tables live in one in-memory snapshot (`Models.Db`):
users, categories, locations, posts and comments. A class `Models.Store`
owns that snapshot and the auto-increment counters. Its methods insert, edit
and delete rows in place. They keep one invariant: every key is below its
table's counter, keys are unique (including category slugs and usernames)
and no foreign key dangles. No method moves a counter back, so a key is
never handed out twice, even after the row holding it is deleted.

- Read-only handlers (the three feeds, the post page) are functions of a
  snapshot. They return a `Lookup` when the framework may answer 404.
- The form handlers (create, edit, delete of posts, comments and profiles,
  and registration) are methods over the store. Each one answers a
  `Mixins.Response` and states the new snapshot.
- The wall clock is the explicit parameter `now`.

Modules:

- `Collections`: filter, stable sort by key, first match, and key uniqueness.
- `Models`: the records, the delete and edit transitions with their
  integrity lemmas, `__str__`, and the store.
- `Querysets`: the queries.
- `Mixins`: `test_func`, `handle_no_permission`, the comment object and
  success URL, and the order in which the access mixins run.
- `Views`: the handlers.

Where the evident intent and the code diverge, the model follows the code:

- `category__is_published=True` is a join, so a post whose category is null
  is never visible to anyone but its author. This holds in the feeds and on
  the post page.
- The comment edit and delete views look the comment up by `comment_id`
  alone. A comment of one post can be edited through a URL naming another
  post, and the redirect then goes to the post named in the URL
  (`Mixins.CommentRouteNotScopedToPost`).
- Deleting a post redirects to the author's profile, not to the index.
  PostMixin's `get_success_url` takes precedence over the view's
  `success_url` attribute.
- For `PostMixin` views, `test_func` runs before the login check. A missing
  post is therefore a 404 even for an anonymous requester. For the comment
  views, the login check runs first, and a failed author test is a 403.
- The post page compares with a naive `datetime.now()` and the feeds with
  `timezone.now()`. Both are the same `now` here.

## Model

| member | source | states |
|---|---|---|
| Models.Truncated | blogicum/blog/models.py:43 | slicing `[:n]` gives a prefix of at most n characters, and the whole string when it is shorter |
| Models.CategoryStr | blogicum/blog/models.py:42-43 | a category prints as a prefix of its title of at most SHORT_TITLE_LEN characters, the whole title when shorter |
| Models.LocationStr | blogicum/blog/models.py:53-54 | a location prints as a prefix of its name of at most SHORT_TITLE_LEN characters |
| Models.PostStr | blogicum/blog/models.py:91-92 | a post prints as a prefix of its title of at most SHORT_TITLE_LEN characters |
| Models.PublishedByDefault | blogicum/blog/models.py:18-22 | categories, locations, posts and post forms are published unless told otherwise |
| Models.SlugDeterminesCategory | blogicum/blog/models.py:31-36 | in a consistent database two categories with the same slug are the same category |
| Models.Edit | blogicum/blog/views.py:60-61 | saving the post form replaces exactly the editable fields; key, author and creation time are kept |
| Models.WithoutPost | blogicum/blog/models.py:97-101 | deleting a post removes it and exactly the comments on it; the other tables are untouched |
| Models.WithoutPostCounts | blogicum/blog/models.py:97-101 | after deleting a post, a comment on it occurs zero times and every other comment as often as before |
| Models.WithoutPostConsistent | blogicum/blog/models.py:95-105 | the cascade leaves unique keys and no dangling post or user reference |
| Models.WithoutComment | blogicum/blog/views.py:129-130 | deleting a comment removes that comment only |
| Models.WithoutCommentConsistent | blogicum/blog/views.py:129-130 | deleting a comment keeps the database consistent |
| Models.WithoutUser | blogicum/blog/models.py:65-69 | deleting a user removes the user, every post they wrote, every comment they wrote and every comment on their posts, and nothing else |
| Models.WithoutUserCounts | blogicum/blog/models.py:102-105 | after deleting a user, a comment they wrote or one on their posts occurs zero times; every other comment as often as before |
| Models.WithoutUserConsistent | blogicum/blog/models.py:65-69 | the double cascade leaves unique keys and no dangling reference |
| Models.WithoutCategory | blogicum/blog/models.py:76-81 | deleting a category keeps every post, nulls exactly the references to it, and changes nothing else |
| Models.WithoutCategoryPostRefs | blogicum/blog/models.py:76-81 | after SET_NULL every post's category, location and author still exist |
| Models.WithoutCategoryConsistent | blogicum/blog/models.py:76-81 | deleting a category keeps the database consistent |
| Models.WithoutLocation | blogicum/blog/models.py:70-75 | deleting a location keeps every post, nulls exactly the references to it, and changes nothing else |
| Models.WithoutLocationConsistent | blogicum/blog/models.py:70-75 | deleting a location keeps the database consistent |
| Models.WithPostEdited | blogicum/blog/views.py:60-64 | saving an edit changes only the post with that key, position by position |
| Models.WithPostEditedConsistent | blogicum/blog/views.py:60-64 | an edit whose category and location exist keeps the database consistent |
| Models.WithCommentText | blogicum/blog/views.py:133-134 | saving a comment edit changes only that comment's text |
| Models.WithCommentTextConsistent | blogicum/blog/views.py:133-134 | a comment edit keeps the database consistent |
| Models.WithProfile | blogicum/blog/views.py:47-53 | saving the profile form changes only that user's row and keeps the key |
| Models.WithProfileConsistent | blogicum/blog/views.py:47-53 | renaming a user to a name no other user holds keeps usernames unique |
| Models.Store.AddUser | blogicum/blog/views.py:137-140 | registration refuses a taken username; otherwise it appends a user whose key is the user counter, which then grows by one |
| Models.Store.AddCategory | blogicum/blog/models.py:28-36 | a category with a taken slug is refused; otherwise it is appended with the category counter as key, which then grows by one |
| Models.Store.AddLocation | blogicum/blog/models.py:46-47 | a location is appended with the location counter as key and the given flag; the counter grows by one |
| Models.Store.InsertPost | blogicum/blog/views.py:72-74 | the new post's key is the post counter, which grows by one; it has the given author, the form's fields and creation time `now`; only the post table grows |
| Models.Store.InsertComment | blogicum/blog/views.py:123-126 | the new comment's key is the comment counter, which grows by one; it has the given post and author; only the comment table grows |
| Models.Store.UpdatePost | blogicum/blog/views.py:60-64 | the store becomes the edited snapshot and stays consistent; the counters are unchanged |
| Models.Store.UpdateComment | blogicum/blog/views.py:133-134 | the store becomes the snapshot with the new comment text; the counters are unchanged |
| Models.Store.UpdateUser | blogicum/blog/views.py:47-53 | the edit is accepted iff no other user holds the username, and then applied; the counters are unchanged |
| Models.Store.DeletePost | blogicum/blog/models.py:97-101 | the store becomes the post-and-comments cascade and stays consistent; the counters are unchanged |
| Models.Store.DeleteComment | blogicum/blog/views.py:129-130 | the store loses that comment and stays consistent; the counters are unchanged |
| Models.Store.DeleteUser | blogicum/blog/models.py:65-69 | the store becomes the user cascade and stays consistent; the counters are unchanged |
| Models.Store.DeleteCategory | blogicum/blog/models.py:76-81 | the store becomes the SET_NULL snapshot and stays consistent; the counters are unchanged |
| Models.Store.DeleteLocation | blogicum/blog/models.py:70-75 | the store becomes the SET_NULL snapshot and stays consistent; the counters are unchanged |
| Querysets.SortedIsNewestFirst | blogicum/blog/querysets.py:19 | ascending by negated publication date is `-pub_date` order |
| Querysets.CommentsOn | blogicum/blog/models.py:97-110 | the reverse relation holds exactly the comments whose post is the given one |
| Querysets.CommentCountIsNumberOfComments | blogicum/blog/querysets.py:8-11 | `comment_count` is the number of distinct comments on the post |
| Querysets.PostAnnotate | blogicum/blog/querysets.py:8-11 | one row per post, every post appears, each with its comment count; no order is promised, since a grouped query ignores the default ordering |
| Querysets.PostFilterOrder | blogicum/blog/querysets.py:14-19 | a row is kept iff it is in the input, published, has a published category and is not dated after `now`; the result is newest first |
| Querysets.PostFilterOrderCounts | blogicum/blog/querysets.py:14-19 | the filter neither adds nor alters rows: each visible row keeps its multiplicity, each hidden row disappears |
| Querysets.GetProfile | blogicum/blog/querysets.py:22-23 | a user with that username, or 404 iff none exists |
| Querysets.GetProfileFindsUser | blogicum/blog/querysets.py:22-23 | with unique usernames the lookup returns exactly that user |
| Querysets.GetPostById | blogicum/blog/querysets.py:26-30 | a post with that key, or 404 iff none exists |
| Querysets.GetPostByIdFindsPost | blogicum/blog/querysets.py:26-30 | with unique keys the lookup returns exactly that post |
| Mixins.GetComment | blogicum/blog/mixins.py:15-17 | a comment with that key, or 404 iff none exists |
| Mixins.GetCommentFindsComment | blogicum/blog/mixins.py:15-17 | with unique keys the lookup returns exactly that comment |
| Mixins.TestFunc | blogicum/blog/mixins.py:11-24 | `comment_id` decides first, then `post_id`; a missing row is 404; with neither key the test passes |
| Mixins.TestFuncCommentAuthor | blogicum/blog/mixins.py:14-24 | with `comment_id`, the test holds iff the requester wrote that comment |
| Mixins.TestFuncPostAuthor | blogicum/blog/mixins.py:18-24 | with `post_id` alone, the test holds iff the requester wrote that post |
| Mixins.TestFuncIgnoresPost | blogicum/blog/mixins.py:14-19 | with `comment_id`, neither the URL's post nor the post table affects the test |
| Mixins.HandleNoPermission | blogicum/blog/mixins.py:32-35 | an authenticated requester goes to the post's page, or gets a 500 (a KeyError) when the URL has no `post_id`; an anonymous one goes to login |
| Mixins.PostGate | blogicum/blog/mixins.py:27-35 | the post views proceed iff the requester is logged in and passes the test; a missing row is 404; when the row exists, every refusal is handle_no_permission |
| Mixins.PostGateOwnerOnly | blogicum/blog/mixins.py:27-35 | for an existing post, the author proceeds, another user is sent to the post's page, and an anonymous requester is sent to login |
| Mixins.CommentGate | blogicum/blog/views.py:129-134 | the comment views send anonymous requesters to login, then answer 404, 403 or proceed by the author test |
| Mixins.CommentObject | blogicum/blog/mixins.py:47-48 | the comment is found by `comment_id` alone, or 404 |
| Mixins.CommentSuccessUrl | blogicum/blog/mixins.py:50-52 | success redirects to the page of the URL's `post_id` |
| Mixins.CommentRouteNotScopedToPost | blogicum/blog/mixins.py:47-52 | a comment of post 1 is found, passes the gate and redirects to post 2 through a URL naming post 2 |
| Views.IndexFeedAsWritten | blogicum/blog/views.py:21-25 | the home feed is the posts visible at the import instant, newest first |
| Views.IndexFeed | blogicum/blog/views.py:21-25 | the home feed is exactly the posts visible at `now`, newest first |
| Views.IndexFeedCounts | blogicum/blog/views.py:21-25 | both home feeds add and alter nothing: each visible row keeps its multiplicity among the annotated posts, each hidden row disappears |
| Views.IndexFeedFrozenAtImport | blogicum/blog/views.py:25 | a post that becomes visible after import is in the intended feed and missing from the feed as written |
| Views.ProfileFeed | blogicum/blog/views.py:38-44 | 404 iff no user has that name; otherwise only that user's annotated posts, newest first |
| Views.ProfileFeedOfOwner | blogicum/blog/views.py:41-44 | a viewer whose username is the profile's sees every post of that user |
| Views.ProfileFeedOfVisitor | blogicum/blog/views.py:41-42 | any other viewer, the anonymous one included, sees exactly that user's visible posts |
| Views.ProfileFeedCounts | blogicum/blog/views.py:38-44 | the profile feed is a permutation of the user's rows the viewer may see: all of them for the owner, the visible ones for anyone else |
| Views.CategoryFeed | blogicum/blog/views.py:80-86 | 404 iff no published category has the slug; otherwise visible posts of that category, newest first |
| Views.CategoryFeedOfPublished | blogicum/blog/views.py:80-86 | for a published category, the feed holds exactly its visible posts |
| Views.CategoryFeedCounts | blogicum/blog/views.py:80-86 | the category feed is a permutation of the category's visible rows: each keeps its multiplicity, every other row disappears |
| Views.DetailObject | blogicum/blog/views.py:94-105 | a post is returned only with that key, and only to its author or when visible; a missing key is 404 |
| Views.PostDetailRule | blogicum/blog/views.py:94-105 | an existing post is returned iff the viewer is its author or it is visible |
| Views.PostDetailPage | blogicum/blog/views.py:107-111 | an accessible post's page lists its comments, each exactly as often as stored (a permutation of the post's comments), oldest first |
| Views.PostCreate | blogicum/blog/views.py:67-74 | anonymous requesters go to login; a dangling category or location shows the form; otherwise one post is appended, stamped with the requester as author, and the requester goes to their profile |
| Views.PostUpdate | blogicum/blog/views.py:60-64 | 404 for a missing post; non-authors are redirected; the author's valid form edits that post and leads to its page |
| Views.PostDelete | blogicum/blog/views.py:114-118 | 404 for a missing post; non-authors are redirected; the author deletes the post with its comments and goes to their profile |
| Views.CommentCreate | blogicum/blog/views.py:121-126 | login required; 404 when the URL's post is missing; otherwise one comment is appended, stamped with the requester and that post |
| Views.CommentUpdate | blogicum/blog/views.py:133-134 | login first; 404 for a missing comment, 403 for a non-author; otherwise the text changes and the URL's post page follows |
| Views.CommentDelete | blogicum/blog/views.py:129-130 | login first; 404 for a missing comment, 403 for a non-author; otherwise that comment alone is deleted |
| Views.ProfileUpdate | blogicum/blog/views.py:47-57 | login required; the row edited is always the requester's own; a taken username shows the form |
| Views.Register | blogicum/blog/views.py:137-140 | the stock creation form carries only the username: a taken one shows the form; otherwise one user with that name and empty email and names is appended, and the index follows |

## Left out

- Image upload (`ImageField`) and file storage: not behaviour of the rules modelled.
- Pagination and `POSTS_LIMIT`: the feeds are the full querysets before paging. The constants module is not part of this model.
- `SHORT_TITLE_LEN` is a parameter of the `__str__` functions, because the constants module is not part of this model.
- Form validation other than the rejection of a dangling category or location and of a taken username: the password rules of `UserCreationForm` and the field validators (lengths, slug characters, required fields) are not modelled. The forms module is not part of this model.
- Templates, GET requests that only render a form, sessions and authentication, `select_related` (a performance hint), the admin site, migrations and URL routing.
- Wall-clock time: `timezone.now()` and `datetime.now()` are the parameter `now`. The difference between naive and aware datetimes is not modelled.
- Concurrency: each request is one sequential transition of the store.
- `Comment.__str__` (models.py:112-113) reads a `title` field that comments do not have, so it raises AttributeError. It is not modelled.
- Querysets.PostFilterOrder: the order among posts with equal `pub_date` is unspecified in the database. The model uses a stable sort, and its contract states only the newest-first order.
- Querysets.GetProfile: `MultipleObjectsReturned` cannot arise, because usernames are unique in a consistent store. The model returns the first match.
- Views.PostUpdate: a form with a dangling reference is shown again (`Rendered`), with no further detail of the form errors.

## Findings

| source | as written | input that shows it | evidently intended | confidence | as-written member | corrected member |
|---|---|---|---|---|---|---|
| blogicum/blog/views.py:25 | the home feed's queryset is a class attribute, so `timezone.now()` is evaluated once at import and every later request filters with that instant | a published post in a published category with `pub_date` 5, the process started at 0, a request at 10: the post is missing from the home feed | the visibility filter uses the request's time, as the profile and category feeds do | not executed | Views.IndexFeedAsWritten (counterexample Views.IndexFeedFrozenAtImport) | Views.IndexFeed |
