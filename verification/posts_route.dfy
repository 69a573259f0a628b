/** The post list and post creation endpoint (src/app/api/posts/route.ts).
    The store is the sequence of posts, each holding all of its comments;
    `None` stands for a store that cannot be reached or whose query fails.
    `page` and `limit` arrive already converted to integers. */
module PostsRoute {
  import opened Base
  import opened Js
  import opened Types
  import opened Seqs
  import opened Sorting
  import opened QueryParams

  // ---------------------------------------------------------------------------
  // Query parameters

  /** The page and page size texts before conversion: `1` and `10` by default,
      and any non-empty text as given. */
  lemma PageDefaults(page: Option<string>, limit: Option<string>)
    ensures page == None || page == Some("") ==> ParamOr(page, "1") == "1"
    ensures limit == None || limit == Some("") ==> ParamOr(limit, "10") == "10"
    ensures page.Some? && page.value != "" ==> ParamOr(page, "1") == page.value
    ensures limit.Some? && limit.value != "" ==> ParamOr(limit, "10") == limit.value
  {
  }

  /** The `where` clause of the list query. */
  datatype PostWhere = PostWhere(category: Option<string>, language: Option<string>)

  function WhereOf(category: Option<string>, language: Option<string>): PostWhere {
    PostWhere(Condition(category), Condition(language))
  }

  predicate Satisfies(w: PostWhere, p: Post) {
    && (w.category.None? || p.category == w.category.value)
    && (w.language.None? || p.language == w.language.value)
  }

  /** Without conditions every post matches. */
  lemma NoConditionMatchesAll(posts: seq<Post>)
    ensures Filter(posts, p => Satisfies(PostWhere(None, None), p)) == posts
  {
    FilterKeepsAll(posts, p => Satisfies(PostWhere(None, None), p));
  }

  // ---------------------------------------------------------------------------
  // Ordering

  /** `orderBy: { createdAt: 'desc' }` for posts and for comments. */
  predicate PostNewerOrSame(a: Post, b: Post) {
    a.createdAt >= b.createdAt
  }

  predicate CommentNewerOrSame(a: Comment, b: Comment) {
    a.createdAt >= b.createdAt
  }

  lemma NewestFirstIsPreorder()
    ensures TotalPreorder(PostNewerOrSame)
    ensures TotalPreorder(CommentNewerOrSame)
  {
  }

  /** The matching posts, newest first. */
  function Ordered(posts: seq<Post>, w: PostWhere): (r: seq<Post>)
    ensures SortedBy(PostNewerOrSame, r)
    ensures multiset(r) == multiset(Filter(posts, p => Satisfies(w, p)))
    ensures forall i :: 0 <= i < |r| ==> Satisfies(w, r[i])
  {
    NewestFirstIsPreorder();
    var r := SortBy(PostNewerOrSame, Filter(posts, p => Satisfies(w, p)));
    assert forall i :: 0 <= i < |r| ==> r[i] in multiset(r);
    r
  }

  // ---------------------------------------------------------------------------
  // Comments of a listed post

  const CommentsPerPost := 3

  /** The newest three comments (fewer if there are fewer), newest first. */
  function NewestComments(cs: seq<Comment>): (r: seq<Comment>)
    ensures |r| == if |cs| < CommentsPerPost then |cs| else CommentsPerPost
    ensures SortedBy(CommentNewerOrSame, r)
    ensures multiset(r) <= multiset(cs)
    ensures forall i, c :: 0 <= i < |r| && c in multiset(cs) - multiset(r) ==> r[i].createdAt >= c.createdAt
  {
    NewestFirstIsPreorder();
    var sorted := SortBy(CommentNewerOrSame, cs);
    var k := if |sorted| < CommentsPerPost then |sorted| else CommentsPerPost;
    assert sorted == sorted[..k] + sorted[k..];
    SortedPrefixFirst(CommentNewerOrSame, sorted, k);
    sorted[..k]
  }

  /** A post as the list returns it: carrying its newest comments. */
  function Listed(p: Post): Post {
    p.(comments := Some(NewestComments(p.comments.GetOr([]))))
  }

  // ---------------------------------------------------------------------------
  // Listing

  /** `Math.ceil(total / limit)` for a positive page size. */
  function PageCount(total: nat, limit: int): (n: nat)
    requires limit > 0
    ensures total == 0 ==> n == 0
    ensures total > 0 ==> (n - 1) * limit < total <= n * limit
  {
    (total + limit - 1) / limit
  }

  datatype Pagination = Pagination(page: int, limit: int, total: nat, totalPages: nat)

  datatype PostsResponse =
    | PostsPage(posts: seq<Post>, pagination: Pagination)
    | PostsError(status: int, error: string)

  const FetchFailed := "Failed to fetch posts"

  /** Each post of `ps` as the list returns it. */
  function ListAll(ps: seq<Post>): (r: seq<Post>)
    ensures |r| == |ps|
    ensures forall i :: 0 <= i < |ps| ==> r[i] == Listed(ps[i])
  {
    if |ps| == 0 then [] else [Listed(ps[0])] + ListAll(ps[1..])
  }

  /** The number of posts a page skips: `(page - 1) * limit`. */
  function Skip(page: int, limit: int): (n: nat)
    requires page >= 1 && limit > 0
    ensures n == (page - 1) * limit
  {
    (page - 1) * limit
  }

  /** `GET /api/posts`. A page below 1 gives a negative `skip`, which the
      store rejects. */
  function ListPosts(store: Option<seq<Post>>, category: Option<string>, language: Option<string>,
                     page: int, limit: int): (r: PostsResponse)
    requires limit > 0
    ensures store.None? || page < 1 <==> r == PostsError(500, FetchFailed)
    ensures r.PostsPage? ==>
      var ordered := Ordered(store.value, WhereOf(category, language));
      && r.posts == ListAll(Window(ordered, Skip(page, limit), limit))
      && r.pagination == Pagination(page, limit, |ordered|, PageCount(|ordered|, limit))
  {
    if store.None? || page < 1 then PostsError(500, FetchFailed)
    else
      var ordered := Ordered(store.value, WhereOf(category, language));
      PostsPage(ListAll(Window(ordered, Skip(page, limit), limit)),
                Pagination(page, limit, |ordered|, PageCount(|ordered|, limit)))
  }

  /** The page is the window `[(page-1)*limit, (page-1)*limit + limit)` of the
      matching posts newest first, so it holds at most `limit` posts. */
  lemma PageIsWindow(store: seq<Post>, category: Option<string>, language: Option<string>,
                     page: int, limit: int)
    requires limit > 0 && page >= 1
    ensures var r := ListPosts(Some(store), category, language, page, limit);
      var ordered := Ordered(store, WhereOf(category, language));
      var skip := (page - 1) * limit;
      && r.PostsPage?
      && |r.posts| <= limit
      && (forall i :: 0 <= i < |r.posts| ==> skip + i < |ordered| && r.posts[i] == Listed(ordered[skip + i]))
      && |r.posts| == (if skip >= |ordered| then 0 else if skip + limit <= |ordered| then limit else |ordered| - skip)
  {
  }

  lemma MulMonotone(a: int, b: int, limit: int)
    requires a <= b && limit > 0
    ensures a * limit <= b * limit
  {
    assert b * limit - a * limit == (b - a) * limit;
  }

  /** Page `page` starts inside the matches exactly when it is at most the page count. */
  lemma PageStartsInside(total: nat, limit: int, page: int)
    requires limit > 0 && page >= 1
    ensures (page - 1) * limit < total <==> page <= PageCount(total, limit)
  {
    var n := PageCount(total, limit);
    if page <= n {
      MulMonotone(page - 1, n - 1, limit);
    } else {
      MulMonotone(n, page - 1, limit);
    }
  }

  /** A page has posts exactly when its number is between 1 and the page count. */
  lemma PageNonEmptyIffInRange(store: seq<Post>, category: Option<string>, language: Option<string>,
                               page: int, limit: int)
    requires limit > 0 && page >= 1
    ensures var r := ListPosts(Some(store), category, language, page, limit);
      r.PostsPage? && (|r.posts| > 0 <==> page <= r.pagination.totalPages)
  {
    var ordered := Ordered(store, WhereOf(category, language));
    PageStartsInside(|ordered|, limit, page);
  }

  /** Every listed post satisfies the filter and carries at most three comments,
      newest first. */
  lemma ListedPostsAreFiltered(store: seq<Post>, category: Option<string>, language: Option<string>,
                               page: int, limit: int)
    requires limit > 0 && page >= 1
    ensures var r := ListPosts(Some(store), category, language, page, limit);
      forall i :: 0 <= i < |r.posts| ==>
        && Satisfies(WhereOf(category, language), r.posts[i])
        && r.posts[i].comments.Some? && |r.posts[i].comments.value| <= CommentsPerPost
        && SortedBy(CommentNewerOrSame, r.posts[i].comments.value)
  {
  }

  // ---------------------------------------------------------------------------
  // Creation

  /** The fields of a create request as JSON values; `None` is an absent
      field. */
  datatype NewPostBody = NewPostBody(
    title: Option<JsonValue>,
    content: Option<JsonValue>,
    category: Option<JsonValue>,
    language: Option<JsonValue>,
    authorName: Option<JsonValue>,
    authorEmail: Option<JsonValue>,
    imageUrl: Option<JsonValue>)

  /** The guard `!title || !content || !category || !language || !authorName`
      passes: the five required fields are all truthy. */
  predicate Complete(b: NewPostBody) {
    Truthy(b.title) && Truthy(b.content) && Truthy(b.category)
    && Truthy(b.language) && Truthy(b.authorName)
  }

  predicate IsText(v: Option<JsonValue>) {
    v.Some? && v.value.JString?
  }

  /** A value an optional text column accepts: absent, `null` or a string. */
  predicate IsNullableText(v: Option<JsonValue>) {
    v.None? || v.value.JNull? || v.value.JString?
  }

  /** The text an optional column stores for an accepted value. */
  function NullableText(v: Option<JsonValue>): (t: Option<string>)
    requires IsNullableText(v)
    ensures t.Some? <==> IsText(v)
    ensures t.Some? ==> v == Some(JString(t.value))
  {
    if IsText(v) then Some(v.value.s) else None
  }

  /** The store accepts the row: the required fields are strings and the
      optional ones are strings, `null` or absent. */
  predicate Storable(b: NewPostBody) {
    IsText(b.title) && IsText(b.content) && IsText(b.category) && IsText(b.language)
    && IsText(b.authorName) && IsNullableText(b.authorEmail) && IsNullableText(b.imageUrl)
  }

  datatype CreateResponse =
    | Created(status: int, post: Post)
    | CreateError(status: int, error: string)

  const FieldsMissing := "Required fields missing"
  const CreateFailed := "Failed to create post"

  /** `POST /api/posts`, given the id and time the store assigns. `body` is
      `None` when the request body is not JSON or is `null`; a body that is
      not an object has every field absent. Returns the response and the
      store afterwards. A field of the wrong type passes the guard when it is
      truthy and is then rejected by the store, which answers 500. */
  function CreatePost(store: Option<seq<Post>>, body: Option<NewPostBody>, id: int, now: int)
    : (r: (CreateResponse, Option<seq<Post>>))
    ensures body.Some? && !Complete(body.value) ==> r == (CreateError(400, FieldsMissing), store)
    ensures (body.None? || store.None? || !Storable(body.value)) && !(body.Some? && !Complete(body.value))
      ==> r == (CreateError(500, CreateFailed), store)
    ensures body.Some? && Complete(body.value) && Storable(body.value) && store.Some? ==> r.0.Created?
    ensures r.0.Created? ==>
      && body.Some? && Complete(body.value) && Storable(body.value) && store.Some?
      && r.0.status == 201
      && r.1 == Some(store.value + [r.0.post])
      && body.value.title == Some(JString(r.0.post.title)) && r.0.post.title != ""
      && body.value.content == Some(JString(r.0.post.content)) && r.0.post.content != ""
      && body.value.category == Some(JString(r.0.post.category)) && r.0.post.category != ""
      && body.value.language == Some(JString(r.0.post.language)) && r.0.post.language != ""
      && body.value.authorName == Some(JString(r.0.post.authorName)) && r.0.post.authorName != ""
      && r.0.post.authorEmail == NullableText(body.value.authorEmail)
      && r.0.post.imageUrl == NullableText(body.value.imageUrl)
      && r.0.post.likes == 0 && r.0.post.comments == Some([])
    ensures r.0.CreateError? ==> r.1 == store
  {
    match body
    case None => (CreateError(500, CreateFailed), store)
    case Some(b) =>
      if !Complete(b) then (CreateError(400, FieldsMissing), store)
      else if store.None? || !Storable(b) then (CreateError(500, CreateFailed), store)
      else
        var post := Post(id, b.title.value.s, b.content.value.s, b.category.value.s, b.language.value.s,
                         b.authorName.value.s, NullableText(b.authorEmail), NullableText(b.imageUrl),
                         0, now, now, Some([]));
        (Created(201, post), Some(store.value + [post]))
  }

  /** The create route stores category and language strings outside the
      declared enumerations as given. */
  lemma CreateAcceptsUndeclaredCategory()
    ensures var b := NewPostBody(Some(JString("t")), Some(JString("c")), Some(JString("recipes")),
                                 Some(JString("fr")), Some(JString("a")), None, None);
      var r := CreatePost(Some([]), Some(b), 1, 0);
      r.0.Created? && !r.0.post.Conforms()
  {
  }

  /** A truthy title that is not a string passes the guard and fails in the
      store, which answers 500 and keeps the posts as they were. */
  lemma NonStringTitleFails(store: seq<Post>)
    ensures var b := NewPostBody(Some(JNumber(5.0)), Some(JString("c")), Some(JString("food")),
                                 Some(JString("ko")), Some(JString("a")), None, None);
      Complete(b) && CreatePost(Some(store), Some(b), 1, 0) == (CreateError(500, CreateFailed), Some(store))
  {
  }
}
