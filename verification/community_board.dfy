/** The community board (src/components/CommunityBoard.tsx): the list query it
    sends, the per-post comment drafts and their send guard, the new-post form,
    and the category label and colour lookups. */
module CommunityBoard {
  import opened Base
  import opened Js
  import opened Types
  import opened Seqs
  import PostsRoute

  // ---------------------------------------------------------------------------
  // Listing

  /** The two select boxes above the list: `all` or a category / language name. */
  datatype BoardFilters = BoardFilters(category: string, language: string)

  const AllPosts := BoardFilters("all", "all")

  /** The query string `fetchPosts` builds: a parameter is set only when its
      box is not on `all`. */
  datatype PostsQuery = PostsQuery(category: Option<string>, language: Option<string>)

  function FetchParams(f: BoardFilters): (q: PostsQuery)
    ensures q.category.Some? <==> f.category != "all"
    ensures q.language.Some? <==> f.language != "all"
    ensures q.category.Some? ==> q.category.value == f.category
    ensures q.language.Some? ==> q.language.value == f.language
  {
    PostsQuery(if f.category != "all" then Some(f.category) else None,
               if f.language != "all" then Some(f.language) else None)
  }

  /** What a box means to the reader: `all` shows every post, a name only its posts. */
  predicate BoxAdmits(box: string, value: string) {
    box == "all" || box == value
  }

  /** The route filters on exactly what the boxes say, as long as neither box
      holds the empty string (which the route reads as no condition). */
  lemma FetchFiltersAsBoxesSay(f: BoardFilters, p: Post)
    requires f.category != "" && f.language != ""
    ensures var q := FetchParams(f);
            var w := PostsRoute.WhereOf(q.category, q.language);
            PostsRoute.Satisfies(w, p) <==> BoxAdmits(f.category, p.category) && BoxAdmits(f.language, p.language)
  {
  }

  /** The list after one fetch: the first page of ten, or the old list when the
      response is not ok. */
  function FetchPosts(current: seq<Post>, f: BoardFilters, store: Option<seq<Post>>): (shown: seq<Post>)
    ensures store.None? ==> shown == current
  {
    var q := FetchParams(f);
    match PostsRoute.ListPosts(store, q.category, q.language, 1, 10)
    case PostsPage(posts, _) => posts
    case PostsError(_, _) => current
  }

  /** After a successful fetch the board shows at most ten posts, each admitted
      by both boxes and carrying at most three comments. */
  lemma FetchedPostsMatchBoxes(current: seq<Post>, f: BoardFilters, store: seq<Post>)
    requires f.category != "" && f.language != ""
    ensures var shown := FetchPosts(current, f, Some(store));
            && |shown| <= 10
            && forall i :: 0 <= i < |shown| ==>
                 && BoxAdmits(f.category, shown[i].category) && BoxAdmits(f.language, shown[i].language)
                 && CommentCount(shown[i]) <= PostsRoute.CommentsPerPost
  {
    var q := FetchParams(f);
    PostsRoute.PageIsWindow(store, q.category, q.language, 1, 10);
    PostsRoute.ListedPostsAreFiltered(store, q.category, q.language, 1, 10);
    var shown := FetchPosts(current, f, Some(store));
    forall i | 0 <= i < |shown|
      ensures BoxAdmits(f.category, shown[i].category) && BoxAdmits(f.language, shown[i].language)
    {
      FetchFiltersAsBoxesSay(f, shown[i]);
    }
  }

  /** `post.comments?.length || 0`. */
  function CommentCount(p: Post): (n: nat)
    ensures n == 0 <==> p.comments.None? || p.comments.value == []
    ensures p.comments.Some? ==> n == |p.comments.value|
  {
    if p.comments.None? then 0 else |p.comments.value|
  }

  // ---------------------------------------------------------------------------
  // Comment drafts

  /** The draft under one post. A field never typed into is absent: the
      handlers spread the previous draft, which may not exist. */
  datatype Draft = Draft(content: Option<string>, authorName: Option<string>)

  type Drafts = map<int, Draft>

  const ClearedDraft := Draft(Some(""), Some(""))

  /** `!comment?.content || !comment?.authorName` negated: the draft for the
      post exists and both its fields are non-empty. */
  predicate CanSend(drafts: Drafts, postId: int) {
    postId in drafts && Present(drafts[postId].content) && Present(drafts[postId].authorName)
  }

  /** Typing into the comment box of one post. */
  function EditContent(drafts: Drafts, postId: int, text: string): (r: Drafts)
    ensures r.Keys == drafts.Keys + {postId}
    ensures r[postId].content == Some(text)
    ensures r[postId].authorName == (if postId in drafts then drafts[postId].authorName else None)
    ensures forall k :: k in drafts && k != postId ==> r[k] == drafts[k]
  {
    var prev := if postId in drafts then drafts[postId] else Draft(None, None);
    drafts[postId := prev.(content := Some(text))]
  }

  /** Typing into the author box of one post. */
  function EditAuthor(drafts: Drafts, postId: int, name: string): (r: Drafts)
    ensures r.Keys == drafts.Keys + {postId}
    ensures r[postId].authorName == Some(name)
    ensures r[postId].content == (if postId in drafts then drafts[postId].content else None)
    ensures forall k :: k in drafts && k != postId ==> r[k] == drafts[k]
  {
    var prev := if postId in drafts then drafts[postId] else Draft(None, None);
    drafts[postId := prev.(authorName := Some(name))]
  }

  /** The two boxes are independent: the order of typing does not matter. */
  lemma EditsCommute(drafts: Drafts, postId: int, text: string, name: string)
    ensures EditAuthor(EditContent(drafts, postId, text), postId, name)
         == EditContent(EditAuthor(drafts, postId, name), postId, text)
  {
  }

  /** Filling both boxes of a post makes its draft sendable, whatever was
      there before; other posts' drafts stay as they were. */
  lemma FilledDraftCanSend(drafts: Drafts, postId: int, text: string, name: string)
    requires text != "" && name != ""
    ensures var r := EditAuthor(EditContent(drafts, postId, text), postId, name);
            && CanSend(r, postId)
            && forall k :: k != postId ==> (CanSend(r, k) <==> CanSend(drafts, k))
  {
  }

  /** `newComment[post.id]?.content` and `?.authorName`: what the boxes read. */
  function ContentBox(drafts: Drafts, postId: int): Option<string> {
    if postId in drafts then drafts[postId].content else None
  }

  function AuthorBox(drafts: Drafts, postId: int): Option<string> {
    if postId in drafts then drafts[postId].authorName else None
  }

  /** The send button's `disabled` attribute. */
  predicate SendDisabled(drafts: Drafts, postId: int) {
    !Present(ContentBox(drafts, postId)) || !Present(AuthorBox(drafts, postId))
  }

  /** The button is enabled exactly when the handler would send. */
  lemma ButtonMatchesGuard(drafts: Drafts, postId: int)
    ensures !SendDisabled(drafts, postId) <==> CanSend(drafts, postId)
  {
  }

  /** The body `handleSubmitComment` posts. */
  datatype CommentRequest = CommentRequest(postId: int, content: string, authorName: string)

  /** `handleSubmitComment`: sends nothing unless the guard passes; when the
      server accepts, that post's draft is cleared and nothing else changes. */
  function SubmitComment(drafts: Drafts, postId: int, accepted: bool): (r: (Option<CommentRequest>, Drafts))
    ensures r.0.Some? <==> CanSend(drafts, postId)
    ensures r.0.Some? ==>
      r.0.value == CommentRequest(postId, drafts[postId].content.value, drafts[postId].authorName.value)
    ensures !(CanSend(drafts, postId) && accepted) ==> r.1 == drafts
    ensures CanSend(drafts, postId) && accepted ==>
      && r.1.Keys == drafts.Keys
      && r.1[postId] == ClearedDraft
      && forall k :: k in drafts && k != postId ==> r.1[k] == drafts[k]
  {
    if !CanSend(drafts, postId) then (None, drafts)
    else
      var d := drafts[postId];
      var request := CommentRequest(postId, d.content.value, d.authorName.value);
      (Some(request), if accepted then drafts[postId := ClearedDraft] else drafts)
  }

  /** An accepted comment cannot be sent twice: the cleared draft fails the guard. */
  lemma NoDoubleSubmit(drafts: Drafts, postId: int, accepted: bool)
    requires CanSend(drafts, postId)
    ensures var after := SubmitComment(drafts, postId, true).1;
            && ContentBox(after, postId).GetOr("") == "" && AuthorBox(after, postId).GetOr("") == ""
            && !CanSend(after, postId) && SubmitComment(after, postId, accepted) == (None, after)
  {
  }

  // ---------------------------------------------------------------------------
  // New-post form

  datatype PostForm = PostForm(
    title: string, content: string, category: string, language: string,
    authorName: string, authorEmail: string)

  /** The form's initial and reset state. */
  const EmptyPostForm := PostForm("", "", "food", "ko", "", "")

  /** `JSON.stringify(newPost)` as the create route reads it: every field is
      present, a blank e-mail included, and there is no image. */
  function FormBody(form: PostForm): (b: PostsRoute.NewPostBody)
    ensures PostsRoute.Complete(b) <==>
      form.title != "" && form.content != "" && form.category != ""
      && form.language != "" && form.authorName != ""
    ensures PostsRoute.Storable(b)
    ensures b.authorEmail == Some(JString(form.authorEmail)) && b.imageUrl.None?
  {
    PostsRoute.NewPostBody(Some(JString(form.title)), Some(JString(form.content)), Some(JString(form.category)),
      Some(JString(form.language)), Some(JString(form.authorName)), Some(JString(form.authorEmail)), None)
  }

  /** `handleSubmitPost`: on an ok response the form is reset and hidden;
      otherwise form and visibility stay. */
  function SubmitPost(form: PostForm, showForm: bool, accepted: bool): (r: (PostForm, bool))
    ensures accepted ==> r == (EmptyPostForm, false)
    ensures !accepted ==> r == (form, showForm)
  {
    if accepted then (EmptyPostForm, false) else (form, showForm)
  }

  /** A filled-in form creates the post it describes; a blank e-mail is stored
      as the empty string, not as no e-mail. */
  lemma FilledFormCreatesPost(form: PostForm, store: seq<Post>, id: int, now: int)
    requires form.title != "" && form.content != "" && form.authorName != ""
    requires form.category != "" && form.language != ""
    ensures var r := PostsRoute.CreatePost(Some(store), Some(FormBody(form)), id, now);
            && r.0.Created?
            && r.0.post.title == form.title && r.0.post.content == form.content
            && r.0.post.category == form.category && r.0.post.language == form.language
            && r.0.post.authorEmail == Some(form.authorEmail)
            && r.1 == Some(store + [r.0.post])
  {
  }

  /** A reset form cannot be posted: the route answers 400 and stores nothing. */
  lemma ResetFormIsRejected(store: Option<seq<Post>>, id: int, now: int)
    ensures PostsRoute.CreatePost(store, Some(FormBody(EmptyPostForm)), id, now)
         == (PostsRoute.CreateError(400, PostsRoute.FieldsMissing), store)
  {
  }

  // ---------------------------------------------------------------------------
  // Category label and colour

  /** The label tables of `getCategoryText`, one per board language. */
  function CategoryLabels(lang: Language): (m: map<string, string>)
    ensures forall c: PostCategory :: c.Name() in m && m[c.Name()] != ""
    ensures forall k :: k in m ==> ParsePostCategory(k).Some?
    ensures m.Keys == CategoryNames
  {
    match lang
    case Ko => map["food" := "음식", "prayer_room" := "기도실", "life_info" := "생활정보", "other" := "기타"]
    case En => map["food" := "Food", "prayer_room" := "Prayer Room", "life_info" := "Life Info", "other" := "Other"]
    case Ar => map["food" := "طعام", "prayer_room" := "غرفة الصلاة", "life_info" := "معلومات الحياة", "other" := "أخرى"]
  }

  /** The four category names, none of which `Object.prototype` defines. */
  const CategoryNames: set<string> := {"food", "prayer_room", "life_info", "other"}

  lemma CategoryNamesAreOwn()
    ensures CategoryNames !! ObjectPrototypeNames
  {
  }

  /** What the badge shows, including a value inherited from `Object.prototype`
      (a function or, for `__proto__`, an object) rather than text. */
  datatype Label = Text(text: string) | Inherited(name: string)

  /** `categories[language]?.[category] || category` as written. */
  function CategoryTextAsWritten(lang: Language, category: string): (l: Label)
    ensures l.Inherited? <==> category in ObjectPrototypeNames
    ensures l.Text? ==> l.text == CategoryText(lang, category)
  {
    CategoryNamesAreOwn();
    match LiteralLookup(CategoryLabels(lang), category)
    case Own(text) => Text(text)
    case PrototypeMember(name) => Inherited(name)
    case Missing => Text(category)
  }

  /** The label with own properties only: the table's entry for one of the
      four categories, the category string itself for anything else. */
  function CategoryText(lang: Language, category: string): (text: string)
    ensures ParsePostCategory(category).None? ==> text == category
    ensures ParsePostCategory(category).Some? ==> text != "" && text != category
  {
    var labels := CategoryLabels(lang);
    if category in labels then labels[category] else category
  }

  /** In every language the four categories get four different labels. */
  lemma CategoryTextInjective(lang: Language, a: PostCategory, b: PostCategory)
    requires a != b
    ensures CategoryText(lang, a.Name()) != CategoryText(lang, b.Name())
  {
  }

  /** A post stored with category `constructor`, which the create route
      accepts, gets an inherited function instead of a label. */
  lemma CategoryTextCounterexample(store: seq<Post>, lang: Language)
    ensures var b := PostsRoute.NewPostBody(Some(JString("t")), Some(JString("c")), Some(JString("constructor")),
                                             Some(JString("ko")), Some(JString("a")), None, None);
            var r := PostsRoute.CreatePost(Some(store), Some(b), 1, 0);
            && r.0.Created?
            && CategoryTextAsWritten(lang, r.0.post.category) == Inherited("constructor")
            && CategoryText(lang, r.0.post.category) == "constructor"
  {
  }

  const GrayBadge := "bg-gray-100 text-gray-800"

  /** The colour table of `getCategoryColor`. */
  const CategoryColors: map<string, string> := map[
    "food" := "bg-green-100 text-green-800",
    "prayer_room" := "bg-blue-100 text-blue-800",
    "life_info" := "bg-purple-100 text-purple-800",
    "other" := GrayBadge]

  /** `colors[category] || gray` as written. */
  function CategoryColorAsWritten(category: string): (l: Label)
    ensures l.Inherited? <==> category in ObjectPrototypeNames
    ensures l.Text? ==> l.text == CategoryColor(category)
  {
    CategoryNamesAreOwn();
    assert CategoryColors.Keys == CategoryNames;
    match LiteralLookup(CategoryColors, category)
    case Own(color) => Text(color)
    case PrototypeMember(name) => Inherited(name)
    case Missing => Text(GrayBadge)
  }

  /** The colour with own properties only: gray for `other` and for anything
      outside the four categories. */
  function CategoryColor(category: string): (color: string)
    ensures color == GrayBadge <==> ParsePostCategory(category) in {None, Some(Other)}
  {
    if category in CategoryColors then CategoryColors[category] else GrayBadge
  }

  /** A post with category `toString` gets an inherited function as its class name. */
  lemma CategoryColorCounterexample()
    ensures CategoryColorAsWritten("toString") == Inherited("toString")
    ensures CategoryColor("toString") == GrayBadge
  {
  }
}
