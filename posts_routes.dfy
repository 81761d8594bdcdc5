/** The posts router: the order its routes are registered in, the two list
    handlers, and the get, create, update and delete handlers over the store. */
module PostsRoutes {

  import opened Common
  import opened Tables
  import opened Http
  import opened PostSchema
  import opened Store

  // ---------------------------------------------------------------------------
  // Registration order and dispatch
  // ---------------------------------------------------------------------------

  datatype Verb = GET | POST | PUT | DELETE

  /** `'/'` and `'/:id'`, relative to the router's mount point. */
  datatype Pattern = Root | ById

  datatype Handler = ListAll | GetOne | Create | Update | Remove | ListPage

  datatype Route = Route(verb: Verb, pattern: Pattern, handler: Handler)

  /** The routes in the order the router registers them: the unpaginated list
      first and the paginated list last. */
  const Routes: seq<Route> := [
    Route(GET, Root, ListAll),
    Route(GET, ById, GetOne),
    Route(POST, Root, Create),
    Route(PUT, ById, Update),
    Route(DELETE, ById, Remove),
    Route(GET, Root, ListPage)
  ]

  /** The `:id` segment of a path of the form `/<id>` or `/<id>/`. */
  function IdSegment(path: string): (seg: Option<string>)
    ensures seg.Some? ==> seg.value != "" && '/' !in seg.value
    ensures seg.Some? ==> path == "/" + seg.value || path == "/" + seg.value + "/"
  {
    if |path| >= 2 && path[0] == '/' then
      var rest := if path[|path| - 1] == '/' then path[1..|path| - 1] else path[1..];
      if rest != "" && '/' !in rest then
        assert path == "/" + rest || path == "/" + rest + "/";
        Some(rest)
      else None
    else None
  }

  /** The other direction: every non-empty segment without a slash is matched as
      `:id`, with or without a trailing slash. */
  lemma IdSegmentOf(s: string)
    requires s != "" && '/' !in s
    ensures IdSegment("/" + s) == Some(s) && IdSegment("/" + s + "/") == Some(s)
  {
    var a, b := "/" + s, "/" + s + "/";
    assert a[1..] == s && a[|a| - 1] == s[|s| - 1];
    assert b[1..|b| - 1] == s;
  }

  predicate PathMatches(pattern: Pattern, path: string)
  {
    match pattern
    case Root => path == "/" || path == ""
    case ById => IdSegment(path).Some?
  }

  predicate RouteMatches(route: Route, verb: Verb, path: string)
  {
    route.verb == verb && PathMatches(route.pattern, path)
  }

  /** Express runs the first registered route that matches; every handler here
      answers or passes an error to the error middleware, so no later route runs. */
  function FirstMatch(routes: seq<Route>, verb: Verb, path: string): (i: Option<nat>)
    ensures i.Some? ==> i.value < |routes| && RouteMatches(routes[i.value], verb, path)
    ensures i.Some? ==> forall j :: 0 <= j < i.value ==> !RouteMatches(routes[j], verb, path)
    ensures i.None? ==> forall j :: 0 <= j < |routes| ==> !RouteMatches(routes[j], verb, path)
  {
    if routes == [] then None
    else if RouteMatches(routes[0], verb, path) then Some(0)
    else
      match FirstMatch(routes[1..], verb, path)
      case None => None
      case Some(k) => Some(k + 1)
  }

  /** A route registered after another with the same verb and pattern is never run. */
  lemma LaterDuplicateNeverRuns(routes: seq<Route>, i: nat, j: nat, verb: Verb, path: string)
    requires i < j < |routes|
    requires routes[i].verb == routes[j].verb && routes[i].pattern == routes[j].pattern
    ensures FirstMatch(routes, verb, path) != Some(j)
  {
  }

  /** The handler Express runs for a request, if any route matches. */
  function Dispatch(verb: Verb, path: string): (h: Option<Handler>)
    ensures h.None? <==> forall j :: 0 <= j < |Routes| ==> !RouteMatches(Routes[j], verb, path)
    ensures h.Some? ==> exists i :: 0 <= i < |Routes| && Routes[i].handler == h.value
                                    && RouteMatches(Routes[i], verb, path)
                                    && forall j :: 0 <= j < i ==> !RouteMatches(Routes[j], verb, path)
  {
    match FirstMatch(Routes, verb, path)
    case None => None
    case Some(i) => Some(Routes[i].handler)
  }

  /** The paginated list handler is shadowed: no request reaches it, and a list
      request (the query string plays no part in matching) gets the bare array. */
  lemma PaginatedListIsShadowed(verb: Verb, path: string)
    ensures Dispatch(verb, path) != Some(ListPage)
    ensures Dispatch(GET, "/") == Some(ListAll)
  {
    LaterDuplicateNeverRuns(Routes, 0, 5, verb, path);
    assert RouteMatches(Routes[0], GET, "/");
  }

  // ---------------------------------------------------------------------------
  // GET / (registered first): every post, as a bare array
  // ---------------------------------------------------------------------------

  function ListAllPosts(posts: Table<Post>): (r: Response<seq<Post>>)
    requires posts.Valid()
    ensures r.Respond? && r.status == 200 && r.body.Json?
    ensures |r.body.value| == |posts.rows| == |posts.order|
    ensures forall i :: 0 <= i < |posts.order| ==> r.body.value[i] == posts.rows[posts.order[i]]
    ensures forall id :: id in posts.rows ==> posts.rows[id] in r.body.value
  {
    var all := posts.Values();
    assert forall id :: id in posts.rows ==> posts.rows[id] in all by {
      forall id | id in posts.rows ensures posts.rows[id] in all {
        var i :| 0 <= i < |posts.order| && posts.order[i] == id;
        assert all[i] == posts.rows[id];
      }
    }
    Respond(200, Json(all))
  }

  // ---------------------------------------------------------------------------
  // GET / (registered last): one page of posts plus pagination data
  // ---------------------------------------------------------------------------

  /** `parseInt(query) || fallback`, with `None` standing for NaN: NaN and 0 fall
      back, every other value (a negative one too) is kept. */
  function OrDefault(parsed: Option<int>, fallback: int): (v: int)
    ensures fallback != 0 ==> v != 0
    ensures v == fallback || (parsed.Some? && v == parsed.value)
  {
    if parsed.Some? && parsed.value != 0 then parsed.value else fallback
  }

  lemma QueryDefaults(parsed: Option<int>)
    ensures OrDefault(parsed, 1) != 0 && OrDefault(parsed, 6) != 0
    ensures (parsed.None? || parsed.value == 0) ==> OrDefault(parsed, 1) == 1 && OrDefault(parsed, 6) == 6
    ensures parsed.Some? && parsed.value != 0 ==> OrDefault(parsed, 1) == parsed.value == OrDefault(parsed, 6)
  {
  }

  function Min(a: int, b: int): int { if a <= b then a else b }

  function Abs(a: int): nat { if a < 0 then -a else a }

  /** `Math.ceil(total / limit)` for a non-zero limit. */
  function CeilDiv(total: nat, limit: int): (pages: int)
    requires limit != 0
    ensures limit > 0 ==> pages >= 0
    ensures limit < 0 ==> pages <= 0
  {
    if limit > 0 then (total + limit - 1) / limit else -(total / -limit)
  }

  /** For a positive limit, `pages` is the least number of pages of `limit` posts
      that hold `total` posts. */
  lemma CeilDivIsCeiling(total: nat, limit: int)
    requires limit > 0
    ensures CeilDiv(total, limit) >= 0
    ensures (CeilDiv(total, limit) - 1) * limit < total <= CeilDiv(total, limit) * limit
  {
    var n := total + limit - 1;
    var q, r := n / limit, n % limit;
    assert n == q * limit + r && 0 <= r < limit;
    assert (q - 1) * limit == q * limit - limit;
  }

  /** `Model.find().skip(skip).limit(count)`: at most `count` documents, taken
      from position `skip` on. */
  function Window<T>(all: seq<T>, skip: nat, count: nat): (w: seq<T>)
    ensures |w| <= count
    ensures skip >= |all| ==> w == []
    ensures skip < |all| ==> |w| == Min(count, |all| - skip)
    ensures forall i :: 0 <= i < |w| ==> skip + i < |all| && w[i] == all[skip + i]
  {
    if skip >= |all| then [] else all[skip..skip + Min(count, |all| - skip)]
  }

  datatype PageInfo = PageInfo(posts: seq<Post>, total: nat, page: int, pages: int)

  /** MongoDB rejects a negative skip (the request goes to the error middleware)
      and takes a negative limit as its absolute value. */
  function ListPostsPage(posts: Table<Post>, pageQuery: Option<int>, limitQuery: Option<int>): (r: Response<PageInfo>)
    requires posts.Valid()
    ensures r.Forward? <==> var page, limit := OrDefault(pageQuery, 1), OrDefault(limitQuery, 6);
                            (page < 1 && limit > 0) || (page > 1 && limit < 0)
    ensures r.Respond? ==> r.status == 200 && r.body.Json?
                           && r.body.value.total == |posts.rows|
                           && r.body.value.page == OrDefault(pageQuery, 1)
                           && |r.body.value.posts| <= Abs(OrDefault(limitQuery, 6))
  {
    var page := OrDefault(pageQuery, 1);
    var limit := OrDefault(limitQuery, 6);
    ProductSign(page - 1, limit);
    PageAt(posts, page, limit, (page - 1) * limit)
  }

  lemma ProductSign(a: int, b: int)
    ensures a * b < 0 <==> (a < 0 && b > 0) || (a > 0 && b < 0)
  {
    if a < 0 && b > 0 {
      MulMono(a, 0, b);
      assert a * b != 0;
    } else if a > 0 && b < 0 {
      MulMono(b, 0, a);
      assert a * b != 0;
    } else if a >= 0 && b >= 0 {
      MulMono(0, a, b);
    } else if a <= 0 && b <= 0 {
      MulMono(0, -a, -b);
      assert (-a) * (-b) == a * b;
    }
  }

  /** The handler once the query has been read; `skip` is `(page - 1) * limit`. */
  function PageAt(posts: Table<Post>, page: int, limit: int, skip: int): (r: Response<PageInfo>)
    requires posts.Valid() && limit != 0
    ensures r.Forward? <==> skip < 0
    ensures r.Respond? ==> r.status == 200 && r.body.Json?
                           && r.body.value.total == |posts.rows| && r.body.value.page == page
                           && r.body.value.pages == CeilDiv(|posts.rows|, limit)
                           && |r.body.value.posts| <= Abs(limit)
  {
    if skip < 0 then Forward("skip must be non-negative")
    else
      var all := posts.Values();
      Respond(200, Json(PageInfo(Window(all, skip, Abs(limit)), |all|, page, CeilDiv(|all|, limit))))
  }

  /** With a positive limit and a skip that is not negative, the page holds the
      posts from position `skip` on, as many as the limit allows. */
  lemma PageAtContents(posts: Table<Post>, page: int, limit: int, skip: int)
    requires posts.Valid() && limit > 0 && skip >= 0
    ensures var r := PageAt(posts, page, limit, skip);
            r.Respond? && r.body.Json?
            && var info := r.body.value;
            |info.posts| <= limit
            && (skip < |posts.order| ==> |info.posts| == Min(limit, |posts.order| - skip))
            && (forall i :: 0 <= i < |info.posts| ==>
                  skip + i < |posts.order| && info.posts[i] == posts.rows[posts.order[skip + i]])
            && info.total == |posts.rows| && info.pages == CeilDiv(|posts.rows|, limit)
  {
    WindowOfValues(posts, skip, limit);
  }

  /** A window over the stored posts holds them in collection order. */
  lemma WindowOfValues(posts: Table<Post>, skip: nat, count: nat)
    requires posts.Valid()
    ensures var w := Window(posts.Values(), skip, count);
            forall i :: 0 <= i < |w| ==> skip + i < |posts.order| && w[i] == posts.rows[posts.order[skip + i]]
  {
  }

  /** With page >= 1 and limit > 0 the page holds the posts from offset
      (page - 1) * limit on, at most `limit` of them, and `pages` is the ceiling of
      total / limit. (A missing or zero query value reads as page 1 or limit 6,
      which `QueryDefaults` states.) */
  lemma PageContents(posts: Table<Post>, page: int, limit: int)
    requires posts.Valid() && page >= 1 && limit > 0
    ensures var r := ListPostsPage(posts, Some(page), Some(limit));
            r.Respond? && r.body.Json?
            && var info := r.body.value;
            |info.posts| <= limit
            && ((page - 1) * limit < |posts.order| ==> |info.posts| == Min(limit, |posts.order| - (page - 1) * limit))
            && ((page - 1) * limit >= |posts.order| ==> info.posts == [])
            && (forall i :: 0 <= i < |info.posts| ==>
                  (page - 1) * limit + i < |posts.order|
                  && info.posts[i] == posts.rows[posts.order[(page - 1) * limit + i]])
            && info.page == page && info.total == |posts.rows|
            && (info.pages - 1) * limit < info.total <= info.pages * limit
  {
    var skip := (page - 1) * limit;
    MulMono(0, page - 1, limit);
    assert ListPostsPage(posts, Some(page), Some(limit)) == PageAt(posts, page, limit, skip);
    PageAtContents(posts, page, limit, skip);
    CeilDivIsCeiling(|posts.rows|, limit);
  }

  /** A page past the last one is empty and carries the same total and page
      count as the first page. */
  lemma PagePastEndIsEmpty(posts: Table<Post>, page: int, limit: int)
    requires posts.Valid() && limit > 0
    requires page > CeilDiv(|posts.rows|, limit) && page >= 1
    ensures var r, first := ListPostsPage(posts, Some(page), Some(limit)), ListPostsPage(posts, Some(1), Some(limit));
            r.Respond? && r.body.Json? && first.Respond? && first.body.Json?
            && r.body.value.posts == []
            && r.body.value.total == first.body.value.total
            && r.body.value.pages == first.body.value.pages
  {
    var skip := (page - 1) * limit;
    var pages := CeilDiv(|posts.rows|, limit);
    CeilDivIsCeiling(|posts.rows|, limit);
    MulMono(pages, page - 1, limit);
    assert skip >= |posts.rows|;
    assert ListPostsPage(posts, Some(page), Some(limit)) == PageAt(posts, page, limit, skip);
    assert ListPostsPage(posts, Some(1), Some(limit)) == PageAt(posts, 1, limit, 0);
  }

  lemma MulMono(a: int, b: int, c: int)
    requires a <= b && c >= 0
    ensures a * c <= b * c
  {
    assert b * c - a * c == (b - a) * c;
  }

  /** The page that holds position k is not past the last page. */
  lemma PositionWithinPages(total: nat, limit: int, k: nat)
    requires limit > 0 && k < total
    ensures k / limit + 1 <= CeilDiv(total, limit)
    ensures (k / limit) * limit + k % limit == k && 0 <= k % limit < limit
  {
    var pages := CeilDiv(total, limit);
    CeilDivIsCeiling(total, limit);
    if pages < k / limit + 1 {
      MulMono(pages, k / limit, limit);
      assert false;
    }
  }

  /** Every post lies on exactly the page its position gives: post k of the
      collection is entry k % limit of page k / limit + 1, and that page is not
      past the last one. */
  lemma EveryPostOnItsPage(posts: Table<Post>, limit: int, k: nat)
    requires posts.Valid() && limit > 0 && k < |posts.order|
    ensures var r := ListPostsPage(posts, Some(k / limit + 1), Some(limit));
            r.Respond? && r.body.Json?
            && k / limit + 1 <= r.body.value.pages
            && k % limit < |r.body.value.posts|
            && r.body.value.posts[k % limit] == posts.rows[posts.order[k]]
  {
    var q, m := k / limit, k % limit;
    PositionWithinPages(|posts.order|, limit, k);
    assert posts.order[q * limit + m] == posts.order[k];
    EntryOnPage(posts, limit, q, m);
  }

  /** Entry `m` of page `q + 1` is the post at position q * limit + m. */
  lemma EntryOnPage(posts: Table<Post>, limit: int, q: nat, m: nat)
    requires posts.Valid() && limit > 0 && m < limit && q * limit + m < |posts.order|
    ensures var r := ListPostsPage(posts, Some(q + 1), Some(limit));
            r.Respond? && r.body.Json?
            && r.body.value.pages == CeilDiv(|posts.order|, limit)
            && m < |r.body.value.posts|
            && r.body.value.posts[m] == posts.rows[posts.order[q * limit + m]]
  {
    var skip := q * limit;
    MulMono(0, q, limit);
    assert ListPostsPage(posts, Some(q + 1), Some(limit)) == PageAt(posts, q + 1, limit, skip);
    PageAtContents(posts, q + 1, limit, skip);
  }

  /** Ten stored posts, page 2 with limit 6: the last four posts, two pages. */
  lemma TenPostsSecondPage(posts: Table<Post>)
    requires posts.Valid() && |posts.rows| == 10
    ensures var r := ListPostsPage(posts, Some(2), Some(6));
            r.Respond? && r.body.Json? && |r.body.value.posts| == 4 && r.body.value.pages == 2
            && r.body.value.posts == posts.Values()[6..]
  {
    assert ListPostsPage(posts, Some(2), Some(6)) == PageAt(posts, 2, 6, 6);
  }

  /** Negative query values pass the `|| default` step unchanged: a negative page
      makes a negative skip, which the store rejects; a negative limit on page 1
      still answers, with a page count that is not positive. */
  lemma NegativeQueriesPassThrough(posts: Table<Post>, p: int, l: int)
    requires posts.Valid() && p < 0 && l < 0
    ensures ListPostsPage(posts, Some(p), None).Forward?
    ensures var r := ListPostsPage(posts, None, Some(l));
            r.Respond? && r.body.Json? && r.body.value.pages <= 0
            && |r.body.value.posts| <= -l
  {
    assert OrDefault(None, 1) == 1 && OrDefault(Some(l), 6) == l;
    assert ListPostsPage(posts, None, Some(l)) == PageAt(posts, 1, l, 0);
  }

  // ---------------------------------------------------------------------------
  // GET /:id
  // ---------------------------------------------------------------------------

  function GetPost(posts: Table<Post>, id: string): (r: Response<Post>)
    ensures r.Respond?
    ensures r.status == 400 <==> !IsMongoId(id)
    ensures r.status == 400 ==> r.body == Errors([FieldError("id", "Invalid post ID")])
    ensures r.status == 404 <==> IsMongoId(id) && id !in posts.rows
    ensures r.status == 404 ==> r.body == Message("Post not found")
    ensures r.status == 200 <==> IsMongoId(id) && id in posts.rows
    ensures r.status == 200 ==> r.body == Json(posts.rows[id])
  {
    if !IsMongoId(id) then Respond(400, Errors([FieldError("id", "Invalid post ID")]))
    else if id !in posts.rows then Reply(404, "Post not found")
    else Respond(200, Json(posts.rows[id]))
  }

  // ---------------------------------------------------------------------------
  // POST /
  // ---------------------------------------------------------------------------

  /** The body fields of a create request; a missing field reads as `''`. */
  datatype PostFields = PostFields(title: string, content: string, category: string, author: string)

  function ErrorIf(failed: bool, field: string, msg: string): seq<FieldError>
  {
    if failed then [FieldError(field, msg)] else []
  }

  /** The create route's validators, in the order they are declared. */
  function CreateErrors(f: PostFields): (errs: seq<FieldError>)
    ensures errs == [] <==> f.title != "" && f.content != "" && IsMongoId(f.category) && f.author != ""
    ensures f.title == "" ==> FieldError("title", "Title is required") in errs
    ensures f.content == "" ==> FieldError("content", "Content is required") in errs
    ensures !IsMongoId(f.category) ==> FieldError("category", "Valid category ID is required") in errs
    ensures f.author == "" ==> FieldError("author", "Author is required") in errs
    ensures |errs| <= 4
  {
    ErrorIf(f.title == "", "title", "Title is required")
    + ErrorIf(f.content == "", "content", "Content is required")
    + ErrorIf(!IsMongoId(f.category), "category", "Valid category ID is required")
    + ErrorIf(f.author == "", "author", "Author is required")
  }

  /** Builds the post and saves it. The schema's required check runs at save: a
      title or author that trimmed to `''` makes the save throw, and the error goes
      to the error middleware. */
  method SaveNewPost(db: Db, title: string, content: string, category: Id, author: string,
                     image: Option<string>, newId: Id) returns (r: Response<Post>)
    requires db.Valid() && newId !in db.posts.rows && category in db.categories.rows
    modifies db
    ensures db.Valid()
    ensures db.categories == old(db.categories) && db.comments == old(db.comments) && db.users == old(db.users)
    ensures var p := NewPost(title, content, category, author, image);
            if Conforms(p) then r == Respond(201, Json(p)) && db.posts == old(db.posts).Insert(newId, p)
            else r.Forward? && db.posts == old(db.posts)
  {
    var p := NewPost(title, content, category, author, image);
    if !Conforms(p) {
      return Forward("Post validation failed");
    }
    var t := db.posts.Insert(newId, p);
    assert forall id :: id in t.rows ==> PostOk(t.rows[id], db.categories);
    db.posts := t;
    r := Respond(201, Json(p));
  }

  method CreatePost(db: Db, f: PostFields, newId: Id) returns (r: Response<Post>)
    requires db.Valid() && newId !in db.posts.rows
    modifies db
    ensures db.Valid()
    ensures db.categories == old(db.categories) && db.comments == old(db.comments) && db.users == old(db.users)
    ensures CreateErrors(f) != [] ==> r == Respond(400, Errors(CreateErrors(f))) && db.posts == old(db.posts)
    ensures CreateErrors(f) == [] && f.category !in old(db.categories.rows)
            ==> r == Reply(400, "Category not found") && db.posts == old(db.posts)
    ensures CreateErrors(f) == [] && f.category in old(db.categories.rows) ==>
            var p := NewPost(Trim(f.title), f.content, f.category, Trim(f.author), None);
            if Conforms(p) then r == Respond(201, Json(p)) && db.posts == old(db.posts).Insert(newId, p)
            else r.Forward? && db.posts == old(db.posts)
  {
    var errs := CreateErrors(f);
    if errs != [] {
      return Respond(400, Errors(errs));
    }
    // the title and author validators end with .trim()
    var title, author := Trim(f.title), Trim(f.author);
    if f.category !in db.categories.rows {
      return Reply(400, "Category not found");
    }
    r := SaveNewPost(db, title, f.content, f.category, author, None, newId);
  }

  // ---------------------------------------------------------------------------
  // PUT /:id
  // ---------------------------------------------------------------------------

  /** The body fields of an update request; `None` is a field left out. */
  datatype UpdateFields = UpdateFields(
    title: Option<string>, content: Option<string>, category: Option<string>, author: Option<string>)

  /** The update route's validators: the id, then each supplied field. */
  function UpdateErrors(id: string, f: UpdateFields): (errs: seq<FieldError>)
    ensures errs == [] <==> IsMongoId(id)
                            && (f.title.Some? ==> f.title.value != "")
                            && (f.content.Some? ==> f.content.value != "")
                            && (f.category.Some? ==> IsMongoId(f.category.value))
                            && (f.author.Some? ==> f.author.value != "")
    ensures !IsMongoId(id) ==> FieldError("id", "Invalid post ID") in errs
    ensures f.title.Some? && f.title.value == "" ==> FieldError("title", "Title cannot be empty") in errs
    ensures f.content.Some? && f.content.value == "" ==> FieldError("content", "Content cannot be empty") in errs
    ensures f.category.Some? && !IsMongoId(f.category.value)
            ==> FieldError("category", "Valid category ID is required") in errs
    ensures f.author.Some? && f.author.value == "" ==> FieldError("author", "Author cannot be empty") in errs
    ensures |errs| <= 5
  {
    ErrorIf(!IsMongoId(id), "id", "Invalid post ID")
    + ErrorIf(f.title.Some? && f.title.value == "", "title", "Title cannot be empty")
    + ErrorIf(f.content.Some? && f.content.value == "", "content", "Content cannot be empty")
    + ErrorIf(f.category.Some? && !IsMongoId(f.category.value), "category", "Valid category ID is required")
    + ErrorIf(f.author.Some? && f.author.value == "", "author", "Author cannot be empty")
  }

  function TrimmedOpt(s: Option<string>): Option<string>
  {
    if s.Some? then Some(Trim(s.value)) else None
  }

  /** The update document of a validated request: title and author trimmed by the
      sanitizers, `image` the new featured image if any. */
  function UpdateDoc(f: UpdateFields, image: Option<string>): (u: PostUpdate)
    ensures u.featuredImage == image && u.content == f.content && u.category == f.category
    ensures u.title.Some? <==> f.title.Some?
    ensures f.title.Some? ==> u.title.value == Trim(f.title.value)
    ensures u.author.Some? <==> f.author.Some?
    ensures f.author.Some? ==> u.author.value == Trim(f.author.value)
  {
    PostUpdate(TrimmedOpt(f.title), f.content, f.category, TrimmedOpt(f.author), image)
  }

  /** The checks after validation: the category (only when one is supplied), the
      update validators, then the lookup. The category check comes before the
      lookup, so a bad category on a missing post answers 400, not 404. */
  method UpdateStored(db: Db, id: Id, u: PostUpdate) returns (r: Response<Post>)
    requires db.Valid()
    modifies db
    ensures db.Valid()
    ensures db.categories == old(db.categories) && db.comments == old(db.comments) && db.users == old(db.users)
    ensures u.category.Some? && u.category.value !in old(db.categories.rows)
            ==> r == Reply(400, "Category not found") && db.posts == old(db.posts)
    ensures (u.category.None? || u.category.value in old(db.categories.rows)) && !UpdateConforms(u)
            ==> r.Forward? && db.posts == old(db.posts)
    ensures (u.category.None? || u.category.value in old(db.categories.rows)) && UpdateConforms(u)
            && id !in old(db.posts.rows)
            ==> r == Reply(404, "Post not found") && db.posts == old(db.posts)
    ensures (u.category.None? || u.category.value in old(db.categories.rows)) && UpdateConforms(u)
            && id in old(db.posts.rows)
            ==> var q := ApplyUpdate(old(db.posts.rows[id]), u);
                r == Respond(200, Json(q)) && db.posts == old(db.posts).Replace(id, q)
  {
    if u.category.Some? && u.category.value !in db.categories.rows {
      return Reply(400, "Category not found");
    }
    if !UpdateConforms(u) {
      return Forward("Validation failed");
    }
    if id !in db.posts.rows {
      return Reply(404, "Post not found");
    }
    var before := db.posts.rows[id];
    var q := ApplyUpdate(before, u);
    UpdateKeepsConformance(before, u);
    db.posts := db.posts.Replace(id, q);
    r := Respond(200, Json(q));
  }

  method UpdatePost(db: Db, id: string, f: UpdateFields) returns (r: Response<Post>)
    requires db.Valid()
    modifies db
    ensures db.Valid()
    ensures db.categories == old(db.categories) && db.comments == old(db.comments) && db.users == old(db.users)
    ensures UpdateErrors(id, f) != [] ==> r == Respond(400, Errors(UpdateErrors(id, f))) && db.posts == old(db.posts)
    ensures UpdateErrors(id, f) == [] && f.category.Some? && f.category.value !in old(db.categories.rows)
            ==> r == Reply(400, "Category not found") && db.posts == old(db.posts)
    ensures UpdateErrors(id, f) == [] && (f.category.None? || f.category.value in old(db.categories.rows))
            && UpdateConforms(UpdateDoc(f, None)) && id in old(db.posts.rows)
            ==> var q := ApplyUpdate(old(db.posts.rows[id]), UpdateDoc(f, None));
                r == Respond(200, Json(q)) && db.posts == old(db.posts).Replace(id, q)
                && q.featuredImage == old(db.posts.rows[id]).featuredImage
    ensures UpdateErrors(id, f) == [] && (f.category.None? || f.category.value in old(db.categories.rows))
            && !UpdateConforms(UpdateDoc(f, None))
            ==> r.Forward? && db.posts == old(db.posts)
    ensures UpdateErrors(id, f) == [] && (f.category.None? || f.category.value in old(db.categories.rows))
            && UpdateConforms(UpdateDoc(f, None)) && id !in old(db.posts.rows)
            ==> r == Reply(404, "Post not found") && db.posts == old(db.posts)
    ensures r.Respond? && r.status == 404 ==> r.body == Message("Post not found") && id !in db.posts.rows
  {
    var errs := UpdateErrors(id, f);
    if errs != [] {
      return Respond(400, Errors(errs));
    }
    r := UpdateStored(db, id, UpdateDoc(f, None));
  }

  // ---------------------------------------------------------------------------
  // DELETE /:id
  // ---------------------------------------------------------------------------

  method DeletePost(db: Db, id: string) returns (r: Response<Post>)
    requires db.Valid()
    modifies db
    ensures db.Valid()
    ensures db.categories == old(db.categories) && db.comments == old(db.comments) && db.users == old(db.users)
    ensures !IsMongoId(id) ==> r == Respond(400, Errors([FieldError("id", "Invalid post ID")])) && db.posts == old(db.posts)
    ensures IsMongoId(id) && id !in old(db.posts.rows) ==> r == Reply(404, "Post not found") && db.posts == old(db.posts)
    ensures IsMongoId(id) && id in old(db.posts.rows) ==>
            r == Reply(200, "Post deleted successfully") && db.posts == old(db.posts).Remove(id)
            && |db.posts.rows| == |old(db.posts.rows)| - 1
  {
    if !IsMongoId(id) {
      return Respond(400, Errors([FieldError("id", "Invalid post ID")]));
    }
    if id !in db.posts.rows {
      return Reply(404, "Post not found");
    }
    db.posts := db.posts.Remove(id);
    r := Reply(200, "Post deleted successfully");
  }
}
