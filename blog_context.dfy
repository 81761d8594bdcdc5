/** The client's shared blog state: the post list and its two updaters, the
    category list, the current page, the page count, and the loading and error
    flags the list fetches set. */
module BlogContext {

  import opened Common

  /** A post as the client holds it: its `_id` and the fields the list shows. */
  datatype ClientPost = ClientPost(
    id: string, title: string, content: string, category: string, author: string, featuredImage: string)

  datatype CategoryEntry = CategoryEntry(id: string, name: string)

  predicate HasId(posts: seq<ClientPost>, id: string)
  {
    exists i :: 0 <= i < |posts| && posts[i].id == id
  }

  /** `addOrUpdatePost`: when a post with that id is in the list, every element
      with the id is replaced in place; otherwise the post goes in front. */
  function AddOrUpdate(posts: seq<ClientPost>, p: ClientPost): (r: seq<ClientPost>)
    ensures p in r
    ensures HasId(posts, p.id) ==>
              |r| == |posts|
              && forall i :: 0 <= i < |posts| ==>
                   (posts[i].id == p.id ==> r[i] == p) && (posts[i].id != p.id ==> r[i] == posts[i])
    ensures !HasId(posts, p.id) ==> |r| == |posts| + 1 && r[0] == p && r[1..] == posts
  {
    if HasId(posts, p.id) then
      var i :| 0 <= i < |posts| && posts[i].id == p.id;
      var r := seq(|posts|, k requires 0 <= k < |posts| => if posts[k].id == p.id then p else posts[k]);
      assert r[i] == p;
      r
    else [p] + posts
  }

  /** `deletePost`: the list without the elements that have the id. */
  function Delete(posts: seq<ClientPost>, id: string): (r: seq<ClientPost>)
    ensures !HasId(r, id)
    ensures forall x :: x in r <==> x in posts && x.id != id
    ensures |r| <= |posts|
  {
    if posts == [] then []
    else (if posts[0].id == id then [] else [posts[0]]) + Delete(posts[1..], id)
  }

  /** Deleting keeps the other posts in order: it works piece by piece. */
  lemma {:induction false} DeleteAppend(a: seq<ClientPost>, b: seq<ClientPost>, id: string)
    ensures Delete(a + b, id) == Delete(a, id) + Delete(b, id)
  {
    if a == [] {
      assert a + b == b;
    } else {
      assert (a + b)[1..] == a[1..] + b;
      DeleteAppend(a[1..], b, id);
    }
  }

  /** Deleting an id that is not in the list changes nothing. */
  lemma {:induction false} DeleteAbsent(posts: seq<ClientPost>, id: string)
    requires !HasId(posts, id)
    ensures Delete(posts, id) == posts
  {
    if posts != [] {
      assert posts[0].id != id;
      assert !HasId(posts[1..], id) by {
        forall i | 0 <= i < |posts[1..]| ensures posts[1..][i].id != id {
          assert posts[1..][i] == posts[i + 1];
        }
      }
      DeleteAbsent(posts[1..], id);
    }
  }

  lemma DeleteIdempotent(posts: seq<ClientPost>, id: string)
    ensures Delete(Delete(posts, id), id) == Delete(posts, id)
  {
    DeleteAbsent(Delete(posts, id), id);
  }

  /** Upserting the same post twice is upserting it once. */
  lemma AddOrUpdateIdempotent(posts: seq<ClientPost>, p: ClientPost)
    ensures AddOrUpdate(AddOrUpdate(posts, p), p) == AddOrUpdate(posts, p)
  {
    var once := AddOrUpdate(posts, p);
    assert HasId(once, p.id) by {
      var i :| 0 <= i < |once| && once[i] == p;
    }
    var twice := AddOrUpdate(once, p);
    assert |twice| == |once|;
    forall i | 0 <= i < |once| ensures twice[i] == once[i] {
      if !HasId(posts, p.id) && i > 0 {
        assert once[i] == posts[i - 1];
      }
    }
  }

  /** Upserting a post whose id is new and then deleting that id gives back the
      list. */
  lemma AddThenDelete(posts: seq<ClientPost>, p: ClientPost)
    requires !HasId(posts, p.id)
    ensures Delete(AddOrUpdate(posts, p), p.id) == posts
  {
    assert AddOrUpdate(posts, p) == [p] + posts;
    DeleteAppend([p], posts, p.id);
    DeleteAbsent(posts, p.id);
  }

  /** The reply of a list fetch: the posts of the page and the page count, or the
      message of the rejected request. */
  datatype PageData = PageData(posts: seq<ClientPost>, pages: int)

  datatype Fetch<T> = Fetched(data: T) | FetchFailed(message: string)

  class BlogProvider {
    var posts: seq<ClientPost>
    var categories: seq<CategoryEntry>
    var loading: bool
    var error: Option<string>
    var page: int
    var totalPages: int

    constructor ()
      ensures posts == [] && categories == [] && !loading && error == None
      ensures page == 1 && totalPages == 1
    {
      posts, categories := [], [];
      loading, error := false, None;
      page, totalPages := 1, 1;
    }

    /** The post-list effect for the current page. A failure keeps the old list;
        a success does not clear an earlier error. */
    method FetchPosts(reply: Fetch<PageData>)
      modifies this
      ensures !loading && page == old(page) && categories == old(categories)
      ensures reply.Fetched? ==> posts == reply.data.posts && totalPages == reply.data.pages && error == old(error)
      ensures reply.FetchFailed? ==> posts == old(posts) && totalPages == old(totalPages) && error == Some(reply.message)
    {
      loading := true;
      match reply
      case Fetched(data) =>
        posts := data.posts;
        totalPages := data.pages;
        loading := false;
      case FetchFailed(message) =>
        error := Some(message);
        loading := false;
    }

    method FetchCategories(reply: Fetch<seq<CategoryEntry>>)
      modifies this
      ensures !loading && posts == old(posts) && page == old(page) && totalPages == old(totalPages)
      ensures reply.Fetched? ==> categories == reply.data && error == old(error)
      ensures reply.FetchFailed? ==> categories == old(categories) && error == Some(reply.message)
    {
      loading := true;
      match reply
      case Fetched(data) =>
        categories := data;
        loading := false;
      case FetchFailed(message) =>
        error := Some(message);
        loading := false;
    }

    method AddOrUpdatePost(p: ClientPost)
      modifies this
      ensures posts == AddOrUpdate(old(posts), p)
      ensures categories == old(categories) && loading == old(loading) && error == old(error)
      ensures page == old(page) && totalPages == old(totalPages)
    {
      posts := AddOrUpdate(posts, p);
    }

    method DeletePost(id: string)
      modifies this
      ensures posts == Delete(old(posts), id)
      ensures categories == old(categories) && loading == old(loading) && error == old(error)
      ensures page == old(page) && totalPages == old(totalPages)
    {
      posts := Delete(posts, id);
    }

    /** `setPage(update)` with the functional update PostList passes. */
    method SetPage(next: int)
      modifies this
      ensures page == next
      ensures posts == old(posts) && categories == old(categories) && loading == old(loading)
      ensures error == old(error) && totalPages == old(totalPages)
    {
      page := next;
    }
  }
}
