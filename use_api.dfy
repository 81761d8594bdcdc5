/** The `useApi` hook: one `request` function and the hook's own `loading` and
    `error` flags. A request first runs the optimistic callback it was given,
    then the network call; on failure it records the error text and calls the
    callback a second time when the first call returned a truthy value. The
    network call itself is an input: its reply is `net`. */
module UseApi {

  import opened Common
  import opened BlogContext

  /** A form or JSON body field: text, or an uploaded file named by its file name. */
  datatype FieldValue = Text(text: string) | Upload(filename: string)

  datatype Payload = NoBody | Form(entries: seq<(string, FieldValue)>) | JsonBody(fields: seq<(string, FieldValue)>)

  /** `FormData.get`: the value of the first entry with that name. */
  function Get(entries: seq<(string, FieldValue)>, name: string): (v: Option<FieldValue>)
  {
    if entries == [] then None
    else if entries[0].0 == name then Some(entries[0].1)
    else Get(entries[1..], name)
  }

  /** The HTTP call `request` hands to axios. `headers` is what goes with it:
      this hook passes none, so no call carries an `Authorization` header. */
  datatype Call = Call(verb: string, url: string, data: Payload, headers: map<string, string>)

  /** The axios reply: the response data, or a rejection with the error's message
      and the `message` field of the response body, if the body had one. */
  datatype NetResult<D> = Ok(data: D) | Err(message: string, serverMessage: Option<string>)

  /** The values callbacks return, as far as JavaScript truthiness is concerned. */
  datatype JsValue = Undefined | Null | PostValue(post: ClientPost)

  predicate Truthy(v: JsValue)
  {
    v.PostValue?
  }

  /** What the callers of this program pass as `optimisticUpdate`: nothing; the
      post form's arrow that upserts an entry and returns undefined; the post
      view's arrow that deletes the post and returns the post it shows (null
      until it has loaded); and the auth provider's `{ headers }` object, which is
      not a function. Both arrows close over the blog provider they change. */
  datatype Callback =
    | NoCallback
    | UpsertEntry(blog: BlogProvider, entry: ClientPost)
    | DeleteReturning(blog: BlogProvider, id: string, shown: Option<ClientPost>)
    | NotCallable
  {
    predicate Invocable()
    {
      UpsertEntry? || DeleteReturning?
    }

    function Targets(): set<object>
    {
      if Invocable() then {blog} else {}
    }

    /** What a call of the callback returns. */
    function Snapshot(): (v: JsValue)
      requires Invocable()
      ensures UpsertEntry? ==> !Truthy(v)
      ensures DeleteReturning? ==> (Truthy(v) <==> shown.Some?)
    {
      if UpsertEntry? then Undefined
      else if shown.Some? then PostValue(shown.value)
      else Null
    }

    /** What a call of the callback does to the blog provider's post list. */
    function Effect(posts: seq<ClientPost>): (r: seq<ClientPost>)
      requires Invocable()
      ensures UpsertEntry? ==> entry in r && (HasId(posts, entry.id) ==> |r| == |posts|)
      ensures UpsertEntry? && !HasId(posts, entry.id) ==> r == [entry] + posts
      ensures DeleteReturning? ==> !HasId(r, id) && forall x :: x in r <==> x in posts && x.id != id
    {
      if UpsertEntry? then AddOrUpdate(posts, entry) else Delete(posts, id)
    }
  }

  /** Calls the callback once; it ignores its argument. */
  method Invoke(cb: Callback) returns (v: JsValue)
    requires cb.Invocable()
    modifies cb.blog
    ensures v == cb.Snapshot()
    ensures cb.blog.posts == cb.Effect(old(cb.blog.posts))
    ensures cb.blog.categories == old(cb.blog.categories) && cb.blog.page == old(cb.blog.page)
    ensures cb.blog.totalPages == old(cb.blog.totalPages)
    ensures cb.blog.loading == old(cb.blog.loading) && cb.blog.error == old(cb.blog.error)
  {
    if cb.UpsertEntry? {
      cb.blog.AddOrUpdatePost(cb.entry);
      v := Undefined;
    } else {
      cb.blog.DeletePost(cb.id);
      v := if cb.shown.Some? then PostValue(cb.shown.value) else Null;
    }
  }

  /** The rejection a failed request rethrows: the axios error, or the TypeError
      of calling a callback that is not a function. */
  datatype Rejection = RequestFailed(message: string) | NotAFunction

  datatype Outcome<D> = Resolved(data: D) | Rejected(reason: Rejection)

  /** `err.response?.data?.message || 'Something went wrong'`. */
  function ErrorText(serverMessage: Option<string>): (text: string)
    ensures text != ""
    ensures serverMessage.Some? && serverMessage.value != "" ==> text == serverMessage.value
    ensures serverMessage.None? || serverMessage.value == "" ==> text == "Something went wrong"
  {
    if serverMessage.Some? && serverMessage.value != "" then serverMessage.value else "Something went wrong"
  }

  class ApiHook {
    var loading: bool
    var error: Option<string>

    constructor ()
      ensures !loading && error == None
    {
      loading, error := false, None;
    }

    /** `request(method, url, data, optimisticUpdate)`. `sent` is the call handed
        to axios (none when the callback throws first); `invoked` counts the calls
        of the callback. */
    method Request<D>(verb: string, url: string, data: Payload, cb: Callback, net: NetResult<D>)
      returns (r: Outcome<D>, sent: Option<Call>, invoked: nat)
      modifies this, cb.Targets()
      ensures cb.NotCallable? ==> r == Rejected(NotAFunction) && sent == None && invoked == 1
                                  && loading && error == None
      ensures !cb.NotCallable? ==> sent == Some(Call(verb, url, data, map[])) && !loading
      ensures !cb.NotCallable? && net.Ok? ==>
                r == Resolved(net.data) && error == None && invoked == (if cb.NoCallback? then 0 else 1)
      ensures !cb.NotCallable? && net.Err? ==>
                r == Rejected(RequestFailed(net.message)) && error == Some(ErrorText(net.serverMessage))
                && invoked == (if cb.NoCallback? then 0 else if Truthy(cb.Snapshot()) then 2 else 1)
      ensures cb.Invocable() && invoked == 1 ==> cb.blog.posts == cb.Effect(old(cb.blog.posts))
      ensures cb.Invocable() && invoked == 2 ==> cb.blog.posts == cb.Effect(cb.Effect(old(cb.blog.posts)))
      ensures cb.Invocable() ==>
                cb.blog.categories == old(cb.blog.categories) && cb.blog.page == old(cb.blog.page)
                && cb.blog.totalPages == old(cb.blog.totalPages)
                && cb.blog.loading == old(cb.blog.loading) && cb.blog.error == old(cb.blog.error)
    {
      loading := true;
      error := None;
      invoked := 0;
      var previous := Null;
      if cb.NotCallable? {
        // Calling an object throws before the try block: the promise rejects and
        // `loading` stays true.
        return Rejected(NotAFunction), None, 1;
      }
      if cb.Invocable() {
        previous := Invoke(cb);
        invoked := 1;
      }
      sent := Some(Call(verb, url, data, map[]));
      match net
      case Ok(d) =>
        loading := false;
        r := Resolved(d);
      case Err(message, serverMessage) =>
        loading := false;
        error := Some(ErrorText(serverMessage));
        if cb.Invocable() && Truthy(previous) {
          var ignored := Invoke(cb);
          invoked := 2;
        }
        r := Rejected(RequestFailed(message));
    }
  }

  /** The post view's delete: when the server refuses and the post was on
      screen, the second call of the callback deletes again instead of putting
      the post back, so a post that was in the list stays out of it. */
  lemma FailedDeleteDoesNotRestore(blog: BlogProvider, id: string, shown: ClientPost, posts: seq<ClientPost>)
    requires HasId(posts, id)
    ensures var cb := DeleteReturning(blog, id, Some(shown));
            Truthy(cb.Snapshot())
            && cb.Effect(cb.Effect(posts)) == Delete(posts, id)
            && cb.Effect(cb.Effect(posts)) != posts
  {
    var cb := DeleteReturning(blog, id, Some(shown));
    DeleteIdempotent(posts, id);
    assert !HasId(Delete(posts, id), id);
  }

  /** The post form's upsert returns undefined, so a failed save never calls it
      a second time: the optimistic entry stays in the list. */
  lemma FailedUpsertKeepsEntry(blog: BlogProvider, entry: ClientPost, posts: seq<ClientPost>)
    ensures var cb := UpsertEntry(blog, entry);
            !Truthy(cb.Snapshot()) && entry in cb.Effect(posts)
  {
  }
}
