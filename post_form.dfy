/** The create/edit post form: its field rules, the multipart body it builds, the
    call it makes and what it does with the reply. */
module PostForm {

  import opened Common
  import opened BlogContext
  import opened UseApi

  /** The registered form fields, as react-hook-form hands them to `onSubmit`.
      `category` is the value of the selected option; the placeholder's is `''`. */
  datatype FormValues = FormValues(title: string, content: string, category: string, author: string)

  /** A `required` rule followed by a `minLength` rule: the message of the first
      that fails. */
  function LengthRule(value: string, required: string, minLength: nat, tooShort: string): Option<string>
  {
    if value == "" then Some(required)
    else if |value| < minLength then Some(tooShort)
    else None
  }

  function TitleError(title: string): (e: Option<string>)
    ensures e == None <==> |title| >= 3
    ensures title == "" ==> e == Some("Title is required")
  {
    LengthRule(title, "Title is required", 3, "Title must be at least 3 characters")
  }

  function ContentError(content: string): (e: Option<string>)
    ensures e == None <==> |content| >= 10
    ensures content == "" ==> e == Some("Content is required")
  {
    LengthRule(content, "Content is required", 10, "Content must be at least 10 characters")
  }

  function CategoryError(category: string): (e: Option<string>)
    ensures e == None <==> category != ""
  {
    if category == "" then Some("Category is required") else None
  }

  function AuthorError(author: string): (e: Option<string>)
    ensures e == None <==> |author| >= 3
    ensures author == "" ==> e == Some("Author is required")
  {
    LengthRule(author, "Author is required", 3, "Author must be at least 3 characters")
  }

  /** `handleSubmit` calls `onSubmit` only when no rule fails. */
  predicate Submittable(d: FormValues)
  {
    TitleError(d.title).None? && ContentError(d.content).None?
    && CategoryError(d.category).None? && AuthorError(d.author).None?
  }

  lemma SubmittableIff(d: FormValues)
    ensures Submittable(d) <==> |d.title| >= 3 && |d.content| >= 10 && d.category != "" && |d.author| >= 3
  {
  }

  /** Leaving the category on the placeholder option always blocks the submit. */
  lemma PlaceholderBlocksSubmit(d: FormValues)
    requires d.category == ""
    ensures !Submittable(d) && CategoryError(d.category) == Some("Category is required")
  {
  }

  /** The body `onSubmit` builds, in append order. */
  function FormEntries(d: FormValues, file: Option<string>): (e: seq<(string, FieldValue)>)
    ensures |e| == if file.Some? then 5 else 4
    ensures e[0].0 == "title" && e[1].0 == "content" && e[2].0 == "category" && e[3].0 == "author"
    ensures file.Some? ==> e[4] == ("featuredImage", Upload(file.value))
  {
    [("title", Text(d.title))] + ([("content", Text(d.content))] + ([("category", Text(d.category))]
    + ([("author", Text(d.author))] + ImageEntry(file))))
  }

  function ImageEntry(file: Option<string>): seq<(string, FieldValue)>
  {
    if file.Some? then [("featuredImage", Upload(file.value))] else []
  }

  /** The four fields are always in the body; the image is there exactly when a
      file was chosen. */
  lemma FormEntriesFields(d: FormValues, file: Option<string>)
    ensures var e := FormEntries(d, file);
            Get(e, "title") == Some(Text(d.title)) && Get(e, "content") == Some(Text(d.content))
            && Get(e, "category") == Some(Text(d.category)) && Get(e, "author") == Some(Text(d.author))
            && (Get(e, "featuredImage").Some? <==> file.Some?)
            && (file.Some? ==> Get(e, "featuredImage") == Some(Upload(file.value)))
  {
    LookUpField(d, file, "title");
    LookUpField(d, file, "content");
    LookUpField(d, file, "category");
    LookUpField(d, file, "author");
    LookUpField(d, file, "featuredImage");
    assert Get(ImageEntry(file), "featuredImage") == if file.Some? then Some(Upload(file.value)) else None;
  }

  /** Looking a name up in the body: the four text fields first, then the image. */
  lemma LookUpField(d: FormValues, file: Option<string>, name: string)
    ensures Get(FormEntries(d, file), name)
            == if name == "title" then Some(Text(d.title))
               else if name == "content" then Some(Text(d.content))
               else if name == "category" then Some(Text(d.category))
               else if name == "author" then Some(Text(d.author))
               else Get(ImageEntry(file), name)
  {
    var e3 := [("author", Text(d.author))] + ImageEntry(file);
    var e2 := [("category", Text(d.category))] + e3;
    var e1 := [("content", Text(d.content))] + e2;
    GetCons(("title", Text(d.title)), e1, name);
    GetCons(("content", Text(d.content)), e2, name);
    GetCons(("category", Text(d.category)), e3, name);
    GetCons(("author", Text(d.author)), ImageEntry(file), name);
  }

  lemma GetCons(x: (string, FieldValue), rest: seq<(string, FieldValue)>, name: string)
    ensures Get([x] + rest, name) == if x.0 == name then Some(x.1) else Get(rest, name)
  {
    assert ([x] + rest)[1..] == rest;
  }

  /** The verb and URL: PUT to the post's own URL when editing, POST to the
      collection when creating. */
  function Verb(routeId: Option<string>): (verb: string)
    ensures verb == "put" <==> routeId.Some?
    ensures verb == "post" <==> routeId.None?
  {
    if routeId.Some? then "put" else "post"
  }

  function Url(routeId: Option<string>): (url: string)
    ensures routeId.None? ==> url == "/api/posts"
    ensures routeId.Some? ==> |url| == 11 + |routeId.value| && url[..11] == "/api/posts/" && url[11..] == routeId.value
  {
    if routeId.Some? then "/api/posts/" + routeId.value else "/api/posts"
  }

  /** The optimistic entry: the form values under the route's id, or under
      `Date.now().toString()` when creating (`now` is the clock reading). It has
      no image. */
  function Entry(d: FormValues, routeId: Option<string>, now: nat): (p: ClientPost)
    ensures routeId.Some? ==> p.id == routeId.value
    ensures routeId.None? ==> p.id == DecimalString(now)
    ensures p.title == d.title && p.content == d.content && p.category == d.category && p.author == d.author
    ensures p.featuredImage == ""
  {
    ClientPost(if routeId.Some? then routeId.value else DecimalString(now),
               d.title, d.content, d.category, d.author, "")
  }

  /** The form's own state: the error it shows, the values loaded into it and
      where it last navigated to. */
  class PostFormView {
    var formError: Option<string>
    var values: FormValues
    var navigatedTo: Option<string>

    constructor ()
      ensures formError == None && navigatedTo == None && values == FormValues("", "", "", "")
    {
      formError, navigatedTo := None, None;
      values := FormValues("", "", "", "");
    }

    /** The effect that runs on mount: without a user it navigates to the login
        page, and it then goes on to load the post being edited all the same. */
    method Load(api: ApiHook, hasUser: bool, routeId: Option<string>, net: NetResult<ClientPost>)
      returns (sent: Option<Call>)
      modifies this, api
      ensures !hasUser ==> navigatedTo == Some("/login")
      ensures hasUser ==> navigatedTo == old(navigatedTo)
      ensures routeId.None? ==> sent == None && values == old(values) && formError == old(formError)
      ensures routeId.Some? ==> sent == Some(Call("get", Url(routeId), NoBody, map[]))
      ensures routeId.Some? && net.Ok? ==>
                values == FormValues(net.data.title, net.data.content, net.data.category, net.data.author)
                && formError == old(formError)
      ensures routeId.Some? && net.Err? ==> values == old(values) && formError == Some(net.message)
    {
      if !hasUser {
        navigatedTo := Some("/login");
      }
      sent := None;
      if routeId.Some? {
        var r, call, _ := api.Request("get", Url(routeId), NoBody, NoCallback, net);
        sent := call;
        match r
        case Resolved(p) =>
          values := FormValues(p.title, p.content, p.category, p.author);
        case Rejected(reason) =>
          formError := Some(reason.message);
      }
    }

    /** The body of `onSubmit`, given the form values. */
    method BuildFormData(d: FormValues, file: Option<string>) returns (entries: seq<(string, FieldValue)>)
      ensures entries == FormEntries(d, file)
    {
      entries := [];
      entries := entries + [("title", Text(d.title))];
      entries := entries + [("content", Text(d.content))];
      entries := entries + [("category", Text(d.category))];
      entries := entries + [("author", Text(d.author))];
      if file.Some? {
        entries := entries + [("featuredImage", Upload(file.value))];
      }
    }

    /** Pressing the submit button. On success the server's post is upserted and
        the form navigates home; on failure the error's message is shown and the
        optimistic entry stays in the list. */
    method Submit(api: ApiHook, blog: BlogProvider, routeId: Option<string>, d: FormValues,
                  file: Option<string>, now: nat, net: NetResult<ClientPost>)
      returns (sent: Option<Call>)
      modifies this, api, blog
      ensures !Submittable(d) ==>
                sent == None && blog.posts == old(blog.posts)
                && formError == old(formError) && navigatedTo == old(navigatedTo)
      ensures Submittable(d) ==>
                sent == Some(Call(Verb(routeId), Url(routeId), Form(FormEntries(d, file)), map[]))
      ensures Submittable(d) && net.Ok? ==>
                blog.posts == AddOrUpdate(AddOrUpdate(old(blog.posts), Entry(d, routeId, now)), net.data)
                && navigatedTo == Some("/") && formError == old(formError)
      ensures Submittable(d) && net.Err? ==>
                blog.posts == AddOrUpdate(old(blog.posts), Entry(d, routeId, now))
                && formError == Some(net.message) && navigatedTo == old(navigatedTo)
      ensures blog.categories == old(blog.categories) && blog.page == old(blog.page)
      ensures blog.totalPages == old(blog.totalPages)
      ensures values == old(values)
    {
      if !Submittable(d) {
        return None;
      }
      var entries := BuildFormData(d, file);
      var cb := UpsertEntry(blog, Entry(d, routeId, now));
      var r, call, _ := api.Request(Verb(routeId), Url(routeId), Form(entries), cb, net);
      sent := call;
      match r
      case Resolved(post) =>
        blog.AddOrUpdatePost(post);
        navigatedTo := Some("/");
      case Rejected(reason) =>
        formError := Some(reason.message);
    }
  }

  /** A successful create leaves two entries in the list when the server's id
      differs from the timestamp id: the optimistic entry is never taken out. */
  lemma CreateKeepsOptimisticEntry(posts: seq<ClientPost>, d: FormValues, now: nat, saved: ClientPost)
    requires !HasId(posts, DecimalString(now)) && saved.id != DecimalString(now)
    ensures var after := AddOrUpdate(AddOrUpdate(posts, Entry(d, None, now)), saved);
            Entry(d, None, now) in after && saved in after
  {
    var entry := Entry(d, None, now);
    var once := AddOrUpdate(posts, entry);
    var after := AddOrUpdate(once, saved);
    assert once[0] == entry;
    if HasId(once, saved.id) {
      assert after[0] == entry;
    } else {
      assert after[1..] == once;
      assert after[1] == entry;
    }
  }

  /** A failed create leaves the list one longer than before, with the
      optimistic entry in front. */
  lemma FailedCreateGrowsList(posts: seq<ClientPost>, d: FormValues, now: nat)
    requires !HasId(posts, DecimalString(now))
    ensures var after := AddOrUpdate(posts, Entry(d, None, now));
            |after| == |posts| + 1 && after[0] == Entry(d, None, now) && after[1..] == posts
  {
  }
}
