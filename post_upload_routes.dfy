/** The create and update handlers that take a featured image. They run the auth
    middleware, then the upload, then the same validators as the posts router; an
    uploaded file becomes the path `/uploads/<filename>`. The file they live in does
    not declare `router` or `authMiddleware`, so nothing registers them. */
module PostUploadRoutes {

  import opened Common
  import opened Tables
  import opened Http
  import opened PostSchema
  import opened Store
  import opened PostsRoutes

  /** The `featuredImage` a create stores: the upload path when a file came with
      the request, `''` otherwise. */
  function CreateImage(file: Option<string>): (image: string)
    ensures file.None? ==> image == ""
    ensures file.Some? ==> image == UploadPath(file.value) && image[9..] == file.value
  {
    if file.Some? then UploadPath(file.value) else ""
  }

  /** The `featuredImage` an update sets: only when a file came with the request. */
  function UpdateImage(file: Option<string>): (image: Option<string>)
    ensures image.Some? <==> file.Some?
    ensures file.Some? ==> image.value == UploadPath(file.value)
  {
    if file.Some? then Some(UploadPath(file.value)) else None
  }

  /** `caller` is what the auth middleware makes of the request's bearer token:
      the user id, or `None` when it rejects the request. */
  method CreateWithImage(db: Db, caller: Option<Id>, f: PostFields, file: Option<string>, newId: Id)
    returns (r: Response<Post>)
    requires db.Valid() && newId !in db.posts.rows
    modifies db
    ensures db.Valid()
    ensures db.categories == old(db.categories) && db.comments == old(db.comments) && db.users == old(db.users)
    ensures caller.None? ==> r == Respond(401, Denied) && db.posts == old(db.posts)
    ensures caller.Some? && CreateErrors(f) != []
            ==> r == Respond(400, Errors(CreateErrors(f))) && db.posts == old(db.posts)
    ensures caller.Some? && CreateErrors(f) == [] && f.category !in old(db.categories.rows)
            ==> r == Reply(400, "Category not found") && db.posts == old(db.posts)
    ensures caller.Some? && CreateErrors(f) == [] && f.category in old(db.categories.rows) ==>
            var p := NewPost(Trim(f.title), f.content, f.category, Trim(f.author), Some(CreateImage(file)));
            if Conforms(p) then r == Respond(201, Json(p)) && db.posts == old(db.posts).Insert(newId, p)
            else r.Forward? && db.posts == old(db.posts)
  {
    if caller.None? {
      return Respond(401, Denied);
    }
    var errs := CreateErrors(f);
    if errs != [] {
      return Respond(400, Errors(errs));
    }
    var title, author := Trim(f.title), Trim(f.author);
    if f.category !in db.categories.rows {
      return Reply(400, "Category not found");
    }
    r := SaveNewPost(db, title, f.content, f.category, author, Some(CreateImage(file)), newId);
  }

  method UpdateWithImage(db: Db, caller: Option<Id>, id: string, f: UpdateFields, file: Option<string>)
    returns (r: Response<Post>)
    requires db.Valid()
    modifies db
    ensures db.Valid()
    ensures db.categories == old(db.categories) && db.comments == old(db.comments) && db.users == old(db.users)
    ensures caller.None? ==> r == Respond(401, Denied) && db.posts == old(db.posts)
    ensures caller.Some? && UpdateErrors(id, f) != []
            ==> r == Respond(400, Errors(UpdateErrors(id, f))) && db.posts == old(db.posts)
    ensures caller.Some? && UpdateErrors(id, f) == [] && f.category.Some? && f.category.value !in old(db.categories.rows)
            ==> r == Reply(400, "Category not found") && db.posts == old(db.posts)
    ensures caller.Some? && UpdateErrors(id, f) == [] && (f.category.None? || f.category.value in old(db.categories.rows))
            && UpdateConforms(UpdateDoc(f, UpdateImage(file))) && id in old(db.posts.rows)
            ==> var q := ApplyUpdate(old(db.posts.rows[id]), UpdateDoc(f, UpdateImage(file)));
                r == Respond(200, Json(q)) && db.posts == old(db.posts).Replace(id, q)
                && q.featuredImage == (if file.Some? then UploadPath(file.value) else old(db.posts.rows[id]).featuredImage)
    ensures caller.Some? && UpdateErrors(id, f) == [] && (f.category.None? || f.category.value in old(db.categories.rows))
            && UpdateConforms(UpdateDoc(f, UpdateImage(file))) && id !in old(db.posts.rows)
            ==> r == Reply(404, "Post not found") && db.posts == old(db.posts)
    ensures caller.Some? && UpdateErrors(id, f) == [] && (f.category.None? || f.category.value in old(db.categories.rows))
            && !UpdateConforms(UpdateDoc(f, UpdateImage(file)))
            ==> r.Forward? && db.posts == old(db.posts)
  {
    if caller.None? {
      return Respond(401, Denied);
    }
    var errs := UpdateErrors(id, f);
    if errs != [] {
      return Respond(400, Errors(errs));
    }
    r := UpdateStored(db, id, UpdateDoc(f, UpdateImage(file)));
  }

  /** Without a file, the image-aware create stores exactly the post the posts
      router's create stores: the image default and the explicit `''` agree. */
  lemma NoFileSameAsPlainCreate(title: string, content: string, category: Id, author: string)
    ensures NewPost(title, content, category, author, Some(CreateImage(None)))
            == NewPost(title, content, category, author, None)
  {
  }

  /** Without a file, the image-aware update leaves the stored image alone. */
  lemma NoFileKeepsImage(p: Post, f: UpdateFields)
    ensures ApplyUpdate(p, UpdateDoc(f, UpdateImage(None))).featuredImage == p.featuredImage
  {
  }
}
