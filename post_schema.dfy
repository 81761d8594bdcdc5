/** The Post document: its fields, the schema's trim setters and default, and the
    `required` checks the store applies when a document is written. */
module PostSchema {

  import opened Common
  import opened Tables

  /** A stored post. `category` holds the id of a Category. The `createdAt` and
      `updatedAt` timestamps are not part of this model. */
  datatype Post = Post(title: string, content: string, category: Id, author: string, featuredImage: string)

  /** `new Post({ ... })`: title and author pass through the schema's trim setter
      and a post built without an image gets the default `''`. */
  function NewPost(title: string, content: string, category: Id, author: string, image: Option<string>): (p: Post)
    ensures p.title == Trim(title) && p.author == Trim(author)
    ensures p.content == content && p.category == category
    ensures image.None? ==> p.featuredImage == ""
    ensures image.Some? ==> p.featuredImage == image.value
  {
    Post(Trim(title), content, category, Trim(author), if image.Some? then image.value else "")
  }

  /** The schema's `required: true` on title, content, category and author: a string
      path holding `''` fails it. */
  predicate Conforms(p: Post)
  {
    p.title != "" && p.content != "" && p.category != "" && p.author != ""
  }

  /** Title and author are stored trimmed: each is the input with the white space
      at either end cut off, and trimming the stored value again changes nothing. */
  lemma NewPostTrimmed(title: string, content: string, category: Id, author: string, image: Option<string>)
    ensures var p := NewPost(title, content, category, author, image);
            (exists i, j :: 0 <= i <= j <= |title| && p.title == title[i..j]
                            && AllSpace(title[..i]) && AllSpace(title[j..]))
            && (exists i, j :: 0 <= i <= j <= |author| && p.author == author[i..j]
                               && AllSpace(author[..i]) && AllSpace(author[j..]))
            && Trim(p.title) == p.title && Trim(p.author) == p.author
  {
    TrimIdempotent(title);
    TrimIdempotent(author);
    TrimIsSlice(title);
    TrimIsSlice(author);
  }

  /** A new post satisfies the schema exactly when its title and author are not
      all white space and its content and category are not empty. */
  lemma NewPostConformsIff(title: string, content: string, category: Id, author: string, image: Option<string>)
    ensures Conforms(NewPost(title, content, category, author, image))
            <==> !AllSpace(title) && content != "" && category != "" && !AllSpace(author)
  {
    TrimEmptyIff(title);
    TrimEmptyIff(author);
  }

  /** The fields an update sets; `None` is a field left out of the request, which
      the store leaves untouched. */
  datatype PostUpdate = PostUpdate(
    title: Option<string>, content: Option<string>, category: Option<Id>,
    author: Option<string>, featuredImage: Option<string>)

  /** `findByIdAndUpdate` with `runValidators`: the update validators look only at
      the paths being set, after the trim setters. */
  predicate UpdateConforms(u: PostUpdate)
  {
    (u.title.Some? ==> Trim(u.title.value) != "")
    && (u.content.Some? ==> u.content.value != "")
    && (u.category.Some? ==> u.category.value != "")
    && (u.author.Some? ==> Trim(u.author.value) != "")
  }

  /** The stored post after an update: each supplied field replaces the old one
      (title and author trimmed), each absent field keeps its old value. */
  function ApplyUpdate(p: Post, u: PostUpdate): (q: Post)
    ensures u.title.None? ==> q.title == p.title
    ensures u.title.Some? ==> q.title == Trim(u.title.value)
    ensures u.content.None? ==> q.content == p.content
    ensures u.content.Some? ==> q.content == u.content.value
    ensures u.category.None? ==> q.category == p.category
    ensures u.category.Some? ==> q.category == u.category.value
    ensures u.author.None? ==> q.author == p.author
    ensures u.author.Some? ==> q.author == Trim(u.author.value)
    ensures u.featuredImage.None? ==> q.featuredImage == p.featuredImage
    ensures u.featuredImage.Some? ==> q.featuredImage == u.featuredImage.value
  {
    Post(
      if u.title.Some? then Trim(u.title.value) else p.title,
      if u.content.Some? then u.content.value else p.content,
      if u.category.Some? then u.category.value else p.category,
      if u.author.Some? then Trim(u.author.value) else p.author,
      if u.featuredImage.Some? then u.featuredImage.value else p.featuredImage)
  }

  /** An update that passes the update validators keeps a conforming post
      conforming. */
  lemma UpdateKeepsConformance(p: Post, u: PostUpdate)
    requires Conforms(p) && UpdateConforms(u)
    ensures Conforms(ApplyUpdate(p, u))
  {
  }

  /** An update that sets nothing leaves the post as it was. */
  lemma EmptyUpdateIsIdentity(p: Post)
    ensures ApplyUpdate(p, PostUpdate(None, None, None, None, None)) == p
  {
  }

  /** The path an uploaded image is served from. */
  function UploadPath(filename: string): (path: string)
    ensures |path| == |"/uploads/"| + |filename|
    ensures path[..9] == "/uploads/" && path[9..] == filename
  {
    "/uploads/" + filename
  }
}
