/** The comments router: the comments of one post; adding a comment as the
    authenticated user. */
module CommentsRoutes {

  import opened Common
  import opened Tables
  import opened Http
  import opened Store

  function OnPost(postId: string): Comment -> bool
  {
    (c: Comment) => c.post == postId
  }

  /** `Comment.find({ post: postId })`: exactly the stored comments on that post,
      in store order. */
  function ListComments(comments: Table<Comment>, postId: string): (r: Response<seq<Comment>>)
    requires comments.Valid()
    ensures r.Respond? && r.status == 200 && r.body.Json?
    ensures forall c :: c in r.body.value ==> c.post == postId
    ensures forall k :: k in comments.rows && comments.rows[k].post == postId ==> comments.rows[k] in r.body.value
    ensures r.body.value == Filter(comments.Values(), OnPost(postId))
  {
    Respond(200, Json(comments.Select(OnPost(postId))))
  }

  /** `caller` is what the auth middleware makes of the bearer token. The author
      is the caller's id, never a body field; the post is the path parameter, and
      nothing checks that such a post exists. */
  method AddComment(db: Db, caller: Option<Id>, postId: string, content: string, newId: Id)
    returns (r: Response<Comment>)
    requires db.Valid() && newId !in db.comments.rows
    modifies db
    ensures db.Valid()
    ensures db.posts == old(db.posts) && db.categories == old(db.categories) && db.users == old(db.users)
    ensures caller.None? ==> r == Respond(401, Denied) && db.comments == old(db.comments)
    ensures caller.Some? && content == ""
            ==> r == Respond(400, Errors([FieldError("content", "Comment content is required")]))
                && db.comments == old(db.comments)
    ensures caller.Some? && content != "" ==>
            var c := Comment(Trim(content), postId, caller.value);
            r == Respond(201, Json(c)) && db.comments == old(db.comments).Insert(newId, c)
            && |db.comments.rows| == |old(db.comments.rows)| + 1
  {
    if caller.None? {
      return Respond(401, Denied);
    }
    if content == "" {
      return Respond(400, Errors([FieldError("content", "Comment content is required")]));
    }
    var c := Comment(Trim(content), postId, caller.value);
    db.comments := db.comments.Insert(newId, c);
    r := Respond(201, Json(c));
  }

  /** A comment added to a post id with no stored post is listed under that id. */
  lemma CommentOnMissingPostIsListed(comments: Table<Comment>, postId: string, newId: Id, c: Comment)
    requires comments.Valid() && newId !in comments.rows && c.post == postId
    ensures c in ListComments(comments.Insert(newId, c), postId).body.value
  {
    var t := comments.Insert(newId, c);
    assert t.rows[newId] == c;
  }
}
