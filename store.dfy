/** The document database the route handlers share: the Post, Category, Comment
    and User collections. The Category, Comment and User models are not part of
    this model; their records carry the fields the routes read and write. */
module Store {

  import opened Common
  import opened Tables
  import opened PostSchema

  datatype Category = Category(name: string, description: Option<string>)

  /** `post` is the path parameter as given; `author` is a User id. */
  datatype Comment = Comment(content: string, post: string, author: Id)

  /** `passwordHash` is what the User model's save hook stores for the password. */
  datatype User = User(username: string, passwordHash: string)

  class Db {
    var posts: Table<Post>
    var categories: Table<Category>
    var comments: Table<Comment>
    var users: Table<User>

    /** The facts every handler keeps: the collections are well formed, every
        stored post satisfies the schema and names an existing category (categories
        are never deleted), category names and usernames are unique. */
    ghost predicate Valid()
      reads this
    {
      posts.Valid() && categories.Valid() && comments.Valid() && users.Valid()
      && (forall id :: id in posts.rows ==> PostOk(posts.rows[id], categories))
      && UniqueNames(categories)
      && UniqueUsernames(users)
    }

    constructor ()
      ensures Valid()
      ensures posts.rows == map[] && categories.rows == map[]
      ensures comments.rows == map[] && users.rows == map[]
    {
      posts := Table(map[], []);
      categories := Table(map[], []);
      comments := Table(map[], []);
      users := Table(map[], []);
    }
  }

  ghost predicate PostOk(p: Post, categories: Table<Category>)
  {
    Conforms(p) && p.category in categories.rows
  }

  ghost predicate UniqueNames(categories: Table<Category>)
  {
    forall a, b :: a in categories.rows && b in categories.rows && a != b
                   ==> categories.rows[a].name != categories.rows[b].name
  }

  ghost predicate UniqueUsernames(users: Table<User>)
  {
    forall a, b :: a in users.rows && b in users.rows && a != b
                   ==> users.rows[a].username != users.rows[b].username
  }

  /** Storing a user under a fresh id keeps usernames unique when no stored user
      has the new name. */
  lemma InsertKeepsUsernamesUnique(users: Table<User>, id: Id, u: User)
    requires users.Valid() && id !in users.rows && UniqueUsernames(users)
    requires forall k :: k in users.rows ==> users.rows[k].username != u.username
    ensures UniqueUsernames(users.Insert(id, u))
  {
    var t := users.Insert(id, u);
    forall a, b | a in t.rows && b in t.rows && a != b
      ensures t.rows[a].username != t.rows[b].username
    {
      if a != id && b != id {
        assert t.rows[a] == users.rows[a] && t.rows[b] == users.rows[b];
      }
    }
  }

  /** Storing a category under a fresh id keeps names unique when no stored
      category has the new name, and every post still names a stored category. */
  lemma InsertKeepsCategoriesSound(posts: Table<Post>, categories: Table<Category>, id: Id, c: Category)
    requires categories.Valid() && id !in categories.rows && UniqueNames(categories)
    requires forall k :: k in categories.rows ==> categories.rows[k].name != c.name
    requires forall k :: k in posts.rows ==> PostOk(posts.rows[k], categories)
    ensures UniqueNames(categories.Insert(id, c))
    ensures forall k :: k in posts.rows ==> PostOk(posts.rows[k], categories.Insert(id, c))
  {
    var t := categories.Insert(id, c);
    forall a, b | a in t.rows && b in t.rows && a != b
      ensures t.rows[a].name != t.rows[b].name
    {
      if a != id && b != id {
        assert t.rows[a] == categories.rows[a] && t.rows[b] == categories.rows[b];
      }
    }
  }
}
