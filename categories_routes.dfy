/** The categories router: list every category; create one with a name that is
    not taken yet. */
module CategoriesRoutes {

  import opened Common
  import opened Tables
  import opened Http
  import opened Store

  function ListCategories(categories: Table<Category>): (r: Response<seq<Category>>)
    requires categories.Valid()
    ensures r.Respond? && r.status == 200 && r.body.Json?
    ensures |r.body.value| == |categories.rows| == |categories.order|
    ensures forall i :: 0 <= i < |categories.order| ==> r.body.value[i] == categories.rows[categories.order[i]]
  {
    Respond(200, Json(categories.Values()))
  }

  /** The name validator: `notEmpty()` looks at the name before `.trim()` runs. */
  function NameErrors(name: string): (errs: seq<FieldError>)
    ensures errs == [] <==> name != ""
  {
    if name == "" then [FieldError("name", "Category name is required")] else []
  }

  /** A name made only of white space passes the validator, and what is stored
      and looked up is the empty string. */
  lemma BlankNamePassesValidation(name: string)
    requires name != "" && AllSpace(name)
    ensures NameErrors(name) == [] && Trim(name) == ""
  {
    TrimEmptyIff(name);
  }

  function NamedLike(name: string): Category -> bool
  {
    (c: Category) => c.name == name
  }

  /** `name` and `description` as the request gives them (a missing name reads as
      `''`); `newId` is the id the store gives the new category. */
  method CreateCategory(db: Db, name: string, description: Option<string>, newId: Id)
    returns (r: Response<Category>)
    requires db.Valid() && newId !in db.categories.rows
    modifies db
    ensures db.Valid()
    ensures db.posts == old(db.posts) && db.comments == old(db.comments) && db.users == old(db.users)
    ensures name == "" ==> r == Respond(400, Errors(NameErrors(name))) && db.categories == old(db.categories)
    ensures name != "" && (exists k :: k in old(db.categories.rows) && old(db.categories.rows[k]).name == Trim(name))
            ==> r == Reply(400, "Category already exists") && db.categories == old(db.categories)
    ensures name != "" && (forall k :: k in old(db.categories.rows) ==> old(db.categories.rows[k]).name != Trim(name))
            ==> var c := Category(Trim(name), if description.Some? then Some(Trim(description.value)) else None);
                r == Respond(201, Json(c)) && db.categories == old(db.categories).Insert(newId, c)
  {
    var errs := NameErrors(name);
    if errs != [] {
      return Respond(400, Errors(errs));
    }
    var trimmed := Trim(name);
    var desc := if description.Some? then Some(Trim(description.value)) else None;
    var existing := db.categories.FindFirst(NamedLike(trimmed));
    if existing.Some? {
      assert db.categories.rows[existing.value].name == trimmed;
      return Reply(400, "Category already exists");
    }
    var c := Category(trimmed, desc);
    var t := db.categories.Insert(newId, c);
    InsertKeepsCategoriesSound(db.posts, db.categories, newId, c);
    db.categories := t;
    r := Respond(201, Json(c));
  }

  /** Creating the same name twice: the first call stores the category, the
      second answers 'Category already exists' and stores nothing. */
  method CreateTwiceFails(db: Db, name: string, description: Option<string>, id1: Id, id2: Id)
    returns (first: Response<Category>, second: Response<Category>)
    requires db.Valid() && name != "" && id1 != id2
    requires id1 !in db.categories.rows && id2 !in db.categories.rows
    requires forall k :: k in db.categories.rows ==> db.categories.rows[k].name != Trim(name)
    modifies db
    ensures first.Respond? && first.status == 201
    ensures second == Reply(400, "Category already exists")
    ensures |db.categories.rows| == |old(db.categories.rows)| + 1
  {
    first := CreateCategory(db, name, description, id1);
    assert id1 in db.categories.rows && db.categories.rows[id1].name == Trim(name);
    second := CreateCategory(db, name, description, id2);
  }
}
