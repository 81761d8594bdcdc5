/** The auth router: register and login. Password hashing (the User model's save
    hook and `comparePassword`) and token signing are outside this model; they
    come in as the functions `hash`, `matches` and `sign`. */
module AuthRoutes {

  import opened Common
  import opened Tables
  import opened Http
  import opened Store

  datatype UserDescriptor = UserDescriptor(id: Id, username: string)

  datatype AuthReply = AuthReply(token: string, user: UserDescriptor)

  /** The register validators: a username that is not empty (before trimming) and
      a password of at least six characters. */
  function RegisterErrors(username: string, password: string): (errs: seq<FieldError>)
    ensures errs == [] <==> username != "" && |password| >= 6
  {
    (if username == "" then [FieldError("username", "Username is required")] else [])
    + (if |password| < 6 then [FieldError("password", "Password must be at least 6 characters")] else [])
  }

  /** The login validators: neither field empty. */
  function LoginErrors(username: string, password: string): (errs: seq<FieldError>)
    ensures errs == [] <==> username != "" && password != ""
  {
    (if username == "" then [FieldError("username", "Username is required")] else [])
    + (if password == "" then [FieldError("password", "Password is required")] else [])
  }

  function Named(username: string): User -> bool
  {
    (u: User) => u.username == username
  }

  method Register(db: Db, username: string, password: string, newId: Id,
                  hash: string -> string, sign: Id -> string)
    returns (r: Response<AuthReply>)
    requires db.Valid() && newId !in db.users.rows
    modifies db
    ensures db.Valid()
    ensures db.posts == old(db.posts) && db.categories == old(db.categories) && db.comments == old(db.comments)
    ensures RegisterErrors(username, password) != []
            ==> r == Respond(400, Errors(RegisterErrors(username, password))) && db.users == old(db.users)
    ensures RegisterErrors(username, password) == []
            && (exists k :: k in old(db.users.rows) && old(db.users.rows[k]).username == Trim(username))
            ==> r == Reply(400, "Username already exists") && db.users == old(db.users)
    ensures RegisterErrors(username, password) == []
            && (forall k :: k in old(db.users.rows) ==> old(db.users.rows[k]).username != Trim(username))
            ==> r == Respond(201, Json(AuthReply(sign(newId), UserDescriptor(newId, Trim(username)))))
                && db.users == old(db.users).Insert(newId, User(Trim(username), hash(password)))
                && |db.users.rows| == |old(db.users.rows)| + 1
  {
    var errs := RegisterErrors(username, password);
    if errs != [] {
      return Respond(400, Errors(errs));
    }
    var name := Trim(username);
    var existing := db.users.FindFirst(Named(name));
    if existing.Some? {
      assert db.users.rows[existing.value].username == name;
      return Reply(400, "Username already exists");
    }
    var t := db.users.Insert(newId, User(name, hash(password)));
    InsertKeepsUsernamesUnique(db.users, newId, User(name, hash(password)));
    db.users := t;
    r := Respond(201, Json(AuthReply(sign(newId), UserDescriptor(newId, name))));
  }

  /** Login reads the user collection and never changes it. */
  function Login(users: Table<User>, username: string, password: string,
                 matches: (string, string) -> bool, sign: Id -> string): (r: Response<AuthReply>)
    requires users.Valid()
    ensures r.Respond?
    ensures r.status == 400 <==> LoginErrors(username, password) != []
    ensures r.status == 401 ==> r.body == Message("Invalid credentials")
    ensures LoginErrors(username, password) == []
            && (forall k :: k in users.rows && users.rows[k].username == Trim(username)
                            ==> !matches(password, users.rows[k].passwordHash))
            ==> r.status == 401
    ensures r.status == 200 ==>
            exists k :: k in users.rows && users.rows[k].username == Trim(username)
                        && matches(password, users.rows[k].passwordHash)
                        && r.body == Json(AuthReply(sign(k), UserDescriptor(k, Trim(username))))
    ensures forall k :: LoginErrors(username, password) == [] && UniqueUsernames(users)
                        && k in users.rows && users.rows[k].username == Trim(username)
                        && matches(password, users.rows[k].passwordHash)
                        ==> r == Respond(200, Json(AuthReply(sign(k), UserDescriptor(k, Trim(username)))))
  {
    var errs := LoginErrors(username, password);
    if errs != [] then Respond(400, Errors(errs))
    else
      var name := Trim(username);
      match users.FindFirst(Named(name))
      case None => Reply(401, "Invalid credentials")
      case Some(k) =>
        if !matches(password, users.rows[k].passwordHash) then Reply(401, "Invalid credentials")
        else Respond(200, Json(AuthReply(sign(k), UserDescriptor(k, name))))
  }

  /** Register, then log in with the same name and password: given that the
      stored hash matches its own password, login answers with a token for the
      new user and the same descriptor. */
  lemma LoginAfterRegister(users: Table<User>, newId: Id, username: string, password: string,
                           hash: string -> string, matches: (string, string) -> bool, sign: Id -> string)
    requires users.Valid() && newId !in users.rows
    requires RegisterErrors(username, password) == []
    requires forall k :: k in users.rows ==> users.rows[k].username != Trim(username)
    requires matches(password, hash(password))
    ensures var after := users.Insert(newId, User(Trim(username), hash(password)));
            Login(after, username, password, matches, sign)
            == Respond(200, Json(AuthReply(sign(newId), UserDescriptor(newId, Trim(username)))))
  {
    NewUserFoundFirst(users, newId, Trim(username), hash(password));
  }

  /** After registering, a password whose comparison fails is rejected with 401. */
  lemma WrongPasswordAfterRegister(users: Table<User>, newId: Id, username: string, password: string,
                                   wrong: string, hash: string -> string,
                                   matches: (string, string) -> bool, sign: Id -> string)
    requires users.Valid() && newId !in users.rows
    requires RegisterErrors(username, password) == [] && wrong != ""
    requires forall k :: k in users.rows ==> users.rows[k].username != Trim(username)
    requires !matches(wrong, hash(password))
    ensures var after := users.Insert(newId, User(Trim(username), hash(password)));
            Login(after, username, wrong, matches, sign) == Reply(401, "Invalid credentials")
  {
    NewUserFoundFirst(users, newId, Trim(username), hash(password));
  }

  /** A username stored by no one else is found under the id it was just saved with. */
  lemma NewUserFoundFirst(users: Table<User>, newId: Id, name: string, stored: string)
    requires users.Valid() && newId !in users.rows
    requires forall k :: k in users.rows ==> users.rows[k].username != name
    ensures users.Insert(newId, User(name, stored)).FindFirst(Named(name)) == Some(newId)
  {
    var after := users.Insert(newId, User(name, stored));
    assert Named(name)(after.rows[newId]);
  }
}
