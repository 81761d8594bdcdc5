/** The client's session: the signed-in user, the loading flag of the start-up
    check, and the browser's local storage, which holds the token under `token`. */
module AuthContext {

  import opened Common
  import opened UseApi

  datatype SessionUser = SessionUser(id: string, username: string)

  /** The body of a login or register reply. */
  datatype AuthData = AuthData(token: string, user: SessionUser)

  const TokenKey := "token"

  /** `localStorage.getItem('token')` is truthy: present and not empty. */
  predicate HasToken(storage: map<string, string>)
  {
    TokenKey in storage && storage[TokenKey] != ""
  }

  function Credentials(username: string, password: string): Payload
  {
    JsonBody([("username", Text(username)), ("password", Text(password))])
  }

  class AuthProvider {
    var user: Option<SessionUser>
    var loading: bool
    var storage: map<string, string>
    const api: ApiHook

    constructor (stored: map<string, string>)
      ensures user == None && loading && storage == stored
      ensures fresh(api) && !api.loading && api.error == None
    {
      user, loading, storage := None, true, stored;
      api := new ApiHook();
    }

    /** The start-up effect. With a token it asks `/api/auth/verify`, passing the
        headers object where `request` expects its optimistic callback; calling that
        object throws, so the check always fails, whatever the server would have
        said (`net`): the token is removed and no user is restored. */
    method Load(net: NetResult<SessionUser>) returns (sent: Option<Call>)
      modifies this, api
      ensures !loading && user == old(user) && sent == None
      ensures !HasToken(old(storage)) ==>
                storage == old(storage) && api.loading == old(api.loading) && api.error == old(api.error)
      ensures HasToken(old(storage)) ==>
                storage == old(storage) - {TokenKey} && !HasToken(storage) && api.loading && api.error == None
    {
      sent := None;
      if HasToken(storage) {
        var r, call, _ := api.Request("get", "/api/auth/verify", NoBody, NotCallable, net);
        sent := call;
        match r
        case Resolved(_) =>
          // `.then((data) => setUser(data.user))` never runs.
          assert false;
        case Rejected(_) =>
          storage := storage - {TokenKey};
      }
      loading := false;
    }

    /** `login`: on success the token is stored and the user set; a rejection
        changes neither and is passed on. */
    method Login(username: string, password: string, net: NetResult<AuthData>)
      returns (r: Outcome<()>, sent: Option<Call>)
      modifies this, api
      ensures sent == Some(Call("post", "/api/auth/login", Credentials(username, password), map[]))
      ensures loading == old(loading) && !api.loading
      ensures net.Ok? ==>
                r == Resolved(()) && storage == old(storage)[TokenKey := net.data.token]
                && user == Some(net.data.user)
      ensures net.Err? ==>
                r == Rejected(RequestFailed(net.message)) && storage == old(storage) && user == old(user)
    {
      r, sent := SignIn("/api/auth/login", username, password, net);
    }

    /** `register`: the same steps against the register route. */
    method Register(username: string, password: string, net: NetResult<AuthData>)
      returns (r: Outcome<()>, sent: Option<Call>)
      modifies this, api
      ensures sent == Some(Call("post", "/api/auth/register", Credentials(username, password), map[]))
      ensures loading == old(loading) && !api.loading
      ensures net.Ok? ==>
                r == Resolved(()) && storage == old(storage)[TokenKey := net.data.token]
                && user == Some(net.data.user)
      ensures net.Err? ==>
                r == Rejected(RequestFailed(net.message)) && storage == old(storage) && user == old(user)
    {
      r, sent := SignIn("/api/auth/register", username, password, net);
    }

    method SignIn(url: string, username: string, password: string, net: NetResult<AuthData>)
      returns (r: Outcome<()>, sent: Option<Call>)
      modifies this, api
      ensures sent == Some(Call("post", url, Credentials(username, password), map[]))
      ensures loading == old(loading) && !api.loading
      ensures net.Ok? ==>
                r == Resolved(()) && storage == old(storage)[TokenKey := net.data.token]
                && user == Some(net.data.user)
      ensures net.Err? ==>
                r == Rejected(RequestFailed(net.message)) && storage == old(storage) && user == old(user)
    {
      var reply, call, _ := api.Request("post", url, Credentials(username, password), NoCallback, net);
      sent := call;
      match reply
      case Resolved(data) =>
        storage := storage[TokenKey := data.token];
        user := Some(data.user);
        r := Resolved(());
      case Rejected(reason) =>
        r := Rejected(reason);
    }

    method Logout()
      modifies this
      ensures user == None && storage == old(storage) - {TokenKey} && !HasToken(storage)
      ensures loading == old(loading)
    {
      storage := storage - {TokenKey};
      user := None;
    }
  }
}
