// The client's session (frontend/src/contexts/AuthContext.js) with the
// response interceptor of frontend/src/lib/api.js folded in; the browser's
// localStorage is a map from key to string.

module Session {
  import Routes
  import opened Models

  /** The user object of a login or /auth/me response; `is_admin` may be absent. */
  datatype Account = Account(id: string, email: string, isAdmin: Option<bool>)

  /** The outcome of an API request: the response body, or a rejection with
      the HTTP status (0 when there was no response). */
  datatype Reply<T> = Answered(data: T) | Failed(status: int)

  datatype LoginData = LoginData(token: string, user: Account)

  const TokenKey := "token"
  const UserKey := "user"

  /** `is_admin || false`. */
  predicate AdminFlag(a: Account) {
    a.isAdmin == Some(true)
  }

  function LoginEndpoint(admin: bool): string {
    if admin then "/auth/admin/login" else "/auth/login"
  }

  /** `localStorage.getItem('token')` is truthy: present and non-empty. */
  predicate HasToken(storage: map<string, string>) {
    TokenKey in storage && storage[TokenKey] != ""
  }

  /** Both session keys removed, every other key kept. */
  function Cleared(storage: map<string, string>): (r: map<string, string>)
    ensures TokenKey !in r && UserKey !in r
    ensures forall k :: k in storage && k != TokenKey && k != UserKey ==> k in r && r[k] == storage[k]
    ensures forall k :: k in r ==> k in storage
  {
    storage - {TokenKey, UserKey}
  }

  /** The storage after a successful login. */
  function Stored(storage: map<string, string>, token: string, userJson: string): (r: map<string, string>)
    ensures TokenKey in r && UserKey in r && r[TokenKey] == token && r[UserKey] == userJson
    ensures forall k :: k in storage && k != TokenKey && k != UserKey ==> k in r && r[k] == storage[k]
  {
    storage[TokenKey := token][UserKey := userJson]
  }

  /** The response interceptor: a 401 clears both keys (and sends the browser
      to /login); any other failure leaves the storage alone. */
  function AfterFailure(storage: map<string, string>, status: int): map<string, string> {
    if status == 401 then Cleared(storage) else storage
  }

  lemma ClearedTwice(storage: map<string, string>)
    ensures Cleared(Cleared(storage)) == Cleared(storage)
    ensures !HasToken(Cleared(storage))
  {
  }

  /** A login followed by a logout leaves the storage as it would be after a
      logout alone. */
  lemma LoginThenLogout(storage: map<string, string>, token: string, userJson: string)
    ensures Cleared(Stored(storage, token, userJson)) == Cleared(storage)
  {
    var a := Cleared(Stored(storage, token, userJson));
    var b := Cleared(storage);
    assert forall k :: k in a <==> k in b;
    assert forall k :: k in a ==> a[k] == b[k];
  }

  /** After a login the next checkAuth sends a request exactly when the token is non-empty. */
  lemma StoredToken(storage: map<string, string>, token: string, userJson: string)
    ensures HasToken(Stored(storage, token, userJson)) <==> token != ""
  {
  }

  /** What the route guard shows after a 401: the interceptor leaves the
      browser at /login with a fresh, loaded, signed-out session, which is
      the login form. */
  lemma SignedOutAtLogin(isAdmin: bool)
    ensures Routes.Render("/login", Routes.AuthView(false, false, isAdmin)) == Routes.Show(Routes.LoginPage)
  {
    Routes.RedirectTargets();
  }

  /** AuthProvider: the state `user`, `loading`, `isAdmin`, the browser's
      storage and its location (set by logout and by the 401 interceptor). */
  class AuthProvider {
    var user: Option<Account>
    var loading: bool
    var isAdmin: bool
    var storage: map<string, string>
    var location: string

    /** Admin rights are only ever held with a signed-in admin account. */
    predicate Valid()
      reads this
    {
      isAdmin ==> user.Some? && AdminFlag(user.value)
    }

    /** What the route guard reads. */
    function View(): (r: Routes.AuthView)
      reads this
      ensures r.signedIn <==> user.Some?
    {
      Routes.AuthView(user.Some?, loading, isAdmin)
    }

    /** A fresh provider over the browser's current storage and location. */
    constructor(storage0: map<string, string>, location0: string)
      ensures user == None && loading && !isAdmin
      ensures storage == storage0 && location == location0
      ensures Valid()
    {
      user := None;
      loading := true;
      isAdmin := false;
      storage := storage0;
      location := location0;
    }

    /** The api.js response interceptor, run on every failed request.  On a
        401 it clears both keys and assigns `window.location.href`, a full
        page load: the in-memory session is discarded and a fresh
        AuthProvider mounts, whose checkAuth finds no token and so ends
        loading at once.  The state below is that fresh provider's. */
    method OnFailure(status: int)
      modifies this
      ensures storage == AfterFailure(old(storage), status)
      ensures location == (if status == 401 then "/login" else old(location))
      ensures status == 401 ==> user == None && !isAdmin && !loading && Valid()
      ensures status != 401 ==> user == old(user) && loading == old(loading) && isAdmin == old(isAdmin)
    {
      if status == 401 {
        storage := storage - {TokenKey};
        storage := storage - {UserKey};
        location := "/login";
        user := None;
        isAdmin := false;
        loading := false;
      }
    }

    /** checkAuth: `me` is the reply of GET /auth/me, used only when a
        token is stored; `requested` says whether the request was made. */
    method CheckAuth(me: Reply<Account>) returns (requested: bool)
      requires Valid()
      modifies this
      ensures requested <==> HasToken(old(storage))
      ensures !loading && Valid()
      ensures requested && me.Answered? ==> user == Some(me.data) && isAdmin == AdminFlag(me.data)
      ensures requested && me.Failed? && me.status == 401 ==> user == None && !isAdmin
      ensures !requested || (me.Failed? && me.status != 401) ==> user == old(user) && isAdmin == old(isAdmin)
      ensures storage == (if requested && me.Failed? then Cleared(old(storage)) else old(storage))
      ensures location == (if requested && me.Failed? && me.status == 401 then "/login" else old(location))
    {
      requested := false;
      if TokenKey in storage && storage[TokenKey] != "" {
        requested := true;
        match me
        case Answered(data) =>
          user := Some(data);
          isAdmin := data.isAdmin == Some(true);
        case Failed(status) =>
          OnFailure(status);
          storage := storage - {TokenKey};
          storage := storage - {UserKey};
      }
      loading := false;
    }

    /** login: `send` answers a POST to the given endpoint; `stringify` is
        JSON.stringify.  A rejected request propagates after the interceptor. */
    method Login(admin: bool, send: string -> Reply<LoginData>, stringify: Account -> string)
      returns (r: Reply<LoginData>)
      requires Valid()
      modifies this
      ensures r == send(LoginEndpoint(admin))
      ensures r.Answered? ==>
        && storage == Stored(old(storage), r.data.token, stringify(r.data.user))
        && user == Some(r.data.user) && isAdmin == AdminFlag(r.data.user)
        && location == old(location)
      ensures r.Failed? ==>
        && storage == AfterFailure(old(storage), r.status)
        && location == (if r.status == 401 then "/login" else old(location))
      ensures r.Failed? && r.status == 401 ==> user == None && !isAdmin && !loading
      ensures !(r.Failed? && r.status == 401) ==> loading == old(loading)
      ensures r.Failed? && r.status != 401 ==> user == old(user) && isAdmin == old(isAdmin)
      ensures Valid()
    {
      if admin {
        r := send("/auth/admin/login");
      } else {
        r := send("/auth/login");
      }
      match r
      case Failed(status) =>
        OnFailure(status);
      case Answered(data) =>
        storage := storage[TokenKey := data.token];
        storage := storage[UserKey := stringify(data.user)];
        user := Some(data.user);
        isAdmin := data.user.isAdmin == Some(true);
    }

    /** logout. */
    method Logout()
      modifies this
      ensures storage == Cleared(old(storage))
      ensures user == None && !isAdmin && location == "/login" && loading == old(loading)
      ensures Valid() && !View().signedIn
    {
      storage := storage - {TokenKey};
      storage := storage - {UserKey};
      user := None;
      isAdmin := false;
      location := "/login";
    }
  }
}
