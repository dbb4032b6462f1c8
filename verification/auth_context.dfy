/** The authentication context: the signed-in user held in memory,
    hydrated from the session storage, and its login, logout and local
    profile update. */
module AuthContext {
  import opened Wrappers
  import opened Json
  import opened Http
  import opened AuthService

  /** The context's state: the user (`JNull` for null) and `isLoading`. */
  datatype Ctx = Ctx(user: Json, isLoading: bool)

  const Initial := Ctx(JNull, true)

  /** `isAuthenticated`: `!!user`. */
  predicate IsAuthenticated(c: Ctx) {
    Truthy(c.user)
  }

  /** `checkAuth`: the stored user when there is a truthy one, otherwise
      null (also when the stored text does not parse); loading ends. */
  function CheckAuth(hasWindow: bool, st: Storage): (c: Ctx)
    ensures !c.isLoading
    ensures IsAuthenticated(c) <==>
      GetStoredAuthData(hasWindow, st).Ok? && Truthy(GetStoredAuthData(hasWindow, st).value.user)
    ensures IsAuthenticated(c) ==> c.user == GetStoredAuthData(hasWindow, st).value.user
    ensures !IsAuthenticated(c) ==> c.user == JNull
  {
    match GetStoredAuthData(hasWindow, st)
    case Err(_) => Ctx(JNull, false)
    case Ok(d) => Ctx(if Truthy(d.user) then d.user else JNull, false)
  }

  /** Hydrating from a freshly stored session restores its user. */
  lemma CheckAuthAfterStore(st: Storage, token: Json, user: Json)
    requires Truthy(user)
    ensures CheckAuth(true, StoreAuthData(st, token, user)) == Ctx(user, false)
  {
    StoreThenGet(st, token, user);
  }

  /** `login(u)`: the context takes `u`, then drops it again unless a
      token is stored. Reading the storage can throw (a malformed stored
      user), after `u` was already set. */
  function Login(c: Ctx, u: Json, st: Storage): (r: (Ctx, Option<Error>))
    ensures r.0.isLoading == c.isLoading
    ensures r.1.Some? <==> GetStoredAuthData(true, st).Err?
    ensures r.1.None? ==> (r.0.user == u <==> HasToken(GetStoredAuthData(true, st).value.token) || u == JNull)
    ensures r.1.None? && !HasToken(GetStoredAuthData(true, st).value.token) ==> r.0.user == JNull
    ensures r.1.Some? ==> r.0.user == u
  {
    match GetStoredAuthData(true, st)
    case Err(e) => (c.(user := u), Some(e))
    case Ok(d) => (c.(user := if HasToken(d.token) then u else JNull), None)
  }

  /** After `login(u)` the user is signed in iff `u` is truthy and a token
      is stored. */
  lemma LoginAuthenticates(c: Ctx, u: Json, st: Storage)
    requires GetStoredAuthData(true, st).Ok?
    ensures IsAuthenticated(Login(c, u, st).0) <==> Truthy(u) && HasToken(GetStoredAuthData(true, st).value.token)
  {
  }

  /** `logout`: the session is cleared, the user is null, and the browser
      goes to "/login". */
  function Logout(c: Ctx, st: Storage): (r: (Ctx, Storage, string))
    ensures !IsAuthenticated(r.0) && r.0.isLoading == c.isLoading
    ensures GetStoredAuthData(true, r.1) == Ok(AuthData(None, JNull))
    ensures r.2 == "/login"
  {
    ClearThenGet(st);
    (c.(user := JNull), ClearAuthData(st), "/login")
  }

  /** After logging out, reloading the page finds nobody signed in. */
  lemma LogoutThenReload(c: Ctx, st: Storage)
    ensures !IsAuthenticated(CheckAuth(true, Logout(c, st).1))
  {
  }

  /** The context's `updateProfile`: a null user stays null; otherwise the
      user's fields are kept, `name` and `username` take the new values
      when these are non-empty, and `id` and `role` are kept. No request is
      made. */
  function UpdateProfileLocal(user: Json, name: string, username: string): (r: Json)
    ensures !Truthy(user) ==> r == user
    ensures Truthy(user) ==> r.JObj?
    ensures Truthy(user) ==>
      Lookup(r.fields, "name") == (if name != "" then Some(JStr(name)) else Lookup(FieldsOf(user), "name"))
    ensures Truthy(user) ==>
      Lookup(r.fields, "username") == (if username != "" then Some(JStr(username)) else Lookup(FieldsOf(user), "username"))
    ensures Truthy(user) ==> forall k :: k != "name" && k != "username" ==> Lookup(r.fields, k) == Lookup(FieldsOf(user), k)
  {
    if !Truthy(user) then user
    else
      var fs := FieldsOf(user);
      var withName := if name != "" then Set(fs, "name", JStr(name)) else fs;
      var withUsername := if username != "" then Set(withName, "username", JStr(username)) else withName;
      JObj(withUsername)
  }

  /** The update never changes the user's id or role. */
  lemma UpdateKeepsIdAndRole(user: Json, name: string, username: string)
    requires Truthy(user)
    ensures Lookup(UpdateProfileLocal(user, name, username).fields, "id") == Lookup(FieldsOf(user), "id")
    ensures Lookup(UpdateProfileLocal(user, name, username).fields, "role") == Lookup(FieldsOf(user), "role")
  {
    assert "id"[0] != "name"[0] && "id"[0] != "username"[0];
    KeepsOtherKey(user, name, username, "id");
    assert "role"[0] != "name"[0] && "role"[0] != "username"[0];
    KeepsOtherKey(user, name, username, "role");
  }

  lemma KeepsOtherKey(user: Json, name: string, username: string, key: string)
    requires Truthy(user) && key != "name" && key != "username"
    ensures Lookup(UpdateProfileLocal(user, name, username).fields, key) == Lookup(FieldsOf(user), key)
  {
  }
}
