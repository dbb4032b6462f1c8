/** The authentication service: the session kept in `localStorage` (the
    token under "authToken", the user as JSON text under "user"), login,
    profile update and password change. */
module AuthService {
  import opened Wrappers
  import opened Json
  import opened Http
  import JsonText

  /** `localStorage`: string keys to string values. */
  type Storage = map<string, string>

  const TokenKey := "authToken"
  const UserKey := "user"

  /** `storeAuthData`: the token as its string form, the user as JSON text;
      every other key is kept. */
  function StoreAuthData(st: Storage, token: Json, user: Json): (r: Storage)
    ensures TokenKey in r && r[TokenKey] == ToJsString(token)
    ensures UserKey in r && r[UserKey] == JsonText.Encode(user)
    ensures forall k :: k != TokenKey && k != UserKey ==> (k in r <==> k in st) && (k in st ==> r[k] == st[k])
  {
    st[TokenKey := ToJsString(token)][UserKey := JsonText.Encode(user)]
  }

  /** `clearAuthData`: both session keys removed, every other key kept. */
  function ClearAuthData(st: Storage): (r: Storage)
    ensures TokenKey !in r && UserKey !in r
    ensures forall k :: k != TokenKey && k != UserKey ==> (k in r <==> k in st) && (k in st ==> r[k] == st[k])
  {
    st - {TokenKey, UserKey}
  }

  /** What `getStoredAuthData` returns: the token (`None` for null) and the
      user (`JNull` for null). */
  datatype AuthData = AuthData(token: Option<string>, user: Json)

  /** `getStoredAuthData`: nulls without a window; otherwise the stored
      token, and the stored user parsed from its text (a missing or empty
      entry is null, and malformed text throws). */
  function GetStoredAuthData(hasWindow: bool, st: Storage): (r: Result<AuthData, Error>)
    ensures !hasWindow ==> r == Ok(AuthData(None, JNull))
    ensures hasWindow && (UserKey !in st || st[UserKey] == "") ==>
      r == Ok(AuthData(if TokenKey in st then Some(st[TokenKey]) else None, JNull))
    ensures r.Err? ==> r.error == SyntaxError && UserKey in st && JsonText.Decode(st[UserKey]).None?
    ensures r.Ok? && hasWindow ==> r.value.token == (if TokenKey in st then Some(st[TokenKey]) else None)
    ensures hasWindow && UserKey in st && st[UserKey] != "" ==>
      (r.Err? <==> JsonText.Decode(st[UserKey]).None?)
      && (r.Ok? ==> r.value.user == JsonText.Decode(st[UserKey]).value)
  {
    if !hasWindow then Ok(AuthData(None, JNull))
    else
      var token := if TokenKey in st then Some(st[TokenKey]) else None;
      if UserKey !in st || st[UserKey] == "" then Ok(AuthData(token, JNull))
      else
        match JsonText.Decode(st[UserKey])
        case None => Err(SyntaxError)
        case Some(u) => Ok(AuthData(token, u))
  }

  /** Reading back what was stored gives the token's string form and the
      user itself. */
  lemma StoreThenGet(st: Storage, token: Json, user: Json)
    ensures GetStoredAuthData(true, StoreAuthData(st, token, user)) == Ok(AuthData(Some(ToJsString(token)), user))
  {
    JsonText.RoundTrip(user);
  }

  /** After clearing, there is neither token nor user. */
  lemma ClearThenGet(st: Storage)
    ensures GetStoredAuthData(true, ClearAuthData(st)) == Ok(AuthData(None, JNull))
  {
  }

  // ---------------------------------------------------------------------
  // login
  // ---------------------------------------------------------------------

  /** `login`, given the response to the credentials: a non-OK response
      throws its `message` or "Login failed"; an OK body is returned, and
      stored only when both its `token` and `user` are truthy. */
  function Login(st: Storage, r: Response): (out: Result<(Json, Storage), Error>)
    ensures r.parsed.None? ==> out == Err(SyntaxError)
    ensures !r.Ok() && r.parsed.Some? && !r.parsed.value.JNull? ==> out == Err(MessageOr(r.parsed.value, "Login failed"))
    ensures out.Ok? <==> r.Ok() && r.parsed.Some? && !r.parsed.value.JNull?
    ensures out.Ok? ==> out.value.0 == r.parsed.value
    ensures !r.Ok() && r.parsed == Some(JNull) ==> out == Err(NullProperty("message"))
    ensures r.Ok() && r.parsed == Some(JNull) ==> out == Err(NullProperty("token"))
    ensures out.Ok? && TruthyMember(r.parsed.value, "token") && TruthyMember(r.parsed.value, "user") ==>
      out.value.1 == StoreAuthData(st, Member(r.parsed.value, "token").value, Member(r.parsed.value, "user").value)
    ensures out.Ok? && !(TruthyMember(r.parsed.value, "token") && TruthyMember(r.parsed.value, "user")) ==>
      out.value.1 == st
  {
    match r.parsed
    case None => Err(SyntaxError)
    case Some(data) =>
      if !r.Ok() then
        if data.JNull? then Err(NullProperty("message")) else Err(MessageOr(data, "Login failed"))
      else if data.JNull? then Err(NullProperty("token"))
      else if TruthyMember(data, "token") && TruthyMember(data, "user") then
        Ok((data, StoreAuthData(st, Member(data, "token").value, Member(data, "user").value)))
      else Ok((data, st))
  }

  /** A successful login's session reads back as the response's token and
      user. */
  lemma LoginSessionReadsBack(st: Storage, r: Response)
    requires Login(st, r).Ok?
    requires TruthyMember(r.parsed.value, "token") && TruthyMember(r.parsed.value, "user")
    ensures var data := r.parsed.value;
      GetStoredAuthData(true, Login(st, r).value.1)
        == Ok(AuthData(Some(ToJsString(Member(data, "token").value)), Member(data, "user").value))
  {
    var data := r.parsed.value;
    StoreThenGet(st, Member(data, "token").value, Member(data, "user").value);
  }

  // ---------------------------------------------------------------------
  // profile update
  // ---------------------------------------------------------------------

  const NoTokenPleaseLogInMessage := "No authentication token found. Please log in again."
  const NetworkErrorMessage := "Network error: Unable to connect to the server. Please check your internet connection."
  const InvalidResponseMessage := "Invalid response from server"

  /** The stored user after a profile update: the stored fields, overridden
      by the response's; nothing is written when no user is stored. */
  function MergeStoredUser(st: Storage, user: Json, responseData: Json): (r: Storage)
    ensures !Truthy(user) ==> r == st
    ensures Truthy(user) ==> UserKey in r && JsonText.Decode(r[UserKey]).Some? && JsonText.Decode(r[UserKey]).value.JObj?
    ensures Truthy(user) ==> forall k ::
      Lookup(JsonText.Decode(r[UserKey]).value.fields, k)
        == (if Lookup(FieldsOf(responseData), k).Some? then Lookup(FieldsOf(responseData), k) else Lookup(FieldsOf(user), k))
    ensures forall k :: k != UserKey ==> (k in r <==> k in st) && (k in st ==> r[k] == st[k])
  {
    if Truthy(user) then
      var merged := JObj(Spread(FieldsOf(user), FieldsOf(responseData)));
      JsonText.RoundTrip(merged);
      SpreadLookupAll(FieldsOf(user), FieldsOf(responseData));
      st[UserKey := JsonText.Encode(merged)]
    else st
  }

  /** Reading the session back after a merge keeps the token and yields
      the merged user: the response's fields over the stored ones. */
  lemma MergeThenGet(st: Storage, user: Json, responseData: Json)
    requires Truthy(user)
    ensures var got := GetStoredAuthData(true, MergeStoredUser(st, user, responseData));
      got.Ok? && got.value.token == (if TokenKey in st then Some(st[TokenKey]) else None)
      && got.value.user.JObj?
      && forall k :: Lookup(got.value.user.fields, k)
           == (if Lookup(FieldsOf(responseData), k).Some? then Lookup(FieldsOf(responseData), k) else Lookup(FieldsOf(user), k))
  {
    var st' := MergeStoredUser(st, user, responseData);
    assert JsonText.Decode("").None?;
    assert st'[UserKey] != "";
  }

  /** `updateProfile` as written, with `r` the response (`None` when the
      request fails on the network): after the token check, any response
      with a JSON body is merged into the stored user, whatever its status. */
  function UpdateProfileAsWritten(st: Storage, r: Option<Response>): (out: Result<(Json, Storage), Error>)
    ensures out.Ok? <==>
      GetStoredAuthData(true, st).Ok? && HasToken(GetStoredAuthData(true, st).value.token)
      && r.Some? && r.value.parsed.Some?
    ensures out.Ok? ==> out.value == (r.value.parsed.value,
      MergeStoredUser(st, GetStoredAuthData(true, st).value.user, r.value.parsed.value))
    ensures GetStoredAuthData(true, st).Err? ==> out == Err(GetStoredAuthData(true, st).error)
    ensures GetStoredAuthData(true, st).Ok? && !HasToken(GetStoredAuthData(true, st).value.token) ==>
      out == Err(Message(NoTokenPleaseLogInMessage))
    ensures GetStoredAuthData(true, st).Ok? && HasToken(GetStoredAuthData(true, st).value.token) && r.None? ==>
      out == Err(Message(NetworkErrorMessage))
    ensures GetStoredAuthData(true, st).Ok? && HasToken(GetStoredAuthData(true, st).value.token) && r.Some? && r.value.parsed.None? ==>
      out == Err(Message(InvalidResponseMessage))
  {
    match GetStoredAuthData(true, st)
    case Err(e) => Err(e)
    case Ok(auth) =>
      if !HasToken(auth.token) then Err(Message(NoTokenPleaseLogInMessage))
      else if r.None? then Err(Message(NetworkErrorMessage))
      else if r.value.parsed.None? then Err(Message(InvalidResponseMessage))
      else Ok((r.value.parsed.value, MergeStoredUser(st, auth.user, r.value.parsed.value)))
  }

  /** A rejected update (say a 409 whose body is `{"message": ...}`) is
      written into the stored user as if it were profile data. */
  lemma AsWrittenStoresErrorBody(st: Storage, r: Response, msg: string)
    requires GetStoredAuthData(true, st).Ok?
    requires HasToken(GetStoredAuthData(true, st).value.token)
    requires GetStoredAuthData(true, st).value.user.JObj?
    requires !r.Ok() && r.parsed == Some(JObj([("message", JStr(msg))]))
    ensures UpdateProfileAsWritten(st, Some(r)).Ok?
    ensures var st' := UpdateProfileAsWritten(st, Some(r)).value.1;
      UserKey in st' && JsonText.Decode(st'[UserKey]).Some? && JsonText.Decode(st'[UserKey]).value.JObj?
      && Lookup(JsonText.Decode(st'[UserKey]).value.fields, "message") == Some(JStr(msg))
  {
    var user := GetStoredAuthData(true, st).value.user;
    var merged := JObj(Spread(FieldsOf(user), [("message", JStr(msg))]));
    JsonText.RoundTrip(merged);
    SpreadLookup(FieldsOf(user), [("message", JStr(msg))], "message");
  }

  /** `updateProfile` with the status checked: a non-OK response throws its
      `message` (or "Failed to update profile") and leaves the storage
      alone; an OK one is merged as before. */
  function UpdateProfile(st: Storage, r: Option<Response>): (out: Result<(Json, Storage), Error>)
    ensures out.Ok? ==> r.Some? && r.value.Ok()
    ensures r.Some? && r.value.Ok() ==> out == UpdateProfileAsWritten(st, r)
    ensures r.Some? && !r.value.Ok() && UpdateProfileAsWritten(st, r).Ok? ==>
      out == Err(DataMessageOr(r.value.parsed.value, "Failed to update profile"))
  {
    match UpdateProfileAsWritten(st, r)
    case Err(e) => Err(e)
    case Ok(res) =>
      if r.value.Ok() then Ok(res)
      else Err(DataMessageOr(r.value.parsed.value, "Failed to update profile"))
  }

  /** With the status checked, the storage changes only on success, and
      then every field of the response reads back from the stored user. */
  lemma UpdateProfileStoresOnlySuccess(st: Storage, r: Response, key: string)
    requires UpdateProfile(st, Some(r)).Ok?
    requires GetStoredAuthData(true, st).value.user.JObj?
    requires r.parsed.value.JObj? && Lookup(r.parsed.value.fields, key).Some?
    ensures r.Ok()
    ensures var st' := UpdateProfile(st, Some(r)).value.1;
      UserKey in st' && JsonText.Decode(st'[UserKey]).Some? && JsonText.Decode(st'[UserKey]).value.JObj?
      && Lookup(JsonText.Decode(st'[UserKey]).value.fields, key) == Lookup(r.parsed.value.fields, key)
  {
    var user := GetStoredAuthData(true, st).value.user;
    var merged := JObj(Spread(FieldsOf(user), r.parsed.value.fields));
    JsonText.RoundTrip(merged);
    SpreadLookup(FieldsOf(user), r.parsed.value.fields, key);
  }

  /** Without a token nothing is sent and nothing is stored. */
  lemma UpdateProfileNeedsToken(st: Storage, r: Option<Response>)
    requires GetStoredAuthData(true, st).Ok? && !HasToken(GetStoredAuthData(true, st).value.token)
    ensures UpdateProfile(st, r) == Err(Message(NoTokenPleaseLogInMessage))
  {
  }

  // ---------------------------------------------------------------------
  // password change
  // ---------------------------------------------------------------------

  /** `'message' in errorData ? errorData.message : fallback`: the `in`
      test throws on null and on primitives. */
  function InMessageOr(data: Json, fallback: string): (e: Error)
    ensures data.JObj? && Lookup(data.fields, "message").Some? ==> e == Message(ToJsString(Lookup(data.fields, "message").value))
    ensures data.JObj? && Lookup(data.fields, "message").None? ==> e == Message(fallback)
    ensures data.JArr? ==> e == Message(fallback)
    ensures !data.JObj? && !data.JArr? ==> e == InOnPrimitive("message")
  {
    match data
    case JObj(fields) =>
      (match Lookup(fields, "message") case Some(m) => Message(ToJsString(m)) case None => Message(fallback))
    case JArr(_) => Message(fallback)
    case _ => InOnPrimitive("message")
  }

  /** `updatePassword`, with `r` the response if the request is sent: the
      result is the request body, or the error thrown. */
  function UpdatePassword(st: Storage, currentPassword: string, newPassword: string, r: Response): (out: Result<Json, Error>)
    ensures GetStoredAuthData(true, st).Ok? && !HasToken(GetStoredAuthData(true, st).value.token) ==>
      out == Err(Message("Not authenticated"))
    ensures out.Ok? <==> GetStoredAuthData(true, st).Ok? && HasToken(GetStoredAuthData(true, st).value.token) && r.Ok()
    ensures out.Ok? ==>
      out.value.JObj?
      && Lookup(out.value.fields, "currentPassword") == Some(JStr(currentPassword))
      && Lookup(out.value.fields, "newPassword") == Some(JStr(newPassword))
    ensures GetStoredAuthData(true, st).Ok? && HasToken(GetStoredAuthData(true, st).value.token) && !r.Ok() ==>
      out == Err(if r.parsed.None? then SyntaxError else InMessageOr(r.parsed.value, "Failed to update password"))
  {
    match GetStoredAuthData(true, st)
    case Err(e) => Err(e)
    case Ok(auth) =>
      if !HasToken(auth.token) then Err(Message("Not authenticated"))
      else if !r.Ok() then
        (match r.parsed
         case None => Err(SyntaxError)
         case Some(data) => Err(InMessageOr(data, "Failed to update password")))
      else Ok(JObj(Set(Set([], "currentPassword", JStr(currentPassword)), "newPassword", JStr(newPassword))))
  }

  /** The password request carries exactly the current and the new
      password, and its JSON text parses back to the same object. */
  lemma PasswordBodyTransmitted(st: Storage, currentPassword: string, newPassword: string, r: Response)
    requires UpdatePassword(st, currentPassword, newPassword, r).Ok?
    ensures var body := UpdatePassword(st, currentPassword, newPassword, r).value;
      JsonText.Decode(JsonText.Encode(body)) == Some(body)
      && forall k :: k != "currentPassword" && k != "newPassword" ==> Lookup(body.fields, k).None?
  {
    JsonText.RoundTrip(UpdatePassword(st, currentPassword, newPassword, r).value);
  }
}
