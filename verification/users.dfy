/** The user-management page: listing users, adding one through the
    registration endpoint, editing name/role/password, deleting, and the
    add/edit form's life cycle. */
module Users {
  import opened Wrappers
  import opened Json
  import opened Http
  import opened Text
  import JsonText

  /** The add/edit form. `role` is whatever the role select holds. */
  datatype UserForm = UserForm(username: string, name: string, password: string, currentPassword: string, role: string)

  /** The form's initial and reset value. */
  const EmptyForm := UserForm("", "", "", "", "user")

  /** A listed user, as far as the page uses it. */
  datatype User = User(id: int, username: string, name: string, role: string)

  /** The page's state. `users` are the JSON values the server listed. */
  datatype PageState = PageState(
    users: seq<Json>,
    loading: bool,
    error: Option<Error>,
    showAddModal: bool,
    showEditModal: bool,
    currentUser: Option<User>,
    form: UserForm)

  function Initial(): (s: PageState)
    ensures s.loading && s.error.None? && s.form == EmptyForm && !s.showAddModal && !s.showEditModal
  {
    PageState([], true, None, false, false, None, EmptyForm)
  }

  // ---------------------------------------------------------------------
  // listing
  // ---------------------------------------------------------------------

  const InvalidUsersMessage := "Invalid users data format received from server"

  /** Accepting a listing body: a bare array, or an envelope whose `data`
      is an array (a falsy `data`, or a primitive body, lists nobody); a
      truthy non-array `data` is rejected; a `null` body throws on `.data`. */
  function NormalizeUsers(result: Json): (r: Result<seq<Json>, Error>)
    ensures result.JArr? ==> r == Ok(result.items)
    ensures result.JNull? ==> r == Err(NullProperty("data"))
    ensures r.Err? ==> result.JNull? || (TruthyMember(result, "data") && !Member(result, "data").value.JArr?)
    ensures !result.JArr? && !result.JNull? && TruthyMember(result, "data") && !Member(result, "data").value.JArr? ==>
      r == Err(Message(InvalidUsersMessage))
    ensures !result.JArr? && !result.JNull? && TruthyMember(result, "data") && Member(result, "data").value.JArr? ==>
      r == Ok(Member(result, "data").value.items)
    ensures !result.JArr? && !result.JNull? && !TruthyMember(result, "data") ==> r == Ok([])
  {
    if result.JArr? then Ok(result.items)
    else if result.JNull? then Err(NullProperty("data"))
    else if TruthyMember(result, "data") then
      var data := Member(result, "data").value;
      if data.JArr? then Ok(data.items) else Err(Message(InvalidUsersMessage))
    else Ok([])
  }

  /** The envelope `{data: xs}` and the bare array `xs` list the same users. */
  lemma EnvelopeSameAsArray(xs: seq<Json>)
    ensures NormalizeUsers(JObj([("data", JArr(xs))])) == NormalizeUsers(JArr(xs)) == Ok(xs)
  {
    assert Lookup([("data", JArr(xs))], "data") == Some(JArr(xs));
  }

  /** `fetchUsers`: the token check, the login redirect on 401/403, the
      shared non-OK handling with a status-text fallback, the non-JSON error
      and the array normalisation. */
  function FetchUsers(token: Option<string>, r: Response): (out: Fetched<seq<Json>>)
    ensures !HasToken(token) ==> out == Failed(Message(NoTokenMessage))
    ensures out.ToLogin? <==> HasToken(token) && !r.Ok() && r.IsAuthFailure()
    ensures HasToken(token) && !r.Ok() && !r.IsAuthFailure() ==>
      out == Failed(ErrorBodyMessage(r, "Failed to fetch users: " + r.statusText))
    ensures out.Loaded? <==>
      HasToken(token) && r.Ok() && r.IsJson() && r.parsed.Some? && NormalizeUsers(r.parsed.value).Ok?
    ensures out.Loaded? ==> out.value == NormalizeUsers(r.parsed.value).value
    ensures HasToken(token) && r.Ok() && !r.IsJson() ==> out == Failed(NotJson(r))
    ensures HasToken(token) && r.Ok() && r.IsJson() && r.parsed.None? ==> out == Failed(SyntaxError)
    ensures HasToken(token) && r.Ok() && r.IsJson() && r.parsed.Some? && NormalizeUsers(r.parsed.value).Err? ==>
      out == Failed(NormalizeUsers(r.parsed.value).error)
  {
    if !HasToken(token) then Failed(Message(NoTokenMessage))
    else if !r.Ok() then
      if r.IsAuthFailure() then ToLogin
      else Failed(ErrorBodyMessage(r, "Failed to fetch users: " + r.statusText))
    else if !r.IsJson() then Failed(NotJson(r))
    else
      match r.parsed
      case None => Failed(SyntaxError)
      case Some(result) =>
        match NormalizeUsers(result)
        case Ok(xs) => Loaded(xs)
        case Err(e) => Failed(e)
  }

  /** What `fetchUsers` does before its first `await`: `loading` is set and
      the error cleared; nothing else changes. */
  function StartFetch(s: PageState): (t: PageState)
    ensures t.loading && t.error.None?
    ensures t.users == s.users && t.form == s.form && t.currentUser == s.currentUser
    ensures t.showAddModal == s.showAddModal && t.showEditModal == s.showEditModal
  {
    s.(loading := true, error := None)
  }

  /** The bare array and the `{data: [...]}` envelope both load exactly
      their array. */
  lemma FetchUsersLoadsEitherShape(token: Option<string>, r: Response, xs: seq<Json>)
    requires HasToken(token) && r.Ok() && r.IsJson()
    requires r.parsed == Some(JArr(xs)) || r.parsed == Some(JObj([("data", JArr(xs))]))
    ensures FetchUsers(token, r) == Loaded(xs)
  {
    EnvelopeSameAsArray(xs);
  }

  /** A fetch's effect on the page (the error is cleared when it starts,
      `loading` is false when it ends), and whether it navigates to the
      login page. */
  function ApplyFetch(s: PageState, out: Fetched<seq<Json>>): (r: (PageState, bool))
    ensures !r.0.loading
    ensures r.1 <==> out.ToLogin?
    ensures out.Loaded? ==> r.0.users == out.value && r.0.error.None?
    ensures out.Failed? ==> r.0.users == s.users && r.0.error == Some(out.error)
    ensures out.ToLogin? ==> r.0.users == s.users && r.0.error.None?
    ensures r.0.form == s.form && r.0.currentUser == s.currentUser
  {
    match out
    case Loaded(xs) => (s.(users := xs, loading := false, error := None), false)
    case ToLogin => (s.(loading := false, error := None), true)
    case Failed(e) => (s.(loading := false, error := Some(e)), false)
  }

  // ---------------------------------------------------------------------
  // form
  // ---------------------------------------------------------------------

  datatype FormField = UsernameField | NameField | PasswordField | CurrentPasswordField | RoleField

  /** `handleInputChange`: one field takes the new value. */
  function InputChange(f: UserForm, field: FormField, value: string): (g: UserForm)
    ensures field.UsernameField? ==> g == f.(username := value)
    ensures field.NameField? ==> g == f.(name := value)
    ensures field.PasswordField? ==> g == f.(password := value)
    ensures field.CurrentPasswordField? ==> g == f.(currentPassword := value)
    ensures field.RoleField? ==> g == f.(role := value)
  {
    match field
    case UsernameField => f.(username := value)
    case NameField => f.(name := value)
    case PasswordField => f.(password := value)
    case CurrentPasswordField => f.(currentPassword := value)
    case RoleField => f.(role := value)
  }

  /** `handleEditClick`: the form takes the user's username, name and role,
      with both password fields empty, and the edit modal opens. */
  function EditClick(s: PageState, u: User): (t: PageState)
    ensures t.currentUser == Some(u) && t.showEditModal
    ensures t.form.username == u.username && t.form.name == u.name && t.form.role == u.role
    ensures t.form.password == "" && t.form.currentPassword == ""
    ensures t.users == s.users && t.error == s.error && t.showAddModal == s.showAddModal
  {
    s.(currentUser := Some(u), showEditModal := true,
       form := UserForm(u.username, u.name, "", "", u.role))
  }

  /** `handleCloseModal`: both modals close, the form resets, the error clears. */
  function CloseModal(s: PageState): (t: PageState)
    ensures !t.showAddModal && !t.showEditModal && t.form == EmptyForm && t.error.None?
    ensures t.users == s.users && t.currentUser == s.currentUser && t.loading == s.loading
  {
    s.(showAddModal := false, showEditModal := false, form := EmptyForm, error := None)
  }

  /** The "Add New User" button: the form is emptied and the add modal
      opens. */
  function OpenAddModal(s: PageState): (t: PageState)
    ensures t.showAddModal && t.form == EmptyForm
    ensures t.users == s.users && t.error == s.error && t.showEditModal == s.showEditModal
    ensures t.currentUser == s.currentUser && t.loading == s.loading
  {
    s.(showAddModal := true, form := EmptyForm)
  }

  /** A modal's Cancel button hides that modal only: the form, and the
      other modal, are kept. */
  function CancelModal(s: PageState, add: bool): (t: PageState)
    ensures add ==> !t.showAddModal && t.showEditModal == s.showEditModal
    ensures !add ==> !t.showEditModal && t.showAddModal == s.showAddModal
    ensures t.form == s.form && t.users == s.users && t.error == s.error && t.currentUser == s.currentUser
  {
    if add then s.(showAddModal := false) else s.(showEditModal := false)
  }

  /** Cancel, unlike closing, keeps what was typed; the next "Add New User"
      still starts from the empty form. */
  lemma CancelKeepsFormAddEmptiesIt(s: PageState, add: bool)
    ensures CancelModal(s, add).form == s.form
    ensures OpenAddModal(CancelModal(s, add)).form == EmptyForm
    ensures CloseModal(s).form == EmptyForm
  {
  }

  /** Opening the edit form and closing it leaves no trace of the user's
      data in the form. */
  lemma EditThenCloseForgetsForm(s: PageState, u: User)
    ensures CloseModal(EditClick(s, u)).form == EmptyForm
    ensures CloseModal(EditClick(s, u)).users == s.users
  {
  }

  // ---------------------------------------------------------------------
  // add
  // ---------------------------------------------------------------------

  /** The add form's checks, in order. */
  function ValidateNewUser(f: UserForm): (r: Option<string>)
    ensures r.None? <==> f.username != "" && |f.password| >= 6
    ensures (f.username == "" || f.password == "") ==> r == Some("Username and password are required")
    ensures f.username != "" && 0 < |f.password| < 6 ==> r == Some("Password must be at least 6 characters")
  {
    if f.username == "" || f.password == "" then Some("Username and password are required")
    else if |f.password| < 6 then Some("Password must be at least 6 characters")
    else None
  }

  /** The registration request body. */
  function RegisterBody(f: UserForm): (b: Json)
    ensures b.JObj?
    ensures Lookup(b.fields, "username") == Some(JStr(f.username))
    ensures Lookup(b.fields, "password") == Some(JStr(f.password))
    ensures Lookup(b.fields, "name") == Some(JStr(f.name))
    ensures Lookup(b.fields, "role") == Some(JStr(Lower(f.role)))
    ensures forall k :: k != "username" && k != "password" && k != "name" && k != "role" ==> Lookup(b.fields, k).None?
  {
    var fields := Set(Set(Credentials(f), "name", JStr(f.name)), "role", JStr(Lower(f.role)));
    assert "username"[0] != "name"[0] && "username"[0] != "role"[0];
    assert "password"[0] != "name"[0] && "password"[0] != "role"[0];
    JObj(fields)
  }

  /** The credentials a registration starts from: exactly `username` and
      `password`. */
  function Credentials(f: UserForm): (fs: seq<(string, Json)>)
    ensures Lookup(fs, "username") == Some(JStr(f.username))
    ensures Lookup(fs, "password") == Some(JStr(f.password))
    ensures forall k :: k != "username" && k != "password" ==> Lookup(fs, k).None?
  {
    Set(Set([], "username", JStr(f.username)), "password", JStr(f.password))
  }

  /** The server reads back exactly the body the page sent. */
  lemma RegisterBodyTransmitted(f: UserForm)
    ensures JsonText.Decode(JsonText.Encode(RegisterBody(f))) == Some(RegisterBody(f))
  {
    JsonText.RoundTrip(RegisterBody(f));
  }

  /** The add and edit handlers' reading of a response: a JSON body (`{}`
      when it does not parse) supplies the error message of a non-OK
      response; a non-JSON body on a non-OK response is reported as such;
      any OK response is a success whatever its body. */
  function MutationError(r: Response, fallback: string): (e: Option<Error>)
    ensures e.None? <==> r.Ok()
    ensures !r.Ok() && !r.IsJson() ==> e == Some(NotJson(r))
    ensures !r.Ok() && r.IsJson() ==> e == Some(DataMessageOr(r.parsed.GetOr(JObj([])), fallback))
  {
    if r.IsJson() then
      var data := r.parsed.GetOr(JObj([]));
      if !r.Ok() then Some(DataMessageOr(data, fallback)) else None
    else if !r.Ok() then Some(NotJson(r))
    else None
  }

  /** What a handler leaves behind: the new state, the request it sent (if
      any), and whether it re-fetches the list. */
  datatype Outcome<Req> = Outcome(state: PageState, request: Option<Req>, refetch: bool)

  /** `handleAddUser`, with `r` the response the registration request
      receives if it is sent. */
  function AddUser(s: PageState, r: Response): (o: Outcome<Json>)
    ensures ValidateNewUser(s.form).Some? ==>
      o == Outcome(s.(error := Some(Message(ValidateNewUser(s.form).value))), None, false)
    ensures ValidateNewUser(s.form).None? ==> o.request == Some(RegisterBody(s.form))
    ensures ValidateNewUser(s.form).None? && r.Ok() ==>
      o.refetch && !o.state.showAddModal && o.state.form == EmptyForm && o.state.error.None?
    ensures ValidateNewUser(s.form).None? && !r.Ok() ==>
      !o.refetch && o.state == s.(error := MutationError(r, "Failed to add user"))
    ensures o.state.users == s.users && o.state.showEditModal == s.showEditModal
  {
    match ValidateNewUser(s.form)
    case Some(msg) => Outcome(s.(error := Some(Message(msg))), None, false)
    case None =>
      var body := RegisterBody(s.form);
      match MutationError(r, "Failed to add user")
      case Some(e) => Outcome(s.(error := Some(e)), Some(body), false)
      case None => Outcome(s.(showAddModal := false, form := EmptyForm, error := None), Some(body), true)
  }

  /** A successful add leaves the page as closing the modals would. */
  lemma AddSuccessIsClose(s: PageState, r: Response)
    requires !s.showEditModal
    requires ValidateNewUser(s.form).None? && r.Ok()
    ensures AddUser(s, r).state == CloseModal(s)
  {
  }

  /** A rejected add keeps the form as typed, so the user can correct it. */
  lemma AddFailureKeepsForm(s: PageState, r: Response)
    requires ValidateNewUser(s.form).Some? || !r.Ok()
    ensures AddUser(s, r).state.form == s.form
    ensures AddUser(s, r).state.error.Some?
    ensures !AddUser(s, r).refetch
  {
  }

  // ---------------------------------------------------------------------
  // edit
  // ---------------------------------------------------------------------

  const CurrentPasswordRequiredMessage := "Current password is required to change password"

  /** The fields every update carries: name and lowercased role. */
  function NameAndRole(f: UserForm): (fs: seq<(string, Json)>)
    ensures Lookup(fs, "name") == Some(JStr(f.name))
    ensures Lookup(fs, "role") == Some(JStr(Lower(f.role)))
    ensures forall k :: k != "name" && k != "role" ==> Lookup(fs, k).None?
  {
    Set(Set([], "name", JStr(f.name)), "role", JStr(Lower(f.role)))
  }

  /** The update body: name and lowercased role, plus the current and new
      password only when a new password was typed. */
  function UpdateBody(f: UserForm): (b: Json)
    ensures b.JObj?
    ensures Lookup(b.fields, "name") == Some(JStr(f.name))
    ensures Lookup(b.fields, "role") == Some(JStr(Lower(f.role)))
    ensures f.password == "" ==> Lookup(b.fields, "newPassword").None? && Lookup(b.fields, "currentPassword").None?
    ensures f.password != "" ==> Lookup(b.fields, "newPassword") == Some(JStr(f.password))
    ensures f.password != "" ==> Lookup(b.fields, "currentPassword") == Some(JStr(f.currentPassword))
    ensures Lookup(b.fields, "username").None?
  {
    var base := NameAndRole(f);
    if f.password != "" then
      var fs := WithPasswords(base, f.currentPassword, f.password);
      assert |"name"| < |"newPassword"| < |"currentPassword"|;
      assert Lookup(fs, "name") == Lookup(base, "name");
      assert Lookup(fs, "role") == Lookup(base, "role");
      assert Lookup(fs, "username") == Lookup(base, "username");
      JObj(fs)
    else JObj(base)
  }

  /** The password-change fields added to an update. */
  function WithPasswords(base: seq<(string, Json)>, current: string, newPassword: string): (fs: seq<(string, Json)>)
    ensures Lookup(fs, "currentPassword") == Some(JStr(current))
    ensures Lookup(fs, "newPassword") == Some(JStr(newPassword))
    ensures forall k :: k != "currentPassword" && k != "newPassword" ==> Lookup(fs, k) == Lookup(base, k)
  {
    Set(Set(base, "currentPassword", JStr(current)), "newPassword", JStr(newPassword))
  }

  /** `handleEditUser`, with `r` the response the update request receives
      if it is sent; the request is the user's id and the body. */
  function EditUser(s: PageState, token: Option<string>, r: Response): (o: Outcome<(int, Json)>)
    ensures s.currentUser.None? ==> o == Outcome(s, None, false)
    ensures s.currentUser.Some? && !HasToken(token) ==>
      o == Outcome(s.(error := Some(Message(NoTokenMessage))), None, false)
    ensures s.currentUser.Some? && HasToken(token) && s.form.password != "" && s.form.currentPassword == "" ==>
      o == Outcome(s.(error := Some(Message(CurrentPasswordRequiredMessage))), None, false)
    ensures o.request.Some? <==>
      s.currentUser.Some? && HasToken(token) && (s.form.password == "" || s.form.currentPassword != "")
    ensures o.request.Some? ==> o.request.value == (s.currentUser.value.id, UpdateBody(s.form))
    ensures o.request.Some? && r.Ok() ==>
      o.refetch && o.state == s.(showEditModal := false, form := EmptyForm)
    ensures o.request.Some? && !r.Ok() ==>
      !o.refetch && o.state == s.(error := MutationError(r, "Failed to update user"))
  {
    match s.currentUser
    case None => Outcome(s, None, false)
    case Some(u) =>
      if !HasToken(token) then Outcome(s.(error := Some(Message(NoTokenMessage))), None, false)
      else if s.form.password != "" && s.form.currentPassword == "" then
        Outcome(s.(error := Some(Message(CurrentPasswordRequiredMessage))), None, false)
      else
        var req := (u.id, UpdateBody(s.form));
        match MutationError(r, "Failed to update user")
        case Some(e) => Outcome(s.(error := Some(e)), Some(req), false)
        case None => Outcome(s.(showEditModal := false, form := EmptyForm), Some(req), true)
  }

  /** A password change is never sent without the current password, and a
      request without a password change carries no password at all. */
  lemma EditNeverSendsBarePassword(s: PageState, token: Option<string>, r: Response)
    requires EditUser(s, token, r).request.Some?
    ensures var b := EditUser(s, token, r).request.value.1;
      (Lookup(b.fields, "newPassword").Some? ==> Lookup(b.fields, "currentPassword") != Some(JStr("")))
      && (s.form.password == "" ==> Lookup(b.fields, "newPassword").None? && Lookup(b.fields, "currentPassword").None?)
  {
  }

  /** A successful edit leaves an earlier error to the re-fetch it starts,
      which clears it at once; when the re-fetch loads, the page shows the
      new list with the editor closed, the form empty and no error. */
  lemma EditSuccessRefetchClearsError(s: PageState, token: Option<string>, r: Response, r2: Response)
    requires EditUser(s, token, r).request.Some? && r.Ok()
    ensures var o := EditUser(s, token, r);
      o.refetch && o.state.error == s.error
      && StartFetch(o.state).error.None? && StartFetch(o.state).loading
    ensures var t := StartFetch(EditUser(s, token, r).state);
      FetchUsers(token, r2).Loaded? ==>
        ApplyFetch(t, FetchUsers(token, r2)) ==
          (s.(users := FetchUsers(token, r2).value, loading := false, error := None,
              showEditModal := false, form := EmptyForm), false)
  {
  }

  // ---------------------------------------------------------------------
  // delete
  // ---------------------------------------------------------------------

  /** `handleDeleteUser`: nothing unless the user confirms; then the request
      is sent (there is no token check) and a non-OK response sets the
      shared error-body message. */
  function DeleteUser(s: PageState, id: int, confirmed: bool, r: Response): (o: Outcome<int>)
    ensures !confirmed ==> o == Outcome(s, None, false)
    ensures confirmed ==> o.request == Some(id)
    ensures confirmed && r.Ok() ==> o == Outcome(s, Some(id), true)
    ensures confirmed && !r.Ok() ==>
      o == Outcome(s.(error := Some(ErrorBodyMessage(r, "Failed to delete user"))), Some(id), false)
  {
    if !confirmed then Outcome(s, None, false)
    else if r.Ok() then Outcome(s, Some(id), true)
    else Outcome(s.(error := Some(ErrorBodyMessage(r, "Failed to delete user"))), Some(id), false)
  }

  /** A rejected delete and a rejected listing whose JSON body carries a
      `message` report that same message. */
  lemma DeleteAndListingShareMessage(s: PageState, id: int, token: Option<string>, r: Response)
    requires HasToken(token) && !r.Ok() && !r.IsAuthFailure()
    requires r.IsJson() && r.parsed.Some? && TruthyMember(r.parsed.value, "message")
    ensures DeleteUser(s, id, true, r).state.error == Some(FetchUsers(token, r).error)
    ensures DeleteUser(s, id, true, r).state.error == Some(Message(ToJsString(Member(r.parsed.value, "message").value)))
  {
    ErrorBodyPrefersMessage(r, "Failed to delete user", "Failed to fetch users: " + r.statusText);
  }

  /** A successful delete leaves the list to the re-fetch it starts: the
      handler changes nothing, and the re-fetch clears any error at once. */
  lemma DeleteSuccessRefetches(s: PageState, id: int, r: Response)
    requires r.Ok()
    ensures DeleteUser(s, id, true, r) == Outcome(s, Some(id), true)
    ensures StartFetch(s).error.None? && StartFetch(s).users == s.users
  {
  }
}
