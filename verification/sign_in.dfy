/** The sign-in form: its validation, the login request, the hand-over of
    the signed-in user to the auth context, and the redirect afterwards. */
module SignIn {
  import opened Wrappers
  import opened Text
  import opened Json
  import opened Http
  import AuthService
  import opened AuthContext
  import opened Routes

  datatype Form = Form(username: string, password: string)

  const ValidationMessage := "Please enter both username and password"
  const FailureMessage := "Invalid username or password. Please try again."

  /** The form is sent only with a non-blank username and a non-empty
      password. */
  predicate Sendable(f: Form) {
    Trim(f.username) != "" && f.password != ""
  }

  /** What a submit leaves behind: the form, the error shown, the context,
      the storage, the credentials sent to the login endpoint (if any) and
      where the page navigates (if anywhere). */
  datatype Submitted = Submitted(
    form: Form,
    error: Option<string>,
    ctx: Ctx,
    storage: AuthService.Storage,
    credentials: Option<(string, string)>,
    navigate: Option<string>)

  /** `response.user`, with a missing field read as a signed-out user. */
  function ResponseUser(data: Json): (u: Json)
    requires !data.JNull?
    ensures Member(data, "user").Found? ==> u == Member(data, "user").value
    ensures !Member(data, "user").Found? ==> u == JNull
  {
    match Member(data, "user")
    case Found(v) => v
    case _ => JNull
  }

  /** `handleSubmit`, with `from` the remembered pathname and `r` the login
      response. */
  function Submit(f: Form, c: Ctx, st: AuthService.Storage, from: Option<string>, r: Response): (s: Submitted)
    ensures !Sendable(f) ==> s == Submitted(f, Some(ValidationMessage), c, st, None, None)
    ensures Sendable(f) ==> s.credentials == Some((Trim(f.username), f.password))
    ensures s.navigate.Some? ==> s.error.None? && s.navigate.value == RedirectTarget(from) && s.form == f
    ensures Sendable(f) && s.navigate.None? ==>
      s.error == Some(FailureMessage) && s.form == Form(f.username, "")
    ensures AuthService.Login(st, r).Err? ==> s.ctx == c && s.storage == st && s.navigate.None?
    ensures AuthService.Login(st, r).Ok? && Sendable(f) ==> s.storage == AuthService.Login(st, r).value.1
  {
    if !Sendable(f) then Submitted(f, Some(ValidationMessage), c, st, None, None)
    else
      var credentials := Some((Trim(f.username), f.password));
      var failed := Form(f.username, "");
      match AuthService.Login(st, r)
      case Err(_) => Submitted(failed, Some(FailureMessage), c, st, credentials, None)
      case Ok((data, st')) =>
        var (c', thrown) := AuthContext.Login(c, ResponseUser(data), st');
        if thrown.Some? then Submitted(failed, Some(FailureMessage), c', st', credentials, None)
        else Submitted(f, None, c', st', credentials, Some(RedirectTarget(from)))
  }

  /** A login answered with a string token and a truthy user signs the user
      in, stores the session, and goes on to the remembered page. */
  lemma SuccessfulSignIn(f: Form, c: Ctx, st: AuthService.Storage, from: Option<string>, r: Response)
    requires Sendable(f) && AuthService.Login(st, r).Ok?
    requires TruthyMember(r.parsed.value, "token") && TruthyMember(r.parsed.value, "user")
    requires Member(r.parsed.value, "token").value.JStr?
    ensures Submit(f, c, st, from, r).ctx.user == Member(r.parsed.value, "user").value
    ensures IsAuthenticated(Submit(f, c, st, from, r).ctx)
    ensures Submit(f, c, st, from, r).navigate == Some(RedirectTarget(from))
    ensures CheckAuth(true, Submit(f, c, st, from, r).storage).user == Member(r.parsed.value, "user").value
  {
    var data := r.parsed.value;
    AuthService.LoginSessionReadsBack(st, r);
  }

  /** The page's redirect effect: a signed-in visitor is sent on to the
      remembered page, the same place `PublicRoute` would send them. */
  function RedirectIfSignedIn(c: Ctx, from: Option<string>): (to: Option<string>)
    ensures to.Some? <==> IsAuthenticated(c)
    ensures to.Some? ==> Render(c, Location("/login", from)) == (if c.isLoading then Loading else Navigate(to.value, None))
  {
    if IsAuthenticated(c) then Some(RedirectTarget(from)) else None
  }
}
