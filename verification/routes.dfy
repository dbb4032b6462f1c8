/** The application's route table and its two guards: `ProtectedRoute`
    sends a signed-out visitor to the sign-in page, remembering where they
    were going, and `PublicRoute` sends a signed-in visitor from the
    sign-in and sign-up pages back to that remembered place. */
module Routes {
  import opened Wrappers
  import opened AuthContext

  /** The pages the router can show. */
  datatype Page =
    | SignIn | SignUp | NotFound
    | Home | Tickets | TicketsOpen | TicketDetail(id: string) | TicketsClosed
    | PrintReport | Users | MyProfile

  /** The pages reachable without signing in. */
  predicate IsPublicPage(p: Page) {
    p.SignIn? || p.SignUp? || p.NotFound?
  }

  /** The location: its pathname, and `state.from.pathname` when a guard
      put one there. */
  datatype Location = Location(pathname: string, from: Option<string>)

  /** `location.state?.from?.pathname || '/home'`. */
  function RedirectTarget(from: Option<string>): (to: string)
    ensures to != ""
    ensures from.Some? && from.value != "" ==> to == from.value
    ensures from.None? || from.value == "" ==> to == "/home"
  {
    if from.Some? && from.value != "" then from.value else "/home"
  }

  /** What a guard renders. */
  datatype Decision = Spinner | Redirect(to: string, from: Option<string>) | Children

  /** `ProtectedRoute`: a spinner while loading, a redirect to "/login"
      carrying the current pathname when signed out, the page otherwise. */
  function ProtectedRoute(c: Ctx, loc: Location): (d: Decision)
    ensures d.Spinner? <==> c.isLoading
    ensures d.Redirect? <==> !c.isLoading && !IsAuthenticated(c)
    ensures d.Redirect? ==> d == Redirect("/login", Some(loc.pathname))
  {
    if c.isLoading then Spinner
    else if !IsAuthenticated(c) then Redirect("/login", Some(loc.pathname))
    else Children
  }

  /** `PublicRoute`: a spinner while loading, a redirect to the remembered
      page when signed in, the page otherwise. */
  function PublicRoute(c: Ctx, loc: Location): (d: Decision)
    ensures d.Spinner? <==> c.isLoading
    ensures d.Redirect? <==> !c.isLoading && IsAuthenticated(c)
    ensures d.Redirect? ==> d == Redirect(RedirectTarget(loc.from), None)
  {
    if c.isLoading then Spinner
    else if IsAuthenticated(c) then Redirect(RedirectTarget(loc.from), None)
    else Children
  }

  datatype Guard = Protected | Public

  /** A route: the page it shows and the guards wrapped around it,
      outermost first. The dashboard pages sit inside the layout route,
      which is itself protected. */
  datatype Route = Route(page: Page, guards: seq<Guard>)

  /** `/tickets/:id`: one non-empty segment after "/tickets/". */
  predicate IsTicketPath(pathname: string) {
    |pathname| > 9 && pathname[..9] == "/tickets/" && '/' !in pathname[9..]
  }

  /** The route table: exact paths, the ticket-detail pattern, and the
      catch-all, which has no guard. */
  function Resolve(pathname: string): (r: Route)
    ensures r.page == SignIn <==> pathname == "/login"
    ensures r.page == SignUp <==> pathname == "/register"
    ensures r.page.TicketDetail? <==> IsTicketPath(pathname)
    ensures r.page.TicketDetail? ==> "/tickets/" + r.page.id == pathname && r.page.id != ""
    ensures r.page.SignIn? || r.page.SignUp? ==> r.guards == [Public]
    ensures r.page.NotFound? ==> r.guards == []
    ensures !IsPublicPage(r.page) ==> r.guards == [Protected, Protected]
  {
    if pathname == "/login" then Route(SignIn, [Public])
    else if pathname == "/register" then Route(SignUp, [Public])
    else if IsTicketPath(pathname) then
      assert pathname == pathname[..9] + pathname[9..];
      Route(TicketDetail(pathname[9..]), [Protected, Protected])
    else if pathname == "/" || pathname == "/home" then Route(Home, [Protected, Protected])
    else if pathname == "/tickets" then Route(Tickets, [Protected, Protected])
    else if pathname == "/tickets-open" then Route(TicketsOpen, [Protected, Protected])
    else if pathname == "/tickets-closed" then Route(TicketsClosed, [Protected, Protected])
    else if pathname == "/reports/print" then Route(PrintReport, [Protected, Protected])
    else if pathname == "/users" then Route(Users, [Protected, Protected])
    else if pathname == "/profile" then Route(MyProfile, [Protected, Protected])
    else Route(NotFound, [])
  }

  /** What the screen shows. */
  datatype Screen = Loading | Navigate(to: string, from: Option<string>) | Show(page: Page)

  function Decide(c: Ctx, loc: Location, g: Guard): Decision {
    if g == Protected then ProtectedRoute(c, loc) else PublicRoute(c, loc)
  }

  /** Runs the guards outermost first: the first that does not render its
      children decides, and the page is shown only when all of them do. */
  function RunGuards(c: Ctx, loc: Location, guards: seq<Guard>, page: Page): (s: Screen)
    ensures s.Show? <==> forall i :: 0 <= i < |guards| ==> Decide(c, loc, guards[i]).Children?
    ensures s.Show? ==> s.page == page
    ensures guards != [] && Decide(c, loc, guards[0]).Spinner? ==> s == Loading
    ensures guards != [] && Decide(c, loc, guards[0]).Redirect? ==>
      s == Navigate(Decide(c, loc, guards[0]).to, Decide(c, loc, guards[0]).from)
  {
    if guards == [] then Show(page)
    else
      match Decide(c, loc, guards[0])
      case Spinner => Loading
      case Redirect(to, from) => Navigate(to, from)
      case Children =>
        var rest := RunGuards(c, loc, guards[1..], page);
        assert forall i :: 1 <= i < |guards| ==> guards[i] == guards[1..][i - 1];
        rest
  }

  /** The screen for a location. */
  function Render(c: Ctx, loc: Location): Screen {
    var route := Resolve(loc.pathname);
    RunGuards(c, loc, route.guards, route.page)
  }

  /** Signed out, only the public pages are shown; every other page sends
      the visitor to "/login", remembering the pathname. */
  lemma SignedOutSeesOnlyPublicPages(c: Ctx, loc: Location)
    requires !c.isLoading && !IsAuthenticated(c)
    ensures Render(c, loc).Show? <==> IsPublicPage(Resolve(loc.pathname).page)
    ensures !IsPublicPage(Resolve(loc.pathname).page) ==> Render(c, loc) == Navigate("/login", Some(loc.pathname))
  {
  }

  /** Signed in, every dashboard page is shown and the sign-in and sign-up
      pages send the user on to the remembered page. */
  lemma SignedInSkipsPublicPages(c: Ctx, loc: Location)
    requires !c.isLoading && IsAuthenticated(c)
    ensures !IsPublicPage(Resolve(loc.pathname).page) ==> Render(c, loc) == Show(Resolve(loc.pathname).page)
    ensures loc.pathname == "/login" || loc.pathname == "/register" ==>
      Render(c, loc) == Navigate(RedirectTarget(loc.from), None)
  {
  }

  /** The catch-all page is shown whatever the session, even while it loads. */
  lemma NotFoundUnguarded(c: Ctx, loc: Location)
    requires Resolve(loc.pathname).page.NotFound?
    ensures Render(c, loc) == Show(NotFound)
  {
  }

  /** The round trip: a signed-out visit to a dashboard page lands on the
      sign-in page; once signed in there, the visitor is sent back to the
      page they asked for. */
  lemma SignInReturnsToRequestedPage(signedOut: Ctx, signedIn: Ctx, pathname: string)
    requires !signedOut.isLoading && !IsAuthenticated(signedOut)
    requires !signedIn.isLoading && IsAuthenticated(signedIn)
    requires !IsPublicPage(Resolve(pathname).page)
    ensures Render(signedOut, Location(pathname, None)) == Navigate("/login", Some(pathname))
    ensures Render(signedIn, Location("/login", Some(pathname))) == Navigate(pathname, None)
    ensures Render(signedIn, Location(pathname, None)) == Show(Resolve(pathname).page)
  {
    SignedOutSeesOnlyPublicPages(signedOut, Location(pathname, None));
    assert pathname != "";
  }
}
