/** The ticket detail page: one fetch of `/ticket/<id>`, the accepted
    response shapes, the status badge colour and the summary's line breaks. */
module TicketDetail {
  import opened Wrappers
  import opened Json
  import opened Http
  import opened Text
  import TicketTable

  /** The badge colours `getStatusColor` chooses between. */
  datatype Color = Green | Yellow | Blue | Gray

  /** `getStatusColor`: the first of "closed", "progress", "open"/"waiting"
      that occurs in the lowercased status decides. */
  function StatusColor(status: string): (c: Color)
    ensures c == Green <==> Contains(Lower(status), "closed")
    ensures c == Yellow <==> !Contains(Lower(status), "closed") && Contains(Lower(status), "progress")
    ensures c == Blue <==> !Contains(Lower(status), "closed") && !Contains(Lower(status), "progress")
                           && (Contains(Lower(status), "open") || Contains(Lower(status), "waiting"))
    ensures c == Gray <==> !Contains(Lower(status), "closed") && !Contains(Lower(status), "progress")
                           && !Contains(Lower(status), "open") && !Contains(Lower(status), "waiting")
  {
    var s := Lower(status);
    if Contains(s, "closed") then Green
    else if Contains(s, "progress") then Yellow
    else if Contains(s, "open") || Contains(s, "waiting") then Blue
    else Gray
  }

  /** The colour ignores letter case. */
  lemma StatusColorIgnoresCase(status: string)
    ensures StatusColor(Lower(status)) == StatusColor(status)
  {
    LowerIdempotent(status);
  }

  lemma OccursAt(s: string, i: nat, sub: string)
    requires i <= |s| && IsPrefix(sub, s[i..])
    ensures Contains(s, sub)
  {
    ContainsIffOccurs(s, sub);
  }

  /** The table's statuses get their intended colours: closed ones green,
      "In Progress" yellow, open and waiting ones blue. */
  lemma TableStatusColors()
    ensures StatusColor(TicketTable.StatusOptions[1]) == Blue
    ensures StatusColor(TicketTable.StatusOptions[2]) == Yellow
    ensures StatusColor(TicketTable.StatusOptions[3]) == Blue
    ensures StatusColor(TicketTable.StatusOptions[4]) == Green
    ensures StatusColor(TicketTable.StatusOptions[5]) == Green
  {
    var options := TicketTable.StatusOptions;
    OpenedIsBlue(options[1]);
    InProgressIsYellow(options[2]);
    WaitingIsBlue(options[3]);
    ClosedStatuses(options[4]);
    ClosedIsGreen(options[4]);
    ClosedStatuses(options[5]);
    ClosedIsGreen(options[5]);
  }

  lemma OpenedIsBlue(status: string)
    requires status == "Opened"
    ensures StatusColor(status) == Blue
  {
    var s := Lower(status);
    assert s == "opened";
    assert IsPrefix("open", s);
    MissingChar(s, "closed", 'c');
    MissingChar(s, "progress", 'g');
  }

  lemma InProgressIsYellow(status: string)
    requires status == "In Progress"
    ensures StatusColor(status) == Yellow
  {
    var s := Lower(status);
    assert s == "in progress";
    OccursAt(s, 3, "progress");
    MissingChar(s, "closed", 'c');
  }

  lemma WaitingIsBlue(status: string)
    requires status == "Waiting For Reply"
    ensures StatusColor(status) == Blue
  {
    WaitingLower(status);
    WaitingWords(Lower(status));
  }

  lemma WaitingLower(status: string)
    requires status == "Waiting For Reply"
    ensures Lower(status) == "waiting for reply"
  {
  }

  lemma WaitingWords(s: string)
    requires s == "waiting for reply"
    ensures Contains(s, "waiting") && !Contains(s, "closed") && !Contains(s, "progress")
  {
    assert IsPrefix("waiting", s);
    MissingChar(s, "closed", 'c');
    MissingChar(s, "progress", 's');
  }

  lemma ClosedStatuses(status: string)
    requires status == "Closed Confirmed" || status == "Closed Unconfirmed"
    ensures |status| >= 6 && status[..6] == "Closed"
  {
  }

  /** Every status that starts with "Closed" is green. */
  lemma ClosedIsGreen(status: string)
    requires |status| >= 6 && status[..6] == "Closed"
    ensures StatusColor(status) == Green
  {
    var s := Lower(status);
    assert s[..6] == "closed";
  }

  // ---------------------------------------------------------------------
  // fetch
  // ---------------------------------------------------------------------

  /** `fetchTicket`: the token check, a non-OK error naming the status, and
      the two accepted shapes: an envelope whose `success` and `data` are
      truthy (the ticket is `data`), or a bare ticket with a truthy `id`.
      Anything else is rejected with its `message`, or "Invalid ticket data
      format". The body is parsed without a content-type check. */
  function FetchTicket(token: Option<string>, r: Response): (out: Result<Json, Error>)
    ensures !HasToken(token) ==> out == Err(Message(NoTokenMessage))
    ensures HasToken(token) && !r.Ok() ==>
      out == Err(Message("Failed to fetch ticket details: " + IntString(r.status) + " " + r.statusText))
    ensures HasToken(token) && r.Ok() && r.parsed.None? ==> out == Err(SyntaxError)
    ensures HasToken(token) && r.Ok() && r.parsed == Some(JNull) ==> out == Err(NullProperty("success"))
    ensures out.Ok? ==> HasToken(token) && r.Ok() && r.parsed.Some? && Truthy(out.value)
    ensures out.Ok? && TruthyMember(r.parsed.value, "success") && TruthyMember(r.parsed.value, "data") ==>
      out.value == Member(r.parsed.value, "data").value
    ensures HasToken(token) && r.Ok() && r.parsed.Some? && !r.parsed.value.JNull?
            && !(TruthyMember(r.parsed.value, "success") && TruthyMember(r.parsed.value, "data")) ==>
      out == (if TruthyMember(r.parsed.value, "id") then Ok(r.parsed.value)
              else Err(MessageOr(r.parsed.value, "Invalid ticket data format")))
  {
    if !HasToken(token) then Err(Message(NoTokenMessage))
    else if !r.Ok() then
      Err(Message("Failed to fetch ticket details: " + IntString(r.status) + " " + r.statusText))
    else
      match r.parsed
      case None => Err(SyntaxError)
      case Some(data) =>
        if data.JNull? then Err(NullProperty("success"))
        else if TruthyMember(data, "success") && TruthyMember(data, "data") then Ok(Member(data, "data").value)
        else if TruthyMember(data, "id") then Ok(data)
        else Err(MessageOr(data, "Invalid ticket data format"))
  }

  /** The envelope and the bare ticket are read as the same ticket. */
  lemma EnvelopeSameAsBare(token: Option<string>, ticket: Json, r: Response, e: Response)
    requires HasToken(token) && r.Ok() && e.Ok()
    requires ticket.JObj? && TruthyMember(ticket, "id") && !TruthyMember(ticket, "success")
    requires r.parsed == Some(ticket)
    requires e.parsed == Some(JObj([("success", JBool(true)), ("data", ticket)]))
    ensures FetchTicket(token, r) == FetchTicket(token, e) == Ok(ticket)
  {
    var env := [("success", JBool(true)), ("data", ticket)];
    assert env[1..][1..] == [] && "data"[0] != "success"[0];
    assert Lookup(env[1..], "success").None?;
    assert Lookup(env, "success") == Some(JBool(true));
    assert Lookup(env[1..], "data") == Some(ticket);
    assert Lookup(env, "data") == Some(ticket);
  }

  /** The page's state. */
  datatype State = State(ticket: Option<Json>, loading: bool, error: Option<Error>)

  const Initial := State(None, true, None)

  /** The page after its one effect: nothing is fetched without a route
      `id`; otherwise the outcome of the fetch, with `loading` cleared. */
  function Load(id: Option<string>, token: Option<string>, r: Response): (s: State)
    ensures id.None? || id == Some("") ==> s == Initial
    ensures id.Some? && id.value != "" ==> !s.loading && (s.ticket.Some? <==> s.error.None?)
    ensures s.ticket.Some? ==> FetchTicket(token, r) == Ok(s.ticket.value)
    ensures s.error.Some? ==> FetchTicket(token, r) == Err(s.error.value)
  {
    if id.None? || id.value == "" then Initial
    else
      match FetchTicket(token, r)
      case Ok(t) => State(Some(t), false, None)
      case Err(e) => State(None, false, Some(e))
  }

  /** What the page shows: the error, "Ticket not found" while there is no
      ticket (including while loading), or the ticket. The page keeps only
      the error's text, so an error with empty text is falsy and not shown. */
  datatype View = ErrorView(error: Error) | NotFound | Detail(ticket: Json, loading: bool)

  function Render(s: State): (v: View)
    ensures ShownError(s) ==> v == ErrorView(s.error.value)
    ensures v.Detail? <==> !ShownError(s) && s.ticket.Some?
    ensures v.NotFound? <==> !ShownError(s) && s.ticket.None?
  {
    if ShownError(s) then ErrorView(s.error.value)
    else if s.ticket.None? then NotFound
    else Detail(s.ticket.value, s.loading)
  }

  /** `if (error)`: an error whose text is non-empty. */
  predicate ShownError(s: State) {
    s.error.Some? && s.error.value != Message("")
  }

  /** A rejected body whose `message` is an empty array throws an error
      with empty text, so the page says "Ticket not found" instead. */
  lemma EmptyMessageShowsNotFound(id: string, token: Option<string>, r: Response)
    requires id != "" && HasToken(token) && r.Ok()
    requires r.parsed == Some(JObj([("message", JArr([]))]))
    ensures FetchTicket(token, r) == Err(Message(""))
    ensures Render(Load(Some(id), token, r)) == NotFound
  {
    var fs := [("message", JArr([]))];
    assert Lookup(fs, "message") == Some(JArr([]));
    assert Lookup(fs, "success").None? && Lookup(fs, "id").None?;
  }

  /** Before the fetch completes, and forever when the route has no `id`,
      the page says "Ticket not found". */
  lemma NotFoundWhileLoading(token: Option<string>, r: Response)
    ensures Render(Initial) == NotFound
    ensures Render(Load(None, token, r)) == NotFound
  {
  }

  /** A loaded ticket is shown with its loading flag already cleared. */
  lemma LoadedTicketShown(id: string, token: Option<string>, r: Response)
    requires id != "" && FetchTicket(token, r).Ok?
    ensures Render(Load(Some(id), token, r)) == Detail(FetchTicket(token, r).value, false)
  {
  }

  /** The summary as HTML: each newline becomes `<br>`. */
  function SummaryHtml(summary: string): (h: string)
    ensures '\n' !in h
    ensures '\n' !in summary ==> h == summary
  {
    if '\n' !in summary then ReplaceNewlinesIdentity(summary); ReplaceNewlines(summary)
    else ReplaceNewlines(summary)
  }

  /** `formatDate` of the detail page: a missing date shows "N/A"; a present
      one is rendered by the locale formatter `render`. */
  function FormatDate(date: Option<string>, render: string -> string): (r: string)
    ensures date.None? || date == Some("") ==> r == "N/A"
    ensures date.Some? && date.value != "" ==> r == render(date.value)
  {
    if date.None? || date.value == "" then "N/A" else render(date.value)
  }
}
