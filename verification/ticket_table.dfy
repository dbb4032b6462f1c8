/** The BNI ticket table: one fetch of the customer's tickets, then a
    case-insensitive search over case number and subject, an exact status
    filter, and pages of 5. */
module TicketTable {
  import opened Wrappers
  import opened Json
  import opened Http
  import opened Text
  import opened Paging

  datatype Ticket = Ticket(id: string, caseNumber: string, subject: string, status: string, openedAt: string)

  /** The status filter value that disables status filtering. */
  const AllStatuses := "all"

  /** The options the status drop-down offers. */
  const StatusOptions: seq<string> :=
    [AllStatuses, "Opened", "In Progress", "Waiting For Reply", "Closed Confirmed", "Closed Unconfirmed"]

  predicate MatchesSearch(t: Ticket, search: string) {
    Contains(Lower(t.caseNumber), Lower(search)) || Contains(Lower(t.subject), Lower(search))
  }

  predicate MatchesStatus(t: Ticket, statusFilter: string) {
    statusFilter == AllStatuses || t.status == statusFilter
  }

  /** The predicate `filteredTickets` applies to each ticket. */
  predicate Matches(t: Ticket, search: string, statusFilter: string) {
    MatchesSearch(t, search) && MatchesStatus(t, statusFilter)
  }

  /** The table's state: the fetched tickets, the search box, the status
      drop-down and the current page. */
  datatype View = View(tickets: seq<Ticket>, search: string, statusFilter: string, page: int)

  function Initial(): (v: View)
    ensures v.page == 1 && v.search == "" && v.statusFilter == AllStatuses && v.tickets == []
  {
    View([], "", AllStatuses, 1)
  }

  function Filtered(v: View): (r: seq<Ticket>)
    ensures forall t :: t in r <==> t in v.tickets && Matches(t, v.search, v.statusFilter)
  {
    Filter(v.tickets, t => Matches(t, v.search, v.statusFilter))
  }

  /** The tickets shown: the current page of the filtered list. */
  function CurrentTickets(v: View): (r: seq<Ticket>)
    ensures v.page >= 1 ==> |r| <= PageSize
    ensures forall t :: t in r ==> t in Filtered(v)
  {
    Page(Filtered(v), v.page)
  }

  function PageCount(v: View): nat {
    TotalPages(|Filtered(v)|)
  }

  datatype Event = SearchChanged(text: string) | StatusChanged(status: string) | GoTo(target: int)

  /** The table's event handlers: editing the search box or the status
      drop-down returns to page 1; page buttons go through `goToPage`. */
  function Step(v: View, e: Event): (w: View)
    ensures w.tickets == v.tickets
    ensures e.SearchChanged? ==> w == v.(search := e.text, page := 1)
    ensures e.StatusChanged? ==> w == v.(statusFilter := e.status, page := 1)
    ensures e.GoTo? && 1 <= e.target <= PageCount(v) ==> w == v.(page := e.target)
    ensures e.GoTo? && !(1 <= e.target <= PageCount(v)) ==> w == v
  {
    match e
    case SearchChanged(text) => v.(search := text, page := 1)
    case StatusChanged(status) => v.(statusFilter := status, page := 1)
    case GoTo(target) => v.(page := GoToPage(v.page, target, PageCount(v)))
  }

  /** A ticket is listed iff the lowercased search occurs in its lowercased
      case number or subject, and the status filter is "all" or equals its
      status exactly. */
  lemma FilterCharacterisation(v: View, t: Ticket)
    requires t in v.tickets
    ensures t in Filtered(v) <==>
      (Contains(Lower(t.caseNumber), Lower(v.search)) || Contains(Lower(t.subject), Lower(v.search)))
      && (v.statusFilter == "all" || t.status == v.statusFilter)
  {
  }

  /** The filtered list is the fetched list with the non-matching tickets
      taken out, order kept. */
  lemma FilteredIsSubsequence(v: View)
    ensures var idx := KeptIndices(v.tickets, t => Matches(t, v.search, v.statusFilter));
      |Filtered(v)| == |idx| &&
      (forall k :: 0 <= k < |idx| ==> Filtered(v)[k] == v.tickets[idx[k]]) &&
      (forall k, l :: 0 <= k < l < |idx| ==> idx[k] < idx[l])
  {
    FilterIsKeptSubsequence(v.tickets, t => Matches(t, v.search, v.statusFilter));
  }

  /** An empty search with status "all" lists every ticket. */
  lemma EmptySearchKeepsAll(v: View)
    requires v.search == "" && v.statusFilter == AllStatuses
    ensures Filtered(v) == v.tickets
  {
    forall t | t in v.tickets
      ensures Matches(t, v.search, v.statusFilter)
    {
      ContainsEmpty(Lower(t.caseNumber));
    }
    FilterKeepsAll(v.tickets, t => Matches(t, v.search, v.statusFilter));
  }

  /** The search is not trimmed: a lone space is a real query, matched by
      exactly the tickets whose case number or subject holds a space. */
  lemma LoneSpaceSearch(t: Ticket, statusFilter: string)
    ensures Matches(t, " ", statusFilter) <==>
      (' ' in t.caseNumber || ' ' in t.subject) && MatchesStatus(t, statusFilter)
  {
    assert Lower(" ") == [' '];
    LowerKeepsSpace(t.caseNumber);
    LowerKeepsSpace(t.subject);
    ContainsChar(Lower(t.caseNumber), ' ');
    ContainsChar(Lower(t.subject), ' ');
  }

  lemma LowerKeepsSpace(s: string)
    ensures ' ' in Lower(s) <==> ' ' in s
  {
    if ' ' in s {
      var i :| 0 <= i < |s| && s[i] == ' ';
      assert Lower(s)[i] == ' ';
    }
    if ' ' in Lower(s) {
      var i :| 0 <= i < |Lower(s)| && Lower(s)[i] == ' ';
      assert s[i] == ' ';
    }
  }

  /** Pages 1..totalPages of the filtered list, laid end to end, are the
      filtered list; every page holds at most 5 tickets. */
  lemma PagesCoverFiltered(v: View)
    ensures Pages(Filtered(v), PageCount(v)) == Filtered(v)
    ensures forall p :: 1 <= p ==> |Page(Filtered(v), p)| <= PageSize
  {
    ConcatenatedPages(Filtered(v));
  }

  /** Starting from page 1, no sequence of events leaves the page outside
      `[1, totalPages]` (page 1 also when there are no pages). */
  lemma StepKeepsPageInRange(v: View, e: Event)
    requires PageInRange(v.page, PageCount(v))
    ensures PageInRange(Step(v, e).page, PageCount(Step(v, e)))
  {
  }

  /** With no matching ticket every page change is ignored. */
  lemma NoMatchesNoNavigation(v: View, target: int)
    requires Filtered(v) == []
    ensures Step(v, GoTo(target)) == v
  {
  }

  // ---------------------------------------------------------------------
  // fetch
  // ---------------------------------------------------------------------

  /** What one fetch does to the ticket list: store `data.data` (`None`
      standing for `undefined`), keep the list, or set an error. */
  datatype FetchResult = Store(data: Option<Json>) | Keep | Fail(error: Error)

  /** `fetchTickets`: the token check, the non-OK and non-JSON errors, and
      acceptance of a body only when its `success` is truthy. There is no
      login redirect here. */
  function FetchTickets(token: Option<string>, r: Response): (out: FetchResult)
    ensures !HasToken(token) ==> out == Fail(Message(NoTokenMessage))
    ensures HasToken(token) && !r.Ok() ==> out == Fail(ErrorBodyMessage(r, "Failed to fetch tickets"))
    ensures out.Store? <==>
      HasToken(token) && r.Ok() && r.IsJson() && r.parsed.Some? && !r.parsed.value.JNull?
      && TruthyMember(r.parsed.value, "success")
    ensures out.Keep? <==>
      HasToken(token) && r.Ok() && r.IsJson() && r.parsed.Some? && !r.parsed.value.JNull?
      && !TruthyMember(r.parsed.value, "success")
    ensures out.Store? ==> out.data == (match Member(r.parsed.value, "data") case Found(d) => Some(d) case _ => None)
    ensures HasToken(token) && r.Ok() && !r.IsJson() ==> out == Fail(NotJson(r))
    ensures HasToken(token) && r.Ok() && r.IsJson() && r.parsed.None? ==> out == Fail(SyntaxError)
    ensures HasToken(token) && r.Ok() && r.IsJson() && r.parsed == Some(JNull) ==> out == Fail(NullProperty("success"))
  {
    if !HasToken(token) then Fail(Message(NoTokenMessage))
    else if !r.Ok() then Fail(ErrorBodyMessage(r, "Failed to fetch tickets"))
    else if !r.IsJson() then Fail(NotJson(r))
    else
      match r.parsed
      case None => Fail(SyntaxError)
      case Some(data) =>
        if data.JNull? then Fail(NullProperty("success"))
        else if TruthyMember(data, "success") then
          Store(match Member(data, "data") case Found(d) => Some(d) case _ => None)
        else Keep
  }
}
