/** The sidebar: which menu entries are highlighted for the current URL,
    and which submenu is open. */
module Sidebar {
  import opened Wrappers
  import opened Text

  datatype SubItem = SubItem(name: string, path: string)

  /** A menu entry: a link (`path`) or a group of links (`subItems`). */
  datatype NavItem = NavItem(name: string, path: Option<string>, subItems: Option<seq<SubItem>>)

  const NavItems: seq<NavItem> := [
    NavItem("Dashboard", Some("/home"), None),
    NavItem("Ticket", None, Some([
      SubItem("All Ticket", "/tickets"),
      SubItem("Open Ticket", "/tickets-open"),
      SubItem("Closed Ticket", "/tickets-closed")])),
    NavItem("Report", Some("/reports/print"), None)
  ]

  /** The router location: `pathname`, and `search`, which is empty or
      starts with "?". */
  datatype Location = Location(pathname: string, search: string)

  predicate WellFormedSearch(search: string) {
    search == [] || search[0] == '?'
  }

  /** `path.split("?")[0]`. */
  function PathPart(path: string): (p: string)
    ensures '?' !in path ==> p == path
  {
    if '?' !in path then SplitHeadNoSep(path, '?'); Split(path, '?')[0]
    else Split(path, '?')[0]
  }

  /** `path.split("?")[1]`, for a path containing "?". */
  function QueryPart(path: string): (q: string)
    requires '?' in path
    ensures '?' !in q
  {
    SplitCount(path, '?');
    Split(path, '?')[1]
  }

  /** `isActive` as written: the "/tickets" entry is active on "/tickets"
      and below it; any other entry needs the exact pathname and, for a
      path with a query, `location.search` equal to the text after "?". */
  predicate IsActiveAsWritten(loc: Location, path: string) {
    if path == "/tickets" then loc.pathname == "/tickets" || IsPrefix("/tickets/", loc.pathname)
    else loc.pathname == PathPart(path) && ('?' in path ==> loc.search == QueryPart(path))
  }

  /** `isActive` with the query compared as the router reports it, with its
      leading "?". */
  predicate IsActive(loc: Location, path: string) {
    if path == "/tickets" then loc.pathname == "/tickets" || IsPrefix("/tickets/", loc.pathname)
    else loc.pathname == PathPart(path) && ('?' in path ==> loc.search == "?" + QueryPart(path))
  }

  /** As written, a path with a non-empty query is never active, because
      `location.search` starts with "?" and the text after "?" in the path
      cannot. */
  lemma AsWrittenQueryNeverActive(loc: Location, path: string)
    requires WellFormedSearch(loc.search)
    requires '?' in path && QueryPart(path) != ""
    ensures !IsActiveAsWritten(loc, path)
  {
    if loc.search != [] {
      assert loc.search[0] in loc.search;
    }
  }

  /** So a menu path such as "/users?tab=admins" would not be highlighted
      on its own URL, while the corrected rule highlights it. */
  lemma AsWrittenMissesItsOwnUrl(pathname: string, query: string)
    requires '?' !in pathname && '?' !in query && query != ""
    ensures !IsActiveAsWritten(Location(pathname, "?" + query), pathname + "?" + query)
    ensures IsActive(Location(pathname, "?" + query), pathname + "?" + query)
  {
    QueryPathActiveOnItsUrl(pathname, query, Location(pathname, "?" + query));
    SplitAtFirst(pathname, query, '?');
    SplitHeadNoSep(query, '?');
    AsWrittenQueryNeverActive(Location(pathname, "?" + query), pathname + "?" + query);
  }

  /** The corrected rule: a path with a query is active exactly on its own
      URL. */
  lemma QueryPathActiveOnItsUrl(pathname: string, query: string, loc: Location)
    requires '?' !in pathname && '?' !in query
    ensures IsActive(loc, pathname + "?" + query) <==> loc == Location(pathname, "?" + query)
  {
    SplitAtFirst(pathname, query, '?');
    SplitHeadNoSep(query, '?');
    var path := pathname + "?" + query;
    assert path[|pathname|] == '?';
    assert path != "/tickets" by {
      if |pathname| <= |path| - 1 {
        assert path[|pathname|] == '?';
      }
    }
  }

  /** For a path without "?", the two rules agree: "/tickets" is active on
      "/tickets" and below it, and any other path exactly on itself. This
      covers every path of the menu, so the correction changes nothing the
      menu shows. */
  lemma RulesAgreeWithoutQuery(loc: Location, path: string)
    requires '?' !in path
    ensures IsActive(loc, path) == IsActiveAsWritten(loc, path)
    ensures path != "/tickets" ==> (IsActive(loc, path) <==> loc.pathname == path)
  {
  }

  /** "/tickets" is active on a ticket's detail page but not on the
      open-ticket or closed-ticket lists. */
  lemma TicketsActivePaths(id: string, search: string)
    ensures IsActive(Location("/tickets/" + id, search), "/tickets")
    ensures !IsActive(Location("/tickets-open", search), "/tickets")
    ensures !IsActive(Location("/tickets-closed", search), "/tickets")
  {
    assert ("/tickets/" + id)[..|"/tickets/"|] == "/tickets/";
    assert "/tickets-open"[8] == '-';
    assert "/tickets-closed"[8] == '-';
  }

  // ---------------------------------------------------------------------
  // submenus
  // ---------------------------------------------------------------------

  /** `toggleSubmenu(i)`: closing the open submenu, or opening `i`. */
  function ToggleSubmenu(open: Option<nat>, i: nat): (r: Option<nat>)
    ensures open == Some(i) ==> r.None?
    ensures open != Some(i) ==> r == Some(i)
  {
    if open == Some(i) then None else Some(i)
  }

  /** Toggling the same entry twice reopens it if it was open, and
      otherwise leaves every submenu closed. */
  lemma ToggleTwice(open: Option<nat>, i: nat)
    ensures ToggleSubmenu(ToggleSubmenu(open, i), i) == (if open == Some(i) then open else None)
  {
  }

  /** An entry with a sub-item active at `loc`, by the rule as written
      (the effect calls the page's own `isActive`). */
  predicate HasActiveSub(loc: Location, nav: NavItem) {
    nav.subItems.Some? && exists k :: 0 <= k < |nav.subItems.value| && IsActiveAsWritten(loc, nav.subItems.value[k].path)
  }

  /** The auto-expand effect as written: walk the entries in order, opening
      each one that has an active sub-item. */
  function ExpandFrom(loc: Location, items: seq<NavItem>, i: nat, open: Option<nat>): (r: Option<nat>)
    requires i <= |items|
    decreases |items| - i
  {
    if i == |items| then open
    else ExpandFrom(loc, items, i + 1, if HasActiveSub(loc, items[i]) then Some(i) else open)
  }

  function AutoExpand(loc: Location, items: seq<NavItem>): Option<nat> {
    ExpandFrom(loc, items, 0, None)
  }

  /** The last entry with an active sub-item is open; none is when no
      sub-item is active. */
  lemma {:induction false} ExpandFromSpec(loc: Location, items: seq<NavItem>, i: nat, open: Option<nat>)
    requires i <= |items|
    requires open.Some? ==> open.value < i && HasActiveSub(loc, items[open.value])
    requires open.Some? ==> forall j :: open.value < j < i ==> !HasActiveSub(loc, items[j])
    requires open.None? ==> forall j :: 0 <= j < i ==> !HasActiveSub(loc, items[j])
    ensures var r := ExpandFrom(loc, items, i, open);
      (r.None? <==> forall j :: 0 <= j < |items| ==> !HasActiveSub(loc, items[j]))
      && (r.Some? ==> r.value < |items| && HasActiveSub(loc, items[r.value])
                      && forall j :: r.value < j < |items| ==> !HasActiveSub(loc, items[j]))
    decreases |items| - i
  {
    if i < |items| {
      ExpandFromSpec(loc, items, i + 1, if HasActiveSub(loc, items[i]) then Some(i) else open);
    }
  }

  lemma AutoExpandSpec(loc: Location, items: seq<NavItem>)
    ensures var r := AutoExpand(loc, items);
      (r.None? <==> forall j :: 0 <= j < |items| ==> !HasActiveSub(loc, items[j]))
      && (r.Some? ==> r.value < |items| && HasActiveSub(loc, items[r.value])
                      && forall j :: r.value < j < |items| ==> !HasActiveSub(loc, items[j]))
  {
    ExpandFromSpec(loc, items, 0, None);
  }

  /** On a ticket's detail page the Ticket submenu (entry 1) opens. */
  lemma TicketDetailOpensTicketMenu(id: string, search: string)
    ensures AutoExpand(Location("/tickets/" + id, search), NavItems) == Some(1)
  {
    var loc := Location("/tickets/" + id, search);
    TicketsActivePaths(id, search);
    RulesAgreeWithoutQuery(loc, "/tickets");
    assert HasActiveSub(loc, NavItems[1]) by {
      assert NavItems[1].subItems.value[0].path == "/tickets";
    }
    AutoExpandSpec(loc, NavItems);
  }

  /** Away from the ticket pages every submenu closes. */
  lemma AwayFromTicketsClosesSubmenus(loc: Location)
    requires loc.pathname != "/tickets" && !IsPrefix("/tickets/", loc.pathname)
    requires loc.pathname != "/tickets-open" && loc.pathname != "/tickets-closed"
    ensures AutoExpand(loc, NavItems).None?
  {
    var subs := NavItems[1].subItems.value;
    forall k | 0 <= k < |subs|
      ensures !IsActiveAsWritten(loc, subs[k].path)
    {
      RulesAgreeWithoutQuery(loc, subs[k].path);
    }
    AutoExpandSpec(loc, NavItems);
  }
}
