# Ticketing dashboard — a Dafny model of its client-side rules

The dashboard is a React single-page application. Support staff use it to
browse tickets and customers, print per-customer ticket reports, manage
users and edit their own profile. Most of it is rendering and `fetch`
plumbing. Inside the components sit small, sequential decision rules.
This project pulls those rules out and writes each one as a pure Dafny
function with a contract, then proves the properties the components rely
on.

Modules follow the source files:

- `TicketTable` (`TableTicketAllBNI.tsx`), `CustomerTable` (`TableCustomer.tsx`) and the shared `Paging`:
  - search and status filters;
  - the five-per-page window, `Math.ceil` page count and guarded `goToPage`;
  - the reset to page 1 on every filter edit.
- `Users` (`Users.tsx`): fetching and normalising the user list, the add, edit and delete handlers, and their form state.
- `PrintReport` (`PrintReport.tsx`):
  - the month-option and date-range state machine;
  - the refetch trigger;
  - response acceptance and the back button;
  - date arithmetic in the style of date-fns `subMonths`, and `yyyy-MM-dd` formatting.
- `TicketDetail` (`TicketDetail.tsx`): status colours, response-shape selection, the fetch guard, and summary newlines.
- `Sidebar` (`AppSidebar.tsx`): active-path matching, submenu toggle, and auto-expand.
- `AuthService` (`authService.ts`), `AuthContext` (`AuthContext.tsx`), `MyProfile` (`MyProfile.tsx`), `SignIn` (`SignInForm.tsx`) and `Routes` (`App.tsx`):
  - `localStorage` as a `map<string, string>`;
  - login, logout, hydration and the profile and password updates;
  - the form validators;
  - the two route guards and the route table.
- Shared helpers:
  - `Text`: ASCII lower-casing, whitespace trimming, substring search, split and join, digits;
  - `Json`: a JSON value, JavaScript truthiness, property reads including reads of `null`, object spread;
  - `JsonText`: `JSON.stringify` and `JSON.parse` of the compact form, with the round-trip theorem;
  - `Http`: a response datatype and the shared error-body rule.

HTTP responses are inputs: a `Response` holds the status, status text,
content type, raw text and parsed body. `parsed` is `None` when
`response.json()` would throw. The engine's own exceptions are symbolic
`Error` values:

- `SyntaxError` from `JSON.parse`;
- `NullProperty(k)` for reading `k` of `null`;
- `InOnPrimitive(k)` for `'k' in` a primitive.

The current date, the browser's `window`, and the user's confirmation in
`window.confirm` are parameters.

Where the code and the documented behaviour of the dashboard disagree, the
model follows the code:

- A custom date range is refetched on every picker edit, because the picker
  replaces `selectedRange` directly. "Apply" only hides the picker
  (`PrintReport.tsx:126-133`). `PrintReport.CustomRangeFetchesOnEdit` states this.
- Reading a ticket list in `TableTicketAllBNI.tsx` has no 401/403 redirect,
  unlike `Users.tsx` and `PrintReport.tsx`.
- The report page's `formatDate` prints "-" for a missing date, and the
  ticket detail page's prints "N/A".
- The context's `updateProfile` (`AuthContext.tsx:67-84`) only changes the
  in-memory user. It never calls the service's `updateProfile`, so the
  profile page sends no profile request.

## Model

| member | source | states |
|---|---|---|
| Paging.FilterIsKeptSubsequence | src/components/ticket/TableTicketAllBNI.tsx:77-86 | `filter` keeps exactly the matching items, in their original order: the result is the list indexed by a strictly increasing sequence covering every matching position |
| Paging.FilterConcat | src/components/ticket/TableTicketAllBNI.tsx:77-86 | filtering distributes over concatenation |
| Paging.FilterKeepsAll | src/components/ticket/TableTicketAllBNI.tsx:77-86 | a filter every item passes returns the list unchanged |
| Paging.Page | src/components/ticket/TableTicketAllBNI.tsx:89-94 | page `p` is the window `[(p-1)*5, p*5)` clipped to the list, so it has at most 5 items |
| Paging.TotalPages | src/components/ticket/TableTicketAllBNI.tsx:95 | the page count is the ceiling of `n/5`: enough pages for `n` items, no empty last page, and zero exactly for an empty list |
| Paging.PageBeyondLast | src/components/ticket/TableTicketAllBNI.tsx:89-95 | every page past the last one is empty |
| Paging.GoToPage | src/components/ticket/TableTicketAllBNI.tsx:97-99 | the page changes to the target exactly when the target lies in `[1, totalPages]`; otherwise it stays |
| Paging.GoToPageEmpty | src/components/ticket/TableTicketAllBNI.tsx:97-99 | with nothing to show, every `goToPage` is a no-op |
| Paging.GoToPageKeepsRange | src/components/ticket/TableTicketAllBNI.tsx:97-99 | navigation keeps the page within range |
| Paging.PagesArePrefix | src/components/ticket/TableTicketAllBNI.tsx:89-95 | the first `k` pages, concatenated, are the first `min(5k, n)` items |
| Paging.ConcatenatedPages | src/components/ticket/TableTicketAllBNI.tsx:89-95 | pages `1..totalPages`, concatenated, give back the whole list with no gap and no duplicate |
| Paging.PageOfItem | src/components/ticket/TableTicketAllBNI.tsx:89-95 | item `i` appears on page `i/5 + 1`, at position `i % 5`, and that page exists |
| TicketTable.Initial | src/components/ticket/TableTicketAllBNI.tsx:14-24 | the table starts on page 1 with an empty search, status "all" and no tickets |
| TicketTable.Filtered | src/components/ticket/TableTicketAllBNI.tsx:77-86 | a ticket is listed iff it was fetched and matches the search and status filter |
| TicketTable.FilterCharacterisation | src/components/ticket/TableTicketAllBNI.tsx:77-86 | a fetched ticket is listed iff its lower-cased case number or subject contains the lower-cased search, and the filter is "all" or equals its status exactly |
| TicketTable.FilteredIsSubsequence | src/components/ticket/TableTicketAllBNI.tsx:77 | the listed tickets are an order-preserving subsequence of the fetched ones |
| TicketTable.EmptySearchKeepsAll | src/components/ticket/TableTicketAllBNI.tsx:78-83 | an empty search with status "all" lists every fetched ticket |
| TicketTable.LoneSpaceSearch | src/components/ticket/TableTicketAllBNI.tsx:78-83 | the search is not trimmed: a lone space matches exactly the tickets whose case number or subject holds a space, whatever the status filter otherwise decides |
| TicketTable.CurrentTickets | src/components/ticket/TableTicketAllBNI.tsx:89-94 | the shown page has at most 5 tickets, all of them listed |
| TicketTable.PagesCoverFiltered | src/components/ticket/TableTicketAllBNI.tsx:89-95 | the pages together are exactly the filtered list, with at most 5 tickets each |
| TicketTable.Step | src/components/ticket/TableTicketAllBNI.tsx:97-135 | editing the search or the status filter sets it and returns to page 1; `goToPage` moves only within range; the fetched tickets never change |
| TicketTable.StepKeepsPageInRange | src/components/ticket/TableTicketAllBNI.tsx:97-135 | every event keeps the current page within `[1, totalPages]` |
| TicketTable.NoMatchesNoNavigation | src/components/ticket/TableTicketAllBNI.tsx:97-99 | with zero matches, `goToPage` changes nothing |
| TicketTable.FetchTickets | src/components/ticket/TableTicketAllBNI.tsx:28-74 | no token gives "No authentication token found"; a non-OK status gives the shared error-body message; a JSON body is stored, as its `data`, iff `success` is truthy, and otherwise the list is kept; an OK body that is not JSON fails with the not-JSON message, an unparsable one with a syntax error, and a `null` body throws on reading `success` |
| CustomerTable.MatchesIffInHaystack | src/components/customer/TableCustomer.tsx:48-72 | since the status filter is the constant "all", a customer matches iff the trimmed, lower-cased query is empty or occurs in the space-joined haystack |
| CustomerTable.FieldHitMatches | src/components/customer/TableCustomer.tsx:52-63 | a query found in any one of the five searched fields, with null read as "", matches the customer |
| CustomerTable.OtherFieldsIrrelevant | src/components/customer/TableCustomer.tsx:55-61 | two customers that agree on the five searched fields match the same queries, whatever their other fields |
| CustomerTable.BlankQueryMatchesAll | src/components/customer/TableCustomer.tsx:49-50 | a query of only whitespace matches every customer |
| CustomerTable.SurroundingSpaceIgnored | src/components/customer/TableCustomer.tsx:49 | surrounding the query with spaces does not change which customers match |
| CustomerTable.Filtered | src/components/customer/TableCustomer.tsx:48-72 | a customer is listed iff it was fetched and matches the query |
| CustomerTable.CurrentCustomers | src/components/customer/TableCustomer.tsx:75-80 | the shown page has at most 5 customers, all of them listed |
| CustomerTable.PagesCoverFiltered | src/components/customer/TableCustomer.tsx:75-81 | the pages together are exactly the filtered list |
| CustomerTable.Step | src/components/customer/TableCustomer.tsx:83-154 | editing the search sets it and returns to page 1; `goToPage` moves only within range; the customer list never changes |
| CustomerTable.StepKeepsPageInRange | src/components/customer/TableCustomer.tsx:83-154 | every event keeps the current page within range |
| CustomerTable.BlankSearchKeepsAll | src/components/customer/TableCustomer.tsx:49-50 | a blank search lists every customer |
| Http.MessageOr | src/services/authService.ts:39-42 | `data.message \|\| fallback` on a non-null body: the message's string form when it is truthy, else the fallback |
| Http.DataMessageOr | src/components/UserProfile/Users.tsx:143-145 | `(data && data.message) \|\| fallback`, which never throws, even for a null body |
| Http.ErrorBodyMessage | src/components/UserProfile/Users.tsx:56-58 | a text error body, and a JSON body that parses to a string, give their first 200 characters; an unparsable JSON body gives the fallback; a JSON `null` throws on reading `message`; any other parsed body gives its truthy `message` or the fallback |
| Http.ErrorBodyPrefersMessage | src/components/UserProfile/Users.tsx:56-58 | a JSON body with a truthy `message` gives that message whatever the fallback, so the pages sharing the rule report the same text for the same body |
| Http.NotJson | src/components/UserProfile/Users.tsx:61-64 | "Unexpected response (not JSON): " followed by exactly the first 200 characters of the body (all of it when shorter) |
| Users.Initial | src/components/UserProfile/Users.tsx:18-30 | the page starts loading, with no error, no modal open and the empty form with role "user" |
| Users.NormalizeUsers | src/components/UserProfile/Users.tsx:68-72 | a JSON array is used as-is; a null body throws on the property read; otherwise a truthy array `data` gives its items, a truthy non-array `data` is rejected with "Invalid users data format", and a falsy `data` gives an empty list |
| Users.EnvelopeSameAsArray | src/components/UserProfile/Users.tsx:68 | a `{data: [...]}` envelope and the bare array give the same users |
| Users.FetchUsers | src/components/UserProfile/Users.tsx:34-80 | no token gives "No authentication token found"; a 401 or 403 leads to the login page; other non-OK statuses give the error-body message with fallback "Failed to fetch users: " + status text; users load iff the JSON body normalises; an OK body that is not JSON fails with the not-JSON message, an unparsable JSON body with a syntax error, and a body that does not normalise with the normaliser's error |
| Users.StartFetch | src/components/UserProfile/Users.tsx:36-37 | starting a fetch sets `loading` and clears the error, and changes nothing else |
| Users.FetchUsersLoadsEitherShape | src/components/UserProfile/Users.tsx:66-74 | the bare array and the `{data: [...]}` envelope both load exactly their array |
| Users.ApplyFetch | src/components/UserProfile/Users.tsx:34-80 | loading ends; loaded users replace the list and clear the error; a failure keeps the list and sets the error; a 401/403 keeps the list, clears the error and navigates |
| Users.InputChange | src/components/UserProfile/Users.tsx:87-93 | an input change sets exactly the named field |
| Users.EditClick | src/components/UserProfile/Users.tsx:267-277 | opening the editor copies the user's username, name and role into the form, with empty passwords |
| Users.CloseModal | src/components/UserProfile/Users.tsx:284-289 | closing hides both modals, empties the form and clears the error |
| Users.OpenAddModal | src/components/UserProfile/Users.tsx:303-307 | "Add New User" empties the form and opens the add modal, changing nothing else |
| Users.CancelModal | src/components/UserProfile/Users.tsx:439-503 | a modal's Cancel hides that modal only and keeps the form, the error and the other modal |
| Users.CancelKeepsFormAddEmptiesIt | src/components/UserProfile/Users.tsx:284-307 | Cancel keeps what was typed, closing empties it, and the next "Add New User" starts from the empty form |
| Users.EditThenCloseForgetsForm | src/components/UserProfile/Users.tsx:267-289 | opening and then closing the editor leaves the empty form and the same user list |
| Users.ValidateNewUser | src/components/UserProfile/Users.tsx:100-108 | a new user passes iff the username is non-empty and the password has at least 6 characters; the missing-field message is checked first |
| Users.RegisterBody | src/components/UserProfile/Users.tsx:123-128 | the add-user body holds exactly the keys username, password, name and role, the role lower-cased |
| Users.Credentials | src/components/UserProfile/Users.tsx:123-125 | the registration starts from exactly the username and password |
| Users.RegisterBodyTransmitted | src/components/UserProfile/Users.tsx:123-128 | the serialised body parses back to the same object |
| Users.MutationError | src/components/UserProfile/Users.tsx:131-145 | there is an error iff the status is not OK: the not-JSON message for a text body, and otherwise the body's message or the fallback |
| Users.AddUser | src/components/UserProfile/Users.tsx:96-164 | an invalid form sets the validation error and sends nothing; a valid form sends the register body, and success closes the modal, empties the form and refetches, while failure keeps the form and sets the error |
| Users.AddSuccessIsClose | src/components/UserProfile/Users.tsx:157-160 | after a successful add, the page is exactly as if the modal had been closed |
| Users.AddFailureKeepsForm | src/components/UserProfile/Users.tsx:96-164 | any failed add keeps the form, shows an error and does not refetch |
| Users.NameAndRole | src/components/UserProfile/Users.tsx:181-184 | the update body starts with exactly `name` and the lower-cased `role` |
| Users.UpdateBody | src/components/UserProfile/Users.tsx:181-190 | the update body always has `name` and the lower-cased `role`, never `username`, and has `currentPassword` and `newPassword` exactly when a new password was typed |
| Users.WithPasswords | src/components/UserProfile/Users.tsx:187-190 | adding the password fields sets both and leaves every other field alone |
| Users.EditUser | src/components/UserProfile/Users.tsx:167-237 | with no user being edited nothing happens; no token, or a new password without the current one, gives its error and sends nothing; otherwise the update is sent for the edited user's id, and success closes the editor and refetches |
| Users.EditNeverSendsBarePassword | src/components/UserProfile/Users.tsx:176-190 | a sent update never carries a new password together with an empty current password, and carries neither when no new password was typed |
| Users.EditSuccessRefetchClearsError | src/components/UserProfile/Users.tsx:229-231 | a successful edit refetches; the handler leaves an earlier error alone, and the refetch clears it at once; a refetch that loads shows the new list with the editor closed, the form empty and no error |
| Users.DeleteUser | src/components/UserProfile/Users.tsx:240-264 | an unconfirmed delete does nothing; a confirmed one sends the delete and refetches on success, or sets the error-body message |
| Users.DeleteAndListingShareMessage | src/components/UserProfile/Users.tsx:253-257 | a rejected delete and a rejected listing whose JSON body has a truthy `message` report that same message |
| Users.DeleteSuccessRefetches | src/components/UserProfile/Users.tsx:253-260 | a successful delete changes nothing itself and refetches, and the refetch clears any error and keeps the list until it loads |
| PrintReport.SubMonths | src/components/ticket/PrintReport.tsx:112-120 | subtracting `m` months moves back exactly `m` calendar months and clamps the day to the month's length, giving a valid date |
| PrintReport.SubMonthsEarlier | src/components/ticket/PrintReport.tsx:112-120 | a longer preset reaches further back, and every preset starts before today |
| PrintReport.SubZeroMonths | src/components/ticket/PrintReport.tsx:112-120 | subtracting zero months changes nothing |
| PrintReport.SubMonthsKeepsDay | src/components/ticket/PrintReport.tsx:112-120 | a day of the month up to 28 is kept |
| PrintReport.PadValue | src/components/ticket/PrintReport.tsx:60-63 | zero-padding a number keeps its value |
| PrintReport.IsoDate | src/components/ticket/PrintReport.tsx:60-63 | a date in years 1 to 9999 formats as ten characters with dashes at positions 4 and 7 |
| PrintReport.IsoDateRoundTrip | src/components/ticket/PrintReport.tsx:60-63 | the `yyyy-MM-dd` text of a valid date parses back to the same date |
| PrintReport.Initial | src/components/ticket/PrintReport.tsx:39-49 | no customer, month option 1, picker hidden, and the range one month back from now to now |
| PrintReport.Step | src/components/ticket/PrintReport.tsx:112-199 | a preset sets the option, sets the range to `now` minus `m` months up to `now`, and hides the picker; Custom shows the picker and keeps the range; a picker edit replaces the range; Apply and Cancel only hide the picker; Back clears a chosen customer, or else navigates back |
| PrintReport.CustomRangeFetchesOnEdit | src/components/ticket/PrintReport.tsx:106-133 | with a customer chosen, every picker edit refetches and Apply does not |
| PrintReport.CancelIsApply | src/components/ticket/PrintReport.tsx:130-133 | Cancel does exactly what Apply does |
| PrintReport.PresetAlwaysRefetches | src/components/ticket/PrintReport.tsx:106-120 | re-choosing the current preset refetches, although the range is equal, because the effect compares the range by identity |
| PrintReport.FetchNeedsCustomer | src/components/ticket/PrintReport.tsx:106-110 | choosing a customer triggers a fetch, and no fetch happens without one |
| PrintReport.CustomerIsACard | src/components/ticket/PrintReport.tsx:23-27 | a chosen customer is always one of the three cards |
| PrintReport.ExportPath | src/components/ticket/PrintReport.tsx:60-66 | the request goes to `/tickets/export/<customer>?startDate=…` |
| PrintReport.ExportPathCarriesDates | src/components/ticket/PrintReport.tsx:60-66 | for four-digit years, the ten characters after `startDate=` read back as the chosen start date, `&endDate=` follows, and the rest reads back as the chosen end date |
| PrintReport.FetchReport | src/components/ticket/PrintReport.tsx:53-103 | no token and non-OK statuses fail as in the other pages, and 401/403 goes to login; tickets load iff `success` is truthy and `data` is an array; any other parsed body fails with its `message` when truthy, else "Invalid response format"; an OK body that is not JSON fails with the not-JSON message and an unparsable one with a syntax error |
| PrintReport.ReportLoadsEnvelopeArray | src/components/ticket/PrintReport.tsx:91-93 | an envelope `{success: true, data: [...]}` loads exactly its array, and the ticket table stores the same array from it |
| PrintReport.ReportAndTableShareErrors | src/components/ticket/PrintReport.tsx:76-84 | the report page and the ticket table fail with the same error on a non-OK status, except 401 and 403, where only the report page goes to login |
| PrintReport.ApplyFetch | src/components/ticket/PrintReport.tsx:53-103 | loading ends; loaded tickets replace the list; a failure keeps it and sets the error; the customer and the range are untouched |
| PrintReport.FormatDate | src/components/ticket/PrintReport.tsx:135-145 | a missing or empty date prints "-", and any other date is rendered |
| TicketDetail.StatusColor | src/pages/Dashboard/TicketDetail.tsx:82-91 | green iff the lower-cased status contains "closed"; otherwise yellow iff it contains "progress"; blue iff it contains neither of those but "open" or "waiting"; gray iff it contains none of the four |
| TicketDetail.StatusColorIgnoresCase | src/pages/Dashboard/TicketDetail.tsx:83 | the colour does not depend on letter case |
| TicketDetail.TableStatusColors | src/pages/Dashboard/TicketDetail.tsx:82-91 | the ticket table's statuses are coloured: Opened blue, In Progress yellow, Waiting For Reply blue, both Closed statuses green |
| TicketDetail.ClosedIsGreen | src/pages/Dashboard/TicketDetail.tsx:82-91 | any status whose first six characters are "Closed" is green |
| TicketDetail.FetchTicket | src/pages/Dashboard/TicketDetail.tsx:37-76 | no token, a non-OK status (whose message includes the numeric status and status text), an unparsable or null body each give their error; `success` with truthy `data` selects `data`; otherwise a body with a truthy `id` is the ticket, and any other body is rejected with its `message` or "Invalid ticket data format"; a ticket is always truthy |
| TicketDetail.EnvelopeSameAsBare | src/pages/Dashboard/TicketDetail.tsx:62-68 | a ticket wrapped as `{success: true, data: ticket}` and the bare ticket with a truthy `id` give the same ticket |
| TicketDetail.Load | src/pages/Dashboard/TicketDetail.tsx:37-80 | without a route id nothing is fetched and the page stays loading; with one, loading ends with either the fetched ticket or exactly the fetch's error |
| TicketDetail.Render | src/pages/Dashboard/TicketDetail.tsx:93-118 | an error with non-empty text is shown first; otherwise the detail is shown iff a ticket is loaded, and "Ticket not found" iff none is (an empty-text error falls through) |
| TicketDetail.EmptyMessageShowsNotFound | src/pages/Dashboard/TicketDetail.tsx:62-110 | an OK body whose `message` is an empty array throws an error with empty text, and the page then shows "Ticket not found" |
| TicketDetail.NotFoundWhileLoading | src/pages/Dashboard/TicketDetail.tsx:77-118 | before a ticket arrives, and without a route id, the page shows "not found" |
| TicketDetail.LoadedTicketShown | src/pages/Dashboard/TicketDetail.tsx:37-118 | a fetched ticket is shown, no longer loading |
| TicketDetail.SummaryHtml | src/pages/Dashboard/TicketDetail.tsx:154 | no newline survives in the summary, and a summary without newlines is unchanged |
| Text.ReplaceNewlinesConcat | src/pages/Dashboard/TicketDetail.tsx:154 | the newline rewrite works character by character: it distributes over concatenation |
| Text.ReplaceNewlinesAtNewline | src/pages/Dashboard/TicketDetail.tsx:154 | a newline becomes exactly `<br>`, and the text on either side of it is rewritten on its own |
| Text.ReplaceNewlinesLength | src/pages/Dashboard/TicketDetail.tsx:154 | the rewritten text is three characters longer per newline, and no longer otherwise |
| TicketDetail.FormatDate | src/pages/Dashboard/TicketDetail.tsx:19-29 | a missing or empty date prints "N/A", and any other date is rendered |
| Sidebar.RulesAgreeWithoutQuery | src/layout/AppSidebar.tsx:63-79 | for a path without "?", "/tickets" is active on "/tickets" and below, and any other path exactly on its own pathname |
| Sidebar.TicketsActivePaths | src/layout/AppSidebar.tsx:68-72 | "/tickets" is active on every ticket detail page and not on "/tickets-open" or "/tickets-closed" |
| Sidebar.AsWrittenQueryNeverActive | src/layout/AppSidebar.tsx:75-76 | as written, a path with a non-empty query is never active |
| Sidebar.AsWrittenMissesItsOwnUrl | src/layout/AppSidebar.tsx:75-76 | as written, a path with a query is not active on its own URL, while the corrected rule makes it active |
| Sidebar.QueryPathActiveOnItsUrl | src/layout/AppSidebar.tsx:65-76 | under the corrected rule, a path with a query is active exactly on its own pathname and search |
| Sidebar.ToggleSubmenu | src/layout/AppSidebar.tsx:113-120 | toggling the open submenu closes it, and toggling any other opens it |
| Sidebar.ToggleTwice | src/layout/AppSidebar.tsx:113-120 | toggling twice restores an open submenu and closes any other |
| Sidebar.ExpandFromSpec | src/layout/AppSidebar.tsx:82-98 | by the page's own `isActive`, the scan over the menu ends on the last item with an active sub-item, or with no submenu open when there is none |
| Sidebar.AutoExpandSpec | src/layout/AppSidebar.tsx:82-98 | by the page's own `isActive`, auto-expand opens the last menu item that has an active sub-item, and closes the submenu iff no sub-item is active |
| Sidebar.TicketDetailOpensTicketMenu | src/layout/AppSidebar.tsx:20-98 | on a ticket detail page the Ticket submenu, index 1, opens |
| Sidebar.AwayFromTicketsClosesSubmenus | src/layout/AppSidebar.tsx:20-98 | on any pathname other than "/tickets", "/tickets/…", "/tickets-open" and "/tickets-closed" no submenu is open |
| Text.JoinSplit | src/layout/AppSidebar.tsx:65 | splitting on a separator and joining back gives the original string |
| AuthService.StoreAuthData | src/services/authService.ts:55-58 | storing writes `authToken` as the token's string form and `user` as its JSON text, leaving every other key alone |
| AuthService.ClearAuthData | src/services/authService.ts:61-64 | clearing removes both keys and leaves every other key alone |
| AuthService.GetStoredAuthData | src/services/authService.ts:67-77 | without a window both are null; the token is the stored one or null; a missing or empty user entry is null; a non-empty entry throws iff it is not valid JSON, and otherwise the user is its parse |
| AuthService.StoreThenGet | src/services/authService.ts:55-77 | reading back what was stored gives the token's string form and the same user |
| AuthService.ClearThenGet | src/services/authService.ts:61-77 | after clearing, both the token and the user read back as null |
| JsonText.LeadingZeroRejected | src/services/authService.ts:75 | a stored number with a leading zero, such as "01" or "-007", is not JSON, so parsing it throws |
| JsonText.RoundTrip | src/services/authService.ts:57-75 | `JSON.parse(JSON.stringify(v))` gives back `v` for every value |
| AuthService.Login | src/services/authService.ts:30-52 | a non-OK response throws its message or "Login failed"; a `null` body throws on reading `message` (not OK) or `token` (OK); success returns the body, and stores the session iff both `token` and `user` are truthy |
| AuthService.LoginSessionReadsBack | src/services/authService.ts:45-58 | after a login that stored the session, it reads back as the response's token and user |
| AuthService.MergeStoredUser | src/services/authService.ts:127-131 | with a user stored, the `user` entry parses back to an object in which every key reads from the response when the response has it, and from the old user otherwise; every other entry is kept; nothing is written when no user is stored |
| AuthService.MergeThenGet | src/services/authService.ts:127-131 | reading the session back after a merge keeps the token and yields the merged user |
| AuthService.UpdateProfileAsWritten | src/services/authService.ts:80-139 | as written: it succeeds and merges whenever a token is stored and the body parses, whatever the status; a malformed stored user throws, no token gives "No authentication token found. Please log in again.", a failed request gives the network-error message, and an unparsable body "Invalid response from server" |
| AuthService.AsWrittenStoresErrorBody | src/services/authService.ts:114-131 | as written, a rejected update's `{message}` body is merged into the stored user |
| AuthService.UpdateProfile | src/services/authService.ts:80-139 | corrected: only an OK response is merged; a non-OK one throws its message or "Failed to update profile" |
| AuthService.UpdateProfileStoresOnlySuccess | src/services/authService.ts:114-131 | corrected: a field is merged into the stored user only from an OK response |
| AuthService.UpdateProfileNeedsToken | src/services/authService.ts:85-87 | without a token it throws "No authentication token found. Please log in again." before any request |
| AuthService.InMessageOr | src/services/authService.ts:157-160 | `'message' in body ? body.message : fallback`, which throws for a primitive body |
| AuthService.PasswordBodyTransmitted | src/services/authService.ts:154 | the password request body carries exactly `currentPassword` and `newPassword`, and its JSON text parses back to it |
| AuthService.UpdatePassword | src/services/authService.ts:142-161 | without a token it throws "Not authenticated"; it succeeds iff the status is OK, sending both passwords; otherwise it throws the body's message or "Failed to update password" |
| AuthContext.CheckAuth | src/contexts/AuthContext.tsx:30-48 | hydration ends not loading, and signed in iff the stored user reads back truthy, in which case it is that user |
| AuthContext.CheckAuthAfterStore | src/contexts/AuthContext.tsx:30-48 | hydrating from a freshly stored session restores its user |
| AuthContext.Login | src/contexts/AuthContext.tsx:50-58 | the user is kept only if a token is stored, and otherwise becomes null |
| AuthContext.LoginAuthenticates | src/contexts/AuthContext.tsx:50-58 | after `login(u)` the user is signed in iff `u` is truthy and a token is stored |
| AuthContext.Logout | src/contexts/AuthContext.tsx:60-65 | logout clears the session, nulls the user and goes to "/login" |
| AuthContext.LogoutThenReload | src/contexts/AuthContext.tsx:30-65 | after logout, hydration finds nobody signed in |
| AuthContext.UpdateProfileLocal | src/contexts/AuthContext.tsx:67-84 | a null user stays null; `name` and `username` change only to non-empty values, and every other field is kept |
| AuthContext.UpdateKeepsIdAndRole | src/contexts/AuthContext.tsx:76-77 | the local update never changes `id` or `role` |
| MyProfile.CurrentPasswordError | src/pages/Profile/MyProfile.tsx:168-175 | the current password is required exactly when a new one is typed |
| MyProfile.NewPasswordError | src/pages/Profile/MyProfile.tsx:194-199 | a new password fails iff it is non-empty and shorter than 6 characters |
| MyProfile.ConfirmPasswordError | src/pages/Profile/MyProfile.tsx:218-228 | with a new password typed, an empty confirmation asks for it and a different one reports the mismatch |
| MyProfile.ValidFormShape | src/pages/Profile/MyProfile.tsx:168-228 | a valid form changes no password, or has a current password and a confirmed new one of at least 6 characters |
| MyProfile.FailureToast | src/pages/Profile/MyProfile.tsx:110-111 | the error toast shows the error's message, or "Failed to update profile" when it is empty |
| MyProfile.FieldOrEmpty | src/pages/Profile/MyProfile.tsx:41-42 | `user.key \|\| ''`: a string field as it is, and "" for a missing or falsy one |
| MyProfile.UserEffectReset | src/pages/Profile/MyProfile.tsx:38-51 | the reset on a user change takes the user's username and name and empties the three password fields |
| MyProfile.EffectAgreesWithSuccessReset | src/pages/Profile/MyProfile.tsx:38-101 | with both names typed, the effect's reset after a profile update and the handler's reset after a password change give the same form |
| MyProfile.OnSubmit | src/pages/Profile/MyProfile.tsx:38-115 | no user gives "User not authenticated"; no change gives "No changes detected"; the profile is updated iff name or username differ; the password is changed iff both are typed and confirmed; the form ends with the three fields cleared on success, reset from the updated user after a profile update otherwise, and unchanged otherwise |
| MyProfile.ProfileStep | src/pages/Profile/MyProfile.tsx:38-111 | after a name or username change: the local update and its toast come first; the password half follows when both passwords are given; the effect's reset decides the form unless a password change succeeded after it |
| MyProfile.PasswordStep | src/pages/Profile/MyProfile.tsx:83-111 | exactly one toast follows those already shown: the mismatch error with no request, or the outcome of the request with the typed current and new password; the handler itself clears the three password fields only on success |
| MyProfile.ProfileChangeClearsPasswords | src/pages/Profile/MyProfile.tsx:38-111 | after a profile update the password fields always end up empty, even when the password change fails or is refused |
| MyProfile.OnlySuccessClearsWithoutProfileChange | src/pages/Profile/MyProfile.tsx:83-101 | without a profile update, a typed password change is cleared exactly when it succeeds |
| MyProfile.ValidFormNeverMismatches | src/pages/Profile/MyProfile.tsx:83-93 | a form that passed validation always sends its password change |
| MyProfile.ProfileUpdatedDespiteMismatch | src/pages/Profile/MyProfile.tsx:72-88 | a password mismatch is found after the profile update, which stays done |
| SignIn.Submit | src/components/auth/SignInForm.tsx:45-86 | a blank username or empty password gives the validation error and no login call; login gets the trimmed username and the raw password; a failure shows the fixed message, clears the password and keeps the username; success navigates to the remembered page |
| SignIn.SuccessfulSignIn | src/components/auth/SignInForm.tsx:57-73 | a login answered with a token and a truthy user signs that user in, stores the session, and goes to the remembered page |
| SignIn.RedirectIfSignedIn | src/components/auth/SignInForm.tsx:28-33 | a signed-in visitor is sent on to the same page `PublicRoute` would send them to |
| Routes.RedirectTarget | src/App.tsx:54-58 | the remembered pathname when it is non-empty, else "/home" |
| Routes.ProtectedRoute | src/App.tsx:21-39 | a spinner iff loading; a redirect to "/login" carrying the pathname iff signed out; the page otherwise |
| Routes.PublicRoute | src/App.tsx:42-61 | a spinner iff loading; a redirect to the remembered page iff signed in; the page otherwise |
| Routes.Resolve | src/App.tsx:67-142 | "/login" and "/register" are wrapped in `PublicRoute`; every dashboard page is wrapped twice in `ProtectedRoute`; the catch-all has no guard; "/tickets/:id" takes one non-empty segment |
| Routes.RunGuards | src/App.tsx:21-142 | the page is shown iff every guard renders its children, and otherwise the outermost guard that does not decides |
| Routes.SignedOutSeesOnlyPublicPages | src/App.tsx:67-142 | signed out, only the sign-in, sign-up and not-found pages are shown, and every other path redirects to "/login" remembering it |
| Routes.SignedInSkipsPublicPages | src/App.tsx:42-142 | signed in, every dashboard page is shown and the sign-in and sign-up pages redirect to the remembered page |
| Routes.NotFoundUnguarded | src/App.tsx:142 | the catch-all page shows whatever the session, even while it loads |
| Routes.SignInReturnsToRequestedPage | src/App.tsx:21-142 | a signed-out visit to a dashboard page goes to "/login"; once signed in there, the visitor returns to the requested page, which is shown |

## Left out

- `fetch`, network failures and request headers are left out. The HTTP response is an input. Network failure is modelled only where the code handles it by name (`authService.updateProfile`).
- Strings are sequences of characters. Character counts stand in for JavaScript's UTF-16 lengths. `toLowerCase` and `trim` are their ASCII forms.
- `JsonText` serialises and parses only the compact form `JSON.stringify` produces:
  - integer numbers only;
  - no whitespace;
  - escapes for `"`, `\` and control characters.

  Fractional numbers and JavaScript's numeric-key ordering of object fields are not modelled.
- Object keys whose value is `undefined` are not represented. `JSON.stringify` drops such keys.
- Object spread and property reads are modelled for objects. Spreading a string or an array into an object is not.
- Dates carry no time of day or time zone. `now` is a parameter. `toLocaleDateString` is a rendering function passed in.
- Concurrent responses are out of scope: a slow response for an earlier customer or range can land after a newer one. Effects run in sequence here.
- JSX, CSS, toasts' appearance, console logging, the print window, the body-overflow toggle and the customer detail modal are not modelled. So is the customer list's own fetch, which only stores what it receives.
- Tickets, customers and users are records with the fields the rules read. Decoding those records from JSON is not modelled.
- `react-hook-form` is not modelled beyond the three validators. `react-router` is not modelled beyond exact paths and one `:id` segment; its case-insensitive matching and trailing-slash handling are left out.
- `TicketCardBSI.tsx`, `UserDropdown.tsx`, `DropdownItem.tsx`, `PageMeta.tsx`, the page composition files, `env.ts` and `vite.config.ts` hold no rule to state.
- The profile page's `useEffect([user])` is modelled only where a submit changes the user. Its run when the page first receives a user, and its `keepDirty` flag, are not modelled.
- `window.confirm` is the `confirmed` parameter of the delete handler. The handler's missing token check is modelled as written: the request is sent regardless.

## Findings

| source | as written | input that shows it | evidently intended | confidence | as-written member | corrected member |
|---|---|---|---|---|---|---|
| src/layout/AppSidebar.tsx:75-76 | a menu path with a query compares `location.search`, which starts with "?", against the text after "?" in the path | path "/users?tab=admins" at the URL "/users?tab=admins": the search is "?tab=admins" and the path's query is "tab=admins", so the item is never highlighted. No current menu entry has a query, so the menu shows no difference today | compare the search with "?" followed by the path's query | not executed; high | Sidebar.AsWrittenMissesItsOwnUrl | Sidebar.QueryPathActiveOnItsUrl |
| src/services/authService.ts:114-131 | `updateProfile` never checks `response.ok`: any parsable body, including an error body, is merged into the stored user and returned as success | a stored user `{"name":"A"}` with a token, and a 400 response `{"message":"Username taken"}`: the stored user becomes `{"name":"A","message":"Username taken"}` and the call resolves | reject a non-OK response with its message, as `login` and `updatePassword` do, and merge only an OK body | not executed; medium | AuthService.AsWrittenStoresErrorBody | AuthService.UpdateProfileStoresOnlySuccess |
