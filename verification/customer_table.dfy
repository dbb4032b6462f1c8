/** The customer table: a trimmed, lowercased query matched against five
    fields joined by spaces, and pages of 5. */
module CustomerTable {
  import opened Wrappers
  import opened Text
  import opened Paging

  datatype Customer = Customer(
    id: int,
    customer: string,
    applicationName: string,
    androidBundleId: Option<string>,
    iosBundleId: Option<string>,
    numberOfDownload: Option<string>,
    product: Option<string>,
    startDate: Option<string>,
    expiredDate: Option<string>,
    technicalContact: Option<string>,
    salesContact: Option<string>,
    partner: Option<string>,
    picPartner: Option<string>)

  /** The status filter state is never changed from "all". */
  const StatusFilter := "all"

  function Query(search: string): string {
    Lower(Trim(search))
  }

  /** `inText`: a possibly-null field, lowercased, null read as "". */
  function InText(v: Option<string>): string {
    Lower(v.GetOr(""))
  }

  /** The five searched fields, lowercased. */
  function SearchedFields(c: Customer): seq<string> {
    [InText(Some(c.customer)), InText(Some(c.applicationName)), InText(c.numberOfDownload),
     InText(c.product), InText(c.expiredDate)]
  }

  /** The searched fields joined by single spaces. */
  function Haystack(c: Customer): string {
    Join(SearchedFields(c), ' ')
  }

  /** The predicate `filteredCustomers` applies to each customer. */
  predicate Matches(c: Customer, search: string) {
    var q := Query(search);
    q == "" || (Contains(Haystack(c), q) && (StatusFilter == "all" || c.applicationName == StatusFilter))
  }

  /** Because the status filter is always "all", a customer matches iff the
      query is blank or occurs in the haystack. */
  lemma MatchesIffInHaystack(c: Customer, search: string)
    ensures Matches(c, search) <==> Query(search) == "" || Contains(Haystack(c), Query(search))
  {
  }

  /** A query found in any one searched field is found in the haystack. */
  lemma FieldHitMatches(c: Customer, search: string, k: nat)
    requires k < 5
    requires Contains(SearchedFields(c)[k], Query(search))
    ensures Matches(c, search)
  {
    JoinContainsPart(SearchedFields(c), ' ', k, Query(search));
  }

  /** Bundle IDs, contacts, partner and start date never affect whether a
      customer matches. */
  lemma OtherFieldsIrrelevant(c: Customer, d: Customer, search: string)
    requires SearchedFields(c) == SearchedFields(d)
    ensures Matches(c, search) <==> Matches(d, search)
  {
  }

  /** A search that is blank after trimming matches every customer. */
  lemma BlankQueryMatchesAll(c: Customer, search: string)
    requires forall k :: 0 <= k < |search| ==> IsSpace(search[k])
    ensures Matches(c, search)
  {
    TrimEmptyIffBlank(search);
  }

  /** Whitespace around the search text changes nothing. */
  lemma SurroundingSpaceIgnored(c: Customer, search: string)
    ensures Matches(c, " " + search + " ") <==> Matches(c, search)
  {
    TrimPadded(search);
  }

  /** The table's state: the fetched customers, the search box and the page. */
  datatype View = View(customers: seq<Customer>, search: string, page: int)

  function Filtered(v: View): (r: seq<Customer>)
    ensures forall c :: c in r <==> c in v.customers && Matches(c, v.search)
  {
    Filter(v.customers, c => Matches(c, v.search))
  }

  function CurrentCustomers(v: View): (r: seq<Customer>)
    ensures v.page >= 1 ==> |r| <= PageSize
    ensures forall c :: c in r ==> c in Filtered(v)
  {
    Page(Filtered(v), v.page)
  }

  function PageCount(v: View): nat {
    TotalPages(|Filtered(v)|)
  }

  datatype Event = SearchChanged(text: string) | GoTo(target: int)

  /** Editing the search box returns to page 1; page buttons go through
      `goToPage`. */
  function Step(v: View, e: Event): (w: View)
    ensures w.customers == v.customers
    ensures e.SearchChanged? ==> w == v.(search := e.text, page := 1)
    ensures e.GoTo? && 1 <= e.target <= PageCount(v) ==> w == v.(page := e.target)
    ensures e.GoTo? && !(1 <= e.target <= PageCount(v)) ==> w == v
  {
    match e
    case SearchChanged(text) => v.(search := text, page := 1)
    case GoTo(target) => v.(page := GoToPage(v.page, target, PageCount(v)))
  }

  /** The pages of the filtered list put together are the filtered list. */
  lemma PagesCoverFiltered(v: View)
    ensures Pages(Filtered(v), PageCount(v)) == Filtered(v)
  {
    ConcatenatedPages(Filtered(v));
  }

  lemma StepKeepsPageInRange(v: View, e: Event)
    requires PageInRange(v.page, PageCount(v))
    ensures PageInRange(Step(v, e).page, PageCount(Step(v, e)))
  {
  }

  /** A blank search lists every customer. */
  lemma BlankSearchKeepsAll(v: View)
    requires forall k :: 0 <= k < |v.search| ==> IsSpace(v.search[k])
    ensures Filtered(v) == v.customers
  {
    forall c | c in v.customers
      ensures Matches(c, v.search)
    {
      BlankQueryMatchesAll(c, v.search);
    }
    FilterKeepsAll(v.customers, c => Matches(c, v.search));
  }
}
