/** The ticket report page: choose a bank, choose a period (a preset number
    of months back from now, or a custom range), and the page re-fetches the
    bank's tickets for the period. */
module PrintReport {
  import opened Wrappers
  import opened Json
  import opened Http
  import opened Text
  import TicketTable

  // ---------------------------------------------------------------------
  // calendar dates
  // ---------------------------------------------------------------------

  /** A calendar date; the time of day is not modelled. */
  datatype Date = Date(year: int, month: nat, day: nat)

  predicate IsLeapYear(y: int) {
    (y % 4 == 0 && y % 100 != 0) || y % 400 == 0
  }

  function DaysIn(y: int, m: nat): (n: nat)
    requires 1 <= m <= 12
    ensures 28 <= n <= 31
  {
    if m == 2 then (if IsLeapYear(y) then 29 else 28)
    else if m == 4 || m == 6 || m == 9 || m == 11 then 30
    else 31
  }

  predicate ValidDate(d: Date) {
    1 <= d.month <= 12 && 1 <= d.day <= DaysIn(d.year, d.month)
  }

  /** The number of months since January of year 0. */
  function MonthIndex(d: Date): int {
    d.year * 12 + (d.month as int - 1)
  }

  /** `subMonths(d, m)`: the same day `m` months earlier, clamped to the
      last day of the target month (31 March minus one month is 28 or 29
      February). */
  function SubMonths(d: Date, m: nat): (r: Date)
    requires ValidDate(d)
    ensures ValidDate(r)
    ensures MonthIndex(r) == MonthIndex(d) - m
    ensures r.day == Min(d.day, DaysIn(r.year, r.month))
  {
    var idx := MonthIndex(d) - m;
    var y := idx / 12;
    var mo := (idx % 12 + 1) as nat;
    Date(y, mo, Min(d.day, DaysIn(y, mo)))
  }

  function Min(a: int, b: int): int {
    if a <= b then a else b
  }

  /** Calendar order. */
  predicate Before(a: Date, b: Date) {
    MonthIndex(a) < MonthIndex(b) || (MonthIndex(a) == MonthIndex(b) && a.day < b.day)
  }

  /** Every preset period starts strictly before it ends, and a longer
      preset starts earlier. */
  lemma SubMonthsEarlier(d: Date, m: nat, n: nat)
    requires ValidDate(d)
    requires 1 <= m < n
    ensures Before(SubMonths(d, m), d)
    ensures Before(SubMonths(d, n), SubMonths(d, m))
  {
  }

  /** Subtracting no months gives the date back. */
  lemma SubZeroMonths(d: Date)
    requires ValidDate(d)
    ensures SubMonths(d, 0) == d
  {
    var idx := MonthIndex(d);
    assert idx / 12 == d.year && idx % 12 == d.month - 1 by {
      assert idx == d.year * 12 + (d.month - 1) && 0 <= d.month - 1 < 12;
    }
  }

  /** A day that exists in the target month is kept. */
  lemma SubMonthsKeepsDay(d: Date, m: nat)
    requires ValidDate(d) && d.day <= 28
    ensures SubMonths(d, m).day == d.day
  {
  }

  // ---------------------------------------------------------------------
  // the `yyyy-MM-dd` format of the export request
  // ---------------------------------------------------------------------

  function Zeros(n: nat): (z: string)
    ensures |z| == n && AllDigits(z)
    ensures forall i :: 0 <= i < n ==> z[i] == '0'
  {
    seq(n, _ => '0')
  }

  /** The decimal digits of `n`, left-padded with zeros to `width`. */
  function Pad(n: nat, width: nat): (r: string)
    ensures AllDigits(r) && |r| >= width
    ensures n < 100 && width == 2 ==> |r| == 2
    ensures n < 10000 && width == 4 ==> |r| == 4
  {
    var ds := NatString(n);
    NatStringShort(n);
    if |ds| < width then Zeros(width - |ds|) + ds else ds
  }

  lemma {:induction false} NatStringShort(n: nat)
    ensures n < 10 ==> |NatString(n)| == 1
    ensures n < 100 ==> |NatString(n)| <= 2
    ensures n < 1000 ==> |NatString(n)| <= 3
    ensures n < 10000 ==> |NatString(n)| <= 4
    decreases n
  {
    if n >= 10 {
      NatStringShort(n / 10);
    }
  }

  lemma {:induction false} LeadingZerosValue(z: string, s: string)
    requires AllDigits(z) && AllDigits(s)
    requires forall i :: 0 <= i < |z| ==> z[i] == '0'
    ensures AllDigits(z + s)
    ensures DigitsValue(z + s) == DigitsValue(s)
    decreases |z| + |s|
  {
    if |s| > 0 {
      assert (z + s)[..|z + s| - 1] == z + s[..|s| - 1];
      LeadingZerosValue(z, s[..|s| - 1]);
    } else if |z| > 0 {
      assert z + s == z;
      assert z[..|z| - 1] + [] == z[..|z| - 1];
      LeadingZerosValue(z[..|z| - 1], []);
    }
  }

  lemma PadValue(n: nat, width: nat)
    ensures DigitsValue(Pad(n, width)) == n
  {
    NatStringValue(n);
    if |NatString(n)| < width {
      LeadingZerosValue(Zeros(width - |NatString(n)|), NatString(n));
    }
  }

  /** The `yyyy` year: date-fns prints the era year, so year 0 is 1 and
      year -1 is 2. */
  function EraYear(y: int): (r: nat)
    ensures r >= 1
    ensures y >= 1 ==> r == y
  {
    if y > 0 then y else 1 - y
  }

  /** `format(d, 'yyyy-MM-dd')`. */
  function IsoDate(d: Date): (s: string)
    ensures 1 <= d.year <= 9999 && d.month < 100 && d.day < 100 ==> |s| == 10 && s[4] == '-' && s[7] == '-'
  {
    Pad(EraYear(d.year), 4) + "-" + Pad(d.month, 2) + "-" + Pad(d.day, 2)
  }

  /** Reading a `digits-digits-digits` date, as the server does. */
  function ParseIsoDate(s: string): (r: Option<Date>)
  {
    var a := DigitRun(s);
    if a == 0 || a >= |s| || s[a] != '-' then None
    else
      var t := s[a + 1..];
      var b := DigitRun(t);
      if b == 0 || b >= |t| || t[b] != '-' then None
      else
        var u := t[b + 1..];
        if DigitRun(u) == 0 || DigitRun(u) != |u| then None
        else Some(Date(DigitsValue(s[..a]), DigitsValue(t[..b]), DigitsValue(u)))
  }

  /** The dates of the export request read back as the dates chosen. */
  lemma IsoDateRoundTrip(d: Date)
    requires ValidDate(d) && 1 <= d.year <= 9999
    ensures ParseIsoDate(IsoDate(d)) == Some(d)
  {
    var y := Pad(d.year, 4);
    var m := Pad(d.month, 2);
    var dd := Pad(d.day, 2);
    var s := IsoDate(d);
    assert s == y + ("-" + m + "-" + dd);
    DigitRunOf(y, "-" + m + "-" + dd);
    assert s[..4] == y;
    var t := s[5..];
    assert t == m + ("-" + dd);
    DigitRunOf(m, "-" + dd);
    assert t[..2] == m;
    var u := t[3..];
    assert u == dd;
    DigitRunOf(dd, []);
    assert dd + [] == dd;
    PadValue(d.year, 4);
    PadValue(d.month, 2);
    PadValue(d.day, 2);
  }

  // ---------------------------------------------------------------------
  // page state
  // ---------------------------------------------------------------------

  /** The bank cards: id and display name. */
  const Customers: seq<(string, string)> :=
    [("mandiri", "Bank Mandiri"), ("bni", "Bank BNI"), ("bsi", "Bank Syariah Indonesia")]

  /** The period buttons: months back from now; 0 is the custom range. */
  const MonthOptions: seq<nat> := [1, 2, 3, 6, 12, 0]

  datatype Range = Range(start: Date, end: Date)

  /** The page's state. `rangeVersion` counts the `setSelectedRange` calls:
      the effect compares the range object by identity, so every call is a
      change even when the dates are equal. */
  datatype State = State(
    customer: Option<string>,
    tickets: seq<Json>,
    loading: bool,
    error: Option<Error>,
    showPicker: bool,
    range: Range,
    monthOption: nat,
    rangeVersion: nat)

  /** The page as it mounts at time `now`: no bank, the last month. */
  function Initial(now: Date): (s: State)
    requires ValidDate(now)
    ensures s.customer.None? && s.monthOption == 1 && !s.showPicker && !s.loading
    ensures s.range == Range(SubMonths(now, 1), now) && Before(s.range.start, s.range.end)
  {
    State(None, [], false, None, false, Range(SubMonths(now, 1), now), 1, 0)
  }

  datatype Event =
    | SelectCustomer(index: nat)
    | MonthOption(months: nat)
    | PickerChange(range: Range)
    | Apply
    | Cancel
    | Back

  /** The effect's condition: a bank is selected, and the bank or the
      range object changed. */
  predicate TriggersFetch(before: State, after: State) {
    after.customer.Some? && after.customer.value != ""
    && (after.customer != before.customer || after.rangeVersion != before.rangeVersion)
  }

  /** One user action at time `now`: the new state, and whether the page
      navigates back in history. */
  function Step(s: State, e: Event, now: Date): (r: (State, bool))
    requires ValidDate(now)
    ensures r.1 <==> e.Back? && s.customer.None?
    ensures e.SelectCustomer? && s.customer.None? && e.index < |Customers| ==>
      r.0 == s.(customer := Some(Customers[e.index].0))
    ensures e.MonthOption? && e.months > 0 ==>
      r.0 == s.(monthOption := e.months, range := Range(SubMonths(now, e.months), now),
                rangeVersion := s.rangeVersion + 1, showPicker := false)
    ensures e.MonthOption? && e.months == 0 ==> r.0 == s.(monthOption := 0, showPicker := true)
    ensures e.PickerChange? ==> r.0 == s.(range := e.range, rangeVersion := s.rangeVersion + 1)
    ensures e.Apply? || e.Cancel? ==> r.0 == s.(showPicker := false)
    ensures e.Back? && s.customer.Some? ==> r.0 == s.(customer := None, tickets := [])
  {
    match e
    case SelectCustomer(i) =>
      if s.customer.None? && i < |Customers| then (s.(customer := Some(Customers[i].0)), false) else (s, false)
    case MonthOption(m) =>
      if m > 0 then
        (s.(monthOption := m, range := Range(SubMonths(now, m), now),
            rangeVersion := s.rangeVersion + 1, showPicker := false), false)
      else (s.(monthOption := 0, showPicker := true), false)
    case PickerChange(rg) => (s.(range := rg, rangeVersion := s.rangeVersion + 1), false)
    case Apply => (s.(showPicker := false), false)
    case Cancel => (s.(showPicker := false), false)
    case Back =>
      if s.customer.Some? then (s.(customer := None, tickets := []), false) else (s, true)
  }

  /** Editing the custom range re-fetches at once, while "apply" only hides
      the picker and never fetches. */
  lemma CustomRangeFetchesOnEdit(s: State, rg: Range, now: Date)
    requires ValidDate(now)
    requires s.customer.Some? && s.customer.value != ""
    ensures TriggersFetch(s, Step(s, PickerChange(rg), now).0)
    ensures !TriggersFetch(s, Step(s, Apply, now).0)
  {
  }

  /** "Cancel" does not restore the range: it does exactly what "apply" does. */
  lemma CancelIsApply(s: State, now: Date)
    requires ValidDate(now)
    ensures Step(s, Cancel, now) == Step(s, Apply, now)
  {
  }

  /** A preset re-fetches even when it yields the same dates as before. */
  lemma PresetAlwaysRefetches(s: State, m: nat, now: Date)
    requires ValidDate(now) && m > 0
    requires s.customer.Some? && s.customer.value != ""
    requires s.range == Range(SubMonths(now, m), now)
    ensures Step(s, MonthOption(m), now).0.range == s.range
    ensures TriggersFetch(s, Step(s, MonthOption(m), now).0)
  {
  }

  /** Choosing a bank fetches; nothing fetches while no bank is chosen. */
  lemma FetchNeedsCustomer(s: State, e: Event, now: Date)
    requires ValidDate(now)
    ensures s.customer.None? && e.SelectCustomer? && e.index < |Customers| ==> TriggersFetch(s, Step(s, e, now).0)
    ensures Step(s, e, now).0.customer.None? ==> !TriggersFetch(s, Step(s, e, now).0)
  {
  }

  /** Every chosen bank is one of the cards. */
  lemma CustomerIsACard(s: State, e: Event, now: Date)
    requires ValidDate(now)
    requires s.customer.Some? ==> exists k :: 0 <= k < |Customers| && Customers[k].0 == s.customer.value
    ensures var t := Step(s, e, now).0;
      t.customer.Some? ==> exists k :: 0 <= k < |Customers| && Customers[k].0 == t.customer.value
  {
  }

  // ---------------------------------------------------------------------
  // fetch
  // ---------------------------------------------------------------------

  /** The request path: the bank's export endpoint with the period as
      `yyyy-MM-dd` query parameters. */
  function ExportPath(customer: string, rg: Range): (p: string)
    ensures IsPrefix(ExportPrefix(customer), p)
  {
    var prefix := ExportPrefix(customer);
    var rest := IsoDate(rg.start) + ("&endDate=" + IsoDate(rg.end));
    assert (prefix + rest)[..|prefix|] == prefix;
    prefix + rest
  }

  function ExportPrefix(customer: string): string {
    "/tickets/export/" + customer + "?startDate="
  }

  /** The server reads both chosen dates back from the request path: the
      ten characters after `startDate=` are the start, and what follows
      `&endDate=` is the end. */
  lemma ExportPathCarriesDates(customer: string, rg: Range)
    requires ValidDate(rg.start) && 1 <= rg.start.year <= 9999
    requires ValidDate(rg.end) && 1 <= rg.end.year <= 9999
    ensures var n := |ExportPrefix(customer)|; var p := ExportPath(customer, rg);
      |p| == n + 29 && ParseIsoDate(p[n..n + 10]) == Some(rg.start)
      && p[n + 10..n + 19] == "&endDate=" && ParseIsoDate(p[n + 19..]) == Some(rg.end)
  {
    var n := |ExportPrefix(customer)|;
    var p := ExportPath(customer, rg);
    var a := IsoDate(rg.start);
    var b := IsoDate(rg.end);
    var tail := "&endDate=" + b;
    assert p == ExportPrefix(customer) + (a + tail);
    assert p[n..] == a + tail;
    assert p[n..n + 10] == a;
    assert p[n + 10..] == tail;
    assert p[n + 10..n + 19] == "&endDate=";
    assert p[n + 19..] == b;
    IsoDateRoundTrip(rg.start);
    IsoDateRoundTrip(rg.end);
  }

  /** `fetchTickets`: the token check, the login redirect on 401/403, the
      shared non-OK handling, and acceptance only of a truthy body with a
      truthy `success` and an array `data`; anything else is rejected with
      its `message` or "Invalid response format". */
  function FetchReport(token: Option<string>, r: Response): (out: Fetched<seq<Json>>)
    ensures !HasToken(token) ==> out == Failed(Message(NoTokenMessage))
    ensures out.ToLogin? <==> HasToken(token) && !r.Ok() && r.IsAuthFailure()
    ensures HasToken(token) && !r.Ok() && !r.IsAuthFailure() ==>
      out == Failed(ErrorBodyMessage(r, "Failed to fetch tickets"))
    ensures out.Loaded? <==>
      HasToken(token) && r.Ok() && r.IsJson() && r.parsed.Some? && Truthy(r.parsed.value)
      && TruthyMember(r.parsed.value, "success") && ArrayMember(r.parsed.value, "data")
    ensures out.Loaded? ==> out.value == Member(r.parsed.value, "data").value.items
    ensures HasToken(token) && r.Ok() && r.IsJson() && r.parsed == Some(JNull) ==>
      out == Failed(Message("Invalid response format"))
    ensures HasToken(token) && r.Ok() && !r.IsJson() ==> out == Failed(NotJson(r))
    ensures HasToken(token) && r.Ok() && r.IsJson() && r.parsed.None? ==> out == Failed(SyntaxError)
    ensures HasToken(token) && r.Ok() && r.IsJson() && r.parsed.Some? && !out.Loaded? ==>
      out == Failed(DataMessageOr(r.parsed.value, "Invalid response format"))
  {
    if !HasToken(token) then Failed(Message(NoTokenMessage))
    else if !r.Ok() then
      if r.IsAuthFailure() then ToLogin else Failed(ErrorBodyMessage(r, "Failed to fetch tickets"))
    else if !r.IsJson() then Failed(NotJson(r))
    else
      match r.parsed
      case None => Failed(SyntaxError)
      case Some(data) =>
        if Truthy(data) && TruthyMember(data, "success") && ArrayMember(data, "data") then
          Loaded(Member(data, "data").value.items)
        else if TruthyMember(data, "message") then Failed(Message(ToJsString(Member(data, "message").value)))
        else Failed(Message("Invalid response format"))
  }

  /** An envelope `{success: true, data: [...]}` loads exactly its array,
      and the ticket table stores the same array from it. */
  lemma ReportLoadsEnvelopeArray(token: Option<string>, r: Response, xs: seq<Json>)
    requires HasToken(token) && r.Ok() && r.IsJson()
    requires r.parsed == Some(JObj([("success", JBool(true)), ("data", JArr(xs))]))
    ensures FetchReport(token, r) == Loaded(xs)
    ensures TicketTable.FetchTickets(token, r) == TicketTable.Store(Some(JArr(xs)))
  {
    var env := [("success", JBool(true)), ("data", JArr(xs))];
    assert env[1..][1..] == [] && "data"[0] != "success"[0];
    assert Lookup(env[1..], "success").None?;
    assert Lookup(env, "success") == Some(JBool(true));
    assert Lookup(env[1..], "data") == Some(JArr(xs));
    assert Lookup(env, "data") == Some(JArr(xs));
  }

  /** The report page and the ticket table fail alike on a non-OK response,
      except on 401 and 403, where the report page goes to the login page
      and the table shows the error. */
  lemma ReportAndTableShareErrors(token: Option<string>, r: Response)
    requires HasToken(token) && !r.Ok()
    ensures !r.IsAuthFailure() ==> FetchReport(token, r) == Failed(TicketTable.FetchTickets(token, r).error)
    ensures r.IsAuthFailure() ==> FetchReport(token, r) == ToLogin && TicketTable.FetchTickets(token, r).Fail?
  {
  }

  /** A fetch's effect on the page (the error clears when it starts and
      `loading` is false when it ends), and whether it goes to the login page. */
  function ApplyFetch(s: State, out: Fetched<seq<Json>>): (r: (State, bool))
    ensures !r.0.loading
    ensures r.1 <==> out.ToLogin?
    ensures out.Loaded? ==> r.0.tickets == out.value && r.0.error.None?
    ensures out.Failed? ==> r.0.tickets == s.tickets && r.0.error == Some(out.error)
    ensures r.0.customer == s.customer && r.0.range == s.range && r.0.rangeVersion == s.rangeVersion
  {
    match out
    case Loaded(xs) => (s.(tickets := xs, loading := false, error := None), false)
    case ToLogin => (s.(loading := false, error := None), true)
    case Failed(e) => (s.(loading := false, error := Some(e)), false)
  }

  /** `formatDate` of the report table: a missing date shows "-"; a present
      one is rendered by the locale formatter `render`. */
  function FormatDate(date: Option<string>, render: string -> string): (r: string)
    ensures date.None? || date == Some("") ==> r == "-"
    ensures date.Some? && date.value != "" ==> r == render(date.value)
  {
    if date.None? || date.value == "" then "-" else render(date.value)
  }
}
