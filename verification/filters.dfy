/** The filter engine behind the Appointments and Service Requests tables: a
    case-insensitive search over two text columns, a status filter with the
    pass-through value "all", and, for service requests, a date bucket relative
    to the current time. Both filters are `Array.prototype.filter` calls. */
module Filters {

  import opened Optional
  import opened ArrayOps
  import opened JsString
  import opened Rows

  /** `(field || "").toLowerCase().includes(searchTerm.toLowerCase())` */
  predicate SearchHit(field: string, searchTerm: string)
  {
    Includes(ToLowerCase(field), ToLowerCase(searchTerm))
  }

  /** `statusFilter === 'all' || (status || "").toLowerCase() === statusFilter.toLowerCase()` */
  predicate StatusMatches(status: string, statusFilter: string)
  {
    statusFilter == "all" || ToLowerCase(status) == ToLowerCase(statusFilter)
  }

  /** The callback `filterAppointments` hands to `filter`. */
  predicate AppointmentMatches(a: Appointment, searchTerm: string, statusFilter: string)
  {
    (SearchHit(a.name, searchTerm) || SearchHit(a.outcome, searchTerm))
    && StatusMatches(a.status, statusFilter)
  }

  /** The rows of the Appointments table: exactly the appointments matching the
      search and the status filter, in their original order. */
  function FilterAppointments(appointments: seq<Appointment>, searchTerm: string, statusFilter: string): (r: seq<Appointment>)
    ensures SubsequenceOf(r, appointments)
    ensures forall a :: a in r <==> a in appointments && AppointmentMatches(a, searchTerm, statusFilter)
    ensures forall a :: AppointmentMatches(a, searchTerm, statusFilter) ==> multiset(r)[a] == multiset(appointments)[a]
    ensures |r| <= |appointments|
  {
    var r := Filter(appointments, a => AppointmentMatches(a, searchTerm, statusFilter));
    SubsequenceLength(r, appointments);
    r
  }

  const MsPerDay: int := 86_400_000

  /** The current time and the instant one calendar month before it, both in
      milliseconds on the local clock; the calendar arithmetic of `setMonth`
      is left to the caller. */
  datatype Clock = Clock(now: int, monthAgo: int)

  /** `weekAgo.setDate(now.getDate() - 7)` */
  function WeekAgo(clock: Clock): int
  {
    clock.now - 7 * MsPerDay
  }

  /** The calendar day an instant falls on, which `toDateString` compares. */
  function Day(t: int): int
  {
    t / MsPerDay
  }

  /** The date-bucket part of `filterServiceRequests`. `parseDate` plays
      `new Date(date)`: `None` is the invalid date, whose comparisons are all
      false and whose `toDateString()` never equals today's. */
  predicate DateMatches(date: string, dateFilter: string, clock: Clock, parseDate: string -> Option<int>)
  {
    if dateFilter == "all" || date == "" then true
    else
      var reqDate := parseDate(date);
      if dateFilter == "today" then
        reqDate.Some? && Day(reqDate.value) == Day(clock.now)
      else if dateFilter == "week" then
        reqDate.Some? && WeekAgo(clock) <= reqDate.value <= clock.now
      else if dateFilter == "month" then
        reqDate.Some? && clock.monthAgo <= reqDate.value <= clock.now
      else
        true
  }

  /** The callback `filterServiceRequests` hands to `filter`. */
  predicate ServiceRequestMatches(q: ServiceRequest, searchTerm: string, statusFilter: string,
                                  dateFilter: string, clock: Clock, parseDate: string -> Option<int>)
  {
    (SearchHit(q.service, searchTerm) || SearchHit(q.notes, searchTerm))
    && StatusMatches(q.status, statusFilter)
    && DateMatches(q.date, dateFilter, clock, parseDate)
  }

  /** The rows of the request history: exactly the requests matching the
      search, the status filter and the date bucket, in their original order. */
  function FilterServiceRequests(requests: seq<ServiceRequest>, searchTerm: string, statusFilter: string,
                                 dateFilter: string, clock: Clock, parseDate: string -> Option<int>): (r: seq<ServiceRequest>)
    ensures SubsequenceOf(r, requests)
    ensures forall q :: q in r <==> q in requests && ServiceRequestMatches(q, searchTerm, statusFilter, dateFilter, clock, parseDate)
    ensures forall q :: ServiceRequestMatches(q, searchTerm, statusFilter, dateFilter, clock, parseDate)
                        ==> multiset(r)[q] == multiset(requests)[q]
    ensures |r| <= |requests|
  {
    var r := Filter(requests, q => ServiceRequestMatches(q, searchTerm, statusFilter, dateFilter, clock, parseDate));
    SubsequenceLength(r, requests);
    r
  }

  // ---------------------------------------------------------------------------
  // Search

  /** The empty search term matches every field. */
  lemma EmptySearchMatches(field: string)
    ensures SearchHit(field, "")
  {
    assert OccursAt(ToLowerCase(field), ToLowerCase(""), 0);
  }

  /** A term written verbatim inside a field is found. */
  lemma {:induction false} VerbatimTermMatches(field: string, searchTerm: string, i: int)
    requires OccursAt(field, searchTerm, i)
    ensures SearchHit(field, searchTerm)
  {
    LowerSlice(field, i, i + |searchTerm|);
    assert OccursAt(ToLowerCase(field), ToLowerCase(searchTerm), i);
  }

  /** Search ignores letter case on both sides. */
  lemma {:induction false} SearchIgnoresCase(field: string, searchTerm: string)
    ensures SearchHit(ToUpperCase(field), ToUpperCase(searchTerm)) == SearchHit(field, searchTerm)
  {
    LowerOfUpper(field);
    LowerOfUpper(searchTerm);
  }

  // ---------------------------------------------------------------------------
  // Status

  /** The status filter ignores the letter case of the row's status. */
  lemma {:induction false} StatusIgnoresCase(status: string, statusFilter: string)
    ensures StatusMatches(ToUpperCase(status), statusFilter) == StatusMatches(status, statusFilter)
  {
    LowerOfUpper(status);
  }

  /** A row whose status cell was missing (read as "") passes only the
      pass-through filter and the empty filter value. */
  lemma MissingStatusMatches(statusFilter: string)
    ensures StatusMatches("", statusFilter) <==> statusFilter == "all" || statusFilter == ""
  {
    if ToLowerCase(statusFilter) == ToLowerCase("") {
      assert |statusFilter| == 0;
    }
  }

  // ---------------------------------------------------------------------------
  // Pass-through

  /** With an empty search term and status "all" the appointments are shown
      unchanged. */
  lemma FilterAppointmentsPassThrough(appointments: seq<Appointment>)
    ensures FilterAppointments(appointments, "", "all") == appointments
  {
    forall i | 0 <= i < |appointments|
      ensures AppointmentMatches(appointments[i], "", "all")
    {
      EmptySearchMatches(appointments[i].name);
    }
    FilterKeepsAll(appointments, a => AppointmentMatches(a, "", "all"));
  }

  /** With an empty search term, status "all" and date "all" the requests are
      shown unchanged, whatever the clock. */
  lemma FilterServiceRequestsPassThrough(requests: seq<ServiceRequest>, clock: Clock, parseDate: string -> Option<int>)
    ensures FilterServiceRequests(requests, "", "all", "all", clock, parseDate) == requests
  {
    forall i | 0 <= i < |requests|
      ensures ServiceRequestMatches(requests[i], "", "all", "all", clock, parseDate)
    {
      EmptySearchMatches(requests[i].service);
    }
    FilterKeepsAll(requests, q => ServiceRequestMatches(q, "", "all", "all", clock, parseDate));
  }

  // ---------------------------------------------------------------------------
  // Date buckets

  /** A date filter value other than the four offered keeps every date. */
  lemma UnrecognisedDateFilterKeeps(date: string, dateFilter: string, clock: Clock, parseDate: string -> Option<int>)
    requires dateFilter != "today" && dateFilter != "week" && dateFilter != "month"
    ensures DateMatches(date, dateFilter, clock, parseDate)
  {
  }

  /** A request without a date passes every bucket. */
  lemma UndatedRequestKeeps(dateFilter: string, clock: Clock, parseDate: string -> Option<int>)
    ensures DateMatches("", dateFilter, clock, parseDate)
  {
  }

  /** When a month ago lies no later than a week ago, the "week" rows are an
      order-preserving subsequence of the "month" rows. */
  lemma WeekWithinMonth(requests: seq<ServiceRequest>, searchTerm: string, statusFilter: string,
                        clock: Clock, parseDate: string -> Option<int>)
    requires clock.monthAgo <= WeekAgo(clock)
    ensures SubsequenceOf(FilterServiceRequests(requests, searchTerm, statusFilter, "week", clock, parseDate),
                          FilterServiceRequests(requests, searchTerm, statusFilter, "month", clock, parseDate))
  {
    FilterMonotone(requests,
                   q => ServiceRequestMatches(q, searchTerm, statusFilter, "week", clock, parseDate),
                   q => ServiceRequestMatches(q, searchTerm, statusFilter, "month", clock, parseDate));
  }

  /** Every bucket's rows are an order-preserving subsequence of the "all" rows. */
  lemma BucketWithinAll(requests: seq<ServiceRequest>, searchTerm: string, statusFilter: string,
                        dateFilter: string, clock: Clock, parseDate: string -> Option<int>)
    ensures SubsequenceOf(FilterServiceRequests(requests, searchTerm, statusFilter, dateFilter, clock, parseDate),
                          FilterServiceRequests(requests, searchTerm, statusFilter, "all", clock, parseDate))
  {
    FilterMonotone(requests,
                   q => ServiceRequestMatches(q, searchTerm, statusFilter, dateFilter, clock, parseDate),
                   q => ServiceRequestMatches(q, searchTerm, statusFilter, "all", clock, parseDate));
  }

  /** A date on today's calendar day that is not in the future also lies in
      the last seven days. */
  lemma TodaySoFarWithinWeek(date: string, clock: Clock, parseDate: string -> Option<int>)
    requires DateMatches(date, "today", clock, parseDate)
    requires date != "" ==> parseDate(date).value <= clock.now
    ensures DateMatches(date, "week", clock, parseDate)
  {
    if date != "" {
      var t := parseDate(date).value;
      assert t / MsPerDay == clock.now / MsPerDay;
      assert clock.now - t < MsPerDay;
    }
  }

  /** "today" is not contained in "week": a request dated later on the current
      day is kept by the first bucket and dropped by the second, because the
      week bucket stops at the current instant. */
  lemma TodayNotWithinWeek()
    ensures var clock, parseDate := Clock(0, -31 * MsPerDay), (s: string) => Some(1);
            DateMatches("2024-01-05", "today", clock, parseDate)
            && !DateMatches("2024-01-05", "week", clock, parseDate)
  {
  }
}
