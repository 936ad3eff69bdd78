/** The view-model rows the dashboard renders, and the `.map` bodies that build
    them from raw records: every column is read with a default, so each row has
    a fixed shape whatever cells the record is missing. */
module Rows {

  import opened Records

  datatype Appointment = Appointment(name: string, date: string, status: string, outcome: string, points: int)

  datatype ServiceRequest = ServiceRequest(email: string, date: string, service: string, status: string, notes: string, points: int)

  /** Amount and credits are numeric columns defaulted to `''`, so a row holds
      either the number or the empty text. */
  datatype Purchase = Purchase(date: string, plan: string, amount: Value, credits: Value, paymentMethod: string)

  function ToAppointment(r: Record): (a: Appointment)
    ensures TextCell(r.fields, "Prospect", a.name)
    ensures TextCell(r.fields, "Appointment Date", a.date)
    ensures TextCell(r.fields, "Status", a.status)
    ensures TextCell(r.fields, "Outcome", a.outcome)
    ensures NumberCell(r.fields, "Points Used", a.points)
  {
    Appointment(
      name := TextField(r.fields, "Prospect"),
      date := TextField(r.fields, "Appointment Date"),
      status := TextField(r.fields, "Status"),
      outcome := TextField(r.fields, "Outcome"),
      points := NumberField(r.fields, "Points Used"))
  }

  function ToServiceRequest(r: Record): (q: ServiceRequest)
    ensures TextCell(r.fields, "Email Text", q.email)
    ensures TextCell(r.fields, "Requested Date", q.date)
    ensures TextCell(r.fields, "Service Type", q.service)
    ensures TextCell(r.fields, "Status", q.status)
    ensures TextCell(r.fields, "Notes", q.notes)
    ensures NumberCell(r.fields, "Points Used", q.points)
  {
    ServiceRequest(
      email := TextField(r.fields, "Email Text"),
      date := TextField(r.fields, "Requested Date"),
      service := TextField(r.fields, "Service Type"),
      status := TextField(r.fields, "Status"),
      notes := TextField(r.fields, "Notes"),
      points := NumberField(r.fields, "Points Used"))
  }

  function ToPurchase(r: Record): (p: Purchase)
    ensures TextCell(r.fields, "Purchased Date", p.date)
    ensures TextCell(r.fields, "Package Name", p.plan)
    ensures OrCell(r.fields, "Amount Paid", p.amount, Text(""))
    ensures OrCell(r.fields, "Total Points Added", p.credits, Text(""))
    ensures TextCell(r.fields, "Payment Method", p.paymentMethod)
  {
    Purchase(
      date := TextField(r.fields, "Purchased Date"),
      plan := TextField(r.fields, "Package Name"),
      amount := Or(r.fields, "Amount Paid", Text("")),
      credits := Or(r.fields, "Total Points Added", Text("")),
      paymentMethod := TextField(r.fields, "Payment Method"))
  }

  /** `records.map(...)` for appointments: one row per record, in order. */
  function MapAppointments(records: seq<Record>): (rows: seq<Appointment>)
    ensures |rows| == |records|
    ensures forall i :: 0 <= i < |records| ==> rows[i] == ToAppointment(records[i])
  {
    seq(|records|, i requires 0 <= i < |records| => ToAppointment(records[i]))
  }

  /** `records.map(...)` for service requests: one row per record, in order. */
  function MapServiceRequests(records: seq<Record>): (rows: seq<ServiceRequest>)
    ensures |rows| == |records|
    ensures forall i :: 0 <= i < |records| ==> rows[i] == ToServiceRequest(records[i])
  {
    seq(|records|, i requires 0 <= i < |records| => ToServiceRequest(records[i]))
  }

  /** `records.map(...)` for purchases: one row per record, in order. */
  function MapPurchases(records: seq<Record>): (rows: seq<Purchase>)
    ensures |rows| == |records|
    ensures forall i :: 0 <= i < |records| ==> rows[i] == ToPurchase(records[i])
  {
    seq(|records|, i requires 0 <= i < |records| => ToPurchase(records[i]))
  }

  /** The profile the dashboard reads: the fetch keeps only the first matching
      client record, and the view reads that record's cells, or an empty bag
      when there is none. */
  function ClientData(fetched: seq<Record>): (fields: Fields)
    ensures fetched == [] ==> fields == map[]
    ensures fetched != [] ==> fields == fetched[0].fields
  {
    var clients := if |fetched| > 0 then [fetched[0]] else [];
    if |clients| > 0 then clients[0].fields else map[]
  }

  /** With no client record every profile cell reads as its default: numbers
      as 0 and text as the empty string. */
  lemma EmptyProfileDefaults(key: string)
    ensures NumberField(ClientData([]), key) == 0
    ensures TextField(ClientData([]), key) == ""
  {
  }

  /** A record holding a date, a status and points but no prospect or outcome
      maps to a row carrying those three cells and defaults for the rest. */
  lemma SampleAppointmentRow()
    ensures ToAppointment(Record(map["Appointment Date" := Text("2024-01-05"), "Status" := Text("Completed"), "Points Used" := Number(70)]))
         == Appointment(name := "", date := "2024-01-05", status := "Completed", outcome := "", points := 70)
  {
  }

  /** A purchase whose amount or credits cell holds 0 shows the empty text,
      because 0 is falsy under `||`. */
  lemma ZeroPurchaseCellsShowBlank(r: Record)
    requires "Amount Paid" in r.fields && r.fields["Amount Paid"] == Number(0)
    requires "Total Points Added" in r.fields && r.fields["Total Points Added"] == Number(0)
    ensures ToPurchase(r).amount == Text("") && ToPurchase(r).credits == Text("")
  {
  }
}
