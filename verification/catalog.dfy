/** The static service catalog and the check a service request must pass before
    it is submitted: a service must be selected and its cost must not exceed
    the client's remaining points. */
module Catalog {

  import opened Optional
  import opened ArrayOps
  import opened Records

  datatype Service = Service(name: string, points: nat)

  /** The `services` table of the request form, in display order. */
  const Services: seq<Service> := [
    Service("Qualified Appointment", 70),
    Service("No-show Reschedule", 20),
    Service("Invalid Lead Replacement", 10),
    Service("Outreach Tool Setup & Warmup", 100),
    Service("LinkedIn Outreach Setup", 100),
    Service("Automation Flow Build", 100),
    Service("AI Lead Bot Setup (Basic)", 50),
    Service("AI Lead Bot Setup (Multi-Niche)", 100),
    Service("AI Lead Bot Setup (White-Label)", 150),
    Service("CRM Setup & Automation", 150),
    Service("Landing Page Design", 150),
    Service("Google Ads/Retargeting Setup", 150),
    Service("Cold Calling (10 dials)", 50),
    Service("VA - Booking Travel", 20),
    Service("VA - Managing Inbox", 20),
    Service("VA - Prospecting", 20),
    Service("VA - CRM Cleanup", 20),
    Service("VA - Data Entry", 20),
    Service("VA - Lead Research", 20)
  ]

  /** The catalog has 19 entries, each with a non-empty name and a cost
      between 10 and 150 points. */
  lemma CatalogShape()
    ensures |Services| == 19
    ensures forall i :: 0 <= i < |Services| ==> Services[i].name != "" && 10 <= Services[i].points <= 150
  {
  }

  /** No two catalog entries share a name, so looking a name up is unambiguous. */
  lemma CatalogNamesDistinct()
    ensures forall i, j :: 0 <= i < j < |Services| ==> Services[i].name != Services[j].name
  {
  }

  /** `catalog[i]` is the first entry named `name`, the one `find` returns. */
  ghost predicate FirstNamed(catalog: seq<Service>, name: string, i: int)
  {
    0 <= i < |catalog| && catalog[i].name == name
    && forall j :: 0 <= j < i ==> catalog[j].name != name
  }

  /** `services.find(s => s.name === name)`: the first entry with that name,
      or `None` (`undefined`) when no entry has it. */
  function FindService(catalog: seq<Service>, name: string): (r: Option<Service>)
    ensures r.None? <==> forall i :: 0 <= i < |catalog| ==> catalog[i].name != name
    ensures r.Some? ==> exists i :: FirstNamed(catalog, name, i) && r.value == catalog[i]
  {
    var r := Find(catalog, (s: Service) => s.name == name);
    assert r.Some? ==> exists i :: FirstNamed(catalog, name, i) && r.value == catalog[i];
    r
  }

  /** At most one entry is the first with a given name. */
  lemma FirstNamedUnique(catalog: seq<Service>, name: string, i: int, j: int)
    requires FirstNamed(catalog, name, i) && FirstNamed(catalog, name, j)
    ensures i == j
  {
  }

  /** Every entry of the dashboard's catalog is the first with its name, and
      no entry has the empty name. */
  lemma CatalogEntryFirstNamed(i: int)
    requires 0 <= i < |Services|
    ensures FirstNamed(Services, Services[i].name, i)
    ensures Services[i].name != ""
  {
    CatalogShape();
    CatalogNamesDistinct();
  }

  /** Looking up the name of an entry of the dashboard's catalog yields that entry. */
  lemma FindServiceAt(i: int)
    requires 0 <= i < |Services|
    ensures FindService(Services, Services[i].name) == Some(Services[i])
  {
    CatalogEntryFirstNamed(i);
    var r := FindService(Services, Services[i].name);
    var k :| FirstNamed(Services, Services[i].name, k) && r.value == Services[k];
    FirstNamedUnique(Services, Services[i].name, i, k);
  }

  /** The "Points Required" read-out of the form:
      `selectedService ? services.find(...)?.points || 0 : 0`. */
  function PointsRequired(catalog: seq<Service>, selected: string): (p: nat)
    ensures forall i :: selected != "" && FirstNamed(catalog, selected, i) ==> p == catalog[i].points
    ensures selected == "" || (forall i :: 0 <= i < |catalog| ==> catalog[i].name != selected) ==> p == 0
  {
    if selected == "" then 0
    else match FindService(catalog, selected)
      case Some(s) =>
        assert forall i :: FirstNamed(catalog, selected, i) ==> s == catalog[i];
        s.points
      case None => 0
  }

  /** `clientData["Remaining Points"] || 0` */
  function RemainingPoints(clientData: Fields): int
  {
    NumberField(clientData, "Remaining Points")
  }

  /** The outcome of `validateServiceRequest`. `UnknownService` is a name that
      is not in the catalog: `find` yields `undefined` and reading its
      `points` throws before anything else happens. */
  datatype Validation = Valid | NoServiceSelected | InsufficientCredits | UnknownService

  /** A request needs a selected service whose catalog price does not exceed
      the remaining points. */
  function ValidateServiceRequest(catalog: seq<Service>, selected: string, clientData: Fields): (v: Validation)
    ensures v == NoServiceSelected <==> selected == ""
    ensures v == UnknownService <==>
      selected != "" && forall i :: 0 <= i < |catalog| ==> catalog[i].name != selected
    ensures v == InsufficientCredits <==>
      selected != "" && exists i :: FirstNamed(catalog, selected, i) && catalog[i].points > RemainingPoints(clientData)
    ensures v == Valid <==>
      selected != "" && exists i :: FirstNamed(catalog, selected, i) && catalog[i].points <= RemainingPoints(clientData)
  {
    if selected == "" then NoServiceSelected
    else match FindService(catalog, selected)
      case None => UnknownService
      case Some(s) =>
        assert forall i :: FirstNamed(catalog, selected, i) ==> s == catalog[i];
        if s.points > RemainingPoints(clientData) then InsufficientCredits else Valid
  }

  /** A request that passes validation names a catalog service the client can afford. */
  lemma ValidNamesAffordableService(catalog: seq<Service>, selected: string, clientData: Fields)
    requires ValidateServiceRequest(catalog, selected, clientData) == Valid
    ensures FindService(catalog, selected).Some?
    ensures FindService(catalog, selected).value.points <= RemainingPoints(clientData)
  {
    var i :| FirstNamed(catalog, selected, i) && catalog[i].points <= RemainingPoints(clientData);
    var k :| FirstNamed(catalog, selected, k) && FindService(catalog, selected).value == catalog[k];
    FirstNamedUnique(catalog, selected, i, k);
  }

  /** A service of the dashboard's catalog costing exactly the remaining
      points is accepted; one costing a point more is refused. */
  lemma BoundaryCost(i: int, clientData: Fields)
    requires 0 <= i < |Services|
    ensures Services[i].points == RemainingPoints(clientData)
            ==> ValidateServiceRequest(Services, Services[i].name, clientData) == Valid
    ensures Services[i].points == RemainingPoints(clientData) + 1
            ==> ValidateServiceRequest(Services, Services[i].name, clientData) == InsufficientCredits
  {
    CatalogEntryFirstNamed(i);
  }

  /** A client with 80 remaining points may request "No-show Reschedule"
      (20 points) but not "CRM Setup & Automation" (150 points). */
  lemma EightyPointsScenario(clientData: Fields)
    requires "Remaining Points" in clientData && clientData["Remaining Points"] == Number(80)
    ensures ValidateServiceRequest(Services, "No-show Reschedule", clientData) == Valid
    ensures ValidateServiceRequest(Services, "CRM Setup & Automation", clientData) == InsufficientCredits
  {
    CatalogEntryFirstNamed(1);
    CatalogEntryFirstNamed(9);
    assert Services[1] == Service("No-show Reschedule", 20);
    assert Services[9] == Service("CRM Setup & Automation", 150);
    assert RemainingPoints(clientData) == 80;
  }

  /** A client record without a "Remaining Points" cell has 0 points, so every
      catalog service is refused for insufficient credits. */
  lemma MissingBalanceRejectsEveryService(i: int, clientData: Fields)
    requires 0 <= i < |Services|
    requires "Remaining Points" !in clientData
    ensures ValidateServiceRequest(Services, Services[i].name, clientData) == InsufficientCredits
  {
    CatalogShape();
    CatalogEntryFirstNamed(i);
  }
}
