/** Submitting a service request from the form: validate, mark the form busy,
    post the payload to the automation webhook, announce success whether the
    `fetch` resolved or threw, clear the form and mark it idle again. */
module Submission {

  import opened Optional
  import opened Records
  import opened Catalog

  datatype ToastKind = Success | Error

  /** The messages the form's toasts carry. */
  datatype Message = SelectAService | NotEnoughCredits | Submitted(service: string) | SubmittedDemoMode

  /** The text each message is shown with. */
  function Wording(m: Message): string
  {
    match m
    case SelectAService => "Please select a service"
    case NotEnoughCredits => "Insufficient credits for this service"
    case Submitted(service) => service + " request submitted successfully!"
    case SubmittedDemoMode => "Request submitted (demo mode)"
  }

  /** The notification banner; `Hidden` is `{ show: false, message: '', type: '' }`. */
  datatype Toast = Hidden | Shown(message: Message, kind: ToastKind)

  /** The JSON body posted to the webhook. The client's name and email are
      copied from the profile record and are left out when it lacks them. */
  datatype Payload = Payload(client: Option<Value>, emailText: Option<Value>, serviceType: string,
                             pointsUsed: nat, notes: string, requestedDate: string)

  /** The `requestData` object built for a request. */
  function RequestPayload(clientData: Fields, service: Service, notes: string, timestamp: string): Payload
  {
    Payload(Lookup(clientData, "Client Name"), Lookup(clientData, "Email"), service.name, service.points, notes, timestamp)
  }

  /** The part of the dashboard state a submission reads and writes. */
  datatype Form = Form(selectedService: string, serviceNotes: string, loading: bool, toast: Toast)

  /** What a submission leaves behind: the new form state and the payload
      posted to the webhook, if one was. */
  datatype Step = Step(form: Form, posted: Option<Payload>)

  /** The toast `validateServiceRequest` raises for its verdict; a request it
      lets through, or one whose lookup throws, leaves the toast as it was. */
  function ValidationToast(verdict: Validation, current: Toast): Toast
  {
    match verdict
    case NoServiceSelected => Shown(SelectAService, Error)
    case InsufficientCredits => Shown(NotEnoughCredits, Error)
    case _ => current
  }

  /** `handleSubmitRequest` as a function of the state it starts from, the
      profile record, whether the webhook `fetch` resolved, and the current
      time. */
  function AfterSubmit(catalog: seq<Service>, form: Form, clientData: Fields, postSucceeds: bool, timestamp: string): Step
  {
    var verdict := ValidateServiceRequest(catalog, form.selectedService, clientData);
    if verdict != Valid then
      Step(form.(toast := ValidationToast(verdict, form.toast)), None)
    else
      ValidNamesAffordableService(catalog, form.selectedService, clientData);
      var service := FindService(catalog, form.selectedService).value;
      var payload := RequestPayload(clientData, service, form.serviceNotes, timestamp);
      var message := if postSucceeds then Submitted(form.selectedService) else SubmittedDemoMode;
      Step(Form("", "", false, Shown(message, Success)), Some(payload))
  }

  /** A refused request posts nothing and leaves the selection, the notes and
      the busy flag alone; the refusals the form can produce raise an error
      toast. */
  lemma RefusedSubmitPostsNothing(catalog: seq<Service>, form: Form, clientData: Fields, postSucceeds: bool, timestamp: string)
    requires ValidateServiceRequest(catalog, form.selectedService, clientData) != Valid
    ensures var step := AfterSubmit(catalog, form, clientData, postSucceeds, timestamp);
            step.posted == None
            && step.form.selectedService == form.selectedService
            && step.form.serviceNotes == form.serviceNotes
            && step.form.loading == form.loading
            && ((form.selectedService == "" || FindService(catalog, form.selectedService).Some?)
                ==> step.form.toast.Shown? && step.form.toast.kind == Error)
  {
  }

  /** An accepted request posts exactly one payload, charging the catalog price
      of the selected service, which the client can afford; afterwards the form
      is cleared, idle and showing a success toast. */
  lemma AcceptedSubmitPostsCatalogPrice(catalog: seq<Service>, form: Form, clientData: Fields,
                                         postSucceeds: bool, timestamp: string, i: int)
    requires FirstNamed(catalog, form.selectedService, i)
    requires ValidateServiceRequest(catalog, form.selectedService, clientData) == Valid
    ensures var step := AfterSubmit(catalog, form, clientData, postSucceeds, timestamp);
            step.posted.Some?
            && step.posted.value.serviceType == form.selectedService
            && step.posted.value.pointsUsed == catalog[i].points
            && step.posted.value.pointsUsed <= RemainingPoints(clientData)
            && step.posted.value.notes == form.serviceNotes
            && step.form.selectedService == "" && step.form.serviceNotes == ""
            && !step.form.loading
            && step.form.toast.Shown? && step.form.toast.kind == Success
  {
    var r := FindService(catalog, form.selectedService);
    var k :| FirstNamed(catalog, form.selectedService, k) && r.value == catalog[k];
    FirstNamedUnique(catalog, form.selectedService, i, k);
  }

  /** The "Points Required" read-out is what an accepted request is charged. */
  lemma PointsShownAreCharged(catalog: seq<Service>, form: Form, clientData: Fields, postSucceeds: bool, timestamp: string)
    requires AfterSubmit(catalog, form, clientData, postSucceeds, timestamp).posted.Some?
    ensures AfterSubmit(catalog, form, clientData, postSucceeds, timestamp).posted.value.pointsUsed
            == PointsRequired(catalog, form.selectedService)
  {
    ValidNamesAffordableService(catalog, form.selectedService, clientData);
  }

  /** The user cannot tell a `fetch` that threw from one that resolved: both
      post the same payload and leave the same form, up to the toast's
      wording. A resolved `fetch` includes an HTTP error status, which the
      handler never inspects. */
  lemma NetworkOutcomeInvisible(catalog: seq<Service>, form: Form, clientData: Fields, timestamp: string)
    ensures var ok, failed := AfterSubmit(catalog, form, clientData, true, timestamp),
                              AfterSubmit(catalog, form, clientData, false, timestamp);
            ok.posted == failed.posted
            && ok.form.(toast := Hidden) == failed.form.(toast := Hidden)
            && (ok.form.toast.Shown? <==> failed.form.toast.Shown?)
            && (ok.form.toast.Shown? ==> ok.form.toast.kind == failed.form.toast.kind)
  {
  }

  /** A client with 80 remaining points who asks for "No-show Reschedule"
      posts a 20-point request under their email and sees a success toast. */
  lemma EightyPointsAffordReschedule(clientData: Fields, notes: string, timestamp: string, postSucceeds: bool)
    requires "Remaining Points" in clientData && clientData["Remaining Points"] == Number(80)
    requires "Email" in clientData && clientData["Email"] == Text("a@x.com")
    ensures var step := AfterSubmit(Services, Form("No-show Reschedule", notes, false, Hidden), clientData, postSucceeds, timestamp);
            step.posted.Some? && step.posted.value.pointsUsed == 20
            && step.posted.value.emailText == Some(Text("a@x.com"))
            && step.form.toast.Shown? && step.form.toast.kind == Success
  {
    EightyPointsScenario(clientData);
    CatalogEntryFirstNamed(1);
    assert Services[1] == Service("No-show Reschedule", 20);
    AcceptedSubmitPostsCatalogPrice(Services, Form("No-show Reschedule", notes, false, Hidden), clientData, postSucceeds, timestamp, 1);
  }

  /** The same client asking for "CRM Setup & Automation" (150 points) posts
      nothing and sees the insufficient-credits error. */
  lemma EightyPointsCannotAffordCrm(clientData: Fields, notes: string, timestamp: string, postSucceeds: bool)
    requires "Remaining Points" in clientData && clientData["Remaining Points"] == Number(80)
    ensures var step := AfterSubmit(Services, Form("CRM Setup & Automation", notes, false, Hidden), clientData, postSucceeds, timestamp);
            step.posted == None
            && step.form.toast == Shown(NotEnoughCredits, Error)
            && step.form.selectedService == "CRM Setup & Automation"
  {
    EightyPointsScenario(clientData);
  }

  /** The dashboard component's form state, updated in place by its handlers. */
  class Dashboard {
    /** The `services` table the form offers and prices requests by. */
    const services: seq<Service>
    var clientData: Fields
    var selectedService: string
    var serviceNotes: string
    var loading: bool
    var toast: Toast
    /** Every payload posted to the webhook, oldest first. */
    var outbox: seq<Payload>

    function CurrentForm(): Form
      reads this
    {
      Form(selectedService, serviceNotes, loading, toast)
    }

    /** The `useState` initial values, with the profile already loaded. */
    constructor(clientData: Fields)
      ensures services == Services && this.clientData == clientData
      ensures CurrentForm() == Form("", "", false, Hidden) && outbox == []
    {
      services := Services;
      this.clientData := clientData;
      selectedService, serviceNotes := "", "";
      loading, toast := false, Hidden;
      outbox := [];
    }

    /** The service drop-down's `onChange`. */
    method SelectService(name: string)
      modifies this`selectedService
      ensures selectedService == name
    {
      selectedService := name;
    }

    /** The notes box's `onChange`. */
    method EditNotes(notes: string)
      modifies this`serviceNotes
      ensures serviceNotes == notes
    {
      serviceNotes := notes;
    }

    /** `validateServiceRequest`: decides on the current selection and raises
        the error toast for a refusal. */
    method Validate() returns (verdict: Validation)
      modifies this`toast
      ensures verdict == ValidateServiceRequest(services, selectedService, clientData)
      ensures toast == ValidationToast(verdict, old(toast))
    {
      if selectedService == "" {
        toast := Shown(SelectAService, Error);
        return NoServiceSelected;
      }
      var found := FindService(services, selectedService);
      if found.None? {
        // `selectedServiceData.points` on `undefined` throws here.
        return UnknownService;
      }
      if found.value.points > RemainingPoints(clientData) {
        toast := Shown(NotEnoughCredits, Error);
        return InsufficientCredits;
      }
      return Valid;
    }

    /** The `try`/`catch`/`finally` of `handleSubmitRequest`: post the payload,
        announce success whether the `fetch` resolved or threw, clear the form
        and drop the busy flag. */
    method Post(payload: Payload, postSucceeds: bool)
      modifies this`outbox, this`toast, this`selectedService, this`serviceNotes, this`loading
      ensures outbox == old(outbox) + [payload]
      ensures toast == Shown(if postSucceeds then Submitted(old(selectedService)) else SubmittedDemoMode, Success)
      ensures selectedService == "" && serviceNotes == "" && !loading
    {
      outbox := outbox + [payload];
      if postSucceeds {
        toast := Shown(Submitted(selectedService), Success);
        selectedService := "";
        serviceNotes := "";
      } else {
        toast := Shown(SubmittedDemoMode, Success);
        selectedService := "";
        serviceNotes := "";
      }
      loading := false;
    }

    /** `handleSubmitRequest`, with `postSucceeds` telling whether the
        webhook `fetch` resolved (whatever HTTP status it answered) rather
        than threw, and `new Date().toISOString()` as `timestamp`. */
    method SubmitRequest(postSucceeds: bool, timestamp: string)
      modifies this
      ensures clientData == old(clientData)
      ensures var step := AfterSubmit(services, old(CurrentForm()), clientData, postSucceeds, timestamp);
              CurrentForm() == step.form
              && outbox == old(outbox) + (if step.posted.Some? then [step.posted.value] else [])
    {
      ghost var step := AfterSubmit(services, CurrentForm(), clientData, postSucceeds, timestamp);
      var verdict := Validate();
      if verdict != Valid {
        assert CurrentForm() == step.form;
        return;
      }
      ValidNamesAffordableService(services, selectedService, clientData);
      loading := true;
      var service := FindService(services, selectedService).value;
      var payload := RequestPayload(clientData, service, serviceNotes, timestamp);
      assert step.posted == Some(payload);
      Post(payload, postSucceeds);
    }
  }
}
