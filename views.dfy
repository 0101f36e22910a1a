/** The two booking views: `CheckAppointmentView.get` reports whether a slot
    is booked, `CreateAppointmentView.post` validates a booking request,
    checks the slot, and inserts the event when the slot is free. Each view is
    a function of the request, the token file's content and the external
    behaviour, giving the response, the token file afterwards and the effects. */
module Views {
  import opened Wrappers
  import opened External
  import opened TokenStore
  import opened Availability

  /** The JSON bodies the views answer with. */
  datatype Payload =
    | StatusPayload(status: string)                  // {'status': 'True' | 'False'}
    | ErrorPayload(error: string)                    // {'error': <fixed text>}
    | CaughtPayload(context: string, cause: Fault)   // {'error': context + str(exception)}
    | MessagePayload(message: string)                // {'message': ...}
    | SuccessPayload(status: string, date: string, name: string, email: string, contactNumber: string)

  /** A JSON response with its HTTP status, or a redirect. */
  datatype Response = JsonResponse(status: int, payload: Payload) | Redirect(location: string)

  /** The four fields of a booking request; `None` when the key is absent. */
  datatype CreateRequest = CreateRequest(
    dateTime: Option<string>, name: Option<string>, email: Option<string>, contactNumber: Option<string>)

  const CalendarTimeZone := "America/Los_Angeles"
  const AlreadyBookedMessage := "Sorry, date already booked. Choose another one."

  /** Python truthiness of an optional string field. */
  predicate Truthy(field: Option<string>)
  {
    field.Some? && field.value != ""
  }

  predicate AllFieldsPresent(req: CreateRequest)
  {
    Truthy(req.dateTime) && Truthy(req.name) && Truthy(req.email) && Truthy(req.contactNumber)
  }

  /** `s.split('T')[0]`: the text before the first 'T', or all of `s`. */
  function DatePart(s: string): (r: string)
    ensures r <= s
    ensures 'T' !in r
    ensures r == s || s[|r|] == 'T'
  {
    if s == [] || s[0] == 'T' then []
    else [s[0]] + DatePart(s[1..])
  }

  /** The date of an ISO 8601 date-time is what precedes its 'T'. */
  lemma {:induction false} DatePartOfDateTime(date: string, time: string)
    requires 'T' !in date
    ensures DatePart(date + "T" + time) == date
  {
    if date != [] {
      assert (date + "T" + time)[1..] == date[1..] + "T" + time;
      DatePartOfDateTime(date[1..], time);
    } else {
      assert (date + "T" + time)[0] == 'T';
    }
  }

  /** The reminders every booked event carries: an email one day before and
      a popup ten minutes before. */
  function BookingReminders(): seq<Reminder>
  {
    [Reminder("email", 24 * 60), Reminder("popup", 10)]
  }

  /** The event body the create view sends to the provider. */
  function BookingEvent(name: string, email: string, contactNumber: string,
                        dateTime: string, end: int): (e: EventSpec)
    // the booking can be read back from the event
    ensures e.summary == name && e.attendees == [email]
    ensures e.description == "Contact Number: " + contactNumber
    ensures e.start.dateTime == dateTime && e.end.minute == end
    // both ends in the calendar's zone, and only the two fixed reminders
    ensures e.start.timeZone == e.end.timeZone == "America/Los_Angeles"
    ensures !e.useDefaultReminders
    ensures e.overrides == [Reminder("email", 24 * 60), Reminder("popup", 10)]
  {
    EventSpec(
      name,
      "Contact Number: " + contactNumber,
      StartTime(dateTime, CalendarTimeZone),
      EndTime(end, CalendarTimeZone),
      [email],
      false,
      BookingReminders())
  }

  /** `CheckAppointmentView.get` with the `date_time` query parameter. */
  function CheckAppointmentGet(dateTime: Option<string>, stored: Option<Credential>, ext: Externals)
    : (r: Step<Response>)
    ensures !Truthy(dateTime) ==>
              r == Step(JsonResponse(400, ErrorPayload("date_time query parameter is required")), stored, [])
    ensures r.value == JsonResponse(200, StatusPayload("True")) <==>
              Truthy(dateTime) && CheckAppointment(dateTime.value, stored, ext).value == Ok(true)
    ensures r.value == JsonResponse(200, StatusPayload("False")) <==>
              Truthy(dateTime) && CheckAppointment(dateTime.value, stored, ext).value == Ok(false)
    ensures r.value.JsonResponse? && r.value.status == 500 <==>
              Truthy(dateTime) && CheckAppointment(dateTime.value, stored, ext).value.Err?
    ensures r.value.JsonResponse? && r.value.status == 500 ==>
              r.value.payload == CaughtPayload("Error checking appointment: ",
                                               CheckAppointment(dateTime.value, stored, ext).value.error)
    // the view touches the token file and the provider only through the check
    ensures Truthy(dateTime) ==>
              r.store == CheckAppointment(dateTime.value, stored, ext).store
              && r.effects == CheckAppointment(dateTime.value, stored, ext).effects
    ensures !r.value.Redirect? && NoInsert(r.effects)
  {
    if !Truthy(dateTime) then
      Step(JsonResponse(400, ErrorPayload("date_time query parameter is required")), stored, [])
    else
      var check := CheckAppointment(dateTime.value, stored, ext);
      match check.value
      case Err(fault) =>
        Step(JsonResponse(500, CaughtPayload("Error checking appointment: ", fault)), check.store, check.effects)
      case Ok(booked) =>
        Step(JsonResponse(200, StatusPayload(if booked then "True" else "False")), check.store, check.effects)
  }

  /** Any exception inside the create view's `try` becomes this response. */
  function CreateFailed(fault: Fault): Response
  {
    JsonResponse(500, CaughtPayload("Error creating event: ", fault))
  }

  /** The create view's steps after a free slot was found: reload the
      credential, parse the raw time for the event's end, insert the event
      and answer. `after` is the token file and `prior` the effects left by
      the check. */
  function BookFreeSlot(req: CreateRequest, after: Option<Credential>, prior: seq<Effect>, ext: Externals)
    : (r: Step<Response>)
    requires AllFieldsPresent(req)
    // a token file the check found is found again: no redirect
    ensures after.Some? ==> !r.value.Redirect?
    ensures after.None? ==> r == Step(Redirect("/authorize"), None, prior)
    ensures r.store == LoadCredentials(after, ext.refresh).store
    // the first step that fails decides the 500 answer; otherwise SUCCESS
    ensures var raw := req.dateTime.value;
            var load := LoadCredentials(after, ext.refresh);
            (load.value.RefreshRaised? ==>
               r == Step(CreateFailed(RefreshFailed(load.value.detail)), load.store, prior + load.effects))
            && (load.value.Loaded? && ext.fromIsoFormat(raw).None? ==>
                  r == Step(CreateFailed(IsoFormatInvalid(raw)), load.store, prior + load.effects))
            && (load.value.Loaded? && ext.fromIsoFormat(raw).Some? ==>
                  var event := BookingEvent(req.name.value, req.email.value, req.contactNumber.value, raw,
                                            ext.fromIsoFormat(raw).value + SlotMinutes);
                  var reply := ext.insert(load.value.cred, event);
                  r.effects == prior + load.effects + [InsertEvent(event)]
                  && (reply.Ok? ==>
                        r.value == JsonResponse(200, SuccessPayload("SUCCESS", DatePart(raw), req.name.value,
                                                                   req.email.value, req.contactNumber.value)))
                  && (reply.Err? ==> r.value == CreateFailed(ProviderFailed(reply.error))))
    // at most one insert, as the last effect, of the booking's event
    ensures NoInsert(prior) ==>
              forall spec | InsertEvent(spec) in r.effects ::
                ext.fromIsoFormat(req.dateTime.value).Some?
                && r.effects[|r.effects| - 1] == InsertEvent(spec)
                && NoInsert(r.effects[..|r.effects| - 1])
                && spec == BookingEvent(req.name.value, req.email.value, req.contactNumber.value,
                                        req.dateTime.value, ext.fromIsoFormat(req.dateTime.value).value + SlotMinutes)
    ensures r.value.JsonResponse? && r.value.payload.SuccessPayload? ==>
              r.value == JsonResponse(200, SuccessPayload("SUCCESS", DatePart(req.dateTime.value),
                                                          req.name.value, req.email.value, req.contactNumber.value))
              && r.effects != [] && r.effects[|r.effects| - 1].InsertEvent?
    ensures r.value.JsonResponse? && r.value.status == 500 ==>
              r.value.payload.CaughtPayload? && r.value.payload.context == "Error creating event: "
    ensures r.value.JsonResponse? ==> (r.value.status == 200 <==> r.value.payload.SuccessPayload?)
  {
    var dateTime := req.dateTime.value;
    var load := LoadCredentials(after, ext.refresh);
    var effects := prior + load.effects;
    match load.value
    case NoTokenFile => Step(Redirect("/authorize"), load.store, effects)
    case RefreshRaised(detail) => Step(CreateFailed(RefreshFailed(detail)), load.store, effects)
    case Loaded(cred) =>
      match ext.fromIsoFormat(dateTime)
      case None => Step(CreateFailed(IsoFormatInvalid(dateTime)), load.store, effects)
      case Some(start) =>
        var event := BookingEvent(req.name.value, req.email.value, req.contactNumber.value,
                                  dateTime, start + SlotMinutes);
        var inserted := effects + [InsertEvent(event)];
        match ext.insert(cred, event)
        case Err(detail) => Step(CreateFailed(ProviderFailed(detail)), load.store, inserted)
        case Ok(_) =>
          Step(JsonResponse(200, SuccessPayload("SUCCESS", DatePart(dateTime), req.name.value,
                                                req.email.value, req.contactNumber.value)),
               load.store, inserted)
  }

  /** `CreateAppointmentView.post`; `body` is `None` when the request body is
      not JSON. */
  function CreateAppointmentPost(body: Option<CreateRequest>, stored: Option<Credential>, ext: Externals)
    : (r: Step<Response>)
    ensures body.None? ==> r == Step(JsonResponse(400, ErrorPayload("Invalid JSON")), stored, [])
    // a falsy or missing field stops the request before any check or insert
    ensures body.Some? && !AllFieldsPresent(body.value) ==>
              r == Step(JsonResponse(400, ErrorPayload("All fields are required")), stored, [])
    // without a token file the failure is an error payload, never a redirect
    ensures body.Some? && AllFieldsPresent(body.value) && stored.None? ==>
              r == Step(CreateFailed(Raised("No tokens found")), None, [])
    ensures !r.value.Redirect?
    // a booked slot is refused and nothing is inserted
    ensures body.Some? && AllFieldsPresent(body.value)
            && CheckAppointment(body.value.dateTime.value, stored, ext).value == Ok(true) ==>
              var check := CheckAppointment(body.value.dateTime.value, stored, ext);
              r == Step(JsonResponse(400, MessagePayload(AlreadyBookedMessage)), check.store, check.effects)
              && NoInsert(r.effects)
    // an insert is the last effect, happens once, only for a slot found free,
    // and sends the booking's event for the 30 minutes from the raw start time
    ensures forall spec | InsertEvent(spec) in r.effects ::
              body.Some? && AllFieldsPresent(body.value)
              && CheckAppointment(body.value.dateTime.value, stored, ext).value == Ok(false)
              && ext.fromIsoFormat(body.value.dateTime.value).Some?
              && r.effects[|r.effects| - 1] == InsertEvent(spec)
              && NoInsert(r.effects[..|r.effects| - 1])
              && spec == BookingEvent(body.value.name.value, body.value.email.value,
                                      body.value.contactNumber.value, body.value.dateTime.value,
                                      ext.fromIsoFormat(body.value.dateTime.value).value + SlotMinutes)
    // a check that raises ends the request with that exception as a 500
    ensures body.Some? && AllFieldsPresent(body.value)
            && CheckAppointment(body.value.dateTime.value, stored, ext).value.Err? ==>
              var check := CheckAppointment(body.value.dateTime.value, stored, ext);
              r == Step(CreateFailed(check.value.error), check.store, check.effects)
    // a free slot continues with the reload, parse and insert of `BookFreeSlot`
    // on the token file and effects the check left
    ensures body.Some? && AllFieldsPresent(body.value)
            && CheckAppointment(body.value.dateTime.value, stored, ext).value == Ok(false) ==>
              var check := CheckAppointment(body.value.dateTime.value, stored, ext);
              r == BookFreeSlot(body.value, check.store, check.effects, ext)
    // success echoes the request, dates it by the text before 'T', and
    // follows an insert
    ensures r.value.JsonResponse? && r.value.payload.SuccessPayload? ==>
              body.Some? && AllFieldsPresent(body.value)
              && r.value == JsonResponse(200, SuccessPayload("SUCCESS", DatePart(body.value.dateTime.value),
                                         body.value.name.value, body.value.email.value,
                                         body.value.contactNumber.value))
              && r.effects != [] && r.effects[|r.effects| - 1].InsertEvent?
    // every other outcome of the try block is a 500 error payload
    ensures r.value.JsonResponse? && r.value.status == 500 ==>
              r.value.payload.CaughtPayload? && r.value.payload.context == "Error creating event: "
    ensures r.value.JsonResponse? && r.value.status == 200 <==> r.value.payload.SuccessPayload?
  {
    match body
    case None => Step(JsonResponse(400, ErrorPayload("Invalid JSON")), stored, [])
    case Some(req) =>
      if !AllFieldsPresent(req) then
        Step(JsonResponse(400, ErrorPayload("All fields are required")), stored, [])
      else
        var check := CheckAppointment(req.dateTime.value, stored, ext);
        match check.value
        case Err(fault) => Step(CreateFailed(fault), check.store, check.effects)
        case Ok(booked) =>
          if booked then
            Step(JsonResponse(400, MessagePayload(AlreadyBookedMessage)), check.store, check.effects)
          else
            BookFreeSlot(req, check.store, check.effects, ext)
  }

  /** The create view inserts only when the check view, asked about the same
      time with the same token file, would have answered "False". */
  lemma InsertOnlyWhenCheckViewReportsFree(body: Option<CreateRequest>, stored: Option<Credential>,
                                           ext: Externals, spec: EventSpec)
    requires InsertEvent(spec) in CreateAppointmentPost(body, stored, ext).effects
    ensures body.Some?
    ensures CheckAppointmentGet(body.value.dateTime, stored, ext).value
            == JsonResponse(200, StatusPayload("False"))
  {
  }

  /** For a complete request, the create view refuses the slot as booked
      exactly when the check view reports it booked. */
  lemma CreateRefusesExactlyWhatCheckViewReportsBooked(req: CreateRequest, stored: Option<Credential>,
                                                       ext: Externals)
    requires AllFieldsPresent(req)
    ensures CreateAppointmentPost(Some(req), stored, ext).value
            == JsonResponse(400, MessagePayload("Sorry, date already booked. Choose another one."))
            <==> CheckAppointmentGet(req.dateTime, stored, ext).value == JsonResponse(200, StatusPayload("True"))
  {
  }

  /** When the requested time has no space, the created event covers exactly
      the slot whose availability was checked. */
  lemma EventCoversCheckedSlot(body: Option<CreateRequest>, stored: Option<Credential>,
                               ext: Externals, spec: EventSpec)
    requires InsertEvent(spec) in CreateAppointmentPost(body, stored, ext).effects
    requires body.Some? && body.value.dateTime.Some? && ' ' !in body.value.dateTime.value
    ensures ListEvents(Slot(spec.end.minute - SlotMinutes))
            in CreateAppointmentPost(body, stored, ext).effects
  {
    var r := CreateAppointmentPost(body, stored, ext);
    var dateTime := body.value.dateTime.value;
    var check := CheckAppointment(dateTime, stored, ext);
    var t := ext.fromIsoFormat(dateTime).value;
    assert check.effects == LoadCredentials(stored, ext.refresh).effects + [ListEvents(Slot(t))];
    assert r.effects[..|check.effects|] == check.effects;
    assert ListEvents(Slot(t)) in r.effects[..|check.effects|];
  }

  /** The event's end is computed from the raw time, not the normalised one:
      a time that parses only after its spaces become '+' passes the check
      and then fails with a 500 error, after the slot was listed and before
      any insert. */
  lemma RawTimeParsedAgainForEventEnd(req: CreateRequest, stored: Option<Credential>, ext: Externals)
    requires AllFieldsPresent(req)
    requires ext.fromIsoFormat(req.dateTime.value).None?
    requires CheckAppointment(req.dateTime.value, stored, ext).value == Ok(false)
    requires LoadCredentials(CheckAppointment(req.dateTime.value, stored, ext).store, ext.refresh).value.Loaded?
    ensures ext.fromIsoFormat(Normalize(req.dateTime.value)).Some?
    ensures CreateAppointmentPost(Some(req), stored, ext).value == CreateFailed(IsoFormatInvalid(req.dateTime.value))
    ensures NoInsert(CreateAppointmentPost(Some(req), stored, ext).effects)
    ensures !NoListing(CreateAppointmentPost(Some(req), stored, ext).effects)
  {
    var check := CheckAppointment(req.dateTime.value, stored, ext);
    var t := ext.fromIsoFormat(Normalize(req.dateTime.value)).value;
    assert ListEvents(Slot(t)) in check.effects;
  }
}
