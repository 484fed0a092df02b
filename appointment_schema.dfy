/** The appointment request payloads and their validation: the public and
    staff create payloads, the transition payloads, and the listing's
    search parameters. Each validator takes the raw payload and returns
    the cleaned one or the first check that fails, in field order; for
    each field pydantic's length constraints see the raw value and the
    field's own validator runs after them. */
module AppointmentSchema {
  import opened Common
  import opened Text
  import opened Validators
  import opened AppointmentModel
  import AppointmentCrud
  import Pagination

  // ---------------------------------------------------------------
  // Dates
  // ---------------------------------------------------------------

  /** A datetime as the request carries it: a wall-clock reading in
      seconds and, when aware, its offset from UTC in seconds. */
  datatype DateTime = DateTime(wall: int, offset: Option<int>)

  /** The instant a datetime denotes; a naive one is read as UTC. */
  function Instant(v: DateTime): Timestamp
  {
    v.wall - (if v.offset.Some? then v.offset.value else 0)
  }

  /** validate_appointment_date: a naive value is made UTC, and a value
      earlier than now is refused; now itself is accepted. */
  function ValidateAppointmentDate(v: DateTime, now: Timestamp): (r: Result<DateTime>)
    ensures r.Ok? <==> Instant(v) >= now
    ensures r.Ok? ==> Instant(r.value) == Instant(v) && r.value.offset.Some?
    ensures r.Ok? && v.offset.Some? ==> r.value == v
    ensures r.Ok? && v.offset.None? ==> r.value.wall == v.wall && r.value.offset == Some(0)
    ensures r.Err? ==> r.error == ValidationError("Appointment date must be in the future")
  {
    var w := if v.offset.None? then v.(offset := Some(0)) else v;
    if Instant(w) < now then Err(ValidationError("Appointment date must be in the future"))
    else Ok(w)
  }

  /** A date exactly at the current instant passes; one second earlier
      does not. */
  lemma DateBoundary(now: Timestamp)
    ensures ValidateAppointmentDate(DateTime(now, None), now).Ok?
    ensures ValidateAppointmentDate(DateTime(now - 1, None), now).Err?
    ensures ValidateAppointmentDate(DateTime(now + 3600, Some(3600)), now).Ok?
  {
  }

  /** Making a validated date naive-free again changes nothing: the
      check passes a second time at the same clock. */
  lemma ValidateDateIdempotent(v: DateTime, now: Timestamp)
    requires ValidateAppointmentDate(v, now).Ok?
    ensures ValidateAppointmentDate(ValidateAppointmentDate(v, now).value, now) == ValidateAppointmentDate(v, now)
  {
  }

  // ---------------------------------------------------------------
  // Create payloads
  // ---------------------------------------------------------------

  /** A name: 2 to 100 characters as given, then cleaned. */
  function CleanName(v: string): (r: Result<string>)
    ensures r.Ok? <==> 2 <= |v| <= 100 && !AllSpace(v)
    ensures r.Ok? ==> r.value == Collapse(v) && r.value != [] && |r.value| <= 100
    ensures r.Err? ==> r.error.ValidationError?
  {
    var raw :- CheckLength("name", v, 2, 100);
    var c :- CleanText(Some(raw));
    CollapseShorter(raw);
    Ok(c.value)
  }

  /** A contact: 7 to 20 characters as given, then validate_contact. */
  function CleanContact(v: string): (r: Result<string>)
    ensures r.Ok? <==> 7 <= |v| <= 20 && IsContact(Strip(v))
    ensures r.Ok? ==> r.value == Strip(v) && 7 <= |r.value| <= 20
    ensures r.Err? ==> r.error.ValidationError?
  {
    var raw :- CheckLength("contact", v, 7, 20);
    ValidateContact(raw)
  }

  /** Optional notes: at most 1000 characters as given, then cleaned. */
  function CleanNotes(v: Option<string>): (r: Result<Option<string>>)
    ensures r.Ok? <==> v.None? || (|v.value| <= 1000 && !AllSpace(v.value))
    ensures r.Ok? && v.None? ==> r.value == None
    ensures r.Ok? && v.Some? ==> r.value == Some(Collapse(v.value)) && r.value.value != []
    ensures r.Err? ==> r.error.ValidationError?
  {
    if v.None? then Ok(None)
    else
      var raw :- CheckLength("notes", v.value, 0, 1000);
      CleanText(Some(raw))
  }

  /** CreatePublicAppointment: a request filed by the public. */
  datatype PublicRequest = PublicRequest(name: string, email: string, contact: string, notes: Option<string>)

  function ValidatePublicRequest(p: PublicRequest, checkEmail: FormatCheck): (r: Result<PublicRequest>)
    ensures r.Ok? <==>
              CleanName(p.name).Ok? && checkEmail(p.email).Some?
              && CleanContact(p.contact).Ok? && CleanNotes(p.notes).Ok?
    ensures r.Ok? ==>
              r.value == PublicRequest(Collapse(p.name), checkEmail(p.email).value,
                                       Strip(p.contact), CleanNotes(p.notes).value)
    ensures r.Err? ==> r.error.ValidationError?
  {
    var name :- CleanName(p.name);
    var email :- CheckFormat("email", checkEmail, p.email);
    var contact :- CleanContact(p.contact);
    var notes :- CleanNotes(p.notes);
    Ok(PublicRequest(name, email, contact, notes))
  }

  /** CreateAdminAppointment: a booking made by staff, with its date. */
  datatype AdminRequest = AdminRequest(name: string, email: string, contact: string,
                                       appointmentDate: DateTime, notes: Option<string>)

  function ValidateAdminRequest(p: AdminRequest, checkEmail: FormatCheck, now: Timestamp): (r: Result<AdminRequest>)
    ensures r.Ok? <==>
              CleanName(p.name).Ok? && |p.email| >= 2 && checkEmail(p.email).Some?
              && CleanContact(p.contact).Ok? && Instant(p.appointmentDate) >= now
              && CleanNotes(p.notes).Ok?
    ensures r.Ok? ==>
              r.value.name == Collapse(p.name) && r.value.email == checkEmail(p.email).value
              && r.value.contact == Strip(p.contact)
              && Instant(r.value.appointmentDate) == Instant(p.appointmentDate)
              && r.value.notes == CleanNotes(p.notes).value
    ensures r.Err? ==> r.error.ValidationError?
  {
    var name :- CleanName(p.name);
    var rawEmail :- CheckLength("email", p.email, 2, |p.email|);
    var email :- CheckFormat("email", checkEmail, rawEmail);
    var contact :- CleanContact(p.contact);
    var date :- ValidateAppointmentDate(p.appointmentDate, now);
    var notes :- CleanNotes(p.notes);
    Ok(AdminRequest(name, email, contact, date, notes))
  }

  /** A validated request's name and contact fit their columns; only the
      email, whose length EmailStr bounds on its own terms, may not. */
  lemma ValidatedFitsNameAndContact(p: PublicRequest, q: AdminRequest, checkEmail: FormatCheck, now: Timestamp)
    ensures ValidatePublicRequest(p, checkEmail).Ok? ==>
              |ValidatePublicRequest(p, checkEmail).value.name| <= NameWidth
              && |ValidatePublicRequest(p, checkEmail).value.contact| <= ContactWidth
    ensures ValidateAdminRequest(q, checkEmail, now).Ok? ==>
              |ValidateAdminRequest(q, checkEmail, now).value.name| <= NameWidth
              && |ValidateAdminRequest(q, checkEmail, now).value.contact| <= ContactWidth
  {
  }

  /** The length bound sees the raw name, so a name of two characters one
      of which is whitespace passes and is stored one character long. */
  lemma NameMayShrinkBelowMinimum()
    ensures CleanName("a ") == Ok("a")
  {
    assert IsSpace(' ') && !IsSpace('a');
    assert Strip("a ") == "a" by {
      assert TrimStart("a ") == "a ";
      assert "a "[..1] == "a";
    }
    assert Words("a") == ["a"] by {
      assert WordLength("a") == 1;
      assert "a"[..1] == "a" && "a"[1..] == [];
    }
  }

  // ---------------------------------------------------------------
  // Responses
  // ---------------------------------------------------------------

  /** AppointmentResponse read from a stored row: the fields it inherits
      from AppointmentBase (name, email, contact, notes) are validated
      again, in that order; the id, status, reason, date and timestamps
      are taken as stored. */
  function ResponseRow(a: Appointment, checkEmail: FormatCheck): (r: Result<Appointment>)
    ensures r.Ok? <==>
              CleanName(a.name).Ok? && |a.email| >= 2 && checkEmail(a.email).Some?
              && CleanContact(a.contact).Ok? && CleanNotes(a.notes).Ok?
    ensures r.Ok? ==>
              r.value == a.(name := Collapse(a.name), email := checkEmail(a.email).value,
                            contact := Strip(a.contact), notes := CleanNotes(a.notes).value)
    ensures r.Err? ==> r.error.ValidationError?
  {
    var name :- CleanName(a.name);
    var rawEmail :- CheckLength("email", a.email, 2, |a.email|);
    var email :- CheckFormat("email", checkEmail, rawEmail);
    var contact :- CleanContact(a.contact);
    var notes :- CleanNotes(a.notes);
    Ok(a.(name := name, email := email, contact := contact, notes := notes))
  }

  /** The item list of AppointmentListResponse: every row of the page
      through ResponseRow; the first row refused decides the error. */
  function ResponseRows(rows: seq<Appointment>, checkEmail: FormatCheck): (r: Result<seq<Appointment>>)
    ensures r.Ok? <==> forall k :: 0 <= k < |rows| ==> ResponseRow(rows[k], checkEmail).Ok?
    ensures r.Ok? ==>
              |r.value| == |rows|
              && forall k :: 0 <= k < |rows| ==> r.value[k] == ResponseRow(rows[k], checkEmail).value
    ensures r.Err? ==>
              r.error.ValidationError?
              && exists k :: 0 <= k < |rows| && ResponseRow(rows[k], checkEmail) == Err(r.error)
  {
    Pagination.ValidateItems(rows, a => ResponseRow(a, checkEmail))
  }

  /** A row the listing returns is listed again unchanged, provided its
      cleaned name kept two characters and the e-mail checker leaves its
      own output alone. */
  lemma ResponseRowStable(a: Appointment, checkEmail: FormatCheck)
    requires ResponseRow(a, checkEmail).Ok?
    requires |ResponseRow(a, checkEmail).value.name| >= 2
    requires var e := ResponseRow(a, checkEmail).value.email; |e| >= 2 && checkEmail(e) == Some(e)
    ensures ResponseRow(ResponseRow(a, checkEmail).value, checkEmail) == ResponseRow(a, checkEmail)
  {
    var b := ResponseRow(a, checkEmail).value;
    CleanNameStable(a.name);
    CleanContactStable(a.contact);
    CleanNotesStable(a.notes);
    assert CleanName(b.name) == Ok(b.name);
    assert CleanContact(b.contact) == Ok(b.contact);
    assert CleanNotes(b.notes) == Ok(b.notes);
  }

  lemma CleanNameStable(v: string)
    requires CleanName(v).Ok? && |Collapse(v)| >= 2
    ensures CleanName(Collapse(v)) == Ok(Collapse(v))
  {
    CollapseIdempotent(v);
    CleanedNotBlank(v);
  }

  lemma CleanContactStable(v: string)
    requires CleanContact(v).Ok?
    ensures CleanContact(Strip(v)) == Ok(Strip(v))
  {
    ValidateContactStable(v);
  }

  lemma CleanNotesStable(v: Option<string>)
    requires CleanNotes(v).Ok?
    ensures CleanNotes(CleanNotes(v).value) == CleanNotes(v)
  {
    if v.Some? {
      CollapseIdempotent(v.value);
      CollapseShorter(v.value);
      CleanedNotBlank(v.value);
    }
  }

  /** A non-empty collapsed value is not all whitespace. */
  lemma CleanedNotBlank(v: string)
    requires Collapse(v) != []
    ensures !AllSpace(Collapse(v))
  {
    JoinEnds(Words(Strip(v)));
  }

  /** The listing rejects what the create payload let through: a request
      named "a " is stored as "a", which AppointmentResponse refuses, and
      so are notes of whitespace only. */
  lemma ShrunkNameFailsListing(a: Appointment, checkEmail: FormatCheck)
    ensures CleanName("a ") == Ok("a")
    ensures ResponseRow(a.(name := "a"), checkEmail).Err?
    ensures ResponseRow(a.(notes := Some("   ")), checkEmail).Err?
  {
    NameMayShrinkBelowMinimum();
    assert CleanName("a").Err? by {
      assert |"a"| == 1;
    }
    assert CleanNotes(Some("   ")).Err? by {
      assert AllSpace("   ") by {
        assert IsSpace(' ');
      }
    }
  }

  // ---------------------------------------------------------------
  // Transition payloads
  // ---------------------------------------------------------------

  /** ConfirmAppointment: the date, and notes checked for length only. */
  datatype ConfirmRequest = ConfirmRequest(appointmentDate: DateTime, notes: Option<string>)

  function ValidateConfirm(p: ConfirmRequest, now: Timestamp): (r: Result<ConfirmRequest>)
    ensures r.Ok? <==> Instant(p.appointmentDate) >= now && (p.notes.Some? ==> |p.notes.value| <= 1000)
    ensures r.Ok? ==> r.value.notes == p.notes
                      && r.value.appointmentDate == ValidateAppointmentDate(p.appointmentDate, now).value
    ensures r.Err? ==> r.error.ValidationError?
  {
    var date :- ValidateAppointmentDate(p.appointmentDate, now);
    if p.notes.Some? && |p.notes.value| > 1000 then Err(ValidationError("notes"))
    else Ok(ConfirmRequest(date, p.notes))
  }

  /** RescheduleAppointment: only the new date. */
  datatype RescheduleRequest = RescheduleRequest(appointmentDate: DateTime)

  function ValidateReschedule(p: RescheduleRequest, now: Timestamp): (r: Result<RescheduleRequest>)
    ensures r.Ok? <==> Instant(p.appointmentDate) >= now
    ensures r.Ok? ==> r.value.appointmentDate == ValidateAppointmentDate(p.appointmentDate, now).value
    ensures r.Err? ==> r.error == ValidationError("Appointment date must be in the future")
  {
    var date :- ValidateAppointmentDate(p.appointmentDate, now);
    Ok(RescheduleRequest(date))
  }

  /** CancelAppointment, used for both cancel and reject: a reason of 3 to
      500 characters as given, collapsed and not left empty. */
  datatype CancelRequest = CancelRequest(cancellationReason: string)

  function ValidateCancel(p: CancelRequest): (r: Result<CancelRequest>)
    ensures r.Ok? <==> 3 <= |p.cancellationReason| <= 500 && !AllSpace(p.cancellationReason)
    ensures r.Ok? ==> r.value.cancellationReason == Collapse(p.cancellationReason)
                      && r.value.cancellationReason != []
                      && |r.value.cancellationReason| <= 500
    ensures 3 <= |p.cancellationReason| <= 500 && AllSpace(p.cancellationReason) ==>
              r == Err(ValidationError("Cancellation reason cannot be empty"))
    ensures r.Err? ==> r.error.ValidationError?
  {
    var raw :- CheckLength("cancellation_reason", p.cancellationReason, 3, 500);
    var c := Collapse(raw);
    CollapseEmpty(raw);
    CollapseShorter(raw);
    if c == [] then Err(ValidationError("Cancellation reason cannot be empty"))
    else Ok(CancelRequest(c))
  }

  /** CompleteAppointment: notes up to 1000 characters, collapsed; unlike
      the other cleaners, whitespace-only notes become empty, not an error. */
  datatype CompleteRequest = CompleteRequest(notes: Option<string>)

  function ValidateComplete(p: CompleteRequest): (r: Result<CompleteRequest>)
    ensures r.Ok? <==> p.notes.None? || |p.notes.value| <= 1000
    ensures r.Ok? && p.notes.None? ==> r.value.notes == None
    ensures r.Ok? && p.notes.Some? ==> r.value.notes == Some(Collapse(p.notes.value))
    ensures r.Ok? && p.notes.Some? ==> (r.value.notes.value == [] <==> AllSpace(p.notes.value))
    ensures r.Err? ==> r.error.ValidationError?
  {
    if p.notes.None? then Ok(CompleteRequest(None))
    else
      var raw :- CheckLength("notes", p.notes.value, 0, 1000);
      CollapseEmpty(raw);
      Ok(CompleteRequest(Some(Collapse(raw))))
  }

  // ---------------------------------------------------------------
  // Search parameters
  // ---------------------------------------------------------------

  /** AppointmentSearchParams as received. The status arrives as its enum
      value; dates as day numbers. */
  datatype SearchParams = SearchParams(
    search: Option<string>,
    name: Option<string>,
    contact: Option<string>,
    email: Option<string>,
    status: Option<string>,
    startDate: Option<Day>,
    endDate: Option<Day>,
    createdAfter: Option<Day>,
    createdBefore: Option<Day>,
    updatedAfter: Option<Day>,
    updatedBefore: Option<Day>)

  /** validate_date_range: each after/before pair in order (equal is
      fine); start_date and end_date are not compared. */
  function CheckRanges(p: SearchParams): (e: Option<Error>)
    ensures e == None <==>
              (p.createdAfter.Some? && p.createdBefore.Some? ==> p.createdAfter.value <= p.createdBefore.value)
              && (p.updatedAfter.Some? && p.updatedBefore.Some? ==> p.updatedAfter.value <= p.updatedBefore.value)
    ensures p.createdAfter.Some? && p.createdBefore.Some? && p.createdAfter.value > p.createdBefore.value ==>
              e == Some(ValidationError("created_after must be before created_before"))
    ensures && !(p.createdAfter.Some? && p.createdBefore.Some? && p.createdAfter.value > p.createdBefore.value)
            && p.updatedAfter.Some? && p.updatedBefore.Some? && p.updatedAfter.value > p.updatedBefore.value
            ==> e == Some(ValidationError("updated_after must be before updated_before"))
    ensures e.Some? ==> e.value.ValidationError?
  {
    if p.createdAfter.Some? && p.createdBefore.Some? && p.createdAfter.value > p.createdBefore.value then
      Some(ValidationError("created_after must be before created_before"))
    else if p.updatedAfter.Some? && p.updatedBefore.Some? && p.updatedAfter.value > p.updatedBefore.value then
      Some(ValidationError("updated_after must be before updated_before"))
    else None
  }

  /** The validated parameters as the repository's filter set. */
  function ValidateSearch(p: SearchParams, checkEmail: FormatCheck): (r: Result<AppointmentCrud.Filters>)
    ensures r.Ok? <==>
              (p.search.Some? ==> 1 <= |p.search.value| <= 100)
              && (p.email.Some? ==> checkEmail(p.email.value).Some?)
              && (p.status.Some? ==> ParseStatus(p.status.value).Some?)
              && CheckRanges(p) == None
    ensures r.Ok? ==>
              r.value.search == StripGiven(p.search) && r.value.name == StripGiven(p.name)
              && r.value.contact == StripGiven(p.contact)
              && r.value.email == Checked(checkEmail, p.email)
              && (r.value.status.None? <==> p.status.None?)
              && (r.value.status.Some? ==> StatusValue(r.value.status.value) == p.status.value)
              && r.value.startDate == p.startDate && r.value.endDate == p.endDate
              && r.value.createdAfter == p.createdAfter && r.value.createdBefore == p.createdBefore
              && r.value.updatedAfter == p.updatedAfter && r.value.updatedBefore == p.updatedBefore
    ensures r.Err? ==> r.error.ValidationError?
  {
    var search :-
      if p.search.None? then Ok(None)
      else
        var raw :- CheckLength("search", p.search.value, 1, 100);
        Ok(StripGiven(Some(raw)));
    var email :-
      if p.email.None? then Ok(None)
      else
        var e :- CheckFormat("email", checkEmail, p.email.value);
        Ok(Some(e));
    var status :-
      if p.status.None? then Ok(None)
      else if ParseStatus(p.status.value).None? then Err(ValidationError("status"))
      else Ok(ParseStatus(p.status.value));
    var e := CheckRanges(p);
    if e.Some? then Err(e.value)
    else
      Ok(AppointmentCrud.Filters(status, p.startDate, p.endDate, p.createdAfter, p.createdBefore,
                                 p.updatedAfter, p.updatedBefore, StripGiven(p.name),
                                 StripGiven(p.contact), email, search))
  }

  /** A validated status filter keeps exactly the rows whose stored status
      has the value the caller gave. */
  lemma SearchStatusFilter(p: SearchParams, checkEmail: FormatCheck, a: Appointment)
    requires ValidateSearch(p, checkEmail).Ok? && p.status.Some?
    ensures var f := ValidateSearch(p, checkEmail).value;
            AppointmentCrud.Matches(a, f) ==> StatusValue(a.status) == p.status.value
    ensures var f := ValidateSearch(p, checkEmail).value;
            (AppointmentCrud.Matches(a, f.(status := None)) && StatusValue(a.status) == p.status.value)
            ==> AppointmentCrud.Matches(a, f)
  {
    var f := ValidateSearch(p, checkEmail).value;
    if StatusValue(a.status) == p.status.value {
      ParseStatusValue(a.status);
    }
  }

  /** Equal bounds are allowed, a reversed created range is refused, and
      a reversed start/end pair is let through. */
  lemma RangeExamples(p: SearchParams, d: Day)
    ensures CheckRanges(p.(createdAfter := Some(d), createdBefore := Some(d),
                           updatedAfter := None, updatedBefore := None)) == None
    ensures CheckRanges(p.(createdAfter := Some(d + 1), createdBefore := Some(d)))
              == Some(ValidationError("created_after must be before created_before"))
    ensures CheckRanges(p.(createdAfter := None, updatedAfter := Some(d + 1), updatedBefore := Some(d)))
              == Some(ValidationError("updated_after must be before updated_before"))
    ensures CheckRanges(p.(startDate := Some(d + 1), endDate := Some(d))) == CheckRanges(p)
  {
  }

  /** The search schema accepts 9999-12-31 as every upper bound, yet the
      listing cannot build such a filter: adding the day overflows. */
  lemma LastDayAcceptedThenOverflows(checkEmail: FormatCheck)
    ensures var p := SearchParams(None, None, None, None, None, None, Some(LastDay), None, Some(LastDay), None, Some(LastDay));
            && ValidateSearch(p, checkEmail).Ok?
            && AppointmentCrud.UpperBoundOverflows(ValidateSearch(p, checkEmail).value)
  {
  }
}
