/** The center request payloads and their validation. Unlike the
    appointment payloads, the text fields of a new center are cleaned
    before pydantic's length constraints see them; the update payload is
    only length-checked. */
module CenterSchema {
  import opened Common
  import opened Text
  import opened Validators
  import opened CenterModel
  import Pagination

  // ---------------------------------------------------------------
  // Create
  // ---------------------------------------------------------------

  /** clean_strings in "before" mode, then the field's length bounds on
      the cleaned value. */
  function CleanThenBound(field: string, v: string, lo: nat, hi: nat): (r: Result<string>)
    ensures r.Ok? <==> !AllSpace(v) && lo <= |Collapse(v)| <= hi
    ensures r.Ok? ==> r.value == Collapse(v) && r.value != []
    ensures AllSpace(v) ==> r == Err(ValidationError("Field cannot be empty or whitespace"))
    ensures r.Err? ==> r.error.ValidationError?
  {
    var c :- CleanText(Some(v));
    CheckLength(field, c.value, lo, hi)
  }

  /** An optional text field cleaned and bounded the same way. */
  function CleanThenBoundOptional(field: string, v: Option<string>, lo: nat, hi: nat): (r: Result<Option<string>>)
    ensures r.Ok? <==> v.None? || CleanThenBound(field, v.value, lo, hi).Ok?
    ensures r.Ok? ==> r.value == if v.None? then None else Some(Collapse(v.value))
    ensures r.Err? ==> r.error.ValidationError?
  {
    if v.None? then Ok(None)
    else
      var c :- CleanThenBound(field, v.value, lo, hi);
      Ok(Some(c))
  }

  /** The pincode: cleaned, 4 to 10 characters, then validate_pincode. */
  function CleanPincode(v: string): (r: Result<string>)
    ensures r.Ok? <==> !AllSpace(v) && IsPincode(Collapse(v))
    ensures r.Ok? ==> r.value == Collapse(v) && IsPincode(r.value)
    ensures r.Err? ==> r.error.ValidationError?
  {
    var c :- CleanThenBound("pincode", v, 4, 10);
    CleanedEnds(v);
    ValidatePincode(c)
  }

  /** A cleaned value has no whitespace at either end. */
  lemma CleanedEnds(v: string)
    ensures Collapse(v) == [] || (!IsSpace(Collapse(v)[0]) && !IsSpace(Collapse(v)[|Collapse(v)| - 1]))
  {
    JoinEnds(Words(Strip(v)));
  }

  /** Because cleaning runs first, the "$"-before-newline quirk of the
      pincode pattern cannot let a newline through. */
  lemma CleanPincodeNoNewline(v: string)
    requires CleanPincode(v).Ok?
    ensures forall i :: 0 <= i < |CleanPincode(v).value| ==> CleanPincode(v).value[i] != '\n'
  {
  }

  /** CenterCreate as received. */
  datatype CenterRequest = CenterRequest(
    district: string,
    services: Services,
    name: string,
    contact: string,
    address: string,
    location: string,
    landmark: Option<string>,
    pincode: string,
    email: Option<string>,
    clinicUrl: Option<string>,
    googleMapUrl: Option<string>)

  /** The fields in declaration order; the URLs go through the same
      third-party check. */
  function ValidateCenterCreate(p: CenterRequest, checkEmail: FormatCheck, checkUrl: FormatCheck)
    : (r: Result<CenterRequest>)
    ensures r.Ok? <==>
              && CleanThenBound("district", p.district, 2, 100).Ok?
              && CleanThenBound("name", p.name, 2, 100).Ok?
              && 7 <= |p.contact| <= 20 && IsContact(Strip(p.contact))
              && CleanThenBound("address", p.address, 5, 1000).Ok?
              && CleanThenBound("location", p.location, 2, 100).Ok?
              && CleanThenBoundOptional("landmark", p.landmark, 2, 100).Ok?
              && CleanPincode(p.pincode).Ok?
              && (p.email.Some? ==> checkEmail(p.email.value).Some?)
              && (p.clinicUrl.Some? ==> checkUrl(p.clinicUrl.value).Some?)
              && (p.googleMapUrl.Some? ==> checkUrl(p.googleMapUrl.value).Some?)
    ensures r.Ok? ==>
              && r.value.district == Collapse(p.district) && r.value.name == Collapse(p.name)
              && r.value.contact == Strip(p.contact) && r.value.address == Collapse(p.address)
              && r.value.location == Collapse(p.location)
              && r.value.landmark == (if p.landmark.None? then None else Some(Collapse(p.landmark.value)))
              && r.value.pincode == Collapse(p.pincode) && r.value.services == p.services
              && r.value.email == Checked(checkEmail, p.email)
              && r.value.clinicUrl == Checked(checkUrl, p.clinicUrl)
              && r.value.googleMapUrl == Checked(checkUrl, p.googleMapUrl)
    ensures r.Err? ==> r.error.ValidationError?
  {
    var district :- CleanThenBound("district", p.district, 2, 100);
    var name :- CleanThenBound("name", p.name, 2, 100);
    var rawContact :- CheckLength("contact", p.contact, 7, 20);
    var contact :- ValidateContact(rawContact);
    var address :- CleanThenBound("address", p.address, 5, 1000);
    var location :- CleanThenBound("location", p.location, 2, 100);
    var landmark :- CleanThenBoundOptional("landmark", p.landmark, 2, 100);
    var pincode :- CleanPincode(p.pincode);
    var email :- CheckOptionalFormat("email", checkEmail, p.email);
    var clinicUrl :- CheckOptionalFormat("clinic_url", checkUrl, p.clinicUrl);
    var googleMapUrl :- CheckOptionalFormat("google_map_url", checkUrl, p.googleMapUrl);
    Ok(CenterRequest(district, p.services, name, contact, address, location, landmark, pincode,
                     email, clinicUrl, googleMapUrl))
  }

  /** A validated new center fits every bounded column. */
  lemma ValidatedCenterFits(p: CenterRequest, checkEmail: FormatCheck, checkUrl: FormatCheck,
                            id: Id, userId: Id, now: Timestamp)
    requires ValidateCenterCreate(p, checkEmail, checkUrl).Ok?
    ensures var q := ValidateCenterCreate(p, checkEmail, checkUrl).value;
            CenterFits(Center(id, userId, q.district, q.services, q.name, q.contact, q.address,
                              q.location, q.landmark, q.pincode, q.email, q.clinicUrl,
                              q.googleMapUrl, now, now))
  {
  }

  // ---------------------------------------------------------------
  // Update
  // ---------------------------------------------------------------

  /** CenterUpdate as received: every field optional, and whether the
      payload also carried some other key with a non-null value (such
      keys are ignored, but count for the at-least-one rule). */
  datatype CenterUpdateRequest = CenterUpdateRequest(
    district: Option<string>,
    services: Option<Services>,
    name: Option<string>,
    contact: Option<string>,
    address: Option<string>,
    location: Option<string>,
    landmark: Option<string>,
    pincode: Option<string>,
    email: Option<string>,
    clinicUrl: Option<string>,
    googleMapUrl: Option<string>,
    otherKeySupplied: bool)

  /** Some value in the payload is not null. */
  predicate SuppliesSomething(p: CenterUpdateRequest)
  {
    || p.district.Some? || p.services.Some? || p.name.Some? || p.contact.Some?
    || p.address.Some? || p.location.Some? || p.landmark.Some? || p.pincode.Some?
    || p.email.Some? || p.clinicUrl.Some? || p.googleMapUrl.Some? || p.otherKeySupplied
  }

  /** The first length bound the payload breaks, in field order. */
  function UpdateLengthError(p: CenterUpdateRequest): (e: Option<Error>)
    ensures e.None? <==>
              && (p.district.Some? ==> 2 <= |p.district.value| <= 100)
              && (p.name.Some? ==> 2 <= |p.name.value| <= 200)
              && (p.contact.Some? ==> 7 <= |p.contact.value| <= 20)
              && (p.address.Some? ==> 5 <= |p.address.value| <= 500)
              && (p.location.Some? ==> 2 <= |p.location.value| <= 200)
              && (p.landmark.Some? ==> 2 <= |p.landmark.value| <= 200)
              && (p.pincode.Some? ==> 4 <= |p.pincode.value| <= 10)
    ensures e.Some? ==> e.value.ValidationError?
  {
    if p.district.Some? && !(2 <= |p.district.value| <= 100) then Some(ValidationError("district"))
    else if p.name.Some? && !(2 <= |p.name.value| <= 200) then Some(ValidationError("name"))
    else if p.contact.Some? && !(7 <= |p.contact.value| <= 20) then Some(ValidationError("contact"))
    else if p.address.Some? && !(5 <= |p.address.value| <= 500) then Some(ValidationError("address"))
    else if p.location.Some? && !(2 <= |p.location.value| <= 200) then Some(ValidationError("location"))
    else if p.landmark.Some? && !(2 <= |p.landmark.value| <= 200) then Some(ValidationError("landmark"))
    else if p.pincode.Some? && !(4 <= |p.pincode.value| <= 10) then Some(ValidationError("pincode"))
    else None
  }

  /** The at-least-one rule runs first, on the raw payload; then each
      field's length bounds, and nothing else: no cleaning, and neither
      the contact nor the pincode pattern. */
  function ValidateCenterUpdate(p: CenterUpdateRequest, checkEmail: FormatCheck, checkUrl: FormatCheck)
    : (r: Result<CenterUpdateRequest>)
    ensures !SuppliesSomething(p) ==> r == Err(ValidationError("At least one field must be provided for update"))
    ensures r.Ok? <==>
              && SuppliesSomething(p)
              && UpdateLengthError(p).None?
              && (p.email.Some? ==> checkEmail(p.email.value).Some?)
              && (p.clinicUrl.Some? ==> checkUrl(p.clinicUrl.value).Some?)
              && (p.googleMapUrl.Some? ==> checkUrl(p.googleMapUrl.value).Some?)
    ensures r.Ok? ==>
              && r.value.district == p.district && r.value.services == p.services
              && r.value.name == p.name && r.value.contact == p.contact
              && r.value.address == p.address && r.value.location == p.location
              && r.value.landmark == p.landmark && r.value.pincode == p.pincode
              && r.value.email == Checked(checkEmail, p.email)
              && r.value.clinicUrl == Checked(checkUrl, p.clinicUrl)
              && r.value.googleMapUrl == Checked(checkUrl, p.googleMapUrl)
              && r.value.otherKeySupplied == p.otherKeySupplied
    ensures r.Err? ==> r.error.ValidationError?
  {
    if !SuppliesSomething(p) then Err(ValidationError("At least one field must be provided for update"))
    else if UpdateLengthError(p).Some? then Err(UpdateLengthError(p).value)
    else
      var email :- CheckOptionalFormat("email", checkEmail, p.email);
      var clinicUrl :- CheckOptionalFormat("clinic_url", checkUrl, p.clinicUrl);
      var googleMapUrl :- CheckOptionalFormat("google_map_url", checkUrl, p.googleMapUrl);
      Ok(p.(email := email, clinicUrl := clinicUrl, googleMapUrl := googleMapUrl))
  }

  const EmptyUpdate: CenterUpdateRequest :=
    CenterUpdateRequest(None, None, None, None, None, None, None, None, None, None, None, false)

  /** An empty payload, or one whose every value is null, is refused;
      a payload with only an unknown key passes and updates no field. */
  lemma UpdateExamples(checkEmail: FormatCheck, checkUrl: FormatCheck)
    ensures ValidateCenterUpdate(EmptyUpdate, checkEmail, checkUrl).Err?
    ensures ValidateCenterUpdate(EmptyUpdate.(otherKeySupplied := true), checkEmail, checkUrl).Ok?
  {
  }

  /** The update payload takes a pincode of spaces or a contact of
      letters, which the create payload refuses. */
  lemma UpdateSkipsPatterns(checkEmail: FormatCheck, checkUrl: FormatCheck)
    ensures ValidateCenterUpdate(EmptyUpdate.(pincode := Some("    ")), checkEmail, checkUrl).Ok?
    ensures ValidateCenterUpdate(EmptyUpdate.(contact := Some("abcdefg")), checkEmail, checkUrl).Ok?
    ensures !IsPincode("    ") && !IsContact(Strip("abcdefg"))
  {
    assert !PincodeChar("    "[0]);
    assert !ContactChar("abcdefg"[0]);
    assert Strip("abcdefg") == "abcdefg";
  }

  // ---------------------------------------------------------------
  // Responses
  // ---------------------------------------------------------------

  /** The CenterBase fields of a stored center. */
  function RequestOf(c: Center): CenterRequest
  {
    CenterRequest(c.district, c.services, c.name, c.contact, c.address, c.location, c.landmark,
                  c.pincode, c.email, c.clinicUrl, c.googleMapUrl)
  }

  /** CenterResponse read from a stored row: it extends CenterBase, so
      every CenterBase field goes through the create-time validation
      again; the id, the owner and the timestamps are taken as stored. */
  function CenterResponseRow(c: Center, checkEmail: FormatCheck, checkUrl: FormatCheck): (r: Result<Center>)
    ensures r.Ok? <==> ValidateCenterCreate(RequestOf(c), checkEmail, checkUrl).Ok?
    ensures r.Ok? ==>
              && RequestOf(r.value) == ValidateCenterCreate(RequestOf(c), checkEmail, checkUrl).value
              && r.value.id == c.id && r.value.userId == c.userId
              && r.value.createdAt == c.createdAt && r.value.updatedAt == c.updatedAt
    ensures r.Err? ==> r.error.ValidationError?
  {
    var q :- ValidateCenterCreate(RequestOf(c), checkEmail, checkUrl);
    Ok(c.(district := q.district, services := q.services, name := q.name, contact := q.contact,
          address := q.address, location := q.location, landmark := q.landmark, pincode := q.pincode,
          email := q.email, clinicUrl := q.clinicUrl, googleMapUrl := q.googleMapUrl))
  }

  /** The item list of CenterListResponse: every row of the page through
      CenterResponseRow; the first row refused decides the error. */
  function CenterResponseRows(rows: seq<Center>, checkEmail: FormatCheck, checkUrl: FormatCheck)
    : (r: Result<seq<Center>>)
    ensures r.Ok? <==> forall k :: 0 <= k < |rows| ==> CenterResponseRow(rows[k], checkEmail, checkUrl).Ok?
    ensures r.Ok? ==>
              |r.value| == |rows|
              && forall k :: 0 <= k < |rows| ==> r.value[k] == CenterResponseRow(rows[k], checkEmail, checkUrl).value
    ensures r.Err? ==>
              r.error.ValidationError?
              && exists k :: 0 <= k < |rows| && CenterResponseRow(rows[k], checkEmail, checkUrl) == Err(r.error)
  {
    Pagination.ValidateItems(rows, c => CenterResponseRow(c, checkEmail, checkUrl))
  }

  /** What an update may store, the listing refuses: a blank pincode or a
      letters-only contact passes the update payload but not CenterResponse. */
  lemma UpdateStoredRowsFailListing(c: Center, checkEmail: FormatCheck, checkUrl: FormatCheck)
    ensures ValidateCenterUpdate(EmptyUpdate.(pincode := Some("    ")), checkEmail, checkUrl).Ok?
    ensures CenterResponseRow(c.(pincode := "    "), checkEmail, checkUrl).Err?
    ensures ValidateCenterUpdate(EmptyUpdate.(contact := Some("abcdefg")), checkEmail, checkUrl).Ok?
    ensures CenterResponseRow(c.(contact := "abcdefg"), checkEmail, checkUrl).Err?
  {
    UpdateSkipsPatterns(checkEmail, checkUrl);
    BlankPincodeFails(RequestOf(c.(pincode := "    ")), checkEmail, checkUrl);
    assert RequestOf(c.(contact := "abcdefg")).contact == "abcdefg";
  }

  lemma BlankPincodeFails(p: CenterRequest, checkEmail: FormatCheck, checkUrl: FormatCheck)
    requires p.pincode == "    "
    ensures ValidateCenterCreate(p, checkEmail, checkUrl).Err?
  {
    assert AllSpace(p.pincode) by {
      assert IsSpace(' ');
    }
    BlankPincodeRefused(p.pincode);
  }

  lemma BlankPincodeRefused(v: string)
    requires AllSpace(v)
    ensures CleanPincode(v).Err?
  {
  }

  /** A row the listing returns is listed again unchanged, provided the
      e-mail and URL checkers leave their own output alone. */
  lemma CenterResponseRowStable(c: Center, checkEmail: FormatCheck, checkUrl: FormatCheck)
    requires CenterResponseRow(c, checkEmail, checkUrl).Ok?
    requires var d := CenterResponseRow(c, checkEmail, checkUrl).value;
             && Checked(checkEmail, d.email) == d.email
             && Checked(checkUrl, d.clinicUrl) == d.clinicUrl
             && Checked(checkUrl, d.googleMapUrl) == d.googleMapUrl
    ensures CenterResponseRow(CenterResponseRow(c, checkEmail, checkUrl).value, checkEmail, checkUrl)
            == CenterResponseRow(c, checkEmail, checkUrl)
  {
    var d := CenterResponseRow(c, checkEmail, checkUrl).value;
    ValidateCenterCreateStable(RequestOf(c), checkEmail, checkUrl);
    assert RequestOf(d) == ValidateCenterCreate(RequestOf(c), checkEmail, checkUrl).value;
  }

  /** The create validation leaves its own output unchanged, provided the
      e-mail and URL checkers do. */
  lemma ValidateCenterCreateStable(p: CenterRequest, checkEmail: FormatCheck, checkUrl: FormatCheck)
    requires ValidateCenterCreate(p, checkEmail, checkUrl).Ok?
    requires var q := ValidateCenterCreate(p, checkEmail, checkUrl).value;
             && Checked(checkEmail, q.email) == q.email
             && Checked(checkUrl, q.clinicUrl) == q.clinicUrl
             && Checked(checkUrl, q.googleMapUrl) == q.googleMapUrl
    ensures var q := ValidateCenterCreate(p, checkEmail, checkUrl).value;
            ValidateCenterCreate(q, checkEmail, checkUrl) == Ok(q)
  {
    var q := ValidateCenterCreate(p, checkEmail, checkUrl).value;
    CleanedTextStable(p, q);
    CleanedOtherStable(p, q);
    CleanedContactStable(p.contact, q.contact);
    AcceptsCleaned(q, checkEmail, checkUrl);
  }

  /** A payload whose fields are already clean, and whose formatted
      fields the checkers leave alone, validates to itself. */
  lemma AcceptsCleaned(q: CenterRequest, checkEmail: FormatCheck, checkUrl: FormatCheck)
    requires CleanThenBound("district", q.district, 2, 100) == Ok(q.district)
    requires CleanThenBound("name", q.name, 2, 100) == Ok(q.name)
    requires CheckLength("contact", q.contact, 7, 20) == Ok(q.contact)
    requires ValidateContact(q.contact) == Ok(q.contact)
    requires CleanThenBound("address", q.address, 5, 1000) == Ok(q.address)
    requires CleanThenBound("location", q.location, 2, 100) == Ok(q.location)
    requires CleanThenBoundOptional("landmark", q.landmark, 2, 100) == Ok(q.landmark)
    requires CleanPincode(q.pincode) == Ok(q.pincode)
    requires Checked(checkEmail, q.email) == q.email
    requires Checked(checkUrl, q.clinicUrl) == q.clinicUrl
    requires Checked(checkUrl, q.googleMapUrl) == q.googleMapUrl
    ensures ValidateCenterCreate(q, checkEmail, checkUrl) == Ok(q)
  {
    assert CheckOptionalFormat("email", checkEmail, q.email) == Ok(q.email);
    assert CheckOptionalFormat("clinic_url", checkUrl, q.clinicUrl) == Ok(q.clinicUrl);
    assert CheckOptionalFormat("google_map_url", checkUrl, q.googleMapUrl) == Ok(q.googleMapUrl);
  }

  /** The cleaned text fields of a valid payload clean to themselves. */
  lemma CleanedTextStable(p: CenterRequest, q: CenterRequest)
    requires CleanThenBound("district", p.district, 2, 100).Ok?
    requires CleanThenBound("name", p.name, 2, 100).Ok?
    requires CleanThenBound("address", p.address, 5, 1000).Ok?
    requires CleanThenBound("location", p.location, 2, 100).Ok?
    requires q.district == Collapse(p.district) && q.name == Collapse(p.name)
    requires q.address == Collapse(p.address) && q.location == Collapse(p.location)
    ensures CleanThenBound("district", q.district, 2, 100) == Ok(q.district)
    ensures CleanThenBound("name", q.name, 2, 100) == Ok(q.name)
    ensures CleanThenBound("address", q.address, 5, 1000) == Ok(q.address)
    ensures CleanThenBound("location", q.location, 2, 100) == Ok(q.location)
  {
    CleanThenBoundStable("district", p.district, 2, 100);
    CleanThenBoundStable("name", p.name, 2, 100);
    CleanThenBoundStable("address", p.address, 5, 1000);
    CleanThenBoundStable("location", p.location, 2, 100);
  }

  /** So do its landmark and pincode. */
  lemma CleanedOtherStable(p: CenterRequest, q: CenterRequest)
    requires CleanThenBoundOptional("landmark", p.landmark, 2, 100).Ok?
    requires CleanPincode(p.pincode).Ok?
    requires q.pincode == Collapse(p.pincode)
    requires q.landmark == (if p.landmark.None? then None else Some(Collapse(p.landmark.value)))
    ensures CleanThenBoundOptional("landmark", q.landmark, 2, 100) == Ok(q.landmark)
    ensures CleanPincode(q.pincode) == Ok(q.pincode)
  {
    CleanThenBoundOptionalStable("landmark", p.landmark, 2, 100);
    CleanPincodeStable(p.pincode);
  }

  /** And its stripped contact. */
  lemma CleanedContactStable(v: string, w: string)
    requires IsContact(Strip(v)) && w == Strip(v)
    ensures CheckLength("contact", w, 7, 20) == Ok(w)
    ensures ValidateContact(w) == Ok(w)
  {
    ValidateContactStable(v);
  }

  lemma CleanThenBoundOptionalStable(field: string, v: Option<string>, lo: nat, hi: nat)
    requires CleanThenBoundOptional(field, v, lo, hi).Ok?
    ensures var w := CleanThenBoundOptional(field, v, lo, hi).value;
            CleanThenBoundOptional(field, w, lo, hi) == Ok(w)
  {
    if v.Some? {
      CleanThenBoundStable(field, v.value, lo, hi);
    }
  }

  lemma CleanPincodeStable(v: string)
    requires CleanPincode(v).Ok?
    ensures CleanPincode(Collapse(v)) == Ok(Collapse(v))
  {
    CollapseIdempotent(v);
    CollapseEmpty(Collapse(v));
  }

  /** Cleaning and bounding a cleaned value returns it unchanged. */
  lemma CleanThenBoundStable(field: string, v: string, lo: nat, hi: nat)
    requires CleanThenBound(field, v, lo, hi).Ok?
    ensures CleanThenBound(field, Collapse(v), lo, hi) == Ok(Collapse(v))
  {
    CollapseIdempotent(v);
    CollapseEmpty(Collapse(v));
  }

  // ---------------------------------------------------------------
  // Search parameters
  // ---------------------------------------------------------------

  /** CenterSearchParams as received; dates are day numbers. */
  datatype CenterSearchParams = CenterSearchParams(
    search: Option<string>,
    district: Option<string>,
    name: Option<string>,
    contact: Option<string>,
    location: Option<string>,
    landmark: Option<string>,
    pincode: Option<string>,
    email: Option<string>,
    createdAfter: Option<Day>,
    createdBefore: Option<Day>)

  /** The search term is bounded as given and stripped; district, name,
      location, landmark and pincode are stripped; the contact is passed
      as given; created_after may not follow created_before. */
  function ValidateCenterSearch(p: CenterSearchParams, checkEmail: FormatCheck): (r: Result<CenterSearchParams>)
    ensures r.Ok? <==>
              (p.search.Some? ==> 1 <= |p.search.value| <= 100)
              && (p.email.Some? ==> checkEmail(p.email.value).Some?)
              && (p.createdAfter.Some? && p.createdBefore.Some? ==> p.createdAfter.value <= p.createdBefore.value)
    ensures r.Ok? ==>
              && r.value.search == StripGiven(p.search) && r.value.district == StripGiven(p.district)
              && r.value.name == StripGiven(p.name) && r.value.contact == p.contact
              && r.value.location == StripGiven(p.location) && r.value.landmark == StripGiven(p.landmark)
              && r.value.pincode == StripGiven(p.pincode)
              && r.value.createdAfter == p.createdAfter && r.value.createdBefore == p.createdBefore
              && r.value.email == Checked(checkEmail, p.email)
    ensures p.createdAfter.Some? && p.createdBefore.Some? && p.createdAfter.value > p.createdBefore.value
            && (p.search.Some? ==> 1 <= |p.search.value| <= 100)
            && (p.email.Some? ==> checkEmail(p.email.value).Some?) ==>
              r == Err(ValidationError("created_after must be before created_before"))
    ensures r.Err? ==> r.error.ValidationError?
  {
    var search :- if p.search.Some? && !(1 <= |p.search.value| <= 100) then Err(ValidationError("search"))
                  else Ok(p.search);
    var email :- CheckOptionalFormat("email", checkEmail, p.email);
    if p.createdAfter.Some? && p.createdBefore.Some? && p.createdAfter.value > p.createdBefore.value then
      Err(ValidationError("created_after must be before created_before"))
    else
      Ok(CenterSearchParams(StripGiven(search), StripGiven(p.district), StripGiven(p.name), p.contact,
                            StripGiven(p.location), StripGiven(p.landmark), StripGiven(p.pincode),
                            email, p.createdAfter, p.createdBefore))
  }
}
