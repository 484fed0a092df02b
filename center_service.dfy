/** The center service over a center repository. The repository's own
    source is not part of this model; it is taken to behave as the
    appointment repository does: lookups by key and by name, a
    counted and paginated listing of the rows a filter keeps, inserts
    that refuse a clashing id or an overflowing column, field-by-field
    updates, and deletes. */
module CenterService {
  import opened Common
  import opened Store
  import opened Pagination
  import opened CenterModel
  import opened CenterSchema
  import opened Validators

  // ---------------------------------------------------------------
  // Field updates
  // ---------------------------------------------------------------

  /** One entry of the update dictionary. */
  datatype CenterAssignment =
    | SetDistrict(district: string)
    | SetServices(services: Services)
    | SetName(name: string)
    | SetContact(contact: string)
    | SetAddress(address: string)
    | SetLocation(location: string)
    | SetLandmark(landmark: string)
    | SetPincode(pincode: string)
    | SetEmail(email: string)
    | SetClinicUrl(clinicUrl: string)
    | SetGoogleMapUrl(googleMapUrl: string)

  /** setattr for one entry. */
  function AssignCenter(c: Center, f: CenterAssignment): Center
  {
    match f
    case SetDistrict(v) => c.(district := v)
    case SetServices(v) => c.(services := v)
    case SetName(v) => c.(name := v)
    case SetContact(v) => c.(contact := v)
    case SetAddress(v) => c.(address := v)
    case SetLocation(v) => c.(location := v)
    case SetLandmark(v) => c.(landmark := Some(v))
    case SetPincode(v) => c.(pincode := v)
    case SetEmail(v) => c.(email := Some(v))
    case SetClinicUrl(v) => c.(clinicUrl := Some(v))
    case SetGoogleMapUrl(v) => c.(googleMapUrl := Some(v))
  }

  /** The entries applied in order. */
  function AssignAllCenter(c: Center, fs: seq<CenterAssignment>): Center
  {
    if fs == [] then c else AssignCenter(AssignAllCenter(c, fs[..|fs| - 1]), fs[|fs| - 1])
  }

  lemma {:induction false} AssignAllAppend(c: Center, xs: seq<CenterAssignment>, ys: seq<CenterAssignment>)
    ensures AssignAllCenter(c, xs + ys) == AssignAllCenter(AssignAllCenter(c, xs), ys)
    decreases |ys|
  {
    if ys == [] {
      assert xs + ys == xs;
    } else {
      assert (xs + ys)[..|xs + ys| - 1] == xs + ys[..|ys| - 1];
      AssignAllAppend(c, xs, ys[..|ys| - 1]);
    }
  }

  /** model_dump(exclude_unset=True, exclude_none=True): the non-null
      fields in declaration order. The payload holds no timestamp field, so
      popping created_at and updated_at removes nothing. */
  function PatchFields(p: CenterUpdateRequest): (fs: seq<CenterAssignment>)
    ensures fs == [] <==>
              && p.district.None? && p.services.None? && p.name.None? && p.contact.None?
              && p.address.None? && p.location.None? && p.landmark.None? && p.pincode.None?
              && p.email.None? && p.clinicUrl.None? && p.googleMapUrl.None?
  {
    PatchPlace(p) + PatchIdentity(p) + PatchLinks(p)
  }

  /** district, services, name, contact. */
  function PatchPlace(p: CenterUpdateRequest): seq<CenterAssignment>
  {
    PatchArea(p) + PatchNameContact(p)
  }

  /** address, location, landmark, pincode. */
  function PatchIdentity(p: CenterUpdateRequest): seq<CenterAssignment>
  {
    PatchAddress(p) + PatchLandmarkPincode(p)
  }

  /** email, clinic_url, google_map_url. */
  function PatchLinks(p: CenterUpdateRequest): seq<CenterAssignment>
  {
    PatchEmailClinic(p) + PatchMapUrl(p)
  }

  function PatchArea(p: CenterUpdateRequest): seq<CenterAssignment>
  {
    (if p.district.Some? then [SetDistrict(p.district.value)] else [])
    + (if p.services.Some? then [SetServices(p.services.value)] else [])
  }

  function PatchNameContact(p: CenterUpdateRequest): seq<CenterAssignment>
  {
    (if p.name.Some? then [SetName(p.name.value)] else [])
    + (if p.contact.Some? then [SetContact(p.contact.value)] else [])
  }

  function PatchAddress(p: CenterUpdateRequest): seq<CenterAssignment>
  {
    (if p.address.Some? then [SetAddress(p.address.value)] else [])
    + (if p.location.Some? then [SetLocation(p.location.value)] else [])
  }

  function PatchLandmarkPincode(p: CenterUpdateRequest): seq<CenterAssignment>
  {
    (if p.landmark.Some? then [SetLandmark(p.landmark.value)] else [])
    + (if p.pincode.Some? then [SetPincode(p.pincode.value)] else [])
  }

  function PatchEmailClinic(p: CenterUpdateRequest): seq<CenterAssignment>
  {
    (if p.email.Some? then [SetEmail(p.email.value)] else [])
    + (if p.clinicUrl.Some? then [SetClinicUrl(p.clinicUrl.value)] else [])
  }

  function PatchMapUrl(p: CenterUpdateRequest): seq<CenterAssignment>
  {
    if p.googleMapUrl.Some? then [SetGoogleMapUrl(p.googleMapUrl.value)] else []
  }

  function Or<T>(v: Option<T>, d: T): T
  {
    if v.Some? then v.value else d
  }

  function OrSome<T>(v: Option<T>, d: Option<T>): Option<T>
  {
    if v.Some? then v else d
  }

  lemma AppendAtMostOne(c: Center, xs: seq<CenterAssignment>, ys: seq<CenterAssignment>)
    requires |ys| <= 1
    ensures AssignAllCenter(c, xs + ys)
              == if ys == [] then AssignAllCenter(c, xs) else AssignCenter(AssignAllCenter(c, xs), ys[0])
  {
    if ys == [] {
      assert xs + ys == xs;
    } else {
      assert (xs + ys)[..|xs|] == xs;
    }
  }

  /** Two optional entries applied one after the other. */
  lemma PairOutcome(c: Center, d1: seq<CenterAssignment>, d2: seq<CenterAssignment>, c1: Center, c2: Center)
    requires |d1| <= 1 && |d2| <= 1
    requires d1 == [] ==> c1 == c
    requires d1 != [] ==> c1 == AssignCenter(c, d1[0])
    requires d2 == [] ==> c2 == c1
    requires d2 != [] ==> c2 == AssignCenter(c1, d2[0])
    ensures AssignAllCenter(c, d1 + d2) == c2
  {
    AppendAtMostOne(c, [], d1);
    assert [] + d1 == d1;
    AppendAtMostOne(c, d1, d2);
  }

  lemma PatchAreaOutcome(c: Center, p: CenterUpdateRequest)
    ensures AssignAllCenter(c, PatchArea(p))
              == c.(district := Or(p.district, c.district), services := Or(p.services, c.services))
  {
    var c1 := c.(district := Or(p.district, c.district));
    var c2 := c1.(services := Or(p.services, c.services));
    if p.district.Some? {
      assert c1 == AssignCenter(c, SetDistrict(p.district.value));
    }
    if p.services.Some? {
      assert c2 == AssignCenter(c1, SetServices(p.services.value));
    }
    PairOutcome(c, if p.district.Some? then [SetDistrict(p.district.value)] else [],
                if p.services.Some? then [SetServices(p.services.value)] else [],
                c1, c2);
  }

  lemma PatchNameContactOutcome(c: Center, p: CenterUpdateRequest)
    ensures AssignAllCenter(c, PatchNameContact(p))
              == c.(name := Or(p.name, c.name), contact := Or(p.contact, c.contact))
  {
    var c1 := c.(name := Or(p.name, c.name));
    var c2 := c1.(contact := Or(p.contact, c.contact));
    if p.name.Some? {
      assert c1 == AssignCenter(c, SetName(p.name.value));
    }
    if p.contact.Some? {
      assert c2 == AssignCenter(c1, SetContact(p.contact.value));
    }
    PairOutcome(c, if p.name.Some? then [SetName(p.name.value)] else [],
                if p.contact.Some? then [SetContact(p.contact.value)] else [],
                c1, c2);
  }

  lemma PatchAddressOutcome(c: Center, p: CenterUpdateRequest)
    ensures AssignAllCenter(c, PatchAddress(p))
              == c.(address := Or(p.address, c.address), location := Or(p.location, c.location))
  {
    var c1 := c.(address := Or(p.address, c.address));
    var c2 := c1.(location := Or(p.location, c.location));
    if p.address.Some? {
      assert c1 == AssignCenter(c, SetAddress(p.address.value));
    }
    if p.location.Some? {
      assert c2 == AssignCenter(c1, SetLocation(p.location.value));
    }
    PairOutcome(c, if p.address.Some? then [SetAddress(p.address.value)] else [],
                if p.location.Some? then [SetLocation(p.location.value)] else [],
                c1, c2);
  }

  lemma PatchLandmarkPincodeOutcome(c: Center, p: CenterUpdateRequest)
    ensures AssignAllCenter(c, PatchLandmarkPincode(p))
              == c.(landmark := OrSome(p.landmark, c.landmark), pincode := Or(p.pincode, c.pincode))
  {
    var c1 := c.(landmark := OrSome(p.landmark, c.landmark));
    var c2 := c1.(pincode := Or(p.pincode, c.pincode));
    if p.landmark.Some? {
      assert c1 == AssignCenter(c, SetLandmark(p.landmark.value));
    }
    if p.pincode.Some? {
      assert c2 == AssignCenter(c1, SetPincode(p.pincode.value));
    }
    PairOutcome(c, if p.landmark.Some? then [SetLandmark(p.landmark.value)] else [],
                if p.pincode.Some? then [SetPincode(p.pincode.value)] else [],
                c1, c2);
  }

  lemma PatchEmailClinicOutcome(c: Center, p: CenterUpdateRequest)
    ensures AssignAllCenter(c, PatchEmailClinic(p))
              == c.(email := OrSome(p.email, c.email), clinicUrl := OrSome(p.clinicUrl, c.clinicUrl))
  {
    var c1 := c.(email := OrSome(p.email, c.email));
    var c2 := c1.(clinicUrl := OrSome(p.clinicUrl, c.clinicUrl));
    if p.email.Some? {
      assert c1 == AssignCenter(c, SetEmail(p.email.value));
    }
    if p.clinicUrl.Some? {
      assert c2 == AssignCenter(c1, SetClinicUrl(p.clinicUrl.value));
    }
    PairOutcome(c, if p.email.Some? then [SetEmail(p.email.value)] else [],
                if p.clinicUrl.Some? then [SetClinicUrl(p.clinicUrl.value)] else [],
                c1, c2);
  }

  lemma PatchPlaceOutcome(c: Center, p: CenterUpdateRequest)
    ensures AssignAllCenter(c, PatchPlace(p))
              == c.(district := Or(p.district, c.district), services := Or(p.services, c.services),
                    name := Or(p.name, c.name), contact := Or(p.contact, c.contact))
  {
    AssignAllAppend(c, PatchArea(p), PatchNameContact(p));
    PatchAreaOutcome(c, p);
    PatchNameContactOutcome(AssignAllCenter(c, PatchArea(p)), p);
  }

  lemma PatchIdentityOutcome(c: Center, p: CenterUpdateRequest)
    ensures AssignAllCenter(c, PatchIdentity(p))
              == c.(address := Or(p.address, c.address), location := Or(p.location, c.location),
                    landmark := OrSome(p.landmark, c.landmark), pincode := Or(p.pincode, c.pincode))
  {
    AssignAllAppend(c, PatchAddress(p), PatchLandmarkPincode(p));
    PatchAddressOutcome(c, p);
    PatchLandmarkPincodeOutcome(AssignAllCenter(c, PatchAddress(p)), p);
  }

  lemma PatchLinksOutcome(c: Center, p: CenterUpdateRequest)
    ensures AssignAllCenter(c, PatchLinks(p))
              == c.(email := OrSome(p.email, c.email), clinicUrl := OrSome(p.clinicUrl, c.clinicUrl),
                    googleMapUrl := OrSome(p.googleMapUrl, c.googleMapUrl))
  {
    var c1 := c.(email := OrSome(p.email, c.email), clinicUrl := OrSome(p.clinicUrl, c.clinicUrl));
    PatchEmailClinicOutcome(c, p);
    AppendAtMostOne(c, PatchEmailClinic(p), PatchMapUrl(p));
    if p.googleMapUrl.Some? {
      assert AssignCenter(c1, SetGoogleMapUrl(p.googleMapUrl.value)) == c1.(googleMapUrl := p.googleMapUrl);
    }
  }

  /** The update writes exactly the supplied fields and keeps the id, the
      owner and the timestamps. */
  lemma PatchOutcome(c: Center, p: CenterUpdateRequest)
    ensures AssignAllCenter(c, PatchFields(p))
              == c.(district := Or(p.district, c.district), services := Or(p.services, c.services),
                    name := Or(p.name, c.name), contact := Or(p.contact, c.contact),
                    address := Or(p.address, c.address), location := Or(p.location, c.location),
                    landmark := OrSome(p.landmark, c.landmark), pincode := Or(p.pincode, c.pincode),
                    email := OrSome(p.email, c.email), clinicUrl := OrSome(p.clinicUrl, c.clinicUrl),
                    googleMapUrl := OrSome(p.googleMapUrl, c.googleMapUrl))
  {
    var c1 := AssignAllCenter(c, PatchPlace(p));
    PatchPlaceOutcome(c, p);
    AssignAllAppend(c, PatchPlace(p), PatchIdentity(p));
    var c2 := AssignAllCenter(c1, PatchIdentity(p));
    PatchIdentityOutcome(c1, p);
    AssignAllAppend(c, PatchPlace(p) + PatchIdentity(p), PatchLinks(p));
    PatchLinksOutcome(c2, p);
  }

  /** The row after the update is written: the assignments, then the
      column default that refreshes updated_at when a column was written. */
  function CenterUpdated(c: Center, fs: seq<CenterAssignment>, now: Timestamp): (r: Center)
    ensures fs == [] ==> r == c
    ensures fs != [] ==> r.updatedAt == now
    ensures r.id == c.id && r.userId == c.userId && r.createdAt == c.createdAt
  {
    AssignAllKeepsId(c, fs);
    var b := AssignAllCenter(c, fs);
    if fs == [] then b else b.(updatedAt := now)
  }

  // ---------------------------------------------------------------
  // The repository
  // ---------------------------------------------------------------

  /** No two stored centers share a name. */
  ghost predicate UniqueNames(records: map<Id, Center>)
  {
    forall i, j :: i in records && j in records && records[i].name == records[j].name ==> i == j
  }

  /** The ids of the stored centers with the given name. */
  function Named(records: map<Id, Center>, name: string): set<Id>
  {
    set id | id in records && records[id].name == name
  }

  /** Some ordering of exactly the stored ids whose rows the filter keeps. */
  predicate IsCenterListing(ids: seq<Id>, records: map<Id, Center>, keep: Center -> bool)
  {
    (forall i :: 0 <= i < |ids| ==> ids[i] in records)
    && multiset(ids) == multiset(KeysWhere(records, keep))
  }

  /** c is the response of a stored row that the filter keeps. */
  predicate RespondsFromStore(c: Center, records: map<Id, Center>, keep: Center -> bool,
                              checkEmail: FormatCheck, checkUrl: FormatCheck)
  {
    && c.id in records && keep(records[c.id])
    && CenterResponseRow(records[c.id], checkEmail, checkUrl) == Ok(c)
  }

  /** Validating a page of stored, kept rows again yields, item by item,
      the response of the row stored under the item's id. */
  lemma ResponsesOfStoredRows(records: map<Id, Center>, keep: Center -> bool, rows: seq<Center>,
                              items: seq<Center>, checkEmail: FormatCheck, checkUrl: FormatCheck)
    requires forall i :: 0 <= i < |rows| ==> rows[i].id in records && records[rows[i].id] == rows[i] && keep(rows[i])
    requires CenterResponseRows(rows, checkEmail, checkUrl) == Ok(items)
    ensures forall i :: 0 <= i < |items| ==> RespondsFromStore(items[i], records, keep, checkEmail, checkUrl)
  {
    forall i | 0 <= i < |items|
      ensures RespondsFromStore(items[i], records, keep, checkEmail, checkUrl)
    {
      assert CenterResponseRow(rows[i], checkEmail, checkUrl) == Ok(items[i]);
      assert items[i].id == rows[i].id;
    }
  }

  /** Every stored row the filter keeps validates as a CenterResponse. */
  predicate AllKeptRespond(records: map<Id, Center>, keep: Center -> bool, checkEmail: FormatCheck, checkUrl: FormatCheck)
  {
    forall id :: id in KeysWhere(records, keep) ==> CenterResponseRow(records[id], checkEmail, checkUrl).Ok?
  }

  /** When every kept row validates as a response, so does any page of
      stored, kept rows. */
  lemma StoredRowsRespond(records: map<Id, Center>, keep: Center -> bool, rows: seq<Center>,
                          checkEmail: FormatCheck, checkUrl: FormatCheck)
    requires forall i :: 0 <= i < |rows| ==> rows[i].id in records && records[rows[i].id] == rows[i] && keep(rows[i])
    requires AllKeptRespond(records, keep, checkEmail, checkUrl)
    ensures CenterResponseRows(rows, checkEmail, checkUrl).Ok?
  {
    forall k | 0 <= k < |rows|
      ensures CenterResponseRow(rows[k], checkEmail, checkUrl).Ok?
    {
      assert rows[k].id in KeysWhere(records, keep);
    }
  }

  class CenterRepository {
    var records: map<Id, Center>

    /** Every row is stored under its own id and fits its columns. */
    ghost predicate Valid()
      reads this
    {
      forall id :: id in records ==> records[id].id == id && CenterFits(records[id])
    }

    constructor ()
      ensures Valid() && records == map[]
    {
      records := map[];
    }

    method Get(id: Id) returns (r: Option<Center>)
      requires Valid()
      ensures r.Some? <==> id in records
      ensures r.Some? ==> r.value == records[id] && r.value.id == id
    {
      if id in records {
        r := Some(records[id]);
      } else {
        r := None;
      }
    }

    /** A stored center with exactly this name, if there is one. */
    method GetByName(name: string) returns (r: Option<Center>)
      requires Valid()
      ensures r.None? <==> Named(records, name) == {}
      ensures r.Some? ==> r.value.id in records && records[r.value.id] == r.value && r.value.name == name
    {
      var keep := (c: Center) => c.name == name;
      var ids := SelectIds(records, keep);
      assert KeysWhere(records, keep) == Named(records, name);
      if |ids| == 0 {
        r := None;
      } else {
        assert ids[0] in multiset(ids);
        r := Some(records[ids[0]]);
      }
    }

    /** A page of the rows the filter keeps, in some order, and the count
        of all of them regardless of the page. */
    method GetAll(skip: nat, limit: nat, keep: Center -> bool) returns (items: seq<Center>, total: nat)
      requires Valid()
      ensures total == |KeysWhere(records, keep)|
      ensures |items| <= limit
      ensures forall i :: 0 <= i < |items| ==> items[i].id in records && records[items[i].id] == items[i] && keep(items[i])
      ensures exists ids: seq<Id> :: IsCenterListing(ids, records, keep) && items == PageOf(Rows(records, ids), skip, limit)
    {
      var ids := SelectIds(records, keep);
      total := |ids|;
      items := PageOf(Rows(records, ids), skip, limit);
    }

    /** INSERT: a clashing id or an overflowing column is a store error and
        stores nothing. */
    method Create(c: Center) returns (r: Result<Center>)
      requires Valid()
      modifies this
      ensures Valid()
      ensures r.Err? <==> c.id in old(records) || !CenterFits(c)
      ensures r.Err? ==> r.error == InternalError && records == old(records)
      ensures r.Ok? ==> r.value == c && records == old(records)[c.id := c]
    {
      if c.id in records || !CenterFits(c) {
        r := Err(InternalError);
      } else {
        records := records[c.id := c];
        r := Ok(c);
      }
    }

    /** Assign each listed field in turn, then write the row. */
    method Update(id: Id, fields: seq<CenterAssignment>, now: Timestamp) returns (r: Result<Center>)
      requires Valid() && id in records
      modifies this
      ensures Valid()
      ensures var b := CenterUpdated(old(records)[id], fields, now);
              if CenterFits(b) then r == Ok(b) && records == old(records)[id := b]
              else r == Err(InternalError) && records == old(records)
    {
      var row := records[id];
      var i := 0;
      while i < |fields|
        invariant 0 <= i <= |fields|
        invariant row == AssignAllCenter(records[id], fields[..i])
      {
        assert fields[..i + 1][..i] == fields[..i];
        row := AssignCenter(row, fields[i]);
        i := i + 1;
      }
      assert fields[..i] == fields;
      if fields != [] {
        row := row.(updatedAt := now);
      }
      AssignAllKeepsId(records[id], fields);
      if CenterFits(row) {
        records := records[id := row];
        r := Ok(row);
      } else {
        r := Err(InternalError);
      }
    }

    /** DELETE by primary key; every other row is kept. */
    method Delete(id: Id)
      requires Valid()
      modifies this
      ensures Valid()
      ensures records == old(records) - {id}
    {
      records := records - {id};
    }
  }

  lemma {:induction false} AssignAllKeepsId(c: Center, fs: seq<CenterAssignment>)
    ensures AssignAllCenter(c, fs).id == c.id && AssignAllCenter(c, fs).userId == c.userId
    ensures AssignAllCenter(c, fs).createdAt == c.createdAt
  {
    if fs != [] {
      AssignAllKeepsId(c, fs[..|fs| - 1]);
    }
  }

  // ---------------------------------------------------------------
  // The service
  // ---------------------------------------------------------------

  /** The center a validated create payload becomes: owned by the acting
      user, both timestamps now. */
  function CenterFrom(data: CenterRequest, id: Id, actor: Id, now: Timestamp): (c: Center)
    ensures c.id == id && c.userId == actor && c.createdAt == now && c.updatedAt == now
    ensures c.name == data.name && c.district == data.district && c.services == data.services
    ensures c.contact == data.contact && c.address == data.address && c.location == data.location
    ensures c.landmark == data.landmark && c.pincode == data.pincode
    ensures c.email == data.email && c.clinicUrl == data.clinicUrl && c.googleMapUrl == data.googleMapUrl
  {
    NewCenter(id, actor, data.district, data.name, data.contact, data.address, data.location,
              data.pincode, now, now)
      .(services := data.services, landmark := data.landmark, email := data.email,
        clinicUrl := data.clinicUrl, googleMapUrl := data.googleMapUrl)
  }

  class CenterService {
    const repository: CenterRepository

    constructor (repository: CenterRepository)
      requires repository.Valid()
      ensures this.repository == repository && Valid()
    {
      this.repository := repository;
    }

    ghost predicate Valid()
      reads this, repository
    {
      repository.Valid()
    }

    /** The stored center, or NotFound. */
    method GetCenterById(id: Id) returns (r: Result<Center>)
      requires Valid()
      ensures r.Ok? <==> id in repository.records
      ensures r.Ok? ==> r.value == repository.records[id] && r.value.id == id
      ensures r.Err? ==> r.error == NotFound("Center")
    {
      var found := repository.Get(id);
      if found.None? {
        return Err(NotFound("Center"));
      }
      r := Ok(found.value);
    }

    /** The listing: the paging arguments are checked first, then a page
        of the kept rows is fetched, each of its rows is validated again
        as a CenterResponse, and the page is numbered. */
    method GetAllCenters(skip: int, limit: int, keep: Center -> bool, checkEmail: FormatCheck, checkUrl: FormatCheck)
      returns (r: Result<ListResponse<Center>>)
      requires Valid()
      ensures CheckPaging(skip, limit).Some? ==> r == Err(CheckPaging(skip, limit).value)
      ensures CheckPaging(skip, limit).None? && AllKeptRespond(repository.records, keep, checkEmail, checkUrl) ==> r.Ok?
      ensures r.Ok? ==>
                && WellFormed(r.value)
                && r.value.total == |KeysWhere(repository.records, keep)|
                && r.value.size == limit
                && r.value.page == skip / limit + 1
                && r.value.pages == PageCount(r.value.total, limit)
                && |r.value.items| <= limit
                && (forall i :: 0 <= i < |r.value.items| ==>
                      RespondsFromStore(r.value.items[i], repository.records, keep, checkEmail, checkUrl))
                && (exists ids: seq<Id> :: IsCenterListing(ids, repository.records, keep)
                                           && CenterResponseRows(PageOf(Rows(repository.records, ids), skip, limit),
                                                                 checkEmail, checkUrl)
                                              == Ok(r.value.items))
      ensures r.Err? && CheckPaging(skip, limit).None? ==>
                && r.error.ValidationError?
                && (exists ids: seq<Id> :: IsCenterListing(ids, repository.records, keep)
                                           && CenterResponseRows(PageOf(Rows(repository.records, ids), skip, limit),
                                                                 checkEmail, checkUrl)
                                              == Err(r.error))
    {
      var e := CheckPaging(skip, limit);
      if e.Some? {
        return Err(e.value);
      }
      var rows, total := repository.GetAll(skip, limit, keep);
      if AllKeptRespond(repository.records, keep, checkEmail, checkUrl) {
        StoredRowsRespond(repository.records, keep, rows, checkEmail, checkUrl);
      }
      var items :- CenterResponseRows(rows, checkEmail, checkUrl);
      ResponsesOfStoredRows(repository.records, keep, rows, items, checkEmail, checkUrl);
      r := Ok(Respond(items, total, skip, limit));
    }

    /** A new center: refused when one of the same name exists, otherwise
        inserted with the acting user as owner. */
    method CreateCenter(data: CenterRequest, actor: Id, id: Id, now: Timestamp) returns (r: Result<Center>)
      requires Valid()
      modifies repository
      ensures Valid()
      ensures Named(old(repository.records), data.name) != {} ==>
                r == Err(AlreadyExists("Center")) && repository.records == old(repository.records)
      ensures Named(old(repository.records), data.name) == {} ==>
                var c := CenterFrom(data, id, actor, now);
                if id in old(repository.records) || !CenterFits(c) then
                  r == Err(InternalError) && repository.records == old(repository.records)
                else
                  r == Ok(c) && repository.records == old(repository.records)[id := c]
      ensures UniqueNames(old(repository.records)) ==> UniqueNames(repository.records)
    {
      var existing := repository.GetByName(data.name);
      if existing.Some? {
        return Err(AlreadyExists("Center"));
      }
      var c := CenterFrom(data, id, actor, now);
      r := repository.Create(c);
      forall k | k in old(repository.records) ensures old(repository.records)[k].name != c.name {
        assert k !in Named(old(repository.records), data.name);
      }
    }

    /** The supplied fields written over the stored center; no name check. */
    method UpdateCenter(id: Id, data: CenterUpdateRequest, now: Timestamp) returns (r: Result<Center>)
      requires Valid()
      modifies repository
      ensures Valid()
      ensures id !in old(repository.records) ==>
                r == Err(NotFound("Center")) && repository.records == old(repository.records)
      ensures id in old(repository.records) ==>
                var b := CenterUpdated(old(repository.records)[id], PatchFields(data), now);
                if CenterFits(b) then r == Ok(b) && repository.records == old(repository.records)[id := b]
                else r == Err(InternalError) && repository.records == old(repository.records)
    {
      var found := GetCenterById(id);
      if found.Err? {
        return Err(found.error);
      }
      r := repository.Update(id, PatchFields(data), now);
    }

    /** Removes the center, or fails with NotFound and removes nothing. */
    method DeleteCenter(id: Id) returns (r: Result<()>)
      requires Valid()
      modifies repository
      ensures Valid()
      ensures id !in old(repository.records) ==>
                r == Err(NotFound("Center")) && repository.records == old(repository.records)
      ensures id in old(repository.records) ==>
                r == Ok(()) && repository.records == old(repository.records) - {id}
    {
      var found := repository.Get(id);
      if found.None? {
        return Err(NotFound("Center"));
      }
      repository.Delete(id);
      r := Ok(());
    }
  }

  /** A successful update keeps the center's id, owner and creation time,
      writes the supplied fields, leaves the others, and refreshes
      updated_at when it wrote anything. */
  lemma UpdateOutcome(c: Center, p: CenterUpdateRequest, now: Timestamp)
    ensures var b := CenterUpdated(c, PatchFields(p), now);
            && b.id == c.id && b.userId == c.userId && b.createdAt == c.createdAt
            && b.name == Or(p.name, c.name) && b.pincode == Or(p.pincode, c.pincode)
            && b.contact == Or(p.contact, c.contact) && b.landmark == OrSome(p.landmark, c.landmark)
            && (PatchFields(p) != [] ==> b.updatedAt == now)
  {
    PatchOutcome(c, p);
  }

  /** The update payload allows a 200-character name, but the column holds
      100: such an update passes validation and fails at the store. */
  lemma LongNameUpdateFails(c: Center, p: CenterUpdateRequest, now: Timestamp)
    requires p.name.Some? && |p.name.value| > CenterNameWidth
    ensures !CenterFits(CenterUpdated(c, PatchFields(p), now))
  {
    PatchOutcome(c, p);
    assert PatchFields(p) != [] by {
      assert SetName(p.name.value) in PatchPlace(p);
      assert PatchPlace(p) <= PatchFields(p);
    }
  }
}
