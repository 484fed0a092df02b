/** The appointment repository: point lookups, the filtered, ordered and
    paginated listing, and the writes, over a table keyed by id. */
module AppointmentCrud {
  import opened Common
  import opened Text
  import opened Ordering
  import opened Store
  import opened AppointmentModel

  // ---------------------------------------------------------------
  // Filters
  // ---------------------------------------------------------------

  /** The listing's filter set; a missing entry imposes nothing. Dates are
      calendar days; strings impose nothing when empty. */
  datatype Filters = Filters(
    status: Option<Status>,
    startDate: Option<Day>,
    endDate: Option<Day>,
    createdAfter: Option<Day>,
    createdBefore: Option<Day>,
    updatedAfter: Option<Day>,
    updatedBefore: Option<Day>,
    name: Option<string>,
    contact: Option<string>,
    email: Option<string>,
    search: Option<string>)

  const NoFilters: Filters := Filters(None, None, None, None, None, None, None, None, None, None, None)

  /** A row passes the filter set when it meets every supplied filter:
      exact matches, date bounds (a lower bound is the start of its day, an
      upper bound the start of the following day, and a null appointment
      date fails every comparison, as NULL does in SQL), and the search
      term found in the name, the contact or the email. */
  predicate Matches(a: Appointment, f: Filters)
    ensures Matches(a, f) && (f.startDate.Some? || f.endDate.Some?) ==> a.appointmentDate.Some?
  {
    && (f.status.Some? ==> a.status == f.status.value)
    && (f.startDate.Some? ==> a.appointmentDate.Some? && a.appointmentDate.value >= DayStart(f.startDate.value))
    && (f.endDate.Some? ==> a.appointmentDate.Some? && a.appointmentDate.value < DayStart(f.endDate.value + 1))
    && (f.createdAfter.Some? ==> a.createdAt >= DayStart(f.createdAfter.value))
    && (f.createdBefore.Some? ==> a.createdAt < DayStart(f.createdBefore.value + 1))
    && (f.updatedAfter.Some? ==> a.updatedAt >= DayStart(f.updatedAfter.value))
    && (f.updatedBefore.Some? ==> a.updatedAt < DayStart(f.updatedBefore.value + 1))
    && (Given(f.name) ==> a.name == f.name.value)
    && (Given(f.contact) ==> a.contact == f.contact.value)
    && (Given(f.email) ==> a.email == f.email.value)
    && (Given(f.search) ==> Mentions(a, f.search.value))
  }

  /** An upper date bound (end_date, created_before, updated_before) on the
      last representable day: adding the day that makes it exclusive
      overflows, so the filters cannot be built. */
  predicate UpperBoundOverflows(f: Filters)
  {
    || (f.endDate.Some? && f.endDate.value >= LastDay)
    || (f.createdBefore.Some? && f.createdBefore.value >= LastDay)
    || (f.updatedBefore.Some? && f.updatedBefore.value >= LastDay)
  }

  /** The fuzzy search: the term in any one of the three fields. */
  predicate Mentions(a: Appointment, term: string)
    ensures Mentions(a, term) ==> |term| <= |a.name| || |term| <= |a.contact| || |term| <= |a.email|
  {
    IsSubstringIffOccurs(Lower(term), Lower(a.name));
    IsSubstringIffOccurs(Lower(term), Lower(a.contact));
    IsSubstringIffOccurs(Lower(term), Lower(a.email));
    ContainsIgnoringCase(a.name, term) || ContainsIgnoringCase(a.contact, term)
    || ContainsIgnoringCase(a.email, term)
  }

  /** With no filter supplied every row is kept. */
  lemma NoFiltersKeepAll(a: Appointment)
    ensures Matches(a, NoFilters)
  {
  }

  /** g supplies every filter f supplies, with the same value, and may
      supply more. */
  predicate Narrows(g: Filters, f: Filters)
  {
    && (f.status.Some? ==> g.status == f.status)
    && (f.startDate.Some? ==> g.startDate == f.startDate)
    && (f.endDate.Some? ==> g.endDate == f.endDate)
    && (f.createdAfter.Some? ==> g.createdAfter == f.createdAfter)
    && (f.createdBefore.Some? ==> g.createdBefore == f.createdBefore)
    && (f.updatedAfter.Some? ==> g.updatedAfter == f.updatedAfter)
    && (f.updatedBefore.Some? ==> g.updatedBefore == f.updatedBefore)
    && (Given(f.name) ==> g.name == f.name)
    && (Given(f.contact) ==> g.contact == f.contact)
    && (Given(f.email) ==> g.email == f.email)
    && (Given(f.search) ==> g.search == f.search)
  }

  /** The ids of the stored rows the filter set keeps. */
  function MatchingIds(records: map<Id, Appointment>, f: Filters): set<Id>
  {
    set id | id in records && Matches(records[id], f)
  }

  /** Adding filters never enlarges the result, nor its count. */
  lemma NarrowingNeverWidens(records: map<Id, Appointment>, f: Filters, g: Filters)
    requires Narrows(g, f)
    ensures MatchingIds(records, g) <= MatchingIds(records, f)
    ensures |MatchingIds(records, g)| <= |MatchingIds(records, f)|
  {
    SubsetCard(MatchingIds(records, g), MatchingIds(records, f));
  }

  lemma {:induction false} SubsetCard(a: set<Id>, b: set<Id>)
    requires a <= b
    ensures |a| <= |b|
    decreases |b|
  {
    if a != {} {
      var x :| x in a;
      SubsetCard(a - {x}, b - {x});
    }
  }

  /** An upper date bound keeps the whole named day and nothing after it. */
  lemma UpperBoundKeepsWholeDay(a: Appointment, d: Day)
    ensures var f := NoFilters.(createdBefore := Some(d));
            Matches(a, f) <==> a.createdAt < DayStart(d) + SecondsPerDay
    ensures var f := NoFilters.(createdBefore := Some(d));
            a.createdAt == DayStart(d) + SecondsPerDay - 1 ==> Matches(a, f)
  {
  }

  /** A lower date bound keeps its own midnight. */
  lemma LowerBoundInclusive(a: Appointment, d: Day)
    ensures var f := NoFilters.(createdAfter := Some(d));
            Matches(a, f) <==> a.createdAt >= DayStart(d)
  {
  }

  /** The search term is matched without regard to ASCII case: two terms
      that fold to the same text keep the same rows. */
  lemma SearchIgnoresCase(a: Appointment, t: string, u: string)
    requires Lower(t) == Lower(u)
    ensures Matches(a, NoFilters.(search := Some(t))) <==> Matches(a, NoFilters.(search := Some(u)))
  {
  }

  /** A search term that occurs, case folded, anywhere in the name, the
      contact or the email keeps the row; one that occurs in none of them
      drops it. */
  lemma SearchFindsOccurrence(a: Appointment, t: string)
    requires t != []
    ensures Matches(a, NoFilters.(search := Some(t))) <==>
      OccursIn(Lower(t), Lower(a.name)) || OccursIn(Lower(t), Lower(a.contact))
      || OccursIn(Lower(t), Lower(a.email))
  {
    IsSubstringIffOccurs(Lower(t), Lower(a.name));
    IsSubstringIffOccurs(Lower(t), Lower(a.contact));
    IsSubstringIffOccurs(Lower(t), Lower(a.email));
    assert Given(Some(t));
  }

  /** An empty search term is ignored, as a falsy value is. */
  lemma EmptySearchIgnored(a: Appointment)
    ensures Matches(a, NoFilters.(search := Some("")))
  {
  }

  // ---------------------------------------------------------------
  // Ordering
  // ---------------------------------------------------------------

  /** The sortable columns of the appointments table. */
  datatype Column =
    | IdColumn | NameColumn | EmailColumn | ContactColumn | StatusColumn
    | NotesColumn | ReasonColumn | DateColumn | CreatedColumn | UpdatedColumn

  const ColumnNames: set<string> :=
    {"id", "name", "email", "contact", "status", "notes", "cancellation_reason",
     "appointment_date", "created_at", "updated_at"}

  /** Attributes of the model class that are not columns: the table
      name and repr declared with the model, and the members SQLModel and
      pydantic give every model class. getattr finds these instead of
      falling back, and they have no ordering to ask for. */
  const OtherAttributes: set<string> :=
    {"__tablename__", "__repr__", "__table__", "__init__", "__class__", "__dict__", "__doc__",
     "__module__", "metadata", "registry", "model_config", "model_fields", "model_dump",
     "model_dump_json", "model_validate", "model_copy", "model_json_schema"}

  /** getattr(model, order_by, created_at): the column named by order_by;
      None when the name is a class attribute that is not a column; any
      other name falls back to created_at. */
  function ColumnNamed(name: string): (c: Option<Column>)
    ensures c.None? <==> name in OtherAttributes
    ensures c == Some(CreatedColumn) <==> name == "created_at" || (name !in ColumnNames && name !in OtherAttributes)
  {
    if name == "id" then Some(IdColumn)
    else if name == "name" then Some(NameColumn)
    else if name == "email" then Some(EmailColumn)
    else if name == "contact" then Some(ContactColumn)
    else if name == "status" then Some(StatusColumn)
    else if name == "notes" then Some(NotesColumn)
    else if name == "cancellation_reason" then Some(ReasonColumn)
    else if name == "appointment_date" then Some(DateColumn)
    else if name == "updated_at" then Some(UpdatedColumn)
    else if name in OtherAttributes then None
    else Some(CreatedColumn)
  }

  function Codes(s: string): seq<int>
  {
    seq(|s|, i requires 0 <= i < |s| => s[i] as int)
  }

  /** A nullable value sorts after every present one. */
  function NullsLast(present: bool, key: seq<int>): seq<int>
  {
    if present then [0] + key else [1]
  }

  /** The sort key of a row for a column: text by code points, the status
      by its declaration order, null last in ascending order. */
  function SortKey(a: Appointment, c: Column): seq<int>
  {
    match c
    case IdColumn => [a.id]
    case NameColumn => Codes(a.name)
    case EmailColumn => Codes(a.email)
    case ContactColumn => Codes(a.contact)
    case StatusColumn => [StatusRank(a.status)]
    case NotesColumn => NullsLast(a.notes.Some?, if a.notes.Some? then Codes(a.notes.value) else [])
    case ReasonColumn => NullsLast(a.cancellationReason.Some?, if a.cancellationReason.Some? then Codes(a.cancellationReason.value) else [])
    case DateColumn => NullsLast(a.appointmentDate.Some?, if a.appointmentDate.Some? then [a.appointmentDate.value] else [])
    case CreatedColumn => [a.createdAt]
    case UpdatedColumn => [a.updatedAt]
  }

  function KeyOf(records: map<Id, Appointment>, c: Column): Id -> seq<int>
  {
    id => if id in records then SortKey(records[id], c) else []
  }

  /** An ordering of exactly the matching ids, sorted on the column. */
  predicate IsListing(ids: seq<Id>, records: map<Id, Appointment>, f: Filters, c: Column, desc: bool)
  {
    && (forall i :: 0 <= i < |ids| ==> ids[i] in records)
    && multiset(ids) == multiset(MatchingIds(records, f))
    && SortedBy(ids, KeyOf(records, c), desc)
  }

  /** A page of rows and the count of all rows the filters keep. */
  datatype Page = Page(items: seq<Appointment>, total: nat)

  // ---------------------------------------------------------------
  // Field updates
  // ---------------------------------------------------------------

  /** A value for a timestamp column: a datetime, or a string together with
      what ISO parsing makes of it (None when it does not parse). */
  datatype TimeValue = At(time: Timestamp) | Iso(parsed: Option<Timestamp>)

  /** One entry of fields_to_update. */
  datatype Assignment =
    | SetName(name: string)
    | SetEmail(email: string)
    | SetContact(contact: string)
    | SetStatus(status: Status)
    | SetNotes(notes: Option<string>)
    | SetReason(reason: Option<string>)
    | SetDate(date: Option<Timestamp>)
    | SetCreatedAt(created: TimeValue)
    | SetUpdatedAt(updated: TimeValue)

  /** A string timestamp that does not parse becomes the current time. */
  function TimeOf(v: TimeValue, now: Timestamp): Timestamp
  {
    match v
    case At(t) => t
    case Iso(p) => if p.Some? then p.value else now
  }

  /** setattr for one entry. */
  function Assign(a: Appointment, f: Assignment, now: Timestamp): Appointment
  {
    match f
    case SetName(v) => a.(name := v)
    case SetEmail(v) => a.(email := v)
    case SetContact(v) => a.(contact := v)
    case SetStatus(v) => a.(status := v)
    case SetNotes(v) => a.(notes := v)
    case SetReason(v) => a.(cancellationReason := v)
    case SetDate(v) => a.(appointmentDate := v)
    case SetCreatedAt(v) => a.(createdAt := TimeOf(v, now))
    case SetUpdatedAt(v) => a.(updatedAt := TimeOf(v, now))
  }

  /** The entries applied in order. */
  function AssignAll(a: Appointment, fs: seq<Assignment>, now: Timestamp): Appointment
  {
    if fs == [] then a else Assign(AssignAll(a, fs[..|fs| - 1], now), fs[|fs| - 1], now)
  }

  /** The row after the update is written: the assignments, then the
      column default that refreshes updated_at unless it was assigned. An
      empty dictionary dirties no attribute, so no UPDATE is emitted and
      the default does not fire. */
  function Updated(a: Appointment, fs: seq<Assignment>, now: Timestamp): (r: Appointment)
    ensures r.id == a.id
    ensures fs == [] ==> r == a
    ensures fs != [] && (forall k :: 0 <= k < |fs| ==> !fs[k].SetUpdatedAt?) ==> r.updatedAt == now
  {
    AssignAllReads(a, fs, now, NameField);
    var b := AssignAll(a, fs, now);
    if fs == [] || exists k :: 0 <= k < |fs| && fs[k].SetUpdatedAt? then b else b.(updatedAt := now)
  }

  /** The updatable columns, and a generic view of their values. */
  datatype Field = NameField | EmailField | ContactField | StatusField | NotesField
                 | ReasonField | DateField | CreatedField | UpdatedField

  datatype Value =
    | Text(text: string)
    | MaybeText(maybeText: Option<string>)
    | StatusOf(status: Status)
    | MaybeTime(maybeTime: Option<Timestamp>)
    | Time(time: Timestamp)

  function Get(a: Appointment, fld: Field): Value
  {
    match fld
    case NameField => Text(a.name)
    case EmailField => Text(a.email)
    case ContactField => Text(a.contact)
    case StatusField => StatusOf(a.status)
    case NotesField => MaybeText(a.notes)
    case ReasonField => MaybeText(a.cancellationReason)
    case DateField => MaybeTime(a.appointmentDate)
    case CreatedField => Time(a.createdAt)
    case UpdatedField => Time(a.updatedAt)
  }

  function Target(f: Assignment): Field
  {
    match f
    case SetName(_) => NameField
    case SetEmail(_) => EmailField
    case SetContact(_) => ContactField
    case SetStatus(_) => StatusField
    case SetNotes(_) => NotesField
    case SetReason(_) => ReasonField
    case SetDate(_) => DateField
    case SetCreatedAt(_) => CreatedField
    case SetUpdatedAt(_) => UpdatedField
  }

  function Written(f: Assignment, now: Timestamp): Value
  {
    match f
    case SetName(v) => Text(v)
    case SetEmail(v) => Text(v)
    case SetContact(v) => Text(v)
    case SetStatus(v) => StatusOf(v)
    case SetNotes(v) => MaybeText(v)
    case SetReason(v) => MaybeText(v)
    case SetDate(v) => MaybeTime(v)
    case SetCreatedAt(v) => Time(TimeOf(v, now))
    case SetUpdatedAt(v) => Time(TimeOf(v, now))
  }

  /** The value of the last entry for the column, if any. */
  function LastWrite(fs: seq<Assignment>, fld: Field, now: Timestamp): Option<Value>
  {
    if fs == [] then None
    else if Target(fs[|fs| - 1]) == fld then Some(Written(fs[|fs| - 1], now))
    else LastWrite(fs[..|fs| - 1], fld, now)
  }

  lemma {:induction false} LastWriteNone(fs: seq<Assignment>, fld: Field, now: Timestamp)
    ensures LastWrite(fs, fld, now).None? <==> forall k :: 0 <= k < |fs| ==> Target(fs[k]) != fld
  {
    if fs != [] {
      LastWriteNone(fs[..|fs| - 1], fld, now);
    }
  }

  /** The update assigns exactly the listed columns, the last entry for a
      column winning, and leaves every other column and the id alone. */
  lemma {:induction false} AssignAllReads(a: Appointment, fs: seq<Assignment>, now: Timestamp, fld: Field)
    ensures AssignAll(a, fs, now).id == a.id
    ensures Get(AssignAll(a, fs, now), fld) ==
              if LastWrite(fs, fld, now).Some? then LastWrite(fs, fld, now).value else Get(a, fld)
  {
    if fs != [] {
      AssignAllReads(a, fs[..|fs| - 1], now, fld);
      AssignReads(AssignAll(a, fs[..|fs| - 1], now), fs[|fs| - 1], now, fld);
    }
  }

  /** One entry writes its own column and leaves the others and the id
      alone. */
  lemma AssignReads(a: Appointment, f: Assignment, now: Timestamp, fld: Field)
    ensures Assign(a, f, now).id == a.id
    ensures Get(Assign(a, f, now), fld) == if Target(f) == fld then Written(f, now) else Get(a, fld)
  {
  }

  /** fields_to_update with the timestamp entries popped. */
  function StripTimestamps(fs: seq<Assignment>): (r: seq<Assignment>)
    ensures forall k :: 0 <= k < |r| ==> !r[k].SetCreatedAt? && !r[k].SetUpdatedAt?
    ensures forall fld, now :: fld != CreatedField && fld != UpdatedField ==>
              LastWrite(r, fld, now) == LastWrite(fs, fld, now)
  {
    if fs == [] then []
    else
      var init := StripTimestamps(fs[..|fs| - 1]);
      var last := fs[|fs| - 1];
      if last.SetCreatedAt? || last.SetUpdatedAt? then init
      else
        assert (init + [last])[..|init|] == init;
        init + [last]
  }

  /** Whatever the caller put in the dictionary, a stripped update keeps
      created_at, and sets updated_at to the time of the write whenever an
      assignment is left to write (otherwise the row is not written). */
  lemma StrippedUpdateTimestamps(a: Appointment, fs: seq<Assignment>, now: Timestamp)
    ensures Updated(a, StripTimestamps(fs), now).createdAt == a.createdAt
    ensures StripTimestamps(fs) != [] ==> Updated(a, StripTimestamps(fs), now).updatedAt == now
    ensures StripTimestamps(fs) == [] ==> Updated(a, StripTimestamps(fs), now).updatedAt == a.updatedAt
  {
    var r := StripTimestamps(fs);
    LastWriteNone(r, CreatedField, now);
    AssignAllReads(a, r, now, CreatedField);
    assert AssignAll(a, r, now).createdAt == a.createdAt;
    assert !(exists k :: 0 <= k < |r| && r[k].SetUpdatedAt?);
  }

  // ---------------------------------------------------------------
  // The repository
  // ---------------------------------------------------------------

  class AppointmentRepository {
    var records: map<Id, Appointment>

    /** Every row is stored under its own id and fits its columns. */
    ghost predicate Valid()
      reads this
    {
      forall id :: id in records ==> records[id].id == id && FitsColumns(records[id])
    }

    constructor ()
      ensures Valid() && records == map[]
    {
      records := map[];
    }

    /** The row with the given primary key, if any. */
    method Get(id: Id) returns (r: Option<Appointment>)
      requires Valid()
      ensures r.Some? <==> id in records
      ensures r.Some? ==> r.value == records[id] && r.value.id == id
    {
      if id in records {
        r := Some(records[id]);
      } else {
        r := None;
      }
    }

    /** The pending request filed under an email, if there is one; more
        than one such row is a store error. */
    method GetByEmail(email: string) returns (r: Result<Option<Appointment>>)
      requires Valid()
      ensures r == Ok(None) <==> PendingWithEmail(records, email) == {}
      ensures r.Err? <==> |PendingWithEmail(records, email)| >= 2
      ensures r.Ok? && r.value.Some? ==>
                PendingWithEmail(records, email) == {r.value.value.id}
                && records[r.value.value.id] == r.value.value
                && r.value.value.email == email && r.value.value.status == Pending
    {
      var keep := (a: Appointment) => a.email == email && a.status == Pending;
      var ids := SelectIds(records, keep);
      assert KeysWhere(records, keep) == PendingWithEmail(records, email);
      if |ids| == 0 {
        r := Ok(None);
      } else if |ids| == 1 {
        var id := ids[0];
        assert id in multiset(ids);
        SingletonSet(PendingWithEmail(records, email), id);
        r := Ok(Some(records[id]));
      } else {
        r := Err(InternalError);
      }
    }

    /** A page of the filtered rows in the requested order, and the count
        of all filtered rows regardless of the page. An upper date bound on
        the last representable day overflows while the filters are built,
        and ordering by a class attribute that is not a column raises; the
        error handler turns either into a store error. */
    method GetAll(skip: nat, limit: nat, filters: Filters, orderBy: string, orderDesc: bool)
      returns (r: Result<Page>)
      requires Valid()
      ensures r.Err? <==> UpperBoundOverflows(filters) || orderBy in OtherAttributes
      ensures r.Err? ==> r.error == InternalError
      ensures r.Ok? ==> r.value.total == |MatchingIds(records, filters)|
      ensures r.Ok? ==> |r.value.items| <= limit
      ensures r.Ok? ==> forall i :: 0 <= i < |r.value.items| ==>
                var a := r.value.items[i]; a.id in records && records[a.id] == a && Matches(a, filters)
      ensures r.Ok? ==> exists ids :: IsListing(ids, records, filters, ColumnNamed(orderBy).value, orderDesc)
                                      && r.value.items == PageOf(Rows(records, ids), skip, limit)
    {
      if UpperBoundOverflows(filters) {
        return Err(InternalError);
      }
      var keep := (a: Appointment) => Matches(a, filters);
      var found := SelectIds(records, keep);
      assert KeysWhere(records, keep) == MatchingIds(records, filters);
      var total := |found|;
      var column := ColumnNamed(orderBy);
      if column.None? {
        return Err(InternalError);
      }
      var ids := SortBy(found, KeyOf(records, column.value), orderDesc);
      forall i | 0 <= i < |ids| ensures ids[i] in MatchingIds(records, filters) {
        assert ids[i] in multiset(ids);
      }
      assert IsListing(ids, records, filters, column.value, orderDesc);
      r := Ok(Page(PageOf(Rows(records, ids), skip, limit), total));
    }

    /** INSERT: a clashing id or an overflowing column is a store error and
        stores nothing. */
    method Create(a: Appointment) returns (r: Result<Appointment>)
      requires Valid()
      modifies this
      ensures Valid()
      ensures r.Err? <==> a.id in old(records) || !FitsColumns(a)
      ensures r.Err? ==> r.error == InternalError && records == old(records)
      ensures r.Ok? ==> r.value == a && records == old(records)[a.id := a]
    {
      if a.id in records || !FitsColumns(a) {
        r := Err(InternalError);
      } else {
        records := records[a.id := a];
        r := Ok(a);
      }
    }

    /** Assign each listed field in turn, then write the row. */
    method Update(id: Id, fields: seq<Assignment>, now: Timestamp) returns (r: Result<Appointment>)
      requires Valid() && id in records
      modifies this
      ensures Valid()
      ensures var b := Updated(old(records)[id], fields, now);
              if FitsColumns(b) then r == Ok(b) && records == old(records)[id := b]
              else r == Err(InternalError) && records == old(records)
    {
      var row := records[id];
      var i := 0;
      while i < |fields|
        invariant 0 <= i <= |fields|
        invariant row == AssignAll(records[id], fields[..i], now)
      {
        assert fields[..i + 1][..i] == fields[..i];
        row := Assign(row, fields[i], now);
        i := i + 1;
      }
      assert fields[..i] == fields;
      if fields != [] && !(exists k :: 0 <= k < |fields| && fields[k].SetUpdatedAt?) {
        row := row.(updatedAt := now);
      }
      AssignAllReads(records[id], fields, now, NameField);
      if FitsColumns(row) {
        records := records[id := row];
        r := Ok(row);
      } else {
        r := Err(InternalError);
      }
    }

    /** DELETE by primary key; every other row is kept. */
    method Delete(id: Id)
      requires Valid()
      modifies this
      ensures Valid()
      ensures records == old(records) - {id}
    {
      records := records - {id};
    }
  }

  /** The ids of the pending rows filed under an email. */
  function PendingWithEmail(records: map<Id, Appointment>, email: string): set<Id>
  {
    set id | id in records && records[id].email == email && records[id].status == Pending
  }

  lemma SingletonSet(s: set<Id>, x: Id)
    requires |s| == 1 && x in s
    ensures s == {x}
  {
    if s != {x} {
      var y :| y in s && y != x;
      assert {x, y} <= s;
      SubsetCard({x, y}, s);
    }
  }
}
