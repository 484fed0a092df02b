/** The appointment service: the lifecycle of a request (pending, then
    upcoming, then cancelled or rejected), the listing with its paging
    checks, and the writes, over the appointment repository. */
module AppointmentService {
  import opened Common
  import opened AppointmentModel
  import opened AppointmentCrud
  import opened AppointmentSchema
  import opened Pagination
  import opened Store
  import opened Validators

  // ---------------------------------------------------------------
  // The lifecycle as a state table
  // ---------------------------------------------------------------

  /** The transitions the service offers on a stored record. */
  datatype Action = Confirm | Reschedule | Cancel | Reject

  /** The name the refusal message gives the action. */
  function ActionName(act: Action): string
  {
    match act
    case Confirm => "confirm"
    case Reschedule => "reschedule"
    case Cancel => "cancel"
    case Reject => "reject"
  }

  /** The stored status an action demands before it writes anything;
      reschedule demands none. */
  function RequiredStatus(act: Action): Option<Status>
  {
    match act
    case Confirm => Some(Pending)
    case Reschedule => None
    case Cancel => Some(Upcoming)
    case Reject => Some(Upcoming)
  }

  /** The status after an action, or None when the stored status refuses it. */
  function Step(s: Status, act: Action): (r: Option<Status>)
    ensures r.Some? <==> RequiredStatus(act).None? || RequiredStatus(act) == Some(s)
    ensures act == Reschedule ==> r == Some(s)
  {
    match act
    case Confirm => if s == Pending then Some(Upcoming) else None
    case Reschedule => Some(s)
    case Cancel => if s == Upcoming then Some(Cancelled) else None
    case Reject => if s == Upcoming then Some(Rejected) else None
  }

  /** Statuses no action leaves. */
  predicate IsTerminal(s: Status)
  {
    s == Completed || s == Cancelled || s == Rejected
  }

  /** A sequence of actions, each refused one leaving the status as it was. */
  function Run(s: Status, acts: seq<Action>): Status
    decreases |acts|
  {
    if acts == [] then s
    else
      var next := Step(s, acts[0]);
      Run(if next.Some? then next.value else s, acts[1..])
  }

  /** Nothing ever produces completed: a run ends there only if it began there. */
  lemma {:induction false} RunNeverCompletes(s: Status, acts: seq<Action>)
    ensures Run(s, acts) == Completed ==> s == Completed
    decreases |acts|
  {
    if acts != [] {
      var next := Step(s, acts[0]);
      RunNeverCompletes(if next.Some? then next.value else s, acts[1..]);
    }
  }

  /** Once cancelled, rejected or completed, a record stays so. */
  lemma {:induction false} TerminalAbsorbing(s: Status, acts: seq<Action>)
    requires IsTerminal(s)
    ensures Run(s, acts) == s
  {
    if acts != [] {
      TerminalAbsorbing(s, acts[1..]);
    }
  }

  /** From a new request every run ends pending, upcoming, cancelled or
      rejected, and it is cancelled or rejected only after passing
      through upcoming, that is after a confirm. */
  lemma {:induction false} RunFromPending(acts: seq<Action>)
    ensures Run(Pending, acts) != Completed
    ensures Run(Pending, acts) != Pending ==> Confirm in acts
  {
    RunNeverCompletes(Pending, acts);
    if acts != [] {
      var next := Step(Pending, acts[0]);
      if next.Some? && next.value == Upcoming {
        assert acts[0] == Confirm;
      } else {
        assert next.None? || next.value == Pending;
        RunFromPending(acts[1..]);
        assert Confirm in acts[1..] ==> Confirm in acts;
      }
    }
  }

  /** Rejection is refused for a request still pending; only a confirmed
      (upcoming) record can be rejected or cancelled. */
  lemma RejectNeedsUpcoming(s: Status)
    ensures Step(s, Reject).Some? <==> s == Upcoming
    ensures Step(s, Cancel).Some? <==> s == Upcoming
    ensures Step(Pending, Reject).None?
  {
  }

  // ---------------------------------------------------------------
  // The record invariant the service keeps
  // ---------------------------------------------------------------

  /** What every record the service writes satisfies: never completed; a
      date once upcoming (and so once cancelled or rejected); a reason
      exactly when cancelled or rejected. */
  predicate Lawful(a: Appointment)
  {
    && a.status != Completed
    && (a.status != Pending ==> a.appointmentDate.Some?)
    && (a.cancellationReason.Some? <==> a.status == Cancelled || a.status == Rejected)
  }

  ghost predicate AllLawful(records: map<Id, Appointment>)
  {
    forall id :: id in records ==> Lawful(records[id])
  }

  // ---------------------------------------------------------------
  // The update dictionaries
  // ---------------------------------------------------------------

  /** confirm: the dumped payload (date, and notes when given), the new
      status, timestamps popped. */
  function ConfirmFields(data: ConfirmRequest): seq<Assignment>
  {
    StripTimestamps([SetDate(Some(Instant(data.appointmentDate)))]
                    + (if data.notes.Some? then [SetNotes(data.notes)] else [])
                    + [SetStatus(Upcoming)])
  }

  /** reschedule: the dumped payload, which is the date alone. */
  function RescheduleFields(data: RescheduleRequest): seq<Assignment>
  {
    StripTimestamps([SetDate(Some(Instant(data.appointmentDate)))])
  }

  /** cancel and reject: the reason and the new status. */
  function CancelFields(data: CancelRequest, status: Status): seq<Assignment>
  {
    StripTimestamps([SetReason(Some(data.cancellationReason)), SetStatus(status)])
  }

  /** The fields a transition writes, by action. */
  function ActionFields(act: Action, confirm: ConfirmRequest, reschedule: RescheduleRequest,
                        cancel: CancelRequest): seq<Assignment>
  {
    match act
    case Confirm => ConfirmFields(confirm)
    case Reschedule => RescheduleFields(reschedule)
    case Cancel => CancelFields(cancel, Cancelled)
    case Reject => CancelFields(cancel, Rejected)
  }

  /** Confirming sets the status, the date and any given notes, refreshes
      updated_at and leaves the rest of the record alone. */
  lemma ConfirmOutcome(a: Appointment, data: ConfirmRequest, now: Timestamp)
    ensures Updated(a, ConfirmFields(data), now)
              == a.(status := Upcoming, appointmentDate := Some(Instant(data.appointmentDate)),
                    notes := if data.notes.Some? then data.notes else a.notes, updatedAt := now)
  {
    var d := SetDate(Some(Instant(data.appointmentDate)));
    var fs := [d] + (if data.notes.Some? then [SetNotes(data.notes)] else []) + [SetStatus(Upcoming)];
    if data.notes.Some? {
      assert fs == [d, SetNotes(data.notes), SetStatus(Upcoming)];
      StripThree(d, SetNotes(data.notes), SetStatus(Upcoming));
      AssignThree(a, d, SetNotes(data.notes), SetStatus(Upcoming), now);
    } else {
      assert fs == [d, SetStatus(Upcoming)];
      StripTwo(d, SetStatus(Upcoming));
      AssignTwo(a, d, SetStatus(Upcoming), now);
    }
  }

  /** Rescheduling changes the date and updated_at and nothing else. */
  lemma RescheduleOutcome(a: Appointment, data: RescheduleRequest, now: Timestamp)
    ensures Updated(a, RescheduleFields(data), now)
              == a.(appointmentDate := Some(Instant(data.appointmentDate)), updatedAt := now)
  {
    var d := SetDate(Some(Instant(data.appointmentDate)));
    StripOne(d);
    AssignOne(a, d, now);
  }

  /** Cancelling or rejecting sets the status and the reason and refreshes
      updated_at, leaving the date and the notes alone. */
  lemma CancelOutcome(a: Appointment, data: CancelRequest, status: Status, now: Timestamp)
    ensures Updated(a, CancelFields(data, status), now)
              == a.(status := status, cancellationReason := Some(data.cancellationReason), updatedAt := now)
  {
    var x, y := SetReason(Some(data.cancellationReason)), SetStatus(status);
    StripTwo(x, y);
    AssignTwo(a, x, y, now);
  }

  lemma StripOne(x: Assignment)
    requires !x.SetCreatedAt? && !x.SetUpdatedAt?
    ensures StripTimestamps([x]) == [x]
  {
    assert [x][..0] == [];
    assert StripTimestamps([]) == [];
    assert [] + [x] == [x];
  }

  lemma StripTwo(x: Assignment, y: Assignment)
    requires !x.SetCreatedAt? && !x.SetUpdatedAt? && !y.SetCreatedAt? && !y.SetUpdatedAt?
    ensures StripTimestamps([x, y]) == [x, y]
  {
    assert [x, y][..1] == [x];
    StripOne(x);
    assert [x] + [y] == [x, y];
  }

  lemma StripThree(x: Assignment, y: Assignment, z: Assignment)
    requires !x.SetCreatedAt? && !x.SetUpdatedAt? && !y.SetCreatedAt? && !y.SetUpdatedAt?
    requires !z.SetCreatedAt? && !z.SetUpdatedAt?
    ensures StripTimestamps([x, y, z]) == [x, y, z]
  {
    assert [x, y, z][..2] == [x, y];
    StripTwo(x, y);
  }

  lemma AssignOne(a: Appointment, x: Assignment, now: Timestamp)
    ensures AssignAll(a, [x], now) == Assign(a, x, now)
  {
    assert [x][..0] == [];
  }

  lemma AssignTwo(a: Appointment, x: Assignment, y: Assignment, now: Timestamp)
    ensures AssignAll(a, [x, y], now) == Assign(Assign(a, x, now), y, now)
  {
    assert [x, y][..1] == [x];
    AssignOne(a, x, now);
  }

  lemma AssignThree(a: Appointment, x: Assignment, y: Assignment, z: Assignment, now: Timestamp)
    ensures AssignAll(a, [x, y, z], now) == Assign(Assign(Assign(a, x, now), y, now), z, now)
  {
    assert [x, y, z][..2] == [x, y];
    AssignTwo(a, x, y, now);
  }

  /** The record a successful transition writes follows the state table
      and keeps the record invariant. */
  lemma TransitionKeepsLawful(a: Appointment, act: Action, confirm: ConfirmRequest,
                              reschedule: RescheduleRequest, cancel: CancelRequest, now: Timestamp)
    requires Lawful(a) && Step(a.status, act).Some?
    ensures Updated(a, ActionFields(act, confirm, reschedule, cancel), now).status == Step(a.status, act).value
    ensures Lawful(Updated(a, ActionFields(act, confirm, reschedule, cancel), now))
  {
    match act
    case Confirm => ConfirmOutcome(a, confirm, now);
    case Reschedule => RescheduleOutcome(a, reschedule, now);
    case Cancel => CancelOutcome(a, cancel, Cancelled, now);
    case Reject => CancelOutcome(a, cancel, Rejected, now);
  }

  /** Rescheduling a pending request gives it a date but leaves it
      pending: it does not confirm it. */
  lemma RescheduleDoesNotConfirm(a: Appointment, data: RescheduleRequest, now: Timestamp)
    requires a.status == Pending
    ensures Updated(a, RescheduleFields(data), now).status == Pending
    ensures Updated(a, RescheduleFields(data), now).appointmentDate.Some?
  {
    RescheduleOutcome(a, data, now);
  }

  // ---------------------------------------------------------------
  // The service
  // ---------------------------------------------------------------

  class AppointmentService {
    const repository: AppointmentRepository

    constructor (repository: AppointmentRepository)
      requires repository.Valid() && AllLawful(repository.records)
      ensures this.repository == repository && Valid()
    {
      this.repository := repository;
    }

    /** The repository is consistent and every stored record is lawful. */
    ghost predicate Valid()
      reads this, repository
    {
      repository.Valid() && AllLawful(repository.records)
    }

    /** The stored record, or NotFound. */
    method GetAppointmentById(id: Id) returns (r: Result<Appointment>)
      requires Valid()
      ensures r.Ok? <==> id in repository.records
      ensures r.Ok? ==> r.value == repository.records[id] && r.value.id == id
      ensures r.Err? ==> r.error == NotFound("Appointment")
    {
      var found := repository.Get(id);
      if found.None? {
        return Err(NotFound("Appointment"));
      }
      r := Ok(found.value);
    }

    /** The listing: the paging arguments are checked first, then a page
        of the filtered, ordered rows is fetched, each of its rows is
        validated again as an AppointmentResponse, and the page is
        numbered. */
    method GetAllAppointments(skip: int, limit: int, filters: Filters, orderBy: string, orderDesc: bool,
                              checkEmail: FormatCheck)
      returns (r: Result<ListResponse<Appointment>>)
      requires Valid()
      ensures CheckPaging(skip, limit).Some? ==> r == Err(CheckPaging(skip, limit).value)
      ensures CheckPaging(skip, limit).None? && (UpperBoundOverflows(filters) || orderBy in OtherAttributes) ==>
                r == Err(InternalError)
      ensures (&& CheckPaging(skip, limit).None? && !UpperBoundOverflows(filters) && orderBy !in OtherAttributes
               && forall id :: id in MatchingIds(repository.records, filters) ==>
                                 ResponseRow(repository.records[id], checkEmail).Ok?)
              ==> r.Ok?
      ensures r.Ok? ==>
                && WellFormed(r.value)
                && r.value.total == |MatchingIds(repository.records, filters)|
                && r.value.size == limit
                && r.value.page == skip / limit + 1
                && r.value.pages == PageCount(r.value.total, limit)
                && (exists ids :: IsListing(ids, repository.records, filters, ColumnNamed(orderBy).value, orderDesc)
                                  && ResponseRows(PageOf(Rows(repository.records, ids), skip, limit), checkEmail)
                                     == Ok(r.value.items))
      ensures r.Err? && CheckPaging(skip, limit).None? && !UpperBoundOverflows(filters) && orderBy !in OtherAttributes ==>
                && r.error.ValidationError?
                && (exists ids :: IsListing(ids, repository.records, filters, ColumnNamed(orderBy).value, orderDesc)
                                  && ResponseRows(PageOf(Rows(repository.records, ids), skip, limit), checkEmail)
                                     == Err(r.error))
    {
      var e := CheckPaging(skip, limit);
      if e.Some? {
        return Err(e.value);
      }
      var page :- repository.GetAll(skip, limit, filters, orderBy, orderDesc);
      var items :- ResponseRows(page.items, checkEmail);
      r := Ok(Respond(items, page.total, skip, limit));
    }

    /** A public request: stored pending, with no date or reason, both
        timestamps now. */
    method CreatePendingRequest(data: PublicRequest, id: Id, now: Timestamp) returns (r: Result<Appointment>)
      requires Valid()
      modifies repository
      ensures Valid()
      ensures var a := NewAppointment(id, data.name, data.email, data.contact, now, now).(notes := data.notes);
              if id in old(repository.records) || !FitsColumns(a) then
                r == Err(InternalError) && repository.records == old(repository.records)
              else
                r == Ok(a) && repository.records == old(repository.records)[id := a]
    {
      var a := NewAppointment(id, data.name, data.email, data.contact, now, now).(notes := data.notes);
      r := repository.Create(a);
    }

    /** A staff booking: stored upcoming with its date, both timestamps now. */
    method ScheduleAppointment(data: AdminRequest, id: Id, now: Timestamp) returns (r: Result<Appointment>)
      requires Valid()
      modifies repository
      ensures Valid()
      ensures var a := Appointment(id, data.name, data.email, data.contact, Upcoming, data.notes, None,
                                   Some(Instant(data.appointmentDate)), now, now);
              if id in old(repository.records) || !FitsColumns(a) then
                r == Err(InternalError) && repository.records == old(repository.records)
              else
                r == Ok(a) && repository.records == old(repository.records)[id := a]
    {
      var a := Appointment(id, data.name, data.email, data.contact, Upcoming, data.notes, None,
                           Some(Instant(data.appointmentDate)), now, now);
      r := repository.Create(a);
    }

    /** The shared shape of the four transitions: load, check the stored
        status, write the action's fields. */
    method Transition(id: Id, act: Action, confirm: ConfirmRequest, reschedule: RescheduleRequest,
                      cancel: CancelRequest, now: Timestamp) returns (r: Result<Appointment>)
      requires Valid()
      modifies repository
      ensures Valid()
      ensures id !in old(repository.records) ==>
                r == Err(NotFound("Appointment")) && repository.records == old(repository.records)
      ensures id in old(repository.records) && Step(old(repository.records)[id].status, act).None? ==>
                r == Err(BadRequest(ActionName(act), StatusValue(old(repository.records)[id].status)))
                && repository.records == old(repository.records)
      ensures id in old(repository.records) && Step(old(repository.records)[id].status, act).Some? ==>
                var b := Updated(old(repository.records)[id], ActionFields(act, confirm, reschedule, cancel), now);
                b.status == Step(old(repository.records)[id].status, act).value
                && if FitsColumns(b) then r == Ok(b) && repository.records == old(repository.records)[id := b]
                   else r == Err(InternalError) && repository.records == old(repository.records)
    {
      var found := GetAppointmentById(id);
      if found.Err? {
        return Err(found.error);
      }
      var a := found.value;
      if Step(a.status, act).None? {
        return Err(BadRequest(ActionName(act), StatusValue(a.status)));
      }
      var fields := ActionFields(act, confirm, reschedule, cancel);
      TransitionKeepsLawful(a, act, confirm, reschedule, cancel, now);
      r := repository.Update(id, fields, now);
    }

    /** pending -> upcoming, with the date and any notes. */
    method ConfirmAppointment(id: Id, data: ConfirmRequest, now: Timestamp) returns (r: Result<Appointment>)
      requires Valid()
      modifies repository
      ensures Valid()
      ensures id !in old(repository.records) ==>
                r == Err(NotFound("Appointment")) && repository.records == old(repository.records)
      ensures id in old(repository.records) && old(repository.records)[id].status != Pending ==>
                r == Err(BadRequest("confirm", StatusValue(old(repository.records)[id].status)))
                && repository.records == old(repository.records)
      ensures id in old(repository.records) && old(repository.records)[id].status == Pending ==>
                var a := old(repository.records)[id];
                var b := a.(status := Upcoming, appointmentDate := Some(Instant(data.appointmentDate)),
                            notes := if data.notes.Some? then data.notes else a.notes, updatedAt := now);
                if FitsColumns(b) then r == Ok(b) && repository.records == old(repository.records)[id := b]
                else r == Err(InternalError) && repository.records == old(repository.records)
    {
      if id in repository.records {
        ConfirmOutcome(repository.records[id], data, now);
      }
      r := Transition(id, Confirm, data, RescheduleRequest(data.appointmentDate), CancelRequest([]), now);
    }

    /** A new date, whatever the status. */
    method RescheduleAppointment(id: Id, data: RescheduleRequest, now: Timestamp) returns (r: Result<Appointment>)
      requires Valid()
      modifies repository
      ensures Valid()
      ensures id !in old(repository.records) ==>
                r == Err(NotFound("Appointment")) && repository.records == old(repository.records)
      ensures id in old(repository.records) ==>
                var b := old(repository.records)[id].(appointmentDate := Some(Instant(data.appointmentDate)),
                                                      updatedAt := now);
                if FitsColumns(b) then r == Ok(b) && repository.records == old(repository.records)[id := b]
                else r == Err(InternalError) && repository.records == old(repository.records)
    {
      if id in repository.records {
        RescheduleOutcome(repository.records[id], data, now);
      }
      r := Transition(id, Reschedule, ConfirmRequest(data.appointmentDate, None), data, CancelRequest([]), now);
    }

    /** upcoming -> cancelled, with the reason. */
    method CancelAppointment(id: Id, data: CancelRequest, now: Timestamp) returns (r: Result<Appointment>)
      requires Valid()
      modifies repository
      ensures Valid()
      ensures id !in old(repository.records) ==>
                r == Err(NotFound("Appointment")) && repository.records == old(repository.records)
      ensures id in old(repository.records) && old(repository.records)[id].status != Upcoming ==>
                r == Err(BadRequest("cancel", StatusValue(old(repository.records)[id].status)))
                && repository.records == old(repository.records)
      ensures id in old(repository.records) && old(repository.records)[id].status == Upcoming ==>
                var b := old(repository.records)[id].(status := Cancelled,
                           cancellationReason := Some(data.cancellationReason), updatedAt := now);
                if FitsColumns(b) then r == Ok(b) && repository.records == old(repository.records)[id := b]
                else r == Err(InternalError) && repository.records == old(repository.records)
    {
      if id in repository.records {
        CancelOutcome(repository.records[id], data, Cancelled, now);
      }
      r := Transition(id, Cancel, ConfirmRequest(DateTime(0, None), None), RescheduleRequest(DateTime(0, None)),
                      data, now);
    }

    /** upcoming -> rejected, with the reason; a pending request cannot
        be rejected. */
    method RejectAppointment(id: Id, data: CancelRequest, now: Timestamp) returns (r: Result<Appointment>)
      requires Valid()
      modifies repository
      ensures Valid()
      ensures id !in old(repository.records) ==>
                r == Err(NotFound("Appointment")) && repository.records == old(repository.records)
      ensures id in old(repository.records) && old(repository.records)[id].status != Upcoming ==>
                r == Err(BadRequest("reject", StatusValue(old(repository.records)[id].status)))
                && repository.records == old(repository.records)
      ensures id in old(repository.records) && old(repository.records)[id].status == Upcoming ==>
                var b := old(repository.records)[id].(status := Rejected,
                           cancellationReason := Some(data.cancellationReason), updatedAt := now);
                if FitsColumns(b) then r == Ok(b) && repository.records == old(repository.records)[id := b]
                else r == Err(InternalError) && repository.records == old(repository.records)
    {
      if id in repository.records {
        CancelOutcome(repository.records[id], data, Rejected, now);
      }
      r := Transition(id, Reject, ConfirmRequest(DateTime(0, None), None), RescheduleRequest(DateTime(0, None)),
                      data, now);
    }

    /** Removes the record, or fails with NotFound and removes nothing. */
    method DeleteAppointment(id: Id) returns (r: Result<string>)
      requires Valid()
      modifies repository
      ensures Valid()
      ensures id !in old(repository.records) ==>
                r == Err(NotFound("Appointment")) && repository.records == old(repository.records)
      ensures id in old(repository.records) ==>
                r == Ok("Appointment deleted successfully") && repository.records == old(repository.records) - {id}
    {
      var found := repository.Get(id);
      if found.None? {
        return Err(NotFound("Appointment"));
      }
      repository.Delete(id);
      r := Ok("Appointment deleted successfully");
    }
  }
}
