/** The appointment record as the database stores it, and its five
    statuses. */
module AppointmentModel {
  import opened Common

  /** The lifecycle status; exactly five values. */
  datatype Status = Pending | Upcoming | Completed | Cancelled | Rejected

  /** The enum's value, as it appears in requests and responses. */
  function StatusValue(s: Status): string
  {
    match s
    case Pending => "pending"
    case Upcoming => "upcoming"
    case Completed => "completed"
    case Cancelled => "cancelled"
    case Rejected => "rejected"
  }

  /** The enum lookup by value; anything else is not a status. */
  function ParseStatus(v: string): (r: Option<Status>)
    ensures r.Some? ==> StatusValue(r.value) == v
  {
    if v == "pending" then Some(Pending)
    else if v == "upcoming" then Some(Upcoming)
    else if v == "completed" then Some(Completed)
    else if v == "cancelled" then Some(Cancelled)
    else if v == "rejected" then Some(Rejected)
    else None
  }

  /** Every status is recognised from its own value. */
  lemma ParseStatusValue(s: Status)
    ensures ParseStatus(StatusValue(s)) == Some(s)
  {
  }

  /** Position in the declaration, which is the order the database's enum
      type sorts by. */
  function StatusRank(s: Status): int
  {
    match s
    case Pending => 0
    case Upcoming => 1
    case Completed => 2
    case Cancelled => 3
    case Rejected => 4
  }

  /** Widths of the bounded text columns. */
  const NameWidth: nat := 100
  const EmailWidth: nat := 100
  const ContactWidth: nat := 20

  datatype Appointment = Appointment(
    id: Id,
    name: string,
    email: string,
    contact: string,
    status: Status,
    notes: Option<string>,
    cancellationReason: Option<string>,
    appointmentDate: Option<Timestamp>,
    createdAt: Timestamp,
    updatedAt: Timestamp)

  /** The database rejects a row whose bounded columns overflow. */
  predicate FitsColumns(a: Appointment)
  {
    |a.name| <= NameWidth && |a.email| <= EmailWidth && |a.contact| <= ContactWidth
  }

  /** A record built from its required columns: the status defaults to
      pending, and notes, reason and date to null. */
  function NewAppointment(id: Id, name: string, email: string, contact: string,
                          createdAt: Timestamp, updatedAt: Timestamp): (a: Appointment)
    ensures a.status == Pending
    ensures a.notes == None && a.cancellationReason == None && a.appointmentDate == None
    ensures a.id == id && a.name == name && a.email == email && a.contact == contact
    ensures a.createdAt == createdAt && a.updatedAt == updatedAt
  {
    Appointment(id, name, email, contact, Pending, None, None, None, createdAt, updatedAt)
  }
}
