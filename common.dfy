/** Values shared by every layer: optional values, results, and the
    error kinds the services raise. */
module Common {

  datatype Option<T> = None | Some(value: T)

  /** The error taxonomy of the services: a rejected input, a missing
      record, an illegal transition, a duplicate, and a store failure. */
  datatype Error =
    | ValidationError(message: string)
    | NotFound(resource: string)
    | BadRequest(action: string, currentStatus: string)
    | AlreadyExists(resource: string)
    | InternalError

  datatype Result<T> = Ok(value: T) | Err(error: Error)
  {
    predicate IsFailure()
    {
      Err?
    }

    function PropagateFailure<U>(): Result<U>
      requires Err?
    {
      Err(error)
    }

    function Extract(): T
      requires Ok?
    {
      value
    }
  }

  /** Python truthiness of an optional string: present and non-empty. */
  predicate Given(s: Option<string>)
  {
    s.Some? && s.value != []
  }

  function Min(a: int, b: int): int
  {
    if a <= b then a else b
  }

  /** A record's primary key (a UUID in the database). */
  type Id = nat

  /** A wall-clock timestamp, in seconds since the epoch (UTC). */
  type Timestamp = int

  /** A calendar date, as a day number since the epoch. */
  type Day = int

  const SecondsPerDay: int := 86400

  /** 9999-12-31, the last day Python's date type can hold; a day after it
      cannot be represented. */
  const LastDay: Day := 2932896

  /** Midnight (UTC) at the start of day d. */
  function DayStart(d: Day): Timestamp
  {
    d * SecondsPerDay
  }
}
