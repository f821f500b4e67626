/** Shared vocabulary of the back end: optional values, the error kinds the
    services throw, result wrappers, the clock units, and the "findOne"
    lookup that every repository query in the services performs. */
module Common {

  datatype Option<+T> = None | Some(value: T)

  /** The Nest exception classes the services throw; `Internal` is an
      uncaught runtime error, which Nest answers with status 500. */
  datatype ErrorKind = NotFound | BadRequest | Conflict | Unauthorized | Forbidden | Internal

  datatype Error = Error(kind: ErrorKind, message: string)

  datatype Result<+T> = Ok(value: T) | Err(error: Error)

  /** An operation that returns nothing or throws. */
  datatype Outcome = Pass | Fail(error: Error)

  /** Row identifiers (uuids in the database; fresh numbers here). */
  type Id = nat

  /** A point in time in milliseconds on the server's local clock, as `Date.getTime()`. */
  type Instant = int

  const MsPerMinute: int := 60000
  const MsPerDay: int := 86400000

  /** JavaScript truthiness of an optional string: `undefined`, `null` and `""` are falsy. */
  predicate Truthy(s: Option<string>) {
    s.Some? && s.value != ""
  }

  /** A field of a partial update: present overwrites, absent keeps what is
      stored (`Object.assign` copies only present properties, and `save`
      does not write undefined ones). */
  function OrOpt<T>(o: Option<T>, keep: Option<T>): Option<T> {
    if o.Some? then o else keep
  }

  /** A nullable field of a form: absent (`undefined`), an explicit `null`,
      or a value. */
  datatype Field<+T> = Absent | Null | Given(value: T)

  /** The stored value after `Object.assign` and `save`: an absent field
      keeps what is stored, `null` is written as NULL, a value overwrites. */
  function Assigned<T>(f: Field<T>, stored: Option<T>): Option<T> {
    match f
    case Absent => stored
    case Null => None
    case Given(v) => Some(v)
  }

  /** `repository.findOne({ where })`: the first row, in table order, that
      satisfies the where-condition, or nothing. */
  function FirstIndex<T>(rows: seq<T>, where: T -> bool): (r: Option<nat>)
    ensures r.Some? ==> r.value < |rows| && where(rows[r.value])
    ensures r.Some? ==> forall j :: 0 <= j < r.value ==> !where(rows[j])
    ensures r.None? <==> forall j :: 0 <= j < |rows| ==> !where(rows[j])
  {
    if |rows| == 0 then None
    else if where(rows[0]) then Some(0)
    else match FirstIndex(rows[1..], where)
      case None => None
      case Some(k) => Some(k + 1)
  }
}
