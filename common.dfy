/** Values shared by every request handler of the clinic backend. */
module Common {

  datatype Option<+T> = None | Some(value: T)

  /** Returns the value of `o`, or `fallback` when it is absent. */
  function GetOr<T>(o: Option<T>, fallback: T): T
  {
    match o
    case Some(v) => v
    case None => fallback
  }

  /** The role carried in the caller's token claims. */
  datatype Role = AdminRole | DoctorRole | ReceptionistRole | PatientRole | TechnicianRole

  /** The authenticated caller: its role claim and its identity (a user id). */
  datatype Actor = Actor(role: Role, userId: int)

  /** The answers a handler gives instead of success, each with the HTTP status it is sent as. */
  datatype Error =
    | BadRequest                              // 400
    | Unauthorized                            // 401
    | Forbidden                               // 403
    | NotFound                                // 404
    | Conflict                                // 409: a duplicate name or number
    | Overlap(id: int, start: int, end: int)  // 409: the doctor's clashing appointment
    | TooManyRequests                         // 429
    | ServerError                             // 500: an exception before anything is written

  /** The result of a handler: a payload, or the error it answers with. */
  datatype Outcome<+T> = Ok(value: T) | Fail(error: Error)

  /** Python truthiness of an optional string: None and "" are both dropped. */
  function NonEmpty(o: Option<string>): (r: Option<string>)
    ensures r.Some? <==> o.Some? && o.value != ""
    ensures r.Some? ==> r == o
  {
    if o.Some? && o.value != "" then o else None
  }
}
