/**
 * What a handler writes to Express's `res`, as a value, and what a service
 * call can come back with in the newer controllers.
 */
module Http {
  import opened Wrappers

  /** A JSON response body: one record, a list, `null`, or `{ error: message }`. */
  datatype Body<E> = Entity(entity: E) | Entities(items: seq<E>) | Null | Error(error: string)

  /** `res.status(status).json(body)`; a bare `res.json(body)` has status 200. */
  datatype Response<E> = Response(status: nat, body: Body<E>)

  /** A caught value: an `Error` instance with its message, or anything else. */
  datatype Thrown = ErrorObject(message: string) | NonError

  /** How an awaited service call ends: a value, `null`, or a throw. */
  datatype ServiceOutcome<T> = Returned(value: T) | ReturnedNull | Threw(thrown: Thrown)

  /** What the controllers report for a thrown value that is not an `Error`. */
  const DatabaseFailed := "Database operation failed"

  /**
   * A request field as JavaScript's `!field` test sees it: true unless the field
   * is missing or the empty string.
   */
  predicate Truthy(field: Option<string>)
    ensures field.None? ==> !Truthy(field)
    ensures field == Some("") ==> !Truthy(field)
    ensures Truthy(field) <==> field.Some? && |field.value| > 0
  {
    field.Some? && field.value != ""
  }

  /** Error responses carry `{ error }` bodies; success responses carry data. */
  predicate WellFormed<E>(r: Response<E>)
  {
    (r.status >= 400 <==> r.body.Error?) && r.status in {200, 201, 400, 404, 500}
  }

  /** The message a handler reports: an `Error`'s own message, else the generic one. */
  function MessageOf(e: Thrown): (m: string)
    ensures e.ErrorObject? ==> m == e.message
    ensures e.NonError? ==> m == DatabaseFailed
  {
    match e
    case ErrorObject(message) => message
    case NonError => DatabaseFailed
  }

  /**
   * The catch block shared by the message-matching handlers: the message is the
   * body, and it selects 400 exactly when it equals `known`, 500 otherwise.
   */
  function ThrownResponse<E>(e: Thrown, known: string): (r: Response<E>)
    ensures WellFormed(r)
    ensures r.body == Error(MessageOf(e))
    ensures r.status == 400 <==> MessageOf(e) == known
    ensures r.status == 500 <==> MessageOf(e) != known
  {
    Response(if MessageOf(e) == known then 400 else 500, Error(MessageOf(e)))
  }
}
