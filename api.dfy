/** Shared vocabulary of the request handlers: optional values, the values a
    JSON request body can carry, and the response envelope with its error kinds. */
module Api {

  datatype Option<+T> = None | Some(value: T)

  /** A value read from a request body or a stored document field.
      Absent stands for a missing key, `undefined` or `null`. */
  datatype Value = Absent | Text(text: string) | Num(num: real)

  /** JavaScript truthiness: a missing value, the empty string and the
      number 0 are falsy; everything else is truthy. */
  predicate Truthy(v: Value)
  {
    match v
    case Absent => false
    case Text(s) => s != ""
    case Num(n) => n != 0.0
  }

  /** JavaScript `v || fallback`. */
  function Or(v: Value, fallback: Value): (r: Value)
    ensures Truthy(v) ==> r == v
    ensures !Truthy(v) ==> r == fallback
    ensures Truthy(fallback) ==> Truthy(r)
  {
    if Truthy(v) then v else fallback
  }

  /** The error kinds the handlers raise, each answered with its HTTP status. */
  datatype ApiError = BadRequest | NotFound | Internal

  function StatusCode(e: ApiError): (code: int)
    ensures e.BadRequest? ==> code == 400
    ensures e.NotFound? ==> code == 404
    ensures e.Internal? ==> code == 500
  {
    match e
    case BadRequest => 400
    case NotFound => 404
    case Internal => 500
  }

  /** The response envelope: a success code with its payload, or an error. */
  datatype Response<+T> = Success(code: int, data: T) | Failure(error: ApiError)
}
