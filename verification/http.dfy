/** Controller replies as values: the HTTP status together with either the JSON
    payload or the `{ message }` error body, and the store the request leaves
    behind. */
module Http {
  import opened ReviewModel
  import opened Store

  /** Why a request was refused; `ServerError` is the controllers' `catch`
      branch, answering with the database error's message. */
  datatype Refusal = BadRequest(message: string) | NotFound(message: string) | ServerError(cause: DbError)

  /** `res.json(payload)` (200), `res.status(201).json(payload)`, or an error reply. */
  datatype Reply<T> = Ok(payload: T) | Created(payload: T) | Refused(failure: Refusal)

  /** A controller's effect: the store afterwards and the reply sent. */
  datatype Step<T> = Step(store: Store, reply: Reply<T>)

  const MissingFields: string := "Please add all fields"
  const ProductNotFound: string := "Product not found"
  const AlreadyReviewed: string := "You have already reviewed this product"

  /** The HTTP status code the reply is sent with. */
  function StatusOf<T>(r: Reply<T>): (code: int)
    ensures r.Refused? <==> code >= 400
    ensures r.Ok? <==> code == 200
    ensures r.Created? <==> code == 201
    ensures code == 400 <==> r.Refused? && r.failure.BadRequest?
    ensures code == 404 <==> r.Refused? && r.failure.NotFound?
    ensures code == 500 <==> r.Refused? && r.failure.ServerError?
  {
    match r
    case Ok(_) => 200
    case Created(_) => 201
    case Refused(BadRequest(_)) => 400
    case Refused(NotFound(_)) => 404
    case Refused(ServerError(_)) => 500
  }
}
