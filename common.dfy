/** Shared vocabulary of the backend: identifiers, clock values, optional
    values and the JSON response a controller sends. */
module Common {

  /** A MongoDB ObjectId, abstracted to a natural number. */
  type Id = nat

  /** A timestamp as Mongoose's `timestamps` option records it. */
  type Time = nat

  datatype Option<T> = None | Some(value: T)

  /** The `:postId` route parameter. `WellFormed` is what
      `mongoose.Types.ObjectId.isValid` accepts (and what `findById` can
      cast); anything else is `Malformed`. */
  datatype ObjectIdParam = WellFormed(id: Id) | Malformed(text: string)

  /** `res.status(status).json(body)`: the body carries an optional
      `message` and an optional payload (the rest of the JSON object). */
  datatype Response<T> = Response(status: int, message: Option<string>, payload: Option<T>)

  const Ok := 200
  const Created := 201
  const BadRequest := 400
  const Unauthorized := 401
  const NotFound := 404
  const Conflict := 409
  const InternalError := 500

  /** A response made of a status and a message only. */
  function Fail<T>(status: int, message: string): (r: Response<T>)
    ensures r.status == status && r.message == Some(message) && r.payload.None?
  {
    Response(status, Some(message), None)
  }

  /** What every controller's `catch` block sends: the error is logged
      and only a generic message leaves the server. */
  function ServerError<T>(): (r: Response<T>)
    ensures r.status == InternalError && r.message == Some("Server error") && r.payload.None?
  {
    Fail(InternalError, "Server error")
  }
}
