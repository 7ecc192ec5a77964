/** Outcomes of the scheduling operations.

    The controller answers a failed request either directly (404 for a
    missing or foreign record, 400 for a taken time or an uncancellable
    appointment) or by handing a schema validation error to the error
    middleware; the route guards answer 401 and 403. Each of these becomes
    one constructor of `Error`. */
module Results {

  datatype Option<+T> = None | Some(value: T)

  datatype Error =
    | NotFound          // record missing, or owned by someone else (404)
    | Conflict          // "This time slot is already booked" (400)
    | CannotCancel      // "Cannot cancel this appointment" (400)
    | ValidationError   // the schema refused the document on create/save
    | Unauthorized      // no usable bearer token (401)
    | Forbidden         // authenticated, but with the wrong role (403)

  datatype Result<+T> = Ok(value: T) | Err(error: Error) {
    predicate IsFailure() {
      Err?
    }

    function PropagateFailure<U>(): Result<U>
      requires Err?
    {
      Err(error)
    }

    function Extract(): T
      requires Ok?
    {
      value
    }
  }
}
