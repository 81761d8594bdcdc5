/** What an Express handler does with a request: answer with a status and a JSON
    body, or pass an error on to the application's error middleware with `next`. */
module Http {

  /** One entry of express-validator's `errors.array()`. */
  datatype FieldError = FieldError(field: string, msg: string)

  datatype Body<+T> =
    | Json(value: T)                    // res.json(value)
    | Errors(errors: seq<FieldError>)   // { errors: errors.array() }
    | Message(message: string)          // { message }
    | Denied                            // the auth middleware's own 401 reply

  datatype Response<+T> =
    | Respond(status: nat, body: Body<T>)
    | Forward(error: string)            // next(error): the error middleware answers

  function Reply<T>(status: nat, message: string): Response<T>
  {
    Respond(status, Message(message))
  }
}
