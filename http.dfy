/** The replies of the route handlers. */
module Http {
  import opened Validation

  /** `Success` is a JSON body with its status code (200 or 201). `Invalid` is the 400 reply
      of the validation step, which lists every error; the handler behind it did not run.
      `Refused` is an `{ error: message }` reply with the status code the handler chose (400 or
      404). `ServerError` is the 500 reply of a handler's `catch`; the engine's message is not
      modelled. */
  datatype Reply<T> = Success(code: int, value: T) | Invalid(errors: seq<FieldError>)
                    | Refused(code: int, message: string) | ServerError
}
