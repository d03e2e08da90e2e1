/** Option and Result, the error-carrying shapes every other module uses. */
module Wrappers {
  datatype Option<+T> = None | Some(value: T) {
    function GetOr(default: T): T {
      if Some? then value else default
    }
  }

  datatype Result<+T, +E> = Ok(value: T) | Err(error: E)
}

/** The NestJS HTTP exceptions the core throws, each with its fixed message. */
module Http {
  datatype HttpError =
    | BadRequest(message: string)
    | Unauthorized(message: string)
    | NotFound(message: string)
    | InternalServerError(message: string)
}
