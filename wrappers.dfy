/** Option and Result: the optional values and the error returns of the handlers. */
module Wrappers {

  datatype Option<+T> = None | Some(value: T) {
    function GetOr(default: T): T {
      match this
      case Some(v) => v
      case None => default
    }
  }

  /** How a request handler fails: an error raised with
      `createError({ statusCode, statusMessage })`, or an exception it does not
      catch, which the HTTP framework answers with status 500. */
  datatype Failure = HttpError(code: nat, message: string) | Uncaught {
    function StatusCode(): nat {
      match this
      case HttpError(c, _) => c
      case Uncaught => 500
    }
  }

  datatype Result<+T> = Ok(value: T) | Err(error: Failure)
}
