/** Optional values, and the exceptions the services raise. */
module Wrappers {

  datatype Option<+T> = None | Some(value: T)

  /** NotFound, BadRequest and InsufficientCredit are the service exceptions;
      Unprocessable is a request refused by its schema before the service runs. */
  datatype Error = NotFound | BadRequest | InsufficientCredit | Unprocessable

  datatype Result<+T> = Ok(value: T) | Err(error: Error)
}
