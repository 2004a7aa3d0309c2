/** Shared vocabulary: optional values, the error taxonomy of the ledger
    controllers and the results that carry them. */
module Common {

  datatype Option<+T> = None | Some(value: T) {
    function GetOr(default: T): T {
      match this
      case Some(v) => v
      case None => default
    }
  }

  /** The error responses of the controllers: HTTP 400 for ValidationError and
      InsufficientFunds, 404 for NotFound; Conflict is the duplicate-key failure. */
  datatype Error = ValidationError | NotFound | InsufficientFunds | Conflict

  datatype Result<+T> = Ok(value: T) | Err(error: Error)

  /** A result without a payload (the controllers answer with a message only). */
  datatype Outcome = Pass | Fail(error: Error)

  function Min(a: int, b: int): int {
    if a <= b then a else b
  }
}
