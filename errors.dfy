/**
 * The error classes of src/app/errors.ts. Each custom error fixes a status code
 * and keeps the message it was constructed with; `Plain` is a bare JavaScript
 * `Error`, which has no status code at all.
 */
module Errors {
  import opened Wrappers

  datatype AppError =
    | NotFound(message: string)
    | BadRequest(message: string)
    | Unprocessable(message: string)
    | Unauthorized(message: string)
    | Plain(message: string)

  /** A custom error is one of the subclasses of `CustomError`. */
  predicate IsCustom(e: AppError)
  {
    !e.Plain?
  }

  /** The `statusCode` field an error carries; `None` for a bare `Error`. */
  function StatusCode(e: AppError): (code: Option<int>)
    ensures code.Some? <==> IsCustom(e)
    ensures code.Some? ==> 400 <= code.value < 500
    // the four classes have distinct codes and each keeps its message unchanged
    ensures code.Some? ==> FromStatus(code.value, e.message) == Some(e)
  {
    match e
    case NotFound(_) => Some(404)
    case BadRequest(_) => Some(400)
    case Unprocessable(_) => Some(422)
    case Unauthorized(_) => Some(401)
    case Plain(_) => None
  }

  /** The custom error class for a status code, the inverse of `StatusCode`. */
  function FromStatus(code: int, message: string): (e: Option<AppError>)
    ensures e.Some? ==> IsCustom(e.value) && e.value.message == message
  {
    if code == 404 then Some(NotFound(message))
    else if code == 400 then Some(BadRequest(message))
    else if code == 422 then Some(Unprocessable(message))
    else if code == 401 then Some(Unauthorized(message))
    else None
  }

  const UserNotFound := "User not found"
  const InsufficientBalance := "Insufficient balance"

  /** The NotFound error the services raise when a user has no wallet in a currency. */
  function MissingWallet(currency: string): (e: AppError)
    ensures e.NotFound? && StatusCode(e) == Some(404)
  {
    NotFound("User does not have a " + currency + " wallet")
  }
}
