/**
 * The outcome of an HTTP call to Maplerad, the FX and card provider. The calls
 * themselves are not modelled: each service method receives the reply it gets.
 */
module Maplerad {
  import opened Wrappers
  import opened Errors

  /** A reply whose body carries a `status` flag, or a transport failure raised by the HTTP client. */
  datatype Reply = Replied(status: bool) | Transport(message: string)

  /**
   * The helpers that return the reply's status when it is truthy, throw
   * `failure` when it is not, and let a transport error propagate unchanged.
   */
  function StatusCall(reply: Reply, failure: string): (r: Result<bool, AppError>)
    ensures r.Success? <==> reply == Replied(true)
    ensures r.Success? ==> r.value
    ensures reply == Replied(false) ==> r == Failure(Plain(failure))
    ensures reply.Transport? ==> r == Failure(Plain(reply.message))
  {
    match reply
    case Replied(status) => if status then Success(status) else Failure(Plain(failure))
    case Transport(message) => Failure(Plain(message))
  }
}
