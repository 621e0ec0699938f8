/**
 * The Paystack fee estimator and transaction initialisation of
 * src/app/paystack/paystack.service.ts. Amounts are Naira as exact reals; the
 * service computes with IEEE doubles.
 */
module Paystack {
  import opened Wrappers
  import opened Errors

  const ChargeRate: real := 0.015
  const FlatFee: real := 100.0
  const MaxCharge: real := 2000.0

  const InitError := "Error initializing Paystack transaction"

  /** Paystack's charge on a gross amount: 1.5% plus 100, capped at 2000. */
  function Charge(amount: real): (c: real)
    ensures c <= MaxCharge && c <= amount * ChargeRate + FlatFee
    ensures c == MaxCharge || c == amount * ChargeRate + FlatFee
    ensures amount >= 0.0 ==> FlatFee <= c
  {
    var charge := amount * ChargeRate + FlatFee;
    if charge < MaxCharge then charge else MaxCharge
  }

  /** A larger gross amount never costs a smaller charge. */
  lemma ChargeMonotone(a: real, b: real)
    requires a <= b
    ensures Charge(a) <= Charge(b)
  {
  }

  /** True when the linear charge on `amount` already reaches the cap. */
  predicate Capped(amount: real)
  {
    amount * ChargeRate + FlatFee >= MaxCharge
  }

  /**
   * The fixed-point iteration `estimated := intended + Charge(estimated)`,
   * started at `intended` and stopped as soon as an estimate repeats. The source
   * loops without bound; here at most `fuel` rounds run, and `None` means the
   * estimate had not yet repeated.
   */
  method CalculatePayableAmount(intended: real, fuel: nat) returns (r: Option<real>)
    // the gross amount leaves exactly `intended` once Paystack takes its charge
    ensures r.Some? ==> r.value - Charge(r.value) == intended
    ensures r.Some? && intended >= 0.0 ==> intended + FlatFee <= r.value <= intended + MaxCharge
    // above the cap the loop stops in its second round, at intended + 2000
    ensures Capped(intended) && fuel >= 2 ==> r == Some(intended + MaxCharge)
  {
    var estimated := intended;
    var round := 0;
    while round < fuel
      invariant 0 <= round <= fuel
      invariant intended >= 0.0 ==> intended <= estimated <= intended + MaxCharge
      invariant Capped(intended) ==> (round == 0 && estimated == intended) || (round == 1 && estimated == intended + MaxCharge)
    {
      var charge := Charge(estimated);
      var next := intended + charge;
      if next == estimated {
        return Some(estimated);
      }
      if Capped(intended) {
        ChargeMonotone(intended, estimated);
      }
      estimated := next;
      round := round + 1;
    }
    return None;
  }

  /**
   * Below the cap the only fixed point is (intended + 100) / 0.985, and every
   * other estimate moves: with exact arithmetic the iteration approaches that
   * point without reaching it, so the source's loop stops there only because
   * doubles round.
   */
  lemma FixedPointBelowCap(intended: real, estimated: real)
    requires !Capped(estimated)
    ensures intended + Charge(estimated) == estimated <==> estimated == (intended + FlatFee) / (1.0 - ChargeRate)
  {
  }

  /** The smallest integer not below `x`, as `Math.ceil`. */
  function Ceil(x: real): (n: int)
    ensures n as real - 1.0 < x <= n as real
  {
    if x.Floor as real == x then x.Floor else x.Floor + 1
  }

  /** Paystack's answer to `POST /transaction/initialize`. */
  datatype PaystackReply =
    | Answered(status: bool, message: string, authorizationUrl: string)
    | HttpFailure(httpStatus: int, message: string, axiosMessage: string)
    | NoResponse

  /** The error the `.catch` handler raises for a failed request. */
  function RequestError(reply: PaystackReply): (e: AppError)
    requires !reply.Answered?
    ensures reply.HttpFailure? && reply.httpStatus in {404, 400, 422} ==>
      Some(e) == FromStatus(reply.httpStatus, reply.message)
    ensures !(reply.HttpFailure? && reply.httpStatus in {404, 400, 422}) ==> e.Plain?
    ensures reply.NoResponse? ==> e.message == "No response from Paystack while initializing transaction"
  {
    match reply
    case HttpFailure(code, message, axiosMessage) =>
      if code == 404 then NotFound(message)
      else if code == 400 then BadRequest(message)
      else if code == 422 then Unprocessable(message)
      else if message != "" then Plain(message)
      else Plain(axiosMessage)
    case NoResponse => Plain("No response from Paystack while initializing transaction")
  }

  /**
   * `initializeTransaction`: the configuration check, the gross amount sent in
   * kobo, and the outer catch that replaces every failure by one generic Error.
   * `configured` says whether the base URL and secret key are set. `r` is `None`
   * when the fee loop did not settle within `fuel` rounds.
   */
  method InitializeTransaction(configured: bool, amount: real, fuel: nat, reply: PaystackReply)
    returns (payable: Option<real>, sentKobo: Option<int>, r: Option<Result<string, AppError>>)
    ensures !configured ==> payable.None? && sentKobo.None? && r == Some(Failure(Plain(InitError)))
    ensures payable.Some? ==> payable.value - Charge(payable.value) == amount
    // the kobo amount sent is the payable amount rounded up to whole Naira, times 100
    ensures sentKobo.Some? <==> payable.Some?
    ensures payable.Some? ==> sentKobo == Some(Ceil(payable.value) * 100) && sentKobo.value >= 100 * payable.value.Floor
    ensures r.None? <==> configured && payable.None?
    // the 404/400/422 mapping never reaches the caller: every failure is the same plain Error
    ensures r.Some? && r.value.Failure? ==> r.value.error == Plain(InitError)
    ensures r.Some? && r.value.Success? <==> configured && payable.Some? && reply.Answered? && reply.status
    ensures r.Some? && r.value.Success? ==> r.value.value == reply.authorizationUrl
  {
    if !configured {
      return None, None, Some(Failure(Plain(InitError)));
    }
    payable := CalculatePayableAmount(amount, fuel);
    if payable.None? {
      return None, None, None;
    }
    var totalAmount := Ceil(payable.value);
    sentKobo := Some(totalAmount * 100);
    var outcome: Result<string, AppError>;
    if reply.Answered? {
      outcome := if reply.status then Success(reply.authorizationUrl) else Failure(Plain(reply.message));
    } else {
      outcome := Failure(RequestError(reply));
    }
    r := Some(if outcome.Failure? then Failure(Plain(InitError)) else outcome);
  }
}
