/**
 * The global error middleware of src/middlewares/error-handler.ts: an ordered
 * chain of tests that turns whatever a controller threw into an HTTP status
 * and a JSON body.
 */
module ErrorHandler {
  import opened Wrappers
  import opened Errors

  /** One class-validator `ValidationError`; `value` is dropped from the response. */
  datatype ValidationError = ValidationError(
    property: string,
    constraints: map<string, string>,
    children: seq<ValidationError>,
    value: string)

  /** The three fields of a validation error that the response keeps. */
  datatype ValidationSummary = ValidationSummary(
    property: string,
    constraints: map<string, string>,
    children: seq<ValidationError>)

  /**
   * What reaches the middleware: an error raised by the services, or an error of
   * the routing framework, which carries an `httpCode` (0 when it is absent) and,
   * for request validation, an `errors` array.
   */
  datatype Thrown =
    | App(error: AppError)
    | Routing(httpCode: int, message: string, errors: Option<seq<ValidationError>>)

  datatype Body = Body(message: string, errors: Option<seq<ValidationSummary>>, success: bool)

  datatype Response = Response(status: int, body: Body)

  const InternalMessage := "Internal server error"

  function Summarise(es: seq<ValidationError>): (r: seq<ValidationSummary>)
    ensures |r| == |es|
    ensures forall i :: 0 <= i < |es| ==>
      r[i].property == es[i].property && r[i].constraints == es[i].constraints && r[i].children == es[i].children
  {
    seq(|es|, i requires 0 <= i < |es| => ValidationSummary(es[i].property, es[i].constraints, es[i].children))
  }

  /** `error.statusCode || fallback` for a custom error. */
  function StatusOr(e: AppError, fallback: int): int
  {
    match StatusCode(e)
    case Some(c) => if c != 0 then c else fallback
    case None => fallback
  }

  function Handle(t: Thrown): (r: Response)
    // every body says the request failed
    ensures !r.body.success
    // NotFound, Unauthorized and BadRequest answer with their own status code and message
    ensures t.App? && IsCustom(t.error) && !t.error.Unprocessable? ==>
      Some(r.status) == StatusCode(t.error) && r.body == Body(t.error.message, None, false)
    // the class tests come first: any service error outside those three is a 500
    ensures t.App? && (t.error.Plain? || t.error.Unprocessable?) ==>
      r == Response(500, Body(InternalMessage, None, false))
    // a routing 400 with an errors array reports each error's property, constraints and children
    ensures t.Routing? && t.httpCode == 400 && t.errors.Some? ==>
      r.status == 400 && r.body.message == "Validation failed" &&
      r.body.errors.Some? && |r.body.errors.value| == |t.errors.value| &&
      forall i :: 0 <= i < |t.errors.value| ==>
        var e := t.errors.value[i];
        r.body.errors.value[i] == ValidationSummary(e.property, e.constraints, e.children)
    // any other routing error keeps its code and its message, if it has one
    ensures t.Routing? && t.httpCode != 0 && !(t.httpCode == 400 && t.errors.Some?) ==>
      r.status == t.httpCode && r.body.errors.None? &&
      r.body.message == (if t.message != "" then t.message else "An error occurred")
    ensures t.Routing? && t.httpCode == 0 ==> r == Response(500, Body(InternalMessage, None, false))
  {
    match t
    case App(e) =>
      if e.NotFound? then Response(StatusOr(e, 404), Body(e.message, None, false))
      else if e.Unauthorized? then Response(StatusOr(e, 401), Body(e.message, None, false))
      else if e.BadRequest? then Response(StatusOr(e, 400), Body(e.message, None, false))
      else Response(500, Body(InternalMessage, None, false))
    case Routing(code, message, errors) =>
      if code == 400 && errors.Some? then
        Response(400, Body("Validation failed", Some(Summarise(errors.value)), false))
      else if code != 0 then
        Response(code, Body(if message != "" then message else "An error occurred", None, false))
      else
        Response(500, Body(InternalMessage, None, false))
  }
}
