/**
 * The Maplerad source-address gate: the allowlist shared by
 * src/app/webhook/webhook.controller.ts and src/app/webhook/webhook.service.ts,
 * the controller's port stripping and header precedence, and the service's own
 * (different) address choice.
 */
module IpAllowlist {
  import opened Wrappers
  import opened Errors

  const MapleradAddresses: seq<string> := [
    "54.216.8.72", "54.173.54.49", "52.215.16.239", "52.55.123.25", "52.6.93.106",
    "63.33.109.123", "44.228.126.217", "50.112.21.217", "52.24.126.164", "54.148.139.208"]

  /** The request headers that carry a client address; `None` when a header is absent. */
  datatype Headers = Headers(xRealIp: Option<string>, trueClientIp: Option<string>, xForwardedFor: Option<string>)

  const UnauthorizedMessage := "Unauthorized request"

  /** `address.split(":")[0]`: the text before the first ':', or all of it. */
  function StripPort(address: string): (host: string)
    ensures ':' !in host
    ensures ':' !in address ==> host == address
    ensures ':' in address ==> |host| < |address| && address[..|host|] == host && address[|host|] == ':'
  {
    if address == [] then []
    else if address[0] == ':' then []
    else [address[0]] + StripPort(address[1..])
  }

  /**
   * The controller's source address: the first truthy header among x-real-ip,
   * true-client-ip and x-forwarded-for; when none is truthy, JavaScript's `||`
   * yields the last operand as it is (absent or empty).
   */
  function ControllerAddress(h: Headers): (a: Option<string>)
    ensures Truthy(h.xRealIp) ==> a == h.xRealIp
    ensures !Truthy(h.xRealIp) && Truthy(h.trueClientIp) ==> a == h.trueClientIp
    ensures !Truthy(h.xRealIp) && !Truthy(h.trueClientIp) ==> a == h.xForwardedFor
    ensures a.Some? ==> a == h.xRealIp || a == h.trueClientIp || a == h.xForwardedFor
  {
    if Truthy(h.xRealIp) then h.xRealIp
    else if Truthy(h.trueClientIp) then h.trueClientIp
    else h.xForwardedFor
  }

  /**
   * `checkMapleradIPAddress`: strips a port and looks the host up in the allowlist.
   * Called with no address at all it fails with the TypeError of `undefined.includes`.
   */
  function CheckMapleradAddress(address: Option<string>): (r: Result<bool, AppError>)
    ensures r.Success? <==> address.Some? && StripPort(address.value) in MapleradAddresses
    ensures r.Success? ==> r.value
    ensures address.Some? && r.Failure? ==> r.error == Unauthorized(UnauthorizedMessage)
    ensures address.None? ==> r.Failure? && r.error.Plain?
  {
    match address
    case None => Failure(Plain("Cannot read properties of undefined (reading 'includes')"))
    case Some(a) =>
      var host := StripPort(a);
      if host !in MapleradAddresses then Failure(Unauthorized(UnauthorizedMessage))
      else Success(true)
  }

  /**
   * The address `handleCardCreation` checks: x-real-ip, or true-client-ip when
   * x-real-ip is missing or empty; x-forwarded-for is never consulted.
   */
  function CreationServiceAddress(h: Headers): (a: Option<string>)
    ensures Truthy(h.xRealIp) ==> a == h.xRealIp
    ensures !Truthy(h.xRealIp) ==> a == h.trueClientIp
  {
    if Truthy(h.xRealIp) then h.xRealIp else h.trueClientIp
  }

  /** The service-side test: exact membership, with no port stripping; an absent address is not a member. */
  predicate ServiceAllows(address: Option<string>)
  {
    address.Some? && address.value in MapleradAddresses
  }

  /**
   * The two gates disagree: an allowlisted host with a port passes the
   * controller's check and is then refused by `handleCardCreation`.
   */
  lemma PortedAddressPassesOnlyTheController()
    ensures var h := Headers(Some("54.216.8.72:443"), None, None);
      CheckMapleradAddress(ControllerAddress(h)) == Success(true) &&
      !ServiceAllows(CreationServiceAddress(h))
  {
    StripPortOfHostAndPort("54.216.8.72", "443");
    assert "54.216.8.72" + ":" + "443" == "54.216.8.72:443";
    assert forall m :: m in MapleradAddresses ==> |m| < 15;
  }

  /** A host followed by ":" and a port strips back to the host. */
  lemma {:induction false} StripPortOfHostAndPort(host: string, port: string)
    requires ':' !in host
    ensures StripPort(host + ":" + port) == host
  {
    if host != [] {
      assert (host + ":" + port)[1..] == host[1..] + ":" + port;
      StripPortOfHostAndPort(host[1..], port);
    }
  }

  /** An address that only x-forwarded-for carries passes the controller and never the service. */
  lemma ForwardedAddressPassesOnlyTheController(address: string)
    requires address in MapleradAddresses
    ensures var h := Headers(None, None, Some(address));
      CheckMapleradAddress(ControllerAddress(h)) == Success(true) &&
      !ServiceAllows(CreationServiceAddress(h))
  {
    assert ':' !in address;
  }
}
