/**
 * Maplerad and Paystack webhooks: the card-creation handlers of
 * src/app/webhook/webhook.service.ts and the event dispatch of
 * src/app/webhook/webhook.controller.ts.
 */
module Webhook {
  import opened Wrappers
  import opened Errors
  import opened Records
  import opened IpAllowlist
  import opened VirtualCards
  import opened Db

  const InternalServerError := "Internal Server Error"
  const CardCreated := "issuing.created.successful"
  const CardCreationFailed := "issuing.created.failed"
  const ChargeSuccess := "charge.success"
  const Received := "Webhook received"

  /** The webhook body fields the handlers read: `event`, `reference`, `card` and `data.reference`. */
  datatype WebhookBody = WebhookBody(event: string, reference: string, card: CardDetails, dataReference: string)

  /**
   * `handleCardCreation`: for an allowlisted caller with a known request, marks
   * the request SUCCESS and creates its card, unless a card with that reference
   * already exists. Every failure is rethrown as "Internal Server Error".
   */
  method HandleCardCreation(s: Store, h: Headers, body: WebhookBody) returns (r: Result<bool, AppError>)
    modifies s`cardRequests, s`cards
    ensures r.Failure? ==> r.error == Plain(InternalServerError)
    ensures r.Success? ==> r.value
    // an address outside the allowlist, or an unknown reference, changes nothing
    ensures !ServiceAllows(CreationServiceAddress(h)) || body.reference !in old(s.cardRequests) ==>
      r.Failure? && s.cardRequests == old(s.cardRequests) && s.cards == old(s.cards)
    ensures ServiceAllows(CreationServiceAddress(h)) && body.reference in old(s.cardRequests) ==>
      var request := old(s.cardRequests)[body.reference];
      // the status is set before the duplicate check, so a repeat delivery still leaves SUCCESS
      && s.cardRequests == old(s.cardRequests)[body.reference := request.(status := Succeeded)]
      && (FindCardByReference(old(s.cards), body.reference).Some? ==> r.Failure? && s.cards == old(s.cards))
      && (FindCardByReference(old(s.cards), body.reference).None? ==>
            r == Success(true) && s.cards == old(s.cards) + [NewCard(request.user, body.reference, body.card)])
    ensures OneCardPerReference(old(s.cards)) ==> OneCardPerReference(s.cards)
  {
    var requestAddress := CreationServiceAddress(h);
    if !ServiceAllows(requestAddress) {
      return Failure(Plain(InternalServerError));
    }
    var cardReference := body.reference;
    if cardReference !in s.cardRequests {
      return Failure(Plain(InternalServerError));
    }
    var request := s.cardRequests[cardReference];
    s.cardRequests := s.cardRequests[cardReference := request.(status := Succeeded)];
    if FindCardByReference(s.cards, cardReference).Some? {
      return Failure(Plain(InternalServerError));
    }
    var card := NewCard(request.user, cardReference, body.card);
    if OneCardPerReference(s.cards) {
      AddCardKeepsOnePerReference(s.cards, card);
    }
    s.cards := s.cards + [card];
    r := Success(true);
  }

  /**
   * `handleCardCreationFailed`: for a caller whose x-real-ip is allowlisted and a
   * known request, sets the request FAILED (whatever its status was). No card is
   * created.
   */
  method HandleCardCreationFailed(s: Store, h: Headers, body: WebhookBody) returns (r: Result<(), AppError>)
    modifies s`cardRequests
    ensures r.Failure? ==> r.error == Plain(InternalServerError) && s.cardRequests == old(s.cardRequests)
    ensures r.Success? <==> ServiceAllows(h.xRealIp) && body.reference in old(s.cardRequests)
    ensures r.Success? ==>
      s.cardRequests == old(s.cardRequests)[body.reference := old(s.cardRequests)[body.reference].(status := Failed)]
  {
    var requestAddress := h.xRealIp;
    if !ServiceAllows(requestAddress) {
      return Failure(Plain(InternalServerError));
    }
    var cardReference := body.reference;
    if cardReference !in s.cardRequests {
      return Failure(Plain(InternalServerError));
    }
    s.cardRequests := s.cardRequests[cardReference := s.cardRequests[cardReference].(status := Failed)];
    r := Success(());
  }

  /**
   * `handleWebhook`: each known event is matched by exact string in its own `if`.
   * The two card events pass the controller's address check and then run their
   * handler, whose outcome the controller does not wait for; `charge.success`
   * hands `data.reference` to the wallet service's deposit crediting, with no
   * address check. `creditOutcome` is that call's error, if it throws.
   */
  method HandleWebhook(s: Store, h: Headers, body: WebhookBody, creditOutcome: Option<AppError>)
    returns (r: Result<string, AppError>)
    modifies s`cardRequests, s`cards, s`depositCredits
    ensures r.Success? ==> r.value == Received
    // unknown events do nothing and are still acknowledged
    ensures body.event !in {CardCreated, CardCreationFailed, ChargeSuccess} ==>
      r == Success(Received) && s.cardRequests == old(s.cardRequests) && s.cards == old(s.cards) &&
      s.depositCredits == old(s.depositCredits)
    // a card event from an address the controller refuses changes nothing
    ensures body.event in {CardCreated, CardCreationFailed} ==>
      var check := CheckMapleradAddress(ControllerAddress(h));
      && (check.Failure? ==> r == Failure(check.error) && s.cardRequests == old(s.cardRequests) && s.cards == old(s.cards))
      && (check.Success? ==> r == Success(Received))
      && s.depositCredits == old(s.depositCredits)
    // on issuing.created.successful the card-creation handler runs to completion
    ensures body.event == CardCreated && CheckMapleradAddress(ControllerAddress(h)).Success? ==>
      (!ServiceAllows(CreationServiceAddress(h)) || body.reference !in old(s.cardRequests) ==>
         s.cardRequests == old(s.cardRequests) && s.cards == old(s.cards)) &&
      (ServiceAllows(CreationServiceAddress(h)) && body.reference in old(s.cardRequests) ==>
         var request := old(s.cardRequests)[body.reference];
         && s.cardRequests == old(s.cardRequests)[body.reference := request.(status := Succeeded)]
         && (FindCardByReference(old(s.cards), body.reference).Some? ==> s.cards == old(s.cards))
         && (FindCardByReference(old(s.cards), body.reference).None? ==>
               s.cards == old(s.cards) + [NewCard(request.user, body.reference, body.card)]))
    // on issuing.created.failed the failure handler runs to completion
    ensures body.event == CardCreationFailed ==> s.cards == old(s.cards)
    ensures body.event == CardCreationFailed && CheckMapleradAddress(ControllerAddress(h)).Success? ==>
      (ServiceAllows(h.xRealIp) && body.reference in old(s.cardRequests) ==>
         s.cardRequests == old(s.cardRequests)[body.reference := old(s.cardRequests)[body.reference].(status := Failed)]) &&
      (!(ServiceAllows(h.xRealIp) && body.reference in old(s.cardRequests)) ==> s.cardRequests == old(s.cardRequests))
    ensures body.event == ChargeSuccess ==>
      s.cardRequests == old(s.cardRequests) && s.cards == old(s.cards) &&
      s.depositCredits == old(s.depositCredits) + [body.dataReference] &&
      r == (if creditOutcome.Some? then Failure(creditOutcome.value) else Success(Received))
    ensures OneCardPerReference(old(s.cards)) ==> OneCardPerReference(s.cards)
  {
    var requestAddress := ControllerAddress(h);
    if body.event == CardCreated {
      var check := CheckMapleradAddress(requestAddress);
      if check.Failure? {
        return Failure(check.error);
      }
      var _ := HandleCardCreation(s, h, body);
    }
    if body.event == CardCreationFailed {
      var check := CheckMapleradAddress(requestAddress);
      if check.Failure? {
        return Failure(check.error);
      }
      var _ := HandleCardCreationFailed(s, h, body);
    }
    if body.event == ChargeSuccess {
      s.depositCredits := s.depositCredits + [body.dataReference];
      if creditOutcome.Some? {
        return Failure(creditOutcome.value);
      }
    }
    r := Success(Received);
  }
}
