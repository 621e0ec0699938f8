/**
 * FX quotes and their redemption: `generateFXQuote` of
 * src/app/currency-exchange/controllers/currency-exchange.controller.ts and
 * `exchangeCurrency` of src/app/currency-exchange/services/currency-exchange.service.ts.
 */
module CurrencyExchange {
  import opened Wrappers
  import opened Errors
  import opened Records
  import opened FxQuotes
  import opened Maplerad
  import opened Db

  const QuoteNotFound := "FX Quote not found"
  const ExchangeFailed := "Unable to process currency exchange, please try again later."

  /** Maplerad's answer to `POST /fx/quote`: its quote reference and its rate, or the error it raised. */
  datatype QuoteReply = Quoted(reference: string, rate: real) | QuoteFailed(message: string)

  datatype QuoteResponse = QuoteResponse(
    message: string,
    quoteReference: string,
    sourceAmount: real,
    targetAmount: real,
    exchangeRate: real)

  /**
   * `generateFXQuote`: asks Maplerad for a rate (sending the amount in minor
   * units), takes the stored margin off it, caches the quote under
   * "fx_" + reference, then gives the key a 180-second expiry. `margin` is the
   * margin document's value, `None` when there is no such document.
   */
  method GenerateFXQuote(s: Store, sourceCurrency: string, targetCurrency: string, amount: real,
                         reply: QuoteReply, margin: Option<real>)
    returns (sentAmount: real, r: Result<QuoteResponse, AppError>)
    modifies s`cache
    ensures sentAmount == ProviderAmount(amount)
    ensures r.Success? <==> reply.Quoted? && margin.Some?
    ensures r.Failure? ==> s.cache == old(s.cache)
    ensures reply.QuoteFailed? ==> r == Failure(Plain(reply.message))
    ensures r.Success? ==>
      var q := PriceQuote(amount, reply.rate, margin.value, reply.reference);
      // stored under exactly the key redemption reads, with an expiry of 180 seconds
      && s.cache == old(s.cache)[QuoteKey(reply.reference) := CacheEntry(StoreQuote(q, sourceCurrency, targetCurrency), Some(QuoteTtl))]
      // the response echoes the priced amounts unchanged
      && r.value == QuoteResponse("FX quote generated successfully", reply.reference, amount, q.targetAmount, q.exchangeRate)
  {
    sentAmount := ProviderAmount(amount);
    if reply.QuoteFailed? {
      return sentAmount, Failure(Plain(reply.message));
    }
    if margin.None? {
      return sentAmount, Failure(Plain("Cannot destructure property 'margin' of 'exchangeRateMargin' as it is null."));
    }
    var q := PriceQuote(amount, reply.rate, margin.value, reply.reference);
    var stored := StoreQuote(q, sourceCurrency, targetCurrency);
    var key := QuoteKey(q.quoteReference);
    s.cache := s.cache[key := CacheEntry(stored, None)];
    s.cache := s.cache[key := CacheEntry(stored, Some(QuoteTtl))];
    r := Success(QuoteResponse("FX quote generated successfully", q.quoteReference, q.sourceAmount, q.targetAmount, q.exchangeRate));
  }

  /**
   * Settlement as the service writes it: both wallets are read first, each
   * snapshot gets its new balance, and the two snapshots are saved in turn. When
   * source and target are one wallet, the second save overwrites the first.
   */
  function Settle(ws: seq<Wallet>, source: nat, target: nat, debit: real, credit: real): (r: seq<Wallet>)
    requires source < |ws| && target < |ws|
    ensures |r| == |ws|
    ensures forall k :: 0 <= k < |ws| && k != source && k != target ==> r[k] == ws[k]
    ensures r[source] == ws[source].(balance := r[source].balance)
    ensures r[target] == ws[target].(balance := r[target].balance)
    // two wallets: exactly debit leaves the source and exactly credit reaches the target
    ensures source != target ==>
      r[source].balance == ws[source].balance - debit && r[target].balance == ws[target].balance + credit &&
      TotalBalance(r) == TotalBalance(ws) - debit + credit
    // one wallet: the debit is lost and only the credit remains
    ensures source == target ==>
      r[source].balance == ws[source].balance + credit && TotalBalance(r) == TotalBalance(ws) + credit
  {
    var sourceBalance := ws[source].balance - debit;
    var targetBalance := ws[target].balance + credit;
    WithBalance(WithBalance(ws, source, sourceBalance), target, targetBalance)
  }

  /**
   * `exchangeCurrency`: redeems the quote cached under "fx_" + reference. The key
   * is deleted on every exit, so a reference settles at most once. Wallets and the
   * balance are checked before Maplerad is asked to execute; the wallets change
   * only after it succeeds. `reply` is Maplerad's answer to `POST /fx`.
   */
  method ExchangeCurrency(s: Store, userId: string, quoteReference: string, reply: Reply)
    returns (r: Result<bool, AppError>)
    modifies s`wallets, s`cache
    // single use: the quote is gone afterwards, whatever happened, and no other key is touched
    ensures s.cache == old(s.cache) - {QuoteKey(quoteReference)}
    ensures r.Failure? ==> s.wallets == old(s.wallets)
    ensures r.Success? ==> r.value
    ensures QuoteKey(quoteReference) !in old(s.cache) ==> r == Failure(NotFound(QuoteNotFound))
    ensures QuoteKey(quoteReference) in old(s.cache) ==>
      var q := Parse(old(s.cache)[QuoteKey(quoteReference)].quote);
      var source := FindWallet(old(s.wallets), userId, q.sourceCurrency);
      var target := FindWallet(old(s.wallets), userId, q.targetCurrency);
      && (userId !in s.users ==> r == Failure(NotFound(UserNotFound)))
      // a missing source wallet is reported before a missing target wallet
      && (userId in s.users && source.None? ==> r == Failure(MissingWallet(q.sourceCurrency)))
      && (userId in s.users && source.Some? && target.None? ==> r == Failure(MissingWallet(q.targetCurrency)))
      // a balance strictly below the amount fails before Maplerad is called; an equal balance proceeds
      && (userId in s.users && source.Some? && target.Some? && old(s.wallets)[source.value].balance < q.sourceAmount ==>
            r == Failure(Plain(InsufficientBalance)))
      && (userId in s.users && source.Some? && target.Some? && old(s.wallets)[source.value].balance >= q.sourceAmount ==>
            (r.Success? <==> reply == Replied(true)) && (r.Failure? ==> r == StatusCall(reply, ExchangeFailed)))
      && (r.Success? ==>
            userId in s.users && source.Some? && target.Some? &&
            s.wallets == Settle(old(s.wallets), source.value, target.value, q.sourceAmount, q.targetAmount))
  {
    var fxQuoteKey := QuoteKey(quoteReference);
    if fxQuoteKey !in s.cache {
      r := Failure(NotFound(QuoteNotFound));
    } else {
      var q := Parse(s.cache[fxQuoteKey].quote);
      if userId !in s.users {
        r := Failure(NotFound(UserNotFound));
      } else {
        var source := FindWallet(s.wallets, userId, q.sourceCurrency);
        var target := FindWallet(s.wallets, userId, q.targetCurrency);
        if source.None? {
          r := Failure(MissingWallet(q.sourceCurrency));
        } else if target.None? {
          r := Failure(MissingWallet(q.targetCurrency));
        } else if s.wallets[source.value].balance < q.sourceAmount {
          r := Failure(Plain(InsufficientBalance));
        } else {
          var executed := StatusCall(reply, ExchangeFailed);
          if executed.Failure? {
            r := executed;
          } else {
            s.wallets := Settle(s.wallets, source.value, target.value, q.sourceAmount, q.targetAmount);
            r := Success(true);
          }
        }
      }
    }
    s.cache := s.cache - {fxQuoteKey};
  }

  /** Redeeming a reference a second time always fails NotFound and moves no money. */
  method RedeemTwice(s: Store, userId: string, quoteReference: string, first: Reply, second: Reply)
    returns (r1: Result<bool, AppError>, r2: Result<bool, AppError>)
    modifies s`wallets, s`cache
    ensures r2 == Failure(NotFound(QuoteNotFound))
    ensures r1.Failure? ==> s.wallets == old(s.wallets)
    // a first redemption that succeeded settled exactly once: no second debit or credit
    ensures r1.Success? ==>
      && QuoteKey(quoteReference) in old(s.cache)
      && var q := Parse(old(s.cache)[QuoteKey(quoteReference)].quote);
      var source := FindWallet(old(s.wallets), userId, q.sourceCurrency);
      var target := FindWallet(old(s.wallets), userId, q.targetCurrency);
      && source.Some? && target.Some?
      && s.wallets == Settle(old(s.wallets), source.value, target.value, q.sourceAmount, q.targetAmount)
  {
    r1 := ExchangeCurrency(s, userId, quoteReference, first);
    ghost var afterFirst := s.wallets;
    r2 := ExchangeCurrency(s, userId, quoteReference, second);
    assert s.wallets == afterFirst;
  }

  const ToObjectError := "fxTransaction.toObject is not a function"

  /**
   * The `/fx/exchange` endpoint. The service only ever returns `true`, so the
   * falsy-result guard never fires, and the controller then calls `toObject`
   * on that boolean: a redemption that settled still answers with a TypeError,
   * after the wallets have changed. Failures of the service pass through.
   */
  method ExchangeCurrencyEndpoint(s: Store, userId: string, quoteReference: string, reply: Reply)
    returns (fxTransaction: Result<bool, AppError>, r: Result<bool, AppError>)
    modifies s`wallets, s`cache
    ensures s.cache == old(s.cache) - {QuoteKey(quoteReference)}
    ensures fxTransaction.Failure? ==> r == fxTransaction && s.wallets == old(s.wallets)
    ensures fxTransaction.Success? ==> r == Failure(Plain(ToObjectError)) && fxTransaction.value
    // no request to the endpoint is answered with success
    ensures r.Failure?
  {
    fxTransaction := ExchangeCurrency(s, userId, quoteReference, reply);
    if fxTransaction.Success? && !fxTransaction.value {
      r := Failure(Plain(ExchangeFailed));
    } else if fxTransaction.Success? {
      r := Failure(Plain(ToObjectError));
    } else {
      r := fxTransaction;
    }
  }
}
