/**
 * FX quote pricing and the cached quote record: the arithmetic of
 * `generateFXQuoteFromMaplerad` (src/app/currency-exchange/services/currency-exchange.service.ts)
 * and the cache key and JSON payload of `generateFXQuote`
 * (src/app/currency-exchange/controllers/currency-exchange.controller.ts).
 */
module FxQuotes {

  /** Seconds a quote stays in the cache. */
  const QuoteTtl: nat := 180

  /** What pricing returns to the controller. */
  datatype FxQuote = FxQuote(sourceAmount: real, targetAmount: real, exchangeRate: real, quoteReference: string)

  /** The JSON object stored in the cache for a quote. */
  datatype StoredQuote = StoredQuote(
    sourceAmount: real,
    sourceCurrency: string,
    targetAmount: real,
    targetCurrency: string,
    reference: string,
    exchangeRate: real)

  /** The amount sent to the provider, in the currency's lowest denomination. */
  function ProviderAmount(amount: real): (minor: real)
    ensures amount >= 0.0 ==> minor >= amount
    ensures minor / 100.0 == amount
  {
    amount * 100.0
  }

  /**
   * Pricing: the margin is a fraction of the provider's rate, taken off that rate;
   * the target amount is the source amount at the reduced rate.
   */
  function PriceQuote(amount: real, providerRate: real, margin: real, reference: string): (q: FxQuote)
    ensures q.sourceAmount == amount && q.quoteReference == reference
    ensures q.exchangeRate == providerRate * (1.0 - margin)
    ensures q.targetAmount == amount * providerRate * (1.0 - margin)
    // with a margin between 0 and 1 the customer never receives more than the provider's rate gives
    ensures 0.0 <= margin <= 1.0 && providerRate >= 0.0 && amount >= 0.0 ==>
      0.0 <= q.targetAmount <= amount * providerRate
  {
    var ratePercentageAmount := margin * providerRate;
    var exchangeRate := providerRate - ratePercentageAmount;
    NonNegativeProduct(amount, providerRate);
    ScaledDown(amount * providerRate, 1.0 - margin);
    FxQuote(amount, amount * exchangeRate, exchangeRate, reference)
  }

  /** Scaling a non-negative amount by a factor in [0, 1] cannot increase it. */
  lemma ScaledDown(x: real, k: real)
    ensures x >= 0.0 && 0.0 <= k <= 1.0 ==> 0.0 <= x * k <= x
  {
    if x >= 0.0 && 0.0 <= k <= 1.0 {
      assert x - x * k == x * (1.0 - k);
      NonNegativeProduct(x, k);
      NonNegativeProduct(x, 1.0 - k);
    }
  }

  lemma NonNegativeProduct(x: real, y: real)
    ensures x >= 0.0 && y >= 0.0 ==> x * y >= 0.0
  {
  }

  /** The cache key of a quote. */
  function QuoteKey(reference: string): (key: string)
    ensures |key| == |reference| + 3 && key[..3] == "fx_" && key[3..] == reference
  {
    "fx_" + reference
  }

  /** Distinct references never share a cache key, so redeeming one quote never touches another. */
  lemma QuoteKeyInjective(a: string, b: string)
    requires QuoteKey(a) == QuoteKey(b)
    ensures a == b
  {
    assert a == QuoteKey(a)[3..];
  }

  /** The JSON payload the controller stores for a priced quote. */
  function StoreQuote(q: FxQuote, sourceCurrency: string, targetCurrency: string): (stored: StoredQuote)
    ensures stored.sourceAmount == q.sourceAmount && stored.targetAmount == q.targetAmount
    ensures stored.exchangeRate == q.exchangeRate && stored.reference == q.quoteReference
    ensures stored.sourceCurrency == sourceCurrency && stored.targetCurrency == targetCurrency
  {
    StoredQuote(q.sourceAmount, sourceCurrency, q.targetAmount, targetCurrency, q.quoteReference, q.exchangeRate)
  }

  /** The four fields redemption parses back out of the stored JSON. */
  datatype ParsedQuote = ParsedQuote(sourceAmount: real, targetAmount: real, sourceCurrency: string, targetCurrency: string)

  function Parse(stored: StoredQuote): ParsedQuote
  {
    ParsedQuote(stored.sourceAmount, stored.targetAmount, stored.sourceCurrency, stored.targetCurrency)
  }

  /** Redemption reads back exactly the amounts and currencies that were priced. */
  lemma {:induction false} IssueThenParse(amount: real, rate: real, margin: real, reference: string, src: string, tgt: string)
    ensures var q := PriceQuote(amount, rate, margin, reference);
      Parse(StoreQuote(q, src, tgt)) == ParsedQuote(amount, amount * rate * (1.0 - margin), src, tgt)
  {
    var q := PriceQuote(amount, rate, margin, reference);
    assert q.targetAmount == amount * rate * (1.0 - margin);
  }
}
