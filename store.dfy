/**
 * The application's mutable state: the Mongo collections the core touches and
 * the Redis quote cache. Collections whose documents are found with `findOne`
 * are sequences in insertion order; users and card requests are keyed by their
 * id and card reference.
 */
module Db {
  import opened Records
  import opened FxQuotes
  import opened Wrappers

  /** A cache value and the seconds left before the cache drops it (`None`: no expiry set). */
  datatype CacheEntry = CacheEntry(quote: StoredQuote, ttl: Option<nat>)

  class Store {
    var users: map<string, User>
    var wallets: seq<Wallet>
    var accounts: seq<MapleradAccount>
    var cardRequests: map<string, CardRequest>
    var cards: seq<VirtualCard>
    var cardTransactions: seq<CardTransaction>
    var cache: map<string, CacheEntry>
    /** References handed to the wallet service's deposit crediting, which is not part of this model. */
    var depositCredits: seq<string>

    constructor ()
      ensures users == map[] && wallets == [] && accounts == [] && cardRequests == map[]
      ensures cards == [] && cardTransactions == [] && cache == map[] && depositCredits == []
    {
      users := map[];
      wallets := [];
      accounts := [];
      cardRequests := map[];
      cards := [];
      cardTransactions := [];
      cache := map[];
      depositCredits := [];
    }

    /**
     * Redis dropping a key whose expiry has run out. Time is not modelled: any
     * key with an expiry may be dropped at any point between two operations.
     */
    method Expire(key: string)
      modifies this`cache
      ensures key in old(cache) && old(cache)[key].ttl.Some? ==> cache == old(cache) - {key}
      ensures !(key in old(cache) && old(cache)[key].ttl.Some?) ==> cache == old(cache)
    {
      if key in cache && cache[key].ttl.Some? {
        cache := cache - {key};
      }
    }
  }
}
