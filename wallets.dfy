/**
 * Wallet creation and lookup, from src/app/wallets/services/wallet.service.ts.
 */
module Wallets {
  import opened Wrappers
  import opened Errors
  import opened Records
  import opened Db

  const AllowedCurrencies: seq<string> := ["USD", "NGN", "GHS", "KES"]
  const DefaultCurrencies: seq<string> := ["USD", "NGN"]
  const WalletExists := "Wallet already exists for specified currency"
  const CurrencyNotSupported := "Currency not supported"

  /**
   * `createWallet`: one new, empty wallet for a known user in a supported
   * currency they have no wallet in. The duplicate test comes before the
   * currency test.
   */
  method CreateWallet(s: Store, userId: string, currency: string) returns (r: Result<Wallet, AppError>)
    modifies s`wallets
    ensures userId !in s.users ==> r == Failure(NotFound(UserNotFound))
    ensures userId in s.users && FindWallet(old(s.wallets), userId, currency).Some? ==>
      r == Failure(BadRequest(WalletExists))
    ensures userId in s.users && FindWallet(old(s.wallets), userId, currency).None? && currency !in AllowedCurrencies ==>
      r == Failure(BadRequest(CurrencyNotSupported))
    ensures r.Failure? ==> s.wallets == old(s.wallets)
    ensures r.Success? <==>
      userId in s.users && FindWallet(old(s.wallets), userId, currency).None? && currency in AllowedCurrencies
    ensures r.Success? ==> r.value == Wallet(userId, currency, 0.0) && s.wallets == old(s.wallets) + [r.value]
    // one wallet per (user, currency), and no money appears
    ensures OneWalletPerCurrency(old(s.wallets)) ==> OneWalletPerCurrency(s.wallets)
    ensures TotalBalance(s.wallets) == old(TotalBalance(s.wallets))
  {
    if userId !in s.users {
      return Failure(NotFound(UserNotFound));
    }
    var existing := FindWallet(s.wallets, userId, currency);
    if existing.Some? {
      return Failure(BadRequest(WalletExists));
    }
    if currency !in AllowedCurrencies {
      return Failure(BadRequest(CurrencyNotSupported));
    }
    var wallet := Wallet(userId, currency, 0.0);
    if OneWalletPerCurrency(s.wallets) {
      AddWalletKeepsOnePerCurrency(s.wallets, wallet);
    }
    TotalAfterAppend(s.wallets, wallet);
    s.wallets := s.wallets + [wallet];
    r := Success(wallet);
  }

  /**
   * `createDefaultWallets`: a USD and an NGN wallet for a known user, inserted
   * without looking for wallets the user already has.
   */
  method CreateDefaultWallets(s: Store, userId: string) returns (r: Result<seq<Wallet>, AppError>)
    modifies s`wallets
    ensures userId !in s.users ==> r == Failure(NotFound(UserNotFound)) && s.wallets == old(s.wallets)
    ensures userId in s.users ==>
      r == Success([Wallet(userId, "USD", 0.0), Wallet(userId, "NGN", 0.0)]) && s.wallets == old(s.wallets) + r.value
    // for a user with no wallets yet (a new user) there is still one wallet per currency
    ensures OneWalletPerCurrency(old(s.wallets)) && (forall i :: 0 <= i < |old(s.wallets)| ==> old(s.wallets)[i].user != userId) ==>
      OneWalletPerCurrency(s.wallets)
    // no duplicate check: a user who already has a USD wallet gets a second one
    ensures userId in s.users && FindWallet(old(s.wallets), userId, "USD").Some? ==> !OneWalletPerCurrency(s.wallets)
    ensures TotalBalance(s.wallets) == old(TotalBalance(s.wallets))
  {
    if userId !in s.users {
      return Failure(NotFound(UserNotFound));
    }
    var usd := Wallet(userId, DefaultCurrencies[0], 0.0);
    var ngn := Wallet(userId, DefaultCurrencies[1], 0.0);
    var before := s.wallets;
    if OneWalletPerCurrency(before) && (forall i :: 0 <= i < |before| ==> before[i].user != userId) {
      AddWalletKeepsOnePerCurrency(before, usd);
      AddWalletKeepsOnePerCurrency(before + [usd], ngn);
    }
    TotalAfterAppend(before, usd);
    TotalAfterAppend(before + [usd], ngn);
    s.wallets := before + [usd] + [ngn];
    assert s.wallets == before + [usd, ngn];
    var existing := FindWallet(before, userId, "USD");
    if existing.Some? {
      assert IsWalletOf(s.wallets[|before|], s.wallets[existing.value].user, s.wallets[existing.value].currency);
    }
    r := Success([usd, ngn]);
  }

  /** The wallets of a user, in insertion order. */
  function WalletsOf(ws: seq<Wallet>, user: string): (r: seq<Wallet>)
    ensures forall w :: w in r ==> w in ws && w.user == user
    ensures forall w :: w in ws && w.user == user ==> w in r
    // every copy is kept: two equal wallets of the user are both listed
    ensures forall w :: multiset(r)[w] == if w.user == user then multiset(ws)[w] else 0
  {
    if ws == [] then []
    else
      assert ws == [ws[0]] + ws[1..];
      (if ws[0].user == user then [ws[0]] else []) + WalletsOf(ws[1..], user)
  }

  /**
   * `getWalletsByUserId`: the guard tests the query object, which is always
   * truthy, so the NotFound error is never raised, even for a user with no wallets.
   */
  function GetWalletsByUserId(s: Store, userId: string): (r: Result<seq<Wallet>, AppError>)
    reads s
    ensures r.Success?
    ensures forall w :: w in r.value <==> w in s.wallets && w.user == userId
    ensures forall w :: multiset(r.value)[w] == if w.user == userId then multiset(s.wallets)[w] else 0
  {
    Success(WalletsOf(s.wallets, userId))
  }

  /** `getWalletByWalletId`: likewise never NotFound; an unknown id yields no wallet. */
  function GetWalletByWalletId(s: Store, walletId: nat): (r: Result<Option<Wallet>, AppError>)
    reads s
    ensures r.Success?
    ensures r.value.Some? <==> walletId < |s.wallets|
    ensures r.value.Some? ==> r.value.value == s.wallets[walletId]
  {
    Success(if walletId < |s.wallets| then Some(s.wallets[walletId]) else None)
  }
}
