/**
 * The stored documents of the wallet service (users, wallets, Maplerad accounts,
 * card requests, cards and card transactions), the "first matching document"
 * lookups that stand for Mongo's `findOne`, and the invariants and balance sums
 * the services are proved to keep.
 */
module Records {
  import opened Wrappers

  /** A calendar date as JavaScript's getFullYear, getMonth (0-based) and getDate give it. */
  datatype Date = Date(year: nat, month: nat, day: nat)

  datatype Address = Address(street: string, city: string, state: string, country: string, zipCode: string)

  datatype User = User(
    firstName: string,
    lastName: string,
    email: string,
    password: string,
    phoneNumber: string,
    address: Address,
    dateOfBirth: Date,
    bvn: string)

  /** A wallet document; a new wallet's balance defaults to 0. */
  datatype Wallet = Wallet(user: string, currency: string, balance: real)

  /** The customer account a user has at Maplerad, the card issuer. */
  datatype MapleradAccount = MapleradAccount(user: string, accountId: string, tier: int)

  /** "PENDING", "SUCCESS" and "FAILED". */
  datatype RequestStatus = Pending | Succeeded | Failed

  /** A card request, stored under its Maplerad card reference. */
  datatype CardRequest = CardRequest(user: string, status: RequestStatus)

  datatype VirtualCard = VirtualCard(
    user: string,
    cardReference: string,
    cardId: string,
    name: string,
    maskedPan: string,
    issuer: string,
    currency: string,
    cardType: string,
    status: string,
    balance: real)

  datatype TransactionStatus = Completed

  /** A card top-up record; `card` is the position of the card document. */
  datatype CardTransaction = CardTransaction(
    card: nat,
    user: string,
    amount: real,
    currency: string,
    description: string,
    status: TransactionStatus)

  /** The position of the first element satisfying `p`, as `findOne` returns the first match. */
  function FirstMatch<T>(s: seq<T>, p: T -> bool): (r: Option<nat>)
    ensures r.Some? ==> r.value < |s| && p(s[r.value])
    ensures r.Some? ==> forall i :: 0 <= i < r.value ==> !p(s[i])
    ensures r.None? ==> forall i :: 0 <= i < |s| ==> !p(s[i])
  {
    if s == [] then None
    else if p(s[0]) then Some(0)
    else
      match FirstMatch(s[1..], p)
      case None => None
      case Some(i) => Some(i + 1)
  }

  predicate IsWalletOf(w: Wallet, user: string, currency: string)
  {
    w.user == user && w.currency == currency
  }

  /** `WalletModel.findOne({ user, currency })`. */
  function FindWallet(ws: seq<Wallet>, user: string, currency: string): (r: Option<nat>)
    ensures r.Some? ==> r.value < |ws| && IsWalletOf(ws[r.value], user, currency)
    ensures r.Some? ==> forall i :: 0 <= i < r.value ==> !IsWalletOf(ws[i], user, currency)
    ensures r.None? <==> forall i :: 0 <= i < |ws| ==> !IsWalletOf(ws[i], user, currency)
  {
    FirstMatch(ws, (w: Wallet) => IsWalletOf(w, user, currency))
  }

  /** `UserMapleRadAccountModel.findOne({ user })`. */
  function FindAccountOf(accounts: seq<MapleradAccount>, user: string): (r: Option<nat>)
    ensures r.Some? ==> r.value < |accounts| && accounts[r.value].user == user
    ensures r.Some? ==> forall i :: 0 <= i < r.value ==> accounts[i].user != user
    ensures r.None? <==> forall i :: 0 <= i < |accounts| ==> accounts[i].user != user
  {
    FirstMatch(accounts, (a: MapleradAccount) => a.user == user)
  }

  /** `UserMapleRadAccountModel.findOne({ userMapleRadAccountId })`. */
  function FindAccountById(accounts: seq<MapleradAccount>, accountId: string): (r: Option<nat>)
    ensures r.Some? ==> r.value < |accounts| && accounts[r.value].accountId == accountId
    ensures r.Some? ==> forall i :: 0 <= i < r.value ==> accounts[i].accountId != accountId
    ensures r.None? <==> forall i :: 0 <= i < |accounts| ==> accounts[i].accountId != accountId
  {
    FirstMatch(accounts, (a: MapleradAccount) => a.accountId == accountId)
  }

  /** `VirtualCardModel.findOne({ cardId })`. */
  function FindCard(cards: seq<VirtualCard>, cardId: string): (r: Option<nat>)
    ensures r.Some? ==> r.value < |cards| && cards[r.value].cardId == cardId
    ensures r.Some? ==> forall i :: 0 <= i < r.value ==> cards[i].cardId != cardId
    ensures r.None? <==> forall i :: 0 <= i < |cards| ==> cards[i].cardId != cardId
  {
    FirstMatch(cards, (c: VirtualCard) => c.cardId == cardId)
  }

  /** `VirtualCardModel.findOne({ cardId, user })`. */
  function FindCardOf(cards: seq<VirtualCard>, cardId: string, user: string): (r: Option<nat>)
    ensures r.Some? ==> r.value < |cards| && cards[r.value].cardId == cardId && cards[r.value].user == user
    ensures r.Some? ==> forall i :: 0 <= i < r.value ==> !(cards[i].cardId == cardId && cards[i].user == user)
    ensures r.None? <==> forall i :: 0 <= i < |cards| ==> !(cards[i].cardId == cardId && cards[i].user == user)
  {
    FirstMatch(cards, (c: VirtualCard) => c.cardId == cardId && c.user == user)
  }

  /** `VirtualCardModel.findOne({ cardReference })`. */
  function FindCardByReference(cards: seq<VirtualCard>, cardReference: string): (r: Option<nat>)
    ensures r.Some? ==> r.value < |cards| && cards[r.value].cardReference == cardReference
    ensures r.Some? ==> forall i :: 0 <= i < r.value ==> cards[i].cardReference != cardReference
    ensures r.None? <==> forall i :: 0 <= i < |cards| ==> cards[i].cardReference != cardReference
  {
    FirstMatch(cards, (c: VirtualCard) => c.cardReference == cardReference)
  }

  /** No user holds two wallets in one currency. */
  ghost predicate OneWalletPerCurrency(ws: seq<Wallet>)
  {
    forall i, j :: 0 <= i < j < |ws| ==> !IsWalletOf(ws[j], ws[i].user, ws[i].currency)
  }

  /** No two cards share a card reference. */
  ghost predicate OneCardPerReference(cards: seq<VirtualCard>)
  {
    forall i, j :: 0 <= i < j < |cards| ==> cards[i].cardReference != cards[j].cardReference
  }

  /** No two users share an email address. */
  ghost predicate OneUserPerEmail(users: map<string, User>)
  {
    forall a, b :: a in users && b in users && a != b ==> users[a].email != users[b].email
  }

  /** Adding a wallet for a (user, currency) pair that has none keeps one wallet per pair. */
  lemma AddWalletKeepsOnePerCurrency(ws: seq<Wallet>, w: Wallet)
    requires OneWalletPerCurrency(ws)
    requires FindWallet(ws, w.user, w.currency).None?
    ensures OneWalletPerCurrency(ws + [w])
  {
  }

  /** Adding a card with a reference no card has keeps one card per reference. */
  lemma AddCardKeepsOnePerReference(cards: seq<VirtualCard>, c: VirtualCard)
    requires OneCardPerReference(cards)
    requires FindCardByReference(cards, c.cardReference).None?
    ensures OneCardPerReference(cards + [c])
  {
  }

  /** The sum of all wallet balances. */
  function TotalBalance(ws: seq<Wallet>): real
  {
    if ws == [] then 0.0 else TotalBalance(ws[..|ws| - 1]) + ws[|ws| - 1].balance
  }

  /** The sum of all card balances. */
  function TotalCardBalance(cards: seq<VirtualCard>): real
  {
    if cards == [] then 0.0 else TotalCardBalance(cards[..|cards| - 1]) + cards[|cards| - 1].balance
  }

  /** The wallets with wallet `i`'s balance replaced, as a `save()` or an `$inc` leaves them. */
  function WithBalance(ws: seq<Wallet>, i: nat, balance: real): (r: seq<Wallet>)
    requires i < |ws|
    ensures |r| == |ws| && r[i] == ws[i].(balance := balance)
    ensures forall j :: 0 <= j < |ws| && j != i ==> r[j] == ws[j]
    ensures TotalBalance(r) == TotalBalance(ws) - ws[i].balance + balance
  {
    TotalAfterUpdate(ws, i, balance);
    ws[i := ws[i].(balance := balance)]
  }

  lemma {:induction false} TotalAfterUpdate(ws: seq<Wallet>, i: nat, balance: real)
    requires i < |ws|
    ensures TotalBalance(ws[i := ws[i].(balance := balance)]) == TotalBalance(ws) - ws[i].balance + balance
  {
    var r := ws[i := ws[i].(balance := balance)];
    var n := |ws| - 1;
    assert r[..n] == if i == n then ws[..n] else ws[..n][i := ws[i].(balance := balance)];
    if i < n {
      TotalAfterUpdate(ws[..n], i, balance);
    }
  }

  /** The cards with card `i`'s balance replaced. */
  function WithCardBalance(cards: seq<VirtualCard>, i: nat, balance: real): (r: seq<VirtualCard>)
    requires i < |cards|
    ensures |r| == |cards| && r[i] == cards[i].(balance := balance)
    ensures forall j :: 0 <= j < |cards| && j != i ==> r[j] == cards[j]
    ensures TotalCardBalance(r) == TotalCardBalance(cards) - cards[i].balance + balance
  {
    CardTotalAfterUpdate(cards, i, balance);
    cards[i := cards[i].(balance := balance)]
  }

  lemma {:induction false} CardTotalAfterUpdate(cards: seq<VirtualCard>, i: nat, balance: real)
    requires i < |cards|
    ensures TotalCardBalance(cards[i := cards[i].(balance := balance)]) == TotalCardBalance(cards) - cards[i].balance + balance
  {
    var r := cards[i := cards[i].(balance := balance)];
    var n := |cards| - 1;
    assert r[..n] == if i == n then cards[..n] else cards[..n][i := cards[i].(balance := balance)];
    if i < n {
      CardTotalAfterUpdate(cards[..n], i, balance);
    }
  }

  /** Appending a wallet adds its balance to the total. */
  lemma TotalAfterAppend(ws: seq<Wallet>, w: Wallet)
    ensures TotalBalance(ws + [w]) == TotalBalance(ws) + w.balance
  {
    assert (ws + [w])[..|ws|] == ws;
  }
}
