/**
 * Virtual cards, from src/app/virtual-cards/services/virtual-cards.service.ts:
 * creating a card request (which debits the creation fee), reconciling a created
 * card, freezing and unfreezing, funding a card from the wallet in its currency,
 * and the paged transaction listing.
 */
module VirtualCards {
  import opened Wrappers
  import opened Errors
  import opened Records
  import opened Maplerad
  import opened Paging
  import opened Db

  const AccountNotFound := "User MapleRad account not found"
  const FeeNotFound := "Card creation fee not found"
  const CardNotFound := "Virtual card not found"
  const IssueFailed := "Unable to create virtual card on Maplerad"
  const FundFailed := "Unable to fund virtual card on Maplerad"
  const FreezeFailed := "Unable to freeze virtual card on Maplerad"
  const UnfreezeFailed := "Unable to unfreeze virtual card on Maplerad"
  const TopUp := "Top up"

  /** Maplerad's answer to `POST /issuing`: the new card's reference, a body without data, or a transport error. */
  datatype IssueReply = Issued(reference: string) | NoData | IssueTransport(message: string)

  /**
   * `createVirtualCard`: checks the user, their Maplerad account, their wallet in
   * the currency, the fee document and the balance; only then asks Maplerad for a
   * card, records the PENDING request under its reference and debits the fee.
   * `fee` is the "Card Creation Fee" document's amount, `None` when there is none.
   * `requested` says whether Maplerad was asked.
   */
  method CreateVirtualCard(s: Store, userId: string, currency: string, fee: Option<real>, reply: IssueReply)
    returns (requested: bool, r: Result<string, AppError>)
    modifies s`cardRequests, s`wallets
    ensures r.Failure? ==> s.cardRequests == old(s.cardRequests) && s.wallets == old(s.wallets)
    ensures userId !in s.users ==> r == Failure(NotFound(UserNotFound))
    ensures userId in s.users && FindAccountOf(s.accounts, userId).None? ==> r == Failure(NotFound(AccountNotFound))
    ensures userId in s.users && FindAccountOf(s.accounts, userId).Some? && FindWallet(old(s.wallets), userId, currency).None? ==>
      r == Failure(MissingWallet(currency))
    ensures var w := FindWallet(old(s.wallets), userId, currency);
      userId in s.users && FindAccountOf(s.accounts, userId).Some? && w.Some? ==>
      && (fee.None? ==> r == Failure(NotFound(FeeNotFound)))
      // a balance below the fee fails without asking Maplerad and without a debit
      && (fee.Some? && old(s.wallets)[w.value].balance < fee.value ==> r == Failure(Plain(InsufficientBalance)))
      && (requested <==> fee.Some? && old(s.wallets)[w.value].balance >= fee.value)
      && (requested && reply.NoData? ==> r == Failure(Plain(IssueFailed)))
      && (requested && reply.IssueTransport? ==> r == Failure(Plain(reply.message)))
      // the fee is debited exactly once, after Maplerad returned a card reference
      && (requested && reply.Issued? ==>
            r == Success(reply.reference) &&
            s.cardRequests == old(s.cardRequests)[reply.reference := CardRequest(RequestOwner(s.accounts, userId), Pending)] &&
            s.wallets == WithBalance(old(s.wallets), w.value, old(s.wallets)[w.value].balance - fee.value))
    ensures !requested ==> r.Failure?
    ensures r.Success? ==> requested
    // Maplerad is asked only once the user, the Maplerad account and the wallet are found
    ensures requested ==>
      userId in s.users && FindAccountOf(s.accounts, userId).Some? && FindWallet(old(s.wallets), userId, currency).Some?
  {
    requested := false;
    if userId !in s.users {
      return false, Failure(NotFound(UserNotFound));
    }
    var account := FindAccountOf(s.accounts, userId);
    if account.None? {
      return false, Failure(NotFound(AccountNotFound));
    }
    var wallet := FindWallet(s.wallets, userId, currency);
    if wallet.None? {
      return false, Failure(MissingWallet(currency));
    }
    if fee.None? {
      return false, Failure(NotFound(FeeNotFound));
    }
    if s.wallets[wallet.value].balance < fee.value {
      return false, Failure(Plain(InsufficientBalance));
    }
    requested := true;
    var owner := RequestOwner(s.accounts, userId);
    match reply
    case NoData =>
      r := Failure(Plain(IssueFailed));
    case IssueTransport(message) =>
      r := Failure(Plain(message));
    case Issued(reference) =>
      s.cardRequests := s.cardRequests[reference := CardRequest(owner, Pending)];
      s.wallets := WithBalance(s.wallets, wallet.value, s.wallets[wallet.value].balance - fee.value);
      r := Success(reference);
  }

  /**
   * The user a new card request is filed under: `createVirtualCardOnMaplerad`
   * looks the account up again by its Maplerad id and takes that account's user.
   * While Maplerad ids are unique this is the requesting user.
   */
  function RequestOwner(accounts: seq<MapleradAccount>, userId: string): (owner: string)
    requires FindAccountOf(accounts, userId).Some?
    ensures (forall i, j :: 0 <= i < j < |accounts| ==> accounts[i].accountId != accounts[j].accountId) ==> owner == userId
  {
    var account := FindAccountOf(accounts, userId).value;
    var again := FindAccountById(accounts, accounts[account].accountId);
    accounts[again.value].user
  }

  /** The card data Maplerad returns for `GET /issuing/{reference}`. */
  datatype CardDetails = CardDetails(
    id: string,
    name: string,
    maskedPan: string,
    cardType: string,
    issuer: string,
    currency: string,
    status: string)

  /** What `handleVirtualCardCreation` resolves to: `undefined` after any error, `true`, or the new card. */
  datatype CreationOutcome = Undefined | AlreadyExists | Created(card: VirtualCard)

  /** The card document built for a request's user from Maplerad's details. */
  function NewCard(user: string, cardReference: string, d: CardDetails): (c: VirtualCard)
    ensures c.user == user && c.cardReference == cardReference && c.balance == 0.0
    ensures c.cardId == d.id && c.name == d.name && c.maskedPan == d.maskedPan && c.cardType == d.cardType
    ensures c.issuer == d.issuer && c.currency == d.currency && c.status == d.status
  {
    VirtualCard(user, cardReference, d.id, d.name, d.maskedPan, d.issuer, d.currency, d.cardType, d.status, 0.0)
  }

  /**
   * `handleVirtualCardCreation`: marks the request SUCCESS and creates its card
   * unless a card with that reference exists. `details` is Maplerad's card data,
   * `None` when fetching it failed. Every error is swallowed.
   */
  method HandleVirtualCardCreation(s: Store, cardReference: string, details: Option<CardDetails>)
    returns (r: CreationOutcome)
    modifies s`cardRequests, s`cards
    ensures cardReference !in old(s.cardRequests) || details.None? ==>
      r == Undefined && s.cardRequests == old(s.cardRequests) && s.cards == old(s.cards)
    ensures cardReference in old(s.cardRequests) && details.Some? ==>
      && s.cardRequests == old(s.cardRequests)[cardReference := old(s.cardRequests)[cardReference].(status := Succeeded)]
      && (FindCardByReference(old(s.cards), cardReference).Some? ==> r == AlreadyExists && s.cards == old(s.cards))
      && (FindCardByReference(old(s.cards), cardReference).None? ==>
            var card := NewCard(old(s.cardRequests)[cardReference].user, cardReference, details.value);
            r == Created(card) && s.cards == old(s.cards) + [card])
    // at most one card per reference
    ensures OneCardPerReference(old(s.cards)) ==> OneCardPerReference(s.cards)
  {
    if cardReference !in s.cardRequests || details.None? {
      return Undefined;
    }
    var request := s.cardRequests[cardReference];
    s.cardRequests := s.cardRequests[cardReference := request.(status := Succeeded)];
    if FindCardByReference(s.cards, cardReference).Some? {
      return AlreadyExists;
    }
    var card := NewCard(request.user, cardReference, details.value);
    if OneCardPerReference(s.cards) {
      AddCardKeepsOnePerReference(s.cards, card);
    }
    s.cards := s.cards + [card];
    r := Created(card);
  }

  /** The shared body of freezing and unfreezing: the status changes only when Maplerad reports success. */
  method SetCardStatus(s: Store, cardId: string, reply: Reply, status: string, failure: string)
    returns (r: Result<VirtualCard, AppError>)
    modifies s`cards
    ensures FindCard(old(s.cards), cardId).None? ==> r == Failure(NotFound(CardNotFound)) && s.cards == old(s.cards)
    ensures FindCard(old(s.cards), cardId).Some? && reply != Replied(true) ==>
      r == Failure(StatusCall(reply, failure).error) && s.cards == old(s.cards)
    ensures var i := FindCard(old(s.cards), cardId);
      i.Some? && reply == Replied(true) ==>
      s.cards == old(s.cards)[i.value := old(s.cards)[i.value].(status := status)] && r == Success(s.cards[i.value])
  {
    var i := FindCard(s.cards, cardId);
    if i.None? {
      return Failure(NotFound(CardNotFound));
    }
    var called := StatusCall(reply, failure);
    if called.Failure? {
      return Failure(called.error);
    }
    s.cards := s.cards[i.value := s.cards[i.value].(status := status)];
    r := Success(s.cards[i.value]);
  }

  /** `freezeVirtualCard`: the card becomes DISABLED once Maplerad confirms. */
  method FreezeVirtualCard(s: Store, cardId: string, reply: Reply) returns (r: Result<VirtualCard, AppError>)
    modifies s`cards
    ensures FindCard(old(s.cards), cardId).None? ==> r == Failure(NotFound(CardNotFound))
    ensures r.Failure? ==> s.cards == old(s.cards)
    ensures reply == Replied(false) && FindCard(old(s.cards), cardId).Some? ==> r == Failure(Plain(FreezeFailed))
    // any reply but a confirmation, a transport error included, fails and leaves the card as it was
    ensures FindCard(old(s.cards), cardId).Some? && reply != Replied(true) ==>
      r == Failure(StatusCall(reply, FreezeFailed).error) && s.cards == old(s.cards)
    ensures var i := FindCard(old(s.cards), cardId);
      i.Some? && reply == Replied(true) ==>
      r.Success? && r.value.status == "DISABLED" && s.cards == old(s.cards)[i.value := r.value] &&
      r.value == old(s.cards)[i.value].(status := "DISABLED")
  {
    r := SetCardStatus(s, cardId, reply, "DISABLED", FreezeFailed);
  }

  /** `unfreezeVirtualCard`: the card becomes ACTIVE once Maplerad confirms. */
  method UnfreezeVirtualCard(s: Store, cardId: string, reply: Reply) returns (r: Result<VirtualCard, AppError>)
    modifies s`cards
    ensures FindCard(old(s.cards), cardId).None? ==> r == Failure(NotFound(CardNotFound))
    ensures r.Failure? ==> s.cards == old(s.cards)
    ensures reply == Replied(false) && FindCard(old(s.cards), cardId).Some? ==> r == Failure(Plain(UnfreezeFailed))
    // any reply but a confirmation, a transport error included, fails and leaves the card as it was
    ensures FindCard(old(s.cards), cardId).Some? && reply != Replied(true) ==>
      r == Failure(StatusCall(reply, UnfreezeFailed).error) && s.cards == old(s.cards)
    ensures var i := FindCard(old(s.cards), cardId);
      i.Some? && reply == Replied(true) ==>
      r.Success? && r.value.status == "ACTIVE" && s.cards == old(s.cards)[i.value := r.value] &&
      r.value == old(s.cards)[i.value].(status := "ACTIVE")
  {
    r := SetCardStatus(s, cardId, reply, "ACTIVE", UnfreezeFailed);
  }

  /**
   * `fundVirtualCard`: moves `amount` from the user's wallet in the card's
   * currency onto the card and records a completed "Top up". The Maplerad helper
   * throws unless the reply's status is truthy, so a status that reaches the
   * service is always true. `requested` says whether Maplerad was asked.
   */
  method FundVirtualCard(s: Store, userId: string, cardId: string, amount: real, reply: Reply)
    returns (requested: bool, r: Result<bool, AppError>)
    modifies s`wallets, s`cards, s`cardTransactions
    ensures r.Failure? ==>
      s.wallets == old(s.wallets) && s.cards == old(s.cards) && s.cardTransactions == old(s.cardTransactions)
    // the user, the user's card and the wallet in the card's currency are checked in that order
    ensures userId !in s.users ==> r == Failure(NotFound(UserNotFound))
    ensures userId in s.users && FindCardOf(old(s.cards), cardId, userId).None? ==> r == Failure(NotFound(CardNotFound))
    ensures var c := FindCardOf(old(s.cards), cardId, userId);
      userId in s.users && c.Some? ==>
      var currency := old(s.cards)[c.value].currency;
      var w := FindWallet(old(s.wallets), userId, currency);
      && (w.None? ==> r == Failure(MissingWallet(currency)))
      // a balance below the amount fails before Maplerad is asked
      && (w.Some? && old(s.wallets)[w.value].balance < amount ==> r == Failure(BadRequest(InsufficientBalance)))
      && (requested <==> w.Some? && old(s.wallets)[w.value].balance >= amount)
      && (requested && reply != Replied(true) ==> r == Failure(StatusCall(reply, FundFailed).error))
      && (requested && reply == Replied(true) ==>
            && r == Success(true)
            && s.wallets == WithBalance(old(s.wallets), w.value, old(s.wallets)[w.value].balance - amount)
            && s.cards == WithCardBalance(old(s.cards), c.value, old(s.cards)[c.value].balance + amount)
            && s.cardTransactions == old(s.cardTransactions) + [CardTransaction(c.value, userId, amount, currency, TopUp, Completed)])
    // money moves between wallets and cards and is neither created nor destroyed
    ensures TotalBalance(s.wallets) + TotalCardBalance(s.cards) == old(TotalBalance(s.wallets) + TotalCardBalance(s.cards))
    ensures !requested ==> r.Failure?
    // Maplerad is asked only once the user and the user's card are found
    ensures requested ==> userId in s.users && FindCardOf(old(s.cards), cardId, userId).Some?
  {
    requested := false;
    if userId !in s.users {
      return false, Failure(NotFound(UserNotFound));
    }
    var card := FindCardOf(s.cards, cardId, userId);
    if card.None? {
      return false, Failure(NotFound(CardNotFound));
    }
    var currency := s.cards[card.value].currency;
    var wallet := FindWallet(s.wallets, userId, currency);
    if wallet.None? {
      return false, Failure(MissingWallet(currency));
    }
    if s.wallets[wallet.value].balance < amount {
      return false, Failure(BadRequest(InsufficientBalance));
    }
    requested := true;
    var status := StatusCall(reply, FundFailed);
    if status.Failure? {
      return true, Failure(status.error);
    }
    if status.value {
      s.wallets := WithBalance(s.wallets, wallet.value, s.wallets[wallet.value].balance - amount);
      s.cards := WithCardBalance(s.cards, card.value, s.cards[card.value].balance + amount);
      s.cardTransactions := s.cardTransactions + [CardTransaction(card.value, userId, amount, currency, TopUp, Completed)];
    }
    r := Success(status.value);
  }

  /** A user's card transactions in the order they were recorded, oldest first. */
  function Matching(transactions: seq<CardTransaction>, user: string): (r: seq<CardTransaction>)
    ensures forall t :: t in r <==> t in transactions && t.user == user
  {
    if transactions == [] then []
    else
      var last := transactions[|transactions| - 1];
      Matching(transactions[..|transactions| - 1], user) + (if last.user == user then [last] else [])
  }

  /**
   * A user's card transactions, newest first: the order `sort: { createdAt: -1 }`
   * gives, records being created in sequence order. It is the recorded order
   * reversed.
   */
  function NewestFirst(transactions: seq<CardTransaction>, user: string): (r: seq<CardTransaction>)
    ensures |r| == |Matching(transactions, user)|
    ensures forall i :: 0 <= i < |r| ==> r[i] == Matching(transactions, user)[|r| - 1 - i]
  {
    if transactions == [] then []
    else
      var earlier := transactions[..|transactions| - 1];
      var last := transactions[|transactions| - 1];
      var newest := if last.user == user then [last] else [];
      assert Matching(transactions, user) == Matching(earlier, user) + newest;
      newest + NewestFirst(earlier, user)
  }

  const NegativeSkip := "BSON field 'skip' value must be >= 0"

  /** The page the controller passes on: `page || 1`, so an absent or zero page is page 1. */
  function RequestedPage(page: Option<int>): (p: int)
    ensures p != 0
    ensures page.None? || page == Some(0) ==> p == 1
    ensures page.Some? && page.value != 0 ==> p == page.value
  {
    if page.None? || page.value == 0 then 1 else page.value
  }

  datatype TransactionPage = TransactionPage(
    cardTransactions: seq<CardTransaction>,
    totalPages: nat,
    page: nat,
    totalRecords: nat,
    numberOfRecordsPerPage: nat)

  /**
   * `getVirtualCardTransactions`: the page-th window of ten of the user's card
   * transactions, newest first, with the count of all of them and the number of
   * pages they fill. A page below 1 gives a negative skip, which the database
   * refuses.
   */
  function GetVirtualCardTransactions(s: Store, userId: string, page: int): (r: Result<TransactionPage, AppError>)
    reads s
    ensures userId !in s.users ==> r == Failure(NotFound(UserNotFound))
    ensures userId in s.users && page < 1 ==> r == Failure(Plain(NegativeSkip))
    ensures r.Success? <==> userId in s.users && page >= 1
    ensures r.Success? ==>
      var all := NewestFirst(s.cardTransactions, userId);
      && r.value.cardTransactions == Window(all, page)
      && r.value.totalPages == TotalPages(|all|)
      && r.value.page == page
      && r.value.totalRecords == |Matching(s.cardTransactions, userId)|
      && r.value.numberOfRecordsPerPage == RecordsPerPage
      && (page <= r.value.totalPages <==> r.value.cardTransactions != [])
      && forall t :: t in r.value.cardTransactions ==> t in s.cardTransactions && t.user == userId
  {
    if userId !in s.users then Failure(NotFound(UserNotFound))
    else if page < 1 then Failure(Plain(NegativeSkip))
    else
      var all := NewestFirst(s.cardTransactions, userId);
      var window := Window(all, page);
      assert forall t :: t in window ==> t in all;
      assert forall t :: t in all ==> t in Matching(s.cardTransactions, userId) by {
        forall t | t in all
          ensures t in Matching(s.cardTransactions, userId)
        {
          var i :| 0 <= i < |all| && all[i] == t;
        }
      }
      Success(TransactionPage(window, TotalPages(|all|), page, |all|, RecordsPerPage))
  }

  /**
   * Reading the listing's pages 1 to totalPages in turn yields each of the
   * user's card transactions exactly once, newest first.
   */
  lemma ListingPagesCoverTransactions(transactions: seq<CardTransaction>, user: string)
    ensures var all := NewestFirst(transactions, user);
      FirstPages(all, TotalPages(|all|)) == all && |all| == |Matching(transactions, user)|
  {
    PagesPartitionRecords(NewestFirst(transactions, user));
  }
}
