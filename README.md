# zen-api wallet core in Dafny

A model of the core of zen-api, an Express/MongoDB/Redis wallet service that
holds multi-currency wallets, issues FX quotes through Maplerad and redeems
them, issues and funds Maplerad virtual cards, takes deposits through Paystack
and receives both providers' webhooks.

The model keeps the source's own shape:

- The error classes and the global error middleware are pure functions. They
  map an error to a status code and a JSON body.
- The state the services change is one `Db.Store` class. Its fields are:
  - users, keyed by id;
  - wallets, Maplerad accounts, cards and card transactions, as sequences in
    insertion order (`findOne` returns the first match);
  - card requests, keyed by card reference;
  - the Redis quote cache, keyed by `"fx_" + reference`.
- Every service operation is a method on that store. Its frame is the fields
  the operation writes. Its contract states the result and the new state on
  every path, error paths included.
- Each reply from Maplerad or Paystack is a parameter of the operation that
  receives it (`Maplerad.Reply`, `CurrencyExchange.QuoteReply`,
  `VirtualCards.IssueReply`, `Paystack.PaystackReply`,
  `MapleradUserAccount.EnrolReply`). So is each database document that is read
  but not modelled: the FX margin and the card-creation fee.
- The pure parts are functions with lemmas beside them. These are:
  - quote pricing and the cache key;
  - the fee estimator;
  - the address allowlist;
  - the date-of-birth and phone formatting;
  - the sensitive-field filter;
  - paging.

Invariants proved to be kept:

- one wallet per (user, currency);
- one card per card reference;
- one user per email.

Money is conserved by wallet creation, and by card funding in the model, which keeps a card balance the card schema lacks. FX settlement
between two distinct wallets moves exactly the debit out of the source and the
credit into the target, so the total changes by credit − debit.

Behaviours of the code as written, stated and proved in the model:

- **Same-currency quotes.** A quote whose source and target currency are the
  same settles on one wallet. The second save overwrites the first, so the
  debit is lost and only the credit remains (`CurrencyExchange.Settle`).
- **The exchange endpoint never succeeds.** The service returns `true`. The
  controller then calls `toObject` on that boolean, so even a redemption that
  settled answers with a TypeError, after the wallets changed
  (`CurrencyExchange.ExchangeCurrencyEndpoint`). This is the controller in
  src/app/currency-exchange/controllers/; src/controllers.ts registers a newer
  controller from src/app/currency-exchange/, whose services are not part of
  this model.
- **The two webhook address gates disagree.**
  - The controller strips a `:port` and falls back to `x-forwarded-for`.
  - The card-creation handler does neither.
  - An allowlisted host with a port, or one carried only in
    `x-forwarded-for`, passes the first gate and fails the second
    (`IpAllowlist.PortedAddressPassesOnlyTheController`,
    `IpAllowlist.ForwardedAddressPassesOnlyTheController`).
- **Default wallets are not deduplicated.** `createDefaultWallets` does not
  check for existing wallets, so a user who already has a USD wallet gets a
  second one (`Wallets.CreateDefaultWallets`).
- **Two errors lose their class in the middleware.**
  `UnprocessableContentError` is not among the classes the error middleware
  tests, so it answers 500. A wrong password at login is a bare `Error`, and
  also answers 500.
- **Paystack errors are flattened.** `initializeTransaction`'s outer `catch`
  replaces the 404/400/422 mapping of its inner handler with one generic error.

## Model

| member | source | states |
|---|---|---|
| Errors.StatusCode | src/app/errors.ts:1-34 | Only the four custom classes carry a status code, each in 400..499. The code and the message together identify the error (`FromStatus` inverts it). |
| Errors.FromStatus | src/app/errors.ts:12-34 | Each of 404, 400, 422 and 401 gives its custom class carrying the given message. |
| Errors.MissingWallet | src/app/currency-exchange/services/currency-exchange.service.ts:139-145 | A missing wallet is a NotFound error, answered with 404. |
| ErrorHandler.Summarise | src/middlewares/error-handler.ts:34-39 | Each validation error keeps its property, constraints and children, in order, one for one. |
| ErrorHandler.Handle | src/middlewares/error-handler.ts:10-64 | Every body has `success: false`. NotFound, Unauthorized and BadRequest answer with their own code and message. Any other service error, Unprocessable included, gives 500 "Internal server error". A routing 400 with errors gives "Validation failed" with one summary per error, in order, carrying that error's property, constraints and children. Any other nonzero `httpCode` is kept, with the message or "An error occurred". No code gives 500. |
| Paystack.Charge | src/app/paystack/paystack.service.ts:15-19 | The charge is 1.5% plus 100, capped at 2000, and never below 100 for a non-negative amount. |
| Paystack.ChargeMonotone | src/app/paystack/paystack.service.ts:15-19 | A larger amount never costs a smaller charge. |
| Paystack.CalculatePayableAmount | src/app/paystack/paystack.service.ts:34-47 | When the loop stops, the payable amount minus Paystack's charge on it is exactly the intended amount, and it lies in [intended + 100, intended + 2000]. Above the cap the loop stops in its second round at intended + 2000. |
| Paystack.FixedPointBelowCap | src/app/paystack/paystack.service.ts:34-47 | Below the cap an estimate repeats if and only if it equals (intended + 100) / 0.985. |
| Paystack.Ceil | src/app/paystack/paystack.service.ts:59 | `Math.ceil`: the least integer not below x. |
| Paystack.RequestError | src/app/paystack/paystack.service.ts:80-104 | HTTP 404/400/422 become the matching custom class with Paystack's message. Every other failure is a plain Error, and a missing response has its own message. |
| Paystack.InitializeTransaction | src/app/paystack/paystack.service.ts:49-120 | Missing configuration fails at once. The amount sent is ceil(payable) × 100 kobo. Success (the authorization URL) happens if and only if Paystack answered with status true. Every failure reaching the caller is the single "Error initializing Paystack transaction". |
| FxQuotes.ProviderAmount | src/app/currency-exchange/services/currency-exchange.service.ts:53 | The provider receives the amount in minor units, 100 per unit. |
| FxQuotes.PriceQuote | src/app/currency-exchange/services/currency-exchange.service.ts:63-67 | The rate is the provider's rate less margin × rate. The target amount is the source amount at that rate. With a margin in [0, 1] the customer never receives more than the provider's rate gives. |
| FxQuotes.QuoteKey | src/app/currency-exchange/controllers/currency-exchange.controller.ts:37 | The key is "fx_" followed by the reference. |
| FxQuotes.QuoteKeyInjective | src/app/currency-exchange/services/currency-exchange.service.ts:110 | Distinct references never share a cache key. |
| FxQuotes.StoreQuote | src/app/currency-exchange/controllers/currency-exchange.controller.ts:29-36 | The cached JSON carries the priced amounts, the rate, the reference and both currencies unchanged. |
| FxQuotes.IssueThenParse | src/app/currency-exchange/services/currency-exchange.service.ts:119-121 | Redemption parses back exactly the amount, the priced target amount and the currencies that were quoted. |
| Db.Store.Expire | src/app/currency-exchange/controllers/currency-exchange.controller.ts:40 | Only a key given an expiry can disappear from the cache. |
| Maplerad.StatusCall | src/app/virtual-cards/services/virtual-cards.service.ts:428-456 | A Maplerad helper succeeds only on `status: true`. A false status throws the helper's message, and a transport error propagates unchanged. |
| CurrencyExchange.GenerateFXQuote | src/app/currency-exchange/controllers/currency-exchange.controller.ts:21-49 | Success happens if and only if Maplerad quoted and a margin exists. The priced quote is then cached under "fx_" + reference with a 180-second expiry and echoed in the response. A failure leaves the cache unchanged. |
| CurrencyExchange.Settle | src/app/currency-exchange/services/currency-exchange.service.ts:154-160 | For two wallets, exactly the debit leaves the source and the credit reaches the target, with the total changing by credit − debit. For one wallet, the debit is lost. No other wallet changes. |
| CurrencyExchange.ExchangeCurrency | src/app/currency-exchange/services/currency-exchange.service.ts:107-169 | The quote key is deleted on every path, and nothing else in the cache changes. Failures are checked in order: missing quote, missing user, missing source wallet, missing target wallet, balance below the amount (an equal balance proceeds), Maplerad failure. Each leaves the wallets unchanged. Success is exactly `Settle` of the quoted amounts. |
| CurrencyExchange.RedeemTwice | src/app/currency-exchange/services/currency-exchange.service.ts:162-166 | A second redemption of the same reference always fails NotFound. A first redemption that succeeded leaves the wallets exactly as one `Settle` of the quoted amounts left them, so nothing is debited or credited twice; one that failed leaves them unchanged. |
| CurrencyExchange.ExchangeCurrencyEndpoint | src/app/currency-exchange/controllers/currency-exchange.controller.ts:53-78 | The falsy guard never fires. Every settled exchange answers with the `toObject` TypeError, and service failures pass through. |
| IpAllowlist.StripPort | src/app/webhook/webhook.controller.ts:24-26 | The result is the text before the first ':', or all of the text when there is no ':'. |
| IpAllowlist.ControllerAddress | src/app/webhook/webhook.controller.ts:49-52 | The address is the first truthy header of x-real-ip, true-client-ip and x-forwarded-for, otherwise x-forwarded-for as it is. |
| IpAllowlist.CheckMapleradAddress | src/app/webhook/webhook.controller.ts:23-40 | The check succeeds (true) if and only if the port-stripped host is allowlisted. Otherwise it is Unauthorized, or a TypeError when there is no address. |
| IpAllowlist.CreationServiceAddress | src/app/webhook/webhook.service.ts:24-28 | The address is x-real-ip, else true-client-ip. x-forwarded-for is never used. |
| IpAllowlist.StripPortOfHostAndPort | src/app/webhook/webhook.controller.ts:24-26 | host + ":" + port strips back to host. |
| IpAllowlist.PortedAddressPassesOnlyTheController | src/app/webhook/webhook.service.ts:30 | "54.216.8.72:443" passes the controller's check and fails the service's. |
| IpAllowlist.ForwardedAddressPassesOnlyTheController | src/app/webhook/webhook.service.ts:24-30 | An allowlisted address sent only in x-forwarded-for passes the controller and never the service. |
| Records.FindWallet | src/app/wallets/services/wallet.service.ts:15 | The result is the wallet of that user in that currency that comes first in insertion order (every earlier wallet is of another user or currency), or none exists. |
| Records.AddWalletKeepsOnePerCurrency | src/app/wallets/services/wallet.service.ts:15-27 | Adding a wallet for a pair that has none keeps one wallet per (user, currency). |
| Records.AddCardKeepsOnePerReference | src/app/virtual-cards/services/virtual-cards.service.ts:205-279 | Adding a card for a reference that has none keeps one card per reference. |
| Records.WithBalance | src/app/currency-exchange/services/currency-exchange.service.ts:154-158 | Only that wallet's balance changes, and the total changes by the difference. |
| Records.WithCardBalance | src/app/virtual-cards/services/virtual-cards.service.ts:367-426 | Only that card's balance changes, and the total changes by the difference. |
| Records.TotalAfterUpdate | src/app/currency-exchange/services/currency-exchange.service.ts:154-160 | Setting one wallet's balance changes the total by exactly the difference. |
| Records.CardTotalAfterUpdate | src/app/virtual-cards/services/virtual-cards.service.ts:367-426 | Setting one card's balance changes the card total by exactly the difference. |
| Records.TotalAfterAppend | src/app/wallets/services/wallet.service.ts:25-27 | Appending a wallet adds its balance to the total. |
| Paging.Skip | src/app/virtual-cards/services/virtual-cards.service.ts:474 | Page p skips (p − 1) × 10 records. |
| Paging.TotalPages | src/app/virtual-cards/services/virtual-cards.service.ts:484 | ceil(total / 10): the least number of pages holding all records. |
| Paging.Window | src/app/virtual-cards/services/virtual-cards.service.ts:470-478 | A page holds at most 10 records. It is non-empty exactly when the page number is at most the page count. |
| Paging.FirstPagesArePrefix | src/app/virtual-cards/services/virtual-cards.service.ts:470-484 | Pages 1..n read in turn are the first min(10n, total) records. |
| Paging.PagesPartitionRecords | src/app/virtual-cards/services/virtual-cards.service.ts:470-484 | Pages 1..totalPages yield every record once, in order. |
| VirtualCards.CreateVirtualCard | src/app/virtual-cards/services/virtual-cards.service.ts:19-82 | Checks run in order: user, Maplerad account, wallet, fee document, balance. Maplerad is asked if and only if all pass; it is never asked when the user, the Maplerad account or the wallet is missing. Only a returned reference records a PENDING request and debits the fee, exactly once. Every failure changes nothing. |
| VirtualCards.RequestOwner | src/app/virtual-cards/services/virtual-cards.service.ts:84-140 | The request is filed under the account found again by its Maplerad id. That is the requesting user whenever Maplerad ids are unique. |
| VirtualCards.NewCard | src/app/virtual-cards/services/virtual-cards.service.ts:253-266 | The new card belongs to the request's user and copies Maplerad's details field by field. |
| VirtualCards.HandleVirtualCardCreation | src/app/virtual-cards/services/virtual-cards.service.ts:205-279 | An unknown reference or a failed fetch changes nothing. Otherwise the request becomes SUCCESS, and a card is created unless one exists for that reference. This keeps one card per reference. |
| VirtualCards.SetCardStatus | src/app/virtual-cards/services/virtual-cards.service.ts:281-365 | Only that card's status changes, and only when Maplerad confirms. |
| VirtualCards.FreezeVirtualCard | src/app/virtual-cards/services/virtual-cards.service.ts:281-322 | An unknown card fails NotFound. The card becomes DISABLED exactly when Maplerad confirms. Any other reply, a transport error included, fails with the helper's error and leaves the cards unchanged. |
| VirtualCards.UnfreezeVirtualCard | src/app/virtual-cards/services/virtual-cards.service.ts:324-365 | An unknown card fails NotFound. The card becomes ACTIVE exactly when Maplerad confirms. Any other reply, a transport error included, fails with the helper's error and leaves the cards unchanged. |
| VirtualCards.FundVirtualCard | src/app/virtual-cards/services/virtual-cards.service.ts:367-426 | Checks run in order: user, the user's card, wallet in the card's currency, balance (BadRequest). Maplerad is asked if and only if all pass. On confirmation the amount moves from wallet to card and a completed "Top up" is recorded. Wallet plus card totals are conserved on every path. |
| VirtualCards.Matching | src/app/virtual-cards/services/virtual-cards.service.ts:470-472 | A transaction is selected if and only if it is recorded and belongs to the user. |
| VirtualCards.NewestFirst | src/app/virtual-cards/services/virtual-cards.service.ts:470-477 | All of the user's transactions and only those, newest first: the selection in recorded order, reversed. |
| VirtualCards.RequestedPage | src/app/virtual-cards/controllers/virtual-cards.controller.ts:87-92 | The controller defaults a falsy page to 1: an absent or zero page becomes 1, and any other page is passed on unchanged. |
| VirtualCards.ListingPagesCoverTransactions | src/app/virtual-cards/services/virtual-cards.service.ts:470-484 | Reading pages 1..totalPages in turn lists every one of the user's transactions exactly once, newest first. |
| VirtualCards.GetVirtualCardTransactions | src/app/virtual-cards/services/virtual-cards.service.ts:458-498 | An unknown user fails NotFound. A page below 1 fails with MongoDB's negative-skip error. Otherwise the page is the window of 10 starting at (page − 1) × 10 in the newest-first listing, the page number is echoed, totalRecords counts all of the user's transactions and totalPages is ceil(totalRecords / 10). The page is non-empty exactly when it is at most totalPages. |
| Webhook.HandleCardCreation | src/app/webhook/webhook.service.ts:22-86 | A refused address or an unknown reference changes nothing. Otherwise the request becomes SUCCESS before the duplicate check, and a card is created unless one exists. Every failure is "Internal Server Error". One card per reference is kept. |
| Webhook.HandleCardCreationFailed | src/app/webhook/webhook.service.ts:88-114 | The request becomes FAILED if and only if x-real-ip is allowlisted and the reference is known. |
| Webhook.HandleWebhook | src/app/webhook/webhook.controller.ts:48-78 | Unknown events are acknowledged and change nothing. Card events from refused addresses fail and change nothing. An admitted card creation has the effect of the creation handler: nothing changes when the handler's own gate refuses or the reference is unknown; otherwise the request becomes SUCCESS and a card is appended unless one exists for the reference. An admitted creation failure marks a known request FAILED when x-real-ip passes, and never touches the cards. `charge.success` hands the reference to deposit crediting with no address check. |
| Wallets.CreateWallet | src/app/wallets/services/wallet.service.ts:7-30 | Checks run in order: user, existing wallet, supported currency. Success appends exactly one empty wallet. One wallet per (user, currency) and the total balance are kept. |
| Wallets.CreateDefaultWallets | src/app/wallets/services/wallet.service.ts:32-48 | The user gets empty USD and NGN wallets. The invariant is kept for a user with no wallets and broken for a user who already has a USD wallet. |
| Wallets.WalletsOf | src/app/wallets/services/wallet.service.ts:51 | The result is exactly the user's wallets, each as many times as it is stored, so equal duplicate wallets are all listed. |
| Wallets.GetWalletsByUserId | src/app/wallets/services/wallet.service.ts:50-57 | The call never fails NotFound and lists exactly the user's wallets, duplicates included. |
| Wallets.GetWalletByWalletId | src/app/wallets/services/wallet.service.ts:59-66 | The call never fails NotFound. An unknown id yields no wallet. |
| MapleradUserAccount.NatToString | src/app/users/services/maplerad-user-account.service.ts:7-13 | The result is decimal digits with no leading zero, and one digit exactly below 10. |
| MapleradUserAccount.ParseNatToString | src/app/users/services/maplerad-user-account.service.ts:7-13 | The decimal text reads back as the number. |
| MapleradUserAccount.Pad2 | src/app/users/services/maplerad-user-account.service.ts:9 | `padStart(2, '0')`: short text gets leading zeros up to two characters, and longer text is unchanged. |
| MapleradUserAccount.SplitAtFirst | src/app/users/services/maplerad-user-account.service.ts:13 | Splitting at the first separator yields the text before it, then the rest split. |
| MapleradUserAccount.MonthField | src/app/users/services/maplerad-user-account.service.ts:9 | The month field is two digits and reads back as the 1-based month. |
| MapleradUserAccount.FormatDobRoundTrip | src/app/users/services/maplerad-user-account.service.ts:6-14 | The date of birth is three hyphen-separated fields: the unpadded day, a two-digit month and the year. It reads back as the same date. |
| MapleradUserAccount.IndexOf | src/app/users/services/maplerad-user-account.service.ts:51 | The result is the first occurrence of the substring, or there is none. |
| MapleradUserAccount.PhoneNumberAfterPrefix | src/app/users/services/maplerad-user-account.service.ts:51 | The result is absent exactly when the number has no "+234". It never contains "+234". Otherwise it is exactly the text from just after the first "+234" up to the next "+234" or the end. For "+234" followed by a local number, it is that local number. |
| MapleradUserAccount.Payload | src/app/users/services/maplerad-user-account.service.ts:43-61 | Country is "NG" at top level and in the address, whatever the user's address says. The country code is "+234" and the identification number is the BVN. First and last name, email, street, city and state are the user's own. The postal code is the zip code, the phone number is the text after "+234" (`PhoneNumberAfterPrefix`), and the date of birth reads back as the stored date. |
| MapleradUserAccount.CreateUserAccountOnMaplerad | src/app/users/services/maplerad-user-account.service.ts:17-80 | An unknown user fails NotFound before anything is sent. Success happens if and only if Maplerad enrolled the user, and then exactly one {user, id, tier} record is stored with result true. A failure is the generic Error and stores nothing. |
| Auth.RemoveSensitiveData | src/app/authentication/auth.service.ts:115-123 | Exactly the entries whose key is not "password" or "bvn" are kept, with their values unchanged. |
| Auth.RemoveSensitiveDataDistributes | src/app/authentication/auth.service.ts:120-122 | The filter works entry by entry, so kept entries stay in order. |
| Auth.KeepAll | src/app/authentication/auth.service.ts:120-122 | Entries with no sensitive key pass unchanged. |
| Auth.RemoveSensitiveDataIdempotent | src/app/authentication/auth.service.ts:115-123 | Filtering twice is filtering once. |
| Auth.Register | src/app/authentication/auth.service.ts:34-84 | A taken email fails BadRequest "User already exists" and changes nothing. Otherwise the user is stored, then enrolled, then given USD and NGN wallets, and returned without password and BVN. A failed enrolment leaves the user stored. One user per email is kept. |
| Auth.Login | src/app/authentication/auth.service.ts:86-113 | An unknown email fails BadRequest "Invalid credentials", and a wrong password fails a plain Error with the same message. Success returns the user with that email, without password and BVN. |

## Left out

- I/O is outside the model:
  - HTTP requests to Maplerad and Paystack;
  - Redis and MongoDB connections;
  - logging and the `console` calls.
  Each provider reply and each document read but not modelled (the FX margin and the card-creation fee) is a parameter.
- JSON encoding and decoding of the cached quote is not modelled. The cache holds the quote record itself.
- Paystack.CalculatePayableAmount has a fuel bound. The source loops without bound; the model runs at most `fuel` rounds and returns `None` when the estimate has not repeated.
- Paystack.CalculatePayableAmount computes on exact reals, while the source uses IEEE doubles. Below the cap, exact arithmetic never repeats an estimate except at the fixed point (`Paystack.FixedPointBelowCap`). So the model does not show that the source's loop stops there through rounding.
- Other arithmetic is exact reals too: no floating-point rounding is modelled in balances, rates or fees.
- Passwords are not modelled:
  - bcrypt hashing on save and comparison at login (the comparison's outcome is a parameter of `Auth.Login`);
  - the JWT token that `register` and `login` return.
- Date parsing is outside the model. `new Date(dateOfBirth)` is a parameter of `Auth.Register`, and an invalid date is not modelled.
- Auth.Register requires that the id the database assigns to the new user is not already taken, as MongoDB ObjectIds guarantee.
- Auth.Register: creates the default wallets with the wallet service of src/app/wallets/services/wallet.service.ts; the service auth.service.ts imports (`../wallets/wallet.service`) is not part of this model.
- VirtualCards.CreateVirtualCard: card requests are keyed by Maplerad card reference, so a reference filed twice replaces the first request, where the source inserts a second document (and `findOne` then finds the older one). Maplerad card references are assumed unique.
- The model follows the controllers and services under the controllers/ and services/ directories of each feature. src/controllers.ts registers newer controllers (such as src/app/currency-exchange/currency-exchange.controller.ts) whose services are not part of this model.
- ObjectId.createFromHexString, which throws on a malformed id in `getWalletsByUserId`, is not modelled. Wallet ids are positions in the wallet sequence.
- Concurrency is not modelled: operations run one at a time. The controller starts the card webhook handlers without awaiting them; the model runs each to completion, and the response does not depend on its outcome.
- Webhook.HandleCardCreation: two failures after the request is marked SUCCESS are not modelled: a missing or malformed `card` in the event body, and a failing `VirtualCardModel.create`. The model takes the card details as given and the insert as succeeding; in the source both end in "Internal Server Error" with the request already SUCCESS and no card stored.
- VirtualCards.HandleVirtualCardCreation: a failing `VirtualCardModel.create` after the request is marked SUCCESS is not modelled. The model takes the insert as succeeding; in the source the error is logged and swallowed, leaving the request SUCCESS and no card stored.
- Crediting a wallet after a Paystack `charge.success` event belongs to a wallet service that is not part of this model. The model records the reference handed to it and takes the call's error as a parameter.
- Response shaping is not modelled:
  - `toObject` and the id strings in controller responses, except the exchange endpoint's `toObject` on a boolean, which is modelled;
  - `populate('user')`;
  - Mongoose timestamps;
  - the documents `insertMany` returns.
- Mongoose strict mode is not modelled. The card schema has no `balance` field, so the balance `fundVirtualCard` increments does not persist: in the source the wallet is debited and nothing stored is credited. The model keeps a card balance so that funding's conservation of money can be stated. Card number, expiry and CVV are not stored either.
- VirtualCards.GetVirtualCardTransactions takes an integer page. A fractional page, which would reach MongoDB as a fractional skip, is not modelled.
- The seeded margin (0.1) and card fee (5) are not constants of the model. They are parameters, as the database documents they come from.
- The listing, detail and deposit-verification endpoints are outside this core, and so are the FX transaction history and the routing layer.
- `exchangeCurrency` saves read-modify-write snapshots (`CurrencyExchange.Settle`) and records no exchange transaction.
