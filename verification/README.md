# barBank transfer settlement, modelled in Dafny

barBank is a small bank backend whose accounts can send money to accounts at other banks.
Bank prefixes are the first three characters of an account number. This project models the
part of it that moves the money:

- the bearer-token check that guards the routes (`verifyToken`);
- the transfer route, the router's `POST /` in routes/transactions.js. It validates the request against the user's
  source account, resolves the destination bank through the local bank cache, stores a
  Pending transaction and debits the source;
- the stub inbound endpoint, the router's `POST /b2b` in the same file;
- the local cache of the central bank's bank list and its refresh;
- one pass of the outbound settlement worker over a Pending transaction. A pass either expires
  and refunds the transaction, or marks it In progress, resolves the destination bank, signs
  the payload, dispatches it and records the outcome. The model also covers any number of
  passes in sequence;
- the Account record: its validators, its defaults, balance changes and its JSON form.

The model is pure. The database is a `Ledger` value: accounts by number, the transaction log
and the bank cache. Every call to the outside world becomes a value given as a parameter:

- the central bank's reply;
- the signer's result;
- the peer bank's reply;
- the clock;
- the name the user lookup yields;
- the database library's id-format check and its conversion of a token to the id it denotes.

Each operation returns the new ledger together with a trace of `Action`s: status writes,
lookups, refreshes, signing, dispatch, refunds, inserts and debits, in the order they happen.
Ordering and at-most-once claims are stated on that trace.

Modules follow the source: `Common` (prefixes, `Option`), `Accounts` (models/Account.js),
`Banks` (the bank cache and its refresh), `Ledger` (transactions, status writes, refunds,
expiry), `Auth` (`verifyToken`), `Routing` (resolving a destination bank), `Worker`
(`processTransactions`) and `Transfers` (routes/transactions.js).

## Model

| member | source | states |
|---|---|---|
| Common.Prefix | middlewares.js:170 | The bank prefix is the first three characters of an account number, or the whole number when it is shorter; it is always a prefix of the number. |
| Common.PrefixOfPrefixed | models/Account.js:6-8 | A number built as a three-character bank prefix followed by more text reads back that same prefix. |
| Accounts.Valid | models/Account.js:4-12 | An account passes the schema validators exactly when its name has 2 to 255 characters, its number 11 to 255, its balance is at least 0 and it has a currency. |
| Accounts.WithDefaults | models/Account.js:4-12 | Each field the caller omits gets the schema default: name "main", balance 10000, currency "EUR", and a number made of the bank prefix followed by a digest; each given field is kept. |
| Accounts.DefaultAccountIsValid | models/Account.js:4-12 | An account created with every default passes the length, minimum-balance and required-field validators, holds 10000, and its number's prefix is the bank's own prefix. |
| Accounts.Credit | middlewares.js:148 | The balance rises by exactly the amount, no other field changes, and a non-negative credit keeps a valid account valid. |
| Accounts.Debit | routes/transactions.js:12-15 | The balance falls by exactly the amount, no other field changes, and a debit the balance covers keeps the balance at least 0. |
| Accounts.ToJson | models/Account.js:15-21 | The JSON form has exactly the document's fields minus `_id`, `__v` and `userId`, each with its stored value. |
| Accounts.JsonRoundTrip | models/Account.js:15-21 | An account's JSON form holds exactly name, number, balance and currency, and with the three hidden fields it rebuilds the account. |
| Banks.Lookup | middlewares.js:171 | A bank is found exactly when some cached record has the prefix, and the one found is cached and has that prefix. |
| Banks.Refresh | middlewares.js:45-79 | The refresh succeeds exactly when the central bank returned a non-empty list, and the cache is then exactly that list. A fetch or parse failure leaves the cache alone. A failure after the delete step leaves it empty: a reply that is not a list, a failed insert, or an empty list, whose empty bulk insert the driver refuses. An error carries the failure's message. |
| Banks.RefreshReplacesAll | middlewares.js:54-66 | After refreshing with a non-empty list every lookup answers as the fetched list does, so a bank that was cached but is not in the list is gone. |
| Banks.FailedFetchKeepsCache | middlewares.js:48-53 | A failed fetch reports its message and changes no lookup. |
| Banks.LateFailureEmptiesCache | middlewares.js:54-66 | A reply that is not a list, a failed bulk insert, or an empty list reports an error and leaves a cache that knows no bank. |
| Ledger.IsExpired | middlewares.js:81-86 | A transaction is expired exactly when the clock is strictly past its creation time plus three days. |
| Ledger.ExpiryIsPermanent | middlewares.js:81-86 | Once a transaction is past three days old it stays expired at every later time; at exactly three days it is not yet expired. |
| Ledger.SetStatus | middlewares.js:88-92 | The status and its detail are overwritten and every other field is kept. |
| Ledger.Refund | middlewares.js:143-150 | The source account, looked up by number, is credited exactly the amount and nothing else about it changes. When no account has that number, nothing changes. No other account changes. |
| Ledger.RefundKeepsAccountsValid | middlewares.js:143-150 | Refunding a positive amount keeps every account valid and stored under its number. |
| Auth.Split | middlewares.js:20 | Splitting on the separator yields at least one piece and no piece contains the separator. |
| Auth.JoinSplit | middlewares.js:20 | Joining the pieces of a split with the separator gives back the header. |
| Auth.SplitJoin | middlewares.js:20 | Splitting the join of separator-free pieces gives back those pieces. |
| Auth.VerifyToken | middlewares.js:11-43 | Exactly a missing or empty header gets 401 "Missing Authorization header". Exactly a header without a non-empty second field gets 400 "Invalid Authorization header format". Exactly a field that is not a well-formed id, or names no stored session, gets 401 "Invalid token". The request is accepted exactly when that field is a well-formed id whose converted form (the id the database query matches, e.g. lower-case hex for an upper-case token) names a stored session; the user then comes from that session and the session id is that converted id, not the raw token. Every refusal is 400 or 401. |
| Auth.AcceptsSessionToken | middlewares.js:19-40 | Any header whose second space-separated field is a well-formed id converting to a stored session's id is accepted as that session, with that stored id as the session id, whatever the scheme and any trailing fields. |
| Auth.AcceptedHeaderShape | middlewares.js:19-36 | An accepted header is a first field, a space, a well-formed token converting to a stored session's id, and possibly more space-separated text. |
| Routing.Resolve | middlewares.js:169-187 | The bank is found exactly when it is cached or a stored non-empty list has it. The refresh fails exactly on a miss with a failing refresh, an empty list included, carrying its message. The bank is unknown exactly when a stored list lacks it. A hit leaves the cache alone and looks up once; a miss refreshes the cache and looks up again after a successful refresh. |
| Worker.PayloadOf | middlewares.js:190-197 | The signed payload carries the transaction's source and destination accounts, amount, currency, explanation and sender name, and nothing else. |
| Worker.Deliver | middlewares.js:189-212 | The payload of the transaction is signed; then either a signing failure returns it to Pending with the signing message, or the token goes to the bank's URL. A reply with an `error` field then fails the transaction; any other reply completes it with an empty detail and stores the reply's `receiverName`, which may be absent; and an exception returns it to Pending with the message. No refund is issued and no balance moves. |
| Worker.Step | middlewares.js:158-212 | A pass changes only this transaction's status, detail and receiver name, and never leaves it In progress. Balances move only by this transaction's refund, and then it ends Failed. An expired transaction is failed with "Transaction has expired" and refunded, in that order, and nothing else happens. Otherwise it is marked In progress before the destination bank is looked up. |
| Worker.StepAsWritten | middlewares.js:174-187 | With the refresh and the re-lookup not awaited, a cache miss on a live transaction always ends Pending, with no refund and no balance change. |
| Worker.AsWrittenAgreesOffMiss | middlewares.js:158-187 | The code as written and the awaited pass agree whenever the transaction has expired or its bank is cached. So the missing awaits matter only on a cache miss, and a transfer the code leaves Pending is failed and refunded once it expires. |
| Worker.MissingAwaitUnknownBank | middlewares.js:174-186 | For a transfer to a bank a stored non-empty list lacks, the awaited pass fails and refunds it, while the code as written leaves it Pending without a refund. |
| Worker.MissingAwaitRefreshError | middlewares.js:174-178 | For an unreachable central bank, the awaited pass records "Central bank refresh failed: " and the error, while the code as written records a failed dispatch to an undefined URL. |
| Worker.StepRefreshFailure | middlewares.js:174-179 | A miss with a failing refresh writes In progress, looks up, refreshes and writes Pending with the refresh error, in that order. Nothing is signed or refunded and no balance moves. |
| Worker.StepUnknownBank | middlewares.js:174-186 | A miss whose refreshed list lacks the prefix looks up twice around the refresh. It then refunds the source and only afterwards fails the transaction with "Bank <prefix> does not exist". Exactly one refund, and the cache becomes the fetched list. |
| Worker.StepDelivery | middlewares.js:189-212 | A resolved bank gets the signed payload at its transfer URL. Each signing result and reply leads to its status and detail, with no refund and no balance change. |
| Worker.StepFailedWhen | middlewares.js:160-212 | A pass ends Failed exactly when the transaction expired, its bank is unknown, or a resolved, signed dispatch got an error reply. |
| Worker.StepCompletedWhen | middlewares.js:160-205 | A pass ends Completed exactly when the transaction is live, its bank resolves, signing succeeds and the peer's reply carries no `error` field, whether or not it names the receiver. |
| Worker.StepRefundsWhen | middlewares.js:160-212 | A pass refunds exactly once when the transaction expired or its bank is unknown, and otherwise never, so an error reply is not refunded. A refund credits the source and fails the transaction; without one no balance moves. |
| Worker.Run | middlewares.js:152-218 | Repeated passes keep the transaction log's length, every other transaction, and this transaction's source and amount. |
| Worker.RunIdle | middlewares.js:155 | Passes over a transaction that is no longer Pending change nothing and do nothing. |
| Worker.RefundAtMostOnce | middlewares.js:155-186 | Over any number of passes a transaction is refunded at most once. When it is, it ends Failed and only its source is credited, exactly its amount; otherwise no balance changes. |
| Transfers.Record | routes/transactions.js:10-88 | Each error response is given exactly when its check is the first to fail: 404 when the user owns no such account, 402 when the amount exceeds the balance, 400 "Invalid amount" when it is not positive, 400 "Invalid accountTo" when the refreshed list lacks the bank. The 403 never happens. 500 exactly when the user lookup finds nobody. A failed refresh still creates the transfer with the error as its detail. Nothing is written unless the transfer is created. A created transfer appends one Pending transaction and then debits the source by its amount, leaving it non-negative. The cache is refreshed only on a miss. |
| Transfers.Initiate | routes/transactions.js:73-82 | As written, a created transfer stores the source account number as its destination. |
| Transfers.InitiateIntended | routes/transactions.js:73-82 | As intended, a created transfer stores the requested destination. |
| Transfers.Post | routes/transactions.js:10 | As intended, with the destination stored as requested (`Transfers.InitiateIntended`): a request the token check refuses gets that check's code and message and changes nothing. A created transfer is recorded under the authenticated user with the requested destination, debits that user's source account by exactly the amount, leaving it at least 0, and changes no other account. |
| Transfers.RecordKeepsLedgerValid | routes/transactions.js:22-85 | A transfer request keeps every account valid and stored under its number, and every transaction amount positive. |
| Transfers.MisroutedTransfer | routes/transactions.js:45-78 | As written, a created transfer whose two accounts have different bank prefixes is routed by the worker to the sender's bank, not the requested one. |
| Transfers.MisroutedExample | routes/transactions.js:78 | A transfer of 100 from "BAR00000001" to "XYZ00000002" is created as written and then dispatched to bank BAR's URL. |
| Transfers.IntendedRoutesToRequestedBank | routes/transactions.js:44-82 | As intended, a created transfer is routed to the requested bank, which the cache knows exactly when the transfer carries no refresh error. |
| Transfers.SettlementAccounting | routes/transactions.js:72-88 | As intended, with the destination stored as requested (`Transfers.InitiateIntended`): after creation and any number of worker passes, the transfer is refunded at most once. The source ends at its old balance minus the amount, plus the amount once more exactly when it was refunded. A refunded transfer ends Failed. |
| Transfers.B2b | routes/transactions.js:107-109 | Whatever token arrives, the stub endpoint replies with receiver name "Jaan Tamm". |
| Transfers.StubPeerCompletes | routes/transactions.js:107-109 | A pass whose peer is the stub endpoint completes a resolvable, signed transfer with receiver "Jaan Tamm" and moves no balance. |

## Left out

- HTTP, Express routing and JSON encoding: requests and replies are values.
- Signing with the private key (`createSignedTransaction`): a signing result is a parameter.
- The outbound request (`sendRequest`): the peer's reply, or the exception message, is a parameter.
- MongoDB and Mongoose: the database is the `Ledger` value. The id-format check and the ObjectId conversion of the token (`Auth.VerifyToken`'s `canonical`) are parameters. Accounts are keyed by number, so two accounts never share a number.
- Save failures: each `save` succeeds. The debit's `save` is not awaited, so a failure there would be lost; that is not modelled.
- Concurrency: the worker runs its Pending transactions concurrently and re-arms itself every second, so ticks can overlap, and route requests run concurrently with each other and with the worker. Every balance change in the source is a read, an in-memory change and a `save` of the new value: the refund (middlewares.js:144-149), and the route's debit of the account it loaded at routes/transactions.js:22, applied at :85 through :13-14 after the awaits at :46, :51, :60 and :73-82. Two overlapping changes to one account can therefore lose one of them. `Accounts.Credit`, `Accounts.Debit`, `Ledger.Refund`, `Transfers.Record` and `Worker.Run` apply each balance change atomically, one after another, so `Transfers.SettlementAccounting` does not hold for interleavings in which the source loses an update.
- Calendar arithmetic: expiry adds three calendar days with `setDate`. The model uses 259200000 ms, so a daylight-saving shift of one hour is not modelled. The in-place change that `isExpired` makes to `createdAt` is not modelled either.
- The route's catch block (routes/transactions.js:89-104) turns transaction validation errors into 400 responses by regular expression. Those errors come from models/Transaction.js, which is not part of this model. Only the failure of the user lookup, which ends in 500, is modelled.
- Non-number, non-integer or missing request fields: amounts are integers in minor units, and `accountTo` is always a string.
- models/Transaction.js is not part of this model. A new transaction is assumed to be Pending and stamped with `now`.
- The user lookup `User.findOne({id: userId})`: its name is a parameter, and which user the query matches is not modelled.
- A failing bulk insert can store some banks before failing. `Banks.Refresh` leaves the cache empty instead. The other failures after `deleteMany` (a reply that is not a list, an empty list) leave the cache empty in the code too.
- `Banks.EmptyBulkError` is the database driver's message for an empty bulk operation. The driver's code is not part of this model.
- A lookup returns the first cached bank with the prefix, where the database may return any of them.
- Inbound transfers: `/b2b` is a stub that always names "Jaan Tamm"; it verifies no token and credits no account, so neither does the model.
- String lengths: `Accounts.Valid` and `Common.Prefix` count Unicode characters. The schema's `minlength`/`maxlength` and JavaScript's `substring`/`slice` count UTF-16 code units. So a name such as "😀" has length 2 in the source and passes `minlength: 2`, but the model counts 1 and rejects it. Account numbers are ASCII in practice.
- routes/users.js, models/User.js and index.js are outside the settlement core. index.js mounts only `/users` and `/sessions`, so neither route of routes/transactions.js is reachable from it, and it never starts `processTransactions`.

## Findings

| source | as written | input that shows it | evidently intended | confidence | as-written member | corrected member |
|---|---|---|---|---|---|---|
| middlewares.js:175-181 | The central bank refresh and the re-lookup after a cache miss are not awaited. The refresh yields a promise without an `error` field, and the re-lookup yields a query object, which is truthy. Both checks are skipped, and the dispatch goes to an undefined URL and throws. | A transfer from "BAR00000001" to "XYZ00000001" with an empty cache, and a central list that has only BAR (Worker.MissingAwaitUnknownBank). It stays Pending until it expires three days after creation, and is only then failed and refunded (Worker.AsWrittenAgreesOffMiss), instead of being refunded and failed on the first pass. | Await both calls, so a failed refresh returns the transaction to Pending with the refresh error, and an unknown bank refunds and fails it. | not executed | Worker.StepAsWritten | Worker.Step |
| routes/transactions.js:78 | The new transaction's `accountTo` is `req.body.accountFrom`. | A transfer of 100 from "BAR00000001" to "XYZ00000002" (Transfers.MisroutedExample). The worker sends it to bank BAR instead of XYZ. | `accountTo: req.body.accountTo`, the destination whose bank the route has just resolved. | not executed | Transfers.Initiate | Transfers.InitiateIntended |
