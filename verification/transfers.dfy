/** The transfer route: authenticate, validate the request against the source account, resolve
    the destination bank, store a Pending transaction and debit the source; and the stub
    inbound endpoint. The database, the central bank and the user lookup are replaced by the
    values they yield. */
module Transfers {
  import opened Common
  import opened Accounts
  import opened Banks
  import opened Ledger
  import opened Routing
  import opened Auth
  import opened Worker

  /** The request body of a transfer. */
  datatype TransferRequest = TransferRequest(accountFrom: string, accountTo: string, amount: int, explanation: string)

  /** 201 with an empty body, an error status with its `error` message, or 500 with an empty body. */
  datatype Response = Created | Refused(code: int, error: string) | ServerError

  /** The response, the ledger afterwards and the trace of what the request did, in order. */
  datatype PostResult = PostResult(response: Response, ledger: Ledger, actions: seq<Action>)

  /** `Account.findOne({number: accountFrom, userId})` finds the source account. */
  predicate Owns(l: Ledger, userId: string, number: string) {
    number in l.accounts && l.accounts[number].userId == userId
  }

  /** The user's source account covers the amount, and the amount is positive. */
  predicate Covered(l: Ledger, userId: string, req: TransferRequest) {
    Owns(l, userId, req.accountFrom) && 0 < req.amount <= l.accounts[req.accountFrom].balance
  }

  /** Every check passes: the amount is covered and the destination bank is known, or the
      central bank could not be asked. */
  predicate Admissible(l: Ledger, userId: string, req: TransferRequest, central: CentralBankReply) {
    Covered(l, userId, req) && !BankUnknown(l.banks, Prefix(req.accountTo), central)
  }

  /** The status detail a new transfer is stored with: the refresh error when the central bank
      could not be asked, and none otherwise. */
  function NewDetail(banks: Cache, prefix: string, central: CentralBankReply): Option<string> {
    if RefreshFails(banks, prefix, central) then Some(FailureMessage(central)) else None
  }

  /** The body of the transfer route after authentication, for user `userId`; `storedTo` is the
      value written to the new transaction's `accountTo`, `now` the creation time and
      `senderName` the name the user lookup yields (`None` when it finds no user, which throws
      and ends in 500). The balance check comes before the sign check, and a failed central
      bank refresh does not stop the transfer: the error becomes its status detail. */
  function Record(l: Ledger, userId: string, req: TransferRequest, central: CentralBankReply, now: int,
                  senderName: Option<string>, storedTo: string): (r: PostResult)
    // the error responses, each exactly when its check is the first to fail
    ensures r.response == Refused(404, "accountFrom not found") <==> !Owns(l, userId, req.accountFrom)
    ensures r.response != Refused(403, "Forbidden")
    ensures r.response == Refused(402, "Insufficient funds") <==>
      Owns(l, userId, req.accountFrom) && req.amount > l.accounts[req.accountFrom].balance
    ensures r.response == Refused(400, "Invalid amount") <==>
      Owns(l, userId, req.accountFrom) && req.amount <= l.accounts[req.accountFrom].balance && req.amount <= 0
    ensures r.response == Refused(400, "Invalid accountTo") <==>
      Covered(l, userId, req) && BankUnknown(l.banks, Prefix(req.accountTo), central)
    ensures r.response == ServerError <==> Admissible(l, userId, req, central) && senderName.None?
    ensures r.response == Created <==> Admissible(l, userId, req, central) && senderName.Some?
    // the bank cache is refreshed only when a covered transfer misses it
    ensures Covered(l, userId, req) && !Knows(l.banks, Prefix(req.accountTo))
            ==> r.ledger.banks == Refresh(l.banks, central).cache
    ensures !(Covered(l, userId, req) && !Knows(l.banks, Prefix(req.accountTo))) ==> r.ledger.banks == l.banks
    // nothing is written unless the transfer is created
    ensures r.response != Created ==> r.ledger.accounts == l.accounts && r.ledger.transactions == l.transactions
    ensures r.response != Created ==> forall a :: a in r.actions ==> !a.TransactionInsert? && !a.DebitIssued?
    // a created transfer appends one Pending transaction, then debits the source by its amount
    ensures r.response == Created ==>
      var n, source := |l.transactions|, l.accounts[req.accountFrom];
      && |r.ledger.transactions| == n + 1 && r.ledger.transactions[..n] == l.transactions
      && r.ledger.transactions[n] == Transaction(userId, req.amount, source.currency, req.accountFrom, storedTo,
                                                 req.explanation, senderName.value, None, Pending,
                                                 NewDetail(l.banks, Prefix(req.accountTo), central), now)
      && r.ledger.accounts == l.accounts[req.accountFrom := Debit(source, req.amount)]
      && r.ledger.accounts[req.accountFrom].balance == source.balance - req.amount >= 0
      && |r.actions| >= 2
      && r.actions[|r.actions| - 2..] == [TransactionInsert(r.ledger.transactions[n]), DebitIssued(req.accountFrom, req.amount)]
  {
    if !Owns(l, userId, req.accountFrom) then PostResult(Refused(404, "accountFrom not found"), l, [])
    else
      var source := l.accounts[req.accountFrom];
      if source.userId != userId then PostResult(Refused(403, "Forbidden"), l, [])
      else if req.amount > source.balance then PostResult(Refused(402, "Insufficient funds"), l, [])
      else if req.amount <= 0 then PostResult(Refused(400, "Invalid amount"), l, [])
      else
        var res := Resolve(l.banks, Prefix(req.accountTo), central);
        var l' := l.(banks := res.cache);
        if res.Unknown? then PostResult(Refused(400, "Invalid accountTo"), l', res.trace)
        else
          var detail := if res.RefreshFailed? then Some(res.message) else None;
          match senderName
          case None => PostResult(ServerError, l', res.trace)
          case Some(name) =>
            var t := Transaction(userId, req.amount, source.currency, req.accountFrom, storedTo,
                                 req.explanation, name, None, Pending, detail, now);
            PostResult(Created,
                       Ledger(l.accounts[req.accountFrom := Debit(source, req.amount)], l.transactions + [t], res.cache),
                       res.trace + [TransactionInsert(t), DebitIssued(req.accountFrom, req.amount)])
  }

  /** The route as written: the new transaction's `accountTo` is the source account number. */
  function Initiate(l: Ledger, userId: string, req: TransferRequest, central: CentralBankReply, now: int,
                    senderName: Option<string>): (r: PostResult)
    ensures r.response == Created ==>
      |r.ledger.transactions| == |l.transactions| + 1
      && r.ledger.transactions[|l.transactions|].accountTo == req.accountFrom
  {
    Record(l, userId, req, central, now, senderName, req.accountFrom)
  }

  /** The route as evidently intended: the new transaction's `accountTo` is the requested
      destination, whose bank the route has just resolved. */
  function InitiateIntended(l: Ledger, userId: string, req: TransferRequest, central: CentralBankReply, now: int,
                            senderName: Option<string>): (r: PostResult)
    ensures r.response == Created ==>
      |r.ledger.transactions| == |l.transactions| + 1
      && r.ledger.transactions[|l.transactions|].accountTo == req.accountTo
  {
    Record(l, userId, req, central, now, senderName, req.accountTo)
  }

  /** `POST /`: the token check, then the route body as intended. */
  function Post(header: Option<string>, sessions: map<string, Session>,
                isObjectId: string -> bool, canonical: string -> string,
                l: Ledger, req: TransferRequest, central: CentralBankReply, now: int,
                senderName: Option<string>): (r: PostResult)
    ensures var auth := VerifyToken(header, sessions, isObjectId, canonical);
            auth.Denied? ==> r == PostResult(Refused(auth.code, auth.error), l, [])
    ensures r.response == Created ==>
      var auth := VerifyToken(header, sessions, isObjectId, canonical);
      && auth.Authenticated? && Owns(l, auth.userId, req.accountFrom)
      && |r.ledger.transactions| == |l.transactions| + 1
      && r.ledger.transactions[|l.transactions|].accountTo == req.accountTo
      && req.accountFrom in r.ledger.accounts
      && r.ledger.accounts[req.accountFrom].balance == l.accounts[req.accountFrom].balance - req.amount >= 0
      && r.ledger.transactions[|l.transactions|].userId == auth.userId
      && forall n :: n in l.accounts && n != req.accountFrom ==> n in r.ledger.accounts && r.ledger.accounts[n] == l.accounts[n]
  {
    match VerifyToken(header, sessions, isObjectId, canonical)
    case Denied(code, error) => PostResult(Refused(code, error), l, [])
    case Authenticated(userId, _) => InitiateIntended(l, userId, req, central, now, senderName)
  }

  /** A transfer request keeps every account valid and stored under its number, and every
      transaction amount positive. */
  lemma RecordKeepsLedgerValid(l: Ledger, userId: string, req: TransferRequest, central: CentralBankReply,
                               now: int, senderName: Option<string>, storedTo: string)
    requires LedgerValid(l)
    ensures LedgerValid(Record(l, userId, req, central, now, senderName, storedTo).ledger)
  {
    var r := Record(l, userId, req, central, now, senderName, storedTo);
    if r.response == Created {
      var n := |l.transactions|;
      assert forall k :: 0 <= k < n ==> r.ledger.transactions[k] == l.transactions[k];
    }
  }

  /** As written, a created transfer names its own source as its destination, so the worker
      routes it to the sender's bank, not to the bank of the requested destination. */
  lemma MisroutedTransfer(l: Ledger, userId: string, req: TransferRequest, central: CentralBankReply, now: int,
                          senderName: Option<string>)
    requires Prefix(req.accountFrom) != Prefix(req.accountTo)
    requires Initiate(l, userId, req, central, now, senderName).response == Created
    ensures var t := Initiate(l, userId, req, central, now, senderName).ledger.transactions[|l.transactions|];
            DestinationPrefix(t) == Prefix(req.accountFrom) != Prefix(req.accountTo)
  {
  }

  /** A user with 500 in "BAR00000001" asks for 100 to go to "XYZ00000002"; both banks are cached. */
  function MisrouteExample(): Ledger {
    Ledger(map["BAR00000001" := Account("a1", 0, "main", "BAR00000001", "u1", 500, "EUR")], [],
           [Bank("BAR", "https://bar.example/b2b"), Bank("XYZ", "https://xyz.example/b2b")])
  }

  /** In that setting the route as written creates the transfer, and the next worker pass signs
      it and dispatches it to the sender's own bank instead of bank XYZ. */
  lemma MisroutedExample(token: string)
    ensures var req := TransferRequest("BAR00000001", "XYZ00000002", 100, "rent");
            var r := Initiate(MisrouteExample(), "u1", req, FetchFailed("unused"), 0, Some("Ann"));
            && r.response == Created
            && Dispatch(Some("https://bar.example/b2b"), token)
               in Step(r.ledger, 0, Tick(1000, FetchFailed("unused"), Signed(token), Receiver(Some("Bob")))).actions
  {
    var l := MisrouteExample();
    var req := TransferRequest("BAR00000001", "XYZ00000002", 100, "rent");
    assert Prefix(req.accountTo) == "XYZ";
    assert Knows(l.banks, "XYZ");
    var r := Initiate(l, "u1", req, FetchFailed("unused"), 0, Some("Ann"));
    assert r.ledger.transactions[0].accountTo == "BAR00000001";
    assert DestinationPrefix(r.ledger.transactions[0]) == "BAR";
    assert Lookup(r.ledger.banks, "BAR") == Some(Bank("BAR", "https://bar.example/b2b"));
    StepDelivery(r.ledger, 0, Tick(1000, FetchFailed("unused"), Signed(token), Receiver(Some("Bob"))));
  }

  /** As intended, a created transfer is routed to the requested destination's bank, which the
      cache now knows unless the central bank could not be asked. */
  lemma IntendedRoutesToRequestedBank(l: Ledger, userId: string, req: TransferRequest, central: CentralBankReply,
                                      now: int, senderName: Option<string>)
    requires InitiateIntended(l, userId, req, central, now, senderName).response == Created
    ensures var r := InitiateIntended(l, userId, req, central, now, senderName);
            var t := r.ledger.transactions[|l.transactions|];
            && DestinationPrefix(t) == Prefix(req.accountTo)
            && (t.statusDetail.None? <==> Knows(r.ledger.banks, DestinationPrefix(t)))
  {
  }

  /** From request, as intended, to the end of any number of worker passes: the source is debited once when
      the transfer is created and refunded at most once; it ends at its old balance exactly when
      the transfer was refunded, and a refunded transfer ends Failed. */
  lemma SettlementAccounting(l: Ledger, userId: string, req: TransferRequest, central: CentralBankReply,
                             now: int, senderName: Option<string>, ticks: seq<Tick>)
    requires InitiateIntended(l, userId, req, central, now, senderName).response == Created
    ensures var created := InitiateIntended(l, userId, req, central, now, senderName).ledger;
            var n := |l.transactions|;
            var run := Run(created, n, ticks);
            var refunds := Refunds(run.actions, created.transactions[n]);
            && refunds <= 1
            && req.accountFrom in run.ledger.accounts
            && run.ledger.accounts[req.accountFrom].balance
               == l.accounts[req.accountFrom].balance - req.amount + refunds * req.amount
            && (refunds == 1 ==> run.ledger.transactions[n].status == Failed)
  {
    var created := InitiateIntended(l, userId, req, central, now, senderName).ledger;
    var n := |l.transactions|;
    RefundAtMostOnce(created, n, ticks);
  }

  /** The name the stub inbound endpoint replies with. */
  const StubReceiverName: string := "Jaan Tamm"

  /** `POST /b2b`: whatever token arrives, the reply names the stub receiver. */
  function B2b(jwt: string): PeerReply {
    Receiver(Some(StubReceiverName))
  }

  /** A worker pass whose peer is this bank's own stub endpoint completes a resolvable, signed
      transfer with the stub receiver's name and no refund. */
  lemma StubPeerCompletes(l: Ledger, i: nat, now: int, central: CentralBankReply, token: string)
    requires i < |l.transactions| && l.transactions[i].status == Pending
    requires !IsExpired(l.transactions[i], now)
    requires Resolvable(l.banks, DestinationPrefix(l.transactions[i]), central)
    ensures var r := Step(l, i, Tick(now, central, Signed(token), B2b(token)));
            && r.ledger.transactions[i].status == Completed
            && r.ledger.transactions[i].receiverName == Some("Jaan Tamm")
            && r.ledger.accounts == l.accounts
  {
    StepDelivery(l, i, Tick(now, central, Signed(token), B2b(token)));
  }
}
