/** One pass of the outbound settlement worker over one pending transaction. The database,
    the central bank, the signer and the peer bank are replaced by the values they yield. */
module Worker {
  import opened Common
  import opened Accounts
  import opened Banks
  import opened Ledger
  import opened Routing

  /** What signing the payload yielded. */
  datatype SignResult = Signed(token: string) | SignFailed(reason: string)

  /** What dispatching to the peer bank yielded: a parsed reply without an `error` field,
      with its `receiverName` field when it has one; a reply carrying an `error` field; or an
      exception with its message. */
  datatype PeerReply = Receiver(name: Option<string>) | PeerError(error: string) | Thrown(message: string)

  /** The outside world as one pass of the worker sees it. */
  datatype Tick = Tick(now: int, central: CentralBankReply, signing: SignResult, reply: PeerReply)

  /** The ledger after the pass and the trace of what the pass did, in order. */
  datatype StepResult = StepResult(ledger: Ledger, actions: seq<Action>)

  const ExpiredDetail: string := "Transaction has expired"
  const RefreshFailedDetail: string := "Central bank refresh failed: "
  const SigningErrorDetail: string := "Error reading private key "

  function UnknownBankDetail(prefix: string): string {
    "Bank " + prefix + " does not exist"
  }

  /** The fields of the transaction that are signed and sent to the peer bank. */
  function PayloadOf(t: Transaction): Payload {
    Payload(t.accountFrom, t.accountTo, t.amount, t.currency, t.explanation, t.senderName)
  }

  /** The destination bank's prefix. */
  function DestinationPrefix(t: Transaction): string {
    Prefix(t.accountTo)
  }

  /** Stores the new version `t` of transaction `i` together with the given balances. */
  function Commit(l: Ledger, i: nat, t: Transaction, accounts: map<string, Account>, actions: seq<Action>): (r: StepResult)
    requires i < |l.transactions|
    ensures |r.ledger.transactions| == |l.transactions| && r.ledger.transactions[i] == t
    ensures forall j :: 0 <= j < |l.transactions| && j != i ==> r.ledger.transactions[j] == l.transactions[j]
    ensures r.ledger.accounts == accounts && r.ledger.banks == l.banks && r.actions == actions
  {
    StepResult(Ledger(accounts, l.transactions[i := t], l.banks), actions)
  }

  /** The expiry branch: Failed with the expiry detail, then the refund. */
  function Expire(l: Ledger, i: nat): StepResult
    requires i < |l.transactions|
  {
    var t := l.transactions[i];
    var detail := Some(ExpiredDetail);
    Commit(l, i, SetStatus(t, Failed, detail), Refund(l.accounts, t),
           [StatusWrite(Failed, detail), RefundIssued(t.accountFrom, t.amount)])
  }

  /** Signs the in-progress transaction `t`, sends it to `url` and records the reply:
      a signing failure or an exception puts it back to Pending with the message, an error
      reply fails it without a refund, and any other reply completes it with the receiver name
      that reply carries, or none. */
  function Deliver(l: Ledger, i: nat, t: Transaction, url: Option<string>, signing: SignResult,
                   reply: PeerReply, trace: seq<Action>): (r: StepResult)
    requires i < |l.transactions|
    ensures |r.ledger.transactions| == |l.transactions|
    ensures forall j :: 0 <= j < |l.transactions| && j != i ==> r.ledger.transactions[j] == l.transactions[j]
    ensures var u := r.ledger.transactions[i];
            && u.(status := t.status, statusDetail := t.statusDetail, receiverName := t.receiverName) == t
            && (u.receiverName != t.receiverName ==> u.status == Completed)
    ensures r.ledger.accounts == l.accounts && r.ledger.banks == l.banks
    ensures |r.actions| > |trace| + 1 && r.actions[..|trace|] == trace
    ensures r.actions[|trace|] == SignRequest(PayloadOf(t))
    ensures forall a :: a in r.actions[|trace|..] ==> !a.RefundIssued?
    // the outcome of each signing result and peer reply
    ensures var u := r.ledger.transactions[i];
            && (signing.SignFailed? ==>
                  u.status == Pending && u.statusDetail == Some(SigningErrorDetail + signing.reason))
            && (signing.Signed? ==>
                  && r.actions[|trace| + 1] == Dispatch(url, signing.token)
                  && (reply.PeerError? ==> u.status == Failed && u.statusDetail == Some(reply.error))
                  && (reply.Receiver? ==>
                        u.status == Completed && u.statusDetail == Some("") && u.receiverName == reply.name)
                  && (reply.Thrown? ==> u.status == Pending && u.statusDetail == Some(reply.message)))
  {
    var trace := trace + [SignRequest(PayloadOf(t))];
    match signing
    case SignFailed(reason) =>
      var detail := Some(SigningErrorDetail + reason);
      Commit(l, i, SetStatus(t, Pending, detail), l.accounts, trace + [StatusWrite(Pending, detail)])
    case Signed(token) =>
      var trace := trace + [Dispatch(url, token)];
      match reply
      case PeerError(e) =>
        Commit(l, i, SetStatus(t, Failed, Some(e)), l.accounts, trace + [StatusWrite(Failed, Some(e))])
      case Receiver(name) =>
        Commit(l, i, SetStatus(t.(receiverName := name), Completed, Some("")), l.accounts,
               trace + [StatusWrite(Completed, Some(""))])
      case Thrown(m) =>
        Commit(l, i, SetStatus(t, Pending, Some(m)), l.accounts, trace + [StatusWrite(Pending, Some(m))])
  }

  /** The per-transaction body of `processTransactions`, with the central bank refresh and the
      re-lookup awaited, as the code evidently intends (StepAsWritten models the code as it is). */
  function Step(l: Ledger, i: nat, tick: Tick): (r: StepResult)
    requires i < |l.transactions| && l.transactions[i].status == Pending
    ensures |r.ledger.transactions| == |l.transactions|
    ensures forall j :: 0 <= j < |l.transactions| && j != i ==> r.ledger.transactions[j] == l.transactions[j]
    // only the status, its detail and the receiver name change, and the pass never ends In progress
    ensures var t, u := l.transactions[i], r.ledger.transactions[i];
            && u.(status := t.status, statusDetail := t.statusDetail, receiverName := t.receiverName) == t
            && u.status != InProgress
            && (u.receiverName != t.receiverName ==> u.status == Completed)
    // balances move only by a refund, and a refunded transaction ends Failed
    ensures var t := l.transactions[i];
            || r.ledger.accounts == l.accounts
            || (r.ledger.accounts == Refund(l.accounts, t) && r.ledger.transactions[i].status == Failed)
    // an expired transaction is failed with the expiry detail and refunded, and nothing else happens
    ensures IsExpired(l.transactions[i], tick.now) ==>
      var t := l.transactions[i];
      && r.actions == [StatusWrite(Failed, Some(ExpiredDetail)), RefundIssued(t.accountFrom, t.amount)]
      && r.ledger.transactions[i].status == Failed
      && r.ledger.transactions[i].statusDetail == Some(ExpiredDetail)
      && r.ledger.accounts == Refund(l.accounts, t) && r.ledger.banks == l.banks
    // otherwise it is marked In progress before the destination bank is looked up
    ensures !IsExpired(l.transactions[i], tick.now) ==>
      |r.actions| >= 3
      && r.actions[0] == StatusWrite(InProgress, None)
      && r.actions[1] == BankLookup(DestinationPrefix(l.transactions[i]))
  {
    var t := l.transactions[i];
    if IsExpired(t, tick.now) then Expire(l, i)
    else
      var inProgress := SetStatus(t, InProgress, None);
      var p := DestinationPrefix(t);
      var res := Resolve(l.banks, p, tick.central);
      var l' := l.(banks := res.cache);
      var trace := [StatusWrite(InProgress, None)] + res.trace;
      match res
      case Found(bank, _, _) =>
        Deliver(l', i, inProgress, Some(bank.transactionUrl), tick.signing, tick.reply, trace)
      case RefreshFailed(e, _, _) =>
        var detail := Some(RefreshFailedDetail + e);
        Commit(l', i, SetStatus(inProgress, Pending, detail), l.accounts, trace + [StatusWrite(Pending, detail)])
      case Unknown(_, _) =>
        var detail := Some(UnknownBankDetail(p));
        Commit(l', i, SetStatus(inProgress, Failed, detail), Refund(l.accounts, t),
               trace + [RefundIssued(t.accountFrom, t.amount), StatusWrite(Failed, detail)])
  }

  /** The per-transaction body of `processTransactions` exactly as written. The refresh call and
      the re-lookup are not awaited: the refresh yields a promise, whose `error` property is
      undefined, so the "refresh failed" branch is never taken; the re-lookup yields a query
      object, which is truthy, so the "bank does not exist" branch is never taken either. The
      refresh still runs and replaces the cache. The query object has no `transactionUrl`, so
      after signing, `sendRequest` is called with an undefined URL and throws; `fetchError` is
      the HTTP client's message for that, and the transaction goes back to Pending. */
  function StepAsWritten(l: Ledger, i: nat, tick: Tick, fetchError: string): (r: StepResult)
    requires i < |l.transactions| && l.transactions[i].status == Pending
    ensures |r.ledger.transactions| == |l.transactions|
    ensures var t, p := l.transactions[i], DestinationPrefix(l.transactions[i]);
            !IsExpired(t, tick.now) && !Knows(l.banks, p) ==>
              && r.ledger.transactions[i].status == Pending
              && r.ledger.accounts == l.accounts
              && RefundIssued(t.accountFrom, t.amount) !in r.actions
  {
    var t := l.transactions[i];
    if IsExpired(t, tick.now) then Expire(l, i)
    else
      var inProgress := SetStatus(t, InProgress, None);
      var p := DestinationPrefix(t);
      match Lookup(l.banks, p)
      case Some(bank) =>
        Deliver(l, i, inProgress, Some(bank.transactionUrl), tick.signing, tick.reply,
                [StatusWrite(InProgress, None), BankLookup(p)])
      case None =>
        var trace := [StatusWrite(InProgress, None), BankLookup(p), BankRefresh];
        var r := Deliver(l.(banks := Refresh(l.banks, tick.central).cache), i, inProgress, None, tick.signing,
                         Thrown("sendRequest(undefined): " + fetchError + "|"), trace);
        assert RefundIssued(t.accountFrom, t.amount) !in r.actions by {
          assert r.actions == trace + r.actions[|trace|..];
        }
        r
  }

  /** The missing awaits matter only on a cache miss: an expired transaction, or one whose bank
      is cached, gets the same pass either way. In particular a transfer left Pending by the
      code as written is failed and refunded once it expires. */
  lemma AsWrittenAgreesOffMiss(l: Ledger, i: nat, tick: Tick, fetchError: string)
    requires i < |l.transactions| && l.transactions[i].status == Pending
    requires IsExpired(l.transactions[i], tick.now) || Knows(l.banks, DestinationPrefix(l.transactions[i]))
    ensures StepAsWritten(l, i, tick, fetchError) == Step(l, i, tick)
  {
  }

  /** A transfer of 100 from "BAR00000001" to bank "XYZ", created at time 0, with an empty
      bank cache: the setting in which the missing awaits change the outcome. */
  function AwaitExample(): Ledger {
    Ledger(map[], [Transaction("u1", 100, "EUR", "BAR00000001", "XYZ00000001", "rent", "Ann",
                               None, Pending, None, 0)], [])
  }

  /** When the central bank's list lacks "XYZ", the awaited pass refunds the transfer and fails
      it as an unknown bank, while the code as written leaves it Pending without a refund. */
  lemma MissingAwaitUnknownBank(fetchError: string)
    ensures var tick := Tick(1000, BankList([Bank("BAR", "https://bar.example/b2b")]), Signed("jwt"), Receiver(Some("Bob")));
            var written := StepAsWritten(AwaitExample(), 0, tick, fetchError);
            && BankUnknown(AwaitExample().banks, DestinationPrefix(AwaitExample().transactions[0]), tick.central)
            && Step(AwaitExample(), 0, tick).ledger.transactions[0].status == Failed
            && RefundIssued("BAR00000001", 100) in Step(AwaitExample(), 0, tick).actions
            && written.ledger.transactions[0].status == Pending
            && RefundIssued("BAR00000001", 100) !in written.actions
  {
    var l := AwaitExample();
    var tick := Tick(1000, BankList([Bank("BAR", "https://bar.example/b2b")]), Signed("jwt"), Receiver(Some("Bob")));
    assert DestinationPrefix(l.transactions[0]) == "XYZ";
    assert !Knows([], "XYZ");
    StepUnknownBank(l, 0, tick);
  }

  /** When the central bank is unreachable, the awaited pass records the refresh error, while
      the code as written records the failed dispatch to an undefined URL instead. */
  lemma MissingAwaitRefreshError(fetchError: string)
    ensures var tick := Tick(1000, FetchFailed("down"), Signed("jwt"), Receiver(Some("Bob")));
            && Step(AwaitExample(), 0, tick).ledger.transactions[0].statusDetail
               == Some("Central bank refresh failed: down")
            && StepAsWritten(AwaitExample(), 0, tick, fetchError).ledger.transactions[0].statusDetail
               == Some("sendRequest(undefined): " + fetchError + "|")
  {
    var l := AwaitExample();
    var t := l.transactions[0];
    var tick := Tick(1000, FetchFailed("down"), Signed("jwt"), Receiver(Some("Bob")));
    assert DestinationPrefix(t) == "XYZ";
    assert !Knows([], "XYZ");
    StepRefreshFailure(l, 0, tick);
    assert RefreshFailedDetail + "down" == "Central bank refresh failed: down";
    var trace := [StatusWrite(InProgress, None), BankLookup("XYZ"), BankRefresh];
    assert StepAsWritten(l, 0, tick, fetchError)
        == Deliver(l, 0, SetStatus(t, InProgress, None), None, Signed("jwt"),
                   Thrown("sendRequest(undefined): " + fetchError + "|"), trace);
  }

  /** Cache miss and failed refresh: the transaction goes back to Pending with the refresh
      error, no balance changes and nothing is signed or sent. */
  lemma StepRefreshFailure(l: Ledger, i: nat, tick: Tick)
    requires i < |l.transactions| && l.transactions[i].status == Pending
    requires !IsExpired(l.transactions[i], tick.now)
    requires RefreshFails(l.banks, DestinationPrefix(l.transactions[i]), tick.central)
    ensures var r, p := Step(l, i, tick), DestinationPrefix(l.transactions[i]);
            var detail := Some(RefreshFailedDetail + FailureMessage(tick.central));
            && r.ledger.transactions[i].status == Pending
            && r.ledger.transactions[i].statusDetail == detail
            && r.ledger.accounts == l.accounts
            && r.actions == [StatusWrite(InProgress, None), BankLookup(p), BankRefresh, StatusWrite(Pending, detail)]
            && Refunds(r.actions, l.transactions[i]) == 0
  {
  }

  /** Cache miss and a successful refresh that does not know the prefix: the source account is
      refunded and then the transaction is Failed as an unknown bank; nothing is signed or sent. */
  lemma StepUnknownBank(l: Ledger, i: nat, tick: Tick)
    requires i < |l.transactions| && l.transactions[i].status == Pending
    requires !IsExpired(l.transactions[i], tick.now)
    requires BankUnknown(l.banks, DestinationPrefix(l.transactions[i]), tick.central)
    ensures var r, t, p := Step(l, i, tick), l.transactions[i], DestinationPrefix(l.transactions[i]);
            var detail := Some(UnknownBankDetail(p));
            && r.ledger.transactions[i].status == Failed
            && r.ledger.transactions[i].statusDetail == detail
            && r.ledger.accounts == Refund(l.accounts, t)
            && r.ledger.banks == tick.central.banks
            && r.actions == [StatusWrite(InProgress, None), BankLookup(p), BankRefresh, BankLookup(p),
                             RefundIssued(t.accountFrom, t.amount), StatusWrite(Failed, detail)]
            && Refunds(r.actions, t) == 1
  {
  }

  /** A resolved bank: the payload is signed; a signing failure returns the transaction to
      Pending; otherwise the token goes to that bank's transfer URL, and an error reply fails
      the transaction without a refund, a reply without an `error` field completes it with an
      empty detail and whatever receiver name that reply carries, and an exception returns it
      to Pending with the message. Balances never change here. */
  lemma StepDelivery(l: Ledger, i: nat, tick: Tick)
    requires i < |l.transactions| && l.transactions[i].status == Pending
    requires !IsExpired(l.transactions[i], tick.now)
    requires Resolvable(l.banks, DestinationPrefix(l.transactions[i]), tick.central)
    ensures var r, t := Step(l, i, tick), l.transactions[i];
            var u, p := r.ledger.transactions[i], DestinationPrefix(t);
            var bank := Resolve(l.banks, p, tick.central).bank;
            && bank.bankPrefix == p
            && r.ledger.accounts == l.accounts
            && Refunds(r.actions, t) == 0
            && SignRequest(PayloadOf(t)) in r.actions
            && (tick.signing.SignFailed? ==>
                  u.status == Pending && u.statusDetail == Some(SigningErrorDetail + tick.signing.reason))
            && (tick.signing.Signed? ==>
                  && Dispatch(Some(bank.transactionUrl), tick.signing.token) in r.actions
                  && (tick.reply.PeerError? ==> u.status == Failed && u.statusDetail == Some(tick.reply.error))
                  && (tick.reply.Receiver? ==>
                        u.status == Completed && u.statusDetail == Some("") && u.receiverName == tick.reply.name)
                  && (tick.reply.Thrown? ==> u.status == Pending && u.statusDetail == Some(tick.reply.message)))
  {
    var t := l.transactions[i];
    var p := DestinationPrefix(t);
    var inProgress := SetStatus(t, InProgress, None);
    var res := Resolve(l.banks, p, tick.central);
    var trace := [StatusWrite(InProgress, None)] + res.trace;
    var l' := l.(banks := res.cache);
    var r := Deliver(l', i, inProgress, Some(res.bank.transactionUrl), tick.signing, tick.reply, trace);
    assert Step(l, i, tick) == r;
    assert PayloadOf(inProgress) == PayloadOf(t);
    assert r.actions[|trace|] in r.actions;
    if tick.signing.Signed? {
      assert r.actions[|trace| + 1] in r.actions;
    }
    var refund := RefundIssued(t.accountFrom, t.amount);
    assert r.actions == trace + r.actions[|trace|..];
    assert refund !in r.actions[|trace|..];
    assert refund !in trace;
  }

  /** A pass ends Failed exactly when the transaction expired, its bank is unknown, or the
      peer bank replied with an error. */
  lemma StepFailedWhen(l: Ledger, i: nat, tick: Tick)
    requires i < |l.transactions| && l.transactions[i].status == Pending
    ensures var t, p := l.transactions[i], DestinationPrefix(l.transactions[i]);
            (Step(l, i, tick).ledger.transactions[i].status == Failed <==>
               || IsExpired(t, tick.now)
               || BankUnknown(l.banks, p, tick.central)
               || (!IsExpired(t, tick.now) && Resolvable(l.banks, p, tick.central)
                   && tick.signing.Signed? && tick.reply.PeerError?))
  {
    var t, p := l.transactions[i], DestinationPrefix(l.transactions[i]);
    if !IsExpired(t, tick.now) {
      if RefreshFails(l.banks, p, tick.central) {
        StepRefreshFailure(l, i, tick);
      } else if BankUnknown(l.banks, p, tick.central) {
        StepUnknownBank(l, i, tick);
      } else {
        StepDelivery(l, i, tick);
      }
    }
  }

  /** A pass ends Completed exactly when the transaction has not expired, its bank resolves,
      the payload is signed and the peer bank sends a reply without an `error` field. */
  lemma StepCompletedWhen(l: Ledger, i: nat, tick: Tick)
    requires i < |l.transactions| && l.transactions[i].status == Pending
    ensures var t, p := l.transactions[i], DestinationPrefix(l.transactions[i]);
            (Step(l, i, tick).ledger.transactions[i].status == Completed <==>
               && !IsExpired(t, tick.now) && Resolvable(l.banks, p, tick.central)
               && tick.signing.Signed? && tick.reply.Receiver?)
  {
    var t, p := l.transactions[i], DestinationPrefix(l.transactions[i]);
    if !IsExpired(t, tick.now) {
      if RefreshFails(l.banks, p, tick.central) {
        StepRefreshFailure(l, i, tick);
      } else if BankUnknown(l.banks, p, tick.central) {
        StepUnknownBank(l, i, tick);
      } else {
        StepDelivery(l, i, tick);
      }
    }
  }

  /** A pass refunds the transaction exactly once when it expired or its bank is unknown, and
      otherwise not at all: an error reply from the peer bank is not refunded. A refunded
      transaction ends Failed with its source credited; otherwise no balance moves. */
  lemma StepRefundsWhen(l: Ledger, i: nat, tick: Tick)
    requires i < |l.transactions| && l.transactions[i].status == Pending
    ensures var t, p := l.transactions[i], DestinationPrefix(l.transactions[i]);
            var r := Step(l, i, tick);
            && Refunds(r.actions, t) == (if IsExpired(t, tick.now) || BankUnknown(l.banks, p, tick.central) then 1 else 0)
            && (Refunds(r.actions, t) == 1 ==> r.ledger.accounts == Refund(l.accounts, t) && r.ledger.transactions[i].status == Failed)
            && (Refunds(r.actions, t) == 0 ==> r.ledger.accounts == l.accounts)
  {
    var t, p := l.transactions[i], DestinationPrefix(l.transactions[i]);
    if IsExpired(t, tick.now) {
    } else if RefreshFails(l.banks, p, tick.central) {
      StepRefreshFailure(l, i, tick);
    } else if BankUnknown(l.banks, p, tick.central) {
      StepUnknownBank(l, i, tick);
    } else {
      StepDelivery(l, i, tick);
    }
  }

  /** Runs the worker over transaction `i` for a sequence of passes; a pass only touches the
      transaction while it is Pending, as the worker selects Pending transactions only. */
  function Run(l: Ledger, i: nat, ticks: seq<Tick>): (r: StepResult)
    requires i < |l.transactions|
    ensures |r.ledger.transactions| == |l.transactions|
    ensures r.ledger.transactions[i].accountFrom == l.transactions[i].accountFrom
    ensures r.ledger.transactions[i].amount == l.transactions[i].amount
    ensures forall j :: 0 <= j < |l.transactions| && j != i ==> r.ledger.transactions[j] == l.transactions[j]
    decreases |ticks|
  {
    if |ticks| == 0 then StepResult(l, [])
    else
      var first := if l.transactions[i].status == Pending then Step(l, i, ticks[0]) else StepResult(l, []);
      var rest := Run(first.ledger, i, ticks[1..]);
      StepResult(rest.ledger, first.actions + rest.actions)
  }

  /** Passes over a transaction that is no longer Pending do nothing. */
  lemma {:induction false} RunIdle(l: Ledger, i: nat, ticks: seq<Tick>)
    requires i < |l.transactions| && l.transactions[i].status != Pending
    ensures Run(l, i, ticks) == StepResult(l, [])
    decreases |ticks|
  {
    if |ticks| > 0 {
      RunIdle(l, i, ticks[1..]);
    }
  }

  /** However many passes the worker makes, a transaction is refunded at most once; when it
      is, it ends Failed and its source account is credited exactly its amount, and when it is
      not, no balance has changed. */
  lemma {:induction false} RefundAtMostOnce(l: Ledger, i: nat, ticks: seq<Tick>)
    requires i < |l.transactions|
    ensures var r, t := Run(l, i, ticks), l.transactions[i];
            && Refunds(r.actions, t) <= 1
            && (Refunds(r.actions, t) == 1 ==>
                  r.ledger.accounts == Refund(l.accounts, t) && r.ledger.transactions[i].status == Failed)
            && (Refunds(r.actions, t) == 0 ==> r.ledger.accounts == l.accounts)
    decreases |ticks|
  {
    if |ticks| > 0 {
      if l.transactions[i].status != Pending {
        RunIdle(l, i, ticks);
      } else {
        RefundAfterStep(l, i, ticks);
      }
    }
  }

  /** The inductive step of RefundAtMostOnce, from a Pending transaction. */
  lemma {:induction false} RefundAfterStep(l: Ledger, i: nat, ticks: seq<Tick>)
    requires i < |l.transactions| && l.transactions[i].status == Pending && |ticks| > 0
    ensures var r, t := Run(l, i, ticks), l.transactions[i];
            && Refunds(r.actions, t) <= 1
            && (Refunds(r.actions, t) == 1 ==>
                  r.ledger.accounts == Refund(l.accounts, t) && r.ledger.transactions[i].status == Failed)
            && (Refunds(r.actions, t) == 0 ==> r.ledger.accounts == l.accounts)
    decreases |ticks|, 0
  {
    var t := l.transactions[i];
    var first := Step(l, i, ticks[0]);
    StepRefundsWhen(l, i, ticks[0]);
    var l' := first.ledger;
    var t' := l'.transactions[i];
    var rest := Run(l', i, ticks[1..]);
    assert Run(l, i, ticks) == StepResult(rest.ledger, first.actions + rest.actions);
    assert Refunds(first.actions + rest.actions, t) == Refunds(first.actions, t) + Refunds(rest.actions, t');
    if Refunds(first.actions, t) == 1 {
      RunIdle(l', i, ticks[1..]);
    } else {
      RefundAtMostOnce(l', i, ticks[1..]);
      assert Refund(l'.accounts, t') == Refund(l.accounts, t);
    }
  }
}
