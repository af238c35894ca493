/** The settlement state: accounts by number, the transaction log and the bank cache,
    with the small writes the worker and the transfer route perform on it. */
module Ledger {
  import opened Common
  import opened Accounts
  import opened Banks

  /** Transaction status, stored as 'Pending', 'In progress', 'Completed' and 'Failed'. */
  datatype Status = Pending | InProgress | Completed | Failed

  /** A transfer record. Amounts are integers in minor units; times are milliseconds. */
  datatype Transaction = Transaction(
    userId: string,
    amount: int,
    currency: string,
    accountFrom: string,
    accountTo: string,
    explanation: string,
    senderName: string,
    receiverName: Option<string>,
    status: Status,
    statusDetail: Option<string>,
    createdAt: int)

  datatype Ledger = Ledger(accounts: map<string, Account>, transactions: seq<Transaction>, banks: Cache)

  /** The fields of a transaction the signed assertion carries. */
  datatype Payload = Payload(
    accountFrom: string,
    accountTo: string,
    amount: int,
    currency: string,
    explanation: string,
    senderName: string)

  /** One observable step of a request or a worker pass, in the order it happens. */
  datatype Action =
    | StatusWrite(status: Status, detail: Option<string>)
    | RefundIssued(account: string, amount: int)
    | BankLookup(prefix: string)
    | BankRefresh
    | SignRequest(payload: Payload)
    | Dispatch(url: Option<string>, token: string)
    | TransactionInsert(transaction: Transaction)
    | DebitIssued(account: string, amount: int)

  /** Three days in milliseconds. */
  const ExpiryMillis: int := 3 * 24 * 60 * 60 * 1000

  /** A transaction is expired once the clock is past its creation time plus three days. */
  predicate IsExpired(t: Transaction, now: int) {
    now > t.createdAt + ExpiryMillis
  }

  /** Expiry is permanent: a later clock reading still finds the transaction expired, and
      at exactly three days it is not yet expired. */
  lemma ExpiryIsPermanent(t: Transaction, now: int, later: int)
    requires IsExpired(t, now) && now <= later
    ensures IsExpired(t, later)
    ensures !IsExpired(t, t.createdAt + ExpiryMillis)
  {
  }

  /** Overwrites the status and its detail and nothing else. */
  function SetStatus(t: Transaction, status: Status, detail: Option<string>): (u: Transaction)
    ensures u.status == status && u.statusDetail == detail
    ensures u.(status := t.status, statusDetail := t.statusDetail) == t
  {
    t.(status := status, statusDetail := detail)
  }

  /** `refund`: credits the transaction's amount back to its source account, found by
      number; when no account has that number nothing changes. */
  function Refund(accounts: map<string, Account>, t: Transaction): (r: map<string, Account>)
    ensures r.Keys == accounts.Keys
    ensures t.accountFrom !in accounts ==> r == accounts
    ensures t.accountFrom in accounts ==>
      r[t.accountFrom].balance == accounts[t.accountFrom].balance + t.amount
      && r[t.accountFrom].(balance := accounts[t.accountFrom].balance) == accounts[t.accountFrom]
    ensures forall n :: n in accounts && n != t.accountFrom ==> r[n] == accounts[n]
  {
    if t.accountFrom in accounts
    then accounts[t.accountFrom := Credit(accounts[t.accountFrom], t.amount)]
    else accounts
  }

  /** Every account is stored under its own number and passes the schema's validators. */
  predicate AccountsValid(accounts: map<string, Account>) {
    forall n :: n in accounts ==> accounts[n].number == n && Valid(accounts[n])
  }

  /** Every transaction moves a positive amount. */
  predicate AmountsPositive(transactions: seq<Transaction>) {
    forall k :: 0 <= k < |transactions| ==> transactions[k].amount > 0
  }

  predicate LedgerValid(l: Ledger) {
    AccountsValid(l.accounts) && AmountsPositive(l.transactions)
  }

  /** A refund of a positive amount keeps every balance non-negative. */
  lemma RefundKeepsAccountsValid(accounts: map<string, Account>, t: Transaction)
    requires AccountsValid(accounts) && t.amount > 0
    ensures AccountsValid(Refund(accounts, t))
  {
  }

  /** How many times a trace refunds transaction `t`. */
  function Refunds(actions: seq<Action>, t: Transaction): nat {
    multiset(actions)[RefundIssued(t.accountFrom, t.amount)]
  }
}
