/** The local cache of the central bank's list of banks. */
module Banks {
  import opened Common

  /** A peer bank's routing record. */
  datatype Bank = Bank(bankPrefix: string, transactionUrl: string)

  /** The cached bank collection, in storage order. */
  type Cache = seq<Bank>

  /** What the central bank request yielded, with the point at which it failed:
      - FetchFailed: the request or the JSON parse rejected, before anything was deleted;
      - NotAList: the body parsed but is not an array, so iterating it throws after the
        collection was emptied;
      - InsertFailed: the bulk insert rejected a record after the collection was emptied;
      - BankList: the central bank's list. A non-empty list is stored; an empty one leaves
        the bulk operation empty, which the database driver refuses to execute. */
  datatype CentralBankReply =
    | FetchFailed(message: string)
    | NotAList(message: string)
    | InsertFailed(message: string)
    | BankList(banks: seq<Bank>)

  /** `true` or `{error}` as the refresh function returns them. */
  datatype RefreshResult = Refreshed | RefreshError(message: string)

  datatype RefreshOutcome = RefreshOutcome(result: RefreshResult, cache: Cache)

  /** The message the MongoDB Node.js driver gives, from its 4.x releases on, when a bulk
      operation with nothing in it is executed; 3.x releases word it "Invalid Operation, no
      operations specified". */
  const EmptyBulkError: string := "Invalid BulkOperation, Batch cannot be empty"

  /** The reply is a list the refresh stores: a non-empty one. */
  predicate Stores(reply: CentralBankReply) {
    reply.BankList? && reply.banks != []
  }

  /** The message a refresh that did not store `reply` reports. */
  function FailureMessage(reply: CentralBankReply): string {
    if reply.BankList? then EmptyBulkError else reply.message
  }

  /** `Bank.findOne({bankPrefix})`: a cached record with that prefix, when there is one. */
  function Lookup(cache: Cache, prefix: string): (r: Option<Bank>)
    ensures r.Some? <==> exists k :: 0 <= k < |cache| && cache[k].bankPrefix == prefix
    ensures r.Some? ==> r.value in cache && r.value.bankPrefix == prefix
  {
    if |cache| == 0 then None
    else if cache[0].bankPrefix == prefix then Some(cache[0])
    else
      var r := Lookup(cache[1..], prefix);
      assert forall k :: 1 <= k < |cache| ==> cache[k] == cache[1..][k - 1];
      r
  }

  /** Whether the cache knows a bank with this prefix. */
  predicate Knows(cache: Cache, prefix: string) {
    Lookup(cache, prefix).Some?
  }

  /** Replaces the whole cache with the central bank's list, or reports the error. */
  function Refresh(cache: Cache, reply: CentralBankReply): (r: RefreshOutcome)
    ensures r.result.Refreshed? <==> Stores(reply)
    ensures reply.BankList? ==> r.cache == reply.banks
    ensures reply.FetchFailed? ==> r.cache == cache
    ensures reply.NotAList? || reply.InsertFailed? ==> r.cache == []
    ensures r.result.RefreshError? ==> r.result.message == FailureMessage(reply)
  {
    match reply
    case FetchFailed(m) => RefreshOutcome(RefreshError(m), cache)
    case NotAList(m) => RefreshOutcome(RefreshError(m), [])
    case InsertFailed(m) => RefreshOutcome(RefreshError(m), [])
    case BankList(banks) =>
      if banks == [] then RefreshOutcome(RefreshError(EmptyBulkError), [])
      else RefreshOutcome(Refreshed, banks)
  }

  /** After a successful refresh the cache answers every lookup exactly as the fetched list
      does: a bank the old cache held but the list lacks is gone. */
  lemma RefreshReplacesAll(cache: Cache, banks: seq<Bank>, prefix: string)
    requires banks != []
    ensures var r := Refresh(cache, BankList(banks));
            && r.result == Refreshed
            && Lookup(r.cache, prefix) == Lookup(banks, prefix)
            && (Knows(cache, prefix) && !Knows(banks, prefix) ==> !Knows(r.cache, prefix))
  {
  }

  /** A fetch or parse failure reports the error and leaves every lookup as it was. */
  lemma FailedFetchKeepsCache(cache: Cache, message: string, prefix: string)
    ensures var r := Refresh(cache, FetchFailed(message));
            && r.result == RefreshError(message)
            && Lookup(r.cache, prefix) == Lookup(cache, prefix)
  {
  }

  /** A failure after the delete step, an empty list included, leaves a cache that knows no
      bank at all. */
  lemma LateFailureEmptiesCache(cache: Cache, reply: CentralBankReply, prefix: string)
    requires reply.NotAList? || reply.InsertFailed? || reply == BankList([])
    ensures var r := Refresh(cache, reply);
            && r.result.RefreshError?
            && !Knows(r.cache, prefix)
  {
  }
}
