/** Resolving a destination bank prefix through the cache, refreshing the cache once on a miss. */
module Routing {
  import opened Banks
  import opened Ledger

  /** The bank is known, either already cached or after the refresh a miss triggers. */
  predicate Resolvable(banks: Cache, prefix: string, central: CentralBankReply) {
    Knows(banks, prefix) || (Stores(central) && Knows(central.banks, prefix))
  }

  /** The cache misses and the refresh succeeds without the prefix. */
  predicate BankUnknown(banks: Cache, prefix: string, central: CentralBankReply) {
    !Knows(banks, prefix) && Stores(central) && !Knows(central.banks, prefix)
  }

  /** The cache misses and the refresh fails. */
  predicate RefreshFails(banks: Cache, prefix: string, central: CentralBankReply) {
    !Knows(banks, prefix) && !Stores(central)
  }

  /** How resolving a destination prefix ended, with the cache afterwards and the lookups and
      refresh it performed. */
  datatype Resolution =
    | Found(bank: Bank, cache: Cache, trace: seq<Action>)
    | RefreshFailed(message: string, cache: Cache, trace: seq<Action>)
    | Unknown(cache: Cache, trace: seq<Action>)

  /** Looks the prefix up in the cache; on a miss refreshes the cache once from the central
      bank and, when that succeeds, looks it up again (both steps awaited). */
  function Resolve(banks: Cache, prefix: string, central: CentralBankReply): (r: Resolution)
    ensures r.Found? <==> Resolvable(banks, prefix, central)
    ensures r.RefreshFailed? <==> RefreshFails(banks, prefix, central)
    ensures r.Unknown? <==> BankUnknown(banks, prefix, central)
    ensures r.Found? ==> r.bank.bankPrefix == prefix && r.bank in r.cache
    ensures r.RefreshFailed? ==> r.message == FailureMessage(central)
    // a hit leaves the cache alone; a miss replaces it by the refresh
    ensures Knows(banks, prefix) ==> r.cache == banks && r.trace == [BankLookup(prefix)]
    ensures !Knows(banks, prefix) ==>
      && r.cache == Refresh(banks, central).cache
      && r.trace == [BankLookup(prefix), BankRefresh] + (if Stores(central) then [BankLookup(prefix)] else [])
  {
    match Lookup(banks, prefix)
    case Some(bank) => Found(bank, banks, [BankLookup(prefix)])
    case None =>
      var refreshed := Refresh(banks, central);
      var trace := [BankLookup(prefix), BankRefresh];
      match refreshed.result
      case RefreshError(e) => RefreshFailed(e, refreshed.cache, trace)
      case Refreshed =>
        match Lookup(refreshed.cache, prefix)
        case Some(bank) => Found(bank, refreshed.cache, trace + [BankLookup(prefix)])
        case None => Unknown(refreshed.cache, trace + [BankLookup(prefix)])
  }
}
