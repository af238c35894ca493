/** Definitions shared by every part of the settlement model. */
module Common {

  /** A value that may be absent: a missing header, an account or bank not found, an unset field. */
  datatype Option<+T> = None | Some(value: T)
  {
    /** The value when there is one, and `default` otherwise. */
    function GetOr(default: T): T {
      match this
      case Some(v) => v
      case None => default
    }
  }

  /** Number of leading characters of an account number that name the bank owning it. */
  const BankPrefixLength: nat := 3

  /** The bank prefix of an account number, as `substring(0, 3)` and `slice(0, 3)` compute it:
      the first three characters, or the whole string when it is shorter than that. */
  function Prefix(s: string): (p: string)
    ensures p <= s
    ensures |p| == if |s| < BankPrefixLength then |s| else BankPrefixLength
  {
    if |s| < BankPrefixLength then s else s[..BankPrefixLength]
  }

  /** An account number built from a three-character bank prefix has that prefix. */
  lemma PrefixOfPrefixed(prefix: string, rest: string)
    requires |prefix| == BankPrefixLength
    ensures Prefix(prefix + rest) == prefix
  {
    assert (prefix + rest)[..BankPrefixLength] == prefix;
  }
}
