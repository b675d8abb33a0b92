/** Vocabulary shared by every part of the model: the protocol constants, lease
    identities, operations and response statuses.

    Instants and durations are integers counting nanoseconds, as in Go's time package;
    the wire protocol carries whole milliseconds. */
module Types {

  /** One millisecond in nanoseconds. */
  const MS: int := 1_000_000
  const PROTOCOL_MAX_TTL_MS: nat := 5_000
  const SAFETY_MARGIN_MS: nat := 100

  /** How long a fresh server instance refuses lease operations. */
  const QUARANTINE: int := (PROTOCOL_MAX_TTL_MS + SAFETY_MARGIN_MS + 1) * MS

  type Key = nat

  datatype Option<+T> = None | Some(value: T)

  datatype LeaseID = LeaseID(clientID: nat, bootID: nat, leaseSeq: nat)

  datatype Kind = Acquire | Renew | Release

  datatype Status = OK | AlreadyOwned | Busy | Stale | NotReady | KeyLimitReached

  function Min(a: int, b: int): (m: int)
    ensures m <= a && m <= b && (m == a || m == b)
  {
    if a <= b then a else b
  }

  function Max(a: int, b: int): (m: int)
    ensures a <= m && b <= m && (m == a || m == b)
  {
    if a <= b then b else a
  }

  lemma {:induction false} SubsetSize<T>(small: set<T>, big: set<T>)
    requires small <= big
    ensures |small| <= |big|
  {
    if small != {} {
      var x :| x in small;
      SubsetSize(small - {x}, big - {x});
    }
  }
}
