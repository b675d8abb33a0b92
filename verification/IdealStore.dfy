/** The reference the lease store is held against: a store in which a lease ceases to exist
    the instant its deadline is reached, and cleanups have nothing to do. */
module IdealStore {
  import opened Types
  import opened LeaseTable
  import opened Store

  /** An operation or a cleanup, with its timestamp. A cleanup may visit any set of keys, as
      one that proceeds shard by shard does. */
  datatype Event =
    | Operation(kind: Kind, key: Key, id: LeaseID, requestedTTL: nat, now: int)
    | Cleanup(keys: set<Key>, now: int)

  type Response = (Status, nat)

  function Clean(m: Table, keys: set<Key>, now: int): Table {
    map k | k in m && !(k in keys && m[k].deadline <= now) :: m[k]
  }

  /** The lease store's own step. */
  function StoreStep(lim: Limits, m: Table, e: Operation): Outcome
  {
    match e.kind
    case Acquire => StoreAcquire(lim, m, e.key, e.id, e.requestedTTL, e.now)
    case Renew => StoreRenew(lim, m, e.key, e.id, e.requestedTTL, e.now)
    case Release => StoreRelease(m, e.key, e.id, e.now)
  }

  type Operation = e: Event | e.Operation? witness Event.Operation(Release, 0, LeaseID(0, 0, 0), 0, 0)

  /** The ideal step, on the leases that exist at the time of the operation. */
  function IdealStep(lim: Limits, live: Table, e: Operation): Outcome
  {
    var ttl := Min(e.requestedTTL, lim.maxTTL);
    var mine := e.key in live && live[e.key].id == e.id;
    match e.kind
    case Acquire =>
      if mine then Outcome(live, AlreadyOwned, RemainingTTLMS(live[e.key].deadline, e.now, lim.maxTTL))
      else if e.key in live then Outcome(live, Busy, 0)
      else if ttl == 0 then Outcome(live, OK, 0)
      else if |live| >= lim.maxKeys then Outcome(live, KeyLimitReached, 0)
      else Outcome(live[e.key := Entry(e.id, e.now + ttl * MS)], OK, ttl)
    case Renew =>
      if mine then
        var deadline := Max(live[e.key].deadline, e.now + ttl * MS);
        Outcome(live[e.key := Entry(e.id, deadline)], OK, RemainingTTLMS(deadline, e.now, lim.maxTTL))
      else Outcome(live, Stale, 0)
    case Release =>
      Outcome(if mine then live - {e.key} else live, OK, 0)
  }

  function StoreResponses(lim: Limits, m: Table, history: seq<Event>): (r: seq<Response>)
    decreases |history|
  {
    if history == [] then []
    else match history[0]
      case Cleanup(keys, now) => StoreResponses(lim, Clean(m, keys, now), history[1..])
      case Operation(_, _, _, _, _) =>
        var out := StoreStep(lim, m, history[0]);
        [(out.status, out.ttlMS)] + StoreResponses(lim, out.table, history[1..])
  }

  function IdealResponses(lim: Limits, m: Table, history: seq<Event>): (r: seq<Response>)
    decreases |history|
  {
    if history == [] then []
    else match history[0]
      case Cleanup(keys, now) => IdealResponses(lim, m, history[1..])
      case Operation(_, _, _, _, now) =>
        var out := IdealStep(lim, Unexpired(m, now), history[0]);
        [(out.status, out.ttlMS)] + IdealResponses(lim, out.table, history[1..])
  }

  /** Timestamps never decrease, starting from `since`. */
  ghost predicate InOrder(history: seq<Event>, since: int) {
    history == [] || (since <= history[0].now && InOrder(history[1..], history[0].now))
  }

  lemma UnexpiredLater(m: Table, now: int, later: int)
    requires now <= later
    ensures Unexpired(Unexpired(m, now), later) == Unexpired(m, later)
  {
  }

  lemma StillAgree(m: Table, ideal: Table, now: int, later: int)
    requires now <= later && Unexpired(m, now) == Unexpired(ideal, now)
    ensures Unexpired(m, later) == Unexpired(ideal, later)
  {
    UnexpiredLater(m, now, later);
    UnexpiredLater(ideal, now, later);
  }

  /** Acquire of a key somebody holds. */
  lemma AcquireHeld(lim: Limits, m: Table, e: Operation)
    requires e.kind == Acquire && Live(m, e.key, e.now)
    ensures var live := Unexpired(m, e.now); var out, want := StoreStep(lim, m, e), IdealStep(lim, live, e);
            out.status == want.status && out.ttlMS == want.ttlMS && Unexpired(out.table, e.now) == want.table
  {
    assert e.key in Unexpired(m, e.now);
  }

  /** Acquire of a key nobody holds for no time at all. */
  lemma AcquireForNothing(lim: Limits, m: Table, e: Operation)
    requires e.kind == Acquire && !Live(m, e.key, e.now) && Min(e.requestedTTL, lim.maxTTL) == 0
    ensures var live := Unexpired(m, e.now); var out, want := StoreStep(lim, m, e), IdealStep(lim, live, e);
            out.status == want.status && out.ttlMS == want.ttlMS && Unexpired(out.table, e.now) == want.table
  {
    assert e.key !in Unexpired(m, e.now);
    UnexpiredWithout(m, e.key, e.now);
  }

  /** Acquire: the count of resident keys may include expired ones, but a refusal comes only
      after they have been cleaned up. */
  lemma AcquireAgrees(lim: Limits, m: Table, e: Operation)
    requires e.kind == Acquire
    ensures var live := Unexpired(m, e.now); var out, want := StoreStep(lim, m, e), IdealStep(lim, live, e);
            out.status == want.status && out.ttlMS == want.ttlMS && Unexpired(out.table, e.now) == want.table
  {
    if Live(m, e.key, e.now) {
      AcquireHeld(lim, m, e);
    } else if Min(e.requestedTTL, lim.maxTTL) == 0 {
      AcquireForNothing(lim, m, e);
    } else {
      assert e.key !in Unexpired(m, e.now);
      UnexpiredLater(m, e.now, e.now);
      AcquireFree(lim, m, e.key, e.id, e.requestedTTL, e.now);
    }
  }

  lemma UnexpiredInsert(m: Table, key: Key, e: Entry, now: int)
    requires now < e.deadline
    ensures Unexpired(m[key := e], now) == Unexpired(m, now)[key := e]
  {
  }

  lemma UnexpiredWithout(m: Table, key: Key, now: int)
    requires !Live(m, key, now)
    ensures Unexpired(m - {key}, now) == Unexpired(m, now) && |Unexpired(m, now)| <= |m - {key}|
    ensures Unexpired(m, now) - {key} == Unexpired(m, now)
  {
    UnexpiredSize(m - {key}, now);
    assert Unexpired(m - {key}, now) == Unexpired(m, now);
  }

  /** Acquire of a key nobody holds, when the count of residents has reached the limit. */
  lemma AcquireWhenFull(lim: Limits, m: Table, key: Key, id: LeaseID, requestedTTL: nat, now: int)
    requires !Live(m, key, now) && Min(requestedTTL, lim.maxTTL) > 0 && |m - {key}| >= lim.maxKeys
    ensures var live := Unexpired(m, now); var ttl := Min(requestedTTL, lim.maxTTL);
            StoreAcquire(lim, m, key, id, requestedTTL, now) ==
              if |live| < lim.maxKeys then Outcome(live[key := Entry(id, now + ttl * MS)], OK, ttl)
              else Outcome(live, KeyLimitReached, 0)
  {
    UnexpiredWithout(m, key, now);
    var live := Unexpired(m, now);
    assert !Live(live, key, now);
  }

  /** Acquire of a key nobody holds, when a key is free at once. */
  lemma AcquireWithRoom(lim: Limits, m: Table, key: Key, id: LeaseID, requestedTTL: nat, now: int)
    requires !Live(m, key, now) && Min(requestedTTL, lim.maxTTL) > 0 && |m - {key}| < lim.maxKeys
    ensures var ttl := Min(requestedTTL, lim.maxTTL);
            StoreAcquire(lim, m, key, id, requestedTTL, now) == Outcome(m[key := Entry(id, now + ttl * MS)], OK, ttl)
  {
  }

  /** Acquire of a key nobody holds, in terms of the live leases. */
  lemma AcquireFree(lim: Limits, m: Table, key: Key, id: LeaseID, requestedTTL: nat, now: int)
    requires !Live(m, key, now) && Min(requestedTTL, lim.maxTTL) > 0
    ensures var live := Unexpired(m, now); var ttl := Min(requestedTTL, lim.maxTTL);
            var out := StoreAcquire(lim, m, key, id, requestedTTL, now);
            if |live| >= lim.maxKeys then out == Outcome(live, KeyLimitReached, 0)
            else
              && out.status == OK && out.ttlMS == ttl
              && Unexpired(out.table, now) == live[key := Entry(id, now + ttl * MS)]
  {
    var e := Entry(id, now + Min(requestedTTL, lim.maxTTL) * MS);
    UnexpiredWithout(m, key, now);
    if |m - {key}| >= lim.maxKeys {
      AcquireWhenFull(lim, m, key, id, requestedTTL, now);
      UnexpiredInsert(Unexpired(m, now), key, e, now);
      UnexpiredLater(m, now, now);
    } else {
      AcquireWithRoom(lim, m, key, id, requestedTTL, now);
      UnexpiredInsert(m, key, e, now);
    }
  }

  lemma RenewAgrees(lim: Limits, m: Table, e: Operation)
    requires e.kind == Renew
    ensures var live := Unexpired(m, e.now); var out, want := StoreStep(lim, m, e), IdealStep(lim, live, e);
            out.status == want.status && out.ttlMS == want.ttlMS && Unexpired(out.table, e.now) == want.table
  {
  }

  lemma ReleaseAgrees(lim: Limits, m: Table, e: Operation)
    requires e.kind == Release
    ensures var live := Unexpired(m, e.now); var out, want := StoreStep(lim, m, e), IdealStep(lim, live, e);
            out.status == want.status && out.ttlMS == want.ttlMS && Unexpired(out.table, e.now) == want.table
  {
  }

  lemma StepAgrees(lim: Limits, m: Table, e: Operation)
    ensures var live := Unexpired(m, e.now); var out, want := StoreStep(lim, m, e), IdealStep(lim, live, e);
            out.status == want.status && out.ttlMS == want.ttlMS && Unexpired(out.table, e.now) == want.table
  {
    match e.kind {
      case Acquire => AcquireAgrees(lim, m, e);
      case Renew => RenewAgrees(lim, m, e);
      case Release => ReleaseAgrees(lim, m, e);
    }
  }

  lemma {:induction false} ResponsesAgree(lim: Limits, m: Table, ideal: Table, history: seq<Event>, since: int)
    requires InOrder(history, since) && Unexpired(m, since) == Unexpired(ideal, since)
    ensures StoreResponses(lim, m, history) == IdealResponses(lim, ideal, history)
    decreases |history|
  {
    if history != [] {
      var now := history[0].now;
      StillAgree(m, ideal, since, now);
      match history[0] {
        case Cleanup(keys, _) =>
          assert Unexpired(Clean(m, keys, now), now) == Unexpired(m, now);
          ResponsesAgree(lim, Clean(m, keys, now), ideal, history[1..], now);
        case Operation(_, _, _, _, _) =>
          StepAgrees(lim, m, history[0]);
          var out, want := StoreStep(lim, m, history[0]), IdealStep(lim, Unexpired(m, now), history[0]);
          UnexpiredLater(out.table, now, now);
          ResponsesAgree(lim, out.table, want.table, history[1..], now);
      }
    }
  }

  /** Refinement: from an empty store, whatever operations arrive with nondecreasing
      timestamps and whatever cleanups run in between, every status and every TTL, refusals
      for want of room included, is that of the ideal store. */
  lemma StoreRefinesIdeal(lim: Limits, history: seq<Event>, since: int)
    requires InOrder(history, since)
    ensures StoreResponses(lim, map[], history) == IdealResponses(lim, map[], history)
  {
    ResponsesAgree(lim, map[], map[], history, since);
  }
}
