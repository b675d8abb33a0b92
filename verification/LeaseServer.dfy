/** The tables of all shards seen as one table. */
module Shards {
  import opened Types
  import opened LeaseTable
  import opened Bits

  /** The shard a key belongs to: its hash under the mask of a power-of-two shard count. */
  function ShardIndex(hash: Key -> nat, count: nat, key: Key): (i: nat)
    requires IsPowerOfTwo(count)
    ensures i < count
  {
    MaskIsModulo(hash(key), count);
    BitAnd(hash(key), count - 1)
  }

  /** Every key is stored in its own shard only. */
  ghost predicate Placed(tables: seq<Table>, place: Key -> nat) {
    forall i, k :: 0 <= i < |tables| && k in tables[i] ==> place(k) == i
  }

  ghost function Merged(tables: seq<Table>): (m: Table)
  {
    if tables == [] then map[] else Merged(tables[..|tables| - 1]) + tables[|tables| - 1]
  }

  ghost function Total(tables: seq<Table>): nat {
    if tables == [] then 0 else Total(tables[..|tables| - 1]) + |tables[|tables| - 1]|
  }

  /** A key is found in the whole exactly when it is found in its shard. */
  ghost predicate Found(tables: seq<Table>, place: Key -> nat, m: Table, key: Key) {
    && (key in m <==> place(key) < |tables| && key in tables[place(key)])
    && (key in m ==> m[key] == tables[place(key)][key])
  }

  lemma {:induction false} MergedFinds(tables: seq<Table>, place: Key -> nat)
    requires Placed(tables, place)
    ensures forall key :: Found(tables, place, Merged(tables), key)
    ensures |Merged(tables)| == Total(tables)
  {
    if tables != [] {
      var front, last := tables[..|tables| - 1], tables[|tables| - 1];
      MergedFinds(front, place);
      forall key ensures Found(tables, place, Merged(tables), key) {
        assert Found(front, place, Merged(front), key);
      }
      forall key | key in last ensures key !in Merged(front) {
        assert Found(front, place, Merged(front), key);
      }
      assert Merged(tables).Keys == Merged(front).Keys + last.Keys;
    }
  }

  /** What a key's shard stores of it is what the whole stores of it. */
  lemma LookupAgrees(tables: seq<Table>, place: Key -> nat, key: Key)
    requires Placed(tables, place) && place(key) < |tables|
    ensures var t, m := tables[place(key)], Merged(tables);
      && SameAt(t, m, key) && (key in t ==> |m| > 0)
      && |m - {key}| == |m| - (if key in t then 1 else 0)
  {
    MergedFinds(tables, place);
    assert Found(tables, place, Merged(tables), key);
    SizeWithout(Merged(tables), key);
  }

  lemma {:induction false} MergedEmpty(tables: seq<Table>)
    requires forall i :: 0 <= i < |tables| ==> tables[i] == map[]
    ensures Merged(tables) == map[]
  {
    if tables != [] {
      MergedEmpty(tables[..|tables| - 1]);
    }
  }

  /** Two tables that find the same are the same. */
  lemma SameFinds(tables: seq<Table>, place: Key -> nat, m: Table)
    requires Placed(tables, place) && forall key :: Found(tables, place, m, key)
    ensures Merged(tables) == m
  {
    MergedFinds(tables, place);
    forall key ensures key in m <==> key in Merged(tables) {
      assert Found(tables, place, m, key) && Found(tables, place, Merged(tables), key);
    }
    forall key | key in m ensures m[key] == Merged(tables)[key] {
      assert Found(tables, place, m, key) && Found(tables, place, Merged(tables), key);
    }
  }

  /** Changing the entry of one key in its shard changes just that entry in the whole. */
  lemma MergedUpdate(tables: seq<Table>, place: Key -> nat, key: Key, t: Table, m: Table)
    requires Placed(tables, place) && place(key) < |tables|
    requires t - {key} == tables[place(key)] - {key} && m - {key} == Merged(tables) - {key} && SameAt(t, m, key)
    ensures Placed(tables[place(key) := t], place) && Merged(tables[place(key) := t]) == m
    ensures |m| - |Merged(tables)| == |t| - |tables[place(key)]|
  {
    var tables' := tables[place(key) := t];
    MergedFinds(tables, place);
    forall i, k | 0 <= i < |tables'| && k in tables'[i] ensures place(k) == i {
      assert k != key ==> (k in t <==> k in t - {key});
      assert k != key && i == place(key) ==> k in tables[i] - {key};
    }
    forall k ensures Found(tables', place, m, k) {
      assert Found(tables, place, Merged(tables), k);
      assert k != key ==> (k in t <==> k in t - {key}) && (k in m <==> k in m - {key});
      assert k != key && k in t ==> t[k] == (t - {key})[k];
      assert k != key && k in m ==> m[k] == (m - {key})[k];
    }
    SameFinds(tables', place, m);
    MergedSize(tables, place, place(key), t);
  }

  /** Cleaning every shard cleans the whole. */
  lemma MergedUnexpired(tables: seq<Table>, tables': seq<Table>, place: Key -> nat, now: int)
    requires Placed(tables, place) && |tables'| == |tables|
    requires forall i :: 0 <= i < |tables| ==> tables'[i] == Unexpired(tables[i], now)
    ensures Placed(tables', place) && Merged(tables') == Unexpired(Merged(tables), now)
    ensures |Merged(tables')| == |Merged(tables)| - (Total(tables) - Total(tables')) <= |Merged(tables)|
  {
    MergedFinds(tables, place);
    forall k ensures Found(tables', place, Unexpired(Merged(tables), now), k) {
      assert Found(tables, place, Merged(tables), k);
    }
    SameFinds(tables', place, Unexpired(Merged(tables), now));
    MergedFinds(tables', place);
    UnexpiredSize(Merged(tables), now);
  }

  /** Changing one shard changes the size of the whole by as much. */
  lemma MergedSize(tables: seq<Table>, place: Key -> nat, i: nat, t: Table)
    requires Placed(tables, place) && i < |tables| && Placed(tables[i := t], place)
    ensures |Merged(tables[i := t])| == |Merged(tables)| - |tables[i]| + |t|
  {
    MergedFinds(tables, place);
    MergedFinds(tables[i := t], place);
    TotalUpdate(tables, i, t);
  }

  lemma {:induction false} TotalUpdate(tables: seq<Table>, i: nat, t: Table)
    requires i < |tables|
    ensures Total(tables[i := t]) == Total(tables) - |tables[i]| + |t|
  {
    var tables' := tables[i := t];
    var n := |tables| - 1;
    if i == n {
      assert tables'[..n] == tables[..n];
    } else {
      TotalUpdate(tables[..n], i, t);
      assert tables'[..n] == tables[..n][i := t];
    }
  }
}

/** What the whole server does to its resident leases, sequentially: each operation with its
    timestamp, lazy removal, the global key limit and the cleanup it triggers. */
module Store {
  import opened Types
  import opened LeaseTable

  datatype Limits = Limits(maxTTL: nat, maxKeys: nat)

  /** Acquire retries once, after a cleanup of everything expired, when no key is free. */
  function StoreAcquire(lim: Limits, m: Table, key: Key, id: LeaseID, requestedTTL: nat, now: int): Outcome
  {
    var ttl := Min(requestedTTL, lim.maxTTL);
    match AcquireLocked(m, key, id, ttl, lim.maxTTL, now, |m - {key}| < lim.maxKeys)
    case Answered(t, status, ttlMS) => Outcome(t, status, ttlMS)
    case CapacityFull(t) =>
      var cleaned := Unexpired(t, now);
      match AcquireLocked(cleaned, key, id, ttl, lim.maxTTL, now, |cleaned - {key}| < lim.maxKeys)
      case Answered(t', status, ttlMS) => Outcome(t', status, ttlMS)
      case CapacityFull(t') => Outcome(t', KeyLimitReached, 0)
  }

  function StoreRenew(lim: Limits, m: Table, key: Key, id: LeaseID, requestedTTL: nat, now: int): Outcome
  {
    RenewLocked(m, key, id, Min(requestedTTL, lim.maxTTL), lim.maxTTL, now)
  }

  function StoreRelease(m: Table, key: Key, id: LeaseID, now: int): Outcome
  {
    Outcome(ReleaseLocked(m, key, id, now), OK, 0)
  }
}

/** The server over its shards, with the global count of resident keys. */
module LeaseServer {
  import opened Types
  import opened LeaseTable
  import opened LeaseShard
  import opened Bits
  import opened Shards
  import opened Store
  import opened IdealStore

  class Server {
    const lim: Limits
    /** The shard of each key. */
    const place: Key -> nat
    const shards: seq<Shard>
    var keys: nat
    var failed: bool
    /** What each shard stores, and in which objects. */
    ghost var tables: seq<Table>
    ghost var reprs: seq<set<object>>
    ghost var Repr: set<object>

    constructor (lim: Limits, hash: Key -> nat, shardCount: nat)
      requires IsPowerOfTwo(shardCount)
      ensures Valid() && Resident() == map[] && fresh(Repr)
      ensures this.lim == lim && |shards| == shardCount && forall k :: place(k) == ShardIndex(hash, shardCount, k)
    {
      var made;
      ghost var sets, all;
      made, sets, all := NewShards(shardCount);
      this.lim, this.shards, keys, failed := lim, made, 0, false;
      this.place := (k: Key) => ShardIndex(hash, shardCount, k);
      tables, reprs, Repr := seq(shardCount, _ => map[]), sets, all;
      new;
      MergedEmpty(tables);
    }

    /** No two shards share an object. */
    ghost predicate Apart()
      reads this`tables, this`reprs, this`Repr
    {
      && |tables| == |shards| == |reprs| && this !in Repr
      && (forall i :: 0 <= i < |reprs| ==> reprs[i] <= Repr && shards[i] in reprs[i])
      && (forall i, j :: 0 <= i < j < |reprs| ==> reprs[i] !! reprs[j])
    }

    ghost predicate Intact()
      reads this`tables, this`reprs, this`Repr, Repr
    {
      Apart() && forall i :: 0 <= i < |shards| ==> shards[i].Holds(tables[i], reprs[i])
    }

    /** All resident leases, expired ones included. */
    ghost function Resident(): Table
      reads this`tables
    {
      Merged(tables)
    }

    /** Every key is in its own shard, the count is exact and within the limit, and the
        fail-stop has never been hit. */
    ghost predicate Valid()
      reads this, Repr
    {
      && Intact() && (forall k :: place(k) < |tables|) && Placed(tables, place)
      && keys == |Resident()| && keys <= lim.maxKeys && !failed
    }

    // ---------- The counter ----------

    method ReserveKey() returns (reserved: bool)
      modifies this`keys
      ensures reserved <==> old(keys) < lim.maxKeys
      ensures keys == if reserved then old(keys) + 1 else old(keys)
    {
      reserved := keys < lim.maxKeys;
      if reserved {
        keys := keys + 1;
      }
    }

    /** Gives keys back; giving back more than are counted stops the server. */
    method ReleaseKeys(count: nat)
      modifies this`keys, this`failed
      ensures count <= old(keys) ==> keys == old(keys) - count && failed == old(failed)
      ensures count > old(keys) ==> keys == old(keys) && failed
    {
      if count > keys {
        failed := true;
      } else {
        keys := keys - count;
      }
    }

    // ---------- One shard, locked ----------

    /** Removes a lease and gives its key back. */
    method DropKey(shard: Shard, key: Key, ghost t: Table, ghost repr: set<object>) returns (ghost repr': set<object>)
      requires shard.Holds(t, repr) && this !in repr && key in t && keys > 0
      modifies repr, this`keys, this`failed
      ensures shard.Holds(t - {key}, repr') && repr' <= repr
      ensures keys == old(keys) - 1 && failed == old(failed)
    {
      repr' := shard.Drop(key, t, repr);
      ReleaseKeys(1);
    }

    /** Stores a new lease if a key is free. */
    method TakeKey(shard: Shard, key: Key, id: LeaseID, deadline: int, ghost t: Table, ghost repr: set<object>)
      returns (taken: bool, ghost t': Table, ghost repr': set<object>)
      requires shard.Holds(t, repr) && this !in repr && key !in t
      modifies repr, this`keys
      ensures shard.Holds(t', repr') && fresh(repr' - repr)
      ensures taken <==> old(keys) < lim.maxKeys
      ensures t' == if taken then t[key := Entry(id, deadline)] else t
      ensures keys == if taken then old(keys) + 1 else old(keys)
    {
      t', repr' := t, repr;
      taken := ReserveKey();
      if taken {
        repr' := shard.Put(key, id, deadline, t, repr);
        t' := t[key := Entry(id, deadline)];
      }
    }

    /** Acquire once the key is known not to be held: an expired lease goes, its key is given
        back, and only then a key is reserved. */
    method Replace(shard: Shard, key: Key, id: LeaseID, ttlMS: nat, now: int, ghost t: Table, ghost repr: set<object>)
      returns (answer: Option<(Status, nat)>, ghost t': Table, ghost repr': set<object>)
      requires shard.Holds(t, repr) && this !in repr && (key in t ==> keys > 0)
      modifies repr, this`keys, this`failed
      ensures shard.Holds(t', repr') && fresh(repr' - repr) && failed == old(failed)
      ensures var free := old(keys) - (if key in t then 1 else 0) < lim.maxKeys;
        && t' == (if ttlMS != 0 && free then t[key := Entry(id, now + ttlMS * MS)] else t - {key})
        && answer == (if ttlMS == 0 then Some((OK, 0)) else if free then Some((OK, ttlMS)) else None)
      ensures keys == old(keys) - (if key in t then 1 else 0) + (if ttlMS != 0 && answer.Some? then 1 else 0)
    {
      var e := shard.Lookup(key, t, repr);
      repr' := repr;
      if e.Some? {
        repr' := DropKey(shard, key, t, repr);
      }
      t' := t - {key};
      PutBack(t, key, Entry(id, now + ttlMS * MS));
      assert key !in t ==> t - {key} == t;
      if ttlMS == 0 {
        return Some((OK, 0)), t', repr';
      }
      var taken;
      taken, t', repr' := TakeKey(shard, key, id, now + ttlMS * MS, t', repr');
      return if taken then Some((OK, ttlMS)) else None, t', repr';
    }

    /** One attempt of Acquire; `None` means no key was free. */
    method AcquireOn(shard: Shard, key: Key, id: LeaseID, ttlMS: nat, now: int, ghost t: Table, ghost repr: set<object>)
      returns (answer: Option<(Status, nat)>, ghost t': Table, ghost repr': set<object>)
      requires shard.Holds(t, repr) && this !in repr && (key in t ==> keys > 0)
      modifies repr, this`keys, this`failed
      ensures shard.Holds(t', repr') && fresh(repr' - repr) && failed == old(failed)
      ensures var outcome := AcquireLocked(t, key, id, ttlMS, lim.maxTTL, now,
                              old(keys) - (if key in t then 1 else 0) < lim.maxKeys);
        && t' == outcome.table
        && answer == (if outcome.Answered? then Some((outcome.status, outcome.ttlMS)) else None)
      ensures keys - old(keys) == |t'| - |t|
    {
      var e := shard.Lookup(key, t, repr);
      if e.Some? && now < e.value.deadline {
        t', repr' := t, repr;
        answer := Some(if e.value.id == id then (AlreadyOwned, RemainingTTLMS(e.value.deadline, now, lim.maxTTL))
                       else (Busy, 0));
        return;
      }
      AcquireUnheld(t, key, id, ttlMS, lim.maxTTL, now, keys - (if key in t then 1 else 0) < lim.maxKeys);
      answer, t', repr' := Replace(shard, key, id, ttlMS, now, t, repr);
    }

    /** Moves the deadline of a live lease, but never back. */
    method Lengthen(shard: Shard, key: Key, candidate: int, ghost t: Table, ghost repr: set<object>)
      returns (deadline: int, ghost repr': set<object>)
      requires shard.Holds(t, repr) && key in t
      modifies repr
      ensures deadline == Max(t[key].deadline, candidate)
      ensures shard.Holds(t[key := Entry(t[key].id, deadline)], repr') && fresh(repr' - repr)
    {
      var current := shard.Lookup(key, t, repr).value.deadline;
      assert t[key := t[key]] == t;
      if candidate <= current {
        return current, repr;
      }
      repr' := shard.Prolong(key, candidate, t, repr);
      return candidate, repr';
    }

    /** Renew: an expired lease is dropped, never revived, and a live one only extended. */
    method RenewOn(shard: Shard, key: Key, id: LeaseID, ttlMS: nat, now: int, ghost t: Table, ghost repr: set<object>)
      returns (status: Status, remaining: nat, ghost t': Table, ghost repr': set<object>)
      requires shard.Holds(t, repr) && this !in repr && (key in t ==> keys > 0)
      modifies repr, this`keys, this`failed
      ensures shard.Holds(t', repr') && fresh(repr' - repr) && failed == old(failed)
      ensures Outcome(t', status, remaining) == RenewLocked(t, key, id, ttlMS, lim.maxTTL, now)
      ensures keys - old(keys) == |t'| - |t|
    {
      var e := shard.Lookup(key, t, repr);
      if e == None {
        return Stale, 0, t, repr;
      }
      if e.value.deadline <= now {
        RemoveOne(t, key);
        repr' := DropKey(shard, key, t, repr);
        return Stale, 0, t - {key}, repr';
      }
      if e.value.id != id {
        return Stale, 0, t, repr;
      }
      var deadline;
      deadline, repr' := Lengthen(shard, key, now + ttlMS * MS, t, repr);
      ReplaceOne(t, key, Entry(id, deadline));
      return OK, RemainingTTLMS(deadline, now, lim.maxTTL), t[key := Entry(id, deadline)], repr';
    }

    /** Release: touches the caller's own lease or an expired one only. */
    method ReleaseOn(shard: Shard, key: Key, id: LeaseID, now: int, ghost t: Table, ghost repr: set<object>)
      returns (ghost t': Table, ghost repr': set<object>)
      requires shard.Holds(t, repr) && this !in repr && (key in t ==> keys > 0)
      modifies repr, this`keys, this`failed
      ensures shard.Holds(t', repr') && fresh(repr' - repr) && failed == old(failed)
      ensures t' == ReleaseLocked(t, key, id, now) && keys - old(keys) == |t'| - |t|
    {
      var e := shard.Lookup(key, t, repr);
      t', repr' := t, repr;
      if e.Some? && (e.value.deadline <= now || e.value.id == id) {
        repr' := DropKey(shard, key, t, repr);
        t' := t - {key};
        RemoveOne(t, key);
      }
    }

    // ---------- One shard among the others ----------

    /** Shard `i` stores `t` and the others what is recorded for them. */
    ghost predicate Changed(i: nat, t: Table, repr: set<object>)
      reads this`tables, this`reprs, this`Repr, shards, Repr, repr
    {
      && Apart() && i < |shards| && shards[i].Holds(t, repr) && shards[i] in repr && this !in repr
      && (forall j :: 0 <= j < |shards| && j != i ==> reprs[j] !! repr)
      && (forall j :: 0 <= j < |shards| && j != i ==> shards[j].Holds(tables[j], reprs[j]))
    }

    /** Records what shard `i` has come to store. */
    ghost method Record(i: nat, t: Table, repr: set<object>)
      requires Changed(i, t, repr)
      modifies this`tables, this`reprs, this`Repr
      ensures Intact() && tables == old(tables)[i := t] && Repr == old(Repr) + repr
    {
      tables, reprs, Repr := tables[i := t], reprs[i := repr], Repr + repr;
    }

    method AcquireShard(i: nat, key: Key, id: LeaseID, ttlMS: nat, now: int)
      returns (answer: Option<(Status, nat)>, ghost t': Table, ghost repr': set<object>)
      requires Intact() && i < |tables| && (key in tables[i] ==> keys > 0)
      modifies reprs[i], this`keys, this`failed
      ensures Changed(i, t', repr') && fresh(repr' - reprs[i]) && failed == old(failed)
      ensures var t := tables[i];
        var outcome := AcquireLocked(t, key, id, ttlMS, lim.maxTTL, now,
                                old(keys) - (if key in t then 1 else 0) < lim.maxKeys);
        && t' == outcome.table
        && answer == (if outcome.Answered? then Some((outcome.status, outcome.ttlMS)) else None)
      ensures keys - old(keys) == |t'| - |tables[i]|
    {
      answer, t', repr' := AcquireOn(shards[i], key, id, ttlMS, now, tables[i], reprs[i]);
    }

    method RenewShard(i: nat, key: Key, id: LeaseID, ttlMS: nat, now: int)
      returns (status: Status, remaining: nat, ghost t': Table, ghost repr': set<object>)
      requires Intact() && i < |tables| && (key in tables[i] ==> keys > 0)
      modifies reprs[i], this`keys, this`failed
      ensures Changed(i, t', repr') && fresh(repr' - reprs[i]) && failed == old(failed)
      ensures Outcome(t', status, remaining) == RenewLocked(tables[i], key, id, ttlMS, lim.maxTTL, now)
      ensures keys - old(keys) == |t'| - |tables[i]|
    {
      status, remaining, t', repr' := RenewOn(shards[i], key, id, ttlMS, now, tables[i], reprs[i]);
    }

    method ReleaseShard(i: nat, key: Key, id: LeaseID, now: int) returns (ghost t': Table, ghost repr': set<object>)
      requires Intact() && i < |tables| && (key in tables[i] ==> keys > 0)
      modifies reprs[i], this`keys, this`failed
      ensures Changed(i, t', repr') && fresh(repr' - reprs[i]) && failed == old(failed)
      ensures t' == ReleaseLocked(tables[i], key, id, now) && keys - old(keys) == |t'| - |tables[i]|
    {
      t', repr' := ReleaseOn(shards[i], key, id, now, tables[i], reprs[i]);
    }

    method SweepShard(i: nat, now: int) returns (deleted: nat, ghost repr': set<object>)
      requires Intact() && i < |tables|
      modifies reprs[i]
      ensures Changed(i, Unexpired(tables[i], now), repr') && repr' <= reprs[i]
      ensures deleted == |tables[i]| - |Unexpired(tables[i], now)|
    {
      deleted, repr' := shards[i].Sweep(now, tables[i], reprs[i]);
    }

    // ---------- Recording the change ----------

    method AcquireAt(i: nat, key: Key, id: LeaseID, ttlMS: nat, now: int) returns (answer: Option<(Status, nat)>)
      requires Intact() && i < |tables| && (key in tables[i] ==> keys > 0)
      modifies this, Repr
      ensures Intact() && fresh(Repr - old(Repr)) && failed == old(failed)
      ensures var t := old(tables)[i];
        var outcome := AcquireLocked(t, key, id, ttlMS, lim.maxTTL, now,
                                old(keys) - (if key in t then 1 else 0) < lim.maxKeys);
        && tables == old(tables)[i := outcome.table]
        && answer == (if outcome.Answered? then Some((outcome.status, outcome.ttlMS)) else None)
        && keys - old(keys) == |outcome.table| - |t|
    {
      ghost var t', repr';
      answer, t', repr' := AcquireShard(i, key, id, ttlMS, now);
      Record(i, t', repr');
    }

    method RenewAt(i: nat, key: Key, id: LeaseID, ttlMS: nat, now: int) returns (status: Status, remaining: nat)
      requires Intact() && i < |tables| && (key in tables[i] ==> keys > 0)
      modifies this, Repr
      ensures Intact() && fresh(Repr - old(Repr)) && failed == old(failed)
      ensures var t := old(tables)[i]; var outcome := RenewLocked(t, key, id, ttlMS, lim.maxTTL, now);
        && tables == old(tables)[i := outcome.table] && (status, remaining) == (outcome.status, outcome.ttlMS)
        && keys - old(keys) == |outcome.table| - |t|
    {
      ghost var t', repr';
      status, remaining, t', repr' := RenewShard(i, key, id, ttlMS, now);
      Record(i, t', repr');
    }

    method ReleaseAt(i: nat, key: Key, id: LeaseID, now: int)
      requires Intact() && i < |tables| && (key in tables[i] ==> keys > 0)
      modifies this, Repr
      ensures Intact() && fresh(Repr - old(Repr)) && failed == old(failed)
      ensures var t := old(tables)[i]; var t' := ReleaseLocked(t, key, id, now);
        tables == old(tables)[i := t'] && keys - old(keys) == |t'| - |t|
    {
      ghost var t', repr' := ReleaseShard(i, key, id, now);
      Record(i, t', repr');
    }

    method SweepAt(i: nat, now: int) returns (deleted: nat)
      requires Intact() && i < |tables|
      modifies this`tables, this`reprs, this`Repr, Repr
      ensures Intact() && Repr == old(Repr)
      ensures tables == old(tables)[i := Unexpired(old(tables)[i], now)]
      ensures deleted == |old(tables)[i]| - |tables[i]|
    {
      ghost var repr';
      deleted, repr' := SweepShard(i, now);
      Record(i, Unexpired(tables[i], now), repr');
    }

    // ---------- The whole server ----------

    /** One attempt of Acquire on the shard of the key; `None` means no key was free. */
    method AcquireAttempt(key: Key, id: LeaseID, ttlMS: nat, now: int) returns (answer: Option<(Status, nat)>)
      requires Valid()
      modifies this, Repr
      ensures Valid() && fresh(Repr - old(Repr))
      ensures var m := old(Resident());
              var outcome := AcquireLocked(m, key, id, ttlMS, lim.maxTTL, now, |m - {key}| < lim.maxKeys);
              && Resident() == outcome.table
              && answer == (if outcome.Answered? then Some((outcome.status, outcome.ttlMS)) else None)
    {
      AcquireMerged(tables, place, key, id, ttlMS, lim, now);
      answer := AcquireAt(place(key), key, id, ttlMS, now);
    }

    /** The second attempt, after a cleanup of all shards. */
    method AcquireAgain(key: Key, id: LeaseID, ttlMS: nat, now: int) returns (answer: Option<(Status, nat)>)
      requires Valid()
      modifies this, Repr
      ensures Valid() && fresh(Repr - old(Repr))
      ensures var m := Unexpired(old(Resident()), now);
              var outcome := AcquireLocked(m, key, id, ttlMS, lim.maxTTL, now, |m - {key}| < lim.maxKeys);
              && Resident() == outcome.table
              && answer == (if outcome.Answered? then Some((outcome.status, outcome.ttlMS)) else None)
    {
      RemoveExpiredKeys(now);
      answer := AcquireAttempt(key, id, ttlMS, now);
    }

    /** Acquire: at most two attempts, with a cleanup of all shards in between. */
    method Acquire(key: Key, id: LeaseID, requestedTTL: nat, now: int) returns (status: Status, ttlMS: nat)
      requires Valid()
      modifies this, Repr
      ensures Valid() && fresh(Repr - old(Repr))
      ensures Outcome(Resident(), status, ttlMS) == StoreAcquire(lim, old(Resident()), key, id, requestedTTL, now)
    {
      var effectiveTTL := Min(requestedTTL, lim.maxTTL);
      var answer := AcquireAttempt(key, id, effectiveTTL, now);
      if answer.Some? {
        return answer.value.0, answer.value.1;
      }
      answer := AcquireAgain(key, id, effectiveTTL, now);
      if answer.Some? {
        return answer.value.0, answer.value.1;
      }
      return KeyLimitReached, 0;
    }

    method Renew(key: Key, id: LeaseID, requestedTTL: nat, now: int) returns (status: Status, ttlMS: nat)
      requires Valid()
      modifies this, Repr
      ensures Valid() && fresh(Repr - old(Repr))
      ensures Outcome(Resident(), status, ttlMS) == StoreRenew(lim, old(Resident()), key, id, requestedTTL, now)
    {
      var effectiveTTL := Min(requestedTTL, lim.maxTTL);
      RenewMerged(tables, place, key, id, effectiveTTL, lim, now);
      status, ttlMS := RenewAt(place(key), key, id, effectiveTTL, now);
    }

    method Release(key: Key, id: LeaseID, now: int)
      requires Valid()
      modifies this, Repr
      ensures Valid() && fresh(Repr - old(Repr))
      ensures Resident() == StoreRelease(old(Resident()), key, id, now).table
    {
      ReleaseMerged(tables, place, key, id, now);
      ReleaseAt(place(key), key, id, now);
    }

    /** Pops the expired leases of shard after shard and counts them. */
    method CleanShards(now: int) returns (deleted: nat)
      requires Intact()
      modifies this`tables, this`reprs, this`Repr, Repr
      ensures Intact() && Repr == old(Repr)
      ensures |tables| == |old(tables)| && forall j :: 0 <= j < |tables| ==> tables[j] == Unexpired(old(tables)[j], now)
      ensures deleted == Total(old(tables)) - Total(tables)
    {
      deleted := 0;
      for i := 0 to |shards|
        invariant Intact() && Repr == old(Repr)
        invariant |tables| == |old(tables)| == |shards|
        invariant forall j :: 0 <= j < i ==> tables[j] == Unexpired(old(tables)[j], now)
        invariant forall j :: i <= j < |tables| ==> tables[j] == old(tables)[j]
        invariant deleted == Total(old(tables)) - Total(tables)
      {
        TotalUpdate(tables, i, Unexpired(tables[i], now));
        var count := SweepAt(i, now);
        deleted := deleted + count;
      }
    }

    /** Cleans every shard and returns the keys of all deleted leases at once. */
    method RemoveExpiredKeys(now: int)
      requires Valid()
      modifies this, Repr
      ensures Valid() && fresh(Repr - old(Repr)) && Resident() == Unexpired(old(Resident()), now)
    {
      var deleted := CleanShards(now);
      MergedUnexpired(old(tables), tables, place, now);
      ReleaseKeys(deleted);
    }
  }

  /** The server agrees with the ideal store, having heard nothing later than `since`. */
  ghost predicate Agrees(server: Server, ideal: Table, since: int)
    reads server, server.Repr
  {
    server.Valid() && Unexpired(server.Resident(), since) == Unexpired(ideal, since)
  }

  /** One operation answers as the ideal store does. */
  method ServeOne(server: Server, e: Operation, ghost ideal: Table, ghost since: int)
    returns (response: Response, ghost ideal': Table)
    requires Agrees(server, ideal, since) && since <= e.now
    modifies server, server.Repr
    ensures Agrees(server, ideal', e.now) && fresh(server.Repr - old(server.Repr))
    ensures var want := IdealStep(server.lim, Unexpired(ideal, e.now), e);
      ideal' == want.table && response == (want.status, want.ttlMS)
  {
    ghost var m := server.Resident();
    StillAgree(m, ideal, since, e.now);
    StepAgrees(server.lim, m, e);
    ideal' := IdealStep(server.lim, Unexpired(m, e.now), e).table;
    AnswerIsLive(server.lim, m, e);
    var status, ttlMS := OK, 0;
    match e.kind {
      case Acquire => status, ttlMS := server.Acquire(e.key, e.id, e.requestedTTL, e.now);
      case Renew => status, ttlMS := server.Renew(e.key, e.id, e.requestedTTL, e.now);
      case Release => server.Release(e.key, e.id, e.now);
    }
    response := (status, ttlMS);
  }

  /** What an ideal step leaves is unexpired. */
  lemma AnswerIsLive(lim: Limits, m: Table, e: Operation)
    ensures var out := IdealStep(lim, Unexpired(m, e.now), e); Unexpired(out.table, e.now) == out.table
  {
    StepAgrees(lim, m, e);
    UnexpiredLater(StoreStep(lim, m, e).table, e.now, e.now);
  }

  /** A server that starts empty answers every history of operations and cleanups, in the
      order of their timestamps, exactly as the ideal store does. */
  method Serve(server: Server, history: seq<Event>, ghost start: int) returns (responses: seq<Response>)
    requires server.Valid() && server.Resident() == map[] && InOrder(history, start)
    modifies server, server.Repr
    ensures responses == IdealResponses(server.lim, map[], history)
  {
    responses := [];
    ghost var ideal: Table, since := map[], start;
    for i := 0 to |history|
      invariant Agrees(server, ideal, since) && fresh(server.Repr - old(server.Repr))
      invariant InOrder(history[i..], since)
      invariant responses + IdealResponses(server.lim, ideal, history[i..]) ==
        IdealResponses(server.lim, map[], history)
    {
      var e := history[i];
      assert history[i..][0] == e && history[i..][1..] == history[i + 1..];
      if e.Operation? {
        var response;
        response, ideal := ServeOne(server, e, ideal, since);
        responses := responses + [response];
      } else {
        StillAgree(server.Resident(), ideal, since, e.now);
        UnexpiredLater(server.Resident(), e.now, e.now);
        server.RemoveExpiredKeys(e.now);
      }
      since := e.now;
    }
  }

  /** Empty shards that share nothing; `all` holds the objects of all of them. */
  method NewShards(count: nat) returns (shards: seq<Shard>, ghost reprs: seq<set<object>>, ghost all: set<object>)
    ensures |shards| == |reprs| == count && fresh(all) && forall o :: o in all ==> !(o is Server)
    ensures forall i :: 0 <= i < count ==> shards[i].Holds(map[], reprs[i]) && shards[i] in reprs[i] && reprs[i] <= all
    ensures forall i, j :: 0 <= i < j < count ==> reprs[i] !! reprs[j]
  {
    shards, reprs, all := [], [], {};
    for n := 0 to count
      invariant |shards| == |reprs| == n && fresh(all) && forall o :: o in all ==> !(o is Server)
      invariant forall i :: 0 <= i < n ==> shards[i].Holds(map[], reprs[i]) && shards[i] in reprs[i] && reprs[i] <= all
      invariant forall i, j :: 0 <= i < j < n ==> reprs[i] !! reprs[j]
    {
      var shard := new Shard();
      shards, reprs, all := shards + [shard], reprs + [shard.Repr()], all + shard.Repr();
    }
  }

  /** An operation on the shard of its key is the operation on the whole. */
  lemma AcquireMerged(tables: seq<Table>, place: Key -> nat, key: Key, id: LeaseID, ttlMS: nat, lim: Limits, now: int)
    requires Placed(tables, place) && place(key) < |tables|
    ensures var t, m := tables[place(key)], Merged(tables);
      var room := |m - {key}| < lim.maxKeys;
      var a := AcquireLocked(t, key, id, ttlMS, lim.maxTTL, now, room);
      var b := AcquireLocked(m, key, id, ttlMS, lim.maxTTL, now, room);
      && |m - {key}| == |m| - (if key in t then 1 else 0) && (key in t ==> |m| > 0)
      && Placed(tables[place(key) := a.table], place) && Merged(tables[place(key) := a.table]) == b.table
      && |b.table| - |m| == |a.table| - |t| && (|m| <= lim.maxKeys ==> |b.table| <= lim.maxKeys)
      && a.Answered? == b.Answered? && (a.Answered? ==> a.status == b.status && a.ttlMS == b.ttlMS)
  {
    var t, m := tables[place(key)], Merged(tables);
    var room := |m - {key}| < lim.maxKeys;
    LookupAgrees(tables, place, key);
    AcquireIsLocal(t, m, key, id, ttlMS, lim.maxTTL, now, room);
    MergedUpdate(tables, place, key, AcquireLocked(t, key, id, ttlMS, lim.maxTTL, now, room).table,
                 AcquireLocked(m, key, id, ttlMS, lim.maxTTL, now, room).table);
    if |m| <= lim.maxKeys {
      AcquireBound(m, key, id, ttlMS, lim, now);
    }
  }

  lemma AcquireBound(m: Table, key: Key, id: LeaseID, ttlMS: nat, lim: Limits, now: int)
    requires |m| <= lim.maxKeys
    ensures |AcquireLocked(m, key, id, ttlMS, lim.maxTTL, now, |m - {key}| < lim.maxKeys).table| <= lim.maxKeys
  {
    if !Live(m, key, now) {
      AcquireUnheld(m, key, id, ttlMS, lim.maxTTL, now, |m - {key}| < lim.maxKeys);
      AddOne(m, key, Entry(id, 0));
    }
  }

  lemma RenewMerged(tables: seq<Table>, place: Key -> nat, key: Key, id: LeaseID, ttlMS: nat, lim: Limits, now: int)
    requires Placed(tables, place) && place(key) < |tables|
    ensures var t, m := tables[place(key)], Merged(tables);
      var a, b := RenewLocked(t, key, id, ttlMS, lim.maxTTL, now), RenewLocked(m, key, id, ttlMS, lim.maxTTL, now);
      && (key in t ==> |m| > 0) && Placed(tables[place(key) := a.table], place)
      && Merged(tables[place(key) := a.table]) == b.table
      && |b.table| - |m| == |a.table| - |t| && |b.table| <= |m| && a.status == b.status && a.ttlMS == b.ttlMS
  {
    var t, m := tables[place(key)], Merged(tables);
    LookupAgrees(tables, place, key);
    RenewIsLocal(t, m, key, id, ttlMS, lim.maxTTL, now);
    var after := RenewLocked(m, key, id, ttlMS, lim.maxTTL, now).table;
    MergedUpdate(tables, place, key, RenewLocked(t, key, id, ttlMS, lim.maxTTL, now).table, after);
    SubsetSize(after.Keys, m.Keys);
  }

  lemma ReleaseMerged(tables: seq<Table>, place: Key -> nat, key: Key, id: LeaseID, now: int)
    requires Placed(tables, place) && place(key) < |tables|
    ensures var t, m := tables[place(key)], Merged(tables);
      var a, b := ReleaseLocked(t, key, id, now), ReleaseLocked(m, key, id, now);
      && (key in t ==> |m| > 0) && Placed(tables[place(key) := a], place) && Merged(tables[place(key) := a]) == b
      && |b| - |m| == |a| - |t| && |b| <= |m|
  {
    var t, m := tables[place(key)], Merged(tables);
    LookupAgrees(tables, place, key);
    ReleaseIsLocal(t, m, key, id, now);
    MergedUpdate(tables, place, key, ReleaseLocked(t, key, id, now), ReleaseLocked(m, key, id, now));
    SubsetSize(ReleaseLocked(m, key, id, now).Keys, m.Keys);
  }
}
