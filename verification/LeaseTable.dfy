/** What one server does to its table of resident leases while it holds a shard lock.

    A table may hold expired leases: they are dropped lazily, by the operation that meets
    them or by a cleanup. These functions are what `LeaseShard` implements with a map, a
    deadline heap and a recycling pool, and what the servers of `Protocol` execute. */
module LeaseTable {
  import opened Types

  datatype Entry = Entry(id: LeaseID, deadline: int)

  type Table = map<Key, Entry>

  predicate Live(t: Table, key: Key, now: int) {
    key in t && now < t[key].deadline
  }

  /** The time left until `deadline`, in whole milliseconds, capped at `maximum`: never more
      than the true remainder, and short of it by less than a millisecond unless capped. */
  function RemainingTTLMS(deadline: int, now: int, maximum: nat): (r: nat)
    ensures r <= maximum
    ensures now < deadline ==> now + r * MS <= deadline
    ensures deadline <= now ==> r == 0
    ensures r < maximum && now < deadline ==> deadline < now + (r + 1) * MS
  {
    var remaining := (deadline - now) / MS;
    if deadline <= now then 0 else Min(remaining, maximum)
  }

  datatype AcquireOutcome =
    | Answered(table: Table, status: Status, ttlMS: nat)
    | CapacityFull(table: Table)

  /** One attempt of Acquire under the shard lock. `hasRoom` tells whether a key can be
      reserved once the caller's own expired entry, if any, has been given back. */
  function AcquireLocked(t: Table, key: Key, id: LeaseID, ttlMS: nat, maxTTLMS: nat, now: int, hasRoom: bool)
    : AcquireOutcome
  {
    if Live(t, key, now) && t[key].id == id then
      Answered(t, AlreadyOwned, RemainingTTLMS(t[key].deadline, now, maxTTLMS))
    else if Live(t, key, now) then
      Answered(t, Busy, 0)
    else if ttlMS == 0 then
      Answered(t - {key}, OK, 0)
    else if !hasRoom then
      CapacityFull(t - {key})
    else
      Answered(t[key := Entry(id, now + ttlMS * MS)], OK, ttlMS)
  }

  datatype Outcome = Outcome(table: Table, status: Status, ttlMS: nat)

  function RenewLocked(t: Table, key: Key, id: LeaseID, ttlMS: nat, maxTTLMS: nat, now: int): Outcome
  {
    if key !in t then
      Outcome(t, Stale, 0)
    else if t[key].deadline <= now then
      Outcome(t - {key}, Stale, 0)
    else if t[key].id != id then
      Outcome(t, Stale, 0)
    else
      var deadline := Max(t[key].deadline, now + ttlMS * MS);
      Outcome(t[key := Entry(id, deadline)], OK, RemainingTTLMS(deadline, now, maxTTLMS))
  }

  function ReleaseLocked(t: Table, key: Key, id: LeaseID, now: int): Table
  {
    if key in t && (t[key].deadline <= now || t[key].id == id) then t - {key} else t
  }

  /** The table without the leases that have expired by `now`. */
  function Unexpired(t: Table, now: int): Table
  {
    map k | k in t && now < t[k].deadline :: t[k]
  }

  lemma PutBack(t: Table, key: Key, e: Entry)
    ensures (t - {key})[key := e] == t[key := e]
  {
  }

  lemma DropExpired(t: Table, key: Key, now: int)
    requires key in t && t[key].deadline <= now
    ensures Unexpired(t - {key}, now) == Unexpired(t, now) && |t - {key}| == |t| - 1
  {
    RemoveOne(t, key);
  }

  lemma UnexpiredSize(t: Table, now: int)
    ensures |Unexpired(t, now)| <= |t|
  {
    SubsetSize(Unexpired(t, now).Keys, t.Keys);
  }

  lemma RemoveOne(t: Table, key: Key)
    requires key in t
    ensures |t - {key}| == |t| - 1
  {
    assert (t - {key}).Keys == t.Keys - {key};
  }

  lemma SizeWithout(t: Table, key: Key)
    ensures |t - {key}| == |t| - (if key in t then 1 else 0)
  {
    if key in t {
      RemoveOne(t, key);
    } else {
      assert t - {key} == t;
    }
  }

  lemma AddOne(t: Table, key: Key, e: Entry)
    ensures (t - {key})[key := e] == t[key := e] && |t[key := e]| == |t - {key}| + 1
  {
    assert t[key := e].Keys == (t - {key}).Keys + {key};
  }

  lemma ReplaceOne(t: Table, key: Key, e: Entry)
    requires key in t
    ensures |t[key := e]| == |t|
  {
    assert t[key := e].Keys == t.Keys;
  }

  /** Acquire of a key nobody holds. */
  lemma AcquireUnheld(t: Table, key: Key, id: LeaseID, ttlMS: nat, maxTTLMS: nat, now: int, hasRoom: bool)
    requires !Live(t, key, now)
    ensures var outcome := AcquireLocked(t, key, id, ttlMS, maxTTLMS, now, hasRoom);
      var stored := ttlMS != 0 && hasRoom;
      && outcome.table == (if stored then t[key := Entry(id, now + ttlMS * MS)] else t - {key})
      && |outcome.table| == |t| - (if key in t then 1 else 0) + (if stored then 1 else 0)
  {
    AddOne(t, key, Entry(id, now + ttlMS * MS));
    SizeWithout(t, key);
  }

  /** Two tables store the same under a key. */
  predicate SameAt(t: Table, m: Table, key: Key) {
    (key in t <==> key in m) && (key in t ==> t[key] == m[key])
  }

  /** What an operation does depends on, and concerns, the entry of its own key only. */
  lemma AcquireIsLocal(t: Table, m: Table, key: Key, id: LeaseID, ttlMS: nat, maxTTLMS: nat, now: int, hasRoom: bool)
    requires SameAt(t, m, key)
    ensures var a := AcquireLocked(t, key, id, ttlMS, maxTTLMS, now, hasRoom);
      var b := AcquireLocked(m, key, id, ttlMS, maxTTLMS, now, hasRoom);
      && SameAt(a.table, b.table, key) && a.table - {key} == t - {key} && b.table - {key} == m - {key}
      && a.Answered? == b.Answered? && (a.Answered? ==> a.status == b.status && a.ttlMS == b.ttlMS)
  {
  }

  lemma RenewIsLocal(t: Table, m: Table, key: Key, id: LeaseID, ttlMS: nat, maxTTLMS: nat, now: int)
    requires SameAt(t, m, key)
    ensures var a, b := RenewLocked(t, key, id, ttlMS, maxTTLMS, now), RenewLocked(m, key, id, ttlMS, maxTTLMS, now);
      && SameAt(a.table, b.table, key) && a.table - {key} == t - {key} && b.table - {key} == m - {key}
      && a.status == b.status && a.ttlMS == b.ttlMS
  {
  }

  lemma ReleaseIsLocal(t: Table, m: Table, key: Key, id: LeaseID, now: int)
    requires SameAt(t, m, key)
    ensures var a, b := ReleaseLocked(t, key, id, now), ReleaseLocked(m, key, id, now);
      SameAt(a, b, key) && a - {key} == t - {key} && b - {key} == m - {key}
  {
  }
}
