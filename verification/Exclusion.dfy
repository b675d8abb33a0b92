/** The promises of the protocol, over every run: mutual exclusion, the quorum behind every
    valid lease, and the exact clock error the safety margin absorbs. */
module Exclusion {
  import opened Types
  import opened Quorum
  import opened Protocol
  import opened ProtocolProof

  const MARGIN: int := SAFETY_MARGIN_MS * MS
  const LONGEST: int := PROTOCOL_MAX_TTL_MS * MS

  /** The clocks err by no more than the margin absorbs. */
  ghost predicate WithinMargin(cfg: Config, lag: int, lead: int) {
    ValidConfig(cfg) && ClockError(cfg, lag, lead) && lag + lead <= MARGIN
  }

  lemma ErrorsNonnegative(cfg: Config, lag: int, lead: int)
    requires ClockError(cfg, lag, lead)
    ensures 0 <= lag && 0 <= lead
  {
    var client, server := cfg.clientClock(0, 0, 0), cfg.serverClock(0, 0, 0);
    assert client - client >= 0 - lag && server - server <= 0 + lead;
  }

  /** While the client still relies on a validity counted from `start`, less true time than
      `ttl` has passed since, and a server clock has advanced by less than `ttl`. */
  lemma StillRelying(cfg: Config, lag: int, lead: int, id: LeaseID, start: int, now: int, ttl: int)
    requires WithinMargin(cfg, lag, lead) && start <= now && ttl <= LONGEST
    requires ClientTime(cfg, id, now) < ClientTime(cfg, id, start) + ttl - MARGIN
    ensures now - start < ttl - lead
  {
    ErrorsNonnegative(cfg, lag, lead);
    var horizon := Min(now, start + LONGEST);
    assert ClientTime(cfg, id, horizon) <= ClientTime(cfg, id, now);
    assert ClientTime(cfg, id, horizon) - ClientTime(cfg, id, start) >= horizon - start - lag;
  }

  lemma GrantOutlasts(cfg: Config, lag: int, lead: int, id: LeaseID, start: int, v: nat, inc: nat, stamp: int,
    now: int, ttl: int)
    requires WithinMargin(cfg, lag, lead) && start <= stamp <= now && ttl <= LONGEST
    requires ClientTime(cfg, id, now) < ClientTime(cfg, id, start) + ttl - MARGIN
    ensures cfg.serverClock(v, inc, now) < cfg.serverClock(v, inc, stamp) + ttl
  {
    StillRelying(cfg, lag, lead, id, start, now, ttl);
    ErrorsNonnegative(cfg, lag, lead);
    assert cfg.serverClock(v, inc, now) - cfg.serverClock(v, inc, stamp) <= now - stamp + lead;
  }

  /** An instance started after the operation cannot leave quarantine while the client relies
      on its reply. */
  lemma QuarantineOutlasts(cfg: Config, lag: int, lead: int, id: LeaseID, start: int, v: nat, inc: nat, restart: int,
    now: int, ttl: int)
    requires WithinMargin(cfg, lag, lead) && start <= restart <= now && ttl <= LONGEST
    requires ClientTime(cfg, id, now) < ClientTime(cfg, id, start) + ttl - MARGIN
    ensures cfg.serverClock(v, inc, now) - cfg.serverClock(v, inc, restart) < QUARANTINE
  {
    GrantOutlasts(cfg, lag, lead, id, start, v, inc, restart, now, ttl);
  }

  /** An instance that started after the operation has not become active yet. */
  lemma NotActivated(cfg: Config, lag: int, lead: int, s: State, id: LeaseID, start: int, ttl: int, v: nat, i: nat)
    requires WithinMargin(cfg, lag, lead) && v < |s.servers| && i < |s.servers[v]| && InstanceOk(cfg, s, v, i)
    requires start <= s.servers[v][i].startedAt && ttl <= LONGEST
    requires ClientTime(cfg, id, s.now) < ClientTime(cfg, id, start) + ttl - MARGIN
    ensures s.servers[v][i].activatedAt.None?
  {
    var inst := s.servers[v][i];
    if inst.activatedAt.Some? {
      assert cfg.serverClock(v, i, inst.activatedAt.value) <= cfg.serverClock(v, i, s.now);
      QuarantineOutlasts(cfg, lag, lead, id, start, v, i, inst.startedAt, s.now, ttl);
      assert false;
    }
  }

  /** What a granting reply guarantees while the client relies on it: the instance that sent
      it stores the lease, and no later instance of that server has become active. */
  lemma GrantHolds(cfg: Config, lag: int, lead: int, s: State, id: LeaseID, v: nat, r: Reply)
    requires WithinMargin(cfg, lag, lead) && Inv(cfg, s) && LocallyValid(cfg, s, id)
    requires Grants(cfg, s, id, s.leases[id].validUntil, v, r)
    ensures v < |s.servers| && r.inc < |s.servers[v]|
    ensures var table := s.servers[v][r.inc].table; var key := s.leases[id].key;
            key in table && table[key].id == id && Promised(cfg, r) <= table[key].deadline
    ensures forall i :: r.inc < i < |s.servers[v]| ==> s.servers[v][i].activatedAt.None?
    ensures s.servers[v][r.inc].activatedAt.Some?
  {
    assert ReplyOk(cfg, s, r);
    var o := s.ops[r.op];
    assert OpOk(cfg, s, r.op);
    assert ClientTime(cfg, id, o.startedAt) <= ClientTime(cfg, id, s.now);
    var ttl := r.ttlMS * MS;
    GrantOutlasts(cfg, lag, lead, id, o.startedAt, v, r.inc, r.stamp, s.now, ttl);
    forall i | r.inc < i < |s.servers[v]| ensures s.servers[v][i].activatedAt.None? {
      LaterStart(cfg, s, v, r.inc + 1, i);
      assert InstanceOk(cfg, s, v, i);
      NotActivated(cfg, lag, lead, s, id, o.startedAt, ttl, v, i);
    }
  }

  lemma {:induction false} LaterStart(cfg: Config, s: State, v: nat, i: nat, j: nat)
    requires Inv(cfg, s) && v < |s.servers| && i <= j < |s.servers[v]|
    ensures s.servers[v][i].startedAt <= s.servers[v][j].startedAt
    decreases j
  {
    if i < j {
      LaterStart(cfg, s, v, i, j - 1);
      assert InstanceOk(cfg, s, v, j - 1);
    }
  }

  /** Instance `i` once became active and stores `id` under `key`, and no later one did. */
  ghost predicate LastHolder(instances: seq<Instance>, i: nat, key: Key, id: LeaseID) {
    && i < |instances| && instances[i].activatedAt.Some?
    && key in instances[i].table && instances[i].table[key].id == id
    && forall j :: i < j < |instances| ==> instances[j].activatedAt.None?
  }

  lemma LastHolderUnique(instances: seq<Instance>, i: nat, j: nat, key: Key, a: LeaseID, b: LeaseID)
    requires LastHolder(instances, i, key, a) && LastHolder(instances, j, key, b)
    ensures a == b
  {
    assert instances[i].activatedAt.Some? && instances[j].activatedAt.Some?;
  }

  lemma GrantedLast(cfg: Config, lag: int, lead: int, s: State, id: LeaseID, v: nat) returns (i: nat)
    requires WithinMargin(cfg, lag, lead) && Inv(cfg, s) && LocallyValid(cfg, s, id)
    requires Backed(cfg, s, id, s.leases[id].validUntil, v)
    ensures v < |s.servers| && LastHolder(s.servers[v], i, s.leases[id].key, id)
  {
    var r :| Grants(cfg, s, id, s.leases[id].validUntil, v, r);
    GrantHolds(cfg, lag, lead, s, id, v, r);
    i := r.inc;
  }

  /** One server never backs two different leases on a key at the same instant. */
  lemma SharedServer(cfg: Config, lag: int, lead: int, s: State, a: LeaseID, b: LeaseID, v: nat)
    requires WithinMargin(cfg, lag, lead) && Inv(cfg, s)
    requires LocallyValid(cfg, s, a) && LocallyValid(cfg, s, b) && s.leases[a].key == s.leases[b].key
    requires Backed(cfg, s, a, s.leases[a].validUntil, v) && Backed(cfg, s, b, s.leases[b].validUntil, v)
    ensures a == b
  {
    var i := GrantedLast(cfg, lag, lead, s, a, v);
    var j := GrantedLast(cfg, lag, lead, s, b, v);
    LastHolderUnique(s.servers[v], i, j, s.leases[a].key, a, b);
  }

  lemma ValidIsBacked(cfg: Config, s: State, id: LeaseID) returns (backers: set<nat>)
    requires Inv(cfg, s) && LocallyValid(cfg, s, id)
    ensures BackedBy(cfg, s, id, s.leases[id].validUntil, backers)
  {
    assert LeaseOk(cfg, s, id);
    backers :| BackedBy(cfg, s, id, s.leases[id].validUntil, backers);
  }

  lemma InvExclusive(cfg: Config, lag: int, lead: int, s: State, a: LeaseID, b: LeaseID)
    requires WithinMargin(cfg, lag, lead) && Inv(cfg, s)
    requires LocallyValid(cfg, s, a) && LocallyValid(cfg, s, b) && s.leases[a].key == s.leases[b].key
    ensures a == b
  {
    var behindA := ValidIsBacked(cfg, s, a);
    var behindB := ValidIsBacked(cfg, s, b);
    var v := QuorumsIntersect(cfg.n, cfg.q, behindA, behindB);
    SharedServer(cfg, lag, lead, s, a, b, v);
  }

  /** Mutual exclusion: in every state of every run, whatever is delayed, lost, reordered or
      repeated, and whichever servers crash and restart, two different leases on one key are
      never both locally valid. */
  lemma MutualExclusion(cfg: Config, lag: int, lead: int, run: seq<State>, k: nat)
    requires WithinMargin(cfg, lag, lead) && IsRun(cfg, run) && k < |run|
    ensures Exclusive(cfg, run[k])
  {
    var s := run[k];
    RunInv(cfg, run, k);
    forall a, b | LocallyValid(cfg, s, a) && LocallyValid(cfg, s, b) && s.leases[a].key == s.leases[b].key
      ensures a == b
    {
      InvExclusive(cfg, lag, lead, s, a, b);
    }
  }

  // ---------- The quorum behind a valid lease ----------

  /** The current instance stores the lease under a deadline that its clock cannot reach as
      long as the client may rely on the lease. */
  ghost predicate Stores(cfg: Config, s: State, id: LeaseID, v: nat)
    requires id in s.leases && HasServer(s, v)
  {
    var inst := Current(s, v);
    var key := s.leases[id].key;
    && inst.phase != Crashed
    && key in inst.table && inst.table[key].id == id
    && forall t :: s.now <= t && ClientTime(cfg, id, t) < s.leases[id].validUntil ==>
         cfg.serverClock(v, Inc(s, v), t) < inst.table[key].deadline
  }

  /** The server is down, or its current instance cannot leave quarantine as long as the
      client may rely on the lease. */
  ghost predicate Barred(cfg: Config, s: State, id: LeaseID, v: nat)
    requires id in s.leases && HasServer(s, v)
  {
    var inst := Current(s, v);
    || inst.phase == Crashed
    || (&& inst.activatedAt.None?
        && forall t :: s.now <= t && ClientTime(cfg, id, t) < s.leases[id].validUntil ==>
             cfg.serverClock(v, Inc(s, v), t) - cfg.serverClock(v, Inc(s, v), inst.startedAt) < QUARANTINE)
  }

  /** The instance that granted the lease is still the current one. */
  lemma GrantStores(cfg: Config, lag: int, lead: int, s: State, id: LeaseID, v: nat, r: Reply)
    requires WithinMargin(cfg, lag, lead) && Inv(cfg, s) && LocallyValid(cfg, s, id)
    requires Grants(cfg, s, id, s.leases[id].validUntil, v, r) && HasServer(s, v) && r.inc == Inc(s, v)
    ensures Stores(cfg, s, id, v) || Barred(cfg, s, id, v)
  {
    GrantHolds(cfg, lag, lead, s, id, v, r);
    assert ReplyOk(cfg, s, r) && OpOk(cfg, s, r.op);
    var start := s.ops[r.op].startedAt;
    forall t | s.now <= t && ClientTime(cfg, id, t) < s.leases[id].validUntil
      ensures cfg.serverClock(v, r.inc, t) < Promised(cfg, r)
    {
      GrantOutlasts(cfg, lag, lead, id, start, v, r.inc, r.stamp, t, r.ttlMS * MS);
    }
  }

  /** The server has restarted since. */
  lemma GrantBars(cfg: Config, lag: int, lead: int, s: State, id: LeaseID, v: nat, r: Reply)
    requires WithinMargin(cfg, lag, lead) && Inv(cfg, s) && LocallyValid(cfg, s, id)
    requires Grants(cfg, s, id, s.leases[id].validUntil, v, r) && HasServer(s, v) && r.inc < Inc(s, v)
    ensures Barred(cfg, s, id, v)
  {
    GrantHolds(cfg, lag, lead, s, id, v, r);
    assert ReplyOk(cfg, s, r) && OpOk(cfg, s, r.op);
    var start, inc, inst := s.ops[r.op].startedAt, Inc(s, v), Current(s, v);
    assert InstanceOk(cfg, s, v, inc);
    LaterStart(cfg, s, v, r.inc + 1, inc);
    forall t | s.now <= t && ClientTime(cfg, id, t) < s.leases[id].validUntil
      ensures cfg.serverClock(v, inc, t) - cfg.serverClock(v, inc, inst.startedAt) < QUARANTINE
    {
      QuarantineOutlasts(cfg, lag, lead, id, start, v, inc, inst.startedAt, t, r.ttlMS * MS);
    }
  }

  lemma GrantBacks(cfg: Config, lag: int, lead: int, s: State, id: LeaseID, v: nat, r: Reply)
    requires WithinMargin(cfg, lag, lead) && Inv(cfg, s) && LocallyValid(cfg, s, id)
    requires Grants(cfg, s, id, s.leases[id].validUntil, v, r)
    ensures HasServer(s, v) && (Stores(cfg, s, id, v) || Barred(cfg, s, id, v))
  {
    assert ReplyOk(cfg, s, r);
    if r.inc == Inc(s, v) {
      GrantStores(cfg, lag, lead, s, id, v, r);
    } else {
      GrantBars(cfg, lag, lead, s, id, v, r);
    }
  }

  /** Quorum backing: behind every locally valid lease stand at least `q` servers that store
      it past its validity or cannot serve anyone before it has passed. */
  lemma QuorumBacking(cfg: Config, lag: int, lead: int, run: seq<State>, k: nat, id: LeaseID)
    returns (backers: set<nat>)
    requires WithinMargin(cfg, lag, lead) && IsRun(cfg, run) && k < |run| && LocallyValid(cfg, run[k], id)
    ensures backers <= Servers(cfg.n) && |backers| >= cfg.q
    ensures forall v :: v in backers ==>
      HasServer(run[k], v) && (Stores(cfg, run[k], id, v) || Barred(cfg, run[k], id, v))
  {
    var s := run[k];
    RunInv(cfg, run, k);
    backers := ValidIsBacked(cfg, s, id);
    forall v | v in backers ensures HasServer(s, v) && (Stores(cfg, s, id, v) || Barred(cfg, s, id, v)) {
      assert Backed(cfg, s, id, s.leases[id].validUntil, v);
      var r :| Grants(cfg, s, id, s.leases[id].validUntil, v, r);
      GrantBacks(cfg, lag, lead, s, id, v, r);
    }
  }

  /** Every clock shows true time. */
  ghost predicate PerfectClocks(cfg: Config) {
    && (forall c, b, t :: cfg.clientClock(c, b, t) == t)
    && (forall v, i, t :: cfg.serverClock(v, i, t) == t)
  }

  /** The server is down, keeps the lease for at least the margin beyond the client's
      validity, or stays in quarantine for longer than the margin beyond it. */
  ghost predicate FullMargin(s: State, id: LeaseID, v: nat)
    requires id in s.leases && HasServer(s, v)
  {
    var inst := Current(s, v);
    var key := s.leases[id].key;
    var until := s.leases[id].validUntil;
    || inst.phase == Crashed
    || (key in inst.table && inst.table[key].id == id && until + MARGIN <= inst.table[key].deadline)
    || (inst.activatedAt.None? && until + MARGIN < inst.startedAt + QUARANTINE)
  }

  /** What a reply is worth, the margin included, is no more than it grants. */
  lemma Worth(start: int, ttlMS: nat, until: int)
    requires start < until <= CandidateValidUntil(start, ttlMS)
    ensures until + MARGIN <= start + ttlMS * MS <= start + LONGEST
  {
  }

  lemma GrantFullMargin(cfg: Config, s: State, id: LeaseID, v: nat, r: Reply)
    requires ValidConfig(cfg) && PerfectClocks(cfg) && Inv(cfg, s) && LocallyValid(cfg, s, id)
    requires Grants(cfg, s, id, s.leases[id].validUntil, v, r)
    ensures HasServer(s, v) && FullMargin(s, id, v)
  {
    GrantHolds(cfg, 0, 0, s, id, v, r);
    assert ReplyOk(cfg, s, r) && OpOk(cfg, s, r.op) && InstanceOk(cfg, s, v, Inc(s, v));
    Worth(s.ops[r.op].startedAt, r.ttlMS, s.leases[id].validUntil);
    if r.inc < Inc(s, v) {
      LaterStart(cfg, s, v, r.inc + 1, Inc(s, v));
    }
  }

  /** With perfect clocks the whole margin is left over at every backing server. */
  lemma PerfectQuorumBacking(cfg: Config, run: seq<State>, k: nat, id: LeaseID) returns (backers: set<nat>)
    requires ValidConfig(cfg) && PerfectClocks(cfg) && IsRun(cfg, run) && k < |run| && LocallyValid(cfg, run[k], id)
    ensures backers <= Servers(cfg.n) && |backers| >= cfg.q
    ensures forall v :: v in backers ==> HasServer(run[k], v) && FullMargin(run[k], id, v)
  {
    var s := run[k];
    RunInv(cfg, run, k);
    backers := ValidIsBacked(cfg, s, id);
    forall v | v in backers ensures HasServer(s, v) && FullMargin(s, id, v) {
      assert Backed(cfg, s, id, s.leases[id].validUntil, v);
      var r :| Grants(cfg, s, id, s.leases[id].validUntil, v, r);
      GrantFullMargin(cfg, s, id, v, r);
    }
  }
}
