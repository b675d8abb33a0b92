/** What the protocol achieves when nothing stands in its way: from any state, an Acquire, a
    Renew, a healing Acquire or a Release that reaches willing servers runs to completion and
    leaves exactly the leases it promises, on the servers and with the client, for every TTL. */
module Paths {
  import opened Types
  import opened LeaseTable
  import opened Quorum
  import opened Protocol

  /** A path of steps from one state. */
  ghost predicate IsPath(cfg: Config, path: seq<State>) {
    path != [] && forall i :: 0 <= i < |path| - 1 ==> Next(cfg, path[i], path[i + 1])
  }

  lemma JoinPaths(cfg: Config, p: seq<State>, q: seq<State>)
    requires IsPath(cfg, p) && IsPath(cfg, q) && p[|p| - 1] == q[0]
    ensures IsPath(cfg, p + q[1..])
    ensures (p + q[1..])[0] == p[0] && (p + q[1..])[|p + q[1..]| - 1] == q[|q| - 1]
  {
    var r := p + q[1..];
    forall i | 0 <= i < |r| - 1 ensures Next(cfg, r[i], r[i + 1]) {
      if i < |p| - 1 {
        assert r[i] == p[i] && r[i + 1] == p[i + 1];
      } else {
        var j := i - (|p| - 1);
        assert r[i] == q[j] && r[i + 1] == q[j + 1];
      }
    }
  }

  lemma OneStep(cfg: Config, s: State, step: Step, s': State)
    requires StepTo(cfg, s, step, s')
    ensures IsPath(cfg, [s, s'])
  {
  }

  // ---------- One server ----------

  /** One fan-out: what every server is asked. */
  datatype Fan = Fan(op: nat, kind: Kind, id: LeaseID, key: Key, ttlMS: nat)

  /** The first instance of server `v` is active and idle. */
  ghost predicate Ready(s: State, v: nat) {
    && v < |s.servers| && |s.servers[v]| == 1
    && s.servers[v][0].phase == Active && s.servers[v][0].admitted == multiset{} && s.servers[v][0].busy == {}
  }

  /** Server `v` will do as it is asked: it holds nothing of the key when it is to be acquired,
      the lease itself, due no later than asked for, when it is to be renewed, and nothing but
      the lease when it is to be released. */
  ghost predicate Willing(cfg: Config, s: State, v: nat, f: Fan) {
    && Ready(s, v)
    && var t, reading := s.servers[v][0].table, cfg.serverClock(v, 0, s.now);
    match f.kind
    case Acquire => 1 <= f.ttlMS <= cfg.maxTTL(v, 0) && !Live(t, f.key, reading)
    case Renew =>
      && 1 <= f.ttlMS <= cfg.maxTTL(v, 0)
      && Live(t, f.key, reading) && t[f.key].id == f.id && t[f.key].deadline <= reading + f.ttlMS * MS
    case Release => f.key in t ==> t[f.key].id == f.id
  }

  /** The table afterwards: the lease for the whole TTL asked for, or no lease. */
  function Granted(cfg: Config, t: Table, v: nat, f: Fan, now: int): Table {
    if f.kind == Release then t - {f.key}
    else t[f.key := Entry(f.id, cfg.serverClock(v, 0, now) + f.ttlMS * MS)]
  }

  function Answer(v: nat, f: Fan, now: int): Reply {
    Reply(v, f.op, f.kind, OK, if f.kind == Release then 0 else f.ttlMS, 0, now)
  }

  /** Server `v` has done what it was asked and replied, all at once. */
  function Served(cfg: Config, s: State, f: Fan, v: nat): State
    requires v < |s.servers| && |s.servers[v]| == 1
  {
    var inst := s.servers[v][0];
    s.(requests := s.requests + {Request(v, f.op, f.kind, f.key, f.id, f.ttlMS)},
       servers := s.servers[v := [inst.(table := Granted(cfg, inst.table, v, f, s.now))]],
       replies := s.replies + {Answer(v, f, s.now)})
  }

  /** The operation is on its way. */
  ghost predicate Fanned(s: State, f: Fan) {
    && f.op in s.ops && s.ops[f.op].id == f.id && s.ops[f.op].kind == f.kind && s.ops[f.op].ttlMS == f.ttlMS
    && f.id in s.leases && s.leases[f.id].key == f.key
  }

  lemma WholeTTL(reading: int, ttlMS: nat, maxTTL: nat)
    requires 1 <= ttlMS <= maxTTL
    ensures RemainingTTLMS(reading + ttlMS * MS, reading, maxTTL) == ttlMS
  {
    assert reading + ttlMS * MS - reading == ttlMS * MS;
  }

  lemma GrantedEffect(cfg: Config, s: State, v: nat, f: Fan)
    requires Willing(cfg, s, v, f)
    ensures var inst, work := s.servers[v][0], Work(Request(v, f.op, f.kind, f.key, f.id, f.ttlMS), s.now, false);
      Effect(inst.table, work, cfg.maxTTL(v, 0), cfg.serverClock(v, 0, s.now), true) ==
      (Granted(cfg, inst.table, v, f, s.now), Some((OK, Answer(v, f, s.now).ttlMS)))
  {
    var t := s.servers[v][0].table;
    if f.kind != Release {
      WholeTTL(cfg.serverClock(v, 0, s.now), f.ttlMS, cfg.maxTTL(v, 0));
    } else if f.key !in t {
      assert t - {f.key} == t;
    }
  }

  /** Server `v` has begun the operation. */
  function Begun(s: State, f: Fan, v: nat, attempted: bool): State
    requires v < |s.servers| && |s.servers[v]| == 1
  {
    var req := Request(v, f.op, f.kind, f.key, f.id, f.ttlMS);
    s.(requests := s.requests + {req},
       servers := s.servers[v := [s.servers[v][0].(busy := {Work(req, s.now, attempted)})]])
  }

  lemma BeginPath(cfg: Config, s: State, f: Fan, v: nat) returns (path: seq<State>)
    requires v < cfg.n && Willing(cfg, s, v, f) && Fanned(s, f)
    ensures IsPath(cfg, path) && path[0] == s && path[|path| - 1] == Begun(s, f, v, false)
  {
    var req := Request(v, f.op, f.kind, f.key, f.id, f.ttlMS);
    var sent := ClientStep(cfg, s, Send(f.op, v));
    var admitted := ServerStep(cfg, sent, Admit(v, req));
    var begun := ServerStep(cfg, admitted, Begin(v, req));
    var inst, work := s.servers[v][0], Work(req, s.now, false);
    assert inst.admitted + multiset{req} - multiset{req} == inst.admitted && inst.busy + {work} == {work};
    assert s.servers[v][0 := inst.(busy := {work})] == [inst.(busy := {work})];
    assert begun.servers[v] == [inst.(busy := {work})];
    assert begun.servers == s.servers[v := [inst.(busy := {work})]];
    assert StepTo(cfg, s, Send(f.op, v), sent);
    assert StepTo(cfg, sent, Admit(v, req), admitted);
    assert StepTo(cfg, admitted, Begin(v, req), begun);
    path := [s, sent, admitted, begun];
  }

  lemma ServePath(cfg: Config, s: State, f: Fan, v: nat) returns (path: seq<State>)
    requires v < cfg.n && Willing(cfg, s, v, f) && Fanned(s, f)
    ensures IsPath(cfg, path) && path[0] == s && path[|path| - 1] == Served(cfg, s, f, v)
  {
    path := BeginPath(cfg, s, f, v);
    var begun, inst := path[|path| - 1], s.servers[v][0];
    GrantedEffect(cfg, s, v, f);
    ExecuteOne(cfg, begun, f, v, inst);
    var done := inst.(table := Granted(cfg, inst.table, v, f, s.now));
    assert begun.servers[v := [done]] == s.servers[v := [done]];
    JoinPaths(cfg, path, [begun, Served(cfg, s, f, v)]);
    path := path + [begun, Served(cfg, s, f, v)][1..];
  }

  lemma ExecuteOne(cfg: Config, s: State, f: Fan, v: nat, inst: Instance)
    requires v < |s.servers| && inst.busy == {}
    requires var work := Work(Request(v, f.op, f.kind, f.key, f.id, f.ttlMS), s.now, false);
      && s.servers[v] == [inst.(busy := {work})]
      && Effect(inst.table, work, cfg.maxTTL(v, 0), cfg.serverClock(v, 0, s.now), true) ==
         (Granted(cfg, inst.table, v, f, s.now), Some((OK, Answer(v, f, s.now).ttlMS)))
    ensures Next(cfg, s, s.(servers := s.servers[v := [inst.(table := Granted(cfg, inst.table, v, f, s.now))]],
                            replies := s.replies + {Answer(v, f, s.now)}))
  {
    var work := Work(Request(v, f.op, f.kind, f.key, f.id, f.ttlMS), s.now, false);
    var done := inst.(table := Granted(cfg, inst.table, v, f, s.now));
    assert {work} - {work} == {};
    assert s.servers[v][0 := done] == [done];
    var s' := s.(servers := s.servers[v := [done]], replies := s.replies + {Answer(v, f, s.now)});
    assert StepTo(cfg, s, Execute(v, work, true), s');
  }

  // ---------- Acquire and Renew on a quorum ----------

  /** A quorum of servers, in the order in which they answer. */
  ghost predicate IsOrder(cfg: Config, order: seq<nat>) {
    && |order| == cfg.q >= 1 && (forall i :: 0 <= i < |order| ==> order[i] < cfg.n)
    && forall i, j :: 0 <= i < j < |order| ==> order[i] != order[j]
  }

  /** How long the client may rely on a full grant. */
  function Until(cfg: Config, f: Fan, now: int): int {
    ClientTime(cfg, f.id, now) + f.ttlMS * MS - SAFETY_MARGIN_MS * MS
  }

  /** The operation once some servers have granted everything. */
  function Gathered(cfg: Config, f: Fan, now: int, granted: seq<nat>): Operation {
    Operation(f.id, f.kind, f.ttlMS, now,
              seq(cfg.n, i => if i in granted then Until(cfg, f, now) else 0), seq(cfg.n, i => i in granted))
  }

  /** A TTL that leaves something once the margin is taken off. */
  predicate Usable(f: Fan) {
    f.kind != Release && SAFETY_MARGIN_MS < f.ttlMS <= PROTOCOL_MAX_TTL_MS
  }

  lemma NotedOne(cfg: Config, f: Fan, now: int, granted: seq<nat>, v: nat)
    requires v < cfg.n && Usable(f)
    ensures NoteReply(cfg, Gathered(cfg, f, now, granted), Answer(v, f, now)) == Gathered(cfg, f, now, granted + [v])
  {
    var o := NoteReply(cfg, Gathered(cfg, f, now, granted), Answer(v, f, now));
    var o' := Gathered(cfg, f, now, granted + [v]);
    assert CandidateValidUntil(ClientTime(cfg, f.id, now), f.ttlMS) == Until(cfg, f, now);
    assert forall i :: 0 <= i < cfg.n ==> o.candidates[i] == o'.candidates[i] && o.successful[i] == o'.successful[i];
    assert o.candidates == o'.candidates && o.successful == o'.successful;
  }

  function Members(order: seq<nat>): set<nat> {
    set v | v in order
  }

  lemma {:induction false} OrderSize(order: seq<nat>)
    requires forall i, j :: 0 <= i < j < |order| ==> order[i] != order[j]
    ensures |Members(order)| == |order|
  {
    if order == [] {
      assert Members(order) == {};
    } else {
      var last := |order| - 1;
      OrderSize(order[..last]);
      assert Members(order) == Members(order[..last]) + {order[last]};
    }
  }

  /** Fewer than a quorum of grants make no quorum, a quorum of them a full one. */
  lemma GatheredBest(cfg: Config, f: Fan, now: int, order: seq<nat>, v: nat)
    requires IsOrder(cfg, order) && v <= cfg.q
    ensures var o := Gathered(cfg, f, now, order[..v]);
      IsBestQuorum(o.candidates, o.successful, cfg.q, if v < cfg.q then None else Some(Until(cfg, f, now)))
  {
    var o, until, granted := Gathered(cfg, f, now, order[..v]), Until(cfg, f, now), Members(order[..v]);
    OrderSize(order[..v]);
    if v < cfg.q {
      forall members ensures !IsQuorum(o.successful, cfg.q, members) {
        if IsQuorum(o.successful, cfg.q, members) {
          SubsetSize(members, granted);
          assert false;
        }
      }
    } else {
      SubsetSize(granted, Reaching(o.candidates, o.successful, until));
      assert Reaching(o.candidates, o.successful, until + 1) == {};
      BestFromCounts(o.candidates, o.successful, cfg.q, until);
    }
  }

  /** The key is stored for the lease on server `v`, for the whole TTL from now. */
  ghost predicate Stored(cfg: Config, s: State, v: nat, f: Fan) {
    && Ready(s, v) && f.key in s.servers[v][0].table
    && s.servers[v][0].table[f.key] == Entry(f.id, cfg.serverClock(v, 0, s.now) + f.ttlMS * MS)
  }

  /** The lease as the client sees it once its quorum is complete: an Acquire adopts the new
      validity and a Renew never shortens the old one. */
  function Held(cfg: Config, f: Fan, lease: Lease, now: int): Lease {
    var until := Until(cfg, f, now);
    Lease(f.key, Holding, if f.kind == Renew then Max(lease.validUntil, until) else until, None)
  }

  /** The first `v` servers of the order have granted the lease, the others will. */
  ghost predicate Collected(cfg: Config, s: State, f: Fan, lease: Lease, order: seq<nat>, v: nat) {
    && |s.servers| == cfg.n && IsOrder(cfg, order) && v <= cfg.q
    && f.op in s.ops && s.ops[f.op] == Gathered(cfg, f, s.now, order[..v])
    && f.id in s.leases && s.leases[f.id] == lease && lease.key == f.key && lease.collecting == Some(f.op)
    && (forall i: nat :: i < v ==> Stored(cfg, s, order[i], f))
    && (forall i: nat :: v <= i < cfg.q ==> Willing(cfg, s, order[i], f))
  }

  /** The next server grants the lease and the client hears of it. */
  lemma GatherOne(cfg: Config, s: State, f: Fan, lease: Lease, order: seq<nat>, v: nat) returns (path: seq<State>)
    requires v < cfg.q && Usable(f) && Collected(cfg, s, f, lease, order, v) && Willing(cfg, s, order[v], f)
    ensures IsPath(cfg, path) && path[0] == s
    ensures var e := path[|path| - 1];
      && e.now == s.now && e.servers == Served(cfg, s, f, order[v]).servers
      && e.ops == s.ops[f.op := Gathered(cfg, f, s.now, order[..v + 1])]
      && e.leases == if v + 1 < cfg.q then s.leases else s.leases[f.id := Held(cfg, f, lease, s.now)]
  {
    var server := order[v];
    var served := Served(cfg, s, f, server);
    var serving := ServePath(cfg, s, f, server);
    NotedOne(cfg, f, s.now, order[..v], server);
    assert order[..v] + [server] == order[..v + 1];
    GatheredBest(cfg, f, s.now, order, v + 1);
    var best := if v + 1 < cfg.q then None else Some(Until(cfg, f, s.now));
    var step := Receive(f.id, Answer(server, f, s.now), s.now, best);
    assert ClientEnabled(cfg, served, step);
    var heard := ClientStep(cfg, served, step);
    OneStep(cfg, served, step, heard);
    JoinPaths(cfg, serving, [served, heard]);
    path := serving + [served, heard][1..];
  }

  /** Serving one server of the order leaves the others as they are. */
  lemma ServedOthers(cfg: Config, s: State, e: State, f: Fan, order: seq<nat>, v: nat, i: nat)
    requires IsOrder(cfg, order) && v < cfg.q && i < cfg.q && f.kind != Release && Willing(cfg, s, order[v], f)
    requires e.now == s.now && e.servers == Served(cfg, s, f, order[v]).servers
    ensures Stored(cfg, e, order[v], f)
    ensures i != v && Stored(cfg, s, order[i], f) ==> Stored(cfg, e, order[i], f)
    ensures i != v && Willing(cfg, s, order[i], f) ==> Willing(cfg, e, order[i], f)
  {
    assert i != v ==> order[i] != order[v];
  }

  lemma StillCollected(cfg: Config, s: State, e: State, f: Fan, lease: Lease, order: seq<nat>, v: nat)
    requires v < cfg.q && Usable(f) && Collected(cfg, s, f, lease, order, v) && Willing(cfg, s, order[v], f)
    requires e.now == s.now && e.servers == Served(cfg, s, f, order[v]).servers
    ensures forall i: nat :: i < v + 1 ==> Stored(cfg, e, order[i], f)
    ensures forall i: nat :: v + 1 <= i < cfg.q ==> Willing(cfg, e, order[i], f)
  {
    forall i: nat | i < v + 1 ensures Stored(cfg, e, order[i], f) {
      assert i < v ==> Stored(cfg, s, order[i], f);
      ServedOthers(cfg, s, e, f, order, v, i);
    }
    forall i: nat | v + 1 <= i < cfg.q ensures Willing(cfg, e, order[i], f) {
      assert Willing(cfg, s, order[i], f);
      ServedOthers(cfg, s, e, f, order, v, i);
    }
  }

  /** One server after the other, until the quorum is complete. */
  lemma {:induction false} GatherPath(cfg: Config, s: State, f: Fan, lease: Lease, order: seq<nat>, v: nat)
    returns (path: seq<State>)
    requires v < cfg.q && Usable(f) && Collected(cfg, s, f, lease, order, v)
    ensures IsPath(cfg, path) && path[0] == s
    ensures var e := path[|path| - 1];
      && e.now == s.now && |e.servers| == cfg.n && e.ops.Keys == s.ops.Keys
      && e.leases == s.leases[f.id := Held(cfg, f, lease, s.now)]
      && forall i: nat :: i < cfg.q ==> Stored(cfg, e, order[i], f)
    decreases cfg.q - v
  {
    assert Willing(cfg, s, order[v], f);
    path := GatherOne(cfg, s, f, lease, order, v);
    var e := path[|path| - 1];
    StillCollected(cfg, s, e, f, lease, order, v);
    if v + 1 < cfg.q {
      var rest := GatherPath(cfg, e, f, lease, order, v + 1);
      JoinPaths(cfg, path, rest);
      path := path + rest[1..];
    }
  }

  /** Every server of the order will do as it is asked. */
  ghost predicate AllWilling(cfg: Config, s: State, order: seq<nat>, f: Fan) {
    forall i :: 0 <= i < |order| ==> Willing(cfg, s, order[i], f)
  }

  /** A fan-out that has just started and a willing quorum. */
  lemma GatherAll(cfg: Config, s: State, started: State, step: Step, f: Fan, lease: Lease, order: seq<nat>)
    returns (path: seq<State>)
    requires IsOrder(cfg, order) && cfg.n == |s.servers| && Usable(f) && StepTo(cfg, s, step, started)
    requires started.now == s.now && started.servers == s.servers
    requires f.id in started.leases && started.leases[f.id] == lease
    requires lease.key == f.key && lease.collecting == Some(f.op)
    requires f.op in started.ops && started.ops[f.op] == NewOperation(cfg, s, f.id, f.kind, f.ttlMS)
    requires AllWilling(cfg, s, order, f)
    ensures IsPath(cfg, path) && path[0] == s
    ensures var e := path[|path| - 1];
      && e.now == s.now && |e.servers| == cfg.n && e.ops.Keys == started.ops.Keys
      && e.leases == started.leases[f.id := Held(cfg, f, lease, s.now)]
      && forall i: nat :: i < cfg.q ==> Stored(cfg, e, order[i], f)
  {
    OneStep(cfg, s, step, started);
    var o := NewOperation(cfg, s, f.id, f.kind, f.ttlMS);
    assert o.candidates == Gathered(cfg, f, s.now, order[..0]).candidates
      && o.successful == Gathered(cfg, f, s.now, order[..0]).successful;
    forall i: nat | i < cfg.q ensures Willing(cfg, started, order[i], f) {
      assert Willing(cfg, s, order[i], f);
    }
    var rest := GatherPath(cfg, started, f, lease, order, 0);
    JoinPaths(cfg, [s, started], rest);
    path := [s, started] + rest[1..];
  }

  /** A whole Acquire against any willing quorum: the client holds the lease until the TTL it
      asked for has passed since the start, less the margin. */
  lemma AcquirePath(cfg: Config, s: State, id: LeaseID, key: Key, ttlMS: nat, op: nat, order: seq<nat>)
    returns (path: seq<State>)
    requires IsOrder(cfg, order) && cfg.n == |s.servers| && id !in s.leases && op !in s.ops
    requires SAFETY_MARGIN_MS < ttlMS <= PROTOCOL_MAX_TTL_MS
    requires AllWilling(cfg, s, order, Fan(op, Acquire, id, key, ttlMS))
    ensures IsPath(cfg, path) && path[0] == s
    ensures var e := path[|path| - 1];
      && e.now == s.now && |e.servers| == cfg.n && e.ops.Keys == s.ops.Keys + {op}
      && e.leases == s.leases[id :=
           Lease(key, Holding, ClientTime(cfg, id, s.now) + ttlMS * MS - SAFETY_MARGIN_MS * MS, None)]
      && forall i: nat :: i < cfg.q ==> Stored(cfg, e, order[i], Fan(op, Acquire, id, key, ttlMS))
  {
    var step := StartAcquire(id, key, ttlMS, op);
    var started := ClientStep(cfg, s, step);
    path := GatherAll(cfg, s, started, step, Fan(op, Acquire, id, key, ttlMS), started.leases[id], order);
  }

  /** A whole Renew against any quorum that stores the lease, due no later than asked for: the
      client holds it until the TTL has passed since the start, less the margin, or until it
      held it before, whichever is later. */
  lemma RenewPath(cfg: Config, s: State, id: LeaseID, ttlMS: nat, op: nat, order: seq<nat>) returns (path: seq<State>)
    requires IsOrder(cfg, order) && cfg.n == |s.servers| && op !in s.ops
    requires id in s.leases && s.leases[id].lifecycle == Holding && s.leases[id].collecting == None
    requires SAFETY_MARGIN_MS < ttlMS <= PROTOCOL_MAX_TTL_MS
    requires AllWilling(cfg, s, order, Fan(op, Renew, id, s.leases[id].key, ttlMS))
    ensures IsPath(cfg, path) && path[0] == s
    ensures var e, until := path[|path| - 1], ClientTime(cfg, id, s.now) + ttlMS * MS - SAFETY_MARGIN_MS * MS;
      && e.now == s.now && |e.servers| == cfg.n && e.ops.Keys == s.ops.Keys + {op}
      && e.leases == s.leases[id := s.leases[id].(validUntil := Max(s.leases[id].validUntil, until))]
      && forall i: nat :: i < cfg.q ==> Stored(cfg, e, order[i], Fan(op, Renew, id, s.leases[id].key, ttlMS))
  {
    var step := StartRenew(id, ttlMS, op);
    var started := ClientStep(cfg, s, step);
    path := GatherAll(cfg, s, started, step, Fan(op, Renew, id, s.leases[id].key, ttlMS), started.leases[id], order);
  }

  // ---------- Healing and Release ----------

  /** A held lease is brought back to a server that lost it, and nothing else changes. */
  lemma HealPath(cfg: Config, s: State, id: LeaseID, ttlMS: nat, op: nat, v: nat) returns (path: seq<State>)
    requires v < cfg.n && LocallyValid(cfg, s, id) && op !in s.ops
    requires Willing(cfg, s, v, Fan(op, Acquire, id, s.leases[id].key, ttlMS))
    ensures IsPath(cfg, path) && path[0] == s
    ensures var e := path[|path| - 1];
      && e.now == s.now && e.leases == s.leases && |e.servers| == |s.servers|
      && (forall u :: 0 <= u < |s.servers| && u != v ==> e.servers[u] == s.servers[u])
      && Stored(cfg, e, v, Fan(op, Acquire, id, s.leases[id].key, ttlMS))
  {
    var f := Fan(op, Acquire, id, s.leases[id].key, ttlMS);
    var step := StartHealing(id, ttlMS, op);
    var started := ClientStep(cfg, s, step);
    OneStep(cfg, s, step, started);
    assert Willing(cfg, started, v, f);
    var rest := ServePath(cfg, started, f, v);
    JoinPaths(cfg, [s, started], rest);
    path := [s, started] + rest[1..];
  }

  /** Nothing of the key is left on server `v`. */
  ghost predicate Freed(s: State, v: nat, key: Key) {
    Ready(s, v) && key !in s.servers[v][0].table
  }

  /** The Release reaches one server after the other. */
  lemma {:induction false} FreePath(cfg: Config, s: State, f: Fan, v: nat) returns (path: seq<State>)
    requires v <= cfg.n == |s.servers| && f.kind == Release && Fanned(s, f)
    requires forall u: nat :: u < v ==> Freed(s, u, f.key)
    requires forall u: nat :: v <= u < cfg.n ==> Willing(cfg, s, u, f)
    ensures IsPath(cfg, path) && path[0] == s
    ensures var e := path[|path| - 1];
      && e.now == s.now && e.leases == s.leases && |e.servers| == cfg.n
      && forall u: nat :: u < cfg.n ==> Freed(e, u, f.key)
    decreases cfg.n - v
  {
    path := [s];
    if v < cfg.n {
      var first := ServePath(cfg, s, f, v);
      var served := Served(cfg, s, f, v);
      forall u: nat | u < v + 1 ensures Freed(served, u, f.key) {
        assert u < v ==> Freed(s, u, f.key);
        assert Willing(cfg, s, v, f);
      }
      forall u: nat | v + 1 <= u < cfg.n ensures Willing(cfg, served, u, f) {
        assert Willing(cfg, s, u, f);
      }
      var rest := FreePath(cfg, served, f, v + 1);
      JoinPaths(cfg, first, rest);
      path := first + rest[1..];
    }
  }

  /** A whole Release: the client gives the lease up at once and no server keeps it. */
  lemma ReleasePath(cfg: Config, s: State, id: LeaseID, op: nat) returns (path: seq<State>)
    requires cfg.n == |s.servers| && op !in s.ops
    requires id in s.leases && s.leases[id].lifecycle == Holding && s.leases[id].collecting == None
    requires forall u: nat :: u < cfg.n ==> Willing(cfg, s, u, Fan(op, Release, id, s.leases[id].key, 0))
    ensures IsPath(cfg, path) && path[0] == s
    ensures var e := path[|path| - 1];
      && e.now == s.now && !LocallyValid(cfg, e, id) && e.leases.Keys == s.leases.Keys
      && (forall other :: other in s.leases && other != id ==> e.leases[other] == s.leases[other])
      && forall u: nat :: u < cfg.n ==> Freed(e, u, s.leases[id].key)
  {
    path := FreeAfter(cfg, s, StartRelease(id, op), id, op);
  }

  /** A Renew that gives up leaves the lease as it was before. */
  lemma AbandonedRenew(cfg: Config, s: State, id: LeaseID, ttlMS: nat, op: nat, other: nat) returns (path: seq<State>)
    requires op !in s.ops && other !in s.ops && op != other
    requires id in s.leases && s.leases[id].lifecycle == Holding && s.leases[id].collecting == None
    ensures IsPath(cfg, path) && path[0] == s
    ensures var e := path[|path| - 1]; e.now == s.now && e.leases == s.leases && e.servers == s.servers
  {
    var started := ClientStep(cfg, s, StartRenew(id, ttlMS, op));
    var ended := ClientStep(cfg, started, GiveUp(id, other));
    assert StepTo(cfg, s, StartRenew(id, ttlMS, op), started) && StepTo(cfg, started, GiveUp(id, other), ended);
    path := [s, started, ended];
    assert ended.leases == s.leases;
  }

  /** An Acquire that gives up does the same with whatever it may have obtained. */
  lemma GiveUpPath(cfg: Config, s: State, id: LeaseID, op: nat) returns (path: seq<State>)
    requires cfg.n == |s.servers| && op !in s.ops
    requires id in s.leases && s.leases[id].lifecycle == Acquiring && s.leases[id].collecting.Some?
    requires forall u: nat :: u < cfg.n ==> Willing(cfg, s, u, Fan(op, Release, id, s.leases[id].key, 0))
    ensures IsPath(cfg, path) && path[0] == s
    ensures var e := path[|path| - 1];
      && e.now == s.now && !LocallyValid(cfg, e, id) && e.leases.Keys == s.leases.Keys
      && e.leases[id].collecting == None
      && (forall other :: other in s.leases && other != id ==> e.leases[other] == s.leases[other])
      && forall u: nat :: u < cfg.n ==> Freed(e, u, s.leases[id].key)
  {
    path := FreeAfter(cfg, s, GiveUp(id, op), id, op);
  }

  lemma FreeAfter(cfg: Config, s: State, step: Step, id: LeaseID, op: nat) returns (path: seq<State>)
    requires cfg.n == |s.servers| && ClientEnabled(cfg, s, step)
    requires step == StartRelease(id, op) || (step == GiveUp(id, op) && s.leases[id].lifecycle == Acquiring)
    requires forall u: nat :: u < cfg.n ==> Willing(cfg, s, u, Fan(op, Release, id, s.leases[id].key, 0))
    ensures IsPath(cfg, path) && path[0] == s
    ensures var e := path[|path| - 1];
      && e.now == s.now && e.leases == ClientStep(cfg, s, step).leases
      && forall u: nat :: u < cfg.n ==> Freed(e, u, s.leases[id].key)
  {
    var f := Fan(op, Release, id, s.leases[id].key, 0);
    var started := ClientStep(cfg, s, step);
    OneStep(cfg, s, step, started);
    forall u: nat | u < cfg.n ensures Willing(cfg, started, u, f) {
      assert Willing(cfg, s, u, f);
    }
    var rest := FreePath(cfg, started, f, 0);
    JoinPaths(cfg, [s, started], rest);
    path := [s, started] + rest[1..];
  }

  // ---------- A server that refuses ----------

  /** A server in quarantine answers that it is not ready, and does nothing. */
  lemma RejectPath(cfg: Config, s: State, f: Fan, v: nat) returns (path: seq<State>)
    requires v < cfg.n && HasServer(s, v) && Current(s, v).phase == Quarantine && Fanned(s, f)
    ensures IsPath(cfg, path) && path[0] == s
    ensures path[|path| - 1] == s.(requests := s.requests + {Request(v, f.op, f.kind, f.key, f.id, f.ttlMS)},
                                   replies := s.replies + {Reply(v, f.op, f.kind, NotReady, 0, Inc(s, v), s.now)})
  {
    var req := Request(v, f.op, f.kind, f.key, f.id, f.ttlMS);
    var sent := ClientStep(cfg, s, Send(f.op, v));
    var rejected := ServerStep(cfg, sent, Reject(v, req));
    assert StepTo(cfg, s, Send(f.op, v), sent) && StepTo(cfg, sent, Reject(v, req), rejected);
    path := [s, sent, rejected];
  }

  /** A server at its key limit cleans up and tries once more: it then grants the lease if that
      has made room, and otherwise says that the limit is reached and stores nothing. */
  lemma LimitPath(cfg: Config, s: State, f: Fan, v: nat, room: bool) returns (path: seq<State>)
    requires v < cfg.n && Willing(cfg, s, v, f) && Fanned(s, f) && f.kind == Acquire
    ensures IsPath(cfg, path) && path[0] == s
    ensures var inst := s.servers[v][0];
      var table := if room then Granted(cfg, inst.table, v, f, s.now) else inst.table - {f.key};
      var reply := if room then Answer(v, f, s.now) else Reply(v, f.op, Acquire, KeyLimitReached, 0, 0, s.now);
      path[|path| - 1] == s.(requests := s.requests + {Request(v, f.op, f.kind, f.key, f.id, f.ttlMS)},
                             servers := s.servers[v := [inst.(table := table)]], replies := s.replies + {reply})
  {
    path := BeginPath(cfg, s, f, v);
    var begun := path[|path| - 1];
    var retry := RetryOne(cfg, begun, s, f, v);
    var last := LastOne(cfg, retry, s, f, v, room);
    OneStep(cfg, begun, Execute(v, FirstWork(s, f, v), false), retry);
    JoinPaths(cfg, path, [begun, retry]);
    path := path + [begun, retry][1..];
    OneStep(cfg, retry, Execute(v, FirstWork(s, f, v).(cleanupAttempted := true), room), last);
    JoinPaths(cfg, path, [retry, last]);
    path := path + [retry, last][1..];
  }

  function FirstWork(s: State, f: Fan, v: nat): Work {
    Work(Request(v, f.op, f.kind, f.key, f.id, f.ttlMS), s.now, false)
  }

  /** The servers once `v` has dropped what it stored under the key and is to clean up. */
  function Retrying(s: State, f: Fan, v: nat): seq<seq<Instance>>
    requires v < |s.servers| && |s.servers[v]| == 1
  {
    var inst := s.servers[v][0];
    s.servers[v := [inst.(table := inst.table - {f.key}, busy := {FirstWork(s, f, v).(cleanupAttempted := true)})]]
  }

  lemma RetryOne(cfg: Config, begun: State, s: State, f: Fan, v: nat) returns (retry: State)
    requires Willing(cfg, s, v, f) && f.kind == Acquire && begun == Begun(s, f, v, false)
    ensures StepTo(cfg, begun, Execute(v, FirstWork(s, f, v), false), retry)
    ensures retry == begun.(servers := Retrying(s, f, v))
  {
    var w := FirstWork(s, f, v);
    retry := ServerStep(cfg, begun, Execute(v, w, false));
    assert {w} - {w} + {w.(cleanupAttempted := true)} == {w.(cleanupAttempted := true)};
    var inst := s.servers[v][0].(table := s.servers[v][0].table - {f.key}, busy := {w.(cleanupAttempted := true)});
    assert begun.servers[v][0 := inst] == [inst];
  }

  lemma LastOne(cfg: Config, retry: State, s: State, f: Fan, v: nat, room: bool) returns (last: State)
    requires Willing(cfg, s, v, f) && f.kind == Acquire
    requires retry.servers == Retrying(s, f, v) && retry.now == s.now
    ensures StepTo(cfg, retry, Execute(v, FirstWork(s, f, v).(cleanupAttempted := true), room), last)
    ensures var inst := s.servers[v][0];
      var table := if room then Granted(cfg, inst.table, v, f, s.now) else inst.table - {f.key};
      var reply := if room then Answer(v, f, s.now) else Reply(v, f.op, Acquire, KeyLimitReached, 0, 0, s.now);
      last == retry.(servers := s.servers[v := [inst.(table := table)]], replies := retry.replies + {reply})
  {
    var w, inst := FirstWork(s, f, v).(cleanupAttempted := true), s.servers[v][0];
    PutBack(inst.table, f.key, Entry(f.id, cfg.serverClock(v, 0, s.now) + f.ttlMS * MS));
    assert inst.table - {f.key} - {f.key} == inst.table - {f.key};
    last := ServerStep(cfg, retry, Execute(v, w, room));
    assert {w} - {w} == {};
    var table := if room then Granted(cfg, inst.table, v, f, s.now) else inst.table - {f.key};
    assert retry.servers[v][0 := inst.(table := table)] == [inst.(table := table)];
  }

  /** A server that fails stops admitting requests and keeps what it stores. */
  lemma FailStops(cfg: Config, s: State, v: nat, req: Request)
    requires HasServer(s, v) && ServerEnabled(cfg, s, Fail(v))
    ensures var e := ServerStep(cfg, s, Fail(v));
      && HasServer(e, v) && Current(e, v) == Current(s, v).(phase := Failed)
      && !ServerEnabled(cfg, e, Admit(v, req)) && !ServerEnabled(cfg, e, Activate(v))
  {
    var e := ServerStep(cfg, s, Fail(v));
    assert Current(e, v).phase == Failed;
  }

  // ---------- A server that starts again ----------

  /** A server that crashes comes back empty, is in quarantine until its own clock has seen the
      whole of it, and is then active. */
  lemma RestartPath(cfg: Config, s: State, v: nat, later: int) returns (path: seq<State>)
    requires HasServer(s, v) && Current(s, v).phase != Crashed && s.now <= later
    requires var inc := |s.servers[v]|;
      cfg.serverClock(v, inc, later) - cfg.serverClock(v, inc, s.now) >= QUARANTINE
    ensures IsPath(cfg, path) && path[0] == s
    ensures var e := path[|path| - 1];
      && e.now == later && e.leases == s.leases && e.ops == s.ops && HasServer(e, v)
      && |e.servers| == |s.servers| && (forall u :: 0 <= u < |s.servers| && u != v ==> e.servers[u] == s.servers[u])
      && |e.servers[v]| == |s.servers[v]| + 1
      && Current(e, v) == Instance(s.now, Active, Some(later), map[], multiset{}, {})
  {
    var crashed := ServerStep(cfg, s, Crash(v));
    var restarted := ServerStep(cfg, crashed, Restart(v));
    var waited := ClientStep(cfg, restarted, Tick(later));
    var active := ServerStep(cfg, waited, Activate(v));
    assert StepTo(cfg, s, Crash(v), crashed) && StepTo(cfg, crashed, Restart(v), restarted);
    assert StepTo(cfg, restarted, Tick(later), waited) && StepTo(cfg, waited, Activate(v), active);
    path := [s, crashed, restarted, waited, active];
  }

  /** A cleanup of every key leaves exactly the leases that have not expired on its clock. */
  lemma CleanupRemovesExpired(cfg: Config, s: State, v: nat, readAt: int)
    requires HasServer(s, v) && ServerEnabled(cfg, s, Cleanup(v, Current(s, v).table.Keys, readAt))
    ensures var e := ServerStep(cfg, s, Cleanup(v, Current(s, v).table.Keys, readAt));
      && HasServer(e, v)
      && Current(e, v) == Current(s, v).(
           table := Unexpired(Current(s, v).table, cfg.serverClock(v, Inc(s, v), readAt)))
  {
  }
}
