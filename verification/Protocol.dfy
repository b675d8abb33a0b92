/** The distributed lease protocol as a state machine.

    Clients fan Acquire, Renew and Release out to `n` independent servers. Requests and
    replies may be delayed, lost, reordered or delivered twice: the network is the set of
    everything ever sent, from which any message may be picked at any time. Every process
    reads its own clock; `now` is true time, which no process sees. Servers keep leases in
    memory only: a crash loses the table and the next instance starts in quarantine. */
module Protocol {
  import opened Types
  import opened LeaseTable
  import opened Quorum

  /** One deployment. A clock is a function from true time to the reading of the process:
      one per client boot and one per server instance, so a restarted machine may restart
      its clock. Each server instance has its own configured maximum TTL. */
  datatype Config = Config(
    n: nat,
    q: nat,
    maxTTL: (nat, nat) -> nat,
    clientClock: (nat, nat, int) -> int,
    serverClock: (nat, nat, int) -> int)

  ghost predicate ValidConfig(cfg: Config) {
    && IsMajority(cfg.n, cfg.q)
    && (forall v, i :: 1 <= cfg.maxTTL(v, i) <= PROTOCOL_MAX_TTL_MS)
    && (forall c, b, t, u :: t <= u ==> cfg.clientClock(c, b, t) <= cfg.clientClock(c, b, u))
    && (forall v, i, t, u :: t <= u ==> cfg.serverClock(v, i, t) <= cfg.serverClock(v, i, u))
  }

  /** Over any stretch of at most one maximum TTL of true time, client clocks fall behind by
      at most `lag` and server clocks run ahead by at most `lead`. */
  ghost predicate ClockError(cfg: Config, lag: int, lead: int) {
    && (forall c, b, t, u :: t <= u <= t + PROTOCOL_MAX_TTL_MS * MS ==>
          cfg.clientClock(c, b, u) - cfg.clientClock(c, b, t) >= u - t - lag)
    && (forall v, i, t, u :: t <= u <= t + PROTOCOL_MAX_TTL_MS * MS ==>
          cfg.serverClock(v, i, u) - cfg.serverClock(v, i, t) <= u - t + lead)
  }

  function ClientTime(cfg: Config, id: LeaseID, t: int): int {
    cfg.clientClock(id.clientID, id.bootID, t)
  }

  datatype Request = Request(server: nat, op: nat, kind: Kind, key: Key, id: LeaseID, ttlMS: nat)

  /** `inc` and `stamp` record which instance answered and the true time of the timestamp it
      used; no step reads them. */
  datatype Reply = Reply(server: nat, op: nat, kind: Kind, status: Status, ttlMS: nat, inc: nat, stamp: int)

  datatype Phase = Quarantine | Active | Failed | Crashed

  /** An operation taken up by a shard worker, with the true time at which it read the clock. */
  datatype Work = Work(req: Request, stamp: int, cleanupAttempted: bool)

  /** `admitted` holds the requests a worker has taken while the server was active and for
      which it has not read the clock yet. */
  datatype Instance = Instance(
    startedAt: int,
    phase: Phase,
    activatedAt: Option<int>,
    table: Table,
    admitted: multiset<Request>,
    busy: set<Work>)

  /** An instance that has just started. */
  function Fresh(now: int): Instance {
    Instance(now, Quarantine, None, map[], multiset{}, {})
  }

  /** One fan-out of a client: Acquire, Renew, healing or Release. */
  datatype Operation = Operation(
    id: LeaseID,
    kind: Kind,
    ttlMS: nat,
    startedAt: int,
    candidates: seq<int>,
    successful: seq<bool>)

  datatype Lifecycle = Acquiring | Holding | Released

  /** A client-side lease; `collecting` is the fan-out whose replies may still confirm it. */
  datatype Lease = Lease(key: Key, lifecycle: Lifecycle, validUntil: int, collecting: Option<nat>)

  /** `servers[v]` lists the successive instances of server `v`; only the last one acts. */
  datatype State = State(
    now: int,
    servers: seq<seq<Instance>>,
    leases: map<LeaseID, Lease>,
    ops: map<nat, Operation>,
    requests: set<Request>,
    replies: set<Reply>)

  datatype Step =
    | Tick(to: int)
    | StartAcquire(id: LeaseID, key: Key, ttlMS: nat, op: nat)
    | StartRenew(id: LeaseID, ttlMS: nat, op: nat)
    | StartHealing(id: LeaseID, ttlMS: nat, op: nat)
    | StartRelease(id: LeaseID, op: nat)
    | GiveUp(id: LeaseID, op: nat)
    | Send(op: nat, server: nat)
    | Receive(id: LeaseID, reply: Reply, readAt: int, best: Option<int>)
    | Reject(server: nat, req: Request)
    | Admit(server: nat, req: Request)
    | Begin(server: nat, req: Request)
    | Execute(server: nat, work: Work, hasRoom: bool)
    | Cleanup(server: nat, keys: set<Key>, readAt: int)
    | Activate(server: nat)
    | Fail(server: nat)
    | Crash(server: nat)
    | Restart(server: nat)

  ghost predicate Initial(cfg: Config, s: State) {
    && s.leases == map[] && s.ops == map[] && s.requests == {} && s.replies == {}
    && |s.servers| == cfg.n
    && forall v :: 0 <= v < cfg.n ==> s.servers[v] == [Fresh(s.now)]
  }

  // ---------- Clients ----------

  function NewOperation(cfg: Config, s: State, id: LeaseID, kind: Kind, ttlMS: nat): Operation {
    Operation(id, kind, ttlMS, s.now, seq(cfg.n, _ => 0), seq(cfg.n, _ => false))
  }

  /** A reply that may confirm the fan-out it answers. */
  predicate Successful(reply: Reply) {
    match reply.kind
    case Acquire => IsSuccessfulAcquire(reply.status)
    case Renew => reply.status == OK
    case Release => false
  }

  function NoteReply(cfg: Config, o: Operation, reply: Reply): Operation
    requires reply.server < |o.candidates| && reply.server < |o.successful|
  {
    o.(candidates := o.candidates[reply.server := CandidateValidUntil(ClientTime(cfg, o.id, o.startedAt), reply.ttlMS)],
       successful := o.successful[reply.server := true])
  }

  /** Once the best quorum is still valid, Acquire adopts it and Renew never shortens. */
  function Confirm(lease: Lease, kind: Kind, validUntil: int): Lease {
    lease.(lifecycle := Holding, collecting := None,
           validUntil := if kind == Renew then Max(lease.validUntil, validUntil) else validUntil)
  }

  /** A reply that the fan-out of a lease has not heard yet. */
  predicate Unheard(cfg: Config, s: State, id: LeaseID, reply: Reply) {
    && reply in s.replies && Successful(reply)
    && id in s.leases && s.leases[id].collecting == Some(reply.op) && reply.op in s.ops
    && var o := s.ops[reply.op];
    |o.candidates| == |o.successful| && reply.server < |o.candidates| && !o.successful[reply.server]
  }

  function Noted(cfg: Config, s: State, id: LeaseID, reply: Reply): State
    requires Unheard(cfg, s, id, reply)
  {
    s.(ops := s.ops[reply.op := NoteReply(cfg, s.ops[reply.op], reply)])
  }

  function Confirmed(cfg: Config, s: State, id: LeaseID, reply: Reply, validUntil: int): State
    requires Unheard(cfg, s, id, reply)
  {
    Noted(cfg, s, id, reply).(leases := s.leases[id := Confirm(s.leases[id], s.ops[reply.op].kind, validUntil)])
  }

  ghost predicate ClientEnabled(cfg: Config, s: State, step: Step) {
    match step
    case Tick(to) => s.now <= to
    case StartAcquire(id, key, ttlMS, op) => id !in s.leases && op !in s.ops
    case StartRenew(id, ttlMS, op) =>
      op !in s.ops && id in s.leases && s.leases[id].lifecycle == Holding && s.leases[id].collecting == None
    case StartHealing(id, ttlMS, op) =>
      op !in s.ops && LocallyValid(cfg, s, id)
    case StartRelease(id, op) =>
      op !in s.ops && id in s.leases && s.leases[id].lifecycle == Holding && s.leases[id].collecting == None
    case GiveUp(id, op) =>
      op !in s.ops && id in s.leases && s.leases[id].collecting.Some?
    case Send(op, v) => op in s.ops && s.ops[op].id in s.leases && v < cfg.n
    case Receive(id, reply, readAt, best) =>
      && Unheard(cfg, s, id, reply)
      && var o := s.ops[reply.op];
      && o.startedAt <= readAt <= s.now
      && IsBestQuorum(NoteReply(cfg, o, reply).candidates, NoteReply(cfg, o, reply).successful, cfg.q, best)
    case _ => false
  }

  ghost function ClientStep(cfg: Config, s: State, step: Step): State
    requires ClientEnabled(cfg, s, step)
  {
    match step
    case Tick(to) => s.(now := to)
    case StartAcquire(id, key, ttlMS, op) =>
      s.(leases := s.leases[id := Lease(key, Acquiring, 0, Some(op))],
         ops := s.ops[op := NewOperation(cfg, s, id, Acquire, ttlMS)])
    case StartRenew(id, ttlMS, op) =>
      s.(leases := s.leases[id := s.leases[id].(collecting := Some(op))],
         ops := s.ops[op := NewOperation(cfg, s, id, Renew, ttlMS)])
    case StartHealing(id, ttlMS, op) =>
      s.(ops := s.ops[op := NewOperation(cfg, s, id, Acquire, ttlMS)])
    case StartRelease(id, op) =>
      s.(leases := s.leases[id := s.leases[id].(lifecycle := Released)],
         ops := s.ops[op := NewOperation(cfg, s, id, Release, 0)])
    case GiveUp(id, op) =>
      if s.leases[id].lifecycle == Acquiring then
        s.(leases := s.leases[id := s.leases[id].(lifecycle := Released, collecting := None)],
           ops := s.ops[op := NewOperation(cfg, s, id, Release, 0)])
      else
        s.(leases := s.leases[id := s.leases[id].(collecting := None)])
    case Send(op, v) =>
      var o := s.ops[op];
      s.(requests := s.requests + {Request(v, op, o.kind, s.leases[o.id].key, o.id, o.ttlMS)})
    case Receive(id, reply, readAt, best) =>
      if best.Some? && ClientTime(cfg, id, readAt) < best.value then Confirmed(cfg, s, id, reply, best.value)
      else Noted(cfg, s, id, reply)
  }

  /** The client may rely on the lease right now. */
  predicate LocallyValid(cfg: Config, s: State, id: LeaseID) {
    && id in s.leases
    && s.leases[id].lifecycle == Holding
    && ClientTime(cfg, id, s.now) < s.leases[id].validUntil
  }

  // ---------- Servers ----------

  predicate HasServer(s: State, v: nat) {
    v < |s.servers| && s.servers[v] != []
  }

  function Inc(s: State, v: nat): nat
    requires HasServer(s, v)
  {
    |s.servers[v]| - 1
  }

  function Current(s: State, v: nat): Instance
    requires HasServer(s, v)
  {
    s.servers[v][Inc(s, v)]
  }

  function Replace(s: State, v: nat, inst: Instance): State
    requires HasServer(s, v)
  {
    s.(servers := s.servers[v := s.servers[v][Inc(s, v) := inst]])
  }

  /** What a worker does with an operation once it holds the shard lock: the new table and
      either the answer or, for an Acquire that found no room, a retry after a cleanup. */
  function Effect(t: Table, w: Work, maxTTL: nat, reading: int, hasRoom: bool): (Table, Option<(Status, nat)>)
  {
    var r := w.req;
    var ttl := Min(r.ttlMS, maxTTL);
    match r.kind
    case Acquire =>
      (match AcquireLocked(t, r.key, r.id, ttl, maxTTL, reading, hasRoom)
       case Answered(t', status, ttlMS) => (t', Some((status, ttlMS)))
       case CapacityFull(t') => (t', if w.cleanupAttempted then Some((KeyLimitReached, 0)) else None))
    case Renew =>
      var out := RenewLocked(t, r.key, r.id, ttl, maxTTL, reading);
      (out.table, Some((out.status, out.ttlMS)))
    case Release =>
      (ReleaseLocked(t, r.key, r.id, reading), Some((OK, 0)))
  }

  predicate ServerEnabled(cfg: Config, s: State, step: Step) {
    match step
    case Reject(v, req) => HasServer(s, v) && Current(s, v).phase == Quarantine && req in s.requests && req.server == v
    case Admit(v, req) =>
      HasServer(s, v) && Current(s, v).phase == Active && req in s.requests && req.server == v
    case Begin(v, req) => HasServer(s, v) && req in Current(s, v).admitted
    case Execute(v, w, hasRoom) => HasServer(s, v) && w in Current(s, v).busy
    case Cleanup(v, keys, readAt) =>
      HasServer(s, v) && Current(s, v).phase != Crashed && Current(s, v).startedAt <= readAt <= s.now
    case Activate(v) =>
      && HasServer(s, v) && Current(s, v).phase == Quarantine
      && cfg.serverClock(v, Inc(s, v), s.now) - cfg.serverClock(v, Inc(s, v), Current(s, v).startedAt) >= QUARANTINE
    case Fail(v) => HasServer(s, v) && (Current(s, v).phase == Quarantine || Current(s, v).phase == Active)
    case Crash(v) => HasServer(s, v) && Current(s, v).phase != Crashed
    case Restart(v) => HasServer(s, v) && Current(s, v).phase == Crashed
    case _ => false
  }

  function ServerStep(cfg: Config, s: State, step: Step): State
    requires ServerEnabled(cfg, s, step)
  {
    match step
    case Reject(v, req) =>
      s.(replies := s.replies + {Reply(v, req.op, req.kind, NotReady, 0, Inc(s, v), s.now)})
    case Admit(v, req) =>
      Replace(s, v, Current(s, v).(admitted := Current(s, v).admitted + multiset{req}))
    case Begin(v, req) =>
      var inst := Current(s, v);
      Replace(s, v, inst.(admitted := inst.admitted - multiset{req}, busy := inst.busy + {Work(req, s.now, false)}))
    case Execute(v, w, hasRoom) =>
      var inst := Current(s, v);
      var inc := Inc(s, v);
      var (table, answer) := Effect(inst.table, w, cfg.maxTTL(v, inc), cfg.serverClock(v, inc, w.stamp), hasRoom);
      (match answer
       case Some((status, ttlMS)) =>
         Replace(s, v, inst.(table := table, busy := inst.busy - {w}))
         .(replies := s.replies + {Reply(v, w.req.op, w.req.kind, status, ttlMS, inc, w.stamp)})
       case None =>
         Replace(s, v, inst.(table := table, busy := inst.busy - {w} + {w.(cleanupAttempted := true)})))
    case Cleanup(v, keys, readAt) =>
      var inst := Current(s, v);
      var reading := cfg.serverClock(v, Inc(s, v), readAt);
      var t: Table := map k | k in inst.table && !(k in keys && inst.table[k].deadline <= reading) :: inst.table[k];
      Replace(s, v, inst.(table := t))
    case Activate(v) => Replace(s, v, Current(s, v).(phase := Active, activatedAt := Some(s.now)))
    case Fail(v) => Replace(s, v, Current(s, v).(phase := Failed))
    case Crash(v) => Replace(s, v, Current(s, v).(phase := Crashed, admitted := multiset{}, busy := {}))
    case Restart(v) => s.(servers := s.servers[v := s.servers[v] + [Fresh(s.now)]])
  }

  // ---------- Runs ----------

  ghost predicate Next(cfg: Config, s: State, s': State) {
    exists step :: StepTo(cfg, s, step, s')
  }

  ghost predicate StepTo(cfg: Config, s: State, step: Step, s': State) {
    || (ClientEnabled(cfg, s, step) && s' == ClientStep(cfg, s, step))
    || (ServerEnabled(cfg, s, step) && s' == ServerStep(cfg, s, step))
  }

  /** A finite execution from an initial state. */
  ghost predicate NextAt(cfg: Config, run: seq<State>, i: nat)
    requires i + 1 < |run|
  {
    Next(cfg, run[i], run[i + 1])
  }

  ghost predicate IsRun(cfg: Config, run: seq<State>) {
    && run != []
    && Initial(cfg, run[0])
    && forall i: nat :: i + 1 < |run| ==> NextAt(cfg, run, i)
  }

  /** No two leases on one key are locally valid at the same instant. */
  ghost predicate Exclusive(cfg: Config, s: State) {
    forall a, b :: LocallyValid(cfg, s, a) && LocallyValid(cfg, s, b) && s.leases[a].key == s.leases[b].key ==> a == b
  }
}
