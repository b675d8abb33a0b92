/** Mutual exclusion over every run of the protocol, with clocks that err by up to the
    safety margin. The inductive invariant follows each granting reply: as long as the
    granted lease is not released, the instance that granted it keeps it stored until its
    own clock has passed the granted deadline. */
module ProtocolProof {
  import opened Types
  import opened LeaseTable
  import opened Quorum
  import opened Protocol

  // ---------- The invariant ----------

  predicate Granting(r: Reply) {
    Successful(r) && r.ttlMS > 0
  }

  ghost predicate OpOk(cfg: Config, s: State, op: nat)
    requires op in s.ops
  {
    var o := s.ops[op];
    && o.id in s.leases
    && o.startedAt <= s.now
    && |o.candidates| == cfg.n && |o.successful| == cfg.n
    && (o.kind == Release ==> s.leases[o.id].lifecycle == Released)
  }

  ghost predicate RequestOk(cfg: Config, s: State, r: Request) {
    && r.op in s.ops && s.ops[r.op].id == r.id && s.ops[r.op].kind == r.kind
    && r.id in s.leases && s.leases[r.id].key == r.key
  }

  ghost predicate WorkOk(s: State, v: nat, inst: Instance, w: Work) {
    && w.req in s.requests && w.req.server == v && w.req.op in s.ops
    && s.ops[w.req.op].startedAt <= w.stamp <= s.now
    && inst.activatedAt.Some? && inst.activatedAt.value <= w.stamp
  }

  ghost predicate InstanceOk(cfg: Config, s: State, v: nat, i: nat)
    requires v < |s.servers| && i < |s.servers[v]|
  {
    var inst := s.servers[v][i];
    && inst.startedAt <= s.now
    && (i + 1 < |s.servers[v]| ==> inst.phase == Crashed && inst.startedAt <= s.servers[v][i + 1].startedAt)
    && (inst.activatedAt.Some? ==>
          && inst.startedAt <= inst.activatedAt.value <= s.now
          && cfg.serverClock(v, i, inst.activatedAt.value) - cfg.serverClock(v, i, inst.startedAt) >= QUARANTINE)
    && (inst.phase == Active ==> inst.activatedAt.Some?)
    && (inst.phase == Quarantine ==> inst.activatedAt.None?)
    && (inst.phase == Crashed ==> inst.admitted == multiset{} && inst.busy == {})
    && (inst.activatedAt.None? ==> inst.table == map[] && inst.admitted == multiset{} && inst.busy == {})
    && (forall r :: r in inst.admitted ==> r in s.requests && r.server == v)
    && (forall w :: w in inst.busy ==> WorkOk(s, v, inst, w))
    && (forall k :: k in inst.table ==> inst.table[k].id in s.leases && s.leases[inst.table[k].id].key == k)
  }

  /** The deadline a granting reply promises, on the clock of the granting instance. */
  function Promised(cfg: Config, r: Reply): int {
    cfg.serverClock(r.server, r.inc, r.stamp) + r.ttlMS * MS
  }

  /** The granting instance stores the lease at least as long as promised, or the promise
      has already run out on its clock. */
  ghost predicate Kept(cfg: Config, s: State, r: Reply, inst: Instance)
    requires r.op in s.ops && s.ops[r.op].id in s.leases
  {
    var id := s.ops[r.op].id;
    var key := s.leases[id].key;
    || (key in inst.table && inst.table[key].id == id && Promised(cfg, r) <= inst.table[key].deadline)
    || Promised(cfg, r) <= cfg.serverClock(r.server, r.inc, s.now)
  }

  ghost predicate ReplyOk(cfg: Config, s: State, r: Reply) {
    && r.server < |s.servers| && r.inc < |s.servers[r.server]|
    && r.op in s.ops && s.ops[r.op].id in s.leases && r.kind == s.ops[r.op].kind
    && (Granting(r) ==>
          var inst := s.servers[r.server][r.inc];
          && s.ops[r.op].startedAt <= r.stamp <= s.now
          && inst.activatedAt.Some? && inst.activatedAt.value <= r.stamp
          && (r.inc + 1 < |s.servers[r.server]| ==> r.stamp <= s.servers[r.server][r.inc + 1].startedAt)
          && (s.leases[s.ops[r.op].id].lifecycle != Released ==> Kept(cfg, s, r, inst)))
  }

  /** Server `v` sent a reply that is worth at least `until` to the client of `id`. */
  ghost predicate Grants(cfg: Config, s: State, id: LeaseID, until: int, v: nat, r: Reply) {
    && r in s.replies && r.server == v && Granting(r)
    && r.op in s.ops && s.ops[r.op].id == id
    && until <= CandidateValidUntil(ClientTime(cfg, id, s.ops[r.op].startedAt), r.ttlMS)
  }

  ghost predicate Backed(cfg: Config, s: State, id: LeaseID, until: int, v: nat) {
    exists r :: Grants(cfg, s, id, until, v, r)
  }

  ghost predicate BackedBy(cfg: Config, s: State, id: LeaseID, until: int, backers: set<nat>) {
    && backers <= Servers(cfg.n) && |backers| >= cfg.q
    && forall v :: v in backers ==> Backed(cfg, s, id, until, v)
  }

  /** Every candidate that rises above the start of its operation comes from a reply. */
  ghost predicate CandidatesOk(cfg: Config, s: State, op: nat)
    requires op in s.ops
  {
    var o := s.ops[op];
    forall v :: 0 <= v < |o.successful| && v < |o.candidates| && o.successful[v]
                && ClientTime(cfg, o.id, o.startedAt) < o.candidates[v] ==>
                Backed(cfg, s, o.id, o.candidates[v], v)
  }

  ghost predicate LeaseOk(cfg: Config, s: State, id: LeaseID)
    requires id in s.leases
  {
    var l := s.leases[id];
    && (l.collecting.Some? ==>
          && l.collecting.value in s.ops
          && s.ops[l.collecting.value].id == id
          && s.ops[l.collecting.value].kind == (if l.lifecycle == Acquiring then Acquire else Renew)
          && l.lifecycle != Released
          && CandidatesOk(cfg, s, l.collecting.value))
    && (l.lifecycle == Holding ==> exists backers :: BackedBy(cfg, s, id, l.validUntil, backers))
  }

  ghost predicate Inv(cfg: Config, s: State) {
    && |s.servers| == cfg.n
    && (forall v :: 0 <= v < cfg.n ==> s.servers[v] != [])
    && (forall v, i :: 0 <= v < cfg.n && 0 <= i < |s.servers[v]| ==> InstanceOk(cfg, s, v, i))
    && (forall op :: op in s.ops ==> OpOk(cfg, s, op))
    && (forall r :: r in s.requests ==> RequestOk(cfg, s, r))
    && (forall r :: r in s.replies ==> ReplyOk(cfg, s, r))
    && (forall id :: id in s.leases ==> LeaseOk(cfg, s, id))
  }

  // ---------- What a growing history preserves ----------

  /** Time passes; messages, operations and leases only accumulate; a release is final. */
  ghost predicate Extends(s: State, s': State) {
    && s.now <= s'.now
    && s.requests <= s'.requests
    && s.replies <= s'.replies
    && (forall op :: op in s.ops ==>
          && op in s'.ops && s'.ops[op].id == s.ops[op].id
          && s'.ops[op].kind == s.ops[op].kind && s'.ops[op].startedAt == s.ops[op].startedAt)
    && (forall id :: id in s.leases ==>
          && id in s'.leases && s'.leases[id].key == s.leases[id].key
          && (s.leases[id].lifecycle == Released ==> s'.leases[id].lifecycle == Released))
  }

  lemma InstanceExtends(cfg: Config, s: State, s': State, v: nat, i: nat)
    requires Extends(s, s')
    requires v < |s.servers| && i < |s.servers[v]| && InstanceOk(cfg, s, v, i)
    requires v < |s'.servers| && i < |s'.servers[v]| && s'.servers[v][i] == s.servers[v][i]
    requires i + 1 < |s'.servers[v]| ==>
      i + 1 < |s.servers[v]| && s'.servers[v][i + 1].startedAt == s.servers[v][i + 1].startedAt
    ensures InstanceOk(cfg, s', v, i)
  {
    var inst := s.servers[v][i];
    forall w | w in inst.busy ensures WorkOk(s', v, inst, w) {
      assert WorkOk(s, v, inst, w);
    }
  }

  lemma ReplyExtends(cfg: Config, s: State, s': State, r: Reply)
    requires ValidConfig(cfg) && Extends(s, s') && ReplyOk(cfg, s, r)
    requires r.server < |s'.servers| && r.inc < |s'.servers[r.server]|
    requires s'.servers[r.server][r.inc] == s.servers[r.server][r.inc]
    requires r.inc + 1 < |s'.servers[r.server]| ==>
               && r.inc + 1 < |s.servers[r.server]|
               && s'.servers[r.server][r.inc + 1].startedAt == s.servers[r.server][r.inc + 1].startedAt
    ensures ReplyOk(cfg, s', r)
  {
    if Granting(r) {
      assert cfg.serverClock(r.server, r.inc, s.now) <= cfg.serverClock(r.server, r.inc, s'.now);
    }
  }

  /** Whatever the clients do, the servers' part of the invariant stands. */
  lemma ServersExtend(cfg: Config, s: State, s': State)
    requires ValidConfig(cfg) && Inv(cfg, s) && Extends(s, s') && s'.servers == s.servers
    ensures forall v, i :: 0 <= v < cfg.n && 0 <= i < |s'.servers[v]| ==> InstanceOk(cfg, s', v, i)
    ensures forall r :: r in s.replies ==> ReplyOk(cfg, s', r)
  {
    forall v, i | 0 <= v < cfg.n && 0 <= i < |s'.servers[v]| ensures InstanceOk(cfg, s', v, i) {
      InstanceExtends(cfg, s, s', v, i);
    }
    forall r | r in s.replies ensures ReplyOk(cfg, s', r) {
      ReplyExtends(cfg, s, s', r);
    }
  }

  lemma BackedExtends(cfg: Config, s: State, s': State, id: LeaseID, until: int, v: nat)
    requires Extends(s, s') && Backed(cfg, s, id, until, v)
    ensures Backed(cfg, s', id, until, v)
  {
    var r :| Grants(cfg, s, id, until, v, r);
    assert Grants(cfg, s', id, until, v, r);
  }

  lemma BackedByExtends(cfg: Config, s: State, s': State, id: LeaseID, until: int, until': int, backers: set<nat>)
    requires Extends(s, s') && BackedBy(cfg, s, id, until, backers) && until' <= until
    ensures BackedBy(cfg, s', id, until', backers)
  {
    forall v | v in backers ensures Backed(cfg, s', id, until', v) {
      var r :| Grants(cfg, s, id, until, v, r);
      assert Grants(cfg, s', id, until', v, r);
    }
  }

  /** A lease that a step leaves alone keeps its part of the invariant. */
  lemma LeaseOkExtends(cfg: Config, s: State, s': State, id: LeaseID)
    requires Extends(s, s') && id in s.leases && LeaseOk(cfg, s, id)
    requires id in s'.leases && s'.leases[id] == s.leases[id]
    requires s.leases[id].collecting.Some? ==>
      s'.ops[s.leases[id].collecting.value] == s.ops[s.leases[id].collecting.value]
    ensures LeaseOk(cfg, s', id)
  {
    var l := s.leases[id];
    if l.collecting.Some? {
      CandidatesOkExtends(cfg, s, s', l.collecting.value);
    }
    if l.lifecycle == Holding {
      var backers :| BackedBy(cfg, s, id, l.validUntil, backers);
      BackedByExtends(cfg, s, s', id, l.validUntil, l.validUntil, backers);
    }
  }

  lemma CandidatesOkExtends(cfg: Config, s: State, s': State, op: nat)
    requires Extends(s, s') && op in s.ops && s'.ops[op] == s.ops[op] && CandidatesOk(cfg, s, op)
    ensures CandidatesOk(cfg, s', op)
  {
    var o := s.ops[op];
    forall v | 0 <= v < |o.successful| && v < |o.candidates| && o.successful[v]
               && ClientTime(cfg, o.id, o.startedAt) < o.candidates[v]
      ensures Backed(cfg, s', o.id, o.candidates[v], v)
    {
      BackedExtends(cfg, s, s', o.id, o.candidates[v], v);
    }
  }

  lemma LeasesExtend(cfg: Config, s: State, s': State)
    requires Inv(cfg, s) && Extends(s, s') && s'.leases == s.leases
    requires forall op :: op in s.ops ==> s'.ops[op] == s.ops[op]
    ensures forall id :: id in s'.leases ==> LeaseOk(cfg, s', id)
  {
    forall id | id in s'.leases ensures LeaseOk(cfg, s', id) {
      LeaseOkExtends(cfg, s, s', id);
    }
  }

  // ---------- Client steps ----------

  lemma InitialInv(cfg: Config, s: State)
    requires Initial(cfg, s)
    ensures Inv(cfg, s)
  {
  }

  lemma ClientInv(cfg: Config, s: State, step: Step)
    requires ValidConfig(cfg) && Inv(cfg, s) && ClientEnabled(cfg, s, step)
    ensures Inv(cfg, ClientStep(cfg, s, step))
  {
    var s' := ClientStep(cfg, s, step);
    ClientExtends(cfg, s, step);
    ServersExtend(cfg, s, s');
    ClientOps(cfg, s, step);
    ClientRequests(cfg, s, step);
    ClientLeases(cfg, s, step);
  }

  lemma ClientExtends(cfg: Config, s: State, step: Step)
    requires ClientEnabled(cfg, s, step)
    requires forall id :: id in s.leases ==> LeaseOk(cfg, s, id)
    ensures var s' := ClientStep(cfg, s, step); Extends(s, s') && s'.servers == s.servers && s'.replies == s.replies
  {
    match step {
      case Receive(id, reply, readAt, best) =>
        assert LeaseOk(cfg, s, id);
        ReceiveExtends(cfg, s, id, reply);
      case GiveUp(id, op) =>
        assert LeaseOk(cfg, s, id);
        GiveUpExtends(cfg, s, id, op);
      case _ => StartExtends(cfg, s, step);
    }
  }

  lemma StartExtends(cfg: Config, s: State, step: Step)
    requires ClientEnabled(cfg, s, step) && !step.Receive? && !step.GiveUp?
    ensures var s' := ClientStep(cfg, s, step); Extends(s, s') && s'.servers == s.servers && s'.replies == s.replies
  {
  }

  lemma GiveUpExtends(cfg: Config, s: State, id: LeaseID, op: nat)
    requires ClientEnabled(cfg, s, GiveUp(id, op)) && s.leases[id].lifecycle != Released
    ensures var s' := ClientStep(cfg, s, GiveUp(id, op));
      Extends(s, s') && s'.servers == s.servers && s'.replies == s.replies
  {
  }

  lemma ReceiveExtends(cfg: Config, s: State, id: LeaseID, reply: Reply)
    requires Unheard(cfg, s, id, reply) && s.leases[id].lifecycle != Released
    ensures Extends(s, Noted(cfg, s, id, reply))
    ensures forall until :: Extends(s, Confirmed(cfg, s, id, reply, until))
  {
  }

  lemma ClientOp(cfg: Config, s: State, step: Step, op: nat)
    requires ClientEnabled(cfg, s, step) && Extends(s, ClientStep(cfg, s, step)) && op in ClientStep(cfg, s, step).ops
    requires op in s.ops ==> OpOk(cfg, s, op)
    ensures OpOk(cfg, ClientStep(cfg, s, step), op)
  {
  }

  lemma ClientOps(cfg: Config, s: State, step: Step)
    requires Inv(cfg, s) && ClientEnabled(cfg, s, step)
    ensures var s' := ClientStep(cfg, s, step); forall op :: op in s'.ops ==> OpOk(cfg, s', op)
  {
    var s' := ClientStep(cfg, s, step);
    ClientExtends(cfg, s, step);
    forall op | op in s'.ops ensures OpOk(cfg, s', op) {
      ClientOp(cfg, s, step, op);
    }
  }

  lemma ClientRequests(cfg: Config, s: State, step: Step)
    requires Inv(cfg, s) && ClientEnabled(cfg, s, step)
    ensures var s' := ClientStep(cfg, s, step); forall r :: r in s'.requests ==> RequestOk(cfg, s', r)
  {
    var s' := ClientStep(cfg, s, step);
    ClientExtends(cfg, s, step);
    forall r | r in s'.requests ensures RequestOk(cfg, s', r) {
      if r in s.requests {
        assert RequestOk(cfg, s, r);
      }
    }
  }

  lemma ClientLeases(cfg: Config, s: State, step: Step)
    requires ValidConfig(cfg) && Inv(cfg, s) && ClientEnabled(cfg, s, step)
    ensures var s' := ClientStep(cfg, s, step); forall id :: id in s'.leases ==> LeaseOk(cfg, s', id)
  {
    var s' := ClientStep(cfg, s, step);
    match step {
      case Tick(to) => LeasesExtend(cfg, s, s');
      case Send(op, v) => LeasesExtend(cfg, s, s');
      case StartHealing(id, ttlMS, op) => LeasesExtend(cfg, s, s');
      case Receive(id, reply, readAt, best) => ReceiveLeases(cfg, s, id, reply, readAt, best);
      case _ => StartLeases(cfg, s, step);
    }
  }

  lemma StartLeases(cfg: Config, s: State, step: Step)
    requires ValidConfig(cfg) && Inv(cfg, s) && ClientEnabled(cfg, s, step)
    requires step.StartAcquire? || step.StartRenew? || step.StartRelease? || step.GiveUp?
    ensures var s' := ClientStep(cfg, s, step); forall id :: id in s'.leases ==> LeaseOk(cfg, s', id)
  {
    var s' := ClientStep(cfg, s, step);
    ClientExtends(cfg, s, step);
    forall id | id in s'.leases ensures LeaseOk(cfg, s', id) {
      if id == step.id {
        StartedLease(cfg, s, step);
      } else {
        LeaseOkExtends(cfg, s, s', id);
      }
    }
  }

  lemma StartedLease(cfg: Config, s: State, step: Step)
    requires ClientEnabled(cfg, s, step) && Extends(s, ClientStep(cfg, s, step))
    requires step.StartAcquire? || step.StartRenew? || step.StartRelease? || step.GiveUp?
    requires step.id in s.leases ==> LeaseOk(cfg, s, step.id)
    ensures LeaseOk(cfg, ClientStep(cfg, s, step), step.id)
  {
    if step.id in s.leases && s.leases[step.id].lifecycle == Holding {
      StillBacked(cfg, s, ClientStep(cfg, s, step), step.id);
    }
  }

  lemma StillBacked(cfg: Config, s: State, s': State, id: LeaseID)
    requires Extends(s, s') && id in s.leases && LeaseOk(cfg, s, id) && s.leases[id].lifecycle == Holding
    ensures exists backers :: BackedBy(cfg, s', id, s.leases[id].validUntil, backers)
  {
    var until := s.leases[id].validUntil;
    var backers :| BackedBy(cfg, s, id, until, backers);
    BackedByExtends(cfg, s, s', id, until, until, backers);
  }

  /** A reply that confirms nothing leaves every lease backed. */
  lemma NotedLeases(cfg: Config, s: State, id: LeaseID, reply: Reply, other: LeaseID)
    requires Inv(cfg, s) && Unheard(cfg, s, id, reply) && other in s.leases
    ensures LeaseOk(cfg, Noted(cfg, s, id, reply), other)
  {
    assert LeaseOk(cfg, s, id) && LeaseOk(cfg, s, other);
    ReceiveExtends(cfg, s, id, reply);
    if other == id {
      NotedCandidates(cfg, s, id, reply);
      if s.leases[id].lifecycle == Holding {
        StillBacked(cfg, s, Noted(cfg, s, id, reply), id);
      }
    } else {
      LeaseOkExtends(cfg, s, Noted(cfg, s, id, reply), other);
    }
  }

  /** A lease is confirmed up to what a quorum has granted, or what one granted before. */
  lemma ConfirmedLease(cfg: Config, s: State, id: LeaseID, reply: Reply, until: int)
    requires Inv(cfg, s) && Unheard(cfg, s, id, reply)
    requires exists backers :: BackedBy(cfg, Noted(cfg, s, id, reply), id, until, backers)
    ensures LeaseOk(cfg, Confirmed(cfg, s, id, reply, until), id)
  {
    var noted, s' := Noted(cfg, s, id, reply), Confirmed(cfg, s, id, reply, until);
    assert LeaseOk(cfg, s, id);
    ReceiveExtends(cfg, s, id, reply);
    var backers :| BackedBy(cfg, noted, id, until, backers);
    assert Extends(noted, s');
    BackedByExtends(cfg, noted, s', id, until, until, backers);
    if s.leases[id].lifecycle == Holding {
      StillBacked(cfg, s, s', id);
    }
  }

  lemma ConfirmedLeases(cfg: Config, s: State, id: LeaseID, reply: Reply, until: int, other: LeaseID)
    requires Inv(cfg, s) && Unheard(cfg, s, id, reply) && other in s.leases && other != id
    ensures LeaseOk(cfg, Confirmed(cfg, s, id, reply, until), other)
  {
    assert LeaseOk(cfg, s, id) && LeaseOk(cfg, s, other);
    ReceiveExtends(cfg, s, id, reply);
    LeaseOkExtends(cfg, s, Confirmed(cfg, s, id, reply, until), other);
  }

  lemma ReceiveLeases(cfg: Config, s: State, id: LeaseID, reply: Reply, readAt: int, best: Option<int>)
    requires ValidConfig(cfg) && Inv(cfg, s) && ClientEnabled(cfg, s, Receive(id, reply, readAt, best))
    ensures var s' := ClientStep(cfg, s, Receive(id, reply, readAt, best));
            forall other :: other in s'.leases ==> LeaseOk(cfg, s', other)
  {
    var s' := ClientStep(cfg, s, Receive(id, reply, readAt, best));
    if best.Some? && ClientTime(cfg, id, readAt) < best.value {
      BestBacked(cfg, s, id, reply, readAt, best.value);
      ConfirmedLease(cfg, s, id, reply, best.value);
    }
    forall other | other in s'.leases ensures LeaseOk(cfg, s', other) {
      if best.Some? && ClientTime(cfg, id, readAt) < best.value {
        if other != id {
          ConfirmedLeases(cfg, s, id, reply, best.value, other);
        }
      } else {
        NotedLeases(cfg, s, id, reply, other);
      }
    }
  }

  /** What hearing a reply does. The fan-out now counts the server as successful, up to the TTL it
      granted, less the margin, since the fan-out began, and every other server as before. A
      best quorum that is still valid makes the client hold the lease: after an Acquire until
      exactly that instant, after a Renew until that instant or the one it held the lease to
      before, whichever is later. Otherwise no lease changes. */
  lemma HeardReply(cfg: Config, s: State, id: LeaseID, reply: Reply, readAt: int, best: Option<int>)
    requires ClientEnabled(cfg, s, Receive(id, reply, readAt, best))
    ensures var s' := ClientStep(cfg, s, Receive(id, reply, readAt, best));
      && s'.now == s.now && s'.servers == s.servers && s'.requests == s.requests && s'.replies == s.replies
      && reply.op in s'.ops && s'.ops.Keys == s.ops.Keys && s'.leases.Keys == s.leases.Keys && id in s'.leases
      && (forall op :: op in s.ops && op != reply.op ==> s'.ops[op] == s.ops[op])
      && (forall other :: other in s.leases && other != id ==> s'.leases[other] == s.leases[other])
      && Hears(cfg, s.ops[reply.op], s'.ops[reply.op], reply)
      && (if best.Some? && ClientTime(cfg, id, readAt) < best.value
          then Confirms(s.leases[id], s'.leases[id], s.ops[reply.op].kind, best.value)
          else s'.leases[id] == s.leases[id])
  {
    assert forall op :: op in s.ops && op != reply.op ==> Noted(cfg, s, id, reply).ops[op] == s.ops[op];
  }

  ghost predicate Hears(cfg: Config, o: Operation, o': Operation, reply: Reply) {
    && o'.id == o.id && o'.kind == o.kind && o'.ttlMS == o.ttlMS && o'.startedAt == o.startedAt
    && |o'.candidates| == |o.candidates| && |o'.successful| == |o.successful|
    && reply.server < |o.candidates| && reply.server < |o.successful|
    && (forall v :: 0 <= v < |o.successful| ==> (o'.successful[v] <==> v == reply.server || o.successful[v]))
    && (forall v :: 0 <= v < |o.candidates| && v != reply.server ==> o'.candidates[v] == o.candidates[v])
    && (SAFETY_MARGIN_MS < reply.ttlMS <= PROTOCOL_MAX_TTL_MS ==>
          o'.candidates[reply.server] + SAFETY_MARGIN_MS * MS
          == ClientTime(cfg, o.id, o.startedAt) + reply.ttlMS * MS)
  }

  ghost predicate Confirms(lease: Lease, lease': Lease, kind: Kind, best: int) {
    && lease'.key == lease.key && lease'.lifecycle == Holding && lease'.collecting == None
    && (kind != Renew ==> lease'.validUntil == best)
    && (kind == Renew ==> lease.validUntil <= lease'.validUntil && best <= lease'.validUntil
                          && (lease'.validUntil == lease.validUntil || lease'.validUntil == best))
  }

  lemma BestBacked(cfg: Config, s: State, id: LeaseID, reply: Reply, readAt: int, until: int)
    requires ValidConfig(cfg) && Inv(cfg, s) && ClientEnabled(cfg, s, Receive(id, reply, readAt, Some(until)))
    requires ClientTime(cfg, id, readAt) < until
    ensures exists backers :: BackedBy(cfg, Noted(cfg, s, id, reply), id, until, backers)
  {
    assert LeaseOk(cfg, s, id) && OpOk(cfg, s, reply.op);
    NotedCandidates(cfg, s, id, reply);
    var o := NoteReply(cfg, s.ops[reply.op], reply);
    var members :| IsQuorum(o.successful, cfg.q, members) && IsValidity(o.candidates, members, until);
    assert ClientTime(cfg, id, o.startedAt) <= ClientTime(cfg, id, readAt);
    QuorumBacks(cfg, Noted(cfg, s, id, reply), reply.op, members, until);
  }

  lemma NotedCandidates(cfg: Config, s: State, id: LeaseID, reply: Reply)
    requires Inv(cfg, s) && Unheard(cfg, s, id, reply)
    ensures CandidatesOk(cfg, Noted(cfg, s, id, reply), reply.op)
  {
    var o := s.ops[reply.op];
    var o' := NoteReply(cfg, o, reply);
    var s' := Noted(cfg, s, id, reply);
    assert LeaseOk(cfg, s, id);
    forall v | 0 <= v < |o'.successful| && v < |o'.candidates| && o'.successful[v]
               && ClientTime(cfg, o'.id, o'.startedAt) < o'.candidates[v]
      ensures Backed(cfg, s', o'.id, o'.candidates[v], v)
    {
      if v == reply.server {
        assert Grants(cfg, s', o'.id, o'.candidates[v], v, reply);
      } else {
        BackedExtends(cfg, s, s', o.id, o.candidates[v], v);
      }
    }
  }

  /** A quorum whose best validity lies beyond the start of the operation is a set of
      servers that each granted at least that validity. */
  lemma QuorumBacks(cfg: Config, s: State, op: nat, members: set<nat>, until: int)
    requires op in s.ops && |s.ops[op].candidates| == |s.ops[op].successful| == cfg.n && CandidatesOk(cfg, s, op)
    requires IsQuorum(s.ops[op].successful, cfg.q, members) && IsValidity(s.ops[op].candidates, members, until)
    requires ClientTime(cfg, s.ops[op].id, s.ops[op].startedAt) < until
    ensures BackedBy(cfg, s, s.ops[op].id, until, members)
  {
    var o := s.ops[op];
    forall v | v in members ensures Backed(cfg, s, o.id, until, v) {
      var r :| Grants(cfg, s, o.id, o.candidates[v], v, r);
      assert Grants(cfg, s, o.id, until, v, r);
    }
  }

  // ---------- Server steps ----------

  /** A server step touches nothing but the server's history and the replies. */
  lemma ServerExtends(cfg: Config, s: State, step: Step)
    requires ServerEnabled(cfg, s, step)
    ensures var s' := ServerStep(cfg, s, step);
      Extends(s, s') && s'.leases == s.leases && s'.ops == s.ops && s'.requests == s.requests && s'.now == s.now
  {
  }

  lemma ServerInv(cfg: Config, s: State, step: Step)
    requires ValidConfig(cfg) && Inv(cfg, s) && ServerEnabled(cfg, s, step)
    ensures Inv(cfg, ServerStep(cfg, s, step))
  {
    var s' := ServerStep(cfg, s, step);
    ServerExtends(cfg, s, step);
    LeasesExtend(cfg, s, s');
    ServerShape(cfg, s, step);
    forall v, i | 0 <= v < cfg.n && 0 <= i < |s'.servers[v]| ensures InstanceOk(cfg, s', v, i) {
      InstanceStep(cfg, s, step, v, i);
    }
    forall r | r in s'.replies ensures ReplyOk(cfg, s', r) {
      if r in s.replies {
        OldReplyStep(cfg, s, step, r);
      } else {
        NewReplyStep(cfg, s, step, r);
      }
    }
    forall op | op in s'.ops ensures OpOk(cfg, s', op) {
      assert OpOk(cfg, s, op);
    }
    forall r | r in s'.requests ensures RequestOk(cfg, s', r) {
      assert RequestOk(cfg, s, r);
    }
  }

  /** Every instance but the current one of the acting server stays as it is. */
  lemma ServerShape(cfg: Config, s: State, step: Step)
    requires ServerEnabled(cfg, s, step)
    ensures var s' := ServerStep(cfg, s, step);
      && HasServer(s, step.server) && |s'.servers| == |s.servers|
      && (forall v :: 0 <= v < |s.servers| && v != step.server ==> s'.servers[v] == s.servers[v])
      && |s.servers[step.server]| <= |s'.servers[step.server]|
      && (forall i :: 0 <= i < Inc(s, step.server) ==> s'.servers[step.server][i] == s.servers[step.server][i])
      && s'.servers[step.server][Inc(s, step.server)].startedAt == Current(s, step.server).startedAt
      && (if step.Restart? then s'.servers[step.server] == s.servers[step.server] + [Fresh(s.now)]
          else |s'.servers[step.server]| == |s.servers[step.server]|)
  {
  }

  lemma ActingInstance(cfg: Config, s: State, step: Step)
    requires ValidConfig(cfg) && Inv(cfg, s) && ServerEnabled(cfg, s, step)
    ensures InstanceOk(cfg, ServerStep(cfg, s, step), step.server, Inc(s, step.server))
  {
    if step.Execute? {
      ExecuteInstance(cfg, s, step.server, step.work, step.hasRoom);
    } else if step.Admit? || step.Begin? {
      TakingInstance(cfg, s, step);
    } else {
      assert InstanceOk(cfg, s, step.server, Inc(s, step.server));
      CurrentInstance(cfg, s, step);
    }
  }

  lemma RestartedInstance(cfg: Config, s: State, v: nat)
    requires ServerEnabled(cfg, s, Restart(v))
    ensures InstanceOk(cfg, ServerStep(cfg, s, Restart(v)), v, Inc(s, v) + 1)
  {
  }

  lemma InstanceStep(cfg: Config, s: State, step: Step, v: nat, i: nat)
    requires ValidConfig(cfg) && Inv(cfg, s) && ServerEnabled(cfg, s, step)
    requires v < cfg.n && i < |ServerStep(cfg, s, step).servers[v]|
    ensures InstanceOk(cfg, ServerStep(cfg, s, step), v, i)
  {
    ServerShape(cfg, s, step);
    if v != step.server || i < Inc(s, v) {
      ServerExtends(cfg, s, step);
      InstanceExtends(cfg, s, ServerStep(cfg, s, step), v, i);
    } else if i == Inc(s, v) {
      ActingInstance(cfg, s, step);
    } else {
      RestartedInstance(cfg, s, v);
    }
  }

  /** A worker takes a request up, or reads the clock for one it has taken up. */
  lemma TakingInstance(cfg: Config, s: State, step: Step)
    requires ValidConfig(cfg) && Inv(cfg, s) && ServerEnabled(cfg, s, step) && (step.Admit? || step.Begin?)
    ensures InstanceOk(cfg, ServerStep(cfg, s, step), step.server, Inc(s, step.server))
  {
    var inst := Current(s, step.server);
    var s' := ServerStep(cfg, s, step);
    assert InstanceOk(cfg, s, step.server, Inc(s, step.server));
    assert RequestOk(cfg, s, step.req) && OpOk(cfg, s, step.req.op);
    var inst' := s'.servers[step.server][Inc(s, step.server)];
    forall w | w in inst'.busy ensures WorkOk(s', step.server, inst', w) {
      assert w in inst.busy ==> WorkOk(s, step.server, inst, w);
    }
  }

  lemma CurrentInstance(cfg: Config, s: State, step: Step)
    requires ValidConfig(cfg) && ServerEnabled(cfg, s, step) && InstanceOk(cfg, s, step.server, Inc(s, step.server))
    requires !step.Execute? && !step.Admit? && !step.Begin?
    ensures InstanceOk(cfg, ServerStep(cfg, s, step), step.server, Inc(s, step.server))
  {
    var inst := Current(s, step.server);
    var s' := ServerStep(cfg, s, step);
    var inst' := s'.servers[step.server][Inc(s, step.server)];
    forall w | w in inst'.busy ensures WorkOk(s', step.server, inst', w) {
      assert WorkOk(s, step.server, inst, w);
    }
  }

  lemma ExecuteInstance(cfg: Config, s: State, v: nat, w: Work, hasRoom: bool)
    requires ValidConfig(cfg) && Inv(cfg, s) && ServerEnabled(cfg, s, Execute(v, w, hasRoom))
    ensures InstanceOk(cfg, ServerStep(cfg, s, Execute(v, w, hasRoom)), v, Inc(s, v))
  {
    var inc := Inc(s, v);
    var inst := Current(s, v);
    var s' := ServerStep(cfg, s, Execute(v, w, hasRoom));
    var inst' := Current(s', v);
    assert InstanceOk(cfg, s, v, inc) && WorkOk(s, v, inst, w) && RequestOk(cfg, s, w.req);
    forall x | x in inst'.busy ensures WorkOk(s', v, inst', x) {
      assert x in inst.busy ==> WorkOk(s, v, inst, x);
    }
    EffectIds(inst.table, w, cfg.maxTTL(v, inc), cfg.serverClock(v, inc, w.stamp), hasRoom);
  }

  /** An operation stores nothing but its own lease under its own key. */
  lemma EffectIds(t: Table, w: Work, maxTTL: nat, reading: int, hasRoom: bool)
    ensures var t' := Effect(t, w, maxTTL, reading, hasRoom).0;
            forall k :: k in t' ==> (k in t && t'[k].id == t[k].id) || (k == w.req.key && t'[k].id == w.req.id)
  {
  }

  /** No operation removes or shortens a lease whose deadline lies beyond the reading it
      used, unless it releases that very lease. */
  lemma EffectKeeps(t: Table, w: Work, maxTTL: nat, reading: int, hasRoom: bool, key: Key)
    requires key in t && reading < t[key].deadline
    requires w.req.kind == Release && w.req.key == key ==> w.req.id != t[key].id
    ensures var t' := Effect(t, w, maxTTL, reading, hasRoom).0;
            key in t' && t'[key].id == t[key].id && t[key].deadline <= t'[key].deadline
  {
  }

  /** A granting answer leaves the lease stored for at least the granted time. */
  lemma EffectGrants(t: Table, w: Work, maxTTL: nat, reading: int, hasRoom: bool)
    ensures var (t', answer) := Effect(t, w, maxTTL, reading, hasRoom);
            answer.Some? && answer.value.1 > 0 ==>
              && w.req.kind != Release
              && w.req.key in t' && t'[w.req.key].id == w.req.id
              && reading + answer.value.1 * MS <= t'[w.req.key].deadline
  {
  }

  /** Steps of the granting instance that leave its table alone. */
  lemma ReplyUntouched(cfg: Config, s: State, step: Step, r: Reply)
    requires ValidConfig(cfg) && ServerEnabled(cfg, s, step) && !step.Execute? && !step.Cleanup? && !step.Reject?
    requires ReplyOk(cfg, s, r) && r.server == step.server && r.inc == Inc(s, r.server)
    requires InstanceOk(cfg, s, r.server, r.inc)
    ensures ReplyOk(cfg, ServerStep(cfg, s, step), r)
  {
    ServerExtends(cfg, s, step);
  }

  /** A cleanup removes nothing whose deadline the clock has not passed. */
  lemma ReplyCleaned(cfg: Config, s: State, v: nat, keys: set<Key>, readAt: int, r: Reply)
    requires ValidConfig(cfg) && ServerEnabled(cfg, s, Cleanup(v, keys, readAt))
    requires ReplyOk(cfg, s, r) && r.server == v && r.inc == Inc(s, v)
    ensures ReplyOk(cfg, ServerStep(cfg, s, Cleanup(v, keys, readAt)), r)
  {
    assert cfg.serverClock(v, r.inc, readAt) <= cfg.serverClock(v, r.inc, s.now);
  }

  lemma ReplyExecuted(cfg: Config, s: State, v: nat, w: Work, hasRoom: bool, r: Reply)
    requires ValidConfig(cfg) && Inv(cfg, s) && ServerEnabled(cfg, s, Execute(v, w, hasRoom))
    requires r in s.replies && ReplyOk(cfg, s, r) && r.server == v && r.inc == Inc(s, v)
    ensures ReplyOk(cfg, ServerStep(cfg, s, Execute(v, w, hasRoom)), r)
  {
    if Granting(r) && s.leases[s.ops[r.op].id].lifecycle != Released {
      ExecuteKeeps(cfg, s, w, hasRoom, r);
    }
  }

  lemma OldReplyStep(cfg: Config, s: State, step: Step, r: Reply)
    requires ValidConfig(cfg) && Inv(cfg, s) && ServerEnabled(cfg, s, step) && r in s.replies
    ensures ReplyOk(cfg, ServerStep(cfg, s, step), r)
  {
    assert ReplyOk(cfg, s, r);
    assert InstanceOk(cfg, s, r.server, r.inc);
    if r.server != step.server || r.inc < Inc(s, r.server) || step.Reject? {
      ServerExtends(cfg, s, step);
      ServerShape(cfg, s, step);
      ReplyExtends(cfg, s, ServerStep(cfg, s, step), r);
    } else if step.Execute? {
      ReplyExecuted(cfg, s, step.server, step.work, step.hasRoom, r);
    } else if step.Cleanup? {
      ReplyCleaned(cfg, s, step.server, step.keys, step.readAt, r);
    } else {
      ReplyUntouched(cfg, s, step, r);
    }
  }

  /** Whatever a worker executes, the promise of an earlier grant is kept. */
  lemma ExecuteKeeps(cfg: Config, s: State, w: Work, hasRoom: bool, r: Reply)
    requires ValidConfig(cfg) && Inv(cfg, s) && r in s.replies && Granting(r)
    requires r.server < |s.servers| && r.inc == Inc(s, r.server) && w in Current(s, r.server).busy
    requires s.leases[s.ops[r.op].id].lifecycle != Released
    ensures Kept(cfg, s, r, Current(s, r.server).(table :=
              Effect(Current(s, r.server).table, w, cfg.maxTTL(r.server, r.inc),
                cfg.serverClock(r.server, r.inc, w.stamp), hasRoom).0))
  {
    var inst := Current(s, r.server);
    var reading := cfg.serverClock(r.server, r.inc, w.stamp);
    assert ReplyOk(cfg, s, r) && InstanceOk(cfg, s, r.server, r.inc) && WorkOk(s, r.server, inst, w);
    assert RequestOk(cfg, s, w.req) && OpOk(cfg, s, w.req.op);
    assert reading <= cfg.serverClock(r.server, r.inc, s.now);
    var id := s.ops[r.op].id;
    var key := s.leases[id].key;
    if Promised(cfg, r) > cfg.serverClock(r.server, r.inc, s.now) {
      EffectKeeps(inst.table, w, cfg.maxTTL(r.server, r.inc), reading, hasRoom, key);
    }
  }

  lemma NewReplyStep(cfg: Config, s: State, step: Step, r: Reply)
    requires ValidConfig(cfg) && Inv(cfg, s) && ServerEnabled(cfg, s, step)
    requires r in ServerStep(cfg, s, step).replies && r !in s.replies
    ensures ReplyOk(cfg, ServerStep(cfg, s, step), r)
  {
    if step.Execute? {
      var inst := Current(s, step.server);
      var w := step.work;
      assert InstanceOk(cfg, s, step.server, Inc(s, step.server)) && WorkOk(s, step.server, inst, w);
      assert RequestOk(cfg, s, w.req);
      EffectGrants(inst.table, w, cfg.maxTTL(r.server, r.inc), cfg.serverClock(r.server, r.inc, w.stamp), step.hasRoom);
    } else {
      assert RequestOk(cfg, s, step.req);
    }
  }

  // ---------- Runs ----------

  lemma NextInv(cfg: Config, s: State, s': State)
    requires ValidConfig(cfg) && Inv(cfg, s) && Next(cfg, s, s')
    ensures Inv(cfg, s')
  {
    var step :| StepTo(cfg, s, step, s');
    if ClientEnabled(cfg, s, step) && s' == ClientStep(cfg, s, step) {
      ClientInv(cfg, s, step);
    } else {
      ServerInv(cfg, s, step);
    }
  }

  lemma {:induction false} RunInv(cfg: Config, run: seq<State>, k: nat)
    requires ValidConfig(cfg) && IsRun(cfg, run) && k < |run|
    ensures Inv(cfg, run[k])
  {
    if k == 0 {
      InitialInv(cfg, run[0]);
    } else {
      RunInv(cfg, run, k - 1);
      assert NextAt(cfg, run, k - 1);
      NextInv(cfg, run[k - 1], run[k]);
    }
  }
}
