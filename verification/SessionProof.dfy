/** Every step of the server keeps its invariant, and what follows for every run and any
    number of connections: no registration after Close has waited, no dispatch to a worker
    that has exited, each request in exactly one place, and nothing lost on a clean end. */
module SessionProof {
  import opened Types
  import opened Session

  function One(b: bool): nat {
    if b then 1 else 0
  }

  // ---------- Registration ----------

  /** The connection is counted in the server's WaitGroup. */
  predicate Counts(stage: Stage) {
    !stage.Accepted? && !stage.Refused? && !stage.Done?
  }

  /** The connection is in the set of connections. */
  predicate Listed(stage: Stage) {
    Counts(stage) && !stage.Removed?
  }

  /** How many of the first `n` connections are counted. */
  function Counted(stages: seq<Stage>, n: nat): nat
    requires n <= |stages|
  {
    if n == 0 then 0 else Counted(stages, n - 1) + One(Counts(stages[n - 1]))
  }

  /** The mutex is held by whoever is between its lock and its unlock. */
  ghost predicate MutexOk(ctl: Control, stages: seq<Stage>) {
    && (ctl.mu == Some(ByListener) <==> ctl.listener.Locked? || ctl.listener.Checked? || ctl.listener.Added?)
    && (ctl.mu == Some(ByCloser) <==> ctl.closer.ClosingAll?)
    && (ctl.mu == Some(ByFailer) <==> ctl.failer.FailClosing?)
    && (forall c :: 0 <= c < |stages| ==> (stages[c].Leaving? <==> ctl.mu == Some(ByConnection(c))))
    && (ctl.mu.Some? && ctl.mu.value.ByConnection? ==> ctl.mu.value.conn < |stages|)
  }

  /** The listener's own connection is as far as the listener has brought it. */
  ghost predicate ListenerOk(ctl: Control, stages: seq<Stage>) {
    var l := ctl.listener;
    && (l.Took? || l.Locked? || l.Checked? ==> l.conn < |stages| && stages[l.conn].Accepted?)
    && (l.Added? || l.Unlocked? ==> l.conn < |stages| && stages[l.conn].Registered?)
  }

  /** Close has been through the mutex. */
  predicate Swept(closer: Closer) {
    closer.Waiting? || closer.Stopping?
  }

  ghost predicate CloserOk(ctl: Control) {
    && (!ctl.closer.Open? ==> ctl.phase == Closed)
    && (ctl.cancelled ==> Unavailable(ctl.phase))
    && (Swept(ctl.closer) ==> !ctl.listener.Checked? && ctl.connections <= ctl.severed)
    && (ctl.closer.Stopping? ==> ctl.wg == 0)
    && (ctl.failer.PhaseFailed? ==> Unavailable(ctl.phase))
  }

  ghost predicate RegistrationOk(ctl: Control, stages: seq<Stage>) {
    && MutexOk(ctl, stages) && ListenerOk(ctl, stages) && CloserOk(ctl)
    && ctl.wg == Counted(stages, |stages|)
    && (forall c :: c in ctl.connections <==> 0 <= c < |stages| && Listed(stages[c]))
  }

  lemma {:induction false} CountedUpdate(stages: seq<Stage>, n: nat, c: nat, stage: Stage)
    requires n <= |stages| && c < |stages|
    ensures Counted(stages[c := stage], n) ==
      Counted(stages, n) - (if c < n then One(Counts(stages[c])) else 0) + (if c < n then One(Counts(stage)) else 0)
    ensures c < n && Counts(stages[c]) ==> Counted(stages, n) > 0
  {
    if n > 0 {
      CountedUpdate(stages, n - 1, c, stage);
    }
  }

  lemma {:induction false} CountedAppend(stages: seq<Stage>, n: nat, stage: Stage)
    requires n <= |stages|
    ensures Counted(stages + [stage], n) == Counted(stages, n)
  {
    if n > 0 {
      CountedAppend(stages, n - 1, stage);
    }
  }

  lemma AcceptRegistration(s: State)
    requires RegistrationOk(s.ctl, s.stages) && ListenerEnabled(s, Accept)
    ensures RegistrationOk(ListenerApply(s, Accept).ctl, ListenerApply(s, Accept).stages)
  {
    CountedAppend(s.stages, |s.stages|, Accepted);
  }

  lemma ListenerRegistration(s: State, step: ListenerStep)
    requires RegistrationOk(s.ctl, s.stages) && ListenerEnabled(s, step)
    ensures RegistrationOk(ListenerApply(s, step).ctl, ListenerApply(s, step).stages)
  {
    match step {
      case Accept => AcceptRegistration(s);
      case Check => CountedUpdate(s.stages, |s.stages|, s.ctl.listener.conn, Refused);
      case Add => CountedUpdate(s.stages, |s.stages|, s.ctl.listener.conn, Registered);
      case Spawn => CountedUpdate(s.stages, |s.stages|, s.ctl.listener.conn, Starting);
      case _ =>
    }
  }

  lemma ServerRegistration(s: State, step: ServerStep)
    requires RegistrationOk(s.ctl, s.stages) && ServerEnabled(s, step)
    ensures RegistrationOk(ServerApply(s, step).ctl, s.stages)
  {
  }

  lemma ConnectionRegistration(s: State, c: nat, step: ConnectionStep)
    requires RegistrationOk(s.ctl, s.stages) && ConnectionEnabled(s, c, step)
    ensures RegistrationOk(ConnectionApply(s, c, step).ctl, ConnectionApply(s, c, step).stages)
    ensures ConnectionApply(s, c, step).ctl.panicked == s.ctl.panicked
  {
    var s' := ConnectionApply(s, c, step);
    CountedUpdate(s.stages, |s.stages|, c, Done);
    CountedUpdate(s.stages, |s.stages|, c, s'.stages[c]);
  }

  // ---------- Sessions ----------

  predicate NotServed(stage: Stage) {
    stage.Accepted? || stage.Refused? || stage.Registered? || stage.Starting?
  }

  predicate PastReader(stage: Stage) {
    stage.Joined? || stage.Leaving? || stage.Removed? || stage.Done?
  }

  predicate PastServing(stage: Stage) {
    stage.Cancelled? || PastReader(stage)
  }

  ghost predicate FlowOk(phase: Phase, stage: Stage, f: Flow) {
    && (NotServed(stage) || f.reader.Unstarted? ==> f == NewFlow())
    && (stage.Serving? || stage.Cancelled? ==> !f.reader.Unstarted?)
    && (PastReader(stage) ==> f.reader.Ended? || f.reader.Unstarted?)
    && (PastServing(stage) && !f.reader.Unstarted? ==> f.sender.Returned?)
    && (f.cancelled ==> f.sender.Returned?)
    && (f.inputError ==> f.reader.Ended?)
    && (f.sender == Returned(false) ==> f.inputError || f.writeError || Unavailable(phase))
    && (f.responsesDone ==> f.reader.Ended? && f.pending == 0)
    && (f.sender == Returned(true) ==> f.responsesDone && f.responses == [] && f.buffered == [] && f.unsent == [])
    && (f.sender.Idle? ==> f.buffered == [])
    && (!f.sender.Returned? ==> f.unsent == [])
    && (!Unavailable(phase) && f.sender != Returned(false) ==> f.dropped == [])
    && (phase == Quarantine ==> f.pending == 0)
  }

  lemma ReaderFlowOk(s: State, c: nat, step: ReaderStep)
    requires c < |s.stages| && ReaderEnabled(s, c, step) && FlowOk(s.ctl.phase, s.stages[c], s.flows[c])
    requires CloserOk(s.ctl)
    ensures FlowOk(s.ctl.phase, s.stages[c], ReaderFlow(s, c, step))
  {
  }

  /** Whatever a worker drops or answers is still pending in its session. */
  lemma WorkerFlowOk(s: State, w: nat, step: WorkerStep)
    requires WorkerEnabled(s, w, step) && !step.Take? && !step.Exit?
    requires var c := ConnOf(s.pool.workers[w]);
      c < |s.stages| && FlowOk(s.ctl.phase, s.stages[c], s.flows[c]) && s.flows[c].pending > 0 && CloserOk(s.ctl)
    ensures FlowOk(s.ctl.phase, s.stages[ConnOf(s.pool.workers[w])], WorkerFlow(s, w, step))
  {
  }

  /** A sender gives up only for a reason, and drops nothing without one. */
  lemma SenderFlowOk(s: State, c: nat, step: SenderStep)
    requires SenderEnabled(s, c, step) && FlowOk(s.ctl.phase, s.stages[c], s.flows[c]) && CloserOk(s.ctl)
    ensures FlowOk(s.ctl.phase, s.stages[c], SenderFlow(s, c, step))
  {
  }

  lemma ConnectionFlowOk(s: State, c: nat, step: ConnectionStep)
    requires ConnectionEnabled(s, c, step) && FlowOk(s.ctl.phase, s.stages[c], s.flows[c])
    ensures var s' := ConnectionApply(s, c, step); FlowOk(s'.ctl.phase, s'.stages[c], s'.flows[c])
  {
  }

  /** The phase only ever moves on: quarantine, active, failed, closed. */
  lemma ServerFlowOk(s: State, step: ServerStep, stage: Stage, f: Flow)
    requires ServerEnabled(s, step) && FlowOk(s.ctl.phase, stage, f) && CloserOk(s.ctl)
    ensures FlowOk(ServerApply(s, step).ctl.phase, stage, f)
  {
  }

  // ---------- The books of one session ----------

  function Occurs<T(==)>(q: seq<T>, x: T): nat {
    multiset(q)[x]
  }

  function ReaderHolds(r: Reader, x: nat): nat {
    One((r.Got? || r.Direct? || r.Dispatching?) && r.request == x)
  }

  function SenderHolds(sender: Sender, x: nat): nat {
    One(sender.Holding? && sender.request == x)
  }

  /** How often a request occurs in its own session. */
  function Within(f: Flow, x: nat): nat {
    ReaderHolds(f.reader, x) + Occurs(f.responses, x) + SenderHolds(f.sender, x)
    + Occurs(f.buffered, x) + Occurs(f.flushed, x) + Occurs(f.unsent, x) + Occurs(f.dropped, x)
  }

  function WorkerHolds(w: Worker, op: Operation): nat {
    One((w.Taken? || w.Applied?) && w.op == op)
  }

  /** The worker has an operation of the connection that it has not discharged. */
  function Busy(w: Worker, c: nat): nat {
    One(!w.Free? && !w.Exited? && ConnOf(w) == c)
  }

  /** How many operations on a shard queue belong to a connection. */
  function Share(ring: seq<Operation>, c: nat): nat {
    if ring == [] then 0 else Share(ring[..|ring| - 1], c) + One(ring[|ring| - 1].conn == c)
  }

  /** How often an operation occurs on the first `n` shard queues. */
  function Queued(rings: seq<seq<Operation>>, n: nat, op: Operation): nat
    requires n <= |rings|
  {
    if n == 0 then 0 else Queued(rings, n - 1, op) + Occurs(rings[n - 1], op)
  }

  /** How many operations of a connection are on the first `n` shard queues. */
  function Backlog(rings: seq<seq<Operation>>, n: nat, c: nat): nat
    requires n <= |rings|
  {
    if n == 0 then 0 else Backlog(rings, n - 1, c) + Share(rings[n - 1], c)
  }

  /** How often the first `n` workers hold an operation. */
  function Held(workers: seq<Worker>, n: nat, op: Operation): nat
    requires n <= |workers|
  {
    if n == 0 then 0 else Held(workers, n - 1, op) + WorkerHolds(workers[n - 1], op)
  }

  /** How many operations of a connection the first `n` workers have not discharged. */
  function Undischarged(workers: seq<Worker>, n: nat, c: nat): nat
    requires n <= |workers|
  {
    if n == 0 then 0 else Undischarged(workers, n - 1, c) + Busy(workers[n - 1], c)
  }

  /** How often an operation occurs on all shard queues and in the hands of all workers. */
  function InPool(pool: Pool, op: Operation): nat {
    Queued(pool.rings, |pool.rings|, op) + Held(pool.workers, |pool.workers|, op)
  }

  /** How many operations of a connection are queued or not discharged. */
  function Owed(pool: Pool, c: nat): nat {
    Backlog(pool.rings, |pool.rings|, c) + Undischarged(pool.workers, |pool.workers|, c)
  }

  /** Each request read is in exactly one place, and the session's WaitGroup counts exactly
      its dispatched operations that are not yet discharged. */
  ghost predicate Balanced(f: Flow, pool: Pool, c: nat, x: nat) {
    && Within(f, x) + InPool(pool, Operation(c, x)) == One(x < f.received)
    && f.pending == One(f.reader.Dispatching?) + Owed(pool, c)
  }

  lemma {:induction false} ShareAppend(ring: seq<Operation>, op: Operation, c: nat)
    ensures Share(ring + [op], c) == Share(ring, c) + One(op.conn == c)
  {
    assert (ring + [op])[..|ring|] == ring;
  }

  lemma {:induction false} ShareFirst(ring: seq<Operation>, c: nat)
    requires ring != []
    ensures Share(ring, c) == One(ring[0].conn == c) + Share(ring[1..], c)
  {
    var n := |ring| - 1;
    if n > 0 {
      ShareFirst(ring[..n], c);
      assert ring[..n][1..] == ring[1..][..n - 1];
    }
  }

  lemma {:induction false} NoShare(ring: seq<Operation>, op: Operation)
    requires Share(ring, op.conn) == 0
    ensures Occurs(ring, op) == 0
  {
    if ring != [] {
      var n := |ring| - 1;
      NoShare(ring[..n], op);
      assert ring == ring[..n] + [ring[n]];
    }
  }

  lemma OccursAppend<T>(q: seq<T>, y: T, x: T)
    ensures Occurs(q + [y], x) == Occurs(q, x) + One(y == x)
  {
  }

  lemma OccursFirst<T>(q: seq<T>, x: T)
    requires q != []
    ensures Occurs(q, x) == One(q[0] == x) + Occurs(q[1..], x)
  {
    assert q == [q[0]] + q[1..];
  }

  lemma {:induction false} RingUpdate(rings: seq<seq<Operation>>, n: nat, w: nat, ring: seq<Operation>, op: Operation)
    requires w < n <= |rings|
    ensures Queued(rings[w := ring], n, op) == Queued(rings, n, op) - Occurs(rings[w], op) + Occurs(ring, op)
    ensures Backlog(rings[w := ring], n, op.conn) ==
      Backlog(rings, n, op.conn) - Share(rings[w], op.conn) + Share(ring, op.conn)
  {
    if w < n - 1 {
      RingUpdate(rings, n - 1, w, ring, op);
    } else {
      RingSame(rings, n - 1, w, ring, op);
    }
  }

  lemma {:induction false} RingSame(rings: seq<seq<Operation>>, n: nat, w: nat, ring: seq<Operation>, op: Operation)
    requires n <= w < |rings|
    ensures Queued(rings[w := ring], n, op) == Queued(rings, n, op)
    ensures Backlog(rings[w := ring], n, op.conn) == Backlog(rings, n, op.conn)
  {
    if n > 0 {
      RingSame(rings, n - 1, w, ring, op);
    }
  }

  lemma {:induction false} WorkerUpdate(workers: seq<Worker>, n: nat, w: nat, worker: Worker, op: Operation)
    requires w < n <= |workers|
    ensures Held(workers[w := worker], n, op) ==
      Held(workers, n, op) - WorkerHolds(workers[w], op) + WorkerHolds(worker, op)
    ensures Undischarged(workers[w := worker], n, op.conn) ==
      Undischarged(workers, n, op.conn) - Busy(workers[w], op.conn) + Busy(worker, op.conn)
  {
    if w < n - 1 {
      WorkerUpdate(workers, n - 1, w, worker, op);
    } else {
      WorkerSame(workers, n - 1, w, worker, op);
    }
  }

  lemma {:induction false} WorkerSame(workers: seq<Worker>, n: nat, w: nat, worker: Worker, op: Operation)
    requires n <= w < |workers|
    ensures Held(workers[w := worker], n, op) == Held(workers, n, op)
    ensures Undischarged(workers[w := worker], n, op.conn) == Undischarged(workers, n, op.conn)
  {
    if n > 0 {
      WorkerSame(workers, n - 1, w, worker, op);
    }
  }

  // ---------- Moves ----------

  /** Putting an operation on a shard queue. */
  lemma PoolDispatch(pool: Pool, w: nat, put: Operation, op: Operation)
    requires w < |pool.rings|
    ensures var pool' := pool.(rings := pool.rings[w := pool.rings[w] + [put]]);
      && InPool(pool', op) == InPool(pool, op) + One(put == op)
      && Owed(pool', op.conn) == Owed(pool, op.conn) + One(put.conn == op.conn)
  {
    RingUpdate(pool.rings, |pool.rings|, w, pool.rings[w] + [put], op);
    OccursAppend(pool.rings[w], put, op);
    ShareAppend(pool.rings[w], put, op.conn);
  }

  /** A worker takes the first operation off its queue. */
  lemma PoolTake(pool: Pool, w: nat, op: Operation)
    requires w < |pool.rings| && w < |pool.workers| && pool.workers[w].Free? && pool.rings[w] != []
    ensures var pool' := pool.(rings := pool.rings[w := pool.rings[w][1..]],
                               workers := pool.workers[w := Taken(pool.rings[w][0])]);
      InPool(pool', op) == InPool(pool, op) && Owed(pool', op.conn) == Owed(pool, op.conn)
  {
    RingUpdate(pool.rings, |pool.rings|, w, pool.rings[w][1..], op);
    WorkerUpdate(pool.workers, |pool.workers|, w, Taken(pool.rings[w][0]), op);
    OccursFirst(pool.rings[w], op);
    ShareFirst(pool.rings[w], op.conn);
  }

  lemma PoolMove(pool: Pool, w: nat, worker: Worker, op: Operation)
    requires w < |pool.workers|
    ensures var pool' := pool.(workers := pool.workers[w := worker]);
      && InPool(pool', op) == InPool(pool, op) - WorkerHolds(pool.workers[w], op) + WorkerHolds(worker, op)
      && Owed(pool', op.conn) == Owed(pool, op.conn) - Busy(pool.workers[w], op.conn) + Busy(worker, op.conn)
  {
    WorkerUpdate(pool.workers, |pool.workers|, w, worker, op);
  }

  // ---------- One step, one session ----------

  lemma ReaderBalance(s: State, c: nat, step: ReaderStep, x: nat)
    requires ReaderEnabled(s, c, step) && !step.Dispatch? && Balanced(s.flows[c], s.pool, c, x)
    ensures Balanced(ReaderFlow(s, c, step), s.pool, c, x)
  {
    var f := s.flows[c];
    match step {
      case AnswerDirect => OccursAppend(f.responses, f.reader.request, x);
      case DropDirect => OccursAppend(f.dropped, f.reader.request, x);
      case RefuseDispatch => OccursAppend(f.dropped, f.reader.request, x);
      case _ =>
    }
  }

  lemma DispatchBalance(s: State, c: nat, w: nat, d: nat, x: nat)
    requires ReaderEnabled(s, c, Dispatch(w)) && d < |s.flows| && Balanced(s.flows[d], s.pool, d, x)
    ensures var s' := ReaderApply(s, c, Dispatch(w)); Balanced(s'.flows[d], s'.pool, d, x)
  {
    PoolDispatch(s.pool, w, Operation(c, s.flows[c].reader.request), Operation(d, x));
  }

  lemma BufferWithin(s: State, c: nat, full: bool, x: nat)
    requires SenderEnabled(s, c, Buffer(full))
    ensures Within(SenderFlow(s, c, Buffer(full)), x) == Within(s.flows[c], x)
  {
    var f := s.flows[c];
    OccursAppend(f.buffered, f.sender.request, x);
    assert Occurs(f.flushed + f.buffered, x) == Occurs(f.flushed, x) + Occurs(f.buffered, x);
  }

  lemma SenderWithin(s: State, c: nat, step: SenderStep, x: nat)
    requires SenderEnabled(s, c, step)
    ensures Within(SenderFlow(s, c, step), x) == Within(s.flows[c], x)
  {
    var f := s.flows[c];
    match step {
      case Dequeue => OccursFirst(f.responses, x);
      case Buffer(full) => BufferWithin(s, c, full, x);
      case Fail(_) =>
        if f.sender.Holding? {
          OccursAppend(f.unsent, f.sender.request, x);
        }
      case Discard =>
        OccursFirst(f.responses, x);
        OccursAppend(f.unsent, f.responses[0], x);
      case _ =>
    }
  }

  lemma SenderBalance(s: State, c: nat, step: SenderStep, x: nat)
    requires SenderEnabled(s, c, step) && Balanced(s.flows[c], s.pool, c, x)
    ensures Balanced(SenderFlow(s, c, step), s.pool, c, x)
  {
    SenderWithin(s, c, step, x);
  }

  lemma TakeBalance(s: State, w: nat, d: nat, x: nat)
    requires WorkerEnabled(s, w, Take) && d < |s.flows| && Balanced(s.flows[d], s.pool, d, x)
    ensures Balanced(s.flows[d], WorkerApply(s, w, Take).pool, d, x)
  {
    PoolTake(s.pool, w, Operation(d, x));
  }

  /** The request the worker's step settles, one way or the other, enters its session again. */
  lemma WorkerWithin(s: State, w: nat, step: WorkerStep, x: nat)
    requires WorkerEnabled(s, w, step) && !step.Take? && !step.Exit?
    ensures var me := s.pool.workers[w]; var f := s.flows[ConnOf(me)];
      && Within(WorkerFlow(s, w, step), x) ==
           Within(f, x) + One((step.Answer? || step.Skip? || step.DropAnswer?) && me.op.request == x)
      && WorkerFlow(s, w, step).received == f.received && WorkerFlow(s, w, step).reader == f.reader
  {
    var me := s.pool.workers[w];
    var f := s.flows[ConnOf(me)];
    match step {
      case Answer => OccursAppend(f.responses, me.op.request, x);
      case Skip => OccursAppend(f.dropped, me.op.request, x);
      case DropAnswer => OccursAppend(f.dropped, me.op.request, x);
      case _ =>
    }
  }

  /** How the worker's step changes what the pool holds of one connection. */
  lemma WorkerPool(s: State, w: nat, step: WorkerStep, d: nat, x: nat)
    requires WorkerEnabled(s, w, step) && !step.Take?
    ensures var me, pool' := s.pool.workers[w], WorkerApply(s, w, step).pool; var op := Operation(d, x);
      && InPool(pool', op) == InPool(s.pool, op) - One((step.Answer? || step.Skip? || step.DropAnswer?) && me.op == op)
      && Owed(pool', d) == Owed(s.pool, d) - One(step.Discharge? && me.conn == d)
  {
    PoolMove(s.pool, w, Moved(s, w, step), Operation(d, x));
  }

  lemma WorkerBalance(s: State, w: nat, step: WorkerStep, d: nat, x: nat)
    requires WorkerEnabled(s, w, step) && !step.Take? && d < |s.flows| && Balanced(s.flows[d], s.pool, d, x)
    ensures var s' := WorkerApply(s, w, step); Balanced(s'.flows[d], s'.pool, d, x)
  {
    WorkerPool(s, w, step, d, x);
    if !step.Exit? {
      WorkerWithin(s, w, step, x);
      OneBusy(s.pool, w, d);
    }
  }

  /** An operation a worker has not discharged is owed to its connection. */
  lemma OneBusy(pool: Pool, w: nat, c: nat)
    requires w < |pool.workers|
    ensures Busy(pool.workers[w], c) <= Owed(pool, c)
  {
    WorkerUpdate(pool.workers, |pool.workers|, w, Free, Operation(c, 0));
  }

  // ---------- The invariant ----------

  ghost predicate PoolOk(ctl: Control, conns: nat, pool: Pool) {
    && |pool.rings| == |pool.workers| == |pool.stopped|
    && (forall w :: 0 <= w < |pool.stopped| && pool.stopped[w] ==> ctl.closer.Stopping?)
    && (forall w :: 0 <= w < |pool.workers| && pool.workers[w].Exited? ==> pool.stopped[w] && pool.rings[w] == [])
    && (forall w :: 0 <= w < |pool.workers| && !pool.workers[w].Free? && !pool.workers[w].Exited? ==>
         ConnOf(pool.workers[w]) < conns)
    && (forall w, i :: 0 <= w < |pool.rings| && 0 <= i < |pool.rings[w]| ==> pool.rings[w][i].conn < conns)
  }

  ghost predicate SessionOk(s: State, c: nat)
    requires c < |s.stages| && c < |s.flows|
  {
    FlowOk(s.ctl.phase, s.stages[c], s.flows[c]) && forall x: nat :: Balanced(s.flows[c], s.pool, c, x)
  }

  ghost predicate Inv(s: State) {
    && |s.stages| == |s.flows| && !s.ctl.panicked
    && RegistrationOk(s.ctl, s.stages)
    && PoolOk(s.ctl, |s.flows|, s.pool)
    && (forall c :: 0 <= c < |s.flows| ==> SessionOk(s, c))
  }

  lemma {:induction false} ForeignShare(ring: seq<Operation>, c: nat)
    requires forall i :: 0 <= i < |ring| ==> ring[i].conn != c
    ensures Share(ring, c) == 0
  {
    if ring != [] {
      ForeignShare(ring[..|ring| - 1], c);
    }
  }

  /** A connection still to come has nothing in the pool. */
  lemma {:induction false} NothingYet(ctl: Control, conns: nat, pool: Pool, n: nat, op: Operation)
    requires PoolOk(ctl, conns, pool) && n <= |pool.rings| && op.conn >= conns
    ensures Queued(pool.rings, n, op) == 0 && Backlog(pool.rings, n, op.conn) == 0
    ensures Held(pool.workers, n, op) == 0 && Undischarged(pool.workers, n, op.conn) == 0
  {
    if n > 0 {
      NothingYet(ctl, conns, pool, n - 1, op);
      ForeignShare(pool.rings[n - 1], op.conn);
      NoShare(pool.rings[n - 1], op);
    }
  }

  lemma InitialInv(s: State)
    requires Initial(s)
    ensures Inv(s)
  {
  }

  // ---------- Every step keeps it ----------

  lemma ListenerInv(s: State, step: ListenerStep)
    requires Inv(s) && ListenerEnabled(s, step)
    ensures Inv(ListenerApply(s, step))
  {
    var s' := ListenerApply(s, step);
    ListenerRegistration(s, step);
    forall c | 0 <= c < |s'.flows| ensures SessionOk(s', c) {
      if c < |s.flows| {
        assert SessionOk(s, c);
      } else {
        forall x: nat ensures Balanced(s'.flows[c], s'.pool, c, x) {
          NothingYet(s.ctl, |s.flows|, s.pool, |s.pool.rings|, Operation(c, x));
        }
      }
    }
  }

  lemma ServerInv(s: State, step: ServerStep)
    requires Inv(s) && ServerEnabled(s, step)
    ensures Inv(ServerApply(s, step))
  {
    var s' := ServerApply(s, step);
    ServerRegistration(s, step);
    forall c | 0 <= c < |s'.flows| ensures SessionOk(s', c) {
      assert SessionOk(s, c);
      ServerFlowOk(s, step, s.stages[c], s.flows[c]);
      forall x: nat ensures Balanced(s'.flows[c], s'.pool, c, x) {
        assert Balanced(s.flows[c], s.pool, c, x);
      }
    }
  }

  lemma ConnectionInv(s: State, c: nat, step: ConnectionStep)
    requires Inv(s) && ConnectionEnabled(s, c, step)
    ensures Inv(ConnectionApply(s, c, step))
  {
    var s' := ConnectionApply(s, c, step);
    ConnectionRegistration(s, c, step);
    assert SessionOk(s, c);
    ConnectionFlowOk(s, c, step);
    forall d | 0 <= d < |s'.flows| ensures SessionOk(s', d) {
      assert SessionOk(s, d);
      forall x: nat ensures Balanced(s'.flows[d], s'.pool, d, x) {
        assert Balanced(s.flows[d], s.pool, d, x);
      }
    }
  }

  lemma SenderInv(s: State, c: nat, step: SenderStep)
    requires Inv(s) && SenderEnabled(s, c, step)
    ensures Inv(SenderApply(s, c, step))
  {
    var s' := SenderApply(s, c, step);
    forall d | 0 <= d < |s'.flows| ensures SessionOk(s', d) {
      assert SessionOk(s, d);
      if d == c {
        SenderFlowOk(s, c, step);
        forall x: nat ensures Balanced(s'.flows[d], s'.pool, d, x) {
          SenderBalance(s, c, step, x);
        }
      }
    }
  }

  /** A connection with a reader at work is counted, so Close is not past its wait. */
  lemma ReaderCounts(s: State, c: nat)
    requires Inv(s) && c < |s.flows| && !s.flows[c].reader.Ended? && !s.flows[c].reader.Unstarted?
    ensures Counts(s.stages[c]) && !s.ctl.closer.Stopping?
  {
    assert SessionOk(s, c);
    CountedUpdate(s.stages, |s.stages|, c, Done);
  }

  lemma ReaderInv(s: State, c: nat, step: ReaderStep)
    requires Inv(s) && ReaderEnabled(s, c, step) && !step.Dispatch?
    ensures Inv(ReaderApply(s, c, step))
  {
    var s' := ReaderApply(s, c, step);
    assert SessionOk(s, c);
    assert Balanced(s.flows[c], s.pool, c, 0);
    forall d | 0 <= d < |s'.flows| ensures SessionOk(s', d) {
      assert SessionOk(s, d);
      if d == c {
        ReaderFlowOk(s, c, step);
        forall x: nat ensures Balanced(s'.flows[d], s'.pool, d, x) {
          ReaderBalance(s, c, step, x);
        }
      }
    }
  }

  lemma DispatchInv(s: State, c: nat, w: nat)
    requires Inv(s) && ReaderEnabled(s, c, Dispatch(w))
    ensures Inv(ReaderApply(s, c, Dispatch(w)))
  {
    var s' := ReaderApply(s, c, Dispatch(w));
    ReaderCounts(s, c);
    assert SessionOk(s, c);
    ReaderFlowOk(s, c, Dispatch(w));
    forall d | 0 <= d < |s'.flows| ensures SessionOk(s', d) {
      assert SessionOk(s, d);
      forall x: nat ensures Balanced(s'.flows[d], s'.pool, d, x) {
        DispatchBalance(s, c, w, d, x);
      }
    }
  }

  lemma WorkerPoolOk(s: State, w: nat, step: WorkerStep)
    requires PoolOk(s.ctl, |s.flows|, s.pool) && WorkerEnabled(s, w, step)
    ensures PoolOk(WorkerApply(s, w, step).ctl, |s.flows|, WorkerApply(s, w, step).pool)
  {
  }

  lemma WorkerInv(s: State, w: nat, step: WorkerStep)
    requires Inv(s) && WorkerEnabled(s, w, step)
    ensures Inv(WorkerApply(s, w, step))
  {
    var s' := WorkerApply(s, w, step);
    WorkerPoolOk(s, w, step);
    forall d | 0 <= d < |s'.flows| ensures SessionOk(s', d) {
      WorkerSession(s, w, step, d);
    }
    if step.Discharge? {
      var c := s.pool.workers[w].conn;
      assert SessionOk(s, c) && Balanced(s.flows[c], s.pool, c, 0);
      OneBusy(s.pool, w, c);
    }
  }

  lemma WorkerSession(s: State, w: nat, step: WorkerStep, d: nat)
    requires Inv(s) && WorkerEnabled(s, w, step) && d < |s.flows|
    ensures SessionOk(WorkerApply(s, w, step), d)
  {
    assert SessionOk(s, d);
    var s' := WorkerApply(s, w, step);
    if !step.Take? && !step.Exit? && d == ConnOf(s.pool.workers[w]) {
      assert Balanced(s.flows[d], s.pool, d, 0);
      OneBusy(s.pool, w, d);
      WorkerFlowOk(s, w, step);
    }
    forall x: nat ensures Balanced(s'.flows[d], s'.pool, d, x) {
      if step.Take? {
        TakeBalance(s, w, d, x);
      } else {
        WorkerBalance(s, w, step, d, x);
      }
    }
  }

  lemma NextInv(s: State, s': State)
    requires Inv(s) && Next(s, s')
    ensures Inv(s')
  {
    if ListenerNext(s, s') {
      var step :| ListenerEnabled(s, step) && s' == ListenerApply(s, step);
      ListenerInv(s, step);
    } else if ServerNext(s, s') {
      var step :| ServerEnabled(s, step) && s' == ServerApply(s, step);
      ServerInv(s, step);
    } else if ConnectionNext(s, s') {
      var c, step :| ConnectionEnabled(s, c, step) && s' == ConnectionApply(s, c, step);
      ConnectionInv(s, c, step);
    } else if ReaderNext(s, s') {
      var c, step :| ReaderEnabled(s, c, step) && s' == ReaderApply(s, c, step);
      if step.Dispatch? {
        DispatchInv(s, c, step.shard);
      } else {
        ReaderInv(s, c, step);
      }
    } else if WorkerNext(s, s') {
      var w, step :| WorkerEnabled(s, w, step) && s' == WorkerApply(s, w, step);
      WorkerInv(s, w, step);
    } else {
      var c, step :| SenderEnabled(s, c, step) && s' == SenderApply(s, c, step);
      SenderInv(s, c, step);
    }
  }

  lemma {:induction false} RunInv(run: seq<State>, k: nat)
    requires IsRun(run) && k < |run|
    ensures Inv(run[k])
  {
    if k == 0 {
      InitialInv(run[0]);
    } else {
      RunInv(run, k - 1);
      assert NextAt(run, k - 1);
      NextInv(run[k - 1], run[k]);
    }
  }

  // ---------- What it means ----------

  /** Once the wait of Close has returned, and forever after: no connection is counted, none
      can be added any more, and no reader of any connection is at work. While Close still
      waits, every connection it waits for has been closed. */
  lemma NoAddAfterWait(run: seq<State>, k: nat)
    requires IsRun(run) && k < |run|
    ensures var s := run[k];
      && (Swept(s.ctl.closer) ==> !ListenerEnabled(s, Add) && s.ctl.connections <= s.ctl.severed)
      && (s.ctl.closer.Stopping? ==>
            && s.ctl.wg == 0
            && (forall c :: 0 <= c < |s.stages| ==> !Counts(s.stages[c]))
            && (forall c :: 0 <= c < |s.flows| ==> s.flows[c].reader.Ended? || s.flows[c].reader.Unstarted?))
  {
    var s := run[k];
    RunInv(run, k);
    if s.ctl.closer.Stopping? {
      forall c | 0 <= c < |s.stages| ensures !Counts(s.stages[c]) {
        CountedUpdate(s.stages, |s.stages|, c, Done);
      }
      forall c | 0 <= c < |s.flows| ensures s.flows[c].reader.Ended? || s.flows[c].reader.Unstarted? {
        assert SessionOk(s, c);
      }
    }
  }

  /** A worker that has exited leaves an empty queue, and no reader of any connection can put
      an operation on that queue, or any other, again. */
  lemma NoDispatchAfterExit(run: seq<State>, k: nat, w: nat, c: nat, other: nat)
    requires IsRun(run) && k < |run| && w < |run[k].pool.workers| && run[k].pool.workers[w].Exited?
    ensures w < |run[k].pool.rings| && run[k].pool.rings[w] == []
    ensures !ReaderEnabled(run[k], c, Dispatch(other))
  {
    RunInv(run, k);
    NoAddAfterWait(run, k);
  }

  /** In every run each request a connection has read is in exactly one place, the
      connection's own WaitGroup counts exactly its dispatched operations not yet discharged,
      and neither WaitGroup ever goes below zero. */
  lemma EveryRequestOnce(run: seq<State>, k: nat, c: nat, x: nat)
    requires IsRun(run) && k < |run| && c < |run[k].flows|
    ensures var s := run[k];
      && Within(s.flows[c], x) + InPool(s.pool, Operation(c, x)) == One(x < s.flows[c].received)
      && s.flows[c].pending == One(s.flows[c].reader.Dispatching?) + Owed(s.pool, c)
      && s.ctl.wg == Counted(s.stages, |s.stages|)
      && !s.ctl.panicked
  {
    RunInv(run, k);
    assert SessionOk(run[k], c) && Balanced(run[k].flows[c], run[k].pool, c, x);
  }

  /** Whoever calls Done finds something counted: a connection about to finish, a reader whose
      dispatch was refused, and a worker about to discharge an operation. */
  lemma DoneIsCounted(run: seq<State>, k: nat, c: nat, w: nat)
    requires IsRun(run) && k < |run|
    ensures var s := run[k];
      && (ConnectionEnabled(s, c, Finish) ==> s.ctl.wg > 0)
      && (ReaderEnabled(s, c, RefuseDispatch) ==> s.flows[c].pending > 0)
      && (WorkerEnabled(s, w, Discharge) ==> s.flows[ConnOf(s.pool.workers[w])].pending > 0)
  {
    var s := run[k];
    RunInv(run, k);
    if ConnectionEnabled(s, c, Finish) {
      CountedUpdate(s.stages, |s.stages|, c, Done);
    }
    if ReaderEnabled(s, c, RefuseDispatch) {
      assert SessionOk(s, c) && Balanced(s.flows[c], s.pool, c, 0);
    }
    if WorkerEnabled(s, w, Discharge) {
      var conn := ConnOf(s.pool.workers[w]);
      assert SessionOk(s, conn) && Balanced(s.flows[conn], s.pool, conn, 0);
      BusyIsOwed(s.pool.workers, |s.pool.workers|, w, conn);
    }
  }

  lemma {:induction false} BusyIsOwed(workers: seq<Worker>, n: nat, w: nat, c: nat)
    requires w < n <= |workers|
    ensures Undischarged(workers, n, c) >= Busy(workers[w], c)
  {
    if w < n - 1 {
      BusyIsOwed(workers, n - 1, w, c);
    }
  }

  /** A worker with an operation is never stuck, and the session it belongs to exists. */
  lemma WorkerProceeds(run: seq<State>, k: nat, w: nat)
    requires IsRun(run) && k < |run| && w < |run[k].pool.workers|
    ensures var s := run[k]; var me := s.pool.workers[w];
      && (me.Taken? ==> WorkerEnabled(s, w, if s.ctl.phase == Active then ApplyOperation else Skip))
      && (me.Applied? ==> WorkerEnabled(s, w, Answer)) && (me.Settled? ==> WorkerEnabled(s, w, Discharge))
  {
    RunInv(run, k);
  }

  lemma {:induction false} NothingOwed(pool: Pool, n: nat, op: Operation)
    requires n <= |pool.rings| == |pool.workers|
    requires Backlog(pool.rings, n, op.conn) == 0 && Undischarged(pool.workers, n, op.conn) == 0
    ensures Queued(pool.rings, n, op) == 0 && Held(pool.workers, n, op) == 0
  {
    if n > 0 {
      NothingOwed(pool, n - 1, op);
      NoShare(pool.rings[n - 1], op);
    }
  }

  /** When a sender returns because the responses have ended, every request its connection has
      read was answered and flushed exactly once, or dropped; and as long as the server has
      neither failed nor been closed, none was dropped. */
  lemma ResponsesEnd(run: seq<State>, k: nat, c: nat, x: nat)
    requires IsRun(run) && k < |run| && c < |run[k].flows| && run[k].flows[c].sender == Returned(true)
    ensures var f := run[k].flows[c];
      && Occurs(f.flushed, x) + Occurs(f.dropped, x) == One(x < f.received)
      && (!Unavailable(run[k].ctl.phase) ==> Occurs(f.flushed, x) == One(x < f.received))
  {
    RunInv(run, k);
    var s := run[k];
    assert SessionOk(s, c) && Balanced(s.flows[c], s.pool, c, x);
    NothingOwed(s.pool, |s.pool.rings|, Operation(c, x));
  }

  /** A session that has stopped serving has lost nothing, unless its input ended with an
      error, a write failed, or the server has failed or been closed: after a clean end of the
      input, every request read was answered and its response flushed, exactly once. */
  lemma CleanEnd(run: seq<State>, k: nat, c: nat, x: nat)
    requires IsRun(run) && k < |run| && c < |run[k].flows| && c < |run[k].stages| && PastServing(run[k].stages[c])
    requires !run[k].flows[c].inputError && !run[k].flows[c].writeError && !Unavailable(run[k].ctl.phase)
    ensures var f := run[k].flows[c];
      Occurs(f.flushed, x) == One(x < f.received) && f.dropped == [] && f.unsent == [] && f.pending == 0
  {
    RunInv(run, k);
    assert SessionOk(run[k], c);
    if !run[k].flows[c].reader.Unstarted? {
      ResponsesEnd(run, k, c, x);
    }
  }
}
