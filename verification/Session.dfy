/** A server and all its connections. The listener registers connections under a mutex and
    counts them in a WaitGroup; each connection has a reader, which answers directly or
    dispatches to the shard queues, and a sender, which drains, buffers and flushes responses;
    the shard queues and their workers are shared by all connections. Each connection counts
    its dispatched operations in a WaitGroup of its own. Close cancels, closes the registered
    connections, waits for the first WaitGroup and only then stops the shard workers. */
module Session {
  import opened Types

  datatype Phase = Quarantine | Active | Failed | Closed

  predicate Unavailable(phase: Phase) {
    phase == Failed || phase == Closed
  }

  /** A request of one connection; requests are numbered in the order they are read. */
  datatype Operation = Operation(conn: nat, request: nat)

  // ---------- Connections and Close ----------

  /** Where a connection stands, from Accept to the end of its goroutine. */
  datatype Stage =
    | Accepted
    | Refused
    | Registered
    | Starting
    | Serving
    | Cancelled
    | Joined
    | Leaving
    | Removed
    | Done

  /** Who holds the mutex of the connection set. */
  datatype Holder = ByListener | ByCloser | ByFailer | ByConnection(conn: nat)

  datatype Listener =
    | Accepting
    | Took(conn: nat)
    | Locked(conn: nat)
    | Checked(conn: nat)
    | Added(conn: nat)
    | Unlocked(conn: nat)
    | Stopped

  datatype Closer = Open | PhaseStored | AllCancelled | ClosingAll | Waiting | Stopping(next: nat)

  datatype Failer = Healthy | PhaseFailed | FailCancelled | FailClosing | Reported

  /** `severed` lists the connections that Close or a failure has closed; no guard reads it.
      `panicked` is set by a WaitGroup that would go below zero. */
  datatype Control = Control(
    phase: Phase,
    cancelled: bool,
    mu: Option<Holder>,
    connections: set<nat>,
    severed: set<nat>,
    wg: nat,
    listener: Listener,
    closer: Closer,
    failer: Failer,
    panicked: bool)

  // ---------- Requests and responses ----------

  datatype Reader =
    | Unstarted
    | Reading
    | Got(request: nat)
    | Direct(request: nat)
    | Dispatching(request: nat)
    | Ended

  /** At `Idle` the sender waits for a response, at `Trying` it looks for another one to put
      behind those it has buffered. */
  datatype Sender =
    | Idle
    | Holding(request: nat)
    | Trying
    | Flushing
    | Returned(clean: bool)

  /** The state of one connection's session. `inputError` is what the reader tells the sender
      when it ends: false for a clean end of the input. `dropped` lists requests that were
      never answered, `unsent` answers that were never sent, and `writeError` tells whether a
      write has failed; no guard reads these three. */
  datatype Flow = Flow(
    cancelled: bool,
    received: nat,
    reader: Reader,
    inputError: bool,
    pending: nat,
    responses: seq<nat>,
    responsesDone: bool,
    sender: Sender,
    buffered: seq<nat>,
    flushed: seq<nat>,
    writeError: bool,
    unsent: seq<nat>,
    dropped: seq<nat>)

  function NewFlow(): Flow {
    Flow(false, 0, Unstarted, false, 0, [], false, Idle, [], [], false, [], [])
  }

  datatype Worker =
    | Free
    | Taken(op: Operation)
    | Applied(op: Operation)
    | Settled(conn: nat)
    | Exited

  /** A WaitGroup's Done, apart from the panic at zero. */
  function Decrement(n: nat): nat {
    if n == 0 then 0 else n - 1
  }

  datatype Pool = Pool(rings: seq<seq<Operation>>, workers: seq<Worker>, stopped: seq<bool>)

  datatype State = State(ctl: Control, stages: seq<Stage>, flows: seq<Flow>, pool: Pool)

  // ---------- Steps of the listener ----------

  datatype ListenerStep = Accept | AcceptFails | Lock | Check | Add | Unlock | Spawn

  predicate ListenerEnabled(s: State, step: ListenerStep) {
    var l := s.ctl.listener;
    match step
    case Accept => l.Accepting?
    case AcceptFails => l.Accepting?
    case Lock => l.Took? && s.ctl.mu == None
    case Check => l.Locked? && l.conn < |s.stages|
    case Add => l.Checked? && l.conn < |s.stages|
    case Unlock => l.Added?
    case Spawn => l.Unlocked? && l.conn < |s.stages|
  }

  function ListenerApply(s: State, step: ListenerStep): State
    requires ListenerEnabled(s, step)
  {
    var ctl := s.ctl;
    match step
    case Accept =>
      s.(ctl := ctl.(listener := Took(|s.stages|)), stages := s.stages + [Accepted], flows := s.flows + [NewFlow()])
    case AcceptFails => s.(ctl := ctl.(listener := Stopped))
    case Lock => s.(ctl := ctl.(listener := Locked(ctl.listener.conn), mu := Some(ByListener)))
    case Check =>
      if Unavailable(ctl.phase) then
        s.(ctl := ctl.(listener := Stopped, mu := None), stages := s.stages[ctl.listener.conn := Refused])
      else s.(ctl := ctl.(listener := Checked(ctl.listener.conn)))
    case Add =>
      var c := ctl.listener.conn;
      s.(ctl := ctl.(listener := Added(c), connections := ctl.connections + {c}, wg := ctl.wg + 1),
         stages := s.stages[c := Registered])
    case Unlock => s.(ctl := ctl.(listener := Unlocked(ctl.listener.conn), mu := None))
    case Spawn => s.(ctl := ctl.(listener := Accepting), stages := s.stages[ctl.listener.conn := Starting])
  }

  // ---------- Steps of Close, of a failure and of the quarantine timer ----------

  datatype ServerStep =
    | StorePhase
    | CancelAll
    | LockAll
    | CloseAll
    | WaitReturns
    | StopShard
    | SetFailed
    | CancelFailed
    | LockFailed
    | CloseFailed
    | Activate

  predicate ServerEnabled(s: State, step: ServerStep) {
    var ctl := s.ctl;
    match step
    case StorePhase => ctl.closer.Open?
    case CancelAll => ctl.closer.PhaseStored?
    case LockAll => ctl.closer.AllCancelled? && ctl.mu == None
    case CloseAll => ctl.closer.ClosingAll?
    case WaitReturns => ctl.closer.Waiting? && ctl.wg == 0
    case StopShard => ctl.closer.Stopping? && ctl.closer.next < |s.pool.stopped|
    case SetFailed => ctl.failer.Healthy?
    case CancelFailed => ctl.failer.PhaseFailed?
    case LockFailed => ctl.failer.FailCancelled? && ctl.mu == None
    case CloseFailed => ctl.failer.FailClosing?
    case Activate => ctl.phase == Quarantine
  }

  function ServerControl(s: State, step: ServerStep): Control
    requires ServerEnabled(s, step)
  {
    var ctl := s.ctl;
    match step
    case StorePhase => ctl.(phase := Closed, closer := PhaseStored)
    case CancelAll => ctl.(cancelled := true, closer := AllCancelled)
    case LockAll => ctl.(mu := Some(ByCloser), closer := ClosingAll)
    case CloseAll => ctl.(severed := ctl.severed + ctl.connections, mu := None, closer := Waiting)
    case WaitReturns => ctl.(closer := Stopping(0))
    case StopShard => ctl.(closer := Stopping(ctl.closer.next + 1))
    case SetFailed =>
      if ctl.phase == Closed then ctl.(failer := Reported) else ctl.(phase := Failed, failer := PhaseFailed)
    case CancelFailed => ctl.(cancelled := true, failer := FailCancelled)
    case LockFailed => ctl.(mu := Some(ByFailer), failer := FailClosing)
    case CloseFailed => ctl.(severed := ctl.severed + ctl.connections, mu := None, failer := Reported)
    case Activate => ctl.(phase := Active)
  }

  function ServerApply(s: State, step: ServerStep): State
    requires ServerEnabled(s, step)
  {
    s.(ctl := ServerControl(s, step),
       pool := if step.StopShard? then s.pool.(stopped := s.pool.stopped[s.ctl.closer.next := true]) else s.pool)
  }

  // ---------- Steps of a connection's goroutine ----------

  datatype ConnectionStep = Start | CancelOwn | JoinReader | LockSet | Remove | Finish

  predicate ConnectionEnabled(s: State, c: nat, step: ConnectionStep) {
    && c < |s.stages| && c < |s.flows|
    && match step
       case Start => s.stages[c].Starting?
       case CancelOwn => s.stages[c].Serving? && s.flows[c].sender.Returned?
       case JoinReader => s.stages[c].Cancelled? && s.flows[c].reader.Ended?
       case LockSet => s.stages[c].Joined? && s.ctl.mu == None
       case Remove => s.stages[c].Leaving?
       case Finish => s.stages[c].Removed?
  }

  function ConnectionApply(s: State, c: nat, step: ConnectionStep): State
    requires ConnectionEnabled(s, c, step)
  {
    var ctl := s.ctl;
    match step
    case Start =>
      if Unavailable(ctl.phase) then s.(stages := s.stages[c := Joined])
      else s.(stages := s.stages[c := Serving], flows := s.flows[c := s.flows[c].(reader := Reading)])
    case CancelOwn => s.(stages := s.stages[c := Cancelled], flows := s.flows[c := s.flows[c].(cancelled := true)])
    case JoinReader => s.(stages := s.stages[c := Joined])
    case LockSet => s.(stages := s.stages[c := Leaving], ctl := ctl.(mu := Some(ByConnection(c))))
    case Remove => s.(stages := s.stages[c := Removed], ctl := ctl.(mu := None, connections := ctl.connections - {c}))
    case Finish =>
      if ctl.wg == 0 then s.(ctl := ctl.(panicked := true))
      else s.(stages := s.stages[c := Done], ctl := ctl.(wg := ctl.wg - 1))
  }

  // ---------- Steps of a reader ----------

  /** `EndInput(false)` is any end but a clean one: a read error, a malformed frame or request,
      or a server found unavailable. */
  datatype ReaderStep =
    | Read
    | EndInput(clean: bool)
    | ToDirect(getTTL: bool)
    | ToDispatch
    | AnswerDirect
    | DropDirect
    | Dispatch(shard: nat)
    | RefuseDispatch
    | AllPendingDone

  predicate ContextDone(s: State, c: nat)
    requires c < |s.flows|
  {
    s.ctl.cancelled || s.flows[c].cancelled
  }

  predicate ReaderEnabled(s: State, c: nat, step: ReaderStep) {
    && c < |s.flows|
    && var f := s.flows[c];
    match step
    case Read => f.reader.Reading? && !Unavailable(s.ctl.phase)
    case EndInput(_) => f.reader.Reading?
    case ToDirect(getTTL) => f.reader.Got? && (getTTL || s.ctl.phase == Quarantine)
    case ToDispatch => f.reader.Got? && s.ctl.phase != Quarantine
    case AnswerDirect => f.reader.Direct?
    case DropDirect => f.reader.Direct? && ContextDone(s, c)
    case Dispatch(w) => f.reader.Dispatching? && w < |s.pool.rings|
    case RefuseDispatch => f.reader.Dispatching? && ContextDone(s, c)
    case AllPendingDone => f.reader.Ended? && f.pending == 0
  }

  /** What the step does to the reader's own session. */
  function ReaderFlow(s: State, c: nat, step: ReaderStep): Flow
    requires ReaderEnabled(s, c, step)
  {
    var f := s.flows[c];
    match step
    case Read => f.(reader := Got(f.received), received := f.received + 1)
    case EndInput(clean) => f.(reader := Ended, inputError := !clean)
    case ToDirect(_) => f.(reader := Direct(f.reader.request))
    case ToDispatch => f.(reader := Dispatching(f.reader.request), pending := f.pending + 1)
    case AnswerDirect => f.(reader := Reading, responses := f.responses + [f.reader.request])
    case DropDirect => f.(reader := Ended, dropped := f.dropped + [f.reader.request])
    case Dispatch(_) => f.(reader := Reading)
    case RefuseDispatch =>
      f.(reader := Ended, pending := Decrement(f.pending), dropped := f.dropped + [f.reader.request])
    case AllPendingDone => f.(responsesDone := true)
  }

  function ReaderApply(s: State, c: nat, step: ReaderStep): State
    requires ReaderEnabled(s, c, step)
  {
    var f := s.flows[c];
    var s' := s.(flows := s.flows[c := ReaderFlow(s, c, step)]);
    match step
    case Dispatch(w) =>
      s'.(pool := s.pool.(rings := s.pool.rings[w := s.pool.rings[w] + [Operation(c, f.reader.request)]]))
    case RefuseDispatch => s'.(ctl := s.ctl.(panicked := s.ctl.panicked || f.pending == 0))
    case _ => s'
  }

  // ---------- Steps of a shard worker ----------

  datatype WorkerStep = Take | Skip | ApplyOperation | Answer | DropAnswer | Discharge | Exit

  /** The connection whose operation a worker is busy with. */
  function ConnOf(w: Worker): nat
    requires !w.Free? && !w.Exited?
  {
    if w.Settled? then w.conn else w.op.conn
  }

  predicate WorkerEnabled(s: State, w: nat, step: WorkerStep) {
    && w < |s.pool.workers| && w < |s.pool.rings| && w < |s.pool.stopped|
    && var me := s.pool.workers[w];
    && (!me.Free? && !me.Exited? ==> ConnOf(me) < |s.flows|)
    && match step
       case Take => me.Free? && s.pool.rings[w] != []
       case Skip => me.Taken? && s.ctl.phase != Active
       case ApplyOperation => me.Taken? && s.ctl.phase == Active
       case Answer => me.Applied?
       case DropAnswer => me.Applied? && ContextDone(s, me.op.conn)
       case Discharge => me.Settled?
       case Exit => me.Free? && s.pool.stopped[w] && s.pool.rings[w] == []
  }

  /** The worker's next position. */
  function Moved(s: State, w: nat, step: WorkerStep): Worker
    requires WorkerEnabled(s, w, step)
  {
    match step
    case Take => Taken(s.pool.rings[w][0])
    case ApplyOperation => Applied(s.pool.workers[w].op)
    case Discharge => Free
    case Exit => Exited
    case _ => Settled(s.pool.workers[w].op.conn)
  }

  /** What the step does to the session whose operation the worker is busy with. */
  function WorkerFlow(s: State, w: nat, step: WorkerStep): Flow
    requires WorkerEnabled(s, w, step) && !step.Take? && !step.Exit?
  {
    var me := s.pool.workers[w];
    var f := s.flows[ConnOf(me)];
    match step
    case Answer => f.(responses := f.responses + [me.op.request])
    case Discharge => f.(pending := Decrement(f.pending))
    case Skip => f.(dropped := f.dropped + [me.op.request])
    case DropAnswer => f.(dropped := f.dropped + [me.op.request])
    case _ => f
  }

  function WorkerApply(s: State, w: nat, step: WorkerStep): State
    requires WorkerEnabled(s, w, step)
  {
    var me, ring := s.pool.workers[w], s.pool.rings[w];
    var workers := s.pool.workers[w := Moved(s, w, step)];
    if step.Take? then s.(pool := s.pool.(workers := workers, rings := s.pool.rings[w := ring[1..]]))
    else if step.Exit? then s.(pool := s.pool.(workers := workers))
    else
      s.(pool := s.pool.(workers := workers), flows := s.flows[ConnOf(me) := WorkerFlow(s, w, step)],
         ctl := s.ctl.(panicked := s.ctl.panicked || (step.Discharge? && s.flows[ConnOf(me)].pending == 0)))
  }

  // ---------- Steps of a sender ----------

  /** Why a sender gives up. After a clean end of the input it does not: it goes on until the
      responses have ended. */
  datatype Cause = InputFailed | ContextEnded | ServerUnavailable | WriteFailed

  /** `Buffer(full)` flushes what is buffered first when the response does not fit. `Discard`
      is the drain that follows a session whose responses nobody sends any more. */
  datatype SenderStep = Dequeue | Buffer(full: bool) | Empty | Flush | Return | Fail(cause: Cause) | Discard

  /** Where each cause can make the sender give up: while it waits it hears of the input and
      of the context, before it buffers it looks at the phase, and either kind of flush may
      fail. */
  predicate MayFail(s: State, c: nat, cause: Cause)
    requires c < |s.flows|
  {
    var f := s.flows[c];
    match cause
    case InputFailed => f.sender.Idle? && f.reader.Ended? && f.inputError
    case ContextEnded => f.sender.Idle? && ContextDone(s, c)
    case ServerUnavailable => f.sender.Holding? && Unavailable(s.ctl.phase)
    case WriteFailed => f.sender.Holding? || f.sender.Flushing?
  }

  predicate SenderEnabled(s: State, c: nat, step: SenderStep) {
    && c < |s.stages| && c < |s.flows|
    && var f := s.flows[c];
    if step.Discard? then
      f.sender.Returned? && f.reader.Ended? && f.responsesDone && f.responses != []
    else
      && s.stages[c].Serving?
      && match step
         case Dequeue => (f.sender.Idle? || f.sender.Trying?) && f.responses != []
         case Buffer(_) => f.sender.Holding? && !Unavailable(s.ctl.phase)
         case Empty => f.sender.Trying? && f.responses == []
         case Flush => f.sender.Flushing?
         case Return => f.sender.Idle? && f.responsesDone && f.responses == []
         case Fail(cause) => MayFail(s, c, cause)
  }

  function SenderFlow(s: State, c: nat, step: SenderStep): Flow
    requires SenderEnabled(s, c, step)
  {
    var f := s.flows[c];
    match step
    case Dequeue => f.(sender := Holding(f.responses[0]), responses := f.responses[1..])
    case Buffer(full) =>
      if full then f.(sender := Trying, flushed := f.flushed + f.buffered, buffered := [f.sender.request])
      else f.(sender := Trying, buffered := f.buffered + [f.sender.request])
    case Empty => f.(sender := Flushing)
    case Flush => f.(sender := Idle, flushed := f.flushed + f.buffered, buffered := [])
    case Return => f.(sender := Returned(true))
    case Fail(cause) =>
      f.(sender := Returned(false), writeError := cause == WriteFailed,
         unsent := if f.sender.Holding? then f.unsent + [f.sender.request] else f.unsent)
    case Discard => f.(unsent := f.unsent + [f.responses[0]], responses := f.responses[1..])
  }

  function SenderApply(s: State, c: nat, step: SenderStep): State
    requires SenderEnabled(s, c, step)
  {
    s.(flows := s.flows[c := SenderFlow(s, c, step)])
  }

  // ---------- Runs ----------

  ghost predicate Initial(s: State) {
    && s.ctl == Control(Quarantine, false, None, {}, {}, 0, Accepting, Open, Healthy, false)
    && s.stages == [] && s.flows == []
    && |s.pool.rings| == |s.pool.workers| == |s.pool.stopped|
    && forall w :: 0 <= w < |s.pool.rings| ==> s.pool.rings[w] == [] && s.pool.workers[w] == Free && !s.pool.stopped[w]
  }

  ghost predicate ListenerNext(s: State, s': State) {
    exists step :: ListenerEnabled(s, step) && s' == ListenerApply(s, step)
  }

  ghost predicate ServerNext(s: State, s': State) {
    exists step :: ServerEnabled(s, step) && s' == ServerApply(s, step)
  }

  ghost predicate ConnectionNext(s: State, s': State) {
    exists c, step :: ConnectionEnabled(s, c, step) && s' == ConnectionApply(s, c, step)
  }

  ghost predicate ReaderNext(s: State, s': State) {
    exists c, step :: ReaderEnabled(s, c, step) && s' == ReaderApply(s, c, step)
  }

  ghost predicate WorkerNext(s: State, s': State) {
    exists w, step :: WorkerEnabled(s, w, step) && s' == WorkerApply(s, w, step)
  }

  ghost predicate SenderNext(s: State, s': State) {
    exists c, step :: SenderEnabled(s, c, step) && s' == SenderApply(s, c, step)
  }

  ghost predicate Next(s: State, s': State) {
    || ListenerNext(s, s') || ServerNext(s, s') || ConnectionNext(s, s')
    || ReaderNext(s, s') || WorkerNext(s, s') || SenderNext(s, s')
  }

  ghost predicate NextAt(run: seq<State>, i: nat)
    requires i + 1 < |run|
  {
    Next(run[i], run[i + 1])
  }

  ghost predicate IsRun(run: seq<State>) {
    && run != [] && Initial(run[0])
    && forall i: nat :: i + 1 < |run| ==> NextAt(run, i)
  }
}
