/** What a server achieves: a connection is registered, every request it sends is answered and
    flushed in order, whether by a shard worker or directly, and it leaves without a trace; a
    failure and Close run to their end. */
module SessionPaths {
  import opened Types
  import opened Session

  datatype Label =
    | OfListener(listen: ListenerStep)
    | OfServer(serve: ServerStep)
    | OfConnection(c: nat, connect: ConnectionStep)
    | OfReader(c: nat, read: ReaderStep)
    | OfWorker(w: nat, work: WorkerStep)
    | OfSender(c: nat, send: SenderStep)

  ghost predicate Enabled(s: State, taken: Label) {
    match taken
    case OfListener(step) => ListenerEnabled(s, step)
    case OfServer(step) => ServerEnabled(s, step)
    case OfConnection(c, step) => ConnectionEnabled(s, c, step)
    case OfReader(c, step) => ReaderEnabled(s, c, step)
    case OfWorker(w, step) => WorkerEnabled(s, w, step)
    case OfSender(c, step) => SenderEnabled(s, c, step)
  }

  ghost function Apply(s: State, taken: Label): State
    requires Enabled(s, taken)
  {
    match taken
    case OfListener(step) => ListenerApply(s, step)
    case OfServer(step) => ServerApply(s, step)
    case OfConnection(c, step) => ConnectionApply(s, c, step)
    case OfReader(c, step) => ReaderApply(s, c, step)
    case OfWorker(w, step) => WorkerApply(s, w, step)
    case OfSender(c, step) => SenderApply(s, c, step)
  }

  ghost predicate IsPath(path: seq<State>) {
    path != [] && forall i: nat :: i + 1 < |path| ==> NextAt(path, i)
  }

  lemma Joined(p: seq<State>, q: seq<State>) returns (r: seq<State>)
    requires IsPath(p) && IsPath(q) && p[|p| - 1] == q[0]
    ensures IsPath(r) && r[0] == p[0] && r[|r| - 1] == q[|q| - 1]
  {
    r := p + q[1..];
    forall i: nat | i + 1 < |r| ensures NextAt(r, i) {
      if i < |p| - 1 {
        assert NextAt(p, i);
      } else {
        assert NextAt(q, i - (|p| - 1));
      }
    }
  }

  lemma IsNext(s: State, taken: Label)
    requires Enabled(s, taken)
    ensures Next(s, Apply(s, taken))
  {
    match taken {
      case OfListener(step) => assert ListenerNext(s, Apply(s, taken));
      case OfServer(step) => assert ServerNext(s, Apply(s, taken));
      case OfConnection(c, step) => assert ConnectionNext(s, Apply(s, taken));
      case OfReader(c, step) => assert ReaderNext(s, Apply(s, taken));
      case OfWorker(w, step) => assert WorkerNext(s, Apply(s, taken));
      case OfSender(c, step) => assert SenderNext(s, Apply(s, taken));
    }
  }

  /** One more step. */
  lemma Then(path: seq<State>, taken: Label) returns (longer: seq<State>)
    requires IsPath(path) && Enabled(path[|path| - 1], taken)
    ensures IsPath(longer) && longer[0] == path[0] && longer[|longer| - 1] == Apply(path[|path| - 1], taken)
  {
    var last := path[|path| - 1];
    IsNext(last, taken);
    assert NextAt([last, Apply(last, taken)], 0);
    longer := Joined(path, [last, Apply(last, taken)]);
  }

  // ---------- Connecting ----------

  /** A new connection on a server that is available is registered and served. */
  lemma ConnectPath(s: State) returns (path: seq<State>)
    requires s.ctl.listener == Accepting && s.ctl.mu == None && |s.flows| == |s.stages|
    requires !Unavailable(s.ctl.phase)
    ensures IsPath(path) && path[0] == s
    ensures path[|path| - 1] ==
      s.(ctl := s.ctl.(connections := s.ctl.connections + {|s.stages|}, wg := s.ctl.wg + 1),
         stages := s.stages + [Serving], flows := s.flows + [NewFlow().(reader := Reading)])
  {
    var c := |s.stages|;
    path := RegisterPath(s);
    path := Then(path, OfConnection(c, Start));
    assert path[|path| - 1].stages == s.stages + [Serving];
    assert path[|path| - 1].flows == s.flows + [NewFlow().(reader := Reading)];
  }

  lemma RegisterPath(s: State) returns (path: seq<State>)
    requires s.ctl.listener == Accepting && s.ctl.mu == None && |s.flows| == |s.stages|
    requires !Unavailable(s.ctl.phase)
    ensures IsPath(path) && path[0] == s
    ensures path[|path| - 1] ==
      s.(ctl := s.ctl.(connections := s.ctl.connections + {|s.stages|}, wg := s.ctl.wg + 1),
         stages := s.stages + [Starting], flows := s.flows + [NewFlow()])
  {
    path := Then([s], OfListener(Accept));
    path := Then(path, OfListener(Session.Lock));
    path := Then(path, OfListener(Check));
    path := Then(path, OfListener(Add));
    path := Then(path, OfListener(Unlock));
    path := Then(path, OfListener(Spawn));
    assert path[|path| - 1].stages == s.stages + [Starting];
  }

  /** A connection accepted by a server that has failed or closed is refused, and the listener
      ends. */
  lemma RefusePath(s: State) returns (path: seq<State>)
    requires s.ctl.listener == Accepting && s.ctl.mu == None && |s.flows| == |s.stages|
    requires Unavailable(s.ctl.phase)
    ensures IsPath(path) && path[0] == s
    ensures path[|path| - 1] ==
      s.(ctl := s.ctl.(listener := Stopped), stages := s.stages + [Refused], flows := s.flows + [NewFlow()])
  {
    path := Then([s], OfListener(Accept));
    path := Then(path, OfListener(Session.Lock));
    path := Then(path, OfListener(Check));
    assert path[|path| - 1].stages == s.stages + [Refused];
  }

  /** So does a listener that cannot accept any more, and nothing else changes. */
  lemma EndListeningPath(s: State) returns (path: seq<State>)
    requires s.ctl.listener == Accepting
    ensures IsPath(path) && path[0] == s && path[|path| - 1] == s.(ctl := s.ctl.(listener := Stopped))
  {
    path := Then([s], OfListener(AcceptFails));
  }

  // ---------- Requests ----------

  /** The connection is served, and its reader and sender have nothing to do. */
  ghost predicate AtRest(s: State, c: nat) {
    && c < |s.stages| && c < |s.flows| && s.stages[c].Serving? && !Unavailable(s.ctl.phase)
    && var f := s.flows[c];
    f.reader.Reading? && f.sender.Idle? && f.responses == [] && f.buffered == []
  }

  /** The session once its next request has been answered and the answer flushed. */
  function Replied(s: State, c: nat): State
    requires c < |s.flows|
  {
    var f := s.flows[c];
    s.(flows := s.flows[c := f.(received := f.received + 1, flushed := f.flushed + [f.received])])
  }

  /** The answers a reader or a worker leaves are sent in one batch. */
  lemma SendPath(s: State, c: nat) returns (path: seq<State>)
    requires c < |s.stages| && c < |s.flows| && s.stages[c].Serving? && !Unavailable(s.ctl.phase)
    requires var f := s.flows[c]; f.sender.Idle? && |f.responses| == 1 && f.buffered == []
    ensures IsPath(path) && path[0] == s
    ensures var f := s.flows[c];
      path[|path| - 1] == s.(flows := s.flows[c := f.(responses := [], flushed := f.flushed + f.responses)])
  {
    var f := s.flows[c];
    path := Then([s], OfSender(c, Dequeue));
    path := Then(path, OfSender(c, Buffer(false)));
    path := Then(path, OfSender(c, Empty));
    path := Then(path, OfSender(c, Flush));
    assert f.responses == [f.responses[0]] && f.responses[1..] == [];
    assert path[|path| - 1].flows[c] == f.(responses := [], flushed := f.flushed + f.responses);
  }

  /** A request answered by the reader itself. */
  lemma DirectPath(s: State, c: nat) returns (path: seq<State>)
    requires AtRest(s, c)
    ensures IsPath(path) && path[0] == s && path[|path| - 1] == Replied(s, c)
  {
    var f := s.flows[c];
    path := Then([s], OfReader(c, Read));
    path := Then(path, OfReader(c, ToDirect(true)));
    path := Then(path, OfReader(c, AnswerDirect));
    var answered := f.(received := f.received + 1, responses := [f.received]);
    assert path[|path| - 1].flows[c] == answered;
    assert path[|path| - 1] == s.(flows := s.flows[c := answered]);
    var send := SendPath(path[|path| - 1], c);
    path := Joined(path, send);
  }

  /** A shard worker that has nothing to do, and its queue. */
  ghost predicate WorkerFree(s: State, w: nat) {
    && w < |s.pool.workers| && w < |s.pool.rings| && w < |s.pool.stopped|
    && s.pool.workers[w] == Free && s.pool.rings[w] == []
  }

  /** A request handed to a shard worker, which answers it and discharges it. */
  lemma WorkPath(s: State, c: nat, w: nat) returns (path: seq<State>)
    requires AtRest(s, c) && s.ctl.phase == Active && WorkerFree(s, w)
    ensures IsPath(path) && path[0] == s
    ensures var f := s.flows[c];
      path[|path| - 1] == s.(flows := s.flows[c := f.(received := f.received + 1, responses := [f.received])])
  {
    path := QueuePath(s, c, w);
    var rest := AnswerPath(path[|path| - 1], c, w, s.flows[c].received);
    path := Joined(path, rest);
    var e, f := path[|path| - 1], s.flows[c];
    assert [] + [f.received] == [f.received];
    assert e.flows == s.flows[c := f.(received := f.received + 1, responses := [f.received])];
    assert e.pool.rings == s.pool.rings && e.pool.workers == s.pool.workers;
  }

  lemma AnswerPath(s: State, c: nat, w: nat, request: nat) returns (path: seq<State>)
    requires c < |s.flows| && s.flows[c].pending > 0 && s.ctl.phase == Active
    requires w < |s.pool.workers| && w < |s.pool.rings| && w < |s.pool.stopped|
    requires s.pool.workers[w] == Free && s.pool.rings[w] == [Operation(c, request)]
    ensures IsPath(path) && path[0] == s
    ensures var f := s.flows[c];
      path[|path| - 1] == s.(flows := s.flows[c := f.(pending := f.pending - 1, responses := f.responses + [request])],
                             pool := s.pool.(rings := s.pool.rings[w := []], workers := s.pool.workers[w := Free]))
  {
    path := Then([s], OfWorker(w, Take));
    path := Then(path, OfWorker(w, ApplyOperation));
    path := Then(path, OfWorker(w, Answer));
    path := Then(path, OfWorker(w, Discharge));
    assert [Operation(c, request)][1..] == [];
  }

  lemma QueuePath(s: State, c: nat, w: nat) returns (path: seq<State>)
    requires AtRest(s, c) && s.ctl.phase == Active && WorkerFree(s, w)
    ensures IsPath(path) && path[0] == s
    ensures var f := s.flows[c];
      path[|path| - 1] == s.(flows := s.flows[c := f.(received := f.received + 1, pending := f.pending + 1)],
                             pool := s.pool.(rings := s.pool.rings[w := [Operation(c, f.received)]]))
  {
    path := Then([s], OfReader(c, Read));
    path := Then(path, OfReader(c, ToDispatch));
    path := Then(path, OfReader(c, Dispatch(w)));
    assert [] + [Operation(c, s.flows[c].received)] == [Operation(c, s.flows[c].received)];
  }

  lemma DispatchPath(s: State, c: nat, w: nat) returns (path: seq<State>)
    requires AtRest(s, c) && s.ctl.phase == Active && WorkerFree(s, w)
    ensures IsPath(path) && path[0] == s && path[|path| - 1] == Replied(s, c)
  {
    path := WorkPath(s, c, w);
    var send := SendPath(path[|path| - 1], c);
    path := Joined(path, send);
  }

  /** A response is put behind those already buffered; one that does not fit flushes them
      first. */
  lemma BatchPath(s: State, c: nat, full: bool) returns (path: seq<State>)
    requires c < |s.stages| && c < |s.flows| && s.stages[c].Serving? && !Unavailable(s.ctl.phase)
    requires var f := s.flows[c]; f.sender.Trying? && |f.responses| == 1
    ensures IsPath(path) && path[0] == s
    ensures var f := s.flows[c];
      path[|path| - 1] == s.(flows := s.flows[c :=
        if full then f.(responses := [], flushed := f.flushed + f.buffered, buffered := f.responses)
        else f.(responses := [], buffered := f.buffered + f.responses)])
  {
    var f := s.flows[c];
    path := Then([s], OfSender(c, Dequeue));
    path := Then(path, OfSender(c, Buffer(full)));
    assert f.responses == [f.responses[0]] && f.responses[1..] == [];
  }

  /** The first `n` requests of a connection. */
  function Numbers(n: nat): seq<nat> {
    if n == 0 then [] else Numbers(n - 1) + [n - 1]
  }

  /** `n` requests one after the other, each served by the worker its shard names, or directly
      when it names none. */
  lemma {:induction false} RequestsPath(s: State, c: nat, shards: seq<nat>) returns (path: seq<State>)
    requires AtRest(s, c) && s.ctl.phase == Active && s.flows[c].received == 0 && s.flows[c].flushed == []
    requires forall i :: 0 <= i < |shards| ==> shards[i] < |s.pool.rings| ==> WorkerFree(s, shards[i])
    ensures IsPath(path) && path[0] == s
    ensures path[|path| - 1] ==
      s.(flows := s.flows[c := s.flows[c].(received := |shards|, flushed := Numbers(|shards|))])
  {
    if shards == [] {
      path := [s];
    } else {
      var last := |shards| - 1;
      path := RequestsPath(s, c, shards[..last]);
      var s' := path[|path| - 1];
      var next;
      if shards[last] < |s.pool.rings| {
        assert WorkerFree(s, shards[last]);
        next := DispatchPath(s', c, shards[last]);
      } else {
        next := DirectPath(s', c);
      }
      path := Joined(path, next);
    }
  }

  // ---------- What is not answered ----------

  /** The session once a request has been read and dropped, which ends the input. */
  function Dropped(s: State, c: nat): State
    requires c < |s.flows|
  {
    var f := s.flows[c];
    s.(flows := s.flows[c := f.(reader := Ended, received := f.received + 1, dropped := f.dropped + [f.received])])
  }

  /** Once the context is done, a request whose response finds no room is dropped. */
  lemma DropDirectPath(s: State, c: nat) returns (path: seq<State>)
    requires AtRest(s, c) && ContextDone(s, c)
    ensures IsPath(path) && path[0] == s && path[|path| - 1] == Dropped(s, c)
  {
    path := Then([s], OfReader(c, Read));
    path := Then(path, OfReader(c, ToDirect(true)));
    path := Then(path, OfReader(c, DropDirect));
  }

  /** So is one that finds no room in the shard queue; it is no longer counted as pending. */
  lemma DropDispatchPath(s: State, c: nat) returns (path: seq<State>)
    requires AtRest(s, c) && ContextDone(s, c) && s.ctl.phase == Active
    ensures IsPath(path) && path[0] == s && path[|path| - 1] == Dropped(s, c)
  {
    path := Then([s], OfReader(c, Read));
    path := Then(path, OfReader(c, ToDispatch));
    path := Then(path, OfReader(c, RefuseDispatch));
  }

  /** A worker drops the answer to a request when the server is no longer active or the response
      finds no room once the context is done; it discharges the request all the same. */
  lemma DischargePath(s: State, c: nat, w: nat, request: nat) returns (path: seq<State>)
    requires c < |s.flows| && s.flows[c].pending > 0 && (s.ctl.phase != Active || ContextDone(s, c))
    requires w < |s.pool.workers| && w < |s.pool.rings| && w < |s.pool.stopped|
    requires s.pool.workers[w] == Free && s.pool.rings[w] == [Operation(c, request)]
    ensures IsPath(path) && path[0] == s
    ensures var f := s.flows[c];
      path[|path| - 1] == s.(flows := s.flows[c := f.(pending := f.pending - 1, dropped := f.dropped + [request])],
                             pool := s.pool.(rings := s.pool.rings[w := []], workers := s.pool.workers[w := Free]))
  {
    path := Then([s], OfWorker(w, Take));
    if s.ctl.phase != Active {
      path := Then(path, OfWorker(w, Skip));
    } else {
      path := Then(path, OfWorker(w, ApplyOperation));
      path := Then(path, OfWorker(w, DropAnswer));
    }
    path := Then(path, OfWorker(w, Discharge));
    assert [Operation(c, request)][1..] == [];
  }

  /** A sender that gives up keeps account of the response it held. */
  lemma GiveUpPath(s: State, c: nat, cause: Cause) returns (path: seq<State>)
    requires c < |s.stages| && c < |s.flows| && s.stages[c].Serving? && MayFail(s, c, cause)
    ensures IsPath(path) && path[0] == s
    ensures var f := s.flows[c]; var held := if f.sender.Holding? then [f.sender.request] else [];
      path[|path| - 1] == s.(flows := s.flows[c :=
        f.(sender := Returned(false), writeError := cause == WriteFailed, unsent := f.unsent + held)])
  {
    path := Then([s], OfSender(c, Fail(cause)));
    assert s.flows[c].unsent + [] == s.flows[c].unsent;
  }

  /** What is left when the sender has returned and the responses have ended is discarded. */
  lemma {:induction false} DiscardPath(s: State, c: nat) returns (path: seq<State>)
    requires c < |s.stages| && c < |s.flows|
    requires var f := s.flows[c]; f.sender.Returned? && f.reader.Ended? && f.responsesDone
    ensures IsPath(path) && path[0] == s
    ensures var f := s.flows[c];
      path[|path| - 1] == s.(flows := s.flows[c := f.(responses := [], unsent := f.unsent + f.responses)])
    decreases |s.flows[c].responses|
  {
    var f := s.flows[c];
    path := [s];
    if f.responses == [] {
      assert f.unsent + [] == f.unsent && s.flows[c := f] == s.flows;
    } else {
      path := Then(path, OfSender(c, Discard));
      var rest := DiscardPath(path[|path| - 1], c);
      path := Joined(path, rest);
      assert f.unsent + [f.responses[0]] + f.responses[1..] == f.unsent + f.responses;
    }
  }

  // ---------- Leaving ----------

  /** A connection whose input ends cleanly returns, leaves the set and gives its count back. */
  lemma LeavePath(s: State, c: nat) returns (path: seq<State>)
    requires AtRest(s, c) && s.flows[c].pending == 0 && !s.flows[c].responsesDone && s.ctl.mu == None && s.ctl.wg > 0
    ensures IsPath(path) && path[0] == s
    ensures path[|path| - 1] ==
      s.(ctl := s.ctl.(connections := s.ctl.connections - {c}, wg := s.ctl.wg - 1), stages := s.stages[c := Done],
         flows := s.flows[c := s.flows[c].(reader := Ended, inputError := false, responsesDone := true,
                                           sender := Returned(true), cancelled := true)])
  {
    path := Then([s], OfReader(c, EndInput(true)));
    path := Then(path, OfReader(c, AllPendingDone));
    path := Then(path, OfSender(c, Return));
    path := Then(path, OfConnection(c, CancelOwn));
    path := Then(path, OfConnection(c, JoinReader));
    var rest := GonePath(path[|path| - 1], c);
    path := Joined(path, rest);
  }

  /** A connection that starts on a server no longer available is never served. */
  lemma UnservedPath(s: State, c: nat) returns (path: seq<State>)
    requires c < |s.stages| && c < |s.flows| && s.stages[c].Starting? && Unavailable(s.ctl.phase)
    requires s.ctl.mu == None && s.ctl.wg > 0
    ensures IsPath(path) && path[0] == s
    ensures path[|path| - 1] ==
      s.(ctl := s.ctl.(connections := s.ctl.connections - {c}, wg := s.ctl.wg - 1), stages := s.stages[c := Done])
  {
    path := Then([s], OfConnection(c, Start));
    var rest := GonePath(path[|path| - 1], c);
    path := Joined(path, rest);
  }

  lemma GonePath(s: State, c: nat) returns (path: seq<State>)
    requires c < |s.stages| && c < |s.flows| && s.stages[c].Joined? && s.ctl.mu == None && s.ctl.wg > 0
    ensures IsPath(path) && path[0] == s
    ensures path[|path| - 1] ==
      s.(ctl := s.ctl.(connections := s.ctl.connections - {c}, wg := s.ctl.wg - 1), stages := s.stages[c := Done])
  {
    path := Then([s], OfConnection(c, LockSet));
    path := Then(path, OfConnection(c, Remove));
    path := Then(path, OfConnection(c, Finish));
  }

  /** A whole session on an active server: the connection comes, sends any number of requests,
      each to any shard or to be answered directly, and leaves. Every response has been flushed,
      in order, and nothing else has changed. */
  lemma SessionPath(s: State, shards: seq<nat>) returns (path: seq<State>)
    requires s.ctl.listener == Accepting && s.ctl.mu == None && |s.flows| == |s.stages| && s.ctl.phase == Active
    requires |s.stages| !in s.ctl.connections
    requires forall i :: 0 <= i < |shards| ==> shards[i] < |s.pool.rings| ==> WorkerFree(s, shards[i])
    ensures IsPath(path) && path[0] == s
    ensures var e, c := path[|path| - 1], |s.stages|;
      && e.ctl == s.ctl && e.pool == s.pool && e.stages == s.stages + [Done]
      && |e.flows| == c + 1 && e.flows[..c] == s.flows
      && e.flows[c].flushed == Numbers(|shards|) && e.flows[c].received == |shards|
      && e.flows[c].dropped == [] && e.flows[c].unsent == [] && e.flows[c].sender == Returned(true)
  {
    var c := |s.stages|;
    path := ConnectPath(s);
    var s1 := path[|path| - 1];
    forall i | 0 <= i < |shards| && shards[i] < |s1.pool.rings| ensures WorkerFree(s1, shards[i]) {
      assert WorkerFree(s, shards[i]);
    }
    var requests := RequestsPath(s1, c, shards);
    path := Joined(path, requests);
    var leave := LeavePath(path[|path| - 1], c);
    path := Joined(path, leave);
    assert path[|path| - 1].ctl.connections == s.ctl.connections;
    assert path[|path| - 1].stages == s.stages + [Done];
    assert path[|path| - 1].flows[..c] == s.flows;
  }

  // ---------- The server itself ----------

  /** A failure makes the server unavailable, cancels everything and closes every connection. */
  lemma FailPath(s: State) returns (path: seq<State>)
    requires s.ctl.failer == Healthy && s.ctl.phase != Closed && s.ctl.mu == None
    ensures IsPath(path) && path[0] == s
    ensures path[|path| - 1] == s.(ctl := s.ctl.(phase := Failed, cancelled := true, failer := Reported,
                                                 severed := s.ctl.severed + s.ctl.connections))
  {
    path := Then([s], OfServer(SetFailed));
    path := Then(path, OfServer(CancelFailed));
    path := Then(path, OfServer(LockFailed));
    path := Then(path, OfServer(CloseFailed));
  }

  /** The quarantine timer makes the server active, and a failure after Close changes no phase. */
  lemma TimerPath(s: State) returns (path: seq<State>)
    requires s.ctl.phase == Quarantine || (s.ctl.phase == Closed && s.ctl.failer == Healthy)
    ensures IsPath(path) && path[0] == s
    ensures path[|path| - 1] == if s.ctl.phase == Quarantine then s.(ctl := s.ctl.(phase := Active))
                                else s.(ctl := s.ctl.(failer := Reported))
  {
    path := Then([s], OfServer(if s.ctl.phase == Quarantine then Activate else SetFailed));
  }

  /** Close waits for the connections and stops one worker after the other. */
  lemma ShutdownPath(s: State) returns (path: seq<State>)
    requires s.ctl.closer == Open && s.ctl.mu == None && s.ctl.wg == 0
    requires |s.pool.workers| == |s.pool.rings| == |s.pool.stopped|
    requires forall w: nat :: w < |s.pool.rings| ==> WorkerFree(s, w)
    ensures IsPath(path) && path[0] == s
    ensures var e, n := path[|path| - 1], |s.pool.rings|;
      && e.ctl == s.ctl.(phase := Closed, cancelled := true, closer := Stopping(n),
                         severed := s.ctl.severed + s.ctl.connections)
      && e.stages == s.stages && e.flows == s.flows && |e.pool.workers| == n
      && forall w :: 0 <= w < n ==> e.pool.workers[w] == Exited
  {
    path := Then([s], OfServer(StorePhase));
    path := Then(path, OfServer(CancelAll));
    path := Then(path, OfServer(LockAll));
    path := Then(path, OfServer(CloseAll));
    path := Then(path, OfServer(WaitReturns));
    var s' := path[|path| - 1];
    forall w: nat | w < |s.pool.rings| ensures WorkerFree(s', w) {
      assert WorkerFree(s, w);
    }
    var stop := StopPath(s', 0);
    path := Joined(path, stop);
  }

  lemma {:induction false} StopPath(s: State, next: nat) returns (path: seq<State>)
    requires s.ctl.closer == Stopping(next) && next <= |s.pool.rings|
    requires |s.pool.workers| == |s.pool.rings| == |s.pool.stopped|
    requires forall w: nat :: next <= w < |s.pool.rings| ==> WorkerFree(s, w)
    requires forall w :: 0 <= w < next ==> s.pool.workers[w] == Exited
    ensures IsPath(path) && path[0] == s
    ensures var e, n := path[|path| - 1], |s.pool.rings|;
      && e.ctl == s.ctl.(closer := Stopping(n)) && e.stages == s.stages && e.flows == s.flows
      && |e.pool.workers| == n && forall w :: 0 <= w < n ==> e.pool.workers[w] == Exited
    decreases |s.pool.rings| - next
  {
    path := [s];
    if next < |s.pool.rings| {
      assert WorkerFree(s, next);
      path := Then(path, OfServer(StopShard));
      path := Then(path, OfWorker(next, Exit));
      var s' := path[|path| - 1];
      forall w: nat | next + 1 <= w < |s'.pool.rings| ensures WorkerFree(s', w) {
        assert WorkerFree(s, w);
      }
      var rest := StopPath(s', next + 1);
      path := Joined(path, rest);
    }
  }
}
