/** What a replica connection achieves: the send queue passes requests on unchanged and in
    order, a submission that is left alone is enqueued and registered, a pending request can be
    answered, a lost connection is replaced, and Close runs to completion. */
module ClosePaths {
  import opened Types
  import opened CloseBarrier

  // ---------- The queue ----------

  datatype Label =
    | BySubmitter(t: nat, submit: SubmitStep)
    | ByManager(manage: ManagerStep)
    | BySender(gen: nat, send: SenderStep)
    | ByAnswerer(answer: AnswerStep)
    | ByCloser(close: CloseStep)

  ghost predicate Took(s: State, taken: Label, s': State) {
    match taken
    case BySubmitter(t, step) => SubmitEnabled(s, t, step) && s' == SubmitApply(s, t, step)
    case ByManager(step) => ManagerEnabled(s, step) && s' == ManagerApply(s, step)
    case BySender(gen, step) => SenderEnabled(s, gen, step) && s' == SenderApply(s, gen, step)
    case ByAnswerer(step) => AnswerEnabled(s, step) && s' == AnswerApply(s, step)
    case ByCloser(step) => CloseEnabled(s, step) && s' == CloseApply(s, step)
  }

  ghost predicate TookAt(run: seq<State>, labels: seq<Label>, i: nat)
    requires i < |labels| && |run| == |labels| + 1
  {
    Took(run[i], labels[i], run[i + 1])
  }

  ghost predicate IsTrace(run: seq<State>, labels: seq<Label>) {
    && |run| == |labels| + 1 && Initial(run[0])
    && forall i: nat :: i < |labels| ==> TookAt(run, labels, i)
  }

  lemma TookInv(s: State, taken: Label, s': State)
    requires Inv(s) && Took(s, taken, s')
    ensures Inv(s')
  {
    match taken {
      case BySubmitter(t, step) => SubmitInv(s, t, step);
      case ByManager(step) => ManagerInv(s, step);
      case BySender(gen, step) => SenderInv(s, gen, step);
      case ByAnswerer(step) => AnswerInv(s, step);
      case ByCloser(step) => CloseInv(s, step);
    }
  }

  lemma {:induction false} TraceInv(run: seq<State>, labels: seq<Label>, k: nat)
    requires IsTrace(run, labels) && k <= |labels|
    ensures Inv(run[k])
  {
    if k == 0 {
      InitialInv(run[0]);
    } else {
      TraceInv(run, labels, k - 1);
      assert TookAt(run, labels, k - 1);
      TookInv(run[k - 1], labels[k - 1], run[k]);
    }
  }

  /** What a step puts on the queue: the request of a submitter that found room. */
  ghost function Put(s: State, taken: Label): seq<nat> {
    match taken
    case BySubmitter(t, Submit(false)) => if t in s.submitters then [s.submitters[t].request] else []
    case _ => []
  }

  /** What a step takes off the queue. */
  ghost function Got(s: State, taken: Label): seq<nat> {
    match taken
    case BySender(_, Dequeue) => s.queue[..Min(1, |s.queue|)]
    case ByCloser(Discard) => s.queue[..Min(1, |s.queue|)]
    case _ => []
  }

  ghost function AllPut(run: seq<State>, labels: seq<Label>, k: nat): seq<nat>
    requires k <= |labels| <= |run|
  {
    if k == 0 then [] else AllPut(run, labels, k - 1) + Put(run[k - 1], labels[k - 1])
  }

  ghost function AllGot(run: seq<State>, labels: seq<Label>, k: nat): seq<nat>
    requires k <= |labels| <= |run|
  {
    if k == 0 then [] else AllGot(run, labels, k - 1) + Got(run[k - 1], labels[k - 1])
  }

  lemma SubmitQueue(s: State, t: nat, step: SubmitStep)
    requires Inv(s) && SubmitEnabled(s, t, step)
    ensures SubmitApply(s, t, step).queue == s.queue + Put(s, BySubmitter(t, step))
  {
    if step.Submit? {
      assert SubmitterOk(s, t);
    }
  }

  lemma ManagerQueue(s: State, step: ManagerStep)
    requires ManagerEnabled(s, step)
    ensures ManagerApply(s, step).queue == s.queue
  {
  }

  lemma AnswerQueue(s: State, step: AnswerStep)
    requires AnswerEnabled(s, step)
    ensures AnswerApply(s, step).queue == s.queue
  {
  }

  lemma SenderQueue(s: State, gen: nat, step: SenderStep)
    requires SenderEnabled(s, gen, step)
    ensures Got(s, BySender(gen, step)) + SenderApply(s, gen, step).queue == s.queue
  {
  }

  lemma CloserQueue(s: State, step: CloseStep)
    requires CloseEnabled(s, step)
    ensures Got(s, ByCloser(step)) + CloseApply(s, step).queue == s.queue
  {
  }

  lemma QueueStep(s: State, taken: Label, s': State)
    requires Inv(s) && Took(s, taken, s')
    ensures s.queue + Put(s, taken) == Got(s, taken) + s'.queue
  {
    match taken {
      case BySubmitter(t, step) => SubmitQueue(s, t, step);
      case ByManager(step) => ManagerQueue(s, step);
      case BySender(gen, step) => SenderQueue(s, gen, step);
      case ByAnswerer(step) => AnswerQueue(s, step);
      case ByCloser(step) => CloserQueue(s, step);
    }
  }

  lemma QueueStepAt(run: seq<State>, labels: seq<Label>, i: nat)
    requires IsTrace(run, labels) && i < |labels|
    ensures run[i].queue + Put(run[i], labels[i]) == Got(run[i], labels[i]) + run[i + 1].queue
  {
    TraceInv(run, labels, i);
    assert TookAt(run, labels, i);
    QueueStep(run[i], labels[i], run[i + 1]);
  }

  lemma Chained(got: seq<nat>, queue: seq<nat>, put: seq<nat>, off: seq<nat>, queue': seq<nat>)
    requires queue + put == off + queue'
    ensures got + queue + put == got + off + queue'
  {
    assert got + queue + put == got + (queue + put);
    assert got + (off + queue') == got + off + queue';
  }

  /** Every request that a submitter was told is queued has been taken off in order, by a sender
      or by Close, or is still queued; nothing else is. */
  lemma {:induction false} QueueConserves(run: seq<State>, labels: seq<Label>, k: nat)
    requires IsTrace(run, labels) && k <= |labels|
    ensures AllPut(run, labels, k) == AllGot(run, labels, k) + run[k].queue
  {
    if k > 0 {
      QueueConserves(run, labels, k - 1);
      QueueStepAt(run, labels, k - 1);
      Chained(AllGot(run, labels, k - 1), run[k - 1].queue, Put(run[k - 1], labels[k - 1]),
              Got(run[k - 1], labels[k - 1]), run[k].queue);
    }
  }

  /** When Close has returned, everything ever queued has been taken off. */
  lemma NothingLeftBehind(run: seq<State>, labels: seq<Label>, k: nat)
    requires IsTrace(run, labels) && k <= |labels| && run[k].closer.Closed?
    ensures AllPut(run, labels, k) == AllGot(run, labels, k)
  {
    TraceInv(run, labels, k);
    QueueConserves(run, labels, k);
  }

  // ---------- Paths ----------

  ghost predicate IsPath(path: seq<State>) {
    path != [] && forall i: nat :: i + 1 < |path| ==> NextAt(path, i)
  }

  lemma JoinPaths(p: seq<State>, q: seq<State>)
    requires IsPath(p) && IsPath(q) && p[|p| - 1] == q[0]
    ensures IsPath(p + q[1..])
    ensures (p + q[1..])[0] == p[0] && (p + q[1..])[|p + q[1..]| - 1] == q[|q| - 1]
  {
    var r := p + q[1..];
    forall i: nat | i + 1 < |r| ensures NextAt(r, i) {
      if i < |p| - 1 {
        assert NextAt(p, i);
      } else {
        assert NextAt(q, i - (|p| - 1));
      }
    }
  }

  lemma OneStep(s: State, taken: Label, s': State)
    requires Took(s, taken, s')
    ensures IsPath([s, s'])
  {
    assert Next(s, s') by {
      match taken {
        case BySubmitter(t, step) => assert SubmitNext(s, s');
        case ByManager(step) => assert ManagerNext(s, s');
        case BySender(gen, step) => assert SenderNext(s, s');
        case ByAnswerer(step) => assert AnswerNext(s, s');
        case ByCloser(step) => assert CloseNext(s, s');
      }
    }
  }

  lemma Extend(path: seq<State>, taken: Label, s': State) returns (longer: seq<State>)
    requires IsPath(path) && Took(path[|path| - 1], taken, s')
    ensures IsPath(longer) && longer[0] == path[0] && longer[|longer| - 1] == s'
  {
    OneStep(path[|path| - 1], taken, s');
    JoinPaths(path, [path[|path| - 1], s']);
    longer := path + [path[|path| - 1], s'][1..];
  }

  // ---------- Submitting ----------

  /** The connection once a request has been queued and, if somebody waits for it, registered. */
  function Queued(s: State, i: nat, request: nat, wait: bool): State
    requires i < |s.shards| && s.shards[i].pending.Some?
  {
    var queued := s.(queue := s.queue + [request]);
    if wait then
      queued.(shards := s.shards[i := s.shards[i].(pending := Some(s.shards[i].pending.value + {request}))],
              awaited := s.awaited[request := i])
    else queued
  }

  /** A submission that is left alone: the request is queued, or, after cancellation or when the
      queue is full, leaves no trace. */
  lemma SubmitPath(s: State, t: nat, i: nat, request: nat, wait: bool, full: bool) returns (path: seq<State>)
    requires Inv(s) && t !in s.submitters && request !in s.awaited
    requires i < |s.shards| && s.shards[i].holder == None
    ensures IsPath(path) && path[0] == s
    ensures s.cancelled || s.shards[i].pending.Some?
    ensures path[|path| - 1] == if s.cancelled || full then s else Queued(s, i, request, wait)
  {
    assert s.cancelled || s.shards[i].pending.Some?;
    path := LockPath(s, t, i, request, wait);
    var locked := path[|path| - 1];
    var checked := SubmitApply(locked, t, Check);
    path := Extend(path, BySubmitter(t, Check), checked);
    if s.cancelled {
      assert checked.shards == s.shards && checked.submitters == s.submitters;
    } else {
      var last := SubmitOne(s, checked, t, i, request, wait, full);
      path := Extend(path, BySubmitter(t, Submit(full)), last);
    }
  }

  lemma LockPath(s: State, t: nat, i: nat, request: nat, wait: bool) returns (path: seq<State>)
    requires t !in s.submitters && request !in s.awaited && i < |s.shards| && s.shards[i].holder == None
    ensures IsPath(path) && path[0] == s
    ensures path[|path| - 1] == s.(shards := s.shards[i := s.shards[i].(holder := Some(t))],
                                   submitters := s.submitters[t := Locked(i, request, wait)])
  {
    var s1 := SubmitApply(s, t, Arrive(i, request, wait));
    path := Extend([s], BySubmitter(t, Arrive(i, request, wait)), s1);
    path := Extend(path, BySubmitter(t, CloseBarrier.Lock), SubmitApply(s1, t, CloseBarrier.Lock));
  }

  lemma SubmitOne(s: State, checked: State, t: nat, i: nat, request: nat, wait: bool, full: bool) returns (last: State)
    requires t !in s.submitters && request !in s.awaited && i < |s.shards|
    requires s.shards[i].holder == None && s.shards[i].pending.Some?
    requires checked == s.(shards := s.shards[i := s.shards[i].(holder := Some(t))],
                           submitters := s.submitters[t := Checked(i, request, wait)])
    ensures Took(checked, BySubmitter(t, Submit(full)), last)
    ensures last == if full then s else Queued(s, i, request, wait)
  {
    last := SubmitApply(checked, t, Submit(full));
    assert last.submitters == s.submitters;
    assert full || !wait ==> last.shards == s.shards;
  }

  // ---------- Answering ----------

  /** The connection once a pending request has been taken out and answered. */
  function Answered(s: State, i: nat, request: nat): State
    requires Takes(s, i, request)
  {
    s.(shards := s.shards[i := Shard(None, Some(s.shards[i].pending.value - {request}))],
       answered := s.answered + {request})
  }

  lemma WorkerPath(s: State, w: nat, request: nat) returns (path: seq<State>)
    requires w in s.workers && w !in s.workerHand && Takes(s, w, request)
    ensures IsPath(path) && path[0] == s && path[|path| - 1] == Answered(s, w, request)
  {
    var s1 := AnswerApply(s, WorkerTake(w, request));
    var s2 := AnswerApply(s1, WorkerAnswer(w));
    path := Extend([s], ByAnswerer(WorkerTake(w, request)), s1);
    path := Extend(path, ByAnswerer(WorkerAnswer(w)), s2);
    assert s2.workerHand == s.workerHand;
  }

  lemma SelfPath(s: State, request: nat) returns (path: seq<State>)
    requires request in s.awaited && Takes(s, s.awaited[request], request) && request !in s.selfHand
    ensures IsPath(path) && path[0] == s && path[|path| - 1] == Answered(s, s.awaited[request], request)
  {
    var s1 := AnswerApply(s, SelfTake(request));
    var s2 := AnswerApply(s1, SelfAnswer(request));
    path := Extend([s], ByAnswerer(SelfTake(request)), s1);
    path := Extend(path, ByAnswerer(SelfAnswer(request)), s2);
    assert s2.selfHand == s.selfHand;
  }

  // ---------- Connecting ----------

  /** A connection is opened, published and served by a sender of its own. */
  lemma ConnectPath(s: State) returns (path: seq<State>)
    requires s.manager.Opening? && !s.closedFlag
    ensures IsPath(path) && path[0] == s
    ensures path[|path| - 1] == s.(manager := Running(s.nextGen), senders := s.senders + {s.nextGen},
                                   published := Some(s.nextGen), nextGen := s.nextGen + 1)
  {
    var s1 := ManagerApply(s, OpenConnection);
    path := Extend([s], ByManager(OpenConnection), s1);
    path := Extend(path, ByManager(Publish), ManagerApply(s1, Publish));
  }

  /** A connection that fails is withdrawn and joined, and the next one is opened. */
  lemma ReconnectPath(s: State, gen: nat) returns (path: seq<State>)
    requires s.manager == Running(gen) && s.senders == {gen} && s.published == Some(gen) && !s.cancelled
    ensures IsPath(path) && path[0] == s
    ensures path[|path| - 1] == s.(manager := Opening, senders := {}, published := None, done := s.done + {gen})
  {
    var s1 := SenderApply(s, gen, Terminate);
    var s2 := ManagerApply(s1, Leave);
    var s3 := SenderApply(s2, gen, SenderExit);
    var s4 := ManagerApply(s3, LeaveJoined);
    path := Extend([s], BySender(gen, Terminate), s1);
    path := Extend(path, ByManager(Leave), s2);
    path := Extend(path, BySender(gen, SenderExit), s3);
    path := Extend(path, ByManager(LeaveJoined), s4);
    assert s.senders - {gen} == {};
    assert s2.done == s.done + {gen};
  }

  // ---------- Closing ----------

  /** The sender of a generation that is done exits, if it has not. */
  lemma ExitPath(s: State, gen: nat) returns (path: seq<State>)
    requires s.senders <= {gen} && gen in s.done
    ensures IsPath(path) && path[0] == s && path[|path| - 1] == s.(senders := {})
  {
    path := [s];
    if gen in s.senders {
      path := Extend(path, BySender(gen, SenderExit), SenderApply(s, gen, SenderExit));
    }
    assert s.senders - {gen} == {};
  }

  /** Nothing but the roles of the manager and its sender differs. */
  predicate SameButManager(s: State, s': State) {
    s' == s.(manager := s'.manager, senders := s'.senders, done := s'.done, published := s'.published)
  }

  /** Once Close has cancelled and marked the connection, the manager comes to its end. */
  lemma StopPath(s: State) returns (path: seq<State>)
    requires Inv(s) && s.cancelled && s.closedFlag
    ensures IsPath(path) && path[0] == s
    ensures var e := path[|path| - 1]; SameButManager(s, e) && e.manager == Stopped && e.senders == {}
  {
    match s.manager {
      case Opening => path := Extend([s], ByManager(GiveUpOpening), ManagerApply(s, GiveUpOpening));
      case Created(g) =>
        path := Extend([s], ByManager(Publish), ManagerApply(s, Publish));
        path := LeavePath(path);
      case Running(g) =>
        path := Extend([s], ByManager(Leave), ManagerApply(s, Leave));
        path := LeavePath(path);
      case Leaving(g, _) => path := LeavePath([s]);
      case Stopped => path := [s];
    }
  }

  lemma LeavePath(before: seq<State>) returns (path: seq<State>)
    requires IsPath(before)
    requires var s := before[|before| - 1];
      s.manager.Leaving? && s.cancelled && s.senders <= {s.manager.gen} && s.manager.gen in s.done
    ensures IsPath(path) && path[0] == before[0]
    ensures path[|path| - 1] == before[|before| - 1].(manager := Stopped, senders := {})
  {
    var s := before[|before| - 1];
    var exit := ExitPath(s, s.manager.gen);
    JoinPaths(before, exit);
    path := before + exit[1..];
    var joined := s.(senders := {});
    path := Extend(path, ByManager(LeaveJoined), ManagerApply(joined, LeaveJoined));
  }

  /** Everything pending in the shards from `next` on. */
  ghost function Pending(shards: seq<Shard>, next: nat): set<nat> {
    set i: nat, request
      | next <= i < |shards| && shards[i].pending.Some? && request in shards[i].pending.value
      :: request
  }

  predicate Unlocked(s: State) {
    forall i :: 0 <= i < |s.shards| ==> s.shards[i].holder == None
  }

  /** The shards with the maps from `next` on set to nil. */
  function Nil(shards: seq<Shard>, next: nat): seq<Shard> {
    seq(|shards|, i requires 0 <= i < |shards| => if i < next then shards[i] else shards[i].(pending := None))
  }

  lemma {:induction false} FailPath(s: State, next: nat) returns (path: seq<State>)
    requires s.closer == Failing(next) && next <= |s.shards| && Unlocked(s)
    ensures IsPath(path) && path[0] == s
    ensures path[|path| - 1] == s.(closer := Failing(|s.shards|), shards := Nil(s.shards, next),
                                   answered := s.answered + Pending(s.shards, next))
    decreases |s.shards| - next
  {
    if next == |s.shards| {
      path := [s];
      assert Nil(s.shards, next) == s.shards && Pending(s.shards, next) == {};
    } else {
      var s' := CloseApply(s, FailShard);
      OneStep(s, ByCloser(FailShard), s');
      var rest := FailPath(s', next + 1);
      JoinPaths([s, s'], rest);
      path := [s, s'] + rest[1..];
      assert Nil(s'.shards, next + 1) == Nil(s.shards, next);
      FailOne(s, next);
    }
  }

  lemma FailOne(s: State, next: nat)
    requires s.closer == Failing(next) && next < |s.shards| && CloseEnabled(s, FailShard)
    ensures var s' := CloseApply(s, FailShard);
      s'.answered + Pending(s'.shards, next + 1) == s.answered + Pending(s.shards, next)
  {
    var s' := CloseApply(s, FailShard);
    forall request ensures request in s'.answered + Pending(s'.shards, next + 1) <==>
                           request in s.answered + Pending(s.shards, next)
    {
      if request in Pending(s.shards, next) {
        var i: nat :| next <= i < |s.shards| && s.shards[i].pending.Some? && request in s.shards[i].pending.value;
        assert i > next ==> s'.shards[i] == s.shards[i];
      }
      if request in Pending(s'.shards, next + 1) {
        var i: nat :| next < i < |s.shards| && s'.shards[i].pending.Some? && request in s'.shards[i].pending.value;
        assert s'.shards[i] == s.shards[i];
      }
      if s.shards[next].pending.Some? && request in s.shards[next].pending.value {
        assert request in Pending(s.shards, next);
      }
    }
  }

  lemma {:induction false} ExitsPath(s: State) returns (path: seq<State>)
    requires s.cancelled && s.workerHand == map[]
    ensures IsPath(path) && path[0] == s && path[|path| - 1] == s.(workers := {})
    decreases |s.workers|
  {
    path := [s];
    if s.workers != {} {
      var w :| w in s.workers;
      var s' := AnswerApply(s, WorkerExit(w));
      OneStep(s, ByAnswerer(WorkerExit(w)), s');
      var rest := ExitsPath(s');
      JoinPaths([s, s'], rest);
      path := [s, s'] + rest[1..];
    }
  }

  lemma {:induction false} DiscardPath(s: State) returns (path: seq<State>)
    requires s.closer.Discarding?
    ensures IsPath(path) && path[0] == s && path[|path| - 1] == s.(queue := [], closer := Closed)
    decreases |s.queue|
  {
    if s.queue == [] {
      path := Extend([s], ByCloser(Finish), CloseApply(s, Finish));
    } else {
      var s' := CloseApply(s, Discard);
      OneStep(s, ByCloser(Discard), s');
      var rest := DiscardPath(s');
      JoinPaths([s, s'], rest);
      path := [s, s'] + rest[1..];
    }
  }

  /** Close cancels, marks the connection closed and joins its sender and its manager. */
  lemma CancelPath(s: State) returns (path: seq<State>)
    requires Inv(s) && s.closer.Open?
    ensures IsPath(path) && path[0] == s
    ensures var e := path[|path| - 1];
      && e.closer == Failing(0) && e.cancelled && e.closedFlag && e.manager == Stopped && e.senders == {}
      && e.shards == s.shards && e.queue == s.queue && e.workers == s.workers && e.workerHand == s.workerHand
      && e.answered == s.answered && e.awaited == s.awaited && e.selfHand == s.selfHand
  {
    var s1 := CloseApply(s, Cancel);
    var s2 := CloseApply(s1, MarkClosed);
    path := Extend([s], ByCloser(Cancel), s1);
    path := Extend(path, ByCloser(MarkClosed), s2);
    CloseInv(s, Cancel);
    CloseInv(s1, MarkClosed);
    var stop := StopPath(s2);
    JoinPaths(path, stop);
    path := path + stop[1..];
    var s3 := path[|path| - 1];
    var s4 := CloseApply(s3, CloseGeneration);
    path := Extend(path, ByCloser(CloseGeneration), s4);
    path := Extend(path, ByCloser(ManagerJoined), CloseApply(s4, ManagerJoined));
  }

  /** From any reachable state in which no mutex is held and no worker is about to answer, Close
      runs to completion: everything pending is answered and nothing else, the maps are gone
      and the queue is empty. */
  lemma ClosePath(s: State) returns (path: seq<State>)
    requires Inv(s) && s.closer.Open? && Unlocked(s) && s.workerHand == map[]
    ensures IsPath(path) && path[0] == s
    ensures var e := path[|path| - 1];
      && e.closer == Closed && e.cancelled && e.manager == Stopped && e.senders == {} && e.workers == {}
      && e.shards == Nil(s.shards, 0) && e.queue == [] && e.answered == s.answered + Pending(s.shards, 0)
  {
    path := CancelPath(s);
    var s1 := path[|path| - 1];
    var fail := FailPath(s1, 0);
    JoinPaths(path, fail);
    path := path + fail[1..];
    var exits := ExitsPath(path[|path| - 1]);
    JoinPaths(path, exits);
    path := path + exits[1..];
    var s2 := path[|path| - 1];
    path := Extend(path, ByCloser(WorkersJoined), CloseApply(s2, WorkersJoined));
    var discard := DiscardPath(path[|path| - 1]);
    JoinPaths(path, discard);
    path := path + discard[1..];
  }
}
