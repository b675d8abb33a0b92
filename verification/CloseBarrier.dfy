/** One replica connection of the client across reconnects and shutdown. Submitters append to
    the send queue under a pending-shard mutex after checking for cancellation; each
    connection generation runs one sender that consumes the queue; completion workers answer
    requests; Close cancels, joins the manager, fails what is pending shard by shard, joins
    the workers and discards the queue. */
module CloseBarrier {
  import opened Types

  /** `pending` is `None` once Close has set the shard's map to nil. */
  datatype Shard = Shard(holder: Option<nat>, pending: Option<set<nat>>)

  datatype Submitter =
    | Wanting(shard: nat, request: nat, awaited: bool)
    | Locked(shard: nat, request: nat, awaited: bool)
    | Checked(shard: nat, request: nat, awaited: bool)

  datatype Manager =
    | Opening
    | Created(gen: nat)
    | Running(gen: nat)
    | Leaving(gen: nat, last: bool)
    | Stopped

  datatype Closer =
    | Open
    | Cancelled
    | Marked(gen: Option<nat>)
    | JoiningManager
    | Failing(next: nat)
    | Discarding
    | Closed

  /** `awaited` lists the registered requests somebody waits for; `selfHand` those their own
      waiter has taken out, on a timeout or an abort, and is answering itself. */
  datatype State = State(
    cancelled: bool,
    closedFlag: bool,
    published: Option<nat>,
    shards: seq<Shard>,
    queue: seq<nat>,
    submitters: map<nat, Submitter>,
    manager: Manager,
    senders: set<nat>,
    done: set<nat>,
    nextGen: nat,
    workers: set<nat>,
    workerHand: map<nat, nat>,
    selfHand: set<nat>,
    closer: Closer,
    awaited: map<nat, nat>,
    answered: set<nat>)

  function PutShard(s: State, i: nat, shard: Shard): State
    requires i < |s.shards|
  {
    s.(shards := s.shards[i := shard])
  }

  datatype SubmitStep =
    | Arrive(shard: nat, request: nat, wait: bool)
    | Lock
    | Check
    | Submit(queueFull: bool)

  predicate SubmitEnabled(s: State, t: nat, step: SubmitStep) {
    if step.Arrive? then t !in s.submitters && step.shard < |s.shards| && step.request !in s.awaited
    else
      && t in s.submitters && s.submitters[t].shard < |s.shards|
      && match step
         case Lock => s.submitters[t].Wanting? && s.shards[s.submitters[t].shard].holder == None
         case Check => s.submitters[t].Locked?
         case _ => s.submitters[t].Checked? && s.submitters[t].request !in s.awaited
  }

  /** Registration and enqueue, then unlock; a full queue leaves no trace. */
  function Submitted(s: State, t: nat, queueFull: bool): State
    requires t in s.submitters && s.submitters[t].shard < |s.shards|
  {
    var c := s.submitters[t];
    var sh := s.shards[c.shard];
    var accept := !queueFull && (c.awaited ==> sh.pending.Some?);
    var register := accept && c.awaited;
    var pending := if register then Some(sh.pending.value + {c.request}) else sh.pending;
    s.(shards := s.shards[c.shard := Shard(None, pending)],
       submitters := s.submitters - {t},
       queue := if accept then s.queue + [c.request] else s.queue,
       awaited := if register then s.awaited[c.request := c.shard] else s.awaited)
  }

  function SubmitApply(s: State, t: nat, step: SubmitStep): State
    requires SubmitEnabled(s, t, step)
  {
    match step
    case Arrive(i, request, wait) => s.(submitters := s.submitters[t := Wanting(i, request, wait)])
    case Lock =>
      var c := s.submitters[t];
      PutShard(s, c.shard, s.shards[c.shard].(holder := Some(t)))
      .(submitters := s.submitters[t := Locked(c.shard, c.request, c.awaited)])
    case Check =>
      var c := s.submitters[t];
      if s.cancelled then
        PutShard(s, c.shard, s.shards[c.shard].(holder := None)).(submitters := s.submitters - {t})
      else
        s.(submitters := s.submitters[t := Checked(c.shard, c.request, c.awaited)])
    case Submit(queueFull) => Submitted(s, t, queueFull)
  }

  datatype ManagerStep = OpenConnection | GiveUpOpening | Publish | Leave | LeaveJoined

  predicate ManagerEnabled(s: State, step: ManagerStep) {
    match step
    case OpenConnection => s.manager.Opening?
    case GiveUpOpening => s.manager.Opening? && s.cancelled
    case Publish => s.manager.Created?
    case Leave => s.manager.Running? && (s.manager.gen in s.done || s.cancelled)
    case LeaveJoined => s.manager.Leaving? && s.manager.gen !in s.senders
  }

  function ManagerApply(s: State, step: ManagerStep): State
    requires ManagerEnabled(s, step)
  {
    match step
    case OpenConnection =>
      s.(manager := Created(s.nextGen), senders := s.senders + {s.nextGen}, nextGen := s.nextGen + 1)
    case GiveUpOpening => s.(manager := Stopped)
    case Publish =>
      if s.closedFlag then s.(manager := Leaving(s.manager.gen, true), done := s.done + {s.manager.gen})
      else s.(manager := Running(s.manager.gen), published := Some(s.manager.gen))
    case Leave =>
      s.(manager := Leaving(s.manager.gen, false), done := s.done + {s.manager.gen},
         published := if s.published == Some(s.manager.gen) then None else s.published)
    case LeaveJoined => s.(manager := if s.manager.last || s.cancelled then Stopped else Opening)
  }

  datatype SenderStep = Terminate | Dequeue | SenderExit

  predicate SenderEnabled(s: State, gen: nat, step: SenderStep) {
    && gen in s.senders
    && (step.Dequeue? ==> s.queue != [])
    && (step.SenderExit? ==> gen in s.done)
  }

  function SenderApply(s: State, gen: nat, step: SenderStep): State
    requires SenderEnabled(s, gen, step)
  {
    match step
    case Terminate => s.(done := s.done + {gen})
    case Dequeue => s.(queue := s.queue[1..])
    case SenderExit => s.(senders := s.senders - {gen})
  }

  datatype AnswerStep =
    | WorkerTake(w: nat, request: nat)
    | WorkerAnswer(w: nat)
    | WorkerExit(w: nat)
    | SelfTake(request: nat)
    | SelfAnswer(request: nat)

  predicate Takes(s: State, i: nat, request: nat) {
    i < |s.shards| && s.shards[i].holder == None && s.shards[i].pending.Some? && request in s.shards[i].pending.value
  }

  function TakeOut(s: State, i: nat, request: nat): State
    requires Takes(s, i, request)
  {
    PutShard(s, i, s.shards[i].(pending := Some(s.shards[i].pending.value - {request})))
  }

  predicate AnswerEnabled(s: State, step: AnswerStep) {
    match step
    case WorkerTake(w, request) => w in s.workers && w !in s.workerHand && Takes(s, w, request)
    case WorkerAnswer(w) => w in s.workerHand
    case WorkerExit(w) => w in s.workers && w !in s.workerHand && s.cancelled
    case SelfTake(request) => request in s.awaited && Takes(s, s.awaited[request], request)
    case SelfAnswer(request) => request in s.selfHand
  }

  function AnswerApply(s: State, step: AnswerStep): State
    requires AnswerEnabled(s, step)
  {
    match step
    case WorkerTake(w, request) => TakeOut(s, w, request).(workerHand := s.workerHand[w := request])
    case WorkerAnswer(w) => s.(answered := s.answered + {s.workerHand[w]}, workerHand := s.workerHand - {w})
    case WorkerExit(w) => s.(workers := s.workers - {w})
    case SelfTake(request) => TakeOut(s, s.awaited[request], request).(selfHand := s.selfHand + {request})
    case SelfAnswer(request) => s.(selfHand := s.selfHand - {request}, answered := s.answered + {request})
  }

  datatype CloseStep =
    | Cancel
    | MarkClosed
    | CloseGeneration
    | ManagerJoined
    | FailShard
    | WorkersJoined
    | Discard
    | Finish

  predicate CloseEnabled(s: State, step: CloseStep) {
    match step
    case Cancel => s.closer.Open?
    case MarkClosed => s.closer.Cancelled?
    case CloseGeneration => s.closer.Marked? && (s.closer.gen.Some? ==> s.closer.gen.value !in s.senders)
    case ManagerJoined => s.closer.JoiningManager? && s.manager.Stopped?
    case FailShard => s.closer.Failing? && s.closer.next < |s.shards| && s.shards[s.closer.next].holder == None
    case WorkersJoined => s.closer.Failing? && s.closer.next == |s.shards| && s.workers == {}
    case Discard => s.closer.Discarding? && s.queue != []
    case Finish => s.closer.Discarding? && s.queue == []
  }

  function CloseApply(s: State, step: CloseStep): State
    requires CloseEnabled(s, step)
  {
    match step
    case Cancel => s.(cancelled := true, closer := Cancelled)
    case MarkClosed =>
      s.(closedFlag := true, published := None, closer := Marked(s.published),
         done := if s.published.Some? then s.done + {s.published.value} else s.done)
    case CloseGeneration => s.(closer := JoiningManager)
    case ManagerJoined => s.(closer := Failing(0))
    case FailShard =>
      var sh := s.shards[s.closer.next];
      PutShard(s, s.closer.next, sh.(pending := None))
      .(answered := if sh.pending.Some? then s.answered + sh.pending.value else s.answered,
        closer := Failing(s.closer.next + 1))
    case WorkersJoined => s.(closer := Discarding)
    case Discard => s.(queue := s.queue[1..])
    case Finish => s.(closer := Closed)
  }

  ghost predicate Initial(s: State) {
    && !s.cancelled && !s.closedFlag && s.published == None && s.queue == [] && s.submitters == map[]
    && (forall i :: 0 <= i < |s.shards| ==> s.shards[i] == Shard(None, Some({})))
    && s.manager == Opening && s.senders == {} && s.done == {}
    && (forall w :: w in s.workers <==> 0 <= w < |s.shards|) && s.workerHand == map[] && s.selfHand == {}
    && s.closer == Open && s.awaited == map[] && s.answered == {}
  }

  ghost predicate SubmitNext(s: State, s': State) {
    exists t, step :: SubmitEnabled(s, t, step) && s' == SubmitApply(s, t, step)
  }

  ghost predicate ManagerNext(s: State, s': State) {
    exists step :: ManagerEnabled(s, step) && s' == ManagerApply(s, step)
  }

  ghost predicate SenderNext(s: State, s': State) {
    exists gen, step :: SenderEnabled(s, gen, step) && s' == SenderApply(s, gen, step)
  }

  ghost predicate AnswerNext(s: State, s': State) {
    exists step :: AnswerEnabled(s, step) && s' == AnswerApply(s, step)
  }

  ghost predicate CloseNext(s: State, s': State) {
    exists step :: CloseEnabled(s, step) && s' == CloseApply(s, step)
  }

  ghost predicate Next(s: State, s': State) {
    SubmitNext(s, s') || ManagerNext(s, s') || SenderNext(s, s') || AnswerNext(s, s') || CloseNext(s, s')
  }

  ghost predicate NextAt(run: seq<State>, i: nat)
    requires i + 1 < |run|
  {
    Next(run[i], run[i + 1])
  }

  ghost predicate IsRun(run: seq<State>) {
    && run != [] && Initial(run[0])
    && forall i: nat :: i + 1 < |run| ==> NextAt(run, i)
  }

  // ---------- The invariant ----------

  /** Shards that Close has already failed. */
  function FailedCount(s: State): nat {
    match s.closer
    case Failing(next) => next
    case Discarding => |s.shards|
    case Closed => |s.shards|
    case _ => 0
  }

  /** Only the generation the manager is busy with has a sender, and one it leaves is done. */
  ghost predicate SendersOk(s: State) {
    match s.manager
    case Opening => s.senders == {}
    case Stopped => s.senders == {}
    case Created(g) => s.senders <= {g} && g < s.nextGen
    case Running(g) => s.senders <= {g} && g < s.nextGen
    case Leaving(g, _) => s.senders <= {g} && g < s.nextGen && g in s.done
  }

  ghost predicate CloserOk(s: State) {
    && (!s.closer.Open? ==> s.cancelled)
    && (!s.closer.Open? && !s.closer.Cancelled? ==> s.closedFlag)
    && (s.closedFlag ==> s.published == None)
    && (s.closer.Marked? && s.closer.gen.Some? ==> s.closer.gen.value in s.done)
    && (s.closer.Failing? || s.closer.Discarding? || s.closer.Closed? ==> s.manager.Stopped?)
    && (s.closer.Failing? ==> s.closer.next <= |s.shards|)
    && (s.closer.Discarding? || s.closer.Closed? ==> s.workers == {})
    && (s.closer.Closed? ==> s.queue == [])
  }

  ghost predicate ShardsOk(s: State) {
    forall i :: 0 <= i < |s.shards| ==> (s.shards[i].pending.None? <==> i < FailedCount(s))
  }

  /** Whoever is past the lock holds it, and whoever is past the check found the shard open. */
  ghost predicate SubmitterOk(s: State, t: nat)
    requires t in s.submitters
  {
    var c := s.submitters[t];
    && c.shard < |s.shards|
    && (!c.Wanting? ==> s.shards[c.shard].holder == Some(t))
    && (c.Checked? ==> c.shard >= FailedCount(s))
  }

  /** An awaited request is pending, in the hands of a worker or of its waiter, or answered. */
  ghost predicate AwaitedOk(s: State, request: nat)
    requires request in s.awaited
  {
    var i := s.awaited[request];
    && i < |s.shards|
    && (|| (s.shards[i].pending.Some? && request in s.shards[i].pending.value)
        || (exists w :: w in s.workerHand && s.workerHand[w] == request)
        || request in s.selfHand
        || request in s.answered)
  }

  ghost predicate Inv(s: State) {
    && SendersOk(s) && CloserOk(s) && ShardsOk(s)
    && s.workerHand.Keys <= s.workers
    && (forall t :: t in s.submitters ==> SubmitterOk(s, t))
    && (forall request :: request in s.awaited ==> AwaitedOk(s, request))
  }

  lemma InitialInv(s: State)
    requires Initial(s)
    ensures Inv(s)
  {
  }

  // ---------- Every step keeps it ----------

  /** A submitter past the check has found its shard open and keeps it locked. */
  lemma SubmitSubmitters(s: State, t: nat, step: SubmitStep, u: nat)
    requires SubmitEnabled(s, t, step) && u in SubmitApply(s, t, step).submitters
    requires u in s.submitters ==> SubmitterOk(s, u)
    requires t in s.submitters ==> SubmitterOk(s, t)
    requires CloserOk(s)
    ensures SubmitterOk(SubmitApply(s, t, step), u)
  {
  }

  lemma SubmitShards(s: State, t: nat, step: SubmitStep)
    requires SubmitEnabled(s, t, step) && ShardsOk(s)
    ensures ShardsOk(SubmitApply(s, t, step))
  {
  }

  /** Nobody is past the check once Close has come to discard the queue. */
  lemma SubmitRoles(s: State, t: nat, step: SubmitStep)
    requires SubmitEnabled(s, t, step) && (t in s.submitters ==> SubmitterOk(s, t))
    requires SendersOk(s) && CloserOk(s) && s.workerHand.Keys <= s.workers
    ensures var s' := SubmitApply(s, t, step); SendersOk(s') && CloserOk(s') && s'.workerHand.Keys <= s'.workers
  {
  }

  lemma SubmitAwaited(s: State, t: nat, step: SubmitStep, request: nat)
    requires SubmitEnabled(s, t, step) && request in SubmitApply(s, t, step).awaited
    requires request in s.awaited ==> AwaitedOk(s, request)
    ensures AwaitedOk(SubmitApply(s, t, step), request)
  {
  }

  lemma SubmitInv(s: State, t: nat, step: SubmitStep)
    requires Inv(s) && SubmitEnabled(s, t, step)
    ensures Inv(SubmitApply(s, t, step))
  {
    var s' := SubmitApply(s, t, step);
    SubmitShards(s, t, step);
    SubmitRoles(s, t, step);
    forall u | u in s'.submitters ensures SubmitterOk(s', u) {
      SubmitSubmitters(s, t, step, u);
    }
    forall request | request in s'.awaited ensures AwaitedOk(s', request) {
      SubmitAwaited(s, t, step, request);
    }
  }

  lemma ManagerInv(s: State, step: ManagerStep)
    requires Inv(s) && ManagerEnabled(s, step)
    ensures Inv(ManagerApply(s, step))
  {
  }

  lemma SenderInv(s: State, gen: nat, step: SenderStep)
    requires Inv(s) && SenderEnabled(s, gen, step)
    ensures Inv(SenderApply(s, gen, step))
  {
  }

  /** A request taken out of its shard is in somebody's hand until it is answered. */
  lemma AnswerAwaited(s: State, step: AnswerStep, request: nat)
    requires AnswerEnabled(s, step) && request in s.awaited && AwaitedOk(s, request)
    ensures AwaitedOk(AnswerApply(s, step), request)
  {
    var s' := AnswerApply(s, step);
    if w :| w in s.workerHand && s.workerHand[w] == request {
      assert (w in s'.workerHand && s'.workerHand[w] == request) || request in s'.answered;
    }
    if step.WorkerTake? && request == step.request {
      assert step.w in s'.workerHand && s'.workerHand[step.w] == request;
    }
  }

  lemma AnswerInv(s: State, step: AnswerStep)
    requires Inv(s) && AnswerEnabled(s, step)
    ensures Inv(AnswerApply(s, step))
  {
    var s' := AnswerApply(s, step);
    forall request | request in s'.awaited ensures AwaitedOk(s', request) {
      assert AwaitedOk(s, request);
      AnswerAwaited(s, step, request);
    }
  }

  /** Close fails a shard only while nobody holds its mutex. */
  lemma CloseInv(s: State, step: CloseStep)
    requires Inv(s) && CloseEnabled(s, step)
    ensures Inv(CloseApply(s, step))
  {
  }

  lemma NextInv(s: State, s': State)
    requires Inv(s) && Next(s, s')
    ensures Inv(s')
  {
    if SubmitNext(s, s') {
      var t, step :| SubmitEnabled(s, t, step) && s' == SubmitApply(s, t, step);
      SubmitInv(s, t, step);
    } else if ManagerNext(s, s') {
      var step :| ManagerEnabled(s, step) && s' == ManagerApply(s, step);
      ManagerInv(s, step);
    } else if SenderNext(s, s') {
      var gen, step :| SenderEnabled(s, gen, step) && s' == SenderApply(s, gen, step);
      SenderInv(s, gen, step);
    } else if AnswerNext(s, s') {
      var step :| AnswerEnabled(s, step) && s' == AnswerApply(s, step);
      AnswerInv(s, step);
    } else {
      var step :| CloseEnabled(s, step) && s' == CloseApply(s, step);
      CloseInv(s, step);
    }
  }

  lemma {:induction false} RunInv(run: seq<State>, k: nat)
    requires IsRun(run) && k < |run|
    ensures Inv(run[k])
  {
    if k == 0 {
      InitialInv(run[0]);
    } else {
      RunInv(run, k - 1);
      assert NextAt(run, k - 1);
      NextInv(run[k - 1], run[k]);
    }
  }

  // ---------- What it means ----------

  /** A goroutine that may take a request off the send queue: the sender of a generation, or
      Close while it discards (`None`). */
  ghost predicate Consumer(s: State, who: Option<nat>) {
    match who
    case Some(g) => g in s.senders
    case None => s.closer.Discarding?
  }

  /** Across reconnects and shutdown the send queue never has two consumers. */
  lemma SingleConsumer(run: seq<State>, k: nat, a: Option<nat>, b: Option<nat>)
    requires IsRun(run) && k < |run| && Consumer(run[k], a) && Consumer(run[k], b)
    ensures a == b
  {
    RunInv(run, k);
  }

  lemma SubmitKeepsCloser(s: State, s': State)
    requires SubmitNext(s, s')
    ensures s'.closer == s.closer
  {
  }

  lemma ManagerKeepsCloser(s: State, s': State)
    requires ManagerNext(s, s')
    ensures s'.closer == s.closer
  {
  }

  lemma SenderKeepsCloser(s: State, s': State)
    requires SenderNext(s, s')
    ensures s'.closer == s.closer
  {
  }

  lemma AnswerKeepsCloser(s: State, s': State)
    requires AnswerNext(s, s')
    ensures s'.closer == s.closer
  {
  }

  lemma NothingLeftToClose(s: State, step: CloseStep)
    requires s.closer.Closed?
    ensures !CloseEnabled(s, step)
  {
  }

  lemma NextClosed(s: State, s': State)
    requires Next(s, s') && s.closer.Closed?
    ensures s'.closer.Closed?
  {
    forall step ensures !CloseEnabled(s, step) {
      NothingLeftToClose(s, step);
    }
    if SubmitNext(s, s') {
      SubmitKeepsCloser(s, s');
    } else if ManagerNext(s, s') {
      ManagerKeepsCloser(s, s');
    } else if SenderNext(s, s') {
      SenderKeepsCloser(s, s');
    } else {
      AnswerKeepsCloser(s, s');
    }
  }

  lemma {:induction false} StaysClosed(run: seq<State>, k: nat, later: nat)
    requires IsRun(run) && k <= later < |run| && run[k].closer.Closed?
    ensures run[later].closer.Closed?
  {
    if k < later {
      StaysClosed(run, k, later - 1);
      assert NextAt(run, later - 1);
      NextClosed(run[later - 1], run[later]);
    }
  }

  /** Once Close waits for the generation it has taken over, that generation has been told to
      end. */
  lemma ClosedGenerationEnds(run: seq<State>, k: nat)
    requires IsRun(run) && k < |run| && run[k].closer.Marked? && run[k].closer.gen.Some?
    ensures run[k].closer.gen.value in run[k].done && run[k].published == None
  {
    RunInv(run, k);
  }

  /** Once Close has returned, and forever after: the queue is empty, every pending map is
      gone, nobody is past the cancellation check, and every awaited request has been answered
      or is being answered by its own waiter. */
  lemma ClosedForGood(run: seq<State>, k: nat, later: nat)
    requires IsRun(run) && k <= later < |run| && run[k].closer.Closed?
    ensures var s := run[later];
            && s.queue == [] && s.senders == {} && s.workers == {} && s.published == None
            && (forall i :: 0 <= i < |s.shards| ==> s.shards[i].pending.None?)
            && (forall t :: t in s.submitters ==> !s.submitters[t].Checked?)
            && (forall request :: request in s.awaited ==> request in s.answered || request in s.selfHand)
  {
    var s := run[later];
    RunInv(run, later);
    StaysClosed(run, k, later);
    forall t | t in s.submitters ensures !s.submitters[t].Checked? {
      assert SubmitterOk(s, t);
    }
    forall request | request in s.awaited ensures request in s.answered || request in s.selfHand {
      assert AwaitedOk(s, request);
    }
  }

  /** Registration never writes to a map that Close has set to nil. */
  lemma NoNilMapWrite(run: seq<State>, k: nat, t: nat)
    requires IsRun(run) && k < |run| && t in run[k].submitters && run[k].submitters[t].Checked?
    ensures var c := run[k].submitters[t]; c.shard < |run[k].shards| && run[k].shards[c.shard].pending.Some?
  {
    RunInv(run, k);
    assert SubmitterOk(run[k], t);
  }
}
