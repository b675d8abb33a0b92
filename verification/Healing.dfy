/** One lease of the quorum client: its public operations, which the caller runs one after
    another, against background healers, which re-send Acquire to replicas that have lost the
    lease. The state mutex makes each critical section one step; enqueueing on a replica's
    send queue is a step of its own. */
module Healing {
  import opened Types

  datatype Healer =
    | Looping
    | Batch(targets: set<nat>)

  /** Where the goroutine that runs the public operations stands; the number is the replica
      it serves next. */
  datatype Owner =
    | Acquiring(next: nat)
    | Abandoning(next: nat)
    | Between
    | Renewing(next: nat)
    | Barrier
    | Releasing(next: nat)

  /** `validUntil` is `None` for the zero time; `queues[r]` lists what was enqueued for
      replica `r` on behalf of this lease. */
  datatype State = State(
    now: int,
    released: bool,
    validUntil: Option<int>,
    healing: bool,
    batches: nat,
    healers: map<nat, Healer>,
    owner: Owner,
    queues: seq<seq<Kind>>)

  datatype OwnerStep =
    | Tick(to: int)
    | SubmitAcquire(replica: nat, accepted: bool)
    | AcquireSucceeds(until: int)
    | AcquireFails
    | SubmitAbandon(replica: nat, accepted: bool)
    | StartRenew
    | SubmitRenew(replica: nat, accepted: bool)
    | RenewEnds(confirmed: Option<int>)
    | StartRelease
    | BarrierPassed
    | SubmitRelease(replica: nat, accepted: bool)

  datatype HealerStep =
    | StartHealing
    | HealerExits(unconfirmed: bool)
    | BeginBatch(targets: set<nat>)
    | SubmitHealing(replica: nat, accepted: bool)
    | EndBatch

  predicate LocallyValid(s: State) {
    !s.released && s.validUntil.Some? && s.now < s.validUntil.value
  }

  /** A best-effort enqueue: a full queue or a closed connection accepts nothing. */
  function Enqueue(s: State, r: nat, kind: Kind, accepted: bool): State
    requires r < |s.queues|
  {
    if accepted then s.(queues := s.queues[r := s.queues[r] + [kind]]) else s
  }

  predicate OwnerEnabled(s: State, step: OwnerStep) {
    match step
    case Tick(to) => s.now <= to
    case SubmitAcquire(r, _) => s.owner == Acquiring(r) && r < |s.queues|
    case AcquireSucceeds(until) => s.owner.Acquiring? && s.owner.next == |s.queues|
    case AcquireFails => s.owner.Acquiring? && s.owner.next == |s.queues|
    case SubmitAbandon(r, _) => s.owner == Abandoning(r) && r < |s.queues|
    case StartRenew => s.owner.Between? && !s.released
    case SubmitRenew(r, _) => s.owner == Renewing(r) && r < |s.queues|
    case RenewEnds(confirmed) => s.owner.Renewing? && s.owner.next == |s.queues|
    case StartRelease => s.owner.Between? && !s.released
    case BarrierPassed => s.owner.Barrier? && s.batches == 0
    case SubmitRelease(r, _) => s.owner == Releasing(r) && r < |s.queues|
  }

  function OwnerApply(s: State, step: OwnerStep): State
    requires OwnerEnabled(s, step)
  {
    match step
    case Tick(to) => s.(now := to)
    case SubmitAcquire(r, ok) => Enqueue(s, r, Acquire, ok).(owner := Acquiring(r + 1))
    case AcquireSucceeds(until) => s.(validUntil := Some(until), owner := Between)
    case AcquireFails => s.(owner := Abandoning(0))
    case SubmitAbandon(r, ok) => Enqueue(s, r, Release, ok).(owner := Abandoning(r + 1))
    case StartRenew => s.(owner := Renewing(0))
    case SubmitRenew(r, ok) => Enqueue(s, r, Renew, ok).(owner := Renewing(r + 1))
    case RenewEnds(confirmed) =>
      var longer := confirmed.Some? && s.validUntil.Some? && confirmed.value > s.validUntil.value;
      s.(validUntil := if longer then confirmed else s.validUntil, owner := Between)
    case StartRelease => s.(released := true, validUntil := None, owner := Barrier)
    case BarrierPassed => s.(owner := Releasing(0))
    case SubmitRelease(r, ok) => Enqueue(s, r, Release, ok).(owner := Releasing(r + 1))
  }

  predicate HealerEnabled(s: State, h: nat, step: HealerStep) {
    if step.StartHealing? then h !in s.healers && !s.healing && LocallyValid(s)
    else
      && h in s.healers
      && match step
         case HealerExits(_) => s.healers[h].Looping?
         case BeginBatch(targets) =>
           s.healers[h].Looping? && LocallyValid(s) && forall r :: r in targets ==> r < |s.queues|
         case SubmitHealing(r, _) => s.healers[h].Batch? && r in s.healers[h].targets && r < |s.queues|
         case _ => s.healers[h] == Batch({}) && s.batches > 0
  }

  function HealerApply(s: State, h: nat, step: HealerStep): State
    requires HealerEnabled(s, h, step)
  {
    match step
    case StartHealing => s.(healing := true, healers := s.healers[h := Looping])
    case HealerExits(unconfirmed) =>
      if LocallyValid(s) && unconfirmed then s else s.(healing := false, healers := s.healers - {h})
    case BeginBatch(targets) => s.(batches := s.batches + 1, healers := s.healers[h := Batch(targets)])
    case SubmitHealing(r, ok) =>
      Enqueue(s, r, Acquire, ok).(healers := s.healers[h := Batch(s.healers[h].targets - {r})])
    case EndBatch => s.(batches := s.batches - 1, healers := s.healers[h := Looping])
  }

  ghost predicate Initial(s: State) {
    && !s.released && s.validUntil == None && !s.healing && s.batches == 0 && s.healers == map[]
    && s.owner == Acquiring(0) && forall r :: 0 <= r < |s.queues| ==> s.queues[r] == []
  }

  ghost predicate OwnerNext(s: State, s': State) {
    exists step :: OwnerEnabled(s, step) && s' == OwnerApply(s, step)
  }

  ghost predicate HealerNext(s: State, s': State) {
    exists h, step :: HealerEnabled(s, h, step) && s' == HealerApply(s, h, step)
  }

  ghost predicate Next(s: State, s': State) {
    OwnerNext(s, s') || HealerNext(s, s')
  }

  ghost predicate NextAt(run: seq<State>, i: nat)
    requires i + 1 < |run|
  {
    Next(run[i], run[i + 1])
  }

  ghost predicate IsRun(run: seq<State>) {
    && run != [] && Initial(run[0])
    && forall i: nat :: i + 1 < |run| ==> NextAt(run, i)
  }

  // ---------- The invariant ----------

  /** The owner has begun to send Release. */
  predicate Ending(s: State) {
    s.owner.Abandoning? || s.owner.Releasing?
  }

  /** Nothing follows a Release but another Release. */
  predicate ReleaseLast(q: seq<Kind>) {
    forall i, j :: 0 <= i < j < |q| && q[i] == Release ==> q[j] == Release
  }

  ghost predicate Inv(s: State) {
    && (s.healing <==> s.healers != map[])
    && (forall h, h' :: h in s.healers && h' in s.healers ==> h == h')
    && s.batches <= 1 && (s.healers == map[] ==> s.batches == 0)
    && (forall h :: h in s.healers ==> (s.healers[h].Batch? <==> s.batches == 1))
    && (forall h, r :: h in s.healers && s.healers[h].Batch? && r in s.healers[h].targets ==> r < |s.queues|)
    && (s.owner.Acquiring? || s.owner.Abandoning? || s.owner.Renewing? || s.owner.Releasing? ==>
          s.owner.next <= |s.queues|)
    && (s.owner.Acquiring? || s.owner.Abandoning? ==> s.validUntil == None && s.healers == map[])
    && (s.owner.Acquiring? || s.owner.Between? || s.owner.Renewing? ==> !s.released)
    && (s.owner.Barrier? || s.owner.Releasing? ==> s.released && s.validUntil == None)
    && (Ending(s) ==> s.batches == 0)
    && (forall r :: 0 <= r < |s.queues| ==> QueueOk(s, r))
  }

  ghost predicate QueueOk(s: State, r: nat)
    requires r < |s.queues|
  {
    ReleaseLast(s.queues[r]) && (Release in s.queues[r] ==> Ending(s))
  }

  lemma InitialInv(s: State)
    requires Initial(s)
    ensures Inv(s)
  {
  }

  /** The owner sends Release only behind the barrier, when no healer is in a batch. */
  lemma OwnerInv(s: State, step: OwnerStep)
    requires Inv(s) && OwnerEnabled(s, step)
    ensures Inv(OwnerApply(s, step))
  {
    var s' := OwnerApply(s, step);
    forall r | 0 <= r < |s'.queues| ensures QueueOk(s', r) {
      assert QueueOk(s, r);
    }
  }

  /** A healer enqueues only within a batch, which it begins only while the lease is valid. */
  lemma HealerInv(s: State, h: nat, step: HealerStep)
    requires Inv(s) && HealerEnabled(s, h, step)
    ensures Inv(HealerApply(s, h, step))
  {
    var s' := HealerApply(s, h, step);
    forall r | 0 <= r < |s'.queues| ensures QueueOk(s', r) {
      assert QueueOk(s, r);
    }
  }

  lemma NextInv(s: State, s': State)
    requires Inv(s) && Next(s, s')
    ensures Inv(s')
  {
    if OwnerNext(s, s') {
      var step :| OwnerEnabled(s, step) && s' == OwnerApply(s, step);
      OwnerInv(s, step);
    } else {
      var h, step :| HealerEnabled(s, h, step) && s' == HealerApply(s, h, step);
      HealerInv(s, h, step);
    }
  }

  lemma {:induction false} RunInv(run: seq<State>, k: nat)
    requires IsRun(run) && k < |run|
    ensures Inv(run[k])
  {
    if k == 0 {
      InitialInv(run[0]);
    } else {
      RunInv(run, k - 1);
      assert NextAt(run, k - 1);
      NextInv(run[k - 1], run[k]);
    }
  }

  // ---------- What it means ----------

  /** Release comes last: in every run and on every replica's queue nothing of the lease
      follows a Release but another Release, the lease is locally invalid from the moment one
      may be enqueued, and at most one healer runs. */
  lemma ReleaseComesLast(run: seq<State>, k: nat, r: nat)
    requires IsRun(run) && k < |run| && r < |run[k].queues|
    ensures ReleaseLast(run[k].queues[r])
    ensures Release in run[k].queues[r] ==> !LocallyValid(run[k])
    ensures OwnerEnabled(run[k], SubmitRelease(r, true)) || OwnerEnabled(run[k], SubmitAbandon(r, true)) ==>
      !LocallyValid(run[k])
    ensures forall h, h' :: h in run[k].healers && h' in run[k].healers ==> h == h'
  {
    RunInv(run, k);
    assert QueueOk(run[k], r);
  }

  /** Nobody waits in vain: an operation under way has a step to take, except Release at the
      barrier, and then the healer it waits for has one. */
  lemma OperationProceeds(run: seq<State>, k: nat)
    requires IsRun(run) && k < |run| && run[k].owner != Between
    requires Ending(run[k]) ==> run[k].owner.next < |run[k].queues|
    ensures (exists step: OwnerStep :: !step.Tick? && OwnerEnabled(run[k], step))
         || (run[k].owner.Barrier? && exists h, step :: HealerEnabled(run[k], h, step) && BatchStep(step))
  {
    var s := run[k];
    RunInv(run, k);
    match s.owner {
      case Acquiring(r) => assert OwnerEnabled(s, if r < |s.queues| then SubmitAcquire(r, true) else AcquireFails);
      case Abandoning(r) => assert OwnerEnabled(s, SubmitAbandon(r, true));
      case Renewing(r) => assert OwnerEnabled(s, if r < |s.queues| then SubmitRenew(r, true) else RenewEnds(None));
      case Releasing(r) => assert OwnerEnabled(s, SubmitRelease(r, true));
      case Barrier =>
        if s.batches == 0 {
          assert OwnerEnabled(s, BarrierPassed);
        } else {
          var h :| h in s.healers;
          if s.healers[h].targets == {} {
            assert HealerEnabled(s, h, EndBatch) && BatchStep(EndBatch);
          } else {
            var r :| r in s.healers[h].targets;
            assert HealerEnabled(s, h, SubmitHealing(r, true)) && BatchStep(SubmitHealing(r, true));
          }
        }
    }
  }

  predicate BatchStep(step: HealerStep) {
    step.SubmitHealing? || step.EndBatch?
  }

  // ---------- What was asked of the replicas ----------

  datatype Label = ByOwner(action: OwnerStep) | ByHealer(h: nat, step: HealerStep)

  ghost predicate Took(s: State, taken: Label, s': State) {
    match taken
    case ByOwner(action) => OwnerEnabled(s, action) && s' == OwnerApply(s, action)
    case ByHealer(h, step) => HealerEnabled(s, h, step) && s' == HealerApply(s, h, step)
  }

  ghost predicate TookAt(run: seq<State>, labels: seq<Label>, i: nat)
    requires i < |labels| && |run| == |labels| + 1
  {
    Took(run[i], labels[i], run[i + 1])
  }

  /** A run together with the step taken at each point. */
  ghost predicate IsTrace(run: seq<State>, labels: seq<Label>) {
    && |run| == |labels| + 1 && Initial(run[0])
    && forall i: nat :: i < |labels| ==> TookAt(run, labels, i)
  }

  lemma {:induction false} TraceInv(run: seq<State>, labels: seq<Label>, k: nat)
    requires IsTrace(run, labels) && k <= |labels|
    ensures Inv(run[k]) && |run[k].queues| == |run[0].queues|
  {
    if k == 0 {
      InitialInv(run[0]);
    } else {
      TraceInv(run, labels, k - 1);
      assert TookAt(run, labels, k - 1);
      match labels[k - 1] {
        case ByOwner(action) => OwnerInv(run[k - 1], action);
        case ByHealer(h, step) => HealerInv(run[k - 1], h, step);
      }
    }
  }

  /** The replica that a step submits a request to, the request and whether it was accepted. */
  function Submits(taken: Label): Option<(nat, Kind, bool)> {
    match taken
    case ByOwner(SubmitAcquire(r, ok)) => Some((r, Acquire, ok))
    case ByOwner(SubmitAbandon(r, ok)) => Some((r, Release, ok))
    case ByOwner(SubmitRenew(r, ok)) => Some((r, Renew, ok))
    case ByOwner(SubmitRelease(r, ok)) => Some((r, Release, ok))
    case ByHealer(_, SubmitHealing(r, ok)) => Some((r, Acquire, ok))
    case _ => None
  }

  /** Everything replica `r` has accepted in the first `k` steps, in order. */
  ghost function AcceptedBy(labels: seq<Label>, k: nat, r: nat): seq<Kind>
    requires k <= |labels|
  {
    if k == 0 then []
    else AcceptedBy(labels, k - 1, r) + (match Submits(labels[k - 1])
                                         case Some((r', kind, ok)) => if r' == r && ok then [kind] else []
                                         case None => [])
  }

  /** A replica's queue holds exactly the requests it has accepted, in the order in which they
      were submitted. */
  lemma {:induction false} QueueIsAccepted(run: seq<State>, labels: seq<Label>, k: nat, r: nat)
    requires IsTrace(run, labels) && k <= |labels| && r < |run[0].queues|
    ensures |run[k].queues| == |run[0].queues| && run[k].queues[r] == AcceptedBy(labels, k, r)
  {
    TraceInv(run, labels, k);
    if k > 0 {
      QueueIsAccepted(run, labels, k - 1, r);
      assert TookAt(run, labels, k - 1);
      assert run[k - 1].queues[r] + [] == run[k - 1].queues[r];
    }
  }

  /** Step `j` submits a Release to replica `r`, and the last thing the replica has accepted is
      a Release unless it refused. */
  ghost predicate AskedToRelease(run: seq<State>, labels: seq<Label>, j: nat, k: nat, r: nat)
    requires |run| == |labels| + 1 && k <= |labels|
  {
    && j < k && r < |run[k].queues|
    && Submits(labels[j]).Some? && Submits(labels[j]).value.0 == r && Submits(labels[j]).value.1 == Release
    && (Submits(labels[j]).value.2 ==> run[k].queues[r] != [] && run[k].queues[r][|run[k].queues[r]| - 1] == Release)
  }

  /** Once Release, or an Acquire that failed, is past its loop, every replica has been asked to
      release the lease, and each that accepted holds that Release as its last entry. */
  lemma {:induction false} ReleaseReachesAll(run: seq<State>, labels: seq<Label>, k: nat, r: nat)
    requires IsTrace(run, labels) && k <= |labels| && r < |run[0].queues|
    requires Ending(run[k]) && r < run[k].owner.next
    ensures exists j: nat :: AskedToRelease(run, labels, j, k, r)
  {
    TraceInv(run, labels, k);
    assert TookAt(run, labels, k - 1);
    if Ending(run[k - 1]) && r < run[k - 1].owner.next {
      ReleaseReachesAll(run, labels, k - 1, r);
      TraceInv(run, labels, k - 1);
      var j: nat :| AskedToRelease(run, labels, j, k - 1, r);
      assert AskedToRelease(run, labels, j, k, r);
    } else {
      assert AskedToRelease(run, labels, k - 1, k, r);
    }
  }

  /** The longest validity that the operations up to step `k` have obtained. */
  ghost function Obtained(labels: seq<Label>, k: nat): Option<int>
    requires k <= |labels|
  {
    if k == 0 then None
    else match labels[k - 1]
      case ByOwner(AcquireSucceeds(until)) => Some(until)
      case ByOwner(RenewEnds(Some(until))) => Some(Longer(Obtained(labels, k - 1), until))
      case _ => Obtained(labels, k - 1)
  }

  function Longer(until: Option<int>, other: int): int {
    if until.Some? then Max(until.value, other) else other
  }

  /** The client relies on the lease exactly as long as its Acquire and its Renews allow, and no
      longer once it is released. */
  lemma {:induction false} ReliesOnObtained(run: seq<State>, labels: seq<Label>, k: nat)
    requires IsTrace(run, labels) && k <= |labels|
    ensures run[k].released <==> exists j: nat :: j < k && labels[j] == ByOwner(StartRelease)
    ensures run[k].validUntil == if run[k].released then None else Obtained(labels, k)
    ensures run[k].owner.Between? || run[k].owner.Renewing? ==> Obtained(labels, k).Some?
  {
    if k > 0 {
      TraceInv(run, labels, k - 1);
      ReliesOnObtained(run, labels, k - 1);
      assert TookAt(run, labels, k - 1);
    }
  }

  // ---------- What the operations achieve ----------

  ghost predicate IsPath(path: seq<State>) {
    path != [] && forall i: nat :: i + 1 < |path| ==> NextAt(path, i)
  }

  lemma JoinPaths(p: seq<State>, q: seq<State>)
    requires IsPath(p) && IsPath(q) && p[|p| - 1] == q[0]
    ensures IsPath(p + q[1..])
    ensures (p + q[1..])[0] == p[0] && (p + q[1..])[|p + q[1..]| - 1] == q[|q| - 1]
  {
    var r := p + q[1..];
    forall i: nat | i + 1 < |r| ensures NextAt(r, i) {
      if i < |p| - 1 {
        assert NextAt(p, i);
      } else {
        assert NextAt(q, i - (|p| - 1));
      }
    }
  }

  lemma OwnerPath(s: State, step: OwnerStep)
    requires OwnerEnabled(s, step)
    ensures IsPath([s, OwnerApply(s, step)])
  {
    assert OwnerNext(s, OwnerApply(s, step));
  }

  lemma HealerPath(s: State, h: nat, step: HealerStep)
    requires HealerEnabled(s, h, step)
    ensures IsPath([s, HealerApply(s, h, step)])
  {
    assert HealerNext(s, HealerApply(s, h, step));
  }

  /** The loops over the replicas. */
  datatype Loop = AcquireLoop | AbandonLoop | RenewLoop | ReleaseLoop

  function LoopAt(loop: Loop, r: nat): Owner {
    match loop
    case AcquireLoop => Acquiring(r)
    case AbandonLoop => Abandoning(r)
    case RenewLoop => Renewing(r)
    case ReleaseLoop => Releasing(r)
  }

  function LoopKind(loop: Loop): Kind {
    match loop
    case AcquireLoop => Acquire
    case RenewLoop => Renew
    case _ => Release
  }

  /** The queues once every replica from `next` on has accepted one more request. */
  function Extended(queues: seq<seq<Kind>>, next: nat, kind: Kind): seq<seq<Kind>> {
    seq(|queues|, i requires 0 <= i < |queues| => if i < next then queues[i] else queues[i] + [kind])
  }

  lemma {:induction false} LoopPath(s: State, loop: Loop, next: nat) returns (path: seq<State>)
    requires s.owner == LoopAt(loop, next) && next <= |s.queues|
    ensures IsPath(path) && path[0] == s
    ensures path[|path| - 1] ==
      s.(owner := LoopAt(loop, |s.queues|), queues := Extended(s.queues, next, LoopKind(loop)))
    decreases |s.queues| - next
  {
    if next == |s.queues| {
      assert Extended(s.queues, next, LoopKind(loop)) == s.queues;
      path := [s];
    } else {
      var step := match loop
        case AcquireLoop => SubmitAcquire(next, true)
        case AbandonLoop => SubmitAbandon(next, true)
        case RenewLoop => SubmitRenew(next, true)
        case ReleaseLoop => SubmitRelease(next, true);
      var s' := OwnerApply(s, step);
      OwnerPath(s, step);
      var rest := LoopPath(s', loop, next + 1);
      JoinPaths([s, s'], rest);
      path := [s, s'] + rest[1..];
      assert Extended(s'.queues, next + 1, LoopKind(loop)) == Extended(s.queues, next, LoopKind(loop));
    }
  }

  /** One step and then a loop. */
  lemma StepAndLoop(s: State, step: OwnerStep, loop: Loop) returns (path: seq<State>)
    requires OwnerEnabled(s, step) && OwnerApply(s, step).owner == LoopAt(loop, 0)
    ensures IsPath(path) && path[0] == s
    ensures path[|path| - 1] == OwnerApply(s, step).(
      owner := LoopAt(loop, |OwnerApply(s, step).queues|),
      queues := Extended(OwnerApply(s, step).queues, 0, LoopKind(loop)))
  {
    OwnerPath(s, step);
    var rest := LoopPath(OwnerApply(s, step), loop, 0);
    JoinPaths([s, OwnerApply(s, step)], rest);
    path := [s, OwnerApply(s, step)] + rest[1..];
  }

  /** An Acquire that succeeds asks every replica once and leaves a lease held until the instant
      its quorum has confirmed; one that fails asks every replica to release again. */
  lemma AcquirePath(s: State, until: Option<int>) returns (path: seq<State>)
    requires Initial(s)
    ensures IsPath(path) && path[0] == s
    ensures var e := path[|path| - 1];
      && e.now == s.now && !e.released && e.healers == map[] && |e.queues| == |s.queues|
      && e.validUntil == until && e.owner == (if until.Some? then Between else Abandoning(|s.queues|))
      && forall r :: 0 <= r < |s.queues| ==> e.queues[r] == if until.Some? then [Acquire] else [Acquire, Release]
  {
    path := LoopPath(s, AcquireLoop, 0);
    var asked := path[|path| - 1];
    if until.Some? {
      OwnerPath(asked, AcquireSucceeds(until.value));
      JoinPaths(path, [asked, OwnerApply(asked, AcquireSucceeds(until.value))]);
      path := path + [asked, OwnerApply(asked, AcquireSucceeds(until.value))][1..];
    } else {
      var rest := StepAndLoop(asked, AcquireFails, AbandonLoop);
      JoinPaths(path, rest);
      path := path + rest[1..];
    }
  }

  /** A Renew asks every replica once and never shortens the lease. */
  lemma RenewPath(s: State, confirmed: int) returns (path: seq<State>)
    requires s.owner == Between && !s.released && s.validUntil.Some?
    ensures IsPath(path) && path[0] == s
    ensures path[|path| - 1] ==
      s.(validUntil := Some(Max(s.validUntil.value, confirmed)), queues := Extended(s.queues, 0, Renew))
  {
    path := StepAndLoop(s, StartRenew, RenewLoop);
    var asked := path[|path| - 1];
    OwnerPath(asked, RenewEnds(Some(confirmed)));
    JoinPaths(path, [asked, OwnerApply(asked, RenewEnds(Some(confirmed)))]);
    path := path + [asked, OwnerApply(asked, RenewEnds(Some(confirmed)))][1..];
  }

  /** Time alone ends a lease, exactly at the instant it was confirmed to. */
  lemma Expires(s: State, to: int)
    requires s.now <= to
    ensures LocallyValid(OwnerApply(s, Tick(to))) <==> !s.released && s.validUntil.Some? && to < s.validUntil.value
  {
  }

  /** A Release outside any healing batch ends the lease and asks every replica once. */
  lemma ReleasePath(s: State) returns (path: seq<State>)
    requires s.owner == Between && !s.released && s.batches == 0
    ensures IsPath(path) && path[0] == s
    ensures path[|path| - 1] == s.(released := true, validUntil := None, owner := Releasing(|s.queues|),
                                   queues := Extended(s.queues, 0, Release))
  {
    OwnerPath(s, StartRelease);
    var ended := OwnerApply(s, StartRelease);
    var rest := StepAndLoop(ended, BarrierPassed, ReleaseLoop);
    JoinPaths([s, ended], rest);
    path := [s, ended] + rest[1..];
  }

  /** The queues once the given replicas have accepted an Acquire. */
  function Healed(queues: seq<seq<Kind>>, targets: set<nat>): seq<seq<Kind>> {
    seq(|queues|, i requires 0 <= i < |queues| => if i in targets then queues[i] + [Acquire] else queues[i])
  }

  lemma {:induction false} BatchPath(s: State, h: nat) returns (path: seq<State>)
    requires h in s.healers && s.healers[h].Batch? && forall r :: r in s.healers[h].targets ==> r < |s.queues|
    ensures IsPath(path) && path[0] == s
    ensures path[|path| - 1] ==
      s.(healers := s.healers[h := Batch({})], queues := Healed(s.queues, s.healers[h].targets))
    decreases |s.healers[h].targets|
  {
    var targets := s.healers[h].targets;
    path := [s];
    if targets == {} {
      assert Healed(s.queues, targets) == s.queues && s.healers[h := Batch({})] == s.healers;
    } else {
      var r :| r in targets;
      HealerPath(s, h, SubmitHealing(r, true));
      var s' := HealerApply(s, h, SubmitHealing(r, true));
      var rest := BatchPath(s', h);
      JoinPaths([s, s'], rest);
      path := [s, s'] + rest[1..];
      assert Healed(s'.queues, targets - {r}) == Healed(s.queues, targets);
    }
  }

  /** A healer that finds a replica still unconfirmed goes on; it asks exactly its targets to
      take the lease back, and ends when everything is confirmed. */
  lemma HealPath(s: State, h: nat, targets: set<nat>) returns (path: seq<State>)
    requires h !in s.healers && !s.healing && LocallyValid(s) && forall r :: r in targets ==> r < |s.queues|
    ensures IsPath(path) && path[0] == s
    ensures path[|path| - 1] == s.(queues := Healed(s.queues, targets))
  {
    var s1 := HealerApply(s, h, StartHealing);
    var s2 := HealerApply(s1, h, HealerExits(true));
    var s3 := HealerApply(s2, h, BeginBatch(targets));
    assert HealerNext(s, s1) && HealerNext(s1, s2) && HealerNext(s2, s3);
    var batch := BatchPath(s3, h);
    var s4 := batch[|batch| - 1];
    var s5 := HealerApply(s4, h, EndBatch);
    var s6 := HealerApply(s5, h, HealerExits(false));
    assert HealerNext(s4, s5) && HealerNext(s5, s6);
    assert s6.healers == s.healers;
    JoinPaths([s, s1, s2, s3], batch);
    path := [s, s1, s2, s3] + batch[1..];
    JoinPaths(path, [s4, s5, s6]);
    path := path + [s4, s5, s6][1..];
  }
}
