/** What callers of the ring observe, told from the steps taken rather than from the ring's
    own bookkeeping: every value delivered is the argument of the very call that claimed its
    position, an enqueue is refused only when the ring was full, and a call that is left
    alone completes. */
module RingTrace {
  import opened Types
  import opened Ring
  import opened RingProof

  datatype Label<T> =
    | ByProducer(p: nat, step: ProducerStep<T>)
    | ByConsumer(action: ConsumerStep)

  ghost predicate Took<T>(r: Ring<T>, taken: Label<T>, r': Ring<T>) {
    && WellFormed(r)
    && match taken
       case ByProducer(p, step) => ProducerEnabled(r, p, step) && r' == ProducerApply(r, p, step)
       case ByConsumer(action) => ConsumerEnabled(r, action) && r' == ConsumerApply(r, action)
  }

  ghost predicate TookAt<T>(run: seq<Ring<T>>, labels: seq<Label<T>>, i: nat)
    requires i < |labels| && |run| == |labels| + 1
  {
    Took(run[i], labels[i], run[i + 1])
  }

  /** A run together with the step taken at each point. */
  ghost predicate IsTrace<T>(run: seq<Ring<T>>, labels: seq<Label<T>>) {
    && |run| == |labels| + 1 && Initial(run[0])
    && forall i: nat :: i < |labels| ==> TookAt(run, labels, i)
  }

  lemma {:induction false} TraceInv<T(!new)>(run: seq<Ring<T>>, labels: seq<Label<T>>, k: nat)
    requires IsTrace(run, labels) && k <= |labels|
    ensures Inv(run[k])
  {
    if k == 0 {
      InitialInv(run[0]);
    } else {
      TraceInv(run, labels, k - 1);
      assert TookAt(run, labels, k - 1);
      TookInv(run[k - 1], labels[k - 1], run[k]);
    }
  }

  lemma TookInv<T(!new)>(r: Ring<T>, taken: Label<T>, r': Ring<T>)
    requires Inv(r) && Took(r, taken, r')
    ensures Inv(r')
  {
    match taken {
      case ByProducer(p, step) => ProducerInv(r, p, step);
      case ByConsumer(action) => ConsumerInv(r, action);
    }
  }

  // ---------- What a producer was asked to do ----------

  /** The argument of an enqueue; an in-place one has none of its own. */
  datatype Request<T> = Request(value: T, inPlace: bool)

  /** What producer `p` was last called with before step `k`. */
  ghost function LastCall<T>(labels: seq<Label<T>>, k: nat, p: nat): Option<Request<T>>
    requires k <= |labels|
  {
    if k == 0 then None
    else match labels[k - 1]
      case ByProducer(q, Call(value, inPlace)) =>
        if q == p then Some(Request(value, inPlace)) else LastCall(labels, k - 1, p)
      case _ => LastCall(labels, k - 1, p)
  }

  /** The producer has not forgotten what it was called with. */
  ghost predicate Remembers<T>(c: Producer<T>, call: Option<Request<T>>) {
    match c
    case Calling(value, inPlace) => call == Some(Request(value, inPlace))
    case GotTail(value, inPlace, _) => call == Some(Request(value, inPlace))
    case GotSequence(value, inPlace, _, _) => call == Some(Request(value, inPlace))
    case Claimed(value, _) => call == Some(Request(value, false))
    case Written(value, inPlace, _) => call.Some? && call.value.inPlace == inPlace
      && (!inPlace ==> value == call.value.value)
    case Published(_) => true
  }

  lemma StepRemembers<T(!new)>(r: Ring<T>, p: nat, step: ProducerStep<T>, call: Option<Request<T>>)
    requires WellFormed(r) && ProducerEnabled(r, p, step) && p in ProducerApply(r, p, step).producers
    requires p in r.producers ==> Remembers(r.producers[p], call)
    ensures Remembers(ProducerApply(r, p, step).producers[p],
                      if step.Call? then Some(Request(step.value, step.inPlace)) else call)
  {
  }

  lemma OthersKeep<T(!new)>(r: Ring<T>, taken: Label<T>, r': Ring<T>, p: nat)
    requires Took(r, taken, r') && (taken.ByProducer? ==> taken.p != p)
    ensures p in r'.producers <==> p in r.producers
    ensures p in r.producers ==> r'.producers[p] == r.producers[p]
  {
  }

  lemma {:induction false} CallRemembered<T(!new)>(run: seq<Ring<T>>, labels: seq<Label<T>>, k: nat, p: nat)
    requires IsTrace(run, labels) && k <= |labels| && p in run[k].producers
    ensures Remembers(run[k].producers[p], LastCall(labels, k, p))
  {
    if k > 0 {
      assert TookAt(run, labels, k - 1);
      if labels[k - 1].ByProducer? && labels[k - 1].p == p {
        if p in run[k - 1].producers {
          CallRemembered(run, labels, k - 1, p);
        }
        StepRemembers(run[k - 1], p, labels[k - 1].step, LastCall(labels, k - 1, p));
      } else {
        OthersKeep(run[k - 1], labels[k - 1], run[k], p);
        CallRemembered(run, labels, k - 1, p);
      }
    }
  }

  // ---------- What a position is worth ----------

  /** What producer `p` leaves in the slot it claimed at step `k`, seen at step `m`: the last
      value it wrote there, or `blank`; and whether it has published it. */
  ghost function Left<T>(labels: seq<Label<T>>, k: nat, m: nat, p: nat, blank: T): (T, bool)
    requires k < m <= |labels|
  {
    if m == k + 1 then (blank, false)
    else LeftAfter(Left(labels, k, m - 1, p, blank), labels[m - 1], p)
  }

  ghost function LeftAfter<T>(left: (T, bool), taken: Label<T>, p: nat): (T, bool) {
    match taken
    case ByProducer(q, Write(v)) => if q == p && !left.1 then (v, false) else left
    case ByProducer(q, StorePublished) => if q == p then (left.0, true) else left
    case _ => left
  }

  /** Step `k` is the compare-and-swap by which `p` claims `position`. */
  ghost predicate Claims<T>(run: seq<Ring<T>>, labels: seq<Label<T>>, k: nat, p: nat, position: nat)
    requires |run| == |labels| + 1
  {
    && k < |labels| && labels[k] == ByProducer(p, CompareAndSwapTail)
    && run[k].tail == position && run[k + 1].tail == position + 1
  }

  /** Until it publishes, the claimer and nobody else owns the position, and what it is worth
      is what the claimer has left there. */
  ghost predicate Follows<T>(r: Ring<T>, p: nat, position: nat, call: Request<T>, left: (T, bool)) {
    && position < |r.claimed|
    && r.claimed[position] == (if call.inPlace then left.0 else call.value)
    && (forall q :: q in r.producers && Owns(r.producers[q], position) ==> q == p && !left.1)
    && (!left.1 ==>
          && p in r.producers && Owns(r.producers[p], position)
          && (if call.inPlace then r.producers[p].Written? && r.producers[p].inPlace
              else r.producers[p].value == call.value && (r.producers[p].Written? ==> !r.producers[p].inPlace)))
  }

  lemma ClaimFollows<T(!new)>(r: Ring<T>, p: nat, call: Request<T>)
    requires Inv(r) && MayClaim(r, p) && Remembers(r.producers[p], Some(call))
    ensures Follows(Claim(r, p), p, r.tail, call, (r.zero, false))
  {
    assert ProducerOk(r, p) && SlotOk(r, r.tail);
    forall q | q in r.producers && q != p ensures !Owns(r.producers[q], r.tail) {
      assert ProducerOk(r, q);
    }
  }

  lemma ProducerFollows<T(!new)>(r: Ring<T>, q: nat, step: ProducerStep<T>, p: nat, position: nat, call: Request<T>,
    left: (T, bool))
    requires Inv(r) && ProducerEnabled(r, q, step) && Follows(r, p, position, call, left)
    ensures Follows(ProducerApply(r, q, step), p, position, call, LeftAfter(left, ByProducer(q, step), p))
  {
  }

  lemma TookFollows<T(!new)>(r: Ring<T>, taken: Label<T>, r': Ring<T>, p: nat, position: nat, call: Request<T>,
    left: (T, bool))
    requires Inv(r) && Took(r, taken, r') && Follows(r, p, position, call, left)
    ensures Follows(r', p, position, call, LeftAfter(left, taken, p))
  {
    match taken {
      case ByProducer(q, step) => ProducerFollows(r, q, step, p, position, call, left);
      case ByConsumer(_) =>
    }
  }

  lemma {:induction false} PositionFollows<T(!new)>(run: seq<Ring<T>>, labels: seq<Label<T>>, k: nat, m: nat, p: nat,
    position: nat)
    requires IsTrace(run, labels) && Claims(run, labels, k, p, position) && k < m <= |labels|
    ensures LastCall(labels, k, p).Some?
    ensures Follows(run[m], p, position, LastCall(labels, k, p).value, Left(labels, k, m, p, run[k].zero))
  {
    TraceInv(run, labels, m - 1);
    assert TookAt(run, labels, m - 1);
    if m == k + 1 {
      CallRemembered(run, labels, k, p);
      ClaimFollows(run[k], p, LastCall(labels, k, p).value);
    } else {
      PositionFollows(run, labels, k, m - 1, p, position);
      var call, left := LastCall(labels, k, p).value, Left(labels, k, m - 1, p, run[k].zero);
      TookFollows(run[m - 1], labels[m - 1], run[m], p, position, call, left);
    }
  }

  /** Every position below the tail was claimed by a step of the trace. */
  lemma {:induction false} WasClaimed<T(!new)>(run: seq<Ring<T>>, labels: seq<Label<T>>, m: nat, position: nat)
    returns (k: nat, p: nat)
    requires IsTrace(run, labels) && m <= |labels| && position < run[m].tail
    ensures k < m && Claims(run, labels, k, p, position)
  {
    assert TookAt(run, labels, m - 1);
    if position < run[m - 1].tail {
      k, p := WasClaimed(run, labels, m - 1, position);
    } else {
      k, p := m - 1, labels[m - 1].p;
    }
  }

  lemma {:induction false} TailGrows<T(!new)>(run: seq<Ring<T>>, labels: seq<Label<T>>, k: nat, m: nat)
    requires IsTrace(run, labels) && k <= m <= |labels|
    ensures run[k].tail <= run[m].tail
  {
    if k < m {
      assert TookAt(run, labels, m - 1);
      TailGrows(run, labels, k, m - 1);
    }
  }

  /** Each delivered value is the argument of one call: the position it was delivered from was
      claimed by exactly one step, and what came out is what that producer was last called
      with, or, when the producer fills the slot in place, the last value it wrote there
      before publishing, a blank if it wrote none. */
  lemma DeliversTheArgument<T(!new)>(run: seq<Ring<T>>, labels: seq<Label<T>>, m: nat, position: nat)
    returns (k: nat, p: nat)
    requires IsTrace(run, labels) && m <= |labels| && position < |run[m].dequeued|
    ensures k < m && Claims(run, labels, k, p, position)
    ensures forall j: nat, q: nat :: Claims(run, labels, j, q, position) ==> j == k && q == p
    ensures LastCall(labels, k, p).Some?
    ensures var call := LastCall(labels, k, p).value;
            run[m].dequeued[position] ==
            if call.inPlace then Left(labels, k, m, p, run[0].zero).0 else call.value
  {
    TraceInv(run, labels, m);
    k, p := WasClaimed(run, labels, m, position);
    forall j: nat, q: nat | Claims(run, labels, j, q, position) ensures j == k && q == p {
      if j < k {
        TailGrows(run, labels, j + 1, k);
      } else if k < j {
        TailGrows(run, labels, k + 1, j);
      }
    }
    PositionFollows(run, labels, k, m, p, position);
    SameZero(run, labels, k);
  }

  lemma {:induction false} SameZero<T(!new)>(run: seq<Ring<T>>, labels: seq<Label<T>>, k: nat)
    requires IsTrace(run, labels) && k <= |labels|
    ensures run[k].zero == run[0].zero
  {
    if k > 0 {
      assert TookAt(run, labels, k - 1);
      SameZero(run, labels, k - 1);
    }
  }

  // ---------- Refusals ----------

  ghost predicate ByOthers<T>(labels: seq<Label<T>>, j: nat, k: nat, p: nat)
    requires k <= |labels|
  {
    forall i :: j < i < k && labels[i].ByProducer? ==> labels[i].p != p
  }

  /** At step `j` producer `p` read a slot's sequence, it has not moved since, and the ring was
      full: `capacity` positions were claimed and not yet handed back. */
  ghost predicate FoundFull<T>(run: seq<Ring<T>>, labels: seq<Label<T>>, j: nat, k: nat, p: nat)
    requires |run| == |labels| + 1 && k <= |labels|
  {
    && j < k && labels[j] == ByProducer(p, LoadSequence) && ByOthers(labels, j, k, p)
    && run[j].tail == Released(run[j]) + run[j].capacity
  }

  /** The step at which a producer that holds a sequence loaded it. */
  lemma {:induction false} LoadedAt<T(!new)>(run: seq<Ring<T>>, labels: seq<Label<T>>, k: nat, p: nat) returns (j: nat)
    requires IsTrace(run, labels) && k <= |labels| && p in run[k].producers && run[k].producers[p].GotSequence?
    ensures j < k && labels[j] == ByProducer(p, LoadSequence) && ByOthers(labels, j, k, p)
    ensures p in run[j].producers && run[j].producers[p].GotTail? && WellFormed(run[j])
    ensures run[j].producers[p].position == run[k].producers[p].position
    ensures At(run[j], run[j].producers[p].position).sequence == run[k].producers[p].sequence
  {
    assert TookAt(run, labels, k - 1);
    if labels[k - 1].ByProducer? && labels[k - 1].p == p {
      j := k - 1;
    } else {
      OthersKeep(run[k - 1], labels[k - 1], run[k], p);
      j := LoadedAt(run, labels, k - 1, p);
    }
  }

  /** An enqueue is refused only when the ring was full at the moment this very call read the
      slot's sequence. */
  lemma RefusedWhenFull<T(!new)>(run: seq<Ring<T>>, labels: seq<Label<T>>, k: nat, p: nat)
    requires IsTrace(run, labels) && k < |labels| && labels[k] == ByProducer(p, ReturnFull)
    ensures exists j: nat :: FoundFull(run, labels, j, k, p)
  {
    assert TookAt(run, labels, k);
    var j := LoadedAt(run, labels, k, p);
    TraceInv(run, labels, j);
    RefusalIsSound(run[j], p);
    assert FoundFull(run, labels, j, k, p);
  }

  // ---------- A call left alone completes ----------

  ghost predicate IsPath<T>(path: seq<Ring<T>>, labels: seq<Label<T>>, r: Ring<T>) {
    && |path| == |labels| + 1 && path[0] == r
    && forall i: nat :: i < |labels| ==> TookAt(path, labels, i)
  }

  /** The three steps that bring a call to the slot at the tail. */
  lemma LoadAlone<T(!new)>(r: Ring<T>, p: nat, value: T, inPlace: bool) returns (path: seq<Ring<T>>)
    requires Inv(r) && p !in r.producers
    ensures |path| == 4 && path[0] == r
    ensures Took(r, ByProducer(p, Call(value, inPlace)), path[1])
    ensures Took(path[1], ByProducer(p, LoadTail), path[2])
    ensures Took(path[2], ByProducer(p, LoadSequence), path[3])
    ensures path[3] == r.(producers := r.producers[p := GotSequence(value, inPlace, r.tail, At(r, r.tail).sequence)])
  {
    var r1 := ProducerApply(r, p, Call(value, inPlace));
    var r2 := ProducerApply(r1, p, LoadTail);
    path := [r, r1, r2, ProducerApply(r2, p, LoadSequence)];
  }

  /** The four steps that claim the tail, and what they claim. */
  lemma ClaimAlone<T(!new)>(r: Ring<T>, p: nat, value: T, inPlace: bool) returns (path: seq<Ring<T>>)
    requires Inv(r) && p !in r.producers && r.tail < Released(r) + r.capacity
    ensures IsPath(path, [ByProducer(p, Call(value, inPlace)), ByProducer(p, LoadTail),
                          ByProducer(p, LoadSequence), ByProducer(p, CompareAndSwapTail)], r)
    ensures var owner := if inPlace then Written(r.zero, true, r.tail) else Claimed(value, r.tail);
            path[4] == r.(tail := r.tail + 1, claimed := r.claimed + [if inPlace then r.zero else value],
                          producers := r.producers[p := owner])
  {
    assert SlotOk(r, r.tail);
    var load := LoadAlone(r, p, value, inPlace);
    path := load + [ProducerApply(load[3], p, CompareAndSwapTail)];
  }

  /** The three steps that fill and publish a claimed slot. */
  lemma PublishAlone<T(!new)>(r: Ring<T>, p: nat, value: T) returns (path: seq<Ring<T>>)
    requires Inv(r) && p in r.producers && ProducerEnabled(r, p, Write(value))
    ensures IsPath(path, [ByProducer(p, Write(value)), ByProducer(p, StorePublished), ByProducer(p, Signal)], r)
    ensures var position := r.producers[p].position;
            && position < r.tail && WellFormed(r)
            && path[3] == Put(r, position, Slot(position + 1, value))
                          .(claimed := r.claimed[position := value], ready := true, producers := r.producers - {p})
  {
    assert ProducerOk(r, p);
    var r1, r2, r3 := PublishStates(r, p, value);
    path := [r, r1, r2, r3];
  }

  lemma PublishStates<T(!new)>(r: Ring<T>, p: nat, value: T) returns (r1: Ring<T>, r2: Ring<T>, r3: Ring<T>)
    requires WellFormed(r) && p in r.producers && ProducerEnabled(r, p, Write(value))
    requires At(r, r.producers[p].position).sequence == r.producers[p].position
    ensures Took(r, ByProducer(p, Write(value)), r1) && Took(r1, ByProducer(p, StorePublished), r2)
    ensures Took(r2, ByProducer(p, Signal), r3)
    ensures var position := r.producers[p].position;
            && position < r.tail
            && r3 == Put(r, position, Slot(position + 1, value))
                     .(claimed := r.claimed[position := value], ready := true, producers := r.producers - {p})
  {
    r1 := ProducerApply(r, p, Write(value));
    r2 := ProducerApply(r1, p, StorePublished);
    r3 := ProducerApply(r2, p, Signal);
    assert r3.producers == r.producers - {p};
  }

  /** Whatever the others have left behind, a call that then runs alone publishes its value at
      the tail when the ring has room and is refused when it is full. */
  lemma EnqueueAlone<T(!new)>(r: Ring<T>, p: nat, value: T, inPlace: bool)
    returns (labels: seq<Label<T>>, path: seq<Ring<T>>)
    requires Inv(r) && p !in r.producers
    ensures IsPath(path, labels, r) && labels != [] && labels[0] == ByProducer(p, Call(value, inPlace))
    ensures forall i :: 0 <= i < |labels| ==> labels[i].ByProducer? && labels[i].p == p
    ensures var r' := path[|labels|];
            if r.tail < Released(r) + r.capacity
            then r' == Put(r, r.tail, Slot(r.tail + 1, value))
                       .(tail := r.tail + 1, claimed := r.claimed + [value], ready := true)
            else r' == r
  {
    if r.tail < Released(r) + r.capacity {
      var first := [ByProducer(p, Call(value, inPlace)), ByProducer(p, LoadTail),
                    ByProducer(p, LoadSequence), ByProducer(p, CompareAndSwapTail)];
      var last := [ByProducer(p, Write(value)), ByProducer(p, StorePublished), ByProducer(p, Signal)];
      var claim := ClaimAlone(r, p, value, inPlace);
      PathInv(claim, first, r, 4);
      var publish := PublishAlone(claim[4], p, value);
      labels, path := first + last, claim + publish[1..];
      JoinPaths(claim, first, r, publish, last);
      assert path[7].producers == r.producers;
      assert path[7].claimed == r.claimed + [value];
    } else {
      labels, path := RefusedAlone(r, p, value, inPlace);
    }
  }

  /** In a full ring the slot at the tail lags behind. */
  lemma FullTail<T(!new)>(r: Ring<T>)
    requires Inv(r) && r.tail == Released(r) + r.capacity
    ensures At(r, r.tail).sequence < r.tail
  {
    HeadSlot(r);
    assert SlotOk(r, Released(r));
  }

  lemma RefusedAlone<T(!new)>(r: Ring<T>, p: nat, value: T, inPlace: bool)
    returns (labels: seq<Label<T>>, path: seq<Ring<T>>)
    requires Inv(r) && p !in r.producers && r.tail == Released(r) + r.capacity
    ensures labels == [ByProducer(p, Call(value, inPlace)), ByProducer(p, LoadTail), ByProducer(p, LoadSequence),
                       ByProducer(p, ReturnFull)]
    ensures IsPath(path, labels, r) && path[4] == r
  {
    FullTail(r);
    var load := LoadAlone(r, p, value, inPlace);
    labels := [ByProducer(p, Call(value, inPlace)), ByProducer(p, LoadTail), ByProducer(p, LoadSequence),
               ByProducer(p, ReturnFull)];
    path := load + [ProducerApply(load[3], p, ReturnFull)];
    assert path[4].producers == r.producers;
  }

  lemma {:induction false} PathInv<T(!new)>(path: seq<Ring<T>>, labels: seq<Label<T>>, r: Ring<T>, k: nat)
    requires Inv(r) && IsPath(path, labels, r) && k <= |labels|
    ensures Inv(path[k])
  {
    if k > 0 {
      PathInv(path, labels, r, k - 1);
      assert TookAt(path, labels, k - 1);
      TookInv(path[k - 1], labels[k - 1], path[k]);
    }
  }

  lemma JoinPaths<T(!new)>(path: seq<Ring<T>>, labels: seq<Label<T>>, r: Ring<T>, path': seq<Ring<T>>,
    labels': seq<Label<T>>)
    requires IsPath(path, labels, r) && IsPath(path', labels', path[|labels|])
    ensures IsPath(path + path'[1..], labels + labels', r)
  {
    var whole, steps := path + path'[1..], labels + labels';
    forall i: nat | i < |steps| ensures TookAt(whole, steps, i) {
      if i < |labels| {
        assert TookAt(path, labels, i);
      } else {
        assert TookAt(path', labels', i - |labels|);
      }
    }
  }

  /** A consumer left alone takes the value at the head when it is published, hands its blank
      slot back for the next lap, and otherwise ends up waiting. */
  lemma DequeueAlone<T(!new)>(r: Ring<T>) returns (labels: seq<Label<T>>, path: seq<Ring<T>>)
    requires Inv(r) && r.consumer.Between?
    ensures IsPath(path, labels, r) && forall i :: 0 <= i < |labels| ==> labels[i].ByConsumer?
    ensures var r' := path[|labels|];
            if r.head < r.tail && At(r, r.head).sequence == r.head + 1
            then r' == Put(r, r.head, Slot(r.head + r.capacity, r.zero))
                       .(head := r.head + 1, dequeued := r.dequeued + [r.claimed[r.head]])
            else r' == r.(consumer := Waiting)
  {
    var r1 := ConsumerApply(r, LoadHead);
    var r2 := ConsumerApply(r1, MatchSequence);
    assert SlotOk(r, r.head);
    if r2.consumer.Waiting? {
      labels, path := [ByConsumer(LoadHead), ByConsumer(MatchSequence)], [r, r1, r2];
    } else {
      var r3 := ConsumerApply(r2, ReadValue);
      var r4 := ConsumerApply(r3, ClearValue);
      var r5 := ConsumerApply(r4, StoreHead);
      labels := [ByConsumer(LoadHead), ByConsumer(MatchSequence), ByConsumer(ReadValue),
                 ByConsumer(ClearValue), ByConsumer(StoreHead), ByConsumer(StoreReleased)];
      path := [r, r1, r2, r3, r4, r5, ConsumerApply(r5, StoreReleased)];
    }
  }

  /** A consumer that waits and finds a signal uses it up and looks again; if the head is still
      unpublished, it waits with no signal left. One told to stop keeps the signal. */
  lemma WakeAlone<T(!new)>(r: Ring<T>) returns (labels: seq<Label<T>>, path: seq<Ring<T>>)
    requires Inv(r) && r.consumer.Waiting? && r.ready
    ensures IsPath(path, labels, r) && forall i :: 0 <= i < |labels| ==> labels[i].ByConsumer?
    ensures var r' := path[|labels|];
            if r.head < r.tail && At(r, r.head).sequence == r.head + 1
            then r' == Put(r, r.head, Slot(r.head + r.capacity, r.zero))
                       .(head := r.head + 1, dequeued := r.dequeued + [r.claimed[r.head]], ready := false,
                         consumer := Between)
            else r' == r.(ready := false)
    ensures Took(r, ByConsumer(StopWaiting), r.(consumer := Between))
  {
    var woken := ConsumerApply(r, Wake);
    ConsumerInv(r, Wake);
    var labels', path' := DequeueAlone(woken);
    labels, path := [ByConsumer(Wake)] + labels', [r, woken] + path'[1..];
    JoinPaths([r, woken], [ByConsumer(Wake)], r, path', labels');
  }
}
