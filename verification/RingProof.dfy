/** Every step of the ring keeps its invariant, and what follows for every interleaving:
    first-in first-out delivery without loss, duplication or overwriting, refusal only when
    full, and no lost wakeup. */
module RingProof {
  import opened Types
  import opened Bits
  import opened Ring

  // ---------- Producer steps ----------

  /** A producer that owns no slot moves to another state in which it owns none. */
  lemma LocalStep<T>(r: Ring<T>, p: nat, c: Option<Producer<T>>, ready: bool)
    requires Inv(r)
    requires p in r.producers ==> !r.producers[p].Claimed? && !r.producers[p].Written?
    requires c.Some? ==> !c.value.Claimed? && !c.value.Written?
    requires var producers := if c.Some? then r.producers[p := c.value] else r.producers - {p};
             var r' := r.(ready := ready, producers := producers);
             && (c.Some? ==> ProducerOk(r', p))
             && (r.ready ==> ready)
             && (p in r.producers && r.producers[p].Published? ==> ready)
    ensures Inv(r.(ready := ready, producers := if c.Some? then r.producers[p := c.value] else r.producers - {p}))
  {
    var r' := r.(ready := ready, producers := if c.Some? then r.producers[p := c.value] else r.producers - {p});
    forall q | q in r'.producers ensures ProducerOk(r', q) {
      if q != p {
        assert ProducerOk(r, q);
      }
    }
    forall position | Released(r') <= position < Released(r') + r'.capacity ensures SlotOk(r', position) {
      assert SlotOk(r, position);
      if position < r.tail && At(r, position).sequence == position {
        var q :| q in r.producers && Owns(r.producers[q], position);
        assert q in r'.producers && Owns(r'.producers[q], position);
      }
    }
    if r.consumer.Waiting? && At(r, r.head).sequence == r.head + 1 && !ready {
      var q :| q in r.producers && r.producers[q] == Published(r.head);
      assert q in r'.producers && r'.producers[q] == Published(r.head);
    }
  }

  /** A sequence equal to the position it was loaded for means the slot is free. */
  lemma LoadedSequence<T>(r: Ring<T>, position: nat)
    requires Inv(r) && position == r.tail && At(r, position).sequence == position
    ensures r.tail < Released(r) + r.capacity
  {
    assert SlotOk(r, Released(r));
    HeadSlot(r);
  }

  /** A producer may move the tail: the slot at the tail is free. */
  ghost predicate MayClaim<T>(r: Ring<T>, p: nat) {
    && WellFormed(r) && p in r.producers && r.producers[p].GotSequence?
    && r.producers[p].sequence == r.producers[p].position == r.tail
  }

  lemma ClaimProducers<T>(r: Ring<T>, p: nat)
    requires Inv(r) && MayClaim(r, p)
    ensures WellFormed(Claim(r, p)) && forall q :: q in Claim(r, p).producers ==> ProducerOk(Claim(r, p), q)
  {
    var r' := Claim(r, p);
    assert ProducerOk(r, p);
    assert SlotOk(r, r.tail);
    forall q | q in r'.producers ensures ProducerOk(r', q) {
      if q != p {
        assert ProducerOk(r, q);
      }
    }
  }

  lemma ClaimSlots<T>(r: Ring<T>, p: nat, position: nat)
    requires Inv(r) && MayClaim(r, p) && Released(r) <= position < Released(r) + r.capacity
    ensures SlotOk(Claim(r, p), position)
  {
    var r' := Claim(r, p);
    assert SlotOk(r, position);
    if position == r.tail {
      assert p in r'.producers && Owns(r'.producers[p], position);
    } else if position < r.tail && At(r, position).sequence == position {
      var q :| q in r.producers && Owns(r.producers[q], position);
      assert q in r'.producers && Owns(r'.producers[q], position);
    }
  }

  lemma ClaimOwners<T>(r: Ring<T>, p: nat)
    requires Inv(r) && MayClaim(r, p)
    ensures OneOwner(Claim(r, p).producers)
  {
    forall q | q in r.producers && q != p ensures !Owns(r.producers[q], r.tail) {
      assert ProducerOk(r, q);
    }
  }

  lemma ClaimInv<T>(r: Ring<T>, p: nat)
    requires Inv(r) && MayClaim(r, p)
    ensures Inv(Claim(r, p))
  {
    var r' := Claim(r, p);
    ClaimProducers(r, p);
    ClaimOwners(r, p);
    assert ProducerOk(r, p);
    forall position | Released(r') <= position < Released(r') + r'.capacity ensures SlotOk(r', position) {
      ClaimSlots(r, p, position);
    }
    if r.consumer.Waiting? && At(r, r.head).sequence == r.head + 1 && !r.ready {
      var q :| q in r.producers && r.producers[q] == Published(r.head);
      assert q in r'.producers && r'.producers[q] == Published(r.head);
    }
  }

  /** A producer writes to, or publishes, the slot it owns: `r'` differs from `r` in that slot
      and in the producer itself. */
  ghost predicate OwnerStep<T(!new)>(r: Ring<T>, p: nat, r': Ring<T>) {
    && Inv(r) && p in r.producers && (r.producers[p].Claimed? || r.producers[p].Written?)
    && ((exists v :: r' == Fill(r, p, v)) || (r.producers[p].Written? && r' == Publish(r, p)))
  }

  lemma OwnerFrame<T(!new)>(r: Ring<T>, p: nat, r': Ring<T>)
    requires OwnerStep(r, p, r')
    ensures var position := r.producers[p].position;
      && WellFormed(r') && Released(r) <= position < r.tail && position >= |r.dequeued|
      && (forall q: nat :: Released(r) <= q < Released(r) + r.capacity && q != position ==> At(r', q) == At(r, q))
      && (r'.producers[p].Written? ==>
            && At(r', position).sequence == position && At(r', position).value == r'.producers[p].value
            && r'.claimed == r.claimed[position := r'.producers[p].value])
      && (!r'.producers[p].Written? ==>
            && r'.producers[p] == Published(position) && r'.claimed == r.claimed
            && At(r', position) == At(r, position).(sequence := position + 1)
            && At(r, position).value == r.claimed[position])
  {
    var position := r.producers[p].position;
    assert ProducerOk(r, p) && SlotOk(r, position);
    if r.producers[p].Written? && r' == Publish(r, p) {
      PutOthers(r, Released(r), position, At(r, position).(sequence := position + 1));
    } else {
      var v :| r' == Fill(r, p, v);
      PutOthers(r, Released(r), position, At(r, position).(value := v));
    }
  }

  lemma OwnerProducers<T(!new)>(r: Ring<T>, p: nat, r': Ring<T>, q: nat)
    requires OwnerStep(r, p, r') && q in r'.producers
    ensures WellFormed(r') && ProducerOk(r', q)
  {
    OwnerFrame(r, p, r');
    assert Owns(r.producers[p], r.producers[p].position);
    assert q in r.producers && ProducerOk(r, q);
  }

  lemma OwnerSlots<T(!new)>(r: Ring<T>, p: nat, r': Ring<T>, other: nat)
    requires OwnerStep(r, p, r') && Released(r) <= other < Released(r) + r.capacity
    ensures WellFormed(r') && SlotOk(r', other)
  {
    OwnerFrame(r, p, r');
    assert SlotOk(r, other);
    if other == r.producers[p].position {
      assert r'.producers[p].Written? ==> p in r'.producers && Owns(r'.producers[p], other);
    } else if other < r.tail && At(r, other).sequence == other {
      var q :| q in r.producers && Owns(r.producers[q], other);
      assert q in r'.producers && Owns(r'.producers[q], other);
    }
  }

  lemma OwnerWakeup<T(!new)>(r: Ring<T>, p: nat, r': Ring<T>)
    requires OwnerStep(r, p, r')
    ensures WellFormed(r') && WakeupOk(r')
  {
    OwnerFrame(r, p, r');
    if r'.consumer.Waiting? && At(r', r'.head).sequence == r'.head + 1 && !r'.ready {
      if r.producers[p].position == r.head {
        assert r'.producers[p] == Published(r.head);
      } else {
        var q :| q in r.producers && r.producers[q] == Published(r.head);
        assert r'.producers[q] == Published(r.head);
      }
    }
  }

  lemma OwnerConsumer<T(!new)>(r: Ring<T>, p: nat, r': Ring<T>)
    requires OwnerStep(r, p, r')
    ensures WellFormed(r') && ConsumerOk(r') && |r.dequeued| <= r.tail && r'.dequeued == r'.claimed[..|r.dequeued|]
  {
    OwnerFrame(r, p, r');
    assert ProducerOk(r, p) && SlotOk(r, r.producers[p].position);
  }

  lemma OwnerOwners<T(!new)>(r: Ring<T>, p: nat, r': Ring<T>)
    requires OwnerStep(r, p, r')
    ensures OneOwner(r'.producers)
  {
    forall q, q', position
      | q in r'.producers && q' in r'.producers && Owns(r'.producers[q], position) && Owns(r'.producers[q'], position)
      ensures q == q'
    {
      assert Owns(r.producers[q], position) && Owns(r.producers[q'], position);
    }
  }

  lemma OwnerInv<T(!new)>(r: Ring<T>, p: nat, r': Ring<T>)
    requires OwnerStep(r, p, r')
    ensures Inv(r')
  {
    OwnerWakeup(r, p, r');
    OwnerConsumer(r, p, r');
    OwnerOwners(r, p, r');
    forall q | q in r'.producers ensures ProducerOk(r', q) {
      OwnerProducers(r, p, r', q);
    }
    forall other | Released(r') <= other < Released(r') + r'.capacity ensures SlotOk(r', other) {
      OwnerSlots(r, p, r', other);
    }
  }

  lemma ProducerInv<T(!new)>(r: Ring<T>, p: nat, step: ProducerStep<T>)
    requires Inv(r) && ProducerEnabled(r, p, step)
    ensures Inv(ProducerApply(r, p, step))
  {
    var r' := ProducerApply(r, p, step);
    match step {
      case CompareAndSwapTail =>
        if r.tail == r.producers[p].position {
          ClaimInv(r, p);
        } else {
          LocalStep(r, p, Some(r'.producers[p]), r.ready);
        }
      case Write(v) => OwnerInv(r, p, Fill(r, p, v));
      case StorePublished => OwnerInv(r, p, Publish(r, p));
      case ReturnFull => LocalStep(r, p, None, r.ready);
      case Signal => LocalStep(r, p, None, true);
      case LoadSequence =>
        assert ProducerOk(r, p);
        if r.producers[p].position == r.tail && At(r, r.tail).sequence == r.tail {
          LoadedSequence(r, r.tail);
        }
        LocalStep(r, p, Some(r'.producers[p]), r.ready);
      case _ => LocalStep(r, p, Some(r'.producers[p]), r.ready);
    }
  }

  // ---------- Consumer steps ----------

  /** The consumer moves on without touching a slot or the window. */
  lemma ConsumerLocal<T>(r: Ring<T>, step: ConsumerStep)
    requires Inv(r) && ConsumerEnabled(r, step)
    requires !step.ClearValue? && !step.StoreReleased?
    ensures Inv(ConsumerApply(r, step))
  {
    var r' := ConsumerApply(r, step);
    assert Released(r') == Released(r);
    if r.head < Released(r) + r.capacity {
      assert SlotOk(r, r.head);
    }
    forall q | q in r'.producers ensures ProducerOk(r', q) {
      assert ProducerOk(r, q);
    }
    forall position | Released(r') <= position < Released(r') + r'.capacity ensures SlotOk(r', position) {
      assert SlotOk(r, position);
    }
  }

  lemma ClearStep<T>(r: Ring<T>)
    requires Inv(r) && ConsumerEnabled(r, ClearValue)
    ensures Inv(ConsumerApply(r, ClearValue))
  {
    var r' := ConsumerApply(r, ClearValue);
    PutOthers(r, Released(r), r.head, At(r', r.head));
    forall q | q in r'.producers ensures ProducerOk(r', q) {
      assert ProducerOk(r, q);
    }
    forall position | Released(r') <= position < Released(r') + r'.capacity ensures SlotOk(r', position) {
      assert SlotOk(r, position);
    }
  }

  /** Handing a slot back moves the window forward by one position. */
  lemma ReleaseStep<T>(r: Ring<T>)
    requires Inv(r) && ConsumerEnabled(r, StoreReleased)
    ensures Inv(ConsumerApply(r, StoreReleased))
  {
    var r' := ConsumerApply(r, StoreReleased);
    var base := Released(r);
    PutOthers(r, base, base, At(r', base));
    SameSlot(base, r.capacity);
    forall q | q in r'.producers ensures ProducerOk(r', q) {
      assert ProducerOk(r, q);
    }
    forall position | Released(r') <= position < Released(r') + r'.capacity ensures SlotOk(r', position) {
      if position < base + r.capacity {
        assert SlotOk(r, position);
      }
    }
  }

  lemma ConsumerInv<T>(r: Ring<T>, step: ConsumerStep)
    requires Inv(r) && ConsumerEnabled(r, step)
    ensures Inv(ConsumerApply(r, step))
  {
    match step {
      case ClearValue => ClearStep(r);
      case StoreReleased => ReleaseStep(r);
      case _ => ConsumerLocal(r, step);
    }
  }

  lemma NextInv<T(!new)>(r: Ring<T>, r': Ring<T>)
    requires Inv(r) && Next(r, r')
    ensures Inv(r')
  {
    if ProducerNext(r, r') {
      var p, step :| ProducerEnabled(r, p, step) && r' == ProducerApply(r, p, step);
      ProducerInv(r, p, step);
    } else {
      var step :| ConsumerEnabled(r, step) && r' == ConsumerApply(r, step);
      ConsumerInv(r, step);
    }
  }

  lemma {:induction false} RunInv<T(!new)>(run: seq<Ring<T>>, k: nat)
    requires IsRun(run) && k < |run|
    ensures Inv(run[k])
  {
    if k == 0 {
      InitialInv(run[0]);
    } else {
      RunInv(run, k - 1);
      assert NextAt(run, k - 1);
      NextInv(run[k - 1], run[k]);
    }
  }

  // ---------- What it means ----------

  /** In every interleaving the values taken so far are those of the positions 0, 1, 2, ...
      in order, and between them and the tail nothing is lost: each remaining position is
      published with its value intact or still owned by exactly one producer at work. */
  lemma FirstInFirstOut<T(!new)>(run: seq<Ring<T>>, k: nat)
    requires IsRun(run) && k < |run|
    ensures var r := run[k];
            && WellFormed(r)
            && |r.dequeued| <= r.tail <= Released(r) + r.capacity
            && r.dequeued == r.claimed[..|r.dequeued|]
            && forall position: nat :: |r.dequeued| <= position < r.tail ==>
                 || (At(r, position).sequence == position + 1 && At(r, position).value == r.claimed[position])
                 || (&& At(r, position).sequence == position
                     && exists p :: p in r.producers && Owns(r.producers[p], position))
  {
    var r := run[k];
    RunInv(run, k);
    forall position: nat | |r.dequeued| <= position < r.tail
      ensures || (At(r, position).sequence == position + 1 && At(r, position).value == r.claimed[position])
              || (&& At(r, position).sequence == position
                  && exists p :: p in r.producers && Owns(r.producers[p], position))
    {
      assert SlotOk(r, position);
    }
  }

  /** A position is worth what its producer was given, from claim to delivery: a step of a
      producer changes the value of a position only while the position is its own, unpublished
      and to be filled in place, and delivers nothing. */
  lemma ValuesAreFinal<T>(r: Ring<T>, p: nat, step: ProducerStep<T>, position: nat)
    requires Inv(r) && ProducerEnabled(r, p, step) && position < r.tail
    ensures var r' := ProducerApply(r, p, step);
      && position < |r'.claimed| && r'.dequeued == r.dequeued
      && (r'.claimed[position] != r.claimed[position] ==>
            && step.Write? && r.producers[p].Written? && r.producers[p].inPlace
            && Owns(r.producers[p], position) && position >= |r.dequeued|)
  {
    if step.Write? {
      assert ProducerOk(r, p);
      if r.producers[p].position == position && position < |r.dequeued| {
        assert SlotOk(r, position);
      }
    }
  }

  /** A step of the consumer changes the value of no position and delivers at most the next. */
  lemma DeliversNext<T>(r: Ring<T>, step: ConsumerStep)
    requires Inv(r) && ConsumerEnabled(r, step)
    ensures var r' := ConsumerApply(r, step);
      && r'.claimed == r.claimed
      && (r'.dequeued == r.dequeued
          || (|r.dequeued| < |r.claimed| && r'.dequeued == r.dequeued + [r.claimed[|r.dequeued|]]))
  {
    if step.ReadValue? {
      assert SlotOk(r, r.head);
    }
  }

  /** An enqueue is refused only when, at the moment it read the slot's sequence, every one
      of the `capacity` positions before its own was claimed and not yet handed back. */
  lemma SoundRefusal<T(!new)>(run: seq<Ring<T>>, k: nat, p: nat)
    requires IsRun(run) && k < |run|
    requires p in run[k].producers && run[k].producers[p].GotTail?
    ensures var r := run[k]; var position := r.producers[p].position;
            && WellFormed(r)
            && (At(r, position).sequence < position ==> position == r.tail && position == Released(r) + r.capacity)
  {
    RunInv(run, k);
    RefusalIsSound(run[k], p);
  }

  lemma RefusalIsSound<T>(r: Ring<T>, p: nat)
    requires Inv(r) && p in r.producers && r.producers[p].GotTail?
    ensures var position := r.producers[p].position;
            At(r, position).sequence < position ==> position == r.tail && position == Released(r) + r.capacity
  {
    assert ProducerOk(r, p);
    if r.producers[p].position < Released(r) + r.capacity {
      StaleSequence(r, r.producers[p].position);
    }
  }

  /** The sequence of a slot never falls behind a position that is still ahead of the window's end. */
  lemma {:induction false} StaleSequence<T>(r: Ring<T>, position: nat)
    requires Inv(r) && position < Released(r) + r.capacity
    ensures position <= At(r, position).sequence
    decreases Released(r) - position
  {
    if Released(r) <= position {
      assert SlotOk(r, position);
    } else {
      SameSlot(position, r.capacity);
      StaleSequence(r, position + r.capacity);
    }
  }

  /** No lost wakeup: a consumer that waits without a signal while its head slot is published
      is about to be signalled by the very producer that published it. */
  lemma NoLostWakeup<T(!new)>(run: seq<Ring<T>>, k: nat)
    requires IsRun(run) && k < |run|
    requires run[k].consumer.Waiting? && !run[k].ready
    ensures WellFormed(run[k])
    ensures At(run[k], run[k].head).sequence == run[k].head + 1 ==>
              exists p :: p in run[k].producers && run[k].producers[p] == Published(run[k].head)
  {
    RunInv(run, k);
  }
}
