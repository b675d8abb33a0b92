/** The bounded multi-producer single-consumer ring with its coalescing wakeup, as a state
    machine in which every atomic load, compare-and-swap and store, and every plain access
    to a slot's value, is a step of its own. Any number of producers interleave with one
    consumer. Positions are unbounded: wrap-around of 64-bit counters is not modelled. */
module Ring {
  import opened Bits

  datatype Slot<T> = Slot(sequence: nat, value: T)

  /** Where a producer stands inside TryEnqueue, or between TryStartEnqueue and FinishEnqueue
      when it fills the slot in place. An in-place producer is `Written` from its claim on: it
      may fill the slot any number of times and publish what the slot then holds, filled or
      not. */
  datatype Producer<T> =
    | Calling(value: T, inPlace: bool)
    | GotTail(value: T, inPlace: bool, position: nat)
    | GotSequence(value: T, inPlace: bool, position: nat, sequence: nat)
    | Claimed(value: T, position: nat)
    | Written(value: T, inPlace: bool, position: nat)
    | Published(position: nat)

  /** Where the consumer stands; `Waiting` means it found nothing and blocks on the signal. */
  datatype Consumer =
    | Between
    | GotHead(position: nat)
    | Matched(position: nat)
    | Read(position: nat)
    | Cleared(position: nat)
    | Advanced(position: nat)
    | Waiting

  /** `claimed[p]` is the value owned by position `p` and `dequeued` what the consumer has
      taken so far, in order; no step's guard reads either. */
  datatype Ring<T> = Ring(
    capacity: nat,
    zero: T,
    head: nat,
    tail: nat,
    slots: seq<Slot<T>>,
    ready: bool,
    producers: map<nat, Producer<T>>,
    consumer: Consumer,
    claimed: seq<T>,
    dequeued: seq<T>)

  ghost predicate Initial<T>(r: Ring<T>) {
    && ValidCapacity(r.capacity) && |r.slots| == r.capacity
    && (forall i :: 0 <= i < r.capacity ==> r.slots[i] == Slot(i, r.zero))
    && r.head == 0 && r.tail == 0 && !r.ready
    && r.producers == map[] && r.consumer == Between
    && r.claimed == [] && r.dequeued == []
  }

  datatype ProducerStep<T> =
    | Call(value: T, inPlace: bool)
    | LoadTail
    | LoadSequence
    | CompareAndSwapTail
    | Retry
    | ReturnFull
    | Write(value: T)
    | StorePublished
    | Signal

  datatype ConsumerStep =
    | LoadHead
    | MatchSequence
    | ReadValue
    | ClearValue
    | StoreHead
    | StoreReleased
    | Wake
    | StopWaiting

  predicate WellFormed<T>(r: Ring<T>) {
    ValidCapacity(r.capacity) && |r.slots| == r.capacity && |r.claimed| == r.tail
  }

  function At<T>(r: Ring<T>, position: nat): Slot<T>
    requires WellFormed(r)
  {
    r.slots[Index(position, r.capacity)]
  }

  function Put<T>(r: Ring<T>, position: nat, slot: Slot<T>): Ring<T>
    requires WellFormed(r)
  {
    r.(slots := r.slots[Index(position, r.capacity) := slot])
  }

  predicate ProducerEnabled<T(==)>(r: Ring<T>, p: nat, step: ProducerStep<T>) {
    if step.Call? then p !in r.producers
    else
      && p in r.producers
      && var c := r.producers[p];
      match step
      case LoadTail => c.Calling?
      case LoadSequence => c.GotTail?
      case CompareAndSwapTail => c.GotSequence? && c.sequence == c.position
      case Retry => c.GotSequence? && c.sequence > c.position
      case ReturnFull => c.GotSequence? && c.sequence < c.position
      case Write(v) => ((c.Claimed? && v == c.value) || (c.Written? && c.inPlace)) && c.position < r.tail
      case StorePublished => c.Written?
      case _ => c.Published?
  }

  function ProducerApply<T>(r: Ring<T>, p: nat, step: ProducerStep<T>): Ring<T>
    requires WellFormed(r) && ProducerEnabled(r, p, step)
  {
    if step.Call? then r.(producers := r.producers[p := Calling(step.value, step.inPlace)])
    else
      var c := r.producers[p];
      match step
      case LoadTail => r.(producers := r.producers[p := GotTail(c.value, c.inPlace, r.tail)])
      case LoadSequence =>
        r.(producers := r.producers[p := GotSequence(c.value, c.inPlace, c.position, At(r, c.position).sequence)])
      case CompareAndSwapTail =>
        if r.tail == c.position then Claim(r, p) else r.(producers := r.producers[p := Calling(c.value, c.inPlace)])
      case Retry => r.(producers := r.producers[p := Calling(c.value, c.inPlace)])
      case ReturnFull => r.(producers := r.producers - {p})
      case Write(v) => Fill(r, p, v)
      case StorePublished => Publish(r, p)
      case _ => r.(ready := true, producers := r.producers - {p})
  }

  /** The compare-and-swap has moved the tail past the producer's position. */
  function Claim<T>(r: Ring<T>, p: nat): Ring<T>
    requires WellFormed(r) && p in r.producers && r.producers[p].GotSequence?
  {
    var c := r.producers[p];
    var value := if c.inPlace then At(r, c.position).value else c.value;
    var owner := if c.inPlace then Written(value, true, c.position) else Claimed(value, c.position);
    r.(tail := r.tail + 1, claimed := r.claimed + [value], producers := r.producers[p := owner])
  }

  function Fill<T>(r: Ring<T>, p: nat, v: T): Ring<T>
    requires WellFormed(r) && p in r.producers && (r.producers[p].Claimed? || r.producers[p].Written?)
    requires r.producers[p].position < r.tail
  {
    var c := r.producers[p];
    Put(r, c.position, At(r, c.position).(value := v))
    .(producers := r.producers[p := Written(v, c.Written?, c.position)], claimed := r.claimed[c.position := v])
  }

  function Publish<T>(r: Ring<T>, p: nat): Ring<T>
    requires WellFormed(r) && p in r.producers && r.producers[p].Written?
  {
    var c := r.producers[p];
    Put(r, c.position, At(r, c.position).(sequence := c.position + 1))
    .(producers := r.producers[p := Published(c.position)])
  }

  predicate ConsumerEnabled<T>(r: Ring<T>, step: ConsumerStep) {
    match step
    case LoadHead => r.consumer.Between?
    case MatchSequence => r.consumer.GotHead?
    case ReadValue => r.consumer.Matched?
    case ClearValue => r.consumer.Read?
    case StoreHead => r.consumer.Cleared?
    case StoreReleased => r.consumer.Advanced?
    case Wake => r.consumer.Waiting? && r.ready
    case StopWaiting => r.consumer.Waiting?
  }

  function ConsumerApply<T>(r: Ring<T>, step: ConsumerStep): Ring<T>
    requires WellFormed(r) && ConsumerEnabled(r, step)
  {
    match step
    case LoadHead => r.(consumer := GotHead(r.head))
    case MatchSequence =>
      var position := r.consumer.position;
      r.(consumer := if At(r, position).sequence == position + 1 then Matched(position) else Waiting)
    case ReadValue =>
      var position := r.consumer.position;
      r.(consumer := Read(position), dequeued := r.dequeued + [At(r, position).value])
    case ClearValue =>
      var position := r.consumer.position;
      Put(r, position, At(r, position).(value := r.zero)).(consumer := Cleared(position))
    case StoreHead => r.(head := r.consumer.position + 1, consumer := Advanced(r.consumer.position))
    case StoreReleased =>
      var position := r.consumer.position;
      Put(r, position, At(r, position).(sequence := position + r.capacity)).(consumer := Between)
    case Wake => r.(ready := false, consumer := Between)
    case StopWaiting => r.(consumer := Between)
  }

  ghost predicate ProducerNext<T(!new)>(r: Ring<T>, r': Ring<T>) {
    exists p, step :: WellFormed(r) && ProducerEnabled(r, p, step) && r' == ProducerApply(r, p, step)
  }

  ghost predicate ConsumerNext<T(!new)>(r: Ring<T>, r': Ring<T>) {
    exists step :: WellFormed(r) && ConsumerEnabled(r, step) && r' == ConsumerApply(r, step)
  }

  ghost predicate Next<T(!new)>(r: Ring<T>, r': Ring<T>) {
    ProducerNext(r, r') || ConsumerNext(r, r')
  }

  ghost predicate NextAt<T(!new)>(run: seq<Ring<T>>, i: nat)
    requires i + 1 < |run|
  {
    Next(run[i], run[i + 1])
  }

  ghost predicate IsRun<T(!new)>(run: seq<Ring<T>>) {
    && run != [] && Initial(run[0])
    && forall i: nat :: i + 1 < |run| ==> NextAt(run, i)
  }

  // ---------- The invariant ----------

  /** The first position whose slot has not been handed back to the producers. */
  function Released<T>(r: Ring<T>): int {
    if r.consumer.Advanced? then r.head - 1 else r.head
  }

  /** The producer has claimed `position` and not yet published it. */
  predicate Owns<T>(c: Producer<T>, position: nat) {
    (c.Claimed? || c.Written?) && c.position == position
  }

  predicate ValueGone<T>(r: Ring<T>, position: nat) {
    (r.consumer.Cleared? || r.consumer.Advanced?) && r.consumer.position == position
  }

  /** A free slot is blank and awaits its next position; a claimed one is owned by a producer at work or
      published and intact. */
  ghost predicate SlotOk<T>(r: Ring<T>, position: nat)
    requires WellFormed(r)
  {
    var slot := At(r, position);
    if r.tail <= position then slot == Slot(position, r.zero)
    else
      || (slot.sequence == position && exists p :: p in r.producers && Owns(r.producers[p], position))
      || (slot.sequence == position + 1 && (ValueGone(r, position) || slot.value == r.claimed[position]))
  }

  ghost predicate ProducerOk<T>(r: Ring<T>, p: nat)
    requires WellFormed(r) && p in r.producers
  {
    match r.producers[p]
    case Calling(_, _) => true
    case GotTail(_, _, position) => position <= r.tail
    case GotSequence(_, _, position, sequence) =>
      position <= r.tail && (position == r.tail && sequence == position ==> r.tail < Released(r) + r.capacity)
    case Claimed(value, position) =>
      Released(r) <= position < r.tail && At(r, position).sequence == position && value == r.claimed[position]
    case Written(value, _, position) =>
      && Released(r) <= position < r.tail && At(r, position).sequence == position
      && At(r, position).value == value == r.claimed[position]
    case Published(position) => position < r.tail
  }

  ghost predicate ConsumerOk<T>(r: Ring<T>)
    requires WellFormed(r)
  {
    match r.consumer
    case Between => true
    case GotHead(position) => position == r.head
    case Matched(position) => position == r.head < r.tail && At(r, position).sequence == position + 1
    case Read(position) => position == r.head < r.tail && At(r, position).sequence == position + 1
    case Cleared(position) => position == r.head < r.tail && At(r, position) == Slot(position + 1, r.zero)
    case Advanced(position) => position + 1 == r.head && At(r, position) == Slot(position + 1, r.zero)
    case Waiting => true
  }

  /** A waiting consumer whose head slot is published has a signal or is about to get one. */
  ghost predicate WakeupOk<T>(r: Ring<T>)
    requires WellFormed(r)
  {
    r.consumer.Waiting? && At(r, r.head).sequence == r.head + 1 ==>
      r.ready || exists p :: p in r.producers && r.producers[p] == Published(r.head)
  }

  /** No position is owned by two producers. */
  ghost predicate OneOwner<T>(producers: map<nat, Producer<T>>) {
    forall p, p', position ::
      p in producers && p' in producers && Owns(producers[p], position) && Owns(producers[p'], position) ==> p == p'
  }

  ghost predicate Inv<T>(r: Ring<T>) {
    && WellFormed(r)
    && 0 <= Released(r) <= r.head <= r.tail <= Released(r) + r.capacity
    && (forall position :: Released(r) <= position < Released(r) + r.capacity ==> SlotOk(r, position))
    && (forall p :: p in r.producers ==> ProducerOk(r, p))
    && OneOwner(r.producers)
    && ConsumerOk(r)
    && WakeupOk(r)
    && |r.dequeued| == r.head + (if r.consumer.Read? || r.consumer.Cleared? then 1 else 0)
    && |r.dequeued| <= r.tail && r.dequeued == r.claimed[..|r.dequeued|]
  }

  lemma InitialInv<T>(r: Ring<T>)
    requires Initial(r)
    ensures Inv(r)
  {
    forall position: nat | position < r.capacity ensures SlotOk(r, position) {
      ModUnique(position, r.capacity, 0, position);
    }
  }

  /** Changing one slot leaves every other position of the window alone. */
  lemma PutOthers<T>(r: Ring<T>, base: nat, position: nat, slot: Slot<T>)
    requires WellFormed(r) && base <= position < base + r.capacity
    ensures WellFormed(Put(r, position, slot)) && At(Put(r, position, slot), position) == slot
    ensures forall q: nat :: base <= q < base + r.capacity && q != position ==>
      At(Put(r, position, slot), q) == At(r, q)
  {
    forall q: nat | base <= q < base + r.capacity && q != position
      ensures At(Put(r, position, slot), q) == At(r, q)
    {
      if q < position {
        DistinctSlots(q, position, r.capacity);
      } else {
        DistinctSlots(position, q, r.capacity);
      }
    }
  }

  /** What a position outside the window sees: its slot serves the next or an earlier lap. */
  lemma HeadSlot<T>(r: Ring<T>)
    requires Inv(r)
    ensures At(r, Released(r) + r.capacity) == At(r, Released(r))
  {
    SameSlot(Released(r), r.capacity);
  }
}
