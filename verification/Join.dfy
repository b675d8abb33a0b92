/** The client's join of replica responses. A fan-out registers one request per replica in
    that connection's sharded pending maps and waits for all of them on one channel. Server
    responses, timeouts, aborts and Close race to complete each request: whoever takes the
    entry out of the map, under the shard mutex, owes the channel one result, and sends it
    after unlocking. Joins, with their channels, are pooled and reused. The owner of a join
    runs Acquire, Renew or a healing batch: it submits to replica after replica, collects,
    aborts or hands the rest over to a goroutine that collects it, and releases the join. */
module Join {
  import opened Types

  const MAX_SERVERS: nat := 5
  const PENDING_SHARDS: nat := 16

  function ShardOf(request: nat): (shard: nat)
    ensures shard < PENDING_SHARDS
  {
    request % PENDING_SHARDS
  }

  datatype Result = Result(replica: nat, request: nat)

  /** `closed` holds the shards whose map Close has set to nil; `inHand` the entries taken
      out of a map whose result has not been sent yet. Both maps lead to a join. */
  datatype Conn = Conn(cancelled: bool, closed: set<nat>, pending: map<nat, nat>, inHand: map<nat, nat>)

  datatype Purpose =
    | ForAcquire
    | ForRenew
    | ForHealing(targets: set<nat>)

  /** Where the goroutine that owns the join stands. `rejected` counts the submissions that
      failed and `received` those and the results taken, as the collection loops do;
      `AtNext` and `AtNextLeft` are calls of next, from the loop of Acquire or Renew and from
      the loop that collects the rest. */
  datatype Owner =
    | Submitting(purpose: Purpose, next: nat, rejected: nat)
    | Collecting(purpose: Purpose, rejected: nat, received: nat)
    | AtNext(purpose: Purpose, rejected: nat, received: nat)
    | CollectingLeft
    | AtNextLeft
    | Aborting(next: nat)
    | Draining
    | Releasing

  /** `submitting` is a request already registered but not yet recorded by its owner;
      `heard` lists the replicas whose results were taken, which no guard reads. */
  datatype Waiter = Waiter(
    inUse: bool,
    owner: Owner,
    waits: seq<Option<nat>>,
    submitting: Option<Result>,
    remaining: nat,
    results: seq<Result>,
    timer: bool,
    heard: seq<nat>)

  /** `issued` maps every registered request to its replica, `sent` lists the
      requests whose result was put on a channel; no guard reads either. */
  datatype State = State(
    conns: seq<Conn>,
    joins: map<nat, Waiter>,
    nextRequest: nat,
    issued: map<nat, nat>,
    sent: seq<nat>,
    panicked: bool)

  function SetJoin(s: State, j: nat, w: Waiter): State {
    s.(joins := s.joins[j := w])
  }

  function SetConn(s: State, r: nat, c: Conn): State
    requires r < |s.conns|
  {
    s.(conns := s.conns[r := c])
  }

  predicate Owned(s: State, j: nat) {
    j in s.joins && s.joins[j].inUse
  }

  // ---------- The owner's own steps ----------

  datatype LocalStep =
    | Begin(purpose: Purpose)
    | SkipReplica
    | Record
    | EndSubmitting(cancelled: bool)
    | Head
    | CallerCancelled
    | HeadLeft
    | LeaseReleased
    | EndAborting
    | EndDraining

  predicate LocalEnabled(s: State, j: nat, step: LocalStep) {
    if step.Begin? then
      && !Owned(s, j)
      && (step.purpose.ForHealing? ==> forall r :: r in step.purpose.targets ==> r < |s.conns|)
    else
      && Owned(s, j)
      && var w := s.joins[j];
      match step
      case SkipReplica =>
        && w.owner.Submitting? && w.submitting == None && w.owner.next < |s.conns|
        && w.owner.purpose.ForHealing? && w.owner.next !in w.owner.purpose.targets
      case Record => w.owner.Submitting? && w.submitting.Some? && w.submitting.value.replica < |w.waits|
      case EndSubmitting(_) => w.owner.Submitting? && w.submitting == None && w.owner.next == |s.conns|
      case Head => w.owner.Collecting?
      case CallerCancelled => w.owner.AtNext?
      case HeadLeft => w.owner.CollectingLeft?
      case LeaseReleased => w.owner.AtNextLeft?
      case EndAborting => w.owner.Aborting? && w.owner.next == |s.conns|
      case _ => w.owner.Draining? && w.remaining == 0
  }

  /** The rest is handed over to a goroutine that collects it, if there is any. */
  function HandOver(remaining: nat): Owner {
    if remaining != 0 then CollectingLeft else Releasing
  }

  /** Leaving the loop without a quorum: Acquire aborts, Renew keeps listening. */
  function GiveUp(purpose: Purpose, remaining: nat): Owner {
    if purpose.ForAcquire? then Aborting(0) else HandOver(remaining)
  }

  /** next arms the timer if anything is outstanding. */
  predicate AnyWait(waits: seq<Option<nat>>) {
    exists r :: 0 <= r < |waits| && waits[r].Some?
  }

  function Moved(s: State, j: nat, step: LocalStep): Waiter
    requires LocalEnabled(s, j, step)
  {
    if step.Begin? then
      if j in s.joins then s.joins[j].(inUse := true, owner := Submitting(step.purpose, 0, 0), heard := [])
      else Waiter(true, Submitting(step.purpose, 0, 0), seq(|s.conns|, _ => None), None, 0, [], false, [])
    else
      var w := s.joins[j];
      match step
      case SkipReplica => w.(owner := Submitting(w.owner.purpose, w.owner.next + 1, w.owner.rejected))
      case Record =>
        w.(submitting := None, remaining := w.remaining + 1,
           owner := Submitting(w.owner.purpose, w.owner.next + 1, w.owner.rejected),
           waits := w.waits[w.submitting.value.replica := Some(w.submitting.value.request)])
      case EndSubmitting(cancelled) =>
        w.(owner := if w.owner.purpose.ForHealing? then CollectingLeft
                    else if cancelled then GiveUp(w.owner.purpose, w.remaining)
                    else Collecting(w.owner.purpose, w.owner.rejected, w.owner.rejected))
      case Head =>
        if w.owner.received < |s.conns| then
          w.(owner := AtNext(w.owner.purpose, w.owner.rejected, w.owner.received), timer := w.timer || AnyWait(w.waits))
        else w.(owner := GiveUp(w.owner.purpose, w.remaining))
      case CallerCancelled => w.(owner := GiveUp(w.owner.purpose, w.remaining))
      case HeadLeft =>
        if w.remaining != 0 then w.(owner := AtNextLeft, timer := w.timer || AnyWait(w.waits))
        else w.(owner := Releasing)
      case LeaseReleased => w.(owner := Aborting(0))
      case EndAborting => w.(owner := Draining)
      case _ => w.(owner := Releasing)
  }

  function LocalApply(s: State, j: nat, step: LocalStep): State
    requires LocalEnabled(s, j, step)
  {
    SetJoin(s, j, Moved(s, j, step))
  }

  /** release, which panics on a join that is still active. */
  predicate ReleaseEnabled(s: State, j: nat) {
    Owned(s, j) && s.joins[j].owner.Releasing?
  }

  function ReleaseApply(s: State, j: nat): State
    requires ReleaseEnabled(s, j)
  {
    var w := s.joins[j];
    if w.remaining != 0 || w.results != [] || w.timer then s.(panicked := true)
    else SetJoin(s, j, w.(inUse := false, waits := seq(|w.waits|, _ => None)))
  }

  // ---------- Submitting one request ----------

  predicate RegisterEnabled(s: State, j: nat) {
    && Owned(s, j) && s.joins[j].owner.Submitting? && s.joins[j].submitting == None
    && var o := s.joins[j].owner;
    && o.next < |s.conns| && (o.purpose.ForHealing? ==> o.next in o.purpose.targets)
  }

  /** The submission fails, and the loop counts it. */
  function CountRefusal(s: State, j: nat): State
    requires RegisterEnabled(s, j)
  {
    var o := s.joins[j].owner;
    SetJoin(s, j, s.joins[j].(owner := Submitting(o.purpose, o.next + 1, o.rejected + 1)))
  }

  function UseNumber(s: State): State {
    s.(nextRequest := s.nextRequest + 1)
  }

  function Registered(s: State, j: nat): State
    requires RegisterEnabled(s, j)
  {
    var id, r := s.nextRequest + 1, s.joins[j].owner.next;
    s.(nextRequest := id, issued := s.issued[id := r],
       conns := s.conns[r := s.conns[r].(pending := s.conns[r].pending[id := j])],
       joins := s.joins[j := s.joins[j].(submitting := Some(Result(r, id)))])
  }

  /** The registration of a request, under the mutex of its shard. It fails when the caller's
      context is done, the connection is cancelled or the send queue is full. */
  function RegisterApply(s: State, j: nat, callerDone: bool, queueFull: bool): State
    requires RegisterEnabled(s, j)
  {
    var c := s.conns[s.joins[j].owner.next];
    if callerDone || c.cancelled then UseNumber(CountRefusal(s, j))
    else if ShardOf(s.nextRequest + 1) in c.closed then s.(panicked := true)
    else if queueFull then UseNumber(CountRefusal(s, j))
    else Registered(s, j)
  }

  // ---------- Taking one result ----------

  /** What the loop of Acquire or Renew makes of a result. */
  datatype Verdict = Continue | Confirmed | Hopeless

  predicate ConsumeEnabled(s: State, j: nat) {
    && Owned(s, j) && s.joins[j].results != [] && s.joins[j].results[0].replica < |s.joins[j].waits|
    && (|| s.joins[j].owner.AtNext? || s.joins[j].owner.AtNextLeft?
        || (s.joins[j].owner.Draining? && s.joins[j].remaining != 0))
  }

  /** Where the owner goes on, `left` results being outstanding. */
  function AfterResult(owner: Owner, verdict: Verdict, left: nat): Owner {
    match owner
    case AtNext(purpose, rejected, received) =>
      (match verdict
       case Continue => Collecting(purpose, rejected, received + 1)
       case Confirmed => HandOver(left)
       case Hopeless => GiveUp(purpose, left))
    case AtNextLeft => CollectingLeft
    case _ => owner
  }

  function Consumed(w: Waiter, verdict: Verdict): Waiter
    requires w.results != [] && w.results[0].replica < |w.waits| && w.remaining > 0
  {
    w.(results := w.results[1..], waits := w.waits[w.results[0].replica := None], remaining := w.remaining - 1,
       timer := w.timer && w.remaining != 1, heard := w.heard + [w.results[0].replica],
       owner := AfterResult(w.owner, verdict, w.remaining - 1))
  }

  function ConsumeApply(s: State, j: nat, verdict: Verdict): State
    requires ConsumeEnabled(s, j)
  {
    var w := s.joins[j];
    if w.waits[w.results[0].replica] != Some(w.results[0].request) || w.remaining == 0 then s.(panicked := true)
    else SetJoin(s, j, Consumed(w, verdict))
  }

  // ---------- Completing requests ----------

  /** Takes a request out of its pending map, if it is still there. */
  function Completed(c: Conn, id: nat): Conn {
    if id !in c.pending then c else c.(pending := c.pending - {id}, inHand := c.inHand[id := c.pending[id]])
  }

  /** abort completes the requests of replica after replica. */
  predicate AbortEnabled(s: State, j: nat) {
    && Owned(s, j) && s.joins[j].owner.Aborting? && s.joins[j].owner.next < |s.conns|
    && s.joins[j].owner.next < |s.joins[j].waits|
  }

  /** The request to the next replica out of its map. */
  function TakenOut(s: State, j: nat): (s': State)
    requires AbortEnabled(s, j)
    ensures AbortEnabled(s', j)
  {
    var w := s.joins[j];
    var r := w.owner.next;
    if w.waits[r].Some? then SetConn(s, r, Completed(s.conns[r], w.waits[r].value)) else s
  }

  /** The owner goes on to the next replica. */
  function Passing(w: Waiter): Waiter
    requires w.owner.Aborting?
  {
    w.(owner := Aborting(w.owner.next + 1))
  }

  function PassReplica(s: State, j: nat): State
    requires AbortEnabled(s, j)
  {
    SetJoin(s, j, Passing(s.joins[j]))
  }

  function AbortApply(s: State, j: nat): State
    requires AbortEnabled(s, j)
  {
    PassReplica(TakenOut(s, j), j)
  }

  /** A response or a timeout completes a request, Close cancels and fails what is pending. */
  datatype ConnStep =
    | Complete(request: nat)
    | Cancel
    | FailShard(shard: nat)

  predicate ConnEnabled(s: State, r: nat, step: ConnStep) {
    r < |s.conns| && (step.FailShard? ==> s.conns[r].cancelled && step.shard < PENDING_SHARDS)
  }

  function ConnMoved(c: Conn, step: ConnStep): Conn {
    match step
    case Complete(id) => Completed(c, id)
    case Cancel => c.(cancelled := true)
    case FailShard(k) =>
      var failing := map id | id in c.pending && ShardOf(id) == k :: c.pending[id];
      c.(closed := c.closed + {k}, pending := c.pending - failing.Keys, inHand := c.inHand + failing)
  }

  function ConnApply(s: State, r: nat, step: ConnStep): State
    requires ConnEnabled(s, r, step)
  {
    SetConn(s, r, ConnMoved(s.conns[r], step))
  }

  /** Whoever has taken a request out sends its result; a full channel would block. */
  predicate DeliverEnabled(s: State, r: nat, id: nat) {
    && r < |s.conns| && id in s.conns[r].inHand && s.conns[r].inHand[id] in s.joins
    && |s.joins[s.conns[r].inHand[id]].results| < MAX_SERVERS
  }

  function DeliverApply(s: State, r: nat, id: nat): State
    requires DeliverEnabled(s, r, id)
  {
    var c := s.conns[r];
    var j := c.inHand[id];
    s.(conns := s.conns[r := c.(inHand := c.inHand - {id})],
       joins := s.joins[j := s.joins[j].(results := s.joins[j].results + [Result(r, id)])],
       sent := s.sent + [id])
  }

  // ---------- Runs ----------

  ghost predicate Initial(s: State) {
    && |s.conns| <= MAX_SERVERS
    && (forall r :: 0 <= r < |s.conns| ==> s.conns[r] == Conn(false, {}, map[], map[]))
    && s.joins == map[] && s.nextRequest == 0 && s.issued == map[] && s.sent == [] && !s.panicked
  }

  ghost predicate LocalNext(s: State, s': State) {
    exists j, step :: LocalEnabled(s, j, step) && s' == LocalApply(s, j, step)
  }

  ghost predicate ReleaseNext(s: State, s': State) {
    exists j :: ReleaseEnabled(s, j) && s' == ReleaseApply(s, j)
  }

  ghost predicate RegisterNext(s: State, s': State) {
    exists j, callerDone, queueFull :: RegisterEnabled(s, j) && s' == RegisterApply(s, j, callerDone, queueFull)
  }

  ghost predicate ConsumeNext(s: State, s': State) {
    exists j, verdict :: ConsumeEnabled(s, j) && s' == ConsumeApply(s, j, verdict)
  }

  ghost predicate AbortNext(s: State, s': State) {
    exists j :: AbortEnabled(s, j) && s' == AbortApply(s, j)
  }

  ghost predicate ConnNext(s: State, s': State) {
    exists r, step :: ConnEnabled(s, r, step) && s' == ConnApply(s, r, step)
  }

  ghost predicate DeliverNext(s: State, s': State) {
    exists r, id :: DeliverEnabled(s, r, id) && s' == DeliverApply(s, r, id)
  }

  ghost predicate Next(s: State, s': State) {
    || LocalNext(s, s') || ReleaseNext(s, s') || RegisterNext(s, s') || ConsumeNext(s, s')
    || AbortNext(s, s') || ConnNext(s, s') || DeliverNext(s, s')
  }

  ghost predicate NextAt(run: seq<State>, i: nat)
    requires i + 1 < |run|
  {
    Next(run[i], run[i + 1])
  }

  ghost predicate IsRun(run: seq<State>) {
    && run != [] && Initial(run[0])
    && forall i: nat :: i + 1 < |run| ==> NextAt(run, i)
  }
}
