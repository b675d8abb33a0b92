/** Every step of the join keeps its invariant, and what follows for every run: each request
    puts exactly one result on its channel, no panic is reached, no send blocks, and nobody
    waits with nothing outstanding. */
module JoinProof {
  import opened Types
  import opened Quorum
  import opened Join

  // ---------- The invariant ----------

  /** The request whose result the join still expects from a replica. */
  function Expected(w: Waiter, r: nat): Option<nat>
    requires r < |w.waits|
  {
    if w.submitting.Some? && w.submitting.value.replica == r then Some(w.submitting.value.request) else w.waits[r]
  }

  function CountWaits(waits: seq<Option<nat>>): nat {
    if waits == [] then 0 else CountWaits(waits[..|waits| - 1]) + (if waits[|waits| - 1].Some? then 1 else 0)
  }

  predicate NoResult(w: Waiter, r: nat) {
    forall i :: 0 <= i < |w.results| ==> w.results[i].replica != r
  }

  /** What the loops rely on: failed submissions, results taken and results outstanding
      together make up the replicas, and whoever calls next has something outstanding. */
  ghost predicate OwnerOk(n: nat, w: Waiter) {
    match w.owner
    case Submitting(purpose, next, rejected) =>
      && next <= n && w.heard == [] && (w.submitting.Some? ==> next < n && w.submitting.value.replica == next)
      && (forall r :: next <= r < |w.waits| ==> w.waits[r] == None)
      && (!purpose.ForHealing? ==> rejected + w.remaining == next)
    case Collecting(purpose, rejected, received) =>
      !purpose.ForHealing? && received + w.remaining == n && received == rejected + |w.heard|
    case AtNext(purpose, rejected, received) =>
      && !purpose.ForHealing? && received + w.remaining == n && received == rejected + |w.heard| && received < n
      && w.timer
    case AtNextLeft => w.remaining > 0 && w.timer
    case Aborting(next) => next <= n
    case Releasing => w.remaining == 0
    case _ => true
  }

  ghost predicate WaiterOk(n: nat, w: Waiter) {
    && |w.waits| == n
    && w.remaining == CountWaits(w.waits)
    && (w.timer ==> w.remaining > 0)
    && (!w.inUse ==> w.submitting == None && w.results == [] && !w.timer && w.remaining == 0)
    && (w.submitting.Some? ==> w.owner.Submitting?)
    && (forall i :: 0 <= i < |w.results| ==> w.results[i].replica < n)
    && (forall i, i' :: 0 <= i < i' < |w.results| ==> w.results[i].replica != w.results[i'].replica)
    && (w.inUse ==> OwnerOk(n, w))
    && (forall i :: 0 <= i < |w.heard| ==> w.heard[i] < n && w.waits[w.heard[i]] == None)
    && (forall i, i' :: 0 <= i < i' < |w.heard| ==> w.heard[i] != w.heard[i'])
  }

  /** The replicas whose requests an abort has already completed. */
  function Passed(w: Waiter): nat {
    match w.owner
    case Aborting(next) => next
    case Draining => |w.waits|
    case _ => 0
  }

  /** What the join expects from a replica is in exactly one place: the pending map, the
      hands of whoever took it out, or the channel. */
  ghost predicate SlotOk(c: Conn, sent: seq<nat>, j: nat, w: Waiter, r: nat)
    requires r < |w.waits|
  {
    match Expected(w, r)
    case None => NoResult(w, r)
    case Some(id) =>
      || (id in c.pending && c.pending[id] == j && id !in c.inHand && id !in sent && NoResult(w, r) && Passed(w) <= r)
      || (id in c.inHand && c.inHand[id] == j && id !in c.pending && id !in sent && NoResult(w, r))
      || (id !in c.pending && id !in c.inHand && id in sent && Result(r, id) in w.results)
  }

  /** Every entry of a connection leads to a join that expects it. */
  ghost predicate EntryOk(joins: map<nat, Waiter>, r: nat, id: nat, j: nat) {
    j in joins && r < |joins[j].waits| && Expected(joins[j], r) == Some(id)
  }

  ghost predicate ConnOk(s: State, r: nat)
    requires r < |s.conns|
  {
    var c := s.conns[r];
    && (c.closed != {} ==> c.cancelled)
    && (forall id :: id in c.pending ==> EntryOk(s.joins, r, id, c.pending[id]) && id in s.issued && s.issued[id] == r)
    && (forall id :: id in c.inHand ==> EntryOk(s.joins, r, id, c.inHand[id]) && id in s.issued && s.issued[id] == r)
  }

  ghost predicate JoinOk(s: State, j: nat)
    requires j in s.joins
  {
    && WaiterOk(|s.conns|, s.joins[j])
    && (forall r :: 0 <= r < |s.conns| ==> SlotOk(s.conns[r], s.sent, j, s.joins[j], r))
  }

  /** Every registered request is still to be completed, in somebody's hands, or sent. */
  ghost predicate Accounted(s: State, id: nat)
    requires id in s.issued
  {
    && 1 <= id <= s.nextRequest && s.issued[id] < |s.conns|
    && (id in s.conns[s.issued[id]].pending || id in s.conns[s.issued[id]].inHand || id in s.sent)
  }

  ghost predicate SentOnce(s: State) {
    && (forall i :: 0 <= i < |s.sent| ==> s.sent[i] in s.issued)
    && (forall i, i' :: 0 <= i < i' < |s.sent| ==> s.sent[i] != s.sent[i'])
  }

  ghost predicate Inv(s: State) {
    && !s.panicked && |s.conns| <= MAX_SERVERS
    && (forall j :: j in s.joins ==> JoinOk(s, j))
    && (forall r :: 0 <= r < |s.conns| ==> ConnOk(s, r))
    && (forall id :: id in s.issued ==> Accounted(s, id))
    && SentOnce(s)
  }

  lemma InitialInv(s: State)
    requires Initial(s)
    ensures Inv(s)
  {
  }

  lemma {:induction false} CountUpdate(waits: seq<Option<nat>>, r: nat, w: Option<nat>)
    requires r < |waits|
    ensures CountWaits(waits[r := w]) ==
      CountWaits(waits) - (if waits[r].Some? then 1 else 0) + (if w.Some? then 1 else 0)
    ensures waits[r].Some? ==> CountWaits(waits) > 0
  {
    var n := |waits| - 1;
    if r < n {
      CountUpdate(waits[..n], r, w);
      assert waits[r := w][..n] == waits[..n][r := w];
    } else {
      assert waits[r := w][..n] == waits[..n];
    }
  }

  lemma {:induction false} CountNone(waits: seq<Option<nat>>)
    ensures CountWaits(waits) == 0 <==> !AnyWait(waits)
  {
    if waits != [] {
      var n := |waits| - 1;
      CountNone(waits[..n]);
      assert AnyWait(waits) <==> AnyWait(waits[..n]) || waits[n].Some? by {
        if AnyWait(waits) {
          var r :| 0 <= r < |waits| && waits[r].Some?;
          assert r < n ==> waits[..n][r].Some?;
        }
        if AnyWait(waits[..n]) {
          var r :| 0 <= r < n && waits[..n][r].Some?;
          assert waits[r].Some?;
        }
      }
    }
  }

  lemma NoneLeft(waits: seq<Option<nat>>, r: nat)
    requires CountWaits(waits) == 0 && r < |waits|
    ensures waits[r] == None
  {
    CountNone(waits);
  }

  // ---------- Steps of the owner ----------

  /** The join keeps expecting from each replica what it expected, and claims no more of its
      requests to be completed than are. */
  ghost predicate SameExpectations(s: State, j: nat, w: Waiter) {
    && |w.waits| == |s.conns|
    && (forall r :: 0 <= r < |s.conns| ==>
          if j in s.joins && |s.joins[j].waits| == |s.conns| then Expected(w, r) == Expected(s.joins[j], r)
          else Expected(w, r) == None)
    && (forall r :: 0 <= r < |s.conns| && r < Passed(w) && Expected(w, r).Some? ==>
         Expected(w, r).value !in s.conns[r].pending)
  }

  lemma EntriesKept(s: State, j: nat, w: Waiter, r: nat)
    requires Inv(s) && r < |s.conns| && SameExpectations(s, j, w)
    ensures ConnOk(SetJoin(s, j, w), r)
  {
    assert ConnOk(s, r);
    var s' := SetJoin(s, j, w);
    assert j in s.joins ==> JoinOk(s, j);
    forall id, i | EntryOk(s.joins, r, id, i) ensures EntryOk(s'.joins, r, id, i) {
    }
  }

  lemma SlotsKept(s: State, j: nat, w: Waiter, i: nat)
    requires Inv(s) && SameExpectations(s, j, w) && WaiterOk(|s.conns|, w)
    requires w.results == if j in s.joins then s.joins[j].results else []
    requires i in s.joins || i == j
    ensures JoinOk(SetJoin(s, j, w), i)
  {
    var s' := SetJoin(s, j, w);
    assert i in s.joins ==> JoinOk(s, i);
    forall r | 0 <= r < |s.conns| ensures SlotOk(s'.conns[r], s'.sent, i, s'.joins[i], r) {
      assert i in s.joins ==> SlotOk(s.conns[r], s.sent, i, s.joins[i], r);
    }
  }

  /** Steps of one join's owner that change neither what it expects nor its results. */
  lemma OwnerLocal(s: State, j: nat, w: Waiter)
    requires Inv(s) && SameExpectations(s, j, w) && WaiterOk(|s.conns|, w)
    requires w.results == if j in s.joins then s.joins[j].results else []
    ensures Inv(SetJoin(s, j, w))
  {
    var s' := SetJoin(s, j, w);
    forall i | i in s'.joins ensures JoinOk(s', i) {
      SlotsKept(s, j, w, i);
    }
    forall r | 0 <= r < |s'.conns| ensures ConnOk(s', r) {
      EntriesKept(s, j, w, r);
    }
    forall id | id in s'.issued ensures Accounted(s', id) {
      assert Accounted(s, id);
    }
  }

  lemma BeginWaiter(s: State, j: nat, purpose: Purpose)
    requires Inv(s) && LocalEnabled(s, j, Begin(purpose))
    ensures var w := Moved(s, j, Begin(purpose));
      && WaiterOk(|s.conns|, w) && SameExpectations(s, j, w)
      && w.results == if j in s.joins then s.joins[j].results else []
  {
    var w := Moved(s, j, Begin(purpose));
    assert j in s.joins ==> JoinOk(s, j);
    CountNone(w.waits);
    forall r | 0 <= r < |w.waits| ensures w.waits[r] == None {
      NoneLeft(w.waits, r);
    }
  }

  /** Where the owner goes next, nothing but its position changing. */
  lemma MoveWaiter(n: nat, w: Waiter, w': Waiter)
    requires WaiterOk(n, w) && w.inUse && w' == w.(owner := w'.owner, timer := w'.timer)
    requires (w'.timer ==> w.remaining > 0) && OwnerOk(n, w') && w.submitting == None
    ensures WaiterOk(n, w')
  {
  }

  /** The loops: an exit that gives up or hands over leaves nobody waiting in vain. */
  lemma LoopWaiter(s: State, j: nat, step: LocalStep)
    requires Inv(s) && LocalEnabled(s, j, step) && !step.Begin? && !step.SkipReplica? && !step.Record?
    ensures var w := Moved(s, j, step);
      WaiterOk(|s.conns|, w) && SameExpectations(s, j, w) && w.results == s.joins[j].results
  {
    var w, w' := s.joins[j], Moved(s, j, step);
    assert JoinOk(s, j);
    CountNone(w.waits);
    MoveWaiter(|s.conns|, w, w');
    forall r | 0 <= r < |s.conns| && r < Passed(w') && Expected(w', r).Some?
      ensures Expected(w', r).value !in s.conns[r].pending
    {
      assert SlotOk(s.conns[r], s.sent, j, w, r);
    }
  }

  lemma SkipWaiter(s: State, j: nat)
    requires Inv(s) && LocalEnabled(s, j, SkipReplica)
    ensures var w := Moved(s, j, SkipReplica);
      WaiterOk(|s.conns|, w) && SameExpectations(s, j, w) && w.results == s.joins[j].results
  {
    assert JoinOk(s, j);
  }

  lemma RecordWaiter(s: State, j: nat)
    requires Inv(s) && LocalEnabled(s, j, Record)
    ensures var w := Moved(s, j, Record);
      WaiterOk(|s.conns|, w) && SameExpectations(s, j, w) && w.results == s.joins[j].results
  {
    var w := s.joins[j];
    assert JoinOk(s, j);
    CountUpdate(w.waits, w.submitting.value.replica, Some(w.submitting.value.request));
  }

  lemma LocalInv(s: State, j: nat, step: LocalStep)
    requires Inv(s) && LocalEnabled(s, j, step)
    ensures Inv(LocalApply(s, j, step))
  {
    match step {
      case Begin(purpose) => BeginWaiter(s, j, purpose);
      case SkipReplica => SkipWaiter(s, j);
      case Record => RecordWaiter(s, j);
      case _ => LoopWaiter(s, j, step);
    }
    OwnerLocal(s, j, Moved(s, j, step));
  }

  lemma ReleaseInv(s: State, j: nat)
    requires Inv(s) && ReleaseEnabled(s, j)
    ensures Inv(ReleaseApply(s, j))
  {
    var w := s.joins[j];
    assert JoinOk(s, j);
    CountNone(w.waits);
    if w.results != [] {
      ResultExpected(s, j, 0);
      assert false;
    }
    var blank := ReleaseApply(s, j).joins[j];
    CountNone(blank.waits);
    OwnerLocal(s, j, blank);
  }

  lemma ResultSlot(c: Conn, sent: seq<nat>, j: nat, w: Waiter, i: nat)
    requires i < |w.results| && w.results[i].replica < |w.waits| && SlotOk(c, sent, j, w, w.results[i].replica)
    requires forall i, i' :: 0 <= i < i' < |w.results| ==> w.results[i].replica != w.results[i'].replica
    ensures Expected(w, w.results[i].replica) == Some(w.results[i].request)
    ensures w.results[i].request !in c.pending && w.results[i].request !in c.inHand
  {
  }

  /** A result on the channel is the one its join expects from that replica. */
  lemma ResultExpected(s: State, j: nat, i: nat)
    requires Inv(s) && j in s.joins && i < |s.joins[j].results|
    ensures var w := s.joins[j]; var result := w.results[i];
            result.replica < |w.waits| && Expected(w, result.replica) == Some(result.request)
    ensures var result := s.joins[j].results[i];
            && result.replica < |s.conns| && result.request !in s.conns[result.replica].pending
            && result.request !in s.conns[result.replica].inHand
  {
    assert JoinOk(s, j);
    var r := s.joins[j].results[i].replica;
    assert SlotOk(s.conns[r], s.sent, j, s.joins[j], r);
    ResultSlot(s.conns[r], s.sent, j, s.joins[j], i);
  }

  // ---------- Steps of the connections ----------

  /** The entry stays where it is or moves from the pending map into somebody's hands. */
  ghost predicate SameEntry(c: Conn, c': Conn, id: nat) {
    && (id in c'.pending ==>
         id in c.pending && c'.pending[id] == c.pending[id] && (id in c'.inHand <==> id in c.inHand))
    && (id in c'.inHand ==>
          || (id in c.inHand && c'.inHand[id] == c.inHand[id])
          || (id in c.pending && c'.inHand[id] == c.pending[id] && id !in c'.pending))
    && (id in c.pending || id in c.inHand ==> id in c'.pending || id in c'.inHand)
  }

  lemma SlotMoves(c: Conn, c': Conn, sent: seq<nat>, j: nat, w: Waiter, r: nat)
    requires r < |w.waits| && SlotOk(c, sent, j, w, r)
    requires Expected(w, r).Some? ==> SameEntry(c, c', Expected(w, r).value)
    ensures SlotOk(c', sent, j, w, r)
  {
  }

  lemma ConnMoves(s: State, r: nat, c: Conn, q: nat)
    requires Inv(s) && r < |s.conns| && q < |s.conns| && forall id :: SameEntry(s.conns[r], c, id)
    requires c.closed != {} ==> c.cancelled
    ensures ConnOk(SetConn(s, r, c), q)
  {
    var s' := SetConn(s, r, c);
    assert ConnOk(s, q);
    if q == r {
      forall id | id in c.pending || id in c.inHand ensures id in s.issued && s.issued[id] == r {
        assert SameEntry(s.conns[r], c, id);
      }
      forall id | id in c.inHand ensures EntryOk(s'.joins, r, id, c.inHand[id]) {
        assert SameEntry(s.conns[r], c, id);
      }
      forall id | id in c.pending ensures EntryOk(s'.joins, r, id, c.pending[id]) {
        assert SameEntry(s.conns[r], c, id);
      }
    }
  }

  /** Steps of a connection that send nothing: cancelling, and taking entries out. */
  lemma ConnChanges(s: State, r: nat, c: Conn)
    requires Inv(s) && r < |s.conns| && forall id :: SameEntry(s.conns[r], c, id)
    requires c.closed != {} ==> c.cancelled
    ensures Inv(SetConn(s, r, c))
  {
    var s' := SetConn(s, r, c);
    forall j | j in s'.joins ensures JoinOk(s', j) {
      assert JoinOk(s, j);
      forall q | 0 <= q < |s.conns| ensures SlotOk(s'.conns[q], s'.sent, j, s'.joins[j], q) {
        assert SlotOk(s.conns[q], s.sent, j, s.joins[j], q);
        if q == r {
          SlotMoves(s.conns[r], c, s.sent, j, s.joins[j], r);
        }
      }
    }
    forall q | 0 <= q < |s'.conns| ensures ConnOk(s', q) {
      ConnMoves(s, r, c, q);
    }
    forall id | id in s'.issued ensures Accounted(s', id) {
      assert Accounted(s, id) && SameEntry(s.conns[r], c, id);
    }
  }

  lemma NotBoth(s: State, r: nat, id: nat)
    requires Inv(s) && r < |s.conns| && id in s.conns[r].pending
    ensures id !in s.conns[r].inHand && id !in s.sent
  {
    assert ConnOk(s, r);
    var j := s.conns[r].pending[id];
    assert JoinOk(s, j);
    assert SlotOk(s.conns[r], s.sent, j, s.joins[j], r);
  }

  lemma EntryMoves(c: Conn, step: ConnStep, id: nat)
    requires id in c.pending ==> id !in c.inHand
    ensures SameEntry(c, ConnMoved(c, step), id)
  {
  }

  lemma ConnInv(s: State, r: nat, step: ConnStep)
    requires Inv(s) && ConnEnabled(s, r, step)
    ensures Inv(ConnApply(s, r, step))
  {
    var c := s.conns[r];
    assert ConnOk(s, r);
    forall id ensures SameEntry(c, ConnMoved(c, step), id) {
      if id in c.pending {
        NotBoth(s, r, id);
      }
      EntryMoves(c, step, id);
    }
    ConnChanges(s, r, ConnMoved(c, step));
  }

  /** The slots an abort has passed are out of their maps. */
  lemma PassedSlot(c: Conn, sent: seq<nat>, j: nat, w: Waiter, q: nat)
    requires q < |w.waits| && w.owner.Aborting? && w.submitting == None && SlotOk(c, sent, j, w, q)
    requires q <= w.owner.next && (q == w.owner.next && w.waits[q].Some? ==> w.waits[q].value !in c.pending)
    ensures Expected(w, q).Some? ==> Expected(w, q).value !in c.pending
  {
  }

  /** The request the owner is about to pass is out of its map. */
  ghost predicate MayPass(s: State, j: nat) {
    && AbortEnabled(s, j)
    && var w := s.joins[j];
    w.waits[w.owner.next].Some? ==> w.waits[w.owner.next].value !in s.conns[w.owner.next].pending
  }

  lemma PassedWaiter(s: State, j: nat)
    requires MayPass(s, j) && JoinOk(s, j)
    ensures WaiterOk(|s.conns|, Passing(s.joins[j])) && SameExpectations(s, j, Passing(s.joins[j]))
  {
    var w, w' := s.joins[j], Passing(s.joins[j]);
    MoveWaiter(|s.conns|, w, w');
    forall q | 0 <= q < |s.conns| && q < Passed(w') && Expected(w', q).Some?
      ensures Expected(w', q).value !in s.conns[q].pending
    {
      PassedSlot(s.conns[q], s.sent, j, w, q);
    }
  }

  /** The owner goes on to the next replica once the request to this one is out of its map. */
  lemma AbortMoves(s: State, j: nat)
    requires Inv(s) && MayPass(s, j)
    ensures Inv(PassReplica(s, j))
  {
    PassedWaiter(s, j);
    OwnerLocal(s, j, Passing(s.joins[j]));
  }

  lemma TakenOutInv(s: State, j: nat)
    requires Inv(s) && AbortEnabled(s, j)
    ensures Inv(TakenOut(s, j)) && TakenOut(s, j).joins == s.joins
    ensures MayPass(TakenOut(s, j), j)
  {
    var w := s.joins[j];
    if w.waits[w.owner.next].Some? {
      ConnInv(s, w.owner.next, Complete(w.waits[w.owner.next].value));
    }
  }

  /** abort takes out what is still pending, and with it the slot is behind it. */
  lemma AbortInv(s: State, j: nat)
    requires Inv(s) && AbortEnabled(s, j)
    ensures Inv(AbortApply(s, j))
  {
    TakenOutInv(s, j);
    AbortMoves(TakenOut(s, j), j);
  }

  // ---------- Registration ----------

  lemma FreshRequest(s: State, r: nat)
    requires Inv(s) && r < |s.conns|
    ensures var id := s.nextRequest + 1;
      id !in s.issued && id !in s.conns[r].pending && id !in s.conns[r].inHand && id !in s.sent
  {
    var id := s.nextRequest + 1;
    assert ConnOk(s, r);
    forall x | x in s.issued ensures x <= s.nextRequest {
      assert Accounted(s, x);
    }
  }

  /** An expected request has been issued. */
  lemma IssuedExpected(s: State, j: nat, r: nat)
    requires Inv(s) && j in s.joins && r < |s.conns| && r < |s.joins[j].waits| && Expected(s.joins[j], r).Some?
    ensures Expected(s.joins[j], r).value in s.issued
  {
    assert JoinOk(s, j) && ConnOk(s, r);
    assert SlotOk(s.conns[r], s.sent, j, s.joins[j], r);
  }

  /** How one slot fares when join `j` registers a new request with replica `r`. */
  lemma RegisterSlot(c: Conn, sent: seq<nat>, i: nat, w: Waiter, q: nat, j: nat, r: nat, id: nat)
    requires q < |w.waits| && SlotOk(c, sent, i, w, q) && Expected(w, q) != Some(id)
    requires i == j ==> r < |w.waits| && w.submitting == None && w.waits[r] == None && w.owner.Submitting?
    requires q == r ==> id !in c.pending && id !in c.inHand && id !in sent
    ensures var c' := if q == r then c.(pending := c.pending[id := j]) else c;
      var w' := if i == j then w.(submitting := Some(Result(r, id))) else w;
      SlotOk(c', sent, i, w', q)
  {
  }

  lemma RegisteredWaiter(n: nat, w: Waiter, id: nat)
    requires WaiterOk(n, w) && w.inUse && w.owner.Submitting? && w.submitting == None && w.owner.next < n
    ensures WaiterOk(n, w.(submitting := Some(Result(w.owner.next, id))))
  {
  }

  lemma NewlyExpected(s: State, j: nat, r: nat)
    requires Inv(s) && j in s.joins && r < |s.conns| && r < |s.joins[j].waits|
    ensures Expected(s.joins[j], r) != Some(s.nextRequest + 1)
  {
    FreshRequest(s, r);
    if Expected(s.joins[j], r).Some? {
      IssuedExpected(s, j, r);
    }
  }

  lemma RegisterOther(s: State, j: nat, i: nat)
    requires Inv(s) && RegisterEnabled(s, j) && i in s.joins && i != j
    ensures JoinOk(Registered(s, j), i)
  {
    var s', r := Registered(s, j), s.joins[j].owner.next;
    assert JoinOk(s, i);
    FreshRequest(s, r);
    forall q | 0 <= q < |s.conns| ensures SlotOk(s'.conns[q], s'.sent, i, s'.joins[i], q) {
      assert SlotOk(s.conns[q], s.sent, i, s.joins[i], q);
      NewlyExpected(s, i, q);
      RegisterSlot(s.conns[q], s.sent, i, s.joins[i], q, j, r, s.nextRequest + 1);
    }
  }

  lemma RegisterOwn(s: State, j: nat)
    requires Inv(s) && RegisterEnabled(s, j)
    ensures JoinOk(Registered(s, j), j)
  {
    var s' := Registered(s, j);
    assert JoinOk(s, j);
    RegisteredWaiter(|s.conns|, s.joins[j], s.nextRequest + 1);
    forall q | 0 <= q < |s.conns| ensures SlotOk(s'.conns[q], s'.sent, j, s'.joins[j], q) {
      OwnSlot(s, j, q);
    }
  }

  lemma OwnSlot(s: State, j: nat, q: nat)
    requires Inv(s) && RegisterEnabled(s, j) && q < |s.conns| && q < |s.joins[j].waits|
    ensures var s' := Registered(s, j); SlotOk(s'.conns[q], s'.sent, j, s'.joins[j], q)
  {
    var r := s.joins[j].owner.next;
    assert JoinOk(s, j) && SlotOk(s.conns[q], s.sent, j, s.joins[j], q);
    FreshRequest(s, r);
    NewlyExpected(s, j, q);
    RegisterSlot(s.conns[q], s.sent, j, s.joins[j], q, j, r, s.nextRequest + 1);
  }

  /** What a connection leads to is still expected: the new request takes an empty slot. */
  lemma RegisterKeeps(joins: map<nat, Waiter>, j: nat, r: nat, id: nat, q: nat, x: nat, i: nat)
    requires EntryOk(joins, q, x, i) && j in joins && r < |joins[j].waits| && Expected(joins[j], r) == None
    requires joins[j].submitting == None
    ensures EntryOk(joins[j := joins[j].(submitting := Some(Result(r, id)))], q, x, i)
  {
  }

  lemma RegisterEntries(s: State, j: nat, q: nat)
    requires Inv(s) && RegisterEnabled(s, j) && q < |s.conns|
    ensures ConnOk(Registered(s, j), q)
  {
    var s', id, r := Registered(s, j), s.nextRequest + 1, s.joins[j].owner.next;
    assert ConnOk(s, q) && JoinOk(s, j);
    FreshRequest(s, q);
    var c := s'.conns[q];
    forall x | x in c.pending ensures EntryOk(s'.joins, q, x, c.pending[x]) && x in s'.issued && s'.issued[x] == q {
      if x != id {
        RegisterKeeps(s.joins, j, r, id, q, x, c.pending[x]);
      }
    }
    forall x | x in c.inHand ensures EntryOk(s'.joins, q, x, c.inHand[x]) && x in s'.issued && s'.issued[x] == q {
      RegisterKeeps(s.joins, j, r, id, q, x, c.inHand[x]);
    }
  }

  lemma AcceptedInv(s: State, j: nat)
    requires Inv(s) && RegisterEnabled(s, j) && !s.conns[s.joins[j].owner.next].cancelled
    ensures Inv(Registered(s, j))
  {
    var s' := Registered(s, j);
    var id, r := s.nextRequest + 1, s.joins[j].owner.next;
    assert ConnOk(s, r);
    FreshRequest(s, r);
    forall i | i in s'.joins ensures JoinOk(s', i) {
      if i == j {
        RegisterOwn(s, j);
      } else {
        RegisterOther(s, j, i);
      }
    }
    forall q | 0 <= q < |s'.conns| ensures ConnOk(s', q) {
      RegisterEntries(s, j, q);
    }
    forall x | x in s'.issued ensures Accounted(s', x) {
      assert x != id ==> Accounted(s, x);
    }
  }

  lemma RefusedWaiter(n: nat, w: Waiter)
    requires WaiterOk(n, w) && w.inUse && w.owner.Submitting? && w.submitting == None && w.owner.next < n
    ensures WaiterOk(n, w.(owner := Submitting(w.owner.purpose, w.owner.next + 1, w.owner.rejected + 1)))
  {
  }

  lemma RefusedInv(s: State, j: nat)
    requires Inv(s) && RegisterEnabled(s, j)
    ensures Inv(CountRefusal(s, j))
  {
    assert JoinOk(s, j);
    RefusedWaiter(|s.conns|, s.joins[j]);
    OwnerLocal(s, j, CountRefusal(s, j).joins[j]);
  }

  lemma NumberInv(s: State)
    requires Inv(s)
    ensures Inv(UseNumber(s))
  {
    var s' := UseNumber(s);
    forall i | i in s'.joins ensures JoinOk(s', i) {
      assert JoinOk(s, i);
    }
    forall q | 0 <= q < |s'.conns| ensures ConnOk(s', q) {
      assert ConnOk(s, q);
    }
    forall id | id in s'.issued ensures Accounted(s', id) {
      assert Accounted(s, id);
    }
  }

  lemma RegisterInv(s: State, j: nat, callerDone: bool, queueFull: bool)
    requires Inv(s) && RegisterEnabled(s, j)
    ensures Inv(RegisterApply(s, j, callerDone, queueFull))
  {
    var c := s.conns[s.joins[j].owner.next];
    assert ConnOk(s, s.joins[j].owner.next);
    RefusedInv(s, j);
    NumberInv(CountRefusal(s, j));
    if !c.cancelled {
      AcceptedInv(s, j);
    }
  }

  // ---------- Results ----------

  /** How one slot fares when its join takes the first result off the channel. */
  lemma ConsumeSlot(c: Conn, sent: seq<nat>, j: nat, w: Waiter, w': Waiter, r: nat)
    requires w.results != [] && r < |w.waits| && w.results[0].replica < |w.waits| && SlotOk(c, sent, j, w, r)
    requires forall i, i' :: 0 <= i < i' < |w.results| ==> w.results[i].replica != w.results[i'].replica
    requires w'.waits == w.waits[w.results[0].replica := None] && w'.results == w.results[1..]
    requires w'.submitting == None == w.submitting && Passed(w') <= Passed(w)
    ensures SlotOk(c, sent, j, w', r)
  {
    assert forall k :: 0 <= k < |w'.results| ==> w'.results[k] == w.results[k + 1];
    if r != w.results[0].replica && w.waits[r].Some? && Result(r, w.waits[r].value) in w.results {
      var k :| 0 <= k < |w.results| && w.results[k] == Result(r, w.waits[r].value);
      assert w'.results[k - 1] == w.results[k];
    }
  }

  /** The loops: taking a result leaves the sum of `received` and what is outstanding. */
  lemma ConsumedOwner(n: nat, w: Waiter, verdict: Verdict)
    requires OwnerOk(n, w) && w.results != [] && w.results[0].replica < |w.waits| && w.remaining > 0
    requires !w.owner.Submitting?
    ensures w.owner.AtNext? || w.owner.AtNextLeft? || w.owner.Draining? ==> OwnerOk(n, Consumed(w, verdict))
  {
  }

  /** The waiter itself: one replica more is heard, one result less outstanding. */
  lemma ConsumedWaiter(n: nat, w: Waiter, verdict: Verdict)
    requires WaiterOk(n, w) && w.inUse && w.results != [] && w.remaining > 0 && w.submitting == None
    requires w.waits[w.results[0].replica].Some? && (w.owner.AtNext? || w.owner.AtNextLeft? || w.owner.Draining?)
    ensures WaiterOk(n, Consumed(w, verdict))
  {
    CountUpdate(w.waits, w.results[0].replica, None);
    ConsumedOwner(n, w, verdict);
    var w' := Consumed(w, verdict);
    assert forall k :: 0 <= k < |w'.results| ==> w'.results[k] == w.results[k + 1];
  }

  lemma ConsumeWaiter(s: State, j: nat, verdict: Verdict)
    requires Inv(s) && ConsumeEnabled(s, j)
    ensures s.joins[j].remaining > 0 && ConsumeApply(s, j, verdict) == SetJoin(s, j, Consumed(s.joins[j], verdict))
    ensures WaiterOk(|s.conns|, Consumed(s.joins[j], verdict))
  {
    var w := s.joins[j];
    assert JoinOk(s, j);
    ResultExpected(s, j, 0);
    CountUpdate(w.waits, w.results[0].replica, None);
    ConsumedWaiter(|s.conns|, w, verdict);
  }

  lemma ConsumeEntries(s: State, j: nat, verdict: Verdict, r: nat)
    requires Inv(s) && ConsumeEnabled(s, j) && r < |s.conns|
    ensures ConnOk(ConsumeApply(s, j, verdict), r)
  {
    var s' := ConsumeApply(s, j, verdict);
    var result := s.joins[j].results[0];
    assert ConnOk(s, r) && JoinOk(s, j);
    ResultExpected(s, j, 0);
    ConsumeWaiter(s, j, verdict);
    forall id, i | EntryOk(s.joins, r, id, i) && !(i == j && r == result.replica) ensures EntryOk(s'.joins, r, id, i) {
    }
  }

  lemma ConsumeSlots(s: State, j: nat, verdict: Verdict, i: nat)
    requires Inv(s) && ConsumeEnabled(s, j) && i in s.joins
    ensures JoinOk(ConsumeApply(s, j, verdict), i)
  {
    var s' := ConsumeApply(s, j, verdict);
    assert JoinOk(s, i) && JoinOk(s, j);
    ConsumeWaiter(s, j, verdict);
    forall r | 0 <= r < |s.conns| ensures SlotOk(s'.conns[r], s'.sent, i, s'.joins[i], r) {
      assert SlotOk(s.conns[r], s.sent, i, s.joins[i], r);
      if i == j {
        ConsumeSlot(s.conns[r], s.sent, j, s.joins[j], s'.joins[j], r);
      }
    }
  }

  lemma ConsumeInv(s: State, j: nat, verdict: Verdict)
    requires Inv(s) && ConsumeEnabled(s, j)
    ensures Inv(ConsumeApply(s, j, verdict))
  {
    var s' := ConsumeApply(s, j, verdict);
    ConsumeWaiter(s, j, verdict);
    forall i | i in s'.joins ensures JoinOk(s', i) {
      ConsumeSlots(s, j, verdict, i);
    }
    forall r | 0 <= r < |s'.conns| ensures ConnOk(s', r) {
      ConsumeEntries(s, j, verdict, r);
    }
    forall id | id in s'.issued ensures Accounted(s', id) {
      assert Accounted(s, id);
    }
  }

  /** A request in somebody's hands is expected, and neither sent nor on the channel. */
  lemma HandExpected(s: State, r: nat, id: nat)
    requires Inv(s) && r < |s.conns| && id in s.conns[r].inHand
    ensures var j := s.conns[r].inHand[id];
            && id in s.issued && s.issued[id] == r && id !in s.sent && id !in s.conns[r].pending
            && EntryOk(s.joins, r, id, j) && s.joins[j].inUse && NoResult(s.joins[j], r)
  {
    var j := s.conns[r].inHand[id];
    assert ConnOk(s, r) && JoinOk(s, j) && SlotOk(s.conns[r], s.sent, j, s.joins[j], r);
    CountNone(s.joins[j].waits);
  }

  /** A request in somebody's hands is expected by its own join only, from its own replica. */
  lemma OnlyOwner(s: State, r: nat, id: nat, i: nat, q: nat)
    requires Inv(s) && r < |s.conns| && id in s.conns[r].inHand && i in s.joins && q < |s.conns|
    requires q < |s.joins[i].waits|
    requires Expected(s.joins[i], q) == Some(id)
    ensures i == s.conns[r].inHand[id] && q == r
  {
    HandExpected(s, r, id);
    assert ConnOk(s, q) && JoinOk(s, i);
    assert SlotOk(s.conns[q], s.sent, i, s.joins[i], q);
  }

  /** How one slot fares when the result of request `id` from replica `r` reaches join `j`. */
  lemma DeliverSlot(c: Conn, sent: seq<nat>, i: nat, w: Waiter, q: nat, j: nat, r: nat, id: nat)
    requires q < |w.waits| && SlotOk(c, sent, i, w, q) && (Expected(w, q) == Some(id) ==> i == j && q == r)
    requires i == j && q == r ==> Expected(w, q) == Some(id) && id in c.inHand && id !in c.pending
    ensures var c' := if q == r then c.(inHand := c.inHand - {id}) else c;
      var w' := if i == j then w.(results := w.results + [Result(r, id)]) else w;
      SlotOk(c', sent + [id], i, w', q)
  {
    var w' := if i == j then w.(results := w.results + [Result(r, id)]) else w;
    assert forall k :: 0 <= k < |w.results| ==> w'.results[k] == w.results[k];
    assert i == j ==> w'.results[|w.results|] == Result(r, id);
  }

  lemma DeliverSlots(s: State, r: nat, id: nat, i: nat)
    requires Inv(s) && DeliverEnabled(s, r, id) && i in s.joins
    ensures JoinOk(DeliverApply(s, r, id), i)
  {
    var s' := DeliverApply(s, r, id);
    var j := s.conns[r].inHand[id];
    HandExpected(s, r, id);
    assert JoinOk(s, i);
    forall q | 0 <= q < |s.conns| ensures SlotOk(s'.conns[q], s'.sent, i, s'.joins[i], q) {
      assert SlotOk(s.conns[q], s.sent, i, s.joins[i], q);
      if Expected(s.joins[i], q) == Some(id) {
        OnlyOwner(s, r, id, i, q);
      }
      DeliverSlot(s.conns[q], s.sent, i, s.joins[i], q, j, r, id);
    }
    if i == j {
      DeliverWaiter(|s.conns|, s.joins[i], r, id);
    }
  }

  lemma DeliverWaiter(n: nat, w: Waiter, r: nat, id: nat)
    requires WaiterOk(n, w) && w.inUse && r < n && NoResult(w, r)
    ensures WaiterOk(n, w.(results := w.results + [Result(r, id)]))
  {
  }

  lemma DeliverEntries(s: State, r: nat, id: nat, q: nat)
    requires Inv(s) && DeliverEnabled(s, r, id) && q < |s.conns|
    ensures ConnOk(DeliverApply(s, r, id), q)
  {
    var s' := DeliverApply(s, r, id);
    assert ConnOk(s, q);
    forall x, i | EntryOk(s.joins, q, x, i) ensures EntryOk(s'.joins, q, x, i) {
    }
  }

  lemma DeliverOnce(s: State, r: nat, id: nat)
    requires SentOnce(s) && DeliverEnabled(s, r, id) && id in s.issued && id !in s.sent
    ensures SentOnce(DeliverApply(s, r, id))
  {
  }

  lemma DeliverAccounts(s: State, r: nat, id: nat, x: nat)
    requires DeliverEnabled(s, r, id) && x in s.issued && Accounted(s, x)
    ensures Accounted(DeliverApply(s, r, id), x)
  {
    assert (s.sent + [id])[|s.sent|] == id;
  }

  lemma DeliverInv(s: State, r: nat, id: nat)
    requires Inv(s) && DeliverEnabled(s, r, id)
    ensures Inv(DeliverApply(s, r, id))
  {
    var s' := DeliverApply(s, r, id);
    HandExpected(s, r, id);
    DeliverOnce(s, r, id);
    forall x | x in s'.issued ensures Accounted(s', x) {
      DeliverAccounts(s, r, id, x);
    }
    forall i | i in s'.joins ensures JoinOk(s', i) {
      DeliverSlots(s, r, id, i);
    }
    forall q | 0 <= q < |s'.conns| ensures ConnOk(s', q) {
      DeliverEntries(s, r, id, q);
    }
  }

  // ---------- Runs ----------

  lemma NextInv(s: State, s': State)
    requires Inv(s) && Next(s, s')
    ensures Inv(s')
  {
    if LocalNext(s, s') {
      var j, step :| LocalEnabled(s, j, step) && s' == LocalApply(s, j, step);
      LocalInv(s, j, step);
    } else if ReleaseNext(s, s') {
      var j :| ReleaseEnabled(s, j) && s' == ReleaseApply(s, j);
      ReleaseInv(s, j);
    } else if RegisterNext(s, s') {
      var j, callerDone, queueFull :| RegisterEnabled(s, j) && s' == RegisterApply(s, j, callerDone, queueFull);
      RegisterInv(s, j, callerDone, queueFull);
    } else if ConsumeNext(s, s') {
      var j, verdict :| ConsumeEnabled(s, j) && s' == ConsumeApply(s, j, verdict);
      ConsumeInv(s, j, verdict);
    } else if AbortNext(s, s') {
      var j :| AbortEnabled(s, j) && s' == AbortApply(s, j);
      AbortInv(s, j);
    } else if ConnNext(s, s') {
      var r, step :| ConnEnabled(s, r, step) && s' == ConnApply(s, r, step);
      ConnInv(s, r, step);
    } else {
      var r, id :| DeliverEnabled(s, r, id) && s' == DeliverApply(s, r, id);
      DeliverInv(s, r, id);
    }
  }

  lemma {:induction false} RunInv(run: seq<State>, k: nat)
    requires IsRun(run) && k < |run|
    ensures Inv(run[k])
  {
    if k == 0 {
      InitialInv(run[0]);
    } else {
      RunInv(run, k - 1);
      assert NextAt(run, k - 1);
      NextInv(run[k - 1], run[k]);
    }
  }

  // ---------- What it means ----------

  /** Exactly once: however responses, timeouts, aborts and Close race, every registered
      request is either still to be completed or has put exactly one result on a channel. */
  lemma ExactlyOnce(run: seq<State>, k: nat, request: nat)
    requires IsRun(run) && k < |run| && request in run[k].issued
    ensures var s := run[k]; var r := s.issued[request];
            && r < |s.conns|
            && multiset(s.sent)[request] ==
               (if request in s.conns[r].pending || request in s.conns[r].inHand then 0 else 1)
            && !(request in s.conns[r].pending && request in s.conns[r].inHand)
  {
    var s := run[k];
    RunInv(run, k);
    assert Accounted(s, request);
    var r := s.issued[request];
    if request in s.conns[r].pending {
      NotBoth(s, r, request);
    } else if request in s.conns[r].inHand {
      HandExpected(s, r, request);
    }
    CountOnce(s.sent, request);
  }

  lemma {:induction false} CountOnce(s: seq<nat>, x: nat)
    requires forall i, i' :: 0 <= i < i' < |s| ==> s[i] != s[i']
    ensures multiset(s)[x] == if x in s then 1 else 0
  {
    if s != [] {
      var n := |s| - 1;
      CountOnce(s[..n], x);
      assert s == s[..n] + [s[n]];
    }
  }

  /** No panic is ever reached: not the one on an unexpected response, not the write to a
      map that Close has taken away, and not the release of an active join, for a join that
      has come to its release has nothing outstanding, nothing on its channel and no timer. */
  lemma NeverPanics(run: seq<State>, k: nat, j: nat)
    requires IsRun(run) && k < |run|
    ensures !run[k].panicked
    ensures ReleaseEnabled(run[k], j) ==>
              var w := run[k].joins[j];
              w.remaining == 0 && w.results == [] && !w.timer && !ReleaseApply(run[k], j).panicked
    ensures ConsumeEnabled(run[k], j) ==>
              var w := run[k].joins[j];
              w.remaining > 0 && w.waits[w.results[0].replica] == Some(w.results[0].request)
    ensures RegisterEnabled(run[k], j) ==>
              var c := run[k].conns[run[k].joins[j].owner.next];
              c.cancelled || ShardOf(run[k].nextRequest + 1) !in c.closed
  {
    RunInv(run, k);
    if ReleaseEnabled(run[k], j) {
      ReleaseInv(run[k], j);
    }
    if ConsumeEnabled(run[k], j) {
      assert JoinOk(run[k], j);
      ResultExpected(run[k], j, 0);
    }
    if RegisterEnabled(run[k], j) {
      assert ConnOk(run[k], run[k].joins[j].owner.next);
    }
  }

  /** Nobody waits in vain: at every call of next something is outstanding and the timer is
      armed. In the loops of
      Acquire and Renew the failed submissions and the results taken, each from a different
      replica, add up to `received`, and with what is outstanding to the number of servers. */
  lemma NeverWaitsInVain(run: seq<State>, k: nat, j: nat)
    requires IsRun(run) && k < |run| && Owned(run[k], j)
      && (run[k].joins[j].owner.AtNext? || run[k].joins[j].owner.AtNextLeft?)
    ensures var w := run[k].joins[j];
      && w.remaining > 0 && AnyWait(w.waits) && w.timer
      && (w.owner.AtNext? ==>
            && w.owner.received + w.remaining == |run[k].conns|
            && w.owner.received == w.owner.rejected + |w.heard|
            && (forall i, i' :: 0 <= i < i' < |w.heard| ==> w.heard[i] != w.heard[i']))
  {
    RunInv(run, k);
    assert JoinOk(run[k], j);
    CountNone(run[k].joins[j].waits);
  }

  /** An owner is never stuck: wherever it stands its next step is open to it, except that it
      waits for a result where nothing is on the channel. */
  lemma OwnerProceeds(run: seq<State>, k: nat, j: nat)
    requires IsRun(run) && k < |run| && Owned(run[k], j)
    ensures var s := run[k]; var w := s.joins[j];
      match w.owner
      case Submitting(_, next, _) =>
        if w.submitting.Some? then LocalEnabled(s, j, Record)
        else RegisterEnabled(s, j) || LocalEnabled(s, j, SkipReplica) || LocalEnabled(s, j, EndSubmitting(false))
      case AtNext(_, _, _) => w.results != [] ==> ConsumeEnabled(s, j)
      case AtNextLeft => w.results != [] ==> ConsumeEnabled(s, j)
      case Aborting(next) => AbortEnabled(s, j) || LocalEnabled(s, j, EndAborting)
      case Draining =>
        && (w.remaining == 0 ==> LocalEnabled(s, j, EndDraining))
        && (w.remaining != 0 && w.results != [] ==> ConsumeEnabled(s, j))
      case _ => true
  {
    RunInv(run, k);
    assert JoinOk(run[k], j);
  }

  /** Sending a result never blocks: its channel always has room. */
  lemma SendNeverBlocks(run: seq<State>, k: nat, r: nat, request: nat)
    requires IsRun(run) && k < |run| && r < |run[k].conns| && request in run[k].conns[r].inHand
    ensures DeliverEnabled(run[k], r, request)
  {
    var s := run[k];
    RunInv(run, k);
    HandExpected(s, r, request);
    var w := s.joins[s.conns[r].inHand[request]];
    assert JoinOk(s, s.conns[r].inHand[request]);
    DistinctReplicas(w.results, |s.conns|, r);
  }

  /** Results of different replicas, none of them `r`, are fewer than the replicas. */
  lemma DistinctReplicas(results: seq<Result>, n: nat, r: nat)
    requires r < n
    requires forall i :: 0 <= i < |results| ==> results[i].replica < n && results[i].replica != r
    requires forall i, i' :: 0 <= i < i' < |results| ==> results[i].replica != results[i'].replica
    ensures |results| < n
  {
    var seen := ReplicaSet(results);
    assert seen + {r} <= Servers(n) && r !in seen;
    SubsetSize(seen + {r}, Servers(n));
  }

  ghost function ReplicaSet(results: seq<Result>): (seen: set<nat>)
    requires forall i, i' :: 0 <= i < i' < |results| ==> results[i].replica != results[i'].replica
    ensures |seen| == |results|
    ensures forall x :: x in seen ==> exists i :: 0 <= i < |results| && results[i].replica == x
  {
    if results == [] then {} else ReplicaSet(results[..|results| - 1]) + {results[|results| - 1].replica}
  }

  /** A pooled join is quiet: its channel is empty and nobody holds a result for it. */
  lemma PooledIsQuiet(run: seq<State>, k: nat, j: nat)
    requires IsRun(run) && k < |run| && j in run[k].joins && !run[k].joins[j].inUse
    ensures var s := run[k];
            && s.joins[j].results == [] && !s.joins[j].timer
            && forall r, id :: 0 <= r < |s.conns| ==>
                 && !(id in s.conns[r].pending && s.conns[r].pending[id] == j)
                 && !(id in s.conns[r].inHand && s.conns[r].inHand[id] == j)
  {
    var s := run[k];
    RunInv(run, k);
    assert JoinOk(s, j);
    CountNone(s.joins[j].waits);
    forall r, id | 0 <= r < |s.conns|
      ensures !(id in s.conns[r].pending && s.conns[r].pending[id] == j)
      ensures !(id in s.conns[r].inHand && s.conns[r].inHand[id] == j)
    {
      assert ConnOk(s, r);
    }
  }

  /** A blocking receive is answered: once an awaited request is no longer pending, as after a
      timeout has completed it, its result is on the channel or in the hands of somebody about
      to send it. */
  lemma ResultIsComing(run: seq<State>, k: nat, j: nat, r: nat)
    requires IsRun(run) && k < |run| && Owned(run[k], j) && r < |run[k].conns| && r < |run[k].joins[j].waits|
    requires var w := run[k].joins[j]; w.waits[r].Some? && w.waits[r].value !in run[k].conns[r].pending
    ensures var s := run[k]; var id := s.joins[j].waits[r].value;
      Result(r, id) in s.joins[j].results || (id in s.conns[r].inHand && s.conns[r].inHand[id] == j)
  {
    RunInv(run, k);
    assert JoinOk(run[k], j) && SlotOk(run[k].conns[r], run[k].sent, j, run[k].joins[j], r);
  }

  /** Draining never waits in vain: once an abort has been through, this is so of every request
      still awaited. */
  lemma DrainEnds(run: seq<State>, k: nat, j: nat, r: nat)
    requires IsRun(run) && k < |run| && Owned(run[k], j) && run[k].joins[j].owner.Draining?
    requires r < |run[k].conns| && r < |run[k].joins[j].waits| && run[k].joins[j].waits[r].Some?
    ensures var s := run[k]; var id := s.joins[j].waits[r].value;
      Result(r, id) in s.joins[j].results || (id in s.conns[r].inHand && s.conns[r].inHand[id] == j)
  {
    RunInv(run, k);
    assert JoinOk(run[k], j) && SlotOk(run[k].conns[r], run[k].sent, j, run[k].joins[j], r);
    ResultIsComing(run, k, j, r);
  }
}
