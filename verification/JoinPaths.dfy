/** What a join achieves: from every reachable state it can be brought to its release, and a
    fan-out whose replicas all answer hears each of them once, the first ones in the loop of the
    operation and the rest in the goroutine that collects what is left. */
module JoinPaths {
  import opened Types
  import opened Join
  import opened JoinProof

  ghost predicate IsPath(path: seq<State>) {
    path != [] && forall i: nat :: i + 1 < |path| ==> NextAt(path, i)
  }

  lemma Joined(p: seq<State>, q: seq<State>) returns (r: seq<State>)
    requires IsPath(p) && IsPath(q) && p[|p| - 1] == q[0]
    ensures IsPath(r) && r[0] == p[0] && r[|r| - 1] == q[|q| - 1]
  {
    r := p + q[1..];
    forall i: nat | i + 1 < |r| ensures NextAt(r, i) {
      if i < |p| - 1 {
        assert NextAt(p, i);
      } else {
        assert NextAt(q, i - (|p| - 1));
      }
    }
  }

  lemma Prepend(s: State, path: seq<State>) returns (longer: seq<State>)
    requires IsPath(path) && Next(s, path[0])
    ensures IsPath(longer) && longer[0] == s && longer[|longer| - 1] == path[|path| - 1]
  {
    assert NextAt([s, path[0]], 0);
    longer := Joined([s, path[0]], path);
  }

  lemma {:induction false} PathInv(path: seq<State>, k: nat)
    requires IsPath(path) && Inv(path[0]) && k < |path|
    ensures Inv(path[k])
  {
    if k > 0 {
      PathInv(path, k - 1);
      assert NextAt(path, k - 1);
      NextInv(path[k - 1], path[k]);
    }
  }

  // ---------- Every join can come to its end ----------

  /** How far the owner is from releasing its join. */
  function Rank(owner: Owner): nat {
    match owner
    case Submitting(_, _, _) => 8
    case Collecting(_, _, _) => 7
    case AtNext(_, _, _) => 6
    case CollectingLeft => 5
    case AtNextLeft => 4
    case Aborting(_) => 3
    case Draining => 2
    case Releasing => 1
  }

  /** How much is left to do there. */
  function Left(n: nat, w: Waiter): int {
    match w.owner
    case Submitting(_, next, _) => 2 * (n - next) + (if w.submitting.Some? then 0 else 1)
    case Aborting(next) => n - next
    case Draining => 2 * w.remaining + (if w.results == [] then 1 else 0)
    case _ => 0
  }

  /** The join is closer to its release, or released. */
  ghost predicate Closer(n: nat, w: Waiter, w': Waiter) {
    || !w'.inUse
    || Rank(w'.owner) < Rank(w.owner)
    || (Rank(w'.owner) == Rank(w.owner) && 0 <= Left(n, w') < Left(n, w))
  }

  ghost predicate Advances(s: State, s': State, j: nat) {
    && Next(s, s') && |s'.conns| == |s.conns|
    && j in s.joins && j in s'.joins && Closer(|s.conns|, s.joins[j], s'.joins[j])
  }

  lemma SubmittingAdvances(s: State, j: nat) returns (s': State)
    requires Owned(s, j) && WaiterOk(|s.conns|, s.joins[j]) && s.joins[j].owner.Submitting?
    ensures Advances(s, s', j)
  {
    var w := s.joins[j];
    if w.submitting.Some? {
      s' := LocalApply(s, j, Record);
      assert LocalNext(s, s');
    } else if w.owner.next == |s.conns| {
      s' := LocalApply(s, j, EndSubmitting(true));
      assert LocalNext(s, s');
    } else if RegisterEnabled(s, j) {
      s' := RegisterApply(s, j, true, false);
      assert RegisterNext(s, s');
    } else {
      s' := LocalApply(s, j, SkipReplica);
      assert LocalNext(s, s');
    }
  }

  lemma CollectAdvances(s: State, j: nat) returns (s': State)
    requires Owned(s, j) && (s.joins[j].owner.Collecting? || s.joins[j].owner.AtNext?)
    ensures Advances(s, s', j)
  {
    s' := LocalApply(s, j, if s.joins[j].owner.Collecting? then Head else CallerCancelled);
    assert LocalNext(s, s');
  }

  lemma LeftAdvances(s: State, j: nat) returns (s': State)
    requires Owned(s, j) && (s.joins[j].owner.CollectingLeft? || s.joins[j].owner.AtNextLeft?)
    ensures Advances(s, s', j)
  {
    s' := LocalApply(s, j, if s.joins[j].owner.CollectingLeft? then HeadLeft else LeaseReleased);
    assert LocalNext(s, s');
  }

  lemma AbortAdvances(s: State, j: nat) returns (s': State)
    requires Owned(s, j) && WaiterOk(|s.conns|, s.joins[j]) && s.joins[j].owner.Aborting?
    ensures Advances(s, s', j)
  {
    if s.joins[j].owner.next == |s.conns| {
      s' := LocalApply(s, j, EndAborting);
      assert LocalNext(s, s');
    } else {
      s' := AbortApply(s, j);
      assert AbortNext(s, s');
    }
  }

  lemma TakeAdvances(s: State, j: nat) returns (s': State)
    requires Inv(s) && Owned(s, j) && s.joins[j].owner.Draining?
    requires s.joins[j].results != [] && s.joins[j].remaining != 0
    ensures Advances(s, s', j)
  {
    assert JoinOk(s, j);
    ResultExpected(s, j, 0);
    s' := ConsumeApply(s, j, Continue);
    assert ConsumeNext(s, s');
  }

  lemma SendAdvances(s: State, j: nat, r: nat, id: nat) returns (s': State)
    requires Owned(s, j) && s.joins[j].owner.Draining? && s.joins[j].results == []
    requires r < |s.conns| && id in s.conns[r].inHand && s.conns[r].inHand[id] == j
    ensures Advances(s, s', j)
  {
    s' := DeliverApply(s, r, id);
    assert DeliverNext(s, s');
  }

  /** A result that is awaited after an abort is on the channel or can be sent. */
  lemma DrainAdvances(s: State, j: nat) returns (s': State)
    requires Inv(s) && Owned(s, j) && s.joins[j].owner.Draining?
    ensures Advances(s, s', j)
  {
    var w := s.joins[j];
    assert JoinOk(s, j);
    if w.remaining == 0 {
      s' := LocalApply(s, j, EndDraining);
      assert LocalNext(s, s');
    } else if w.results != [] {
      s' := TakeAdvances(s, j);
    } else {
      CountNone(w.waits);
      var r :| 0 <= r < |w.waits| && w.waits[r].Some?;
      assert SlotOk(s.conns[r], s.sent, j, w, r);
      s' := SendAdvances(s, j, r, w.waits[r].value);
    }
  }

  lemma ReleaseAdvances(s: State, j: nat) returns (s': State)
    requires Inv(s) && Owned(s, j) && s.joins[j].owner.Releasing?
    ensures Advances(s, s', j)
  {
    s' := ReleaseApply(s, j);
    ReleaseInv(s, j);
    assert ReleaseNext(s, s');
  }

  lemma JoinAdvances(s: State, j: nat) returns (s': State)
    requires Inv(s) && Owned(s, j)
    ensures Advances(s, s', j)
  {
    assert JoinOk(s, j);
    match s.joins[j].owner {
      case Submitting(_, _, _) => s' := SubmittingAdvances(s, j);
      case Aborting(_) => s' := AbortAdvances(s, j);
      case Draining => s' := DrainAdvances(s, j);
      case Releasing => s' := ReleaseAdvances(s, j);
      case Collecting(_, _, _) => s' := CollectAdvances(s, j);
      case AtNext(_, _, _) => s' := CollectAdvances(s, j);
      case _ => s' := LeftAdvances(s, j);
    }
  }

  /** From every reachable state a join in use can be brought to its release: nothing is
      outstanding then and nobody can send to it any more. */
  lemma {:induction false} JoinEnds(s: State, j: nat) returns (path: seq<State>)
    requires Inv(s) && Owned(s, j)
    ensures IsPath(path) && path[0] == s
    ensures var e := path[|path| - 1]; Inv(e) && j in e.joins && !e.joins[j].inUse
    decreases Rank(s.joins[j].owner), Left(|s.conns|, s.joins[j])
  {
    var s' := JoinAdvances(s, j);
    NextInv(s, s');
    if s'.joins[j].inUse {
      var rest := JoinEnds(s', j);
      path := Prepend(s, rest);
    } else {
      path := Prepend(s, [s']);
    }
  }

  // ---------- A fan-out whose replicas all answer ----------

  /** The request to replica `r` in a fan-out that starts at this number. */
  function Ask(base: nat, r: nat): nat {
    base + 1 + r
  }

  /** The connections, of which those from `lo` up to `hi` have the fan-out's request pending. */
  ghost predicate Asked(conns: seq<Conn>, orig: seq<Conn>, j: nat, base: nat, lo: nat, hi: nat) {
    && |conns| == |orig| && lo <= hi <= |orig|
    && forall r :: 0 <= r < |orig| ==>
         conns[r] == if lo <= r < hi then orig[r].(pending := orig[r].pending[Ask(base, r) := j]) else orig[r]
  }

  /** The join expects exactly the results of the replicas from `lo` up to `hi`. */
  ghost predicate Expects(w: Waiter, n: nat, base: nat, lo: nat, hi: nat) {
    && w.inUse && w.submitting == None && w.results == [] && |w.waits| == n && w.remaining == hi - lo
    && forall r :: 0 <= r < n ==> w.waits[r] == if lo <= r < hi then Some(Ask(base, r)) else None
  }

  /** No connection is cancelled or has seen the requests of the fan-out before. */
  ghost predicate Open(orig: seq<Conn>, base: nat) {
    forall r :: 0 <= r < |orig| ==>
      !orig[r].cancelled && orig[r].closed == {} && Ask(base, r) !in orig[r].pending && Ask(base, r) !in orig[r].inHand
  }

  ghost predicate Fanning(s: State, orig: seq<Conn>, j: nat, purpose: Purpose, base: nat, next: nat) {
    && Open(orig, base) && Asked(s.conns, orig, j, base, 0, next) && s.nextRequest == base + next && j in s.joins
    && Expects(s.joins[j], |orig|, base, 0, next)
    && s.joins[j].owner == Submitting(purpose, next, 0) && s.joins[j].heard == [] && !purpose.ForHealing?
  }

  lemma AskOne(s: State, orig: seq<Conn>, j: nat, purpose: Purpose, base: nat, next: nat) returns (path: seq<State>)
    requires Fanning(s, orig, j, purpose, base, next) && next < |orig|
    ensures IsPath(path) && path[0] == s
    ensures Fanning(path[|path| - 1], orig, j, purpose, base, next + 1) && path[|path| - 1].sent == s.sent
  {
    var s' := RegisterApply(s, j, false, false);
    var s'' := LocalApply(s', j, Record);
    assert RegisterNext(s, s') && LocalNext(s', s'');
    path := Prepend(s', [s'']);
    path := Prepend(s, path);
  }

  lemma {:induction false} FanPath(s: State, orig: seq<Conn>, j: nat, purpose: Purpose, base: nat, next: nat)
    returns (path: seq<State>)
    requires Fanning(s, orig, j, purpose, base, next)
    ensures IsPath(path) && path[0] == s
    ensures Fanning(path[|path| - 1], orig, j, purpose, base, |orig|) && path[|path| - 1].sent == s.sent
    decreases |orig| - next
  {
    path := [s];
    if next < |orig| {
      path := AskOne(s, orig, j, purpose, base, next);
      var rest := FanPath(path[|path| - 1], orig, j, purpose, base, next + 1);
      path := Joined(path, rest);
    }
  }

  /** The first `k` replicas have been heard, in order, and the rest is outstanding. */
  ghost predicate Heard(s: State, orig: seq<Conn>, j: nat, base: nat, k: nat) {
    && Open(orig, base) && k <= |orig| && Asked(s.conns, orig, j, base, k, |orig|) && j in s.joins
    && Expects(s.joins[j], |orig|, base, k, |orig|) && s.joins[j].heard == seq(k, i => i)
  }

  /** The next replica answers, and whoever took its request out sends the result. */
  lemma AnswerOne(s: State, orig: seq<Conn>, j: nat, base: nat, k: nat) returns (s': State, s'': State)
    requires Heard(s, orig, j, base, k) && k < |orig|
    ensures Next(s, s') && Next(s', s'')
    ensures Asked(s''.conns, orig, j, base, k + 1, |orig|)
    ensures s'' == s.(conns := s''.conns, sent := s.sent + [Ask(base, k)],
                      joins := s.joins[j := s.joins[j].(results := [Result(k, Ask(base, k))])])
  {
    var id := Ask(base, k);
    assert s.conns[k] == orig[k].(pending := orig[k].pending[id := j]);
    s' := ConnApply(s, k, Complete(id));
    s'' := DeliverApply(s', k, id);
    assert ConnNext(s, s') && DeliverNext(s', s'');
    assert s''.conns[k].pending == orig[k].pending && s''.conns[k].inHand == orig[k].inHand;
    assert s''.joins[j].results == [] + [Result(k, id)] == [Result(k, id)];
  }

  lemma TakeOne(s: State, orig: seq<Conn>, j: nat, base: nat, k: nat, verdict: Verdict) returns (s': State)
    requires Open(orig, base) && k < |orig| && Asked(s.conns, orig, j, base, k + 1, |orig|) && j in s.joins
    requires s.joins[j].results == [Result(k, Ask(base, k))]
    requires s.joins[j].owner.AtNext? || s.joins[j].owner.AtNextLeft?
    requires Expects(s.joins[j].(results := []), |orig|, base, k, |orig|) && s.joins[j].heard == seq(k, i => i)
    ensures Next(s, s') && Heard(s', orig, j, base, k + 1) && s'.sent == s.sent && s'.nextRequest == s.nextRequest
    ensures s'.joins[j].owner == AfterResult(s.joins[j].owner, verdict, |orig| - k - 1)
  {
    s' := ConsumeApply(s, j, verdict);
    assert ConsumeNext(s, s');
    assert seq(k, i => i) + [k] == seq(k + 1, i => i);
  }

  /** The owner calls next. */
  lemma CallOne(s: State, orig: seq<Conn>, j: nat, base: nat, k: nat) returns (s': State)
    requires Heard(s, orig, j, base, k) && k < |orig|
    requires s.joins[j].owner.CollectingLeft? || (s.joins[j].owner.Collecting? && s.joins[j].owner.received < |orig|)
    ensures Next(s, s') && Heard(s', orig, j, base, k) && s'.sent == s.sent && s'.nextRequest == s.nextRequest
    ensures var o := s.joins[j].owner;
      s'.joins[j].owner == if o.Collecting? then AtNext(o.purpose, o.rejected, o.received) else AtNextLeft
  {
    s' := LocalApply(s, j, if s.joins[j].owner.Collecting? then Head else HeadLeft);
    assert LocalNext(s, s');
  }

  /** The requests to the replicas from `lo` up to `hi`. */
  function Asks(base: nat, lo: nat, hi: nat): seq<nat>
    requires lo <= hi
    decreases hi - lo
  {
    if lo == hi then [] else [Ask(base, lo)] + Asks(base, lo + 1, hi)
  }

  /** One call of next, the answer of the next replica and what the loop makes of it. */
  lemma HearOne(s: State, orig: seq<Conn>, j: nat, base: nat, k: nat, verdict: Verdict) returns (path: seq<State>)
    requires Heard(s, orig, j, base, k) && k < |orig|
    requires s.joins[j].owner.CollectingLeft? || (s.joins[j].owner.Collecting? && s.joins[j].owner.received == k)
    ensures IsPath(path) && path[0] == s
    ensures var e, o := path[|path| - 1], s.joins[j].owner;
      && Heard(e, orig, j, base, k + 1) && e.sent == s.sent + [Ask(base, k)] && e.nextRequest == s.nextRequest
      && e.joins[j].owner == if o.CollectingLeft? then CollectingLeft
                             else AfterResult(AtNext(o.purpose, o.rejected, k), verdict, |orig| - k - 1)
  {
    var s1 := CallOne(s, orig, j, base, k);
    var s2, s3 := AnswerOne(s1, orig, j, base, k);
    var s4 := TakeOne(s3, orig, j, base, k, verdict);
    path := Prepend(s3, [s4]);
    path := Prepend(s2, path);
    path := Prepend(s1, path);
    path := Prepend(s, path);
  }

  /** One replica after the other is heard, up to `upTo`, without a decision. */
  lemma {:induction false} HearPath(s: State, orig: seq<Conn>, j: nat, base: nat, k: nat, upTo: nat)
    returns (path: seq<State>)
    requires Heard(s, orig, j, base, k) && k <= upTo <= |orig|
    requires s.joins[j].owner.CollectingLeft? || (s.joins[j].owner.Collecting? && s.joins[j].owner.received == k)
    ensures IsPath(path) && path[0] == s
    ensures var e, o := path[|path| - 1], s.joins[j].owner;
      && Heard(e, orig, j, base, upTo) && e.sent == s.sent + Asks(base, k, upTo) && e.nextRequest == s.nextRequest
      && e.joins[j].owner == if o.CollectingLeft? then CollectingLeft else Collecting(o.purpose, o.rejected, upTo)
    decreases upTo - k
  {
    if k == upTo {
      path := [s];
      assert s.sent + [] == s.sent;
    } else {
      path := HearOne(s, orig, j, base, k, Continue);
      var s' := path[|path| - 1];
      var rest := HearPath(s', orig, j, base, k + 1, upTo);
      assert s.sent + [Ask(base, k)] + Asks(base, k + 1, upTo) == s.sent + Asks(base, k, upTo);
      path := Joined(path, rest);
    }
  }

  lemma {:induction false} SplitAsks(base: nat, lo: nat, mid: nat, hi: nat)
    requires lo <= mid <= hi
    ensures Asks(base, lo, mid) + Asks(base, mid, hi) == Asks(base, lo, hi)
    decreases mid - lo
  {
    if lo < mid {
      SplitAsks(base, lo + 1, mid, hi);
    }
  }

  /** A new fan-out on connections that are all open finds the join as good as new. */
  lemma StartFan(s: State, j: nat, purpose: Purpose) returns (s': State)
    requires Inv(s) && !Owned(s, j) && !purpose.ForHealing?
    requires forall r :: 0 <= r < |s.conns| ==> !s.conns[r].cancelled
    ensures Next(s, s') && Fanning(s', s.conns, j, purpose, s.nextRequest, 0) && s'.sent == s.sent
  {
    s' := LocalApply(s, j, Begin(purpose));
    assert LocalNext(s, s');
    forall r | 0 <= r < |s.conns|
      ensures s.conns[r].closed == {}
      ensures Ask(s.nextRequest, r) !in s.conns[r].pending && Ask(s.nextRequest, r) !in s.conns[r].inHand
    {
      var id := Ask(s.nextRequest, r);
      assert ConnOk(s, r);
      assert id in s.issued ==> Accounted(s, id);
    }
    if j in s.joins {
      assert JoinOk(s, j);
      CountNone(s.joins[j].waits);
    }
  }

  /** A whole fan-out: every replica is asked once; the first `q` of them are heard in the loop,
      which then has its quorum, the others by the goroutine that collects the rest; each result
      is sent once and in order, the connections are as before and the join is back in the pool. */
  lemma FanOutPath(s: State, j: nat, purpose: Purpose, q: nat) returns (path: seq<State>)
    requires Inv(s) && !Owned(s, j) && !purpose.ForHealing? && 1 <= q <= |s.conns|
    requires forall r :: 0 <= r < |s.conns| ==> !s.conns[r].cancelled
    ensures IsPath(path) && path[0] == s
    ensures var e, n := path[|path| - 1], |s.conns|;
      && e.conns == s.conns && e.nextRequest == s.nextRequest + n && e.sent == s.sent + Asks(s.nextRequest, 0, n)
      && j in e.joins && !e.joins[j].inUse && e.joins[j].heard == seq(n, i => i)
  {
    var base, n := s.nextRequest, |s.conns|;
    path := CollectPath(s, j, purpose, q);
    var rest := RestPath(path[|path| - 1], s.conns, j, base, q);
    SplitAsks(base, 0, q, n);
    assert s.sent + Asks(base, 0, q) + Asks(base, q, n) == s.sent + Asks(base, 0, n);
    path := Joined(path, rest);
    NoTimer(path, j);
    var end := EndPath(path[|path| - 1], s.conns, j, base);
    path := Joined(path, end);
  }

  /** The goroutine that collects the rest, if there is any. */
  lemma RestPath(s: State, orig: seq<Conn>, j: nat, base: nat, q: nat) returns (path: seq<State>)
    requires Heard(s, orig, j, base, q) && s.joins[j].owner == HandOver(|orig| - q)
    ensures IsPath(path) && path[0] == s
    ensures var e := path[|path| - 1];
      && Heard(e, orig, j, base, |orig|) && e.sent == s.sent + Asks(base, q, |orig|) && e.nextRequest == s.nextRequest
      && (e.joins[j].owner.CollectingLeft? || e.joins[j].owner.Releasing?)
  {
    if q < |orig| {
      path := HearPath(s, orig, j, base, q, |orig|);
    } else {
      path := [s];
      assert s.sent + [] == s.sent;
    }
  }

  /** Nothing outstanding, no timer. */
  lemma NoTimer(path: seq<State>, j: nat)
    requires IsPath(path) && Inv(path[0])
    requires var e := path[|path| - 1]; j in e.joins && e.joins[j].remaining == 0
    ensures !path[|path| - 1].joins[j].timer
  {
    PathInv(path, |path| - 1);
    assert JoinOk(path[|path| - 1], j);
  }

  /** The loop of the operation, up to its quorum. */
  lemma CollectPath(s: State, j: nat, purpose: Purpose, q: nat) returns (path: seq<State>)
    requires Inv(s) && !Owned(s, j) && !purpose.ForHealing? && 1 <= q <= |s.conns|
    requires forall r :: 0 <= r < |s.conns| ==> !s.conns[r].cancelled
    ensures IsPath(path) && path[0] == s
    ensures var e := path[|path| - 1];
      && Heard(e, s.conns, j, s.nextRequest, q) && e.sent == s.sent + Asks(s.nextRequest, 0, q)
      && e.nextRequest == s.nextRequest + |s.conns| && e.joins[j].owner == HandOver(|s.conns| - q)
  {
    var base := s.nextRequest;
    path := AskPath(s, j, purpose);
    var hear := HearPath(path[|path| - 1], s.conns, j, base, 0, q - 1);
    var last := HearOne(hear[|hear| - 1], s.conns, j, base, q - 1, Confirmed);
    SplitAsks(base, 0, q - 1, q);
    assert s.sent + Asks(base, 0, q - 1) + [Ask(base, q - 1)] == s.sent + Asks(base, 0, q);
    path := Joined(path, hear);
    path := Joined(path, last);
  }

  /** Every replica is asked, and the loop begins. */
  lemma AskPath(s: State, j: nat, purpose: Purpose) returns (path: seq<State>)
    requires Inv(s) && !Owned(s, j) && !purpose.ForHealing?
    requires forall r :: 0 <= r < |s.conns| ==> !s.conns[r].cancelled
    ensures IsPath(path) && path[0] == s
    ensures var e := path[|path| - 1];
      && Heard(e, s.conns, j, s.nextRequest, 0) && e.sent == s.sent && e.nextRequest == s.nextRequest + |s.conns|
      && e.joins[j].owner == Collecting(purpose, 0, 0)
  {
    var s1 := StartFan(s, j, purpose);
    path := FanPath(s1, s.conns, j, purpose, s.nextRequest, 0);
    var s2 := path[|path| - 1];
    path := Prepend(s, path);
    var s3 := LocalApply(s2, j, EndSubmitting(false));
    assert LocalNext(s2, s3);
    var last := Prepend(s2, [s3]);
    path := Joined(path, last);
  }

  /** With nothing left the join is released. */
  lemma EndPath(s: State, orig: seq<Conn>, j: nat, base: nat) returns (path: seq<State>)
    requires Heard(s, orig, j, base, |orig|) && !s.joins[j].timer
    requires s.joins[j].owner.CollectingLeft? || s.joins[j].owner.Releasing?
    ensures IsPath(path) && path[0] == s
    ensures var e := path[|path| - 1];
      && e.conns == orig && e.nextRequest == s.nextRequest && e.sent == s.sent
      && j in e.joins && !e.joins[j].inUse && e.joins[j].heard == s.joins[j].heard
  {
    path := [s];
    var s' := s;
    if s.joins[j].owner.CollectingLeft? {
      s' := LocalApply(s, j, HeadLeft);
      assert LocalNext(s, s');
      path := Prepend(s, [s']);
    }
    var e := ReleaseApply(s', j);
    assert ReleaseNext(s', e);
    var last := Prepend(s', [e]);
    path := Joined(path, last);
    assert e.conns == orig;
  }

  // ---------- How an operation leaves its loop ----------

  /** An operation that ends without a quorum, because its caller cancels, the last result is in
      or no quorum is possible any more: Acquire aborts what is outstanding, Renew goes on
      listening to it, and either releases the join at once if nothing is. One that has its
      quorum always goes on listening. */
  lemma LeavesLoop(s: State, j: nat, verdict: Verdict)
    requires Owned(s, j) && s.joins[j].owner.AtNext? && !s.joins[j].owner.purpose.ForHealing?
    ensures LocalApply(s, j, CallerCancelled).joins[j].owner == Outcome(s.joins[j], false, s.joins[j].remaining)
    ensures ConsumeEnabled(s, j) && !ConsumeApply(s, j, verdict).panicked && !s.panicked && verdict != Continue ==>
      ConsumeApply(s, j, verdict).joins[j].owner ==
      Outcome(s.joins[j], verdict == Confirmed, s.joins[j].remaining - 1)
  {
  }

  function Outcome(w: Waiter, success: bool, left: int): Owner
    requires w.owner.AtNext?
  {
    if w.owner.purpose == ForAcquire && !success then Aborting(0)
    else if left == 0 then Releasing
    else CollectingLeft
  }

  /** The loop ends the same way when every result is in, and when the caller has cancelled
      before it began; a healing batch just listens. */
  lemma LeavesEarly(s: State, j: nat)
    requires Owned(s, j)
    ensures LocalEnabled(s, j, EndSubmitting(true)) ==>
      LocalApply(s, j, EndSubmitting(true)).joins[j].owner ==
      match s.joins[j].owner.purpose
      case ForAcquire => Aborting(0)
      case ForRenew => if s.joins[j].remaining == 0 then Releasing else CollectingLeft
      case ForHealing(_) => CollectingLeft
    ensures LocalEnabled(s, j, Head) && s.joins[j].owner.received >= |s.conns| ==>
      LocalApply(s, j, Head).joins[j].owner ==
      if s.joins[j].owner.purpose == ForAcquire then Aborting(0)
      else if s.joins[j].remaining == 0 then Releasing else CollectingLeft
  {
  }

  /** A registration that is refused, whatever the reason, uses up its number and is counted. */
  lemma RefusedRegistration(s: State, j: nat, callerDone: bool, queueFull: bool)
    requires Inv(s) && RegisterEnabled(s, j)
    requires callerDone || queueFull || s.conns[s.joins[j].owner.next].cancelled
    ensures var w := s.joins[j];
      RegisterApply(s, j, callerDone, queueFull) ==
      s.(nextRequest := s.nextRequest + 1,
         joins := s.joins[j := w.(owner := Submitting(w.owner.purpose, w.owner.next + 1, w.owner.rejected + 1))])
  {
    assert ConnOk(s, s.joins[j].owner.next);
  }

  // ---------- Close ----------

  /** Failing a shard moves its requests from the map into somebody's hands and no others. */
  lemma FailOne(c: Conn, k: nat)
    ensures var c' := ConnMoved(c, FailShard(k));
      && c'.cancelled == c.cancelled && c'.closed == c.closed + {k}
      && c'.inHand + c'.pending == c.inHand + c.pending
      && forall id :: id in c'.pending <==> id in c.pending && ShardOf(id) != k
  {
  }

  /** Close has failed the shards below `k`. */
  ghost predicate FailedBelow(c: Conn, k: nat) {
    && c.cancelled && (forall i: nat :: i < k ==> i in c.closed)
    && forall id :: id in c.pending ==> ShardOf(id) >= k
  }

  lemma {:induction false} FailPath(s: State, r: nat, k: nat) returns (path: seq<State>)
    requires r < |s.conns| && k <= PENDING_SHARDS && FailedBelow(s.conns[r], k)
    ensures IsPath(path) && path[0] == s
    ensures var e := path[|path| - 1];
      && |e.conns| == |s.conns| && e == SetConn(s, r, e.conns[r]) && FailedBelow(e.conns[r], PENDING_SHARDS)
      && e.conns[r].inHand + e.conns[r].pending == s.conns[r].inHand + s.conns[r].pending
    decreases PENDING_SHARDS - k
  {
    if k == PENDING_SHARDS {
      path := [s];
      assert s.conns[r := s.conns[r]] == s.conns;
    } else {
      var s' := ConnApply(s, r, FailShard(k));
      assert ConnNext(s, s');
      FailOne(s.conns[r], k);
      path := FailPath(s', r, k + 1);
      path := Prepend(s, path);
    }
  }

  /** Close cancels a connection and takes every pending request out, so that each gets its
      result, and touches nothing else; from then on every registration is refused. */
  lemma ClosePath(s: State, r: nat) returns (path: seq<State>)
    requires r < |s.conns| && s.conns[r].closed == {}
    ensures IsPath(path) && path[0] == s
    ensures var e := path[|path| - 1];
      && |e.conns| == |s.conns| && e == SetConn(s, r, e.conns[r])
      && e.conns[r].cancelled && e.conns[r].pending == map[]
      && (forall i: nat :: i < PENDING_SHARDS ==> i in e.conns[r].closed)
      && e.conns[r].inHand == s.conns[r].inHand + s.conns[r].pending
  {
    var s' := ConnApply(s, r, Cancel);
    assert ConnNext(s, s');
    path := FailPath(s', r, 0);
    path := Prepend(s, path);
    var e := path[|path| - 1];
    assert e.conns[r].pending == map[];
    assert e.conns[r].inHand + map[] == e.conns[r].inHand;
  }
}
