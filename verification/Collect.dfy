/** The client's collection loop: replies are taken one by one until some quorum is still
    valid, or until no quorum can become valid any more. */
module Collect {
  import opened Types
  import opened Quorum

  /** What one wait of the loop yields. A reply carries the instant at which the client read
      its clock on receipt, the later instant at which it asks whether to go on, and whether
      the operation was cancelled in between. */
  datatype Event =
    | Reply(replica: nat, success: bool, ttlMS: nat, readAt: int, checkedAt: int, cancelled: bool)
    | Cancelled

  /** The candidates and successes known after some replies. */
  datatype Known = Known(candidates: seq<int>, successful: seq<bool>)

  function Nothing(n: nat): Known {
    Known(seq(n, _ => 0), seq(n, _ => false))
  }

  function Note(known: Known, start: int, e: Event): Known
    requires e.Reply? && e.replica < |known.candidates| == |known.successful|
  {
    if e.success then
      Known(known.candidates[e.replica := CandidateValidUntil(start, e.ttlMS)], known.successful[e.replica := true])
    else known
  }

  /** What the calls of next yield in a fan-out to `n` replicas of which `rejected` could not
      even be submitted: each other replica replies at most once, in the order of the client's
      clock, and as long as a reply is outstanding the next call yields it or the cancellation.
      That the loop makes no call with nothing outstanding is `JoinProof.NeverWaitsInVain`. */
  ghost predicate FanOut(n: nat, rejected: nat, start: int, events: seq<Event>) {
    && Counted(n, rejected, events)
    && (forall i :: 0 <= i < |events| ==> Timely(n, start, events, i))
    && (forall i, j :: 0 <= i < j < |events| ==> InOrder(events, i, j))
  }

  predicate Timely(n: nat, start: int, events: seq<Event>, i: nat)
    requires i < |events|
  {
    events[i].Reply? ==> events[i].replica < n && start <= events[i].readAt <= events[i].checkedAt
  }

  predicate InOrder(events: seq<Event>, i: nat, j: nat)
    requires i < j < |events|
  {
    events[j].Reply? ==>
      events[i].Reply? && events[i].replica != events[j].replica && events[i].checkedAt <= events[j].readAt
  }

  predicate Counted(n: nat, rejected: nat, events: seq<Event>) {
    && rejected <= n && |events| <= n - rejected + 1
    && (forall i :: 0 <= i < |events| && events[i].Cancelled? ==> i == |events| - 1)
    && (|events| < n - rejected ==> events != [] && events[|events| - 1].Cancelled?)
    && (|events| == n - rejected + 1 ==> events[|events| - 1].Cancelled?)
  }

  // ---------- What the replies are worth ----------

  /** A reply that may be relied on beyond `t`: a success whose TTL, less the margin and counted
      from the start of the operation, ends after `t`. */
  predicate WorthAfter(e: Event, start: int, t: int) {
    && e.Reply? && e.success && SAFETY_MARGIN_MS < e.ttlMS <= PROTOCOL_MAX_TTL_MS
    && t + SAFETY_MARGIN_MS * MS < start + e.ttlMS * MS
  }

  /** The replicas among the first `k` replies that may be relied on beyond `t`. */
  ghost function Worthy(start: int, events: seq<Event>, k: nat, t: int): set<nat>
    requires k <= |events|
  {
    set i: nat | i < k && WorthAfter(events[i], start, t) :: events[i].replica
  }

  /** The reply at `k` completes a quorum that is still valid when it is received. */
  ghost predicate Confirms(q: nat, start: int, events: seq<Event>, k: nat)
    requires k < |events|
  {
    events[k].Reply? && events[k].success && |Worthy(start, events, k + 1, events[k].readAt)| >= q
  }

  /** The first such reply, as a client that always waits for every reply would find it. */
  ghost predicate FirstConfirms(q: nat, start: int, events: seq<Event>, k: nat) {
    k < |events| && Confirms(q, start, events, k) && forall j :: 0 <= j < k ==> !Confirms(q, start, events, j)
  }

  /** `v` is the last instant up to which some quorum of the first `k` replies may be relied on. */
  ghost predicate LastsUntil(q: nat, start: int, events: seq<Event>, k: nat, v: int)
    requires k <= |events|
  {
    |Worthy(start, events, k, v - 1)| >= q > |Worthy(start, events, k, v)|
  }

  lemma LaterIsWorthLess(start: int, events: seq<Event>, k: nat, t: int, t': int)
    requires k <= |events| && t <= t'
    ensures |Worthy(start, events, k, t')| <= |Worthy(start, events, k, t)|
  {
    SubsetSize(Worthy(start, events, k, t'), Worthy(start, events, k, t));
  }

  /** Each further reply makes at most one more replica usable. */
  lemma {:induction false} WorthGrowth(start: int, events: seq<Event>, k: nat, k': nat, t: int)
    requires k <= k' <= |events|
    ensures |Worthy(start, events, k', t)| <= |Worthy(start, events, k, t)| + (k' - k)
    decreases k'
  {
    if k < k' {
      WorthGrowth(start, events, k, k' - 1, t);
      var before, after := Worthy(start, events, k' - 1, t), Worthy(start, events, k', t);
      if WorthAfter(events[k' - 1], start, t) {
        SubsetSize(after, before + {events[k' - 1].replica});
      } else {
        SubsetSize(after, before);
      }
    }
  }

  /** Giving up is sound: when the usable replies and all that may still come do not make a
      quorum, no later reply completes one. */
  lemma Hopeless(q: nat, start: int, events: seq<Event>, k: nat, t: int, later: nat)
    requires k <= later < |events| && |Worthy(start, events, k, t)| + (later + 1 - k) < q
    requires events[later].Reply? ==> t <= events[later].readAt
    ensures !Confirms(q, start, events, later)
  {
    if events[later].Reply? {
      WorthGrowth(start, events, k, later + 1, t);
      LaterIsWorthLess(start, events, later + 1, t, events[later].readAt);
    }
  }

  lemma AllHopeless(q: nat, start: int, events: seq<Event>, k: nat, t: int)
    requires k <= |events|
    requires forall later :: k <= later < |events| && events[later].Reply? ==>
               t <= events[later].readAt && |Worthy(start, events, k, t)| + (later + 1 - k) < q
    ensures forall later :: k <= later < |events| ==> !Confirms(q, start, events, later)
  {
    forall later | k <= later < |events| ensures !Confirms(q, start, events, later) {
      if events[later].Reply? {
        Hopeless(q, start, events, k, t, later);
      }
    }
  }

  // ---------- What the client records ----------

  predicate SucceededAt(events: seq<Event>, j: nat, replica: nat)
    requires j < |events|
  {
    events[j].Reply? && events[j].success && events[j].replica == replica
  }

  /** The client's arrays hold what the first `k` replies said: a replica counts as successful
      exactly when one of them is its success, and its candidate is the one of that reply. */
  ghost predicate Records(n: nat, start: int, events: seq<Event>, k: nat, known: Known)
    requires k <= |events|
  {
    && |known.candidates| == |known.successful| == n
    && (forall r :: 0 <= r < n ==> (known.successful[r] <==> exists j: nat :: j < k && SucceededAt(events, j, r)))
    && (forall r, j: nat :: 0 <= r < n && j < k && SucceededAt(events, j, r) ==>
          known.candidates[r] == CandidateValidUntil(start, events[j].ttlMS))
  }

  /** Taking note of the next reply keeps the record, as no replica replies twice. */
  lemma NoteRecords(n: nat, rejected: nat, start: int, events: seq<Event>, k: nat, known: Known)
    requires FanOut(n, rejected, start, events) && k < |events| && events[k].Reply? && Timely(n, start, events, k)
    requires Records(n, start, events, k, known)
    ensures Records(n, start, events, k + 1, Note(known, start, events[k]))
  {
    forall j: nat | j < k ensures events[j].Reply? && events[j].replica != events[k].replica {
      assert InOrder(events, j, k);
    }
    var known', e := Note(known, start, events[k]), events[k];
    forall r | 0 <= r < n
      ensures known'.successful[r] <==> exists j: nat :: j < k + 1 && SucceededAt(events, j, r)
    {
      if e.success && r == e.replica {
        assert SucceededAt(events, k, r);
      }
    }
  }

  /** What may be relied on according to the record is what the replies are worth. */
  lemma RecordedWorth(n: nat, rejected: nat, start: int, events: seq<Event>, k: nat, known: Known, t: int)
    requires FanOut(n, rejected, start, events) && k <= |events| && Records(n, start, events, k, known) && start <= t
    ensures Usable(known, t) == Worthy(start, events, k, t)
  {
    forall r ensures r in Usable(known, t) <==> r in Worthy(start, events, k, t) {
      if r in Usable(known, t) {
        var j: nat :| j < k && SucceededAt(events, j, r);
        assert WorthAfter(events[j], start, t);
      }
      if r in Worthy(start, events, k, t) {
        var j: nat :| j < k && WorthAfter(events[j], start, t) && events[j].replica == r;
        assert SucceededAt(events, j, r) && Timely(n, start, events, j);
      }
    }
  }

  /** The best quorum of the record lasts exactly as long as the replies allow. */
  lemma RecordedBest(n: nat, rejected: nat, q: nat, start: int, events: seq<Event>, k: nat, known: Known,
    best: Option<int>, t: int)
    requires FanOut(n, rejected, start, events) && k <= |events| && Records(n, start, events, k, known)
    requires q >= 1 && start <= t && IsBestQuorum(known.candidates, known.successful, q, best)
    ensures (best.Some? && t < best.value) <==> |Worthy(start, events, k, t)| >= q
    ensures best.Some? && t < best.value ==> LastsUntil(q, start, events, k, best.value)
  {
    BestStillValid(known, q, best, t);
    RecordedWorth(n, rejected, start, events, k, known, t);
    if best.Some? && t < best.value {
      BestStillValid(known, q, best, best.value - 1);
      BestStillValid(known, q, best, best.value);
      RecordedWorth(n, rejected, start, events, k, known, best.value - 1);
      RecordedWorth(n, rejected, start, events, k, known, best.value);
    }
  }

  /** The replicas whose recorded success is still worth something at `t`. */
  function Usable(known: Known, t: int): set<nat>
    requires |known.candidates| == |known.successful|
  {
    Reaching(known.candidates, known.successful, t + 1)
  }

  /** A nonempty set of replicas has a validity. */
  lemma {:induction false} ValidityExists(candidates: seq<int>, members: set<nat>) returns (v: int)
    requires members != {} && forall i :: i in members ==> i < |candidates|
    ensures IsValidity(candidates, members, v)
    decreases |members|
  {
    var x :| x in members;
    if members == {x} {
      v := candidates[x];
      assert x in members && candidates[x] == v;
    } else {
      assert members - {x} != {};
      var w := ValidityExists(candidates, members - {x});
      var y :| y in members - {x} && candidates[y] == w;
      v := Min(w, candidates[x]);
      assert (if w <= candidates[x] then y else x) in members;
    }
  }

  /** The best quorum is still valid exactly when enough replicas are still usable. */
  lemma BestStillValid(known: Known, q: nat, best: Option<int>, t: int)
    requires |known.candidates| == |known.successful| && q >= 1
    requires IsBestQuorum(known.candidates, known.successful, q, best)
    ensures (best.Some? && t < best.value) <==> |Usable(known, t)| >= q
  {
    var usable := Usable(known, t);
    if best.Some? && t < best.value {
      var members :| IsQuorum(known.successful, q, members) && IsValidity(known.candidates, members, best.value);
      SubsetSize(members, usable);
    }
    if |usable| >= q {
      var x :| x in usable;
      var members := SubsetOfSize(usable, q, x);
      var v := ValidityExists(known.candidates, members);
      assert IsQuorum(known.successful, q, members);
    }
  }

  /** Whether the replies still usable and those still to come could make a quorum. */
  method AcquireQuorumStillPossible(candidates: seq<int>, successful: seq<bool>, remaining: nat, now: int,
    quorumSize: nat)
    returns (possible: bool)
    requires |candidates| == |successful|
    ensures possible <==> |Usable(Known(candidates, successful), now)| + remaining >= quorumSize
  {
    var usable := 0;
    for replica := 0 to |successful|
      invariant usable == |Reaching(candidates[..replica], successful[..replica], now + 1)|
    {
      ReachingAppend(candidates, successful, replica, now + 1);
      if successful[replica] && now < candidates[replica] {
        usable := usable + 1;
      }
    }
    assert candidates[..|candidates|] == candidates && successful[..|successful|] == successful;
    return usable + remaining >= quorumSize;
  }

  /** The client takes note of a reply and asks for the best quorum, which it accepts when the
      quorum is still valid at the instant of the reply. */
  method HearReply(n: nat, rejected: nat, q: nat, start: int, events: seq<Event>, k: nat, known: Known)
    returns (known': Known, quorum: Option<int>)
    requires q >= 1 && FanOut(n, rejected, start, events) && k < |events| && events[k].Reply?
    requires Records(n, start, events, k, known)
    ensures Records(n, start, events, k + 1, known')
    ensures quorum.Some? <==> Confirms(q, start, events, k)
    ensures quorum.Some? ==> LastsUntil(q, start, events, k + 1, quorum.value) && events[k].readAt < quorum.value
  {
    var e := events[k];
    assert Timely(n, start, events, k);
    NoteRecords(n, rejected, start, events, k, known);
    known' := Note(known, start, e);
    quorum := None;
    if e.success {
      var best := BestAcquireQuorum(known'.candidates, known'.successful, q);
      RecordedBest(n, rejected, q, start, events, k + 1, known', best, e.readAt);
      if best.Some? && e.readAt < best.value {
        quorum := best;
      }
    }
  }

  /** The client has taken note of the first `k` events, all of them replies, and none has
      completed a valid quorum. */
  ghost predicate Undecided(n: nat, q: nat, start: int, events: seq<Event>, k: nat, known: Known) {
    && k <= |events| && Records(n, start, events, k, known)
    && forall j :: 0 <= j < k ==> events[j].Reply? && !Confirms(q, start, events, j)
  }

  /** A client that waits for every reply gets the lease at the reply `k`, until `v` and no
      longer. */
  ghost predicate ObtainedAt(q: nat, start: int, events: seq<Event>, k: nat, v: int) {
    && k < |events| && FirstConfirms(q, start, events, k) && !events[k].cancelled
    && LastsUntil(q, start, events, k + 1, v) && events[k].readAt < v
  }

  /** A client that waits for every reply does not get the lease either. */
  ghost predicate Settled(q: nat, start: int, events: seq<Event>) {
    forall k :: 0 <= k < |events| && FirstConfirms(q, start, events, k) ==> events[k].cancelled
  }

  /** As long as replies are outstanding there is a next event. */
  lemma MoreToCome(n: nat, rejected: nat, q: nat, start: int, events: seq<Event>, k: nat, known: Known)
    requires FanOut(n, rejected, start, events) && Undecided(n, q, start, events, k, known) && k < n - rejected
    ensures k < |events|
  {
  }

  /** Nothing more can come: every reply is in, or the operation is cancelled next. */
  lemma OutOfReplies(n: nat, rejected: nat, q: nat, start: int, events: seq<Event>, k: nat, known: Known)
    requires FanOut(n, rejected, start, events) && Undecided(n, q, start, events, k, known)
    requires k == n - rejected || (k < |events| && events[k].Cancelled?)
    ensures Settled(q, start, events)
  {
  }

  /** Nothing more can help: the usable replies and all that are outstanding make no quorum. */
  lemma GaveUp(n: nat, rejected: nat, q: nat, start: int, events: seq<Event>, k: nat, known: Known, t: int)
    requires FanOut(n, rejected, start, events) && Undecided(n, q, start, events, k, known)
    requires 1 <= k <= n - rejected && t == events[k - 1].checkedAt
    requires |Usable(known, t)| + (n - rejected - k) < q
    ensures Settled(q, start, events)
  {
    assert Timely(n, start, events, k - 1);
    forall later | k <= later < |events| && events[later].Reply? ensures t <= events[later].readAt {
      assert InOrder(events, k - 1, later);
    }
    RecordedWorth(n, rejected, start, events, k, known, t);
    AllHopeless(q, start, events, k, t);
  }

  /** The loop of Acquire and Renew. Giving up early changes nothing: the result is that of a
      client that waits for every reply, namely the longest validity any quorum of replies
      reaches at the first reply that completes a valid one. */
  method CollectQuorum(n: nat, q: nat, start: int, rejected: nat, events: seq<Event>) returns (validUntil: Option<int>)
    requires 1 <= q <= n && FanOut(n, rejected, start, events)
    ensures validUntil.Some? ==> exists k: nat :: ObtainedAt(q, start, events, k, validUntil.value)
    ensures validUntil.None? ==> Settled(q, start, events)
  {
    var known := Nothing(n);
    var received, next := rejected, 0;
    var remaining := n - rejected;
    while received < n
      invariant received <= n && next <= n - rejected + 1
      invariant received < n ==> received + remaining == n && received == rejected + next
      invariant if received == rejected + next then Undecided(n, q, start, events, next, known)
                else Settled(q, start, events)
      decreases n - received
    {
      assert remaining > 0;
      MoreToCome(n, rejected, q, start, events, next, known);
      var e := events[next];
      if e.Cancelled? {
        OutOfReplies(n, rejected, q, start, events, next, known);
        return None;
      }
      var quorum;
      known, quorum := HearReply(n, rejected, q, start, events, next, known);
      next, received, remaining := next + 1, received + 1, remaining - 1;
      if quorum.Some? {
        assert e.cancelled || ObtainedAt(q, start, events, next - 1, quorum.value);
        return if e.cancelled then None else quorum;
      }
      var possible := AcquireQuorumStillPossible(known.candidates, known.successful, n - received, e.checkedAt, q);
      if !possible {
        GaveUp(n, rejected, q, start, events, next, known, e.checkedAt);
        received := n;
      }
    }
    if received == rejected + next {
      OutOfReplies(n, rejected, q, start, events, next, known);
    }
    return None;
  }
}
