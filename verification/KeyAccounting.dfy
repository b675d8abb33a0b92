/** The global key counter under concurrency: shard workers and cleanups interleave freely.
    A worker keeps its shard's mutex from looking a key up until it has deleted, returned,
    reserved and inserted; a cleanup takes one shard's mutex after the other and returns what
    it deleted at the end. Every load and compare-and-swap of the counter is a step of its own.
    The mutex that keeps two cleanups apart is not needed and left out. */
module KeyAccounting {
  import opened Types

  /** What a return of keys goes back to: the work on a key whose shard is still locked, or
      the end of a cleanup. */
  datatype Place = OnShard(shard: nat, key: Key) | NoShard

  /** Where a thread stands. */
  datatype Thread =
    | Idle
    | Looking(at: Place)
    | Returning(at: Place, count: nat)
    | ReturnLoaded(at: Place, count: nat, current: nat)
    | Vacant(at: Place)
    | Reserving(at: Place)
    | ReserveLoaded(at: Place, current: nat)
    | Reserved(at: Place)
    | Cleaning(next: nat, count: nat)
    | Sweeping(next: nat, count: nat)

  datatype State = State(
    maxKeys: nat,
    keys: nat,
    shards: seq<set<Key>>,
    holders: seq<Option<nat>>,
    threads: seq<Thread>,
    failed: bool)

  function With(s: State, t: nat, th: Thread): State
    requires t < |s.threads|
  {
    s.(threads := s.threads[t := th])
  }

  /** The thread is done with its key and unlocks the shard. */
  function Unlocked(s: State, t: nat, shard: nat): State
    requires t < |s.threads| && shard < |s.holders|
  {
    s.(threads := s.threads[t := Idle], holders := s.holders[shard := None])
  }

  predicate AtShard(s: State, at: Place) {
    at.OnShard? && at.shard < |s.shards| && at.shard < |s.holders|
  }

  // ---------- Work on one key ----------

  datatype KeyStep =
    | Lock(shard: nat, key: Key)
    | Leave
    | Delete
    | FindVacant
    | LeaveVacant
    | StartReserve
    | Insert

  predicate KeyEnabled(s: State, t: nat, step: KeyStep) {
    && t < |s.threads|
    && var th := s.threads[t];
    match step
    case Lock(i, k) => th.Idle? && i < |s.shards| && i < |s.holders| && s.holders[i] == None
    case Leave => th.Looking? && AtShard(s, th.at)
    case Delete => th.Looking? && AtShard(s, th.at) && th.at.key in s.shards[th.at.shard]
    case FindVacant => th.Looking? && AtShard(s, th.at) && th.at.key !in s.shards[th.at.shard]
    case LeaveVacant => th.Vacant? && AtShard(s, th.at)
    case StartReserve => th.Vacant?
    case Insert => th.Reserved? && AtShard(s, th.at)
  }

  function KeyApply(s: State, t: nat, step: KeyStep): State
    requires KeyEnabled(s, t, step)
  {
    var th := s.threads[t];
    match step
    case Lock(i, k) => With(s, t, Looking(OnShard(i, k))).(holders := s.holders[i := Some(t)])
    case Leave => Unlocked(s, t, th.at.shard)
    case Delete =>
      With(s, t, Returning(th.at, 1)).(shards := s.shards[th.at.shard := s.shards[th.at.shard] - {th.at.key}])
    case FindVacant => With(s, t, Vacant(th.at))
    case LeaveVacant => Unlocked(s, t, th.at.shard)
    case StartReserve => With(s, t, Reserving(th.at))
    case Insert =>
      Unlocked(s, t, th.at.shard).(shards := s.shards[th.at.shard := s.shards[th.at.shard] + {th.at.key}])
  }

  // ---------- The counter ----------

  datatype CounterStep = LoadForReturn | SwapForReturn | Underflow | LoadForReserve | SwapForReserve | Refuse

  predicate CounterEnabled(s: State, t: nat, step: CounterStep) {
    && t < |s.threads|
    && var th := s.threads[t];
    match step
    case LoadForReturn => th.Returning?
    case SwapForReturn => th.ReturnLoaded? && th.count <= th.current
    case Underflow => th.ReturnLoaded? && th.count > th.current
    case LoadForReserve => th.Reserving?
    case SwapForReserve => th.ReserveLoaded? && th.current < s.maxKeys
    case Refuse => th.ReserveLoaded? && th.current >= s.maxKeys && AtShard(s, th.at)
  }

  /** Where a thread goes on when it has returned its keys. */
  function Returned(at: Place): Thread {
    if at.OnShard? then Vacant(at) else Idle
  }

  function CounterApply(s: State, t: nat, step: CounterStep): State
    requires CounterEnabled(s, t, step)
  {
    var th := s.threads[t];
    match step
    case LoadForReturn => With(s, t, ReturnLoaded(th.at, th.count, s.keys))
    case SwapForReturn =>
      if s.keys == th.current then With(s, t, Returned(th.at)).(keys := s.keys - th.count)
      else With(s, t, Returning(th.at, th.count))
    case Underflow => With(s, t, Returned(th.at)).(failed := true)
    case LoadForReserve => With(s, t, ReserveLoaded(th.at, s.keys))
    case SwapForReserve =>
      if s.keys == th.current then With(s, t, Reserved(th.at)).(keys := s.keys + 1) else With(s, t, Reserving(th.at))
    case Refuse => Unlocked(s, t, th.at.shard)
  }

  // ---------- Cleanups ----------

  datatype CleanStep = StartCleanup | LockShard | Sweep(expired: set<Key>) | EndCleanup

  predicate CleanEnabled(s: State, t: nat, step: CleanStep) {
    && t < |s.threads|
    && var th := s.threads[t];
    match step
    case StartCleanup => th.Idle?
    case LockShard => th.Cleaning? && th.next < |s.shards| && th.next < |s.holders| && s.holders[th.next] == None
    case Sweep(expired) => th.Sweeping? && th.next < |s.shards| && th.next < |s.holders| && expired <= s.shards[th.next]
    case EndCleanup => th.Cleaning? && th.next == |s.shards|
  }

  function CleanApply(s: State, t: nat, step: CleanStep): State
    requires CleanEnabled(s, t, step)
  {
    var th := s.threads[t];
    match step
    case StartCleanup => With(s, t, Cleaning(0, 0))
    case LockShard => With(s, t, Sweeping(th.next, th.count)).(holders := s.holders[th.next := Some(t)])
    case Sweep(expired) =>
      With(s, t, Cleaning(th.next + 1, th.count + |expired|))
      .(shards := s.shards[th.next := s.shards[th.next] - expired], holders := s.holders[th.next := None])
    case EndCleanup => With(s, t, if th.count == 0 then Idle else Returning(NoShard, th.count))
  }

  // ---------- Runs ----------

  ghost predicate Initial(s: State) {
    && s.keys == 0 && !s.failed && |s.holders| == |s.shards|
    && (forall i :: 0 <= i < |s.shards| ==> s.shards[i] == {} && s.holders[i] == None)
    && (forall t :: 0 <= t < |s.threads| ==> s.threads[t] == Idle)
  }

  ghost predicate KeyNext(s: State, s': State) {
    exists t, step :: KeyEnabled(s, t, step) && s' == KeyApply(s, t, step)
  }

  ghost predicate CounterNext(s: State, s': State) {
    exists t, step :: CounterEnabled(s, t, step) && s' == CounterApply(s, t, step)
  }

  ghost predicate CleanNext(s: State, s': State) {
    exists t, step :: CleanEnabled(s, t, step) && s' == CleanApply(s, t, step)
  }

  ghost predicate Next(s: State, s': State) {
    KeyNext(s, s') || CounterNext(s, s') || CleanNext(s, s')
  }

  ghost predicate NextAt(run: seq<State>, i: nat)
    requires i + 1 < |run|
  {
    Next(run[i], run[i + 1])
  }

  ghost predicate IsRun(run: seq<State>) {
    && run != [] && Initial(run[0])
    && forall i: nat :: i + 1 < |run| ==> NextAt(run, i)
  }

  // ---------- Accounting ----------

  /** Keys a thread has counted but not stored, or deleted but not returned. */
  function Owed(th: Thread): nat {
    match th
    case Returning(_, count) => count
    case ReturnLoaded(_, count, _) => count
    case Cleaning(_, count) => count
    case Sweeping(_, count) => count
    case Reserved(_) => 1
    case _ => 0
  }

  /** What the first `n` threads owe. */
  function TotalOwed(threads: seq<Thread>, n: nat): nat
    requires n <= |threads|
  {
    if n == 0 then 0 else TotalOwed(threads, n - 1) + Owed(threads[n - 1])
  }

  /** The keys resident in the first `n` shards. */
  function Residents(shards: seq<set<Key>>, n: nat): nat
    requires n <= |shards|
  {
    if n == 0 then 0 else Residents(shards, n - 1) + |shards[n - 1]|
  }

  lemma {:induction false} OwedUpdate(threads: seq<Thread>, n: nat, t: nat, th: Thread)
    requires t < |threads| && n <= |threads|
    ensures TotalOwed(threads[t := th], n) ==
      TotalOwed(threads, n) - (if t < n then Owed(threads[t]) else 0) + (if t < n then Owed(th) else 0)
    ensures t < n ==> Owed(threads[t]) <= TotalOwed(threads, n)
  {
    if n > 0 {
      OwedUpdate(threads, n - 1, t, th);
    }
  }

  lemma {:induction false} ResidentsUpdate(shards: seq<set<Key>>, n: nat, i: nat, keys: set<Key>)
    requires i < |shards| && n <= |shards|
    ensures Residents(shards[i := keys], n) ==
      Residents(shards, n) - (if i < n then |shards[i]| else 0) + (if i < n then |keys| else 0)
  {
    if n > 0 {
      ResidentsUpdate(shards, n - 1, i, keys);
    }
  }

  /** The shard whose mutex a thread holds. */
  function Held(th: Thread): Option<nat> {
    match th
    case Idle => None
    case Cleaning(_, _) => None
    case Sweeping(next, _) => Some(next)
    case _ => if th.at.OnShard? then Some(th.at.shard) else None
  }

  /** The thread knows that its key is not stored. */
  predicate KnowsVacant(th: Thread) {
    || th.Vacant? || th.Reserving? || th.ReserveLoaded? || th.Reserved?
    || ((th.Returning? || th.ReturnLoaded?) && th.at.OnShard?)
  }

  /** A thread holds the mutex of the shard it works on; what it has learnt about its key is
      still so; and a loaded counter covers what it is about to return. */
  ghost predicate ThreadOk(s: State, t: nat)
    requires t < |s.threads|
  {
    var th := s.threads[t];
    && (Held(th).Some? ==> Held(th).value < |s.holders| && s.holders[Held(th).value] == Some(t))
    && (KnowsVacant(th) ==> AtShard(s, th.at) && th.at.key !in s.shards[th.at.shard])
    && (th.ReturnLoaded? ==> th.count <= th.current)
  }

  ghost predicate Counted(s: State) {
    s.keys == Residents(s.shards, |s.shards|) + TotalOwed(s.threads, |s.threads|)
  }

  ghost predicate Inv(s: State) {
    && |s.holders| == |s.shards| && Counted(s) && s.keys <= s.maxKeys && !s.failed
    && forall t :: 0 <= t < |s.threads| ==> ThreadOk(s, t)
  }

  lemma {:induction false} AllEmpty(shards: seq<set<Key>>, n: nat)
    requires n <= |shards| && forall i :: 0 <= i < |shards| ==> shards[i] == {}
    ensures Residents(shards, n) == 0
  {
    if n > 0 {
      AllEmpty(shards, n - 1);
    }
  }

  lemma {:induction false} AllIdle(threads: seq<Thread>, n: nat)
    requires n <= |threads| && forall t :: 0 <= t < |threads| ==> threads[t] == Idle
    ensures TotalOwed(threads, n) == 0
  {
    if n > 0 {
      AllIdle(threads, n - 1);
    }
  }

  lemma InitialInv(s: State)
    requires Initial(s)
    ensures Inv(s)
  {
    AllEmpty(s.shards, |s.shards|);
    AllIdle(s.threads, |s.threads|);
  }

  // ---------- Every step keeps it ----------

  lemma WithoutSubset(all: set<Key>, part: set<Key>)
    requires part <= all
    ensures |all - part| == |all| - |part|
  {
    assert all == (all - part) + part;
  }

  /** A key that is inserted was not stored: its shard has been locked since that was seen. */
  lemma KeyCounts(s: State, t: nat, step: KeyStep)
    requires Counted(s) && KeyEnabled(s, t, step) && ThreadOk(s, t)
    ensures Counted(KeyApply(s, t, step))
  {
    var th, s' := s.threads[t], KeyApply(s, t, step);
    OwedUpdate(s.threads, |s.threads|, t, s'.threads[t]);
    match step {
      case Delete => ResidentsUpdate(s.shards, |s.shards|, th.at.shard, s.shards[th.at.shard] - {th.at.key});
      case Insert => ResidentsUpdate(s.shards, |s.shards|, th.at.shard, s.shards[th.at.shard] + {th.at.key});
      case _ =>
    }
  }

  lemma KeyThread(s: State, t: nat, step: KeyStep, u: nat)
    requires |s.holders| == |s.shards| && KeyEnabled(s, t, step) && u < |s.threads| && ThreadOk(s, t) && ThreadOk(s, u)
    ensures ThreadOk(KeyApply(s, t, step), u)
  {
  }

  lemma CounterCounts(s: State, t: nat, step: CounterStep)
    requires Counted(s) && CounterEnabled(s, t, step) && ThreadOk(s, t) && s.keys <= s.maxKeys
    ensures Counted(CounterApply(s, t, step)) && CounterApply(s, t, step).keys <= s.maxKeys
    ensures CounterApply(s, t, step).failed == s.failed
  {
    OwedUpdate(s.threads, |s.threads|, t, CounterApply(s, t, step).threads[t]);
  }

  lemma CounterThread(s: State, t: nat, step: CounterStep, u: nat)
    requires Inv(s) && CounterEnabled(s, t, step) && u < |s.threads|
    ensures ThreadOk(CounterApply(s, t, step), u)
  {
    assert ThreadOk(s, t) && ThreadOk(s, u);
    OwedUpdate(s.threads, |s.threads|, t, Idle);
  }

  lemma CleanCounts(s: State, t: nat, step: CleanStep)
    requires Counted(s) && CleanEnabled(s, t, step)
    ensures Counted(CleanApply(s, t, step))
  {
    var th, s' := s.threads[t], CleanApply(s, t, step);
    OwedUpdate(s.threads, |s.threads|, t, s'.threads[t]);
    if step.Sweep? {
      ResidentsUpdate(s.shards, |s.shards|, th.next, s.shards[th.next] - step.expired);
      WithoutSubset(s.shards[th.next], step.expired);
    }
  }

  lemma CleanThread(s: State, t: nat, step: CleanStep, u: nat)
    requires |s.holders| == |s.shards| && CleanEnabled(s, t, step) && u < |s.threads| && ThreadOk(s, t)
    requires ThreadOk(s, u)
    ensures ThreadOk(CleanApply(s, t, step), u)
  {
  }

  lemma NextInv(s: State, s': State)
    requires Inv(s) && Next(s, s')
    ensures Inv(s')
  {
    if KeyNext(s, s') {
      var t, step :| KeyEnabled(s, t, step) && s' == KeyApply(s, t, step);
      KeyCounts(s, t, step);
      forall u | 0 <= u < |s'.threads| ensures ThreadOk(s', u) {
        KeyThread(s, t, step, u);
      }
    } else if CounterNext(s, s') {
      var t, step :| CounterEnabled(s, t, step) && s' == CounterApply(s, t, step);
      CounterCounts(s, t, step);
      forall u | 0 <= u < |s'.threads| ensures ThreadOk(s', u) {
        CounterThread(s, t, step, u);
      }
    } else {
      var t, step :| CleanEnabled(s, t, step) && s' == CleanApply(s, t, step);
      CleanCounts(s, t, step);
      forall u | 0 <= u < |s'.threads| ensures ThreadOk(s', u) {
        CleanThread(s, t, step, u);
      }
    }
  }

  lemma {:induction false} RunInv(run: seq<State>, k: nat)
    requires IsRun(run) && k < |run|
    ensures Inv(run[k])
  {
    if k == 0 {
      InitialInv(run[0]);
    } else {
      RunInv(run, k - 1);
      assert NextAt(run, k - 1);
      NextInv(run[k - 1], run[k]);
    }
  }

  // ---------- What it means ----------

  /** However shards and cleanups interleave, the counter is exact: residents, reservations
      not yet inserted and deletions not yet returned add up to it. So residents never exceed
      the limit, and the underflow that stops the server cannot happen. */
  lemma KeysExact(run: seq<State>, k: nat)
    requires IsRun(run) && k < |run|
    ensures var s := run[k];
      && s.keys == Residents(s.shards, |s.shards|) + TotalOwed(s.threads, |s.threads|)
      && Residents(s.shards, |s.shards|) <= s.keys <= s.maxKeys
      && !s.failed && forall t: nat :: !CounterEnabled(s, t, Underflow)
  {
    RunInv(run, k);
    forall t: nat ensures !CounterEnabled(run[k], t, Underflow) {
      assert t < |run[k].threads| ==> ThreadOk(run[k], t);
    }
  }

  /** An insertion never overwrites an entry: the shard's mutex keeps the key vacant from the
      moment that was seen. */
  lemma NeverOverwrites(run: seq<State>, k: nat, t: nat)
    requires IsRun(run) && k < |run| && KeyEnabled(run[k], t, Insert)
    ensures var at := run[k].threads[t].at; at.key !in run[k].shards[at.shard]
  {
    RunInv(run, k);
    assert ThreadOk(run[k], t);
  }

  /** A thread that works on a key is never stuck: only a mutex makes it wait. */
  lemma ThreadProceeds(run: seq<State>, k: nat, t: nat)
    requires IsRun(run) && k < |run| && t < |run[k].threads|
    ensures var s := run[k]; var th := s.threads[t];
      && (th.Looking? && th.at.OnShard? ==> KeyEnabled(s, t, Delete) || KeyEnabled(s, t, FindVacant))
      && (th.Vacant? ==> KeyEnabled(s, t, LeaveVacant) && KeyEnabled(s, t, StartReserve))
      && (th.Returning? ==> CounterEnabled(s, t, LoadForReturn))
      && (th.ReturnLoaded? ==> CounterEnabled(s, t, SwapForReturn))
      && (th.Reserving? ==> CounterEnabled(s, t, LoadForReserve))
      && (th.ReserveLoaded? ==> CounterEnabled(s, t, SwapForReserve) || CounterEnabled(s, t, Refuse))
      && (th.Reserved? ==> KeyEnabled(s, t, Insert))
  {
    RunInv(run, k);
    assert ThreadOk(run[k], t);
  }

  // ---------- What a thread achieves ----------

  ghost predicate IsPath(path: seq<State>) {
    path != [] && forall i: nat :: i + 1 < |path| ==> NextAt(path, i)
  }

  lemma JoinPaths(p: seq<State>, q: seq<State>)
    requires IsPath(p) && IsPath(q) && p[|p| - 1] == q[0]
    ensures IsPath(p + q[1..])
    ensures (p + q[1..])[0] == p[0] && (p + q[1..])[|p + q[1..]| - 1] == q[|q| - 1]
  {
    var r := p + q[1..];
    forall i: nat | i + 1 < |r| ensures NextAt(r, i) {
      if i < |p| - 1 {
        assert NextAt(p, i);
      } else {
        assert NextAt(q, i - (|p| - 1));
      }
    }
  }

  /** Thread `t` may lock shard `i`. */
  ghost predicate MayLock(s: State, t: nat, i: nat) {
    && Inv(s) && t < |s.threads| && s.threads[t] == Idle
    && i < |s.shards| && i < |s.holders| && s.holders[i] == None
  }

  /** Thread `t` has locked shard `i` and stands at `th`. */
  function Working(s: State, t: nat, i: nat, th: Thread): State
    requires t < |s.threads| && i < |s.holders|
  {
    s.(threads := s.threads[t := th], holders := s.holders[i := Some(t)])
  }

  lemma LeavePath(s: State, t: nat, i: nat, key: Key) returns (path: seq<State>)
    requires MayLock(s, t, i)
    ensures IsPath(path) && path[0] == s && path[|path| - 1] == s
  {
    var at := OnShard(i, key);
    var s1 := KeyApply(s, t, Lock(i, key));
    assert KeyNext(s, s1) && s1 == Working(s, t, i, Looking(at));
    if key in s.shards[i] {
      path := [s, s1, KeyApply(s1, t, Leave)];
      assert KeyNext(s1, path[2]);
      Restored(s, t, i, Looking(at));
    } else {
      var s2 := KeyApply(s1, t, FindVacant);
      path := [s, s1, s2, KeyApply(s2, t, LeaveVacant)];
      assert KeyNext(s1, s2) && KeyNext(s2, path[3]);
      Restored(s, t, i, Vacant(at));
    }
  }

  lemma Restored(s: State, t: nat, i: nat, th: Thread)
    requires MayLock(s, t, i)
    ensures Unlocked(Working(s, t, i, th), t, i) == s
  {
    assert s.threads[t := th][t := Idle] == s.threads;
    assert s.holders[i := Some(t)][i := None] == s.holders;
  }

  /** A thread that finds a key deletes it, returns it to the counter and then knows it vacant. */
  lemma DeletePath(s: State, t: nat, i: nat, key: Key) returns (path: seq<State>)
    requires MayLock(s, t, i) && key in s.shards[i]
    ensures s.keys >= 1 && IsPath(path) && path[0] == s
    ensures path[|path| - 1] == Working(s, t, i, Vacant(OnShard(i, key)))
                                .(keys := s.keys - 1, shards := s.shards[i := s.shards[i] - {key}])
  {
    var s1 := KeyApply(s, t, Lock(i, key));
    var s2 := KeyApply(s1, t, Delete);
    assert KeyNext(s, s1) && KeyNext(s1, s2);
    NextInv(s, s1);
    NextInv(s1, s2);
    var s3 := CounterApply(s2, t, LoadForReturn);
    assert CounterNext(s2, s3);
    NextInv(s2, s3);
    assert ThreadOk(s3, t);
    var s4 := CounterApply(s3, t, SwapForReturn);
    assert CounterNext(s3, s4);
    path := [s, s1, s2, s3, s4];
  }

  /** A thread that knows its key vacant reserves a key if there is one, and stores it. */
  lemma InsertPath(s: State, t: nat, i: nat, key: Key) returns (path: seq<State>)
    requires t < |s.threads| && i < |s.holders| && i < |s.shards| && s.threads[t] == Vacant(OnShard(i, key))
    ensures IsPath(path) && path[0] == s
    ensures path[|path| - 1] ==
      if s.keys < s.maxKeys
      then Unlocked(s, t, i).(keys := s.keys + 1, shards := s.shards[i := s.shards[i] + {key}])
      else Unlocked(s, t, i)
  {
    var s1 := KeyApply(s, t, StartReserve);
    var s2 := CounterApply(s1, t, LoadForReserve);
    assert KeyNext(s, s1) && CounterNext(s1, s2);
    if s.keys < s.maxKeys {
      var s3 := CounterApply(s2, t, SwapForReserve);
      path := [s, s1, s2, s3, KeyApply(s3, t, Insert)];
      assert CounterNext(s2, s3) && KeyNext(s3, path[4]);
    } else {
      path := [s, s1, s2, CounterApply(s2, t, Refuse)];
      assert CounterNext(s2, path[3]);
    }
  }

  /** A new key is stored and counted when the limit allows it, and otherwise nothing changes. */
  lemma StorePath(s: State, t: nat, i: nat, key: Key) returns (path: seq<State>)
    requires MayLock(s, t, i) && key !in s.shards[i]
    ensures IsPath(path) && path[0] == s
    ensures path[|path| - 1] ==
      if s.keys < s.maxKeys then s.(keys := s.keys + 1, shards := s.shards[i := s.shards[i] + {key}]) else s
  {
    var s1 := KeyApply(s, t, Lock(i, key));
    var s2 := KeyApply(s1, t, FindVacant);
    assert KeyNext(s, s1) && KeyNext(s1, s2) && s2 == Working(s, t, i, Vacant(OnShard(i, key)));
    Restored(s, t, i, Vacant(OnShard(i, key)));
    var rest := InsertPath(s2, t, i, key);
    JoinPaths([s, s1, s2], rest);
    path := [s, s1, s2] + rest[1..];
  }

  /** A key is removed and its count returned. */
  lemma RemovePath(s: State, t: nat, i: nat, key: Key) returns (path: seq<State>)
    requires MayLock(s, t, i) && key in s.shards[i]
    ensures s.keys >= 1 && IsPath(path) && path[0] == s
    ensures path[|path| - 1] == s.(keys := s.keys - 1, shards := s.shards[i := s.shards[i] - {key}])
  {
    path := DeletePath(s, t, i, key);
    var vacant := path[|path| - 1];
    var end := KeyApply(vacant, t, LeaveVacant);
    assert KeyNext(vacant, end);
    Restored(s, t, i, Vacant(OnShard(i, key)));
    JoinPaths(path, [vacant, end]);
    path := path + [vacant, end][1..];
  }

  /** An expired key that is replaced costs nothing: its own count is the one it gets back. */
  lemma ReplacePath(s: State, t: nat, i: nat, key: Key) returns (path: seq<State>)
    requires MayLock(s, t, i) && key in s.shards[i]
    ensures IsPath(path) && path[0] == s && path[|path| - 1] == s
  {
    path := DeletePath(s, t, i, key);
    var vacant := path[|path| - 1];
    var rest := InsertPath(vacant, t, i, key);
    Restored(s, t, i, Vacant(OnShard(i, key)));
    assert s.shards[i] - {key} + {key} == s.shards[i];
    assert s.shards[i := s.shards[i] - {key}][i := s.shards[i]] == s.shards;
    JoinPaths(path, rest);
    path := path + rest[1..];
  }

  // ---------- What a cleanup achieves ----------

  /** The keys to be removed from the first `n` shards. */
  function Swept(expired: seq<set<Key>>, n: nat): nat
    requires n <= |expired|
  {
    if n == 0 then 0 else Swept(expired, n - 1) + |expired[n - 1]|
  }

  /** The shards from `next` on without their expired keys. */
  function Cleaned(shards: seq<set<Key>>, expired: seq<set<Key>>, next: nat): seq<set<Key>>
    requires |shards| == |expired|
  {
    seq(|shards|, i requires 0 <= i < |shards| => if i < next then shards[i] else shards[i] - expired[i])
  }

  lemma {:induction false} SweepPath(s: State, t: nat, expired: seq<set<Key>>, next: nat) returns (path: seq<State>)
    requires t < |s.threads| && |expired| == |s.shards| == |s.holders| && next <= |s.shards|
    requires s.threads[t] == Cleaning(next, Swept(expired, next))
    requires forall i :: next <= i < |s.shards| ==> s.holders[i] == None && expired[i] <= s.shards[i]
    ensures IsPath(path) && path[0] == s
    ensures path[|path| - 1] == With(s, t, Cleaning(|s.shards|, Swept(expired, |s.shards|)))
                                .(shards := Cleaned(s.shards, expired, next))
    decreases |s.shards| - next
  {
    if next == |s.shards| {
      path := [s];
      assert Cleaned(s.shards, expired, next) == s.shards;
    } else {
      path := SweepOne(s, t, expired, next);
      var s2 := path[|path| - 1];
      var rest := SweepPath(s2, t, expired, next + 1);
      JoinPaths(path, rest);
      path := path + rest[1..];
      assert Cleaned(s2.shards, expired, next + 1) == Cleaned(s.shards, expired, next);
    }
  }

  lemma SweepOne(s: State, t: nat, expired: seq<set<Key>>, next: nat) returns (path: seq<State>)
    requires t < |s.threads| && |expired| == |s.shards| == |s.holders| && next < |s.shards|
    requires s.threads[t] == Cleaning(next, Swept(expired, next))
    requires s.holders[next] == None && expired[next] <= s.shards[next]
    ensures IsPath(path) && path[0] == s
    ensures path[|path| - 1] == With(s, t, Cleaning(next + 1, Swept(expired, next + 1)))
                                .(shards := s.shards[next := s.shards[next] - expired[next]])
  {
    var s1 := CleanApply(s, t, LockShard);
    var s2 := CleanApply(s1, t, Sweep(expired[next]));
    assert CleanNext(s, s1) && CleanNext(s1, s2);
    assert s2.holders == s.holders;
    path := [s, s1, s2];
  }

  /** A cleanup that finds every mutex free removes exactly the expired keys of every shard and
      returns them all to the counter. */
  lemma CleanupPath(s: State, t: nat, expired: seq<set<Key>>) returns (path: seq<State>)
    requires Inv(s) && t < |s.threads| && s.threads[t] == Idle && |expired| == |s.shards|
    requires forall i :: 0 <= i < |s.shards| ==> s.holders[i] == None && expired[i] <= s.shards[i]
    ensures Swept(expired, |s.shards|) <= s.keys && IsPath(path) && path[0] == s
    ensures path[|path| - 1] ==
      s.(keys := s.keys - Swept(expired, |s.shards|), shards := Cleaned(s.shards, expired, 0))
  {
    var start := CleanApply(s, t, StartCleanup);
    assert CleanNext(s, start);
    var sweep := SweepPath(start, t, expired, 0);
    JoinPaths([s, start], sweep);
    var before := [s, start] + sweep[1..];
    var swept := before[|before| - 1];
    PathInv(before, |before| - 1);
    var ended := CleanApply(swept, t, EndCleanup);
    assert CleanNext(swept, ended);
    NextInv(swept, ended);
    var rest := ReturnPath(ended, t, Swept(expired, |s.shards|));
    JoinPaths([swept, ended], rest);
    JoinPaths(before, [swept, ended] + rest[1..]);
    path := before + ([swept, ended] + rest[1..])[1..];
    assert path[|path| - 1].threads == s.threads;
  }

  lemma ReturnPath(s: State, t: nat, count: nat) returns (path: seq<State>)
    requires Inv(s) && t < |s.threads| && s.threads[t] == (if count == 0 then Idle else Returning(NoShard, count))
    ensures count <= s.keys && IsPath(path) && path[0] == s
    ensures path[|path| - 1] == With(s, t, Idle).(keys := s.keys - count)
  {
    if count == 0 {
      path := [s];
      assert s.threads[t := Idle] == s.threads;
    } else {
      var s1 := CounterApply(s, t, LoadForReturn);
      assert CounterNext(s, s1);
      NextInv(s, s1);
      assert ThreadOk(s1, t);
      var s2 := CounterApply(s1, t, SwapForReturn);
      assert CounterNext(s1, s2);
      path := [s, s1, s2];
    }
  }

  lemma {:induction false} PathInv(path: seq<State>, k: nat)
    requires IsPath(path) && Inv(path[0]) && k < |path|
    ensures Inv(path[k])
  {
    if k > 0 {
      PathInv(path, k - 1);
      assert NextAt(path, k - 1);
      NextInv(path[k - 1], path[k]);
    }
  }
}
