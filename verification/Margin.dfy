/** The safety margin is exact: clocks that err by a total of more than the margin admit a
    run in which two leases on one key are valid at once, whatever the number of servers, the
    size of the majority and the TTL. */
module Margin {
  import opened Types
  import opened Quorum
  import opened Protocol
  import opened Exclusion
  import opened Paths

  /** The instant at which both clocks below step. */
  const TURN: int := 6_000 * MS

  /** Loses `lag` right after the turn. */
  function SlowClock(lag: int, t: int): int {
    if t <= TURN then t else Max(TURN, t - lag)
  }

  /** Gains `lead` right after the turn. */
  function FastClock(lead: int, t: int): int {
    if t <= TURN then t else t + lead
  }

  /** Servers with fast clocks; the client with number 1 has a slow one. */
  function BadClocks(n: nat, q: nat, ttlMS: nat, lag: int, lead: int): Config {
    Config(n, q, (v, i) => ttlMS,
           (c, b, t) => if c == 1 then SlowClock(lag, t) else t,
           (v, i, t) => FastClock(lead, t))
  }

  lemma SlowClockErr(lag: int, t: int, u: int)
    requires 0 <= lag && t <= u
    ensures 0 <= u - t - lag ==> SlowClock(lag, u) - SlowClock(lag, t) >= u - t - lag
    ensures SlowClock(lag, t) <= SlowClock(lag, u)
  {
  }

  lemma BadClientClocks(n: nat, q: nat, ttlMS: nat, lag: int, lead: int, c: nat, b: nat, t: int, u: int)
    requires 0 <= lag && t <= u
    ensures var clock := BadClocks(n, q, ttlMS, lag, lead).clientClock;
      clock(c, b, t) <= clock(c, b, u) && clock(c, b, u) - clock(c, b, t) >= u - t - lag
  {
    SlowClockErr(lag, t, u);
  }

  lemma BadServerClocks(n: nat, q: nat, ttlMS: nat, lag: int, lead: int, v: nat, i: nat, t: int, u: int)
    requires 0 <= lead && t <= u
    ensures var clock := BadClocks(n, q, ttlMS, lag, lead).serverClock;
      clock(v, i, t) <= clock(v, i, u) && clock(v, i, u) - clock(v, i, t) <= u - t + lead
  {
  }

  lemma BadClocksErr(n: nat, q: nat, ttlMS: nat, lag: int, lead: int)
    requires 0 <= lag && 0 <= lead && IsMajority(n, q) && 1 <= ttlMS <= PROTOCOL_MAX_TTL_MS
    ensures ValidConfig(BadClocks(n, q, ttlMS, lag, lead)) && ClockError(BadClocks(n, q, ttlMS, lag, lead), lag, lead)
  {
    var cfg := BadClocks(n, q, ttlMS, lag, lead);
    forall c, b, t, u | t <= u
      ensures cfg.clientClock(c, b, t) <= cfg.clientClock(c, b, u)
      ensures cfg.clientClock(c, b, u) - cfg.clientClock(c, b, t) >= u - t - lag
    {
      BadClientClocks(n, q, ttlMS, lag, lead, c, b, t, u);
    }
    forall v, i, t, u | t <= u
      ensures cfg.serverClock(v, i, t) <= cfg.serverClock(v, i, u)
      ensures cfg.serverClock(v, i, u) - cfg.serverClock(v, i, t) <= u - t + lead
    {
      BadServerClocks(n, q, ttlMS, lag, lead, v, i, t, u);
    }
  }

  // ---------- The run ----------

  /** An instance that started at zero and has just left quarantine. */
  function Activated(now: int): Instance {
    Fresh(0).(phase := Active, activatedAt := Some(now))
  }

  /** All servers of a quorum leave quarantine, one after the other. */
  lemma {:induction false} ActivatePath(cfg: Config, s: State, v: nat) returns (path: seq<State>)
    requires v <= cfg.q <= cfg.n == |s.servers|
    requires forall u: nat :: u < cfg.n ==>
      s.servers[u] == [if u < v then Activated(s.now) else Fresh(0)]
    requires forall u: nat :: cfg.serverClock(u, 0, s.now) - cfg.serverClock(u, 0, 0) >= QUARANTINE
    ensures IsPath(cfg, path) && path[0] == s
    ensures var e := path[|path| - 1];
      && e.now == s.now && e.leases == s.leases && e.ops == s.ops && |e.servers| == cfg.n
      && forall u: nat :: u < cfg.q ==> e.servers[u] == [Activated(s.now)]
    decreases cfg.q - v
  {
    path := [s];
    if v < cfg.q {
      var next := ServerStep(cfg, s, Activate(v));
      var inst := Activated(s.now);
      assert s.servers[v][0 := inst] == [inst];
      OneStep(cfg, s, Activate(v), next);
      var rest := ActivatePath(cfg, next, v + 1);
      JoinPaths(cfg, [s, next], rest);
      path := [s, next] + rest[1..];
    }
  }

  /** When a lease has been stored at the turn, the fast servers give its key away this early. */
  function Later(ttlMS: nat, lead: int): int {
    TURN + Max(1, ttlMS * MS - lead)
  }

  lemma GivenAway(n: nat, q: nat, ttlMS: nat, lag: int, lead: int, s: State, order: seq<nat>, f: Fan, g: Fan)
    requires 1 <= ttlMS && 0 <= lead && s.now == TURN && f.key == g.key && f.ttlMS == g.ttlMS == ttlMS
    requires g.kind == Acquire
    requires forall i :: 0 <= i < |order| ==> Stored(BadClocks(n, q, ttlMS, lag, lead), s, order[i], f)
    ensures AllWilling(BadClocks(n, q, ttlMS, lag, lead), s.(now := Later(ttlMS, lead)), order, g)
  {
    var cfg := BadClocks(n, q, ttlMS, lag, lead);
    forall i | 0 <= i < |order| ensures Willing(cfg, s.(now := Later(ttlMS, lead)), order[i], g) {
      assert Stored(cfg, s, order[i], f);
    }
  }

  /** With bad clocks, a quorum of servers gives the key away while the first client still
      counts on its lease. */
  lemma Overlap(n: nat, q: nat, ttlMS: nat, lag: int, lead: int) returns (run: seq<State>)
    requires IsMajority(n, q) && 0 <= lag && 0 <= lead && lag + lead > MARGIN
    requires SAFETY_MARGIN_MS < ttlMS <= PROTOCOL_MAX_TTL_MS
    ensures IsRun(BadClocks(n, q, ttlMS, lag, lead), run)
    ensures !Exclusive(BadClocks(n, q, ttlMS, lag, lead), run[|run| - 1])
  {
    var cfg := BadClocks(n, q, ttlMS, lag, lead);
    var a, b := LeaseID(1, 0, 0), LeaseID(2, 0, 0);
    var s0 := State(0, seq(n, _ => [Fresh(0)]), map[], map[], {}, {});
    var s1 := ClientStep(cfg, s0, Tick(TURN));
    OneStep(cfg, s0, Tick(TURN), s1);
    var active := ActivatePath(cfg, s1, 0);
    var s2 := active[|active| - 1];
    var order := seq(q, i => i);
    var first := AcquirePath(cfg, s2, a, 0, ttlMS, 0, order);
    var s3 := first[|first| - 1];
    var later := Later(ttlMS, lead);
    var s4 := ClientStep(cfg, s3, Tick(later));
    OneStep(cfg, s3, Tick(later), s4);
    GivenAway(n, q, ttlMS, lag, lead, s3, order, Fan(0, Acquire, a, 0, ttlMS), Fan(1, Acquire, b, 0, ttlMS));
    var second := AcquirePath(cfg, s4, b, 0, ttlMS, 1, order);
    run := JoinAll(cfg, [s0, s1], active, first, [s3, s4], second);
    var e := run[|run| - 1];
    assert LocallyValid(cfg, e, a) && LocallyValid(cfg, e, b) && a != b;
    PathIsRun(cfg, run);
  }

  lemma JoinAll(cfg: Config, p: seq<State>, q: seq<State>, r: seq<State>, t: seq<State>, u: seq<State>)
    returns (path: seq<State>)
    requires IsPath(cfg, p) && IsPath(cfg, q) && IsPath(cfg, r) && IsPath(cfg, t) && IsPath(cfg, u)
    requires p[|p| - 1] == q[0] && q[|q| - 1] == r[0] && r[|r| - 1] == t[0] && t[|t| - 1] == u[0]
    ensures IsPath(cfg, path) && path[0] == p[0] && path[|path| - 1] == u[|u| - 1]
  {
    JoinPaths(cfg, p, q);
    path := p + q[1..];
    JoinPaths(cfg, path, r);
    path := path + r[1..];
    JoinPaths(cfg, path, t);
    path := path + t[1..];
    JoinPaths(cfg, path, u);
    path := path + u[1..];
  }

  lemma PathIsRun(cfg: Config, path: seq<State>)
    requires IsPath(cfg, path) && Initial(cfg, path[0])
    ensures IsRun(cfg, path)
  {
    forall i: nat | i + 1 < |path| ensures NextAt(cfg, path, i) {
      assert Next(cfg, path[i], path[i + 1]);
    }
  }

  /** A deployment of this size, whose servers grant this TTL at most and whose clocks err by no
      more than this. */
  ghost predicate Deployed(cfg: Config, n: nat, q: nat, ttlMS: nat, lag: int, lead: int) {
    && cfg.n == n && cfg.q == q && (forall v, i :: cfg.maxTTL(v, i) == ttlMS)
    && ValidConfig(cfg) && ClockError(cfg, lag, lead)
  }

  /** Every state of every run of every such deployment is exclusive. */
  ghost predicate AlwaysExclusive(n: nat, q: nat, ttlMS: nat, lag: int, lead: int) {
    forall cfg, run, k ::
      Deployed(cfg, n, q, ttlMS, lag, lead) && IsRun(cfg, run) && 0 <= k < |run| ==> Exclusive(cfg, run[k])
  }

  /** The margin is necessary and sufficient, for every number of servers, every majority and
      every TTL a client can use: exclusion holds in every run exactly when the worst client
      lag and the worst server lead together stay within the margin. */
  lemma MarginExact(n: nat, q: nat, ttlMS: nat, lag: int, lead: int)
    requires IsMajority(n, q) && 0 <= lag && 0 <= lead && SAFETY_MARGIN_MS < ttlMS <= PROTOCOL_MAX_TTL_MS
    ensures AlwaysExclusive(n, q, ttlMS, lag, lead) <==> lag + lead <= MARGIN
  {
    if lag + lead <= MARGIN {
      forall cfg, run, k | Deployed(cfg, n, q, ttlMS, lag, lead) && IsRun(cfg, run) && 0 <= k < |run|
        ensures Exclusive(cfg, run[k])
      {
        MutualExclusion(cfg, lag, lead, run, k);
      }
    } else {
      var run := Overlap(n, q, ttlMS, lag, lead);
      BadClocksErr(n, q, ttlMS, lag, lead);
      assert !Exclusive(BadClocks(n, q, ttlMS, lag, lead), run[|run| - 1]);
    }
  }
}
