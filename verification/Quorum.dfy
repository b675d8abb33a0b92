/** Client-side quorum arithmetic: the supported majorities, the validity a reply is worth,
    and the choice of the best quorum among the replies received so far. */
module Quorum {
  import opened Types

  datatype Parameters = Parameters(serverCount: nat, quorumSize: nat)

  /** The three supported configurations; any other selector is invalid. */
  function QuorumParameters(selector: nat): (p: Option<Parameters>)
    ensures p.Some? <==> 1 <= selector <= 3
    ensures p.Some? ==> p.value.quorumSize == selector && p.value.serverCount == 2 * selector - 1
    ensures p.Some? ==> IsMajority(p.value.serverCount, p.value.quorumSize)
  {
    match selector
    case 1 => Some(Parameters(1, 1))
    case 2 => Some(Parameters(3, 2))
    case 3 => Some(Parameters(5, 3))
    case _ => None
  }

  predicate IsMajority(serverCount: nat, quorumSize: nat) {
    1 <= quorumSize <= serverCount < 2 * quorumSize
  }

  /** The indices of `n` servers. */
  function Servers(n: nat): (all: set<nat>)
    ensures |all| == n
    ensures forall i: nat :: i in all <==> i < n
  {
    if n == 0 then {} else Servers(n - 1) + {n - 1}
  }

  /** Any two quorums of a majority configuration share a server. */
  lemma QuorumsIntersect(n: nat, q: nat, a: set<nat>, b: set<nat>) returns (common: nat)
    requires IsMajority(n, q)
    requires a <= Servers(n) && b <= Servers(n) && |a| >= q && |b| >= q
    ensures common in a && common in b
  {
    if a * b == {} {
      SubsetSize(a + b, Servers(n));
      assert false;
    }
    common :| common in a * b;
  }

  /** The local instant up to which a reply granting `ttlMS` may be relied on. */
  function CandidateValidUntil(operationStart: int, ttlMS: nat): (v: int)
    ensures operationStart <= v <= operationStart + (PROTOCOL_MAX_TTL_MS - SAFETY_MARGIN_MS) * MS
    ensures SAFETY_MARGIN_MS < ttlMS <= PROTOCOL_MAX_TTL_MS ==>
      v + SAFETY_MARGIN_MS * MS == operationStart + ttlMS * MS
    ensures operationStart < v <==> SAFETY_MARGIN_MS < ttlMS <= PROTOCOL_MAX_TTL_MS
  {
    if ttlMS <= SAFETY_MARGIN_MS || ttlMS > PROTOCOL_MAX_TTL_MS then operationStart
    else operationStart + (ttlMS - SAFETY_MARGIN_MS) * MS
  }

  predicate IsSuccessfulAcquire(status: Status) {
    status == OK || status == AlreadyOwned
  }

  // ---------- The best quorum ----------

  /** A set of `quorumSize` replicas that all answered successfully. */
  ghost predicate IsQuorum(successful: seq<bool>, quorumSize: nat, members: set<nat>) {
    |members| == quorumSize && forall i :: i in members ==> i < |successful| && successful[i]
  }

  /** `v` is the earliest candidate among `members`. */
  ghost predicate IsValidity(candidates: seq<int>, members: set<nat>, v: int)
    requires forall i :: i in members ==> i < |candidates|
  {
    && (forall i :: i in members ==> v <= candidates[i])
    && (exists i :: i in members && candidates[i] == v)
  }

  /** The greatest validity any quorum reaches, where a quorum is valid as long as all its
      members are; there is none exactly when no quorum answered. */
  ghost predicate IsBestQuorum(candidates: seq<int>, successful: seq<bool>, quorumSize: nat, best: Option<int>)
    requires |candidates| == |successful|
  {
    match best
    case None => forall members :: !IsQuorum(successful, quorumSize, members)
    case Some(v) =>
      && (exists members :: IsQuorum(successful, quorumSize, members) && IsValidity(candidates, members, v))
      && (forall members, w ::
            IsQuorum(successful, quorumSize, members) && IsValidity(candidates, members, w) ==> w <= v)
  }

  /** The replicas that answered with a candidate no earlier than `v`. */
  function Reaching(candidates: seq<int>, successful: seq<bool>, v: int): (r: set<nat>)
    requires |candidates| == |successful|
  {
    set i: nat | i < |candidates| && successful[i] && v <= candidates[i]
  }

  function CountAtLeast(s: seq<int>, v: int): (c: nat)
  {
    if s == [] then 0 else (if v <= s[0] then 1 else 0) + CountAtLeast(s[1..], v)
  }

  ghost predicate Sorted(s: seq<int>) {
    forall i, j :: 0 <= i < j < |s| ==> s[i] <= s[j]
  }

  function Insert(x: int, s: seq<int>): seq<int> {
    if s == [] || x <= s[0] then [x] + s else [s[0]] + Insert(x, s[1..])
  }

  /** The values in ascending order. */
  function Sort(s: seq<int>): seq<int> {
    if s == [] then [] else Insert(s[0], Sort(s[1..]))
  }

  lemma {:induction false} InsertSorted(x: int, s: seq<int>)
    requires Sorted(s)
    ensures Sorted(Insert(x, s)) && |Insert(x, s)| == |s| + 1
    ensures Insert(x, s)[0] == if s == [] || x <= s[0] then x else s[0]
  {
    if s != [] && x > s[0] {
      InsertSorted(x, s[1..]);
      var rest := Insert(x, s[1..]);
      forall i, j | 0 <= i < j < |s| + 1 ensures Insert(x, s)[i] <= Insert(x, s)[j] {
        assert Insert(x, s)[j] == rest[j - 1] && rest[0] <= rest[j - 1];
        assert i > 0 ==> Insert(x, s)[i] == rest[i - 1];
      }
    }
  }

  lemma {:induction false} InsertCount(x: int, s: seq<int>, v: int)
    ensures CountAtLeast(Insert(x, s), v) == CountAtLeast(s, v) + (if v <= x then 1 else 0)
  {
    if s == [] || x <= s[0] {
      assert ([x] + s)[1..] == s;
    } else {
      InsertCount(x, s[1..], v);
      assert ([s[0]] + Insert(x, s[1..]))[1..] == Insert(x, s[1..]);
    }
  }

  /** Sorting keeps, for every threshold, the number of values that reach it. */
  lemma {:induction false} SortIsRight(s: seq<int>, v: int)
    ensures Sorted(Sort(s)) && |Sort(s)| == |s| && CountAtLeast(Sort(s), v) == CountAtLeast(s, v)
  {
    if s != [] {
      SortIsRight(s[1..], v);
      InsertSorted(s[0], Sort(s[1..]));
      InsertCount(s[0], Sort(s[1..]), v);
    }
  }

  lemma {:induction false} CountInSorted(s: seq<int>, k: nat)
    requires Sorted(s) && k < |s|
    ensures CountAtLeast(s, s[k]) >= |s| - k
    ensures CountAtLeast(s, s[k] + 1) < |s| - k
  {
    CountWithin(s, s[k] + 1, k + 1, false);
    CountWithin(s, s[k], k, true);
  }

  /** Bounds the count from a position that separates the small values from the large. */
  lemma {:induction false} CountWithin(s: seq<int>, v: int, k: nat, above: bool)
    requires k <= |s|
    requires above ==> forall i :: k <= i < |s| ==> v <= s[i]
    requires !above ==> forall i :: 0 <= i < k ==> s[i] < v
    ensures above ==> CountAtLeast(s, v) >= |s| - k
    ensures !above ==> CountAtLeast(s, v) <= |s| - k
  {
    if s != [] {
      CountWithin(s[1..], v, if k == 0 then 0 else k - 1, above);
    }
  }

  lemma {:induction false} CountAppend(s: seq<int>, x: int, v: int)
    ensures CountAtLeast(s + [x], v) == CountAtLeast(s, v) + (if v <= x then 1 else 0)
  {
    if s == [] {
      assert s + [x] == [x];
    } else {
      assert (s + [x])[1..] == s[1..] + [x];
      CountAppend(s[1..], x, v);
    }
  }

  lemma CountAllAppend(s: seq<int>, x: int)
    ensures forall v :: CountAtLeast(s + [x], v) == CountAtLeast(s, v) + (if v <= x then 1 else 0)
  {
    forall v ensures CountAtLeast(s + [x], v) == CountAtLeast(s, v) + (if v <= x then 1 else 0) {
      CountAppend(s, x, v);
    }
  }

  lemma ReachingAppend(candidates: seq<int>, successful: seq<bool>, r: nat, v: int)
    requires r < |candidates| == |successful|
    ensures var before := Reaching(candidates[..r], successful[..r], v);
            var after := Reaching(candidates[..r + 1], successful[..r + 1], v);
            |after| == |before| + (if successful[r] && v <= candidates[r] then 1 else 0)
  {
    var before := Reaching(candidates[..r], successful[..r], v);
    var after := Reaching(candidates[..r + 1], successful[..r + 1], v);
    assert candidates[..r + 1] == candidates[..r] + [candidates[r]]
      && successful[..r + 1] == successful[..r] + [successful[r]];
    if successful[r] && v <= candidates[r] {
      assert after == before + {r};
    } else {
      assert after == before;
    }
  }

  /** Cuts a large enough set down to exactly `q` members, keeping `x`. */
  lemma {:induction false} SubsetOfSize(s: set<nat>, q: nat, x: nat) returns (r: set<nat>)
    requires x in s && 1 <= q <= |s|
    ensures r <= s && |r| == q && x in r
    decreases |s|
  {
    if |s| == q {
      r := s;
    } else {
      assert s != {x};
      var y :| y in s && y != x;
      r := SubsetOfSize(s - {y}, q, x);
    }
  }

  /** A threshold that a quorum reaches, and that no quorum exceeds, is the best validity. */
  lemma BestFromCounts(candidates: seq<int>, successful: seq<bool>, quorumSize: nat, v: int)
    requires |candidates| == |successful| && 1 <= quorumSize
    requires |Reaching(candidates, successful, v)| >= quorumSize
    requires |Reaching(candidates, successful, v + 1)| < quorumSize
    ensures IsBestQuorum(candidates, successful, quorumSize, Some(v))
  {
    var reaching := Reaching(candidates, successful, v);
    var beyond := Reaching(candidates, successful, v + 1);
    if reaching <= beyond {
      SubsetSize(reaching, beyond);
      assert false;
    }
    var x :| x in reaching && x !in beyond;
    var members := SubsetOfSize(reaching, quorumSize, x);
    assert IsQuorum(successful, quorumSize, members) && IsValidity(candidates, members, v);
    forall other, w | IsQuorum(successful, quorumSize, other) && IsValidity(candidates, other, w)
      ensures w <= v
    {
      if v < w {
        assert other <= beyond;
        SubsetSize(other, beyond);
        assert false;
      }
    }
  }

  /** The replicas that answered successfully. */
  function Answered(successful: seq<bool>): (r: set<nat>) {
    set i: nat | i < |successful| && successful[i]
  }

  lemma AnsweredAppend(successful: seq<bool>, r: nat)
    requires r < |successful|
    ensures |Answered(successful[..r + 1])| == |Answered(successful[..r])| + (if successful[r] then 1 else 0)
  {
    assert successful[..r + 1] == successful[..r] + [successful[r]];
    if successful[r] {
      assert Answered(successful[..r + 1]) == Answered(successful[..r]) + {r};
    } else {
      assert Answered(successful[..r + 1]) == Answered(successful[..r]);
    }
  }

  /** Gathers the candidates of the successful replicas. */
  method Successes(candidates: seq<int>, successful: seq<bool>) returns (best: seq<int>)
    requires |candidates| == |successful|
    ensures |best| == |Answered(successful)|
    ensures forall v :: CountAtLeast(best, v) == |Reaching(candidates, successful, v)|
  {
    best := [];
    for replica := 0 to |successful|
      invariant |best| == |Answered(successful[..replica])|
      invariant forall v :: CountAtLeast(best, v) == |Reaching(candidates[..replica], successful[..replica], v)|
    {
      forall v {
        ReachingAppend(candidates, successful, replica, v);
      }
      AnsweredAppend(successful, replica);
      if successful[replica] {
        CountAllAppend(best, candidates[replica]);
        best := best + [candidates[replica]];
      }
    }
    assert candidates[..|candidates|] == candidates && successful[..|successful|] == successful;
  }

  lemma TooFew(candidates: seq<int>, successful: seq<bool>, quorumSize: nat)
    requires |candidates| == |successful| && |Answered(successful)| < quorumSize
    ensures IsBestQuorum(candidates, successful, quorumSize, None)
  {
    forall members ensures !IsQuorum(successful, quorumSize, members) {
      if IsQuorum(successful, quorumSize, members) {
        SubsetSize(members, Answered(successful));
        assert false;
      }
    }
  }

  /** Selects the greatest validity that some quorum of the successful replicas supports. */
  method BestAcquireQuorum(candidates: seq<int>, successful: seq<bool>, quorumSize: nat)
    returns (validUntil: Option<int>)
    requires |candidates| == |successful| && 1 <= quorumSize
    ensures IsBestQuorum(candidates, successful, quorumSize, validUntil)
    ensures validUntil.None? <==> |Answered(successful)| < quorumSize
  {
    var best := Successes(candidates, successful);
    if |best| < quorumSize {
      TooFew(candidates, successful, quorumSize);
      return None;
    }
    var ascending := Sort(best);
    SortIsRight(best, 0);
    var v := ascending[|best| - quorumSize];
    SortIsRight(best, v);
    SortIsRight(best, v + 1);
    CountInSorted(ascending, |best| - quorumSize);
    BestFromCounts(candidates, successful, quorumSize, v);
    return Some(v);
  }

  /** The best quorum is a function of the replies: two answers cannot both be best. */
  lemma BestQuorumUnique(candidates: seq<int>, successful: seq<bool>, quorumSize: nat, a: Option<int>, b: Option<int>)
    requires |candidates| == |successful|
    requires IsBestQuorum(candidates, successful, quorumSize, a)
    requires IsBestQuorum(candidates, successful, quorumSize, b)
    ensures a == b
  {
  }
}
