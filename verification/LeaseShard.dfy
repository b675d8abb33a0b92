/** The order of a binary min-heap laid out in a sequence, and what one exchange of a parent
    with a child does to it. */
module HeapOrder {

  /** The parent of a heap position; the root is its own parent. */
  function Parent(i: nat): (p: nat)
    ensures i > 0 ==> p < i && (i == 2 * p + 1 || i == 2 * p + 2)
    ensures i == 0 ==> p == 0
  {
    if i == 0 then 0 else (i - 1) / 2
  }

  predicate InOrder(t: seq<int>, c: nat)
    requires c < |t|
  {
    t[Parent(c)] <= t[c]
  }

  /** The first `n` positions are in heap order. */
  ghost predicate Ordered(t: seq<int>, n: nat)
    requires n <= |t|
  {
    forall c :: 0 <= c < n ==> InOrder(t, c)
  }

  /** Only `hole` may precede its parent, and its children do not precede that parent. */
  ghost predicate OrderedAbove(t: seq<int>, n: nat, hole: nat)
    requires hole < n <= |t|
  {
    && (forall c :: 0 <= c < n && c != hole ==> InOrder(t, c))
    && (forall c :: 0 < c < n && Parent(c) == hole ==> t[Parent(hole)] <= t[c])
  }

  /** Only children of `hole`, and `start`, may precede their parents; the children of `hole`
      do not precede its parent, and once the hole has moved `start` is in order. */
  ghost predicate OrderedBelow(t: seq<int>, n: nat, hole: nat, start: nat)
    requires start <= hole < n <= |t|
  {
    && (forall c :: 0 < c < n && c != start && Parent(c) != hole ==> InOrder(t, c))
    && (hole > 0 ==> forall c :: 0 < c < n && Parent(c) == hole ==> t[Parent(hole)] <= t[c])
    && (hole != start ==> InOrder(t, start))
  }

  function Exchange<T>(t: seq<T>, i: nat, j: nat): (r: seq<T>)
    requires i < |t| && j < |t|
    ensures |r| == |t|
  {
    t[i := t[j]][j := t[i]]
  }

  lemma UpStep(t: seq<int>, n: nat, j: nat)
    requires 0 < j < n <= |t| && OrderedAbove(t, n, j) && t[j] < t[Parent(j)]
    ensures OrderedAbove(Exchange(t, Parent(j), j), n, Parent(j))
  {
    var i := Parent(j);
    var r := Exchange(t, i, j);
    assert InOrder(t, i);
    forall c | 0 <= c < n && c != i ensures InOrder(r, c) {
      if c > 0 && c != j {
        assert InOrder(t, c);
      }
    }
    forall c | 0 < c < n && Parent(c) == i ensures r[Parent(i)] <= r[c] {
      if c != j {
        assert InOrder(t, c);
      }
    }
  }

  /** The child that is due first, if any. */
  function EarlierChild(t: seq<int>, n: nat, i: nat): (c: nat)
    requires i < n <= |t| && 2 * i + 1 < n
    ensures c < n && Parent(c) == i && i < c
    ensures forall d :: 0 < d < n && Parent(d) == i ==> t[c] <= t[d]
  {
    var left := 2 * i + 1;
    assert Parent(left) == i && Parent(left + 1) == i;
    if left + 1 < n && t[left + 1] < t[left] then left + 1 else left
  }

  lemma DownStep(t: seq<int>, n: nat, i: nat, start: nat)
    requires start <= i < n <= |t| && 2 * i + 1 < n && OrderedBelow(t, n, i, start)
    requires t[EarlierChild(t, n, i)] < t[i]
    ensures OrderedBelow(Exchange(t, i, EarlierChild(t, n, i)), n, EarlierChild(t, n, i), start)
  {
    var j := EarlierChild(t, n, i);
    var r := Exchange(t, i, j);
    forall c | 0 < c < n && c != start && Parent(c) != j ensures InOrder(r, c) {
      if Parent(c) != i && c != i {
        assert InOrder(t, c);
      }
    }
    forall c | 0 < c < n && Parent(c) == j ensures r[Parent(j)] <= r[c] {
      assert InOrder(t, c);
    }
  }

  lemma DownEnd(t: seq<int>, n: nat, i: nat, start: nat)
    requires start <= i < n <= |t| && OrderedBelow(t, n, i, start)
    requires 2 * i + 1 < n ==> t[i] <= t[EarlierChild(t, n, i)]
    ensures forall c :: 0 <= c < n && c != start ==> InOrder(t, c)
    ensures i != start ==> Ordered(t, n)
  {
    forall c | 0 <= c < n && c != start ensures InOrder(t, c) {
      if c > 0 && Parent(c) == i {
        assert 2 * i + 1 < n;
      }
    }
  }

  /** Replacing one value of an ordered heap leaves at most that position out of order. */
  lemma ReplaceAt(t: seq<int>, i: nat, n: nat, v: int)
    requires i < n <= |t| && Ordered(t, n)
    ensures OrderedBelow(t[i := v], n, i, i)
  {
    var r := t[i := v];
    forall c | 0 < c < n && c != i && Parent(c) != i ensures InOrder(r, c) {
      assert InOrder(t, c);
    }
    forall c | i > 0 && 0 < c < n && Parent(c) == i ensures r[Parent(i)] <= r[c] {
      assert InOrder(t, c) && InOrder(t, i);
    }
  }

  /** A position that did not have to move down may still have to move up. */
  lemma TurnUp(t: seq<int>, i: nat, n: nat)
    requires i < n <= |t| && OrderedBelow(t, n, i, i)
    requires forall c :: 0 <= c < n && c != i ==> InOrder(t, c)
    ensures OrderedAbove(t, n, i)
  {
    forall c | 0 < c < n && Parent(c) == i ensures t[Parent(i)] <= t[c] {
      assert InOrder(t, c);
    }
  }

  /** In an ordered heap nothing is due before the root. */
  lemma {:induction false} RootIsEarliest(t: seq<int>, i: nat)
    requires i < |t| && Ordered(t, |t|)
    ensures t[0] <= t[i]
  {
    if i > 0 {
      RootIsEarliest(t, Parent(i));
      assert InOrder(t, i);
    }
  }
}

/** One shard of the server's lease store: a map from keys to lease records, a min-heap of
    the same records ordered by deadline, in which every record knows its own position, and
    a pool of recycled records. The records are shared and updated in place. */
module LeaseShard {
  import opened Types
  import opened LeaseTable
  import opened HeapOrder

  class Lease {
    var key: Key
    var id: LeaseID
    var deadline: int
    var heapIndex: int

    constructor (key: Key, id: LeaseID, deadline: int)
      ensures this.key == key && this.id == id && this.deadline == deadline && heapIndex == -1
    {
      this.key, this.id, this.deadline, this.heapIndex := key, id, deadline, -1;
    }
  }

  class Shard {
    var leases: map<Key, Lease>
    var deadlines: seq<Lease>
    var pool: set<Lease>

    // ---------- Representation ----------

    ghost function Repr(): set<object>
      reads this
    {
      var records: set<object> := (set l | l in deadlines) + pool;
      {this as object} + records
    }

    ghost function Times(): (t: seq<int>)
      reads this, deadlines
      ensures |t| == |deadlines| && forall i :: 0 <= i < |t| ==> t[i] == deadlines[i].deadline
    {
      seq(|deadlines|, i requires 0 <= i < |deadlines| reads this, deadlines => deadlines[i].deadline)
    }

    /** No record is due before its parent. */
    ghost predicate HeapOrdered()
      reads this`deadlines, deadlines`deadline
    {
      forall c :: 0 <= c < |deadlines| ==> deadlines[Parent(c)].deadline <= deadlines[c].deadline
    }

    lemma HeapOrderedTimes()
      ensures HeapOrdered() <==> Ordered(Times(), |deadlines|)
    {
      var t := Times();
      assert forall c :: 0 <= c < |t| ==> (InOrder(t, c) <==> deadlines[Parent(c)].deadline <= deadlines[c].deadline);
    }

    /** Every record in the heap knows its own position; so all of them are different. */
    ghost predicate Indexed()
      reads this`deadlines, deadlines`heapIndex
    {
      forall i :: 0 <= i < |deadlines| ==> deadlines[i].heapIndex == i
    }

    /** The same records in another order, those from `n` on untouched. */
    ghost predicate Rearranged(before: seq<Lease>, n: nat)
      reads this`deadlines
    {
      && |deadlines| == |before| && n <= |before| && deadlines[n..] == before[n..]
      && (forall l :: l in deadlines ==> l in before) && (forall l :: l in before ==> l in deadlines)
    }

    // ---------- The heap ----------

    method Swap(i: nat, j: nat)
      requires Indexed() && i < |deadlines| && j < |deadlines|
      modifies this`deadlines, deadlines`heapIndex
      ensures deadlines == Exchange(old(deadlines), i, j)
      ensures Times() == Exchange(old(Times()), i, j)
      ensures Indexed() && Rearranged(old(deadlines), if i < j then j + 1 else i + 1)
    {
      var a, b := deadlines[i], deadlines[j];
      deadlines := deadlines[i := b][j := a];
      b.heapIndex := i;
      a.heapIndex := j;
      assert forall k :: 0 <= k < |deadlines| ==>
        old(deadlines)[k] == deadlines[if k == i then j else if k == j then i else k];
    }

    /** Exchanges the record at `j` with its parent, which is due after it. */
    method UpOne(j: nat, ghost n: nat) returns (parent: nat)
      requires Indexed() && j < n <= |deadlines| && OrderedAbove(Times(), n, j)
      requires j != Parent(j) && deadlines[j].deadline < deadlines[Parent(j)].deadline
      modifies this`deadlines, deadlines`heapIndex
      ensures Indexed() && Rearranged(old(deadlines), n) && parent == Parent(j) && OrderedAbove(Times(), n, parent)
    {
      UpStep(Times(), n, j);
      Swap(Parent(j), j);
      parent := Parent(j);
    }

    /** Moves the record at `start` towards the root until its parent is not due later. */
    method Up(start: nat, ghost n: nat)
      requires Indexed() && start < n <= |deadlines| && OrderedAbove(Times(), n, start)
      modifies this`deadlines, deadlines`heapIndex
      ensures Indexed() && Rearranged(old(deadlines), n) && Ordered(Times(), n)
    {
      var j: nat := start;
      while j != Parent(j) && deadlines[j].deadline < deadlines[Parent(j)].deadline
        invariant j < n && Indexed() && Rearranged(old(deadlines), n) && OrderedAbove(Times(), n, j)
      {
        assert forall k :: 0 <= k < |deadlines| ==> deadlines[k] in old(deadlines);
        j := UpOne(j, n);
      }
    }

    /** Exchanges the record at `i` with its earlier child, which is due before it. */
    method DownOne(i: nat, n: nat, ghost start: nat) returns (child: nat)
      requires Indexed() && start <= i < n <= |deadlines| && OrderedBelow(Times(), n, i, start)
      requires 2 * i + 1 < n && deadlines[Earlier(n, i)].deadline < deadlines[i].deadline
      modifies this`deadlines, deadlines`heapIndex
      ensures Indexed() && Rearranged(old(deadlines), n) && i < child < n && OrderedBelow(Times(), n, child, start)
    {
      DownStep(Times(), n, i, start);
      child := Earlier(n, i);
      Swap(i, child);
    }

    /** Moves the record at `start` away from the root, among the first `n` positions, until
        no child is due before it. */
    method Down(start: nat, n: nat) returns (moved: bool)
      requires Indexed() && start < n <= |deadlines| && OrderedBelow(Times(), n, start, start)
      modifies this`deadlines, deadlines`heapIndex
      ensures Indexed() && Rearranged(old(deadlines), n)
      ensures moved ==> Ordered(Times(), n)
      ensures !moved ==> deadlines == old(deadlines) && forall c :: 0 <= c < n && c != start ==> InOrder(Times(), c)
    {
      var i: nat := start;
      while 2 * i + 1 < n && deadlines[Earlier(n, i)].deadline < deadlines[i].deadline
        invariant start <= i < n && Indexed() && Rearranged(old(deadlines), n) && OrderedBelow(Times(), n, i, start)
        invariant i == start ==> deadlines == old(deadlines)
        decreases n - i
      {
        assert forall k :: 0 <= k < |deadlines| ==> deadlines[k] in old(deadlines);
        i := DownOne(i, n, start);
      }
      DownEnd(Times(), n, i, start);
      moved := i > start;
    }

    function Earlier(n: nat, i: nat): (c: nat)
      requires i < n <= |deadlines| && 2 * i + 1 < n
      reads this, deadlines
      ensures c == EarlierChild(Times(), n, i)
    {
      var left := 2 * i + 1;
      if left + 1 < n && deadlines[left + 1].deadline < deadlines[left].deadline then left + 1 else left
    }

    /** Restores the order after the deadline at `i` has changed, among the first `n`. */
    method Sift(i: nat, n: nat)
      requires Indexed() && i < n <= |deadlines| && OrderedBelow(Times(), n, i, i)
      modifies this`deadlines, deadlines`heapIndex
      ensures Indexed() && Rearranged(old(deadlines), n) && Ordered(Times(), n)
    {
      var moved := Down(i, n);
      if !moved {
        TurnUp(Times(), i, n);
        Up(i, n);
      }
    }

    /** Appends a record and restores the order. */
    method HeapPush(l: Lease)
      requires Indexed() && HeapOrdered() && l !in deadlines
      modifies this`deadlines, deadlines`heapIndex, l`heapIndex
      ensures Indexed() && HeapOrdered()
      ensures |deadlines| == |old(deadlines)| + 1 && l in deadlines
      ensures forall x :: x in deadlines ==> x in old(deadlines) || x == l
      ensures forall x :: x in old(deadlines) ==> x in deadlines
    {
      l.heapIndex := |deadlines|;
      deadlines := deadlines + [l];
      ghost var t := Times();
      assert forall c :: 0 <= c < |t| - 1 ==> InOrder(t, c);
      Up(|deadlines| - 1, |deadlines|);
      HeapOrderedTimes();
    }

    /** Moves the record at position `i` to the end and orders the rest. */
    method MoveToEnd(i: nat)
      requires Indexed() && HeapOrdered() && i < |deadlines|
      modifies this`deadlines, deadlines`heapIndex
      ensures Indexed() && Rearranged(old(deadlines), |deadlines|) && deadlines[|deadlines| - 1] == old(deadlines)[i]
      ensures Ordered(Times(), |deadlines| - 1)
    {
      HeapOrderedTimes();
      var n := |deadlines| - 1;
      if n != i {
        ghost var replaced := Times()[i := deadlines[n].deadline];
        ReplaceAt(Times(), i, n, deadlines[n].deadline);
        Swap(i, n);
        assert forall c :: 0 <= c < n ==> Times()[c] == replaced[c];
        Sift(i, n);
        assert deadlines[n..][0] == old(deadlines)[i];
      }
    }

    /** Removes the record at position `i`. */
    method HeapRemove(i: nat) returns (l: Lease)
      requires Indexed() && HeapOrdered() && i < |deadlines|
      modifies this`deadlines, deadlines`heapIndex
      ensures Indexed() && HeapOrdered()
      ensures l == old(deadlines)[i] && l !in deadlines && |deadlines| == |old(deadlines)| - 1
      ensures forall x :: x in deadlines ==> x in old(deadlines)
      ensures forall x :: x in old(deadlines) && x != l ==> x in deadlines
    {
      MoveToEnd(i);
      var n := |deadlines| - 1;
      l := deadlines[n];
      ghost var times := Times();
      l.heapIndex := -1;
      deadlines := deadlines[..n];
      forall c | 0 <= c < n ensures deadlines[Parent(c)].deadline <= deadlines[c].deadline {
        assert InOrder(times, c);
      }
    }

    // ---------- The store ----------

    /** The heap holds exactly the records of the map, each under its own key. */
    ghost predicate Agree()
      reads this`leases, this`deadlines, deadlines`key
    {
      && (forall l :: l in deadlines ==> l.key in leases && leases[l.key] == l)
      && (forall k :: k in leases ==> leases[k] in deadlines && leases[k].key == k)
    }

    ghost predicate Valid()
      reads this, deadlines
    {
      && Indexed() && HeapOrdered() && Agree()
      && (forall l :: l in deadlines ==> l !in pool)
    }

    /** The resident leases, expired ones included. */
    ghost function Table(): (t: Table)
      requires Agree()
      reads this`leases, this`deadlines, deadlines`key, deadlines`id, deadlines`deadline
    {
      map k | k in leases :: Entry(leases[k].id, leases[k].deadline)
    }

    constructor ()
      ensures Valid() && Table() == map[] && fresh(Repr())
    {
      leases, deadlines, pool := map[], [], {};
    }

    /** Takes a record out of the pool, which may hand out none, or makes a new one. */
    method TakeRecord(key: Key, id: LeaseID, deadline: int) returns (l: Lease)
      requires Valid()
      modifies this`pool, pool
      ensures l.key == key && l.id == id && l.deadline == deadline && l.heapIndex == -1
      ensures l !in deadlines && l !in pool && pool <= old(pool) && (fresh(l) || l in old(pool))
      ensures Valid() && Table() == old(Table())
    {
      if * {
        l := new Lease(key, id, deadline);
      } else if pool == {} {
        l := new Lease(key, id, deadline);
      } else {
        l :| l in pool;
        pool := pool - {l};
        l.key, l.id, l.deadline, l.heapIndex := key, id, deadline, -1;
      }
    }

    /** Puts a record into map and heap. */
    method Insert(l: Lease)
      requires Valid() && l !in deadlines && l !in pool && l.key !in leases
      modifies this`leases, this`deadlines, deadlines`heapIndex, l`heapIndex
      ensures Valid() && Table() == old(Table())[old(l.key) := Entry(old(l.id), old(l.deadline))]
      ensures forall x :: x in deadlines ==> x in old(deadlines) || x == l
    {
      leases := leases[l.key := l];
      HeapPush(l);
      assert Agree();
    }

    method AddLease(key: Key, id: LeaseID, deadline: int)
      requires Valid() && key !in leases
      modifies Repr()
      ensures Valid() && fresh(Repr() - old(Repr()))
      ensures Table() == old(Table())[key := Entry(id, deadline)]
    {
      var l := TakeRecord(key, id, deadline);
      Insert(l);
    }

    /** Returns a record to the pool, blank. */
    method Recycle(l: Lease)
      requires Valid() && l !in deadlines
      modifies this`pool, l
      ensures Valid() && Table() == old(Table()) && pool == old(pool) + {l}
    {
      l.key, l.id, l.deadline, l.heapIndex := 0, LeaseID(0, 0, 0), 0, 0;
      pool := pool + {l};
    }

    /** Removes a resident record from map and heap and recycles it. */
    method RemoveLease(l: Lease)
      requires Valid() && l in deadlines
      modifies Repr()
      ensures Valid() && Repr() <= old(Repr()) && |deadlines| == |old(deadlines)| - 1
      ensures Table() == old(Table()) - {old(l.key)} && l in pool
    {
      leases := leases - {l.key};
      var removed := HeapRemove(l.heapIndex);
      Recycle(l);
    }

    /** When the root of the heap has not expired, no resident lease has. */
    lemma NothingExpired(now: int)
      requires Valid() && (deadlines == [] || now < deadlines[0].deadline)
      ensures Unexpired(Table(), now) == Table()
    {
      HeapOrderedTimes();
      forall k | k in leases ensures now < leases[k].deadline {
        RootIsEarliest(Times(), leases[k].heapIndex);
      }
    }

    /** Pops the heap while its root has expired; by the order of the heap this removes every
        expired lease and no other. */
    method RemoveExpiredLeases(now: int) returns (deleted: nat)
      requires Valid()
      modifies Repr()
      ensures Valid() && Repr() <= old(Repr())
      ensures Table() == Unexpired(old(Table()), now)
      ensures deleted == |old(Table())| - |Table()|
    {
      deleted := 0;
      while |deadlines| != 0 && deadlines[0].deadline <= now
        invariant Valid() && Repr() <= old(Repr())
        invariant Unexpired(Table(), now) == Unexpired(old(Table()), now)
        invariant deleted == |old(Table())| - |Table()|
        decreases |deadlines|
      {
        DropExpired(Table(), deadlines[0].key, now);
        RemoveLease(deadlines[0]);
        deleted := deleted + 1;
      }
      NothingExpired(now);
    }

    lemma MayReplace(i: nat, deadline: int)
      requires HeapOrdered() && i < |deadlines|
      ensures OrderedBelow(Times()[i := deadline], |deadlines|, i, i)
    {
      HeapOrderedTimes();
      ReplaceAt(Times(), i, |deadlines|, deadline);
    }

    /** Moves the record at `i`, whose deadline has changed, to its place in the heap. */
    method Fix(i: nat)
      requires Indexed() && Agree() && (forall x :: x in deadlines ==> x !in pool)
      requires i < |deadlines| && OrderedBelow(Times(), |deadlines|, i, i)
      modifies this`deadlines, deadlines`heapIndex
      ensures Valid() && Table() == old(Table())
      ensures forall x :: x in deadlines ==> x in old(deadlines)
    {
      Sift(i, |deadlines|);
      HeapOrderedTimes();
      assert Agree();
    }

    method SetDeadline(l: Lease, deadline: int)
      requires Valid() && l in deadlines
      modifies l`deadline
      ensures Indexed() && Agree() && 0 <= l.heapIndex < |deadlines|
      ensures OrderedBelow(Times(), |deadlines|, l.heapIndex, l.heapIndex)
      ensures Table() == old(Table())[l.key := Entry(l.id, deadline)]
    {
      MayReplace(l.heapIndex, deadline);
      ghost var times := Times();
      l.deadline := deadline;
      assert Times() == times[l.heapIndex := deadline];
    }

    /** Extends a resident lease. */
    method Extend(l: Lease, deadline: int)
      requires Valid() && l in deadlines
      modifies Repr()
      ensures Valid() && Repr() <= old(Repr())
      ensures Table() == old(Table())[old(l.key) := Entry(old(l.id), deadline)]
    {
      SetDeadline(l, deadline);
      Fix(l.heapIndex);
    }

    // ---------- The shard as its table ----------

    /** The shard stores exactly `t`, in the objects of `repr`. */
    ghost predicate Holds(t: Table, repr: set<object>)
      reads this, repr
    {
      Repr() == repr && Valid() && Table() == t
    }

    /** What the shard stores under a key. */
    function Lookup(key: Key, ghost t: Table, ghost repr: set<object>): (e: Option<Entry>)
      requires Holds(t, repr)
      reads this, repr
      ensures e == if key in t then Some(t[key]) else None
    {
      if key in leases then Some(Entry(leases[key].id, leases[key].deadline)) else None
    }

    method Drop(key: Key, ghost t: Table, ghost repr: set<object>) returns (ghost repr': set<object>)
      requires Holds(t, repr) && key in t
      modifies repr
      ensures Holds(t - {key}, repr') && repr' <= repr
    {
      RemoveLease(leases[key]);
      repr' := Repr();
    }

    method Put(key: Key, id: LeaseID, deadline: int, ghost t: Table, ghost repr: set<object>)
      returns (ghost repr': set<object>)
      requires Holds(t, repr) && key !in t
      modifies repr
      ensures Holds(t[key := Entry(id, deadline)], repr') && fresh(repr' - repr)
    {
      AddLease(key, id, deadline);
      repr' := Repr();
    }

    method Prolong(key: Key, deadline: int, ghost t: Table, ghost repr: set<object>) returns (ghost repr': set<object>)
      requires Holds(t, repr) && key in t
      modifies repr
      ensures Holds(t[key := Entry(t[key].id, deadline)], repr') && repr' <= repr
    {
      Extend(leases[key], deadline);
      repr' := Repr();
    }

    method Sweep(now: int, ghost t: Table, ghost repr: set<object>) returns (deleted: nat, ghost repr': set<object>)
      requires Holds(t, repr)
      modifies repr
      ensures Holds(Unexpired(t, now), repr') && repr' <= repr && deleted == |t| - |Unexpired(t, now)|
    {
      deleted := RemoveExpiredLeases(now);
      repr' := Repr();
    }
  }
}
