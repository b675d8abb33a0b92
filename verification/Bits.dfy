/** The bit arithmetic behind a ring's slot index: a capacity accepted by the constructor is
    a power of two, and masking a position with capacity - 1 is taking it modulo capacity. */
module Bits {

  /** Bitwise conjunction of two unsigned integers. */
  function BitAnd(a: nat, b: nat): nat {
    if a == 0 || b == 0 then 0
    else (if a % 2 == 1 && b % 2 == 1 then 1 else 0) + 2 * BitAnd(a / 2, b / 2)
  }

  predicate IsPowerOfTwo(n: nat) {
    n == 1 || (n > 1 && n % 2 == 0 && IsPowerOfTwo(n / 2))
  }

  /** The constructor's test of a capacity. */
  predicate ValidCapacity(capacity: nat) {
    capacity >= 2 && BitAnd(capacity, capacity - 1) == 0
  }

  lemma {:induction false} BitAndSelf(n: nat)
    ensures BitAnd(n, n) == n
  {
    if n > 0 {
      BitAndSelf(n / 2);
    }
  }

  lemma {:induction false} PredecessorTest(n: nat)
    requires n >= 1
    ensures BitAnd(n, n - 1) == 0 <==> IsPowerOfTwo(n)
  {
    if n > 1 {
      if n % 2 == 0 {
        assert (n - 1) / 2 == n / 2 - 1;
        PredecessorTest(n / 2);
      } else {
        assert (n - 1) / 2 == n / 2;
        BitAndSelf(n / 2);
      }
    }
  }

  /** The constructor accepts exactly the powers of two greater than one. */
  lemma ValidCapacityIsPowerOfTwo(capacity: nat)
    ensures ValidCapacity(capacity) <==> capacity > 1 && IsPowerOfTwo(capacity)
  {
    if capacity >= 1 {
      PredecessorTest(capacity);
    }
  }

  lemma ModUnique(p: nat, n: nat, k: nat, r: nat)
    requires r < n && p == n * k + r
    ensures p % n == r
  {
    var d := p / n - k;
    assert n * d == r - p % n;
    assert d < 0 ==> n * d + n <= 0;
    assert d >= 1 ==> n * d >= n;
  }

  lemma HalvedModulo(p: nat, m: nat)
    requires m > 0
    ensures p % (2 * m) == p % 2 + 2 * (p / 2 % m)
  {
    var q := p / 2;
    var k := q / m;
    assert q == m * k + q % m;
    assert 2 * m * k == 2 * (m * k);
    ModUnique(p, 2 * m, k, 2 * (q % m) + p % 2);
  }

  lemma {:induction false} MaskIsModulo(p: nat, n: nat)
    requires IsPowerOfTwo(n)
    ensures BitAnd(p, n - 1) == p % n
  {
    if n > 1 {
      var m := n / 2;
      assert (n - 1) % 2 == 1 && (n - 1) / 2 == m - 1;
      MaskIsModulo(p / 2, m);
      HalvedModulo(p, m);
      if n == 2 {
        assert BitAnd(p / 2, 0) == 0;
      }
    }
  }

  /** The slot that a position uses. */
  function Index(position: nat, capacity: nat): (i: nat)
    requires ValidCapacity(capacity)
    ensures i == position % capacity
  {
    ValidCapacityIsPowerOfTwo(capacity);
    MaskIsModulo(position, capacity);
    BitAnd(position, capacity - 1)
  }

  /** Positions less than a whole ring apart use different slots. */
  lemma DistinctSlots(p: nat, q: nat, capacity: nat)
    requires p < q < p + capacity
    ensures p % capacity != q % capacity
  {
    var d := q / capacity - p / capacity;
    assert q - p == capacity * d + (q % capacity - p % capacity);
    assert d <= 0 ==> capacity * d <= 0;
    assert d >= 1 ==> capacity * d >= capacity;
  }

  lemma SameSlot(p: nat, capacity: nat)
    requires capacity > 0
    ensures (p + capacity) % capacity == p % capacity
  {
    assert p + capacity == capacity * (p / capacity + 1) + p % capacity;
    ModUnique(p + capacity, capacity, p / capacity + 1, p % capacity);
  }
}
