/** Remainders for ring buffers whose counters wrap around at a multiple of the capacity. */
module RingMath {

  predicate Divides(n: nat, m: nat, wrap: nat) { n * m == wrap }

  /** The capacities a ring with counters modulo `wrap`, a power of two, may have: the powers of two
      from 1 to wrap / 2. */
  ghost predicate IsCapacity(n: nat, wrap: nat) {
    0 < n <= wrap / 2 && exists m: nat :: Divides(n, m, wrap)
  }

  lemma RemainderIs(x: int, n: nat, q: int, r: nat)
    requires n > 0 && x == n * q + r && r < n
    ensures x % n == r
  {
    var d := q - x / n;
    assert x == n * (x / n) + x % n;
    assert n * d == x % n - r by { assert n * d == n * q - n * (x / n); }
    SmallMultiple(n, d);
  }

  lemma SmallMultiple(n: nat, d: int)
    requires 0 - n < n * d < n
    ensures d == 0
  {
    if d >= 1 { AtLeast(n, d); }
    if d <= -1 { AtLeast(n, 0 - d); }
  }

  lemma AtLeast(n: nat, d: nat)
    requires d >= 1
    ensures n * d >= n && n * (0 - d) <= 0 - n
  {
  }

  /** A counter that wraps at a multiple of `n` keeps its remainder by `n`. */
  lemma WrappedSlot(x: nat, n: nat, m: nat, wrap: nat)
    requires n > 0 && wrap > 0 && n * m == wrap
    ensures (x % wrap) % n == x % n
  {
    var q, r := x / wrap, x % wrap;
    assert x == wrap * q + r;
    assert r == n * (r / n) + r % n;
    assert x == n * (m * q + r / n) + r % n by {
      assert wrap * q == n * (m * q);
      assert n * (m * q + r / n) == n * (m * q) + n * (r / n);
    }
    RemainderIs(x, n, m * q + r / n, r % n);
  }

  /** Two positions less than `n` apart use different slots. */
  lemma SlotsApart(i: nat, j: nat, n: nat)
    requires n > 0 && i < j < i + n
    ensures i % n != j % n
  {
    var a, b := i / n, j / n;
    assert i == n * a + i % n && j == n * b + j % n;
    assert n * (b - a) == n * b - n * a;
    if i % n == j % n {
      SmallMultiple(n, b - a);
    }
  }

  /** The difference of two wrapped counters, read as an unsigned difference. */
  lemma WrappedDifference(x: nat, y: nat, wrap: nat)
    requires wrap > 0 && y <= x < y + wrap
    ensures (x % wrap - y % wrap) % wrap == x - y
  {
    var a, b := x / wrap, y / wrap;
    assert x == wrap * a + x % wrap && y == wrap * b + y % wrap;
    assert x % wrap - y % wrap == wrap * (b - a) + (x - y) by {
      assert wrap * (b - a) == wrap * b - wrap * a;
    }
    RemainderIs(x % wrap - y % wrap, wrap, b - a, x - y);
  }

  /** Incrementing a wrapped counter. */
  lemma WrappedNext(x: nat, wrap: nat)
    requires wrap > 1
    ensures (x % wrap + 1) % wrap == (x + 1) % wrap
  {
    var q, r := x / wrap, x % wrap;
    assert x + 1 == wrap * q + (r + 1);
    if r + 1 < wrap {
      RemainderIs(x + 1, wrap, q, r + 1);
      RemainderIs(r + 1, wrap, 0, r + 1);
    } else {
      assert x + 1 == wrap * (q + 1) + 0 by { assert wrap * (q + 1) == wrap * q + wrap; }
      RemainderIs(x + 1, wrap, q + 1, 0);
      RemainderIs(r + 1, wrap, 1, 0);
    }
  }

  /** Wrapped counters that agree and are less than a wrap apart are equal. */
  lemma WrappedEqual(x: nat, y: nat, wrap: nat)
    requires wrap > 0 && y <= x < y + wrap
    ensures x % wrap == y % wrap <==> x == y
  {
    WrappedDifference(x, y, wrap);
    if x % wrap == y % wrap { RemainderIs(0, wrap, 0, 0); }
  }

  /** Positions counted from any start `a` share a slot when they agree modulo `n`. */
  lemma SameSlotFrom(a: nat, i: nat, j: nat, n: nat)
    requires n > 0
    ensures (a + i) % n == (a + j) % n <==> i % n == j % n
  {
    if i % n == j % n { ShiftedRemainder(a, i, j, n); }
    if (a + i) % n == (a + j) % n {
      var p, q, z := (a + i) / n, (a + j) / n, (a + i) % n;
      assert a + i == n * p + z && a + j == n * q + z;
      assert i == n * (i / n) + i % n;
      assert j == n * (i / n + q - p) + i % n by {
        assert n * (i / n + q - p) == n * (i / n) + n * q - n * p;
      }
      RemainderIs(j, n, i / n + q - p, i % n);
    }
  }

  lemma ShiftedRemainder(a: nat, i: nat, j: nat, n: nat)
    requires n > 0 && i % n == j % n
    ensures (a + i) % n == (a + j) % n
  {
    var w := a + i % n;
    var p, z := w / n, w % n;
    assert w == n * p + z;
    assert i == n * (i / n) + i % n && j == n * (j / n) + j % n;
    assert a + i == n * (i / n + p) + z by { assert n * (i / n + p) == n * (i / n) + n * p; }
    assert a + j == n * (j / n + p) + z by { assert n * (j / n + p) == n * (j / n) + n * p; }
    RemainderIs(a + i, n, i / n + p, z);
    RemainderIs(a + j, n, j / n + p, z);
  }
}
