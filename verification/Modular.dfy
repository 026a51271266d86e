/** Remainders: the few facts the wrapped clocks and ring buffers need. */
module Modular {
  lemma ScaleBound(z: int, m: int)
    requires m > 0
    ensures z >= 1 ==> z * m >= m
    ensures z <= -1 ==> z * m <= -m
  {
    if z >= 1 {
      assert z * m == (z - 1) * m + m;
    } else if z <= -1 {
      assert z * m == (z + 1) * m - m;
    }
  }

  lemma ModUnique(x: int, m: int, k: int, r: int)
    requires 0 <= r < m
    requires x == k * m + r
    ensures x % m == r
    ensures x / m == k
  {
    var q := x / m;
    assert x == q * m + x % m;
    assert (q - k) * m == r - x % m;
    ScaleBound(q - k, m);
  }

  lemma ModDifference(u: int, v: int, m: int)
    requires m > 0
    ensures u % m == v % m <==> (u - v) % m == 0
  {
    var k, l := u / m, v / m;
    assert u == k * m + u % m && v == l * m + v % m;
    var d := u % m - v % m;
    assert u - v == (k - l) * m + d;
    if d >= 0 {
      ModUnique(u - v, m, k - l, d);
    } else {
      assert u - v == (k - l - 1) * m + (d + m);
      ModUnique(u - v, m, k - l - 1, d + m);
    }
  }

  lemma SmallMod(x: nat, m: nat)
    requires x < m
    ensures x % m == x
  {
  }

  /** Advancing a wrapped index by less than one whole round. */
  lemma ModAdd(x: int, y: int, m: int)
    requires m > 0 && 0 <= y <= m
    ensures 0 <= x % m < m
    ensures (x + y) % m == if x % m + y < m then x % m + y else x % m + y - m
    ensures (x + y) % m == (x % m + y) % m
  {
    var k, r := x / m, x % m;
    assert x == k * m + r;
    if r + y < m {
      ModUnique(x + y, m, k, r + y);
      SmallMod(r + y, m);
    } else if r + y < 2 * m {
      assert x + y == (k + 1) * m + (r + y - m);
      ModUnique(x + y, m, k + 1, r + y - m);
      ModUnique(r + y, m, 1, r + y - m);
    }
  }

  /** The multiples of `s` below `n * s` leave room for `s` more. */
  lemma MultipleBelow(x: int, s: int, n: int)
    requires s > 0 && n > 0 && 0 <= x < n * s && x % s == 0
    ensures (x / s) * s == x && 0 <= x / s < n && x + s <= n * s
  {
    var q := x / s;
    assert x == q * s;
    ScaleBound(q, s);
    assert (n - q) * s == n * s - x;
    ScaleBound(n - q, s);
    assert n - q >= 1;
    assert (n - q - 1) * s == n * s - x - s;
    ScaleBound(n - q - 1, s);
  }

  /** Stepping by `s` modulo `n * s` stays on the multiples of `s`. */
  lemma MultipleStep(x: int, s: int, n: int)
    requires s > 0 && n > 0 && 0 <= x < n * s && x % s == 0
    ensures n * s > 0 && ((x + s) % (n * s)) % s == 0
  {
    MultipleBelow(x, s, n);
    var m := n * s;
    if x + s == m {
      ModUnique(x + s, m, 1, 0);
      SmallMod(0, s);
    } else {
      SmallMod(x + s, m);
      assert x + s == (x / s + 1) * s;
      ModUnique(x + s, s, x / s + 1, 0);
    }
  }

  lemma DivPositive(x: nat, m: nat)
    requires m > 0
    ensures x / m >= 1 <==> x >= m
  {
    var q := x / m;
    assert x == q * m + x % m;
    ScaleBound(q, m);
  }
}
