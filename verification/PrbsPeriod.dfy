/** The standard bit generators of 9 and 15 bits run through every state but zero
    before they come back to the first. */
module PrbsPeriods {
  import opened Modular
  import opened Powers
  import opened PrbsGenerators

  // ----- exclusive or -----------------------------------------------------------------------------

  lemma {:induction false} XorSwap(a: nat, b: nat)
    ensures Xor(a, b) == Xor(b, a)
    decreases a + b
  {
    if a != 0 || b != 0 {
      XorSwap(a / 2, b / 2);
    }
  }

  lemma {:induction false} XorAssociates(a: nat, b: nat, c: nat)
    ensures Xor(Xor(a, b), c) == Xor(a, Xor(b, c))
    decreases a + b + c
  {
    hide Xor;
    XorZero(0);
    if a != 0 || b != 0 || c != 0 {
      XorAssociates(a / 2, b / 2, c / 2);
      var x, y := Xor(a, b), Xor(b, c);
      XorBits(a, b);
      XorBits(b, c);
      XorBits(x, c);
      XorBits(a, y);
      ParityOf(x, c);
      ParityOf(a, y);
      ThreeParities(a, b, c);
      SameBits(Xor(x, c), Xor(a, y));
    }
  }

  lemma ThreeParities(a: nat, b: nat, c: nat)
    ensures ((a + b) % 2 + c % 2) % 2 == (a % 2 + (b + c) % 2) % 2
  {
    ParityOf(a + b, c);
    ParityOf(a, b + c);
  }

  /** What is on both sides drops out. */
  lemma XorCancels(a: nat, b: nat, c: nat)
    ensures Xor(Xor(a, b), Xor(b, c)) == Xor(a, c)
  {
    XorSwap(b, c);
    XorBoth(a, c, b);
  }

  // ----- the generator is linear ------------------------------------------------------------------

  lemma StepLinear(c: nat, s: nat, t: nat)
    ensures Step(c, Xor(s, t)) == Xor(Step(c, s), Step(c, t))
  {
    hide Xor;
    XorBits(s, t);
    ParityOf(s, t);
    var a, b := s / 2, t / 2;
    XorBoth(a, b, c);
    XorAssociates(a, b, c);
    XorAssociates(a, c, b);
    XorSwap(b, c);
  }

  lemma {:induction false} OrbitLinear(c: nat, s: nat, t: nat, k: nat)
    ensures Orbit(c, Xor(s, t), k) == Xor(Orbit(c, s, k), Orbit(c, t, k))
  {
    if k > 0 {
      OrbitLinear(c, s, t, k - 1);
      StepLinear(c, Orbit(c, s, k - 1), Orbit(c, t, k - 1));
    }
  }

  lemma {:induction false} OrbitAdds(c: nat, s: nat, j: nat, k: nat)
    ensures Orbit(c, s, j + k) == Orbit(c, Orbit(c, s, j), k)
    decreases k
  {
    if k > 0 {
      OrbitAdds(c, s, j, k - 1);
    }
  }

  /** The states `a` bits on are the exclusive or of those `b` bits on and the
      states themselves. */
  ghost predicate Trinomial(c: nat, s: nat, a: nat, b: nat) {
    forall t: nat :: Orbit(c, s, t + a) == Xor(Orbit(c, s, t + b), Orbit(c, s, t))
  }

  lemma TrinomialFrom(c: nat, s: nat, a: nat, b: nat)
    requires Orbit(c, s, a) == Xor(Orbit(c, s, b), s)
    ensures Trinomial(c, s, a, b)
  {
    hide Orbit;
    forall t: nat
      ensures Orbit(c, s, t + a) == Xor(Orbit(c, s, t + b), Orbit(c, s, t))
    {
      OrbitAdds(c, s, a, t);
      OrbitAdds(c, s, b, t);
      OrbitLinear(c, Orbit(c, s, b), s, t);
    }
  }

  /** Squaring a sum of two squares both: the middle terms cancel. */
  lemma TrinomialDoubles(c: nat, s: nat, a: nat, b: nat)
    requires Trinomial(c, s, a, b)
    ensures Trinomial(c, s, 2 * a, 2 * b)
  {
    hide Orbit;
    forall t: nat
      ensures Orbit(c, s, t + 2 * a) == Xor(Orbit(c, s, t + 2 * b), Orbit(c, s, t))
    {
      var u, v := t + a, t + b;
      assert Orbit(c, s, u + a) == Xor(Orbit(c, s, u + b), Orbit(c, s, u));
      assert Orbit(c, s, v + a) == Xor(Orbit(c, s, v + b), Orbit(c, s, v));
      assert Orbit(c, s, t + a) == Xor(Orbit(c, s, t + b), Orbit(c, s, t));
      assert u + a == t + 2 * a && u + b == v + a && v + b == t + 2 * b;
      XorCancels(Orbit(c, s, t + 2 * b), Orbit(c, s, t + b), Orbit(c, s, t));
    }
  }

  lemma {:induction false} TrinomialAt(c: nat, s: nat, a: nat, b: nat, j: nat)
    requires Trinomial(c, s, a, b)
    ensures Trinomial(c, s, a * Pow2(j), b * Pow2(j))
  {
    hide Trinomial;
    if j == 0 {
      assert a * Pow2(0) == a && b * Pow2(0) == b;
    } else {
      TrinomialAt(c, s, a, b, j - 1);
      TrinomialDoubles(c, s, a * Pow2(j - 1), b * Pow2(j - 1));
      assert 2 * (a * Pow2(j - 1)) == a * Pow2(j) && 2 * (b * Pow2(j - 1)) == b * Pow2(j);
    }
  }

  /** The `k`th bit out, from start state 1. */
  function Bit(c: nat, k: nat): bool {
    OutBit(Orbit(c, 1, k))
  }

  /** A bit so many places on, as the sum of two before it. */
  lemma Leap(c: nat, a: nat, b: nat, t: nat, j: nat)
    requires Trinomial(c, 1, a, b)
    ensures Bit(c, t + a * Pow2(j)) == (Bit(c, t + b * Pow2(j)) != Bit(c, t))
  {
    hide Xor;
    TrinomialAt(c, 1, a, b, j);
    var x, y := Orbit(c, 1, t + b * Pow2(j)), Orbit(c, 1, t);
    XorBits(x, y);
    ParityOf(x, y);
  }

  /** States that put out the same bits are the same. */
  lemma SameOutput(c: nat, n: nat, s: nat, t: nat)
    requires Coefficients(c, n) && s < Pow2(n) && t < Pow2(n) && Output(c, s, n) == Output(c, t, n)
    ensures s == t
  {
    Synchronises(c, n, s, 0);
    Synchronises(c, n, t, 0);
    OrbitInjective(c, n, s, t, n);
  }

  lemma {:induction false} OrbitInjective(c: nat, n: nat, s: nat, t: nat, k: nat)
    requires Coefficients(c, n) && s < Pow2(n) && t < Pow2(n) && Orbit(c, s, k) == Orbit(c, t, k)
    ensures s == t
  {
    if k > 0 {
      OrbitStays(c, n, s, k - 1);
      OrbitStays(c, n, t, k - 1);
      StepInjective(c, n, Orbit(c, s, k - 1), Orbit(c, t, k - 1));
      OrbitInjective(c, n, s, t, k - 1);
    }
  }

  ghost predicate SameBit(c: nat, i: nat, j: nat, t: nat) {
    Bit(c, i + t) == Bit(c, j + t)
  }

  lemma {:induction false} OutputAt(c: nat, i: nat, j: nat, n: nat)
    requires forall t: nat :: SameBit(c, i, j, t)
    ensures Output(c, Orbit(c, 1, i), n) == Output(c, Orbit(c, 1, j), n)
  {
    hide Orbit, OutBit;
    if n > 0 {
      OutputAt(c, i, j, n - 1);
      OrbitAdds(c, 1, i, n - 1);
      OrbitAdds(c, 1, j, n - 1);
      assert SameBit(c, i, j, n - 1);
    }
  }

  /** If the bits recur, so do the states. */
  lemma BitsRecur(c: nat, n: nat, m: nat)
    requires Coefficients(c, n) && m > 0 && forall t: nat :: SameBit(c, m, 1, t)
    ensures Orbit(c, 1, m - 1) == 1
  {
    hide Orbit;
    OneIsState(n);
    OutputAt(c, m, 1, n);
    OrbitStays(c, n, 1, m);
    OrbitStays(c, n, 1, 1);
    SameOutput(c, n, Orbit(c, 1, m), Orbit(c, 1, 1));
    OrbitBack(c, n, 1, 1, m);
  }

  lemma OneIsState(n: nat)
    requires n > 0
    ensures 1 < Pow2(n)
  {
  }

  lemma FirstBit(c: nat)
    ensures Orbit(c, 1, 1) == c && Bit(c, 0)
  {
    XorZero(c);
    assert Orbit(c, 1, 1) == Step(c, Orbit(c, 1, 0));
  }

  /** Zeros at the low end just fall out. */
  lemma {:induction false} ShiftsOut(c: nat, k: nat, x: nat, n: nat)
    requires Orbit(c, 1, k) == x * Pow2(n)
    ensures Orbit(c, 1, k + n) == x
    ensures forall i :: k <= i < k + n ==> !Bit(c, i)
    decreases n
  {
    if n > 0 {
      hide Xor;
      var y := x * Pow2(n - 1);
      assert x * Pow2(n) == 2 * y;
      assert Orbit(c, 1, k + 1) == Step(c, 2 * y) == y;
      ShiftsOut(c, k + 1, x, n - 1);
    }
  }

  // ----- fifteen bits ----------------------------------------------------------------------------

  /** x^15 + x + 1, with the first bits out. */
  lemma Start15()
    ensures Trinomial(0x6000, 1, 15, 1) && Coefficients(0x6000, 15)
    ensures forall k: nat :: k < 15 ==> Bit(0x6000, k) == (k == 0 || k == 14)
  {
    StandardGenerators();
    FirstBit(0x6000);
    assert Pow2(13) == 0x2000;
    hide Coefficients, Pow2;
    ShiftsOut(0x6000, 1, 3, 13);
    FirstStates15();
    hide Xor, Orbit;
    TrinomialFrom(0x6000, 1, 15, 1);
  }

  lemma FirstStates15()
    requires Orbit(0x6000, 1, 14) == 3
    ensures Bit(0x6000, 14) && Orbit(0x6000, 1, 15) == Xor(Orbit(0x6000, 1, 1), 1)
  {
    hide Xor;
    FirstBit(0x6000);
    assert Orbit(0x6000, 1, 15) == Step(0x6000, 3);
    XorSwap(1, 0x6000);
  }

  /** 2^15 bits on, led back leap by leap, all but one term cancel. */
  lemma Recurs15(t: nat)
    requires Trinomial(0x6000, 1, 15, 1)
    ensures SameBit(0x6000, 32768, 1, t)
  {
    hide Bit;
    Leap(0x6000, 15, 1, 2048 + t, 11);
    Leap(0x6000, 15, 1, 256 + t, 8);
    Leap(0x6000, 15, 1, 128 + t, 7);
    Leap(0x6000, 15, 1, 32 + t, 5);
    Leap(0x6000, 15, 1, 8 + t, 3);
    Leap(0x6000, 15, 1, 4 + t, 2);
    Leap(0x6000, 15, 1, 2 + t, 1);
    Leap(0x6000, 15, 1, 1 + t, 0);
  }

  /** At the three largest proper divisors of 32767 the bits differ from the first
      ones. Each bit is led back, leap by leap, to the first fifteen. */
  lemma NotAt1057()
    requires Trinomial(0x6000, 1, 15, 1) && forall k: nat :: k < 15 ==> Bit(0x6000, k) == (k == 0 || k == 14)
    ensures !Bit(0x6000, 1057)
  {
    hide Bit;
    Leap(0x6000, 15, 1, 97, 6);
    Leap(0x6000, 15, 1, 41, 3);
    Leap(0x6000, 15, 1, 19, 1);
    Leap(0x6000, 15, 1, 6, 0);
    Leap(0x6000, 15, 1, 4, 0);
    Leap(0x6000, 15, 1, 11, 1);
    Leap(0x6000, 15, 1, 37, 2);
    Leap(0x6000, 15, 1, 7, 1);
  }

  lemma NotAt217()
    requires Trinomial(0x6000, 1, 15, 1) && forall k: nat :: k < 15 ==> Bit(0x6000, k) == (k == 0 || k == 14)
    ensures Bit(0x6000, 218)
  {
    hide Bit;
    Leap(0x6000, 15, 1, 98, 3);
    Leap(0x6000, 15, 1, 46, 2);
    Leap(0x6000, 15, 1, 20, 1);
    Leap(0x6000, 15, 1, 7, 0);
    Leap(0x6000, 15, 1, 5, 0);
    Leap(0x6000, 15, 1, 16, 1);
    Leap(0x6000, 15, 1, 3, 0);
    Leap(0x6000, 15, 1, 1, 0);
    Leap(0x6000, 15, 1, 38, 2);
    Leap(0x6000, 15, 1, 12, 1);
    Leap(0x6000, 15, 1, 8, 1);
  }

  lemma NotAt4681()
    requires Trinomial(0x6000, 1, 15, 1) && forall k: nat :: k < 15 ==> Bit(0x6000, k) == (k == 0 || k == 14)
    ensures !Bit(0x6000, 4681)
  {
    hide Bit;
    BitAt841();
    BitAt1097();
    Leap(0x6000, 15, 1, 841, 8);
  }

  lemma BitAt841()
    requires Trinomial(0x6000, 1, 15, 1) && forall k: nat :: k < 15 ==> Bit(0x6000, k) == (k == 0 || k == 14)
    ensures !Bit(0x6000, 841)
  {
    hide Bit;
    Leap(0x6000, 15, 1, 361, 5);
    Leap(0x6000, 15, 1, 153, 4);
    Leap(0x6000, 15, 1, 49, 3);
    Leap(0x6000, 15, 1, 27, 1);
    Leap(0x6000, 15, 1, 14, 0);
    Leap(0x6000, 15, 1, 0, 0);
    Leap(0x6000, 15, 1, 12, 0);
    Leap(0x6000, 15, 1, 19, 1);
    Leap(0x6000, 15, 1, 6, 0);
    Leap(0x6000, 15, 1, 4, 0);
    Leap(0x6000, 15, 1, 33, 3);
    Leap(0x6000, 15, 1, 11, 1);
    Leap(0x6000, 15, 1, 3, 1);
    Leap(0x6000, 15, 1, 121, 4);
    Leap(0x6000, 15, 1, 17, 3);
    Leap(0x6000, 15, 1, 10, 0);
    Leap(0x6000, 15, 1, 2, 0);
    Leap(0x6000, 15, 1, 1, 3);
  }

  lemma BitAt1097()
    requires Trinomial(0x6000, 1, 15, 1) && forall k: nat :: k < 15 ==> Bit(0x6000, k) == (k == 0 || k == 14)
    ensures !Bit(0x6000, 1097)
  {
    hide Bit;
    Leap(0x6000, 15, 1, 137, 6);
    Leap(0x6000, 15, 1, 81, 3);
    Leap(0x6000, 15, 1, 29, 2);
    Leap(0x6000, 15, 1, 3, 1);
    Leap(0x6000, 15, 1, 14, 0);
    Leap(0x6000, 15, 1, 0, 0);
    Leap(0x6000, 15, 1, 21, 2);
    Leap(0x6000, 15, 1, 10, 0);
    Leap(0x6000, 15, 1, 6, 0);
    Leap(0x6000, 15, 1, 17, 3);
    Leap(0x6000, 15, 1, 2, 0);
  }

  // ----- nine bits ---------------------------------------------------------------------------------

  /** x^9 + x^4 + 1, with the first bits out. */
  lemma Start9()
    ensures Trinomial(0x110, 1, 9, 4) && Coefficients(0x110, 9)
    ensures forall k: nat :: k < 9 ==> Bit(0x110, k) == (k == 0 || k == 5)
  {
    hide Xor;
    XorZero(0x110);
    FirstBit(0x110);
    ShiftsOut(0x110, 1, 34, 3);
    ShiftsOut(0x110, 1, 17, 4);
    assert Orbit(0x110, 1, 6) == Step(0x110, 17) == Xor(8, 0x110);
    XorBits(8, 0x110);
    XorBits(4, 0x88);
    XorBits(2, 0x44);
    ShiftsOut(0x110, 6, Xor(1, 0x22), 3);
    XorSwap(1, 0x22);
    hide Orbit;
    TrinomialFrom(0x110, 1, 9, 4);
  }

  lemma Recurs9(t: nat)
    requires Trinomial(0x110, 1, 9, 4)
    ensures SameBit(0x110, 512, 1, t)
  {
    hide Bit;
    Leap(0x110, 9, 4, 224 + t, 5);
    Leap(0x110, 9, 4, 64 + t, 5);
    Leap(0x110, 9, 4, 80 + t, 4);
    Leap(0x110, 9, 4, t, 4);
    Leap(0x110, 9, 4, 48 + t, 4);
    Leap(0x110, 9, 4, 40 + t, 3);
    Leap(0x110, 9, 4, t, 3);
    Leap(0x110, 9, 4, 8 + t, 3);
    Leap(0x110, 9, 4, 12 + t, 2);
    Leap(0x110, 9, 4, 14 + t, 1);
    Leap(0x110, 9, 4, 10 + t, 1);
    Leap(0x110, 9, 4, t, 1);
    Leap(0x110, 9, 4, 4 + t, 1);
    Leap(0x110, 9, 4, 5 + t, 0);
    Leap(0x110, 9, 4, t, 0);
    Leap(0x110, 9, 4, 1 + t, 0);
  }

  lemma NotAt73()
    requires Trinomial(0x110, 1, 9, 4) && forall k: nat :: k < 9 ==> Bit(0x110, k) == (k == 0 || k == 5)
    ensures !Bit(0x110, 73)
  {
    hide Bit;
    Leap(0x110, 9, 4, 1, 3);
    Leap(0x110, 9, 4, 15, 1);
    Leap(0x110, 9, 4, 5, 1);
    Leap(0x110, 9, 4, 4, 0);
    Leap(0x110, 9, 4, 6, 0);
    Leap(0x110, 9, 4, 1, 0);
  }

  // ----- periods ----------------------------------------------------------------------------------

  lemma {:induction false} OrbitWraps(c: nat, s: nat, p: nat, k: nat)
    requires p > 0 && Orbit(c, s, p) == s
    ensures Orbit(c, s, k) == Orbit(c, s, k % p)
  {
    hide Orbit;
    if k >= p {
      OrbitWraps(c, s, p, k - p);
      OrbitAdds(c, s, p, k - p);
      MultipleMod(p, k / p - 1, k % p);
      assert k - p == (k / p - 1) * p + k % p;
    }
  }

  /** `p` is the first time the generator comes back. */
  ghost predicate FirstReturn(c: nat, s: nat, p: nat) {
    p > 0 && Orbit(c, s, p) == s && forall k :: 0 < k < p ==> Orbit(c, s, k) != s
  }

  /** It comes back exactly at the multiples of the first return. */
  lemma ReturnsIff(c: nat, s: nat, p: nat, k: nat)
    requires FirstReturn(c, s, p)
    ensures Orbit(c, s, k) == s <==> k % p == 0
  {
    hide Orbit;
    OrbitWraps(c, s, p, k);
    assert Orbit(c, s, 0) == s by { OrbitWraps(c, s, p, p); }
  }

  ghost predicate Prime(r: nat) {
    r > 1 && forall i :: 1 < i < r ==> r % i != 0
  }

  predicate NoSmallDivisor(r: nat) {
    && r % 2 != 0 && r % 3 != 0 && r % 4 != 0 && r % 5 != 0 && r % 6 != 0 && r % 7 != 0
    && r % 8 != 0 && r % 9 != 0 && r % 10 != 0 && r % 11 != 0 && r % 12 != 0
  }

  /** The smaller of two factors is at most the root. */
  lemma SmallPrime(r: nat)
    requires 12 < r < 169 && NoSmallDivisor(r)
    ensures Prime(r)
  {
    forall i | 1 < i < r
      ensures r % i != 0
    {
      if r % i == 0 && i > 12 {
        var q := r / i;
        assert r == q * i;
        BothLarge(q, i);
        MultipleMod(q, i, 0);
        assert false;
      }
    }
  }

  lemma BothLarge(p: nat, q: nat)
    ensures p >= 13 && q >= 13 ==> p * q >= 169
  {
    if p >= 13 && q >= 13 {
      assert (p - 13) * (q - 13) >= 0;
    }
  }

  /** A prime that divides a product divides a factor. */
  lemma {:induction false} Euclid(r: nat, i: nat, j: nat)
    requires Prime(r) && 0 < i < r && (i * j) % r == 0
    ensures j % r == 0
    decreases i
  {
    if i > 1 {
      var m := r % i;
      assert m > 0;
      var k, n := r / i, i * j / r;
      assert m * j == r * j - k * (i * j) == r * j - k * (n * r) == (j - k * n) * r;
      MultipleMod(r, j - k * n, 0);
      Euclid(r, m, j);
    }
  }

  lemma MultipleMod(r: int, k: int, m: int)
    requires 0 <= m < r
    ensures (k * r + m) % r == m && (k * r + m) / r == k
  {
    ModUnique(k * r + m, r, k, m);
  }

  /** A prime in a product can be taken out of one of the factors. */
  lemma PrimeSplits(r: nat, m: nat, p: nat, q: nat)
    requires Prime(r) && p * q == r * m && p > 0
    ensures q % r == 0 || p % r == 0
    ensures q % r == 0 ==> p * (q / r) == m
    ensures p % r == 0 ==> (p / r) * q == m
  {
    if p % r != 0 {
      PrimeInOther(r, m, p, q);
    }
    if q % r == 0 {
      DivideOut(r, m, p, q);
    }
    if p % r == 0 {
      assert q * p == r * m;
      DivideOut(r, m, q, p);
      assert q * (p / r) == (p / r) * q;
    }
  }

  lemma PrimeInOther(r: nat, m: nat, p: nat, q: nat)
    requires Prime(r) && p * q == r * m && p % r != 0
    ensures q % r == 0
  {
    var a := p / r;
    assert (p - a * r) * q == (m - a * q) * r;
    MultipleMod(r, m - a * q, 0);
    Euclid(r, p % r, q);
  }

  lemma DivideOut(r: nat, m: nat, p: nat, q: nat)
    requires r > 0 && p * q == r * m && q % r == 0
    ensures p * (q / r) == m
  {
    var k := q / r;
    assert q == k * r;
    assert r * (p * k) == r * m;
    MultipleMod(r, p * k, 0);
    MultipleMod(r, m, 0);
  }

  lemma Primes()
    ensures Prime(7) && Prime(31) && Prime(73) && Prime(151)
  {
    SmallPrime(31);
    SmallPrime(73);
    SmallPrime(151);
  }

  // ----- the full period ----------------------------------------------------------------------------

  /** A proper divisor of 511 divides 7 or 73. */
  lemma Divisors511(p: nat)
    requires 0 < p < 511 && 511 % p == 0
    ensures 7 % p == 0 || 73 % p == 0
  {
    hide Prime;
    Primes();
    var q := 511 / p;
    assert p * q == 7 * 73;
    PrimeSplits(7, 73, p, q);
    if q % 7 == 0 {
      MultipleMod(p, q / 7, 0);
    } else {
      PrimeSplits(73, 1, p / 7, q);
      FactorsOfOne(p / 7, q / 73);
      FactorsOfOne(p / 7 / 73, q);
      assert p == 7 * (p / 7);
    }
  }

  lemma FactorsOfOne(p: nat, q: nat)
    ensures p * q == 1 ==> p == 1 && q == 1
  {
  }

  /** A proper divisor of 32767 divides 217, 1057 or 4681. */
  lemma Divisors32767(p: nat)
    requires 0 < p < 32767 && 32767 % p == 0
    ensures 217 % p == 0 || 1057 % p == 0 || 4681 % p == 0
  {
    hide Prime;
    Primes();
    var q := 32767 / p;
    assert p * q == 7 * 4681;
    PrimeSplits(7, 4681, p, q);
    if q % 7 == 0 {
      MultipleMod(p, q / 7, 0);
    } else {
      var p1 := p / 7;
      assert p == 7 * p1;
      PrimeSplits(31, 151, p1, q);
      if q % 31 == 0 {
        assert p * (q / 31) == 7 * (p1 * (q / 31));
        MultipleMod(p, q / 31, 0);
      } else {
        var p2 := p1 / 31;
        assert p1 == 31 * p2;
        PrimeSplits(151, 1, p2, q);
        FactorsOfOne(p2, q / 151);
        FactorsOfOne(p2 / 151, q);
      }
    }
  }

  lemma FirstReturn9(p: nat)
    requires FirstReturn(0x110, 1, p)
    ensures p == 511
  {
    hide Prime, Trinomial, Coefficients, FirstReturn, Orbit;
    Start9();
    forall t: nat
      ensures SameBit(0x110, 512, 1, t)
    {
      Recurs9(t);
    }
    BitsRecur(0x110, 9, 512);
    NotAt73();
    NotBack(0x110, 7);
    NotBack(0x110, 73);
    ReturnsIff(0x110, 1, p, 511);
    ReturnsIff(0x110, 1, p, 7);
    ReturnsIff(0x110, 1, p, 73);
    FirstIsPositive(0x110, 1, p, 511);
    if p < 511 {
      Divisors511(p);
    }
  }

  lemma FirstReturn15(p: nat)
    requires FirstReturn(0x6000, 1, p)
    ensures p == 32767
  {
    hide Prime, Trinomial, Coefficients, FirstReturn, Orbit;
    Start15();
    forall t: nat
      ensures SameBit(0x6000, 32768, 1, t)
    {
      Recurs15(t);
    }
    BitsRecur(0x6000, 15, 32768);
    NotAt217();
    NotAt1057();
    NotAt4681();
    NotBack(0x6000, 217);
    NotBack(0x6000, 1057);
    NotBack(0x6000, 4681);
    ReturnsIff(0x6000, 1, p, 32767);
    ReturnsIff(0x6000, 1, p, 217);
    ReturnsIff(0x6000, 1, p, 1057);
    ReturnsIff(0x6000, 1, p, 4681);
    FirstIsPositive(0x6000, 1, p, 32767);
    if p < 32767 {
      Divisors32767(p);
    }
  }

  lemma NotBack(c: nat, k: nat)
    requires Bit(c, k) != Bit(c, 0) || Bit(c, k + 1) != Bit(c, 1)
    ensures Orbit(c, 1, k) != 1
  {
    assert Orbit(c, 1, 0) == 1;
    assert Orbit(c, 1, k + 1) == Step(c, Orbit(c, 1, k)) && Orbit(c, 1, 1) == Step(c, 1);
  }

  lemma FirstIsPositive(c: nat, s: nat, p: nat, k: nat)
    requires FirstReturn(c, s, p) && k > 0 && Orbit(c, s, k) == s
    ensures 0 < p <= k
  {
  }

  /** If the cycle through 1 has every length it can have, every state but zero is
      on it, and all have the same period. */
  lemma AllOnOneCycle(c: nat, n: nat, s: nat, p: nat)
    requires Coefficients(c, n) && 0 < s < Pow2(n) && FirstReturn(c, 1, Pow2(n) - 1) && FirstReturn(c, s, p)
    ensures p == Pow2(n) - 1
  {
    hide Orbit, FirstReturn;
    OneIsState(n);
    var i := OnCycle(c, n, s);
    FirstMeans(c, s, p);
    OrbitAdds(c, 1, i, p);
    OrbitBack(c, n, 1, i, i + p);
    FirstIsPositive(c, 1, Pow2(n) - 1, p);
    var k := CycleCloses(c, n, s);
    FirstIsPositive(c, s, p, k);
  }

  lemma FirstMeans(c: nat, s: nat, p: nat)
    requires FirstReturn(c, s, p)
    ensures Orbit(c, s, p) == s && p > 0
  {
  }

  lemma OnCycle(c: nat, n: nat, s: nat) returns (i: nat)
    requires Coefficients(c, n) && 0 < s < Pow2(n) && FirstReturn(c, 1, Pow2(n) - 1)
    ensures Orbit(c, 1, i) == s
  {
    hide Orbit;
    OneIsState(n);
    var size := Pow2(n) - 1;
    var f := seq(size + 1, k requires 0 <= k <= size => if k < size then Orbit(c, 1, k) - 1 else s - 1);
    forall k | 0 <= k < |f|
      ensures 0 <= f[k] < size
    {
      if k < size {
        OrbitStays(c, n, 1, k);
      }
    }
    var a, b := Pigeonhole(f, size);
    if b < size {
      OrbitBack(c, n, 1, a, b);
      assert false;
    }
    i := a;
  }

  /** Whatever state but zero they start from, the generators of 9 and 15 bits
      run through all others before they come back. */
  lemma FullPeriods(s: nat, p: nat)
    ensures 0 < s < 512 && FirstReturn(0x110, s, p) ==> p == 511
    ensures 0 < s < 32768 && FirstReturn(0x6000, s, p) ==> p == 32767
  {
    hide FirstReturn, Orbit, Coefficients;
    StandardGenerators();
    assert Pow2(9) == 512 && Pow2(15) == 32768;
    if 0 < s < 512 && FirstReturn(0x110, s, p) {
      var k := SomeFirstReturn(0x110, 9, 1);
      FirstReturn9(k);
      AllOnOneCycle(0x110, 9, s, p);
    }
    if 0 < s < 32768 && FirstReturn(0x6000, s, p) {
      var k := SomeFirstReturn(0x6000, 15, 1);
      FirstReturn15(k);
      AllOnOneCycle(0x6000, 15, s, p);
    }
  }

  lemma SomeFirstReturn(c: nat, n: nat, s: nat) returns (p: nat)
    requires Coefficients(c, n) && s < Pow2(n)
    ensures FirstReturn(c, s, p)
  {
    hide Orbit;
    var most := CycleCloses(c, n, s);
    p := 1;
    while Orbit(c, s, p) != s
      invariant 1 <= p <= most && forall k :: 0 < k < p ==> Orbit(c, s, k) != s
      decreases most - p
    {
      p := p + 1;
    }
  }

  /** `testPrbs` on both generators, from any state but zero. */
  method StandardPeriods(s9: nat, s15: nat) returns (p9: nat, p15: nat)
    requires 0 < s9 < 512 && 0 < s15 < 32768
    ensures p9 == 511 && p15 == 32767
  {
    hide Orbit, Coefficients;
    StandardGenerators();
    assert Pow2(9) == 512 && Pow2(15) == 32768;
    hide Pow2;
    var prbs9 := new Prbs(9, 0x110, s9);
    p9 := Period(prbs9);
    FullPeriods(s9, p9);
    var prbs15 := new Prbs(15, 0x6000, s15);
    p15 := Period(prbs15);
    FullPeriods(s15, p15);
  }
}
