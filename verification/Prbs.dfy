/** The pseudo-random bit generator: a shift register of `n` bits that is folded
    with its coefficients whenever a one falls out. */
module PrbsGenerators {
  import opened Powers

  /** Bitwise exclusive or. */
  function Xor(a: nat, b: nat): nat
    decreases a + b
  {
    if a == 0 && b == 0 then 0 else 2 * Xor(a / 2, b / 2) + (a + b) % 2
  }

  lemma {:induction false} XorZero(a: nat)
    ensures Xor(a, 0) == a && Xor(0, a) == a
  {
    if a > 0 {
      XorZero(a / 2);
    }
  }

  lemma {:induction false} XorSelf(a: nat, b: nat)
    ensures Xor(a, b) == 0 <==> a == b
    decreases a + b
  {
    if a != 0 || b != 0 {
      XorSelf(a / 2, b / 2);
    }
  }

  lemma {:induction false} XorBound(a: nat, b: nat, n: nat)
    requires a < Pow2(n) && b < Pow2(n)
    ensures Xor(a, b) < Pow2(n)
  {
    if n > 0 && (a != 0 || b != 0) {
      XorBound(a / 2, b / 2, n - 1);
    }
  }

  lemma XorBits(a: nat, b: nat)
    ensures Xor(a, b) / 2 == Xor(a / 2, b / 2) && Xor(a, b) % 2 == (a + b) % 2
  {
  }

  lemma SameBits(a: nat, b: nat)
    requires a / 2 == b / 2 && a % 2 == b % 2
    ensures a == b
  {
  }

  lemma Parity(a: nat, b: nat, c: nat)
    ensures ((a + b) % 2 + b) % 2 == a % 2
    ensures ((a + c) % 2 + (b + c) % 2) % 2 == (a + b) % 2
  {
  }

  lemma ParityOf(a: nat, b: nat)
    ensures (a + b) % 2 == (a % 2 + b % 2) % 2
  {
  }

  lemma {:induction false} XorAgain(a: nat, b: nat)
    ensures Xor(Xor(a, b), b) == a
    decreases a + b
  {
    hide Xor;
    XorZero(0);
    if a != 0 || b != 0 {
      XorAgain(a / 2, b / 2);
      var x := Xor(a, b);
      XorBits(a, b);
      XorBits(x, b);
      Parity(a, b, 0);
      ParityOf(x, b);
      ParityOf((a + b) % 2, b);
      SameBits(Xor(x, b), a);
    }
  }

  /** Both sides folded with the same coefficients differ as before. */
  lemma {:induction false} XorBoth(a: nat, b: nat, c: nat)
    ensures Xor(Xor(a, c), Xor(b, c)) == Xor(a, b)
    decreases a + b + c
  {
    hide Xor;
    XorZero(0);
    if a != 0 || b != 0 || c != 0 {
      XorBoth(a / 2, b / 2, c / 2);
      var x, y := Xor(a, c), Xor(b, c);
      XorBits(a, c);
      XorBits(b, c);
      XorBits(a, b);
      XorBits(x, y);
      Parity(a, b, c);
      ParityOf(x, y);
      SameBits(Xor(x, y), Xor(a, b));
    }
  }

  /** The top bit is set when it is in exactly one of them. */
  lemma {:induction false} XorTop(a: nat, c: nat, n: nat)
    requires n > 0 && a < Pow2(n - 1) && Pow2(n - 1) <= c < Pow2(n)
    ensures Pow2(n - 1) <= Xor(a, c) < Pow2(n)
  {
    XorBound(a, c, n);
    if n > 1 {
      XorTop(a / 2, c / 2, n - 1);
      XorBits(a, c);
    }
  }

  // ----- the shift register --------------------------------------------------------------------

  function Process(c: nat, s: nat, inBit: bool): nat {
    if inBit then Xor(s / 2, c) else s / 2
  }

  function OutBit(s: nat): bool {
    s % 2 == 1
  }

  function Step(c: nat, s: nat): nat {
    Process(c, s, OutBit(s))
  }

  /** `c` are coefficients for `n` bits, with the last one. */
  ghost predicate Coefficients(c: nat, n: nat) {
    n > 0 && Pow2(n - 1) <= c < Pow2(n)
  }

  lemma ProcessBound(c: nat, n: nat, s: nat, inBit: bool)
    requires n > 0 && c < Pow2(n) && s < Pow2(n)
    ensures Process(c, s, inBit) < Pow2(n)
  {
    if inBit {
      XorBound(s / 2, c, n);
    }
  }

  /** The top bit shows whether a one fell out, so the state before can be told. */
  lemma StepInjective(c: nat, n: nat, s: nat, t: nat)
    requires Coefficients(c, n) && s < Pow2(n) && t < Pow2(n) && Step(c, s) == Step(c, t)
    ensures s == t
  {
    XorTop(s / 2, c, n);
    XorTop(t / 2, c, n);
    XorAgain(s / 2, c);
    XorAgain(t / 2, c);
  }

  /** Without the last coefficient, two states lead to the coefficients. */
  lemma Collision(c: nat, n: nat)
    requires n > 0 && c < Pow2(n - 1)
    ensures 1 < Pow2(n) && 2 * c < Pow2(n) && 2 * c != 1
    ensures Step(c, 1) == c && Step(c, 2 * c) == c
  {
    XorZero(c);
  }

  ghost predicate Reversible(c: nat, n: nat) {
    forall s, t :: 0 <= s < Pow2(n) && 0 <= t < Pow2(n) && Step(c, s) == Step(c, t) ==> s == t
  }

  /** No two states have the same successor exactly when the last coefficient is
      there. */
  lemma ReversibleIff(c: nat, n: nat)
    requires n > 0 && c < Pow2(n)
    ensures Reversible(c, n) <==> Coefficients(c, n)
  {
    hide Step;
    if Coefficients(c, n) {
      forall s, t | 0 <= s < Pow2(n) && 0 <= t < Pow2(n) && Step(c, s) == Step(c, t)
        ensures s == t
      {
        StepInjective(c, n, s, t);
      }
    } else {
      Collision(c, n);
    }
  }

  // ----- cycles ---------------------------------------------------------------------------------

  /** The state after `k` bits. */
  function Orbit(c: nat, s: nat, k: nat): nat {
    if k == 0 then s else Step(c, Orbit(c, s, k - 1))
  }

  lemma {:induction false} OrbitStays(c: nat, n: nat, s: nat, k: nat)
    requires Coefficients(c, n) && s < Pow2(n)
    ensures Orbit(c, s, k) < Pow2(n)
    ensures s > 0 ==> Orbit(c, s, k) > 0
  {
    if k > 0 {
      var t := Orbit(c, s, k - 1);
      OrbitStays(c, n, s, k - 1);
      ProcessBound(c, n, t, OutBit(t));
      if Step(c, t) == 0 {
        assert Step(c, 0) == 0;
        StepInjective(c, n, t, 0);
      }
    }
  }

  lemma {:induction false} OrbitBack(c: nat, n: nat, s: nat, i: nat, j: nat)
    requires Coefficients(c, n) && s < Pow2(n) && i <= j && Orbit(c, s, i) == Orbit(c, s, j)
    ensures Orbit(c, s, j - i) == s
  {
    if i > 0 {
      OrbitStays(c, n, s, i - 1);
      OrbitStays(c, n, s, j - 1);
      StepInjective(c, n, Orbit(c, s, i - 1), Orbit(c, s, j - 1));
      OrbitBack(c, n, s, i - 1, j - 1);
    }
  }

  function Below(n: nat): set<int> {
    if n == 0 then {} else Below(n - 1) + {n - 1}
  }

  lemma {:induction false} BelowSize(n: nat)
    ensures |Below(n)| == n && forall x :: x in Below(n) <==> 0 <= x < n
  {
    if n > 0 {
      BelowSize(n - 1);
    }
  }

  lemma {:induction false} DistinctSize(f: seq<int>)
    requires forall i, j :: 0 <= i < j < |f| ==> f[i] != f[j]
    ensures |set x | x in f| == |f|
  {
    var all := set x | x in f;
    if f == [] {
      assert all == {};
    } else {
      var rest := f[..|f| - 1];
      DistinctSize(rest);
      assert f == rest + [f[|f| - 1]];
      assert all == (set x | x in rest) + {f[|f| - 1]};
    }
  }

  lemma SubsetSize(a: set<int>, b: set<int>)
    requires a <= b
    ensures |a| <= |b|
  {
    assert b == a + (b - a);
  }

  /** More values than there is room for. */
  lemma Pigeonhole(f: seq<int>, n: nat) returns (i: int, j: int)
    requires |f| > n && forall k :: 0 <= k < |f| ==> 0 <= f[k] < n
    ensures 0 <= i < j < |f| && f[i] == f[j]
  {
    if forall i, j :: 0 <= i < j < |f| ==> f[i] != f[j] {
      DistinctSize(f);
      BelowSize(n);
      SubsetSize((set x | x in f), Below(n));
      assert false;
    }
    i, j :| 0 <= i < j < |f| && f[i] == f[j];
  }

  /** The generator comes back to any state it started from, and so is finished
      again, after at most 2^n - 1 bits. */
  lemma CycleCloses(c: nat, n: nat, s: nat) returns (k: nat)
    requires Coefficients(c, n) && s < Pow2(n)
    ensures 1 <= k <= Pow2(n) - 1 && Orbit(c, s, k) == s
  {
    if s == 0 {
      assert Orbit(c, 0, 0) == 0 && Orbit(c, 0, 1) == 0;
      return 1;
    }
    var size := Pow2(n);
    var f := seq(size, k requires 0 <= k < size => Orbit(c, s, k) - 1);
    forall k | 0 <= k < |f|
      ensures 0 <= f[k] < size - 1
    {
      OrbitStays(c, n, s, k);
    }
    var i, j := Pigeonhole(f, size - 1);
    OrbitBack(c, n, s, i, j);
    k := j - i;
  }

  /** The generators of 9, 15 and 64 bits all have their last coefficient. */
  lemma StandardGenerators()
    ensures Coefficients(0x0110, 9) && Coefficients(0x6000, 15) && Coefficients(0xD800_0000_0000_0000, 64)
  {
    TopOf64();
  }

  lemma TopOf64()
    ensures Pow2(63) == 0x8000_0000_0000_0000 && Pow2(64) == 2 * Pow2(63)
  {
    assert Pow2(15) == 0x8000 && Pow2(16) == 0x1_0000;
    hide Pow2;
    Pow2Adds(16, 16);
    Pow2Adds(32, 16);
    Pow2Adds(48, 15);
    Pow2Doubles(63);
  }

  // ----- synchronising ----------------------------------------------------------------------------

  /** A register fed with given bits. */
  function Fed(c: nat, t: nat, bits: seq<bool>): nat {
    if bits == [] then t else Process(c, Fed(c, t, bits[..|bits| - 1]), bits[|bits| - 1])
  }

  /** The next `k` bits of a generator. */
  function Output(c: nat, s: nat, k: nat): (bits: seq<bool>)
    ensures |bits| == k
  {
    if k == 0 then [] else Output(c, s, k - 1) + [OutBit(Orbit(c, s, k - 1))]
  }

  lemma {:induction false} GeneratorFeedsItself(c: nat, s: nat, k: nat)
    ensures Fed(c, s, Output(c, s, k)) == Orbit(c, s, k)
  {
    if k > 0 {
      GeneratorFeedsItself(c, s, k - 1);
      assert Output(c, s, k)[..k - 1] == Output(c, s, k - 1);
    }
  }

  /** Two registers fed with the same bits differ less and less. */
  lemma {:induction false} DifferenceShrinks(c: nat, s: nat, t: nat, bits: seq<bool>, n: nat)
    requires |bits| <= n && Xor(s, t) < Pow2(n)
    ensures Xor(Fed(c, s, bits), Fed(c, t, bits)) < Pow2(n - |bits|)
  {
    if bits != [] {
      var rest := bits[..|bits| - 1];
      DifferenceShrinks(c, s, t, rest, n);
      var a, b := Fed(c, s, rest), Fed(c, t, rest);
      XorBits(a, b);
      XorBoth(a / 2, b / 2, c);
    }
  }

  /** Whatever its state, a register fed with `n` bits of a generator has the
      generator's state. */
  lemma Synchronises(c: nat, n: nat, s: nat, t: nat)
    requires c < Pow2(n) && s < Pow2(n) && t < Pow2(n)
    ensures Fed(c, t, Output(c, s, n)) == Orbit(c, s, n)
  {
    XorBound(s, t, n);
    DifferenceShrinks(c, s, t, Output(c, s, n), n);
    GeneratorFeedsItself(c, s, n);
    XorSelf(Fed(c, s, Output(c, s, n)), Fed(c, t, Output(c, s, n)));
  }

  class Prbs {
    const coeff: nat
    const startState: nat
    const len: nat
    var state: nat

    ghost predicate Valid()
      reads this
    {
      len > 0 && coeff < Pow2(len) && startState < Pow2(len) && state < Pow2(len)
    }

    constructor (len: nat, coeff: nat, state: nat)
      requires 0 < len <= 64 && coeff < Pow2(len) && state < Pow2(len)
      ensures Valid() && this.len == len && this.coeff == coeff && this.state == this.startState == state
    {
      this.coeff, this.startState, this.state, this.len := coeff, state, state, len;
    }

    method GenerateBit() returns (bit: bool)
      requires Valid()
      modifies this`state
      ensures Valid() && bit == OutBit(old(state)) && state == Step(coeff, old(state))
    {
      bit := state % 2 == 1;
      ProcessBit(bit);
    }

    method ProcessBit(inBit: bool)
      requires Valid()
      modifies this`state
      ensures Valid() && state == Process(coeff, old(state), inBit)
    {
      ProcessBound(coeff, len, state, inBit);
      state := state / 2;
      if inBit {
        state := Xor(state, coeff);
      }
    }

    method IsFinished() returns (finished: bool)
      ensures finished == (state == startState)
    {
      finished := startState == state;
    }
  }

  /** How many bits until the generator is finished, by generating them. */
  method Period(prbs: Prbs) returns (period: nat)
    requires prbs.Valid() && Coefficients(prbs.coeff, prbs.len) && prbs.state == prbs.startState
    modifies prbs`state
    ensures prbs.Valid() && prbs.state == prbs.startState
    ensures 1 <= period <= Pow2(prbs.len) - 1
    ensures Orbit(prbs.coeff, prbs.startState, period) == prbs.startState
    ensures forall k :: 0 < k < period ==> Orbit(prbs.coeff, prbs.startState, k) != prbs.startState
  {
    hide Step, Pow2;
    ghost var most := CycleCloses(prbs.coeff, prbs.len, prbs.startState);
    var _ := prbs.GenerateBit();
    period := 1;
    var finished := prbs.IsFinished();
    while !finished
      invariant prbs.Valid() && 1 <= period <= most
      invariant prbs.state == Orbit(prbs.coeff, prbs.startState, period)
      invariant finished == (prbs.state == prbs.startState)
      invariant forall k :: 0 < k < period ==> Orbit(prbs.coeff, prbs.startState, k) != prbs.startState
      decreases most - period
    {
      var _ := prbs.GenerateBit();
      period := period + 1;
      finished := prbs.IsFinished();
    }
  }
}
