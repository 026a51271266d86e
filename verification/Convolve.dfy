/** Convolution of interleaved complex samples: the plain multiply-accumulate
    loops, the SSE lane programs, and the dispatch between them.

    Floats are reals, so equality of the forms is equality of what they compute
    and not of how they round. A pointer into a vector with head room is the
    memory as a sequence and the number `head` of complex samples before it. */
module Convolve {

  // ----- what is computed ----------------------------------------------------------------

  /** A product, named so that sums of products can be reasoned about as sums. */
  function Times(a: real, b: real): real { a * b }

  /** Component `c` of the sum over `n` taps of complex samples, from sample
      `at` on, times the real parts of the taps. */
  function RealTaps(x: seq<real>, h: seq<real>, at: int, n: nat, c: int): real
    requires 0 <= at && 0 <= c < 2 && 2 * (at + n) <= |x| && 2 * n <= |h|
  {
    if n == 0 then 0.0 else RealTaps(x, h, at, n - 1, c) + Times(x[2 * (at + n - 1) + c], h[2 * (n - 1)])
  }

  /** Component `c` of the same sum of complex products. */
  function ComplexTaps(x: seq<real>, h: seq<real>, at: int, n: nat, c: int): real
    requires 0 <= at && 0 <= c < 2 && 2 * (at + n) <= |x| && 2 * n <= |h|
  {
    if n == 0 then 0.0 else ComplexTaps(x, h, at, n - 1, c) + Product(x, h, at + n - 1, n - 1, c)
  }

  /** Component `c` of the product of sample `i` and tap `k`. */
  function Product(x: seq<real>, h: seq<real>, i: int, k: int, c: int): real
    requires 0 <= i && 2 * i + 1 < |x| && 0 <= k && 2 * k + 1 < |h|
  {
    if c == 0 then Times(x[2 * i], h[2 * k]) - Times(x[2 * i + 1], h[2 * k + 1])
    else Times(x[2 * i], h[2 * k + 1]) + Times(x[2 * i + 1], h[2 * k])
  }

  /** The taps are complex numbers or only real parts. */
  datatype Kind = RealKind | ComplexKind

  function Taps(kind: Kind, x: seq<real>, h: seq<real>, at: int, n: nat, c: int): real
    requires 0 <= at && 0 <= c < 2 && 2 * (at + n) <= |x| && 2 * n <= |h|
  {
    if kind == RealKind then RealTaps(x, h, at, n, c) else ComplexTaps(x, h, at, n, c)
  }

  function SumOf(terms: seq<real>): real {
    if terms == [] then 0.0 else SumOf(terms[..|terms| - 1]) + terms[|terms| - 1]
  }

  lemma SumOfNext(terms: seq<real>, term: real)
    ensures SumOf(terms + [term]) == SumOf(terms) + term
  {
    assert (terms + [term])[..|terms|] == terms;
  }

  /** Without recursion: sums of products of floats. */
  lemma {:induction false} RealTapsAre(x: seq<real>, h: seq<real>, at: int, n: nat, c: int)
    requires 0 <= at && 0 <= c < 2 && 2 * (at + n) <= |x| && 2 * n <= |h|
    ensures Taps(RealKind, x, h, at, n, c)
            == SumOf(seq(n, k requires 0 <= k < n => x[2 * (at + k) + c] * h[2 * k]))
  {
    if n > 0 {
      RealTapsAre(x, h, at, n - 1, c);
      var terms := seq(n, k requires 0 <= k < n => x[2 * (at + k) + c] * h[2 * k]);
      assert terms[..n - 1] == seq(n - 1, k requires 0 <= k < n - 1 => x[2 * (at + k) + c] * h[2 * k]);
    }
  }

  lemma {:induction false} ComplexTapsAre(x: seq<real>, h: seq<real>, at: int, n: nat)
    requires 0 <= at && 2 * (at + n) <= |x| && 2 * n <= |h|
    ensures Taps(ComplexKind, x, h, at, n, 0)
            == SumOf(seq(n, k requires 0 <= k < n =>
                 x[2 * (at + k)] * h[2 * k] - x[2 * (at + k) + 1] * h[2 * k + 1]))
    ensures Taps(ComplexKind, x, h, at, n, 1)
            == SumOf(seq(n, k requires 0 <= k < n =>
                 x[2 * (at + k)] * h[2 * k + 1] + x[2 * (at + k) + 1] * h[2 * k]))
  {
    if n > 0 {
      ComplexTapsAre(x, h, at, n - 1);
      var re := seq(n, k requires 0 <= k < n => x[2 * (at + k)] * h[2 * k] - x[2 * (at + k) + 1] * h[2 * k + 1]);
      var im := seq(n, k requires 0 <= k < n => x[2 * (at + k)] * h[2 * k + 1] + x[2 * (at + k) + 1] * h[2 * k]);
      assert re[..n - 1] == seq(n - 1, k requires 0 <= k < n - 1 =>
               x[2 * (at + k)] * h[2 * k] - x[2 * (at + k) + 1] * h[2 * k + 1]);
      assert im[..n - 1] == seq(n - 1, k requires 0 <= k < n - 1 =>
               x[2 * (at + k)] * h[2 * k + 1] + x[2 * (at + k) + 1] * h[2 * k]);
    }
  }

  /** Component `c` of complex sample `i`. */
  function Part(m: seq<real>, i: int, c: int): real
    requires 0 <= 2 * i + c < |m|
  {
    m[2 * i + c]
  }

  /** Taps, samples and outputs lie inside their memories: `n` outputs at float
      index `y0`, the first from the `hLen` samples from `from` on. */
  ghost predicate InMemory(x: seq<real>, h: seq<real>, hLen: int, from: int, y: seq<real>, y0: int, n: int) {
    && hLen >= 1 && 2 * hLen <= |h| && 0 <= from && 0 <= n && 0 <= y0
    && (n > 0 ==> 2 * (from + n - 1 + hLen) <= |x|) && y0 + 2 * n <= |y|
  }

  /** Output memory `y` is `y1` with the `n` outputs from `y0` on replaced by the
      convolution of the samples from `from` on. */
  ghost predicate Convolved(kind: Kind, x: seq<real>, h: seq<real>, hLen: int, from: int, y: seq<real>, y1: seq<real>,
                            y0: int, n: int) {
    && InMemory(x, h, hLen, from, y, y0, n) && |y| == |y1|
    && (forall i :: 0 <= i < n ==>
          && Part(y[y0..], i, 0) == Taps(kind, x, h, from + i, hLen, 0)
          && Part(y[y0..], i, 1) == Taps(kind, x, h, from + i, hLen, 1))
    && y[..y0] == y1[..y0] && y[y0 + 2 * n..] == y1[y0 + 2 * n..]
  }

  /** Output `i` of a convolution, float by float: the sum of the taps times as many
      samples from the `i`th on; and the memory around the outputs is as it was. */
  lemma ConvolvedMeans(kind: Kind, x: seq<real>, h: seq<real>, hLen: nat, from: nat, y: seq<real>, y1: seq<real>,
                       y0: nat, n: nat, i: nat)
    requires Convolved(kind, x, h, hLen, from, y, y1, y0, n) && i < n
    ensures 2 * (from + i + hLen) <= |x| && 2 * hLen <= |h| && y0 + 2 * n <= |y|
    ensures kind == RealKind ==>
              && y[y0 + 2 * i] == SumOf(seq(hLen, k requires 0 <= k < hLen => x[2 * (from + i + k) + 0] * h[2 * k]))
              && y[y0 + 2 * i + 1] == SumOf(seq(hLen, k requires 0 <= k < hLen => x[2 * (from + i + k) + 1] * h[2 * k]))
    ensures kind == ComplexKind ==>
              && y[y0 + 2 * i] == SumOf(seq(hLen, k requires 0 <= k < hLen =>
                   x[2 * (from + i + k)] * h[2 * k] - x[2 * (from + i + k) + 1] * h[2 * k + 1]))
              && y[y0 + 2 * i + 1] == SumOf(seq(hLen, k requires 0 <= k < hLen =>
                   x[2 * (from + i + k)] * h[2 * k + 1] + x[2 * (from + i + k) + 1] * h[2 * k]))
    ensures y[..y0] == y1[..y0] && y[y0 + 2 * n..] == y1[y0 + 2 * n..]
  {
    hide Taps;
    assert Part(y[y0..], i, 0) == y[y0 + 2 * i] && Part(y[y0..], i, 1) == y[y0 + 2 * i + 1];
    if kind == RealKind {
      RealTapsAre(x, h, from + i, hLen, 0);
      RealTapsAre(x, h, from + i, hLen, 1);
    } else {
      ComplexTapsAre(x, h, from + i, hLen);
    }
  }

  /** Storing the next output. */
  lemma ConvolvedNext(kind: Kind, x: seq<real>, h: seq<real>, hLen: int, from: int, y: seq<real>, y1: seq<real>,
                      y0: int, n: int, re: real, im: real)
    requires Convolved(kind, x, h, hLen, from, y, y1, y0, n) && InMemory(x, h, hLen, from, y, y0, n + 1)
    requires re == Taps(kind, x, h, from + n, hLen, 0) && im == Taps(kind, x, h, from + n, hLen, 1)
    ensures Convolved(kind, x, h, hLen, from, y[y0 + 2 * n := re][y0 + 2 * n + 1 := im], y1, y0, n + 1)
  {
    hide Taps;
    var y' := y[y0 + 2 * n := re][y0 + 2 * n + 1 := im];
    forall i | 0 <= i < n + 1
      ensures Part(y'[y0..], i, 0) == Taps(kind, x, h, from + i, hLen, 0)
              && Part(y'[y0..], i, 1) == Taps(kind, x, h, from + i, hLen, 1)
    {
      if i < n {
        assert Part(y[y0..], i, 0) == Taps(kind, x, h, from + i, hLen, 0);
      }
    }
  }

  lemma ConvolvedNothing(kind: Kind, x: seq<real>, h: seq<real>, hLen: int, from: int, y: seq<real>, y0: int)
    requires InMemory(x, h, hLen, from, y, y0, 0)
    ensures Convolved(kind, x, h, hLen, from, y, y, y0, 0)
  {
  }

  /** The convolution is all there is to say about the output. */
  lemma ConvolvedIsUnique(kind: Kind, x: seq<real>, h: seq<real>, hLen: int, from: int, y: seq<real>, z: seq<real>,
                          y1: seq<real>, y0: int, n: int)
    requires Convolved(kind, x, h, hLen, from, y, y1, y0, n) && Convolved(kind, x, h, hLen, from, z, y1, y0, n)
    ensures y == z
  {
    hide Taps;
    forall k | 0 <= k < |y|
      ensures y[k] == z[k]
    {
      if k < y0 {
        assert y[..y0][k] == z[..y0][k];
      } else if k >= y0 + 2 * n {
        assert y[y0 + 2 * n..][k - y0 - 2 * n] == z[y0 + 2 * n..][k - y0 - 2 * n];
      } else {
        var i := (k - y0) / 2;
        assert Part(y[y0..], i, (k - y0) % 2) == Part(z[y0..], i, (k - y0) % 2);
      }
    }
  }

  // ----- lanes -----------------------------------------------------------------------------

  /** An `__m128`. */
  datatype Quad = Quad(l0: real, l1: real, l2: real, l3: real) {
    function Lane(i: int): real
      requires 0 <= i < 4
    {
      if i == 0 then l0 else if i == 1 then l1 else if i == 2 then l2 else l3
    }

    function Sum(): real { l0 + l1 + l2 + l3 }
  }

  const ZERO := Quad(0.0, 0.0, 0.0, 0.0)

  function Load(m: seq<real>, at: int): Quad
    requires 0 <= at && at + 4 <= |m|
  {
    Quad(m[at], m[at + 1], m[at + 2], m[at + 3])
  }

  /** `_mm_shuffle_ps(a, b, _MM_SHUFFLE(z, y, x, w))`. */
  function Shuffle(a: Quad, b: Quad, z: int, y: int, x: int, w: int): Quad
    requires 0 <= z < 4 && 0 <= y < 4 && 0 <= x < 4 && 0 <= w < 4
  {
    Quad(a.Lane(w), a.Lane(x), b.Lane(y), b.Lane(z))
  }

  function Mul(a: Quad, b: Quad): Quad {
    Quad(Times(a.l0, b.l0), Times(a.l1, b.l1), Times(a.l2, b.l2), Times(a.l3, b.l3))
  }

  function Add(a: Quad, b: Quad): Quad { Quad(a.l0 + b.l0, a.l1 + b.l1, a.l2 + b.l2, a.l3 + b.l3) }

  function Sub(a: Quad, b: Quad): Quad { Quad(a.l0 - b.l0, a.l1 - b.l1, a.l2 - b.l2, a.l3 - b.l3) }

  function HAdd(a: Quad, b: Quad): Quad { Quad(a.l0 + a.l1, a.l2 + a.l3, b.l0 + b.l1, b.l2 + b.l3) }

  lemma SumOfAdd(a: Quad, b: Quad)
    ensures Add(a, b).Sum() == a.Sum() + b.Sum()
  {
  }

  /** Two horizontal adds and a rotation leave the two lane sums in lane 0 one
      after the other. */
  lemma HorizontalSums(re: Quad, im: Quad)
    ensures var m := HAdd(HAdd(re, im), HAdd(re, im));
            m.Lane(0) == re.Sum() && Shuffle(m, m, 0, 3, 2, 1).Lane(0) == im.Sum()
  {
  }

  /** The real parts of the four complex samples from float index `at` on, in
      the order the shuffle leaves them, and the imaginary parts. */
  function Evens(m: seq<real>, at: int): Quad
    requires 0 <= at && at + 8 <= |m|
  {
    Shuffle(Load(m, at), Load(m, at + 4), 0, 2, 0, 2)
  }

  function Odds(m: seq<real>, at: int): Quad
    requires 0 <= at && at + 8 <= |m|
  {
    Shuffle(Load(m, at), Load(m, at + 4), 1, 3, 1, 3)
  }

  /** Four more taps are the lane sums of the products of one block, whatever
      order the lanes are in. */
  lemma FourRealTaps(x: seq<real>, h: seq<real>, at: int, n: nat)
    requires 0 <= at && 2 * (at + n + 4) <= |x| && 2 * (n + 4) <= |h|
    ensures RealTaps(x, h, at, n + 4, 0)
            == RealTaps(x, h, at, n, 0) + Mul(Evens(x, 2 * (at + n)), Evens(h, 2 * n)).Sum()
    ensures RealTaps(x, h, at, n + 4, 1) == RealTaps(x, h, at, n, 1) + Mul(Odds(x, 2 * (at + n)), Evens(h, 2 * n)).Sum()
  {
    hide Times;
    FourMore(x, h, at, n, 0);
    FourMore(x, h, at, n, 1);
  }

  lemma FourMore(x: seq<real>, h: seq<real>, at: int, n: nat, c: int)
    requires 0 <= at && 0 <= c < 2 && 2 * (at + n + 4) <= |x| && 2 * (n + 4) <= |h|
    ensures var i, k := 2 * (at + n) + c, 2 * n;
            RealTaps(x, h, at, n + 4, c)
            == RealTaps(x, h, at, n, c) + Times(x[i], h[k]) + Times(x[i + 2], h[k + 2]) + Times(x[i + 4], h[k + 4])
              + Times(x[i + 6], h[k + 6])
  {
    hide Times;
    var i, k := 2 * (at + n) + c, 2 * n;
    assert RealTaps(x, h, at, n + 1, c) == RealTaps(x, h, at, n, c) + Times(x[i], h[k]);
    assert RealTaps(x, h, at, n + 2, c) == RealTaps(x, h, at, n + 1, c) + Times(x[i + 2], h[k + 2]);
    assert RealTaps(x, h, at, n + 3, c) == RealTaps(x, h, at, n + 2, c) + Times(x[i + 4], h[k + 4]);
    assert RealTaps(x, h, at, n + 4, c) == RealTaps(x, h, at, n + 3, c) + Times(x[i + 6], h[k + 6]);
  }

  lemma FourComplexTaps(x: seq<real>, h: seq<real>, at: int, n: nat)
    requires 0 <= at && 2 * (at + n + 4) <= |x| && 2 * (n + 4) <= |h|
    ensures var xe, xo, he, ho := Evens(x, 2 * (at + n)), Odds(x, 2 * (at + n)), Evens(h, 2 * n), Odds(h, 2 * n);
            && ComplexTaps(x, h, at, n + 4, 0) == ComplexTaps(x, h, at, n, 0) + Sub(Mul(he, xe), Mul(ho, xo)).Sum()
            && ComplexTaps(x, h, at, n + 4, 1) == ComplexTaps(x, h, at, n, 1) + Add(Mul(he, xo), Mul(ho, xe)).Sum()
  {
    hide Times;
    var xe, xo, he, ho := Evens(x, 2 * (at + n)), Odds(x, 2 * (at + n)), Evens(h, 2 * n), Odds(h, 2 * n);
    MulCommutes(he, xe);
    MulCommutes(ho, xo);
    MulCommutes(he, xo);
    MulCommutes(ho, xe);
    FourMoreComplex(x, h, at, n, 0);
    FourMoreComplex(x, h, at, n, 1);
  }

  lemma FourMoreComplex(x: seq<real>, h: seq<real>, at: int, n: nat, c: int)
    requires 0 <= at && 0 <= c < 2 && 2 * (at + n + 4) <= |x| && 2 * (n + 4) <= |h|
    ensures ComplexTaps(x, h, at, n + 4, c)
            == ComplexTaps(x, h, at, n, c) + Product(x, h, at + n, n, c) + Product(x, h, at + n + 1, n + 1, c)
               + Product(x, h, at + n + 2, n + 2, c) + Product(x, h, at + n + 3, n + 3, c)
  {
    hide Times;
    assert ComplexTaps(x, h, at, n + 1, c) == ComplexTaps(x, h, at, n, c) + Product(x, h, at + n, n, c);
    assert ComplexTaps(x, h, at, n + 2, c) == ComplexTaps(x, h, at, n + 1, c) + Product(x, h, at + n + 1, n + 1, c);
    assert ComplexTaps(x, h, at, n + 3, c) == ComplexTaps(x, h, at, n + 2, c) + Product(x, h, at + n + 2, n + 2, c);
  }

  lemma MulCommutes(a: Quad, b: Quad)
    ensures Mul(a, b) == Mul(b, a)
  {
  }

  // ----- the plain form ----------------------------------------------------------------------

  /** Component `c` of what one sample and one tap contribute. */
  function Tap(kind: Kind, x: seq<real>, h: seq<real>, i: int, k: int, c: int): real
    requires 0 <= i && 2 * i + 1 < |x| && 0 <= k && 2 * k + 1 < |h| && 0 <= c < 2
  {
    if kind == RealKind then Times(x[2 * i + c], h[2 * k]) else Product(x, h, i, k, c)
  }

  lemma OneMoreTap(kind: Kind, x: seq<real>, h: seq<real>, at: int, n: nat, c: int)
    requires 0 <= at && 0 <= c < 2 && 2 * (at + n + 1) <= |x| && 2 * (n + 1) <= |h|
    ensures Taps(kind, x, h, at, n + 1, c) == Taps(kind, x, h, at, n, c) + Tap(kind, x, h, at + n, n, c)
  {
    hide Times;
  }

  /** `mac_real` and `mac_cmplx`, at sample `i`, tap `k` and output float `o`. */
  method Mac(kind: Kind, x: seq<real>, i: nat, h: seq<real>, k: nat, y: array<real>, o: nat)
    requires 2 * i + 1 < |x| && 2 * k + 1 < |h| && o + 1 < y.Length
    modifies y
    ensures y[..] == old(y[..])[o := old(y[o]) + Tap(kind, x, h, i, k, 0)]
                               [o + 1 := old(y[o + 1]) + Tap(kind, x, h, i, k, 1)]
  {
    if kind == RealKind {
      y[o] := y[o] + Times(x[2 * i], h[2 * k]);
      y[o + 1] := y[o + 1] + Times(x[2 * i + 1], h[2 * k]);
    } else {
      y[o] := y[o] + (Times(x[2 * i], h[2 * k]) - Times(x[2 * i + 1], h[2 * k + 1]));
      y[o + 1] := y[o + 1] + (Times(x[2 * i], h[2 * k + 1]) + Times(x[2 * i + 1], h[2 * k]));
    }
  }

  /** `mac_real_vec_n` and `mac_cmplx_vec_n`: adds `n` taps to one output. */
  method MacVec(kind: Kind, x: seq<real>, at: int, h: seq<real>, n: nat, y: array<real>, o: nat)
    requires 0 <= at && 2 * (at + n) <= |x| && 2 * n <= |h| && o + 1 < y.Length
    modifies y
    ensures y[..] == old(y[..])[o := old(y[o]) + Taps(kind, x, h, at, n, 0)]
                               [o + 1 := old(y[o + 1]) + Taps(kind, x, h, at, n, 1)]
  {
    hide Times, Tap;
    for k := 0 to n
      invariant y[..] == old(y[..])[o := old(y[o]) + Taps(kind, x, h, at, k, 0)]
                                   [o + 1 := old(y[o + 1]) + Taps(kind, x, h, at, k, 1)]
    {
      OneMoreTap(kind, x, h, at, k, 0);
      OneMoreTap(kind, x, h, at, k, 1);
      Mac(kind, x, at + k, h, k, y, o);
    }
  }

  /** `_base_convolve_real` and `_base_convolve_complex`, on zeroed outputs. */
  method BaseConvolve(kind: Kind, x: seq<real>, h: seq<real>, hLen: nat, from: nat, y: array<real>, y0: nat, len: nat,
                      ghost y1: seq<real>)
    requires InMemory(x, h, hLen, from, y[..], y0, len) && |y1| == y.Length
    requires y[..y0] == y1[..y0] && y[y0 + 2 * len..] == y1[y0 + 2 * len..]
    requires forall k :: y0 <= k < y0 + 2 * len ==> y[k] == 0.0
    modifies y
    ensures Convolved(kind, x, h, hLen, from, y[..], y1, y0, len)
  {
    hide Taps, Convolved;
    ghost var z := y[..];
    ConvolvedNothing(kind, x, h, hLen, from, z, y0);
    for i := 0 to len
      invariant Convolved(kind, x, h, hLen, from, y[..], z, y0, i)
      invariant forall k :: y0 + 2 * i <= k < y0 + 2 * len ==> y[k] == 0.0
    {
      ConvolvedNext(kind, x, h, hLen, from, y[..], z, y0, i, Taps(kind, x, h, from + i, hLen, 0),
                    Taps(kind, x, h, from + i, hLen, 1));
      MacVec(kind, x, from + i, h, hLen, y, y0 + 2 * i);
    }
    ConvolvedFrom(kind, x, h, hLen, from, y[..], z, y1, y0, len);
  }

  lemma ConvolvedFrom(kind: Kind, x: seq<real>, h: seq<real>, hLen: int, from: int, y: seq<real>, z: seq<real>,
                      y1: seq<real>, y0: int, n: int)
    requires Convolved(kind, x, h, hLen, from, y, z, y0, n) && |y1| == |z|
    requires z[..y0] == y1[..y0] && z[y0 + 2 * n..] == y1[y0 + 2 * n..]
    ensures Convolved(kind, x, h, hLen, from, y, y1, y0, n)
  {
    hide Taps;
  }
}
