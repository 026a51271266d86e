/** The SSE convolution kernels as lane programs: register for register, shuffle
    for shuffle, each against the same sum of products as the plain loops. */
module SseKernels {
  import opened Convolve

  /** The end of every kernel: two horizontal adds, a store, a rotation and
      another store. */
  method StoreSums(re: Quad, im: Quad, y: array<real>, o: nat)
    requires o + 1 < y.Length
    modifies y
    ensures y[..] == old(y[..])[o := re.Sum()][o + 1 := im.Sum()]
  {
    HorizontalSums(re, im);
    var m := HAdd(re, im);
    m := HAdd(m, m);
    y[o] := m.Lane(0);
    m := Shuffle(m, m, 0, 3, 2, 1);
    y[o + 1] := m.Lane(0);
  }

  /** The lane sums of the real and imaginary products of tap block `b`. */
  function ReBlock(x: seq<real>, h: seq<real>, at: int, b: nat): real
    requires 0 <= at && 2 * (at + 4 * b + 4) <= |x| && 8 * b + 8 <= |h|
  {
    Mul(Evens(x, 2 * at + 8 * b), Evens(h, 8 * b)).Sum()
  }

  function ImBlock(x: seq<real>, h: seq<real>, at: int, b: nat): real
    requires 0 <= at && 2 * (at + 4 * b + 4) <= |x| && 8 * b + 8 <= |h|
  {
    Mul(Odds(x, 2 * at + 8 * b), Evens(h, 8 * b)).Sum()
  }

  lemma NextBlock(x: seq<real>, h: seq<real>, at: int, b: nat)
    requires 0 <= at && 2 * (at + 4 * b + 4) <= |x| && 8 * b + 8 <= |h|
    ensures Taps(RealKind, x, h, at, 4 * b + 4, 0) == Taps(RealKind, x, h, at, 4 * b, 0) + ReBlock(x, h, at, b)
    ensures Taps(RealKind, x, h, at, 4 * b + 4, 1) == Taps(RealKind, x, h, at, 4 * b, 1) + ImBlock(x, h, at, b)
    ensures b == 0 ==> Taps(RealKind, x, h, at, 0, 0) == 0.0 && Taps(RealKind, x, h, at, 0, 1) == 0.0
  {
    FourRealTaps(x, h, at, 4 * b);
  }

  /** 4 taps. */
  method Real4(x: seq<real>, h: seq<real>, from: nat, y: array<real>, y0: nat, len: nat)
    requires InMemory(x, h, 4, from, y[..], y0, len)
    modifies y
    ensures Convolved(RealKind, x, h, 4, from, y[..], old(y[..]), y0, len)
  {
    hide Taps, Convolved, Mul, Quad.Sum;
    var m0 := Load(h, 0);
    var m1 := Load(h, 4);
    var m7 := Shuffle(m0, m1, 0, 2, 0, 2);
    ConvolvedNothing(RealKind, x, h, 4, from, y[..], y0);
    for i := 0 to len
      invariant Convolved(RealKind, x, h, 4, from, y[..], old(y[..]), y0, i)
    {
      var at := 2 * (from + i);
      m0 := Load(x, at);
      m1 := Load(x, at + 4);
      var m2 := Shuffle(m0, m1, 0, 2, 0, 2);
      var m3 := Shuffle(m0, m1, 1, 3, 1, 3);
      var m4 := Mul(m2, m7);
      var m5 := Mul(m3, m7);
      NextBlock(x, h, from + i, 0);
      ConvolvedNext(RealKind, x, h, 4, from, y[..], old(y[..]), y0, i, Taps(RealKind, x, h, from + i, 4, 0),
                    Taps(RealKind, x, h, from + i, 4, 1));
      StoreSums(m4, m5, y, y0 + 2 * i);
    }
  }

  /** 8 taps. */
  method Real8(x: seq<real>, h: seq<real>, from: nat, y: array<real>, y0: nat, len: nat)
    requires InMemory(x, h, 8, from, y[..], y0, len)
    modifies y
    ensures Convolved(RealKind, x, h, 8, from, y[..], old(y[..]), y0, len)
  {
    hide Taps, Convolved, Mul, Quad.Sum;
    var m0, m1, m2, m3 := Load(h, 0), Load(h, 4), Load(h, 8), Load(h, 12);
    var m4 := Shuffle(m0, m1, 0, 2, 0, 2);
    var m5 := Shuffle(m2, m3, 0, 2, 0, 2);
    ConvolvedNothing(RealKind, x, h, 8, from, y[..], y0);
    for i := 0 to len
      invariant Convolved(RealKind, x, h, 8, from, y[..], old(y[..]), y0, i)
    {
      var at := 2 * (from + i);
      m0, m1, m2, m3 := Load(x, at), Load(x, at + 4), Load(x, at + 8), Load(x, at + 12);
      var m6 := Shuffle(m0, m1, 0, 2, 0, 2);
      var m7 := Shuffle(m0, m1, 1, 3, 1, 3);
      var m8 := Shuffle(m2, m3, 0, 2, 0, 2);
      var m9 := Shuffle(m2, m3, 1, 3, 1, 3);
      m6 := Mul(m6, m4);
      m7 := Mul(m7, m4);
      m8 := Mul(m8, m5);
      m9 := Mul(m9, m5);
      SumOfAdd(m6, m8);
      SumOfAdd(m7, m9);
      m6 := Add(m6, m8);
      m7 := Add(m7, m9);
      NextBlock(x, h, from + i, 0);
      NextBlock(x, h, from + i, 1);
      ConvolvedNext(RealKind, x, h, 8, from, y[..], old(y[..]), y0, i, Taps(RealKind, x, h, from + i, 8, 0),
                    Taps(RealKind, x, h, from + i, 8, 1));
      StoreSums(m6, m7, y, y0 + 2 * i);
    }
  }

  /** 12 taps. */
  method Real12(x: seq<real>, h: seq<real>, from: nat, y: array<real>, y0: nat, len: nat)
    requires InMemory(x, h, 12, from, y[..], y0, len)
    modifies y
    ensures Convolved(RealKind, x, h, 12, from, y[..], old(y[..]), y0, len)
  {
    hide Taps, Convolved, Mul, Quad.Sum;
    var m0, m1, m2, m3, m4, m5 := Load(h, 0), Load(h, 4), Load(h, 8), Load(h, 12), Load(h, 16), Load(h, 20);
    var m12 := Shuffle(m0, m1, 0, 2, 0, 2);
    var m13 := Shuffle(m2, m3, 0, 2, 0, 2);
    var m14 := Shuffle(m4, m5, 0, 2, 0, 2);
    ConvolvedNothing(RealKind, x, h, 12, from, y[..], y0);
    for i := 0 to len
      invariant Convolved(RealKind, x, h, 12, from, y[..], old(y[..]), y0, i)
    {
      var at := 2 * (from + i);
      m0, m1, m2, m3 := Load(x, at), Load(x, at + 4), Load(x, at + 8), Load(x, at + 12);
      m4 := Shuffle(m0, m1, 0, 2, 0, 2);
      m5 := Shuffle(m0, m1, 1, 3, 1, 3);
      var m6 := Shuffle(m2, m3, 0, 2, 0, 2);
      var m7 := Shuffle(m2, m3, 1, 3, 1, 3);
      m0, m1 := Load(x, at + 16), Load(x, at + 20);
      var m8 := Shuffle(m0, m1, 0, 2, 0, 2);
      var m9 := Shuffle(m0, m1, 1, 3, 1, 3);
      m0 := Mul(m4, m12);
      m1 := Mul(m5, m12);
      m2 := Mul(m6, m13);
      m3 := Mul(m7, m13);
      m4 := Mul(m8, m14);
      m5 := Mul(m9, m14);
      m8 := Add(m0, m2);
      m9 := Add(m1, m3);
      var m10 := Add(m8, m4);
      var m11 := Add(m9, m5);
      NextBlock(x, h, from + i, 0);
      NextBlock(x, h, from + i, 1);
      NextBlock(x, h, from + i, 2);
      SumOfAdd(m0, m2);
      SumOfAdd(m1, m3);
      SumOfAdd(m8, m4);
      SumOfAdd(m9, m5);
      ConvolvedNext(RealKind, x, h, 12, from, y[..], old(y[..]), y0, i, Taps(RealKind, x, h, from + i, 12, 0),
                    Taps(RealKind, x, h, from + i, 12, 1));
      StoreSums(m10, m11, y, y0 + 2 * i);
    }
  }

  /** 16 taps. */
  method Real16(x: seq<real>, h: seq<real>, from: nat, y: array<real>, y0: nat, len: nat)
    requires InMemory(x, h, 16, from, y[..], y0, len)
    modifies y
    ensures Convolved(RealKind, x, h, 16, from, y[..], old(y[..]), y0, len)
  {
    hide Taps, Convolved, Mul, Quad.Sum;
    var m0, m1, m2, m3 := Load(h, 0), Load(h, 4), Load(h, 8), Load(h, 12);
    var m4, m5, m6, m7 := Load(h, 16), Load(h, 20), Load(h, 24), Load(h, 28);
    var m12 := Shuffle(m0, m1, 0, 2, 0, 2);
    var m13 := Shuffle(m2, m3, 0, 2, 0, 2);
    var m14 := Shuffle(m4, m5, 0, 2, 0, 2);
    var m15 := Shuffle(m6, m7, 0, 2, 0, 2);
    ConvolvedNothing(RealKind, x, h, 16, from, y[..], y0);
    for i := 0 to len
      invariant Convolved(RealKind, x, h, 16, from, y[..], old(y[..]), y0, i)
    {
      var at := 2 * (from + i);
      m0, m1, m2, m3 := Load(x, at), Load(x, at + 4), Load(x, at + 8), Load(x, at + 12);
      m4 := Shuffle(m0, m1, 0, 2, 0, 2);
      m5 := Shuffle(m0, m1, 1, 3, 1, 3);
      m6 := Shuffle(m2, m3, 0, 2, 0, 2);
      m7 := Shuffle(m2, m3, 1, 3, 1, 3);
      m0, m1, m2, m3 := Load(x, at + 16), Load(x, at + 20), Load(x, at + 24), Load(x, at + 28);
      var m8 := Shuffle(m0, m1, 0, 2, 0, 2);
      var m9 := Shuffle(m0, m1, 1, 3, 1, 3);
      var m10 := Shuffle(m2, m3, 0, 2, 0, 2);
      var m11 := Shuffle(m2, m3, 1, 3, 1, 3);
      m0 := Mul(m4, m12);
      m1 := Mul(m5, m12);
      m2 := Mul(m6, m13);
      m3 := Mul(m7, m13);
      m4 := Mul(m8, m14);
      m5 := Mul(m9, m14);
      m6 := Mul(m10, m15);
      m7 := Mul(m11, m15);
      m8 := Add(m0, m2);
      m9 := Add(m1, m3);
      m10 := Add(m4, m6);
      m11 := Add(m5, m7);
      SumOfAdd(m0, m2);
      SumOfAdd(m1, m3);
      m0 := Add(m8, m10);
      m1 := Add(m9, m11);
      NextBlock(x, h, from + i, 0);
      NextBlock(x, h, from + i, 1);
      NextBlock(x, h, from + i, 2);
      NextBlock(x, h, from + i, 3);
      SumOfAdd(m4, m6);
      SumOfAdd(m5, m7);
      SumOfAdd(m8, m10);
      SumOfAdd(m9, m11);
      ConvolvedNext(RealKind, x, h, 16, from, y[..], old(y[..]), y0, i, Taps(RealKind, x, h, from + i, 16, 0),
                    Taps(RealKind, x, h, from + i, 16, 1));
      StoreSums(m0, m1, y, y0 + 2 * i);
    }
  }

  /** 20 taps. */
  method Real20(x: seq<real>, h: seq<real>, from: nat, y: array<real>, y0: nat, len: nat)
    requires InMemory(x, h, 20, from, y[..], y0, len)
    modifies y
    ensures Convolved(RealKind, x, h, 20, from, y[..], old(y[..]), y0, len)
  {
    hide Taps, Convolved, Mul, Quad.Sum;
    var m0, m1, m2, m3, m4 := Load(h, 0), Load(h, 4), Load(h, 8), Load(h, 12), Load(h, 16);
    var m5, m6, m7, m8, m9 := Load(h, 20), Load(h, 24), Load(h, 28), Load(h, 32), Load(h, 36);
    var m11 := Shuffle(m0, m1, 0, 2, 0, 2);
    var m12 := Shuffle(m2, m3, 0, 2, 0, 2);
    var m13 := Shuffle(m4, m5, 0, 2, 0, 2);
    var m14 := Shuffle(m6, m7, 0, 2, 0, 2);
    var m15 := Shuffle(m8, m9, 0, 2, 0, 2);
    ConvolvedNothing(RealKind, x, h, 20, from, y[..], y0);
    for i := 0 to len
      invariant Convolved(RealKind, x, h, 20, from, y[..], old(y[..]), y0, i)
    {
      var at := 2 * (from + i);
      // The first 12 taps.
      m0, m1, m2, m3 := Load(x, at), Load(x, at + 4), Load(x, at + 8), Load(x, at + 12);
      m4, m5 := Load(x, at + 16), Load(x, at + 20);
      m6 := Shuffle(m0, m1, 0, 2, 0, 2);
      m7 := Shuffle(m0, m1, 1, 3, 1, 3);
      m8 := Shuffle(m2, m3, 0, 2, 0, 2);
      m9 := Shuffle(m2, m3, 1, 3, 1, 3);
      m0 := Shuffle(m4, m5, 0, 2, 0, 2);
      m1 := Shuffle(m4, m5, 1, 3, 1, 3);
      m2 := Mul(m6, m11);
      m3 := Mul(m7, m11);
      m4 := Mul(m8, m12);
      m5 := Mul(m9, m12);
      m6 := Mul(m0, m13);
      m7 := Mul(m1, m13);
      m0 := Add(m2, m4);
      m1 := Add(m3, m5);
      m8 := Add(m0, m6);
      m9 := Add(m1, m7);
      SumOfAdd(m2, m4);
      SumOfAdd(m3, m5);
      SumOfAdd(m0, m6);
      SumOfAdd(m1, m7);
      // The last 8 taps.
      m0, m1, m2, m3 := Load(x, at + 24), Load(x, at + 28), Load(x, at + 32), Load(x, at + 36);
      m4 := Shuffle(m0, m1, 0, 2, 0, 2);
      m5 := Shuffle(m0, m1, 1, 3, 1, 3);
      m6 := Shuffle(m2, m3, 0, 2, 0, 2);
      m7 := Shuffle(m2, m3, 1, 3, 1, 3);
      m0 := Mul(m4, m14);
      m1 := Mul(m5, m14);
      m2 := Mul(m6, m15);
      m3 := Mul(m7, m15);
      m4 := Add(m0, m2);
      m5 := Add(m1, m3);
      SumOfAdd(m0, m2);
      SumOfAdd(m1, m3);
      m0 := Add(m8, m4);
      m1 := Add(m9, m5);
      NextBlock(x, h, from + i, 0);
      NextBlock(x, h, from + i, 1);
      NextBlock(x, h, from + i, 2);
      NextBlock(x, h, from + i, 3);
      NextBlock(x, h, from + i, 4);
      SumOfAdd(m8, m4);
      SumOfAdd(m9, m5);
      ConvolvedNext(RealKind, x, h, 20, from, y[..], old(y[..]), y0, i, Taps(RealKind, x, h, from + i, 20, 0),
                    Taps(RealKind, x, h, from + i, 20, 1));
      StoreSums(m0, m1, y, y0 + 2 * i);
    }
  }

  /** Any multiple of four taps. */
  method Real4n(x: seq<real>, h: seq<real>, hLen: nat, from: nat, y: array<real>, y0: nat, len: nat)
    requires hLen % 4 == 0 && InMemory(x, h, hLen, from, y[..], y0, len)
    modifies y
    ensures Convolved(RealKind, x, h, hLen, from, y[..], old(y[..]), y0, len)
  {
    hide Taps, Convolved, Mul, Quad.Sum;
    ConvolvedNothing(RealKind, x, h, hLen, from, y[..], y0);
    for i := 0 to len
      invariant Convolved(RealKind, x, h, hLen, from, y[..], old(y[..]), y0, i)
    {
      var at := 2 * (from + i);
      var m6, m7 := ZERO, ZERO;
      NoTaps(RealKind, x, h, from + i);
      ghost var was := y[..];
      for n := 0 to hLen / 4
        invariant y[..] == was
        invariant m6.Sum() == Taps(RealKind, x, h, from + i, 4 * n, 0)
        invariant m7.Sum() == Taps(RealKind, x, h, from + i, 4 * n, 1)
      {
        var m0 := Load(h, 8 * n);
        var m1 := Load(h, 8 * n + 4);
        var m2 := Shuffle(m0, m1, 0, 2, 0, 2);
        m0 := Load(x, at + 8 * n);
        m1 := Load(x, at + 8 * n + 4);
        var m4 := Shuffle(m0, m1, 0, 2, 0, 2);
        var m5 := Shuffle(m0, m1, 1, 3, 1, 3);
        m0 := Mul(m2, m4);
        m1 := Mul(m2, m5);
        NextBlock(x, h, from + i, n);
        MulCommutes(m2, m4);
        MulCommutes(m2, m5);
        SumOfAdd(m6, m0);
        SumOfAdd(m7, m1);
        m6 := Add(m6, m0);
        m7 := Add(m7, m1);
      }
      ConvolvedNext(RealKind, x, h, hLen, from, y[..], old(y[..]), y0, i, Taps(RealKind, x, h, from + i, hLen, 0),
                    Taps(RealKind, x, h, from + i, hLen, 1));
      StoreSums(m6, m7, y, y0 + 2 * i);
    }
  }

  lemma NoTaps(kind: Kind, x: seq<real>, h: seq<real>, at: int)
    requires 0 <= at && 2 * at <= |x|
    ensures Taps(kind, x, h, at, 0, 0) == 0.0 && Taps(kind, x, h, at, 0, 1) == 0.0
    ensures ZERO.Sum() == 0.0
  {
  }

  lemma NextComplexBlock(x: seq<real>, h: seq<real>, at: int, b: nat)
    requires 0 <= at && 2 * (at + 4 * b + 4) <= |x| && 8 * b + 8 <= |h|
    ensures var xe, xo, he, ho := Evens(x, 2 * at + 8 * b), Odds(x, 2 * at + 8 * b), Evens(h, 8 * b), Odds(h, 8 * b);
            && Taps(ComplexKind, x, h, at, 4 * b + 4, 0)
               == Taps(ComplexKind, x, h, at, 4 * b, 0) + Sub(Mul(he, xe), Mul(ho, xo)).Sum()
            && Taps(ComplexKind, x, h, at, 4 * b + 4, 1)
               == Taps(ComplexKind, x, h, at, 4 * b, 1) + Add(Mul(he, xo), Mul(ho, xe)).Sum()
  {
    FourComplexTaps(x, h, at, 4 * b);
  }

  /** Any multiple of four complex taps. */
  method Complex4n(x: seq<real>, h: seq<real>, hLen: nat, from: nat, y: array<real>, y0: nat, len: nat)
    requires hLen % 4 == 0 && InMemory(x, h, hLen, from, y[..], y0, len)
    modifies y
    ensures Convolved(ComplexKind, x, h, hLen, from, y[..], old(y[..]), y0, len)
  {
    hide Taps, Convolved, Mul, Quad.Sum;
    ConvolvedNothing(ComplexKind, x, h, hLen, from, y[..], y0);
    for i := 0 to len
      invariant Convolved(ComplexKind, x, h, hLen, from, y[..], old(y[..]), y0, i)
    {
      var at := 2 * (from + i);
      var m6, m7 := ZERO, ZERO;
      NoTaps(ComplexKind, x, h, from + i);
      ghost var was := y[..];
      for n := 0 to hLen / 4
        invariant y[..] == was
        invariant m6.Sum() == Taps(ComplexKind, x, h, from + i, 4 * n, 0)
        invariant m7.Sum() == Taps(ComplexKind, x, h, from + i, 4 * n, 1)
      {
        var m0 := Load(h, 8 * n);
        var m1 := Load(h, 8 * n + 4);
        var m2 := Shuffle(m0, m1, 0, 2, 0, 2);
        var m3 := Shuffle(m0, m1, 1, 3, 1, 3);
        m0 := Load(x, at + 8 * n);
        m1 := Load(x, at + 8 * n + 4);
        var m4 := Shuffle(m0, m1, 0, 2, 0, 2);
        var m5 := Shuffle(m0, m1, 1, 3, 1, 3);
        m0 := Mul(m2, m4);
        m1 := Mul(m3, m5);
        m2 := Mul(m2, m5);
        m3 := Mul(m3, m4);
        m0 := Sub(m0, m1);
        m2 := Add(m2, m3);
        NextComplexBlock(x, h, from + i, n);
        SumOfAdd(m6, m0);
        SumOfAdd(m7, m2);
        m6 := Add(m6, m0);
        m7 := Add(m7, m2);
      }
      ConvolvedNext(ComplexKind, x, h, hLen, from, y[..], old(y[..]), y0, i,
                    Taps(ComplexKind, x, h, from + i, hLen, 0), Taps(ComplexKind, x, h, from + i, hLen, 1));
      StoreSums(m6, m7, y, y0 + 2 * i);
    }
  }

  /** Any multiple of eight complex taps, in two interleaved partial sums. */
  method Complex8n(x: seq<real>, h: seq<real>, hLen: nat, from: nat, y: array<real>, y0: nat, len: nat)
    requires hLen % 8 == 0 && InMemory(x, h, hLen, from, y[..], y0, len)
    modifies y
    ensures Convolved(ComplexKind, x, h, hLen, from, y[..], old(y[..]), y0, len)
  {
    hide Taps, Convolved, Mul, Quad.Sum;
    ConvolvedNothing(ComplexKind, x, h, hLen, from, y[..], y0);
    for i := 0 to len
      invariant Convolved(ComplexKind, x, h, hLen, from, y[..], old(y[..]), y0, i)
    {
      var at := 2 * (from + i);
      var m12, m13, m14, m15 := ZERO, ZERO, ZERO, ZERO;
      NoTaps(ComplexKind, x, h, from + i);
      ghost var was := y[..];
      for n := 0 to hLen / 8
        invariant y[..] == was
        invariant m12.Sum() + m13.Sum() == Taps(ComplexKind, x, h, from + i, 8 * n, 0)
        invariant m14.Sum() + m15.Sum() == Taps(ComplexKind, x, h, from + i, 8 * n, 1)
      {
        var m0, m1, m2, m3 := Load(h, 16 * n), Load(h, 16 * n + 4), Load(h, 16 * n + 8), Load(h, 16 * n + 12);
        var m4 := Shuffle(m0, m1, 0, 2, 0, 2);
        var m5 := Shuffle(m0, m1, 1, 3, 1, 3);
        var m6 := Shuffle(m2, m3, 0, 2, 0, 2);
        var m7 := Shuffle(m2, m3, 1, 3, 1, 3);
        m0, m1, m2, m3 := Load(x, at + 16 * n), Load(x, at + 16 * n + 4), Load(x, at + 16 * n + 8),
          Load(x, at + 16 * n + 12);
        var m8 := Shuffle(m0, m1, 0, 2, 0, 2);
        var m9 := Shuffle(m0, m1, 1, 3, 1, 3);
        var m10 := Shuffle(m2, m3, 0, 2, 0, 2);
        var m11 := Shuffle(m2, m3, 1, 3, 1, 3);
        m0 := Mul(m4, m8);
        m1 := Mul(m5, m9);
        m2 := Mul(m6, m10);
        m3 := Mul(m7, m11);
        m4 := Mul(m4, m9);
        m5 := Mul(m5, m8);
        m6 := Mul(m6, m11);
        m7 := Mul(m7, m10);
        m0 := Sub(m0, m1);
        m2 := Sub(m2, m3);
        m4 := Add(m4, m5);
        m6 := Add(m6, m7);
        NextComplexBlock(x, h, from + i, 2 * n);
        NextComplexBlock(x, h, from + i, 2 * n + 1);
        SumOfAdd(m12, m0);
        SumOfAdd(m13, m2);
        SumOfAdd(m14, m4);
        SumOfAdd(m15, m6);
        m12 := Add(m12, m0);
        m13 := Add(m13, m2);
        m14 := Add(m14, m4);
        m15 := Add(m15, m6);
      }
      SumOfAdd(m12, m13);
      SumOfAdd(m14, m15);
      var m0 := Add(m12, m13);
      var m1 := Add(m14, m15);
      ConvolvedNext(ComplexKind, x, h, hLen, from, y[..], old(y[..]), y0, i,
                    Taps(ComplexKind, x, h, from + i, hLen, 0), Taps(ComplexKind, x, h, from + i, hLen, 1));
      StoreSums(m0, m1, y, y0 + 2 * i);
    }
  }

  // ----- dispatch --------------------------------------------------------------------------------

  /** `bounds_check`. */
  function BoundsCheck(xLen: int, hLen: int, yLen: int, start: int, len: int): int {
    if xLen < 1 || hLen < 1 || yLen < 1 || len < 1 then -1
    else if start + len > xLen || len > yLen || xLen < hLen then -1
    else 0
  }

  /** What the caller of the API vouches for and `bounds_check` cannot see: the
      lengths are those of the memories, and the samples before `start` that the
      first output needs are there, in the head room if need be. */
  ghost predicate Vouched(x: seq<real>, head: nat, xLen: int, h: seq<real>, hLen: int, y: array<real>, y0: nat,
                          yLen: int, start: int) {
    && 2 * (head + xLen) <= |x| && 2 * hLen <= |h| && y0 + 2 * yLen <= y.Length
    && head + start >= hLen - 1
  }

  /** `convolve_real` and `convolve_complex`, with and without SSE. The output is
      the convolution, whichever kernel computes it, or is left alone when the
      bounds check fails. */
  method ConvolveVector(kind: Kind, sse: bool, x: seq<real>, head: nat, xLen: int, h: seq<real>, hLen: int,
                        y: array<real>, y0: nat, yLen: int, start: int, len: int) returns (rc: int)
    requires Vouched(x, head, xLen, h, hLen, y, y0, yLen, start)
    modifies y
    ensures rc == if 1 <= hLen <= xLen && 1 <= len <= yLen && start + len <= xLen then len else -1
    ensures rc == -1 ==> y[..] == old(y[..])
    ensures rc != -1 ==> Convolved(kind, x, h, hLen, head + start - (hLen - 1), y[..], old(y[..]), y0, len)
  {
    if BoundsCheck(xLen, hLen, yLen, start, len) < 0 {
      return -1;
    }
    ghost var before := y[..];
    var from := head + start - (hLen - 1);
    forall k | y0 <= k < y0 + 2 * len {
      y[k] := 0.0;
    }
    assert y[..y0] == before[..y0] && y[y0 + 2 * len..] == before[y0 + 2 * len..];
    if kind == RealKind {
      DispatchReal(sse, x, h, hLen, from, y, y0, len, before);
    } else {
      DispatchComplex(sse, x, h, hLen, from, y, y0, len, before);
    }
    return len;
  }

  method DispatchReal(sse: bool, x: seq<real>, h: seq<real>, hLen: nat, from: nat, y: array<real>, y0: nat, len: nat,
                      ghost before: seq<real>)
    requires Zeroed(x, h, hLen, from, y[..], y0, len, before)
    modifies y
    ensures Convolved(RealKind, x, h, hLen, from, y[..], before, y0, len)
  {
    hide Convolved;
    ghost var z := y[..];
    match hLen {
      case 4 => if sse { Real4(x, h, from, y, y0, len); }
           else { BaseConvolve(RealKind, x, h, hLen, from, y, y0, len, z); }
      case 8 => if sse { Real8(x, h, from, y, y0, len); }
           else { BaseConvolve(RealKind, x, h, hLen, from, y, y0, len, z); }
      case 12 => if sse { Real12(x, h, from, y, y0, len); }
           else { BaseConvolve(RealKind, x, h, hLen, from, y, y0, len, z); }
      case 16 => if sse { Real16(x, h, from, y, y0, len); }
           else { BaseConvolve(RealKind, x, h, hLen, from, y, y0, len, z); }
      case 20 => if sse { Real20(x, h, from, y, y0, len); }
           else { BaseConvolve(RealKind, x, h, hLen, from, y, y0, len, z); }
      case _ =>
        if hLen % 4 == 0 {
          if sse { Real4n(x, h, hLen, from, y, y0, len); }
            else { BaseConvolve(RealKind, x, h, hLen, from, y, y0, len, z); }
        } else {
          BaseConvolve(RealKind, x, h, hLen, from, y, y0, len, z);
        }
    }
    ConvolvedFrom(RealKind, x, h, hLen, from, y[..], z, before, y0, len);
  }

  method DispatchComplex(sse: bool, x: seq<real>, h: seq<real>, hLen: nat, from: nat, y: array<real>, y0: nat,
                         len: nat, ghost before: seq<real>)
    requires Zeroed(x, h, hLen, from, y[..], y0, len, before)
    modifies y
    ensures Convolved(ComplexKind, x, h, hLen, from, y[..], before, y0, len)
  {
    hide Convolved;
    ghost var z := y[..];
    if hLen % 8 == 0 {
      if sse { Complex8n(x, h, hLen, from, y, y0, len); }
        else { BaseConvolve(ComplexKind, x, h, hLen, from, y, y0, len, z); }
    } else if hLen % 4 == 0 {
      if sse { Complex4n(x, h, hLen, from, y, y0, len); }
        else { BaseConvolve(ComplexKind, x, h, hLen, from, y, y0, len, z); }
    } else {
      BaseConvolve(ComplexKind, x, h, hLen, from, y, y0, len, z);
    }
    ConvolvedFrom(ComplexKind, x, h, hLen, from, y[..], z, before, y0, len);
  }

  /** After the `memset`: the outputs are zero, everything else is as before. */
  ghost predicate Zeroed(x: seq<real>, h: seq<real>, hLen: int, from: int, y: seq<real>, y0: int, len: int,
                         before: seq<real>) {
    && InMemory(x, h, hLen, from, y, y0, len) && |before| == |y|
    && y[..y0] == before[..y0] && y[y0 + 2 * len..] == before[y0 + 2 * len..]
    && (forall k :: y0 <= k < y0 + 2 * len ==> y[k] == 0.0)
  }

  /** With SSE or without, the same call leaves the same memory. */
  method SseMakesNoDifference(kind: Kind, x: seq<real>, head: nat, xLen: int, h: seq<real>, hLen: int,
                              y: array<real>, z: array<real>, y0: nat, yLen: int, start: int, len: int)
    requires y != z && y[..] == z[..] && Vouched(x, head, xLen, h, hLen, y, y0, yLen, start)
    modifies y, z
    ensures y[..] == z[..]
  {
    var _ := ConvolveVector(kind, true, x, head, xLen, h, hLen, y, y0, yLen, start, len);
    var _ := ConvolveVector(kind, false, x, head, xLen, h, hLen, z, y0, yLen, start, len);
    if 1 <= hLen <= xLen && 1 <= len <= yLen && start + len <= xLen {
      ConvolvedIsUnique(kind, x, h, hLen, head + start - (hLen - 1), y[..], z[..], old(y[..]), y0, len);
    }
  }
}
