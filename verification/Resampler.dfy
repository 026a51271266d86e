/** Rational sample rate conversion by a polyphase filterbank, and what it is a
    fast form of: stuffing p - 1 zeros after each sample, filtering with the
    whole prototype, and keeping every qth sample. */
module Resamplers {
  import opened Convolve
  import opened Modular
  import opened RadioBuffers
  import SseKernels

  const MAX_OUTPUT_LEN: int := 4096

  // ----- the slow form ---------------------------------------------------------------------

  /** Component `c` of position `j` of the zero-stuffed signal, where position 0
      is complex sample `o` of `w`, and everything outside `w` is zero. */
  function Stuffed(w: seq<real>, o: int, p: int, j: int, c: int): real
    requires p > 0 && 0 <= c < 2
  {
    if j % p == 0 && 0 <= 2 * (o + j / p) && 2 * (o + j / p) + 1 < |w| then w[2 * (o + j / p) + c] else 0.0
  }

  /** The zero-stuffed signal filtered with the first `n` coefficients of `g`, at
      position `j`. */
  function Filtered(w: seq<real>, o: int, g: seq<real>, p: int, j: int, n: nat, c: int): real
    requires p > 0 && 0 <= c < 2 && n <= |g|
  {
    if n == 0 then 0.0 else Filtered(w, o, g, p, j, n - 1, c) + Times(Stuffed(w, o, p, j - (n - 1), c), g[n - 1])
  }

  /** Output `i` of the slow form. */
  function Resampled(w: seq<real>, o: int, g: seq<real>, p: int, q: int, i: int, c: int): real
    requires p > 0 && 0 <= c < 2
  {
    Filtered(w, o, g, p, q * i, |g|, c)
  }

  // ----- one path of the filterbank -----------------------------------------------------------

  /** Coefficient `k` of path `path`. */
  function Coefficient(g: seq<real>, p: int, path: int, k: int): real
    requires p > 0 && 0 <= path < p && 0 <= k && k * p + path < |g|
  {
    g[k * p + path]
  }

  /** The first `n` coefficients of a path against the samples from complex
      sample `s` backwards. */
  function PathSum(w: seq<real>, s: int, g: seq<real>, p: int, path: int, n: nat, c: int): real
    requires p > 0 && 0 <= path < p && 0 <= c < 2 && n * p <= |g|
    requires n <= s + 1 && 2 * s + 1 < |w|
  {
    if n == 0 then 0.0
    else
      RowBound(n, p, |g|, path);
      PathSum(w, s, g, p, path, n - 1, c) + Times(w[2 * (s - (n - 1)) + c], Coefficient(g, p, path, n - 1))
  }

  lemma RowBound(n: int, p: int, size: int, path: int)
    requires n > 0 && 0 <= path < p && n * p <= size
    ensures (n - 1) * p <= size && 0 <= (n - 1) * p + path < size
  {
    assert n * p == (n - 1) * p + p;
    ScaleBound(n - 1, p);
  }

  /** In every block of `p` coefficients only that of the path meets a sample. */
  lemma {:induction false} FilteredBlock(w: seq<real>, o: int, g: seq<real>, p: int, m: int, path: int, k: nat,
                                         r: nat, c: int)
    requires p > 0 && 0 <= path < p && 0 <= c < 2 && r <= p && k * p + p <= |g|
    requires 0 <= o + m - k && 2 * (o + m - k) + 1 < |w|
    ensures 0 <= k * p + r <= |g| && 0 <= k * p + path < |g|
    ensures Filtered(w, o, g, p, m * p + path, k * p + r, c)
            == Filtered(w, o, g, p, m * p + path, k * p, c)
               + if r > path then Times(w[2 * (o + m - k) + c], Coefficient(g, p, path, k)) else 0.0
    decreases r
  {
    ScaleBound(k, p);
    if r > 0 {
      FilteredBlock(w, o, g, p, m, path, k, r - 1, c);
      var j := m * p + path - (k * p + r - 1);
      StuffedAt(w, o, p, m, path, k, r - 1, c);
      assert Filtered(w, o, g, p, m * p + path, k * p + r, c)
          == Filtered(w, o, g, p, m * p + path, k * p + r - 1, c) + Times(Stuffed(w, o, p, j, c), g[k * p + r - 1]);
    }
  }

  /** What coefficient k*p + r meets at position m*p + path. */
  lemma StuffedAt(w: seq<real>, o: int, p: int, m: int, path: int, k: nat, r: nat, c: int)
    requires p > 0 && 0 <= path < p && 0 <= c < 2 && r < p
    requires 0 <= o + m - k && 2 * (o + m - k) + 1 < |w|
    ensures Stuffed(w, o, p, m * p + path - (k * p + r), c) == if r == path then w[2 * (o + m - k) + c] else 0.0
  {
    var j := m * p + path - (k * p + r);
    assert j == (m - k) * p + (path - r);
    if r <= path {
      ModUnique(j, p, m - k, path - r);
    } else {
      assert j == (m - k - 1) * p + (path - r + p);
      ModUnique(j, p, m - k - 1, path - r + p);
    }
  }

  /** The whole prototype against the zero-stuffed signal is one path against the
      samples. */
  lemma {:induction false} FilteredIsPath(w: seq<real>, o: int, g: seq<real>, p: int, m: int, path: int, n: nat, c: int)
    requires p > 0 && 0 <= path < p && 0 <= c < 2 && n * p <= |g|
    requires n <= o + m + 1 && 2 * (o + m) + 1 < |w|
    ensures 0 <= n * p
    ensures Filtered(w, o, g, p, m * p + path, n * p, c) == PathSum(w, o + m, g, p, path, n, c)
  {
    ScaleBound(n, p);
    if n > 0 {
      RowBound(n, p, |g|, path);
      assert (n - 1) * p + p == n * p;
      FilteredIsPath(w, o, g, p, m, path, n - 1, c);
      FilteredBlock(w, o, g, p, m, path, n - 1, p, c);
    }
  }

  // ----- the taps as stored --------------------------------------------------------------------

  /** Complex samples as the floats they are stored as. */
  function Floats(s: seq<Sample>): seq<real> {
    seq(2 * |s|, k requires 0 <= k < 2 * |s| => if k % 2 == 0 then s[k / 2].re else s[k / 2].im)
  }

  /** Tap `k` of a reversed path of `n` taps. */
  ghost predicate IsTap(row: seq<Sample>, g: seq<real>, p: int, path: int, n: int, k: int) {
    0 <= k < |row| && 0 <= (n - 1 - k) * p + path < |g| && row[k].re == g[(n - 1 - k) * p + path]
  }

  /** The coefficients of a path, last first. */
  ghost predicate HoldsPath(row: seq<Sample>, g: seq<real>, p: int, path: int, n: int) {
    && p > 0 && 0 <= path < p && 0 < n == |row| && n * p <= |g|
    && (forall k :: 0 <= k < n ==> IsTap(row, g, p, path, n, k))
  }

  /** Convolving with the reversed path from sample `at` on is summing the path
      from the last of those samples backwards. */
  lemma {:induction false} TapsArePath(w: seq<real>, row: seq<Sample>, at: int, g: seq<real>, p: int, path: int,
                                       n: nat, m: nat, c: int)
    requires HoldsPath(row, g, p, path, n) && m <= n
    requires 0 <= at && 0 <= c < 2 && 2 * (at + n) <= |w|
    ensures (n - m) * p <= |g|
    ensures RealTaps(w, Floats(row), at, m, c) + PathSum(w, at + n - 1, g, p, path, n - m, c)
            == PathSum(w, at + n - 1, g, p, path, n, c)
    decreases m
  {
    hide IsTap, Times, Coefficient;
    RowsLeft(n, m, p, |g|);
    if m > 0 {
      TapsArePath(w, row, at, g, p, path, n, m - 1, c);
      RowBound(n - m + 1, p, |g|, path);
      assert IsTap(row, g, p, path, n, m - 1);
      TapIsCoefficient(row, g, p, path, n, m - 1);
    }
  }

  lemma TapIsCoefficient(row: seq<Sample>, g: seq<real>, p: int, path: int, n: int, k: int)
    requires p > 0 && 0 <= path < p && k < n && IsTap(row, g, p, path, n, k)
    ensures 0 <= (n - 1 - k) * p + path < |g| && |Floats(row)| == 2 * |row|
    ensures Floats(row)[2 * k] == Coefficient(g, p, path, n - 1 - k)
  {
  }

  lemma RowsLeft(n: int, m: nat, p: int, size: int)
    requires p > 0 && n * p <= size
    ensures (n - m) * p <= size
  {
    assert n * p == (n - m) * p + m * p;
    ScaleBound(m, p);
  }

  // ----- commutator tables -----------------------------------------------------------------------

  function InIndex(p: int, q: int, i: int): int
    requires p > 0
  {
    (q * i) / p
  }

  function OutPath(p: int, q: int, i: int): int
    requires p > 0
  {
    (q * i) % p
  }

  /** The tables split position q*i of the zero-stuffed signal into sample and
      path. */
  lemma Commutator(p: int, q: int, i: int)
    requires p > 0
    ensures InIndex(p, q, i) * p + OutPath(p, q, i) == q * i && 0 <= OutPath(p, q, i) < p
  {
  }

  /** `check_vec_len`. */
  predicate CheckVecLen(inLen: int, outLen: int, p: int, q: int)
    requires p > 0 && q > 0
  {
    inLen % q == 0 && outLen % p == 0 && inLen / q == outLen / p && outLen <= MAX_OUTPUT_LEN
  }

  /** What it means for lengths to pass: whole numbers of blocks, as many in as
      out. */
  lemma CheckedLengths(inLen: int, outLen: int, p: int, q: int)
    requires p > 0 && q > 0
    ensures CheckVecLen(inLen, outLen, p, q)
            <==> outLen <= 4096 && inLen == (inLen / q) * q && outLen == (inLen / q) * p
  {
    if CheckVecLen(inLen, outLen, p, q) {
    } else if inLen == (inLen / q) * q && outLen == (inLen / q) * p {
      ModUnique(outLen, p, inLen / q, 0);
      ModUnique(inLen, q, inLen / q, 0);
    }
  }

  /** Outputs below m*p start from samples below m*q. */
  lemma IndexBelow(p: int, q: int, i: int, m: int)
    requires p > 0 && q > 0 && 0 <= i < m * p
    ensures 0 <= InIndex(p, q, i) < m * q
  {
    hide InIndex, OutPath;
    Commutator(p, q, i);
    var n := InIndex(p, q, i);
    SplitBelow(n, p, OutPath(p, q, i), q, i, m);
  }

  lemma SplitBelow(n: int, p: int, path: int, q: int, i: int, m: int)
    requires p > 0 && q > 0 && 0 <= i < m * p && 0 <= path < p && n * p + path == q * i
    ensures 0 <= n < m * q
  {
    MulBelow(i, m * p, q);
    MulSwap(m, p, q);
    if n >= m * q {
      MulAtMost(m * q, n, p);
    }
    if n < 0 {
      MulBelow(n, 0, p);
      MulAtMost(0, i, q);
    }
  }

  lemma MulSwap(m: int, p: int, q: int)
    ensures (m * p) * q == (m * q) * p
  {
  }

  lemma MulBelow(a: int, b: int, c: int)
    requires a < b && c > 0
    ensures c * a + c <= b * c && a * c + c <= b * c
  {
    ScaleBound(b - a, c);
    assert (b - a) * c == b * c - a * c;
  }

  lemma MulAtMost(a: int, b: int, c: int)
    requires a <= b && c > 0
    ensures a * c <= b * c && c * a <= c * b
  {
    if a < b {
      MulBelow(a, b, c);
    }
  }

  /** Every output of a block starts from a sample of the block. */
  lemma IndexInBlock(p: int, q: int, i: int, inLen: int, outLen: int)
    requires p > 0 && q > 0 && CheckVecLen(inLen, outLen, p, q) && 0 <= i < outLen
    ensures 0 <= InIndex(p, q, i) < inLen
  {
    CheckedLengths(inLen, outLen, p, q);
    IndexBelow(p, q, i, inLen / q);
  }

  // ----- the resampler ------------------------------------------------------------------------------

  /** One row of the filterbank. */
  function Row(partitions: array2<Sample>, n: int): (row: seq<Sample>)
    requires 0 <= n < partitions.Length0
    reads partitions
    ensures |row| == partitions.Length1
  {
    seq(partitions.Length1, k requires 0 <= k < partitions.Length1 reads partitions => partitions[n, k])
  }

  class Resampler {
    const p: nat
    const q: nat
    const filtLen: nat
    const inIndex: array<int>
    const outPath: array<int>
    const partitions: array2<Sample>
    /** The scaled prototype filter `init` was given. */
    ghost var proto: seq<real>

    ghost predicate Shape() {
      && inIndex.Length == MAX_OUTPUT_LEN && outPath.Length == MAX_OUTPUT_LEN && inIndex != outPath
      && partitions.Length0 == p && partitions.Length1 == filtLen
    }

    ghost predicate Tables()
      reads inIndex, outPath
    {
      && p > 0 && inIndex.Length == MAX_OUTPUT_LEN && outPath.Length == MAX_OUTPUT_LEN
      && (forall i :: 0 <= i < MAX_OUTPUT_LEN ==> inIndex[i] == InIndex(p, q, i) && outPath[i] == OutPath(p, q, i))
    }

    ghost predicate Filters()
      reads this, partitions
    {
      && p > 0 && filtLen > 0 && partitions.Length0 == p && partitions.Length1 == filtLen && |proto| == p * filtLen
      && (forall n :: 0 <= n < p ==> HoldsPath(Row(partitions, n), proto, p, n, filtLen))
    }

    /** `init` has succeeded. */
    ghost predicate Ready()
      reads this, inIndex, outPath, partitions
    {
      Shape() && q > 0 && filtLen > 0 && Tables() && Filters()
    }

    constructor (p: nat, q: nat, filtLen: nat)
      ensures Shape() && this.p == p && this.q == q && this.filtLen == filtLen
      ensures fresh(inIndex) && fresh(outPath) && fresh(partitions)
    {
      this.p, this.q, this.filtLen := p, q, filtLen;
      inIndex := new int[MAX_OUTPUT_LEN];
      outPath := new int[MAX_OUTPUT_LEN];
      partitions := new Sample[p, filtLen];
      proto := [];
    }

    /** Populates the filterbank: coefficient i*p + n of the prototype goes to
        tap i of path n. */
    method Populate(g: seq<real>)
      requires Shape() && p > 0 && filtLen > 0 && |g| == p * filtLen
      modifies partitions
      ensures forall n, i :: 0 <= n < p && 0 <= i < filtLen ==> partitions[n, i] == Sample(Tap(g, i, n), 0.0)
    {
      for i := 0 to filtLen
        invariant forall n, k :: 0 <= n < p && 0 <= k < i ==> partitions[n, k] == Sample(Tap(g, k, n), 0.0)
      {
        for n := 0 to p
          invariant forall n', k :: 0 <= n' < p && 0 <= k < i ==> partitions[n', k] == Sample(Tap(g, k, n'), 0.0)
          invariant forall n' :: 0 <= n' < n ==> partitions[n', i] == Sample(Tap(g, i, n'), 0.0)
        {
          TapBound(i, n);
          partitions[n, i] := Sample(Tap(g, i, n), 0.0);
        }
      }
    }

    function Tap(g: seq<real>, i: int, n: int): real {
      if 0 <= i * p + n < |g| then g[i * p + n] else 0.0
    }

    lemma TapBound(i: int, n: int)
      requires 0 <= i < filtLen && 0 <= n < p
      ensures 0 <= i * p + n < p * filtLen
    {
      ScaleBound(i, p);
      assert (filtLen - i) * p == p * filtLen - i * p;
      ScaleBound(filtLen - i, p);
    }

    /** `reverse` of one path. */
    method ReverseRow(n: nat)
      requires n < partitions.Length0
      modifies partitions
      ensures forall k :: 0 <= k < partitions.Length1 ==>
                partitions[n, k] == old(Row(partitions, n))[partitions.Length1 - 1 - k]
      ensures forall m, k :: 0 <= m < partitions.Length0 && 0 <= k < partitions.Length1 && m != n ==>
                partitions[m, k] == old(partitions[m, k])
    {
      var len := partitions.Length1;
      ghost var was := Row(partitions, n);
      assert forall k :: 0 <= k < len ==> was[k] == partitions[n, k];
      for i := 0 to len / 2
        invariant forall k :: 0 <= k < i ==> partitions[n, k] == was[len - 1 - k]
        invariant forall k :: len - i <= k < len ==> partitions[n, k] == was[len - 1 - k]
        invariant forall k :: i <= k < len - i ==> partitions[n, k] == was[k]
        invariant forall m, k :: 0 <= m < partitions.Length0 && 0 <= k < len && m != n ==>
                    partitions[m, k] == old(partitions[m, k])
      {
        partitions[n, i], partitions[n, len - 1 - i] := partitions[n, len - 1 - i], partitions[n, i];
      }
    }

    /** `initFilters`, from the scaled prototype on. */
    method InitFilters(g: seq<real>)
      requires Shape() && p > 0 && filtLen > 0 && |g| == p * filtLen
      modifies this`proto, partitions
      ensures Filters() && proto == g
    {
      hide Tap, HoldsPath;
      Populate(g);
      for n := 0 to p
        invariant forall m, k :: 0 <= m < n && 0 <= k < filtLen ==>
                    partitions[m, k] == Sample(Tap(g, filtLen - 1 - k, m), 0.0)
        invariant forall m, k :: n <= m < p && 0 <= k < filtLen ==> partitions[m, k] == Sample(Tap(g, k, m), 0.0)
      {
        ReverseRow(n);
      }
      proto := g;
      RowsHold(g);
    }

    lemma RowsHold(g: seq<real>)
      requires Shape() && p > 0 && filtLen > 0 && |g| == p * filtLen
      requires forall m, k :: 0 <= m < p && 0 <= k < filtLen ==>
                 partitions[m, k] == Sample(Tap(g, filtLen - 1 - k, m), 0.0)
      ensures forall n :: 0 <= n < p ==> HoldsPath(Row(partitions, n), g, p, n, filtLen)
    {
      hide Tap, HoldsPath;
      forall n | 0 <= n < p
        ensures HoldsPath(Row(partitions, n), g, p, n, filtLen)
      {
        RowHolds(Row(partitions, n), g, n);
      }
    }

    lemma RowHolds(row: seq<Sample>, g: seq<real>, n: int)
      requires 0 <= n < p && 0 < filtLen == |row| && |g| == p * filtLen
      requires forall k :: 0 <= k < filtLen ==> row[k] == Sample(Tap(g, filtLen - 1 - k, n), 0.0)
      ensures HoldsPath(row, g, p, n, filtLen)
    {
      hide Tap, IsTap;
      Commutes(filtLen, p);
      forall k | 0 <= k < filtLen
        ensures IsTap(row, g, p, n, filtLen, k)
      {
        assert row[k] == Sample(Tap(g, filtLen - 1 - k, n), 0.0);
        TapInside(row, g, n, k);
      }
    }

    lemma TapInside(row: seq<Sample>, g: seq<real>, n: int, k: int)
      requires 0 <= k < filtLen == |row| && 0 <= n < p && |g| == p * filtLen
      requires row[k] == Sample(Tap(g, filtLen - 1 - k, n), 0.0)
      ensures IsTap(row, g, p, n, filtLen, k)
    {
      TapBound(filtLen - 1 - k, n);
    }

    static lemma Commutes(a: int, b: int)
      ensures a * b == b * a
    {
    }

    /** `init`: fails on a zero parameter and otherwise fills filterbank and
        tables. */
    method Init(g: seq<real>) returns (ok: bool)
      requires Shape() && |g| == p * filtLen
      modifies this`proto, inIndex, outPath, partitions
      ensures ok == (p > 0 && q > 0 && filtLen > 0)
      ensures ok ==> Ready() && proto == g
    {
      if p == 0 || q == 0 || filtLen == 0 {
        return false;
      }
      hide HoldsPath, InIndex, OutPath;
      InitFilters(g);
      for i := 0 to MAX_OUTPUT_LEN
        invariant Filters() && proto == g
        invariant forall k :: 0 <= k < i ==> inIndex[k] == InIndex(p, q, k)
      {
        inIndex[i] := InIndex(p, q, i);
      }
      for i := 0 to MAX_OUTPUT_LEN
        invariant Filters() && proto == g
        invariant forall k :: 0 <= k < MAX_OUTPUT_LEN ==> inIndex[k] == InIndex(p, q, k)
        invariant forall k :: 0 <= k < i ==> outPath[k] == OutPath(p, q, k)
      {
        outPath[i] := OutPath(p, q, i);
      }
      return true;
    }

    /** The convolution of the right partition at the right sample is the output
        of the slow form. */
    lemma OutputIsResampled(x: seq<real>, head: nat, inLen: int, outLen: int, i: int, c: int)
      requires Ready() && CheckVecLen(inLen, outLen, p, q) && 0 <= i < outLen && 0 <= c < 2
      requires 2 * (head + inLen) <= |x| && head >= filtLen - 1
      ensures var n, path := InIndex(p, q, i), OutPath(p, q, i);
              && 0 <= n < inLen && 0 <= path < p
              && Taps(RealKind, x, Floats(Row(partitions, path)), head + n - (filtLen - 1), filtLen, c)
                 == Resampled(x, head, proto, p, q, i, c)
    {
      IndexInBlock(p, q, i, inLen, outLen);
      Commutator(p, q, i);
      var n, path := InIndex(p, q, i), OutPath(p, q, i);
      hide InIndex, OutPath, CheckVecLen, HoldsPath, Filtered, PathSum;
      assert filtLen * p == |proto|;
      TapsArePath(x, Row(partitions, path), head + n - (filtLen - 1), proto, p, path, filtLen, filtLen, c);
      EmptySum(x, head + n, proto, p, path, c);
      FilteredIsPath(x, head, proto, p, n, path, filtLen, c);
    }

    /** `rotate`: a whole number of blocks through the filterbank. Lengths that
        do not match are refused. A block shorter than a path is not: then every
        convolution fails its bounds check, its result is not looked at, and the
        output is left as it was. */
    method Rotate(sse: bool, x: seq<real>, head: nat, inLen: nat, out: array<real>, out0: nat, outLen: nat)
      returns (rc: int)
      requires Ready() && head >= filtLen - 1
      requires 2 * (head + inLen) <= |x| && out0 + 2 * outLen <= out.Length
      modifies out
      ensures Ready()
      ensures rc == if outLen <= 4096 && inLen == (inLen / q) * q && outLen == (inLen / q) * p then outLen else -1
      ensures rc >= 0 && inLen >= filtLen ==> IsResampled(out[..], old(out[..]), out0, x, head, proto, p, q, 0, outLen)
      ensures rc < 0 || inLen < filtLen ==> out[..] == old(out[..])
    {
      hide CheckVecLen, InIndex, OutPath, HoldsPath, Resampled, Taps, Row, Filters;
      ghost var before := out[..];
      CheckedLengths(inLen, outLen, p, q);
      if !CheckVecLen(inLen, outLen, p, q) {
        return -1;
      }
      for i := 0 to outLen
        invariant Ready()
        invariant inLen >= filtLen ==> IsResampled(out[..], before, out0, x, head, proto, p, q, 0, i)
        invariant inLen < filtLen ==> out[..] == before
      {
        OutputInBounds(inLen, outLen, i);
        var n := inIndex[i];
        var path := outPath[i];
        ghost var was := out[..];
        var h := Floats(Row(partitions, path));
        var _ := SseKernels.ConvolveVector(RealKind, sse, x, head, inLen, h, filtLen, out, out0 + 2 * i, outLen - i,
                                           n, 1);
        if inLen >= filtLen {
          OutputIsResampled(x, head, inLen, outLen, i, 0);
          OutputIsResampled(x, head, inLen, outLen, i, 1);
          OneOutput(x, h, filtLen, head + n - (filtLen - 1), out[..], was, before, out0, i, head, proto, p, q);
        }
      }
      return outLen;
    }

    lemma OutputInBounds(inLen: nat, outLen: nat, i: int)
      requires Shape() && q > 0 && Tables() && CheckVecLen(inLen, outLen, p, q) && 0 <= i < outLen && filtLen > 0
      ensures 0 <= i < MAX_OUTPUT_LEN && 0 <= inIndex[i] < inLen && 0 <= outPath[i] < p
      ensures inIndex[i] == InIndex(p, q, i) && outPath[i] == OutPath(p, q, i)
    {
      IndexInBlock(p, q, i, inLen, outLen);
      Commutator(p, q, i);
    }
  }

  /** Without zeros and recursion: an output is the sum of the coefficients of one
      path times the samples from one sample backwards, where path and sample are
      remainder and quotient of q times i by p. */
  lemma ResampledMeans(w: seq<real>, o: nat, g: seq<real>, p: int, q: int, len: nat, i: nat, c: int, n: int, path: int)
    returns (terms: seq<real>)
    requires p > 0 && 0 <= c < 2 && |g| == p * len && n == (q * i) / p && path == (q * i) % p
    requires len <= o + n + 1 && 2 * (o + n) + 1 < |w|
    ensures |terms| == len && Resampled(w, o, g, p, q, i, c) == SumOf(terms)
    ensures forall k :: 0 <= k < len ==>
              0 <= k * p + path < |g| && terms[k] == w[2 * (o + n - k) + c] * g[k * p + path]
  {
    hide Filtered, PathSum, SumOf;
    assert q * i == n * p + path && len * p == |g|;
    assert Filtered(w, o, g, p, n * p + path, len * p, c) == Resampled(w, o, g, p, q, i, c);
    hide Resampled;
    FilteredIsPath(w, o, g, p, n, path, len, c);
    terms := PathSumIs(w, o + n, g, p, path, len, c);
    forall k | 0 <= k < len
      ensures 0 <= k * p + path < |g| && terms[k] == w[2 * (o + n - k) + c] * g[k * p + path]
    {
      assert IsTerm(terms[k], w, o + n, g, p, path, k, c);
    }
  }

  /** Coefficient `k` of a path times the sample `k` before `s`. */
  ghost predicate IsTerm(term: real, w: seq<real>, s: int, g: seq<real>, p: int, path: int, k: int, c: int) {
    0 <= 2 * (s - k) + c < |w| && 0 <= k * p + path < |g| && term == w[2 * (s - k) + c] * g[k * p + path]
  }

  lemma {:induction false} PathSumIs(w: seq<real>, s: int, g: seq<real>, p: int, path: int, n: nat, c: int)
    returns (terms: seq<real>)
    requires p > 0 && 0 <= path < p && 0 <= c < 2 && n * p <= |g|
    requires n <= s + 1 && 2 * s + 1 < |w|
    ensures |terms| == n && PathSum(w, s, g, p, path, n, c) == SumOf(terms)
    ensures forall k :: 0 <= k < n ==> IsTerm(terms[k], w, s, g, p, path, k, c)
  {
    hide IsTerm;
    if n > 0 {
      hide PathSum;
    }
    if n == 0 {
      terms := [];
    } else {
      RowBound(n, p, |g|, path);
      var shorter := PathSumIs(w, s, g, p, path, n - 1, c);
      var term := w[2 * (s - (n - 1)) + c] * g[(n - 1) * p + path];
      NextTerm(w, s, g, p, path, n, c);
      terms := shorter + [term];
      SumOfNext(shorter, term);
    }
  }

  lemma NextTerm(w: seq<real>, s: int, g: seq<real>, p: int, path: int, n: nat, c: int)
    requires p > 0 && 0 <= path < p && 0 <= c < 2 && 0 < n && n * p <= |g| && n <= s + 1 && 2 * s + 1 < |w|
    ensures (n - 1) * p <= |g| && 0 <= (n - 1) * p + path < |g|
    ensures var term := w[2 * (s - (n - 1)) + c] * g[(n - 1) * p + path];
            && IsTerm(term, w, s, g, p, path, n - 1, c)
            && PathSum(w, s, g, p, path, n, c) == PathSum(w, s, g, p, path, n - 1, c) + term
  {
    RowBound(n, p, |g|, path);
  }

  lemma EmptySum(w: seq<real>, s: int, g: seq<real>, p: int, path: int, c: int)
    requires p > 0 && 0 <= path < p && 0 <= c < 2 && 0 <= s + 1 && 2 * s + 1 < |w|
    ensures 0 * p <= |g| && PathSum(w, s, g, p, path, 0, c) == 0.0
  {
  }

  /** Output memory `y` is `y1` with `n` outputs from float `y0` on replaced by
      outputs `first`, `first` + 1, ... of the slow form. */
  ghost predicate IsResampled(y: seq<real>, y1: seq<real>, y0: int, w: seq<real>, o: int, g: seq<real>, p: int,
                              q: int, first: int, n: int) {
    && p > 0 && 0 <= y0 && 0 <= n && y0 + 2 * n <= |y| == |y1|
    && (forall i :: 0 <= i < n ==>
          && Part(y[y0..], i, 0) == Resampled(w, o, g, p, q, first + i, 0)
          && Part(y[y0..], i, 1) == Resampled(w, o, g, p, q, first + i, 1))
    && y[..y0] == y1[..y0] && y[y0 + 2 * n..] == y1[y0 + 2 * n..]
  }

  lemma OneOutput(x: seq<real>, h: seq<real>, hLen: int, from: int, y: seq<real>, was: seq<real>, before: seq<real>,
                  y0: int, i: int,
                  head: int, g: seq<real>, p: int, q: int)
    requires Convolved(RealKind, x, h, hLen, from, y, was, y0 + 2 * i, 1)
    requires 0 <= i && IsResampled(was, before, y0, x, head, g, p, q, 0, i)
    requires Taps(RealKind, x, h, from, hLen, 0) == Resampled(x, head, g, p, q, i, 0)
    requires Taps(RealKind, x, h, from, hLen, 1) == Resampled(x, head, g, p, q, i, 1)
    ensures IsResampled(y, before, y0, x, head, g, p, q, 0, i + 1)
  {
    hide Taps, Resampled;
    assert Part(y[y0 + 2 * i..], 0, 0) == Taps(RealKind, x, h, from + 0, hLen, 0);
    forall k | 0 <= k < i + 1
      ensures Part(y[y0..], k, 0) == Resampled(x, head, g, p, q, 0 + k, 0)
              && Part(y[y0..], k, 1) == Resampled(x, head, g, p, q, 0 + k, 1)
    {
      if k < i {
        assert y[..y0 + 2 * i] == was[..y0 + 2 * i];
        assert y[y0 + 2 * k] == y[..y0 + 2 * i][y0 + 2 * k] && y[y0 + 2 * k + 1] == y[..y0 + 2 * i][y0 + 2 * k + 1];
        assert Part(was[y0..], k, 0) == Resampled(x, head, g, p, q, 0 + k, 0);
      }
    }
    assert y[..y0] == y[..y0 + 2 * i][..y0] && was[..y0 + 2 * i][..y0] == was[..y0];
    assert y[y0 + 2 * (i + 1)..] == was[y0 + 2 * i..][2..];
  }
}
