/** Fields of bits, packed octets and bit order. */
module BitVectors {
  import opened Modular
  import opened Powers

  /** The number written in bits, first bit first; of each element only the lowest
      bit counts. */
  function Value(s: seq<int>): nat {
    if s == [] then 0 else 2 * Value(s[..|s| - 1]) + s[|s| - 1] % 2
  }

  /** The `n` lowest bits of a number, highest first. */
  function Digits(value: nat, n: nat): (bits: seq<int>)
    ensures |bits| == n
  {
    if n == 0 then [] else Digits(value / 2, n - 1) + [value % 2]
  }

  function Reverse(s: seq<int>): (r: seq<int>)
    ensures |r| == |s|
  {
    seq(|s|, k requires 0 <= k < |s| => s[|s| - 1 - k])
  }

  function LowBits(s: seq<int>): (r: seq<int>)
    ensures |r| == |s|
  {
    seq(|s|, k requires 0 <= k < |s| => s[k] % 2)
  }

  // ----- fields and numbers ----------------------------------------------------------------------

  /** Reading a field gives what was written, as far as there was room for it. */
  lemma {:induction false} ValueOfDigits(value: nat, n: nat)
    ensures Value(Digits(value, n)) == value % Pow2(n)
  {
    if n > 0 {
      ValueOfDigits(value / 2, n - 1);
      HalfRemainder(value, Pow2(n - 1));
    }
  }

  lemma HalfRemainder(x: nat, m: nat)
    requires m > 0
    ensures x % (2 * m) == 2 * ((x / 2) % m) + x % 2
  {
    var h := x / 2;
    ModUnique(x, 2 * m, h / m, 2 * (h % m) + x % 2);
  }

  lemma {:induction false} ValueBound(s: seq<int>)
    ensures Value(s) < Pow2(|s|)
  {
    if s != [] {
      ValueBound(s[..|s| - 1]);
    }
  }

  /** Writing what was read changes nothing but the unused bits of an element. */
  lemma {:induction false} DigitsOfValue(s: seq<int>)
    ensures Digits(Value(s), |s|) == LowBits(s)
  {
    if s != [] {
      DigitsOfValue(s[..|s| - 1]);
      assert LowBits(s) == LowBits(s[..|s| - 1]) + [s[|s| - 1] % 2];
    }
  }

  lemma DivDiv(x: nat, a: nat, b: nat)
    requires a > 0 && b > 0
    ensures a * b > 0 && x / a / b == x / (a * b)
  {
    var q := x / a;
    var r := q / b;
    assert x == (r * b + q % b) * a + x % a;
    assert x == r * (a * b) + (q % b) * a + x % a;
    assert (q % b) * a <= (b - 1) * a;
    ModUnique(x, a * b, r, (q % b) * a + x % a);
  }

  lemma HalfOf(value: nat, k: nat)
    ensures value / Pow2(k + 1) == value / 2 / Pow2(k)
  {
    DivDiv(value, 2, Pow2(k));
  }

  /** Bit `i` of `n` is the one of weight 2^(n - 1 - i). */
  lemma {:induction false} DigitsAt(value: nat, n: nat, i: nat)
    requires i < n
    ensures Digits(value, n)[i] == value / Pow2(n - 1 - i) % 2
  {
    if i < n - 1 {
      DigitsAt(value / 2, n - 1, i);
      HalfOf(value, n - 2 - i);
    } else {
      assert Pow2(0) == 1 && value / 1 == value;
    }
  }

  /** A number read from bits has the lowest bit of each element at its weight. */
  lemma ValueAt(s: seq<int>, i: nat)
    requires i < |s|
    ensures Value(s) / Pow2(|s| - 1 - i) % 2 == s[i] % 2
  {
    hide Value, Digits, Pow2;
    DigitsOfValue(s);
    DigitsAt(Value(s), |s|, i);
  }

  // ----- octets ------------------------------------------------------------------------------------

  function ShiftUp(value: nat, k: nat): nat {
    if k == 0 then value else 2 * ShiftUp(value, k - 1)
  }

  function ShiftDown(value: nat, k: nat): nat {
    if k == 0 then value else ShiftDown(value / 2, k - 1)
  }

  /** Without its `k` lowest bits. */
  function Masked(value: nat, k: nat): nat {
    ShiftUp(ShiftDown(value, k), k)
  }

  lemma {:induction false} ShiftBack(value: nat, n: nat, k: nat)
    requires value < Pow2(n)
    ensures ShiftUp(value, k) < Pow2(n + k) && ShiftDown(ShiftUp(value, k), k) == value
  {
    if k > 0 {
      ShiftBack(value, n, k - 1);
      assert ShiftUp(value, k) / 2 == ShiftUp(value, k - 1);
    }
  }

  lemma {:induction false} ShiftAway(value: nat, n: nat, k: nat)
    requires value < Pow2(n + k)
    ensures ShiftDown(value, k) < Pow2(n)
  {
    if k > 0 {
      ShiftAway(value / 2, n, k - 1);
    }
  }

  /** How many octets `n` bits take. */
  function OctetCount(n: nat): nat {
    if n >= 8 then 1 + OctetCount(n - 8) else if n > 0 then 1 else 0
  }

  lemma {:induction false} OctetCountIs(n: nat)
    ensures OctetCount(n) == n / 8 + if n % 8 == 0 then 0 else 1
  {
    if n >= 8 {
      OctetCountIs(n - 8);
    }
  }

  /** First bit highest; the last octet is filled up from below. */
  function Packed(s: seq<int>): (octets: seq<nat>)
    ensures |octets| == OctetCount(|s|)
    decreases |s|
  {
    if |s| >= 8 then [Value(s[..8])] + Packed(s[8..])
    else if |s| > 0 then [ShiftUp(Value(s), 8 - |s|)]
    else []
  }

  function Unpacked(octets: seq<nat>, n: nat): (bits: seq<int>)
    requires OctetCount(n) <= |octets|
    ensures |bits| == n
    decreases n
  {
    if n >= 8 then Digits(octets[0], 8) + Unpacked(octets[1..], n - 8)
    else if n > 0 then Digits(ShiftDown(octets[0], 8 - n), n)
    else []
  }

  ghost predicate Octets(octets: seq<nat>) {
    forall k :: 0 <= k < |octets| ==> octets[k] < 256
  }

  lemma LastOctet(s: seq<int>)
    requires 0 < |s| <= 8
    ensures ShiftUp(Value(s), 8 - |s|) < 256
    ensures ShiftDown(ShiftUp(Value(s), 8 - |s|), 8 - |s|) == Value(s)
  {
    hide ShiftUp, ShiftDown, Value;
    ValueBound(s);
    ShiftBack(Value(s), |s|, 8 - |s|);
    assert Pow2(8) == 256;
  }

  /** Unpacking restores every bit, whatever the size. */
  lemma {:induction false} UnpackedPacked(s: seq<int>)
    ensures Octets(Packed(s)) && Unpacked(Packed(s), |s|) == LowBits(s)
    decreases |s|
  {
    hide ShiftUp, ShiftDown, Value, Digits;
    if |s| >= 8 {
      UnpackedPacked(s[8..]);
      ValueBound(s[..8]);
      assert Pow2(8) == 256;
      DigitsOfValue(s[..8]);
      assert Packed(s)[1..] == Packed(s[8..]);
      assert LowBits(s) == LowBits(s[..8]) + LowBits(s[8..]);
    } else if |s| > 0 {
      DigitsOfValue(s);
      LastOctet(s);
    }
  }

  lemma {:induction false} ShiftDownIs(value: nat, k: nat)
    ensures ShiftDown(value, k) == value / Pow2(k)
  {
    if k > 0 {
      ShiftDownIs(value / 2, k - 1);
      HalfOf(value, k - 1);
    }
  }

  lemma {:induction false} ShiftUpIs(value: nat, k: nat)
    ensures ShiftUp(value, k) == value * Pow2(k)
  {
    if k > 0 {
      ShiftUpIs(value, k - 1);
    }
  }

  /** Bit `i` is in octet i / 8, and the first of an octet is its highest. */
  lemma {:induction false} UnpackedAt(octets: seq<nat>, n: nat, i: nat)
    requires OctetCount(n) <= |octets| && i < n
    ensures i / 8 < OctetCount(n)
    ensures Unpacked(octets, n)[i] == octets[i / 8] / Pow2(7 - i % 8) % 2
    decreases n
  {
    hide Digits, ShiftDown, Pow2;
    if n >= 8 {
      if i < 8 {
        DigitsAt(octets[0], 8, i);
      } else {
        UnpackedAt(octets[1..], n - 8, i - 8);
        assert Unpacked(octets, n)[i] == Unpacked(octets[1..], n - 8)[i - 8];
        assert (i - 8) / 8 == i / 8 - 1 && (i - 8) % 8 == i % 8;
      }
    } else {
      DigitsAt(ShiftDown(octets[0], 8 - n), n, i);
      ShiftDownIs(octets[0], 8 - n);
      DivDiv(octets[0], Pow2(8 - n), Pow2(n - 1 - i));
      Pow2Adds(8 - n, n - 1 - i);
    }
  }

  /** So are the bits of packed octets; those that no bit is for are zero. */
  lemma PackedAt(s: seq<int>, i: nat)
    requires i < |s|
    ensures i / 8 < |Packed(s)| && Packed(s)[i / 8] / Pow2(7 - i % 8) % 2 == s[i] % 2
  {
    hide Packed, Pow2;
    UnpackedPacked(s);
    UnpackedAt(Packed(s), |s|, i);
  }

  lemma {:induction false} PackedRest(s: seq<int>)
    requires |s| % 8 != 0
    ensures |Packed(s)| == |s| / 8 + 1 && Packed(s)[|s| / 8] % Pow2(8 - |s| % 8) == 0
    decreases |s|
  {
    hide Value, ShiftUp, Pow2;
    if |s| >= 8 {
      PackedRest(s[8..]);
      assert (|s| - 8) / 8 == |s| / 8 - 1 && (|s| - 8) % 8 == |s| % 8;
    } else {
      ShiftUpIs(Value(s), 8 - |s|);
      ModUnique(Packed(s)[0], Pow2(8 - |s|), Value(s), 0);
    }
  }

  /** The octets with the unused bits of the last one cleared. */
  function Cleared(octets: seq<nat>, n: nat): seq<nat>
    requires OctetCount(n) <= |octets|
    decreases n
  {
    if n >= 8 then [octets[0]] + Cleared(octets[1..], n - 8)
    else if n > 0 then [Masked(octets[0], 8 - n)]
    else []
  }

  lemma TopBits(octet: nat, n: nat)
    requires octet < 256 && 0 < n <= 8
    ensures ShiftUp(Value(Digits(ShiftDown(octet, 8 - n), n)), 8 - n) == Masked(octet, 8 - n)
  {
    hide ShiftUp, ShiftDown, Value, Digits;
    assert Pow2(8) == 256;
    ShiftAway(octet, n, 8 - n);
    ValueOfDigits(ShiftDown(octet, 8 - n), n);
    SmallMod(ShiftDown(octet, 8 - n), Pow2(n));
  }

  /** Packing again gives the octets, but for bits that were never unpacked. */
  lemma {:induction false} PackedUnpacked(octets: seq<nat>, n: nat)
    requires OctetCount(n) <= |octets| && Octets(octets)
    ensures Packed(Unpacked(octets, n)) == Cleared(octets, n)
    decreases n
  {
    hide ShiftUp, ShiftDown, Masked, Value, Digits;
    var bits := Unpacked(octets, n);
    if n >= 8 {
      PackedUnpacked(octets[1..], n - 8);
      ValueOfDigits(octets[0], 8);
      assert Pow2(8) == 256;
      assert bits[..8] == Digits(octets[0], 8) && bits[8..] == Unpacked(octets[1..], n - 8);
    } else if n > 0 {
      TopBits(octets[0], n);
    }
  }

  /** Every whole octet with its bits in the opposite order. */
  function Flipped(s: seq<int>): (r: seq<int>)
    ensures |r| == |s|
    decreases |s|
  {
    if |s| < 8 then s else Reverse(s[..8]) + Flipped(s[8..])
  }

  /** Bit `i` comes from the same octet, counted from its other end; a partial
      octet at the end is kept. */
  lemma {:induction false} FlippedAt(s: seq<int>, i: nat)
    requires i < |s|
    ensures var first := i - i % 8;
            Flipped(s)[i] == if first + 8 <= |s| then s[first + 7 - i % 8] else s[i]
    decreases |s|
  {
    if |s| >= 8 && i >= 8 {
      FlippedAt(s[8..], i - 8);
      assert Flipped(s)[i] == Flipped(s[8..])[i - 8];
      assert (i - 8) % 8 == i % 8;
    }
  }

  lemma ReverseTwice(s: seq<int>)
    ensures Reverse(Reverse(s)) == s
  {
  }

  lemma {:induction false} FlippedTwice(s: seq<int>)
    ensures Flipped(Flipped(s)) == s
    decreases |s|
  {
    if |s| >= 8 {
      ReverseTwice(s[..8]);
      FlippedTwice(s[8..]);
      assert Flipped(s)[..8] == Reverse(s[..8]) && Flipped(s)[8..] == Flipped(s[8..]);
    }
  }

  lemma ReverseDigits(value: nat, n: nat)
    requires n > 0
    ensures Reverse(Digits(value, n)) == [value % 2] + Reverse(Digits(value / 2, n - 1))
  {
  }

  // ----- the vector ----------------------------------------------------------------------------------

  const WORD: int := 0x1_0000_0000_0000_0000

  /** What is read back after filling a field, in either order: the value, as far
      as the field has room for it. */
  lemma FieldRoundTrip(value: nat, n: nat)
    requires value < WORD
    ensures Value(Digits(value, n)) % WORD == value % Pow2(n)
    ensures Value(Reverse(Reverse(Digits(value, n)))) % WORD == value % Pow2(n)
  {
    ReverseTwice(Digits(value, n));
    ValueOfDigits(value, n);
    RemainderBelow(value, Pow2(n));
    SmallMod(value % Pow2(n), WORD);
  }

  lemma RemainderBelow(value: nat, m: nat)
    requires m > 0
    ensures 0 <= value % m <= value
  {
    if value < m {
      SmallMod(value, m);
    }
  }

  lemma Shifted(value: nat, bit: nat)
    ensures (2 * (value % WORD) + bit) % WORD == (2 * value + bit) % WORD
  {
    var k := value / WORD;
    assert 2 * value + bit - (2 * (value % WORD) + bit) == 2 * k * WORD;
    ModUnique(2 * value + bit - (2 * (value % WORD) + bit), WORD, 2 * k, 0);
    ModDifference(2 * value + bit, 2 * (value % WORD) + bit, WORD);
  }

  /** Fields of up to 64 bits fit the accumulator. */
  lemma SmallField(s: seq<int>)
    requires |s| <= 8
    ensures Value(s) < 256 && Value(s) % WORD == Value(s)
  {
    ValueBound(s);
    Pow2Adds(|s|, 8 - |s|);
    assert Pow2(8) == 256;
    ScaleBound(Pow2(8 - |s|), Pow2(|s|));
  }

  /** One more octet packed. */
  lemma PackedStep(s: seq<int>, at: nat, done: seq<nat>, octet: nat)
    requires at + 8 <= |s| && done + Packed(s[at..]) == Packed(s) && octet == Value(s[at..at + 8])
    ensures done + [octet] + Packed(s[at + 8..]) == Packed(s)
  {
    hide Value;
    assert s[at..][..8] == s[at..at + 8] && s[at..][8..] == s[at + 8..];
  }

  lemma SetNext(done: seq<nat>, was: seq<nat>, i: nat, octet: nat)
    requires i == |done| < |was|
    ensures (done + was[i..])[i := octet] == done + [octet] + was[i + 1..]
  {
  }

  lemma PackedShort(s: seq<int>)
    requires |s| < 8
    ensures Packed(s) == if |s| > 0 then [ShiftUp(Value(s), 8 - |s|)] else []
  {
  }

  lemma UnpackedShort(octets: seq<nat>, n: nat)
    requires n < 8 && OctetCount(n) <= |octets|
    ensures Unpacked(octets, n) == if n > 0 then Digits(ShiftDown(octets[0], 8 - n), n) else []
  {
  }

  /** One more octet unpacked. */
  lemma UnpackedStep(octets: seq<nat>, n: nat, i: nat, done: seq<int>)
    requires OctetCount(n) <= |octets| && i < |octets| && 8 * i + 8 <= n && OctetCount(n - 8 * i) <= |octets[i..]|
    requires done + Unpacked(octets[i..], n - 8 * i) == Unpacked(octets, n)
    ensures OctetCount(n - 8 * (i + 1)) <= |octets[i + 1..]|
    ensures done + Digits(octets[i], 8) + Unpacked(octets[i + 1..], n - 8 * (i + 1)) == Unpacked(octets, n)
  {
    hide Digits;
    assert octets[i..][1..] == octets[i + 1..];
  }

  lemma FlippedShort(s: seq<int>)
    requires |s| < 8
    ensures Flipped(s) == s
  {
  }

  /** One more octet flipped. */
  lemma FlippedStep(s: seq<int>, at: nat, done: seq<int>)
    requires at + 8 <= |s| && done + Flipped(s[at..]) == Flipped(s)
    ensures done + Reverse(s[at..at + 8]) + Flipped(s[at + 8..]) == Flipped(s)
  {
    hide Reverse, Flipped;
    var rest := s[at..];
    assert rest[..8] == s[at..at + 8] && rest[8..] == s[at + 8..];
    FlippedUnfold(rest);
    Associative(done, Reverse(rest[..8]), Flipped(rest[8..]));
  }

  lemma Associative(a: seq<int>, b: seq<int>, c: seq<int>)
    ensures a + (b + c) == a + b + c
  {
  }

  lemma FlippedUnfold(s: seq<int>)
    requires |s| >= 8
    ensures Flipped(s) == Reverse(s[..8]) + Flipped(s[8..])
  {
  }

  lemma WholeVector(s: seq<int>, at: nat)
    requires at <= |s|
    ensures s == s[..at] + s[at..]
  {
  }

  lemma SmallOctet(octet: nat)
    requires octet < 256
    ensures octet < WORD
  {
  }

  lemma {:induction false} SmallShift(octet: nat, k: nat)
    requires octet < 256
    ensures ShiftDown(octet, k) < WORD
  {
    if k > 0 {
      SmallShift(octet / 2, k - 1);
    }
  }

  class BitVector {
    const data: array<int>

    constructor (data: array<int>)
      ensures this.data == data
    {
      this.data := data;
    }

    method PeekField(readIndex: nat, length: nat) returns (accum: nat)
      requires readIndex + length <= data.Length
      ensures accum == Value(data[readIndex..readIndex + length]) % WORD
    {
      accum := 0;
      for i := 0 to length
        invariant accum == Value(data[readIndex..readIndex + i]) % WORD
      {
        var field := data[readIndex..readIndex + i + 1];
        assert field[..|field| - 1] == data[readIndex..readIndex + i];
        Shifted(Value(data[readIndex..readIndex + i]), data[readIndex + i] % 2);
        accum := (2 * accum + data[readIndex + i] % 2) % WORD;
      }
    }

    method PeekFieldReversed(readIndex: nat, length: nat) returns (accum: nat)
      requires readIndex + length <= data.Length
      ensures accum == Value(Reverse(data[readIndex..readIndex + length])) % WORD
    {
      accum := 0;
      ghost var field := data[readIndex..readIndex + length];
      var i := length - 1;
      while i >= 0
        invariant -1 <= i < length
        invariant accum == Value(Reverse(field)[..length - 1 - i]) % WORD
      {
        ghost var done := Reverse(field)[..length - i];
        assert done[..|done| - 1] == Reverse(field)[..length - 1 - i];
        Shifted(Value(Reverse(field)[..length - 1 - i]), data[readIndex + i] % 2);
        accum := (2 * accum + data[readIndex + i] % 2) % WORD;
        i := i - 1;
      }
      assert Reverse(field)[..length] == Reverse(field);
    }

    /** The field, and nothing else, is overwritten. */
    method FillField(writeIndex: nat, value: nat, length: nat)
      requires writeIndex + length <= data.Length && value < WORD
      modifies data
      ensures data[writeIndex..writeIndex + length] == Digits(value, length)
      ensures data[..writeIndex] == old(data[..writeIndex])
      ensures data[writeIndex + length..] == old(data[writeIndex + length..])
    {
      var rest: nat := value;
      var i := length;
      ghost var was := data[..];
      while i > 0
        invariant 0 <= i <= length
        invariant Digits(rest, i) + data[writeIndex + i..writeIndex + length] == Digits(value, length)
        invariant data[..writeIndex] == was[..writeIndex] && data[writeIndex + length..] == was[writeIndex + length..]
      {
        i := i - 1;
        data[writeIndex + i] := rest % 2;
        rest := rest / 2;
      }
    }

    method FillFieldReversed(writeIndex: nat, value: nat, length: nat)
      requires writeIndex + length <= data.Length && value < WORD
      modifies data
      ensures data[writeIndex..writeIndex + length] == Reverse(Digits(value, length))
      ensures data[..writeIndex] == old(data[..writeIndex])
      ensures data[writeIndex + length..] == old(data[writeIndex + length..])
    {
      hide Digits, Reverse;
      var rest: nat := value;
      var i := 0;
      ghost var was := data[..];
      while i < length
        invariant 0 <= i <= length
        invariant data[writeIndex..writeIndex + i] + Reverse(Digits(rest, length - i)) == Reverse(Digits(value, length))
        invariant data[..writeIndex] == was[..writeIndex] && data[writeIndex + length..] == was[writeIndex + length..]
      {
        ghost var before := data[writeIndex..writeIndex + i];
        ReverseDigits(rest, length - i);
        data[writeIndex + i] := rest % 2;
        assert data[writeIndex..writeIndex + i + 1] == before + [rest % 2];
        rest := rest / 2;
        i := i + 1;
      }
    }

    /** Whole octets, and what is left over at the top of one more. */
    method Pack(targ: array<nat>)
      requires targ.Length >= OctetCount(data.Length)
      modifies targ
      ensures targ[..OctetCount(data.Length)] == Packed(data[..])
      ensures targ[OctetCount(data.Length)..] == old(targ[OctetCount(data.Length)..])
    {
      hide Value, ShiftUp, OctetCount, Packed;
      var octets := data.Length / 8;
      ghost var was, s := targ[..], data[..];
      OctetCountIs(data.Length);
      ghost var done := PackOctets(targ, octets);
      PackedShort(s[8 * octets..]);
      var whole := octets * 8;
      var rem := data.Length - whole;
      if rem == 0 {
        return;
      }
      var last := PeekField(whole, rem);
      SmallField(s[whole..]);
      assert s[whole..whole + rem] == s[whole..];
      targ[octets] := ShiftUp(last, 8 - rem);
      assert targ[..] == done + [ShiftUp(last, 8 - rem)] + was[octets + 1..];
    }

    /** The loop over whole octets. */
    method PackOctets(targ: array<nat>, octets: nat) returns (ghost done: seq<nat>)
      requires 8 * octets <= data.Length && octets <= targ.Length
      modifies targ
      ensures |done| == octets && targ[..] == done + old(targ[octets..])
      ensures done + Packed(data[..][8 * octets..]) == Packed(data[..])
    {
      hide Value, Packed;
      ghost var was, s := targ[..], data[..];
      done := [];
      assert s[0..] == s;
      for i := 0 to octets
        invariant |done| == i && targ[..] == done + was[i..] && done + Packed(s[8 * i..]) == Packed(s)
      {
        var octet := PeekField(8 * i, 8);
        SmallField(s[8 * i..8 * i + 8]);
        PackedStep(s, 8 * i, done, octet);
        SetNext(done, was, i, octet);
        targ[i] := octet;
        done := done + [octet];
      }
    }

    method Unpack(src: array<nat>)
      requires src.Length >= OctetCount(data.Length) && Octets(src[..])
      modifies data
      ensures data[..] == Unpacked(src[..], data.Length)
    {
      hide Digits, ShiftDown, Unpacked, OctetCount;
      var octets := data.Length / 8;
      ghost var all, n := src[..], data.Length;
      OctetCountIs(n);
      assert all[0..] == all;
      for i := 0 to octets
        invariant OctetCount(n - 8 * i) <= |all[i..]|
                  && data[..8 * i] + Unpacked(all[i..], n - 8 * i) == Unpacked(all, n)
      {
        ghost var before := data[..8 * i];
        SmallOctet(src[i]);
        UnpackedStep(all, n, i, before);
        FillField(8 * i, src[i], 8);
        assert data[..8 * i] == before && src[..] == all;
        assert data[..8 * i + 8] == data[..8 * i] + data[8 * i..8 * i + 8];
      }
      var whole := octets * 8;
      var rem := data.Length - whole;
      UnpackedShort(all[octets..], rem);
      if rem == 0 {
        assert data[..whole] == data[..];
        return;
      }
      ghost var before := data[..whole];
      SmallShift(src[octets], 8 - rem);
      FillField(whole, ShiftDown(src[octets], 8 - rem), rem);
      WholeVector(data[..], whole);
    }

    method Reverse8(start: nat)
      requires start + 8 <= data.Length
      modifies data
      ensures data[start..start + 8] == Reverse(old(data[start..start + 8]))
      ensures data[..start] == old(data[..start]) && data[start + 8..] == old(data[start + 8..])
    {
      data[start], data[start + 7] := data[start + 7], data[start];
      data[start + 1], data[start + 6] := data[start + 6], data[start + 1];
      data[start + 2], data[start + 5] := data[start + 5], data[start + 2];
      data[start + 3], data[start + 4] := data[start + 4], data[start + 3];
    }

    method Lsb8Msb()
      modifies data
      ensures data[..] == Flipped(old(data[..]))
    {
      hide Reverse, Flipped;
      FlippedShort(data[data.Length / 8 * 8..]);
      assert data[..] == data[0..] && data[..data.Length] == data[..];
      if data.Length < 8 {
        return;
      }
      ghost var s := data[..];
      var size8 := 8 * (data.Length / 8);
      var i := 0;
      while i <= size8 - 8
        invariant 0 <= i <= size8 && i % 8 == 0
        invariant data[i..] == s[i..] && data[..i] + Flipped(s[i..]) == Flipped(s)
      {
        ghost var before := data[..i];
        FlippedStep(s, i, before);
        assert data[i..i + 8] == s[i..i + 8];
        assert data[i + 8..] == s[i + 8..];
        Reverse8(i);
        assert data[..i + 8] == before + data[i..i + 8];
        i := i + 8;
      }
      WholeVector(data[..], i);
    }
  }
}
