/** The GSM frame clock: frame numbers that wrap every hyperframe, eight
    timeslots per frame, and the comparisons the schedulers rely on.

    `At` maps an unbounded slot count to the wrapped clock value that shows it.
    Everything below relates the wrapped arithmetic to that unbounded time. */
module GsmTime {
  import opened Modular

  /** 2048 * 26 * 51 frames. */
  const HYPERFRAME: int := 2715648
  const HALF: int := 1357824
  const SLOTS: int := 21725184

  datatype Time = Time(fn: int, tn: int)

  predicate InRange(t: Time) {
    0 <= t.fn < HYPERFRAME && 0 <= t.tn < 8
  }

  /** A superframe is 26 by 51 frames, a hyperframe 2048 superframes. */
  lemma Hyperframe()
    ensures HYPERFRAME == 2048 * 26 * 51 && HALF + HALF == HYPERFRAME && SLOTS == 8 * HYPERFRAME
  {
  }

  function FNDelta(v1: int, v2: int): int {
    var delta := v1 - v2;
    if delta >= HALF then delta - HYPERFRAME
    else if delta < -HALF then delta + HYPERFRAME
    else delta
  }

  function FNCompare(v1: int, v2: int): int {
    var delta := FNDelta(v1, v2);
    if delta > 0 then 1 else if delta < 0 then -1 else 0
  }

  predicate Less(a: Time, b: Time) {
    if a.fn == b.fn then a.tn < b.tn else FNCompare(a.fn, b.fn) < 0
  }

  predicate Greater(a: Time, b: Time) {
    if a.fn == b.fn then a.tn > b.tn else FNCompare(a.fn, b.fn) > 0
  }

  predicate AtMost(a: Time, b: Time) {
    if a.fn == b.fn then a.tn <= b.tn else FNCompare(a.fn, b.fn) <= 0
  }

  predicate AtLeast(a: Time, b: Time) {
    if a.fn == b.fn then a.tn >= b.tn else FNCompare(a.fn, b.fn) >= 0
  }

  function Plus(a: Time, b: Time): Time {
    Time((a.fn + b.fn + (a.tn + b.tn) / 8) % HYPERFRAME, (a.tn + b.tn) % 8)
  }

  function NextFrame(fn: int): int { (fn + 1) % HYPERFRAME }

  function IncTN(t: Time, step: nat := 1): Time {
    var tn := t.tn + step;
    if tn > 7 then Time(NextFrame(t.fn), tn - 8) else Time(t.fn, tn)
  }

  function DecTN(t: Time, step: nat := 1): Time {
    var tn := t.tn - step;
    if tn < 0 then
      Time(if t.fn - 1 < 0 then t.fn - 1 + HYPERFRAME else t.fn - 1, tn + 8)
    else
      Time(t.fn, tn)
  }

  /** The remainder the compiled code computes: the frame number is converted
      to an unsigned 32-bit value before the modulus is taken. */
  function UnsignedMod(fn: int): int
    requires -0x8000_0000 <= fn < 0x8000_0000
  {
    (if fn < 0 then fn + 0x1_0000_0000 else fn) % HYPERFRAME
  }

  /** `operator+=(int)`, on frames; the step may be negative. */
  function AddFrames(t: Time, step: int): Time
    requires -0x8000_0000 <= t.fn + step < 0x8000_0000
  {
    var fn := t.fn + step;
    Time(UnsignedMod(if fn < 0 then fn + HYPERFRAME else fn), t.tn)
  }

  // ----- unbounded time -------------------------------------------------------

  /** The wrapped clock value shown at unbounded slot `u`. */
  function At(u: int): (t: Time)
    ensures InRange(t)
  {
    Time((u / 8) % HYPERFRAME, u % 8)
  }

  /** The slot count of a wrapped time within its hyperframe. */
  function Slot(t: Time): int { 8 * t.fn + t.tn }

  /** Every in-range time is `At` its own slot count, and times recur every
      hyperframe and no sooner. */
  lemma AtSlot(t: Time)
    requires InRange(t)
    ensures At(Slot(t)) == t
  {
    ModUnique(Slot(t), 8, t.fn, t.tn);
  }

  lemma SlotAt(u: int)
    ensures Slot(At(u)) == u % SLOTS
  {
    var f := u / 8;
    var k, r := f / HYPERFRAME, f % HYPERFRAME;
    assert u == k * SLOTS + (8 * r + u % 8);
    ModUnique(u, SLOTS, k, 8 * r + u % 8);
  }

  lemma AtPeriodic(u: int, v: int)
    ensures At(u) == At(v) <==> (u - v) % SLOTS == 0
  {
    SlotAt(u);
    SlotAt(v);
    AtSlot(At(u));
    AtSlot(At(v));
    ModDifference(u, v, SLOTS);
  }

  // ----- arithmetic is exact modulo one hyperframe ------------------------------

  lemma FrameShift(f: int, r: int)
    requires r % HYPERFRAME == f % HYPERFRAME
    ensures (r + 1) % HYPERFRAME == (f + 1) % HYPERFRAME
    ensures (r - 1) % HYPERFRAME == (f - 1) % HYPERFRAME
  {
    ModStep(f);
    ModStep(r);
  }

  lemma ModStep(f: int)
    ensures (f + 1) % HYPERFRAME == if f % HYPERFRAME == HYPERFRAME - 1 then 0 else f % HYPERFRAME + 1
    ensures (f - 1) % HYPERFRAME == if f % HYPERFRAME == 0 then HYPERFRAME - 1 else f % HYPERFRAME - 1
  {
    var k, r := f / HYPERFRAME, f % HYPERFRAME;
    assert f == k * HYPERFRAME + r;
    if r == HYPERFRAME - 1 {
      ModUnique(f + 1, HYPERFRAME, k + 1, 0);
    } else {
      ModUnique(f + 1, HYPERFRAME, k, r + 1);
    }
    if r == 0 {
      ModUnique(f - 1, HYPERFRAME, k - 1, HYPERFRAME - 1);
    } else {
      ModUnique(f - 1, HYPERFRAME, k, r - 1);
    }
  }

  lemma PlusIsExact(u: int, v: int)
    ensures Plus(At(u), At(v)) == At(u + v)
  {
    var a, b := u / 8, v / 8;
    var c := (u % 8 + v % 8) / 8;
    assert u + v == 8 * (a + b + c) + (u % 8 + v % 8) % 8;
    ModUnique(u + v, 8, a + b + c, (u % 8 + v % 8) % 8);
    var s := a % HYPERFRAME + b % HYPERFRAME + c;
    assert a + b + c == (a / HYPERFRAME + b / HYPERFRAME) * HYPERFRAME + s;
    assert s == (s / HYPERFRAME) * HYPERFRAME + s % HYPERFRAME;
    ModUnique(a + b + c, HYPERFRAME, a / HYPERFRAME + b / HYPERFRAME + s / HYPERFRAME, s % HYPERFRAME);
  }

  lemma IncIsExact(u: int, step: nat)
    requires step <= 8
    ensures IncTN(At(u), step) == At(u + step)
  {
    var f := u / 8;
    if u % 8 + step > 7 {
      assert (u + step) / 8 == f + 1 && (u + step) % 8 == u % 8 + step - 8 by {
        ModUnique(u + step, 8, f + 1, u % 8 + step - 8);
      }
      FrameShift(f, f % HYPERFRAME);
    } else {
      ModUnique(u + step, 8, f, u % 8 + step);
    }
  }

  lemma DecIsExact(u: int, step: nat)
    requires step <= 8
    ensures DecTN(At(u), step) == At(u - step)
  {
    var f := u / 8;
    if u % 8 - step < 0 {
      assert (u - step) / 8 == f - 1 && (u - step) % 8 == u % 8 - step + 8 by {
        ModUnique(u - step, 8, f - 1, u % 8 - step + 8);
      }
      ModStep(f);
    } else {
      ModUnique(u - step, 8, f, u % 8 - step);
    }
  }

  /** `incTN` and `decTN` undo each other on every in-range time. */
  lemma IncDecInverse(t: Time, step: nat)
    requires InRange(t) && step <= 8
    ensures DecTN(IncTN(t, step), step) == t
    ensures IncTN(DecTN(t, step), step) == t
  {
    var u := Slot(t);
    assert At(u) == t by { AtSlot(t); }
    assert IncTN(t, step) == At(u + step) by { IncSlot(t, step); }
    assert DecTN(At(u + step), step) == At(u + step - step) by { DecIsExact(u + step, step); }
    assert DecTN(t, step) == At(u - step) by { DecSlot(t, step); }
    assert IncTN(At(u - step), step) == At(u - step + step) by { IncIsExact(u - step, step); }
  }

  /** Frame addition is exact modulo the hyperframe precisely while the raw sum
      is no further below zero than one hyperframe; beyond that the conversion
      to unsigned spoils it. */
  lemma AddFramesExactIff(t: Time, step: int)
    requires InRange(t)
    requires -0x8000_0000 <= t.fn + step < 0x8000_0000
    ensures AddFrames(t, step).fn == (t.fn + step) % HYPERFRAME <==> t.fn + step >= -HYPERFRAME
    ensures AddFrames(t, step).tn == t.tn
  {
    var fn := t.fn + step;
    if fn < -HYPERFRAME {
      var r := fn % HYPERFRAME;
      var k := fn / HYPERFRAME;
      assert fn + HYPERFRAME + 0x1_0000_0000 == (k + 1582) * HYPERFRAME + (r + 1527808);
      if r + 1527808 < HYPERFRAME {
        ModUnique(fn + HYPERFRAME + 0x1_0000_0000, HYPERFRAME, k + 1582, r + 1527808);
      } else {
        ModUnique(fn + HYPERFRAME + 0x1_0000_0000, HYPERFRAME, k + 1583, r + 1527808 - HYPERFRAME);
      }
    }
  }

  // ----- the order --------------------------------------------------------------

  /** `FNDelta` recovers the true frame distance whenever that lies in
      [-HALF, HALF). */
  lemma DeltaIsExact(f: int, g: int)
    requires -HALF <= f - g < HALF
    ensures FNDelta(f % HYPERFRAME, g % HYPERFRAME) == f - g
  {
    var k, l := f / HYPERFRAME, g / HYPERFRAME;
    assert f == k * HYPERFRAME + f % HYPERFRAME;
    assert g == l * HYPERFRAME + g % HYPERFRAME;
    var d := f % HYPERFRAME - g % HYPERFRAME;
    assert f - g == (k - l) * HYPERFRAME + d;
    assert -1 <= k - l <= 1;
  }

  lemma DeltaAtHalf(f: int, g: int)
    requires f - g == HALF
    ensures FNDelta(f % HYPERFRAME, g % HYPERFRAME) == -HALF
  {
    DeltaIsExact(g, f);
    var k, l := f / HYPERFRAME, g / HYPERFRAME;
    assert f == k * HYPERFRAME + f % HYPERFRAME;
    assert g == l * HYPERFRAME + g % HYPERFRAME;
    assert 0 <= k - l <= 1;
  }

  /** For times at most half a hyperframe of frames apart, `<` and `>` tell the
      unbounded order, except exactly when the first lies half a hyperframe of
      frames ahead of the second. */
  lemma OrderAgreesIff(u: int, v: int)
    requires -HALF <= u / 8 - v / 8 <= HALF
    ensures (Less(At(u), At(v)) <==> u < v) <==> u / 8 - v / 8 != HALF
    ensures (Greater(At(u), At(v)) <==> u > v) <==> u / 8 - v / 8 != HALF
  {
    var d := u / 8 - v / 8;
    if d == HALF {
      DeltaAtHalf(u / 8, v / 8);
    } else {
      DeltaIsExact(u / 8, v / 8);
    }
  }

  /** The form schedulers use: inside a window of HALF frames every comparison
      is the unbounded one. */
  lemma OrderInWindow(u: int, v: int)
    requires -HALF < u / 8 - v / 8 < HALF
    ensures Less(At(u), At(v)) <==> u < v
    ensures Greater(At(u), At(v)) <==> u > v
    ensures AtMost(At(u), At(v)) <==> u <= v
    ensures AtLeast(At(u), At(v)) <==> u >= v
    ensures At(u) == At(v) <==> u == v
  {
    DeltaIsExact(u / 8, v / 8);
  }

  /** A time HALF or more frames ahead looks stale, up to a whole hyperframe. */
  lemma FarFutureLooksPast(u: int, v: int)
    requires HALF <= u / 8 - v / 8 < HYPERFRAME
    ensures Less(At(u), At(v)) && !Greater(At(u), At(v))
  {
    if u / 8 - v / 8 == HALF {
      DeltaAtHalf(u / 8, v / 8);
    } else {
      DeltaIsExact(u / 8 - HYPERFRAME, v / 8);
      FrameBack(u / 8);
    }
  }

  lemma FrameBack(f: int)
    ensures (f - HYPERFRAME) % HYPERFRAME == f % HYPERFRAME
  {
    ModUnique(f - HYPERFRAME, HYPERFRAME, f / HYPERFRAME - 1, f % HYPERFRAME);
  }

  /** On all in-range times exactly one of `<`, `==` and `>` holds, unless the
      frames differ by exactly HALF; then each is below the other. */
  lemma AntisymmetryFailsIffHalf(a: Time, b: Time)
    requires InRange(a) && InRange(b)
    ensures Less(a, b) && Less(b, a) <==> (a.fn - b.fn == HALF || b.fn - a.fn == HALF)
    ensures !(Less(a, b) && Less(b, a)) ==>
              (a == b || Less(a, b) || Less(b, a)) && !(a == b && Less(a, b))
              && (Less(a, b) <==> Greater(b, a))
  {
  }

  /** Shifting both times by the same amount does not change their order, for
      times under half a hyperframe apart. */
  lemma OrderIsTranslationInvariant(u: int, v: int, s: int)
    requires -8 * (HALF - 1) <= u - v <= 8 * (HALF - 1)
    ensures Less(Plus(At(u), At(s)), Plus(At(v), At(s))) <==> Less(At(u), At(v))
  {
    PlusIsExact(u, s);
    PlusIsExact(v, s);
    OrderInWindow(u, v);
    OrderInWindow(u + s, v + s);
  }

  /** On a window of HALF frames `<` is transitive. */
  lemma OrderIsTransitive(u: int, v: int, w: int)
    requires -HALF < u / 8 - v / 8 < HALF && -HALF < v / 8 - w / 8 < HALF && -HALF < u / 8 - w / 8 < HALF
    ensures Less(At(u), At(v)) && Less(At(v), At(w)) ==> Less(At(u), At(w))
  {
    OrderInWindow(u, v);
    OrderInWindow(v, w);
    OrderInWindow(u, w);
  }

  /** The frame `k` frames after `fn`. */
  function FrameAfter(fn: int, k: int): int { (fn + k) % HYPERFRAME }

  lemma FrameAfterStart(fn: int)
    requires 0 <= fn < HYPERFRAME
    ensures FrameAfter(fn, 0) == fn
  {
  }

  lemma FrameAfterStep(fn: int, k: int)
    ensures FrameAfter(fn, k + 1) == NextFrame(FrameAfter(fn, k))
    ensures 0 <= FrameAfter(fn, k + 1) < HYPERFRAME
  {
    FrameShift(fn + k, FrameAfter(fn, k));
  }

  ghost function FramesUntil(fn: int, target: int): (k: int)
    requires 0 <= fn < HYPERFRAME && 0 <= target < HYPERFRAME
    ensures 0 <= k < HYPERFRAME && FrameAfter(fn, k) == target
  {
    FrameBack(target + HYPERFRAME);
    if target >= fn then target - fn else target - fn + HYPERFRAME
  }

  lemma IncSlot(t: Time, step: nat)
    requires InRange(t) && step <= 8
    ensures IncTN(t, step) == At(Slot(t) + step)
  {
    hide IncTN, At, Slot;
    AtSlot(t);
    IncIsExact(Slot(t), step);
  }

  lemma DecSlot(t: Time, step: nat)
    requires InRange(t) && step <= 8
    ensures DecTN(t, step) == At(Slot(t) - step)
  {
    hide DecTN, At, Slot;
    AtSlot(t);
    DecIsExact(Slot(t), step);
  }

  // ----- the clock as an object ---------------------------------------------------

  /** `GSM::Time` as the source updates it in place. */
  class FrameClock {
    var fn: int
    var tn: int

    ghost predicate Valid()
      reads this
    {
      InRange(Time(fn, tn))
    }

    function Value(): Time
      reads this
    {
      Time(fn, tn)
    }

    constructor (t: Time)
      requires InRange(t)
      ensures Valid() && Value() == t
    {
      fn, tn := t.fn, t.tn;
    }

    method Inc(step: nat)
      requires Valid() && step <= 8
      modifies this
      ensures Valid() && Value() == At(Slot(old(Value())) + step)
    {
      IncSlot(Value(), step);
      tn := tn + step;
      if tn > 7 {
        tn := tn - 8;
        fn := NextFrame(fn);
      }
    }

    method Dec(step: nat)
      requires Valid() && step <= 8
      modifies this
      ensures Valid() && Value() == At(Slot(old(Value())) - step)
    {
      DecSlot(Value(), step);
      tn := tn - step;
      if tn < 0 {
        tn := tn + 8;
        fn := fn - 1;
        if fn < 0 {
          fn := fn + HYPERFRAME;
        }
      }
    }

    /** Moves forward to the first frame, in cyclic order, whose number is
        `wFN` modulo `modulus`. */
    method RollForward(wFN: nat, modulus: nat) returns (ghost steps: nat)
      requires Valid()
      requires wFN < modulus < HYPERFRAME
      modifies this
      ensures Valid() && tn == old(tn)
      ensures fn == FrameAfter(old(fn), steps) && fn % modulus == wFN
      ensures steps < HYPERFRAME
      ensures forall k :: 0 <= k < steps ==> FrameAfter(old(fn), k) % modulus != wFN
    {
      steps := 0;
      ghost var far := FramesUntil(fn, wFN);
      FrameAfterStart(fn);
      SmallMod(wFN, modulus);
      while fn % modulus != wFN
        invariant Valid() && tn == old(tn)
        invariant 0 <= steps <= far < HYPERFRAME
        invariant fn == FrameAfter(old(fn), steps)
        invariant FrameAfter(old(fn), far) == wFN
        invariant wFN % modulus == wFN
        invariant forall k :: 0 <= k < steps ==> FrameAfter(old(fn), k) % modulus != wFN
        decreases far - steps
      {
        FrameAfterStep(old(fn), steps);
        fn := NextFrame(fn);
        steps := steps + 1;
      }
    }
  }
}
