/** The timing of the transmit loop: a deadline clock that chases the radio
    clock plus a transmit latency, in time that wraps every hyperframe, with
    the latency raised on underruns and lowered when there are none.

    The radio clock is advanced by another thread, so each pass of the loop may
    read a later clock at each of the places where it reads it. */
module TxSchedule {
  import opened GsmTime
  import opened Modular

  datatype Timing = Timing(deadline: Time, latency: Time, lastUpdate: Time)

  /** What the attached device decides: whether latency control is on, and the
      floor below which latency is not lowered. */
  datatype Device = Device(latencyControl: bool, minLatency: Time)

  /** The clock, as unbounded slot counts, at the three places one pass reads
      it, and what `isUnderrun` answers. */
  datatype Reads = Reads(guard: int, compare: int, stamp: int, underrun: bool)

  const UPDATE_INTERVAL := Time(10, 0)
  const RELAX_INTERVAL := Time(216, 0)
  const ONE_FRAME := Time(1, 0)

  predicate Due(s: Timing, r: Reads) {
    Greater(Plus(At(r.guard), s.latency), s.deadline)
  }

  function Adjust(dev: Device, s: Timing, r: Reads): Timing {
    if !dev.latencyControl then s
    else if r.underrun then
      if Greater(At(r.compare), Plus(s.lastUpdate, UPDATE_INTERVAL)) then
        s.(latency := Plus(s.latency, ONE_FRAME), lastUpdate := At(r.stamp))
      else s
    else if Greater(s.latency, dev.minLatency) then
      if Greater(At(r.compare), Plus(s.lastUpdate, RELAX_INTERVAL)) then
        s.(latency := DecTN(s.latency), lastUpdate := At(r.stamp))
      else s
    else s
  }

  datatype Outcome = Outcome(timing: Timing, pushed: seq<Time>)

  /** One evaluation of the loop guard and, if it holds, of the loop body. */
  function Pass(dev: Device, o: Outcome, r: Reads): Outcome {
    if Due(o.timing, r) then
      var s := Adjust(dev, o.timing, r);
      Outcome(s.(deadline := IncTN(s.deadline)), o.pushed + [s.deadline])
    else o
  }

  function Run(dev: Device, o: Outcome, rs: seq<Reads>): Outcome
    decreases |rs|
  {
    if rs == [] then o else Run(dev, Pass(dev, o, rs[0]), rs[1..])
  }

  // ----- the same loop in unbounded time ------------------------------------------

  /** Deadline, latency and time of last update as unbounded slot counts. */
  datatype Ideal = Ideal(d: int, l: int, u: int)

  function Wrap(i: Ideal): Timing { Timing(At(i.d), At(i.l), At(i.u)) }

  predicate Bumped(dev: Device, i: Ideal, r: Reads) {
    dev.latencyControl && r.underrun && Greater(At(r.compare), At(i.u + 80))
  }

  predicate Relaxed(dev: Device, i: Ideal, r: Reads) {
    dev.latencyControl && !r.underrun && Greater(At(i.l), dev.minLatency) && Greater(At(r.compare), At(i.u + 1728))
  }

  function IdealPass(dev: Device, i: Ideal, r: Reads): Ideal {
    if !Due(Wrap(i), r) then i
    else if Bumped(dev, i, r) then Ideal(i.d + 1, i.l + 8, r.stamp)
    else if Relaxed(dev, i, r) then Ideal(i.d + 1, i.l - 1, r.stamp)
    else Ideal(i.d + 1, i.l, i.u)
  }

  function IdealRun(dev: Device, i: Ideal, rs: seq<Reads>): Ideal
    decreases |rs|
  {
    if rs == [] then i else IdealRun(dev, IdealPass(dev, i, rs[0]), rs[1..])
  }

  lemma Intervals()
    ensures UPDATE_INTERVAL == At(80) && RELAX_INTERVAL == At(1728) && ONE_FRAME == At(8)
  {
  }

  lemma AdjustIsIdeal(dev: Device, i: Ideal, r: Reads)
    ensures Bumped(dev, i, r) ==> Adjust(dev, Wrap(i), r) == Wrap(Ideal(i.d, i.l + 8, r.stamp))
    ensures Relaxed(dev, i, r) ==> Adjust(dev, Wrap(i), r) == Wrap(Ideal(i.d, i.l - 1, r.stamp))
    ensures !Bumped(dev, i, r) && !Relaxed(dev, i, r) ==> Adjust(dev, Wrap(i), r) == Wrap(i)
  {
    Intervals();
    PlusIsExact(i.u, 80);
    PlusIsExact(i.u, 1728);
    PlusIsExact(i.l, 8);
    DecIsExact(i.l, 1);
  }

  /** Wrapping loses nothing: a pass over wrapped clocks is the image of the
      pass over unbounded ones, and what it pushes is the unbounded deadline. */
  lemma PassIsIdeal(dev: Device, i: Ideal, p: seq<Time>, r: Reads)
    ensures i.d <= IdealPass(dev, i, r).d <= i.d + 1
    ensures Pass(dev, Outcome(Wrap(i), p), r)
            == Outcome(Wrap(IdealPass(dev, i, r)), p + Slots(i.d, IdealPass(dev, i, r).d - i.d))
  {
    var o := Outcome(Wrap(i), p);
    if Due(o.timing, r) {
      AdjustIsIdeal(dev, i, r);
      IncIsExact(i.d, 1);
      assert Slots(i.d, 1) == [At(i.d)];
    } else {
      assert p + Slots(i.d, 0) == p;
    }
  }

  /** The `n` timeslots that follow slot `d`, in order. */
  function Slots(d: int, n: int): seq<Time> {
    if n < 0 then [] else seq(n, k => At(d + k))
  }

  lemma SlotsJoin(d: int, m: int, n: int)
    requires 0 <= m && 0 <= n
    ensures Slots(d, m) + Slots(d + m, n) == Slots(d, m + n)
    ensures Slots(d, 0) == []
  {
  }

  /** Over any run, whatever the clock does, every timeslot from the first
      deadline on is pushed exactly once and in order, across hyperframes. */
  lemma {:induction false} EverySlotOnce(dev: Device, i: Ideal, p: seq<Time>, rs: seq<Reads>)
    ensures IdealRun(dev, i, rs).d >= i.d
    ensures Run(dev, Outcome(Wrap(i), p), rs)
            == Outcome(Wrap(IdealRun(dev, i, rs)), p + Slots(i.d, IdealRun(dev, i, rs).d - i.d))
    decreases |rs|
  {
    hide At, Pass, IdealPass, Slots;
    if rs == [] {
      SlotsJoin(i.d, 0, 0);
    } else {
      var j := IdealPass(dev, i, rs[0]);
      var m := j.d - i.d;
      var n := IdealRun(dev, j, rs[1..]).d - j.d;
      PassIsIdeal(dev, i, p, rs[0]);
      EverySlotOnce(dev, j, p + Slots(i.d, m), rs[1..]);
      SlotsJoin(i.d, m, n);
      assert p + Slots(i.d, m) + Slots(j.d, n) == p + (Slots(i.d, m) + Slots(j.d, n));
    }
  }

  lemma {:induction false} IdealRunAppend(dev: Device, i: Ideal, rs: seq<Reads>, r: Reads)
    ensures IdealRun(dev, i, rs + [r]) == IdealPass(dev, IdealRun(dev, i, rs), r)
    decreases |rs|
  {
    hide IdealPass;
    if rs == [] {
      assert IdealRun(dev, IdealPass(dev, i, r), []) == IdealPass(dev, i, r);
    } else {
      assert (rs + [r])[1..] == rs[1..] + [r];
      IdealRunAppend(dev, IdealPass(dev, i, rs[0]), rs[1..], r);
    }
  }

  // ----- latency control -------------------------------------------------------------

  /** The clock never runs backwards: the reads of a run, in the order they are
      made, start no earlier than `c`. */
  predicate Monotone(c: int, rs: seq<Reads>)
    decreases |rs|
  {
    rs == [] ||
    (c <= rs[0].guard <= rs[0].compare <= rs[0].stamp && Monotone(rs[0].stamp, rs[1..]))
  }

  /** The last value the clock was read as. */
  function LastRead(c: int, rs: seq<Reads>): int {
    if rs == [] then c else rs[|rs| - 1].stamp
  }

  lemma BumpNeeds81Slots(u: int, c: int)
    requires u <= c && Greater(At(c), At(u + 80))
    ensures c - u >= 81
  {
    if c - u < 81 {
      OrderInWindow(c, u + 80);
    }
  }

  lemma RelaxOnlyAbove(l: int, m: int)
    requires 0 <= l && 0 <= m < 8 * HALF && Greater(At(l), At(m))
    ensures l > m
  {
    if l <= m {
      OrderInWindow(l, m);
    }
  }

  lemma RelaxNeeds1729Slots(u: int, c: int)
    requires u <= c && Greater(At(c), At(u + 1728))
    ensures c - u >= 1729
  {
    if c - u < 1729 {
      OrderInWindow(c, u + 1728);
    }
  }

  /** When latency changes, in unbounded time: a pass that is due raises it by a
      frame exactly when there was an underrun and more than ten frames have passed
      since it last changed, lowers it by a slot exactly when there was none, it is
      above the minimum and more than 216 frames have passed, and leaves it alone
      otherwise; without latency control it never changes. */
  lemma LatencyChangesIff(dev: Device, i: Ideal, r: Reads, m: int)
    requires Due(Wrap(i), r) && i.u <= r.compare < i.u + 8 * (HALF - 1) && dev.minLatency == At(m)
    requires -HALF < i.l / 8 - m / 8 < HALF
    ensures var j, since := IdealPass(dev, i, r), r.compare - i.u;
            var raised, lowered := r.underrun && since > 8 * 10, !r.underrun && i.l > m && since > 8 * 216;
            && j.d == i.d + 1
            && j.l == (if dev.latencyControl && raised then i.l + 8
                       else if dev.latencyControl && lowered then i.l - 1
                       else i.l)
            && j.u == if dev.latencyControl && (raised || lowered) then r.stamp else i.u
  {
    OrderInWindow(r.compare, i.u + 80);
    OrderInWindow(r.compare, i.u + 1728);
    OrderInWindow(i.l, m);
  }

  function Min(a: int, b: int): int { if a <= b then a else b }

  lemma Div81(a: int, b: int)
    requires b >= a + 81
    ensures b / 81 >= a / 81 + 1
  {
  }

  lemma Div81Monotone(a: int, b: int)
    requires a <= b
    ensures a / 81 <= b / 81
  {
  }

  lemma IdealPassLatency(dev: Device, i: Ideal, r: Reads, m: int, start: int)
    requires i.u <= r.guard <= r.compare <= r.stamp
    requires 0 <= m < 8 * HALF && dev.minLatency == At(m) && 0 <= i.l
    ensures var j := IdealPass(dev, i, r);
            && i.u <= j.u <= r.stamp
            && j.l - 8 * ((j.u - start) / 81) <= i.l - 8 * ((i.u - start) / 81)
            && j.l >= Min(i.l, m)
  {
    if Due(Wrap(i), r) {
      if Bumped(dev, i, r) {
        BumpNeeds81Slots(i.u, r.compare);
        Div81(i.u - start, r.stamp - start);
      } else if Relaxed(dev, i, r) {
        RelaxOnlyAbove(i.l, m);
        Div81Monotone(i.u - start, r.stamp - start);
      }
    }
  }

  /** Over any run, however many hyperframes it spans, the unbounded latency
      never falls below the smaller of its start value and the device minimum,
      and rises by at most one frame per 81 slots of radio clock. */
  lemma {:induction false} LatencyBounds(dev: Device, i: Ideal, rs: seq<Reads>, m: int, c: int, start: int)
    requires start <= i.u <= c && Monotone(c, rs)
    requires 0 <= m < 8 * HALF && dev.minLatency == At(m) && 0 <= i.l
    ensures var j := IdealRun(dev, i, rs);
            && i.u <= j.u <= LastRead(c, rs)
            && j.l - 8 * ((j.u - start) / 81) <= i.l - 8 * ((i.u - start) / 81)
            && j.l >= Min(i.l, m)
    decreases |rs|
  {
    hide At, IdealPass;
    if rs != [] {
      var r := rs[0];
      IdealPassLatency(dev, i, r, m, start);
      LatencyBounds(dev, IdealPass(dev, i, r), rs[1..], m, r.stamp, start);
    }
  }

  lemma Div1729(a: int, b: int)
    requires a <= b
    ensures b / 1729 >= a / 1729 + if b >= a + 1729 then 1 else 0
  {
  }

  lemma IdealPassFalls(dev: Device, i: Ideal, r: Reads, start: int)
    requires i.u <= r.guard <= r.compare <= r.stamp
    ensures var j := IdealPass(dev, i, r);
            && i.u <= j.u <= r.stamp
            && j.l + (j.u - start) / 1729 >= i.l + (i.u - start) / 1729
  {
    if Due(Wrap(i), r) {
      if Bumped(dev, i, r) {
        Div1729(i.u - start, r.stamp - start);
      } else if Relaxed(dev, i, r) {
        RelaxNeeds1729Slots(i.u, r.compare);
        Div1729(i.u - start, r.stamp - start);
      }
    }
  }

  /** Over any run, unbounded latency falls by at most one slot per 1729 slots of
      radio clock. */
  lemma {:induction false} LatencyFallsSlowly(dev: Device, i: Ideal, rs: seq<Reads>, c: int, start: int)
    requires i.u <= c && Monotone(c, rs)
    ensures var j := IdealRun(dev, i, rs);
            && i.u <= j.u <= LastRead(c, rs)
            && j.l + (j.u - start) / 1729 >= i.l + (i.u - start) / 1729
    decreases |rs|
  {
    hide At, IdealPass;
    if rs != [] {
      IdealPassFalls(dev, i, rs[0], start);
      LatencyFallsSlowly(dev, IdealPass(dev, i, rs[0]), rs[1..], rs[0].stamp, start);
    }
  }

  /** The same bounds on the clock values the transceiver really holds, from
      the moment the transceiver starts at clock `c`: as long as unbounded latency
      is under a hyperframe it is the value held, and stays between its floor and
      start + 8 * floor(s / 81) after `s` slots of radio clock. */
  lemma LatencyStaysBounded(dev: Device, deadline: Time, latency: Time, rs: seq<Reads>, c: int)
    requires InRange(deadline) && InRange(latency) && InRange(dev.minLatency) && dev.minLatency.fn < HALF
    requires Monotone(c, rs)
    ensures var end := Run(dev, Outcome(Timing(deadline, latency, At(c)), []), rs).timing;
            var l := IdealRun(dev, Ideal(Slot(deadline), Slot(latency), c), rs).l;
            var ceiling := Slot(latency) + 8 * ((LastRead(c, rs) - c) / 81);
            && (l < SLOTS ==> l == Slot(end.latency))
            && Min(Slot(latency), Slot(dev.minLatency)) <= l <= ceiling
  {
    hide At, Run, IdealRun, Monotone, Slot;
    var m := Slot(dev.minLatency);
    var i := Ideal(Slot(deadline), Slot(latency), c);
    var j := IdealRun(dev, i, rs);
    assert Wrap(i) == Timing(deadline, latency, At(c)) && dev.minLatency == At(m) by {
      AtSlot(deadline);
      AtSlot(latency);
      AtSlot(dev.minLatency);
    }
    assert 0 <= i.l && 0 <= m < 8 * HALF by {
      SlotRange(latency);
      SlotRange(dev.minLatency);
    }
    assert Run(dev, Outcome(Wrap(i), []), rs).timing.latency == At(j.l) by {
      EverySlotOnce(dev, i, [], rs);
    }
    LatencySinceStart(dev, i, rs, m, c);
    if j.l < SLOTS {
      SlotAtSmall(j.l);
    }
  }

  lemma SlotRange(t: Time)
    requires InRange(t)
    ensures 0 <= Slot(t) && (t.fn < HALF ==> Slot(t) < 8 * HALF)
  {
  }

  lemma LatencySinceStart(dev: Device, i: Ideal, rs: seq<Reads>, m: int, c: int)
    requires i.u == c && Monotone(c, rs)
    requires 0 <= m < 8 * HALF && dev.minLatency == At(m) && 0 <= i.l
    ensures Min(i.l, m) <= IdealRun(dev, i, rs).l <= i.l + 8 * ((LastRead(c, rs) - c) / 81)
  {
    hide At, IdealRun, Monotone;
    LatencyBounds(dev, i, rs, m, c, c);
    Div81Monotone(IdealRun(dev, i, rs).u - c, LastRead(c, rs) - c);
  }

  lemma SlotAtSmall(u: int)
    requires 0 <= u < SLOTS
    ensures Slot(At(u)) == u
  {
    SlotAt(u);
    SmallMod(u, SLOTS);
  }

  // ----- catching up with a clock that stands still -------------------------------------

  /** How far the deadline is behind clock `c` plus latency, counting a latency
      rise that may still come. */
  function Behind(c: int, i: Ideal): int {
    c + i.l - i.d + if i.u == c then 0 else 8
  }

  /** The deadline is within half a hyperframe of where it has to be. */
  predicate InReach(c: int, i: Ideal) {
    -8 * (HALF - 1) <= c + i.l - i.d && Behind(c, i) <= 8 * (HALF - 1)
  }

  lemma DueIffBehind(i: Ideal, r: Reads)
    requires -8 * (HALF - 1) <= r.guard + i.l - i.d <= 8 * (HALF - 1)
    ensures Due(Wrap(i), r) <==> r.guard + i.l > i.d
  {
    PlusIsExact(r.guard, i.l);
    OrderInWindow(r.guard + i.l, i.d);
  }

  /** Half a hyperframe or more behind, the loop does not run at all. */
  lemma StallsBeyondHalf(i: Ideal, r: Reads)
    requires HALF <= (r.guard + i.l) / 8 - i.d / 8 < HYPERFRAME
    ensures !Due(Wrap(i), r)
  {
    PlusIsExact(r.guard, i.l);
    FarFutureLooksPast(r.guard + i.l, i.d);
  }

  lemma NoChangeTwice(c: int)
    ensures !Greater(At(c), At(c + 80)) && !Greater(At(c), At(c + 1728))
  {
    OrderInWindow(c, c + 80);
    OrderInWindow(c, c + 1728);
  }

  /** How far the wrapped deadline is behind clock `c` plus latency, going
      forward. */
  function Gap(c: int, i: Ideal): (n: int)
    ensures 0 <= n < SLOTS
  {
    (c + i.l - i.d) % SLOTS
  }

  /** With the clock standing at `c`, wherever the deadline is, a pass that runs
      narrows the gap, or changes latency for the last time. */
  lemma StandingEnds(dev: Device, i: Ideal, c: int, underrun: bool)
    requires Due(Wrap(i), Reads(c, c, c, underrun))
    ensures var j := IdealPass(dev, i, Reads(c, c, c, underrun));
            (i.u != c && j.u == c) || (j.u == i.u && Gap(c, j) < Gap(c, i))
  {
    PlusIsExact(c, i.l);
    NoChangeTwice(c);
    GapNarrows(c + i.l - i.d);
    AtPeriodic(c + i.l, i.d);
    hide At, Plus;
    assert c + i.l - (i.d + 1) == c + i.l - i.d - 1;
  }

  lemma GapNarrows(x: int)
    ensures x % SLOTS != 0 ==> (x - 1) % SLOTS == x % SLOTS - 1
  {
    if x % SLOTS != 0 {
      ModUnique(x - 1, SLOTS, x / SLOTS, x % SLOTS - 1);
    }
  }

  /** With the clock standing at `c`, a pass that runs brings the loop strictly
      closer to its end and keeps it in reach. */
  lemma CatchUpPass(dev: Device, i: Ideal, c: int, underrun: bool)
    requires InReach(c, i) && Due(Wrap(i), Reads(c, c, c, underrun))
    ensures var j := IdealPass(dev, i, Reads(c, c, c, underrun));
            && InReach(c, j) && 0 < Behind(c, i) && Behind(c, j) < Behind(c, i)
            && j.d == i.d + 1 && j.d <= c + j.l + 1
  {
    DueIffBehind(i, Reads(c, c, c, underrun));
    NoChangeTwice(c);
  }
}
