/** The transmit side of the transceiver: the loop that pushes one burst per
    channel and timeslot to the radio, in deadline order. */
module Transceivers {
  import opened GsmTime
  import opened SlotPattern
  import opened TxChannels
  import opened TxSchedule
  import opened Wrappers

  /** One call of `driveTransmitRadio`: a vector and a zero flag per channel. */
  datatype SlotOut = SlotOut(time: Time, vectors: seq<Address>, zeros: seq<bool>)

  /** The radio's view of the channels' contributions. */
  function OutOf(now: Time, cs: seq<Choice>): SlotOut {
    SlotOut(now, seq(|cs|, k requires 0 <= k < |cs| => cs[k].vec), seq(|cs|, k requires 0 <= k < |cs| => cs[k].zero))
  }

  /** Every channel served slot `now`: bursts are used in exactly the slot they
      are for, and dropped only when that slot has passed; a burst for the slot
      goes out unless something earlier came in its way; and what goes out is as
      long as the slot. */
  ghost predicate Timely(cs: seq<Choice>, now: Time, sps: int) {
    forall k :: 0 <= k < |cs| ==> SlotStep(cs[k], now, sps)
  }

  /** The radio has been given every slot from `start` up to `d`, once each and
      in order, and each of `n` channels' part of each slot was timely. */
  ghost predicate PacedRun(radio: seq<SlotOut>, served: seq<seq<Choice>>, start: int, d: int, n: int, sps: int) {
    && |radio| == |served| == d - start
    && forall k :: 0 <= k < |radio| ==> PacedSlot(radio[k], served[k], start + k, n, sps)
  }

  lemma NothingPaced(start: int, n: int, sps: int)
    ensures PacedRun([], [], start, start, n, sps)
  {
  }

  ghost predicate PacedSlot(out: SlotOut, cs: seq<Choice>, u: int, n: int, sps: int) {
    |cs| == n && out == OutOf(At(u), cs) && Timely(cs, At(u), sps)
  }

  /** What the radio interface needs: its calls are for consecutive slots, and
      each time every vector is as long as the slot. */
  lemma RadioGetsSlotLengths(radio: seq<SlotOut>, served: seq<seq<Choice>>, start: int, d: int, n: int, sps: int,
                             k: nat)
    requires PacedRun(radio, served, start, d, n, sps) && k < |radio|
    ensures radio[k].time == At(start + k) && |radio[k].vectors| == |radio[k].zeros| == n
    ensures |served| == |radio| && |served[k]| == n
    ensures forall i :: 0 <= i < n ==> radio[k].vectors[i] == served[k][i].vec && radio[k].zeros[i] == served[k][i].zero
    ensures forall i :: 0 <= i < n ==> radio[k].vectors[i].samples == BurstLen(sps, At(start + k).tn)
  {
    hide At, BurstLen, SlotServed, Logged, Vecs, Row;
    assert PacedSlot(radio[k], served[k], start + k, n, sps);
  }

  lemma SlotsStep(radio: seq<SlotOut>, served: seq<seq<Choice>>, start: int, d: int, n: int, sps: int, k: int)
    requires PacedRun(radio, served, start, d, n, sps) && 0 <= k < n && AllRows(served, n)
    ensures forall i :: 0 <= i < |served| ==> SlotStep(served[i][k], At(start + i), sps)
    ensures forall i :: 0 <= i < |served| ==> SlotStep(Column(served, k, n)[i], At(start + i), sps)
  {
    hide At, SlotStep, OutOf;
    forall i | 0 <= i < |served|
      ensures SlotStep(served[i][k], At(start + i), sps)
    {
      assert PacedSlot(radio[i], served[i], start + i, n, sps);
    }
  }

  lemma PacedGrows(radio: seq<SlotOut>, served: seq<seq<Choice>>, start: int, d: int, n: int, sps: int, cs: seq<Choice>)
    requires PacedRun(radio, served, start, d, n, sps) && |cs| == n && Timely(cs, At(d), sps)
    ensures PacedRun(radio + [OutOf(At(d), cs)], served + [cs], start, d + 1, n, sps)
  {
    hide OutOf, At, Timely;
  }

  // ----- what became of the bursts of one channel ------------------------------------------------

  /** Between slots, bursts are queued and nothing else happens. */
  ghost predicate Quiet(s: Snapshot, t: Snapshot) {
    && s.queue <= t.queue && s.seen <= t.seen
    && s.sent == t.sent && s.dropped == t.dropped && s.log == t.log && s.cells == t.cells
  }

  lemma StayQuiet(s: Snapshot)
    ensures Quiet(s, s)
  {
  }

  /** The choices of a channel link up, from `base` to `end`. */
  ghost predicate History(base: Snapshot, cs: seq<Choice>, end: Snapshot) {
    && (forall n :: 0 <= n < |cs| ==> Quiet(Left(base, cs, n), cs[n].before))
    && Quiet(Left(base, cs, |cs|), end)
  }

  /** The channel as its first `n` slots left it. */
  ghost function Left(base: Snapshot, cs: seq<Choice>, n: nat): Snapshot
    requires n <= |cs|
  {
    if n == 0 then base else cs[n - 1].after
  }

  lemma NoHistory(base: Snapshot)
    ensures History(base, [], base)
  {
  }

  lemma HistoryGrows(base: Snapshot, cs: seq<Choice>, c: Choice)
    requires History(base, cs, c.before)
    ensures History(base, cs + [c], c.after)
  {
    StayQuiet(c.after);
    hide Quiet;
    var ds := cs + [c];
    forall n | 0 <= n < |ds|
      ensures Quiet(Left(base, ds, n), ds[n].before)
    {
      assert Left(base, ds, n) == Left(base, cs, n);
    }
  }

  lemma HistoryWaits(base: Snapshot, cs: seq<Choice>, s: Snapshot, t: Snapshot)
    requires History(base, cs, s) && Quiet(s, t)
    ensures History(base, cs, t)
  {
  }

  /** The bursts used, the bursts dropped and the writes to the filler table in a
      number of slots. */
  function Currents(cs: seq<Choice>): seq<Burst> {
    if cs == [] then [] else Currents(cs[..|cs| - 1]) + AsSeq(cs[|cs| - 1].current)
  }

  function Stales(cs: seq<Choice>): seq<Burst> {
    if cs == [] then [] else Stales(cs[..|cs| - 1]) + cs[|cs| - 1].stale
  }

  function Writes(cs: seq<Choice>): seq<Update> {
    if cs == [] then []
    else
      var c := cs[|cs| - 1];
      Writes(cs[..|cs| - 1]) + if c.retrans then Updates(c.stale + AsSeq(c.current), c.period) else []
  }

  /** Over a run, a channel has sent exactly the bursts its slots used, dropped
      exactly those that were stale, and written both to the filler table, in that
      order, while it retransmitted. */
  lemma {:induction false} RunRecord(base: Snapshot, cs: seq<Choice>, end: Snapshot, start: int, sps: int)
    requires History(base, cs, end) && forall n :: 0 <= n < |cs| ==> SlotStep(cs[n], At(start + n), sps)
    ensures end.sent == base.sent + Currents(cs) && end.dropped == base.dropped + Stales(cs)
    ensures end.log == base.log + Writes(cs)
  {
    hide At, SlotStep, History, Quiet, Updates, AsSeq;
    if cs == [] {
      EmptyHistory(base, end);
    } else {
      var m := |cs| - 1;
      var rest, c := cs[..m], cs[m];
      HistoryPrefix(base, cs, end, m);
      RunRecord(base, rest, c.before, start, sps);
      assert SlotStep(c, At(start + m), sps);
      StepRecord(c, At(start + m), sps, end);
      RecordGrows(base, cs, c.before, end);
    }
  }

  lemma RecordGrows(base: Snapshot, cs: seq<Choice>, mid: Snapshot, end: Snapshot)
    requires cs != []
    requires var rest := cs[..|cs| - 1];
             && mid.sent == base.sent + Currents(rest) && mid.dropped == base.dropped + Stales(rest)
             && mid.log == base.log + Writes(rest)
    requires var c := cs[|cs| - 1];
             && end.sent == mid.sent + AsSeq(c.current) && end.dropped == mid.dropped + c.stale
             && end.log == mid.log + if c.retrans then Updates(c.stale + AsSeq(c.current), c.period) else []
    ensures end.sent == base.sent + Currents(cs) && end.dropped == base.dropped + Stales(cs)
    ensures end.log == base.log + Writes(cs)
  {
    hide Updates, AsSeq;
    var rest, c := cs[..|cs| - 1], cs[|cs| - 1];
    Associates(base.sent, Currents(rest), AsSeq(c.current));
    Associates(base.dropped, Stales(rest), c.stale);
    Associates(base.log, Writes(rest), if c.retrans then Updates(c.stale + AsSeq(c.current), c.period) else []);
  }

  lemma Associates<T>(a: seq<T>, b: seq<T>, c: seq<T>)
    ensures a + b + c == a + (b + c)
  {
  }

  /** Each burst is sent in its own slot, or dropped after it. */
  lemma EachInItsSlot(cs: seq<Choice>, start: int, sps: int)
    requires forall n :: 0 <= n < |cs| ==> SlotStep(cs[n], At(start + n), sps)
    ensures forall n :: 0 <= n < |cs| && cs[n].current.Some? ==> cs[n].current.value.time == At(start + n)
    ensures forall n, b :: 0 <= n < |cs| && b in cs[n].stale ==> Less(b.time, At(start + n))
  {
    hide At, BurstLen, Row, Vecs, Updates, AsSeq, Less;
  }

  lemma EmptyHistory(base: Snapshot, end: Snapshot)
    requires History(base, [], end)
    ensures end.sent == base.sent && end.dropped == base.dropped && end.log == base.log
  {
  }

  lemma HistoryPrefix(base: Snapshot, cs: seq<Choice>, end: Snapshot, n: nat)
    requires History(base, cs, end) && n < |cs|
    ensures History(base, cs[..n], cs[n].before)
    ensures n == |cs| - 1 ==> Quiet(cs[n].after, end)
  {
    hide Quiet, Left;
    var rest := cs[..n];
    forall i | 0 <= i < |rest|
      ensures Quiet(Left(base, rest, i), rest[i].before)
    {
      LeftOfPrefix(base, cs, n, i);
    }
    LeftOfPrefix(base, cs, n, n);
    LeftOfPrefix(base, cs, |cs|, |cs|);
  }

  lemma LeftOfPrefix(base: Snapshot, cs: seq<Choice>, n: nat, i: nat)
    requires i <= n <= |cs|
    ensures Left(base, cs[..n], i) == Left(base, cs, i)
    ensures i > 0 ==> Left(base, cs, i) == cs[i - 1].after
  {
  }

  lemma StepRecord(c: Choice, now: Time, sps: int, end: Snapshot)
    requires SlotStep(c, now, sps) && Quiet(c.after, end)
    ensures end.sent == c.before.sent + AsSeq(c.current) && end.dropped == c.before.dropped + c.stale
    ensures end.log == c.before.log + if c.retrans then Updates(c.stale + AsSeq(c.current), c.period) else []
    ensures c.current.Some? ==> c.current.value.time == now
    ensures forall b :: b in c.stale ==> Less(b.time, now)
  {
    hide BurstLen, Row, Vecs, Updates, AsSeq, Less;
  }

  /** A burst that is queued when its slot comes, on a channel no other thread
      disturbs in that slot, is used there, or another burst for the same slot
      is. */
  lemma MatchIsSent(c: Choice, now: Time, sps: int, b: Burst)
    requires SlotStep(c, now, sps) && b in c.before.queue && b.time == now
    ensures c.current.Some? <==> forall l :: l in c.late ==> !Less(l.time, now)
    ensures c.current.Some? ==> c.current.value.time == now && c.vec == c.current.value.vec
  {
    assert b in c.before.queue + c.late;
  }

  /** A burst that is queued early enough waits for its slot: it is there when the
      slot comes, and goes out, or another burst for the same slot does, exactly
      when nothing earlier comes late then. */
  lemma WaitsForItsSlot(base: Snapshot, cs: seq<Choice>, end: Snapshot, start: int, sps: int, m: nat, n: nat, b: Burst)
    requires History(base, cs, end) && forall i :: 0 <= i < |cs| ==> SlotStep(cs[i], At(start + i), sps)
    requires m <= n < |cs| && b.time == At(start + n) && (start + n) / 8 - (start + m) / 8 < HALF
    requires b in cs[m].before.queue || (m < n && b in cs[m].late)
    ensures b in cs[n].before.queue
    ensures cs[n].current.Some? <==> forall l :: l in cs[n].late ==> !Less(l.time, At(start + n))
    ensures cs[n].current.Some? ==> cs[n].current.value.time == b.time && cs[n].vec == cs[n].current.value.vec
    decreases n - m
  {
    hide At, SlotStep, History, Less;
    if m < n {
      OrderInWindow(start + n, start + m);
      StaysQueued(cs[m], At(start + m), sps, b);
      HistoryAt(base, cs, end, m + 1);
      WaitsForItsSlot(base, cs, end, start, sps, m + 1, n, b);
    } else {
      assert SlotStep(cs[n], At(start + n), sps);
      MatchIsSent(cs[n], At(start + n), sps, b);
    }
  }

  lemma StaysQueued(c: Choice, now: Time, sps: int, b: Burst)
    requires SlotStep(c, now, sps) && (b in c.before.queue || b in c.late) && !Less(b.time, now) && b.time != now
    ensures b in c.after.queue
  {
    hide Less, BurstLen, Row, Vecs, Logged, HoldsLastWrites;
    assert b in multiset(c.before.queue) + multiset(c.late);
    assert b !in multiset(c.stale) && b !in multiset(AsSeq(c.current));
  }

  lemma HistoryAt(base: Snapshot, cs: seq<Choice>, end: Snapshot, n: nat)
    requires History(base, cs, end) && 0 < n < |cs|
    ensures cs[n - 1].after.queue <= cs[n].before.queue
  {
    assert Quiet(Left(base, cs, n), cs[n].before);
  }

  /** A burst that left the queue, with the period of its timeslot then. */
  datatype Departure = Departure(burst: Burst, modulus: int)

  predicate ForSlots(bs: seq<Burst>, period: seq<int>) {
    forall k :: 0 <= k < |bs| ==> 0 <= bs[k].time.tn < |period|
  }

  function Leaving(bs: seq<Burst>, period: seq<int>): seq<Departure>
    requires ForSlots(bs, period)
  {
    seq(|bs|, k requires 0 <= k < |bs| => Departure(bs[k], period[bs[k].time.tn]))
  }

  /** The bursts a channel sent or dropped while it retransmitted, in order. */
  ghost function Departures(cs: seq<Choice>): seq<Departure>
    requires forall i :: 0 <= i < |cs| ==> Leaves(cs[i])
  {
    if cs == [] then []
    else
      var c := cs[|cs| - 1];
      assert Leaves(c);
      Departures(cs[..|cs| - 1]) + if c.retrans then Leaving(c.stale + AsSeq(c.current), c.period) else []
  }

  /** What left a channel in a slot was for a timeslot with a period. */
  ghost predicate Leaves(c: Choice) {
    Periodic(c.period) && ForSlots(c.stale + AsSeq(c.current), c.period)
  }

  lemma StepLeaves(c: Choice, now: Time, sps: int)
    requires SlotStep(c, now, sps)
    ensures Leaves(c) && InRange(now)
  {
    hide BurstLen, Less, Logged, Vecs, HoldsLastWrites, Row;
    var bs := c.stale + AsSeq(c.current);
    forall k | 0 <= k < |bs|
      ensures 0 <= bs[k].time.tn < 8
    {
      assert bs[k] in c.stale || bs[k] == c.current.value;
    }
  }

  lemma AllLeave(cs: seq<Choice>, start: int, sps: int)
    requires forall i :: 0 <= i < |cs| ==> SlotStep(cs[i], At(start + i), sps)
    ensures forall i :: 0 <= i < |cs| ==> Leaves(cs[i])
  {
    hide At, SlotStep, Leaves;
    forall i | 0 <= i < |cs|
      ensures Leaves(cs[i])
    {
      StepLeaves(cs[i], At(start + i), sps);
    }
  }

  /** What a burst that left has written to the filler table. */
  ghost predicate WritesTo(d: Departure, w: Update) {
    d.modulus > 0 && w == Update(d.burst.time.fn % d.modulus, d.burst.time.tn, d.burst.vec)
  }

  ghost predicate AllWritten(ds: seq<Departure>, log: seq<Update>) {
    |ds| == |log| && forall j :: 0 <= j < |ds| ==> WritesTo(ds[j], log[j])
  }

  lemma {:induction false} WritesAre(cs: seq<Choice>)
    requires forall i :: 0 <= i < |cs| ==> Leaves(cs[i])
    ensures AllWritten(Departures(cs), Writes(cs))
  {
    hide Leaves, AsSeq, Updates, Leaving, WritesTo;
    if cs != [] {
      var m := |cs| - 1;
      WritesAre(cs[..m]);
      LeavingWrites(cs[m]);
    }
  }

  lemma LeavingWrites(c: Choice)
    requires Leaves(c)
    ensures var bs := c.stale + AsSeq(c.current);
            ForSlots(bs, c.period) && AllWritten(Leaving(bs, c.period), Updates(bs, c.period))
  {
    var bs := c.stale + AsSeq(c.current);
    forall j | 0 <= j < |bs|
      ensures WritesTo(Leaving(bs, c.period)[j], Updates(bs, c.period)[j])
    {
      assert Multiframe(c.period[bs[j].time.tn]);
    }
  }

  /** Filler that goes out is the last burst that left for its timeslot in a frame
      that is congruent to this one, modulo the periods they went by. */
  lemma FillerIsLastBurst(base: Snapshot, cs: seq<Choice>, end: Snapshot, start: int, sps: int, n: nat, j: nat)
    requires History(base, cs, end) && forall i :: 0 <= i < |cs| ==> SlotStep(cs[i], At(start + i), sps)
    requires n < |cs| && cs[n].filler
    ensures Periodic(cs[n].period) && forall i :: 0 <= i < |cs| ==> Leaves(cs[i])
    ensures var t, ds := At(start + n), Departures(cs[..n + 1]);
            && j < |ds| && ds[j].burst.time.tn == t.tn
            && ds[j].modulus > 0 && ds[j].burst.time.fn % ds[j].modulus == t.fn % cs[n].period[t.tn]
            && (forall i :: j < i < |ds| && ds[i].burst.time.tn == t.tn ==>
                  ds[i].modulus > 0 && ds[i].burst.time.fn % ds[i].modulus != t.fn % cs[n].period[t.tn])
            ==> cs[n].vec == ds[j].burst.vec
  {
    AllLeave(cs, start, sps);
    var t, ds := At(start + n), Departures(cs[..n + 1]);
    StepLeaves(cs[n], t, sps);
    hide *;
    FillerRecord(base, cs, end, start, sps, n);
    var row := t.fn % cs[n].period[t.tn];
    if && j < |ds| && ds[j].burst.time.tn == t.tn && ds[j].modulus > 0 && ds[j].burst.time.fn % ds[j].modulus == row
       && forall i :: j < i < |ds| && ds[i].burst.time.tn == t.tn ==>
            ds[i].modulus > 0 && ds[i].burst.time.fn % ds[i].modulus != row
    {
      WrittenLast(ds, Writes(cs[..n + 1]), base.log, row, t.tn, cs[n].initial[(row, t.tn)], j);
    }
  }

  /** If there is none since the start, it is what was in the table then. */
  lemma FillerWasThere(base: Snapshot, cs: seq<Choice>, end: Snapshot, start: int, sps: int, n: nat)
    requires History(base, cs, end) && forall i :: 0 <= i < |cs| ==> SlotStep(cs[i], At(start + i), sps)
    requires n < |cs| && cs[n].filler
    ensures Periodic(cs[n].period) && forall i :: 0 <= i < |cs| ==> Leaves(cs[i])
    ensures var t, ds := At(start + n), Departures(cs[..n + 1]);
            var row := t.fn % cs[n].period[t.tn];
            && (row, t.tn) in cs[n].initial
            && ((forall i :: 0 <= i < |ds| && ds[i].burst.time.tn == t.tn ==>
                   ds[i].modulus > 0 && ds[i].burst.time.fn % ds[i].modulus != row)
                ==> cs[n].vec == LastWrite(base.log, row, t.tn, cs[n].initial[(row, t.tn)]))
  {
    AllLeave(cs, start, sps);
    var t, ds := At(start + n), Departures(cs[..n + 1]);
    StepLeaves(cs[n], t, sps);
    hide *;
    FillerRecord(base, cs, end, start, sps, n);
    var row := t.fn % cs[n].period[t.tn];
    if forall i :: 0 <= i < |ds| && ds[i].burst.time.tn == t.tn ==>
         ds[i].modulus > 0 && ds[i].burst.time.fn % ds[i].modulus != row
    {
      WrittenNever(ds, Writes(cs[..n + 1]), base.log, row, t.tn, cs[n].initial[(row, t.tn)]);
    }
  }

  lemma FillerRecord(base: Snapshot, cs: seq<Choice>, end: Snapshot, start: int, sps: int, n: nat)
    requires History(base, cs, end) && forall i :: 0 <= i < |cs| ==> SlotStep(cs[i], At(start + i), sps)
    requires n < |cs| && cs[n].filler && forall i :: 0 <= i < |cs| ==> Leaves(cs[i])
    ensures InRange(At(start + n)) && |cs[n].period| == 8 && cs[n].period[At(start + n).tn] > 0
    ensures AllWritten(Departures(cs[..n + 1]), Writes(cs[..n + 1]))
    ensures var t := At(start + n);
            var row := t.fn % cs[n].period[t.tn];
            && (row, t.tn) in cs[n].initial
            && cs[n].vec == LastWrite(base.log + Writes(cs[..n + 1]), row, t.tn, cs[n].initial[(row, t.tn)])
  {
    hide At, History, SlotStep, Updates, Departures, Writes, LastWrite, AllWritten, Periodic, Leaves;
    var upTo := cs[..n + 1];
    forall i | 0 <= i < |upTo|
      ensures SlotStep(upTo[i], At(start + i), sps)
    {
      assert SlotStep(cs[i], At(start + i), sps);
    }
    HistoryPrefix(base, cs, end, n);
    HistoryGrows(base, cs[..n], cs[n]);
    assert upTo == cs[..n] + [cs[n]];
    RunRecord(base, upTo, cs[n].after, start, sps);
    WritesAre(upTo);
    FillerCell(cs[n], At(start + n), sps);
  }

  /** The cell whose vector goes out as filler. */
  lemma FillerCell(c: Choice, now: Time, sps: int)
    requires SlotStep(c, now, sps) && c.filler
    ensures InRange(now) && |c.period| == 8 && c.period[now.tn] > 0
    ensures var cell := (now.fn % c.period[now.tn], now.tn);
            && cell in c.initial && cell in c.after.cells && c.vec == c.after.cells[cell]
            && c.vec == LastWrite(c.after.log, cell.0, cell.1, c.initial[cell])
  {
    hide BurstLen, Less, SlotServed, Logged, Vecs, LastWrite;
    assert Multiframe(c.period[now.tn]);
  }

  /** The last of some departures that wrote to a cell. */
  lemma WrittenLast(ds: seq<Departure>, log: seq<Update>, before: seq<Update>, row: int, tn: int,
                    initial: Address, j: nat)
    requires AllWritten(ds, log) && j < |ds|
    requires ds[j].burst.time.tn == tn && ds[j].modulus > 0 && ds[j].burst.time.fn % ds[j].modulus == row
    requires forall i :: j < i < |ds| && ds[i].burst.time.tn == tn ==>
               ds[i].modulus > 0 && ds[i].burst.time.fn % ds[i].modulus != row
    ensures LastWrite(before + log, row, tn, initial) == ds[j].burst.vec
  {
    hide LastWrite;
    forall i | j <= i < |ds|
      ensures (log[i].row == row && log[i].tn == tn) <==> i == j
    {
      assert WritesTo(ds[i], log[i]);
    }
    assert WritesTo(ds[j], log[j]);
    assert LastAt(before + log, row, tn, |before| + j);
    LastWriteMeaning(before + log, row, tn, initial);
  }

  lemma {:induction false} WrittenNever(ds: seq<Departure>, log: seq<Update>, before: seq<Update>, row: int, tn: int,
                                        initial: Address)
    requires AllWritten(ds, log)
    requires forall i :: 0 <= i < |ds| && ds[i].burst.time.tn == tn ==>
               ds[i].modulus > 0 && ds[i].burst.time.fn % ds[i].modulus != row
    ensures LastWrite(before + log, row, tn, initial) == LastWrite(before, row, tn, initial)
  {
    if ds == [] {
      assert before + log == before;
    } else {
      var m := |ds| - 1;
      assert WritesTo(ds[m], log[m]);
      WrittenNever(ds[..m], log[..m], before, row, tn, initial);
      assert before + log == before + log[..m] + [log[m]];
      LastWriteAppend(before + log[..m], log[m], row, tn, initial);
    }
  }

  // ----- what becomes of the bursts of one channel during a call -----------------------------------

  /** The choices of a channel from one snapshot to another, with nothing at all
      in between. */
  ghost predicate Linked(from: Snapshot, cs: seq<Choice>, to: Snapshot) {
    (forall n :: 0 <= n < |cs| ==> cs[n].before == Left(from, cs, n)) && to == Left(from, cs, |cs|)
  }

  lemma LinkedIsHistory(from: Snapshot, cs: seq<Choice>, to: Snapshot)
    requires Linked(from, cs, to)
    ensures History(from, cs, to)
  {
    hide Quiet;
    forall n | 0 <= n <= |cs|
      ensures Quiet(Left(from, cs, n), Left(from, cs, n))
    {
      StayQuiet(Left(from, cs, n));
    }
  }

  lemma LinkedPrefix(from: Snapshot, cs: seq<Choice>, to: Snapshot)
    requires Linked(from, cs, to) && cs != []
    ensures Linked(from, cs[..|cs| - 1], cs[|cs| - 1].before) && cs[|cs| - 1].after == to
  {
    hide Left;
    var n := |cs| - 1;
    forall i | 0 <= i <= n
      ensures Left(from, cs[..n], i) == Left(from, cs, i)
    {
      LeftOfPrefix(from, cs, n, i);
    }
    LeftOfPrefix(from, cs, |cs|, |cs|);
  }

  /** The bursts that came during a number of slots. */
  function Lates(cs: seq<Choice>): seq<Burst> {
    if cs == [] then [] else Lates(cs[..|cs| - 1]) + cs[|cs| - 1].late
  }

  /** Of the bursts that were queued or came, each was sent, was dropped or is
      queued, and once only. */
  lemma {:induction false} CallConserves(from: Snapshot, cs: seq<Choice>, to: Snapshot, start: int, sps: int)
    requires Linked(from, cs, to) && forall n :: 0 <= n < |cs| ==> SlotStep(cs[n], At(start + n), sps)
    ensures multiset(from.queue) + multiset(Lates(cs))
            == multiset(to.queue) + multiset(Currents(cs)) + multiset(Stales(cs))
    ensures to.seen == from.seen + Vecs(Lates(cs))
  {
    hide At, SlotStep, Linked, Vecs, AsSeq;
    if cs == [] {
      NothingLinked(from, to);
    } else {
      var m := |cs| - 1;
      var rest, c := cs[..m], cs[m];
      LinkedPrefix(from, cs, to);
      CallConserves(from, rest, c.before, start, sps);
      assert SlotStep(c, At(start + m), sps);
      StepConserves(c, At(start + m), sps);
      VecsJoin(Lates(rest), c.late);
      AddUp(from, rest, c);
    }
  }

  lemma AddUp(from: Snapshot, rest: seq<Choice>, c: Choice)
    requires multiset(from.queue) + multiset(Lates(rest))
             == multiset(c.before.queue) + multiset(Currents(rest)) + multiset(Stales(rest))
    requires multiset(c.before.queue) + multiset(c.late)
             == multiset(c.after.queue) + multiset(c.stale) + multiset(AsSeq(c.current))
    ensures multiset(from.queue) + multiset(Lates(rest) + c.late)
            == multiset(c.after.queue) + multiset(Currents(rest) + AsSeq(c.current)) + multiset(Stales(rest) + c.stale)
  {
    hide *;
    assert multiset(Lates(rest) + c.late) == multiset(Lates(rest)) + multiset(c.late);
    assert multiset(Stales(rest) + c.stale) == multiset(Stales(rest)) + multiset(c.stale);
    var cu := AsSeq(c.current);
    assert multiset(Currents(rest) + cu) == multiset(Currents(rest)) + multiset(cu);
    MultisetSums(multiset(from.queue), multiset(Lates(rest)), multiset(c.before.queue), multiset(Currents(rest)),
                 multiset(Stales(rest)), multiset(c.late), multiset(c.after.queue), multiset(c.stale), multiset(cu));
  }

  lemma MultisetSums(a: multiset<Burst>, b: multiset<Burst>, m: multiset<Burst>, d: multiset<Burst>, e: multiset<Burst>,
                     l: multiset<Burst>, q: multiset<Burst>, s: multiset<Burst>, u: multiset<Burst>)
    requires a + b == m + d + e && m + l == q + s + u
    ensures a + (b + l) == q + (d + u) + (e + s)
  {
    forall x: Burst
      ensures (a + (b + l))[x] == (q + (d + u) + (e + s))[x]
    {
      assert (a + b)[x] == (m + d + e)[x] && (m + l)[x] == (q + s + u)[x];
    }
  }

  lemma NothingLinked(from: Snapshot, to: Snapshot)
    requires Linked(from, [], to)
    ensures from == to && Vecs([]) == {}
  {
  }

  lemma VecsJoin(s: seq<Burst>, t: seq<Burst>)
    ensures Vecs(s + t) == Vecs(s) + Vecs(t)
  {
  }

  lemma StepConserves(c: Choice, now: Time, sps: int)
    requires SlotStep(c, now, sps)
    ensures multiset(c.before.queue) + multiset(c.late)
            == multiset(c.after.queue) + multiset(c.stale) + multiset(AsSeq(c.current))
    ensures c.after.seen == c.before.seen + Vecs(c.late)
  {
    hide Less, BurstLen, Row, Vecs, Logged, AsSeq, HoldsLastWrites;
  }

  lemma {:induction false} InCurrents(cs: seq<Choice>, b: Burst) returns (n: nat)
    requires b in Currents(cs)
    ensures n < |cs| && cs[n].current == Some(b)
  {
    var m := |cs| - 1;
    if cs[m].current == Some(b) {
      return m;
    }
    n := InCurrents(cs[..m], b);
  }

  lemma {:induction false} InStales(cs: seq<Choice>, b: Burst) returns (n: nat)
    requires b in Stales(cs)
    ensures n < |cs| && b in cs[n].stale
  {
    var m := |cs| - 1;
    if b in cs[m].stale {
      return m;
    }
    n := InStales(cs[..m], b);
  }

  /** Each burst that was queued or came is queued still, went out in its own
      slot, or was dropped after it. */
  lemma WhereItWent(from: Snapshot, cs: seq<Choice>, to: Snapshot, start: int, sps: int, b: Burst)
    requires Linked(from, cs, to) && forall n :: 0 <= n < |cs| ==> SlotStep(cs[n], At(start + n), sps)
    requires b in from.queue || b in Lates(cs)
    ensures || b in to.queue
            || (exists n :: 0 <= n < |cs| && cs[n].current == Some(b) && b.time == At(start + n))
            || (exists n :: 0 <= n < |cs| && b in cs[n].stale && Less(b.time, At(start + n)))
  {
    hide At, SlotStep, Linked, Currents, Stales, Lates, Less;
    CallConserves(from, cs, to, start, sps);
    EachInItsSlot(cs, start, sps);
    assert b in multiset(from.queue) + multiset(Lates(cs));
    if b in Currents(cs) {
      var n := InCurrents(cs, b);
      assert b.time == At(start + n);
    } else if b in Stales(cs) {
      var n := InStales(cs, b);
      assert Less(b.time, At(start + n));
    } else {
      assert b in multiset(to.queue);
    }
  }

  // ----- the same for all channels -----------------------------------------------------------------

  /** From slot `first` on, nothing but the slots happened to the channels: the
      first found them as in `from`, each later one as the one before it left
      them, and the last left them as in `to`. */
  ghost predicate Unbroken(from: seq<Snapshot>, served: seq<seq<Choice>>, first: nat, to: seq<Snapshot>) {
    && first <= |served| && to == LeftAfter(from, served, first, |served|)
    && forall n :: first <= n < |served| ==> Befores(served[n]) == LeftAfter(from, served, first, n)
  }

  ghost function LeftAfter(from: seq<Snapshot>, served: seq<seq<Choice>>, first: nat, n: nat): seq<Snapshot>
    requires first <= n <= |served|
  {
    if n == first then from else Afters(served[n - 1])
  }

  lemma NothingBroken(from: seq<Snapshot>, served: seq<seq<Choice>>)
    ensures Unbroken(from, served, |served|, from)
  {
  }

  lemma StillUnbroken(from: seq<Snapshot>, before: seq<seq<Choice>>, served: seq<seq<Choice>>, first: nat,
                      mid: seq<Snapshot>, to: seq<Snapshot>)
    requires Unbroken(from, before, first, mid) && |served| == |before| + 1 && served[..|before|] == before
    requires Befores(served[|before|]) == mid && Afters(served[|before|]) == to
    ensures Unbroken(from, served, first, to)
  {
    hide Befores, Afters;
    forall n | first <= n <= |before|
      ensures LeftAfter(from, served, first, n) == LeftAfter(from, before, first, n)
    {
      assert n > 0 ==> served[..|before|][n - 1] == served[n - 1];
    }
    forall n | first <= n < |before|
      ensures served[n] == before[n]
    {
      assert served[..|before|][n] == served[n];
    }
  }

  lemma ChannelUnbroken(from: seq<Snapshot>, served: seq<seq<Choice>>, first: nat, to: seq<Snapshot>, k: int, n: int)
    requires Unbroken(from, served, first, to) && AllRows(served, n) && 0 <= k < n == |from| == |to|
    ensures first <= |served| && Linked(from[k], Column(served, k, n)[first..], to[k])
  {
    hide Befores, LeftAfter, Left, AllRows, Column;
    var cs := Column(served, k, n)[first..];
    forall i | 0 <= i < |cs|
      ensures cs[i].before == Left(from[k], cs, i)
    {
      ChannelLeft(from, served, first, to, k, n, i);
      assert Befores(served[first + i]) == LeftAfter(from, served, first, first + i);
    }
    ChannelLeft(from, served, first, to, k, n, |cs|);
  }

  lemma ChannelLeft(from: seq<Snapshot>, served: seq<seq<Choice>>, first: nat, to: seq<Snapshot>, k: int, n: int,
                    i: nat)
    requires AllRows(served, n) && 0 <= k < n == |from| && first + i <= |served|
    ensures var cs := Column(served, k, n)[first..];
            && i <= |cs| && LeftAfter(from, served, first, first + i)[k] == Left(from[k], cs, i)
            && (i < |cs| ==> Befores(served[first + i])[k] == cs[i].before)
  {
    if i > 0 {
      assert Column(served, k, n)[first..][i - 1] == served[first + i - 1][k];
    }
  }

  /** A pass that is due, on the wrapped clocks. */
  lemma DuePass(dev: Device, i: Ideal, s: Timing, r: Reads)
    requires Wrap(i) == s && Due(s, r)
    ensures s.deadline == At(i.d) && IdealPass(dev, i, r).d == i.d + 1
    ensures Wrap(IdealPass(dev, i, r)) == Adjust(dev, s, r).(deadline := IncTN(s.deadline))
  {
    hide At, Greater, Plus, Adjust, IncTN;
    PassIsIdeal(dev, i, [], r);
    assert Pass(dev, Outcome(s, []), r).timing == Adjust(dev, s, r).(deadline := IncTN(Adjust(dev, s, r).deadline));
    AdjustKeepsDeadline(dev, s, r);
  }

  lemma AdjustKeepsDeadline(dev: Device, s: Timing, r: Reads)
    ensures Adjust(dev, s, r).deadline == s.deadline
  {
  }

  ghost predicate AllRows(served: seq<seq<Choice>>, n: int) {
    forall i :: 0 <= i < |served| ==> |served[i]| == n
  }

  /** The channels before and after a slot. */
  ghost function Befores(cs: seq<Choice>): (ss: seq<Snapshot>)
    ensures |ss| == |cs|
  {
    seq(|cs|, k requires 0 <= k < |cs| => cs[k].before)
  }

  ghost function Afters(cs: seq<Choice>): (ss: seq<Snapshot>)
    ensures |ss| == |cs|
  {
    seq(|cs|, k requires 0 <= k < |cs| => cs[k].after)
  }

  /** One channel's choices. */
  ghost function Column(served: seq<seq<Choice>>, k: int, n: int): (cs: seq<Choice>)
    requires 0 <= k < n && AllRows(served, n)
    ensures |cs| == |served|
  {
    seq(|served|, i requires 0 <= i < |served| => served[i][k])
  }

  lemma RowsGrow(served: seq<seq<Choice>>, cs: seq<Choice>, n: int)
    requires AllRows(served, n) && |cs| == n
    ensures AllRows(served + [cs], n)
  {
  }

  lemma ColumnGrows(served: seq<seq<Choice>>, cs: seq<Choice>, k: int, n: int)
    requires 0 <= k < n == |cs| && AllRows(served, n)
    ensures AllRows(served + [cs], n) && Column(served + [cs], k, n) == Column(served, k, n) + [cs[k]]
  {
  }

  ghost predicate MayArrive(chans: seq<TxChannel>, lates: seq<seq<Burst>>, seens: seq<set<Address>>, now: Time,
                            sps: int) {
    && |lates| == |seens| == |chans|
    && forall k :: 0 <= k < |chans| ==> Arrivals(lates[k], seens[k], now, sps, chans[k].back, chans[k].ahead)
  }

  /** What other threads queue in slots `d`, `d + 1`, ..., from the `t`th on. */
  ghost predicate ToCome(chans: seq<TxChannel>, arrivals: seq<seq<seq<Burst>>>, t: nat, seens: seq<set<Address>>,
                         d: int, sps: int) {
    && (forall n :: t <= n < |arrivals| ==> MayArrive(chans, arrivals[n], seens, At(d + n), sps))
    && (forall m, n :: t <= m < n < |arrivals| ==> OwnVectors(arrivals[m], arrivals[n]))
  }

  ghost predicate OwnVectors(xs: seq<seq<Burst>>, ys: seq<seq<Burst>>) {
    forall k :: 0 <= k < |xs| && k < |ys| ==> Vecs(xs[k]) !! Vecs(ys[k])
  }

  /** What comes in the `n`th slot of a call. */
  function InSlot(arrivals: seq<seq<seq<Burst>>>, n: nat, chans: nat): seq<seq<Burst>> {
    if n < |arrivals| then arrivals[n] else seq(chans, _ => [])
  }

  /** In the `n`th slot after the first `first`, channel `k` got the late bursts
      that came in it. */
  ghost predicate CameLate(served: seq<seq<Choice>>, first: nat, n: nat, k: nat, arrivals: seq<seq<seq<Burst>>>,
                           chans: nat) {
    && first + n < |served| && k < |served[first + n]| && k < |InSlot(arrivals, n, chans)|
    && served[first + n][k].late == InSlot(arrivals, n, chans)[k]
  }

  ghost predicate AllCame(served: seq<seq<Choice>>, first: nat, t: nat, arrivals: seq<seq<seq<Burst>>>, chans: nat) {
    forall n, k :: 0 <= n < t && 0 <= k < chans ==> CameLate(served, first, n, k, arrivals, chans)
  }

  lemma NobodyCame(served: seq<seq<Choice>>, first: nat, arrivals: seq<seq<seq<Burst>>>, chans: nat)
    ensures AllCame(served, first, 0, arrivals, chans)
  {
  }

  lemma StillCameLate(before: seq<seq<Choice>>, served: seq<seq<Choice>>, first: nat, t: nat,
                      arrivals: seq<seq<seq<Burst>>>, chans: nat)
    requires |before| == first + t && |served| == |before| + 1 && served[..|before|] == before
    requires AllCame(before, first, t, arrivals, chans)
    requires |served[first + t]| == |InSlot(arrivals, t, chans)| == chans
    requires forall k :: 0 <= k < chans ==> served[first + t][k].late == InSlot(arrivals, t, chans)[k]
    ensures AllCame(served, first, t + 1, arrivals, chans)
  {
    forall n, k | 0 <= n < t + 1 && 0 <= k < chans
      ensures CameLate(served, first, n, k, arrivals, chans)
    {
      if n < t {
        assert CameLate(before, first, n, k, arrivals, chans) && served[first + n] == before[first + n];
      }
    }
  }

  ghost predicate Grown(seens: seq<set<Address>>, more: seq<set<Address>>, lates: seq<seq<Burst>>) {
    |seens| == |more| == |lates| && forall k :: 0 <= k < |seens| ==> more[k] == seens[k] + Vecs(lates[k])
  }

  lemma NextToCome(chans: seq<TxChannel>, arrivals: seq<seq<seq<Burst>>>, t: nat, seens: seq<set<Address>>, d: int,
                   sps: int)
    requires ToCome(chans, arrivals, t, seens, d, sps) && |seens| == |chans|
    ensures MayArrive(chans, InSlot(arrivals, t, |chans|), seens, At(d + t), sps)
  {
    hide At;
  }

  lemma StillToCome(chans: seq<TxChannel>, arrivals: seq<seq<seq<Burst>>>, t: nat, seens: seq<set<Address>>,
                    more: seq<set<Address>>, d: int, sps: int)
    requires ToCome(chans, arrivals, t, seens, d, sps) && |seens| == |more| == |chans|
    requires Grown(seens, more, InSlot(arrivals, t, |chans|))
    ensures ToCome(chans, arrivals, t + 1, more, d, sps)
  {
    hide At, Vecs, Arrivals;
    forall n | t + 1 <= n < |arrivals|
      ensures MayArrive(chans, arrivals[n], more, At(d + n), sps)
    {
      assert MayArrive(chans, arrivals[n], seens, At(d + n), sps) && OwnVectors(arrivals[t], arrivals[n]);
      forall k | 0 <= k < |chans|
        ensures Arrivals(arrivals[n][k], more[k], At(d + n), sps, chans[k].back, chans[k].ahead)
      {
        ArriveLater(arrivals[n][k], seens[k], arrivals[t][k], At(d + n), sps, chans[k].back, chans[k].ahead);
      }
    }
  }

  lemma ArriveLater(late: seq<Burst>, seen: set<Address>, others: seq<Burst>, now: Time, sps: int, back: int,
                    ahead: int)
    requires Arrivals(late, seen, now, sps, back, ahead) && Vecs(others) !! Vecs(late)
    ensures Arrivals(late, seen + Vecs(others), now, sps, back, ahead)
  {
    hide Proper, InWindow, IncTN;
    assert forall b :: b in late ==> b.vec in Vecs(late);
  }

  /** Channels share nothing. */
  lemma OutIs(now: Time, bursts: seq<Address>, zeros: seq<bool>, cs: seq<Choice>)
    requires |bursts| == |zeros| == |cs|
    requires forall k :: 0 <= k < |cs| ==> bursts[k] == cs[k].vec && zeros[k] == cs[k].zero
    ensures SlotOut(now, bursts, zeros) == OutOf(now, cs)
  {
  }

  /** The lists the loop over the channels builds say what the channels chose. */
  ghost predicate Listed(bursts: seq<Address>, zeros: seq<bool>, filler: seq<bool>, cs: seq<Choice>) {
    && |bursts| == |zeros| == |filler| == |cs|
    && forall k :: 0 <= k < |cs| ==> bursts[k] == cs[k].vec && zeros[k] == cs[k].zero && filler[k] == cs[k].filler
  }

  lemma NothingListed()
    ensures Listed([], [], [], [])
  {
  }

  lemma OneMoreListed(bursts: seq<Address>, zeros: seq<bool>, filler: seq<bool>, cs: seq<Choice>, c: Choice)
    requires Listed(bursts, zeros, filler, cs)
    ensures Listed(bursts + [c.vec], zeros + [c.zero], filler + [c.filler], cs + [c])
  {
  }

  lemma ListedMeans(bursts: seq<Address>, zeros: seq<bool>, filler: seq<bool>, cs: seq<Choice>)
    requires Listed(bursts, zeros, filler, cs)
    ensures |bursts| == |zeros| == |filler| == |cs|
    ensures forall k :: 0 <= k < |cs| ==> bursts[k] == cs[k].vec && zeros[k] == cs[k].zero && filler[k] == cs[k].filler
  {
  }

  ghost predicate Apart(chans: seq<TxChannel>) {
    && (forall i, j :: 0 <= i < j < |chans| ==> chans[i] != chans[j])
    && (forall i, j :: 0 <= i < j < |chans| ==> chans[i].table != chans[j].table)
    && (forall i, j :: 0 <= i < j < |chans| ==> chans[i].period != chans[j].period)
    && (forall i, j :: 0 <= i < |chans| && 0 <= j < |chans| ==> chans[i].period != chans[j].chanType)
  }

  /** The radio clock, in unbounded time, when a pass reads it: for the guard, to
      decide on latency, and to remember. */
  datatype Tick = Tick(guard: int, compare: int, stamp: int)

  function TickOf(ticks: seq<Tick>, last: int, n: nat): Tick {
    if n < |ticks| then ticks[n] else Tick(last, last, last)
  }

  /** A pass while the clock stands. */
  lemma StillInReach(dev: Device, i: Ideal, r: Reads, standing: bool, c: int)
    requires Due(Wrap(i), r) && (standing ==> r == Reads(c, c, c, r.underrun) && InReach(c, i))
    ensures var j := IdealPass(dev, i, r);
            && (standing ==> InReach(c, j) && j.d <= c + j.l + 1)
            && (r == Reads(c, c, c, r.underrun) ==> (i.u != c && j.u == c) || (j.u == i.u && Gap(c, j) < Gap(c, i)))
  {
    hide Due, InReach, Gap, IdealPass;
    if standing {
      CatchUpPass(dev, i, c, r.underrun);
    }
    if r == Reads(c, c, c, r.underrun) {
      StandingEnds(dev, i, c, r.underrun);
    }
  }

  lemma DueIff(i: Ideal, g: int, last: int)
    ensures -8 * (HALF - 1) <= g + i.l - i.d <= 8 * (HALF - 1) ==>
              (Greater(Plus(At(g), At(i.l)), At(i.d)) <==> g + i.l > i.d)
    ensures InReach(last, i) ==> -8 * (HALF - 1) <= last + i.l - i.d <= 8 * (HALF - 1)
  {
    if -8 * (HALF - 1) <= g + i.l - i.d <= 8 * (HALF - 1) {
      DueIffBehind(i, Reads(g, g, g, false));
    }
  }

  class Transceiver {
    const chans: seq<TxChannel>
    const dev: Device
    /** Samples per symbol. */
    ghost const sps: int
    var deadline: Time
    var latency: Time
    var lastUpdate: Time
    var on: bool
    /** Everything handed to the radio since the last start or stop, and
        the channels' choices behind it. */
    ghost var radio: seq<SlotOut>
    ghost var served: seq<seq<Choice>>
    /** The channels at the start. */
    ghost var base: seq<Snapshot>
    /** The deadline at the start, in unbounded time. */
    ghost var start: int
    /** Deadline, latency and time of last update in unbounded time. */
    ghost var ideal: Ideal

    ghost function Channels(): set<object> { set i | 0 <= i < |chans| :: chans[i] as object }
    ghost function Tables(): set<object> { set i | 0 <= i < |chans| :: chans[i].table as object }
    ghost function Settings(): set<object> {
      (set i | 0 <= i < |chans| :: chans[i].period as object)
        + (set i | 0 <= i < |chans| :: chans[i].chanType as object)
    }

    ghost predicate Separate() { Apart(chans) && forall k :: 0 <= k < |chans| ==> chans[k].sps == sps }

    ghost predicate Ready(k: int, now: Time)
      requires 0 <= k < |chans|
      reads chans[k], chans[k].period, chans[k].table
    {
      chans[k].Valid() && chans[k].Idle() && chans[k].Windowed(now)
    }

    ghost predicate Paced()
      reads this`radio, this`served, this`start, this`ideal
    {
      PacedRun(radio, served, start, ideal.d, |chans|, sps)
    }

    ghost function Snapshots(): (ss: seq<Snapshot>)
      reads Channels()
      ensures |ss| == |chans| && forall k :: 0 <= k < |chans| ==> ss[k] == chans[k].Now()
    {
      seq(|chans|, k requires 0 <= k < |chans| reads Channels() => chans[k].Now())
    }

    /** Nothing but the choices behind it happened to any channel's bursts, apart
        from new ones being queued. */
    ghost predicate Recorded()
      reads this`base, this`served, Channels()
    {
      && |base| == |chans| && AllRows(served, |chans|)
      && forall k :: 0 <= k < |chans| ==> History(base[k], Column(served, k, |chans|), Snapshots()[k])
    }

    /** A fresh record. */
    lemma Rebased()
      requires served == [] && base == Snapshots()
      ensures Recorded()
    {
      hide TxChannel.Now, History;
      forall k | 0 <= k < |chans|
        ensures History(base[k], Column(served, k, |chans|), chans[k].Now())
      {
        NoHistory(base[k]);
        assert Column(served, k, |chans|) == [];
      }
    }

    /** Bursts were queued since the channels were as in `ss`. */
    lemma StillRecorded(ss: seq<Snapshot>)
      requires |ss| == |base| == |chans| && AllRows(served, |chans|)
      requires forall k :: 0 <= k < |chans| ==>
                 History(base[k], Column(served, k, |chans|), ss[k])
                 && Quiet(ss[k], chans[k].Now())
      ensures Recorded()
    {
      hide TxChannel.Now, History, Quiet, Column, AllRows;
      forall k | 0 <= k < |chans|
        ensures History(base[k], Column(served, k, |chans|), chans[k].Now())
      {
        HistoryWaits(base[k], Column(served, k, |chans|), ss[k], chans[k].Now());
      }
    }

    ghost predicate Clocked()
      reads this`deadline, this`latency, this`lastUpdate, this`ideal
    {
      Wrap(ideal) == Timing(deadline, latency, lastUpdate) && InRange(dev.minLatency)
    }

    ghost predicate AllReady(now: Time)
      reads Channels(), Tables(), Settings()
    {
      forall k :: 0 <= k < |chans| ==> Ready(k, now)
    }

    ghost predicate Valid()
      reads this, Channels(), Tables(), Settings()
    {
      Separate() && Clocked() && Paced() && Recorded() && AllReady(deadline)
    }

    /** At any time, a channel has sent since the start exactly what its slots
        used, and dropped exactly what was stale in them; and if it retransmits,
        both have gone to its filler table. Each slot was served as its step
        says. */
    lemma SinceStart(k: int)
      requires Valid() && 0 <= k < |chans|
      ensures AllRows(served, |chans|) && |served| == ideal.d - start && |base| == |chans|
      ensures chans[k].sent == base[k].sent + Currents(Column(served, k, |chans|))
      ensures chans[k].dropped == base[k].dropped + Stales(Column(served, k, |chans|))
      ensures chans[k].log == base[k].log + Writes(Column(served, k, |chans|))
      ensures forall n :: 0 <= n < |served| ==> SlotStep(served[n][k], At(start + n), sps)
      ensures var cs := Column(served, k, |chans|);
              && (forall n :: 0 <= n < |cs| && cs[n].current.Some? ==> cs[n].current.value.time == At(start + n))
              && (forall n, b :: 0 <= n < |cs| && b in cs[n].stale ==> Less(b.time, At(start + n)))
    {
      hide At, SlotStep, History, Column, AllReady, Separate, OutOf, AllRows;
      SlotsStep(radio, served, start, ideal.d, |chans|, sps, k);
      RunRecord(base[k], Column(served, k, |chans|), chans[k].Now(), start, sps);
      EachInItsSlot(Column(served, k, |chans|), start, sps);
    }

    /** Since slot `first` found the channels as in `from`: the bursts that were
        queued then or came during a slot are those that went out, each in its own
        slot, those that were dropped, each after its own, and those that are
        queued. */
    lemma SinceCall(k: int, first: nat, from: seq<Snapshot>)
      requires Valid() && 0 <= k < |chans| == |from| && Unbroken(from, served, first, Snapshots())
      ensures AllRows(served, |chans|) && first <= |served|
      ensures var cs := Column(served, k, |chans|)[first..];
              && Linked(from[k], cs, chans[k].Now())
              && multiset(from[k].queue) + multiset(Lates(cs))
                 == multiset(chans[k].queue) + multiset(Currents(cs)) + multiset(Stales(cs))
              && chans[k].Seen() == from[k].seen + Vecs(Lates(cs))
              && (forall n :: 0 <= n < |cs| && cs[n].current.Some? ==>
                    cs[n].current.value.time == At(start + first + n))
              && (forall n, b :: 0 <= n < |cs| && b in cs[n].stale ==> Less(b.time, At(start + first + n)))
    {
      hide At, SlotStep, History, Column, AllReady, Separate, OutOf, AllRows, Unbroken, Linked, Vecs,
           TxChannel.Valid;
      SlotsStep(radio, served, start, ideal.d, |chans|, sps, k);
      ChannelUnbroken(from, served, first, Snapshots(), k, |chans|);
      var cs := Column(served, k, |chans|)[first..];
      forall n | 0 <= n < |cs|
        ensures SlotStep(cs[n], At(start + first + n), sps)
      {
        assert cs[n] == Column(served, k, |chans|)[first + n];
      }
      CallConserves(from[k], cs, chans[k].Now(), start + first, sps);
      EachInItsSlot(cs, start + first, sps);
    }

    /** `init`: all clocks at the start time, nothing queued, radio off. */
    constructor (chans: seq<TxChannel>, dev: Device, startTime: Time, latency: Time, ghost sps: int)
      requires forall k :: 0 <= k < |chans| ==> chans[k].sps == sps
      requires InRange(startTime) && InRange(latency) && InRange(dev.minLatency) && Apart(chans)
      requires forall k :: 0 <= k < |chans| ==> chans[k].Valid() && chans[k].Idle() && chans[k].queue == []
      ensures Valid() && !on && this.chans == chans && this.dev == dev && this.sps == sps
      ensures deadline == startTime && this.latency == latency && radio == []
    {
      hide At, Recorded;
      AtSlot(startTime);
      AtSlot(latency);
      this.chans, this.dev, this.sps := chans, dev, sps;
      deadline, this.latency, lastUpdate, on := startTime, latency, startTime, false;
      radio, served, start := [], [], Slot(startTime);
      ideal := Ideal(Slot(startTime), Slot(latency), Slot(startTime));
      new;
      base := Snapshots();
      Rebased();
    }

    /** `SETSLOT` on the control port of one channel. */
    method SetSlot(chan: nat, timeslot: int, combination: int) returns (ok: bool)
      requires Valid() && chan < |chans|
      modifies Settings()
      ensures Valid() && ok == (0 <= timeslot < 8)
      ensures chans[chan].chanType.Length == 8 && (ok ==> chans[chan].chanType[timeslot] == combination)
      ensures chans[chan].period.Length == 8
      ensures ok ==> chans[chan].period[timeslot]
                     == if combination in {0, 1, 2, 3, 14} then 26
                        else if combination in {4, 5, 6} then 51
                        else if combination == 7 then 102
                        else if combination == 13 then 52
                        else old(chans[chan].period[timeslot])
    {
      hide At, Paced, Recorded, Clocked, TxChannel.Windowed, TxChannel.Idle, TxChannel.Valid, Period;
      assert this !in Settings() && Channels() !! Settings();
      assert chans[chan].period in Settings() && chans[chan].chanType in Settings();
      assert Ready(chan, deadline);
      ok := chans[chan].SetSlot(timeslot, combination);
      forall k | 0 <= k < |chans|
        ensures Ready(k, deadline)
      {
        assert old(Ready(k, deadline));
        assert k != chan ==> chans[k].period != chans[chan].period && chans[k].period != chans[chan].chanType;
      }
    }

    /** `addRadioVector`: queues a burst whose vector was just made. */
    method AddRadioVector(chan: nat, time: Time, vec: Address) returns (ok: bool)
      requires Valid()
      requires chan < |chans| && 0 <= time.tn <= 7 ==> Accepts(chan, time, vec)
      modifies Channels()
      ensures Valid() && ok == (chan < |chans| && 0 <= time.tn <= 7)
      ensures forall k :: 0 <= k < |chans| && !(ok && k == chan) ==> unchanged(chans[k])
      ensures ok ==> chans[chan].queue == old(chans[chan].queue) + [Burst(time, vec)]
      ensures ok ==> chans[chan].accepted == old(chans[chan].accepted) + multiset{Burst(time, vec)}
    {
      hide TxChannel.Valid, TxChannel.Windowed, TxChannel.Now, Quiet, History, Column, AllRows, Paced, Clocked,
           InWindow;
      if chan >= |chans| {
        return false;
      }
      if time.tn < 0 || time.tn > 7 {
        return false;
      }
      assert forall k :: 0 <= k < |chans| ==> Ready(k, deadline);
      assert chans[chan] in Channels();
      ghost var ss := Snapshots();
      Admit(chan, time, vec);
      forall k | 0 <= k < |chans|
        ensures Quiet(ss[k], chans[k].Now())
      {
        StayQuiet(ss[k]);
      }
      StillRecorded(ss);
      return true;
    }

    /** Bursts must be for a time within the window around the deadline, and
        bring a vector as long as their slot that no one owns yet. */
    ghost predicate Accepts(chan: nat, time: Time, vec: Address)
      requires chan < |chans|
      reads this, chans[chan]
    {
      && InWindow(time, deadline, chans[chan].back, chans[chan].ahead)
      && vec.samples == BurstLen(chans[chan].sps, time.tn)
      && vec !in chans[chan].owner && vec !in chans[chan].freed
    }

    method Admit(chan: nat, time: Time, vec: Address)
      requires chan < |chans| && Ready(chan, deadline) && Accepts(chan, time, vec)
      modifies chans[chan]
      ensures Ready(chan, deadline) && Quiet(old(chans[chan].Now()), chans[chan].Now())
      ensures chans[chan].queue == old(chans[chan].queue) + [Burst(time, vec)]
      ensures chans[chan].accepted == old(chans[chan].accepted) + multiset{Burst(time, vec)}
    {
      chans[chan].Write(Burst(time, vec));
    }

    /** What other threads may queue during slot `now`, channel by channel. */
    ghost predicate AllArriving(lates: seq<seq<Burst>>, now: Time)
      reads Channels()
    {
      MayArrive(chans, lates, AllSeen(), now, sps)
    }

    ghost function AllSeen(): (seens: seq<set<Address>>)
      reads Channels()
      ensures |seens| == |chans| && forall k :: 0 <= k < |chans| ==> seens[k] == chans[k].Seen()
    {
      seq(|chans|, k requires 0 <= k < |chans| reads Channels() => chans[k].Seen())
    }

    /** Channel `k` was as `before`, served slot `now` while `late` came, and has
        lent its vector. */
    ghost predicate Contributed(k: int, now: Time, c: Choice, late: seq<Burst>, before: Snapshot)
      requires 0 <= k < |chans|
      reads chans[k], chans[k].period, chans[k].table, chans[k].chanType
    {
      chans[k].Lent(now, c) && chans[k].Served(now, c) && c.late == late && c.before == before
    }

    /** All channels are as slot `now` left them, after `lates` came in it. */
    ghost predicate AllServed(now: Time, cs: seq<Choice>, lates: seq<seq<Burst>>)
      reads Channels(), Settings()
    {
      && |cs| == |lates| == |chans|
      && forall k :: 0 <= k < |chans| ==> chans[k].Served(now, cs[k]) && cs[k].late == lates[k]
    }

    /** `pushRadioVector`: one burst per channel for slot `now`, while other
        threads queue `lates`. */
    method PushRadioVector(now: Time, lates: seq<seq<Burst>>) returns (ghost cs: seq<Choice>)
      requires Separate() && AllReady(now) && AllArriving(lates, now)
      modifies this`radio, Channels(), Tables()
      ensures AllReady(now) && AllServed(now, cs, lates)
      ensures forall k :: 0 <= k < |chans| ==> cs[k].before == old(chans[k].Now())
      ensures radio == old(radio) + [OutOf(now, cs)]
      ensures var out := radio[|old(radio)|];
              && out.time == now && |out.vectors| == |out.zeros| == |chans|
              && forall k :: 0 <= k < |chans| ==> out.vectors[k] == cs[k].vec && out.zeros[k] == cs[k].zero
    {
      hide TxChannel.Lent, TxChannel.Served, TxChannel.Now, Ready, AllArriving, OutOf;
      var bursts, zeros, filler;
      bursts, zeros, filler, cs := ServeChannels(now, lates);
      OutIs(now, bursts, zeros, cs);
      radio := radio + [SlotOut(now, bursts, zeros)];
      ReleaseLent(now, bursts, filler, cs);
      assert radio[|old(radio)|] == SlotOut(now, bursts, zeros);
    }

    /** A slot is served by the channel's settings: it is silent in exactly the slots
        that have no combination. */
    lemma SilentIff(now: Time, cs: seq<Choice>, lates: seq<seq<Burst>>, k: nat)
      requires AllServed(now, cs, lates) && k < |chans|
      ensures |cs| == |chans| && 0 <= now.tn < 8 && chans[k].chanType.Length == |cs[k].types| == 8
      ensures cs[k].types == chans[k].chanType[..] && cs[k].zero == (chans[k].chanType[now.tn] == 14)
      ensures cs[k].retrans == chans[k].retrans && cs[k].period == chans[k].period[..]
      ensures cs[k].initial == chans[k].initial
    {
      hide SlotServed, BurstLen, Logged, Vecs, HoldsLastWrites, InWindow;
      assert chans[k].Served(now, cs[k]);
    }

    /** The first loop of `pushRadioVector`. */
    method ServeChannels(now: Time, lates: seq<seq<Burst>>)
      returns (bursts: seq<Address>, zeros: seq<bool>, filler: seq<bool>, ghost cs: seq<Choice>)
      requires Separate() && AllReady(now) && AllArriving(lates, now)
      modifies Channels(), Tables()
      ensures |bursts| == |zeros| == |filler| == |cs| == |lates| == |chans|
      ensures forall k :: 0 <= k < |chans| ==>
                bursts[k] == cs[k].vec && zeros[k] == cs[k].zero && filler[k] == cs[k].filler
      ensures forall k :: 0 <= k < |chans| ==> Contributed(k, now, cs[k], lates[k], old(chans[k].Now()))
    {
      hide Ready, Contributed, TxChannel.Now, TxChannel.Seen, Arrivals, Listed;
      NothingListed();
      bursts, zeros, filler, cs := [], [], [], [];
      for i := 0 to |chans|
        invariant |cs| == i && Listed(bursts, zeros, filler, cs)
        invariant forall k :: 0 <= k < i ==> Contributed(k, now, cs[k], lates[k], old(chans[k].Now()))
        invariant forall k :: i <= k < |chans| ==> Ready(k, now) && unchanged(chans[k]) && unchanged(chans[k].table)
      {
        assert chans[i] in Channels() && chans[i].table in Tables();
        var vec, zero, own;
        ghost var c;
        vec, zero, own, c := PushChannel(i, now, lates[i]);
        OneMoreListed(bursts, zeros, filler, cs, c);
        bursts, zeros, filler, cs := bursts + [vec], zeros + [zero], filler + [own], cs + [c];
      }
      ListedMeans(bursts, zeros, filler, cs);
    }

    /** The last loop of `pushRadioVector`: deletes the vectors that were only
        lent to the radio. */
    method ReleaseLent(now: Time, bursts: seq<Address>, filler: seq<bool>, ghost cs: seq<Choice>)
      requires Separate() && |bursts| == |filler| == |cs| == |chans|
      requires forall k :: 0 <= k < |chans| ==> bursts[k] == cs[k].vec && filler[k] == cs[k].filler
      requires forall k :: 0 <= k < |chans| ==> chans[k].Lent(now, cs[k])
      modifies Channels()
      ensures AllReady(now)
      ensures forall k :: 0 <= k < |chans| && old(chans[k].Served(now, cs[k])) ==> chans[k].Served(now, cs[k])
    {
      hide TxChannel.Lent, TxChannel.Served, TxChannel.Valid, TxChannel.Windowed;
      for i := 0 to |chans|
        invariant forall k :: 0 <= k < i ==> Ready(k, now)
        invariant forall k :: i <= k < |chans| ==> chans[k].Lent(now, cs[k])
        invariant forall k :: 0 <= k < |chans| && old(chans[k].Served(now, cs[k])) ==> chans[k].Served(now, cs[k])
      {
        assert chans[i] in Channels();
        chans[i].Release(now, bursts[i], filler[i], cs[i]);
      }
    }

    method PushChannel(k: int, now: Time, late: seq<Burst>)
      returns (vec: Address, zero: bool, filler: bool, ghost c: Choice)
      requires 0 <= k < |chans| && Ready(k, now)
      requires Arrivals(late, chans[k].Seen(), now, chans[k].sps, chans[k].back, chans[k].ahead)
      modifies chans[k], chans[k].table
      ensures c.vec == vec && c.zero == zero && c.filler == filler && c.late == late
      // The vector the radio is going to read is live.
      ensures vec in chans[k].owner
      ensures Contributed(k, now, c, late, old(chans[k].Now()))
    {
      vec, zero, filler, c := chans[k].PushSlot(now, late);
    }

    /** The latency control at the head of the loop body of `driveTxFIFO`, which
        reads the radio clock once to decide and once more to remember. */
    method AdjustLatency(clock: Time, later: Time, underrun: bool, ghost r: Reads)
      requires At(r.compare) == clock && At(r.stamp) == later && r.underrun == underrun
      modifies this`latency, this`lastUpdate
      ensures Timing(deadline, latency, lastUpdate)
              == Adjust(dev, old(Timing(deadline, latency, lastUpdate)), r)
    {
      hide At, Greater, Plus;
      if dev.latencyControl {
        if underrun {
          if Greater(clock, Plus(lastUpdate, UPDATE_INTERVAL)) {
            latency := Plus(latency, ONE_FRAME);
            lastUpdate := later;
          }
        } else if Greater(latency, dev.minLatency) {
          if Greater(clock, Plus(lastUpdate, RELAX_INTERVAL)) {
            latency := DecTN(latency);
            lastUpdate := later;
          }
        }
      }
    }

    /** Serves slot `now` and makes the channels ready for the next. */
    method PushDeadline(now: Time, lates: seq<seq<Burst>>) returns (ghost cs: seq<Choice>)
      requires Separate() && AllReady(now) && InRange(now) && AllArriving(lates, now)
      modifies this`radio, Channels(), Tables()
      ensures AllReady(IncTN(now)) && AllServed(now, cs, lates)
      ensures Befores(cs) == old(Snapshots()) && Afters(cs) == Snapshots()
      ensures radio == old(radio) + [OutOf(now, cs)] && Timely(cs, now, sps)
      ensures Grown(old(AllSeen()), AllSeen(), lates)
    {
      hide OutOf, TxChannel.Valid, TxChannel.Seen, InWindow, SlotServed, IncTN, Less, BurstLen;
      cs := PushRadioVector(now, lates);
      forall k | 0 <= k < |chans|
        ensures Ready(k, IncTN(now)) && SlotStep(cs[k], now, sps)
        ensures chans[k].Seen() == old(chans[k].Seen()) + Vecs(lates[k])
      {
        assert Ready(k, now);
        var ch := chans[k];
        assert ch.Served(now, cs[k]) && cs[k].after == ch.Now();
        assert ch.Now().seen == ch.Seen() && old(ch.Now()).seen == old(ch.Seen());
        NextSlotWindow(ch.Now(), cs[k], now, sps, ch.back, ch.ahead);
      }
    }

    /** The loop body of `driveTxFIFO`: latency control, then one slot. The radio
        clock moves on its own, so the pass may read it differently each time: it
        was at slot `g` for the guard and is at `c` and then at `s` here. Other
        threads queue `lates` during the slot. */
    method TxPass(clock: Time, later: Time, lates: seq<seq<Burst>>, ghost g: int, ghost c: int, ghost s: int)
      returns (ghost r: Reads)
      requires Valid() && AllArriving(lates, deadline) && At(c) == clock && At(s) == later
               && Greater(Plus(At(g), latency), deadline)
      modifies this, Channels(), Tables()
      ensures Valid() && on == old(on) && start == old(start) && base == old(base)
      ensures r == Reads(g, c, s, r.underrun) && ideal == IdealPass(dev, old(ideal), r)
      ensures ideal.d == old(ideal.d) + 1 && Pushed(old(served), old(deadline), lates)
      ensures Befores(served[|old(served)|]) == old(Snapshots()) && Afters(served[|old(served)|]) == Snapshots()
      ensures Grown(old(AllSeen()), AllSeen(), lates)
    {
      hide At, Greater, Plus, Adjust, AllReady, AllArriving, Separate, PacedRun, IdealPass, Wrap, IncTN, InRange,
           Recorded, AllServed, Grown, AllSeen, Befores, Afters, Snapshots, Pushed;
      var underrun: bool := *;
      r := Reads(g, c, s, underrun);
      DuePass(dev, ideal, Timing(deadline, latency, lastUpdate), r);
      assert this !in Channels() && this !in Tables() && this !in Settings();
      AdjustLatency(clock, later, underrun, r);
      assert Snapshots() == old(Snapshots()) && AllSeen() == old(AllSeen()) && AllReady(deadline);
      PushNext(IdealPass(dev, ideal, r), lates);
    }

    /** One more slot was served than `before`, with `lates` coming in it. */
    ghost predicate Pushed(before: seq<seq<Choice>>, now: Time, lates: seq<seq<Burst>>)
      reads this`served, Channels(), Settings()
    {
      && |served| == |before| + 1 && served[..|before|] == before
      && AllServed(now, served[|before|], lates)
    }

    /** Records a slot that has just been served. */
    ghost method Note(cs: seq<Choice>)
      requires |base| == |chans| && AllRows(served, |chans|) && |Befores(cs)| == |chans| && Afters(cs) == Snapshots()
      requires forall k :: 0 <= k < |chans| ==> History(base[k], Column(served, k, |chans|), Befores(cs)[k])
      modifies this`served
      ensures served == old(served) + [cs] && Recorded()
    {
      hide TxChannel.Now, History, Column, AllRows;
      RowsGrow(served, cs, |chans|);
      forall k | 0 <= k < |chans|
        ensures History(base[k], Column(served + [cs], k, |chans|), cs[k].after)
      {
        ColumnGrows(served, cs, k, |chans|);
        HistoryGrows(base[k], Column(served, k, |chans|), cs[k]);
      }
      served := served + [cs];
    }

    /** The end of the loop body: one slot, and the deadline moves on. */
    method PushNext(ghost next: Ideal, lates: seq<seq<Burst>>)
      requires Separate() && Paced() && Recorded() && AllReady(deadline) && AllArriving(lates, deadline)
      requires deadline == At(ideal.d) && next.d == ideal.d + 1
      modifies this`radio, this`served, this`ideal, this`deadline, Channels(), Tables()
      ensures Paced() && Recorded() && AllReady(deadline) && deadline == IncTN(old(deadline)) && ideal == next
      ensures Pushed(old(served), old(deadline), lates)
      ensures Befores(served[|old(served)|]) == old(Snapshots()) && Afters(served[|old(served)|]) == Snapshots()
      ensures Grown(old(AllSeen()), AllSeen(), lates)
    {
      hide OutOf, Timely, AllReady, AllArriving, AllServed, AllSeen, Separate, PacedRun, IncTN, History, Column,
           AllRows, TxChannel.Now, Snapshots, Grown, Befores, Afters;
      assert this !in Channels() && this !in Tables() && this !in Settings();
      ghost var cs := PushDeadline(deadline, lates);
      PacedGrows(old(radio), served, start, ideal.d, |chans|, sps, cs);
      Advance(next, cs, lates);
    }

    /** `mTransmitDeadlineClock.incTN()`, and the slot just served is recorded. */
    method Advance(ghost next: Ideal, ghost cs: seq<Choice>, ghost lates: seq<seq<Burst>>)
      requires AllReady(IncTN(deadline)) && AllServed(deadline, cs, lates) && Afters(cs) == Snapshots()
      requires PacedRun(radio, served + [cs], start, next.d, |chans|, sps)
      requires |base| == |chans| && AllRows(served, |chans|) && |Befores(cs)| == |chans|
      requires forall k :: 0 <= k < |chans| ==> History(base[k], Column(served, k, |chans|), Befores(cs)[k])
      modifies this`served, this`ideal, this`deadline
      ensures Paced() && Recorded() && AllReady(deadline) && deadline == IncTN(old(deadline)) && ideal == next
      ensures served == old(served) + [cs] && Pushed(old(served), old(deadline), lates)
      ensures Snapshots() == old(Snapshots()) && AllSeen() == old(AllSeen())
    {
      hide AllReady, AllServed, AllSeen, PacedRun, IncTN, History, Column, AllRows, Recorded, Snapshots, Befores,
           Afters;
      assert this !in Channels() && this !in Tables() && this !in Settings();
      Note(cs);
      deadline := IncTN(deadline);
      ideal := next;
    }

    /** `driveTxFIFO` while the radio clock reads as in `ticks`, pass by pass, and
        then stands at `last`, and other threads queue `arrivals[n]` in the nth
        slot. The loop ends, wherever the deadline is; it pushes every slot it
        passes; and nothing but these slots happens to the channels. Unless it is
        more than half a hyperframe off, the deadline is then no earlier than
        clock plus latency; and if the clock stood and the loop ran, it is at most
        one slot past it. */
    method DriveTxFifo(ticks: seq<Tick>, last: int, arrivals: seq<seq<seq<Burst>>>) returns (ghost trace: seq<Reads>)
      requires Valid() && ToCome(chans, arrivals, 0, AllSeen(), ideal.d, sps)
      modifies this, Channels(), Tables()
      ensures Valid() && on == old(on) && start == old(start) && base == old(base)
      ensures forall n :: 0 <= n < |trace| ==>
                Tick(trace[n].guard, trace[n].compare, trace[n].stamp)
                == if n < |ticks| then ticks[n] else Tick(last, last, last)
      ensures Run(dev, Outcome(old(Timing(deadline, latency, lastUpdate)), []), trace)
              == Outcome(Timing(deadline, latency, lastUpdate), Slots(old(ideal.d), |trace|))
      ensures ideal == IdealRun(dev, old(ideal), trace) && ideal.d == old(ideal.d) + |trace|
      ensures !on ==> trace == []
      ensures on ==> !Greater(Plus(At(TickOf(ticks, last, |trace|).guard), latency), deadline)
      ensures on ==> var g := TickOf(ticks, last, |trace|).guard;
                     -8 * (HALF - 1) <= g + ideal.l - ideal.d <= 8 * (HALF - 1) ==> g + ideal.l <= ideal.d
      ensures on && ticks == [] && InReach(last, old(ideal)) ==>
                InReach(last, ideal) && last + ideal.l <= ideal.d && (trace != [] ==> ideal.d <= last + ideal.l + 1)
      ensures CallSoFar(old(Snapshots()), old(served), |trace|, arrivals)
    {
      hide At, Greater, Plus, Separate, Paced, Recorded, AllReady, IdealPass, Run, ToCome, AllSeen, Snapshots,
           InReach, Gap, CallSoFar;
      trace := [];
      var n := 0;
      CallStarts(arrivals);
      if on {
        while Greater(Plus(At(TickOf(ticks, last, n).guard), latency), deadline)
          invariant Valid() && on && start == old(start) && base == old(base) && n == |trace|
          invariant forall m :: 0 <= m < |trace| ==>
                      Tick(trace[m].guard, trace[m].compare, trace[m].stamp) == TickOf(ticks, last, m)
          invariant ideal == IdealRun(dev, old(ideal), trace) && ideal.d == old(ideal.d) + |trace|
          invariant ticks == [] && InReach(last, old(ideal)) ==>
                      InReach(last, ideal) && (trace != [] ==> ideal.d <= last + ideal.l + 1)
          invariant ToCome(chans, arrivals, n, AllSeen(), old(ideal.d), sps)
          invariant CallSoFar(old(Snapshots()), old(served), n, arrivals)
          decreases if n < |ticks| then |ticks| - n else 0, ideal.u != last, Gap(last, ideal)
        {
          ghost var i := ideal;
          ghost var r := ClockedPass(TickOf(ticks, last, n), arrivals, n, old(Snapshots()), old(served), old(ideal.d));
          StillInReach(dev, i, r, ticks == [] && InReach(last, old(ideal)), last);
          IdealRunAppend(dev, old(ideal), trace, r);
          trace := trace + [r];
          n := n + 1;
        }
        DueIff(ideal, TickOf(ticks, last, n).guard, last);
      }
      EverySlotOnce(dev, old(ideal), [], trace);
    }

    /** `n` slots into a call that found the channels as in `from` and the record
        as in `before`: one entry per slot was added to it, with the bursts that
        came in the slot, and nothing but the slots happened to the channels. */
    ghost predicate CallSoFar(from: seq<Snapshot>, before: seq<seq<Choice>>, n: nat, arrivals: seq<seq<seq<Burst>>>)
      reads this`served, Channels()
    {
      && |served| == |before| + n && served[..|before|] == before
      && AllCame(served, |before|, n, arrivals, |chans|)
      && Unbroken(from, served, |before|, Snapshots())
    }

    /** The `m`th slot of a call was served with the bursts that came in it. */
    lemma CameInCall(from: seq<Snapshot>, before: seq<seq<Choice>>, n: nat, arrivals: seq<seq<seq<Burst>>>,
                     m: nat, k: nat)
      requires CallSoFar(from, before, n, arrivals) && m < n && k < |chans|
      requires forall i :: 0 <= i < |arrivals| ==> |arrivals[i]| == |chans|
      ensures |served| == |before| + n && served[..|before|] == before && k < |served[|before| + m]|
      ensures served[|before| + m][k].late == if m < |arrivals| then arrivals[m][k] else []
    {
      hide Unbroken;
      assert CameLate(served, |before|, m, k, arrivals, |chans|);
    }

    lemma CallStarts(arrivals: seq<seq<seq<Burst>>>)
      ensures CallSoFar(Snapshots(), served, 0, arrivals)
    {
      hide AllCame, Unbroken, Snapshots;
      NobodyCame(served, |served|, arrivals, |chans|);
      NothingBroken(Snapshots(), served);
    }

    /** One more slot. */
    lemma CallGoesOn(from: seq<Snapshot>, before: seq<seq<Choice>>, n: nat, arrivals: seq<seq<seq<Burst>>>,
                     all: seq<seq<Choice>>, mid: seq<Snapshot>, now: Time)
      requires |all| == |before| + n && all[..|before|] == before
      requires AllCame(all, |before|, n, arrivals, |chans|) && Unbroken(from, all, |before|, mid)
      requires |InSlot(arrivals, n, |chans|)| == |chans| && Pushed(all, now, InSlot(arrivals, n, |chans|))
      requires Befores(served[|all|]) == mid && Afters(served[|all|]) == Snapshots()
      ensures CallSoFar(from, before, n + 1, arrivals)
    {
      hide AllCame, Unbroken, Snapshots, Befores, Afters, TxChannel.Served;
      StillCameLate(all, served, |before|, n, arrivals, |chans|);
      StillUnbroken(from, all, served, |before|, mid, Snapshots());
      assert served[..|before|] == served[..|all|][..|before|];
    }

    /** A pass of the loop that is due at `tick`, the `n`th of the call. */
    method ClockedPass(tick: Tick, arrivals: seq<seq<seq<Burst>>>, n: nat, ghost from: seq<Snapshot>,
                       ghost before: seq<seq<Choice>>,
                       ghost d: int)
      returns (ghost r: Reads)
      requires Valid() && Greater(Plus(At(tick.guard), latency), deadline) && ideal.d == d + n
      requires ToCome(chans, arrivals, n, AllSeen(), d, sps) && CallSoFar(from, before, n, arrivals)
      modifies this, Channels(), Tables()
      ensures Valid() && on == old(on) && start == old(start) && base == old(base)
      ensures r == Reads(tick.guard, tick.compare, tick.stamp, r.underrun) && Due(Wrap(old(ideal)), r)
      ensures ideal == IdealPass(dev, old(ideal), r) && ideal.d == d + n + 1
      ensures ToCome(chans, arrivals, n + 1, AllSeen(), d, sps) && CallSoFar(from, before, n + 1, arrivals)
    {
      hide At, Greater, Plus, Separate, Paced, Recorded, AllReady, IdealPass, ToCome, AllCame, TxChannel.Served,
           TxChannel.Seen, Vecs, MayArrive, Befores, Afters, Snapshots, Pushed, Unbroken;
      ghost var seens, all, mid := AllSeen(), served, Snapshots();
      var lates := InSlot(arrivals, n, |chans|);
      NextToCome(chans, arrivals, n, seens, d, sps);
      DeadlineIs();
      r := TxPass(At(tick.compare), At(tick.stamp), lates, tick.guard, tick.compare, tick.stamp);
      StillToCome(chans, arrivals, n, seens, AllSeen(), d, sps);
      CallGoesOn(from, before, n, arrivals, all, mid, old(deadline));
    }

    lemma DeadlineIs()
      requires Clocked()
      ensures deadline == At(ideal.d)
    {
    }

    /** `start`: restarts the deadline at the radio clock. What is queued must be
        for times around it. */
    method Start(clock: Time, radioStarts: bool) returns (ok: bool)
      requires Valid() && InRange(clock) && InRange(latency)
      requires !on ==> forall k :: 0 <= k < |chans| ==> chans[k].Windowed(clock)
      modifies this
      ensures Valid() && on == (old(on) || radioStarts) && ok == on
      ensures old(on) ==> ideal == old(ideal) && radio == old(radio) && start == old(start) && base == old(base)
      ensures !old(on) ==> radio == [] && start == Slot(clock) && At(start) == clock && base == Snapshots()
      ensures !old(on) && latency.fn < HALF - 1 ==> InReach(Slot(clock), ideal)
      ensures latency == old(latency)
      ensures if old(on) then deadline == old(deadline) else deadline == clock && ideal.d == Slot(clock)
    {
      hide At, Separate, AllReady, TxChannel.Windowed, TxChannel.Now, Recorded, Paced;
      assert this !in Channels() && this !in Tables() && this !in Settings();
      if on {
        return true;
      }
      Restart(clock);
      if !radioStarts {
        return false;
      }
      on := true;
      return true;
    }

    lemma ReadyAt(now: Time, later: Time)
      requires AllReady(now) && forall k :: 0 <= k < |chans| ==> chans[k].Windowed(later)
      ensures AllReady(later)
    {
      hide TxChannel.Valid, TxChannel.Windowed, TxChannel.Idle;
      forall k | 0 <= k < |chans|
        ensures Ready(k, later)
      {
        assert Ready(k, now);
      }
    }

    /** All clocks at `clock`, and a new record. */
    method Restart(clock: Time)
      requires Valid() && InRange(clock) && InRange(latency)
      requires forall k :: 0 <= k < |chans| ==> chans[k].Windowed(clock)
      modifies this`deadline, this`lastUpdate, this`ideal, this`radio, this`served, this`start, this`base
      ensures Valid() && radio == [] && start == Slot(clock) && At(start) == clock && base == Snapshots()
      ensures ideal == Ideal(Slot(clock), Slot(latency), Slot(clock)) && deadline == clock
    {
      hide At, Separate, AllReady, TxChannel.Windowed, TxChannel.Now, Recorded, Paced;
      assert this !in Channels() && this !in Tables() && this !in Settings();
      ReadyAt(deadline, clock);
      deadline := clock;
      lastUpdate := clock;
      ideal := Ideal(Slot(clock), Slot(latency), Slot(clock));
      AtSlot(clock);
      AtSlot(latency);
      Forget();
    }

    /** `stop`: clears every queue. */
    method Stop()
      requires Valid()
      modifies this`on, this`radio, this`served, this`start, this`base, Channels()
      ensures Valid() && !on
      ensures old(on) ==> forall k :: 0 <= k < |chans| ==> chans[k].queue == []
      ensures old(on) ==> forall k :: 0 <= k < |chans| ==>
                chans[k].sent == old(chans[k].sent) && chans[k].Seen() == old(chans[k].Seen())
      ensures !old(on) ==> forall k :: 0 <= k < |chans| ==> chans[k].Now() == old(chans[k].Now())
    {
      hide At, TxChannel.Now, TxChannel.Seen, Separate, AllReady, Recorded, Paced, Clocked, Snapshots;
      assert this !in Channels() && this !in Tables() && this !in Settings();
      if !on {
        return;
      }
      ClearAll();
      Forget();
      on := false;
    }

    /** A new record, from here on. */
    ghost method Forget()
      modifies this`radio, this`served, this`start, this`base
      ensures Paced() && Recorded() && radio == [] && start == ideal.d && base == Snapshots()
    {
      hide TxChannel.Now, Recorded, PacedRun;
      assert this !in Channels();
      radio, served, start, base := [], [], ideal.d, Snapshots();
      Rebased();
      NothingPaced(start, |chans|, sps);
    }

    method ClearAll()
      requires Separate() && AllReady(deadline)
      modifies Channels()
      ensures AllReady(deadline) && forall k :: 0 <= k < |chans| ==> chans[k].queue == []
      ensures forall k :: 0 <= k < |chans| ==>
                chans[k].sent == old(chans[k].sent) && chans[k].Seen() == old(chans[k].Seen())
    {
      hide Ready, TxChannel.Seen;
      for i := 0 to |chans|
        invariant forall k :: 0 <= k < |chans| ==> Ready(k, deadline)
        invariant forall k :: 0 <= k < i ==> chans[k].queue == []
        invariant forall k :: 0 <= k < |chans| ==>
                    chans[k].sent == old(chans[k].sent) && chans[k].Seen() == old(chans[k].Seen())
      {
        assert chans[i] in Channels();
        ClearOne(i, deadline);
      }
    }

    method ClearOne(k: int, now: Time)
      requires 0 <= k < |chans| && Ready(k, now)
      modifies chans[k]
      ensures Ready(k, now) && chans[k].queue == []
      ensures chans[k].sent == old(chans[k].sent) && chans[k].Seen() == old(chans[k].Seen())
    {
      chans[k].Clear();
    }
  }

  lemma NextSlotWindow(end: Snapshot, c: Choice, now: Time, sps: int, back: int, ahead: int)
    requires InRange(now) && 1 <= back && 0 <= ahead && back + ahead < HALF
    requires SlotStep(c, now, sps) && c.after == end && AllInWindow(end.queue, now, back, ahead)
    requires forall b :: b in c.late ==> InWindow(b.time, IncTN(now), back, ahead)
    ensures InRange(IncTN(now)) && AllInWindow(end.queue, IncTN(now), back, ahead)
  {
    hide IncTN, InWindow, Less, BurstLen, Logged, Row, Vecs;
    forall b | b in end.queue
      ensures InWindow(b.time, IncTN(now), back, ahead)
    {
      if !Less(b.time, now) {
        WindowAdvances(b.time, now, back, ahead);
      }
    }
    NextInRange(now);
  }

  lemma NextInRange(now: Time)
    requires InRange(now)
    ensures InRange(IncTN(now))
  {
  }
}
