/** The radio interface: bursts in and out of the sample buffers, in step with
    the slot clock and the device's fixed chunks of 625 symbols.

    The device is a parameter: it supplies a whole chunk or fails. Conversion
    between floats and the device's shorts is the identity here. */
module RadioInterfaces {
  import opened GsmTime
  import opened Modular
  import opened RadioBuffers
  import opened SlotPattern
  import opened Wrappers

  const CHUNK: int := 625
  const NUMCHUNKS: int := 4

  // ----- the 157-156-156-156 pattern -----------------------------------------------------

  /** Samples in the `n` bursts from slot `u` on. */
  function Span(sps: int, u: int, n: nat): int {
    if n == 0 then 0 else Span(sps, u, n - 1) + BurstLen(sps, u + n - 1)
  }

  /** A slot number and its wrapped timeslot have the same burst length. */
  lemma SlotLen(sps: int, u: int)
    ensures BurstLen(sps, At(u).tn) == BurstLen(sps, u)
  {
    assert u == (u / 8) * 8 + u % 8;
    assert u % 8 == ((u % 8) / 4) * 4 + (u % 8) % 4;
    ModUnique(u, 4, 2 * (u / 8) + (u % 8) / 4, (u % 8) % 4);
  }

  /** Any four consecutive bursts make up exactly one device chunk. */
  lemma FourSlots(sps: int, u: int)
    requires sps == 1 || sps == 4
    ensures Span(sps, u, 4) == CHUNK * sps
  {
    assert Span(sps, u, 1) == BurstLen(sps, u);
    assert Span(sps, u, 2) == Span(sps, u, 1) + BurstLen(sps, u + 1);
    assert Span(sps, u, 3) == Span(sps, u, 2) + BurstLen(sps, u + 2);
    assert Span(sps, u, 4) == Span(sps, u, 3) + BurstLen(sps, u + 3);
  }

  lemma {:induction false} SpanSplit(sps: int, u: int, m: nat, n: nat)
    ensures Span(sps, u, m + n) == Span(sps, u, m) + Span(sps, u + m, n)
    decreases n
  {
    if n > 0 {
      SpanSplit(sps, u, m, n - 1);
    }
  }

  /** Four more slots are one more chunk. */
  lemma SpanChunk(sps: int, u: int, n: nat)
    requires sps == 1 || sps == 4
    ensures Span(sps, u, n + 4) == Span(sps, u, n) + CHUNK * sps
  {
    SpanSplit(sps, u, n, 4);
    FourSlots(sps, u + n);
  }

  lemma {:induction false} SpanOfChunks(sps: int, u: int, k: nat, m: nat)
    requires sps == 1 || sps == 4
    ensures Span(sps, u, 4 * k + m) == CHUNK * sps * k + Span(sps, u, m)
    decreases k
  {
    if k > 0 {
      SpanOfChunks(sps, u, k - 1, m);
      SpanChunk(sps, u, 4 * (k - 1) + m);
    }
  }

  lemma {:induction false} SpanMonotone(sps: int, u: int, m: nat, n: nat)
    requires m <= n
    ensures Span(sps, u, n) >= Span(sps, u, m) + 156 * (n - m) && Span(sps, u, m) >= 0
    decreases n
  {
    if m < n {
      SpanMonotone(sps, u, m, n - 1);
    } else if m > 0 {
      SpanMonotone(sps, u, m - 1, n - 1);
    }
  }

  /** What is left after whole chunks is less than a chunk, and the fourth burst
      completes it. */
  lemma Pending(sps: int, u: int, n: nat)
    requires sps == 1 || sps == 4
    ensures 0 <= Span(sps, u, n) - CHUNK * sps * (n / 4) < CHUNK * sps
    ensures Span(sps, u, n + 1) - CHUNK * sps * (n / 4) <= CHUNK * sps
    ensures Span(sps, u, n + 1) - CHUNK * sps * (n / 4) == CHUNK * sps <==> (n + 1) % 4 == 0
    ensures (n + 1) / 4 == n / 4 + if (n + 1) % 4 == 0 then 1 else 0
  {
    hide Span;
    var k, m := n / 4, n % 4;
    SpanOfChunks(sps, u, k, m);
    SpanOfChunks(sps, u, k, m + 1);
    assert 4 * k + (m + 1) == n + 1;
    SpanMonotone(sps, u, m + 1, 4);
    SpanMonotone(sps, u, m, m + 1);
    FourSlots(sps, u);
  }

  /** In closed form: every slot has 156 symbols, and one more if its number is a
      multiple of four; at four samples per symbol all have 625 samples. */
  lemma {:induction false} SpanIs(sps: int, u: int, n: nat)
    requires sps == 1 || sps == 4
    ensures Span(sps, u, n) == if sps == 4 then 625 * n else 156 * n + (u + n + 3) / 4 - (u + 3) / 4
  {
    if n > 0 {
      SpanIs(sps, u, n - 1);
    }
  }

  /** Seen from a slot with 157 symbols, no slot begins early. */
  lemma NeverEarly(u: int, n: nat)
    requires u % 4 == 0
    ensures 0 <= 4 * Span(1, u, n) - 625 * n <= 3
  {
    SpanIs(1, u, n);
  }

  /** Samples in the whole chunks that `n` bursts make up. */
  function InChunks(sps: int, n: nat): int {
    CHUNK * sps * (n / 4)
  }

  lemma NextBurst(sps: int, u: int, n: nat, len: int)
    requires (sps == 1 || sps == 4) && len == BurstLen(sps, At(u + n).tn)
    ensures len >= 0 && Span(sps, u, n + 1) == Span(sps, u, n) + len
    ensures 0 <= InChunks(sps, n) <= Span(sps, u, n)
    ensures Span(sps, u, n + 1) - InChunks(sps, n) <= CHUNK * sps
    ensures Span(sps, u, n + 1) - InChunks(sps, n) == CHUNK * sps <==> (n + 1) % 4 == 0
    ensures InChunks(sps, n + 1) == InChunks(sps, n) + if (n + 1) % 4 == 0 then CHUNK * sps else 0
  {
    SlotLen(sps, u + n);
    Pending(sps, u, n);
  }

  /** At one sample per symbol the bursts never drift more than 0.75 symbol from
      156.25 symbols a slot. */
  lemma WithinThreeQuarters(u: int, n: nat)
    ensures -3 <= 4 * Span(1, u, n) - 625 * n <= 3
  {
    var k, m := n / 4, n % 4;
    SpanOfChunks(1, u, k, m);
    assert Span(1, u, 0) == 0;
    assert m >= 1 ==> Span(1, u, 1) == BurstLen(1, u);
    assert m >= 2 ==> Span(1, u, 2) == Span(1, u, 1) + BurstLen(1, u + 1);
    assert m >= 3 ==> Span(1, u, 3) == Span(1, u, 2) + BurstLen(1, u + 2);
  }

  // ----- the channels' buffers --------------------------------------------------------------

  ghost predicate Distinct(bs: seq<RadioBuffer>) {
    && (forall i, j :: 0 <= i < j < |bs| ==> bs[i] != bs[j])
    && (forall i, j :: 0 <= i < j < |bs| ==> bs[i].buffer != bs[j].buffer)
  }

  ghost function Objects(bs: seq<RadioBuffer>): set<object> {
    (set i | 0 <= i < |bs| :: bs[i] as object) + (set i | 0 <= i < |bs| :: bs[i].buffer as object)
  }

  lemma DistinctJoin(send: seq<RadioBuffer>, recv: seq<RadioBuffer>)
    requires Distinct(send) && Distinct(recv) && Objects(send) !! Objects(recv)
    ensures Distinct(send + recv)
  {
    var bs := send + recv;
    forall i, j | 0 <= i < |send| && 0 <= j < |recv|
      ensures send[i] != recv[j] && send[i].buffer != recv[j].buffer
    {
      assert send[i] in Objects(send) && send[i].buffer in Objects(send);
      assert recv[j] in Objects(recv) && recv[j].buffer in Objects(recv);
    }
  }

  /** One buffer: how much was ever written to it, and how much of that read. */
  ghost predicate Level(b: RadioBuffer, out: bool, sps: int, total: int, consumed: int)
    reads b, b.buffer
  {
    && b.Valid() && b.outDirection == out && b.hLen == 0
    && b.segmentLen == CHUNK * sps && b.bufferLen == NUMCHUNKS * CHUNK * sps
    && |b.stream| == total && b.consumed == consumed
  }

  /** All channels' buffers are equally full. */
  ghost predicate InStep(bs: seq<RadioBuffer>, out: bool, sps: int, total: int, consumed: int)
    reads Objects(bs)
  {
    forall i :: 0 <= i < |bs| ==> Level(bs[i], out, sps, total, consumed)
  }

  function Silence(n: int): seq<Sample> {
    if n < 0 then [] else seq(n, _ => SILENCE)
  }

  /** What goes into the stream for a burst. */
  function Written(burst: seq<Sample>, zero: bool): seq<Sample> {
    if zero then Silence(|burst|) else burst
  }

  lemma WrittenLen(burst: seq<Sample>, zero: bool)
    ensures |Written(burst, zero)| == |burst|
  {
  }

  /** Zero samples for a burst that is not to be heard. */
  lemma WrittenIs(burst: seq<Sample>, zero: bool)
    ensures Written(burst, zero) == if zero then seq(|burst|, _ => Sample(0.0, 0.0)) else burst
  {
  }

  lemma AllWritten(bursts: seq<seq<Sample>>, zeros: seq<bool>)
    requires |bursts| == |zeros|
    ensures forall i :: 0 <= i < |bursts| ==>
              Written(bursts[i], zeros[i]) == if zeros[i] then seq(|bursts[i]|, _ => Sample(0.0, 0.0)) else bursts[i]
  {
  }

  lemma PrefixStays(s: seq<Sample>, t: seq<Sample>, n: int)
    requires 0 <= n <= |s|
    ensures (s + t)[..n] == s[..n]
  {
  }

  lemma PrefixGrows(s: seq<Sample>, m: int, n: int)
    requires 0 <= m <= n <= |s|
    ensures s[..m] + s[m..n] == s[..n]
  {
  }

  /** Each channel's stream with its next chunk. */
  function Joined(xs: seq<seq<Sample>>, ys: seq<seq<Sample>>): seq<seq<Sample>>
    requires |xs| == |ys|
  {
    seq(|xs|, i requires 0 <= i < |xs| => xs[i] + ys[i])
  }

  // ----- receive framing ---------------------------------------------------------------------

  /** Between chunks one burst at most is waiting, so that a whole chunk always
      fits. */
  lemma RxRoom(sps: int, u: int, c: nat)
    requires sps == 1 || sps == 4
    ensures var n := if c == 0 then 0 else 4 * c - 1;
            0 <= TakenIn(sps, c) - Span(sps, u, n) <= CHUNK * sps
    ensures TakenIn(sps, c + 1) == TakenIn(sps, c) + CHUNK * sps
  {
    if c > 0 {
      SpanOfChunks(sps, u, c, 0);
      SpanMonotone(sps, u, 4 * c - 1, 4 * c);
    }
  }

  /** Samples in `c` device chunks. */
  function TakenIn(sps: int, c: nat): int { CHUNK * sps * c }

  lemma ChunkCount(sps: int, c: nat)
    requires sps == 1 || sps == 4
    ensures TakenIn(sps, 0) == 0 && TakenIn(sps, c + 1) == TakenIn(sps, c) + CHUNK * sps
    ensures TakenIn(sps, c) == 0 <==> c == 0
    ensures TakenIn(sps, c) == CHUNK * sps <==> c == 1
    ensures c > 1 ==> TakenIn(sps, c) > CHUNK * sps
  {
  }

  /** Samples the device took in a number of calls. */
  function Total(accepted: seq<nat>): nat {
    if accepted == [] then 0 else Total(accepted[..|accepted| - 1]) + accepted[|accepted| - 1]
  }

  lemma TotalGrows(accepted: seq<nat>, numSent: nat)
    ensures Total(accepted + [numSent]) == Total(accepted) + numSent
  {
    assert (accepted + [numSent])[..|accepted|] == accepted;
  }

  /** The size of the burst after `n` bursts, and whether it may be cut. */
  lemma NextSize(sps: int, u: int, n: nat, c: nat)
    requires sps == 1 || sps == 4
    ensures Span(sps, u, n) < TakenIn(sps, c) <==> n < 4 * c
    ensures Span(sps, u, n + 1) == Span(sps, u, n) + BurstLen(sps, At(u + n).tn)
    ensures sps == 4 ==> BurstLen(sps, At(u + n).tn) == 625
  {
    SpanFits(sps, u, n, c);
    SlotLen(sps, u + n);
  }

  /** Before burst `n` is cut from `c` chunks: its slot, what is left of the
      samples, and its size. */
  ghost predicate Cut(sps: int, u: int, n: nat, c: nat, time: Time, left: int, size: int) {
    && time == At(u + n) && left == TakenIn(sps, c) - Span(sps, u, n) && size > 0
    && Span(sps, u, n + 1) == Span(sps, u, n) + size && (sps == 4 ==> size == 625)
  }

  lemma CutFirst(sps: int, u: int, n: nat, c: nat, time: Time, left: int, size: int)
    requires (sps == 1 || sps == 4) && time == At(u + n) && left == TakenIn(sps, c) - Span(sps, u, n)
    requires size == BurstLen(sps, time.tn)
    ensures Cut(sps, u, n, c, time, left, size)
  {
    hide Span, At, TakenIn;
    NextSize(sps, u, n, c);
  }

  /** A burst is cut exactly while it is not the last of its chunk. */
  lemma CutMeans(sps: int, u: int, n: nat, c: nat, time: Time, left: int, size: int)
    requires (sps == 1 || sps == 4) && Cut(sps, u, n, c, time, left, size)
    ensures time == At(u + n) && size > 0
    ensures Span(sps, u, n) + size == Span(sps, u, n + 1)
    ensures left > size <==> n + 1 < 4 * c
    ensures left > size ==> Span(sps, u, n + 1) <= TakenIn(sps, c)
  {
    hide Span, At, TakenIn, BurstLen;
    NextSize(sps, u, n + 1, c);
  }

  lemma CutNext(sps: int, u: int, n: nat, c: nat, time: Time, left: int, size: int)
    requires (sps == 1 || sps == 4) && Cut(sps, u, n, c, time, left, size)
    ensures Cut(sps, u, n + 1, c, IncTN(time), left - size, if sps == 4 then size else BurstLen(sps, IncTN(time).tn))
  {
    hide Span, At, TakenIn, IncTN;
    NextSize(sps, u, n + 1, c);
    IncIsExact(u + n, 1);
  }

  datatype RxBurst = RxBurst(time: Time, samples: seq<Sample>)

  const FIFO_LIMIT: int := 32

  /** The stream is long enough for its `k`th burst from slot `u` on. */
  predicate Fits(stream: seq<Sample>, sps: int, u: int, k: nat) {
    0 <= Span(sps, u, k) <= Span(sps, u, k + 1) <= |stream|
  }

  /** The `k`th burst of a stream cut at the bursts of the slots from `u` on. */
  function Part(stream: seq<Sample>, sps: int, u: int, k: nat): RxBurst
    requires Fits(stream, sps, u, k)
  {
    RxBurst(At(u + k), stream[Span(sps, u, k)..Span(sps, u, k + 1)])
  }

  /** Such a burst in full: slots that are multiples of four have 157 symbols and
      the others 156. */
  lemma BurstIs(burst: RxBurst, stream: seq<Sample>, sps: int, u: int, k: nat)
    requires (sps == 1 || sps == 4) && Fits(stream, sps, u, k) && burst == Part(stream, sps, u, k)
    ensures burst.time == At(u + k)
    ensures var from := if sps == 4 then 625 * k else 156 * k + (u + k + 3) / 4 - (u + 3) / 4;
            var size := if sps == 4 then 625 else if (u + k) % 4 == 0 then 157 else 156;
            0 <= from && from + size <= |stream| && burst.samples == stream[from..from + size]
  {
    hide At, Span;
    SpanIs(sps, u, k);
    SpanIs(sps, u, k + 1);
  }

  /** The bursts a receive stream is cut into: slot after slot from `u` on,
      sample after sample from the beginning. */
  ghost predicate Framed(bursts: seq<RxBurst>, stream: seq<Sample>, sps: int, u: int) {
    forall k :: 0 <= k < |bursts| ==> Fits(stream, sps, u, k) && bursts[k] == Part(stream, sps, u, k)
  }

  lemma FramedGrows(bursts: seq<RxBurst>, stream: seq<Sample>, more: seq<Sample>, sps: int, u: int)
    requires Framed(bursts, stream, sps, u)
    ensures Framed(bursts, stream + more, sps, u)
  {
    forall k | 0 <= k < |bursts|
      ensures Fits(stream + more, sps, u, k) && bursts[k] == Part(stream + more, sps, u, k)
    {
      PartStays(stream, more, sps, u, k);
    }
  }

  lemma PartStays(stream: seq<Sample>, more: seq<Sample>, sps: int, u: int, k: nat)
    requires Fits(stream, sps, u, k)
    ensures Fits(stream + more, sps, u, k) && Part(stream + more, sps, u, k) == Part(stream, sps, u, k)
  {
    hide Span, At;
    var i, j := Span(sps, u, k), Span(sps, u, k + 1);
    assert (stream + more)[i..j] == stream[i..j];
  }

  lemma FramedNext(bursts: seq<RxBurst>, stream: seq<Sample>, sps: int, u: int, b: RxBurst)
    requires Framed(bursts, stream, sps, u) && Fits(stream, sps, u, |bursts|) && b == Part(stream, sps, u, |bursts|)
    ensures Framed(bursts + [b], stream, sps, u)
  {
    hide Fits, Part;
  }

  lemma NothingYet(sps: int, u: int)
    ensures Span(sps, u, 0) == 0 && TakenIn(sps, 0) == 0 && InChunks(sps, 0) == 0 && Framed([], [], sps, u)
  {
  }

  /** The receive FIFO takes a burst only while it holds fewer than 32. */
  function Offer(fifo: seq<RxBurst>, b: RxBurst): seq<RxBurst> {
    if |fifo| < FIFO_LIMIT then fifo + [b] else fifo
  }

  function OfferAll(fifo: seq<RxBurst>, bs: seq<RxBurst>): seq<RxBurst> {
    if bs == [] then fifo else Offer(OfferAll(fifo, bs[..|bs| - 1]), bs[|bs| - 1])
  }

  /** What is offered first is kept first, and nothing already queued is
      displaced. */
  lemma {:induction false} OfferKeepsPrefix(fifo: seq<RxBurst>, bs: seq<RxBurst>)
    ensures var room := if |fifo| < 32 then 32 - |fifo| else 0;
            OfferAll(fifo, bs) == fifo + bs[..if |bs| < room then |bs| else room]
  {
    if bs != [] {
      var init := bs[..|bs| - 1];
      OfferKeepsPrefix(fifo, init);
      var room := if |fifo| < FIFO_LIMIT then FIFO_LIMIT - |fifo| else 0;
      if |bs| <= room {
        assert init[..|init|] == init && bs[..|bs|] == bs == init + [bs[|bs| - 1]];
      } else {
        assert init[..room] == bs[..room];
      }
    }
  }

  /** Bursts fit into chunks exactly while there are fewer than four per chunk. */
  lemma SpanFits(sps: int, u: int, n: nat, c: nat)
    requires sps == 1 || sps == 4
    ensures Span(sps, u, n) < CHUNK * sps * c <==> n < 4 * c
    ensures 0 <= Span(sps, u, n) < Span(sps, u, n + 1) && Span(sps, u, n + 1) == Span(sps, u, n) + BurstLen(sps, u + n)
  {
    SpanOfChunks(sps, u, c, 0);
    SpanMonotone(sps, u, n, n + 1);
    if n < 4 * c {
      SpanMonotone(sps, u, n, 4 * c);
    } else {
      SpanMonotone(sps, u, 4 * c, n);
    }
  }

  class RadioInterface {
    const sendBuffer: seq<RadioBuffer>
    const recvBuffer: seq<RadioBuffer>
    const spsTx: int
    const spsRx: int
    /** Slots between transmit and receive timestamps. */
    const receiveOffset: nat
    var on: bool
    var clock: Time
    var writeTimestamp: int
    var readTimestamp: int
    var receiveFIFO: seq<seq<RxBurst>>

    /** The slot of the first burst received after the start, the number of
        bursts per channel and of device chunks since, and all bursts formed. */
    ghost var rxFrom: int
    ghost var slotsIn: nat
    ghost var chunksIn: nat
    ghost var received: seq<seq<RxBurst>>

    /** The slot the first burst after the start was for, the number of bursts
        per channel since, and the samples each channel's device stream has
        received. */
    ghost var txFrom: int
    ghost var slotsOut: nat
    ghost var toDevice: seq<seq<Sample>>

    /** The constructor and `init`: a send and a receive buffer per channel. */
    constructor (chans: nat, spsTx: int, spsRx: int, receiveOffset: nat, startTime: Time)
      requires chans > 0 && (spsTx == 1 || spsTx == 4) && (spsRx == 1 || spsRx == 4)
      requires InRange(startTime) && receiveOffset <= 8
      ensures TxValid() && RxValid() && Distinct(sendBuffer + recvBuffer) && !on
      ensures |sendBuffer| == |recvBuffer| == chans && this.spsTx == spsTx && this.spsRx == spsRx
      ensures clock == startTime && this.receiveOffset == receiveOffset && slotsOut == 0 && slotsIn == 0
              && chunksIn == 0
      ensures fresh(Objects(sendBuffer)) && fresh(Objects(recvBuffer))
    {
      hide At, Level, RadioBuffer.Valid, Distinct, Objects;
      var send, recv := MakeSides(chans, spsTx, spsRx);
      sendBuffer, recvBuffer := send, recv;
      this.spsTx, this.spsRx, this.receiveOffset := spsTx, spsRx, receiveOffset;
      on, clock, writeTimestamp, readTimestamp := false, startTime, 0, 0;
      receiveFIFO := seq(chans, _ => []);
      rxFrom, slotsIn, chunksIn, received := Slot(startTime) - receiveOffset, 0, 0, seq(chans, _ => []);
      txFrom, slotsOut, toDevice := Slot(startTime), 0, seq(chans, _ => []);
      AtSlot(startTime);
    }

    /** `start`: empties the buffers and takes the device's first timestamps. The
        first burst to transmit will be for slot `firstSlot`. */
    method Start(deviceStarts: bool, writeStart: int, readStart: int, ghost firstSlot: int) returns (ok: bool)
      requires TxValid() && RxValid() && Distinct(sendBuffer + recvBuffer) && InRange(clock)
      modifies this, Objects(sendBuffer), Objects(recvBuffer)
      ensures TxValid() && RxValid() && clock == old(clock) && ok == on && on == (old(on) || deviceStarts)
      ensures on && !old(on) ==> slotsOut == 0 && txFrom == firstSlot && slotsIn == 0 && chunksIn == 0
      ensures on && !old(on) ==> writeTimestamp == writeStart && readTimestamp == readStart
      ensures receiveFIFO == old(receiveFIFO)
      ensures !(on && !old(on)) ==> slotsOut == old(slotsOut) && slotsIn == old(slotsIn) && chunksIn == old(chunksIn)
    {
      hide TxValid, RxValid, Distinct, InRange;
      assert this !in Objects(sendBuffer) && this !in Objects(recvBuffer);
      Halves();
      if on {
        return true;
      }
      if !deviceStarts {
        return false;
      }
      StartTx(writeStart, firstSlot);
      StartRx(readStart);
      on := true;
      return true;
    }

    method StartTx(writeStart: int, ghost firstSlot: int)
      requires TxValid()
      modifies this`writeTimestamp, this`txFrom, this`slotsOut, this`toDevice, Objects(sendBuffer)
      ensures TxValid() && writeTimestamp == writeStart && slotsOut == 0 && txFrom == firstSlot
    {
      hide At, Level, Span, InChunks;
      assert this !in Objects(sendBuffer);
      NothingYet(spsTx, firstSlot);
      ResetAll(sendBuffer, true, spsTx, Span(spsTx, txFrom, slotsOut), InChunks(spsTx, slotsOut));
      writeTimestamp := writeStart;
      txFrom, slotsOut, toDevice := firstSlot, 0, seq(|sendBuffer|, _ => []);
    }

    method StartRx(readStart: int)
      requires RxValid() && InRange(clock)
      modifies this`readTimestamp, this`rxFrom, this`slotsIn, this`chunksIn, this`received, Objects(recvBuffer)
      ensures RxValid() && readTimestamp == readStart && slotsIn == 0 && chunksIn == 0
    {
      hide At, InStep, Distinct, Framed, Span, Slot, TakenIn;
      assert this !in Objects(recvBuffer);
      NothingYet(spsRx, Slot(clock) - receiveOffset);
      ResetAll(recvBuffer, false, spsRx, TakenIn(spsRx, chunksIn), Span(spsRx, rxFrom, slotsIn));
      AtSlot(clock);
      readTimestamp := readStart;
      rxFrom, slotsIn, chunksIn, received := Slot(clock) - receiveOffset, 0, 0, seq(|recvBuffer|, _ => []);
    }

    /** No buffer is on both sides. */
    lemma Halves()
      requires Distinct(sendBuffer + recvBuffer)
      ensures Objects(sendBuffer) !! Objects(recvBuffer)
    {
      var bs := sendBuffer + recvBuffer;
      forall i, j | 0 <= i < |sendBuffer| && 0 <= j < |recvBuffer|
        ensures sendBuffer[i] != recvBuffer[j] && sendBuffer[i].buffer != recvBuffer[j].buffer
      {
        assert bs[i] == sendBuffer[i] && bs[|sendBuffer| + j] == recvBuffer[j];
      }
    }

    /** The send buffers have taken `total` samples and given the device
        `consumed` of them. */
    ghost predicate TxAt(total: int, consumed: int)
      reads this`toDevice, Objects(sendBuffer)
    {
      && Distinct(sendBuffer) && |sendBuffer| > 0 && (spsTx == 1 || spsTx == 4)
      && InStep(sendBuffer, true, spsTx, total, consumed)
      && |toDevice| == |sendBuffer|
      && 0 <= consumed <= total
      && (forall i :: 0 <= i < |sendBuffer| ==>
            |sendBuffer[i].stream| == total && toDevice[i] == sendBuffer[i].stream[..consumed])
    }

    /** One chunk has gone to the device for every four slots. */
    ghost predicate TxValid()
      reads this`txFrom, this`slotsOut, this`toDevice, Objects(sendBuffer)
    {
      TxAt(Span(spsTx, txFrom, slotsOut), InChunks(spsTx, slotsOut))
    }

    /** `radioifyVector` on one channel. The result of the buffer call is not
        looked at. */
    method RadioifyVector(i: nat, burst: seq<Sample>, zero: bool, ghost total: int, ghost consumed: int)
      returns (n: nat)
      requires i < |sendBuffer| && Level(sendBuffer[i], true, spsTx, total, consumed)
      requires total - consumed + |burst| <= NUMCHUNKS * CHUNK * spsTx
      modifies sendBuffer[i], sendBuffer[i].buffer
      ensures Level(sendBuffer[i], true, spsTx, total + |burst|, consumed)
      ensures sendBuffer[i].stream
              == old(sendBuffer[i].stream) + if zero then seq(|burst|, _ => Sample(0.0, 0.0)) else burst
      ensures n == |burst|
    {
      assert SILENCE == Sample(0.0, 0.0);
      if zero {
        var _ := sendBuffer[i].Zero(|burst|);
      } else {
        var _ := sendBuffer[i].Write(burst);
      }
      n := |burst|;
    }

    method RadioifyEach(bursts: seq<seq<Sample>>, zeros: seq<bool>, ghost len: nat, ghost total: int,
                        ghost consumed: int)
      requires Distinct(sendBuffer) && InStep(sendBuffer, true, spsTx, total, consumed)
               && |bursts| == |zeros| == |sendBuffer|
      requires forall i :: 0 <= i < |bursts| ==> |bursts[i]| == len
      requires total - consumed + len <= NUMCHUNKS * CHUNK * spsTx
      modifies Objects(sendBuffer)
      ensures InStep(sendBuffer, true, spsTx, total + len, consumed)
      ensures forall i :: 0 <= i < |sendBuffer| ==>
                sendBuffer[i].stream == old(sendBuffer[i].stream) + Written(bursts[i], zeros[i])
    {
      hide Level, Written;
      assert this !in Objects(sendBuffer);
      for i := 0 to |sendBuffer|
        invariant forall k :: 0 <= k < i ==> Level(sendBuffer[k], true, spsTx, total + len, consumed)
        invariant forall k :: 0 <= k < i ==>
                    sendBuffer[k].stream == old(sendBuffer[k].stream) + Written(bursts[k], zeros[k])
        invariant forall k :: i <= k < |sendBuffer| ==>
                    Level(sendBuffer[k], true, spsTx, total, consumed)
                      && sendBuffer[k].stream == old(sendBuffer[k].stream)
      {
        assert sendBuffer[i] in Objects(sendBuffer) && sendBuffer[i].buffer in Objects(sendBuffer);
        var _ := RadioifyVector(i, bursts[i], zeros[i], total, consumed);
        WrittenIs(bursts[i], zeros[i]);
      }
    }

    /** The loop of `driveTransmitRadio` over the channels. */
    method RadioifyAll(bursts: seq<seq<Sample>>, zeros: seq<bool>, ghost len: nat, ghost total: int,
                       ghost consumed: int)
      requires TxAt(total, consumed) && |bursts| == |zeros| == |sendBuffer|
      requires forall i :: 0 <= i < |bursts| ==> |bursts[i]| == len
      requires total - consumed + len <= NUMCHUNKS * CHUNK * spsTx
      modifies Objects(sendBuffer)
      ensures TxAt(total + len, consumed)
      ensures forall i :: 0 <= i < |sendBuffer| ==>
                sendBuffer[i].stream == old(sendBuffer[i].stream) + Written(bursts[i], zeros[i])
    {
      hide InStep, Written, Distinct;
      assert this !in Objects(sendBuffer);
      RadioifyEach(bursts, zeros, len, total, consumed);
      forall k | 0 <= k < |sendBuffer|
        ensures |sendBuffer[k].stream| == total + len && toDevice[k] == sendBuffer[k].stream[..consumed]
      {
        WrittenLen(bursts[k], zeros[k]);
        assert |old(sendBuffer[k].stream)| == total && toDevice[k] == old(sendBuffer[k].stream)[..consumed];
        PrefixStays(old(sendBuffer[k].stream), Written(bursts[k], zeros[k]), consumed);
      }
    }

    /** One channel's part of `pushBuffer`: the device's next chunk. */
    method ReadChunk(i: nat, ghost total: int, ghost consumed: int) returns (chunk: seq<Sample>)
      requires i < |sendBuffer| && Level(sendBuffer[i], true, spsTx, total, consumed)
      requires total - consumed >= CHUNK * spsTx
      modifies sendBuffer[i], sendBuffer[i].buffer
      ensures Level(sendBuffer[i], true, spsTx, total, consumed + CHUNK * spsTx)
      ensures sendBuffer[i].stream == old(sendBuffer[i].stream)
      ensures 0 <= consumed && consumed + CHUNK * spsTx <= |sendBuffer[i].stream|
      ensures chunk == sendBuffer[i].stream[consumed..consumed + CHUNK * spsTx]
    {
      var b := sendBuffer[i];
      var seg := b.GetReadSegment();
      // The pointer is never NULL here.
      assert seg >= 0;
      chunk := b.buffer[seg..seg + b.segmentLen];
      assert chunk == b.buffer[..][seg..seg + b.segmentLen];
    }

    /** `pushBuffer`: hands the device one chunk per channel if there is one. The
        timestamp moves on by what the device says it took; the rest is lost. */
    method PushBuffer(ghost total: int, ghost consumed: int) returns (more: bool, numSent: nat)
      requires TxAt(total, consumed)
      modifies this`toDevice, this`writeTimestamp, Objects(sendBuffer)
      ensures more == (total - consumed >= CHUNK * spsTx)
      ensures TxAt(total, if more then consumed + CHUNK * spsTx else consumed)
      ensures writeTimestamp == old(writeTimestamp) + numSent && (!more ==> numSent == 0)
      ensures forall i :: 0 <= i < |sendBuffer| ==> sendBuffer[i].stream == old(sendBuffer[i].stream)
    {
      hide RadioBuffer.Valid;
      assert Level(sendBuffer[0], true, spsTx, total, consumed);
      FillLevel(0, total, consumed);
      var segments := sendBuffer[0].AvailSegments();
      if segments < 1 {
        return false, 0;
      }
      numSent := SendChunks(total, consumed);
      return true, numSent;
    }

    lemma FillLevel(i: nat, total: int, consumed: int)
      requires i < |sendBuffer| && Level(sendBuffer[i], true, spsTx, total, consumed)
      ensures sendBuffer[i].availSamples == total - consumed
    {
    }

    method SendChunks(ghost total: int, ghost consumed: int) returns (numSent: nat)
      requires TxAt(total, consumed) && total - consumed >= CHUNK * spsTx
      modifies this`toDevice, this`writeTimestamp, Objects(sendBuffer)
      ensures TxAt(total, consumed + CHUNK * spsTx)
      ensures writeTimestamp == old(writeTimestamp) + numSent
      ensures forall i :: 0 <= i < |sendBuffer| ==> sendBuffer[i].stream == old(sendBuffer[i].stream)
    {
      hide Level;
      assert this !in Objects(sendBuffer);
      var chunks := ReadChunks(total, consumed);
      forall i | 0 <= i < |sendBuffer|
        ensures toDevice[i] + chunks[i] == sendBuffer[i].stream[..consumed + CHUNK * spsTx]
      {
        PrefixGrows(sendBuffer[i].stream, consumed, consumed + CHUNK * spsTx);
      }
      toDevice := Joined(toDevice, chunks);
      numSent := *;
      writeTimestamp := writeTimestamp + numSent;
    }

    method ReadChunks(ghost total: int, ghost consumed: int) returns (chunks: seq<seq<Sample>>)
      requires Distinct(sendBuffer) && InStep(sendBuffer, true, spsTx, total, consumed)
      requires 0 <= consumed && total - consumed >= CHUNK * spsTx && spsTx > 0
      modifies Objects(sendBuffer)
      ensures InStep(sendBuffer, true, spsTx, total, consumed + CHUNK * spsTx)
      ensures |chunks| == |sendBuffer|
      ensures forall i :: 0 <= i < |sendBuffer| ==> sendBuffer[i].stream == old(sendBuffer[i].stream)
      ensures forall i :: 0 <= i < |sendBuffer| ==>
                |sendBuffer[i].stream| >= consumed + CHUNK * spsTx
                && chunks[i] == sendBuffer[i].stream[consumed..consumed + CHUNK * spsTx]
    {
      hide Level;
      chunks := [];
      for i := 0 to |sendBuffer|
        invariant |chunks| == i
        invariant forall k :: 0 <= k < i ==> Level(sendBuffer[k], true, spsTx, total, consumed + CHUNK * spsTx)
        invariant forall k :: 0 <= k < i ==>
                    |sendBuffer[k].stream| >= consumed + CHUNK * spsTx
                    && chunks[k] == sendBuffer[k].stream[consumed..consumed + CHUNK * spsTx]
        invariant forall k :: 0 <= k < |sendBuffer| ==> sendBuffer[k].stream == old(sendBuffer[k].stream)
        invariant forall k :: i <= k < |sendBuffer| ==> Level(sendBuffer[k], true, spsTx, total, consumed)
      {
        assert sendBuffer[i] in Objects(sendBuffer) && sendBuffer[i].buffer in Objects(sendBuffer);
        var chunk := ReadChunk(i, total, consumed);
        chunks := chunks + [chunk];
      }
    }

    /** `driveTransmitRadio`: one burst per channel, of the length of the slot it
        is for. No buffer call inside is ever refused: every stream grows by the
        whole burst, and a chunk goes out with every fourth slot. `accepted` is
        what the device said of each chunk. */
    method DriveTransmitRadio(bursts: seq<seq<Sample>>, zeros: seq<bool>) returns (ghost accepted: seq<nat>)
      requires TxValid() && |bursts| == |zeros| == |sendBuffer|
      requires forall i :: 0 <= i < |bursts| ==> |bursts[i]| == BurstLen(spsTx, At(txFrom + slotsOut).tn)
      modifies this`slotsOut, this`toDevice, this`writeTimestamp, Objects(sendBuffer)
      ensures TxValid()
      ensures slotsOut == old(slotsOut) + if on then 1 else 0
      ensures forall i :: 0 <= i < |sendBuffer| && on ==>
                sendBuffer[i].stream
                == old(sendBuffer[i].stream) + if zeros[i] then seq(|bursts[i]|, _ => Sample(0.0, 0.0)) else bursts[i]
      ensures forall i :: 0 <= i < |sendBuffer| && !on ==> sendBuffer[i].stream == old(sendBuffer[i].stream)
      ensures |accepted| == (if on && slotsOut % 4 == 0 then 1 else 0)
              && writeTimestamp == old(writeTimestamp) + Total(accepted)
    {
      hide TxValid, Written, BurstLen, At;
      accepted := [];
      if !on {
        return;
      }
      accepted := TransmitSlot(bursts, zeros);
      AllWritten(bursts, zeros);
    }

    method TransmitSlot(bursts: seq<seq<Sample>>, zeros: seq<bool>) returns (ghost accepted: seq<nat>)
      requires TxValid() && |bursts| == |zeros| == |sendBuffer|
      requires forall i :: 0 <= i < |bursts| ==> |bursts[i]| == BurstLen(spsTx, At(txFrom + slotsOut).tn)
      modifies this`slotsOut, this`toDevice, this`writeTimestamp, Objects(sendBuffer)
      ensures TxValid() && slotsOut == old(slotsOut) + 1
      ensures forall i :: 0 <= i < |sendBuffer| ==>
                sendBuffer[i].stream == old(sendBuffer[i].stream) + Written(bursts[i], zeros[i])
      ensures |accepted| == (if slotsOut % 4 == 0 then 1 else 0)
      ensures writeTimestamp == old(writeTimestamp) + Total(accepted)
    {
      hide Level, InStep, TxAt, Span, InChunks, TakenIn, Written, BurstLen, At, Distinct;
      ghost var total, consumed := Span(spsTx, txFrom, slotsOut), InChunks(spsTx, slotsOut);
      TxShape(total, consumed);
      ghost var len := |bursts[0]|;
      NextBurst(spsTx, txFrom, slotsOut, len);
      assert this !in Objects(sendBuffer);
      RadioifyAll(bursts, zeros, len, total, consumed);
      slotsOut := slotsOut + 1;
      accepted := FlushChunks(total + len, consumed);
      ChunkCount(spsTx, |accepted|);
    }

    /** What each channel's device stream has got: the burst stream, up to the last
        whole chunk of 625 symbols, one for every four slots. */
    lemma SentToDevice(i: nat)
      requires TxValid() && i < |sendBuffer|
      ensures |toDevice| == |sendBuffer| && 0 <= 625 * spsTx * (slotsOut / 4) <= |sendBuffer[i].stream|
      ensures toDevice[i] == sendBuffer[i].stream[..625 * spsTx * (slotsOut / 4)]
      ensures |sendBuffer[i].stream| == Span(spsTx, txFrom, slotsOut)
    {
      hide Level, Span, Distinct;
    }

    lemma TxShape(total: int, consumed: int)
      requires TxAt(total, consumed)
      ensures (spsTx == 1 || spsTx == 4) && |sendBuffer| > 0 && 0 <= consumed <= total
    {
    }

    /** `while (pushBuffer());` */
    method FlushChunks(ghost total: int, ghost consumed: int) returns (ghost accepted: seq<nat>)
      requires TxAt(total, consumed)
      modifies this`toDevice, this`writeTimestamp, Objects(sendBuffer)
      ensures TxAt(total, consumed + TakenIn(spsTx, |accepted|))
      ensures 0 <= total - consumed - TakenIn(spsTx, |accepted|) < CHUNK * spsTx
      ensures writeTimestamp == old(writeTimestamp) + Total(accepted)
      ensures forall i :: 0 <= i < |sendBuffer| ==> sendBuffer[i].stream == old(sendBuffer[i].stream)
    {
      hide TxAt, TakenIn;
      TxShape(total, consumed);
      ChunkCount(spsTx, 0);
      accepted := [];
      var more := true;
      while more
        invariant TxAt(total, consumed + TakenIn(spsTx, |accepted|)) && consumed + TakenIn(spsTx, |accepted|) <= total
        invariant more || total - consumed - TakenIn(spsTx, |accepted|) < CHUNK * spsTx
        invariant writeTimestamp == old(writeTimestamp) + Total(accepted)
        invariant forall i :: 0 <= i < |sendBuffer| ==> sendBuffer[i].stream == old(sendBuffer[i].stream)
        decreases total - consumed - TakenIn(spsTx, |accepted|), more
      {
        ChunkCount(spsTx, |accepted|);
        var numSent;
        more, numSent := PushBuffer(total, consumed + TakenIn(spsTx, |accepted|));
        if more {
          TotalGrows(accepted, numSent);
          accepted := accepted + [numSent];
        }
      }
    }

    // ----- receive ---------------------------------------------------------------------------

    /** The receive buffers have taken `total` samples and given out `n` bursts
        per channel. */
    ghost predicate RxData(total: int, n: nat)
      reads this`received, this`receiveFIFO, this`rxFrom, Objects(recvBuffer)
    {
      && Distinct(recvBuffer) && |recvBuffer| > 0 && (spsRx == 1 || spsRx == 4)
      && InStep(recvBuffer, false, spsRx, total, Span(spsRx, rxFrom, n))
      && |received| == |receiveFIFO| == |recvBuffer|
      && (forall i :: 0 <= i < |recvBuffer| ==>
            |received[i]| == n && |recvBuffer[i].stream| == total
              && Framed(received[i], recvBuffer[i].stream, spsRx, rxFrom))
    }

    /** The clock shows the slot of the next burst, seen from the transmit
        side. */
    ghost predicate RxAt(total: int, n: nat)
      reads this`clock, this`received, this`receiveFIFO, this`rxFrom, Objects(recvBuffer)
    {
      RxData(total, n) && receiveOffset <= 8 && clock == At(rxFrom + n + receiveOffset)
    }

    /** After the first chunk three bursts are out and after every later one
        four more, so that exactly the next burst is always left. */
    ghost predicate RxValid()
      reads this`clock, this`received, this`receiveFIFO, this`rxFrom, this`slotsIn, this`chunksIn, Objects(recvBuffer)
    {
      && slotsIn == (if chunksIn == 0 then 0 else 4 * chunksIn - 1)
      && RxAt(TakenIn(spsRx, chunksIn), slotsIn)
    }

    /** Every burst received so far: the `k`th is for the `k`th slot, and its samples
        are those of that slot in the channel's stream, from where the slots before
        it end; slots that are multiples of four have 157 symbols and the others
        156. */
    lemma Received(i: nat, k: nat)
      requires RxValid() && i < |recvBuffer| && k < slotsIn
      ensures |received| == |recvBuffer| && |received[i]| == slotsIn && received[i][k].time == At(rxFrom + k)
      ensures |recvBuffer[i].stream| == 625 * spsRx * chunksIn
      ensures var from := if spsRx == 4 then 625 * k else 156 * k + (rxFrom + k + 3) / 4 - (rxFrom + 3) / 4;
              var size := if spsRx == 4 then 625 else if (rxFrom + k) % 4 == 0 then 157 else 156;
              && 0 <= from && from + size <= |recvBuffer[i].stream|
              && received[i][k].samples == recvBuffer[i].stream[from..from + size]
    {
      hide Level, Span, Distinct, At, Fits, Part, InStep;
      BurstIs(received[i][k], recvBuffer[i].stream, spsRx, rxFrom, k);
    }

    /** One channel's part of `pullBuffer`. */
    method StoreChunk(i: nat, chunk: seq<Sample>, ghost total: int, ghost consumed: int)
      requires i < |recvBuffer| && Level(recvBuffer[i], false, spsRx, total, consumed)
      requires |chunk| == CHUNK * spsRx && total - consumed + |chunk| <= NUMCHUNKS * CHUNK * spsRx
      modifies recvBuffer[i], recvBuffer[i].buffer
      ensures Level(recvBuffer[i], false, spsRx, total + |chunk|, consumed)
      ensures recvBuffer[i].stream == old(recvBuffer[i].stream) + chunk
    {
      hide Holds, HeadShows, Tiles, Aligned, Cell;
      var b := recvBuffer[i];
      var seg := b.GetWriteSegment();
      // The pointer is never NULL here.
      assert seg >= 0;
      b.StoreSegment(seg, chunk);
    }

    method StoreChunks(chunks: seq<seq<Sample>>, ghost total: int, ghost n: nat)
      requires RxData(total, n) && |chunks| == |recvBuffer|
      requires forall i :: 0 <= i < |chunks| ==> |chunks[i]| == CHUNK * spsRx
      requires total - Span(spsRx, rxFrom, n) + CHUNK * spsRx <= NUMCHUNKS * CHUNK * spsRx
      modifies Objects(recvBuffer)
      ensures RxData(total + CHUNK * spsRx, n)
      ensures forall i :: 0 <= i < |recvBuffer| ==> recvBuffer[i].stream == old(recvBuffer[i].stream) + chunks[i]
    {
      hide Level, Framed, Span;
      assert this !in Objects(recvBuffer);
      ghost var consumed := Span(spsRx, rxFrom, n);
      for i := 0 to |recvBuffer|
        invariant forall k :: 0 <= k < i ==> Level(recvBuffer[k], false, spsRx, total + CHUNK * spsRx, consumed)
        invariant forall k :: 0 <= k < i ==> recvBuffer[k].stream == old(recvBuffer[k].stream) + chunks[k]
        invariant forall k :: i <= k < |recvBuffer| ==>
                    Level(recvBuffer[k], false, spsRx, total, consumed)
                      && recvBuffer[k].stream == old(recvBuffer[k].stream)
      {
        assert recvBuffer[i] in Objects(recvBuffer) && recvBuffer[i].buffer in Objects(recvBuffer);
        StoreChunk(i, chunks[i], total, consumed);
      }
      forall k | 0 <= k < |recvBuffer|
        ensures |recvBuffer[k].stream| == total + CHUNK * spsRx
                && Framed(received[k], recvBuffer[k].stream, spsRx, rxFrom)
      {
        FramedGrows(received[k], old(recvBuffer[k].stream), chunks[k], spsRx, rxFrom);
      }
    }

    /** `pullBuffer`: a chunk per channel from the device, or an error. */
    method PullBuffer(device: Option<seq<seq<Sample>>>, ghost total: int, ghost n: nat) returns (rc: int)
      requires RxData(total, n)
      requires total - Span(spsRx, rxFrom, n) + CHUNK * spsRx <= NUMCHUNKS * CHUNK * spsRx
      requires device.Some? ==> Rectangular(device.value, |recvBuffer|)
      modifies this`readTimestamp, Objects(recvBuffer)
      ensures rc == 0 || rc == -1
      ensures rc == 0 <==> device.Some? && |device.value[0]| == CHUNK * spsRx
      ensures rc == 0 ==> RxData(total + CHUNK * spsRx, n)
      ensures rc != 0 ==> RxData(total, n)
      ensures readTimestamp == old(readTimestamp) + if rc == 0 then CHUNK * spsRx else 0
      ensures forall i :: 0 <= i < |recvBuffer| ==>
                recvBuffer[i].stream == old(recvBuffer[i].stream) + if rc == 0 then device.value[i] else []
    {
      hide RadioBuffer.Valid, Framed, Span;
      assert this !in Objects(recvBuffer);
      assert Level(recvBuffer[0], false, spsRx, total, Span(spsRx, rxFrom, n));
      RxFill(0, total, Span(spsRx, rxFrom, n));
      var free := recvBuffer[0].FreeSegments();
      if free <= 0 {
        return -1;
      }
      if device.None? {
        return -1;
      }
      var numRecv := |device.value[0]|;
      if numRecv != recvBuffer[0].segmentLen {
        return -1;
      }
      StoreChunks(device.value, total, n);
      readTimestamp := readTimestamp + numRecv;
      return 0;
    }

    lemma RxFill(i: nat, total: int, consumed: int)
      requires i < |recvBuffer| && Level(recvBuffer[i], false, spsRx, total, consumed)
      ensures recvBuffer[i].availSamples == total - consumed
    {
    }

    /** `unRadioifyVector` into a new burst. */
    method UnRadioifyVector(i: nat, time: Time, size: nat, ghost total: int, ghost n: nat) returns (burst: RxBurst)
      requires i < |recvBuffer| && Level(recvBuffer[i], false, spsRx, total, Span(spsRx, rxFrom, n))
      requires time == At(rxFrom + n) && Span(spsRx, rxFrom, n) + size == Span(spsRx, rxFrom, n + 1) <= total
      modifies recvBuffer[i]
      ensures Level(recvBuffer[i], false, spsRx, total, Span(spsRx, rxFrom, n + 1))
      ensures recvBuffer[i].stream == old(recvBuffer[i].stream)
      ensures Fits(recvBuffer[i].stream, spsRx, rxFrom, n) && burst == Part(recvBuffer[i].stream, spsRx, rxFrom, n)
    {
      hide Holds, HeadShows, Tiles, Aligned, Cell, Span, At;
      var ok, samples := recvBuffer[i].Read(size);
      // The samples are always there.
      assert ok;
      burst := RxBurst(time, samples);
    }

    /** One pass of the receive loop: one burst per channel, all for the same
        slot. */
    method ReceiveSlot(time: Time, size: nat, ghost total: int, ghost n: nat)
      requires RxData(total, n) && time == At(rxFrom + n)
      requires Span(spsRx, rxFrom, n) + size == Span(spsRx, rxFrom, n + 1) <= total
      modifies this`received, this`receiveFIFO, Objects(recvBuffer)
      ensures RxData(total, n + 1)
      ensures AllTook(received, receiveFIFO, old(received), old(receiveFIFO))
      ensures forall i :: 0 <= i < |recvBuffer| ==> recvBuffer[i].stream == old(recvBuffer[i].stream)
    {
      hide Level, Framed, Span, Took;
      assert this !in Objects(recvBuffer);
      ghost var rs, fs, from, to := received, receiveFIFO, Span(spsRx, rxFrom, n), Span(spsRx, rxFrom, n + 1);
      for i := 0 to |recvBuffer|
        invariant |received| == |receiveFIFO| == |recvBuffer|
        invariant forall k :: 0 <= k < i ==> Level(recvBuffer[k], false, spsRx, total, to)
        invariant forall k :: 0 <= k < i ==>
                    |received[k]| == n + 1 && Framed(received[k], recvBuffer[k].stream, spsRx, rxFrom)
        invariant forall k :: 0 <= k < i ==> Took(received[k], receiveFIFO[k], rs[k], fs[k])
        invariant forall k :: 0 <= k < |recvBuffer| ==> recvBuffer[k].stream == old(recvBuffer[k].stream)
        invariant forall k :: i <= k < |recvBuffer| ==> Level(recvBuffer[k], false, spsRx, total, from)
        invariant received[i..] == rs[i..] && receiveFIFO[i..] == fs[i..]
      {
        assert recvBuffer[i] in Objects(recvBuffer);
        ReceiveBurst(i, time, size, total, n);
      }
    }

    /** One channel's burst of one slot. */
    method ReceiveBurst(i: nat, time: Time, size: nat, ghost total: int, ghost n: nat)
      requires i < |recvBuffer| == |received| == |receiveFIFO| && this != recvBuffer[i] as object
      requires Level(recvBuffer[i], false, spsRx, total, Span(spsRx, rxFrom, n))
      requires |received[i]| == n && Framed(received[i], recvBuffer[i].stream, spsRx, rxFrom)
      requires time == At(rxFrom + n) && Span(spsRx, rxFrom, n) + size == Span(spsRx, rxFrom, n + 1) <= total
      modifies this`received, this`receiveFIFO, recvBuffer[i]
      ensures Level(recvBuffer[i], false, spsRx, total, Span(spsRx, rxFrom, n + 1))
      ensures recvBuffer[i].stream == old(recvBuffer[i].stream)
      ensures |received| == |receiveFIFO| == |recvBuffer|
      ensures |received[i]| == n + 1 && Framed(received[i], recvBuffer[i].stream, spsRx, rxFrom)
      ensures Took(received[i], receiveFIFO[i], old(received[i]), old(receiveFIFO[i]))
      ensures forall k :: 0 <= k < |recvBuffer| && k != i ==>
                received[k] == old(received[k]) && receiveFIFO[k] == old(receiveFIFO[k])
    {
      hide Level, Framed, Span, Fits, Part;
      var burst := UnRadioifyVector(i, time, size, total, n);
      FramedNext(received[i], recvBuffer[i].stream, spsRx, rxFrom, burst);
      received := received[i := received[i] + [burst]];
      receiveFIFO := receiveFIFO[i := Offer(receiveFIFO[i], burst)];
    }

    /** `driveReceiveRadio`: -1 if the device failed, 0 if the radio is off, and
        otherwise 1 after cutting a chunk into bursts: three of them the first
        time and four every later time. */
    method DriveReceiveRadio(device: Option<seq<seq<Sample>>>) returns (rc: int)
      requires RxValid() && (device.Some? ==> Rectangular(device.value, |recvBuffer|))
      modifies this`clock, this`readTimestamp, this`receiveFIFO, this`slotsIn, this`chunksIn, this`received,
               Objects(recvBuffer)
      ensures RxValid()
      ensures rc == if !on then 0 else if device.Some? && |device.value[0]| == CHUNK * spsRx then 1 else -1
      ensures rc != 1 ==>
                chunksIn == old(chunksIn) && received == old(received) && receiveFIFO == old(receiveFIFO)
                && clock == old(clock)
      ensures rc == 1 ==> chunksIn == old(chunksIn) + 1 && slotsIn == old(slotsIn) + if old(chunksIn) == 0 then 3 else 4
      ensures rc == 1 ==> readTimestamp == old(readTimestamp) + CHUNK * spsRx
      ensures forall i :: 0 <= i < |recvBuffer| ==>
                recvBuffer[i].stream == old(recvBuffer[i].stream) + if rc == 1 then device.value[i] else []
      ensures |received| == |receiveFIFO| == |recvBuffer| == |old(received)| == |old(receiveFIFO)|
      ensures forall i :: 0 <= i < |recvBuffer| && rc == 1 ==>
                var was, n := old(receiveFIFO)[i], |old(received)[i]|;
                var room := if |was| < 32 then 32 - |was| else 0;
                && n <= |received[i]| && received[i][..n] == old(received)[i]
                && receiveFIFO[i] == was + received[i][n..if |received[i]| - n < room then |received[i]| else n + room]
    {
      hide RxAt, AllFormed, Rectangular;
      RxCounts();
      if !on {
        return 0;
      }
      rc := ReceiveChunk(device);
      RxCounts();
      if rc == 1 {
        AllFormedMeans(received, receiveFIFO, old(received), old(receiveFIFO));
      }
    }

    lemma RxCounts()
      requires RxValid()
      ensures |received| == |receiveFIFO| == |recvBuffer|
    {
    }

    method ReceiveChunk(device: Option<seq<seq<Sample>>>) returns (rc: int)
      requires RxValid() && (device.Some? ==> Rectangular(device.value, |recvBuffer|))
      modifies this`clock, this`readTimestamp, this`receiveFIFO, this`slotsIn, this`chunksIn, this`received,
               Objects(recvBuffer)
      ensures RxValid() && (rc == 1 || rc == -1)
      ensures rc == 1 <==> device.Some? && |device.value[0]| == CHUNK * spsRx
      ensures rc == -1 ==>
                chunksIn == old(chunksIn) && received == old(received) && receiveFIFO == old(receiveFIFO)
                && clock == old(clock)
      ensures rc == 1 ==> chunksIn == old(chunksIn) + 1 && slotsIn == old(slotsIn) + if old(chunksIn) == 0 then 3 else 4
      ensures rc == 1 ==> readTimestamp == old(readTimestamp) + CHUNK * spsRx
      ensures forall i :: 0 <= i < |recvBuffer| ==>
                recvBuffer[i].stream == old(recvBuffer[i].stream) + if rc == 1 then device.value[i] else []
      ensures rc == 1 ==> AllFormed(received, receiveFIFO, old(received), old(receiveFIFO))
    {
      hide Level, Span, At, InStep, RxData, AllFormed, Rectangular, TakenIn, Distinct, Framed, Slot;
      assert this !in Objects(recvBuffer);
      ghost var total, next := TakenIn(spsRx, chunksIn), TakenIn(spsRx, chunksIn + 1);
      RxShape(total, slotsIn);
      RxRoom(spsRx, rxFrom, chunksIn);
      var pulled := PullBuffer(device, total, slotsIn);
      if pulled < 0 {
        rc := -1;
      } else {
        assert RxData(next, slotsIn);
        chunksIn := chunksIn + 1;
        CutBursts(next, slotsIn);
        rc := 1;
      }
    }

    /** The loop of `driveReceiveRadio`. */
    method CutBursts(ghost total: int, ghost n0: nat)
      requires RxAt(total, n0) && n0 == slotsIn && total == TakenIn(spsRx, chunksIn) && chunksIn > 0
               && n0 < 4 * chunksIn
      modifies this`clock, this`receiveFIFO, this`slotsIn, this`received, Objects(recvBuffer)
      ensures RxAt(total, slotsIn) && slotsIn == 4 * chunksIn - 1
      ensures AllFormed(received, receiveFIFO, old(received), old(receiveFIFO))
      ensures forall i :: 0 <= i < |recvBuffer| ==> recvBuffer[i].stream == old(recvBuffer[i].stream)
    {
      hide Span, At, RxData, AllFormed, AllTook, DecTN, IncTN, BurstLen, TakenIn, Distinct, Cut;
      assert this !in Objects(recvBuffer);
      RxShape(total, n0);
      var rcvClock := DecTN(clock, receiveOffset);
      DecIsExact(rxFrom + n0 + receiveOffset, receiveOffset);
      var recvSz := Available(total, n0);
      var burstSize := BurstSize(rcvClock.tn);
      AllFormedNothing(received, receiveFIFO);
      CutFirst(spsRx, rxFrom, n0, chunksIn, rcvClock, recvSz, burstSize);
      while recvSz > burstSize
        invariant RxAt(total, slotsIn) && n0 <= slotsIn < 4 * chunksIn
        invariant Cut(spsRx, rxFrom, slotsIn, chunksIn, rcvClock, recvSz, burstSize)
        invariant AllFormed(received, receiveFIFO, old(received), old(receiveFIFO))
        invariant forall i :: 0 <= i < |recvBuffer| ==> recvBuffer[i].stream == old(recvBuffer[i].stream)
        decreases recvSz
      {
        CutMeans(spsRx, rxFrom, slotsIn, chunksIn, rcvClock, recvSz, burstSize);
        CutNext(spsRx, rxFrom, slotsIn, chunksIn, rcvClock, recvSz, burstSize);
        CutOne(rcvClock, burstSize, total, slotsIn, old(received), old(receiveFIFO));
        rcvClock := IncTN(rcvClock);
        recvSz := recvSz - burstSize;
        slotsIn := slotsIn + 1;
        if spsRx != 4 {
          burstSize := BurstSize(rcvClock.tn);
        }
      }
      CutMeans(spsRx, rxFrom, slotsIn, chunksIn, rcvClock, recvSz, burstSize);
    }

    method CutOne(time: Time, size: nat, ghost total: int, ghost n: nat, ghost rs0: seq<seq<RxBurst>>,
                  ghost fs0: seq<seq<RxBurst>>)
      requires RxAt(total, n) && time == At(rxFrom + n)
      requires Span(spsRx, rxFrom, n) + size == Span(spsRx, rxFrom, n + 1) <= total
      requires AllFormed(received, receiveFIFO, rs0, fs0)
      modifies this`clock, this`received, this`receiveFIFO, Objects(recvBuffer)
      ensures RxAt(total, n + 1) && AllFormed(received, receiveFIFO, rs0, fs0)
      ensures forall i :: 0 <= i < |recvBuffer| ==> recvBuffer[i].stream == old(recvBuffer[i].stream)
    {
      hide Span, At, RxData, AllFormed, AllTook, IncTN;
      assert this !in Objects(recvBuffer);
      IncIsExact(rxFrom + n + receiveOffset, 1);
      ReceiveSlot(time, size, total, n);
      AllFormedNext(received, receiveFIFO, old(received), old(receiveFIFO), rs0, fs0);
      clock := IncTN(clock);
    }

    /** Samples in the receive burst of slot `tn`, as `driveReceiveRadio` works it
        out. */
    function BurstSize(tn: int): (size: int)
      requires spsRx == 1 || spsRx == 4
      ensures size == BurstLen(spsRx, tn) && size > 0
    {
      if spsRx == 4 then 625 else (SYMBOLS_PER_SLOT + if tn % 4 == 0 then 1 else 0) * spsRx
    }

    method Available(ghost total: int, ghost n: nat) returns (recvSz: int)
      requires RxData(total, n)
      ensures recvSz == total - Span(spsRx, rxFrom, n)
    {
      RxFill(0, total, Span(spsRx, rxFrom, n));
      recvSz := recvBuffer[0].availSamples;
    }

    lemma RxShape(total: int, n: nat)
      requires RxData(total, n)
      ensures (spsRx == 1 || spsRx == 4) && |recvBuffer| == |received| == |receiveFIFO| > 0
    {
    }
  }

  /** Some more bursts were formed, and offered to the FIFO in order. */
  ghost predicate Formed(received: seq<RxBurst>, fifo: seq<RxBurst>, received0: seq<RxBurst>, fifo0: seq<RxBurst>) {
    received0 <= received && fifo == OfferAll(fifo0, received[|received0|..])
  }

  /** The same for every channel. */
  ghost predicate AllFormed(rs: seq<seq<RxBurst>>, fs: seq<seq<RxBurst>>, rs0: seq<seq<RxBurst>>,
                            fs0: seq<seq<RxBurst>>) {
    |rs| == |fs| == |rs0| == |fs0| && forall i :: 0 <= i < |rs| ==> Formed(rs[i], fs[i], rs0[i], fs0[i])
  }

  ghost predicate AllTook(rs: seq<seq<RxBurst>>, fs: seq<seq<RxBurst>>, rs0: seq<seq<RxBurst>>,
                          fs0: seq<seq<RxBurst>>) {
    |rs| == |fs| == |rs0| == |fs0| && forall i :: 0 <= i < |rs| ==> Took(rs[i], fs[i], rs0[i], fs0[i])
  }

  lemma AllFormedMeans(rs: seq<seq<RxBurst>>, fs: seq<seq<RxBurst>>, rs0: seq<seq<RxBurst>>, fs0: seq<seq<RxBurst>>)
    requires AllFormed(rs, fs, rs0, fs0)
    ensures |rs| == |fs| == |rs0| == |fs0|
    ensures forall i :: 0 <= i < |rs| ==>
              var was, n := fs0[i], |rs0[i]|;
              var room := if |was| < 32 then 32 - |was| else 0;
              && n <= |rs[i]| && rs[i][..n] == rs0[i]
              && fs[i] == was + rs[i][n..if |rs[i]| - n < room then |rs[i]| else n + room]
  {
    forall i | 0 <= i < |rs|
      ensures var was, n := fs0[i], |rs0[i]|;
              var room := if |was| < 32 then 32 - |was| else 0;
              && n <= |rs[i]| && rs[i][..n] == rs0[i]
              && fs[i] == was + rs[i][n..if |rs[i]| - n < room then |rs[i]| else n + room]
    {
      FormedMeans(rs[i], fs[i], rs0[i], fs0[i]);
    }
  }

  lemma FormedMeans(r: seq<RxBurst>, f: seq<RxBurst>, r0: seq<RxBurst>, f0: seq<RxBurst>)
    requires Formed(r, f, r0, f0)
    ensures |r0| <= |r| && r[..|r0|] == r0
    ensures var room := if |f0| < 32 then 32 - |f0| else 0;
            f == f0 + r[|r0|..if |r| - |r0| < room then |r| else |r0| + room]
  {
    hide OfferAll;
    OfferKeepsPrefix(f0, r[|r0|..]);
    var room := if |f0| < 32 then 32 - |f0| else 0;
    var m := if |r| - |r0| < room then |r| - |r0| else room;
    assert r[|r0|..][..m] == r[|r0|..|r0| + m];
  }

  lemma AllFormedNothing(rs: seq<seq<RxBurst>>, fs: seq<seq<RxBurst>>)
    requires |rs| == |fs|
    ensures AllFormed(rs, fs, rs, fs)
  {
    hide Formed;
    forall i | 0 <= i < |rs|
      ensures Formed(rs[i], fs[i], rs[i], fs[i])
    {
      FormedNothing(rs[i], fs[i]);
    }
  }

  lemma AllFormedNext(rs: seq<seq<RxBurst>>, fs: seq<seq<RxBurst>>, rs1: seq<seq<RxBurst>>, fs1: seq<seq<RxBurst>>,
                      rs0: seq<seq<RxBurst>>, fs0: seq<seq<RxBurst>>)
    requires AllFormed(rs1, fs1, rs0, fs0) && AllTook(rs, fs, rs1, fs1)
    ensures AllFormed(rs, fs, rs0, fs0)
  {
    hide Formed, Took;
    forall i | 0 <= i < |rs|
      ensures Formed(rs[i], fs[i], rs0[i], fs0[i])
    {
      FormedNext(rs[i], fs[i], rs1[i], fs1[i], rs0[i], fs0[i]);
    }
  }

  lemma FormedNothing(received: seq<RxBurst>, fifo: seq<RxBurst>)
    ensures Formed(received, fifo, received, fifo)
  {
  }

  lemma FormedNext(r: seq<RxBurst>, f: seq<RxBurst>, r1: seq<RxBurst>, f1: seq<RxBurst>, r0: seq<RxBurst>,
                   f0: seq<RxBurst>)
    requires Formed(r1, f1, r0, f0) && Took(r, f, r1, f1)
    ensures Formed(r, f, r0, f0)
  {
    var bs := r[|r0|..];
    assert bs[..|bs| - 1] == r1[|r0|..];
  }

  /** One more burst was formed, and offered to the FIFO. */
  ghost predicate Took(received: seq<RxBurst>, fifo: seq<RxBurst>, received0: seq<RxBurst>, fifo0: seq<RxBurst>) {
    |received| == |received0| + 1 && received[..|received0|] == received0 && fifo == Offer(fifo0, received[|received0|])
  }

  /** The buffers of both directions. */
  method MakeSides(chans: nat, spsTx: int, spsRx: int) returns (send: seq<RadioBuffer>, recv: seq<RadioBuffer>)
    requires (spsTx == 1 || spsTx == 4) && (spsRx == 1 || spsRx == 4)
    ensures |send| == |recv| == chans && Distinct(send) && Distinct(recv) && Distinct(send + recv)
    ensures InStep(send, true, spsTx, 0, 0) && InStep(recv, false, spsRx, 0, 0)
    ensures fresh(Objects(send)) && fresh(Objects(recv))
    ensures forall i :: 0 <= i < chans ==> send[i].stream == recv[i].stream == []
  {
    hide Level, Distinct;
    send := MakeBuffers(chans, spsTx, true);
    recv := MakeBuffers(chans, spsRx, false);
    DistinctJoin(send, recv);
  }

  method MakeBuffers(chans: nat, sps: int, out: bool) returns (bs: seq<RadioBuffer>)
    requires sps == 1 || sps == 4
    ensures |bs| == chans && Distinct(bs) && InStep(bs, out, sps, 0, 0)
    ensures fresh(Objects(bs)) && forall i :: 0 <= i < chans ==> bs[i].stream == []
  {
    hide Level;
    bs := [];
    for i := 0 to chans
      invariant |bs| == i && Distinct(bs) && InStep(bs, out, sps, 0, 0)
      invariant forall k :: 0 <= k < i ==> fresh(bs[k]) && fresh(bs[k].buffer) && bs[k].stream == []
    {
      var b := MakeBuffer(sps, out);
      bs := bs + [b];
    }
  }

  method ResetAll(bs: seq<RadioBuffer>, ghost out: bool, ghost sps: int, ghost total: int, ghost consumed: int)
    requires Distinct(bs) && InStep(bs, out, sps, total, consumed)
    modifies Objects(bs)
    ensures InStep(bs, out, sps, 0, 0) && forall i :: 0 <= i < |bs| ==> bs[i].stream == []
  {
    hide Level;
    for i := 0 to |bs|
      invariant forall k :: 0 <= k < i ==> Level(bs[k], out, sps, 0, 0) && bs[k].stream == []
      invariant forall k :: i <= k < |bs| ==> Level(bs[k], out, sps, total, consumed)
    {
      assert bs[i] in Objects(bs) && bs[i].buffer in Objects(bs);
      ResetOne(bs[i], out, sps, total, consumed);
    }
  }

  method ResetOne(b: RadioBuffer, ghost out: bool, ghost sps: int, ghost total: int, ghost consumed: int)
    requires Level(b, out, sps, total, consumed)
    modifies b
    ensures Level(b, out, sps, 0, 0) && b.stream == []
  {
    b.Reset();
  }

  method MakeBuffer(sps: int, out: bool) returns (b: RadioBuffer)
    requires sps == 1 || sps == 4
    ensures fresh(b) && fresh(b.buffer) && Level(b, out, sps, 0, 0) && b.stream == []
  {
    b := new RadioBuffer(NUMCHUNKS, CHUNK * sps, 0, out);
  }

  /** One row per channel, all of the same length. */
  ghost predicate Rectangular(rows: seq<seq<Sample>>, n: nat) {
    |rows| == n > 0 && forall i :: 0 <= i < n ==> |rows[i]| == |rows[0]|
  }
}
