/** Block streaming through the resampler: one device block at a time, with the
    end of each block carried over as history for the next, against resampling
    the whole stream at once. */
module ResampleStream {
  import opened Convolve
  import opened Modular
  import opened RadioBuffers
  import opened Resamplers
  import opened GsmTime
  import RadioInterfaces
  import opened SignalVectors
  import opened SlotPattern
  import opened Wrappers

  // ----- what the blocks see of the stream -----------------------------------------------------

  /** Cutting memory off below complex sample `a` moves the samples, not the
      sums. */
  lemma {:induction false} PathSumSlice(w: seq<real>, a: nat, v: seq<real>, s: int, g: seq<real>, p: int, path: int,
                                        n: nat, c: int)
    requires p > 0 && 0 <= path < p && 0 <= c < 2 && n * p <= |g|
    requires n <= s + 1 && 2 * s + 1 < |v|
    requires 2 * a + |v| <= |w| && v == w[2 * a..2 * a + |v|]
    ensures PathSum(v, s, g, p, path, n, c) == PathSum(w, s + a, g, p, path, n, c)
  {
    if n > 0 {
      RowBound(n, p, |g|, path);
      PathSumSlice(w, a, v, s, g, p, path, n - 1, c);
      assert v[2 * (s - (n - 1)) + c] == w[2 * (s + a - (n - 1)) + c];
    }
  }

  /** An output of the slow form is one path of the filterbank. */
  lemma ResampledIsPath(w: seq<real>, o: int, g: seq<real>, p: int, q: int, len: nat, i: int, c: int)
    requires p > 0 && 0 <= c < 2 && |g| == p * len
    requires len <= o + InIndex(p, q, i) + 1 && 2 * (o + InIndex(p, q, i)) + 1 < |w|
    ensures 0 <= OutPath(p, q, i) < p && len * p <= |g|
    ensures Resampled(w, o, g, p, q, i, c) == PathSum(w, o + InIndex(p, q, i), g, p, OutPath(p, q, i), len, c)
  {
    Commutator(p, q, i);
    hide InIndex, OutPath, Filtered, PathSum;
    assert len * p == |g|;
    FilteredIsPath(w, o, g, p, InIndex(p, q, i), OutPath(p, q, i), len, c);
  }

  /** `b` blocks on, the commutator is where it was, `b` input blocks on. */
  lemma IndexShift(p: int, q: int, inLen: int, outLen: int, b: int, i: int)
    requires p > 0 && q > 0 && CheckVecLen(inLen, outLen, p, q)
    ensures InIndex(p, q, b * outLen + i) == b * inLen + InIndex(p, q, i)
    ensures OutPath(p, q, b * outLen + i) == OutPath(p, q, i)
  {
    CheckedLengths(inLen, outLen, p, q);
    Commutator(p, q, i);
    var n, path := InIndex(p, q, i), OutPath(p, q, i);
    var m := inLen / q;
    assert q * (b * outLen + i) == b * (q * (m * p)) + q * i;
    assert b * (q * (m * p)) == (b * inLen) * p;
    assert q * (b * outLen + i) == (b * inLen + n) * p + path;
    ModUnique(q * (b * outLen + i), p, b * inLen + n, path);
  }

  /** The stream so far, as far as it has been resampled. */
  ghost predicate StreamedOut(out: seq<real>, w: seq<real>, o: int, g: seq<real>, p: int, q: int, n: int) {
    p > 0 && |out| == 2 * n >= 0 &&
    forall i :: 0 <= i < n ==>
      Part(out, i, 0) == Resampled(w, o, g, p, q, i, 0)
      && Part(out, i, 1) == Resampled(w, o, g, p, q, i, 1)
  }

  /** The stream holds `o` samples of history and at least `b` blocks. */
  ghost predicate Reaches(w: seq<real>, o: int, b: int, inLen: int) {
    0 <= o && 0 <= b && 0 <= inLen && |w| >= 2 * (o + b * inLen)
  }

  /** The stream's memory: `o` samples of history and `b` blocks. */
  ghost predicate Sized(w: seq<real>, o: int, b: int, inLen: int) {
    0 <= o && 0 <= b && 0 <= inLen && |w| == 2 * (o + b * inLen)
  }

  /** More stream does not change what has been resampled. */
  lemma StreamGrows(out: seq<real>, w: seq<real>, more: seq<real>, o: int, g: seq<real>, p: int, q: int, len: nat,
                    b: int, inLen: int, outLen: int)
    requires p > 0 && q > 0 && CheckVecLen(inLen, outLen, p, q) && |g| == p * len && len <= o + 1
    requires Reaches(w, o, b, inLen) && StreamedOut(out, w, o, g, p, q, b * outLen)
    ensures StreamedOut(out, w + more, o, g, p, q, b * outLen)
  {
    hide CheckVecLen, Resampled, InIndex, OutPath;
    CheckedLengths(inLen, outLen, p, q);
    var m := inLen / q;
    assert b * outLen == (b * m) * p && b * inLen == (b * m) * q;
    forall i | 0 <= i < b * outLen
      ensures Part(out, i, 0) == Resampled(w + more, o, g, p, q, i, 0)
              && Part(out, i, 1) == Resampled(w + more, o, g, p, q, i, 1)
    {
      IndexBelow(p, q, i, b * m);
      SameOutput(w, more, o, g, p, q, len, i, 0);
      SameOutput(w, more, o, g, p, q, len, i, 1);
    }
  }

  lemma SameOutput(w: seq<real>, more: seq<real>, o: int, g: seq<real>, p: int, q: int, len: nat, i: int, c: int)
    requires p > 0 && 0 <= c < 2 && |g| == p * len
    requires len <= o + InIndex(p, q, i) + 1 && 2 * (o + InIndex(p, q, i)) + 1 < |w|
    ensures Resampled(w + more, o, g, p, q, i, c) == Resampled(w, o, g, p, q, i, c)
  {
    hide InIndex, OutPath, Resampled, PathSum;
    ResampledIsPath(w, o, g, p, q, len, i, c);
    ResampledIsPath(w + more, o, g, p, q, len, i, c);
    PathSumSlice(w + more, 0, w, o + InIndex(p, q, i), g, p, OutPath(p, q, i), len, c);
  }

  /** An output of block `b`, resampled by itself with the history before it, is
      an output of the whole stream. */
  lemma BlockOutput(w: seq<real>, x: seq<real>, o: int, g: seq<real>, p: int, q: int, len: nat, b: int, inLen: int,
                    outLen: int, i: int, c: int)
    requires p > 0 && q > 0 && CheckVecLen(inLen, outLen, p, q) && |g| == p * len && len <= o + 1 && 0 <= c < 2
    requires Sized(w, o, b + 1, inLen) && 0 <= b && x == w[2 * (b * inLen)..] && |x| == 2 * (o + inLen)
             && 0 <= i < outLen
    ensures Resampled(x, o, g, p, q, i, c) == Resampled(w, o, g, p, q, b * outLen + i, c)
  {
    hide InIndex, OutPath, Resampled, PathSum, CheckVecLen;
    assert (b + 1) * inLen == b * inLen + inLen;
    IndexInBlock(p, q, i, inLen, outLen);
    IndexShift(p, q, inLen, outLen, b, i);
    ScaleBoundZero(b, inLen);
    ResampledIsPath(x, o, g, p, q, len, i, c);
    ResampledIsPath(w, o, g, p, q, len, b * outLen + i, c);
    PathSumSlice(w, b * inLen, x, o + InIndex(p, q, i), g, p, OutPath(p, q, i), len, c);
  }

  lemma ScaleBoundZero(b: int, n: int)
    requires 0 <= b && 0 <= n
    ensures 0 <= b * n
  {
    if n > 0 {
      ScaleBound(b, n);
    }
  }

  /** One more block, resampled by itself, continues the resampled stream. */
  lemma BlockContinues(out: seq<real>, y: seq<real>, w: seq<real>, block: seq<real>, x: seq<real>, o: int,
                       g: seq<real>, p: int, q: int, len: nat,
                       b: int, inLen: int, outLen: int)
    requires p > 0 && q > 0 && CheckVecLen(inLen, outLen, p, q) && |g| == p * len && len <= o + 1
    requires Sized(w, o, b, inLen) && |block| == 2 * inLen && x == (w + block)[2 * (b * inLen)..]
    requires StreamedOut(out, w, o, g, p, q, b * outLen) && StreamedOut(y, x, o, g, p, q, outLen)
    ensures Sized(w + block, o, b + 1, inLen)
    ensures StreamedOut(out + y, w + block, o, g, p, q, (b + 1) * outLen)
  {
    hide Resampled, CheckVecLen;
    assert (b + 1) * inLen == b * inLen + inLen && (b + 1) * outLen == b * outLen + outLen;
    ScaleBoundZero(b, outLen);
    StreamGrows(out, w, block, o, g, p, q, len, b, inLen, outLen);
    forall i | 0 <= i < (b + 1) * outLen
      ensures Part(out + y, i, 0) == Resampled(w + block, o, g, p, q, i, 0)
              && Part(out + y, i, 1) == Resampled(w + block, o, g, p, q, i, 1)
    {
      if i < b * outLen {
        assert Part(out + y, i, 0) == Part(out, i, 0) && Part(out + y, i, 1) == Part(out, i, 1);
      } else {
        var k := i - b * outLen;
        assert Part(out + y, i, 0) == Part(y, k, 0) && Part(out + y, i, 1) == Part(y, k, 1);
        BlockOutput(w + block, x, o, g, p, q, len, b, inLen, outLen, k, 0);
        BlockOutput(w + block, x, o, g, p, q, len, b, inLen, outLen, k, 1);
      }
    }
  }

  /** Pairs of floats as complex samples, for memory the resampler has written. */
  function Samples(floats: seq<real>): seq<Sample>
    requires |floats| % 2 == 0
  {
    seq(|floats| / 2, k requires 0 <= k < |floats| / 2 => Sample(floats[2 * k], floats[2 * k + 1]))
  }

  lemma SamplesAreFloats(s: seq<Sample>, floats: seq<real>)
    requires |floats| % 2 == 0
    ensures Floats(s + Samples(floats)) == Floats(s) + floats
  {
  }

  /** The receive side of the resampling interface: `pullBuffer`. */
  class Downsampler {
    const resampler: Resampler
    const outer: SignalVector
    const recvBuffer: RadioBuffer
    /** Lengths of a device block and of the block it becomes. */
    const inLen: nat
    const outLen: nat

    /** Everything received so far, after the zeros the head room starts with,
        and the number of blocks. */
    ghost var stream: seq<real>
    ghost var blocks: nat

    /** Samples per symbol of what is received, slots between transmit and receive
        timestamps, the clock of the next burst to cut as the transmit side sees
        it; the slot of the first burst and how many were cut. */
    const sps: int
    const receiveOffset: nat
    var clock: Time
    var readTimestamp: int
    var receiveFIFO: seq<RadioInterfaces.RxBurst>
    ghost var from: int
    ghost var bursts: nat

    /** Bursts were cut one after the other, and no more than one waits. */
    ghost predicate InSlots()
      reads this`clock, this`from, this`bursts, recvBuffer
    {
      && CutSoFar() && recvBuffer.bufferLen >= 625 + outLen
      && recvBuffer.availSamples <= BurstLen(sps, At(from + bursts).tn)
    }

    ghost predicate CutSoFar()
      reads this`clock, this`from, this`bursts, recvBuffer
    {
      && (sps == 1 || sps == 4) && receiveOffset <= 8 && clock == At(from + bursts + receiveOffset)
      && recvBuffer.consumed == RadioInterfaces.Span(sps, from, bursts)
    }

    ghost predicate Valid()
      reads this`stream, this`blocks, outer.data, resampler, resampler.inIndex, resampler.outPath,
            resampler.partitions, recvBuffer, recvBuffer.buffer
    {
      && resampler.Ready() && CheckVecLen(inLen, outLen, resampler.p, resampler.q)
      && inLen >= resampler.filtLen && outer.start >= resampler.filtLen - 1
      && outer.Valid() && outer.size == inLen && outer.data.Length == 2 * (outer.start + inLen)
      && Sized(stream, outer.start, blocks, inLen)
      && Carried(outer.data[..2 * outer.start], stream)
      && recvBuffer.Valid() && !recvBuffer.outDirection && recvBuffer.segmentLen == outLen
      && StreamedOut(Floats(recvBuffer.stream), stream, outer.start, resampler.proto, resampler.p, resampler.q,
                     blocks * outLen)
    }

    constructor (resampler: Resampler, recvBuffer: RadioBuffer, inLen: nat, outLen: nat, sps: int, receiveOffset: nat,
                 startTime: Time)
      requires (sps == 1 || sps == 4) && InRange(startTime) && receiveOffset <= 8 && recvBuffer.consumed == 0
               && recvBuffer.bufferLen >= 625 + outLen
      requires resampler.Ready() && CheckVecLen(inLen, outLen, resampler.p, resampler.q) && inLen >= resampler.filtLen
      requires recvBuffer.Valid() && !recvBuffer.outDirection && recvBuffer.segmentLen == outLen
               && recvBuffer.stream == []
      ensures Valid() && InSlots() && blocks == 0 && bursts == 0 && from == Slot(startTime) - receiveOffset
              && fresh(outer.data)
      ensures clock == startTime && this.receiveOffset == receiveOffset && this.sps == sps && receiveFIFO == []
      ensures this.resampler == resampler && this.recvBuffer == recvBuffer && this.inLen == inLen
              && this.outLen == outLen
      ensures outer.start == resampler.filtLen && stream == seq(2 * resampler.filtLen, _ => 0.0)
    {
      hide Resampler.Ready, CheckVecLen, RadioBuffer.Valid, Sized, StreamedOut, Carried, Floats, At,
           RadioInterfaces.Span;
      AtSlot(startTime);
      EmptyBuffer(recvBuffer);
      RadioInterfaces.NothingYet(sps, Slot(startTime) - receiveOffset);
      this.sps, this.receiveOffset, clock, readTimestamp, receiveFIFO := sps, receiveOffset, startTime, 0, [];
      from, bursts := Slot(startTime) - receiveOffset, 0;
      var vector := new SignalVector(inLen, resampler.filtLen);
      this.resampler, this.outer, this.recvBuffer, this.inLen, this.outLen := resampler, vector, recvBuffer, inLen,
        outLen;
      ghost var zeros := seq(2 * resampler.filtLen, _ => 0.0);
      stream, blocks := zeros, 0;
      assert vector.data[..2 * resampler.filtLen] == zeros;
      ReadyMeans(resampler);
      NoFloats();
      NothingStreamed(zeros, resampler.filtLen, resampler.proto, resampler.p, resampler.q, inLen, outLen);
    }

    /** What the receive buffer has got so far: the whole received stream resampled,
        one device block becoming one segment. */
    lemma ReceivedStream(i: nat)
      requires Valid() && i < blocks * outLen
      ensures |recvBuffer.stream| == blocks * outLen && |stream| == 2 * (outer.start + blocks * inLen)
      ensures recvBuffer.stream[i].re == Resampled(stream, outer.start, resampler.proto, resampler.p, resampler.q, i, 0)
      ensures recvBuffer.stream[i].im == Resampled(stream, outer.start, resampler.proto, resampler.p, resampler.q, i, 1)
    {
      hide Resampler.Ready, CheckVecLen, RadioBuffer.Valid, Carried, Resampled;
      FloatsLen(recvBuffer.stream);
      assert Part(Floats(recvBuffer.stream), i, 0) == Floats(recvBuffer.stream)[2 * i] == recvBuffer.stream[i].re;
      assert Part(Floats(recvBuffer.stream), i, 1) == Floats(recvBuffer.stream)[2 * i + 1] == recvBuffer.stream[i].im;
    }

    /** One device block in, one resampled segment into the receive buffer; the
        history for the next block is set up behind it. Fails exactly when the
        buffer has no room or the device does not deliver. */
    method PullBuffer(sse: bool, device: Option<seq<real>>) returns (rc: int)
      requires Valid()
      modifies this`stream, this`blocks, this`readTimestamp, outer.data, recvBuffer, recvBuffer.buffer
      ensures Valid() && recvBuffer.consumed == old(recvBuffer.consumed)
      ensures readTimestamp == old(readTimestamp) + if rc == 0 then inLen else 0
      ensures rc == if && recvBuffer.bufferLen - old(recvBuffer.availSamples) >= outLen
                       && device.Some? && |device.value| == 2 * inLen then 0 else -1
      ensures rc == 0 ==> stream == old(stream) + device.value && blocks == old(blocks) + 1
      ensures rc == 0 ==>
                |recvBuffer.stream| == |old(recvBuffer.stream)| + outLen
                && old(recvBuffer.stream) <= recvBuffer.stream
      ensures rc != 0 ==> stream == old(stream) && blocks == old(blocks) && recvBuffer.stream == old(recvBuffer.stream)
      ensures rc != 0 ==> recvBuffer.availSamples == old(recvBuffer.availSamples)
    {
      hide Resampler.Ready, CheckVecLen, RadioBuffer.Valid, Sized, Carried, StreamedOut;
      var segments := recvBuffer.FreeSegments();
      if segments <= 0 {
        return -1;
      }
      if device.None? || |device.value| != 2 * inLen {
        return -1;
      }
      readTimestamp := readTimestamp + inLen;
      PullBlock(sse, device.value);
      return 0;
    }

    method PullBlock(sse: bool, block: seq<real>)
      requires Valid() && |block| == 2 * inLen && recvBuffer.bufferLen - recvBuffer.availSamples >= outLen
      modifies this`stream, this`blocks, outer.data, recvBuffer, recvBuffer.buffer
      ensures Valid() && recvBuffer.consumed == old(recvBuffer.consumed)
      ensures stream == old(stream) + block && blocks == old(blocks) + 1
      ensures |recvBuffer.stream| == |old(recvBuffer.stream)| + outLen && old(recvBuffer.stream) <= recvBuffer.stream
    {
      hide Resampler.Ready, CheckVecLen, RadioBuffer.Valid, Sized, Carried, StreamedOut, IsResampled, Floats, Samples;
      outer.Fill(block);
      var x := outer.data[..];
      BlockMemory(old(outer.data[..2 * outer.start]), stream, block, x, outer.start, blocks, inLen);
      var out := new real[2 * outLen];
      ReadyMeans(resampler);
      CheckedLengths(inLen, outLen, resampler.p, resampler.q);
      var rc := resampler.Rotate(sse, x, outer.start, inLen, out, 0, outLen);
      // The lengths always pass.
      assert rc == outLen;
      WholeOutput(out[..], x, outer.start, resampler.proto, resampler.p, resampler.q, outLen);
      BlockContinues(Floats(recvBuffer.stream), out[..], stream, block, x, outer.start, resampler.proto, resampler.p,
                     resampler.q,
                     resampler.filtLen, blocks, inLen, outLen);
      StoreOutput(out[..]);
      stream, blocks := stream + block, blocks + 1;
      CarryHistory(x);
    }

    /** Sets up the history for the next block. */
    method CarryHistory(ghost x: seq<real>)
      requires outer.Valid() && x == outer.data[..] && 2 * inLen <= |x| <= |stream| && x == stream[|stream| - |x|..]
               && outer.size == inLen
      modifies outer.data
      ensures Carried(outer.data[..2 * outer.start], stream)
    {
      hide Carried;
      var _ := outer.UpdateHistory();
      HistoryCarried(outer.data[..2 * outer.start], x, stream, inLen);
    }

    /** `driveReceiveRadio` over the resampler: a block is pulled, and cut into
        bursts. The receive buffer never refuses: this fails exactly when the
        device does. The bursts are for consecutive slots and consecutive
        stretches of the resampled stream, each as long as its slot; they are
        offered to the FIFO in order, and one burst at most is left. */
    method DriveReceive(sse: bool, device: Option<seq<real>>) returns (rc: int, ghost cut: seq<RadioInterfaces.RxBurst>)
      requires Valid() && InSlots()
      modifies this`stream, this`blocks, this`clock, this`readTimestamp, this`receiveFIFO, this`bursts,
               outer.data, recvBuffer, recvBuffer.buffer
      ensures Valid() && InSlots()
      ensures rc == if device.Some? && |device.value| == 2 * inLen then 1 else -1
      ensures readTimestamp == old(readTimestamp) + if rc == 1 then inLen else 0
      ensures rc == 1 ==>
                stream == old(stream) + device.value
                && |recvBuffer.stream| == |old(recvBuffer.stream)| + outLen
      ensures rc == -1 ==> stream == old(stream) && cut == [] && recvBuffer.stream == old(recvBuffer.stream)
      ensures bursts == old(bursts) + |cut| && IsCut(cut, recvBuffer.stream, sps, from, old(bursts))
      ensures receiveFIFO == RadioInterfaces.OfferAll(old(receiveFIFO), cut)
    {
      hide Resampler.Ready, CheckVecLen, Sized, Carried, StreamedOut, Floats, At, RadioInterfaces.Span,
           RadioBuffer.Valid;
      cut := [];
      rc := PullBuffer(sse, device);
      if rc < 0 {
        return;
      }
      cut := CutBursts();
      rc := 1;
    }

    /** The loop of `driveReceiveRadio`. */
    method CutBursts() returns (ghost cut: seq<RadioInterfaces.RxBurst>)
      requires recvBuffer.Valid() && !recvBuffer.outDirection && CutSoFar()
      modifies this`clock, this`receiveFIFO, this`bursts, recvBuffer
      ensures recvBuffer.Valid() && recvBuffer.stream == old(recvBuffer.stream) && CutSoFar()
      ensures recvBuffer.availSamples <= BurstLen(sps, At(from + bursts).tn)
      ensures bursts == old(bursts) + |cut| && IsCut(cut, recvBuffer.stream, sps, from, old(bursts))
      ensures receiveFIFO == RadioInterfaces.OfferAll(old(receiveFIFO), cut)
    {
      hide At, RadioInterfaces.Span, RadioInterfaces.Offer, RadioInterfaces.OfferAll, BurstLen, IsCut, Holds,
           HeadShows, DecTN, IncTN;
      cut := [];
      NothingCut(recvBuffer.stream, sps, from, bursts, receiveFIFO);
      DecIsExact(from + bursts + receiveOffset, receiveOffset);
      var rcvClock := DecTN(clock, receiveOffset);
      var burstSize := BurstLen(sps, rcvClock.tn);
      while recvBuffer.availSamples > burstSize
        invariant recvBuffer.Valid() && recvBuffer.stream == old(recvBuffer.stream) && CutSoFar()
        invariant rcvClock == At(from + bursts) && burstSize == BurstLen(sps, rcvClock.tn)
        invariant bursts == old(bursts) + |cut| && IsCut(cut, recvBuffer.stream, sps, from, old(bursts))
        invariant receiveFIFO == RadioInterfaces.OfferAll(old(receiveFIFO), cut)
        decreases recvBuffer.availSamples
      {
        BurstIsSome(sps, rcvClock.tn);
        RadioInterfaces.NextBurst(sps, from, bursts, burstSize);
        var ok, samples := recvBuffer.Read(burstSize);
        // Never short of samples.
        assert ok;
        var burst := RadioInterfaces.RxBurst(rcvClock, samples);
        CutMore(cut, burst, recvBuffer.stream, sps, from, old(bursts), old(receiveFIFO));
        receiveFIFO := RadioInterfaces.Offer(receiveFIFO, burst);
        cut := cut + [burst];
        IncIsExact(from + bursts + receiveOffset, 1);
        IncIsExact(from + bursts, 1);
        clock := IncTN(clock);
        rcvClock := IncTN(rcvClock);
        bursts := bursts + 1;
        burstSize := BurstLen(sps, rcvClock.tn);
      }
    }

    /** The resampler's output in the segment of the receive buffer that is next. */
    method StoreOutput(out: seq<real>)
      requires recvBuffer.Valid() && !recvBuffer.outDirection && recvBuffer.segmentLen == outLen && |out| == 2 * outLen
      requires recvBuffer.bufferLen - recvBuffer.availSamples >= outLen
      modifies recvBuffer, recvBuffer.buffer
      ensures recvBuffer.Valid() && recvBuffer.consumed == old(recvBuffer.consumed)
      ensures Floats(recvBuffer.stream) == Floats(old(recvBuffer.stream)) + out
      ensures |recvBuffer.stream| == |old(recvBuffer.stream)| + outLen && old(recvBuffer.stream) <= recvBuffer.stream
    {
      hide Holds, HeadShows, Tiles, Aligned, Cell, Floats;
      var seg := recvBuffer.GetWriteSegment();
      // The pointer is never NULL here.
      assert seg >= 0;
      SamplesAreFloats(old(recvBuffer.stream), out);
      recvBuffer.StoreSegment(seg, Samples(out));
      assert recvBuffer.stream == old(recvBuffer.stream) + Samples(out);
    }
  }

  /** Bursts `n`, ... from slot `u` on, cut out of a stream. */
  ghost predicate IsCut(cut: seq<RadioInterfaces.RxBurst>, stream: seq<Sample>, sps: int, u: int, n: nat) {
    forall i :: 0 <= i < |cut| ==> IsBurst(cut[i], stream, sps, u, n + i)
  }

  ghost predicate IsBurst(burst: RadioInterfaces.RxBurst, stream: seq<Sample>, sps: int, u: int, n: nat) {
    RadioInterfaces.Fits(stream, sps, u, n) && burst == RadioInterfaces.Part(stream, sps, u, n)
  }

  /** The `i`th of these bursts is for its slot, and has the samples of its slot,
      where multiples of four have 157 symbols and the others 156. */
  lemma CutMeans(cut: seq<RadioInterfaces.RxBurst>, stream: seq<Sample>, sps: int, u: int, n: nat, i: nat)
    requires IsCut(cut, stream, sps, u, n) && i < |cut| && (sps == 1 || sps == 4)
    ensures cut[i].time == At(u + n + i)
    ensures var k := n + i;
            var from := if sps == 4 then 625 * k else 156 * k + (u + k + 3) / 4 - (u + 3) / 4;
            var size := if sps == 4 then 625 else if (u + k) % 4 == 0 then 157 else 156;
            0 <= from && from + size <= |stream| && cut[i].samples == stream[from..from + size]
  {
    hide At, RadioInterfaces.Fits, RadioInterfaces.Part;
    assert IsBurst(cut[i], stream, sps, u, n + i);
    RadioInterfaces.BurstIs(cut[i], stream, sps, u, n + i);
  }

  lemma NothingCut(stream: seq<Sample>, sps: int, u: int, n: nat, fifo: seq<RadioInterfaces.RxBurst>)
    ensures IsCut([], stream, sps, u, n) && RadioInterfaces.OfferAll(fifo, []) == fifo
  {
  }

  lemma CutMore(cut: seq<RadioInterfaces.RxBurst>, burst: RadioInterfaces.RxBurst, stream: seq<Sample>, sps: int,
                u: int, n: nat,
                fifo: seq<RadioInterfaces.RxBurst>)
    requires IsCut(cut, stream, sps, u, n) && IsBurst(burst, stream, sps, u, n + |cut|)
    ensures IsCut(cut + [burst], stream, sps, u, n)
    ensures RadioInterfaces.OfferAll(fifo, cut + [burst])
            == RadioInterfaces.Offer(RadioInterfaces.OfferAll(fifo, cut), burst)
  {
    hide IsBurst;
    assert (cut + [burst])[..|cut|] == cut;
  }

  lemma BurstIsSome(sps: int, tn: int)
    ensures BurstLen(sps, tn) > 0
  {
  }

  lemma NoFloats()
    ensures Floats([]) == []
  {
  }

  lemma EmptyBuffer(b: RadioBuffer)
    requires b.Valid() && b.stream == []
    ensures b.availSamples == 0 && b.consumed == 0
  {
  }

  lemma ReadyMeans(r: Resampler)
    requires r.Ready()
    ensures r.p > 0 && r.q > 0 && r.filtLen > 0 && |r.proto| == r.p * r.filtLen
  {
  }

  lemma NothingStreamed(w: seq<real>, o: nat, g: seq<real>, p: int, q: int, inLen: nat, outLen: nat)
    requires |w| == 2 * o && p > 0
    ensures Sized(w, o, 0, inLen) && StreamedOut([], w, o, g, p, q, 0 * outLen) && Carried(w, w)
  {
  }

  lemma WholeOutput(y: seq<real>, x: seq<real>, o: int, g: seq<real>, p: int, q: int, n: int)
    requires exists y1 :: IsResampled(y, y1, 0, x, o, g, p, q, 0, n)
    requires |y| == 2 * n
    ensures StreamedOut(y, x, o, g, p, q, n)
  {
    hide Resampled;
    var y1 :| IsResampled(y, y1, 0, x, o, g, p, q, 0, n);
    assert y[0..] == y;
    forall i | 0 <= i < n
      ensures Part(y, i, 0) == Resampled(x, o, g, p, q, i, 0) && Part(y, i, 1) == Resampled(x, o, g, p, q, i, 1)
    {
      assert Part(y[0..], i, 0) == Resampled(x, o, g, p, q, 0 + i, 0);
    }
  }

  /** The vector's memory is the stream from the current block's history on. */
  lemma BlockMemory(history: seq<real>, stream: seq<real>, block: seq<real>, x: seq<real>, o: nat, b: nat, inLen: nat)
    requires Sized(stream, o, b, inLen) && Carried(history, stream) && |history| == 2 * o && x == history + block
    ensures 0 <= 2 * (b * inLen) <= |stream| && x == (stream + block)[2 * (b * inLen)..]
  {
    ScaleBoundZero(b, inLen);
  }

  lemma HistoryCarried(history: seq<real>, x: seq<real>, stream: seq<real>, size: nat)
    requires 2 * size <= |x| <= |stream| && x == stream[|stream| - |x|..] && history == x[2 * size..]
    ensures Carried(history, stream)
  {
  }

  /** The head room holds the end of the stream. */
  ghost predicate Carried(history: seq<real>, stream: seq<real>) {
    |history| <= |stream| && history == stream[|stream| - |history|..]
  }

  // ----- transmit ---------------------------------------------------------------------------------

  lemma FloatsAt(s: seq<Sample>, i: int, j: int)
    requires 0 <= i <= j <= |s|
    ensures Floats(s)[2 * i..2 * j] == Floats(s[i..j])
  {
  }

  /** A segment and its history in buffer memory are a stretch of the stream, or
      of what memory held at first, followed by the stream. */
  lemma SegmentMemory(b: seq<Sample>, seg: int, h: int, len: int, stream: seq<Sample>, at: int, fill: int,
                      primer: seq<Sample>)
    requires SegmentRead(b, seg, h, len, stream, at, fill, true) && |primer| == h <= seg
    requires h <= at || (at == 0 && primer == b[seg - h..seg])
    ensures b[seg - h..seg + len] == (primer + stream)[at..at + h + len]
  {
    hide HistoryShows;
    var w := primer + stream;
    assert w[at + h..at + h + len] == stream[at..at + len];
    var hist := b[seg - h..seg];
    if h <= at {
      forall k | 0 <= k < h
        ensures hist[k] == w[at..at + h][k]
      {
        assert at - |hist| + k < |stream| && hist[k] == stream[at - |hist| + k];
      }
    }
    assert hist == w[at..at + h];
    assert b[seg - h..seg + len] == hist + b[seg..seg + len];
    assert w[at..at + h + len] == w[at..at + h] + w[at + h..at + h + len];
  }

  /** Output `i` of a segment read at position `at` is output at/inLen*outLen + i
      of the whole stream `w`, of which the first `h` samples are history. */
  lemma SegmentOutput(b: seq<Sample>, seg: int, h: nat, w: seq<Sample>, at: int, g: seq<real>, p: int, q: int, len: nat,
                      blocks: nat, inLen: int, outLen: int, i: int, c: int)
    requires p > 0 && q > 0 && CheckVecLen(inLen, outLen, p, q) && |g| == p * len && len <= h + 1 && 0 <= c < 2
             && 0 <= i < outLen
    requires at == blocks * inLen && 0 <= at && h <= seg && at + h + inLen <= |w| && seg + inLen <= |b|
    requires b[seg - h..seg + inLen] == w[at..at + h + inLen]
    ensures Resampled(Floats(b), seg, g, p, q, i, c) == Resampled(Floats(w), h, g, p, q, blocks * outLen + i, c)
  {
    hide InIndex, OutPath, Resampled, PathSum, CheckVecLen, Floats;
    IndexInBlock(p, q, i, inLen, outLen);
    IndexShift(p, q, inLen, outLen, blocks, i);
    var n, path := InIndex(p, q, i), OutPath(p, q, i);
    var v := Floats(b[seg - h..seg + inLen]);
    assert |v| == 2 * (h + inLen) && |Floats(b)| == 2 * |b| && |Floats(w)| == 2 * |w| by {
      FloatsLen(b[seg - h..seg + inLen]);
      FloatsLen(b);
      FloatsLen(w);
    }
    FloatsAt(b, seg - h, seg + inLen);
    FloatsAt(w, at, at + h + inLen);
    ResampledIsPath(Floats(b), seg, g, p, q, len, i, c);
    ResampledIsPath(Floats(w), h, g, p, q, len, blocks * outLen + i, c);
    PathSumSlice(Floats(b), seg - h, v, h + n, g, p, path, len, c);
    PathSumSlice(Floats(w), at, v, h + n, g, p, path, len, c);
  }

  /** What memory held before the stream is in no output whose filter path starts
      with the stream, and so in none after the first block. */
  lemma PrimerForgotten(primer: seq<Sample>, stream: seq<Sample>, g: seq<real>, p: int, q: int, len: nat, i: int,
                        c: int)
    requires p > 0 && q > 0 && |g| == p * len && 0 <= c < 2
    requires len <= InIndex(p, q, i) + 1 && InIndex(p, q, i) < |stream|
    ensures Resampled(Floats(primer + stream), |primer|, g, p, q, i, c) == Resampled(Floats(stream), 0, g, p, q, i, c)
  {
    hide InIndex, OutPath, Resampled, PathSum, Floats;
    var w := primer + stream;
    assert w[|primer|..|w|] == stream;
    FloatsAt(w, |primer|, |w|);
    FloatsLen(w);
    FloatsLen(stream);
    ResampledIsPath(Floats(w), |primer|, g, p, q, len, i, c);
    ResampledIsPath(Floats(stream), 0, g, p, q, len, i, c);
    PathSumSlice(Floats(w), |primer|, Floats(stream), InIndex(p, q, i), g, p, OutPath(p, q, i), len, c);
  }

  /** Every output after the first block has such a path. */
  lemma FirstBlockOnly(p: int, q: int, len: nat, inLen: int, outLen: int, i: int)
    requires p > 0 && q > 0 && CheckVecLen(inLen, outLen, p, q) && len <= inLen && outLen <= i
    ensures len <= InIndex(p, q, i)
  {
    hide InIndex;
    IndexShift(p, q, inLen, outLen, 1, i - outLen);
    IndexAtLeast(p, q, i - outLen);
  }

  lemma FloatsLen(s: seq<Sample>)
    ensures |Floats(s)| == 2 * |s|
  {
  }

  /** The transmit side of the resampling interface: `pushBuffer`. */
  class Upsampler {
    const resampler: Resampler
    const sendBuffer: RadioBuffer
    /** Lengths of a buffer segment and of the device block it becomes. */
    const inLen: nat
    const outLen: nat

    var writeTimestamp: int

    /** Segments sent so far, what the device got, and what was found in memory in
        front of the first segment. */
    ghost var blocks: nat
    ghost var output: seq<real>
    ghost var primer: seq<Sample>

    /** The device got the whole sample stream, after what was in memory at first,
        resampled at once; and the history of the next segment is there. */
    ghost predicate Valid()
      reads this, sendBuffer, sendBuffer.buffer, resampler, resampler.inIndex, resampler.outPath, resampler.partitions
    {
      && resampler.Ready() && CheckVecLen(inLen, outLen, resampler.p, resampler.q) && inLen >= resampler.filtLen
      && resampler.partitions != sendBuffer.buffer as object
      && sendBuffer.Valid() && sendBuffer.outDirection && sendBuffer.segmentLen == inLen
      && sendBuffer.hLen == resampler.filtLen && sendBuffer.HistoryIntact()
      && sendBuffer.consumed == blocks * inLen
      && |primer| == sendBuffer.hLen && Sent(sendBuffer.stream)
    }

    ghost predicate Sent(stream: seq<Sample>)
      reads this`output, this`primer, this`blocks, resampler
    {
      StreamedOut(output, Floats(primer + stream), |primer|, resampler.proto, resampler.p, resampler.q, blocks * outLen)
    }

    constructor (resampler: Resampler, sendBuffer: RadioBuffer, inLen: nat, outLen: nat)
      requires resampler.Ready() && CheckVecLen(inLen, outLen, resampler.p, resampler.q) && inLen >= resampler.filtLen
      requires resampler.partitions != sendBuffer.buffer as object
      requires sendBuffer.Valid() && sendBuffer.outDirection && sendBuffer.segmentLen == inLen
               && sendBuffer.stream == []
      requires sendBuffer.hLen == resampler.filtLen <= sendBuffer.bufferLen
      ensures Valid() && blocks == 0 && output == [] && writeTimestamp == 0
      ensures this.resampler == resampler && this.sendBuffer == sendBuffer && this.inLen == inLen
              && this.outLen == outLen
    {
      hide Resampler.Ready, RadioBuffer.Valid, CheckVecLen, Floats, StreamedOut;
      this.resampler, this.sendBuffer, this.inLen, this.outLen := resampler, sendBuffer, inLen, outLen;
      ghost var nothing := seq(sendBuffer.hLen, _ => SILENCE);
      writeTimestamp, blocks, output, primer := 0, 0, [], nothing;
      EmptyBuffer(sendBuffer);
      ReadyMeans(resampler);
      NothingSent(nothing, sendBuffer.stream, resampler.proto, resampler.p, resampler.q, outLen);
    }

    /** What the device has got so far: the whole sample stream, after what was in
        memory in front of the first segment, resampled; one segment becoming one
        device block. */
    lemma SentStream(i: nat)
      requires Valid() && i < blocks * outLen
      ensures |output| == 2 * (blocks * outLen) && |primer| == resampler.filtLen
      ensures var w := Floats(primer + sendBuffer.stream);
              && output[2 * i] == Resampled(w, |primer|, resampler.proto, resampler.p, resampler.q, i, 0)
              && output[2 * i + 1] == Resampled(w, |primer|, resampler.proto, resampler.p, resampler.q, i, 1)
    {
      hide Resampler.Ready, CheckVecLen, RadioBuffer.Valid, Resampled, Floats;
      assert Part(output, i, 0) == output[2 * i] && Part(output, i, 1) == output[2 * i + 1];
    }

    /** Sends the oldest segment, if there is one. The timestamp moves on by the
        whole block, whatever the device took of it. */
    method PushBlock(sse: bool) returns (sent: bool)
      requires Valid()
      modifies this`blocks, this`output, this`primer, this`writeTimestamp, sendBuffer, sendBuffer.buffer
      ensures Valid() && sendBuffer.stream == old(sendBuffer.stream)
      ensures sent == (old(sendBuffer.availSamples) >= inLen) && blocks == old(blocks) + if sent then 1 else 0
      ensures sendBuffer.availSamples == old(sendBuffer.availSamples) - if sent then inLen else 0
      ensures writeTimestamp == old(writeTimestamp) + if sent then outLen else 0
      ensures old(output) <= output && (old(blocks) > 0 || !sent ==> primer == old(primer))
    {
      hide Resampler.Ready, RadioBuffer.Valid, CheckVecLen, SegmentRead, StreamedOut, Floats, HistoryKept,
           AllDistinct, Precedes;
      sent := sendBuffer.availSamples >= inLen;
      if sent {
        SendSegment(sse);
      }
    }

    method SendSegment(sse: bool)
      requires Valid() && sendBuffer.availSamples >= inLen
      modifies this`blocks, this`output, this`primer, this`writeTimestamp, sendBuffer, sendBuffer.buffer
      ensures Valid() && sendBuffer.stream == old(sendBuffer.stream) && blocks == old(blocks) + 1
      ensures sendBuffer.availSamples == old(sendBuffer.availSamples) - inLen && old(output) <= output
      ensures writeTimestamp == old(writeTimestamp) + outLen && (old(blocks) > 0 ==> primer == old(primer))
    {
      hide Resampler.Ready, RadioBuffer.Valid, CheckVecLen, SentPart, StreamedOut, Floats;
      ReadyMeans(resampler);
      Counts(sendBuffer);
      var out := ResampleSegment(sse);
      Counts(sendBuffer);
      OneMoreSent(output, out[..], Floats(primer + sendBuffer.stream), |primer|, resampler.proto, resampler.p,
                  resampler.q, blocks, outLen);
      output := output + out[..];
      blocks := blocks + 1;
      writeTimestamp := writeTimestamp + outLen;
    }

    /** The device block made of the oldest segment. The first one shows what is
        in memory in front of it. */
    method ResampleSegment(sse: bool) returns (out: array<real>)
      requires Valid() && sendBuffer.availSamples >= inLen
      modifies this`primer, sendBuffer, sendBuffer.buffer
      ensures resampler.Ready() && sendBuffer.Valid()
      ensures sendBuffer.stream == old(sendBuffer.stream) && sendBuffer.consumed == old(sendBuffer.consumed) + inLen
      ensures fresh(out) && out.Length == 2 * outLen
      ensures |primer| == sendBuffer.hLen && (blocks > 0 ==> primer == old(primer)) && Sent(sendBuffer.stream)
      ensures SentPart(out[..], Floats(primer + sendBuffer.stream), |primer|, resampler.proto, resampler.p,
                       resampler.q, blocks * outLen, outLen)
    {
      hide Resampler.Ready, RadioBuffer.Valid, CheckVecLen, SegmentRead, IsResampled, SentPart, StreamedOut,
           HistoryKept, AllDistinct, Precedes, Floats;
      out := new real[2 * outLen];
      ReadyMeans(resampler);
      Counts(sendBuffer);
      ghost var at := sendBuffer.consumed;
      var seg := sendBuffer.GetReadSegment();
      var x := FloatsOf(sendBuffer.buffer);
      ghost var b := sendBuffer.buffer[..];
      SegmentInMemory(b, seg, sendBuffer.hLen, inLen, sendBuffer.stream, at, sendBuffer.fill, true);
      CheckedLengths(inLen, outLen, resampler.p, resampler.q);
      var rc := resampler.Rotate(sse, x, seg, inLen, out, 0, outLen);
      // The lengths always pass.
      assert rc == outLen;
      if blocks == 0 {
        primer := b[seg - sendBuffer.hLen..seg];
        FirstIsFirst(output, Floats(old(primer) + sendBuffer.stream), |primer|, resampler.proto, resampler.p,
                     resampler.q, outLen);
        NothingSent(primer, sendBuffer.stream, resampler.proto, resampler.p, resampler.q, outLen);
      }
      SegmentSent(b, seg, sendBuffer.hLen, sendBuffer.stream, at, sendBuffer.fill, primer,
                  resampler.proto, resampler.p, resampler.q, resampler.filtLen, blocks, inLen, outLen, out[..]);
    }

    /** `driveTransmitRadio` over the resampler. The buffer takes every burst, the
        history is always intact, and less than a segment is left. */
    method DriveTransmit(sse: bool, burst: seq<Sample>, zero: bool)
      requires Valid() && sendBuffer.availSamples < inLen && inLen + |burst| <= sendBuffer.bufferLen - sendBuffer.hLen
      modifies this`blocks, this`output, this`primer, this`writeTimestamp, sendBuffer, sendBuffer.buffer
      ensures Valid() && sendBuffer.availSamples < inLen
      ensures sendBuffer.stream == old(sendBuffer.stream) + if zero then seq(|burst|, _ => SILENCE) else burst
      ensures old(output) <= output && (old(blocks) > 0 ==> primer == old(primer))
      ensures writeTimestamp - outLen * blocks == old(writeTimestamp - outLen * blocks)
    {
      hide Resampler.Ready, RadioBuffer.Valid, CheckVecLen, StreamedOut, Floats;
      Store(burst, zero);
      var more := PushBlock(sse);
      while more
        invariant Valid()
        invariant sendBuffer.stream == old(sendBuffer.stream) + if zero then seq(|burst|, _ => SILENCE) else burst
        invariant more || sendBuffer.availSamples < inLen
        invariant old(output) <= output && blocks >= old(blocks) && (old(blocks) > 0 ==> primer == old(primer))
        invariant writeTimestamp - outLen * blocks == old(writeTimestamp - outLen * blocks)
        decreases sendBuffer.availSamples, more
      {
        more := PushBlock(sse);
      }
    }

    /** `radioifyVector`: the buffer never refuses. */
    method Store(burst: seq<Sample>, zero: bool)
      requires Valid() && sendBuffer.availSamples + |burst| <= sendBuffer.bufferLen - sendBuffer.hLen
      modifies sendBuffer, sendBuffer.buffer
      ensures Valid() && sendBuffer.availSamples == old(sendBuffer.availSamples) + |burst|
      ensures sendBuffer.stream == old(sendBuffer.stream) + if zero then seq(|burst|, _ => SILENCE) else burst
    {
      hide Resampler.Ready, RadioBuffer.Valid, CheckVecLen, StreamedOut, Floats;
      ReadyMeans(resampler);
      Counts(sendBuffer);
      ghost var was := sendBuffer.stream;
      var ok;
      if zero {
        ok := sendBuffer.Zero(|burst|);
      } else {
        ok := sendBuffer.Write(burst);
      }
      assert ok;
      Counts(sendBuffer);
      SentGrows(output, primer, was, sendBuffer.stream[|was|..], resampler.proto, resampler.p, resampler.q,
                resampler.filtLen,
                blocks, inLen, outLen);
      assert was + sendBuffer.stream[|was|..] == sendBuffer.stream;
    }
  }

  lemma Counts(b: RadioBuffer)
    requires b.Valid()
    ensures |b.stream| == b.consumed + b.availSamples
  {
  }

  lemma NothingSent(primer: seq<Sample>, stream: seq<Sample>, g: seq<real>, p: int, q: int, outLen: nat)
    requires p > 0
    ensures StreamedOut([], Floats(primer + stream), |primer|, g, p, q, 0 * outLen)
  {
  }

  lemma FirstIsFirst(output: seq<real>, w: seq<real>, o: int, g: seq<real>, p: int, q: int, outLen: nat)
    requires StreamedOut(output, w, o, g, p, q, 0 * outLen)
    ensures output == []
  {
  }

  lemma PartsJoin(a: seq<real>, b: seq<real>, n: nat, i: nat)
    requires |a| == 2 * n && 2 * i + 1 < |a + b|
    ensures i < n ==> Part(a + b, i, 0) == Part(a, i, 0) && Part(a + b, i, 1) == Part(a, i, 1)
    ensures i >= n ==> Part(a + b, i, 0) == Part(b, i - n, 0) && Part(a + b, i, 1) == Part(b, i - n, 1)
  {
  }

  lemma OneMoreSent(output: seq<real>, out: seq<real>, w: seq<real>, o: int, g: seq<real>, p: int, q: int,
                    blocks: nat, outLen: nat)
    requires StreamedOut(output, w, o, g, p, q, blocks * outLen)
             && SentPart(out, w, o, g, p, q, blocks * outLen, outLen)
    ensures StreamedOut(output + out, w, o, g, p, q, (blocks + 1) * outLen)
  {
    hide Resampled, Part;
    var n := blocks * outLen;
    assert (blocks + 1) * outLen == n + outLen;
    forall i | 0 <= i < n + outLen
      ensures Part(output + out, i, 0) == Resampled(w, o, g, p, q, i, 0)
              && Part(output + out, i, 1) == Resampled(w, o, g, p, q, i, 1)
    {
      PartsJoin(output, out, n, i);
      if i >= n {
        assert n + (i - n) == i;
      }
    }
  }

  lemma FloatsJoin(s: seq<Sample>, t: seq<Sample>)
    ensures Floats(s + t) == Floats(s) + Floats(t)
  {
  }

  /** More samples do not change what has been sent. */
  lemma SentGrows(output: seq<real>, primer: seq<Sample>, s: seq<Sample>, more: seq<Sample>, g: seq<real>, p: int,
                  q: int, len: nat,
                  blocks: nat, inLen: int, outLen: int)
    requires p > 0 && q > 0 && CheckVecLen(inLen, outLen, p, q) && |g| == p * len && len <= |primer|
             && 0 <= blocks * inLen <= |s|
    requires 0 <= inLen && StreamedOut(output, Floats(primer + s), |primer|, g, p, q, blocks * outLen)
    ensures StreamedOut(output, Floats(primer + (s + more)), |primer|, g, p, q, blocks * outLen)
  {
    hide CheckVecLen, StreamedOut, Floats;
    FloatsJoin(primer + s, more);
    FloatsLen(primer + s);
    assert primer + s + more == primer + (s + more);
    StreamGrows(output, Floats(primer + s), Floats(more), |primer|, g, p, q, len, blocks, inLen, outLen);
  }

  lemma IndexAtLeast(p: int, q: int, i: int)
    requires p > 0 && q > 0 && 0 <= i
    ensures InIndex(p, q, i) >= 0
  {
    ScaleBoundZero(q, i);
  }

  /** `reinterpret_cast<float *>` of buffer memory. */
  method FloatsOf(buffer: array<Sample>) returns (x: seq<real>)
    ensures x == Floats(buffer[..]) && |x| == 2 * buffer.Length
  {
    x := Floats(buffer[..]);
  }

  /** `out` is outputs `first`, ... of the resampled stream `w`. */
  ghost predicate SentPart(out: seq<real>, w: seq<real>, o: int, g: seq<real>, p: int, q: int, first: int, n: int) {
    p > 0 && |out| == 2 * n >= 0 &&
    forall i :: 0 <= i < n ==>
      Part(out, i, 0) == Resampled(w, o, g, p, q, first + i, 0)
      && Part(out, i, 1) == Resampled(w, o, g, p, q, first + i, 1)
  }

  lemma SegmentInMemory(b: seq<Sample>, seg: int, h: int, len: int, stream: seq<Sample>, at: int, fill: int,
                        intact: bool)
    requires SegmentRead(b, seg, h, len, stream, at, fill, intact)
    ensures 0 <= h <= seg && seg + len <= |b|
  {
  }

  lemma SegmentSent(b: seq<Sample>, seg: int, h: nat, stream: seq<Sample>, at: int, fill: int, primer: seq<Sample>,
                    g: seq<real>, p: int, q: int, len: nat, blocks: nat, inLen: int, outLen: int, out: seq<real>)
    requires p > 0 && q > 0 && CheckVecLen(inLen, outLen, p, q) && |g| == p * len && len <= h + 1 && |out| == 2 * outLen
    requires at == blocks * inLen && 0 < inLen && h <= inLen && SegmentRead(b, seg, h, inLen, stream, at, fill, true)
    requires |primer| == h <= seg && (blocks == 0 ==> seg <= |b| && primer == b[seg - h..seg])
    requires exists y1 :: IsResampled(out, y1, 0, Floats(b), seg, g, p, q, 0, outLen)
    ensures SentPart(out, Floats(primer + stream), h, g, p, q, blocks * outLen, outLen)
  {
    hide Resampled, CheckVecLen, Floats;
    var w := primer + stream;
    if blocks > 0 {
      ScaleBound(blocks, inLen);
    }
    SegmentInMemory(b, seg, h, inLen, stream, at, fill, true);
    SegmentMemory(b, seg, h, inLen, stream, at, fill, primer);
    WholeOutput(out, Floats(b), seg, g, p, q, outLen);
    forall i | 0 <= i < outLen
      ensures Part(out, i, 0) == Resampled(Floats(w), h, g, p, q, blocks * outLen + i, 0)
      ensures Part(out, i, 1) == Resampled(Floats(w), h, g, p, q, blocks * outLen + i, 1)
    {
      SegmentOutput(b, seg, h, w, at, g, p, q, len, blocks, inLen, outLen, i, 0);
      SegmentOutput(b, seg, h, w, at, g, p, q, len, blocks, inLen, outLen, i, 1);
    }
  }

  // ----- chunk sizes --------------------------------------------------------------------------------

  /** The chunk sizes `init` derives from the two rates pass the length checks of
      both resamplers exactly when both fit the largest output. */
  lemma ChunkSizesPassIff(inRate: int, outRate: int, sps: int)
    requires inRate > 0 && outRate > 0 && sps > 0
    ensures var inChunk, outChunk := inRate * 4 * sps, outRate * 4 * sps;
            CheckVecLen(outChunk, inChunk, inRate, outRate) && CheckVecLen(inChunk, outChunk, outRate, inRate)
            <==> inChunk <= MAX_OUTPUT_LEN && outChunk <= MAX_OUTPUT_LEN
  {
    var m := 4 * sps;
    assert inRate * 4 * sps == m * inRate && outRate * 4 * sps == m * outRate;
    ModUnique(m * inRate, inRate, m, 0);
    ModUnique(m * outRate, outRate, m, 0);
  }

  const NUMCHUNKS: int := 24

  /** With the chunks `init` makes, which follow the receive side alone, one burst
      more than a segment still leaves the history, in the send buffer of 24
      segments; and a block fits behind a burst in the receive buffer of 480. */
  lemma RingsSuffice(inRate: int, spsTx: int, spsRx: int, tn: int, filtLen: int)
    requires inRate >= 16 && (spsTx == 1 || spsTx == 4) && (spsRx == 1 || spsRx == 4)
             && 0 < filtLen <= inRate * 4 * spsRx
    ensures var chunk := inRate * 4 * spsRx;
            && chunk + BurstLen(spsTx, tn) <= NUMCHUNKS * chunk - filtLen
            && BurstLen(spsRx, tn) + chunk <= 625 + chunk <= NUMCHUNKS * 20 * chunk
  {
    assert inRate * 4 * spsRx >= 64 * spsRx;
  }
}
