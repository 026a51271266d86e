/** The transmit path as a whole: what the transceiver hands over, call by call,
    is what the radio interface passes on to the device. */
module TransmitPath {
  import opened GsmTime
  import opened RadioBuffers
  import opened RadioInterfaces
  import opened SlotPattern
  import opened Transceivers
  import opened TxChannels
  import opened Wrappers

  /** The samples a live vector holds are as many as its length says. */
  ghost predicate Loaded(calls: seq<SlotOut>, memory: Address -> seq<Sample>) {
    forall k, i :: 0 <= k < |calls| && 0 <= i < |calls[k].vectors| ==>
      |memory(calls[k].vectors[i])| == calls[k].vectors[i].samples
  }

  /** What channel `i` sends in a number of calls. */
  function OnAir(calls: seq<SlotOut>, memory: Address -> seq<Sample>, i: nat): seq<Sample> {
    if calls == [] then []
    else
      var last := calls[|calls| - 1];
      OnAir(calls[..|calls| - 1], memory, i)
      + if i < |last.vectors| && i < |last.zeros| then Written(memory(last.vectors[i]), last.zeros[i]) else []
  }

  lemma NothingOnAir(memory: Address -> seq<Sample>, i: nat)
    ensures OnAir([], memory, i) == []
  {
  }

  lemma OnAirGrows(calls: seq<SlotOut>, memory: Address -> seq<Sample>, i: nat, k: nat)
    requires k < |calls| && i < |calls[k].vectors| && i < |calls[k].zeros|
    ensures OnAir(calls[..k + 1], memory, i)
            == OnAir(calls[..k], memory, i) + Written(memory(calls[k].vectors[i]), calls[k].zeros[i])
  {
    assert calls[..k + 1][..k] == calls[..k];
  }

  /** What the `k`th call hands over is in its place among the samples: as many come
      before it as the slots before it have. */
  lemma {:induction false} CallOnAir(calls: seq<SlotOut>, memory: Address -> seq<Sample>, served: seq<seq<Choice>>,
                                      start: int, n: int, sps: int, i: nat, k: nat)
    requires PacedRun(calls, served, start, start + |calls|, n, sps) && Loaded(calls, memory)
    requires i < n && k < |calls| && (sps == 1 || sps == 4)
    ensures |calls[k].vectors| == |calls[k].zeros| == n
    ensures var air := OnAir(calls, memory, i);
            && |air| == Span(sps, start, |calls|) && 0 <= Span(sps, start, k) <= Span(sps, start, k + 1) <= |air|
            && air[Span(sps, start, k)..Span(sps, start, k + 1)]
               == Written(memory(calls[k].vectors[i]), calls[k].zeros[i])
    decreases |calls|
  {
    hide At, PacedRun, Written, BurstLen, Span, Loaded, OnAir;
    var m := |calls| - 1;
    var rest := calls[..m];
    ShorterRun(calls, served, start, n, sps, memory);
    RadioGetsSlotLengths(calls, served, start, start + |calls|, n, sps, m);
    RadioGetsSlotLengths(calls, served, start, start + |calls|, n, sps, k);
    LoadedAt(calls, memory, m, i);
    WrittenLen(memory(calls[m].vectors[i]), calls[m].zeros[i]);
    NextBurst(sps, start, m, calls[m].vectors[i].samples);
    assert calls[..m + 1] == calls;
    OnAirGrows(calls, memory, i, m);
    if m == 0 {
      NothingYet(sps, start);
      NothingOnAir(memory, i);
    } else {
      CallOnAir(rest, memory, served[..m], start, n, sps, i, if k < m then k else 0);
    }
    if k < m {
      SliceStays(OnAir(rest, memory, i), OnAir(calls, memory, i), Span(sps, start, k), Span(sps, start, k + 1));
    } else {
      SliceEnd(OnAir(rest, memory, i), Written(memory(calls[m].vectors[i]), calls[m].zeros[i]));
    }
  }

  lemma SliceStays(s: seq<Sample>, t: seq<Sample>, i: int, j: int)
    requires s <= t && 0 <= i <= j <= |s|
    ensures t[i..j] == s[i..j]
  {
  }

  lemma SliceEnd(s: seq<Sample>, t: seq<Sample>)
    ensures (s + t)[|s|..|s| + |t|] == t
  {
  }

  lemma ShorterRun(calls: seq<SlotOut>, served: seq<seq<Choice>>, start: int, n: int, sps: int,
                   memory: Address -> seq<Sample>)
    requires PacedRun(calls, served, start, start + |calls|, n, sps) && Loaded(calls, memory) && calls != []
    ensures |served| == |calls|
    ensures var m := |calls| - 1;
            PacedRun(calls[..m], served[..m], start, start + m, n, sps)
            && Loaded(calls[..m], memory)
  {
    hide At, PacedSlot;
  }

  lemma LoadedAt(calls: seq<SlotOut>, memory: Address -> seq<Sample>, k: nat, i: nat)
    requires Loaded(calls, memory) && k < |calls| && i < |calls[k].vectors|
    ensures |memory(calls[k].vectors[i])| == calls[k].vectors[i].samples
  {
  }

  /** What channel `i` sends in the `k`th slot is in its place: zero samples if the
      slot has no combination, and otherwise the vector the channel chose, which is
      that of the burst it used, or of the cell of the filler table at the frame
      modulo the period. */
  lemma PlaceOnAir(calls: seq<SlotOut>, memory: Address -> seq<Sample>, served: seq<seq<Choice>>,
                   start: int, n: int, sps: int, i: nat, k: nat)
    requires PacedRun(calls, served, start, start + |calls|, n, sps) && Loaded(calls, memory)
    requires i < n && k < |calls| && (sps == 1 || sps == 4)
    ensures |served| == |calls| && |served[k]| == n
    ensures var air, from, to := OnAir(calls, memory, i), Span(sps, start, k), Span(sps, start, k + 1);
            var c, tn := served[k][i], At(start + k).tn;
            && 0 <= from <= to <= |air| && |c.types| == 8
            && air[from..to] == if c.types[tn] == 14 then seq(|memory(c.vec)|, _ => Sample(0.0, 0.0)) else memory(c.vec)
    ensures var c, now := served[k][i], At(start + k);
            if c.current.Some? then c.current.value.time == now && c.vec == c.current.value.vec
            else
              && |c.period| == 8 && c.period[now.tn] > 0
              && (now.fn % c.period[now.tn], now.tn) in c.after.cells
              && c.vec == c.after.cells[(now.fn % c.period[now.tn], now.tn)]
  {
    hide *;
    CallOnAir(calls, memory, served, start, n, sps, i, k);
    RadioGetsSlotLengths(calls, served, start, start + |calls|, n, sps, k);
    StepOf(calls, served, start, n, sps, i, k);
    var c := served[k][i];
    WrittenIs(memory(c.vec), c.zero);
    Chosen(c, At(start + k), sps);
  }

  lemma StepOf(calls: seq<SlotOut>, served: seq<seq<Choice>>, start: int, n: int, sps: int, i: nat, k: nat)
    requires PacedRun(calls, served, start, start + |calls|, n, sps) && i < n && k < |calls|
    ensures |served| == |calls| && |served[k]| == n && SlotStep(served[k][i], At(start + k), sps)
  {
    hide At, SlotStep, OutOf;
    assert PacedSlot(calls[k], served[k], start + k, n, sps);
  }

  lemma Chosen(c: Choice, now: Time, sps: int)
    requires SlotStep(c, now, sps)
    ensures InRange(now) && |c.types| == 8 && c.zero == (c.types[now.tn] == 14)
    ensures if c.current.Some? then c.current.value.time == now && c.vec == c.current.value.vec
            else
              && |c.period| == 8 && c.period[now.tn] > 0
              && (now.fn % c.period[now.tn], now.tn) in c.after.cells
              && c.vec == c.after.cells[(now.fn % c.period[now.tn], now.tn)]
  {
    hide BurstLen, Logged, Vecs, HoldsLastWrites, Less;
    assert Multiframe(c.period[now.tn]);
  }

  /** A burst that was used in its slot is on the air in its slot, on a channel
      that is active then. */
  lemma BurstOnAir(calls: seq<SlotOut>, memory: Address -> seq<Sample>, served: seq<seq<Choice>>,
                   start: int, n: int, sps: int, i: nat, k: nat, b: Burst)
    requires PacedRun(calls, served, start, start + |calls|, n, sps) && Loaded(calls, memory)
    requires i < n && k < |calls| && (sps == 1 || sps == 4)
    requires |served[k]| == n && served[k][i].current == Some(b)
    requires |served[k][i].types| == 8 && served[k][i].types[At(start + k).tn] != 14
    ensures b.time == At(start + k)
    ensures var air, from, to := OnAir(calls, memory, i), Span(sps, start, k), Span(sps, start, k + 1);
            0 <= from <= to <= |air| && air[from..to] == memory(b.vec)
  {
    hide At, Span, OnAir, Loaded, PacedRun;
    PlaceOnAir(calls, memory, served, start, n, sps, i, k);
  }

  /** All that a transceiver of `n` channels hands to the radio in a number of
      slots. The vectors are always as long as the radio interface needs; no
      buffer call is refused; every channel's stream grows by what its slots
      chose, and a chunk goes out with every fourth slot. */
  method Transmit(radio: RadioInterface, calls: seq<SlotOut>, memory: Address -> seq<Sample>,
                  ghost served: seq<seq<Choice>>, ghost start: int)
    returns (ghost accepted: seq<nat>)
    requires radio.TxValid() && radio.on && radio.txFrom + radio.slotsOut == start && Loaded(calls, memory)
    requires PacedRun(calls, served, start, start + |calls|, |radio.sendBuffer|, radio.spsTx)
    modifies radio`slotsOut, radio`toDevice, radio`writeTimestamp, Objects(radio.sendBuffer)
    ensures radio.TxValid() && radio.slotsOut == old(radio.slotsOut) + |calls|
    ensures forall i :: 0 <= i < |radio.sendBuffer| ==>
              radio.sendBuffer[i].stream == old(radio.sendBuffer[i].stream) + OnAir(calls, memory, i)
    ensures |accepted| == radio.slotsOut / 4 - old(radio.slotsOut) / 4
    ensures radio.writeTimestamp == old(radio.writeTimestamp) + Total(accepted)
  {
    hide RadioInterface.TxValid, PacedRun, Loaded, Written, At, BurstLen, Total, OnAir, Sending;
    assert radio !in Objects(radio.sendBuffer);
    ghost var base := Streams(radio.sendBuffer);
    accepted := [];
    SendingStarts(radio.sendBuffer, base, calls, memory);
    for k := 0 to |calls|
      invariant radio.TxValid() && radio.on && radio.slotsOut == old(radio.slotsOut) + k
      invariant Sending(radio.sendBuffer, base, calls[..k], memory)
      invariant |accepted| == radio.slotsOut / 4 - old(radio.slotsOut) / 4
      invariant radio.writeTimestamp == old(radio.writeTimestamp) + Total(accepted)
    {
      ghost var more := Deliver(radio, calls, memory, served, start, k, base);
      TotalJoins(accepted, more);
      accepted := accepted + more;
    }
    assert calls[..|calls|] == calls;
    SendingMeans(radio.sendBuffer, base, calls, memory);
  }

  ghost function Streams(bs: seq<RadioBuffer>): (ss: seq<seq<Sample>>)
    reads Objects(bs)
    ensures |ss| == |bs| && forall i :: 0 <= i < |bs| ==> ss[i] == bs[i].stream
  {
    seq(|bs|, i requires 0 <= i < |bs| reads Objects(bs) => bs[i].stream)
  }

  /** Every buffer's stream is what it was, and then what its channel sends. */
  ghost predicate Sending(bs: seq<RadioBuffer>, base: seq<seq<Sample>>, calls: seq<SlotOut>,
                          memory: Address -> seq<Sample>)
    reads Objects(bs)
  {
    |base| == |bs| && forall i :: 0 <= i < |bs| ==> bs[i].stream == base[i] + OnAir(calls, memory, i)
  }

  lemma SendingStarts(bs: seq<RadioBuffer>, base: seq<seq<Sample>>, calls: seq<SlotOut>, memory: Address -> seq<Sample>)
    requires |base| == |bs| && forall i :: 0 <= i < |bs| ==> bs[i].stream == base[i]
    ensures Sending(bs, base, calls[..0], memory) && Total([]) == 0
  {
    assert calls[..0] == [];
  }

  lemma SendingMeans(bs: seq<RadioBuffer>, base: seq<seq<Sample>>, calls: seq<SlotOut>, memory: Address -> seq<Sample>)
    requires Sending(bs, base, calls, memory)
    ensures |base| == |bs| && forall i :: 0 <= i < |bs| ==> bs[i].stream == base[i] + OnAir(calls, memory, i)
  {
  }

  lemma TotalJoins(a: seq<nat>, b: seq<nat>)
    requires |b| <= 1
    ensures Total(a + b) == Total(a) + Total(b)
  {
    if b == [] {
      assert a + b == a;
    } else {
      TotalGrows(a, b[0]);
      TotalGrows([], b[0]);
      assert b == [b[0]] && [] + [b[0]] == [b[0]];
    }
  }

  /** One call of `driveTransmitRadio`. */
  method Deliver(radio: RadioInterface, calls: seq<SlotOut>, memory: Address -> seq<Sample>,
                 ghost served: seq<seq<Choice>>, ghost start: int, k: nat, ghost base: seq<seq<Sample>>)
    returns (ghost accepted: seq<nat>)
    requires radio.TxValid() && radio.on && radio.txFrom + radio.slotsOut == start + k && Loaded(calls, memory)
    requires PacedRun(calls, served, start, start + |calls|, |radio.sendBuffer|, radio.spsTx) && k < |calls|
    requires Sending(radio.sendBuffer, base, calls[..k], memory)
    modifies radio`slotsOut, radio`toDevice, radio`writeTimestamp, Objects(radio.sendBuffer)
    ensures radio.TxValid() && radio.slotsOut == old(radio.slotsOut) + 1
    ensures Sending(radio.sendBuffer, base, calls[..k + 1], memory)
    ensures |accepted| == (if radio.slotsOut % 4 == 0 then 1 else 0)
    ensures radio.writeTimestamp == old(radio.writeTimestamp) + Total(accepted)
  {
    hide RadioInterface.TxValid, PacedRun, Written, At, BurstLen, Total, OnAir;
    RadioGetsSlotLengths(calls, served, start, start + |calls|, |radio.sendBuffer|, radio.spsTx, k);
    var vectors := calls[k].vectors;
    var bursts := seq(|vectors|, i requires 0 <= i < |vectors| => memory(vectors[i]));
    accepted := radio.DriveTransmitRadio(bursts, calls[k].zeros);
    forall i | 0 <= i < |radio.sendBuffer|
      ensures radio.sendBuffer[i].stream == base[i] + OnAir(calls[..k + 1], memory, i)
    {
      OnAirGrows(calls, memory, i, k);
      WrittenIs(memory(calls[k].vectors[i]), calls[k].zeros[i]);
    }
  }
}
