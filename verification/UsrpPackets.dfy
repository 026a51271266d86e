/** Bursts as the packets the USRP1 exchanges over USB, and the 32-bit timestamps
    in them as the 64-bit times they stand for. */
module UsrpPackets {
  import opened Modular

  const MAX_PAYLOAD: int := 504
  const MAX_PACKETS: int := 20
  const WORD: int := 0x1_0000_0000
  const TIMESTAMP: int := 0x1_0000_0000_0000_0000

  /** Components of samples, 16 bits each. */
  type Short = bv16

  /** The two header words and the part of the payload that is filled. */
  datatype Packet = Packet(header: bv32, timestamp: int, payload: seq<Short>)

  // ----- header --------------------------------------------------------------------------------

  function Header(isStart: bool, isEnd: bool, rssi: bv32, chan: bv32, payloadLen: nat): bv32
    requires payloadLen <= 0x1ff
  {
    SizeFits(payloadLen);
    Fields(isStart, isEnd, rssi, chan, payloadLen as bv32)
  }

  function Fields(isStart: bool, isEnd: bool, rssi: bv32, chan: bv32, payloadLen: bv32): bv32 {
    var start, end: bv32 := if isStart then 1 else 0, if isEnd then 1 else 0;
    (((start << 12) | (end << 11) | ((rssi & 0x3f) << 5) | chan) << 16) | payloadLen
  }

  function Chan(header: bv32): bv32 { (header >> 16) & 0x1f }
  function Rssi(header: bv32): bv32 { (header >> 21) & 0x3f }
  function PayloadSize(header: bv32): int { (header & 0x1ff) as int }
  predicate StartFlag(header: bv32) { (header >> 28) & 1 == 1 }
  predicate EndFlag(header: bv32) { (header >> 27) & 1 == 1 }

  lemma FieldsApart(isStart: bool, isEnd: bool, rssi: bv32, chan: bv32, payloadLen: bv32)
    requires rssi <= 0x3f && chan <= 0x1f && payloadLen <= 0x1ff
    ensures var h := Fields(isStart, isEnd, rssi, chan, payloadLen);
            && StartFlag(h) == isStart && EndFlag(h) == isEnd && Rssi(h) == rssi && Chan(h) == chan
            && (h & 0x1ff) == payloadLen
  {
  }

  lemma SizeFits(n: nat)
    requires n <= 0x1ff
    ensures (n as bv32) <= 0x1ff && (n as bv32) as int == n
  {
    assert n % WORD == n;
  }

  /** No field spills into another. */
  lemma HeaderFields(isStart: bool, isEnd: bool, rssi: bv32, chan: bv32, payloadLen: nat)
    requires rssi <= 0x3f && chan <= 0x1f && payloadLen <= 0x1ff
    ensures var h := Header(isStart, isEnd, rssi, chan, payloadLen);
            && StartFlag(h) == isStart && EndFlag(h) == isEnd && Rssi(h) == rssi && Chan(h) == chan
            && PayloadSize(h) == payloadLen
  {
    hide Fields, StartFlag, EndFlag, Rssi, Chan;
    SizeFits(payloadLen);
    FieldsApart(isStart, isEnd, rssi, chan, payloadLen as bv32);
  }

  /** Where the fields are: start and end of a burst in bits 28 and 27, signal
      strength from bit 21, channel from bit 16, size in the lowest nine; the other
      bits are zero. */
  lemma HeaderBits(isStart: bool, isEnd: bool, rssi: bv32, chan: bv32, payloadLen: bv32)
    requires rssi <= 0x3f && chan <= 0x1f && payloadLen <= 0x1ff
    ensures var h := Fields(isStart, isEnd, rssi, chan, payloadLen);
            && (h & 0x1000_0000 != 0 <==> isStart) && (h & 0x0800_0000 != 0 <==> isEnd)
            && h & 0x07e0_0000 == rssi << 21 && h & 0x001f_0000 == chan << 16
            && h & 0x01ff == payloadLen && h & 0xe000_fe00 == 0
  {
  }

  lemma GetterBits(h: bv32)
    ensures (StartFlag(h) <==> h & 0x1000_0000 != 0) && (EndFlag(h) <==> h & 0x0800_0000 != 0)
    ensures Rssi(h) << 21 == h & 0x07e0_0000 && Chan(h) << 16 == h & 0x001f_0000
    ensures PayloadSize(h) == (h & 0x01ff) as int
  {
  }

  /** The 32 bits of a time that go into a packet. */
  function Low(time: int): int {
    time % WORD
  }

  /** Times wrap at 64 bits. */
  function Later(time: nat, samples: nat): nat {
    (time + samples) % TIMESTAMP
  }

  lemma LowStep(time: nat, first: nat, k: nat)
    requires Low(time) == Low(first + 126 * k)
    ensures Low(Later(time, 126)) == Low(first + 126 * (k + 1))
  {
    var t := time + 126;
    var a := t / TIMESTAMP;
    ModUnique(t % TIMESTAMP - t, WORD, -a * WORD, 0);
    ModDifference(t % TIMESTAMP, t, WORD);
    ModDifference(time, first + 126 * k, WORD);
    ModDifference(t, first + 126 * (k + 1), WORD);
  }

  // ----- bursts as packets ------------------------------------------------------------------------

  const SHARE: int := MAX_PAYLOAD / 2

  /** The components in packet `k`. */
  function Share(buf: seq<Short>, k: nat): seq<Short> {
    if k * SHARE >= |buf| then [] else if (k + 1) * SHARE >= |buf| then buf[k * SHARE..]
      else buf[k * SHARE..(k + 1) * SHARE]
  }

  /** As many bytes as the packets can hold, and not fewer packets than needed. */
  function PacketCount(bytes: nat): nat {
    (bytes + MAX_PAYLOAD - 1) / MAX_PAYLOAD
  }

  /** What the receiver of packet `k` of `n` reads from it. */
  ghost predicate Carries(p: Packet, buf: seq<Short>, k: nat, n: nat, time: int, chan: bv32) {
    && p.payload == Share(buf, k) && PayloadSize(p.header) == 2 * |p.payload|
    && StartFlag(p.header) == (k == 0) && EndFlag(p.header) == (k == n - 1)
    && Chan(p.header) == chan && Rssi(p.header) == 0
    && p.timestamp == (time + 126 * k) % 0x1_0000_0000
  }

  /** Packet `k` of `n` bit by bit: 126 samples or what is left of them, its size,
      the marks of the first and the last packet, the channel, no signal strength,
      and a time 126 samples after that of the packet before. */
  lemma PacketIs(p: Packet, buf: seq<Short>, k: nat, n: nat, time: int, chan: bv32)
    requires Carries(p, buf, k, n, time, chan)
    ensures 252 * k < |buf| ==> p.payload == buf[252 * k..if |buf| - 252 * k < 252 then |buf| else 252 * k + 252]
    ensures 2 * |p.payload| == (p.header & 0x01ff) as int
    ensures (p.header & 0x1000_0000 != 0 <==> k == 0) && (p.header & 0x0800_0000 != 0 <==> k == n - 1)
    ensures p.header & 0x07e0_0000 == 0 && p.header & 0x001f_0000 == chan << 16
    ensures p.timestamp == (time + 126 * k) % 0x1_0000_0000
  {
    hide StartFlag, EndFlag, Rssi, Chan, PayloadSize;
    GetterBits(p.header);
    assert 0 as bv32 << 21 == 0;
  }

  function Payloads(packets: seq<Packet>): seq<Short> {
    if packets == [] then [] else Payloads(packets[..|packets| - 1]) + packets[|packets| - 1].payload
  }

  lemma PacketCarries(p: Packet, buf: seq<Short>, k: nat, n: nat, time: int, chan: bv32, isStart: bool, isEnd: bool,
                      payloadLen: nat)
    requires p.payload == Share(buf, k) && 2 * |p.payload| == payloadLen <= MAX_PAYLOAD && chan <= 0x1f
    requires p.header == Header(isStart, isEnd, 0, chan, payloadLen)
    requires isStart == (k == 0) && isEnd == (k == n - 1) && p.timestamp == Low(time + 126 * k)
    ensures Carries(p, buf, k, n, time, chan)
  {
    hide Header, StartFlag, EndFlag, Rssi, Chan, PayloadSize, Share;
    HeaderFields(isStart, isEnd, 0, chan, payloadLen);
  }

  /** The burst as one packet after the other, and the bytes handed to the
      device. */
  method WriteSamples(buf: seq<Short>, len: nat, timestamp: nat, isControl: bool)
    returns (packets: seq<Packet>, sent: nat)
    requires |buf| == 2 * len
    ensures Payloads(packets) == buf
    ensures |packets| == PacketCount(4 * len) && sent == 512 * |packets|
    ensures forall k :: 0 <= k < |packets| ==>
              Carries(packets[k], buf, k, |packets|, timestamp, if isControl then 0x1f else 0)
    ensures |packets| <= MAX_PACKETS <==> len <= 2520
  {
    hide Header, Carries, Share, Low, Later, Payloads, PacketCount;
    NoPayloads();
    var numWritten, isStart, rssi: bv32, time: nat := 0, true, 0, timestamp;
    var chan: bv32 := if isControl then 0x1f else 0;
    var bytes := len * 2 * 2;
    var numPkts := PacketCount(bytes);
    CountIs(bytes);
    packets := [];
    while numWritten < bytes
      invariant |packets| <= numPkts && (numWritten < bytes <==> |packets| < numPkts)
      invariant 0 <= numWritten <= bytes && numWritten == if |packets| < numPkts then |packets| * MAX_PAYLOAD else bytes
      invariant isStart == (packets == [])
      invariant numWritten < bytes ==> Low(time) == Low(timestamp + 126 * |packets|)
      invariant Payloads(packets) == buf[..numWritten / 2]
      invariant forall k :: 0 <= k < |packets| ==> Carries(packets[k], buf, k, numPkts, timestamp, chan)
    {
      ghost var k := |packets|;
      PacketBounds(bytes, k, numPkts);
      var isEnd := bytes - numWritten <= MAX_PAYLOAD;
      var payloadLen := if bytes - numWritten < MAX_PAYLOAD then bytes - numWritten else MAX_PAYLOAD;
      var packet := Packet(Header(isStart, isEnd, rssi, chan, payloadLen), Low(time),
                           buf[numWritten / 2..(numWritten + payloadLen) / 2]);
      CutAt(|buf|, k, numWritten, payloadLen);
      ShareIs(buf, k, numWritten / 2, payloadLen / 2);
      PacketCarries(packet, buf, k, numPkts, timestamp, chan, isStart, isEnd, payloadLen);
      PayloadsStep(packets, packet);
      LowStep(time, timestamp, k);
      numWritten := numWritten + payloadLen;
      time := Later(time, payloadLen / 2 / 2);
      isStart := false;
      packets := packets + [packet];
    }
    sent := 512 * numPkts;
  }

  lemma CountIs(bytes: nat)
    ensures PacketCount(bytes) == 0 <==> bytes == 0
    ensures PacketCount(bytes) <= MAX_PACKETS <==> bytes <= MAX_PAYLOAD * MAX_PACKETS
  {
  }

  lemma PacketBounds(bytes: nat, k: nat, n: nat)
    requires n == PacketCount(bytes) && k < n
    ensures k * MAX_PAYLOAD < bytes && (bytes - k * MAX_PAYLOAD <= MAX_PAYLOAD <==> k == n - 1)
  {
  }

  lemma ShareIs(buf: seq<Short>, k: nat, at: int, n: int)
    requires at == k * SHARE < |buf| && n == if |buf| - at < SHARE then |buf| - at else SHARE
    ensures buf[at..at + n] == Share(buf, k) && buf[..at] + buf[at..at + n] == buf[..at + n]
  {
    hide Share;
    ShareSlice(buf, k);
    JoinSlices(buf, at, n);
  }

  lemma ShareSlice(buf: seq<Short>, k: nat)
    requires k * SHARE < |buf|
    ensures var at := k * SHARE;
            Share(buf, k) == buf[at..at + if |buf| - at < SHARE then |buf| - at else SHARE]
  {
  }

  lemma JoinSlices(buf: seq<Short>, at: nat, n: nat)
    requires at + n <= |buf|
    ensures buf[..at] + buf[at..at + n] == buf[..at + n]
  {
  }

  /** Bytes and components. */
  lemma CutAt(size: nat, k: nat, numWritten: nat, payloadLen: nat)
    requires numWritten == k * MAX_PAYLOAD < 2 * size
    requires payloadLen == if 2 * size - numWritten < MAX_PAYLOAD then 2 * size - numWritten else MAX_PAYLOAD
    ensures numWritten / 2 == k * SHARE < size && payloadLen == 2 * (payloadLen / 2)
    ensures (numWritten + payloadLen) / 2 == numWritten / 2 + payloadLen / 2 <= size
    ensures payloadLen / 2 == if size - numWritten / 2 < SHARE then size - numWritten / 2 else SHARE
  {
  }

  lemma NoPayloads()
    ensures Payloads([]) == []
  {
  }

  lemma PayloadsStep(packets: seq<Packet>, packet: Packet)
    ensures Payloads(packets + [packet]) == Payloads(packets) + packet.payload
  {
    assert (packets + [packet])[..|packets + [packet]| - 1] == packets;
  }

  // ----- timestamps -----------------------------------------------------------------------------

  /** The upper half counted so far and the time of the last packet. */
  datatype Clock = Clock(hi: nat, last: int)

  /** The upper half goes up when the lower half goes down, once reading has
      started. */
  function Unwrapped(c: Clock, started: bool, low: int): Clock {
    var hi := if c.last % WORD > low && started then c.hi + 1 else c.hi;
    Clock(hi, (hi * WORD) % TIMESTAMP + low)
  }

  function UnwrappedAll(c: Clock, started: bool, lows: seq<int>): (times: seq<int>)
    ensures |times| == |lows|
    decreases |lows|
  {
    if lows == [] then [] else
      var d := Unwrapped(c, started, lows[0]);
      [d.last] + UnwrappedAll(d, started, lows[1..])
  }

  lemma NoTimes(c: Clock, started: bool)
    ensures UnwrappedAll(c, started, []) == []
  {
  }

  lemma UnwrappedStep(c: Clock, started: bool, words: seq<int>, k: nat, done: seq<int>, all: seq<int>)
    requires k < |words| && done + UnwrappedAll(c, started, words[k..]) == all
    ensures var d := Unwrapped(c, started, words[k]);
            done + [d.last] + UnwrappedAll(d, started, words[k + 1..]) == all
  {
    hide Unwrapped;
    assert words[k..][1..] == words[k + 1..];
  }

  ghost predicate Agrees(c: Clock) {
    0 <= c.last < TIMESTAMP && c.last / WORD == c.hi % WORD
  }

  /** How far a time is after another, on a clock of 64 bits. */
  function Gap(before: int, time: int): int {
    (time - before) % TIMESTAMP
  }

  lemma HighHalf(hi: nat)
    ensures (hi * WORD) % TIMESTAMP == (hi % WORD) * WORD
  {
    ModUnique(hi * WORD, TIMESTAMP, hi / WORD, (hi % WORD) * WORD);
  }

  /** The half that was counted on, in full. */
  lemma NextHalf(hi: nat)
    ensures (hi + 1) % WORD == if hi % WORD == WORD - 1 then 0 else hi % WORD + 1
  {
    ModAdd(hi, 1, WORD);
  }

  lemma UnwrappedIs(c: Clock, started: bool, low: int)
    requires Agrees(c) && 0 <= low < WORD
    ensures var d := Unwrapped(c, started, low);
            && Agrees(d) && d.last % WORD == low
            && d.last / WORD == if c.last % WORD > low && started then (c.hi + 1) % WORD else c.hi % WORD
  {
    var d := Unwrapped(c, started, low);
    HighHalf(d.hi);
    ModUnique(d.last, WORD, d.hi % WORD, low);
  }

  /** A packet's time comes out right exactly when less than 2^32 samples have
      passed since the packet before, even as the 64 bits wrap. */
  lemma TimeExactIff(c: Clock, time: int)
    requires Agrees(c) && 0 <= time < TIMESTAMP
    ensures Unwrapped(c, true, time % 0x1_0000_0000).last == time <==> Gap(c.last, time) < 0x1_0000_0000
  {
    hide Unwrapped;
    assert time % 0x1_0000_0000 == Low(time);
    UnwrappedIs(c, true, Low(time));
    NextHalf(c.hi);
    var d := Unwrapped(c, true, Low(time));
    assert d.last == (d.last / WORD) * WORD + Low(time) && time == (time / WORD) * WORD + Low(time);
    var diff := time - c.last;
    if diff >= 0 {
      ModUnique(diff, TIMESTAMP, 0, diff);
    } else {
      ModUnique(diff, TIMESTAMP, -1, diff + TIMESTAMP);
    }
  }

  /** Before reading has started, the upper half never moves. */
  lemma FirstTimesExactIff(c: Clock, time: int)
    requires Agrees(c) && 0 <= time < TIMESTAMP
    ensures Unwrapped(c, false, Low(time)).last == time <==> time / WORD == c.hi % WORD
  {
    hide Unwrapped;
    UnwrappedIs(c, false, Low(time));
  }

  ghost predicate AllTimes(times: seq<int>) {
    forall i :: 0 <= i < |times| ==> 0 <= times[i] < TIMESTAMP
  }

  /** Every packet less than 2^32 samples after the one before. */
  ghost predicate Dense(before: int, times: seq<int>)
    decreases |times|
  {
    times == [] || (Gap(before, times[0]) < WORD && Dense(times[0], times[1..]))
  }

  function Lows(times: seq<int>): seq<int> {
    seq(|times|, i requires 0 <= i < |times| => Low(times[i]))
  }

  /** Any sequence of times survives the wire exactly when it is dense. */
  lemma {:induction false} TimesExactIff(c: Clock, times: seq<int>)
    requires Agrees(c) && AllTimes(times)
    ensures UnwrappedAll(c, true, Lows(times)) == times <==> Dense(c.last, times)
    decreases |times|
  {
    if times != [] {
      hide Low, Unwrapped, Gap;
      var time, rest := times[0], times[1..];
      var d := Unwrapped(c, true, Low(time));
      LowRange(time);
      UnwrappedIs(c, true, Low(time));
      TimeExactIff(c, time);
      assert Lows(times)[0] == Low(time) && Lows(times)[1..] == Lows(rest);
      var back := UnwrappedAll(d, true, Lows(rest));
      assert UnwrappedAll(c, true, Lows(times)) == [d.last] + back && times == [time] + rest;
      if d.last == time {
        TimesExactIff(d, rest);
        assert [d.last] + back == times <==> back == rest;
      }
    }
  }

  lemma LowRange(time: int)
    ensures 0 <= Low(time) < WORD
  {
  }

  class Receiver {
    var hi32Timestamp: nat
    var lastPktTimestamp: int
    var timeStart: nat

    function Current(): Clock
      reads this
    {
      Clock(hi32Timestamp, lastPktTimestamp)
    }

    constructor ()
      ensures timeStart == 0 && Current() == Clock(0, 0) && Agrees(Current())
    {
      hi32Timestamp, lastPktTimestamp, timeStart := 0, 0, 0;
    }

    /** The time of one packet. */
    method PacketTime(word: int) returns (pktTimestamp: int)
      requires Agrees(Current()) && 0 <= word < WORD
      modifies this`hi32Timestamp, this`lastPktTimestamp
      ensures Agrees(Current()) && Current() == Unwrapped(old(Current()), timeStart != 0, word)
      ensures pktTimestamp == lastPktTimestamp
    {
      UnwrappedIs(Current(), timeStart != 0, word);
      var incrementHi32 := lastPktTimestamp % WORD > word;
      if incrementHi32 && timeStart != 0 {
        hi32Timestamp := hi32Timestamp + 1;
      }
      pktTimestamp := (hi32Timestamp * WORD) % TIMESTAMP + word;
      lastPktTimestamp := pktTimestamp;
    }

    /** The times of the packets of one read from the device. */
    method PacketTimes(words: seq<int>) returns (times: seq<int>)
      requires Agrees(Current()) && forall i :: 0 <= i < |words| ==> 0 <= words[i] < WORD
      modifies this`hi32Timestamp, this`lastPktTimestamp
      ensures Agrees(Current())
      ensures times == UnwrappedAll(old(Current()), timeStart != 0, words)
    {
      hide Agrees, Unwrapped, UnwrappedAll;
      assert words[0..] == words;
      times := [];
      var pktNum := 0;
      while pktNum < |words|
        invariant 0 <= pktNum <= |words| && Agrees(Current())
        invariant times + UnwrappedAll(Current(), timeStart != 0, words[pktNum..])
                  == UnwrappedAll(old(Current()), timeStart != 0, words)
      {
        UnwrappedStep(Current(), timeStart != 0, words, pktNum, times,
                      UnwrappedAll(old(Current()), timeStart != 0, words));
        var pktTimestamp := PacketTime(words[pktNum]);
        times := times + [pktTimestamp];
        pktNum := pktNum + 1;
      }
      NoTimes(Current(), timeStart != 0);
    }
  }

  // ----- from sender to receiver -------------------------------------------------------------------

  /** The times of a burst's packets, 126 samples apart. */
  function PacketTimesFrom(first: int, n: nat): seq<int> {
    if n == 0 then [] else PacketTimesFrom(first, n - 1) + [first + 126 * (n - 1)]
  }

  lemma {:induction false} PacketTimesAt(first: int, n: nat)
    ensures |PacketTimesFrom(first, n)| == n
    ensures forall k :: 0 <= k < n ==> PacketTimesFrom(first, n)[k] == first + 126 * k
  {
    if n > 0 {
      PacketTimesAt(first, n - 1);
    }
  }

  function Stamps(packets: seq<Packet>): seq<int> {
    seq(|packets|, k requires 0 <= k < |packets| => packets[k].timestamp)
  }

  lemma {:induction false} EvenlySpacedIsDense(before: int, times: seq<int>)
    requires times != [] ==> 0 <= times[0] - before < WORD
    requires forall k :: 0 <= k < |times| ==> times[k] == times[0] + 126 * k
    ensures Dense(before, times)
    decreases |times|
  {
    if times != [] {
      SmallMod(times[0] - before, TIMESTAMP);
      EvenlySpacedIsDense(times[0], times[1..]);
    }
  }

  /** A burst read back: a receiver that is less than 2^32 samples behind gets the
      full time of every packet. */
  lemma BurstTimesSurvive(packets: seq<Packet>, buf: seq<Short>, first: int, chan: bv32, c: Clock)
    requires forall k :: 0 <= k < |packets| ==> Carries(packets[k], buf, k, |packets|, first, chan)
    requires Agrees(c) && 0 <= first - c.last < WORD && first + 126 * |packets| <= TIMESTAMP
    ensures UnwrappedAll(c, true, Stamps(packets)) == PacketTimesFrom(first, |packets|)
  {
    hide Low, Unwrapped, UnwrappedAll, PacketTimesFrom, Dense;
    var times := PacketTimesFrom(first, |packets|);
    PacketTimesAt(first, |packets|);
    forall k | 0 <= k < |packets|
      ensures Stamps(packets)[k] == Lows(times)[k]
    {
      CarriesStamp(packets[k], buf, k, |packets|, first, chan);
    }
    assert Stamps(packets) == Lows(times);
    EvenlySpacedIsDense(c.last, times);
    TimesExactIff(c, times);
  }

  lemma CarriesStamp(p: Packet, buf: seq<Short>, k: nat, n: nat, time: int, chan: bv32)
    requires Carries(p, buf, k, n, time, chan)
    ensures p.timestamp == Low(time + 126 * k)
  {
  }
}
