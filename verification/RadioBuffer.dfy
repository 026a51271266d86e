/** The segmented ring buffer between bursts of any length and the fixed-size
    chunks the device works in, with room for filter history in front of it.

    A sample is the pair of floats the source stores interleaved, so an index
    here is half the index there. Pointers into the buffer are indices. */
module RadioBuffers {
  import opened Modular

  datatype Sample = Sample(re: real, im: real)

  const SILENCE := Sample(0.0, 0.0)

  /** The stream position that a ring of `size` samples shows where position
      `j` was stored, once `n` samples have been written in all and `j` has been
      overwritten at most once. */
  function Shown(j: int, n: int, size: int): int {
    if j + size < n then j + size else j
  }

  /** A position is still itself exactly while no more than a ringful has been
      written since. */
  lemma ShownIsSelfIff(j: int, n: int, size: int)
    requires size > 0
    ensures Shown(j, n, size) == j <==> n - j <= size
  {
  }

  /** Cell of the ring that stream position `j` goes to. */
  function Cell(j: int, size: int): int
    requires size > 0
  {
    j % size
  }

  /** The ring holds the last `size` samples of the stream. */
  ghost predicate Holds(ring: seq<Sample>, stream: seq<Sample>) {
    |ring| > 0 &&
    forall j :: 0 <= j < |stream| && |stream| - |ring| <= j ==> ring[Cell(j, |ring|)] == stream[j]
  }

  /** `data` laid over a ring from cell `w` on, going round at the end. */
  function Overlay(ring: seq<Sample>, w: int, data: seq<Sample>): seq<Sample>
    requires 0 <= w < |ring| && |data| <= |ring|
  {
    if w + |data| <= |ring| then ring[..w] + data + ring[w + |data|..]
    else
      var len0 := |ring| - w;
      data[len0..] + ring[|data| - len0..w] + data[..len0]
  }

  lemma OverlayAt(ring: seq<Sample>, w: int, data: seq<Sample>, c: int)
    requires 0 <= w < |ring| && |data| <= |ring| && 0 <= c < |ring|
    ensures |Overlay(ring, w, data)| == |ring|
    ensures var t := if c >= w then c - w else c - w + |ring|;
            Overlay(ring, w, data)[c] == if t < |data| then data[t] else ring[c]
  {
  }

  /** Where stream position `j` lies, counted from the write position. */
  lemma CellFrom(j: int, n: int, size: int)
    requires size > 0 && n - size <= j < n + size
    ensures 0 <= Cell(j, size) < size && 0 <= Cell(n, size) < size
    ensures var t := if Cell(j, size) >= Cell(n, size) then Cell(j, size) - Cell(n, size)
            else Cell(j, size) - Cell(n, size) + size;
            t == if j < n then j - n + size else j - n
  {
    if j < n {
      ModAdd(n - size, j - n + size, size);
      ModAdd(n - size, size, size);
    } else {
      ModAdd(n, j - n, size);
    }
  }

  /** Writing at the write position extends the stream. */
  lemma OverlayHolds(ring: seq<Sample>, stream: seq<Sample>, data: seq<Sample>)
    requires Holds(ring, stream) && |data| <= |ring|
    ensures 0 <= Cell(|stream|, |ring|) < |ring|
    ensures Holds(Overlay(ring, Cell(|stream|, |ring|), data), stream + data)
  {
    var size, n := |ring|, |stream|;
    CellFrom(n, n, size);
    var w := Cell(n, size);
    var ring' := Overlay(ring, w, data);
    OverlayAt(ring, w, data, w);
    forall j | 0 <= j < n + |data| && n + |data| - size <= j
      ensures ring'[Cell(j, size)] == (stream + data)[j]
    {
      CellFrom(j, n, size);
      OverlayAt(ring, w, data, Cell(j, size));
    }
  }

  /** `data` copied over a buffer from index `at` on. */
  function Put(b: seq<Sample>, at: int, data: seq<Sample>): seq<Sample>
    requires 0 <= at && at + |data| <= |b|
  {
    b[..at] + data + b[at + |data|..]
  }

  lemma PutAt(b: seq<Sample>, h: int, w: int, data: seq<Sample>)
    requires 0 <= h && 0 <= w && h + w + |data| <= |b| && h + w < |b|
    ensures var c := Put(b, w + h, data); c[..h] == b[..h] && c[h..] == Overlay(b[h..], w, data)
  {
  }

  lemma PutElement(b: seq<Sample>, at: int, data: seq<Sample>, k: int)
    requires 0 <= at && at + |data| <= |b| && 0 <= k < |b|
    ensures |Put(b, at, data)| == |b| && Put(b, at, data)[k] == if at <= k < at + |data| then data[k - at] else b[k]
  {
  }

  lemma PutRound(b: seq<Sample>, h: int, w: int, data: seq<Sample>)
    requires 0 <= h && 0 <= w && h + w < |b| < h + w + |data| && |data| <= |b| - h
    ensures var len0 := |b| - h - w;
            var c := Put(Put(b, w + h, data[..len0]), h, data[len0..]);
            c[..h] == b[..h] && c[h..] == Overlay(b[h..], w, data)
  {
    hide Put, Overlay;
    var len0 := |b| - h - w;
    PutElement(b, w + h, data[..len0], 0);
    var once := Put(b, w + h, data[..len0]);
    PutElement(once, h, data[len0..], 0);
    var c := Put(once, h, data[len0..]);
    OverlayAt(b[h..], w, data, 0);
    forall i | 0 <= i < h
      ensures c[i] == b[i]
    {
      PutElement(b, w + h, data[..len0], i);
      PutElement(once, h, data[len0..], i);
    }
    forall i | 0 <= i < |b| - h
      ensures c[h..][i] == Overlay(b[h..], w, data)[i]
    {
      PutElement(b, w + h, data[..len0], h + i);
      PutElement(once, h, data[len0..], h + i);
      OverlayAt(b[h..], w, data, i);
    }
  }

  /** Reading `len` samples from the read position, going round at the end. */
  function Underlay(ring: seq<Sample>, r: int, len: int): seq<Sample>
    requires 0 <= r < |ring| && 0 <= len <= |ring|
  {
    if r + len <= |ring| then ring[r..r + len]
    else ring[r..] + ring[..len - (|ring| - r)]
  }

  lemma UnderlayHolds(ring: seq<Sample>, stream: seq<Sample>, from: int, len: int)
    requires Holds(ring, stream)
    requires 0 <= from && 0 <= len && from + len <= |stream| && |stream| - from <= |ring|
    ensures 0 <= Cell(from, |ring|) < |ring|
    ensures Underlay(ring, Cell(from, |ring|), len) == stream[from..from + len]
  {
    var size := |ring|;
    CellFrom(from, from, size);
    var s := Underlay(ring, Cell(from, size), len);
    forall t | 0 <= t < len
      ensures s[t] == stream[from + t]
    {
      CellFrom(from + t, from, size);
    }
  }

  /** `sample` is what was stored for stream position `j`, once `n` samples have
      been written. */
  ghost predicate ShownThere(sample: Sample, stream: seq<Sample>, j: int, n: int, size: int) {
    var i := Shown(j, n, size);
    0 <= i ==> i < |stream| && sample == stream[i]
  }

  /** The head room holds what the end of the ring showed when the current
      round began at stream position `lap`, with `fill` samples written. */
  ghost predicate HeadShows(head: seq<Sample>, stream: seq<Sample>, lap: int, fill: int, size: int) {
    forall k :: 0 <= k < |head| ==> ShownThere(head[k], stream, lap - |head| + k, fill, size)
  }

  lemma HeadCopied(ring: seq<Sample>, stream: seq<Sample>, lap: int, h: int)
    requires Holds(ring, stream) && 0 <= h <= |ring|
    requires 0 <= lap <= |stream| <= lap + |ring| && Cell(lap, |ring|) == 0
    ensures HeadShows(ring[|ring| - h..], stream, lap, |stream|, |ring|)
  {
    var head := ring[|ring| - h..];
    hide ShownThere, Holds, Cell;
    forall k | 0 <= k < |head|
      ensures ShownThere(head[k], stream, lap - |head| + k, |stream|, |ring|)
    {
      assert head[k] == ring[|ring| - h + k];
      RingShows(ring, stream, lap - |head| + k, lap, |ring| - h + k);
    }
  }

  /** What cell `c` of the ring shows of a stream position at most one round
      before the round that started at `lap`. */
  lemma RingShows(ring: seq<Sample>, stream: seq<Sample>, j: int, lap: int, c: int)
    requires Holds(ring, stream)
    requires lap <= |stream| && |stream| - |ring| <= j + |ring| && lap - |ring| <= j < lap + |ring| && j < |stream|
    requires Cell(lap, |ring|) == 0 && c == if j < lap then j - lap + |ring| else j - lap
    ensures 0 <= c < |ring| && ShownThere(ring[c], stream, j, |stream|, |ring|)
  {
    CellFrom(j, lap, |ring|);
    CellRound(j, |ring|);
  }

  lemma CellRound(j: int, size: int)
    requires size > 0
    ensures Cell(j + size, size) == Cell(j, size)
  {
    ModAdd(j, size, size);
  }

  lemma HeadKept(head: seq<Sample>, stream: seq<Sample>, data: seq<Sample>, lap: int, fill: int, size: int)
    ensures HeadShows(head, stream, lap, fill, size) ==> HeadShows(head, stream + data, lap, fill, size)
  {
  }

  /** The samples before read position `at` (ring cell `r`) in the buffer
      `head + ring`: from the head room where the round has not gone far enough,
      and otherwise from the ring. Sample k shows what was stored for stream
      position at - |head| + k. */
  ghost predicate HistoryShows(hist: seq<Sample>, stream: seq<Sample>, at: int, r: int, fill: int, size: int) {
    forall k :: 0 <= k < |hist|
      ==> ShownThere(hist[k], stream, at - |hist| + k, if k < |hist| - r then fill else |stream|, size)
  }

  lemma HistoryFromBuffer(buffer: seq<Sample>, h: int, stream: seq<Sample>, at: int, r: int, fill: int)
    requires 0 <= h && h < |buffer| && Holds(buffer[h..], stream)
    requires 0 <= r < |buffer| - h && r <= at <= |stream| <= at + |buffer| - h
    requires Cell(at - r, |buffer| - h) == 0
    requires HeadShows(buffer[..h], stream, at - r, fill, |buffer| - h)
    ensures HistoryShows(buffer[r..r + h], stream, at, r, fill, |buffer| - h)
  {
    hide Holds, HeadShows, ShownThere, Cell;
    var hist := buffer[r..r + h];
    forall k | 0 <= k < |hist|
      ensures ShownThere(hist[k], stream, at - |hist| + k, if k < |hist| - r then fill else |stream|, |buffer| - h)
    {
      HistoryAt(buffer, h, stream, at, r, fill, k);
      assert |hist| == h && hist[k] == buffer[r + k];
    }
  }

  lemma HistoryAt(buffer: seq<Sample>, h: int, stream: seq<Sample>, at: int, r: int, fill: int, k: int)
    requires 0 <= k < h && h < |buffer| && Holds(buffer[h..], stream)
    requires 0 <= r < |buffer| - h && r <= at <= |stream| <= at + |buffer| - h
    requires Cell(at - r, |buffer| - h) == 0
    requires HeadShows(buffer[..h], stream, at - r, fill, |buffer| - h)
    ensures ShownThere(buffer[r + k], stream, at - h + k, if k < h - r then fill else |stream|, |buffer| - h)
  {
    var head, ring := buffer[..h], buffer[h..];
    hide ShownThere, Holds;
    if k < h - r {
      assert buffer[r + k] == head[r + k];
      assert at - r - |head| + (r + k) == at - h + k;
    } else {
      assert buffer[r + k] == ring[r + k - h];
      RingShows(ring, stream, at - h + k, at - r, r + k - h);
    }
  }

  /** `hist` is the stream just before position `at`, as far back as the stream
      goes. */
  ghost predicate Precedes(hist: seq<Sample>, stream: seq<Sample>, at: int) {
    forall k :: 0 <= k < |hist| && |hist| - at <= k ==> at - |hist| + k < |stream| && hist[k] == stream[at - |hist| + k]
  }

  /** When the history is not older than the ring allows, it is the stream
      itself. */
  lemma SafeHistory(hist: seq<Sample>, stream: seq<Sample>, at: int, r: int, fill: int, size: int)
    requires HistoryShows(hist, stream, at, r, fill, size) && size > 0 && at <= |stream|
    requires |stream| - at <= size - |hist|
    requires r >= |hist| || fill - at <= size - |hist|
    ensures Precedes(hist, stream, at)
  {
    forall k | 0 <= k < |hist| && |hist| - at <= k
      ensures at - |hist| + k < |stream| && hist[k] == stream[at - |hist| + k]
    {
      ShownIsSelfIff(at - |hist| + k, if k < |hist| - r then fill else |stream|, size);
    }
  }

  /** The exact condition, where samples can be told apart: the part of the
      history in the ring must not be overwritten yet, and the part in the head
      room must not have been when it was copied there. */
  ghost predicate HistoryKept(h: int, waiting: int, r: int, atRoundStart: int, size: int) {
    if r >= h then waiting <= size - h
    else atRoundStart <= size - h && waiting <= size - r
  }

  ghost predicate AllDistinct(stream: seq<Sample>) {
    forall i, j :: 0 <= i < j < |stream| ==> stream[i] != stream[j]
  }

  lemma SegmentExactIff(b: seq<Sample>, seg: int, h: int, len: int, stream: seq<Sample>, at: int, fill: int,
                        intact: bool)
    requires SegmentRead(b, seg, h, len, stream, at, fill, intact) && h <= at <= |stream|
    requires fill <= |stream| && |stream| <= at + |b| - h && at <= fill + seg - h
    ensures AllDistinct(stream) ==>
              (Precedes(b[seg - h..seg], stream, at) <==> HistoryKept(h, |stream| - at, seg - h, fill - at, |b| - h))
  {
    if AllDistinct(stream) {
      HistoryExactIff(b[seg - h..seg], stream, at, seg - h, fill, |b| - h);
    }
  }

  /** With `|stream| - at` samples waiting at read position `at`, and `fill - at`
      when the round began, the history is the stream exactly when it is kept. */
  lemma HistoryExactIff(hist: seq<Sample>, stream: seq<Sample>, at: int, r: int, fill: int, size: int)
    requires HistoryShows(hist, stream, at, r, fill, size) && size > 0 && 0 <= r && |hist| <= at <= |stream|
    requires fill <= |stream| && |stream| <= at + size && at <= fill + r
    requires AllDistinct(stream)
    ensures Precedes(hist, stream, at) <==> HistoryKept(|hist|, |stream| - at, r, fill - at, size)
  {
    var h := |hist|;
    if HistoryKept(h, |stream| - at, r, fill - at, size) {
      forall k | 0 <= k < h && h - at <= k
        ensures at - h + k < |stream| && hist[k] == stream[at - h + k]
      {
        ShownIsSelfIff(at - h + k, if k < h - r then fill else |stream|, size);
      }
    } else {
      // The oldest sample of the part that is lost.
      var k := if r >= h || fill - at > size - h then 0 else h - r;
      ShownIsSelfIff(at - h + k, if k < h - r then fill else |stream|, size);
      assert ShownThere(hist[k], stream, at - h + k, if k < h - r then fill else |stream|, size);
    }
  }

  lemma RoundStart(at: int, size: int)
    requires size > 0 && 0 <= at
    ensures 0 <= Cell(at, size) < size && Cell(at, size) <= at && Cell(at - Cell(at, size), size) == 0
  {
    var q := at / size;
    assert at == q * size + at % size;
    ScaleBound(q, size);
    ModUnique(at - at % size, size, q, 0);
  }

  /** A read of `len` samples at index `seg` of a buffer `b` with `h` samples of
      head room, for stream position `at`: the samples are the next part of the
      stream; what precedes them in memory shows earlier parts of the stream;
      and it is exactly the part before, if the history was still intact. */
  ghost predicate SegmentRead(b: seq<Sample>, seg: int, h: int, len: int, stream: seq<Sample>, at: int, fill: int,
                              intact: bool) {
    && 0 <= h < |b| && h <= seg && seg + len <= |b| && 0 <= at && 0 <= len && at + len <= |stream|
    && b[seg..seg + len] == stream[at..at + len]
    && HistoryShows(b[seg - h..seg], stream, at, seg - h, fill, |b| - h)
    && (intact ==> Precedes(b[seg - h..seg], stream, at))
  }

  /** What a buffer of head room and ring holds at and before read position
      `at`. */
  lemma ReadsAt(b: seq<Sample>, h: int, stream: seq<Sample>, at: int, fill: int, len: int)
    requires 0 <= h < |b| && Holds(b[h..], stream)
    requires 0 <= at && 0 <= len && at + len <= |stream| <= at + |b| - h
    requires Cell(at, |b| - h) + len <= |b| - h
    requires HeadShows(b[..h], stream, at - Cell(at, |b| - h), fill, |b| - h)
    ensures var r := Cell(at, |b| - h);
            SegmentRead(b, h + r, h, len, stream, at, fill,
              |stream| - at <= |b| - h - h && (r >= h || fill - at <= |b| - h - h))
  {
    hide Holds, HeadShows, HistoryShows, Precedes, Cell;
    var size := |b| - h;
    RoundStart(at, size);
    var r := Cell(at, size);
    UnderlayHolds(b[h..], stream, at, len);
    assert b[h..][r..r + len] == b[h + r..h + r + len];
    HistoryFromBuffer(b, h, stream, at, r, fill);
    if |stream| - at <= size - h && (r >= h || fill - at <= size - h) {
      SafeHistory(b[r..r + h], stream, at, r, fill, size);
    }
  }

  lemma Weaken(b: seq<Sample>, seg: int, h: int, len: int, stream: seq<Sample>, at: int, fill: int, intact: bool,
               weaker: bool)
    requires SegmentRead(b, seg, h, len, stream, at, fill, intact) && (weaker ==> intact)
    ensures SegmentRead(b, seg, h, len, stream, at, fill, weaker)
  {
  }

  /** `n` segments of `s` samples make up `size`. */
  predicate Tiles(n: int, s: int, size: int) {
    n > 0 && s > 0 && size == n * s
  }

  predicate Aligned(r: int, s: int) {
    s > 0 && r % s == 0
  }

  function SegmentAt(r: int, s: int): int
    requires s > 0
  {
    r / s
  }

  lemma SegmentStep(r: int, s: int, n: int, size: int)
    requires Tiles(n, s, size) && 0 <= r < size && Aligned(r, s)
    ensures s > 0 && SegmentAt(r, s) * s == r && 0 <= SegmentAt(r, s) < n && r + s <= size
    ensures SegmentAt(r, s) == 0 <==> r == 0
    ensures Aligned((r + s) % size, s)
  {
    ScaleBound(r / s, s);
    MultipleBelow(r, s, n);
    MultipleStep(r, s, n);
  }

  class RadioBuffer {
    const buffer: array<Sample>
    const bufferLen: nat
    const numSegments: nat
    const segmentLen: nat
    const hLen: nat
    const outDirection: bool
    var writeIndex: nat
    var readIndex: nat
    var availSamples: nat

    /** Everything written since the last reset, how much of it has been read,
        and how much had been written when the current round was begun. */
    ghost var stream: seq<Sample>
    ghost var consumed: nat
    ghost var fill: nat

    ghost predicate Shape() {
      && 0 < segmentLen <= bufferLen && Tiles(numSegments, segmentLen, bufferLen)
      && buffer.Length == hLen + bufferLen
      && (!outDirection ==> hLen == 0)
    }

    ghost predicate Indices()
      requires Shape()
      reads this
    {
      && |stream| == consumed + availSamples && availSamples <= bufferLen && writeIndex < bufferLen
      && readIndex < bufferLen
      && fill <= |stream| && (outDirection && readIndex > 0 ==> consumed <= fill + readIndex)
      && writeIndex == Cell(|stream|, bufferLen) && readIndex == Cell(consumed, bufferLen)
      && Aligned(if outDirection then readIndex else writeIndex, segmentLen)
    }

    ghost predicate Valid()
      reads this, buffer
    {
      && Shape() && Indices()
      && Holds(buffer[hLen..], stream)
      && (outDirection && readIndex > 0 ==>
            HeadShows(buffer[..hLen], stream, consumed - readIndex, fill, bufferLen))
    }

    constructor (numSegments: nat, segmentLen: nat, hLen: nat, outDirection: bool)
      requires 0 < numSegments && 0 < segmentLen
      ensures Valid() && stream == [] && consumed == 0 && fresh(buffer)
      ensures this.numSegments == numSegments && this.segmentLen == segmentLen && this.outDirection == outDirection
      ensures this.hLen == (if outDirection then hLen else 0) && bufferLen == numSegments * segmentLen
    {
      var h := if outDirection then hLen else 0;
      ScaleBound(numSegments, segmentLen);
      this.bufferLen := numSegments * segmentLen;
      buffer := new Sample[h + numSegments * segmentLen];
      this.numSegments, this.segmentLen, this.hLen, this.outDirection := numSegments, segmentLen, h, outDirection;
      writeIndex, readIndex, availSamples := 0, 0, 0;
      stream, consumed, fill := [], 0, 0;
    }

    /** `getAvailSegments` and `getFreeSegments`. */
    method AvailSegments() returns (n: int)
      requires Valid()
      ensures n < 1 <==> availSamples < segmentLen
    {
      DivPositive(availSamples, segmentLen);
      n := availSamples / segmentLen;
    }

    method FreeSegments() returns (n: int)
      requires Valid()
      ensures n <= 0 <==> bufferLen - availSamples < segmentLen
    {
      DivPositive(bufferLen - availSamples, segmentLen);
      n := (bufferLen - availSamples) / segmentLen;
    }

    method Reset()
      requires Valid()
      modifies this
      ensures Valid() && stream == [] && consumed == 0 && availSamples == 0
    {
      writeIndex, readIndex, availSamples := 0, 0, 0;
      stream, consumed, fill := [], 0, 0;
    }

    /** `memcpy` into the buffer. */
    method CopyIn(at: nat, data: seq<Sample>)
      requires at + |data| <= buffer.Length
      modifies buffer
      ensures buffer[..] == Put(old(buffer[..]), at, data)
    {
      forall i | 0 <= i < |data| {
        buffer[at + i] := data[i];
      }
    }

    /** The two wrap cases of `write` and `zero`. */
    method CopyRound(data: seq<Sample>)
      requires Shape() && 0 <= writeIndex < bufferLen && |data| <= bufferLen
      modifies buffer
      ensures buffer[..hLen] == old(buffer[..hLen])
      ensures buffer[hLen..] == Overlay(old(buffer[hLen..]), writeIndex, data)
    {
      hide Overlay, Put;
      ghost var b := buffer[..];
      if writeIndex + |data| <= bufferLen {
        PutAt(b, hLen, writeIndex, data);
        CopyIn(writeIndex + hLen, data);
      } else {
        var len0 := bufferLen - writeIndex;
        PutRound(b, hLen, writeIndex, data);
        CopyIn(writeIndex + hLen, data[..len0]);
        CopyIn(hLen, data[len0..]);
      }
      assert b[..hLen] == old(buffer[..hLen]) && b[hLen..] == old(buffer[hLen..]);
      assert buffer[..][..hLen] == buffer[..hLen] && buffer[..][hLen..] == buffer[hLen..];
    }

    /** Appends `data` to the stream, or refuses if there is no room. */
    method Write(wr: seq<Sample>) returns (ok: bool)
      requires Valid()
      modifies this, buffer
      ensures Valid() && consumed == old(consumed)
      ensures ok == (outDirection && old(availSamples) + |wr| <= bufferLen)
      ensures stream == if ok then old(stream) + wr else old(stream)
    {
      if !outDirection {
        return false;
      }
      if availSamples + |wr| > bufferLen {
        return false;
      }
      Append(wr);
      return true;
    }

    /** Appends `len` zero samples. */
    method Zero(len: nat) returns (ok: bool)
      requires Valid()
      modifies this, buffer
      ensures Valid() && consumed == old(consumed)
      ensures ok == (outDirection && old(availSamples) + len <= bufferLen)
      ensures stream == if ok then old(stream) + seq(len, _ => SILENCE) else old(stream)
    {
      if !outDirection {
        return false;
      }
      if availSamples + len > bufferLen {
        return false;
      }
      Append(seq(len, _ => SILENCE));
      return true;
    }

    method Append(data: seq<Sample>)
      requires Valid() && outDirection && availSamples + |data| <= bufferLen
      modifies this, buffer
      ensures Valid() && consumed == old(consumed) && stream == old(stream) + data
    {
      hide Holds, HeadShows, Overlay, Tiles, Aligned, SegmentAt;
      OverlayHolds(buffer[hLen..], stream, data);
      HeadKept(buffer[..hLen], stream, data, consumed - readIndex, fill, bufferLen);
      ModAdd(|stream|, |data|, bufferLen);
      CopyRound(data);
      stream := stream + data;
      availSamples := availSamples + |data|;
      writeIndex := (writeIndex + |data|) % bufferLen;
    }

    /** Whether the history before the next segment is still in the buffer: no
        more is waiting than the ring holds besides it. */
    ghost predicate HistoryIntact()
      reads this`availSamples
    {
      availSamples <= bufferLen - hLen
    }

    /** The oldest segment: `seg` is where it starts in the buffer, or -1. At the
        start of a round the end of the ring becomes the head room. The source
        copies the end of the ring over the head room with `memcpy`,
        which must not be asked to copy a range onto itself. */
    method GetReadSegment() returns (seg: int)
      requires Valid() && hLen <= bufferLen
      modifies this, buffer
      ensures Valid() && stream == old(stream)
      ensures seg >= 0 <==> outDirection && old(availSamples) >= segmentLen
      ensures seg < 0 ==> consumed == old(consumed)
      ensures seg >= 0 ==> consumed == old(consumed) + segmentLen && seg == hLen + old(readIndex)
      ensures seg >= 0 ==> fill == if old(readIndex) == 0 then |stream| else old(fill)
      ensures seg >= 0 ==> SegmentRead(buffer[..], seg, hLen, segmentLen, stream, old(consumed), fill,
                                       old(HistoryIntact()))
      ensures seg >= 0 && old(consumed) >= hLen && AllDistinct(stream) ==>
                (Precedes(buffer[..][seg - hLen..seg], stream, old(consumed))
                 <==> HistoryKept(hLen, old(availSamples), old(readIndex), fill - old(consumed), bufferLen))
    {
      hide Holds, HeadShows, SegmentRead, Cell, Tiles, Aligned, SegmentAt, HistoryIntact, InReach, Precedes,
           AllDistinct, HistoryKept;
      if !outDirection {
        return -1;
      }
      if availSamples < segmentLen {
        return -1;
      }
      SegmentStep(readIndex, segmentLen, numSegments, bufferLen);
      var num := SegmentAt(readIndex, segmentLen);
      if num >= numSegments {
        return -1;
      }
      IntactReaches();
      if num == 0 {
        CopyHead();
      }
      seg := hLen + num * segmentLen;
      ghost var reach := InReach();
      TakeSegment();
      Weaken(buffer[..], seg, hLen, segmentLen, stream, old(consumed), fill, reach, old(HistoryIntact()));
      if old(consumed) >= hLen {
        SegmentExactIff(buffer[..], seg, hLen, segmentLen, stream, old(consumed), fill, old(HistoryIntact()));
      }
    }

    lemma IntactReaches()
      requires Valid()
      ensures readIndex > 0 && HistoryIntact() ==> InReach()
    {
    }

    /** `memcpy` of the last `hLen` samples of the ring to the head room. */
    method CopyHead()
      requires Valid() && outDirection && readIndex == 0 && hLen <= bufferLen
      modifies this`fill, buffer
      ensures Valid() && fill == |stream| && (old(HistoryIntact()) ==> InReach())
      ensures HeadShows(buffer[..hLen], stream, consumed, fill, bufferLen)
    {
      hide Holds, HeadShows, Tiles, Aligned, SegmentAt;
      HeadCopied(buffer[hLen..], stream, consumed, hLen);
      ghost var ring := buffer[hLen..];
      assert buffer[bufferLen..] == ring[bufferLen - hLen..];
      CopyIn(0, buffer[bufferLen..]);
      fill := |stream|;
      assert buffer[..] == ring[bufferLen - hLen..] + ring;
      assert buffer[hLen..] == ring && buffer[..hLen] == ring[bufferLen - hLen..];
    }

    /** The same for a history that lies partly in the head room, which showed
        the stream as it was when the round began. */
    ghost predicate InReach()
      reads this
    {
      availSamples <= bufferLen - hLen && (readIndex >= hLen || fill - consumed <= bufferLen - hLen)
    }

    /** The segment at the read index leaves the buffer. */
    method TakeSegment()
      requires Valid() && outDirection && availSamples >= segmentLen && hLen <= bufferLen
      requires HeadShows(buffer[..hLen], stream, consumed - readIndex, fill, bufferLen) && consumed <= fill + readIndex
      modifies this`availSamples, this`consumed, this`readIndex
      ensures Valid() && consumed == old(consumed) + segmentLen
      ensures SegmentRead(buffer[..], hLen + old(readIndex), hLen, segmentLen, stream, old(consumed), fill,
                          old(InReach()))
    {
      hide Holds, HeadShows, SegmentRead, Cell, Tiles, Aligned, SegmentAt;
      SegmentStep(readIndex, segmentLen, numSegments, bufferLen);
      assert buffer[..][hLen..] == buffer[hLen..] && buffer[..][..hLen] == buffer[..hLen];
      ReadsAt(buffer[..], hLen, stream, consumed, fill, segmentLen);
      Advance();
    }

    method Advance()
      requires Valid() && outDirection && availSamples >= segmentLen
      requires HeadShows(buffer[..hLen], stream, consumed - readIndex, fill, bufferLen) && consumed <= fill + readIndex
      modifies this`availSamples, this`consumed, this`readIndex
      ensures Valid() && consumed == old(consumed) + segmentLen
    {
      hide Tiles, Holds;
      SegmentStep(readIndex, segmentLen, numSegments, bufferLen);
      ModAdd(consumed, segmentLen, bufferLen);
      availSamples := availSamples - segmentLen;
      consumed := consumed + segmentLen;
      readIndex := (readIndex + segmentLen) % bufferLen;
    }

    /** The segment the device is to fill next: `seg` is where it starts in the
        buffer, or -1. It counts as written at once, with whatever is in it. */
    method GetWriteSegment() returns (seg: int)
      requires Valid()
      modifies this
      ensures Valid() && consumed == old(consumed)
      ensures seg >= 0 <==> !outDirection && bufferLen - old(availSamples) >= segmentLen
      ensures seg < 0 ==> stream == old(stream)
      ensures seg >= 0 ==> seg + segmentLen <= buffer.Length && seg == Cell(|old(stream)|, bufferLen)
      ensures seg >= 0 ==> stream == old(stream) + buffer[..][seg..seg + segmentLen]
    {
      hide Holds, HeadShows, Cell, Tiles, SegmentAt;
      if outDirection {
        return -1;
      }
      if bufferLen - availSamples < segmentLen {
        return -1;
      }
      if writeIndex % segmentLen != 0 {
        return -1;
      }
      SegmentStep(writeIndex, segmentLen, numSegments, bufferLen);
      var num := SegmentAt(writeIndex, segmentLen);
      if num >= numSegments {
        return -1;
      }
      seg := num * segmentLen;
      Extend();
    }

    /** The segment at the write index joins the stream. */
    method Extend()
      requires Valid() && !outDirection && bufferLen - availSamples >= segmentLen
      modifies this`availSamples, this`stream, this`writeIndex
      ensures Valid()
      ensures old(writeIndex) + segmentLen <= buffer.Length
      ensures stream == old(stream) + buffer[..][old(writeIndex)..old(writeIndex) + segmentLen]
    {
      hide Holds, HeadShows, Tiles, Aligned, SegmentAt, Overlay;
      SegmentStep(writeIndex, segmentLen, numSegments, bufferLen);
      ghost var ring := buffer[..];
      assert buffer[hLen..] == ring;
      ghost var data := ring[writeIndex..writeIndex + segmentLen];
      OverlayHolds(ring, stream, data);
      OverlaySelf(ring, writeIndex, segmentLen);
      ModAdd(|stream|, segmentLen, bufferLen);
      stream := stream + data;
      availSamples := availSamples + segmentLen;
      writeIndex := (writeIndex + segmentLen) % bufferLen;
    }

    /** Writing through the pointer `GetWriteSegment` returned last: replaces
        the newest segment of the stream. */
    method StoreSegment(seg: int, data: seq<Sample>)
      requires Valid() && !outDirection && |data| == segmentLen
      requires segmentLen <= availSamples
      requires 0 <= seg && seg == Cell(|stream| - segmentLen, bufferLen) && seg + segmentLen <= bufferLen
      modifies this`stream, buffer
      ensures Valid() && stream == old(stream[..|stream| - segmentLen]) + data
    {
      hide Holds, HeadShows, Put, Cell, Tiles, Aligned, SegmentAt;
      StoreHolds(buffer[hLen..], stream, seg, data);
      assert buffer[hLen..] == buffer[..];
      CopyIn(seg, data);
      assert buffer[hLen..] == buffer[..];
      stream := stream[..|stream| - segmentLen] + data;
    }

    method ZeroWriteSegment() returns (ok: bool)
      requires Valid()
      modifies this, buffer
      ensures Valid() && consumed == old(consumed)
      ensures ok == (!outDirection && bufferLen - old(availSamples) >= segmentLen)
      ensures stream == if ok then old(stream) + seq(segmentLen, _ => SILENCE) else old(stream)
    {
      hide Holds, HeadShows, Cell, Tiles, Aligned, SegmentAt;
      var seg := GetWriteSegment();
      if seg < 0 {
        return false;
      }
      StoreSegment(seg, seq(segmentLen, _ => SILENCE));
      return true;
    }

    /** The two wrap cases of `read`. */
    method CopyOut(len: nat) returns (rd: seq<Sample>)
      requires Shape() && hLen == 0 && readIndex < bufferLen && len <= bufferLen
      ensures rd == Underlay(buffer[hLen..], readIndex, len)
    {
      ghost var ring := buffer[hLen..];
      assert buffer[..] == ring;
      if readIndex + len <= bufferLen {
        rd := buffer[readIndex..readIndex + len];
        assert rd == ring[readIndex..readIndex + len];
      } else {
        var len0 := bufferLen - readIndex;
        var len1 := len - len0;
        rd := buffer[readIndex..bufferLen] + buffer[..len1];
        assert rd == ring[readIndex..] + ring[..len1];
      }
    }

    /** Takes the next `len` samples of the stream, or refuses if they are not
        there yet. */
    method Read(len: nat) returns (ok: bool, rd: seq<Sample>)
      requires Valid()
      modifies this
      ensures Valid() && stream == old(stream)
      ensures ok == (!outDirection && old(availSamples) >= len)
      ensures ok ==> consumed == old(consumed) + len && consumed <= |stream| && rd == stream[old(consumed)..consumed]
      ensures !ok ==> consumed == old(consumed) && rd == []
    {
      hide Holds, HeadShows, Underlay, Tiles, Aligned, SegmentAt;
      if outDirection {
        return false, [];
      }
      if availSamples < len {
        return false, [];
      }
      UnderlayHolds(buffer[hLen..], stream, consumed, len);
      ModAdd(consumed, len, bufferLen);
      rd := CopyOut(len);
      availSamples := availSamples - len;
      consumed := consumed + len;
      readIndex := (readIndex + len) % bufferLen;
      return true, rd;
    }
  }

  lemma OverlaySelf(ring: seq<Sample>, w: int, len: int)
    requires 0 <= w < |ring| && 0 <= len && w + len <= |ring|
    ensures Overlay(ring, w, ring[w..w + len]) == ring
  {
  }

  /** Replacing the newest `|data|` samples in the ring replaces them in the
      stream. */
  lemma StoreHolds(ring: seq<Sample>, stream: seq<Sample>, seg: int, data: seq<Sample>)
    requires Holds(ring, stream) && |data| <= |stream|
    requires 0 <= seg && seg + |data| <= |ring| && seg == Cell(|stream| - |data|, |ring|)
    ensures Holds(Put(ring, seg, data), stream[..|stream| - |data|] + data)
  {
    var n := |stream| - |data|;
    var ring', stream' := Put(ring, seg, data), stream[..n] + data;
    forall j | 0 <= j < |stream'| && |stream'| - |ring'| <= j
      ensures ring'[Cell(j, |ring'|)] == stream'[j]
    {
      CellFrom(j, n, |ring|);
    }
  }

  /** A run that loses the history: two one-sample segments and a head room of
      one. When the ring is full the oldest segment is read with the fourth
      sample before it, where the second came before. */
  method HistoryCanBeLost(a: Sample, b: Sample, c: Sample, d: Sample) returns (buffer: RadioBuffer, seg: int)
    requires b != d
    ensures buffer.Valid() && buffer.stream == [a, b, c, d] && buffer.consumed == 3 && buffer.hLen == 1
    ensures 1 <= seg < buffer.buffer.Length && buffer.buffer[seg] == c && buffer.buffer[seg - 1] == d
    ensures !Precedes(buffer.buffer[seg - 1..seg], buffer.stream, 2)
  {
    hide Holds, HeadShows, SegmentRead, Aligned, Precedes, Tiles, AllDistinct, HistoryKept;
    buffer := new RadioBuffer(2, 1, 1, true);
    var _ := buffer.Write([a, b]);
    var _ := buffer.GetReadSegment();
    var _ := buffer.GetReadSegment();
    var _ := buffer.Write([c, d]);
    assert buffer.stream == [a, b, c, d];
    seg := buffer.GetReadSegment();
    LostSegment(buffer.buffer[..], a, b, c, d);
    assert buffer.buffer[seg - 1..seg] == buffer.buffer[..][0..1];
  }

  lemma LostSegment(memory: seq<Sample>, a: Sample, b: Sample, c: Sample, d: Sample)
    requires |memory| == 3 && SegmentRead(memory, 1, 1, 1, [a, b, c, d], 2, 4, false) && b != d
    ensures memory[0] == d && memory[1] == c && !Precedes(memory[0..1], [a, b, c, d], 2)
  {
    var hist, stream := memory[0..1], [a, b, c, d];
    assert ShownThere(hist[0], stream, 1, 4, 2);
    assert hist[0] != stream[2 - |hist| + 0];
    assert memory[1..2][0] == stream[2..3][0];
  }
}
