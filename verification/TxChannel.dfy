/** One transmit channel of the transceiver: its priority queue of bursts, its
    filler table, and who owns each signal vector.

    Signal vectors live on a manual heap, so a vector is an address here, with
    its length, and the ghost map `owner` is the set of live addresses with the
    one place that is responsible for each. Deleting requires the address to be
    live. */
module TxChannels {
  import opened GsmTime
  import opened Modular
  import opened SlotPattern
  import opened Wrappers

  datatype Address = Address(id: nat, samples: int)

  /** A `radioVector` with one channel: a time and the vector it carries. */
  datatype Burst = Burst(time: Time, vec: Address)

  datatype Owner = Queue | Filler(row: int, tn: int) | Held

  /** The state of a channel that bursts and slots change: what is queued, where
      bursts went, what was written to the filler table, what is in it, and every
      vector ever seen. */
  datatype Snapshot = Snapshot(queue: seq<Burst>, sent: seq<Burst>, dropped: seq<Burst>, log: seq<Update>,
                               cells: Cells, seen: set<Address>)

  /** What one channel contributed to one slot: the vector sent and its zero
      flag, whether the vector stays with the filler table, the bursts dropped as
      stale, those queued by another thread after that, and the burst used; with
      the channel before and after, its settings and first fillers. */
  datatype Choice = Choice(vec: Address, zero: bool, filler: bool,
                           stale: seq<Burst>, late: seq<Burst>, current: Option<Burst>,
                           before: Snapshot, after: Snapshot, retrans: bool, types: seq<int>, period: seq<int>,
                           initial: Cells)

  /** One write to the filler table. */
  datatype Update = Update(row: int, tn: int, vec: Address)

  const ROWS: int := 102

  // Channel combinations that matter to the modulus.
  const FILL: int := 0
  const COMB_I: int := 1
  const COMB_II: int := 2
  const COMB_III: int := 3
  const COMB_IV: int := 4
  const COMB_V: int := 5
  const COMB_VI: int := 6
  const COMB_VII: int := 7
  const COMB_XIII: int := 13
  const INACTIVE: int := 14
  // The burst type that random fillers put in place of a combination.
  const TSC: int := 1

  /** The filler repetition period of a channel combination; an unlisted
      combination keeps the period the slot had. */
  function Period(combination: int, previous: int): int {
    if combination in {INACTIVE, COMB_I, COMB_II, COMB_III, FILL} then 26
    else if combination in {COMB_IV, COMB_VI, COMB_V} then 51
    else if combination == COMB_VII then 102
    else if combination == COMB_XIII then 52
    else previous
  }

  /** The periods that occur: whole GSM multiframes. */
  predicate Multiframe(period: int) {
    period == 26 || period == 51 || period == 52 || period == 102
  }

  /** Filler repeats with its period for ever: no combination has a period that
      the wrap of the hyperframe would break. */
  lemma FillerRecurs(combination: int, previous: int, u: int)
    requires Multiframe(previous)
    ensures var p := Period(combination, previous);
            Multiframe(p) && At(u).fn % p == (u / 8) % p
  {
    var p := Period(combination, previous);
    var f, k := u / 8, u / 8 / HYPERFRAME;
    assert f == k * HYPERFRAME + f % HYPERFRAME && HYPERFRAME == (HYPERFRAME / p) * p;
    assert f - f % HYPERFRAME == (k * (HYPERFRAME / p)) * p;
    ModUnique(f - f % HYPERFRAME, p, k * (HYPERFRAME / p), 0);
    ModDifference(f, f % HYPERFRAME, p);
  }

  // ----- order inside a window --------------------------------------------------------

  /** Signed distance in slots from `now` to `t`, taken the short way round. */
  function Ahead(now: Time, t: Time): int {
    8 * FNDelta(t.fn, now.fn) + t.tn - now.tn
  }

  predicate InWindow(t: Time, now: Time, back: int, ahead: int) {
    InRange(t) && -back <= FNDelta(t.fn, now.fn) <= ahead
  }

  /** In a window of fewer than HALF frames around `now`, the wrapped
      comparisons are the order of signed distances. */
  lemma WindowOrder(a: Time, b: Time, now: Time, back: int, ahead: int)
    requires InRange(now) && 0 <= back && 0 <= ahead && back + ahead < HALF
    requires InWindow(a, now, back, ahead) && InWindow(b, now, back, ahead)
    ensures Greater(a, b) <==> Ahead(now, a) > Ahead(now, b)
    ensures Less(a, now) <==> Ahead(now, a) < 0
    ensures a == b <==> Ahead(now, a) == Ahead(now, b)
    ensures a == now <==> Ahead(now, a) == 0
  {
  }

  /** What lies in the window of a deadline, in unbounded time. */
  lemma WindowIs(u: int, d: int, back: int, ahead: int)
    requires -HALF <= u / 8 - d / 8 < HALF
    ensures InWindow(At(u), At(d), back, ahead) <==> -back <= u / 8 - d / 8 <= ahead
  {
    DeltaIsExact(u / 8, d / 8);
  }

  /** Moving the window on by one slot. */
  lemma WindowAdvances(t: Time, now: Time, back: int, ahead: int)
    requires InRange(now) && 1 <= back && 0 <= ahead && back + ahead < HALF
    requires InWindow(t, now, back, ahead) && !Less(t, now)
    ensures InRange(IncTN(now)) && InWindow(t, IncTN(now), back, ahead)
  {
    assert now.fn == HYPERFRAME - 1 ==> NextFrame(now.fn) == 0;
    assert now.fn < HYPERFRAME - 1 ==> NextFrame(now.fn) == now.fn + 1;
  }

  /** A repetition period for each of the eight timeslots. */
  predicate Periodic(period: seq<int>) {
    |period| == 8 && forall t :: 0 <= t < 8 ==> Multiframe(period[t])
  }

  /** What `std::priority_queue` with `PointerCompare` promises of its top: no
      element compares below it. */
  predicate IsTop(q: seq<Burst>, k: int) {
    0 <= k < |q| && forall j :: 0 <= j < |q| ==> !Greater(q[k].time, q[j].time)
  }

  ghost predicate AllInWindow(q: seq<Burst>, now: Time, back: int, ahead: int) {
    forall b :: b in q ==> InWindow(b.time, now, back, ahead)
  }

  lemma TopExists(q: seq<Burst>, now: Time, back: int, ahead: int)
    requires q != []
    requires InRange(now) && 0 <= back && 0 <= ahead && back + ahead < HALF
    requires AllInWindow(q, now, back, ahead)
    ensures exists k :: IsTop(q, k)
  {
    var k := 0;
    for n := 1 to |q|
      invariant 0 <= k < |q|
      invariant forall j :: 0 <= j < n ==> Ahead(now, q[k].time) <= Ahead(now, q[j].time)
    {
      if Ahead(now, q[n].time) < Ahead(now, q[k].time) {
        k := n;
      }
    }
    forall j | 0 <= j < |q|
      ensures !Greater(q[k].time, q[j].time)
    {
      WindowOrder(q[k].time, q[j].time, now, back, ahead);
    }
    assert IsTop(q, k);
  }

  /** The top of a queue is its least element in signed distance. */
  lemma TopIsLeast(q: seq<Burst>, k: int, now: Time, back: int, ahead: int)
    requires InRange(now) && 0 <= back && 0 <= ahead && back + ahead < HALF
    requires AllInWindow(q, now, back, ahead) && IsTop(q, k)
    ensures forall b :: b in q ==> Ahead(now, q[k].time) <= Ahead(now, b.time)
  {
    forall b | b in q
      ensures Ahead(now, q[k].time) <= Ahead(now, b.time)
    {
      var j :| 0 <= j < |q| && q[j] == b;
      WindowOrder(q[k].time, q[j].time, now, back, ahead);
    }
  }

  function Without(q: seq<Burst>, k: int): seq<Burst>
    requires 0 <= k < |q|
  {
    q[..k] + q[k + 1..]
  }

  lemma WithoutOne(q: seq<Burst>, k: int)
    requires 0 <= k < |q|
    ensures multiset(q) == multiset(Without(q, k)) + multiset{q[k]}
    ensures forall b :: b in Without(q, k) ==> b in q
    ensures forall b :: b in q && b != q[k] ==> b in Without(q, k)
  {
    assert q == q[..k] + [q[k]] + q[k + 1..];
  }

  // ----- the meaning of the filler table ----------------------------------------------

  /** What cell (row, tn) holds after `log`, if it held `initial` before. */
  function LastWrite(log: seq<Update>, row: int, tn: int, initial: Address): Address {
    if log == [] then initial
    else
      var last := log[|log| - 1];
      if last.row == row && last.tn == tn then last.vec
      else LastWrite(log[..|log| - 1], row, tn, initial)
  }

  /** Update `k` is the last one that addresses a cell. */
  ghost predicate LastAt(log: seq<Update>, row: int, tn: int, k: int) {
    && 0 <= k < |log| && log[k].row == row && log[k].tn == tn
    && forall m :: k < m < |log| ==> !(log[m].row == row && log[m].tn == tn)
  }

  /** Said without recursion: the cell holds the vector of the last update that
      addressed it, and its initial vector if none did. */
  lemma {:induction false} LastWriteMeaning(log: seq<Update>, row: int, tn: int, initial: Address)
    ensures (forall k :: 0 <= k < |log| ==> !(log[k].row == row && log[k].tn == tn))
            ==> LastWrite(log, row, tn, initial) == initial
    ensures forall k :: LastAt(log, row, tn, k) ==> LastWrite(log, row, tn, initial) == log[k].vec
  {
    if log != [] {
      var rest := log[..|log| - 1];
      LastWriteMeaning(rest, row, tn, initial);
      forall k | LastAt(log, row, tn, k)
        ensures LastWrite(log, row, tn, initial) == log[k].vec
      {
        if k < |rest| {
          assert log[|rest|] == log[|log| - 1];
          LastAtPrefix(log, row, tn, k);
        }
      }
    }
  }

  lemma LastAtPrefix(log: seq<Update>, row: int, tn: int, k: int)
    requires LastAt(log, row, tn, k) && k < |log| - 1
    ensures LastAt(log[..|log| - 1], row, tn, k)
  {
  }

  lemma LastWriteAppend(log: seq<Update>, w: Update, row: int, tn: int, initial: Address)
    ensures LastWrite(log + [w], row, tn, initial)
            == if w.row == row && w.tn == tn then w.vec else LastWrite(log, row, tn, initial)
  {
    assert (log + [w])[..|log|] == log;
  }

  /** The row of the table that time `t` maps to. */
  function Row(t: Time, period: seq<int>): int {
    if 0 <= t.tn < |period| && period[t.tn] > 0 then t.fn % period[t.tn] else 0
  }

  /** The updates a sequence of departing bursts makes, under given periods. */
  function Updates(bs: seq<Burst>, period: seq<int>): seq<Update> {
    seq(|bs|, k requires 0 <= k < |bs| => Update(Row(bs[k].time, period), bs[k].time.tn, bs[k].vec))
  }

  // ----- ownership of signal vectors ------------------------------------------------------

  type Cells = map<(int, int), Address>

  /** Each live vector has exactly one owner, and the queue and the table hold
      exactly the vectors the owner map gives them. Cells the map does not own
      do not exist. */
  ghost predicate Owns(q: seq<Burst>, cells: Cells, owner: map<Address, Owner>, freed: set<Address>) {
    && owner.Keys !! freed
    && (forall b :: b in q ==> b.vec in owner && owner[b.vec] == Queue)
    && (forall i, j :: 0 <= i < j < |q| ==> q[i].vec != q[j].vec)
    && (forall c :: c in cells ==> cells[c] in owner && owner[cells[c]] == Filler(c.0, c.1))
    && (forall v :: v in owner && owner[v] == Queue ==> exists b :: b in q && b.vec == v)
    && (forall v :: v in owner && owner[v].Filler? ==>
          (owner[v].row, owner[v].tn) in cells && cells[(owner[v].row, owner[v].tn)] == v)
  }

  ghost predicate AllDifferent(fill: seq<seq<Address>>) {
    && |fill| == ROWS && (forall r :: 0 <= r < ROWS ==> |fill[r]| == 8)
    && (forall r, t, r', t' :: 0 <= r < ROWS && 0 <= r' < ROWS && 0 <= t < 8 && 0 <= t' < 8 ==>
          fill[r][t] == fill[r'][t'] ==> r == r' && t == t')
  }

  ghost function CellsOf(fill: seq<seq<Address>>): Cells
    requires AllDifferent(fill)
  {
    map r, t | 0 <= r < ROWS && 0 <= t < 8 :: (r, t) := fill[r][t]
  }

  ghost function OwnersOf(fill: seq<seq<Address>>): map<Address, Owner>
    requires AllDifferent(fill)
  {
    map r, t | 0 <= r < ROWS && 0 <= t < 8 :: fill[r][t] := Filler(r, t)
  }

  lemma OwnerOfCell(fill: seq<seq<Address>>, r: int, t: int)
    requires AllDifferent(fill) && 0 <= r < ROWS && 0 <= t < 8
    ensures fill[r][t] in OwnersOf(fill) && OwnersOf(fill)[fill[r][t]] == Filler(r, t)
  {
    var v := fill[r][t];
    assert v in OwnersOf(fill);
  }

  lemma CellOfOwner(fill: seq<seq<Address>>, v: Address)
    requires AllDifferent(fill) && v in OwnersOf(fill)
    ensures var o := OwnersOf(fill)[v]; o.Filler? && 0 <= o.row < ROWS && 0 <= o.tn < 8 && fill[o.row][o.tn] == v
  {
    var r, t :| 0 <= r < ROWS && 0 <= t < 8 && fill[r][t] == v;
    OwnerOfCell(fill, r, t);
  }

  lemma CellAt(fill: seq<seq<Address>>, r: int, t: int)
    requires AllDifferent(fill) && 0 <= r < ROWS && 0 <= t < 8
    ensures (r, t) in CellsOf(fill) && CellsOf(fill)[(r, t)] == fill[r][t]
  {
  }

  lemma OnlyCells(fill: seq<seq<Address>>, c: (int, int))
    requires AllDifferent(fill) && c in CellsOf(fill)
    ensures 0 <= c.0 < ROWS && 0 <= c.1 < 8
  {
  }

  lemma FreshTable(fill: seq<seq<Address>>)
    requires AllDifferent(fill)
    ensures Owns([], CellsOf(fill), OwnersOf(fill), {})
    ensures HoldsLastWrites(CellsOf(fill), [], CellsOf(fill))
    ensures forall v :: v in OwnersOf(fill) ==> OwnersOf(fill)[v] != Held
    ensures forall r, t :: 0 <= r < ROWS && 0 <= t < 8 ==>
              (r, t) in CellsOf(fill) && CellsOf(fill)[(r, t)] == fill[r][t]
  {
    OwnersHold(fill);
    var cells, owner := CellsOf(fill), OwnersOf(fill);
    hide CellsOf, OwnersOf, AllDifferent;
  }

  lemma OwnersHold(fill: seq<seq<Address>>)
    requires AllDifferent(fill)
    ensures var cells, owner := CellsOf(fill), OwnersOf(fill);
            && (forall c :: c in cells ==> cells[c] in owner && owner[cells[c]] == Filler(c.0, c.1))
            && (forall v :: v in owner ==>
                  owner[v].Filler? && (owner[v].row, owner[v].tn) in cells && cells[(owner[v].row, owner[v].tn)] == v)
            && (forall r, t :: 0 <= r < ROWS && 0 <= t < 8 ==> (r, t) in cells && cells[(r, t)] == fill[r][t])
  {
    var cells, owner := CellsOf(fill), OwnersOf(fill);
    assert |fill| == ROWS && forall r :: 0 <= r < ROWS ==> |fill[r]| == 8;
    hide CellsOf, OwnersOf, AllDifferent;
    forall c | c in cells
      ensures cells[c] in owner && owner[cells[c]] == Filler(c.0, c.1)
    {
      OnlyCells(fill, c);
      CellAt(fill, c.0, c.1);
      assert c == (c.0, c.1);
      OwnerOfCell(fill, c.0, c.1);
    }
    forall v | v in owner
      ensures owner[v].Filler? && (owner[v].row, owner[v].tn) in cells && cells[(owner[v].row, owner[v].tn)] == v
    {
      CellOfOwner(fill, v);
      CellAt(fill, owner[v].row, owner[v].tn);
    }
    forall r, t | 0 <= r < ROWS && 0 <= t < 8
      ensures (r, t) in cells && cells[(r, t)] == fill[r][t]
    {
      CellAt(fill, r, t);
    }
  }

  lemma NothingAccepted(seen: set<Address>, sps: int)
    ensures Conserves(multiset{}, [], [], [], seen, sps)
  {
  }

  lemma OwnsEnqueue(q: seq<Burst>, cells: Cells, owner: map<Address, Owner>, freed: set<Address>, b: Burst)
    requires Owns(q, cells, owner, freed) && b.vec !in owner && b.vec !in freed
    ensures Owns(q + [b], cells, owner[b.vec := Queue], freed)
  {
    var owner' := owner[b.vec := Queue];
    assert forall c :: c in q + [b] <==> c in q || c == b;
    forall v | v in owner' && owner'[v] == Queue
      ensures exists c :: c in q + [b] && c.vec == v
    {
      if v == b.vec {
        assert b in q + [b];
      } else {
        var c :| c in q && c.vec == v;
        assert c in q + [b];
      }
    }
  }

  lemma OwnsDequeue(q: seq<Burst>, cells: Cells, owner: map<Address, Owner>, freed: set<Address>, k: int)
    requires Owns(q, cells, owner, freed) && 0 <= k < |q|
    ensures q[k].vec in owner && owner[q[k].vec] == Queue
    ensures Owns(Without(q, k), cells, owner[q[k].vec := Held], freed)
  {
    var b := q[k];
    var owner' := owner[b.vec := Held];
    assert b in q;
    WithoutOne(q, k);
    RestIsDistinct(q, k);
    hide Without;
    forall v | v in owner' && owner'[v] == Queue
      ensures exists c :: c in Without(q, k) && c.vec == v
    {
      var c :| c in q && c.vec == v;
      assert c in Without(q, k);
    }
  }

  lemma RestIsDistinct(q: seq<Burst>, k: int)
    requires 0 <= k < |q|
    requires forall i, j :: 0 <= i < j < |q| ==> q[i].vec != q[j].vec
    ensures var r := Without(q, k); forall i, j :: 0 <= i < j < |r| ==> r[i].vec != r[j].vec
    ensures forall c :: c in Without(q, k) ==> c.vec != q[k].vec
  {
    forall c | c in Without(q, k)
      ensures c.vec != q[k].vec
    {
      var i :| 0 <= i < |Without(q, k)| && Without(q, k)[i] == c;
      assert c == q[if i < k then i else i + 1];
    }
  }

  /** Deleting the vector of a cell and handing the cell one a caller holds. */
  lemma OwnsInstall(q: seq<Burst>, cells: Cells, owner: map<Address, Owner>, freed: set<Address>, c: (int, int),
                    v: Address)
    requires Owns(q, cells, owner, freed) && c in cells && v in owner && owner[v] == Held
    ensures cells[c] in owner && owner[cells[c]] == Filler(c.0, c.1)
    ensures Owns(q, cells[c := v], (owner - {cells[c]})[v := Filler(c.0, c.1)], freed + {cells[c]})
  {
    var owner' := (owner - {cells[c]})[v := Filler(c.0, c.1)];
    var cells' := cells[c := v];
    forall d | d in cells'
      ensures cells'[d] in owner' && owner'[cells'[d]] == Filler(d.0, d.1)
    {
      assert d == (d.0, d.1);
    }
    forall w | w in owner' && owner'[w] == Queue
      ensures exists b :: b in q && b.vec == w
    {
      assert owner[w] == Queue;
    }
  }

  lemma OwnsDelete(q: seq<Burst>, cells: Cells, owner: map<Address, Owner>, freed: set<Address>, v: Address)
    requires Owns(q, cells, owner, freed) && v in owner && owner[v] == Held
    ensures Owns(q, cells, owner - {v}, freed + {v})
  {
    forall w | w in owner - {v} && (owner - {v})[w] == Queue
      ensures exists b :: b in q && b.vec == w
    {
      assert owner[w] == Queue;
    }
  }

  // ----- conservation of bursts -----------------------------------------------------------

  /** Every burst accepted so far is still queued, was sent or was dropped, and
      none of them twice. */
  ghost predicate Conserves(accepted: multiset<Burst>, q: seq<Burst>, sent: seq<Burst>, dropped: seq<Burst>,
                            seen: set<Address>, sps: int) {
    && accepted == multiset(q) + multiset(sent) + multiset(dropped)
    && (forall b :: b in accepted ==> accepted[b] == 1 && Proper(b, sps) && b.vec in seen)
  }

  /** A burst for a real time, as long as its slot. */
  predicate Proper(b: Burst, sps: int) {
    InRange(b.time) && b.vec.samples == BurstLen(sps, b.time.tn)
  }

  /** Bursts that left the queue were as long as their slots. */
  lemma LeftProper(accepted: multiset<Burst>, q: seq<Burst>, sent: seq<Burst>, dropped: seq<Burst>,
                   seen: set<Address>, sps: int, b: Burst)
    requires Conserves(accepted, q, sent, dropped, seen, sps) && (b in sent || b in dropped)
    ensures Proper(b, sps)
  {
    assert b in accepted;
  }

  lemma ConservesEnqueue(accepted: multiset<Burst>, q: seq<Burst>, sent: seq<Burst>, dropped: seq<Burst>,
                         seen: set<Address>, sps: int, b: Burst)
    requires Conserves(accepted, q, sent, dropped, seen, sps) && b.vec !in seen && Proper(b, sps)
    ensures Conserves(accepted + multiset{b}, q + [b], sent, dropped, seen + {b.vec}, sps)
  {
    assert b !in accepted;
  }

  lemma ConservesDequeue(accepted: multiset<Burst>, q: seq<Burst>, sent: seq<Burst>, dropped: seq<Burst>,
                         seen: set<Address>, sps: int, k: int)
    requires Conserves(accepted, q, sent, dropped, seen, sps) && 0 <= k < |q|
    ensures InRange(q[k].time)
    ensures Conserves(accepted, Without(q, k), sent + [q[k]], dropped, seen, sps)
    ensures Conserves(accepted, Without(q, k), sent, dropped + [q[k]], seen, sps)
  {
    WithoutOne(q, k);
    assert q[k] in accepted;
  }

  // ----- the channel ------------------------------------------------------------------

  class TxChannel {
    var queue: seq<Burst>
    var retrans: bool
    const chanType: array<int>
    const period: array<int>
    const table: array2<Address>
    /** How far, in frames, queued bursts may lie behind and ahead of the
        deadline. */
    ghost const back: int
    ghost const ahead: int
    /** Samples per symbol. */
    ghost const sps: int

    /** Live signal vectors and who is responsible for each. */
    ghost var owner: map<Address, Owner>
    ghost var freed: set<Address>
    /** Every write to the filler table so far, and its first content. */
    ghost var log: seq<Update>
    ghost const initial: Cells
    /** The filler table as a value. */
    ghost var cells: Cells
    /** Every burst ever queued, and where it went. */
    ghost var accepted: multiset<Burst>
    ghost var sent: seq<Burst>
    ghost var dropped: seq<Burst>

    ghost predicate Shape()
      reads period
    {
      && chanType.Length == 8 && period.Length == 8
      && chanType != period
      && 1 <= back && 0 <= ahead && back + ahead < HALF
      && (forall t :: 0 <= t < 8 ==> 0 < period[t] <= ROWS && Multiframe(period[t]))
    }

    ghost predicate Mirrors()
      reads this, table
    {
      && table.Length0 == ROWS && table.Length1 == 8
      && (forall r, t :: 0 <= r < ROWS && 0 <= t < 8 ==> (r, t) in cells && cells[(r, t)] == table[r, t])
    }

    ghost predicate Valid()
      reads this, period, table
    {
      && Shape() && Mirrors()
      && Owns(queue, cells, owner, freed)
      && HoldsLastWrites(cells, log, initial) && CellsFit(cells, sps)
      && Conserves(accepted, queue, sent, dropped, owner.Keys + freed, sps)
    }

    /** Every vector that was ever live. */
    ghost function Seen(): set<Address>
      reads this`owner, this`freed
    {
      owner.Keys + freed
    }

    /** Nothing is held by a caller. */
    ghost predicate Idle()
      reads this`owner
    {
      forall v :: v in owner ==> owner[v] != Held
    }

    ghost predicate Windowed(now: Time)
      reads this`queue
    {
      InRange(now) && 1 <= back && 0 <= ahead && back + ahead < HALF && AllInWindow(queue, now, back, ahead)
    }

    /** `TransceiverState::init`: every cell of the table gets a vector of its
        own. Random normal and EDGE fillers also set the type of every slot. */
    constructor (fill: seq<seq<Address>>, randomFill: bool, retrans: bool, ghost back: int, ghost ahead: int,
                 ghost sps: int)
      requires AllDifferent(fill)
      requires forall r, t :: 0 <= r < ROWS && 0 <= t < 8 ==> fill[r][t].samples == BurstLen(sps, t)
      requires 1 <= back && 0 <= ahead && back + ahead < HALF
      ensures Valid() && Idle() && queue == [] && log == [] && freed == {} && fresh(table) && fresh(period)
              && fresh(chanType)
      ensures this.retrans == retrans && this.back == back && this.ahead == ahead && this.sps == sps
      ensures accepted == multiset{} && sent == [] && dropped == [] && cells == initial
      ensures cells == CellsOf(fill) && owner == OwnersOf(fill)
      ensures forall t :: 0 <= t < 8 ==> period[t] == 26 && chanType[t] == if randomFill then TSC else INACTIVE
    {
      hide Owns, Conserves, HoldsLastWrites, CellsFit, CellsOf, OwnersOf, AllDifferent;
      FreshTable(fill);
      FreshFits(fill, sps);
      NothingAccepted(OwnersOf(fill).Keys + {}, sps);
      queue := [];
      this.retrans := retrans;
      var combinations := NewSlots(if randomFill then TSC else INACTIVE);
      var periods := NewSlots(26);
      var fillers := NewTable(fill);
      chanType, period, table := combinations, periods, fillers;
      this.back, this.ahead, this.sps := back, ahead, sps;
      initial, cells := CellsOf(fill), CellsOf(fill);
      owner := OwnersOf(fill);
      freed, log, accepted, sent, dropped := {}, [], multiset{}, [], [];
    }

    /** `SETSLOT`: a new channel combination for a timeslot, and `setModulus`. */
    method SetSlot(timeslot: int, combination: int) returns (ok: bool)
      requires Valid()
      modifies chanType, period
      ensures Valid() && ok == (0 <= timeslot < 8)
      ensures chanType.Length == period.Length == 8
      ensures forall t :: 0 <= t < 8 && !(ok && t == timeslot) ==>
                chanType[t] == old(chanType[t]) && period[t] == old(period[t])
      ensures ok ==> chanType[timeslot] == combination
      // The codes of the combinations, in the order they are declared in: FILL and
      // NONE are 0 and 14, the others their Roman numbers.
      ensures ok ==> period[timeslot] == if combination in {0, 1, 2, 3, 14} then 26
                                         else if combination in {4, 5, 6} then 51
                                         else if combination == 7 then 102
                                         else if combination == 13 then 52
                                         else old(period[timeslot])
    {
      hide Owns, Conserves, HoldsLastWrites, CellsFit;
      if timeslot < 0 || timeslot > 7 {
        return false;
      }
      chanType[timeslot] := combination;
      period[timeslot] := Period(combination, period[timeslot]);
      return true;
    }

    /** `mTxPriorityQueues[chan].write`: takes over a freshly made vector. */
    method Write(b: Burst)
      requires Valid()
      requires Proper(b, sps) && b.vec !in owner && b.vec !in freed
      modifies this`queue, this`owner, this`accepted
      ensures Valid()
      ensures queue == old(queue) + [b] && accepted == old(accepted) + multiset{b}
      ensures owner == old(owner)[b.vec := Queue] && Seen() == old(Seen()) + {b.vec}
    {
      hide Owns, Conserves, HoldsLastWrites, CellsFit;
      OwnsEnqueue(queue, cells, owner, freed, b);
      ConservesEnqueue(accepted, queue, sent, dropped, owner.Keys + freed, sps, b);
      queue := queue + [b];
      owner := owner[b.vec := Queue];
      accepted := accepted + multiset{b};
      assert owner.Keys + freed == old(owner.Keys + freed) + {b.vec};
    }

    /** `mTxPriorityQueues[chan].clear`: deletes whatever is queued. */
    method Clear()
      requires Valid() && Idle()
      modifies this`queue, this`owner, this`freed, this`sent, this`dropped
      ensures Valid() && Idle() && queue == [] && sent == old(sent) && Seen() == old(Seen())
    {
      while |queue| > 0
        invariant Valid() && Idle() && sent == old(sent) && Seen() == old(Seen())
        decreases |queue|
      {
        var k :| 0 <= k < |queue|;
        var top := Pop(k, false);
        Delete(top.vec);
      }
    }

    /** Releases the memory of a vector some caller holds. */
    method Delete(v: Address)
      requires Valid() && v in owner && owner[v] == Held
      modifies this`owner, this`freed
      ensures Valid()
      ensures owner == old(owner) - {v} && freed == old(freed) + {v} && Seen() == old(Seen())
    {
      hide Owns, Conserves, HoldsLastWrites, CellsFit;
      OwnsDelete(queue, cells, owner, freed, v);
      owner := owner - {v};
      freed := freed + {v};
      assert owner.Keys + freed == old(owner.Keys + freed);
    }

    /** `mQ.pop` of the burst at `k`. */
    method Pop(k: int, ghost sending: bool) returns (top: Burst)
      requires Valid() && 0 <= k < |queue|
      modifies this`queue, this`owner, this`sent, this`dropped
      ensures Valid() && queue == Without(old(queue), k)
      ensures top == old(queue[k]) && InRange(top.time) && Popped(top, queue, old(queue), owner, old(owner))
      ensures sent == if sending then old(sent) + [top] else old(sent)
      ensures dropped == if sending then old(dropped) else old(dropped) + [top]
      ensures Seen() == old(Seen())
    {
      hide Owns, Conserves, HoldsLastWrites, CellsFit, Without, Multiframe;
      top := queue[k];
      OwnsDequeue(queue, cells, owner, freed, k);
      ConservesDequeue(accepted, queue, sent, dropped, owner.Keys + freed, sps, k);
      WithoutOne(queue, k);
      assert (owner[top.vec := Held]).Keys == owner.Keys;
      queue, owner := Without(queue, k), owner[top.vec := Held];
      if sending {
        sent := sent + [top];
      } else {
        dropped := dropped + [top];
      }
    }

    /** Takes the earliest burst if it is before `targ`. */
    method GetStaleBurst(targ: Time) returns (r: Option<Burst>)
      requires Valid() && Windowed(targ)
      modifies this`queue, this`owner, this`sent, this`dropped
      ensures Valid() && Windowed(targ) && sent == old(sent)
      ensures StaleTaken(old(queue), queue, r, targ) && dropped == old(dropped) + AsSeq(r) && Seen() == old(Seen())
      ensures r.None? ==> owner == old(owner)
      ensures r.Some? ==> Popped(r.value, queue, old(queue), owner, old(owner))
    {
      if |queue| == 0 {
        return None;
      }
      TopExists(queue, targ, back, ahead);
      var k :| IsTop(queue, k);
      TopDecides(queue, k, targ, back, ahead);
      if Less(queue[k].time, targ) {
        StaysInWindow(queue, k, targ, back, ahead);
        var top := Pop(k, false);
        return Some(top);
      }
      return None;
    }

    /** Takes the earliest burst if it is for exactly `targ`; an earlier one on top
        of it hides it. */
    method GetCurrentBurst(targ: Time) returns (r: Option<Burst>)
      requires Valid() && Windowed(targ)
      modifies this`queue, this`owner, this`sent, this`dropped
      ensures Valid() && Windowed(targ) && dropped == old(dropped) && Seen() == old(Seen())
      ensures r.Some? <==> && (exists b :: b in old(queue) && b.time == targ)
                           && forall b :: b in old(queue) ==> !Less(b.time, targ)
      ensures r.None? ==> queue == old(queue) && owner == old(owner) && sent == old(sent)
      ensures r.Some? ==> r.value.time == targ && sent == old(sent) + [r.value]
      ensures r.Some? ==> Popped(r.value, queue, old(queue), owner, old(owner))
    {
      if |queue| == 0 {
        return None;
      }
      TopExists(queue, targ, back, ahead);
      var k :| IsTop(queue, k);
      TopDecides(queue, k, targ, back, ahead);
      if queue[k].time == targ {
        StaysInWindow(queue, k, targ, back, ahead);
        var top := Pop(k, true);
        return Some(top);
      }
      return None;
    }

    /** Another thread queues bursts, while this one does not hold the lock. */
    method Arrive(late: seq<Burst>, now: Time)
      requires Valid() && Idle() && Windowed(now) && Arrivals(late, Seen(), now, sps, back, ahead)
      modifies this`queue, this`owner, this`accepted
      ensures Valid() && Idle() && Windowed(now)
      ensures queue == old(queue) + late && accepted == old(accepted) + multiset(late)
              && Seen() == old(Seen()) + Vecs(late)
    {
      hide Owns, Conserves, HoldsLastWrites, CellsFit, Shape, Mirrors, IncTN, Proper, InWindow, InRange;
      for i := 0 to |late|
        invariant Valid() && Idle() && Windowed(now)
        invariant queue == old(queue) + late[..i] && accepted == old(accepted) + multiset(late[..i])
        invariant Seen() == old(Seen()) + Vecs(late[..i])
      {
        NextArrives(late, i, old(Seen()), now, sps, back, ahead);
        Write(late[i]);
      }
      assert late[..|late|] == late;
    }

    /** Puts the vector of a departing burst in the cell its time maps to. */
    method UpdateFillerTable(b: Burst)
      requires Valid() && (b in sent || b in dropped) && b.vec in owner && owner[b.vec] == Held
      modifies this`owner, this`freed, this`log, this`cells, table
      ensures Valid() && InRange(b.time)
      ensures log == old(log) + [Update(b.time.fn % period[b.time.tn], b.time.tn, b.vec)]
      ensures cells == old(cells)[(b.time.fn % period[b.time.tn], b.time.tn) := b.vec]
      ensures table[b.time.fn % period[b.time.tn], b.time.tn] == b.vec
      ensures Row(b.time, period[..]) == b.time.fn % period[b.time.tn]
      ensures Installed(b.vec, owner, old(owner)) && Seen() == old(Seen())
    {
      hide Owns, Conserves, HoldsLastWrites, CellsFit;
      LeftProper(accepted, queue, sent, dropped, owner.Keys + freed, sps, b);
      var tn := b.time.tn;
      var row := b.time.fn % period[tn];
      FitsAfterInstall(cells, sps, (row, tn), b.vec);
      OwnsInstall(queue, cells, owner, freed, (row, tn), b.vec);
      HoldsAfterInstall(cells, log, initial, (row, tn), b.vec);
      owner, freed := owner - {table[row, tn]}, freed + {table[row, tn]};
      table[row, tn] := b.vec;
      owner := owner[b.vec := Filler(row, tn)];
      log := log + [Update(row, tn, b.vec)];
      cells := cells[(row, tn) := b.vec];
      assert owner.Keys + freed == old(owner.Keys + freed);
    }

    /** The vector of the cell that slot `now` maps to. */
    method FillerOf(now: Time) returns (vec: Address)
      requires Valid() && InRange(now)
      ensures vec == table[now.fn % period[now.tn], now.tn]
      ensures (now.fn % period[now.tn], now.tn) in cells && vec == cells[(now.fn % period[now.tn], now.tn)]
      ensures Row(now, period[..]) == now.fn % period[now.tn]
      ensures vec in owner && owner[vec].Filler? && vec.samples == BurstLen(sps, now.tn)
    {
      hide Owns, Conserves, HoldsLastWrites, CellsFit, Multiframe, BurstLen;
      var tn := now.tn;
      var row := now.fn % period[tn];
      CellIsOwned(queue, cells, owner, freed, (row, tn));
      CellFits(cells, sps, (row, tn));
      vec := table[row, tn];
    }

    /** A burst is going out: its vector stays in the filler table if the channel
        retransmits, and is otherwise left with the caller. */
    method Spend(b: Burst) returns (filler: bool)
      requires Valid() && HoldsExactly(owner, Some(b)) && b in sent
      modifies this`owner, this`freed, this`log, this`cells, table
      ensures Valid() && filler == retrans && b.vec in owner && b.vec.samples == BurstLen(sps, b.time.tn)
      ensures HoldsExactly(owner, if retrans then None else Some(b)) && Seen() == old(Seen())
      ensures log == Logged(old(log), retrans, [b], period[..])
      ensures filler ==>
                (Row(b.time, period[..]), b.time.tn) in cells
                && b.vec == cells[(Row(b.time, period[..]), b.time.tn)]
    {
      hide Owns, Conserves, HoldsLastWrites, CellsFit, BurstLen, Multiframe, Row;
      LeftProper(accepted, queue, sent, dropped, owner.Keys + freed, sps, b);
      if retrans {
        UpdateFillerTable(b);
        return true;
      }
      return false;
    }

    /** The channel's part of `pushRadioVector`: drops what is stale, then
        chooses what goes out in slot `now`. In between, the lock is free, and
        another thread queues `late`. The vector is left to the caller to release
        if and only if `filler` is false. */
    method PushSlot(now: Time, late: seq<Burst>) returns (vec: Address, zero: bool, filler: bool, ghost c: Choice)
      requires Valid() && Idle() && Windowed(now) && Arrivals(late, Seen(), now, sps, back, ahead)
      modifies this`queue, this`owner, this`freed, this`log, this`cells, this`sent, this`dropped, this`accepted, table
      ensures c.vec == vec && c.zero == zero && c.filler == filler && c.late == late
      ensures c.types == chanType[..] && c.period == period[..] && c.retrans == retrans
      ensures chanType.Length == 8 && InRange(now) && zero == (chanType[now.tn] == 14)
      ensures accepted == old(accepted) + multiset(late)
      ensures Lent(now, c) && Served(now, c) && c.before == old(Now())
    {
      hide Owns, Conserves, HoldsLastWrites, CellsFit, BurstLen, Multiframe, Row, Logged, AllInWindow, StaleDropped,
           SlotServed, Taken, Arrivals, Vecs;
      ghost var before := Now();
      ghost var stale := DropStale(now);
      ghost var rest := queue;
      Arrive(late, now);
      zero := chanType[now.tn] == INACTIVE;
      ghost var burst;
      vec, filler, burst := ChooseVector(now);
      ServeSlot(before.queue, rest, queue, stale, late, burst, now);
      LoggedCurrent(before.log, retrans, stale, burst, period[..]);
      LateStay(late, before.seen, now, sps, back, ahead);
      c := Choice(vec, zero, filler, stale, late, burst, before, Now(), retrans, chanType[..], period[..], initial);
    }

    /** The filler of the slot, or the burst for it if it is on top. */
    method ChooseVector(now: Time) returns (vec: Address, filler: bool, ghost current: Option<Burst>)
      requires Valid() && Idle() && Windowed(now)
      modifies this`queue, this`owner, this`freed, this`log, this`cells, this`sent, this`dropped, table
      ensures Valid() && Windowed(now) && dropped == old(dropped) && Seen() == old(Seen())
      ensures Taken(old(queue), queue, current, now) && sent == old(sent) + AsSeq(current)
      ensures log == Logged(old(log), retrans, AsSeq(current), period[..])
      ensures vec in owner && vec.samples == BurstLen(sps, now.tn)
      ensures filler == (current.None? || retrans) && HoldsExactly(owner, if filler then None else current)
      ensures current.Some? ==> vec == current.value.vec
      ensures filler ==> (Row(now, period[..]), now.tn) in cells && vec == cells[(Row(now, period[..]), now.tn)]
    {
      hide Owns, Conserves, HoldsLastWrites, CellsFit, BurstLen, Multiframe, Row, Logged, AllInWindow;
      vec := FillerOf(now);
      filler := true;
      LoggedNothing(log, retrans, period[..]);
      var burst := GetCurrentBurst(now);
      current := burst;
      if burst.Some? {
        vec := burst.value.vec;
        filler := Spend(burst.value);
      }
    }

    /** The end of `pushRadioVector`: deletes a vector that was only lent to
        the radio. */
    method Release(now: Time, vec: Address, filler: bool, ghost c: Choice)
      requires Lent(now, c) && c.vec == vec && c.filler == filler
      modifies this`owner, this`freed
      ensures Valid() && Idle() && Windowed(now) && Now() == old(Now())
      ensures old(Served(now, c)) ==> Served(now, c)
    {
      hide Windowed, SlotStep, InWindow, IncTN, BurstLen, AllInWindow, Owns, Conserves, HoldsLastWrites, CellsFit,
           Multiframe;
      if !filler {
        Delete(vec);
      }
    }

    /** After its part of slot `now`: the vector to send is live, and it is the
        only one that may be held by the caller. */
    ghost predicate Lent(now: Time, c: Choice)
      reads this, period, table
    {
      && Valid() && Windowed(now)
      && c.vec in owner && (!c.filler ==> c.current.Some? && c.vec == c.current.value.vec)
      && HoldsExactly(owner, if c.filler then None else c.current)
    }

    /** The channel is as slot `now` left it. */
    ghost predicate Served(now: Time, c: Choice)
      reads this`queue, this`sent, this`dropped, this`log, this`cells, this`owner, this`freed, this`retrans, period,
            chanType
    {
      && chanType.Length == 8
      && SlotStep(c, now, sps)
      && c.after == Now() && c.retrans == retrans && c.initial == initial
      && c.types == chanType[..] && c.period == period[..]
      && (forall b :: b in c.late ==> InWindow(b.time, IncTN(now), back, ahead))
    }

    ghost function Now(): Snapshot
      reads this`queue, this`sent, this`dropped, this`log, this`cells, this`owner, this`freed
    {
      Snapshot(queue, sent, dropped, log, cells, Seen())
    }

    method DropStale(now: Time) returns (ghost stale: seq<Burst>)
      requires Valid() && Idle() && Windowed(now)
      modifies this`queue, this`owner, this`freed, this`log, this`cells, this`sent, this`dropped, table
      ensures Valid() && Windowed(now) && Idle()
      ensures StaleDropped(old(queue), queue, stale, now)
      ensures dropped == old(dropped) + stale && sent == old(sent) && Seen() == old(Seen())
      ensures log == Logged(old(log), retrans, stale, period[..])
    {
      hide Valid, Windowed, Logged, StaleDropped, StaleSoFar, StaleTaken, InRange, Less, AsSeq;
      ghost var rows, log0, dropped0 := period[..], log, dropped;
      stale := [];
      LoggedNothing(log, retrans, rows);
      var burst := GetStaleBurst(now);
      StaleFirst(old(queue), queue, burst, now);
      assert dropped == dropped0 + (stale + AsSeq(burst));
      while burst.Some?
        invariant Valid() && Windowed(now) && period[..] == rows
        invariant HoldsExactly(owner, burst)
        invariant StaleSoFar(old(queue), queue, stale, burst, now)
        invariant dropped == dropped0 + (stale + AsSeq(burst)) && sent == old(sent) && Seen() == old(Seen())
        invariant log == Logged(log0, retrans, stale, rows)
        decreases |queue| + |AsSeq(burst)|
      {
        LoggedOne(log0, retrans, stale, burst.value, rows);
        InDropped(dropped0, stale, burst);
        ghost var q, taken := queue, burst;
        stale := stale + [burst.value];
        burst := DiscardAndNext(burst.value, now);
        StaleNext(old(queue), q, queue, stale, taken, burst, now);
        DroppedOne(dropped0, stale, taken, burst);
      }
      StaleDone(old(queue), queue, stale, burst, now);
    }

    /** The body of the loop that drops stale bursts, and its next guard. */
    method DiscardAndNext(b: Burst, now: Time) returns (next: Option<Burst>)
      requires Valid() && HoldsExactly(owner, Some(b)) && b in dropped && Windowed(now)
      modifies this`queue, this`owner, this`freed, this`log, this`cells, this`sent, this`dropped, table
      ensures Valid() && Windowed(now) && HoldsExactly(owner, next)
      ensures StaleTaken(old(queue), queue, next, now)
      ensures dropped == old(dropped) + AsSeq(next) && sent == old(sent) && Seen() == old(Seen())
      ensures log == Logged(old(log), retrans, [b], period[..])
    {
      hide Valid, Windowed, Logged, StaleTaken, InRange, AsSeq;
      Discard(b);
      next := GetStaleBurst(now);
    }

    /** `delete burst` for a stale burst, after its vector has gone to the
        filler table if the channel retransmits. */
    method Discard(b: Burst)
      requires Valid() && HoldsExactly(owner, Some(b)) && b in dropped
      modifies this`owner, this`freed, this`log, this`cells, table
      ensures Valid() && HoldsExactly(owner, None) && Seen() == old(Seen())
      ensures log == Logged(old(log), retrans, [b], period[..])
    {
      hide Valid, Row;
      if retrans {
        UpdateFillerTable(b);
      } else {
        Delete(b.vec);
      }
    }
  }

  /** The update log after a channel has let go of `bs`. */
  function Logged(log: seq<Update>, retrans: bool, bs: seq<Burst>, period: seq<int>): seq<Update> {
    if retrans then log + Updates(bs, period) else log
  }

  lemma LoggedNothing(log: seq<Update>, retrans: bool, period: seq<int>)
    ensures Logged(log, retrans, [], period) == log
  {
  }

  lemma LoggedOne(log: seq<Update>, retrans: bool, bs: seq<Burst>, b: Burst, period: seq<int>)
    ensures Logged(Logged(log, retrans, bs, period), retrans, [b], period) == Logged(log, retrans, bs + [b], period)
  {
  }

  lemma DroppedOne(dropped: seq<Burst>, stale: seq<Burst>, o: Option<Burst>, o': Option<Burst>)
    requires stale != [] && o.Some? && stale[|stale| - 1] == o.value
    ensures dropped + (stale[..|stale| - 1] + AsSeq(o)) + AsSeq(o') == dropped + (stale + AsSeq(o'))
  {
    assert stale == stale[..|stale| - 1] + AsSeq(o);
  }

  /** What is left of queue `q0` after dropping `stale`: nothing earlier than
      `now`, and everything dropped was. */
  ghost predicate StaleDropped(q0: seq<Burst>, q: seq<Burst>, stale: seq<Burst>, now: Time) {
    && multiset(q0) == multiset(q) + multiset(stale)
    && (forall b :: b in stale ==> Less(b.time, now) && InRange(b.time))
    && (forall b :: b in q ==> !Less(b.time, now))
  }

  /** The queue before and after slot `now`, with `late` queued during it: every
      burst that left did so once, dropped because it was before `now` or used
      because it was for exactly `now`; nothing before `now` is left but what came
      late; and a burst for `now` is used exactly when there is one and nothing
      earlier came late. */
  ghost predicate SlotServed(q0: seq<Burst>, q: seq<Burst>, stale: seq<Burst>, late: seq<Burst>,
                             current: Option<Burst>, now: Time) {
    && multiset(q0) + multiset(late) == multiset(q) + multiset(stale) + multiset(AsSeq(current))
    && multiset(stale) <= multiset(q0)
    && (forall b :: b in stale ==> Less(b.time, now) && InRange(b.time))
    && (forall b :: b in q && Less(b.time, now) ==> b in late)
    && (current.Some? ==> current.value.time == now)
    && (current.Some? <==> && (exists b :: b in q0 + late && b.time == now)
                           && forall b :: b in late ==> !Less(b.time, now))
  }

  /** One channel's slot: what happened to the queue, what was recorded of it,
      and what went out, as long as the slot: the burst if there is one, and
      otherwise the filler cell the slot maps to. With retransmission, and only
      then, every burst that left went to the filler table, whose cells hold what
      was last written to them. */
  ghost predicate SlotStep(c: Choice, now: Time, sps: int) {
    && InRange(now)
    && SlotServed(c.before.queue, c.after.queue, c.stale, c.late, c.current, now)
    && c.after.dropped == c.before.dropped + c.stale && c.after.sent == c.before.sent + AsSeq(c.current)
    && c.after.log == Logged(c.before.log, c.retrans, c.stale + AsSeq(c.current), c.period)
    && c.after.seen == c.before.seen + Vecs(c.late)
    && HoldsLastWrites(c.after.cells, c.after.log, c.initial)
    && Periodic(c.period) && |c.types| == 8 && c.zero == (c.types[now.tn] == INACTIVE)
    && c.vec.samples == BurstLen(sps, now.tn)
    && c.filler == (c.current.None? || c.retrans)
    && (c.current.Some? ==> c.vec == c.current.value.vec)
    && (c.filler ==>
         (Row(now, c.period), now.tn) in c.after.cells
         && c.vec == c.after.cells[(Row(now, c.period), now.tn)])
  }

  function Vecs(bs: seq<Burst>): set<Address> {
    set b | b in bs :: b.vec
  }

  /** Bursts that another thread may queue during slot `now`: with vectors of
      their own, as long as their slots, and inside the window of this deadline
      and the next. */
  ghost predicate Arrivals(late: seq<Burst>, seen: set<Address>, now: Time, sps: int, back: int, ahead: int) {
    && (forall b :: b in late ==> Proper(b, sps) && b.vec !in seen)
    && (forall b :: b in late ==> InWindow(b.time, now, back, ahead) && InWindow(b.time, IncTN(now), back, ahead))
    && (forall i, j :: 0 <= i < j < |late| ==> late[i].vec != late[j].vec)
  }

  lemma NextArrives(late: seq<Burst>, i: nat, seen: set<Address>, now: Time, sps: int, back: int, ahead: int)
    requires Arrivals(late, seen, now, sps, back, ahead) && i < |late|
    ensures Proper(late[i], sps) && late[i].vec !in seen + Vecs(late[..i]) && InWindow(late[i].time, now, back, ahead)
    ensures Vecs(late[..i + 1]) == Vecs(late[..i]) + {late[i].vec}
    ensures late[..i + 1] == late[..i] + [late[i]]
  {
    hide Proper, InWindow, IncTN;
    assert late[..i + 1] == late[..i] + [late[i]];
    forall v | v in Vecs(late[..i + 1])
      ensures v in Vecs(late[..i]) + {late[i].vec}
    {
      var b :| b in late[..i + 1] && b.vec == v;
      assert b in late[..i] || b == late[i];
    }
    assert late[i] in late[..i + 1];
    assert forall b :: b in late[..i] ==> b in late[..i + 1];
  }

  lemma LateStay(late: seq<Burst>, seen: set<Address>, now: Time, sps: int, back: int, ahead: int)
    requires Arrivals(late, seen, now, sps, back, ahead)
    ensures forall b :: b in late ==> InWindow(b.time, IncTN(now), back, ahead)
  {
  }

  /** What one call of `getCurrentBurst` does to the queue. */
  ghost predicate Taken(q0: seq<Burst>, q: seq<Burst>, current: Option<Burst>, now: Time) {
    && (current.None? ==> q == q0)
    && (current.Some? ==> current.value.time == now && multiset(q0) == multiset(q) + multiset{current.value})
    && (current.Some? <==> (exists b :: b in q0 && b.time == now) && forall b :: b in q0 ==> !Less(b.time, now))
  }

  lemma ServeSlot(q0: seq<Burst>, q1: seq<Burst>, q2: seq<Burst>, stale: seq<Burst>, late: seq<Burst>,
                  current: Option<Burst>, now: Time)
    requires StaleDropped(q0, q1, stale, now)
    requires Taken(q1 + late, q2, current, now)
    ensures SlotServed(q0, q2, stale, late, current, now)
  {
    SameMatch(q0, q1, stale, late, now);
    hide Less;
    assert multiset(q1 + late) == multiset(q1) + multiset(late);
    assert multiset(q1 + late) == multiset(q2) + multiset(AsSeq(current));
    Regroup(multiset(q0), multiset(q1), multiset(stale), multiset(late), multiset(q2), multiset(AsSeq(current)));
    forall b | b in q2
      ensures b in q1 + late
    {
      if current.Some? {
        assert b in multiset(q2);
        assert b in multiset(q1 + late);
      }
    }
  }

  lemma Regroup(a: multiset<Burst>, b: multiset<Burst>, c: multiset<Burst>, d: multiset<Burst>, e: multiset<Burst>,
                f: multiset<Burst>)
    requires a == b + c && b + d == e + f
    ensures a + d == e + c + f
  {
    forall x: Burst
      ensures (a + d)[x] == (e + c + f)[x]
    {
      assert (b + d)[x] == (e + f)[x];
    }
  }

  /** What is dropped as stale does not change whether there is a burst for the
      slot, and all that is early now came late. */
  lemma SameMatch(q0: seq<Burst>, q1: seq<Burst>, stale: seq<Burst>, late: seq<Burst>, now: Time)
    requires StaleDropped(q0, q1, stale, now)
    ensures (exists b :: b in q1 + late && b.time == now) <==> (exists b :: b in q0 + late && b.time == now)
    ensures (forall b :: b in q1 + late ==> !Less(b.time, now)) <==> (forall b :: b in late ==> !Less(b.time, now))
    ensures forall b :: b in q1 + late && Less(b.time, now) ==> b in late
  {
    forall b | b in q0
      ensures b in q1 || b in stale
    {
      assert b in multiset(q0);
    }
    forall b | b in q1
      ensures b in q0
    {
      assert b in multiset(q1) + multiset(stale);
      assert b in multiset(q0);
    }
    forall b | b in q0 + late && b.time == now
      ensures b in q1 + late
    {
      assert !Less(b.time, now);
    }
    forall b | b in late
      ensures b in q1 + late
    {
    }
  }

  ghost predicate StaleSoFar(q0: seq<Burst>, q: seq<Burst>, stale: seq<Burst>, o: Option<Burst>, now: Time) {
    && multiset(q0) == multiset(q) + multiset(stale) + multiset(AsSeq(o))
    && (forall b :: b in stale + AsSeq(o) ==> Less(b.time, now) && InRange(b.time))
    && (o.None? ==> forall b :: b in q ==> !Less(b.time, now))
  }

  /** What one call of `GetStaleBurst` does to the queue. */
  ghost predicate StaleTaken(q0: seq<Burst>, q: seq<Burst>, o: Option<Burst>, now: Time) {
    && (o.None? ==> q == q0 && forall b :: b in q0 ==> !Less(b.time, now))
    && (o.Some? ==> Less(o.value.time, now) && InRange(o.value.time) && multiset(q0) == multiset(q) + multiset{o.value})
  }

  lemma StaleFirst(q0: seq<Burst>, q: seq<Burst>, o: Option<Burst>, now: Time)
    requires StaleTaken(q0, q, o, now)
    ensures StaleSoFar(q0, q, [], o, now)
  {
  }

  lemma InDropped(dropped: seq<Burst>, stale: seq<Burst>, o: Option<Burst>)
    requires o.Some?
    ensures o.value in dropped + (stale + AsSeq(o))
  {
    assert o.value in stale + AsSeq(o);
  }

  lemma StaleNext(q0: seq<Burst>, q: seq<Burst>, q': seq<Burst>, stale: seq<Burst>, o: Option<Burst>,
                  o': Option<Burst>, now: Time)
    requires stale != [] && o.Some? && stale[|stale| - 1] == o.value
    requires StaleSoFar(q0, q, stale[..|stale| - 1], o, now) && StaleTaken(q, q', o', now)
    ensures StaleSoFar(q0, q', stale, o', now)
    ensures |q'| + |AsSeq(o')| == |q|
  {
    assert stale == stale[..|stale| - 1] + [o.value];
    assert |multiset(q)| == |q| && |multiset(q')| == |q'|;
  }

  lemma StaleDone(q0: seq<Burst>, q: seq<Burst>, stale: seq<Burst>, o: Option<Burst>, now: Time)
    requires StaleSoFar(q0, q, stale, o, now) && o.None?
    ensures StaleDropped(q0, q, stale, now)
    ensures stale + AsSeq(o) == stale
  {
    assert stale + AsSeq(o) == stale;
  }

  method NewTable(fill: seq<seq<Address>>) returns (table: array2<Address>)
    requires AllDifferent(fill)
    ensures fresh(table) && table.Length0 == ROWS && table.Length1 == 8
    ensures forall r, t :: 0 <= r < ROWS && 0 <= t < 8 ==>
              (r, t) in CellsOf(fill) && CellsOf(fill)[(r, t)] == table[r, t]
  {
    table := new Address[ROWS, 8]((r, t) requires 0 <= r < ROWS && 0 <= t < 8 && |fill| == ROWS
                                  && |fill[r]| == 8 => fill[r][t]);
    FreshTable(fill);
  }

  method NewSlots(value: int) returns (slots: array<int>)
    ensures fresh(slots) && slots.Length == 8
    ensures forall t :: 0 <= t < 8 ==> slots[t] == value
  {
    slots := new int[8](_ => value);
  }

  function AsSeq(o: Option<Burst>): seq<Burst> {
    match o
    case None => []
    case Some(b) => [b]
  }

  /** The caller holds the vector of `o`, if any, and no other. */
  ghost predicate HoldsExactly(owner: map<Address, Owner>, o: Option<Burst>) {
    && (o.Some? ==> o.value.vec in owner)
    && (forall v :: v in owner ==> (owner[v] == Held <==> o.Some? && v == o.value.vec))
  }

  lemma CellIsOwned(q: seq<Burst>, cells: Cells, owner: map<Address, Owner>, freed: set<Address>, c: (int, int))
    requires Owns(q, cells, owner, freed) && c in cells
    ensures cells[c] in owner && owner[cells[c]].Filler?
  {
  }

  lemma LoggedCurrent(log: seq<Update>, retrans: bool, stale: seq<Burst>, o: Option<Burst>, period: seq<int>)
    ensures Logged(Logged(log, retrans, stale, period), retrans, AsSeq(o), period)
            == Logged(log, retrans, stale + AsSeq(o), period)
  {
    if o.Some? {
      LoggedOne(log, retrans, stale, o.value, period);
    } else {
      assert stale + AsSeq(o) == stale;
      LoggedNothing(Logged(log, retrans, stale, period), retrans, period);
    }
  }

  /** Every cell holds what was last written to it. */
  ghost predicate HoldsLastWrites(cells: Cells, log: seq<Update>, initial: Cells) {
    forall c :: c in cells ==> c in initial && cells[c] == LastWrite(log, c.0, c.1, initial[c])
  }

  /** Every cell holds a vector as long as its slot. */
  ghost predicate CellsFit(cells: Cells, sps: int) {
    forall c :: c in cells ==> cells[c].samples == BurstLen(sps, c.1)
  }

  lemma FitsAfterInstall(cells: Cells, sps: int, c: (int, int), v: Address)
    requires CellsFit(cells, sps) && v.samples == BurstLen(sps, c.1)
    ensures CellsFit(cells[c := v], sps)
  {
  }

  lemma CellFits(cells: Cells, sps: int, c: (int, int))
    requires CellsFit(cells, sps) && c in cells
    ensures cells[c].samples == BurstLen(sps, c.1)
  {
  }

  lemma FreshFits(fill: seq<seq<Address>>, sps: int)
    requires AllDifferent(fill)
    requires forall r, t :: 0 <= r < ROWS && 0 <= t < 8 ==> fill[r][t].samples == BurstLen(sps, t)
    ensures CellsFit(CellsOf(fill), sps)
  {
    forall c | c in CellsOf(fill)
      ensures CellsOf(fill)[c].samples == BurstLen(sps, c.1)
    {
      OnlyCells(fill, c);
      CellAt(fill, c.0, c.1);
    }
  }

  lemma HoldsAfterInstall(cells: Cells, log: seq<Update>, initial: Cells, c: (int, int), v: Address)
    requires HoldsLastWrites(cells, log, initial) && c in cells
    ensures HoldsLastWrites(cells[c := v], log + [Update(c.0, c.1, v)], initial)
  {
    var cells' := cells[c := v];
    forall d | d in cells'
      ensures d in initial && cells'[d] == LastWrite(log + [Update(c.0, c.1, v)], d.0, d.1, initial[d])
    {
      assert d in cells;
      LastWriteAppend(log, Update(c.0, c.1, v), d.0, d.1, initial[d]);
    }
  }

  /** Vector `v` moved from the caller's hands to the filler table, and no
      other held vector was touched. */
  ghost predicate Installed(v: Address, owner: map<Address, Owner>, owner0: map<Address, Owner>) {
    && v in owner && owner[v].Filler?
    && (forall w :: w in owner && owner[w] == Held <==> w in owner0 && owner0[w] == Held && w != v)
  }

  lemma StaysInWindow(q: seq<Burst>, k: int, now: Time, back: int, ahead: int)
    requires AllInWindow(q, now, back, ahead) && 0 <= k < |q|
    ensures AllInWindow(Without(q, k), now, back, ahead)
    ensures multiset(q) == multiset(Without(q, k)) + multiset{q[k]}
  {
    WithoutOne(q, k);
  }

  /** The effect of taking burst `b` off a queue. */
  ghost predicate Popped(b: Burst, q: seq<Burst>, q0: seq<Burst>, owner: map<Address, Owner>,
                         owner0: map<Address, Owner>) {
    && multiset(q0) == multiset(q) + multiset{b}
    && owner == owner0[b.vec := Held] && b.vec in owner0 && owner0[b.vec] == Queue
  }

  /** What the top says of the whole queue. */
  lemma TopDecides(q: seq<Burst>, k: int, now: Time, back: int, ahead: int)
    requires InRange(now) && 0 <= back && 0 <= ahead && back + ahead < HALF
    requires AllInWindow(q, now, back, ahead) && IsTop(q, k)
    ensures q[k] in q
    ensures !Less(q[k].time, now) <==> forall b :: b in q ==> !Less(b.time, now)
    ensures !Less(q[k].time, now) ==> (q[k].time == now <==> exists b :: b in q && b.time == now)
  {
    TopIsLeast(q, k, now, back, ahead);
    forall b | b in q
      ensures Less(b.time, now) <==> Ahead(now, b.time) < 0
      ensures b.time == now <==> Ahead(now, b.time) == 0
    {
      WindowOrder(b.time, b.time, now, back, ahead);
    }
  }
}
