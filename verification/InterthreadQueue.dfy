/** The queue between threads as a protocol: each step is what one thread does
    while it holds the lock, and the steps of any number of readers and writers
    interleave in any order. Waiting readers may also be woken for no reason. */
module InterthreadQueues {
  import opened Wrappers

  /** A thread in one of the two blocking reads: with or without a timeout. */
  datatype Reader = Reader(id: nat, timed: bool)

  /** The queue, the readers waiting for its signal, those woken that have not
      got the lock back yet, and the writers that have let go of the lock but not
      signalled yet; then everything ever written and the items, other than null
      pointers, taken out. */
  datatype State<T> = State(q: seq<Option<T>>, waiting: set<Reader>, woken: set<Reader>, pending: nat,
                            written: seq<Option<T>>, taken: seq<T>)

  /** `Write` is the write of InterthreadQueue; `Put` and `Signal` together are
      that of InterthreadQueue2. `expired` says that the time of a timed read is
      over, `wakes` which reader a signal reaches. */
  datatype Action<T> =
    | Read(reader: Reader, expired: bool)
    | ReadNoBlock
    | Write(item: Option<T>, front: bool, wakes: Option<Reader>)
    | Put(item: Option<T>, front: bool)
    | Signal(wakes: Option<Reader>)
    | WakeUp(reader: Reader)
    | Resume(reader: Reader, expired: bool)
    | Flush

  /** A signal reaches a waiting reader, if there is one. */
  predicate Reaches(waiting: set<Reader>, wakes: Option<Reader>) {
    if waiting == {} then wakes.None? else wakes.Some? && wakes.value in waiting
  }

  predicate Enabled<T>(s: State<T>, a: Action<T>) {
    match a
    case Read(r, _) => r !in s.waiting && r !in s.woken
    case ReadNoBlock => true
    case Write(_, _, wakes) => Reaches(s.waiting, wakes)
    case Put(_, _) => true
    case Signal(wakes) => s.pending > 0 && Reaches(s.waiting, wakes)
    case WakeUp(r) => r in s.waiting
    case Resume(r, _) => r in s.woken
    case Flush => true
  }

  /** The items that are not null pointers. */
  function NonNull<T>(items: seq<Option<T>>): seq<T> {
    if items == [] then []
    else NonNull(items[..|items| - 1]) + if items[|items| - 1].Some? then [items[|items| - 1].value] else []
  }

  /** `get` of the FIFO underneath. */
  function Take<T>(s: State<T>): State<T> {
    if s.q == [] then s
    else s.(q := s.q[1..], taken := s.taken + if s.q[0].Some? then [s.q[0].value] else [])
  }

  /** One turn of the loop of a blocking read. The untimed read goes on as long as
      it gets a null pointer, the timed one as long as the queue is empty. */
  function Turn<T>(s: State<T>, r: Reader, expired: bool): State<T> {
    if r.timed then
      if s.q == [] && !expired then s.(waiting := s.waiting + {r}) else Take(s)
    else if s.q == [] || s.q[0].None? then
      Take(s).(waiting := s.waiting + {r})
    else
      Take(s)
  }

  function Woken<T>(s: State<T>, wakes: Option<Reader>): State<T> {
    if wakes.Some? then s.(waiting := s.waiting - {wakes.value}, woken := s.woken + {wakes.value}) else s
  }

  function Stored<T>(s: State<T>, item: Option<T>, front: bool): State<T> {
    s.(q := if front then [item] + s.q else s.q + [item], written := s.written + [item])
  }

  function Step<T>(s: State<T>, a: Action<T>): State<T>
    requires Enabled(s, a)
  {
    match a
    case Read(r, expired) => Turn(s, r, expired)
    case ReadNoBlock => Take(s)
    case Write(item, front, wakes) => Woken(Stored(s, item, front), wakes)
    case Put(item, front) => Stored(s, item, front).(pending := s.pending + 1)
    case Signal(wakes) => Woken(s, wakes).(pending := s.pending - 1)
    case WakeUp(r) => Woken(s, Some(r))
    case Resume(r, expired) => Turn(s.(woken := s.woken - {r}), r, expired)
    case Flush => s.(q := [], taken := s.taken + NonNull(s.q))
  }

  function Initial<T>(): State<T> {
    State([], {}, {}, 0, [], [])
  }

  /** The state after a run, or none if some step was not enabled. */
  function After<T>(s: State<T>, run: seq<Action<T>>): Option<State<T>> {
    if run == [] then Some(s)
    else
      var before := After(s, run[..|run| - 1]);
      if before.Some? && Enabled(before.value, run[|run| - 1]) then Some(Step(before.value, run[|run| - 1])) else None
  }

  // ----- what single steps do --------------------------------------------------------------------

  /** Every read takes the head of the queue if there is one, and delivers it
      unless it is a null pointer. */
  lemma ReadTakesHead<T>(s: State<T>, a: Action<T>)
    requires Enabled(s, a) && (a.Read? || a.ReadNoBlock? || a.Resume?)
    ensures Step(s, a).q == (if s.q == [] then [] else s.q[1..]) && Step(s, a).written == s.written
    ensures Step(s, a).taken == s.taken + if s.q != [] && s.q[0].Some? then [s.q[0].value] else []
    ensures Step(s, a).pending == s.pending
  {
  }

  /** A read without waiting leaves no one waiting; an untimed one waits on after
      an empty queue and after a null pointer, and a timed one after an empty
      queue until its time is over. */
  lemma ReadWaitsIff<T>(s: State<T>, a: Action<T>)
    requires Enabled(s, a) && s.waiting !! s.woken
    ensures a.ReadNoBlock? ==> Step(s, a).waiting == s.waiting && Step(s, a).woken == s.woken
    ensures a.Read? || a.Resume? ==>
              var waits := s.q == [] || (!a.reader.timed && s.q[0].None?);
              && Step(s, a).woken == s.woken - {a.reader}
              && Step(s, a).waiting
                 == if waits && !(a.reader.timed && a.expired) then s.waiting + {a.reader} else s.waiting
  {
  }

  /** A write puts its item at the end it names, and the signal, at once or later,
      wakes exactly one waiting reader if there is one. */
  lemma WriteStores<T>(s: State<T>, a: Action<T>)
    requires Enabled(s, a) && s.waiting !! s.woken
    ensures a.Write? || a.Put? ==>
              && Step(s, a).q == (if a.front then [a.item] + s.q else s.q + [a.item])
              && Step(s, a).written == s.written + [a.item] && Step(s, a).taken == s.taken
    ensures a.Put? ==> Step(s, a).waiting == s.waiting && Step(s, a).pending == s.pending + 1
    ensures a.Signal? ==> Step(s, a).q == s.q && Step(s, a).pending == s.pending - 1
    ensures (a.Write? || a.Signal?) && s.waiting == {} ==> Step(s, a).waiting == {} && Step(s, a).woken == s.woken
    ensures (a.Write? || a.Signal?) && s.waiting != {} ==>
              exists r :: r in s.waiting && Step(s, a).waiting == s.waiting - {r} && Step(s, a).woken == s.woken + {r}
  {
    if (a.Write? || a.Signal?) && s.waiting != {} {
      var r := a.wakes.value;
      assert r in s.waiting && Step(s, a).waiting == s.waiting - {r} && Step(s, a).woken == s.woken + {r};
    }
  }

  // ----- wake-ups --------------------------------------------------------------------------------

  /** While a reader waits, every item in the queue has somebody on the way: a
      woken reader or a writer about to signal. */
  ghost predicate NoLostWakeUp<T>(s: State<T>) {
    s.waiting != {} ==> |s.q| <= |s.woken| + s.pending
  }

  ghost predicate Inv<T>(s: State<T>) {
    s.waiting !! s.woken && NoLostWakeUp(s)
  }

  /** Only an untimed read that gets a null pointer out of a queue that is not
      then empty can break it. */
  ghost predicate TakesNull<T>(s: State<T>, a: Action<T>) {
    && (a.Read? || a.Resume?) && !a.reader.timed
    && |s.q| > 1 && s.q[0].None?
  }

  lemma WokenSize(woken: set<Reader>, r: Reader)
    ensures r in woken ==> |woken - {r}| == |woken| - 1
    ensures r !in woken ==> |woken + {r}| == |woken| + 1
  {
  }

  /** A signal that reaches a waiting reader makes up for one more item. */
  lemma WokenKeeps<T>(s: State<T>, wakes: Option<Reader>)
    requires s.waiting !! s.woken && Reaches(s.waiting, wakes)
    ensures Woken(s, wakes).waiting !! Woken(s, wakes).woken && Woken(s, wakes).waiting <= s.waiting
    ensures Woken(s, wakes).q == s.q && Woken(s, wakes).pending == s.pending
    ensures |Woken(s, wakes).woken| == |s.woken| + if wakes.Some? then 1 else 0
  {
    if wakes.Some? {
      WokenSize(s.woken, wakes.value);
    }
  }

  /** A turn of a reader that was not woken, and one of a reader that was. */
  lemma TurnKeeps<T>(s: State<T>, r: Reader, expired: bool, was: nat)
    requires r !in s.waiting && r !in s.woken && s.waiting !! s.woken
    requires |s.woken| <= was <= |s.woken| + 1
    requires s.waiting != {} ==> |s.q| <= was + s.pending
    requires !(!r.timed && |s.q| > 1 && s.q[0].None?)
    ensures Inv(Turn(s, r, expired))
  {
    hide NonNull;
  }

  lemma StepKeeps<T>(s: State<T>, a: Action<T>)
    requires Inv(s) && Enabled(s, a) && !TakesNull(s, a)
    ensures Inv(Step(s, a))
  {
    hide NonNull, Turn, Woken;
    match a
    case Read(r, expired) => TurnKeeps(s, r, expired, |s.woken|);
    case Write(item, front, wakes) => WokenKeeps(Stored(s, item, front), wakes);
    case Signal(wakes) => WokenKeeps(s, wakes);
    case WakeUp(r) => WokenKeeps(s, Some(r));
    case Resume(r, expired) =>
      WokenSize(s.woken, r);
      TurnKeeps(s.(woken := s.woken - {r}), r, expired, |s.woken|);
    case _ =>
  }

  /** No null pointer is written. */
  ghost predicate WritesItem<T>(a: Action<T>) {
    a.Write? || a.Put? ==> a.item.Some?
  }

  ghost predicate AllItems<T>(q: seq<Option<T>>) {
    forall i :: 0 <= i < |q| ==> q[i].Some?
  }

  lemma StepKeepsItems<T>(s: State<T>, a: Action<T>)
    requires Enabled(s, a) && AllItems(s.q) && WritesItem(a)
    ensures AllItems(Step(s, a).q) && !TakesNull(s, a)
  {
  }

  /** Over every run of either queue, with any number of readers and writers,
      timed and untimed, and at either end of the queue: as long as no null
      pointer is written, no wake-up is lost. */
  lemma {:induction false} NoWakeUpIsLost<T>(run: seq<Action<T>>)
    requires (forall i :: 0 <= i < |run| ==> WritesItem(run[i])) && After(Initial(), run).Some?
    ensures Inv(After(Initial(), run).value) && AllItems(After(Initial(), run).value.q)
  {
    hide Enabled, Step, WritesItem, AllItems, TakesNull;
    if run == [] {
      EmptyQueue<T>();
    } else {
      var s, a := After(Initial(), run[..|run| - 1]).value, run[|run| - 1];
      NoWakeUpIsLost(run[..|run| - 1]);
      StepKeepsItems(s, a);
      StepKeeps(s, a);
    }
  }

  lemma EmptyQueue<T>()
    ensures Inv(Initial<T>()) && AllItems(Initial<T>().q) && Ordered(Initial<T>()) && Conserved(Initial<T>())
  {
  }

  // ----- null pointers -------------------------------------------------------------------------------

  /** A run of InterthreadQueue (`atomic`) or of InterthreadQueue2, writing at the
      back. */
  ghost predicate RunOf<T>(run: seq<Action<T>>, atomic: bool) {
    forall i :: 0 <= i < |run| ==> WritesBack(run[i]) && if atomic then !run[i].Put? else !run[i].Write?
  }

  ghost predicate WritesBack<T>(a: Action<T>) {
    a.Write? || a.Put? ==> !a.front
  }

  /** What is in the queue is the end of what was written, which is the beginning
      of `w`. */
  ghost predicate Within<T>(s: State<T>, w: seq<Option<T>>) {
    |s.q| <= |s.written| <= |w| && s.written == w[..|s.written|] && s.q == w[|s.written| - |s.q|..|s.written|]
  }

  ghost predicate NullOnlyLast<T>(w: seq<Option<T>>) {
    forall i :: 0 <= i < |w| - 1 ==> w[i].Some?
  }

  lemma StepWithin<T>(s: State<T>, a: Action<T>, w: seq<Option<T>>)
    requires Enabled(s, a) && WritesBack(a) && AtEnd(s) && Within(Step(s, a), w)
    ensures Within(s, w)
  {
    hide NonNull;
  }

  ghost predicate AtEnd<T>(s: State<T>) {
    |s.q| <= |s.written| && s.q == s.written[|s.written| - |s.q|..]
  }

  lemma TurnAtEnd<T>(s: State<T>, r: Reader, expired: bool)
    requires AtEnd(s)
    ensures AtEnd(Turn(s, r, expired)) && AtEnd(Take(s))
  {
    hide NonNull;
  }

  lemma StepAtEnd<T>(s: State<T>, a: Action<T>)
    requires Enabled(s, a) && WritesBack(a) && AtEnd(s)
    ensures AtEnd(Step(s, a))
  {
    hide NonNull, Turn, Take;
    match a
    case Read(r, expired) => TurnAtEnd(s, r, expired);
    case ReadNoBlock => TurnAtEnd(s, Reader(0, false), false);
    case Resume(r, expired) => TurnAtEnd(s.(woken := s.woken - {r}), r, expired);
    case _ =>
  }

  /** Written at the back, the queue is the end of what was written. */
  lemma {:induction false} QueueIsEnd<T>(run: seq<Action<T>>)
    requires (forall i :: 0 <= i < |run| ==> WritesBack(run[i])) && After(Initial(), run).Some?
    ensures AtEnd(After(Initial(), run).value)
  {
    hide Step, Enabled, WritesBack;
    if run != [] {
      QueueIsEnd(run[..|run| - 1]);
      StepAtEnd(After(Initial(), run[..|run| - 1]).value, run[|run| - 1]);
    }
  }

  /** A null pointer written last takes nothing from behind it. */
  lemma {:induction false} LastNullIsHarmless<T>(run: seq<Action<T>>, w: seq<Option<T>>)
    requires (forall i :: 0 <= i < |run| ==> WritesBack(run[i])) && After(Initial(), run).Some?
    requires NullOnlyLast(w) && Within(After(Initial(), run).value, w)
    ensures Inv(After(Initial(), run).value)
  {
    hide Enabled, Step, WritesBack;
    if run == [] {
      EmptyQueue<T>();
    } else {
      var s, a := After(Initial(), run[..|run| - 1]).value, run[|run| - 1];
      QueueIsEnd(run[..|run| - 1]);
      StepWithin(s, a, w);
      LastNullIsHarmless(run[..|run| - 1], w);
      assert |s.q| > 1 ==> s.q[0] == w[|s.written| - |s.q|];
      StepKeeps(s, a);
    }
  }

  lemma AfterStep<T>(s: State<T>, run: seq<Action<T>>, a: Action<T>)
    requires After(s, run).Some? && Enabled(After(s, run).value, a)
    ensures After(s, run + [a]) == Some(Step(After(s, run).value, a))
  {
    assert (run + [a])[..|run + [a]| - 1] == run;
  }

  /** Writes everything while nobody waits. */
  function Writing<T>(w: seq<Option<T>>, atomic: bool): seq<Action<T>> {
    if w == [] then []
    else
      var item := w[|w| - 1];
      Writing(w[..|w| - 1], atomic) + if atomic then [Write(item, false, None)] else [Put(item, false), Signal(None)]
  }

  /** Then as many readers come for an item each. */
  function Reading<T>(n: nat): seq<Action<T>> {
    if n == 0 then [] else Reading(n - 1) + [Read(Reader(n - 1, false), false)]
  }

  lemma {:induction false} WritingFills<T>(w: seq<Option<T>>, atomic: bool)
    ensures After(Initial(), Writing(w, atomic)) == Some(State(w, {}, {}, 0, w, []))
    ensures RunOf(Writing(w, atomic), atomic)
  {
    hide After, NonNull;
    if w == [] {
      AfterNothing<T>();
    } else {
      var rest, item := w[..|w| - 1], w[|w| - 1];
      assert w == rest + [item];
      WritingFills(rest, atomic);
      var run := Writing(rest, atomic);
      if atomic {
        AfterStep(Initial(), run, Write(item, false, None));
      } else {
        AfterStep(Initial(), run, Put(item, false));
        AfterStep(Initial(), run + [Put(item, false)], Signal(None));
        assert run + [Put(item, false)] + [Signal(None)] == Writing(w, atomic);
      }
    }
  }

  lemma AfterNothing<T>()
    ensures After(Initial<T>(), []) == Some(State([], {}, {}, 0, [], []))
  {
  }

  lemma {:induction false} ReadingTakes<T>(w: seq<Option<T>>, run: seq<Action<T>>, n: nat)
    requires n <= |w| && forall i :: 0 <= i < n ==> w[i].Some?
    requires After(Initial(), run) == Some(State(w, {}, {}, 0, w, []))
    ensures After(Initial(), run + Reading(n)).Some?
    ensures var s := After(Initial(), run + Reading(n)).value;
            s == State(w[n..], {}, {}, 0, w, s.taken)
  {
    hide After, NonNull;
    if n == 0 {
      assert run + Reading(n) == run;
    } else {
      ReadingTakes(w, run, n - 1);
      AfterStep(Initial(), run + Reading(n - 1), Read(Reader(n - 1, false), false));
      assert run + Reading(n) == run + Reading(n - 1) + [Read(Reader(n - 1, false), false)];
    }
  }

  lemma {:induction false} ReadingReads<T>(n: nat)
    ensures forall i :: 0 <= i < |Reading<T>(n)| ==> Reading<T>(n)[i].Read?
  {
    if n > 0 {
      ReadingReads<T>(n - 1);
    }
  }

  /** Write everything, take the items before the null pointer, and one reader
      more takes the null pointer and waits, with items in the queue. */
  lemma NullLosesWakeUp<T>(w: seq<Option<T>>, n: nat, atomic: bool) returns (run: seq<Action<T>>)
    requires n < |w| - 1 && w[n].None? && forall i :: 0 <= i < n ==> w[i].Some?
    ensures RunOf(run, atomic) && After(Initial(), run).Some?
    ensures After(Initial(), run).value.written == w && !NoLostWakeUp(After(Initial(), run).value)
  {
    hide After, NonNull, Writing, Reading;
    WritingFills(w, atomic);
    ReadingTakes(w, Writing(w, atomic), n);
    ReadingReads<T>(n);
    var before := Writing(w, atomic) + Reading(n);
    var last := Read(Reader(n, false), false);
    AfterStep(Initial(), before, last);
    run := before + [last];
    var t := After(Initial(), run).value;
    assert t.waiting == {Reader(n, false)} && t.q == w[n..][1..];
  }

  lemma FirstNull<T>(w: seq<Option<T>>) returns (n: nat)
    requires !NullOnlyLast(w)
    ensures n < |w| - 1 && w[n].None? && forall i :: 0 <= i < n ==> w[i].Some?
  {
    n := 0;
    while w[n].Some?
      invariant n < |w| - 1 && forall i :: 0 <= i < n ==> w[i].Some?
      invariant exists i :: n <= i < |w| - 1 && w[i].None?
      decreases |w| - n
    {
      n := n + 1;
    }
  }

  /** Writing `w` in order, in either queue, every schedule of any number of
      readers keeps its wake-ups exactly when no null pointer is written before
      something else. */
  lemma SafeIffNullOnlyLast<T(!new)>(w: seq<Option<T>>, atomic: bool)
    ensures (forall run :: RunOf(run, atomic) && After(Initial(), run).Some? && After(Initial(), run).value.written == w
                           ==> NoLostWakeUp(After(Initial(), run).value))
            <==> NullOnlyLast(w)
  {
    hide NoLostWakeUp, NullOnlyLast, After, Within;
    if NullOnlyLast(w) {
      forall run: seq<Action<T>> | RunOf(run, atomic) && After(Initial(), run).Some?
        && After(Initial(), run).value.written == w
        ensures NoLostWakeUp(After(Initial(), run).value)
      {
        QueueIsEnd(run);
        WithinAll(After(Initial(), run).value, w);
        LastNullIsHarmless(run, w);
      }
    } else {
      var n := FirstNull(w);
      var run := NullLosesWakeUp(w, n, atomic);
    }
  }

  lemma WithinAll<T>(s: State<T>, w: seq<Option<T>>)
    requires AtEnd(s) && s.written == w
    ensures Within(s, w)
  {
  }

  // ----- progress ----------------------------------------------------------------------------------

  /** A step of a thread that is already in the middle of a call. */
  ghost predicate UnderWay<T>(a: Action<T>) {
    a.Signal? || a.Resume?
  }

  ghost function StepsLeft<T>(s: State<T>): nat {
    2 * s.pending + |s.woken|
  }

  lemma StepsRunOut<T>(s: State<T>, a: Action<T>)
    requires s.waiting !! s.woken && Enabled(s, a) && UnderWay(a)
    ensures StepsLeft(Step(s, a)) < StepsLeft(s)
  {
    match a
    case Signal(wakes) =>
      if wakes.Some? {
        WokenSize(s.woken, wakes.value);
      }
    case Resume(r, _) => WokenSize(s.woken, r);
  }

  /** Once the threads in the middle of a call have done what they can, after at
      most twice as many steps, nobody waits for an item that is there. */
  lemma {:induction false} CallsSettle<T>(s: State<T>, run: seq<Action<T>>)
    requires Inv(s) && After(s, run).Some?
    requires AllItems(s.q) && forall i :: 0 <= i < |run| ==> UnderWay(run[i])
    ensures |run| + StepsLeft(After(s, run).value) <= StepsLeft(s) && |run| <= 2 * s.pending + |s.woken|
    ensures Inv(After(s, run).value) && AllItems(After(s, run).value.q)
    ensures (forall a :: UnderWay(a) ==> !Enabled(After(s, run).value, a))
            ==> After(s, run).value.waiting == {} || After(s, run).value.q == []
  {
    assert StepsLeft(s) == 2 * s.pending + |s.woken|;
    hide Enabled, Step, UnderWay, AllItems, StepsLeft, TakesNull;
    if run != [] {
      var before, a := After(s, run[..|run| - 1]).value, run[|run| - 1];
      CallsSettle(s, run[..|run| - 1]);
      UnderWayWrites(a);
      StepKeepsItems(before, a);
      StepKeeps(before, a);
      StepsRunOut(before, a);
    }
    var t := After(s, run).value;
    if forall a :: UnderWay(a) ==> !Enabled(t, a) {
      NoneUnderWay(t);
    }
  }

  lemma UnderWayWrites<T>(a: Action<T>)
    requires UnderWay(a)
    ensures WritesItem(a)
  {
  }

  lemma NoneUnderWay<T>(t: State<T>)
    requires forall a :: UnderWay(a) ==> !Enabled(t, a)
    ensures t.woken == {} && t.pending == 0
  {
    if r :| r in t.woken {
      assert UnderWay<T>(Resume(r, true)) && Enabled(t, Resume(r, true));
    }
    if t.pending > 0 {
      var wakes: Option<Reader> := None;
      if r :| r in t.waiting {
        wakes := Some(r);
      }
      assert UnderWay<T>(Signal(wakes)) && Enabled(t, Signal(wakes));
    }
  }

  // ----- items -------------------------------------------------------------------------------------

  lemma {:induction false} NonNullJoin<T>(a: seq<Option<T>>, b: seq<Option<T>>)
    ensures NonNull(a + b) == NonNull(a) + NonNull(b)
  {
    if b == [] {
      assert a + b == a;
    } else {
      assert (a + b)[..|a + b| - 1] == a + b[..|b| - 1];
      NonNullJoin(a, b[..|b| - 1]);
    }
  }

  lemma TakeConserves<T>(s: State<T>)
    ensures Take(s).taken + NonNull(Take(s).q) == s.taken + NonNull(s.q) && Take(s).written == s.written
  {
    if s.q != [] {
      assert s.q == [s.q[0]] + s.q[1..];
      NonNullJoin([s.q[0]], s.q[1..]);
    }
  }

  /** What was written is what was taken out and then what is left. */
  ghost predicate Ordered<T>(s: State<T>) {
    NonNull(s.written) == s.taken + NonNull(s.q)
  }

  ghost predicate Conserved<T>(s: State<T>) {
    multiset(NonNull(s.written)) == multiset(s.taken) + multiset(NonNull(s.q))
  }

  lemma TurnConserves<T>(s: State<T>, r: Reader, expired: bool)
    ensures Ordered(Turn(s, r, expired)) <==> Ordered(s)
    ensures Conserved(Turn(s, r, expired)) <==> Conserved(s)
  {
    hide NonNull, Take;
    TakeConserves(s);
    ConservedMeans(s);
    ConservedMeans(Take(s));
  }

  lemma ConservedMeans<T>(s: State<T>)
    ensures Conserved(s) <==> multiset(NonNull(s.written)) == multiset(s.taken + NonNull(s.q))
  {
  }

  lemma StoredConserves<T>(s: State<T>, item: Option<T>, front: bool)
    ensures Ordered(s) && !front ==> Ordered(Stored(s, item, front))
    ensures Conserved(s) ==> Conserved(Stored(s, item, front))
  {
    hide NonNull;
    NonNullJoin(s.written, [item]);
    NonNullJoin(s.q, [item]);
    NonNullJoin([item], s.q);
  }

  lemma StepConserves<T>(s: State<T>, a: Action<T>)
    requires Enabled(s, a)
    ensures Ordered(s) && WritesBack(a) ==> Ordered(Step(s, a))
    ensures Conserved(s) ==> Conserved(Step(s, a))
  {
    hide Turn, Stored, Take;
    match a
    case Read(r, expired) => TurnConserves(s, r, expired);
    case ReadNoBlock => TakeConserves(s); ConservedMeans(s); ConservedMeans(Take(s));
    case Write(item, front, _) => StoredConserves(s, item, front);
    case Put(item, front) => StoredConserves(s, item, front);
    case Resume(r, expired) => TurnConserves(s.(woken := s.woken - {r}), r, expired);
    case _ =>
  }

  lemma Delivered<T>(s: State<T>)
    ensures Ordered(s) <==> NonNull(s.written) == s.taken + NonNull(s.q)
    ensures Conserved(s) <==> multiset(NonNull(s.written)) == multiset(s.taken) + multiset(NonNull(s.q))
  {
  }

  /** Written at the back only, items come out in the order they went in, each
      once, whoever reads them; written at either end, still each exactly once. */
  lemma {:induction false} DeliveredOnce<T>(run: seq<Action<T>>)
    requires After(Initial(), run).Some?
    ensures (forall i :: 0 <= i < |run| ==> WritesBack(run[i])) ==> Ordered(After(Initial(), run).value)
    ensures Conserved(After(Initial(), run).value)
    // That is, leaving out null pointers:
    ensures var s := After(Initial(), run).value;
            && ((forall i :: 0 <= i < |run| && (run[i].Write? || run[i].Put?) ==> !run[i].front)
                ==> NonNull(s.written) == s.taken + NonNull(s.q))
            && multiset(NonNull(s.written)) == multiset(s.taken) + multiset(NonNull(s.q))
  {
    Delivered(After(Initial(), run).value);
    hide Enabled, Step, WritesBack, Ordered, Conserved;
    if run == [] {
      EmptyQueue<T>();
    } else {
      DeliveredOnce(run[..|run| - 1]);
      StepConserves(After(Initial(), run[..|run| - 1]).value, run[|run| - 1]);
    }
  }
}
