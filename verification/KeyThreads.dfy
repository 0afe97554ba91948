/** The hand-over of full buffers to the thread that sorts them. Every step of the two threads
  between which the other may run is a step here; the sorter's work on a batch takes a while and
  ends with a step of its own. */
module KeyThreads {
  import opened Wrappers
  import opened KeyOrder

  // ---------------------------------------------------------------- states

  datatype Holder = Nobody | Producer | Sorter

  // Where the producer is: outside (Idle), in a flush, or destroying the block. After a flush has
  // handed the buffer over it is in FinalTest, FinalWait, FinalWake, FlushUnlock or Reset.
  datatype ProducerAt =
    | Idle
    | FlushLock(final: bool) | FlushTest(final: bool) | FlushWait(final: bool) | FlushWake(final: bool)
    | FinalTest | FinalWait | FinalWake | FlushUnlock(final: bool) | Reset(final: bool)
    | DestroyLock | DestroyTest | DestroyWait | DestroyWake | DestroyUnlock | Join | Done

  datatype SorterAt = Lock | Test | Wait | Wake | Unlock | Sort | Lock2 | Clear | Unlock2 | ExitUnlock | Gone

  type Batch = seq<Posting>

  // The two buffers are a and b; keyB tells which is being filled, threadB which was handed over.
  // flushed, sorted and written record what was handed over, what was sorted, and all writes.
  datatype Data = Data(a: Batch, b: Batch, keyB: bool, ptrI: nat, threadB: bool, threadPtrI: nat,
                       flushed: seq<Batch>, sorted: seq<Batch>, written: Batch)

  datatype State = State(holder: Holder, producer: ProducerAt, sorter: SorterAt, isSorting: bool, exitFlag: bool,
                         data: Data)

  predicate Start(s: State) {
    && s.holder == Nobody && s.producer == Idle && s.sorter == Lock && !s.isSorting && !s.exitFlag
    && s.data.ptrI == 0 && s.data.flushed == [] && s.data.sorted == [] && s.data.written == []
  }

  function Buffer(d: Data, inB: bool): Batch {
    if inB then d.b else d.a
  }

  function Front(buf: Batch, n: nat): Batch {
    if n <= |buf| then buf[..n] else buf
  }

  /** What is in the buffer being filled. */
  function Filling(d: Data): Batch {
    Front(Buffer(d, d.keyB), d.ptrI)
  }

  /** What was handed over. */
  function Handed(d: Data): Batch {
    Front(Buffer(d, d.threadB), d.threadPtrI)
  }

  // ---------------------------------------------------------------- steps

  /** Adds a posting to the buffer being filled. */
  function Filled(d: Data, p: Posting): Data {
    var buf := Filling(d) + [p];
    (if d.keyB then d.(b := buf) else d.(a := buf)).(ptrI := d.ptrI + 1, written := d.written + [p])
  }

  /** What the producer does when it is outside. */
  ghost predicate ClientStep(s: State, t: State) {
    && s.producer == Idle
    && ((exists p :: t == s.(data := Filled(s.data, p)))
        || (exists final :: t == s.(producer := FlushLock(final))) || t == s.(producer := DestroyLock))
  }

  /** Signals the sorter. */
  function WakeSorter(s: State): State {
    if s.sorter == Wait then s.(sorter := Wake) else s
  }

  function WakeProducer(s: State): State {
    match s.producer
    case FlushWait(f) => s.(producer := FlushWake(f))
    case FinalWait => s.(producer := FinalWake)
    case DestroyWait => s.(producer := DestroyWake)
    case _ => s
  }

  /** Hands the buffer over and takes the other one. */
  function Swapped(d: Data): Data {
    d.(threadB := d.keyB, threadPtrI := d.ptrI, keyB := !d.keyB, flushed := d.flushed + [Filling(d)])
  }

  function HandOver(s: State, final: bool): State {
    WakeSorter(s.(isSorting := true, data := Swapped(s.data), producer := if final then FinalTest
        else FlushUnlock(false)))
  }

  /** Takes the mutex, if it is free. */
  function Acquire(s: State, at: ProducerAt): Option<State> {
    if s.holder == Nobody then Some(s.(holder := Producer, producer := at)) else None
  }

  function Release(s: State, at: ProducerAt): Option<State> {
    Some(s.(holder := Nobody, producer := at))
  }

  /** What the producer does next inside a flush or while it destroys the block. */
  function ProducerNext(s: State): Option<State> {
    match s.producer
    case Idle => None
    case FlushLock(f) => Acquire(s, FlushTest(f))
    case FlushTest(f) => if s.isSorting then Release(s, FlushWait(f)) else Some(HandOver(s, f))
    case FlushWait(_) => None
    case FlushWake(f) => Acquire(s, FlushTest(f))
    case FinalTest => if s.isSorting then Release(s, FinalWait) else Some(s.(producer := FlushUnlock(true)))
    case FinalWait => None
    case FinalWake => Acquire(s, FinalTest)
    case FlushUnlock(f) => Release(s, Reset(f))
    case Reset(_) => Some(s.(data := s.data.(ptrI := 0), producer := Idle))
    case DestroyLock => Acquire(s, DestroyTest)
    case DestroyTest =>
      if s.isSorting then Release(s, DestroyWait) else Some(WakeSorter(s.(exitFlag := true, producer := DestroyUnlock)))
    case DestroyWait => None
    case DestroyWake => Acquire(s, DestroyTest)
    case DestroyUnlock => Release(s, Join)
    case Join => if s.sorter == Gone then Some(s.(producer := Done)) else None
    case Done => None
  }

  /** What the sorter does next. */
  function SorterNext(s: State): Option<State> {
    match s.sorter
    case Lock => if s.holder == Nobody then Some(s.(holder := Sorter, sorter := Test)) else None
    case Test =>
      if s.exitFlag then Some(s.(sorter := ExitUnlock))
      else if s.isSorting then Some(s.(sorter := Unlock)) else Some(s.(holder := Nobody, sorter := Wait))
    case Wait => None
    case Wake => if s.holder == Nobody then Some(s.(holder := Sorter, sorter := Test)) else None
    case Unlock => Some(s.(holder := Nobody, sorter := Sort))
    case Sort => Some(s.(sorter := Lock2, data := s.data.(sorted := s.data.sorted + [Handed(s.data)])))
    case Lock2 => if s.holder == Nobody then Some(s.(holder := Sorter, sorter := Clear)) else None
    case Clear => Some(WakeProducer(s.(isSorting := false, sorter := Unlock2)))
    case Unlock2 => Some(s.(holder := Nobody, sorter := Lock))
    case ExitUnlock => Some(s.(holder := Nobody, sorter := Gone))
    case Gone => None
  }

  /** A thread that waits may wake without a signal. */
  predicate Spurious(s: State, t: State) {
    (s.sorter == Wait && t == s.(sorter := Wake)) || t == WakeProducer(s)
  }

  ghost predicate Step(s: State, t: State) {
    ClientStep(s, t) || Spurious(s, t) || ProducerNext(s) == Some(t) || SorterNext(s) == Some(t)
  }

  // ---------------------------------------------------------------- what every state keeps

  predicate ProducerHolds(at: ProducerAt) {
    at.FlushTest? || at.FinalTest? || at.FlushUnlock? || at.DestroyTest? || at.DestroyUnlock?
  }

  predicate SorterHolds(at: SorterAt) {
    at.Test? || at.Unlock? || at.Clear? || at.Unlock2? || at.ExitUnlock?
  }

  predicate Asleep(at: ProducerAt) {
    at.FlushWait? || at.FinalWait? || at.DestroyWait?
  }

  /** The buffer has been handed over but not yet been taken as empty. */
  predicate After(at: ProducerAt) {
    at.FinalTest? || at.FinalWait? || at.FinalWake? || at.FlushUnlock? || at.Reset?
  }

  ghost predicate Locked(s: State) {
    && (s.holder == Producer <==> ProducerHolds(s.producer)) && (s.holder == Sorter <==> SorterHolds(s.sorter))
    && (s.sorter.Unlock? || s.sorter.Sort? || s.sorter.Lock2? || s.sorter.Clear? ==> s.isSorting)
    && (s.sorter.Wait? || s.sorter.Unlock2? ==> !s.isSorting) && (s.sorter.Wait? ==> !s.exitFlag)
    && (s.sorter.ExitUnlock? || s.sorter.Gone? ==> s.exitFlag)
    && (s.exitFlag <==> s.producer.DestroyUnlock? || s.producer.Join? || s.producer.Done?)
    && (s.exitFlag ==> !s.isSorting)
    && (Asleep(s.producer) ==> s.isSorting) && (s.producer.Done? ==> s.sorter.Gone?)
    && ((s.producer.FlushUnlock? || s.producer.Reset?) && s.producer.final ==> !s.isSorting)
  }

  /** The batch handed over has yet to be sorted. */
  predicate Pending(s: State) {
    s.isSorting && !s.sorter.Lock2? && !s.sorter.Clear?
  }

  /** What has been written since the last hand-over. */
  function Unflushed(s: State): Batch {
    if After(s.producer) then [] else Filling(s.data)
  }

  /** What the data keep: after is set between a hand-over and the reset that ends the flush,
      busy while a batch is being sorted, pending until it has been. */
  ghost predicate DataOk(d: Data, after: bool, busy: bool, pending: bool) {
    && (!after ==> d.ptrI <= |Buffer(d, d.keyB)|) && (busy ==> d.threadB != d.keyB)
    && d.flushed == d.sorted + (if pending then [Handed(d)] else [])
    && d.written == Concat(d.flushed) + (if after then [] else Filling(d))
  }

  ghost predicate Kept(s: State) {
    DataOk(s.data, After(s.producer), s.isSorting, Pending(s))
  }

  ghost predicate Inv(s: State) {
    Locked(s) && Kept(s)
  }

  function Concat(bs: seq<Batch>): Batch {
    if bs == [] then [] else Concat(bs[..|bs| - 1]) + bs[|bs| - 1]
  }

  lemma ConcatMore(bs: seq<Batch>, x: Batch)
    ensures Concat(bs + [x]) == Concat(bs) + x
  {
    assert (bs + [x])[..|bs|] == bs;
  }

  lemma StartInv(s: State)
    requires Start(s)
    ensures Inv(s)
  {
  }

  lemma FilledOk(d: Data, p: Posting, busy: bool, pending: bool)
    requires DataOk(d, false, busy, pending) && (pending ==> busy)
    ensures DataOk(Filled(d, p), false, busy, pending)
  {
    assert Filling(Filled(d, p)) == Filling(d) + [p];
    assert Concat(d.flushed) + Filling(d) + [p] == Concat(d.flushed) + (Filling(d) + [p]);
    hide Concat;
  }

  lemma SwappedOk(d: Data)
    requires DataOk(d, false, false, false)
    ensures DataOk(Swapped(d), true, true, true)
  {
    ConcatMore(d.flushed, Filling(d));
    hide Concat;
  }

  lemma ResetOk(d: Data, busy: bool, pending: bool)
    requires DataOk(d, true, busy, pending)
    ensures DataOk(d.(ptrI := 0), false, busy, pending)
  {
    hide Concat;
  }

  lemma SortedOk(d: Data, after: bool)
    requires DataOk(d, after, true, true)
    ensures DataOk(d.(sorted := d.sorted + [Handed(d)]), after, true, false)
  {
    hide Concat;
  }

  lemma ClearedOk(d: Data, after: bool)
    requires DataOk(d, after, true, false)
    ensures DataOk(d, after, false, false)
  {
  }

  lemma ClientKeeps(s: State, t: State)
    requires Inv(s) && ClientStep(s, t)
    ensures Inv(t)
  {
    hide DataOk, Filled;
    if p :| t == s.(data := Filled(s.data, p)) { FilledOk(s.data, p, s.isSorting, Pending(s)); }
  }

  lemma ProducerKeeps(s: State)
    requires Inv(s) && ProducerNext(s).Some?
    ensures Inv(ProducerNext(s).value)
  {
    hide DataOk, Swapped;
    if s.producer.FlushTest? && !s.isSorting { SwappedOk(s.data); }
    if s.producer.Reset? { ResetOk(s.data, s.isSorting, Pending(s)); }
  }

  lemma SorterKeeps(s: State)
    requires Inv(s) && SorterNext(s).Some?
    ensures Inv(SorterNext(s).value)
  {
    hide DataOk;
    if s.sorter == Sort { SortedOk(s.data, After(s.producer)); }
    if s.sorter == Clear { ClearedOk(s.data, After(s.producer)); }
  }

  lemma StepKeeps(s: State, t: State)
    requires Inv(s) && Step(s, t)
    ensures Inv(t)
  {
    hide *;
    StepIs(s, t);
    if ClientStep(s, t) {
      ClientKeeps(s, t);
    } else if ProducerNext(s) == Some(t) {
      ProducerKeeps(s);
    } else if SorterNext(s) == Some(t) {
      SorterKeeps(s);
    } else {
      SpuriousKeeps(s, t);
    }
  }

  lemma StepIs(s: State, t: State)
    requires Step(s, t)
    ensures ClientStep(s, t) || Spurious(s, t) || ProducerNext(s) == Some(t) || SorterNext(s) == Some(t)
  {
  }

  lemma SpuriousKeeps(s: State, t: State)
    requires Inv(s) && Spurious(s, t)
    ensures Inv(t)
  {
    hide DataOk;
  }

  // ---------------------------------------------------------------- safety

  /** A run of the two threads. */
  ghost predicate Run(states: seq<State>) {
    && states != [] && Start(states[0])
    && forall i, j :: 0 <= i && j == i + 1 < |states| ==> Step(states[i], states[j])
  }

  lemma {:induction false} RunKeeps(states: seq<State>, n: nat)
    requires Run(states) && n < |states|
    ensures Inv(states[n])
  {
    if n == 0 {
      StartInv(states[0]);
    } else {
      RunKeeps(states, n - 1);
      StepKeeps(states[n - 1], states[n]);
    }
  }

  /** Never more than one batch waits to be sorted; batches are sorted once each, in the order in
      which they were handed over; and a batch that is being sorted is in the buffer that is not
      being filled, as it was handed over. */
  lemma BatchesInOrder(states: seq<State>, n: nat)
    requires Run(states) && n < |states|
    ensures var s, d := states[n], states[n].data;
      && d.sorted <= d.flushed && |d.flushed| <= |d.sorted| + 1 && d.written == Concat(d.flushed) + Unflushed(s)
      && (s.sorter == Sort ==>
          d.threadB != d.keyB && |d.flushed| == |d.sorted| + 1 && Handed(d) == d.flushed[|d.sorted|])
  {
    RunKeeps(states, n);
  }

  // ---------------------------------------------------------------- a call of the flush

  /** A flush is called in state m, and n is the first state in which the producer is outside again. */
  ghost predicate FlushCall(states: seq<State>, m: nat, n: nat, final: bool) {
    && m < n < |states| && states[m].producer == FlushLock(final) && states[n].producer == Idle
    && forall i :: m <= i < n ==> states[i].producer != Idle
  }

  /** What was in the buffer when the flush was called has been handed over, and nothing else was
      written or handed over meanwhile. */
  ghost predicate HandedOver(d0: Data, d: Data) {
    d.flushed == d0.flushed + [Filling(d0)] && d.written == d0.written
  }

  /** Where a flush may be that was called with the data d0. */
  ghost predicate Flushing(d0: Data, final: bool, s: State) {
    match s.producer
    case FlushLock(f) => f == final && Waiting(d0, s.data)
    case FlushTest(f) => f == final && Waiting(d0, s.data)
    case FlushWait(f) => f == final && Waiting(d0, s.data)
    case FlushWake(f) => f == final && Waiting(d0, s.data)
    case FinalTest => final && HandedOver(d0, s.data)
    case FinalWait => final && HandedOver(d0, s.data)
    case FinalWake => final && HandedOver(d0, s.data)
    case FlushUnlock(f) => f == final && HandedOver(d0, s.data)
    case Reset(f) => f == final && HandedOver(d0, s.data)
    case _ => false
  }

  ghost predicate Waiting(d0: Data, d: Data) {
    d.flushed == d0.flushed && d.written == d0.written && Filling(d) == Filling(d0)
  }

  /** The flush has returned: the buffer is empty, and after a final one all batches are sorted. */
  ghost predicate Flushed(d0: Data, final: bool, s: State) {
    && s.producer == Idle && HandedOver(d0, s.data) && Filling(s.data) == []
    && (final ==> s.data.sorted == s.data.flushed)
  }

  lemma FlushStep(d0: Data, final: bool, s: State, t: State)
    requires Inv(s) && Step(s, t) && Flushing(d0, final, s)
    ensures Flushing(d0, final, t) || Flushed(d0, final, t)
  {
    hide *;
    StepIs(s, t);
    FlushedIdle(d0, final, s);
    if ProducerNext(s) == Some(t) {
      ProducerFlushes(d0, final, s);
    } else {
      OthersFlush(d0, final, s, t);
    }
  }

  lemma ProducerFlushes(d0: Data, final: bool, s: State)
    requires Inv(s) && Flushing(d0, final, s) && ProducerNext(s).Some?
    ensures var t := ProducerNext(s).value; Flushing(d0, final, t) || Flushed(d0, final, t)
  {
    hide Concat;
    assert s.data.sorted + [] == s.data.sorted;
  }

  /** The sorter and wake-ups change nothing of a flush. */
  lemma OthersFlush(d0: Data, final: bool, s: State, t: State)
    requires Flushing(d0, final, s) && s.producer != Idle
    requires ClientStep(s, t) || Spurious(s, t) || SorterNext(s) == Some(t)
    ensures Flushing(d0, final, t)
  {
  }

  lemma {:induction false} FlushUpTo(states: seq<State>, m: nat, n: nat, final: bool, i: nat)
    requires Run(states) && FlushCall(states, m, n, final) && m <= i < n
    ensures Flushing(states[m].data, final, states[i])
  {
    hide *;
    CallParts(states, m, n, final, i);
    FlushStarts(states[m], final);
    if i > m {
      FlushUpTo(states, m, n, final, i - 1);
      RunKeeps(states, i - 1);
      RunStep(states, i - 1);
      FlushStep(states[m].data, final, states[i - 1], states[i]);
      FlushedIdle(states[m].data, final, states[i]);
    }
  }

  lemma RunStep(states: seq<State>, i: nat)
    requires Run(states) && i + 1 < |states|
    ensures Step(states[i], states[i + 1])
  {
    hide Step;
    var j := i + 1;
    assert Step(states[i], states[j]);
  }

  lemma CallBounds(states: seq<State>, m: nat, n: nat, final: bool)
    requires FlushCall(states, m, n, final)
    ensures m < n < |states|
  {
  }

  lemma CallParts(states: seq<State>, m: nat, n: nat, final: bool, i: nat)
    requires FlushCall(states, m, n, final) && m <= i < n
    ensures m < n < |states| && states[m].producer == FlushLock(final) && states[n].producer == Idle
    ensures states[i].producer != Idle
  {
  }

  lemma FlushStarts(s: State, final: bool)
    requires s.producer == FlushLock(final)
    ensures Flushing(s.data, final, s)
  {
  }

  lemma FlushedIdle(d0: Data, final: bool, s: State)
    ensures Flushed(d0, final, s) ==> s.producer == Idle
    ensures Flushing(d0, final, s) ==> s.producer != Idle
  {
  }

  /** A flush hands over exactly what was in the buffer, and leaves it empty. When a final flush returns,
      everything written has been sorted. */
  lemma FlushReturned(states: seq<State>, m: nat, n: nat, final: bool)
    requires Run(states) && FlushCall(states, m, n, final)
    ensures states[n].data.flushed == states[m].data.flushed + [Filling(states[m].data)]
    ensures states[n].data.written == states[m].data.written == Concat(states[n].data.flushed)
    ensures final ==> states[n].data.written == Concat(states[n].data.sorted)
  {
    hide *;
    CallBounds(states, m, n, final);
    CallParts(states, m, n, final, m);
    FlushUpTo(states, m, n, final, n - 1);
    RunKeeps(states, n - 1);
    RunStep(states, n - 1);
    FlushStep(states[m].data, final, states[n - 1], states[n]);
    FlushedIdle(states[m].data, final, states[n]);
    RunKeeps(states, n);
    FlushedParts(states[m].data, final, states[n]);
  }

  lemma FlushedParts(d0: Data, final: bool, s: State)
    requires Flushed(d0, final, s) && Inv(s)
    ensures s.data.flushed == d0.flushed + [Filling(d0)] && (final ==> s.data.sorted == s.data.flushed)
    ensures s.data.written == d0.written == Concat(s.data.flushed)
  {
    hide Concat, Locked;
    assert Concat(s.data.flushed) + [] == Concat(s.data.flushed);
  }

  // ---------------------------------------------------------------- destroying the block

  /** Where the destruction may be that was begun with the data d0. */
  ghost predicate Destroying(d0: Data, s: State) {
    && s.data.flushed == d0.flushed && s.data.written == d0.written
    && match s.producer
       case DestroyLock => true
       case DestroyTest => true
       case DestroyWait => true
       case DestroyWake => true
       case DestroyUnlock => s.data.sorted == s.data.flushed
       case Join => s.data.sorted == s.data.flushed
       case Done => s.data.sorted == s.data.flushed && s.sorter == Gone
       case _ => false
  }

  lemma DestroyStarts(s: State)
    requires s.producer == DestroyLock
    ensures Destroying(s.data, s)
  {
  }

  lemma DestroyStep(d0: Data, s: State, t: State)
    requires Inv(s) && Step(s, t) && Destroying(d0, s)
    ensures Destroying(d0, t)
  {
    hide Concat;
    assert s.data.sorted + [] == s.data.sorted;
  }

  /** From its destruction on the block is never used again; and when it is over, every batch that was
      handed over has been sorted, and the thread is gone. */
  lemma {:induction false} DestroyDropsNone(states: seq<State>, m: nat, n: nat)
    requires Run(states) && m <= n < |states| && states[m].producer == DestroyLock
    ensures Destroying(states[m].data, states[n])
  {
    hide *;
    DestroyStarts(states[m]);
    if m < n {
      DestroyDropsNone(states, m, n - 1);
      RunKeeps(states, n - 1);
      RunStep(states, n - 1);
      DestroyStep(states[m].data, states[n - 1], states[n]);
    }
  }

  // ---------------------------------------------------------------- progress

  /** An upper bound on the steps left until the producer is outside again or done, and the sorter
      at rest, when neither wakes without a signal. */
  function Rank(s: State): nat {
    ProducerRank(s.producer, s.isSorting) + SorterRank(s.sorter, s.isSorting)
  }

  function ProducerRank(at: ProducerAt, sorting: bool): nat {
    match at
    case FlushLock(_) => 32
    case DestroyLock => 32
    case FlushWake(_) => if sorting then 31 else 30
    case DestroyWake => if sorting then 31 else 30
    case FlushTest(_) => if sorting then 30 else 29
    case DestroyTest => if sorting then 30 else 29
    case FlushWait(_) => 29
    case DestroyWait => 29
    case FinalWake => if sorting then 15 else 12
    case FinalTest => if sorting then 14 else 11
    case FinalWait => 13
    case DestroyUnlock => 8
    case Join => 7
    case FlushUnlock(_) => 4
    case Reset(_) => 3
    case Idle => 0
    case Done => 0
  }

  function SorterRank(at: SorterAt, sorting: bool): nat {
    match at
    case Lock => if sorting then 12 else 4
    case Wake => if sorting then 12 else 4
    case Test => if sorting then 11 else 3
    case Unlock => 10
    case Sort => 9
    case Lock2 => 8
    case Clear => 7
    case Unlock2 => if sorting then 13 else 5
    case ExitUnlock => 2
    case Wait => 1
    case Gone => 0
  }

  /** Every step a thread takes by itself brings the end nearer. */
  lemma ProducerEnds(s: State)
    requires Inv(s) && ProducerNext(s).Some?
    ensures Rank(ProducerNext(s).value) < Rank(s)
  {
    hide Kept;
  }

  lemma SorterEnds(s: State)
    requires Inv(s) && SorterNext(s).Some?
    ensures Rank(SorterNext(s).value) < Rank(s)
  {
    hide Kept;
  }

  /** Inside a flush, or while it destroys the block, the producer can go on, or the sorter can. */
  lemma NeverStuck(s: State)
    requires Inv(s) && s.producer != Idle && s.producer != Done
    ensures ProducerNext(s).Some? || SorterNext(s).Some?
  {
    hide Kept;
  }

  ghost predicate OwnStep(s: State, t: State) {
    ProducerNext(s) == Some(t) || SorterNext(s) == Some(t)
  }

  lemma OwnStepKeeps(s: State, t: State)
    requires Inv(s) && OwnStep(s, t)
    ensures Inv(t) && Rank(t) < Rank(s)
  {
    hide Inv, Rank, ProducerNext, SorterNext;
    if ProducerNext(s) == Some(t) {
      ProducerEnds(s);
      ProducerKeeps(s);
    } else {
      SorterEnds(s);
      SorterKeeps(s);
    }
  }

  /** So every flush and every destruction comes to its end, however the two threads take turns:
      a run of steps of their own that started inside one is over, or can go on, and is no longer
      than the rank it started with. */
  lemma {:induction false} FlushReturns(states: seq<State>, n: nat)
    requires states != [] && Inv(states[0]) && n < |states|
    requires forall i, j :: 0 <= i && j == i + 1 < |states| ==> OwnStep(states[i], states[j])
    ensures Inv(states[n]) && n + Rank(states[n]) <= Rank(states[0])
    ensures
      || states[n].producer == Idle
      || states[n].producer == Done
      || ProducerNext(states[n]).Some?
      || SorterNext(states[n]).Some?
  {
    hide Inv, Rank, ProducerNext, SorterNext, OwnStep;
    if n > 0 {
      FlushReturns(states, n - 1);
      OwnStepKeeps(states[n - 1], states[n]);
    }
    if states[n].producer != Idle && states[n].producer != Done { NeverStuck(states[n]); }
  }
}
