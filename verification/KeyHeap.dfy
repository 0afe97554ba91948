/** The heap that merges run files: at its root is the least of the postings the runs come to next. */
module KeyHeap {
  import opened DictPage
  import opened KeyOrder
  import opened KeyCodec
  import opened KeyRun

  // ---------------------------------------------------------------- the order of the heap

  /** Slots are numbered from 0, places in the heap from 1; place 0 is not used. */
  ghost predicate PtrOk(ptr: seq<nat>, slots: nat) {
    && |ptr| == slots > 0 && (forall i :: 0 <= i < slots ==> ptr[i] < slots)
    && forall i, j :: 0 <= i < j < slots ==> ptr[i] != ptr[j]
  }

  function Swap(ptr: seq<nat>, i: nat, j: nat): (r: seq<nat>)
    requires i < |ptr| && j < |ptr|
    ensures |r| == |ptr| && r[i] == ptr[j] && r[j] == ptr[i]
    ensures forall k :: 0 <= k < |ptr| && k != i && k != j ==> r[k] == ptr[k]
  {
    ptr[i := ptr[j]][j := ptr[i]]
  }

  lemma SwapOk(ptr: seq<nat>, slots: nat, i: nat, j: nat)
    requires PtrOk(ptr, slots) && i < slots && j < slots
    ensures PtrOk(Swap(ptr, i, j), slots)
  {
  }

  ghost predicate Ordered(ptr: seq<nat>, buf: seq<Posting>, i: int, j: int) {
    0 <= i < |ptr| && 0 <= j < |ptr| && ptr[i] < |buf| && ptr[j] < |buf| && !Above(buf[ptr[i]], buf[ptr[j]], true)
  }

  /** The posting at place i is not below that of its parent. */
  ghost predicate ChildOk(ptr: seq<nat>, buf: seq<Posting>, i: int) {
    Ordered(ptr, buf, i / 2, i)
  }

  ghost predicate HeapOk(ptr: seq<nat>, buf: seq<Posting>, n: int) {
    forall i :: 2 <= i <= n ==> ChildOk(ptr, buf, i)
  }

  /** All is in order but for the posting at place cur, which may belong further down. */
  ghost predicate DownOk(ptr: seq<nat>, buf: seq<Posting>, n: int, cur: int) {
    && (forall i :: 2 <= i <= n && i / 2 != cur ==> ChildOk(ptr, buf, i))
    && (cur >= 2 ==> forall i :: 2 <= i <= n && i / 2 == cur ==> Ordered(ptr, buf, cur / 2, i))
  }

  /** All is in order but for the posting at place cur, which may belong further up. */
  ghost predicate UpOk(ptr: seq<nat>, buf: seq<Posting>, n: int, cur: int) {
    && (forall i :: 2 <= i <= n && i != cur ==> ChildOk(ptr, buf, i))
    && (cur >= 2 ==> forall i :: 2 <= i <= n && i / 2 == cur ==> Ordered(ptr, buf, cur / 2, i))
  }

  lemma OrderedTransitive(ptr: seq<nat>, buf: seq<Posting>, i: int, j: int, k: int)
    requires Ordered(ptr, buf, i, j) && Ordered(ptr, buf, j, k)
    ensures Ordered(ptr, buf, i, k)
  {
    AboveTransitive(buf[ptr[i]], buf[ptr[j]], buf[ptr[k]], true);
  }

  lemma NotOrdered(ptr: seq<nat>, buf: seq<Posting>, i: int, j: int)
    requires 0 <= i < |ptr| && 0 <= j < |ptr| && ptr[i] < |buf| && ptr[j] < |buf|
    ensures Above(buf[ptr[i]], buf[ptr[j]], true) ==> Ordered(ptr, buf, j, i)
    ensures !Above(buf[ptr[i]], buf[ptr[j]], true) <==> Ordered(ptr, buf, i, j)
  {
    AboveOrder(buf[ptr[i]], buf[ptr[j]], true);
  }

  /** What two places hold after the swap, they held before. */
  lemma OrderedSwap(ptr: seq<nat>, buf: seq<Posting>, a: nat, b: nat, i: nat, j: nat)
    requires a < |ptr| && b < |ptr| && i < |ptr| && j < |ptr|
    ensures Ordered(Swap(ptr, a, b), buf, i, j) <==>
      Ordered(ptr, buf, if i == a then b else if i == b then a else i, if j == a then b else if j == b then a else j)
  {
  }

  /** The child to compare with is the one that is not above the other. */
  ghost predicate LesserChild(ptr: seq<nat>, buf: seq<Posting>, n: int, cur: int, child: int) {
    2 <= child <= n && child / 2 == cur && forall i :: 2 <= i <= n && i / 2 == cur ==> Ordered(ptr, buf, child, i)
  }

  lemma DownStep(ptr: seq<nat>, buf: seq<Posting>, n: nat, cur: nat, child: nat)
    requires DownOk(ptr, buf, n, cur) && LesserChild(ptr, buf, n, cur, child) && cur >= 1 && n < |ptr|
    requires Ordered(ptr, buf, child, cur)
    ensures DownOk(Swap(ptr, cur, child), buf, n, child)
  {
    var ptr' := Swap(ptr, cur, child);
    hide Ordered, Swap;
    forall i | 2 <= i <= n && i / 2 != child
      ensures ChildOk(ptr', buf, i)
    {
      OrderedSwap(ptr, buf, cur, child, i / 2, i);
      if i / 2 != cur { assert ChildOk(ptr, buf, i); }
    }
    forall i | 2 <= i <= n && i / 2 == child
      ensures Ordered(ptr', buf, cur, i)
    {
      OrderedSwap(ptr, buf, cur, child, cur, i);
      assert ChildOk(ptr, buf, i);
    }
  }

  lemma DownEnd(ptr: seq<nat>, buf: seq<Posting>, n: nat, cur: nat, child: nat)
    requires DownOk(ptr, buf, n, cur) && cur >= 1
    requires 2 * cur > n || (LesserChild(ptr, buf, n, cur, child) && Ordered(ptr, buf, cur, child))
    ensures HeapOk(ptr, buf, n)
  {
    hide Ordered;
    forall i | 2 <= i <= n
      ensures ChildOk(ptr, buf, i)
    {
      if i / 2 == cur { OrderedTransitive(ptr, buf, cur, child, i); }
    }
  }

  lemma UpStep(ptr: seq<nat>, buf: seq<Posting>, n: nat, cur: nat)
    requires UpOk(ptr, buf, n, cur) && 2 <= cur <= n < |ptr| && Ordered(ptr, buf, cur, cur / 2)
    ensures UpOk(Swap(ptr, cur, cur / 2), buf, n, cur / 2)
  {
    var parent := cur / 2;
    var ptr' := Swap(ptr, cur, parent);
    hide Ordered, Swap;
    forall i | 2 <= i <= n && i != parent
      ensures ChildOk(ptr', buf, i)
    {
      OrderedSwap(ptr, buf, cur, parent, i / 2, i);
      if i != cur {
        assert ChildOk(ptr, buf, i);
        if i / 2 == parent { OrderedTransitive(ptr, buf, cur, parent, i); }
      }
    }
    if parent >= 2 {
      forall i | 2 <= i <= n && i / 2 == parent
        ensures Ordered(ptr', buf, parent / 2, i)
      {
        OrderedSwap(ptr, buf, cur, parent, parent / 2, i);
        assert ChildOk(ptr, buf, parent);
        if i != cur {
          assert ChildOk(ptr, buf, i);
          OrderedTransitive(ptr, buf, parent / 2, parent, i);
        }
      }
    }
  }

  lemma UpEnd(ptr: seq<nat>, buf: seq<Posting>, n: nat, cur: nat)
    requires UpOk(ptr, buf, n, cur) && (cur >= 2 ==> Ordered(ptr, buf, cur / 2, cur))
    ensures HeapOk(ptr, buf, n)
  {
    forall i | 2 <= i <= n
      ensures ChildOk(ptr, buf, i)
    {
    }
  }

  /** The posting at the root is not above any other. */
  lemma {:induction false} RootLeast(ptr: seq<nat>, buf: seq<Posting>, n: nat, i: nat)
    requires HeapOk(ptr, buf, n) && 1 <= i <= n < |ptr| && ptr[1] < |buf| && ptr[i] < |buf|
    ensures Ordered(ptr, buf, 1, i)
  {
    if i == 1 {
      AboveOrder(buf[ptr[1]], buf[ptr[1]], true);
    } else {
      assert ChildOk(ptr, buf, i);
      RootLeast(ptr, buf, n, i / 2);
      OrderedTransitive(ptr, buf, 1, i / 2, i);
    }
  }

  // ---------------------------------------------------------------- what is left of the runs

  ghost function All(streams: seq<seq<Posting>>): multiset<Posting> {
    if streams == [] then multiset{} else multiset(streams[0]) + All(streams[1..])
  }

  lemma {:induction false} AllUpdate(streams: seq<seq<Posting>>, f: nat, s: seq<Posting>)
    requires f < |streams|
    ensures multiset(streams[f]) <= All(streams)
    ensures All(streams[f := s]) == All(streams) - multiset(streams[f]) + multiset(s)
  {
    if f == 0 {
      assert streams[f := s][1..] == streams[1..];
    } else {
      assert streams[f := s][1..] == streams[1..][f - 1 := s];
      AllUpdate(streams[1..], f - 1, s);
    }
  }

  lemma {:induction false} AllFrom(streams: seq<seq<Posting>>, x: Posting)
    requires x in All(streams)
    ensures exists f :: 0 <= f < |streams| && x in streams[f]
  {
    if x in multiset(streams[0]) {
      assert x in streams[0];
    } else {
      AllFrom(streams[1..], x);
      var f :| 0 <= f < |streams[1..]| && x in streams[1..][f];
      assert x in streams[f + 1];
    }
  }

  lemma {:induction false} AllEmpty(streams: seq<seq<Posting>>)
    requires forall f :: 0 <= f < |streams| ==> streams[f] == []
    ensures All(streams) == multiset{}
  {
    if streams != [] { AllEmpty(streams[1..]); }
  }

  /** Run f is in the heap at place i. */
  ghost predicate HasRun(ptr: seq<nat>, kf: seq<nat>, i: int, f: nat) {
    0 <= i < |ptr| && ptr[i] < |kf| && kf[ptr[i]] == f
  }

  ghost predicate InHeap(ptr: seq<nat>, kf: seq<nat>, n: int, f: nat) {
    exists i :: 1 <= i <= n && HasRun(ptr, kf, i, f)
  }

  ghost predicate PlaceOk(ptr: seq<nat>, kf: seq<nat>, buf: seq<Posting>, streams: seq<seq<Posting>>,
                          todos: seq<seq<Posting>>, i: int) {
    && 0 <= i < |ptr| && ptr[i] < |kf| && ptr[i] < |buf| && kf[ptr[i]] < |streams| && kf[ptr[i]] < |todos|
    && streams[kf[ptr[i]]] == [buf[ptr[i]]] + todos[kf[ptr[i]]]
  }

  /** What is left of each run is its posting in the heap, if it has one there, and what is still
      to be read of it. A run that is not in the heap is at its end, but for the runs in out. */
  ghost predicate StreamsOk(ptr: seq<nat>, n: int, kf: seq<nat>, buf: seq<Posting>, streams: seq<seq<Posting>>,
                            todos: seq<seq<Posting>>, out: set<nat>) {
    && |streams| == |todos|
    && (forall i :: 1 <= i <= n ==> PlaceOk(ptr, kf, buf, streams, todos, i))
    && (forall i, j, f :: 1 <= i <= n && 1 <= j <= n && HasRun(ptr, kf, i, f) && HasRun(ptr, kf, j, f) ==> i == j)
    && (forall f :: 0 <= f < |streams| && !InHeap(ptr, kf, n, f) ==>
        streams[f] == todos[f] && (f !in out ==> todos[f] == []))
    && (forall f :: f in out ==> !InHeap(ptr, kf, n, f))
    && (forall f :: 0 <= f < |streams| ==> Ascending(streams[f]))
  }

  lemma StreamsSwap(ptr: seq<nat>, n: int, kf: seq<nat>, buf: seq<Posting>, streams: seq<seq<Posting>>,
                    todos: seq<seq<Posting>>, out: set<nat>, a: nat, b: nat)
    requires StreamsOk(ptr, n, kf, buf, streams, todos, out) && 1 <= a <= n && 1 <= b <= n < |ptr|
    ensures StreamsOk(Swap(ptr, a, b), n, kf, buf, streams, todos, out)
  {
    var ptr' := Swap(ptr, a, b);
    forall f: nat
      ensures InHeap(ptr', kf, n, f) <==> InHeap(ptr, kf, n, f)
    {
      InHeapSwap(ptr, n, kf, a, b, f);
      SwapTwice(ptr, a, b);
      InHeapSwap(ptr', n, kf, a, b, f);
    }
    hide InHeap;
    forall i | 1 <= i <= n
      ensures PlaceOk(ptr', kf, buf, streams, todos, i)
    {
      assert PlaceOk(ptr, kf, buf, streams, todos, if i == a then b else if i == b then a else i);
    }
    forall i, j, f | 1 <= i <= n && 1 <= j <= n && HasRun(ptr', kf, i, f) && HasRun(ptr', kf, j, f)
      ensures i == j
    {
      var i0, j0 := if i == a then b else if i == b then a else i, if j == a then b else if j == b then a else j;
      assert HasRun(ptr, kf, i0, f) && HasRun(ptr, kf, j0, f);
    }
  }

  lemma SwapTwice(ptr: seq<nat>, a: nat, b: nat)
    requires a < |ptr| && b < |ptr|
    ensures Swap(Swap(ptr, a, b), a, b) == ptr
  {
  }

  lemma InHeapSwap(ptr: seq<nat>, n: int, kf: seq<nat>, a: nat, b: nat, f: nat)
    requires 1 <= a <= n && 1 <= b <= n < |ptr|
    ensures InHeap(ptr, kf, n, f) ==> InHeap(Swap(ptr, a, b), kf, n, f)
  {
    if InHeap(ptr, kf, n, f) {
      var i :| 1 <= i <= n && HasRun(ptr, kf, i, f);
      assert HasRun(Swap(ptr, a, b), kf, if i == a then b else if i == b then a else i, f);
    }
  }

  /** The last place leaves the heap, and with it the posting that was first of its run. */
  lemma TakeLast(ptr: seq<nat>, n: int, kf: seq<nat>, buf: seq<Posting>, streams: seq<seq<Posting>>,
                 todos: seq<seq<Posting>>)
    requires StreamsOk(ptr, n, kf, buf, streams, todos, {}) && 1 <= n < |ptr|
    ensures ptr[n] < |kf| && ptr[n] < |buf| && kf[ptr[n]] < |todos| == |streams|
    ensures var f := kf[ptr[n]];
      && StreamsOk(ptr, n - 1, kf, buf, streams[f := todos[f]], todos, {f})
      && All(streams[f := todos[f]]) == All(streams) - multiset{buf[ptr[n]]} && buf[ptr[n]] in All(streams)
  {
    assert PlaceOk(ptr, kf, buf, streams, todos, n);
    var f := kf[ptr[n]];
    TakeAll(streams, f, buf[ptr[n]], todos[f]);
    hide All;
    TakeFrom(ptr, n, kf, f);
    hide InHeap;
    var streams' := streams[f := todos[f]];
    forall i | 1 <= i <= n - 1
      ensures PlaceOk(ptr, kf, buf, streams', todos, i)
    {
      assert PlaceOk(ptr, kf, buf, streams, todos, i);
      assert HasRun(ptr, kf, i, kf[ptr[i]]) && HasRun(ptr, kf, n, f);
    }
  }

  lemma TakeAll(streams: seq<seq<Posting>>, f: nat, p: Posting, t: seq<Posting>)
    requires f < |streams| && streams[f] == [p] + t && Ascending(streams[f])
    ensures All(streams[f := t]) == All(streams) - multiset{p} && p in All(streams) && Ascending(t)
  {
    AllUpdate(streams, f, t);
    hide All;
    assert multiset(streams[f]) == multiset{p} + multiset(t);
    forall i, j | 0 <= i < j < |t|
      ensures AtMost(t[i], t[j])
    {
      assert AtMost(streams[f][i + 1], streams[f][j + 1]);
    }
  }

  lemma TakeFrom(ptr: seq<nat>, n: int, kf: seq<nat>, f: nat)
    requires 1 <= n < |ptr| && HasRun(ptr, kf, n, f)
    requires forall i, j, f :: 1 <= i <= n && 1 <= j <= n && HasRun(ptr, kf, i, f) && HasRun(ptr, kf, j, f) ==> i == j
    ensures !InHeap(ptr, kf, n - 1, f)
    ensures forall g: nat :: InHeap(ptr, kf, n, g) <==> InHeap(ptr, kf, n - 1, g) || g == f
  {
    forall g: nat
      ensures InHeap(ptr, kf, n, g) <==> InHeap(ptr, kf, n - 1, g) || g == f
    {
      if InHeap(ptr, kf, n, g) && g != f {
        var i :| 1 <= i <= n && HasRun(ptr, kf, i, g);
        assert i != n;
      }
      if InHeap(ptr, kf, n - 1, g) {
        var i :| 1 <= i <= n - 1 && HasRun(ptr, kf, i, g);
      }
    }
  }

  /** The next posting of a run that is out joins the heap at its end. */
  lemma PutLast(ptr: seq<nat>, n: int, kf: seq<nat>, buf: seq<Posting>, streams: seq<seq<Posting>>,
                todos: seq<seq<Posting>>, f: nat, slots: nat, out: set<nat>)
    requires StreamsOk(ptr, n, kf, buf, streams, todos, out) && f in out && f < |todos| && todos[f] != []
    requires PtrOk(ptr, slots) && 0 <= n < slots - 1
    requires |kf| == |buf| == slots
    ensures var s := ptr[n + 1];
      StreamsOk(ptr, n + 1, kf[s := f], buf[s := todos[f][0]], streams, todos[f := todos[f][1..]], out - {f})
  {
    var s, n1 := ptr[n + 1], n + 1;
    var kf', buf', todos' := kf[s := f], buf[s := todos[f][0]], todos[f := todos[f][1..]];
    assert forall i :: 1 <= i <= n ==> ptr[i] != s;
    forall i, g: nat | 1 <= i <= n
      ensures HasRun(ptr, kf', i, g) <==> HasRun(ptr, kf, i, g)
    {
    }
    assert !InHeap(ptr, kf, n, f);
    forall g: nat
      ensures InHeap(ptr, kf', n1, g) <==> InHeap(ptr, kf, n, g) || g == f
    {
      if InHeap(ptr, kf, n, g) {
        var i :| 1 <= i <= n && HasRun(ptr, kf, i, g);
        assert HasRun(ptr, kf', i, g);
      }
      if InHeap(ptr, kf', n1, g) && g != f {
        var i :| 1 <= i <= n1 && HasRun(ptr, kf', i, g);
        assert i != n1 && HasRun(ptr, kf, i, g);
      }
      assert HasRun(ptr, kf', n1, f);
    }
    forall i | 1 <= i <= n1
      ensures PlaceOk(ptr, kf', buf', streams, todos', i)
    {
      if i <= n {
        assert PlaceOk(ptr, kf, buf, streams, todos, i);
        assert HasRun(ptr, kf, i, kf[ptr[i]]);
      }
    }
    forall i, j, g | 1 <= i <= n1 && 1 <= j <= n1 && HasRun(ptr, kf', i, g) && HasRun(ptr, kf', j, g)
      ensures i == j
    {
      if i <= n { assert HasRun(ptr, kf, i, g); }
      if j <= n { assert HasRun(ptr, kf, j, g); }
    }
  }

  /** The posting at the root comes before everything that is left of the runs. */
  lemma RootBefore(ptr: seq<nat>, n: int, kf: seq<nat>, buf: seq<Posting>, streams: seq<seq<Posting>>,
                   todos: seq<seq<Posting>>, x: Posting)
    requires StreamsOk(ptr, n, kf, buf, streams, todos, {}) && HeapOk(ptr, buf, n) && 1 <= n < |ptr|
    requires x in All(streams)
    ensures ptr[1] < |buf| && AtMost(buf[ptr[1]], x)
  {
    assert PlaceOk(ptr, kf, buf, streams, todos, 1);
    AllFrom(streams, x);
    var f :| 0 <= f < |streams| && x in streams[f];
    assert InHeap(ptr, kf, n, f);
    var i :| 1 <= i <= n && HasRun(ptr, kf, i, f);
    assert PlaceOk(ptr, kf, buf, streams, todos, i);
    RootLeast(ptr, buf, n, i);
    AboveOrder(buf[ptr[1]], buf[ptr[i]], true);
    var k :| 0 <= k < |streams[f]| && streams[f][k] == x;
    assert k > 0 ==> AtMost(streams[f][0], streams[f][k]);
    AtMostTransitive(buf[ptr[1]], buf[ptr[i]], x);
  }

  /** A run with nothing left need not be in the heap. */
  lemma RunEnds(ptr: seq<nat>, n: int, kf: seq<nat>, buf: seq<Posting>, streams: seq<seq<Posting>>,
                todos: seq<seq<Posting>>, f: nat, out: set<nat>)
    requires StreamsOk(ptr, n, kf, buf, streams, todos, out) && f < |todos| && todos[f] == []
    ensures StreamsOk(ptr, n, kf, buf, streams, todos, out - {f})
  {
  }

  /** With nothing in the heap, nothing is left. */
  lemma HeapEmpty(ptr: seq<nat>, kf: seq<nat>, buf: seq<Posting>, streams: seq<seq<Posting>>, todos: seq<seq<Posting>>)
    requires StreamsOk(ptr, 0, kf, buf, streams, todos, {})
    ensures All(streams) == multiset{}
  {
    AllEmpty(streams);
  }

  lemma PtrStart(ptr: seq<nat>, slots: nat)
    requires |ptr| == slots > 0 && forall i :: 0 <= i < slots ==> ptr[i] == i
    ensures PtrOk(ptr, slots)
  {
  }

  /** Nothing is in the heap yet. */
  lemma NoStreams(ptr: seq<nat>, kf: seq<nat>, buf: seq<Posting>, streams: seq<seq<Posting>>, out: set<nat>)
    requires (forall f :: 0 <= f < |streams| ==> Ascending(streams[f])) && forall f :: f in out <==> 0 <= f < |streams|
    ensures StreamsOk(ptr, 0, kf, buf, streams, streams, out)
  {
    hide Ascending;
  }

  lemma NoHeap(ptr: seq<nat>, buf: seq<Posting>)
    ensures HeapOk(ptr, buf, 0)
  {
  }

  // ---------------------------------------------------------------- the merge

  /** What is still to be read of each run. */
  ghost function TodosOf(files: seq<KeyFile>): (t: seq<seq<Posting>>)
    reads files
    ensures |t| == |files| && forall i :: 0 <= i < |files| ==> t[i] == files[i].todo
  {
    seq(|files|, i requires 0 <= i < |files| reads files => files[i].todo)
  }

  ghost function FirstN(n: nat): set<nat> {
    if n == 0 then {} else FirstN(n - 1) + {n - 1}
  }

  lemma {:induction false} FirstNIs(n: nat)
    ensures forall f :: f in FirstN(n) <==> 0 <= f < n
  {
    if n > 0 { FirstNIs(n - 1); }
  }

  class KeyHeap {
    const files: seq<KeyFile>
    // The posting in each slot and the run it came from; the slots in the order of the heap.
    var buf: seq<Posting>
    var file: seq<nat>
    var heapnum: nat
    const ptr: array<nat>
    // What is left of each run.
    ghost var streams: seq<seq<Posting>>
    // The heap with all its parts.
    ghost const Repr: set<object>

    ghost function Todos(): seq<seq<Posting>>
      reads files
    {
      TodosOf(files)
    }

    ghost predicate FilesOk()
      reads files
    {
      && (forall i :: 0 <= i < |files| ==> files[i].Valid())
      && (forall i, j :: 0 <= i < j < |files| ==> files[i] != files[j])
    }

    ghost predicate SlotsOk()
      reads this`buf, this`file, this`heapnum, ptr
    {
      PtrOk(ptr[..], |files| + 1) && |buf| == |file| == |files| + 1 && heapnum <= |files|
    }

    /** All is well but for the order of the heap; the runs in out may not be in it. */
    ghost predicate Ok(out: set<nat>)
      reads this, ptr, files
    {
      FilesOk() && SlotsOk() && StreamsOk(ptr[..], heapnum, file, buf, streams, Todos(), out)
    }

    ghost predicate Heaped()
      reads this, ptr, files
    {
      Ok({}) && HeapOk(ptr[..], buf, heapnum)
    }

    ghost predicate Valid()
      reads this, Repr
    {
      this in Repr && ptr in Repr && (forall f :: f in files ==> f in Repr) && Heaped()
    }

    lemma ValidParts()
      requires Valid()
      ensures this in Repr && ptr in Repr && (forall i :: 0 <= i < |files| ==> files[i] in Repr) && Heaped()
    {
    }

    lemma ValidAgain()
      requires this in Repr && ptr in Repr && (forall i :: 0 <= i < |files| ==> files[i] in Repr) && Heaped()
      ensures Valid()
    {
    }

    /** Everything that is still to be merged. */
    ghost function Left(): multiset<Posting>
      reads this`streams
    {
      All(streams)
    }

    /** A heap for the runs, with the first posting of each in it. */
    constructor (runs: seq<KeyFile>)
      requires forall i :: 0 <= i < |runs| ==> runs[i].Valid() && Ascending(runs[i].todo)
      requires forall i, j :: 0 <= i < j < |runs| ==> runs[i] != runs[j]
      modifies runs
      ensures Valid() && files == runs && fresh(Repr - (set f | f in runs)) && Left() == All(old(TodosOf(runs)))
    {
      hide *;
      files, heapnum := runs, 0;
      buf, file := seq(|runs| + 1, i => Posting([], [], false)), seq(|runs| + 1, i => 0);
      ptr := new nat[|runs| + 1](i => i);
      Repr := {this, ptr} + set f | f in runs;
      streams := TodosOf(runs);
      new;
      ghost var out := FirstN(|runs|);
      FirstNIs(|runs|);
      StartOk(runs, out);
      var i := 0;
      while i < |runs|
        invariant 0 <= i <= |runs| && (forall f :: f in out <==> i <= f < |runs|) && heapnum <= i && files == runs
        invariant Ok(out) && HeapOk(ptr[..], buf, heapnum) && streams == old(TodosOf(runs)) && fresh(ptr)
        modifies this`heapnum, this`buf, this`file, ptr, files
      {
        Load(i, out);
        out := out - {i};
        i := i + 1;
      }
      assert out == {};
      HeapedAgain();
      ValidAgain();
      LeftIs();
    }

    /** Puts the first posting of run i, if it has any, into the heap. */
    method Load(i: nat, ghost out: set<nat>)
      requires Ok(out) && HeapOk(ptr[..], buf, heapnum) && i in out && i < |files| && heapnum < |files|
      modifies this`heapnum, this`buf, this`file, ptr, files
      ensures Ok(out - {i}) && HeapOk(ptr[..], buf, heapnum) && heapnum <= old(heapnum) + 1
    {
      hide *;
      OkParts(out);
      ghost var todos := Todos();
      SlotsNow();
      TodosSame(todos, i);
      var more, p := ReadFile(i);
      if more {
        Insert(p, i, todos, out);
      } else {
        RunEnds(ptr[..], heapnum, file, buf, streams, Todos(), i, out);
        SlotsIs();
        OkAgain(out - {i});
      }
    }

    lemma StartOk(runs: seq<KeyFile>, out: set<nat>)
      requires forall i :: 0 <= i < |runs| ==> runs[i].Valid() && Ascending(runs[i].todo)
      requires forall i, j :: 0 <= i < j < |runs| ==> runs[i] != runs[j]
      requires files == runs && heapnum == 0 && |buf| == |file| == |runs| + 1 && streams == TodosOf(runs)
      requires ptr.Length == |runs| + 1 && (forall i :: 0 <= i < ptr.Length ==> ptr[i] == i) && out == FirstN(|runs|)
      ensures Ok(out) && HeapOk(ptr[..], buf, heapnum)
    {
      hide *;
      FirstNIs(|runs|);
      StartFiles(runs);
      PtrStart(ptr[..], |runs| + 1);
      NoStreams(ptr[..], file, buf, streams, out);
      NoHeap(ptr[..], buf);
      OkAgain(out);
    }

    lemma StartFiles(runs: seq<KeyFile>)
      requires forall i :: 0 <= i < |runs| ==> runs[i].Valid() && Ascending(runs[i].todo)
      requires forall i, j :: 0 <= i < j < |runs| ==> runs[i] != runs[j]
      requires files == runs
      ensures FilesOk() && Todos() == TodosOf(runs)
      ensures forall i :: 0 <= i < |runs| ==> Ascending(TodosOf(runs)[i])
    {
      hide KeyFile.Valid, Ascending;
    }

    /** Swaps two places. */
    method SwapPlaces(i1: nat, i2: nat, ghost out: set<nat>)
      requires Ok(out) && 1 <= i1 <= heapnum && 1 <= i2 <= heapnum
      modifies ptr
      ensures Ok(out) && ptr[..] == Swap(old(ptr[..]), i1, i2)
    {
      hide *;
      OkParts(out);
      StreamsSwap(ptr[..], heapnum, file, buf, streams, Todos(), out, i1, i2);
      SwapOk(ptr[..], |files| + 1, i1, i2);
      ghost var old_ := ptr[..];
      var swap := ptr[i1];
      ptr[i1] := ptr[i2];
      ptr[i2] := swap;
      Swapped(old_, i1, i2, ptr[..]);
      OkAgain(out);
    }

    /** Takes the root out of the heap. */
    method Delete()
      requires Heaped() && heapnum > 0
      modifies this`heapnum, this`streams, ptr
      ensures Ok({old(file[ptr[1]])}) && HeapOk(ptr[..], buf, heapnum) && heapnum == old(heapnum) - 1
      ensures Left() == old(Left()) - multiset{old(buf[ptr[1]])}
    {
      hide *;
      HeapedParts();
      OkParts({});
      PlaceIn({}, 1);
      PlaceIn({}, heapnum);
      ghost var f, ptr0 := file[ptr[1]], ptr[..];
      TakeRoot(ptr0, buf, heapnum, |files| + 1);
      LeftIs();
      SwapPlaces(1, heapnum, {});
      OkParts({});
      TakeLast(ptr[..], heapnum, file, buf, streams, Todos());
      streams := streams[f := Todos()[f]];
      heapnum := heapnum - 1;
      LeftIs();
      OkAgain({f});
      var cur, child := 1, 2;
      while child <= heapnum
        invariant cur >= 1 && child == 2 * cur && Ok({f}) && DownOk(ptr[..], buf, heapnum, cur)
        modifies ptr
      {
        PlaceIn({f}, cur);
        PlaceIn({f}, child);
        if child < heapnum { PlaceIn({f}, child + 1); }
        Lesser(ptr[..], buf, heapnum, cur);
        if child < heapnum && Above(buf[ptr[child]], buf[ptr[child + 1]], true) {
          child := child + 1;
        }
        NotOrdered(ptr[..], buf, cur, child);
        if Above(buf[ptr[cur]], buf[ptr[child]], true) {
          DownStep(ptr[..], buf, heapnum, cur, child);
          SwapPlaces(cur, child, {f});
          cur := child;
          child := 2 * cur;
        } else {
          DownEnd(ptr[..], buf, heapnum, cur, child);
          return;
        }
      }
      DownEnd(ptr[..], buf, heapnum, cur, cur);
    }

    /** Puts the next posting of run kf, which is out of the heap, into it. */
    method Insert(p: Posting, kf: nat, ghost todos: seq<seq<Posting>>, ghost out: set<nat>)
      requires FilesOk() && SlotsOk() && HeapOk(ptr[..], buf, heapnum) && heapnum < |files| && kf < |files|
      requires |todos| == |files| && todos[kf] != [] && p == todos[kf][0] && Todos() == todos[kf := todos[kf][1..]]
      requires StreamsOk(ptr[..], heapnum, file, buf, streams, todos, out) && kf in out && NameOk(p.name)
      modifies this`heapnum, this`buf, this`file, ptr
      ensures Ok(out - {kf}) && HeapOk(ptr[..], buf, heapnum) && heapnum == old(heapnum) + 1
    {
      hide *;
      NameParts(p.name);
      assert |p.name| + 2 + KEY_SIZE < NAME_MAX;
      SlotsIs();
      var cur := heapnum + 1;
      ghost var ptr0 := ptr[..];
      PutLast(ptr0, heapnum, file, buf, streams, todos, kf, |files| + 1, out);
      ghost var out' := out - {kf};
      UpStart(ptr0, buf, heapnum, p, |files| + 1);
      heapnum := cur;
      buf := buf[ptr[cur] := p];
      file := file[ptr[cur] := kf];
      OkAgain(out');
      var parent := cur / 2;
      while parent != 0
        invariant parent == cur / 2 && 1 <= cur <= heapnum && Ok(out') && UpOk(ptr[..], buf, heapnum, cur)
        modifies ptr
        decreases cur
      {
        PlaceIn(out', cur);
        PlaceIn(out', parent);
        NotOrdered(ptr[..], buf, parent, cur);
        if !Above(buf[ptr[parent]], buf[ptr[cur]], true) {
          break;
        }
        UpStep(ptr[..], buf, heapnum, cur);
        SwapPlaces(cur, parent, out');
        cur := parent;
        parent := cur / 2;
      }
      UpEnd(ptr[..], buf, heapnum, cur);
    }

    /** Reads the least of the postings that are left; false when none is. */
    method ReadOne() returns (found: bool, p: Posting)
      requires Valid()
      modifies Repr
      ensures Valid() && found == (old(Left()) != multiset{})
      ensures found ==>
        p in old(Left()) && Left() == old(Left()) - multiset{p} && forall x :: x in Left() ==> AtMost(p, x)
      ensures !found ==> Left() == multiset{}
    {
      hide *;
      found, p := false, Posting([], [], false);
      ValidParts();
      HeapedParts();
      OkParts({});
      LeftIs();
      if heapnum == 0 {
        HeapEmpty(ptr[..], file, buf, streams, Todos());
        return;
      }
      PlaceIn({}, 1);
      RootIs();
      var n := ptr[1];
      p := buf[n];
      var kf := file[n];
      ghost var left := Left();
      Delete();
      OkParts({kf});
      LeftIs();
      ghost var todos := Todos();
      SlotsNow();
      TodosSame(todos, kf);
      var more, q := ReadFile(kf);
      found := true;
      LeftIs();
      if more {
        Insert(q, kf, todos, {kf});
        assert {kf} - {kf} == {};
        HeapedAgain();
        ValidAgain();
        LeftIs();
      } else {
        RunEnds(ptr[..], heapnum, file, buf, streams, Todos(), kf, {kf});
        assert {kf} - {kf} == {};
        SlotsIs();
        OkAgain({});
        HeapedAgain();
        ValidAgain();
      }
    }

    /** Reads the next posting of run kf. */
    method ReadFile(kf: nat) returns (more: bool, p: Posting)
      requires FilesOk() && kf < |files|
      modifies files[kf]
      ensures FilesOk() && more == (old(Todos())[kf] != [])
      ensures more ==> NameOk(p.name)
      ensures more ==> p == old(Todos())[kf][0] && Todos() == old(Todos())[kf := old(Todos())[kf][1..]]
      ensures !more ==> Todos() == old(Todos())
    {
      hide KeyFile.Valid;
      ghost var todos := Todos();
      more, p := files[kf].Read();
      assert forall i :: 0 <= i < |files| && i != kf ==> files[i].todo == todos[i] && files[i].Valid();
      assert more ==> Todos() == todos[kf := todos[kf][1..]];
      assert !more ==> Todos() == todos;
    }

    lemma SlotsNow()
      requires FilesOk() && PtrOk(ptr[..], |files| + 1) && |buf| == |file| == |files| + 1 && heapnum <= |files|
      ensures SlotsOk()
    {
    }

    lemma TodosSame(todos: seq<seq<Posting>>, kf: nat)
      requires todos == Todos() && kf < |files|
      ensures |todos| == |files|
    {
    }

    lemma HeapedParts()
      requires Heaped()
      ensures Ok({}) && HeapOk(ptr[..], buf, heapnum)
    {
    }

    lemma HeapedAgain()
      requires Ok({}) && HeapOk(ptr[..], buf, heapnum)
      ensures Heaped()
    {
    }

    lemma LeftIs()
      ensures Left() == All(streams)
    {
    }

    lemma PlaceIn(out: set<nat>, i: nat)
      requires Ok(out) && 1 <= i <= heapnum
      ensures i < ptr.Length == |ptr[..]| && ptr[..][i] == ptr[i] < |buf| == |file| && file[ptr[i]] < |files|
    {
      assert PlaceOk(ptr[..], file, buf, streams, Todos(), i);
    }

    lemma SlotsIs()
      requires SlotsOk()
      ensures PtrOk(ptr[..], |files| + 1) && |buf| == |file| == |files| + 1 == ptr.Length == |ptr[..]|
      ensures heapnum <= |files|
      ensures heapnum < |files| ==> ptr[..][heapnum + 1] == ptr[heapnum + 1] < |files| + 1
    {
    }

    lemma RootIs()
      requires Heaped() && heapnum > 0
      ensures 1 < ptr.Length && ptr[1] < |buf| && buf[ptr[1]] in Left() && Left() != multiset{}
      ensures forall x :: x in Left() ==> AtMost(buf[ptr[1]], x)
    {
      hide *;
      HeapedParts();
      OkParts({});
      PlaceIn({}, 1);
      LeftIs();
      FirstLeft(ptr[..], heapnum, file, buf, streams, Todos());
      forall x | x in Left()
        ensures AtMost(buf[ptr[1]], x)
      {
        RootBefore(ptr[..], heapnum, file, buf, streams, Todos(), x);
      }
    }

    lemma OkParts(out: set<nat>)
      requires Ok(out)
      ensures FilesOk() && PtrOk(ptr[..], |files| + 1) && |buf| == |file| == |files| + 1 == ptr.Length == |ptr[..]|
      ensures heapnum <= |files|
      ensures StreamsOk(ptr[..], heapnum, file, buf, streams, Todos(), out)
    {
    }

    lemma OkAgain(out: set<nat>)
      requires FilesOk() && PtrOk(ptr[..], |files| + 1) && |buf| == |file| == |files| + 1 && heapnum <= |files|
      requires StreamsOk(ptr[..], heapnum, file, buf, streams, Todos(), out)
      ensures Ok(out)
    {
    }
  }

  /** The last place takes the root's, and belongs further down. */
  lemma TakeRoot(ptr: seq<nat>, buf: seq<Posting>, n: nat, slots: nat)
    requires HeapOk(ptr, buf, n) && 1 <= n < slots && PtrOk(ptr, slots) && |buf| == slots
    ensures DownOk(Swap(ptr, 1, n), buf, n - 1, 1) && Swap(ptr, 1, n)[n] == ptr[1]
  {
    var ptr' := Swap(ptr, 1, n);
    hide Ordered, Swap;
    forall i | 2 <= i <= n - 1 && i / 2 != 1
      ensures ChildOk(ptr', buf, i)
    {
      OrderedSwap(ptr, buf, 1, n, i / 2, i);
      assert ChildOk(ptr, buf, i);
    }
  }

  lemma UpStart(ptr: seq<nat>, buf: seq<Posting>, n: nat, p: Posting, slots: nat)
    requires HeapOk(ptr, buf, n) && n + 1 < slots && PtrOk(ptr, slots) && |buf| == slots
    ensures UpOk(ptr, buf[ptr[n + 1] := p], n + 1, n + 1)
  {
    var buf' := buf[ptr[n + 1] := p];
    forall i | 2 <= i <= n + 1 && i != n + 1
      ensures ChildOk(ptr, buf', i)
    {
      assert ChildOk(ptr, buf, i);
    }
  }

  /** The child of cur to compare with. */
  lemma Lesser(ptr: seq<nat>, buf: seq<Posting>, n: nat, cur: nat)
    requires 1 <= cur && 2 * cur <= n < |ptr| && ptr[2 * cur] < |buf| && (2 * cur < n ==> ptr[2 * cur + 1] < |buf|)
    ensures var second := 2 * cur < n && Above(buf[ptr[2 * cur]], buf[ptr[2 * cur + 1]], true);
      LesserChild(ptr, buf, n, cur, if second then 2 * cur + 1 else 2 * cur)
  {
    NotOrdered(ptr, buf, 2 * cur, 2 * cur);
    if 2 * cur < n {
      NotOrdered(ptr, buf, 2 * cur, 2 * cur + 1);
      NotOrdered(ptr, buf, 2 * cur + 1, 2 * cur + 1);
    }
    hide Ordered;
  }

  lemma FirstLeft(ptr: seq<nat>, n: int, kf: seq<nat>, buf: seq<Posting>, streams: seq<seq<Posting>>,
                  todos: seq<seq<Posting>>)
    requires StreamsOk(ptr, n, kf, buf, streams, todos, {}) && 1 <= n < |ptr| && ptr[1] < |buf|
    ensures buf[ptr[1]] in All(streams)
  {
    assert PlaceOk(ptr, kf, buf, streams, todos, 1);
    AllUpdate(streams, kf[ptr[1]], []);
    assert buf[ptr[1]] in multiset(streams[kf[ptr[1]]]);
  }

  lemma Swapped(old_: seq<nat>, i: nat, j: nat, new_: seq<nat>)
    requires i < |old_| && j < |old_| && new_ == old_[i := old_[j]][j := old_[i]]
    ensures new_ == Swap(old_, i, j)
  {
  }
}
