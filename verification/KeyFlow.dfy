/** From the keys of records to the merged postings: the way through runs does not matter. */
module KeyFlow {
  import opened DictPage
  import opened KeyOrder
  import opened KeyCodec
  import opened KeyRun
  import opened KeyHeap
  import opened KeyMerge
  import opened KeyBlock
  import H = KeyThreads

  const CHUNK := 8192

  // ---------------------------------------------------------------- merging

  /** The files of the runs, opened for reading. */
  method OpenRuns(runs: seq<seq<int>>, ghost batches: seq<seq<Posting>>) returns (files: seq<KeyFile>)
    requires RunsOk(runs, batches)
    ensures |files| == |runs|
    ensures forall i :: 0 <= i < |files| ==> fresh(files[i]) && files[i].Valid() && files[i].todo == batches[i]
    ensures forall i, j :: 0 <= i < j < |files| ==> files[i] != files[j]
  {
    hide RunOk, KeyFile.Valid;
    files := [];
    var i := 0;
    while i < |runs|
      invariant 0 <= i == |files| <= |runs|
      invariant forall k :: 0 <= k < i ==> files[k].Valid() && files[k].todo == batches[k]
      invariant (forall k :: 0 <= k < i ==> fresh(files[k])) && forall j, k :: 0 <= j < k < i ==> files[j] != files[k]
    {
      RunIs(runs[i], batches[i]);
      var f := new KeyFile(runs[i], CHUNK, batches[i]);
      files := files + [f];
      i := i + 1;
    }
  }

  lemma RunIs(run: seq<int>, batch: seq<Posting>)
    requires RunOk(run, batch)
    ensures MemOk(Zeros()) && AllOk(batch) && Ascending(batch) && run == RunBytes([], Zeros(), batch) && CHUNK > 0
  {
  }

  /** Merges run files. */
  method IndexMerge(runs: seq<seq<int>>, ghost batches: seq<seq<Posting>>) returns (out: seq<Posting>)
    requires RunsOk(runs, batches)
    ensures Netted(out, All(batches))
  {
    hide *;
    RunsAscend(runs, batches);
    RunsNamed(runs, batches);
    var files := OpenRuns(runs, batches);
    FilesTodo(files, batches);
    var hi := new KeyHeap(files);
    var reader := new KeyReader(hi);
    out := reader.MergeAll();
  }

  lemma RunsAscend(runs: seq<seq<int>>, batches: seq<seq<Posting>>)
    requires RunsOk(runs, batches)
    ensures |runs| == |batches| && forall i :: 0 <= i < |batches| ==> Ascending(batches[i])
  {
    forall i | 0 <= i < |batches|
      ensures Ascending(batches[i])
    {
      assert RunOk(runs[i], batches[i]);
    }
  }

  lemma FilesTodo(files: seq<KeyFile>, batches: seq<seq<Posting>>)
    requires |files| == |batches| && forall i :: 0 <= i < |files| ==> files[i].todo == batches[i]
    ensures TodosOf(files) == batches
  {
  }

  lemma RunsNamed(runs: seq<seq<int>>, batches: seq<seq<Posting>>)
    requires RunsOk(runs, batches)
    ensures Named(All(batches))
  {
    forall x | x in All(batches)
      ensures x.name != []
    {
      AllFrom(batches, x);
      var f :| 0 <= f < |batches| && x in batches[f];
      assert RunOk(runs[f], batches[f]);
      var i :| 0 <= i < |batches[f]| && batches[f][i] == x;
      assert PostingOk(batches[f][i]);
    }
  }

  /** However the same postings are divided into runs, what comes out of the merge is the same. */
  lemma DivisionIrrelevant(batches1: seq<seq<Posting>>, out1: seq<Posting>, batches2: seq<seq<Posting>>,
                           out2: seq<Posting>)
    requires Netted(out1, All(batches1)) && Netted(out2, All(batches2)) && All(batches1) == All(batches2)
    ensures out1 == out2
  {
    NettedUnique(out1, All(batches1), out2, All(batches2));
  }

  /** Writes out what is in the block and merges its runs. */
  method MergeBlock(block: Block) returns (out: seq<Posting>)
    requires block.Valid()
    modifies block
    ensures block.Valid() && block.written == old(block.written) && Netted(out, multiset(block.written))
  {
    block.Flush();
    assert All(block.batches) == multiset(block.written);
    out := IndexMerge(block.runs, block.batches);
  }

  // ---------------------------------------------------------------- merging what the thread sorted

  /** Sorts the batches that were handed over, one after another, and writes them as runs; an empty
      batch makes none. */
  method SortBatches(sorted: seq<H.Batch>) returns (runs: seq<seq<int>>, ghost batches: seq<seq<Posting>>)
    requires AllOk(H.Concat(sorted))
    ensures RunsOk(runs, batches) && All(batches) == multiset(H.Concat(sorted))
  {
    hide *;
    runs, batches := [], [];
    var i := 0;
    NoBatches();
    assert sorted[..0] == [];
    while i < |sorted|
      invariant 0 <= i <= |sorted| && RunsOk(runs, batches) && All(batches) == multiset(H.Concat(sorted[..i]))
    {
      NextBatch(sorted, i);
      if |sorted[i]| != 0 {
        var batch := Sort(sorted[i]);
        BatchOk(sorted[i], batch);
        var run := WriteRun(batch);
        MkRun(run, batch);
        AddRun(runs, batches, run, batch);
        runs, batches := runs + [run], batches + [batch];
      }
      i := i + 1;
    }
    assert sorted[..i] == sorted;
  }

  lemma NoBatches()
    ensures RunsOk([], []) && All([]) == multiset{} && H.Concat([]) == []
  {
  }

  lemma NextBatch(sorted: seq<H.Batch>, i: nat)
    requires i < |sorted| && AllOk(H.Concat(sorted))
    ensures AllOk(sorted[i])
    ensures multiset(H.Concat(sorted[..i + 1])) == multiset(H.Concat(sorted[..i])) + multiset(sorted[i])
    ensures |sorted[i]| == 0 ==> multiset(H.Concat(sorted[..i + 1])) == multiset(H.Concat(sorted[..i]))
  {
    BatchFrom(sorted, i);
    assert sorted[..i + 1] == sorted[..i] + [sorted[i]];
    H.ConcatMore(sorted[..i], sorted[i]);
    hide H.Concat, PostingOk;
  }

  lemma {:induction false} BatchFrom(sorted: seq<H.Batch>, i: nat)
    requires i < |sorted| && AllOk(H.Concat(sorted))
    ensures AllOk(sorted[i])
  {
    hide PostingOk;
    var n := |sorted| - 1;
    var a, b := H.Concat(sorted[..n]), sorted[n];
    assert H.Concat(sorted) == a + b;
    if i == n {
      forall k | 0 <= k < |b|
        ensures PostingOk(b[k])
      {
        assert (a + b)[|a| + k] == b[k];
      }
    } else {
      forall k | 0 <= k < |a|
        ensures PostingOk(a[k])
      {
        assert (a + b)[k] == a[k];
      }
      BatchFrom(sorted[..n], i);
    }
  }

  /** Merges what the thread has sorted when a final flush, called in state m, has returned: the netted
      sum of everything that was written, however the two threads took turns. */
  method MergeThreaded(sorted: seq<H.Batch>, ghost states: seq<H.State>, ghost m: nat, ghost n: nat)
    returns (out: seq<Posting>)
    requires H.Run(states) && H.FlushCall(states, m, n, true)
    requires sorted == states[n].data.sorted && AllOk(states[m].data.written)
    ensures Netted(out, multiset(states[m].data.written))
  {
    hide *;
    H.FlushReturned(states, m, n, true);
    ghost var batches;
    var runs;
    runs, batches := SortBatches(sorted);
    out := IndexMerge(runs, batches);
  }

  // ---------------------------------------------------------------- the keys of a record

  ghost predicate RecKeysOk(sysno: int, ks: seq<RecKey>, rank: int, rankEnable: bool) {
    forall i :: 0 <= i < |ks| ==> RecKeyOk(sysno, ks[i], rank, rankEnable)
  }

  /** The posting of key i of a record, if there is one. */
  ghost function PostingAt(sysno: int, ks: seq<RecKey>, i: nat, ins: bool, rank: int,
                           rankEnable: bool): multiset<Posting>
    requires RecKeysOk(sysno, ks, rank, rankEnable)
  {
    if i < |ks| then multiset{PostingOf(sysno, ks[i], ins, rank, rankEnable)} else multiset{}
  }

  /** The postings of the first n keys of a record. */
  ghost function Postings(sysno: int, ks: seq<RecKey>, n: nat, ins: bool, rank: int,
                          rankEnable: bool): multiset<Posting>
    requires RecKeysOk(sysno, ks, rank, rankEnable)
  {
    if n == 0 then multiset{}
    else Postings(sysno, ks, n - 1, ins, rank, rankEnable) + PostingAt(sysno, ks, n - 1, ins, rank, rankEnable)
  }

  lemma {:induction false} PostingsEnd(sysno: int, ks: seq<RecKey>, n: nat, ins: bool, rank: int, rankEnable: bool)
    requires RecKeysOk(sysno, ks, rank, rankEnable) && n >= |ks|
    ensures Postings(sysno, ks, n, ins, rank, rankEnable) == Postings(sysno, ks, |ks|, ins, rank, rankEnable)
  {
    if n > |ks| { PostingsEnd(sysno, ks, n - 1, ins, rank, rankEnable); }
  }

  lemma KeyAt(sysno: int, ks: seq<RecKey>, i: nat, ins: bool, rank: int, rankEnable: bool)
    requires RecKeysOk(sysno, ks, rank, rankEnable)
    ensures i < |ks| ==> RecKeyOk(sysno, ks[i], rank, rankEnable) && |ks[i].key| >= 2 && ks[i].key[0] >= 0
    ensures i < |ks| ==>
      PostingAt(sysno, ks, i, ins, rank, rankEnable) == multiset{PostingOf(sysno, ks[i], ins, rank, rankEnable)}
    ensures i >= |ks| ==> PostingAt(sysno, ks, i, ins, rank, rankEnable) == multiset{}
    ensures Postings(sysno, ks, 0, ins, rank, rankEnable) == multiset{}
    ensures var i1 := i + 1;
      Postings(sysno, ks, i1, ins, rank, rankEnable)
        == Postings(sysno, ks, i, ins, rank, rankEnable) + PostingAt(sysno, ks, i, ins, rank, rankEnable)
  {
  }

  lemma SkipStep(w: multiset<Posting>, was: multiset<Posting>, d: multiset<Posting>, n: multiset<Posting>, p: Posting,
                 q: Posting)
    requires SameNet(w, was + d + n) && Same(p, q) && p.ins != q.ins
    ensures SameNet(w, was + (d + multiset{p}) + (n + multiset{q}))
  {
    PairCancels(was + d + n, p, q);
    assert was + (d + multiset{p}) + (n + multiset{q}) == was + d + n + multiset{p, q};
  }

  lemma WriteStep(w: multiset<Posting>, was: multiset<Posting>, d: multiset<Posting>, n: multiset<Posting>,
                  a: multiset<Posting>, b: multiset<Posting>)
    requires SameNet(w, was + d + n)
    ensures SameNet(w + a + b, was + (d + a) + (n + b))
  {
    assert was + (d + a) + (n + b) == was + d + n + (a + b) && w + a + b == w + (a + b);
    forall name, key
      ensures Net(w + (a + b), name, key) == Net(was + d + n + (a + b), name, key)
    {
      assert Net(w, name, key) == Net(was + d + n, name, key);
    }
  }

  lemma Agree(sysno: int, x: RecKey, y: RecKey, rank: int, rankEnable: bool)
    requires |x.key| >= 2 && x.key[0] >= 0 && x.key == y.key && x.str == y.str
    ensures Same(PostingOf(sysno, x, false, rank, rankEnable), PostingOf(sysno, y, true, rank, rankEnable))
    ensures PostingOf(sysno, x, false, rank, rankEnable).ins != PostingOf(sysno, y, true, rank, rankEnable).ins
  {
  }

  lemma NothingYet(w: multiset<Posting>)
    ensures SameNet(w, w + multiset{} + multiset{})
  {
    assert w + multiset{} + multiset{} == w;
  }

  /** The old and the new key at place i are the same. */
  predicate Alike(ins: seq<RecKey>, del: seq<RecKey>, i: nat) {
    i < |ins| && i < |del| && ins[i].key == del[i].key && ins[i].str == del[i].str
  }

  /** At how many of the first n places the keys are the same. */
  ghost function Agreed(ins: seq<RecKey>, del: seq<RecKey>, n: nat): nat {
    if n == 0 then 0 else Agreed(ins, del, n - 1) + if Alike(ins, del, n - 1) then 1 else 0
  }

  lemma AlikeIs(ins: seq<RecKey>, del: seq<RecKey>, n: nat)
    ensures Alike(ins, del, n) <==> n < |ins| && n < |del| && ins[n].key == del[n].key && ins[n].str == del[n].str
  {
  }

  lemma {:induction false} AgreedAll(ins: seq<RecKey>, del: seq<RecKey>, n: nat)
    requires forall i: nat :: i < n ==> Alike(ins, del, i)
    ensures Agreed(ins, del, n) == n
  {
    if n > 0 { AgreedAll(ins, del, n - 1); }
  }

  lemma {:induction false} AgreedEnd(ins: seq<RecKey>, del: seq<RecKey>, n: nat)
    requires n >= |ins|
    ensures Agreed(ins, del, n) == Agreed(ins, del, |ins|)
  {
    if n > |ins| { AgreedEnd(ins, del, n - 1); }
  }

  /** How many of the first i places a list of n keys has. */
  ghost function Reach(i: nat, n: nat): nat {
    if i < n then i else n
  }

  // A change of the keys of a record.
  ghost predicate Changing(sysno: int, ins: seq<RecKey>, insRank: int, del: seq<RecKey>, delRank: int,
                           rankEnable: bool) {
    RecKeysOk(sysno, ins, insRank, rankEnable) && RecKeysOk(sysno, del, delRank, rankEnable)
  }

  lemma ChangingIs(sysno: int, ins: seq<RecKey>, insRank: int, del: seq<RecKey>, delRank: int, rankEnable: bool)
    ensures RecKeysOk(sysno, ins, insRank, rankEnable) && RecKeysOk(sysno, del, delRank, rankEnable)
            <==> Changing(sysno, ins, insRank, del, delRank, rankEnable)
  {
  }

  ghost predicate Counted(w0: seq<Posting>, w: seq<Posting>, ins: seq<RecKey>, del: seq<RecKey>, same: bool, i: nat) {
    w0 <= w && |w| == |w0| + Reach(i, |ins|) + Reach(i, |del|) - 2 * (if same then Agreed(ins, del, i) else 0)
  }

  lemma CountedMore(w0: seq<Posting>, w: seq<Posting>, more: seq<Posting>, ins: seq<RecKey>, del: seq<RecKey>,
                    same: bool, i: nat)
    requires Counted(w0, w, ins, del, same, i)
    requires |more| == if same && Alike(ins, del, i) then 0
                       else (if i < |ins| then 1 else 0) + (if i < |del| then 1 else 0)
    ensures Counted(w0, w + more, ins, del, same, i + 1)
  {
  }

  /** With w0 written before and w now, the first i places of the change are done: what was written
      comes to the same as all deletes and inserts, and for a place that agrees nothing was written. */
  ghost predicate Flushed(w0: seq<Posting>, w: seq<Posting>, sysno: int, ins: seq<RecKey>, insRank: int,
                          del: seq<RecKey>, delRank: int, rankEnable: bool, i: nat)
    requires Changing(sysno, ins, insRank, del, delRank, rankEnable)
  {
    && Counted(w0, w, ins, del, insRank == delRank, i)
    && SameNet(multiset(w), multiset(w0) + Postings(sysno, del, i, false, delRank, rankEnable)
                            + Postings(sysno, ins, i, true, insRank, rankEnable))
  }

  lemma FlushedStart(w: seq<Posting>, sysno: int, ins: seq<RecKey>, insRank: int, del: seq<RecKey>, delRank: int,
                     rankEnable: bool)
    requires Changing(sysno, ins, insRank, del, delRank, rankEnable)
    ensures Flushed(w, w, sysno, ins, insRank, del, delRank, rankEnable, 0)
  {
    hide SameNet;
    NothingYet(multiset(w));
  }

  lemma FlushedSkip(w0: seq<Posting>, w: seq<Posting>, sysno: int, ins: seq<RecKey>, insRank: int, del: seq<RecKey>,
                    delRank: int, rankEnable: bool, i: nat)
    requires Changing(sysno, ins, insRank, del, delRank, rankEnable)
    requires Flushed(w0, w, sysno, ins, insRank, del, delRank, rankEnable, i)
    requires insRank == delRank && Alike(ins, del, i)
    ensures Flushed(w0, w, sysno, ins, insRank, del, delRank, rankEnable, i + 1)
  {
    KeyAt(sysno, del, i, false, delRank, rankEnable);
    KeyAt(sysno, ins, i, true, insRank, rankEnable);
    CountedMore(w0, w, [], ins, del, true, i);
    assert w + [] == w;
    hide SameNet, Counted, RecKeyOk, PostingOf, Postings, PostingAt, Same;
    Agree(sysno, del[i], ins[i], delRank, rankEnable);
    SkipStep(multiset(w), multiset(w0), Postings(sysno, del, i, false, delRank, rankEnable),
             Postings(sysno, ins, i, true, insRank, rankEnable), PostingOf(sysno, del[i], false, delRank, rankEnable),
             PostingOf(sysno, ins[i], true, insRank, rankEnable));
  }

  lemma FlushedWrite(w0: seq<Posting>, w: seq<Posting>, sysno: int, ins: seq<RecKey>, insRank: int, del: seq<RecKey>,
                     delRank: int, rankEnable: bool, i: nat, a: seq<Posting>, b: seq<Posting>)
    requires Changing(sysno, ins, insRank, del, delRank, rankEnable)
    requires Flushed(w0, w, sysno, ins, insRank, del, delRank, rankEnable, i)
    requires insRank == delRank ==> !Alike(ins, del, i)
    requires multiset(a) == PostingAt(sysno, del, i, false, delRank, rankEnable) && |a| == if i < |del| then 1 else 0
    requires multiset(b) == PostingAt(sysno, ins, i, true, insRank, rankEnable) && |b| == if i < |ins| then 1 else 0
    ensures Flushed(w0, w + (a + b), sysno, ins, insRank, del, delRank, rankEnable, i + 1)
  {
    hide SameNet, Counted, RecKeyOk, RecKeysOk, PostingOf, Postings, PostingAt, Alike;
    KeyAt(sysno, del, i, false, delRank, rankEnable);
    KeyAt(sysno, ins, i, true, insRank, rankEnable);
    CountedMore(w0, w, a + b, ins, del, insRank == delRank, i);
    NetWrite(w0, w, a, b, Postings(sysno, del, i, false, delRank, rankEnable),
             Postings(sysno, ins, i, true, insRank, rankEnable));
  }

  lemma NetWrite(w0: seq<Posting>, w: seq<Posting>, a: seq<Posting>, b: seq<Posting>, d: multiset<Posting>,
                 n: multiset<Posting>)
    requires SameNet(multiset(w), multiset(w0) + d + n)
    ensures SameNet(multiset(w + (a + b)), multiset(w0) + (d + multiset(a)) + (n + multiset(b)))
  {
    hide SameNet;
    WriteStep(multiset(w), multiset(w0), d, n, multiset(a), multiset(b));
    assert multiset(w + (a + b)) == multiset(w) + multiset(a) + multiset(b);
  }

  lemma FlushedEnd(w0: seq<Posting>, w: seq<Posting>, sysno: int, ins: seq<RecKey>, insRank: int, del: seq<RecKey>,
                   delRank: int, rankEnable: bool, i: nat)
    requires Changing(sysno, ins, insRank, del, delRank, rankEnable) && i >= |ins| && i >= |del|
    requires Flushed(w0, w, sysno, ins, insRank, del, delRank, rankEnable, i)
    ensures SameNet(multiset(w), multiset(w0) + Postings(sysno, del, |del|, false, delRank, rankEnable)
                                 + Postings(sysno, ins, |ins|, true, insRank, rankEnable))
    ensures w0 <= w && |w| == |w0| + |ins| + |del| - 2 * if insRank == delRank then Agreed(ins, del, |ins|) else 0
    ensures insRank == delRank && ins == del ==> w == w0
  {
    hide SameNet, RecKeyOk, Postings, Agreed;
    PostingsEnd(sysno, del, i, false, delRank, rankEnable);
    PostingsEnd(sysno, ins, i, true, insRank, rankEnable);
    AgreedEnd(ins, del, i);
    if ins == del { AgreedAll(ins, del, |ins|); }
  }

  /** Takes the old keys of a record out and puts the new ones in. Where the two agree, place by
      place, nothing is written; what is written comes to the same as all of them. */
  method FlushRecordKeys(block: Block, sysno: int, ins: seq<RecKey>, insRank: int, del: seq<RecKey>, delRank: int,
                         rankEnable: bool)
    requires block.Valid() && RecKeysOk(sysno, ins, insRank, rankEnable) && RecKeysOk(sysno, del, delRank, rankEnable)
    modifies block
    ensures block.Valid()
    ensures SameNet(multiset(block.written), multiset(old(block.written))
                    + Postings(sysno, del, |del|, false, delRank, rankEnable) + Postings(sysno, ins, |ins|, true,
                                                                                         insRank, rankEnable))
    ensures old(block.written) <= block.written
    ensures |block.written| == |old(block.written)| + |ins| + |del|
                               - 2 * if insRank == delRank then Agreed(ins, del, |ins|) else 0
    ensures insRank == delRank && ins == del ==> block.written == old(block.written)
  {
    hide *;
    ghost var w0 := block.written;
    ChangingIs(sysno, ins, insRank, del, delRank, rankEnable);
    FlushedStart(w0, sysno, ins, insRank, del, delRank, rankEnable);
    var i := 0;
    while i < |del| || i < |ins|
      invariant 0 <= i && block.Valid()
      invariant Flushed(w0, block.written, sysno, ins, insRank, del, delRank, rankEnable, i)
      decreases (if |del| > |ins| then |del| else |ins|) - i
    {
      FlushPlace(block, sysno, ins, insRank, del, delRank, rankEnable, i, w0);
      i := i + 1;
    }
    FlushedEnd(w0, block.written, sysno, ins, insRank, del, delRank, rankEnable, i);
  }

  /** Place i of a change. */
  method FlushPlace(block: Block, sysno: int, ins: seq<RecKey>, insRank: int, del: seq<RecKey>, delRank: int,
                    rankEnable: bool, i: nat, ghost w0: seq<Posting>)
    requires block.Valid() && Changing(sysno, ins, insRank, del, delRank, rankEnable)
    requires Flushed(w0, block.written, sysno, ins, insRank, del, delRank, rankEnable, i)
    modifies block
    ensures block.Valid() && Flushed(w0, block.written, sysno, ins, insRank, del, delRank, rankEnable, i + 1)
  {
    hide *;
    ChangingIs(sysno, ins, insRank, del, delRank, rankEnable);
    ghost var w := block.written;
    KeyAt(sysno, del, i, false, delRank, rankEnable);
    KeyAt(sysno, ins, i, true, insRank, rankEnable);
    AlikeIs(ins, del, i);
    if i < |del| && i < |ins| && insRank == delRank && del[i].key == ins[i].key && ins[i].str == del[i].str {
      FlushedSkip(w0, w, sysno, ins, insRank, del, delRank, rankEnable, i);
      return;
    }
    ghost var a, b: seq<Posting> := [], [];
    if i < |del| {
      a := [PostingOf(sysno, del[i], false, delRank, rankEnable)];
      block.Write(sysno, del[i], false, delRank, rankEnable);
    }
    assert block.written == w + a;
    if i < |ins| {
      b := [PostingOf(sysno, ins[i], true, insRank, rankEnable)];
      block.Write(sysno, ins[i], true, insRank, rankEnable);
    }
    assert block.written == w + (a + b);
    FlushedWrite(w0, w, sysno, ins, insRank, del, delRank, rankEnable, i, a, b);
  }

  /** What comes out after a record's keys have been written is what would come out if the keys
      that agree had been written too. */
  lemma SkipsIrrelevant(out: seq<Posting>, written: multiset<Posting>, full: multiset<Posting>)
    requires Netted(out, written) && SameNet(written, full)
    ensures Netted(out, full)
  {
    forall p
      ensures multiset(out)[p] == Target(full, p)
    {
      assert Target(full, p) == Target(written, p);
    }
  }

  // ---------------------------------------------------------------- many records

  // What becomes of the keys of a record: the old ones go, the new ones come.
  datatype Change = Change(sysno: int, ins: seq<RecKey>, insRank: int, del: seq<RecKey>, delRank: int)

  ghost predicate ChangesOk(cs: seq<Change>, rankEnable: bool) {
    forall i :: 0 <= i < |cs| ==> ChangeOk(cs[i], rankEnable)
  }

  ghost predicate ChangeOk(c: Change, rankEnable: bool) {
    RecKeysOk(c.sysno, c.ins, c.insRank, rankEnable) && RecKeysOk(c.sysno, c.del, c.delRank, rankEnable)
  }

  /** The postings of all old keys, as deletes, and of all new keys, as inserts. */
  ghost function Changed(c: Change, rankEnable: bool): multiset<Posting>
    requires ChangeOk(c, rankEnable)
  {
    Postings(c.sysno, c.del, |c.del|, false, c.delRank, rankEnable)
    + Postings(c.sysno, c.ins, |c.ins|, true, c.insRank, rankEnable)
  }

  ghost function AllChanged(cs: seq<Change>, n: nat, rankEnable: bool): multiset<Posting>
    requires ChangesOk(cs, rankEnable) && n <= |cs|
  {
    if n == 0 then multiset{} else AllChanged(cs, n - 1, rankEnable) + Changed(cs[n - 1], rankEnable)
  }

  lemma ChangeStep(cs: seq<Change>, i: nat, rankEnable: bool, was: multiset<Posting>, w: multiset<Posting>,
                   w': multiset<Posting>)
    requires ChangesOk(cs, rankEnable) && i < |cs|
    requires SameNet(w, was + AllChanged(cs, i, rankEnable)) && ChangeOk(cs[i], rankEnable)
    requires SameNet(w', w + Changed(cs[i], rankEnable))
    ensures SameNet(w', was + AllChanged(cs, i + 1, rankEnable))
  {
    var c := Changed(cs[i], rankEnable);
    assert AllChanged(cs, i + 1, rankEnable) == AllChanged(cs, i, rankEnable) + c;
    var a := was + AllChanged(cs, i, rankEnable);
    assert was + AllChanged(cs, i + 1, rankEnable) == a + c;
    hide AllChanged, Changed, Net;
    forall name, key
      ensures Net(w', name, key) == Net(a + c, name, key)
    {
      NetSum(w, c, name, key);
      NetSum(a, c, name, key);
    }
  }

  lemma NetSum(a: multiset<Posting>, b: multiset<Posting>, name: Key, key: seq<int>)
    ensures Net(a + b, name, key) == Net(a, name, key) + Net(b, name, key)
  {
  }

  lemma ChangeParts(cs: seq<Change>, i: nat, rankEnable: bool)
    requires ChangesOk(cs, rankEnable) && i < |cs|
    ensures ChangeOk(cs[i], rankEnable)
    ensures var c := cs[i];
      && RecKeysOk(c.sysno, c.ins, c.insRank, rankEnable) && RecKeysOk(c.sysno, c.del, c.delRank, rankEnable)
      && (forall w: multiset<Posting> ::
            w + Changed(c, rankEnable)
            == w + Postings(c.sysno, c.del, |c.del|, false, c.delRank, rankEnable)
               + Postings(c.sysno, c.ins, |c.ins|, true, c.insRank, rankEnable))
  {
  }

  /** Changes the keys of many records, and merges: what comes out is the netted sum of all old keys
      as deletes and all new keys as inserts, on top of what was in the block. */
  method IndexRecords(block: Block, cs: seq<Change>, rankEnable: bool) returns (out: seq<Posting>)
    requires block.Valid() && ChangesOk(cs, rankEnable)
    modifies block
    ensures block.Valid() && Netted(out, multiset(old(block.written)) + AllChanged(cs, |cs|, rankEnable))
  {
    hide *;
    ghost var was := multiset(block.written);
    var i := 0;
    NoChange(was, cs, rankEnable);
    while i < |cs|
      invariant 0 <= i <= |cs| && block.Valid()
      invariant SameNet(multiset(block.written), was + AllChanged(cs, i, rankEnable))
    {
      ghost var w := multiset(block.written);
      ChangeParts(cs, i, rankEnable);
      FlushRecordKeys(block, cs[i].sysno, cs[i].ins, cs[i].insRank, cs[i].del, cs[i].delRank, rankEnable);
      ChangeStep(cs, i, rankEnable, was, w, multiset(block.written));
      i := i + 1;
    }
    out := MergeBlock(block);
    SkipsIrrelevant(out, multiset(block.written), was + AllChanged(cs, |cs|, rankEnable));
  }

  lemma NoChange(was: multiset<Posting>, cs: seq<Change>, rankEnable: bool)
    requires ChangesOk(cs, rankEnable)
    ensures SameNet(was, was + AllChanged(cs, 0, rankEnable))
  {
    assert was + multiset{} == was;
  }
}
