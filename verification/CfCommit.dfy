/** Committing a shadow file: its blocks are copied home into the register, one at a time. */
module CfCommit {
  import opened CfStore
  import opened CfIndex
  import opened CfFlat
  import opened CfData

  /** The register after the shadows of the blocks in done have been copied home. */
  ghost predicate PartCommit(reg0: File<int>, reg: File<int>, vmap: map<int, int>, blocks: File<int>, zero: seq<int>,
                             done: set<int>) {
    && (forall no :: no in done ==> no in vmap && 0 <= no < |reg|)
    && |reg0| <= |reg| && (|reg| == |reg0| || exists no :: no in done && |reg| == no + 1)
    && (forall i :: 0 <= i < |reg| ==>
        reg[i] == if i in done then ViewOf(vmap, blocks, [], i) else BlockOf(reg0, i, zero))
  }

  /** The register once commit is complete. */
  ghost predicate IsCommit(reg0: File<int>, reg: File<int>, vmap: map<int, int>, blocks: File<int>, zero: seq<int>) {
    PartCommit(reg0, reg, vmap, blocks, zero, vmap.Keys)
  }

  lemma NothingDone(reg: File<int>, vmap: map<int, int>, blocks: File<int>, zero: seq<int>)
    ensures PartCommit(reg, reg, vmap, blocks, zero, {})
  {
  }

  /** Copying one more block home. */
  lemma CopyStep(reg0: File<int>, reg: File<int>, vmap: map<int, int>, blocks: File<int>, zero: seq<int>,
                 done: set<int>, no: int, size: nat)
    requires PartCommit(reg0, reg, vmap, blocks, zero, done) && no in vmap && no >= 0 && Shadowed(vmap, blocks)
    requires FileOk(blocks, size) && FileOk(reg, size) && |zero| == size
    ensures var reg' := WriteAt(reg, no, 0, blocks[vmap[no]], zero);
      PartCommit(reg0, reg', vmap, blocks, zero, done + {no}) && FileOk(reg', size)
  {
    var data := blocks[vmap[no]];
    var reg' := WriteAt(reg, no, 0, data, zero);
    WriteOk(reg, no, 0, data, zero, size);
    NewBlocks(reg, no, data, zero, size);
    if no >= |reg| { assert no in done + {no} && |reg'| == no + 1; }
    else if n :| n in done && |reg| == n + 1 { assert n in done + {no}; }
  }

  /** The blocks copied home are the ones paired before slot j of bucket b. */
  ghost predicate HashDone(logic: Buckets, b: int, j: int, done: set<int>) {
    forall no :: no in done <==> Placed(logic, b, j, no)
  }

  lemma HashStart(logic: Buckets, home: map<nat, nat>, vmap: map<int, int>, nextBlock: nat)
    requires SlotsOk(logic, home, vmap, nextBlock) && forall b: nat :: b in logic ==> b >= FIRST_BUCKET
    ensures HashDone(logic, FIRST_BUCKET, 0, {})
  {
  }

  /** The pair in slot j of bucket b names a block to copy and where it goes. */
  lemma HashStep(logic: Buckets, home: map<nat, nat>, vmap: map<int, int>, nextBlock: nat, blocks: File<int>, b: nat,
                 j: int, done: set<int>)
    requires HashDone(logic, b, j, done) && SlotsOk(logic, home, vmap, nextBlock) && Shadowed(vmap, blocks)
    requires b in logic && 0 <= j < HASH_BUCKET && Sized(logic[b]) && logic[b].vno[j] != 0
    ensures var no := logic[b].no[j];
      && no in vmap && no >= 0 && logic[b].vno[j] == vmap[no] && 0 <= vmap[no] < |blocks|
      && HashDone(logic, b, j + 1, done + {no})
  {
    var no := logic[b].no[j];
    assert Pairs(logic[b], j, no) && BucketMaps(logic[b], home[b], vmap);
    SlotMap(logic, home, vmap, nextBlock, b, j, no);
    PlacedNext(logic, home, vmap, nextBlock, b, j, no);
    hide Placed;
  }

  lemma HashBucketDone(logic: Buckets, b: nat, j: int, done: set<int>)
    requires HashDone(logic, b, j, done) && b in logic && Packed(logic[b]) && 0 <= j <= HASH_BUCKET
    requires (j < HASH_BUCKET ==> logic[b].vno[j] == 0)
    ensures HashDone(logic, b + 1, 0, done)
  {
    PlacedBucket(logic, b, j);
  }

  lemma HashAll(logic: Buckets, home: map<nat, nat>, vmap: map<int, int>, nextBlock: nat, start: nat, done: set<int>)
    requires HashDone(logic, start, 0, done) && SlotsOk(logic, home, vmap, nextBlock)
    requires forall b :: b in logic ==> b < start
    ensures done == vmap.Keys
  {
    AllPlaced(logic, home, vmap, nextBlock, start);
    assert forall no :: no in done <==> no in vmap.Keys;
  }

  /** The blocks copied home are the ones below n. */
  ghost predicate FlatDone(vmap: map<int, int>, n: int, done: set<int>) {
    forall no :: no in done <==> no in vmap && no < n
  }

  /** The word at no of the flat index names the block to copy there, if any. */
  lemma FlatStep(hash: File<int>, start: nat, end: nat, vmap: map<int, int>, nextBlock: nat, blocks: File<int>, no: nat,
                 hno: nat, i: nat, done: set<int>)
    requires FlatDone(vmap, no, done) && FlatOk(hash, start, end, vmap, nextBlock) && Shadowed(vmap, blocks)
    requires start <= hno < end && i < HASH_WORDS && no == (hno - start) * HASH_WORDS + i
    ensures hno < |hash| && |hash[hno]| == HASH_WORDS
    ensures hash[hno][i] == 0 ==> FlatDone(vmap, no + 1, done)
    ensures hash[hno][i] != 0 ==>
      no in vmap && hash[hno][i] == vmap[no] && 0 <= vmap[no] < |blocks| && FlatDone(vmap, no + 1, done + {no})
  {
    assert no / HASH_WORDS == hno - start && no % HASH_WORDS == i;
    assert FlatWord(hash, start, no) == hash[hno][i];
    assert no in vmap <==> hash[hno][i] != 0;
  }

  lemma FlatAll(hash: File<int>, start: nat, end: nat, vmap: map<int, int>, nextBlock: nat, no: nat, done: set<int>)
    requires FlatDone(vmap, no, done) && FlatOk(hash, start, end, vmap, nextBlock)
    requires no == (if end <= start then 0 else (end - start) * HASH_WORDS)
    ensures done == vmap.Keys
  {
    forall k | k in vmap
      ensures k < no
    {
      assert start + k / HASH_WORDS < end;
      assert k == k / HASH_WORDS * HASH_WORDS + k % HASH_WORDS;
    }
    assert forall k :: k in done <==> k in vmap.Keys;
  }

  /** At every step of a commit, what was last written still reads so through the shadow. */
  lemma CommitLatest(latest: Bytes, reg0: File<int>, reg: File<int>, vmap: map<int, int>, blocks: File<int>,
                     zero: seq<int>, done: set<int>)
    requires PartCommit(reg0, reg, vmap, blocks, zero, done) && LatestOk(latest, vmap, blocks, reg0)
    ensures LatestOk(latest, vmap, blocks, reg)
  {
    hide PartCommit;
    forall no, i | (no, i) in latest
      ensures ByteOk(ViewOf(vmap, blocks, reg, no), i, latest[(no, i)])
    {
      assert ByteOk(ViewOf(vmap, blocks, reg0, no), i, latest[(no, i)]);
      CommitKeepsView(reg0, reg, vmap, blocks, zero, done, no);
    }
  }

  /** At every step of a commit, every block that exists reads through the shadow as before. */
  lemma CommitKeepsView(reg0: File<int>, reg: File<int>, vmap: map<int, int>, blocks: File<int>, zero: seq<int>,
                        done: set<int>, no: int)
    requires PartCommit(reg0, reg, vmap, blocks, zero, done) && (no in vmap || 0 <= no < |reg0|)
    ensures ViewOf(vmap, blocks, reg, no) == ViewOf(vmap, blocks, reg0, no)
  {
  }

  /** After a complete commit the register alone holds what was read through the shadow. */
  lemma CommitComplete(reg0: File<int>, reg: File<int>, vmap: map<int, int>, blocks: File<int>, zero: seq<int>, no: int)
    requires IsCommit(reg0, reg, vmap, blocks, zero) && (no in vmap || 0 <= no < |reg0|)
    ensures ViewOf(map[], [], reg, no) == ViewOf(vmap, blocks, reg0, no)
  {
  }

  /** A commit started again after any number of steps ends with the same register. */
  lemma CommitRestarts(reg0: File<int>, part: File<int>, reg1: File<int>, reg2: File<int>, vmap: map<int, int>,
                       blocks: File<int>, zero: seq<int>, done: set<int>)
    requires PartCommit(reg0, part, vmap, blocks, zero, done)
    requires IsCommit(reg0, reg1, vmap, blocks, zero) && IsCommit(part, reg2, vmap, blocks, zero)
    ensures reg1 == reg2
  {
    SameLength(reg0, part, reg1, reg2, vmap, blocks, zero, done);
    forall i | 0 <= i < |reg1|
      ensures reg1[i] == reg2[i]
    {
    }
  }

  lemma SameLength(reg0: File<int>, part: File<int>, reg1: File<int>, reg2: File<int>, vmap: map<int, int>,
                   blocks: File<int>, zero: seq<int>, done: set<int>)
    requires PartCommit(reg0, part, vmap, blocks, zero, done)
    requires IsCommit(reg0, reg1, vmap, blocks, zero) && IsCommit(part, reg2, vmap, blocks, zero)
    ensures |reg1| == |reg2|
  {
    Longest(reg0, reg1, vmap, blocks, zero);
    Longest(part, reg2, vmap, blocks, zero);
    assert |part| > |reg0| ==> exists no :: no in vmap && |part| == no + 1;
  }

  lemma Longest(reg0: File<int>, reg: File<int>, vmap: map<int, int>, blocks: File<int>, zero: seq<int>)
    requires IsCommit(reg0, reg, vmap, blocks, zero)
    ensures forall no :: no in vmap ==> no < |reg|
    ensures |reg| == |reg0| || exists no :: no in vmap && |reg| == no + 1
  {
  }

  /** Committing twice is committing once. */
  lemma CommitTwice(reg0: File<int>, reg1: File<int>, reg2: File<int>, vmap: map<int, int>, blocks: File<int>,
                    zero: seq<int>)
    requires IsCommit(reg0, reg1, vmap, blocks, zero) && IsCommit(reg1, reg2, vmap, blocks, zero)
    ensures reg2 == reg1
  {
    CommitRestarts(reg0, reg1, reg1, reg2, vmap, blocks, zero, vmap.Keys);
  }
}
