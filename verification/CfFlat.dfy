/** The index of a shadow file once it is flat: one word for each block of the original file. */
module CfFlat {
  import opened CfStore
  import opened CfIndex

  /** The shadow block noted for no in the flat index that starts at block start. */
  function FlatWord(hash: File<int>, start: nat, no: nat): int {
    var b := BlockOf(hash, start + no / HASH_WORDS, ZeroWords());
    if no % HASH_WORDS < |b| then b[no % HASH_WORDS] else 0
  }

  lemma WriteWord(hash: File<int>, start: nat, no: nat, vno: int)
    requires FileOk(hash, HASH_WORDS)
    ensures var hash' := WriteAt(hash, start + no / HASH_WORDS, no % HASH_WORDS, [vno], ZeroWords());
      && FileOk(hash', HASH_WORDS) && |hash'| >= |hash| && |hash'| > start + no / HASH_WORDS
      && (forall i :: 0 <= i < start && i < |hash| ==> hash'[i] == hash[i])
      && (forall k: nat :: FlatWord(hash', start, k) == if k == no then vno else FlatWord(hash, start, k))
  {
    var hash' := WriteAt(hash, start + no / HASH_WORDS, no % HASH_WORDS, [vno], ZeroWords());
    WriteOk(hash, start + no / HASH_WORDS, no % HASH_WORDS, [vno], ZeroWords(), HASH_WORDS);
    forall k: nat
      ensures FlatWord(hash', start, k) == if k == no then vno else FlatWord(hash, start, k)
    {
      WordSame(hash, hash', start, no, vno, k);
    }
  }

  lemma WordSame(hash: File<int>, hash': File<int>, start: nat, no: nat, vno: int, k: nat)
    requires FileOk(hash, HASH_WORDS)
    requires hash' == WriteAt(hash, start + no / HASH_WORDS, no % HASH_WORDS, [vno], ZeroWords())
    ensures FlatWord(hash', start, k) == if k == no then vno else FlatWord(hash, start, k)
  {
    assert k == k / HASH_WORDS * HASH_WORDS + k % HASH_WORDS && no == no / HASH_WORDS * HASH_WORDS + no % HASH_WORDS;
    var b := BlockOf(hash, start + no / HASH_WORDS, ZeroWords());
    assert |b| == HASH_WORDS;
    if k / HASH_WORDS == no / HASH_WORDS {
      assert Splice(b, no % HASH_WORDS, [vno]) == b[no % HASH_WORDS := vno];
    }
  }

  /** Every block has at most one shadow block, which is below the next free one. */
  ghost predicate MapOk(vmap: map<int, int>, nextBlock: nat) {
    && 1 <= nextBlock
    && (forall no :: no in vmap ==> no >= 0 && 1 <= vmap[no] < nextBlock)
    && (forall no, no2 :: no in vmap && no2 in vmap && vmap[no] == vmap[no2] ==> no == no2)
  }

  /** The flat index holds the block map; end is past its last word that is not zero. */
  ghost predicate FlatOk(hash: File<int>, start: nat, end: nat, vmap: map<int, int>, nextBlock: nat) {
    && FileOk(hash, HASH_WORDS) && MapOk(vmap, nextBlock)
    && (end <= start || end <= |hash|)
    && (forall no: nat :: FlatWord(hash, start, no) == if no in vmap then vmap[no] else 0)
    && (forall no :: no in vmap ==> start + no / HASH_WORDS < end)
  }

  lemma SlotsMapOk(logic: Buckets, home: map<nat, nat>, vmap: map<int, int>, nextBlock: nat)
    requires SlotsOk(logic, home, vmap, nextBlock)
    ensures MapOk(vmap, nextBlock)
  {
    forall no | no in vmap
      ensures no >= 0
    {
      assert Held(logic, no);
      var b: nat :| b in logic && HasNo(logic[b], no);
      var i :| Pairs(logic[b], i, no);
      assert BucketMaps(logic[b], home[b], vmap);
    }
  }

  // ---------------------------------------------------------------- moving to a flat index

  /** The pair of no comes before slot j of bucket b. */
  ghost predicate Placed(logic: Buckets, b: int, j: int, no: int) {
    exists c: nat, k :: c in logic && Pairs(logic[c], k, no) && (c < b || (c == b && k < j))
  }

  /** The flat index holds the pairs before slot j of bucket b, and nothing else. */
  ghost predicate MovedSoFar(hash: File<int>, start: nat, end: nat, logic: Buckets, vmap: map<int, int>, b: int,
                             j: int) {
    && FileOk(hash, HASH_WORDS) && (end <= start || end <= |hash|)
    && (forall c :: c in logic ==> c < start && OnFile(hash, c, logic[c]))
    && (forall no: nat :: FlatWord(hash, start, no) == if Placed(logic, b, j, no) && no in vmap then vmap[no] else 0)
    && (forall no: nat :: Placed(logic, b, j, no) ==> start + no / HASH_WORDS < end)
  }

  lemma MoveStart(hash: File<int>, logic: Buckets, vmap: map<int, int>, start: nat, end: nat)
    requires CacheOk(logic, map[], hash) && Above(logic, start) && end <= start
    ensures MovedSoFar(hash, start, end, logic, vmap, FIRST_BUCKET, 0)
  {
    assert |hash| <= start;
    forall no: nat
      ensures FlatWord(hash, start, no) == 0 && !Placed(logic, FIRST_BUCKET, 0, no)
    {
      assert BlockOf(hash, start + no / HASH_WORDS, ZeroWords()) == ZeroWords();
    }
  }

  lemma PlacedNext(logic: Buckets, home: map<nat, nat>, vmap: map<int, int>, nextBlock: nat, b: nat, j: int, no: int)
    requires SlotsOk(logic, home, vmap, nextBlock) && b in logic && Pairs(logic[b], j, no)
    ensures forall k :: Placed(logic, b, j + 1, k) <==> Placed(logic, b, j, k) || k == no
  {
    forall k
      ensures Placed(logic, b, j + 1, k) <==> Placed(logic, b, j, k) || k == no
    {
      if Placed(logic, b, j, k) {
        var c: nat, i :| c in logic && Pairs(logic[c], i, k) && (c < b || (c == b && i < j));
        assert c < b || (c == b && i < j + 1);
      }
      if k == no { assert Pairs(logic[b], j, k); }
    }
  }

  /** Writing the pair at slot j moves on to slot j + 1. */
  lemma MoveSlot(hash: File<int>, start: nat, end: nat, logic: Buckets, home: map<nat, nat>, vmap: map<int, int>,
                 nextBlock: nat, b: nat, j: int)
    requires MovedSoFar(hash, start, end, logic, vmap, b, j) && SlotsOk(logic, home, vmap, nextBlock)
    requires b in logic && 0 <= j < HASH_BUCKET && Sized(logic[b]) && logic[b].vno[j] != 0
    ensures logic[b].no[j] >= 0
    ensures var no, hno := logic[b].no[j], start + logic[b].no[j] / HASH_WORDS;
      MovedSoFar(WriteAt(hash, hno, no % HASH_WORDS, [logic[b].vno[j]], ZeroWords()), start,
                 if hno >= end then hno + 1 else end, logic, vmap, b, j + 1)
  {
    var no, vno := logic[b].no[j], logic[b].vno[j];
    assert Pairs(logic[b], j, no) && BucketMaps(logic[b], home[b], vmap);
    WriteWord(hash, start, no, vno);
    PlacedNext(logic, home, vmap, nextBlock, b, j, no);
    hide FlatWord, Placed, SlotsOk, BucketMaps;
  }

  lemma PlacedBucket(logic: Buckets, b: nat, j: int)
    requires b in logic && Packed(logic[b]) && 0 <= j <= HASH_BUCKET && (j < HASH_BUCKET ==> logic[b].vno[j] == 0)
    ensures var b1 := b + 1; forall no: int :: Placed(logic, b1, 0, no) <==> Placed(logic, b, j, no)
  {
    var b1 := b + 1;
    forall no: int
      ensures Placed(logic, b1, 0, no) <==> Placed(logic, b, j, no)
    {
      if Placed(logic, b + 1, 0, no) {
        var c: nat, k :| c in logic && Pairs(logic[c], k, no) && (c < b + 1 || (c == b + 1 && k < 0));
        assert c < b || (c == b && k < j);
      }
      if Placed(logic, b, j, no) {
        var c: nat, k :| c in logic && Pairs(logic[c], k, no) && (c < b || (c == b && k < j));
        assert c < b + 1;
      }
    }
  }

  /** At the first free slot, the bucket is done. */
  lemma MoveBucket(hash: File<int>, start: nat, end: nat, logic: Buckets, vmap: map<int, int>, b: nat, j: int)
    requires MovedSoFar(hash, start, end, logic, vmap, b, j) && b in logic && Packed(logic[b]) && 0 <= j <= HASH_BUCKET
    requires j < HASH_BUCKET ==> logic[b].vno[j] == 0
    ensures MovedSoFar(hash, start, end, logic, vmap, b + 1, 0)
  {
    PlacedBucket(logic, b, j);
    hide FlatWord, Placed;
  }

  /** After all buckets the flat index holds the whole block map. */
  lemma MoveEnd(hash: File<int>, start: nat, end: nat, logic: Buckets, home: map<nat, nat>, vmap: map<int, int>,
                nextBlock: nat)
    requires MovedSoFar(hash, start, end, logic, vmap, start, 0) && SlotsOk(logic, home, vmap, nextBlock)
    requires forall b :: b in logic ==> b < start
    ensures FlatOk(hash, start, end, vmap, nextBlock)
  {
    SlotsMapOk(logic, home, vmap, nextBlock);
    AllPlaced(logic, home, vmap, nextBlock, start);
    hide FlatWord, Placed, SlotsOk;
  }

  lemma AllPlaced(logic: Buckets, home: map<nat, nat>, vmap: map<int, int>, nextBlock: nat, start: nat)
    requires SlotsOk(logic, home, vmap, nextBlock) && forall b :: b in logic ==> b < start
    ensures forall no :: Placed(logic, start, 0, no) <==> no in vmap
  {
    forall no | Placed(logic, start, 0, no)
      ensures no in vmap
    {
      var c: nat, k :| c in logic && Pairs(logic[c], k, no);
      SlotMap(logic, home, vmap, nextBlock, c, k, no);
    }
    forall no | no in vmap
      ensures Placed(logic, start, 0, no)
    {
      assert Held(logic, no);
      var b: nat :| b in logic && HasNo(logic[b], no);
      var i :| Pairs(logic[b], i, no);
    }
  }

  /** Noting one more block in the flat index. */
  lemma NewWord(hash: File<int>, start: nat, end: nat, vmap: map<int, int>, nextBlock: nat, no: int)
    requires FlatOk(hash, start, end, vmap, nextBlock) && no >= 0 && no !in vmap
    ensures var hno := start + no / HASH_WORDS;
      FlatOk(WriteAt(hash, hno, no % HASH_WORDS, [nextBlock], ZeroWords()), start, if hno >= end then hno + 1 else end,
             vmap[no := nextBlock], nextBlock + 1)
  {
    WriteWord(hash, start, no, nextBlock);
    hide FlatWord;
  }
}
