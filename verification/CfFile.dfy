/** The shadow file: an overlay of changed blocks over a register file that is only read. */
module CfFile {
  import opened Sequences
  import opened CfStore
  import opened CfIndex
  import opened CfFlat
  import opened CfData
  import opened CfCommit

  /** A block size fits a signed 32-bit word. */
  type BlockSize = n: nat | 0 < n < 0x8000_0000 witness 1

  class ShadowFile {
    const blockSize: BlockSize
    // The first bucket, which the header tells.
    const firstBucket: nat
    // The register file below, which only a commit changes.
    var rmf: File<int>
    // The header: whether the index is flat, the next shadow block, the end of the hash
    // buckets, which is where the flat index starts, and its end.
    var flat: bool
    var nextBlock: nat
    var nextBucket: nat
    var flatBucket: nat
    // The first bucket of each chain of the hash.
    var table: seq<int>
    // The index file and the file of shadow blocks.
    var hash: File<int>
    var blocks: File<int>
    // The buckets in memory.
    var mem: Cache
    var lru: seq<nat>
    var parray: seq<seq<nat>>
    var dirty: bool
    var noHits: int
    var noMiss: int
    var iobuf: seq<int>
    // The buckets by number, the chain of each, the chains, and the block map they make up.
    ghost var logic: Buckets
    ghost var home: map<nat, nat>
    ghost var chains: seq<seq<nat>>
    ghost var vmap: map<int, int>
    // The latest value of every byte that has one.
    ghost var latest: Bytes

    ghost predicate CacheValid()
      reads this`logic, this`mem, this`hash, this`lru, this`parray, this`home
    {
      CacheOk(logic, mem, hash) && ListsOk(mem, lru, parray, home)
    }

    ghost predicate HashValid()
      reads this`logic, this`home, this`chains, this`table, this`nextBucket, this`vmap, this`nextBlock
    {
      ChainsOk(logic, home, chains, table, nextBucket) && SlotsOk(logic, home, vmap, nextBlock)
    }

    lemma CacheParts()
      requires CacheValid()
      ensures CacheOk(logic, mem, hash) && ListsOk(mem, lru, parray, home) && |parray| == HASH_SIZE
      ensures |lru| <= MAX_IN_MEMORY && MAX_IN_MEMORY > 0
      ensures lru == [] ==> mem == map[]
    {
      if lru == [] {
        forall b
          ensures b !in mem
        {
        }
      }
    }

    lemma CacheAgain()
      requires CacheOk(logic, mem, hash) && ListsOk(mem, lru, parray, home)
      ensures CacheValid()
    {
    }

    lemma HeadIs(hash0: File<int>)
      ensures HeadSame(hash0, hash0)
    {
    }

    lemma MarkIs(dirty0: bool, mem0: Cache)
      ensures MarkKept(dirty0, mem0, dirty0, mem0)
    {
    }

    lemma MarkTrans(dirty0: bool, mem0: Cache, dirty1: bool, mem1: Cache, dirty2: bool, mem2: Cache)
      requires MarkKept(dirty0, mem0, dirty1, mem1) && MarkKept(dirty1, mem1, dirty2, mem2)
      ensures MarkKept(dirty0, mem0, dirty2, mem2)
    {
    }

    lemma DropMark(dirty0: bool, mem0: Cache, p: nat)
      requires p in mem0
      ensures MarkKept(dirty0, mem0, dirty0 || mem0[p].dirty, mem0 - {p})
    {
      if b :| b in mem0 && mem0[b].dirty && b != p {
        assert b in mem0 - {p} && (mem0 - {p})[b].dirty;
      }
    }

    lemma AddMark(dirty0: bool, mem0: Cache, p: nat, x: Cached)
      requires p !in mem0
      ensures MarkKept(dirty0, mem0, dirty0, mem0[p := x])
    {
      if b :| b in mem0 && mem0[b].dirty {
        assert b in mem0[p := x] && mem0[p := x][b].dirty;
      }
    }

    /** Writes the oldest bucket back if it is dirty, and forgets it. */
    method FlushOldest()
      requires CacheValid() && lru != []
      modifies this`mem, this`lru, this`parray, this`hash, this`dirty
      ensures CacheValid() && |lru| == |old(lru)| - 1 && mem == old(mem) - {old(lru)[0]}
      ensures HeadSame(old(hash), hash) && MarkKept(old(dirty), old(mem), dirty, mem)
    {
      hide *;
      CacheParts();
      var p := lru[0];
      DropLists(mem, lru, parray, home, p);
      DropCache(logic, mem, hash, p);
      HeadIs(hash);
      DropMark(dirty, mem, p);
      var h := mem[p].hno;
      if mem[p].dirty {
        hash := WriteAt(hash, p, 0, Encode(mem[p].ph), ZeroWords());
        dirty := true;
      }
      parray := parray[h := Remove(parray[h], p)];
      lru := lru[1..];
      mem := mem - {p};
      CacheAgain();
    }
  
    /** Writes back and forgets the oldest buckets: as many as asked for, or all when the number
        is negative. */
    method FlushBuckets(noToFlush: int)
      requires CacheValid()
      modifies this`mem, this`lru, this`parray, this`hash, this`dirty
      ensures CacheValid() && HeadSame(old(hash), hash) && MarkKept(old(dirty), old(mem), dirty, mem)
      ensures noToFlush < 0 ==> mem == map[] && lru == []
      ensures noToFlush == 1 && old(lru) != [] ==> |lru| == |old(lru)| - 1
      ensures forall b :: b in mem ==> b in old(mem) && mem[b] == old(mem)[b]
    {
      hide *;
      var i := 0;
      HeadIs(hash);
      MarkIs(dirty, mem);
      while i != noToFlush
        invariant CacheValid() && HeadSame(old(hash), hash) && MarkKept(old(dirty), old(mem), dirty, mem)
        invariant 0 <= i && i + |lru| == |old(lru)| && (noToFlush >= 0 ==> i <= noToFlush)
        invariant forall b :: b in mem ==> b in old(mem) && mem[b] == old(mem)[b]
        decreases |lru|
      {
        CacheParts();
        if lru == [] {
          break;
        }
        ghost var hash1, dirty1, mem1 := hash, dirty, mem;
        FlushOldest();
        HeadTrans(old(hash), hash1, hash);
        MarkTrans(old(dirty), old(mem), dirty1, mem1, dirty, mem);
        i := i + 1;
      }
      CacheParts();
    }

    /** Makes room for one more bucket. */
    method MakeRoom()
      requires CacheValid()
      modifies this`mem, this`lru, this`parray, this`hash, this`dirty
      ensures CacheValid() && |lru| < MAX_IN_MEMORY && HeadSame(old(hash), hash)
      ensures MarkKept(old(dirty), old(mem), dirty, mem)
      ensures forall b :: b in mem ==> b in old(mem) && mem[b] == old(mem)[b]
    {
      hide *;
      HeadIs(hash);
      MarkIs(dirty, mem);
      CacheParts();
      if |lru| == MAX_IN_MEMORY {
        FlushBuckets(1);
      }
    }

    /** Reads a bucket that is not in memory. */
    method GetBucket(b: nat, h: nat)
      requires CacheValid() && b in logic && b !in mem && b in home && home[b] == h < HASH_SIZE
      modifies this`mem, this`lru, this`parray, this`hash, this`dirty
      ensures CacheValid() && b in mem && mem[b] == Cached(logic[b], false, h)
      ensures HeadSame(old(hash), hash) && MarkKept(old(dirty), old(mem), dirty, mem)
      ensures forall c :: c in mem && c != b ==> c in old(mem) && mem[c] == old(mem)[c]
    {
      hide *;
      MakeRoom();
      AddMark(dirty, mem, b, Cached(logic[b], false, h));
      MarkTrans(old(dirty), old(mem), dirty, mem, dirty, mem[b := Cached(logic[b], false, h)]);
      CacheParts();
      AddCache(logic, mem, hash, b);
      var x := Decode(hash[b]);
      AddLists(mem, lru, parray, home, b, Cached(x, false, h));
      lru := lru + [b];
      parray := parray[h := [b] + parray[h]];
      mem := mem[b := Cached(x, false, h)];
      CacheAgain();
    }
  
    lemma ChainFacts(no: int)
      requires CacheValid() && HashValid() && no >= 0
      ensures var h := HashOf(no);
        && 0 <= h < HASH_SIZE == |chains| == |table| == |parray| && ChainOk(logic, home, chains[h], table[h], h)
        && (forall k :: 0 <= k < |parray[h]| ==>
             && parray[h][k] in mem && parray[h][k] in logic && mem[parray[h][k]].ph == logic[parray[h][k]]
             && Packed(logic[parray[h][k]]))
        && (forall b :: b in mem && b in chains[h] ==> b in parray[h])
    {
      var h := HashOf(no);
      forall k | 0 <= k < |parray[h]|
        ensures parray[h][k] in mem && parray[h][k] in logic && mem[parray[h][k]].ph == logic[parray[h][k]]
        ensures Packed(logic[parray[h][k]])
      {
        assert parray[h][k] in parray[h];
        assert BucketMaps(logic[parray[h][k]], home[parray[h][k]], vmap);
      }
    }

    /** Where the chain goes on after its first i buckets. */
    lemma ChainStep(no: int, i: nat)
      requires CacheValid() && HashValid() && no >= 0 && i < |chains[HashOf(no)]|
      ensures var b := chains[HashOf(no)][i];
        && b in logic && b > 0 && b in home && home[b] == HashOf(no) < HASH_SIZE && Packed(logic[b])
        && logic[b].next == Nth(chains[HashOf(no)], i + 1)
        && (b in mem ==> mem[b].ph == logic[b])
    {
      ChainFacts(no);
      var b := chains[HashOf(no)][i];
      assert BucketMaps(logic[b], home[b], vmap);
    }

    /** The first k buckets of the chain that are in memory do not hold no. */
    ghost predicate NotInMemory(list: seq<nat>, k: int, no: int)
      reads this`logic
    {
      forall i :: 0 <= i < k && i < |list| && list[i] in logic ==> !HasNo(logic[list[i]], no)
    }

    /** The first i buckets of the chain do not hold no, and neither do those in memory. */
    ghost predicate NotSoFar(chain: seq<nat>, i: int, no: int)
      reads this`logic, this`mem
    {
      && (forall k :: 0 <= k < i && k < |chain| && chain[k] in logic ==> !HasNo(logic[chain[k]], no))
      && (forall k :: 0 <= i <= k < |chain| && chain[k] in logic && chain[k] in mem ==> !HasNo(logic[chain[k]], no))
    }

    lemma MemoryScanned(no: int)
      requires CacheValid() && HashValid() && no >= 0 && NotInMemory(parray[HashOf(no)], |parray[HashOf(no)]|, no)
      ensures NotSoFar(chains[HashOf(no)], 0, no)
    {
      ChainFacts(no);
      var h := HashOf(no);
      forall k | 0 <= k < |chains[h]| && chains[h][k] in logic && chains[h][k] in mem
        ensures !HasNo(logic[chains[h][k]], no)
      {
        assert chains[h][k] in chains[h];
        var j :| 0 <= j < |parray[h]| && parray[h][j] == chains[h][k];
      }
    }

    lemma FoundIn(no: int, b: nat, i: int)
      requires HashValid() && b in logic && Pairs(logic[b], i, no)
      ensures no in vmap && 0 <= i < |logic[b].vno| && vmap[no] == logic[b].vno[i]
    {
      SlotMap(logic, home, vmap, nextBlock, b, i, no);
    }

    lemma FoundNowhere(no: int)
      requires HashValid() && no >= 0 && NotSoFar(chains[HashOf(no)], |chains[HashOf(no)]|, no)
      ensures no !in vmap
    {
      NotMapped(logic, home, chains, table, nextBucket, vmap, nextBlock, no);
    }

    /** The shadow block of no, or 0. Buckets in memory are looked at first, then the chain is
        followed, reading what is not in memory. */
    method LookupHash(no: int) returns (vno: int)
      requires CacheValid() && HashValid() && no >= 0
      modifies this`mem, this`lru, this`parray, this`hash, this`dirty, this`noHits, this`noMiss
      ensures CacheValid() && HashValid() && HeadSame(old(hash), hash) && MarkKept(old(dirty), old(mem), dirty, mem)
      ensures vno == if no in vmap then vmap[no] else 0
    {
      hide *;
      ChainFacts(no);
      HeadIs(hash);
      MarkIs(dirty, mem);
      var h := HashOf(no);
      var list := parray[h];
      var k := 0;
      NoneScanned(list, no);
      while k < |list|
        invariant 0 <= k <= |list| && NotInMemory(list, k, no) && unchanged(this)
      {
        ChainFacts(no);
        var b := list[k];
        var i := FindSlot(mem[b].ph, no);
        if i != -1 {
          FoundIn(no, b, i);
          noHits := noHits + 1;
          return mem[b].ph.vno[i];
        }
        ScanMore(list, k, no);
        k := k + 1;
      }
      MemoryScanned(no);
      vno := FollowChain(no);
    }

    /** Follows the chain of no, when the buckets in memory do not hold it. */
    method FollowChain(no: int) returns (vno: int)
      requires CacheValid() && HashValid() && no >= 0 && NotSoFar(chains[HashOf(no)], 0, no)
      modifies this`mem, this`lru, this`parray, this`hash, this`dirty, this`noMiss
      ensures CacheValid() && HashValid() && HeadSame(old(hash), hash) && MarkKept(old(dirty), old(mem), dirty, mem)
      ensures vno == if no in vmap then vmap[no] else 0
    {
      hide *;
      ChainFacts(no);
      HeadIs(hash);
      MarkIs(dirty, mem);
      var h := HashOf(no);
      ghost var chain := chains[h];
      ghost var i := 0;
      var blockNo := table[h];
      ChainHead(no);
      while blockNo != 0
        invariant CacheValid() && HashValid() && i <= |chain| && NotSoFar(chain, i, no) && blockNo == Nth(chain, i)
        invariant HeadSame(old(hash), hash) && MarkKept(old(dirty), old(mem), dirty, mem)
        decreases |chain| - i
      {
        ChainAt(no, i, blockNo);
        ChainStep(no, i);
        var b: nat := blockNo;
        if b in mem {
          MemoryLater(chain, i, no);
          blockNo := mem[b].ph.next;
          i := i + 1;
          continue;
        }
        noMiss := noMiss + 1;
        ghost var mem0 := mem;
        SoFarParts(chain, i, no);
        ghost var hash1, dirty1 := hash, dirty;
        GetBucket(b, h);
        HeadTrans(old(hash), hash1, hash);
        MarkTrans(old(dirty), old(mem), dirty1, mem0, dirty, mem);
        var k := FindSlot(mem[b].ph, no);
        if k != -1 {
          FoundIn(no, b, k);
          return mem[b].ph.vno[k];
        }
        BucketRead(logic, mem0, mem, chain, i, no);
        FollowMore(chain, i, no);
        blockNo := mem[b].ph.next;
        i := i + 1;
      }
      ChainEnd(no, i);
      FoundNowhere(no);
      vno := 0;
    }

    lemma ChainHead(no: int)
      requires HashValid() && no >= 0
      ensures table[HashOf(no)] == Nth(chains[HashOf(no)], 0)
    {
    }

    lemma ChainAt(no: int, i: nat, b: int)
      requires HashValid() && no >= 0 && b == Nth(chains[HashOf(no)], i) && b != 0 && i <= |chains[HashOf(no)]|
      ensures i < |chains[HashOf(no)]| && b == chains[HashOf(no)][i] && b >= 0
    {
    }

    lemma ChainEnd(no: int, i: nat)
      requires HashValid() && no >= 0 && Nth(chains[HashOf(no)], i) == 0 && i <= |chains[HashOf(no)]|
      ensures i == |chains[HashOf(no)]|
    {
    }

    lemma NoneScanned(list: seq<nat>, no: int)
      ensures NotInMemory(list, 0, no)
    {
    }

    lemma ScanMore(list: seq<nat>, k: nat, no: int)
      requires NotInMemory(list, k, no) && k < |list| && (list[k] in logic ==> !HasNo(logic[list[k]], no))
      ensures NotInMemory(list, k + 1, no)
    {
    }

    lemma FollowMore(chain: seq<nat>, i: nat, no: int)
      requires i < |chain| && (chain[i] in logic ==> !HasNo(logic[chain[i]], no))
      requires forall k :: 0 <= k < i && chain[k] in logic ==> !HasNo(logic[chain[k]], no)
      requires forall k :: i < k < |chain| && chain[k] in logic && chain[k] in mem ==> !HasNo(logic[chain[k]], no)
      ensures NotSoFar(chain, i + 1, no)
    {
    }

    lemma SoFarParts(chain: seq<nat>, i: nat, no: int)
      requires NotSoFar(chain, i, no)
      ensures forall k :: 0 <= k < i && k < |chain| && chain[k] in logic ==> !HasNo(logic[chain[k]], no)
      ensures forall k :: i <= k < |chain| && chain[k] in logic && chain[k] in mem ==> !HasNo(logic[chain[k]], no)
    {
    }

    lemma MemoryLater(chain: seq<nat>, i: nat, no: int)
      requires NotSoFar(chain, i, no) && i < |chain| && chain[i] in mem
      ensures NotSoFar(chain, i + 1, no)
    {
    }

    /** Puts the pair of no and the next shadow block into the free slot i of bucket b. */
    method PutIn(b: nat, i: int, no: int) returns (vno: int)
      requires CacheValid() && HashValid() && no >= 0 && no !in vmap && b in mem && b in home && home[b] == HashOf(no)
      requires b in logic && mem[b].ph == logic[b] && Sized(logic[b]) && 0 <= i < HASH_BUCKET && logic[b].vno[i] == 0
      requires forall k :: 0 <= k < i ==> logic[b].vno[k] != 0
      modifies this`mem, this`logic, this`vmap, this`nextBlock
      ensures CacheValid() && HashValid() && vno == old(nextBlock) && nextBlock == vno + 1
      ensures vmap == old(vmap)[no := vno]
      ensures Unsaved(dirty, mem)
    {
      hide *;
      HashParts();
      vno := nextBlock;
      ghost var x := PutSlot(logic[b], i, no, vno);
      PutSame(logic[b], i, no, vno);
      BucketNumber(b);
      PutChains(logic, home, chains, table, nextBucket, b, x);
      PutSlots(logic, home, vmap, nextBlock, b, i, no);
      Change(b, PutSlot(mem[b].ph, i, no, vno));
      vmap := vmap[no := vno];
      nextBlock := nextBlock + 1;
      HashAgain();
    }

    /** Changes a bucket in memory to x, to be written. */
    method Change(b: nat, x: Bucket)
      requires CacheValid() && b in mem && Sized(x) && x.number == b
      modifies this`mem, this`logic
      ensures CacheValid() && Unsaved(dirty, mem) && logic == old(logic)[b := x]
    {
      hide *;
      CacheParts();
      PutCache(logic, mem, hash, lru, parray, home, b, x);
      mem := mem[b := Cached(x, true, mem[b].hno)];
      logic := logic[b := x];
      DirtyBucket(b);
      CacheAgain();
    }

    lemma PutSame(b: Bucket, i: int, no: int, vno: int)
      requires Sized(b) && 0 <= i < HASH_BUCKET
      ensures PutSlot(b, i, no, vno).next == b.next && PutSlot(b, i, no, vno).number == b.number
      ensures Sized(PutSlot(b, i, no, vno))
    {
    }

    lemma BucketNumber(b: nat)
      requires CacheValid() && b in logic
      ensures logic[b].number == b
    {
    }

    lemma DirtyBucket(b: nat)
      requires b in mem && mem[b].dirty
      ensures Unsaved(dirty, mem)
    {
    }

    lemma HashParts()
      requires HashValid()
      ensures ChainsOk(logic, home, chains, table, nextBucket) && SlotsOk(logic, home, vmap, nextBlock)
      ensures nextBlock >= 1
      ensures |table| == |chains| == HASH_SIZE
    {
    }

    lemma HashAgain()
      requires ChainsOk(logic, home, chains, table, nextBucket) && SlotsOk(logic, home, vmap, nextBlock)
      ensures HashValid()
    {
    }

    /** Gives no the next shadow block. The first free slot of a bucket in memory is taken, or
        of the first bucket read while following the chain; else a bucket is added to it. */
    method NewHash(no: int) returns (vno: int)
      requires CacheValid() && HashValid() && no >= 0 && no !in vmap && nextBucket >= FIRST_BUCKET
      modifies this`mem, this`lru, this`parray, this`hash, this`dirty, this`noHits, this`noMiss
      modifies this`logic, this`home, this`chains, this`vmap, this`table, this`nextBlock, this`nextBucket
      ensures CacheValid() && HashValid() && vno == old(nextBlock) && nextBlock == vno + 1
      ensures vmap == old(vmap)[no := vno]
      ensures HeadSame(old(hash), hash) && Unsaved(dirty, mem) && nextBucket >= old(nextBucket)
    {
      hide *;
      ChainFacts(no);
      HeadIs(hash);
      var h := HashOf(no);
      var list := parray[h];
      var k := 0;
      while k < |list|
        invariant 0 <= k <= |list| && unchanged(this)
      {
        ChainFacts(no);
        var b := list[k];
        InList(no, k);
        var i := FreeSlot(mem[b].ph);
        if i != -1 {
          noHits := noHits + 1;
          vno := PutIn(b, i, no);
          return;
        }
        k := k + 1;
      }
      vno := ExtendChain(no);
    }

    lemma InList(no: int, k: nat)
      requires CacheValid() && HashValid() && no >= 0 && k < |parray[HashOf(no)]|
      ensures var b := parray[HashOf(no)][k];
        && b in mem && b in logic && b in home && home[b] == HashOf(no) && mem[b].ph == logic[b] && Packed(logic[b])
        && Sized(logic[b])
    {
      ChainFacts(no);
      assert parray[HashOf(no)][k] in parray[HashOf(no)];
    }

    /** Follows the chain of no to a free slot, or to its end, where a bucket is added. */
    method ExtendChain(no: int) returns (vno: int)
      requires CacheValid() && HashValid() && no >= 0 && no !in vmap && nextBucket >= FIRST_BUCKET
      modifies this`mem, this`lru, this`parray, this`hash, this`dirty, this`noMiss
      modifies this`logic, this`home, this`chains, this`vmap, this`table, this`nextBlock, this`nextBucket
      ensures CacheValid() && HashValid() && vno == old(nextBlock) && nextBlock == vno + 1
      ensures vmap == old(vmap)[no := vno]
      ensures HeadSame(old(hash), hash) && Unsaved(dirty, mem) && nextBucket >= old(nextBucket)
    {
      hide *;
      ChainFacts(no);
      HeadIs(hash);
      ghost var hash0 := hash;
      var h := HashOf(no);
      ghost var chain, i := chains[h], 0;
      var prev: nat, bucketNo := 0, table[h];
      ChainHead(no);
      while bucketNo != 0
        invariant CacheValid() && HashValid() && i <= |chain| && bucketNo == Nth(chain, i) && HeadSame(hash0, hash)
        invariant prev == (if i == 0 then 0 else chain[i - 1]) && (i > 0 ==> prev in mem)
        invariant unchanged(this`logic, this`home, this`chains, this`vmap, this`table, this`nextBlock, this`nextBucket)
        decreases |chain| - i
      {
        ChainAt(no, i, bucketNo);
        ChainStep(no, i);
        var b: nat := bucketNo;
        if b in mem {
          prev, bucketNo, i := b, mem[b].ph.next, i + 1;
          continue;
        }
        noMiss := noMiss + 1;
        ghost var hash1 := hash;
        GetBucket(b, h);
        HeadTrans(hash0, hash1, hash);
        var k := FreeSlot(mem[b].ph);
        if k != -1 {
          PackedSized(logic[b]);
          vno := PutIn(b, k, no);
          return;
        }
        prev, bucketNo, i := b, mem[b].ph.next, i + 1;
      }
      ChainEnd(no, i);
      ghost var hash1 := hash;
      vno := AddBucket(no, h, prev);
      HeadTrans(hash0, hash1, hash);
    }

    lemma PackedSized(b: Bucket)
      requires Packed(b)
      ensures Sized(b)
    {
    }

    /** Adds a bucket for no at the end of its chain, behind prev. */
    method AddBucket(no: int, h: nat, prev: nat) returns (vno: int)
      requires CacheValid() && HashValid() && no >= 0 && no !in vmap && nextBucket >= FIRST_BUCKET && h == HashOf(no)
      requires prev == (if |chains[h]| == 0 then 0 else chains[h][|chains[h]| - 1]) && (|chains[h]| > 0 ==> prev in mem)
      modifies this`mem, this`lru, this`parray, this`hash, this`dirty
      modifies this`logic, this`home, this`chains, this`vmap, this`table, this`nextBlock, this`nextBucket
      ensures CacheValid() && HashValid() && vno == old(nextBlock) && nextBlock == vno + 1
      ensures vmap == old(vmap)[no := vno]
      ensures HeadSame(old(hash), hash) && Unsaved(dirty, mem) && nextBucket >= old(nextBucket)
    {
      hide *;
      HashParts();
      vno := nextBlock;
      var b := nextBucket;
      NewSize(b, no, vno);
      ghost var x := PutSlot(EmptyBucket(b), 0, no, vno);
      BucketAfter(no, h, prev);
      ghost var logic1 := if prev == 0 then logic else logic[prev := WithNext(logic[prev], b)];
      NewChains(logic, home, chains, table, nextBucket, h, prev, x);
      NewSlots(logic, home, vmap, nextBlock, h, prev, b, no);
      LinkBucket(h, prev, b, logic1);
      MakeRoom();
      PlaceBucket(b, h, no, vno);
    }

    /** The new bucket, holding no, joins those in memory. */
    method PlaceBucket(b: nat, h: nat, no: int, vno: int)
      requires CacheValid() && b !in logic && |lru| < MAX_IN_MEMORY && h < HASH_SIZE && b == nextBucket >= FIRST_BUCKET
      requires vno == nextBlock
      requires Sized(EmptyBucket(b)) && 0 < HASH_BUCKET && h < |chains|
      requires var x := PutSlot(EmptyBucket(b), 0, no, vno);
        && Sized(x) && x.number == b
        && ChainsOk(logic[b := x], home[b := h], chains[h := chains[h] + [b]], table, b + 1)
        && SlotsOk(logic[b := x], home[b := h], vmap[no := vno], vno + 1)
      modifies this`mem, this`lru, this`parray, this`logic
      modifies this`home, this`chains, this`vmap, this`nextBlock, this`nextBucket
      ensures CacheValid() && HashValid() && nextBlock == vno + 1 && vmap == old(vmap)[no := vno] && nextBucket == b + 1
      ensures Unsaved(dirty, mem)
    {
      hide *;
      Remember(b, h, PutSlot(EmptyBucket(b), 0, no, vno));
      chains := chains[h := chains[h] + [b]];
      vmap := vmap[no := vno];
      nextBlock, nextBucket := nextBlock + 1, nextBucket + 1;
      HashAgain();
    }

    /** Puts a new bucket x in memory, to be written. */
    method Remember(b: nat, h: nat, x: Bucket)
      requires CacheValid() && b !in logic && |lru| < MAX_IN_MEMORY && h < HASH_SIZE && Sized(x)
      requires x.number == b >= FIRST_BUCKET
      modifies this`mem, this`lru, this`parray, this`logic, this`home
      ensures CacheValid() && Unsaved(dirty, mem) && logic == old(logic)[b := x] && home == old(home)[b := h]
    {
      hide *;
      CacheParts();
      NewCached(logic, mem, hash, lru, parray, home, b, x, h);
      lru := lru + [b];
      parray := parray[h := [b] + parray[h]];
      mem := mem[b := Cached(x, true, h)];
      logic, home := logic[b := x], home[b := h];
      DirtyBucket(b);
      CacheAgain();
    }

    lemma NewSize(b: nat, no: int, vno: int)
      ensures Sized(EmptyBucket(b)) && 0 < HASH_BUCKET
      ensures var x := PutSlot(EmptyBucket(b), 0, no, vno); Sized(x) && x.number == b && x.next == 0
    {
    }

    lemma BucketAfter(no: int, h: nat, prev: nat)
      requires CacheValid() && HashValid() && no >= 0 && h == HashOf(no)
      requires prev == if |chains[h]| == 0 then 0 else chains[h][|chains[h]| - 1]
      ensures h < HASH_SIZE == |chains| && nextBucket !in logic
      ensures if chains[h] == [] then prev == 0 else prev == chains[h][|chains[h]| - 1]
      ensures prev != 0 ==> prev in logic && |chains[h]| > 0 && Sized(logic[prev]) && logic[prev].number == prev
      ensures nextBucket !in mem
    {
      LastBucket(logic, home, chains, table, nextBucket, h, prev);
    }

    /** Points the end of the chain h at the new bucket b. */
    method LinkBucket(h: nat, prev: nat, b: nat, ghost logic1: Buckets)
      requires CacheValid() && h < |table|
      requires (prev != 0 ==> prev in mem && prev in logic && Sized(logic[prev]) && logic[prev].number == prev)
      requires logic1 == if prev == 0 then logic else logic[prev := WithNext(logic[prev], b)]
      modifies this`mem, this`table, this`logic
      ensures CacheValid() && logic == logic1 && table == if prev == 0 then old(table)[h := b] else old(table)
      ensures forall c :: c in mem <==> c in old(mem)
    {
      hide *;
      CacheParts();
      if prev == 0 {
        table := table[h := b];
      } else {
        LinkPrev(logic[prev], b, prev);
        PutCache(logic, mem, hash, lru, parray, home, prev, WithNext(logic[prev], b));
        mem := mem[prev := Cached(WithNext(mem[prev].ph, b), true, mem[prev].hno)];
        logic := logic1;
        CacheAgain();
      }
    }

    lemma LinkPrev(x: Bucket, b: nat, prev: nat)
      requires Sized(x) && x.number == prev
      ensures Sized(WithNext(x, b)) && WithNext(x, b).number == prev
    {
    }

    // -------------------------------------------------------------- the flat index

    /** Notes the shadow block of no in the flat index. */
    method WriteFlat(no: int, vno: int)
      requires no >= 0
      modifies this`hash, this`flatBucket, this`dirty
      ensures hash == WriteAt(old(hash), nextBucket + no / HASH_WORDS, no % HASH_WORDS, [vno], ZeroWords())
      ensures flatBucket == if nextBucket + no / HASH_WORDS >= old(flatBucket) then nextBucket + no / HASH_WORDS + 1
        else old(flatBucket)
      ensures dirty
    {
      var hno, off := no / HASH_WORDS, no % HASH_WORDS;
      hno := hno + nextBucket;
      if hno >= flatBucket {
        flatBucket := hno + 1;
      }
      dirty := true;
      hash := WriteAt(hash, hno, off, [vno], ZeroWords());
    }

    /** The shadow block of no, or 0. */
    method LookupFlat(no: int) returns (vno: int)
      requires FlatOk(hash, nextBucket, flatBucket, vmap, nextBlock) && no >= 0
      ensures vno == if no in vmap then vmap[no] else 0
    {
      vno := FlatWord(hash, nextBucket, no);
    }

    /** Turns the hash into a flat index: every pair of every bucket is noted in it. */
    method MovetoFlat()
      requires CacheValid() && HashValid() && !flat && nextBucket >= FIRST_BUCKET && flatBucket <= nextBucket
      requires firstBucket == FIRST_BUCKET
      modifies this`mem, this`lru, this`parray, this`hash, this`dirty, this`flatBucket, this`flat
      ensures flat && FlatOk(hash, nextBucket, flatBucket, vmap, nextBlock) && mem == map[] && lru == [] && dirty
      ensures HeadSame(old(hash), hash)
    {
      hide *;
      HeadIs(hash);
      FlushBuckets(-1);
      CacheParts();
      HashParts();
      BucketRange();
      MoveStart(hash, logic, vmap, nextBucket, flatBucket);
      var i := firstBucket;
      while i < nextBucket
        invariant FIRST_BUCKET <= i <= nextBucket && HeadSame(old(hash), hash)
        invariant MovedSoFar(hash, nextBucket, flatBucket, logic, vmap, i, 0) && mem == map[] && lru == []
        invariant unchanged(this`flat)
      {
        BucketAt(i);
        var p := Decode(hash[i]);
        var j := 0;
        while j < HASH_BUCKET && p.vno[j] != 0
          invariant 0 <= j <= HASH_BUCKET == |p.vno| == |p.no| && HeadSame(old(hash), hash)
          invariant MovedSoFar(hash, nextBucket, flatBucket, logic, vmap, i, j) && mem == map[] && lru == []
          invariant unchanged(this`flat)
        {
          MoveSlot(hash, nextBucket, flatBucket, logic, home, vmap, nextBlock, i, j);
          ghost var hash1 := hash;
          WriteFlat(p.no[j], p.vno[j]);
          HeadAbove(hash1, hash, p.no[j], p.vno[j]);
          HeadTrans(old(hash), hash1, hash);
          j := j + 1;
        }
        MoveBucket(hash, nextBucket, flatBucket, logic, vmap, i, j);
        i := i + 1;
      }
      MoveEnd(hash, nextBucket, flatBucket, logic, home, vmap, nextBlock);
      flat, dirty := true, true;
    }

    lemma BucketRange()
      requires HashValid() && nextBucket >= FIRST_BUCKET
      ensures Above(logic, nextBucket) && (forall b :: b in logic ==> b < nextBucket) && FIRST_BUCKET == 8
    {
    }

    lemma BucketAt(i: nat)
      requires HashValid() && FIRST_BUCKET <= i < nextBucket
      requires MovedSoFar(hash, nextBucket, flatBucket, logic, vmap, i, 0)
      ensures i in logic && i < |hash| && |hash[i]| == HASH_WORDS && Decode(hash[i]) == logic[i] && Packed(logic[i])
      ensures Sized(logic[i])
      ensures |logic[i].no| == |logic[i].vno| == HASH_BUCKET && SlotsOk(logic, home, vmap, nextBlock)
    {
      assert BucketMaps(logic[i], home[i], vmap);
      DecodeEncode(logic[i]);
    }

    lemma HeadAbove(hash0: File<int>, hash1: File<int>, no: int, vno: int)
      requires no >= 0 && nextBucket >= FIRST_BUCKET
      requires hash1 == WriteAt(hash0, nextBucket + no / HASH_WORDS, no % HASH_WORDS, [vno], ZeroWords())
      ensures HeadSame(hash0, hash1)
    {
    }

    // -------------------------------------------------------------- blocks

    /** The index, hash or flat, holds the block map. */
    ghost predicate IndexValid()
      reads this`flat, this`logic, this`mem, this`hash, this`lru, this`parray, this`home
      reads this`chains, this`table, this`nextBucket, this`flatBucket, this`vmap, this`nextBlock
    {
      && nextBucket >= firstBucket == FIRST_BUCKET
      && (flat ==> FlatOk(hash, nextBucket, flatBucket, vmap, nextBlock) && mem == map[] && lru == [])
      && (!flat ==> CacheValid() && HashValid() && flatBucket <= nextBucket)
    }

    lemma IndexParts()
      requires IndexValid()
      ensures nextBucket >= FIRST_BUCKET && firstBucket == FIRST_BUCKET
      ensures flat ==> FlatOk(hash, nextBucket, flatBucket, vmap, nextBlock) && mem == map[] && lru == []
      ensures !flat ==> CacheValid() && HashValid() && flatBucket <= nextBucket
      ensures MapOk(vmap, nextBlock)
    {
      if !flat { SlotsMapOk(logic, home, vmap, nextBlock); }
    }

    lemma IndexAgain()
      requires nextBucket >= FIRST_BUCKET && firstBucket == FIRST_BUCKET
      requires flat ==> FlatOk(hash, nextBucket, flatBucket, vmap, nextBlock) && mem == map[] && lru == []
      requires !flat ==> CacheValid() && HashValid() && flatBucket <= nextBucket
      ensures IndexValid()
    {
    }

    /** The shadow block of no, or 0. */
    method Lookup(no: int) returns (vno: int)
      requires IndexValid() && no >= 0
      modifies this`mem, this`lru, this`parray, this`hash, this`dirty, this`noHits, this`noMiss
      ensures IndexValid() && HeadSame(old(hash), hash) && MarkKept(old(dirty), old(mem), dirty, mem)
      ensures vno == if no in vmap then vmap[no] else 0
    {
      hide *;
      IndexParts();
      HeadIs(hash);
      MarkIs(dirty, mem);
      if flat {
        vno := LookupFlat(no);
      } else {
        vno := LookupHash(no);
      }
      IndexAgain();
    }

    /** Notes the next shadow block for no in the flat index. */
    method NewFlat(no: int) returns (vno: int)
      requires IndexValid() && flat && no >= 0 && no !in vmap
      modifies this`hash, this`flatBucket, this`dirty, this`vmap, this`nextBlock
      ensures IndexValid() && HeadSame(old(hash), hash) && Unsaved(dirty, mem)
      ensures vno == old(nextBlock) && nextBlock == vno + 1 && vmap == old(vmap)[no := vno]
    {
      hide *;
      IndexParts();
      vno := nextBlock;
      nextBlock := nextBlock + 1;
      ghost var hash0 := hash;
      NewWord(hash, nextBucket, flatBucket, vmap, vno, no);
      WriteFlat(no, vno);
      HeadAbove(hash0, hash, no, vno);
      vmap := vmap[no := vno];
      Marked();
      IndexAgain();
    }

    lemma Marked()
      requires dirty
      ensures Unsaved(dirty, mem)
    {
    }

    /** Gives no the next shadow block. A hash that is not looked up well becomes flat first. */
    method New(no: int) returns (vno: int)
      requires IndexValid() && no >= 0 && no !in vmap
      modifies this`mem, this`lru, this`parray, this`hash
      modifies this`dirty, this`noHits, this`noMiss, this`flat, this`flatBucket
      modifies this`logic, this`home, this`chains, this`vmap, this`table, this`nextBlock, this`nextBucket
      ensures IndexValid() && HeadSame(old(hash), hash) && Unsaved(dirty, mem)
      ensures vno == old(nextBlock) && nextBlock == vno + 1 && vmap == old(vmap)[no := vno]
      ensures flat <==> old(flat) || 2 * old(noMiss) > old(noHits)
    {
      hide *;
      IndexParts();
      if flat {
        vno := NewFlat(no);
      } else if noMiss * 2 > noHits {
        MovetoFlat();
        IndexAgain();
        ghost var hash1 := hash;
        vno := NewFlat(no);
        HeadTrans(old(hash), hash1, hash);
      } else {
        vno := NewHash(no);
        IndexAgain();
      }
    }

    // -------------------------------------------------------------- reading and writing

    function ZeroBlock(): seq<int> {
      seq(blockSize, i => 0)
    }

    ghost predicate DataValid()
      reads this`blocks, this`vmap, this`iobuf, this`latest, this`rmf
    {
      && FileOk(blocks, blockSize) && FileOk(rmf, blockSize) && |iobuf| == blockSize > 0
      && Shadowed(vmap, blocks) && LatestOk(latest, vmap, blocks, rmf)
    }

    ghost predicate Valid()
      reads this
    {
      IndexValid() && DataValid() && HeadValid()
    }

    lemma ValidParts()
      requires Valid()
      ensures IndexValid() && DataValid() && HeadValid() && FileOk(blocks, blockSize) && FileOk(rmf, blockSize)
      ensures |iobuf| == blockSize
      ensures Shadowed(vmap, blocks) && LatestOk(latest, vmap, blocks, rmf) && MapOk(vmap, nextBlock) && blockSize > 0
    {
      IndexParts();
    }

    lemma ValidAgain()
      requires IndexValid() && HeadValid()
      requires FileOk(blocks, blockSize) && FileOk(rmf, blockSize) && |iobuf| == blockSize > 0
      requires Shadowed(vmap, blocks) && LatestOk(latest, vmap, blocks, rmf)
      ensures Valid()
    {
    }

    /** The header on file is up to date, or is sure to be written when the file is closed. */
    ghost predicate HeadValid()
      reads this`dirty, this`mem, this`hash, this`flat, this`nextBlock, this`nextBucket, this`flatBucket, this`table
    {
      Unsaved(dirty, mem) || HeadOnFile(hash, flat, nextBlock, blockSize, firstBucket, nextBucket, flatBucket, table)
    }

    lemma HeadStays(dirty0: bool, mem0: Cache, hash0: File<int>)
      requires
        || Unsaved(dirty0, mem0)
        || HeadOnFile(hash0, flat, nextBlock, blockSize, firstBucket, nextBucket, flatBucket, table)
      requires HeadSame(hash0, hash) && MarkKept(dirty0, mem0, dirty, mem)
      ensures HeadValid()
    {
    }

    lemma HeadNow()
      requires HeadValid()
      ensures
        || Unsaved(dirty, mem)
        || HeadOnFile(hash, flat, nextBlock, blockSize, firstBucket, nextBucket, flatBucket, table)
    {
    }

    lemma HeadMarked()
      requires Unsaved(dirty, mem)
      ensures HeadValid()
    {
    }

    lemma MapBounds(no: int)
      requires IndexValid() && Shadowed(vmap, blocks)
      ensures no in vmap ==> vmap[no] != 0 && 0 <= vmap[no] < |blocks|
    {
      IndexParts();
    }

    /** Reads part of a block, or all of it when nbytes is 0, from its shadow; found tells whether it
        has one. */
    method CfRead(no: int, offset: nat, nbytes: nat) returns (found: bool, buf: seq<int>)
      requires Valid() && no >= 0 && offset + (if nbytes == 0 then blockSize else nbytes) <= blockSize
      modifies this`mem, this`lru, this`parray, this`hash, this`dirty, this`noHits, this`noMiss
      ensures Valid() && found == (no in vmap)
      ensures var n := if nbytes == 0 then blockSize else nbytes;
        found ==>
          |ViewOf(vmap, blocks, rmf, no)| == blockSize && buf == ViewOf(vmap, blocks, rmf, no)[offset..offset + n]
    {
      hide *;
      ValidParts();
      HeadNow();
      ghost var dirty0, mem0, hash0 := dirty, mem, hash;
      var block := Lookup(no);
      HeadStays(dirty0, mem0, hash0);
      MapBounds(no);
      found, buf := block != 0, [];
      if found {
        ShadowView(no);
        var toRead := if nbytes == 0 then blockSize else nbytes;
        buf := blocks[block][offset..offset + toRead];
      }
      ValidAgain();
    }

    lemma ShadowView(no: int)
      requires no in vmap && Shadowed(vmap, blocks) && FileOk(blocks, blockSize)
      ensures ViewOf(vmap, blocks, rmf, no) == blocks[vmap[no]] && |blocks[vmap[no]]| == blockSize
    {
    }

    /** Writes data to a block: to its shadow, or into a new shadow with the rest of the block. */
    method CfWrite(no: int, offset: nat, nbytes: nat, buf: seq<int>)
      requires Valid() && no >= 0 && |buf| == (if nbytes == 0 then blockSize else nbytes) && offset + |buf| <= blockSize
      modifies this`mem, this`lru, this`parray, this`hash
      modifies this`dirty, this`noHits, this`noMiss, this`flat, this`flatBucket
      modifies this`logic, this`home, this`chains, this`vmap, this`table, this`nextBlock, this`nextBucket
      modifies this`blocks, this`iobuf, this`latest
      ensures Valid() && latest == Written(old(latest), no, offset, buf)
      ensures vmap.Keys == old(vmap).Keys + {no}
    {
      hide *;
      ValidParts();
      HeadNow();
      ghost var dirty0, mem0, hash0 := dirty, mem, hash;
      var block := Lookup(no);
      HeadStays(dirty0, mem0, hash0);
      MapBounds(no);
      if block != 0 {
        WriteMapped(latest, vmap, blocks, rmf, nextBlock, blockSize, no, offset, buf, ZeroBlock());
        blocks := WriteAt(blocks, block, offset, buf, ZeroBlock());
        latest := Written(latest, no, offset, buf);
        ValidAgain();
        return;
      }
      WriteFirst(no, offset, nbytes, buf);
    }

    /** The first write to a block: the whole block goes to a new shadow. */
    method WriteFirst(no: int, offset: nat, nbytes: nat, buf: seq<int>)
      requires IndexValid() && DataValid() && no >= 0 && no !in vmap
      requires |buf| == (if nbytes == 0 then blockSize else nbytes) && offset + |buf| <= blockSize
      modifies this`mem, this`lru, this`parray, this`hash
      modifies this`dirty, this`noHits, this`noMiss, this`flat, this`flatBucket
      modifies this`logic, this`home, this`chains, this`vmap, this`table, this`nextBlock, this`nextBucket
      modifies this`blocks, this`iobuf, this`latest
      ensures Valid() && latest == Written(old(latest), no, offset, buf)
      ensures vmap.Keys == old(vmap).Keys + {no}
    {
      hide *;
      DataParts();
      IndexParts();
      ghost var vmap0, blocks0, nextBlock0, latest0 := vmap, blocks, nextBlock, latest;
      var block := New(no);
      HeadMarked();
      var whole;
      ghost var before;
      whole, before := WholeOf(no, offset, nbytes, buf);
      WriteNew(latest0, vmap0, blocks0, rmf, nextBlock0, blockSize, no, offset, buf, before, ZeroBlock());
      blocks := WriteAt(blocks, block, 0, whole, ZeroBlock());
      latest := Written(latest, no, offset, buf);
      ValidAgain();
      assert vmap.Keys == vmap0.Keys + {no};
    }

    /** The new contents of a block that is written for the first time. */
    method WholeOf(no: int, offset: nat, nbytes: nat, buf: seq<int>) returns (whole: seq<int>, ghost before: seq<int>)
      requires no >= 0 && FileOk(rmf, blockSize) && |iobuf| == blockSize > 0
      requires |buf| == (if nbytes == 0 then blockSize else nbytes) && offset + |buf| <= blockSize
      modifies this`iobuf
      ensures |iobuf| == |before| == |ZeroBlock()| == blockSize && whole == Splice(before, offset, buf)
      ensures no < |rmf| ==> before == rmf[no] || |buf| == blockSize
    {
      hide *;
      ZeroSize();
      whole, before := buf, ZeroBlock();
      if offset != 0 || nbytes != 0 {
        if no < |rmf| {
          RegisterBlock(no);
          iobuf := rmf[no];
        }
        before := iobuf;
        SpliceSize(iobuf, offset, buf);
        iobuf := Splice(iobuf, offset, buf);
        whole := iobuf;
      }
      WholeBlock(before, offset, buf, nbytes);
    }

    lemma DataParts()
      requires DataValid()
      ensures FileOk(blocks, blockSize) && FileOk(rmf, blockSize) && |iobuf| == blockSize > 0
      ensures Shadowed(vmap, blocks) && LatestOk(latest, vmap, blocks, rmf)
    {
    }

    lemma ZeroSize()
      ensures |ZeroBlock()| == blockSize
    {
    }

    lemma RegisterBlock(no: nat)
      requires no < |rmf| && FileOk(rmf, blockSize)
      ensures |rmf[no]| == blockSize
    {
    }

    lemma SpliceSize(b: seq<int>, off: nat, data: seq<int>)
      requires off + |data| <= |b|
      ensures |Splice(b, off, data)| == |b|
    {
    }

    lemma WholeBlock(before: seq<int>, offset: nat, buf: seq<int>, nbytes: nat)
      requires |before| == blockSize && offset + |buf| <= blockSize
      requires |buf| == if nbytes == 0 then blockSize else nbytes
      ensures offset == 0 && nbytes == 0 ==> Splice(before, offset, buf) == buf && |buf| == blockSize
    {
    }

    /** Reads part of a block, or all of it when nbytes is 0: from its shadow, or else from the
        register. */
    method BfRead(no: int, offset: nat, nbytes: nat) returns (found: bool, buf: seq<int>)
      requires Valid() && no >= 0 && offset + (if nbytes == 0 then blockSize else nbytes) <= blockSize
      modifies this`mem, this`lru, this`parray, this`hash, this`dirty, this`noHits, this`noMiss
      ensures Valid() && found == (no in vmap || no < |rmf|)
      ensures (exists i :: (no, i) in latest) ==> found
      ensures found ==> |buf| == if nbytes == 0 then blockSize else nbytes
      ensures found ==>
        forall i :: offset <= i < offset + |buf| && (no, i) in latest ==> buf[i - offset] == latest[(no, i)]
    {
      hide *;
      found, buf := CfRead(no, offset, nbytes);
      ValidParts();
      if !found && no < |rmf| {
        found := true;
        RegisterBlock(no);
        RegisterView(no);
        var toRead := if nbytes == 0 then blockSize else nbytes;
        buf := rmf[no][offset..offset + toRead];
      }
      ReadLatest(no, found, offset, if nbytes == 0 then blockSize else nbytes, buf);
    }

    lemma RegisterView(no: nat)
      requires no !in vmap && no < |rmf|
      ensures ViewOf(vmap, blocks, rmf, no) == rmf[no]
    {
    }

    lemma ReadLatest(no: int, found: bool, offset: nat, nbytes: nat, buf: seq<int>)
      requires LatestOk(latest, vmap, blocks, rmf) && no >= 0 && found == (no in vmap || no < |rmf|)
      requires found ==> |ViewOf(vmap, blocks, rmf, no)| == blockSize && offset + nbytes <= blockSize
      requires found ==> buf == ViewOf(vmap, blocks, rmf, no)[offset..offset + nbytes]
      ensures (exists i :: (no, i) in latest) ==> found
      ensures found ==> |buf| == nbytes
      ensures found ==>
        forall i :: offset <= i < offset + nbytes && (no, i) in latest ==> buf[i - offset] == latest[(no, i)]
    {
      if i :| (no, i) in latest {
        assert ByteOk(ViewOf(vmap, blocks, rmf, no), i, latest[(no, i)]);
      }
      if found {
        forall i | offset <= i < offset + nbytes && (no, i) in latest
          ensures buf[i - offset] == latest[(no, i)]
        {
          assert ByteOk(ViewOf(vmap, blocks, rmf, no), i, latest[(no, i)]);
        }
      }
    }

    // -------------------------------------------------------------- committing

    /** The shadows of the blocks in done have been copied home to the register, which was reg0;
        what is read through the shadow is as it was. */
    ghost predicate Committing(reg0: File<int>, done: set<int>)
      reads this`blocks, this`vmap, this`iobuf, this`latest, this`rmf
    {
      DataValid() && LatestOk(latest, vmap, blocks, reg0) && PartCommit(reg0, rmf, vmap, blocks, ZeroBlock(), done)
    }

    lemma CommittingParts(reg0: File<int>, done: set<int>)
      requires Committing(reg0, done)
      ensures FileOk(blocks, blockSize) && FileOk(rmf, blockSize) && Shadowed(vmap, blocks)
      ensures LatestOk(latest, vmap, blocks, reg0)
      ensures DataValid() && PartCommit(reg0, rmf, vmap, blocks, ZeroBlock(), done) && |iobuf| == blockSize > 0
      ensures |ZeroBlock()| == blockSize
    {
    }

    lemma CommittingAgain(reg0: File<int>, done: set<int>)
      requires FileOk(blocks, blockSize) && FileOk(rmf, blockSize) && Shadowed(vmap, blocks) && |iobuf| == blockSize > 0
      requires LatestOk(latest, vmap, blocks, reg0) && PartCommit(reg0, rmf, vmap, blocks, ZeroBlock(), done)
      ensures Committing(reg0, done)
    {
      CommitLatest(latest, reg0, rmf, vmap, blocks, ZeroBlock(), done);
    }

    lemma BlockSize(vno: int)
      requires FileOk(blocks, blockSize) && 0 <= vno < |blocks|
      ensures |blocks[vno]| == blockSize
    {
    }

    /** Copies a shadow block home. */
    method CopyHome(no: int, vno: int, ghost reg0: File<int>, ghost done: set<int>)
      requires Committing(reg0, done) && no in vmap && no >= 0 && vno == vmap[no] && 0 <= vno < |blocks|
      modifies this`rmf, this`iobuf
      ensures Committing(reg0, done + {no}) && (old(Closed()) ==> Closed())
    {
      hide *;
      ghost var closed := Closed();
      if closed { OpenParts(); }
      CommittingParts(reg0, done);
      CopyStep(reg0, rmf, vmap, blocks, ZeroBlock(), done, no, blockSize);
      BlockSize(vno);
      iobuf := blocks[vno];
      rmf := WriteAt(rmf, no, 0, iobuf, ZeroBlock());
      CommittingAgain(reg0, done + {no});
      CommittingParts(reg0, done + {no});
      if closed { ClosedNow(); }
    }

    lemma BucketPairs(i: nat)
      requires HashValid() && CacheOk(logic, map[], hash) && FIRST_BUCKET <= i < nextBucket
      ensures i in logic && i < |hash| && |hash[i]| == HASH_WORDS && Decode(hash[i]) == logic[i] && Packed(logic[i])
      ensures Sized(logic[i])
      ensures |logic[i].no| == |logic[i].vno| == HASH_BUCKET && SlotsOk(logic, home, vmap, nextBlock)
    {
      assert BucketMaps(logic[i], home[i], vmap);
      DecodeEncode(logic[i]);
    }

    /** Copies home the block of every pair in the hash buckets. */
    method CommitHash()
      requires IndexValid() && !flat && mem == map[] && Committing(rmf, {})
      modifies this`rmf, this`iobuf
      ensures Committing(old(rmf), vmap.Keys) && (old(Closed()) ==> Closed())
    {
      hide *;
      ghost var closed := Closed();
      IndexParts();
      CacheParts();
      HashParts();
      BucketRange();
      HashStart(logic, home, vmap, nextBlock);
      ghost var done: set<int> := {};
      var b := firstBucket;
      while b < nextBucket
        invariant FIRST_BUCKET <= b <= nextBucket && HashDone(logic, b, 0, done) && Committing(old(rmf), done)
        invariant closed ==> Closed()
      {
        BucketPairs(b);
        var p := Decode(hash[b]);
        var i := 0;
        while i < HASH_BUCKET && p.vno[i] != 0
          invariant 0 <= i <= HASH_BUCKET == |p.vno| == |p.no| && HashDone(logic, b, i, done)
          invariant Committing(old(rmf), done)
          invariant closed ==> Closed()
        {
          CommittingParts(old(rmf), done);
          HashStep(logic, home, vmap, nextBlock, blocks, b, i, done);
          CopyHome(p.no[i], p.vno[i], old(rmf), done);
          done := done + {p.no[i]};
          i := i + 1;
        }
        HashBucketDone(logic, b, i, done);
        b := b + 1;
      }
      HashAll(logic, home, vmap, nextBlock, nextBucket, done);
    }

    /** Copies home the block noted in every word of the flat index that is not zero. */
    method CommitFlat()
      requires IndexValid() && flat && Committing(rmf, {})
      modifies this`rmf, this`iobuf
      ensures Committing(old(rmf), vmap.Keys) && (old(Closed()) ==> Closed())
    {
      hide *;
      ghost var closed := Closed();
      IndexParts();
      NoneBelow();
      var hno, no := nextBucket, 0;
      ghost var done: set<int> := {};
      while hno < flatBucket
        invariant nextBucket <= hno && (hno <= flatBucket || hno == nextBucket) && no == (hno - nextBucket) * HASH_WORDS
        invariant FlatDone(vmap, no, done) && Committing(old(rmf), done)
        invariant closed ==> Closed()
      {
        FlatBlock(hno);
        var fp := hash[hno];
        var i := 0;
        while i < HASH_WORDS
          invariant 0 <= i <= HASH_WORDS == |fp| && no == (hno - nextBucket) * HASH_WORDS + i
          invariant FlatDone(vmap, no, done) && Committing(old(rmf), done)
          invariant closed ==> Closed()
        {
          CommittingParts(old(rmf), done);
          FlatStep(hash, nextBucket, flatBucket, vmap, nextBlock, blocks, no, hno, i, done);
          if fp[i] != 0 {
            CopyHome(no, fp[i], old(rmf), done);
            done := done + {no};
          }
          no, i := no + 1, i + 1;
        }
        hno := hno + 1;
      }
      FlatAll(hash, nextBucket, flatBucket, vmap, nextBlock, no, done);
    }

    lemma FlatBlock(hno: nat)
      requires FlatOk(hash, nextBucket, flatBucket, vmap, nextBlock) && nextBucket <= hno < flatBucket
      ensures hno < |hash| && |hash[hno]| == HASH_WORDS && HASH_WORDS >= 0
    {
    }

    lemma NoneBelow()
      requires IndexValid()
      ensures FlatDone(vmap, 0, {})
    {
      IndexParts();
    }

    /** Copies every shadow block home, unless there are buckets in memory. */
    method Commit() returns (r: int)
      requires Valid()
      modifies this`rmf, this`iobuf
      ensures Valid() && (r == -1 <==> lru != [])
      ensures r == -1 ==> rmf == old(rmf)
      ensures old(Closed()) ==> Closed()
      ensures r != -1 ==> r == 0 && IsCommit(old(rmf), rmf, vmap, blocks, ZeroBlock())
    {
      hide *;
      ValidParts();
      IndexParts();
      if lru != [] {
        return -1;
      }
      NothingDone(rmf, vmap, blocks, ZeroBlock());
      CommittingAgain(rmf, {});
      if !flat {
        CacheParts();
        CommitHash();
      } else {
        CommitFlat();
      }
      CommitDone(old(rmf));
      ValidAgain();
      r := 0;
    }

    lemma CommitDone(reg0: File<int>)
      requires Committing(reg0, vmap.Keys)
      ensures IsCommit(reg0, rmf, vmap, blocks, ZeroBlock())
      ensures FileOk(blocks, blockSize) && FileOk(rmf, blockSize) && |iobuf| == blockSize > 0
      ensures Shadowed(vmap, blocks) && LatestOk(latest, vmap, blocks, rmf)
    {
    }

    // -------------------------------------------------------------- closing and opening

    /** Writes the hash array to the blocks after the header, a block at a time. */
    method WriteTable()
      requires |table| == HASH_SIZE && FileOk(hash, HASH_WORDS) && |hash| > 0
      modifies this`hash
      ensures FileOk(hash, HASH_WORDS) && BelowBuckets(old(hash), hash) && |hash| >= FIRST_BUCKET
      ensures hash[0] == old(hash)[0] && TableOnFile(hash, table, HASH_SIZE)
    {
      var left, bno, tab := HASH_SIZE, 1, 0;
      while left >= HASH_WORDS
        invariant 0 <= left && tab + left == HASH_SIZE && tab == HASH_WORDS * (bno - 1) && 1 <= bno
        invariant FileOk(hash, HASH_WORDS) && |hash| >= bno && BelowBuckets(old(hash), hash) && hash[0] == old(hash)[0]
        invariant TableOnFile(hash, table, tab)
      {
        TableBlock(old(hash), hash, table, bno, tab, HASH_WORDS);
        hash := WriteAt(hash, bno, 0, table[tab..tab + HASH_WORDS], ZeroWords());
        bno, tab, left := bno + 1, tab + HASH_WORDS, left - HASH_WORDS;
      }
      TableBlock(old(hash), hash, table, bno, tab, left);
      hash := WriteAt(hash, bno, 0, table[tab..tab + left], ZeroWords());
    }

    /** Opens a shadow file: an empty one for the first time, or was, as it was closed. */
    constructor (size: BlockSize, register: File<int>, index: File<int>, shadows: File<int>, ghost was: ShadowFile?)
      requires FileOk(register, size)
      requires was == null ==> index == [] && shadows == []
      requires was != null ==>
        was.Closed() && was.blockSize == size && was.rmf == register && was.hash == index && was.blocks == shadows
      ensures Valid() && rmf == register && blocks == shadows && blockSize == size && lru == []
      ensures was == null ==> vmap == map[] && latest == BytesOf(register, size)
      ensures was == null ==> |hash| > 0 && HeadSays(hash[0], 1, 1, size, 199, 8, 8, 8)
      ensures was != null ==> vmap == was.vmap && latest == was.latest
    {
      hide *;
      SomeSizes();
      if was != null { was.HeadOf(); }
      blockSize, rmf, hash, blocks, iobuf := size, register, index, shadows, seq(size, i => 0);
      mem, lru, parray, dirty, noHits, noMiss := map[], [], seq(HASH_SIZE, i => []), false, 0, 0;
      var first := |index| == 0 || index[0][0] == 0;
      var bucket := (HASH_SIZE * WORD_SIZE + HEAD_WORDS * WORD_SIZE) / (HASH_WORDS * WORD_SIZE) + 2;
      flat, nextBlock, nextBucket, flatBucket := false, 1, bucket, bucket;
      logic, home, chains, vmap := map[], map[], seq(HASH_SIZE, i => []), map[];
      table, latest := seq(HASH_SIZE, i => 0), BytesOf(register, size);
      if !first {
        assert index[0][2] % HALF_WORD == size && index[0][2] / HALF_WORD == HASH_SIZE > 2;
        bucket := index[0][3];
        flat, nextBlock, nextBucket, flatBucket := index[0][0] == 2, index[0][1], index[0][4], index[0][5];
        logic, home, chains, vmap, latest := was.logic, was.home, was.chains, was.vmap, was.latest;
      }
      firstBucket := bucket;
      new;
      if first {
        FirstIndex();
        var head := HeadWords(flat, nextBlock, blockSize, firstBucket, nextBucket, flatBucket);
        HeadWrite(hash, head);
        hash := WriteAt(hash, 0, 0, head, ZeroWords());
        ghost var hash1 := hash;
        WriteTable();
        FirstValid(hash1);
      } else {
        was.OpenParts();
        if !flat { ReadTable(was.table); }
        OpenValid(was);
      }
    }

    /** What the header of a closed file says. */
    lemma HeadOf()
      requires Closed()
      ensures |hash| > 0 && |hash[0]| >= 6 && hash[0][0] == (if flat then 2 else 1)
      ensures hash[0][1] == nextBlock && hash[0][2] % HALF_WORD == blockSize && hash[0][2] / HALF_WORD == HASH_SIZE > 2
      ensures hash[0][3] == firstBucket && hash[0][4] == nextBucket && hash[0][5] == flatBucket
    {
      hide IndexValid, DataValid;
    }

    lemma OpenParts()
      requires Closed()
      ensures FileOk(hash, HASH_WORDS) && IndexValid() && mem == map[] && lru == []
      ensures HeadOnFile(hash, flat, nextBlock, blockSize, firstBucket, nextBucket, flatBucket, table)
      ensures !flat ==> |table| == HASH_SIZE && |hash| >= FIRST_BUCKET && TableOnFile(hash, table, HASH_SIZE)
    {
    }

    lemma FirstIndex()
      ensures hash == [] ==> FileOk(hash, HASH_WORDS)
    {
    }

    /** A new file is empty: it reads as its register. */
    lemma FirstValid(hash1: File<int>)
      requires !flat && !dirty && nextBlock == 1 && firstBucket == nextBucket == flatBucket == FIRST_BUCKET
      requires table == seq(HASH_SIZE, i => 0) && chains == seq(HASH_SIZE, i => []) && parray == seq(HASH_SIZE, i => [])
      requires logic == map[] && home == map[] && vmap == map[] && mem == map[] && lru == []
      requires |hash1| > 0 && |hash1[0]| >= HEAD_WORDS
      requires hash1[0][..HEAD_WORDS] == HeadWords(flat, nextBlock, blockSize, firstBucket, nextBucket, flatBucket)
      requires BelowBuckets([], hash1) && FileOk(hash, HASH_WORDS) && BelowBuckets(hash1, hash)
      requires |hash| >= FIRST_BUCKET
      requires hash[0] == hash1[0] && TableOnFile(hash, table, HASH_SIZE)
      requires blocks == [] && FileOk(rmf, blockSize) && |iobuf| == blockSize && latest == BytesOf(rmf, blockSize)
      ensures Valid() && HeadSays(hash[0], 1, 1, blockSize, 199, 8, 8, 8)
    {
      StartLatest(rmf, blockSize);
      HeadFields(flat, nextBlock, blockSize, firstBucket, nextBucket, flatBucket, hash[0]);
      hide HeadWords;
    }

    /** A file opened again holds what it held when it was closed. */
    lemma OpenValid(was: ShadowFile)
      requires was.Closed() && was.blockSize == blockSize && was.rmf == rmf && was.hash == hash && was.blocks == blocks
      requires flat == was.flat && nextBlock == was.nextBlock && nextBucket == was.nextBucket
      requires firstBucket == was.firstBucket
      requires flatBucket == was.flatBucket
      requires logic == was.logic && home == was.home && chains == was.chains && vmap == was.vmap
      requires latest == was.latest
      requires (!flat ==> table == was.table) && mem == map[] && lru == [] && parray == seq(HASH_SIZE, i => [])
      requires !dirty && |iobuf| == blockSize
      ensures Valid()
    {
      hide CacheOk, ListsOk, ChainsOk, SlotsOk, LatestOk, FlatOk, Shadowed, TableOnFile;
      if !flat { NoneCached(mem, lru, parray, home); }
    }

    /** Reads the hash array from the blocks after the header, a block at a time. */
    method ReadTable(ghost was: seq<int>)
      requires |was| == HASH_SIZE && FileOk(hash, HASH_WORDS) && |hash| >= FIRST_BUCKET
      requires TableOnFile(hash, was, HASH_SIZE)
      modifies this`table
      ensures table == was
    {
      var left, bno := HASH_SIZE, 1;
      table := [];
      while left >= HASH_WORDS
        invariant 0 <= left && |table| + left == HASH_SIZE && |table| == HASH_WORDS * (bno - 1) && 1 <= bno
        invariant table == was[..|table|]
        modifies this`table
      {
        BlockWords(hash, was, bno, |table|, HASH_WORDS);
        table := table + hash[bno][..HASH_WORDS];
        bno, left := bno + 1, left - HASH_WORDS;
      }
      BlockWords(hash, was, bno, |table|, left);
      table := table + hash[bno][..left];
    }

    /** Writes everything in memory back to the index file. */
    method Close()
      requires Valid()
      modifies this`mem, this`lru, this`parray, this`hash, this`dirty
      ensures Closed() && |hash| > 0
      ensures HeadSays(hash[0], if flat then 2 else 1, nextBlock, blockSize, 199, 8, nextBucket, flatBucket)
      ensures !flat ==> |table| == 199 && forall h :: 0 <= h < 199 ==> HasWord(hash, 1 + h / 32, h % 32, table[h])
      ensures flat ==> forall no :: no in vmap ==> HasWord(hash, nextBucket + no / 32, no % 32, vmap[no])
    {
      hide *;
      ValidParts();
      IndexParts();
      HeadNow();
      if !flat {
        FlushAll();
      } else {
        NoneDirty(dirty, mem);
      }
      if dirty {
        ghost var hash0 := hash;
        FileIs();
        IndexParts();
        if !flat {
          CacheParts();
          TableSize();
        }
        var head := HeadWords(flat, nextBlock, blockSize, firstBucket, nextBucket, flatBucket);
        HeadWrite(hash, head);
        hash := WriteAt(hash, 0, 0, head, ZeroWords());
        ghost var hash1 := hash;
        if !flat {
          WriteTable();
        } else {
          BelowSame(hash);
        }
        HeadWritten(hash0, hash1, hash, flat, nextBlock, blockSize, firstBucket, nextBucket, flatBucket, table);
        IndexBelow(hash0);
      }
      ClosedNow();
      HeadInNumbers();
    }

    lemma HeadInNumbers()
      requires Closed()
      ensures |hash| > 0
      ensures HeadSays(hash[0], if flat then 2 else 1, nextBlock, blockSize, 199, 8, nextBucket, flatBucket)
      ensures !flat ==> |table| == 199 && forall h :: 0 <= h < 199 ==> HasWord(hash, 1 + h / 32, h % 32, table[h])
      ensures flat ==> forall no :: no in vmap ==> HasWord(hash, nextBucket + no / 32, no % 32, vmap[no])
    {
      hide CacheOk, ListsOk, ChainsOk, SlotsOk, LatestOk, Shadowed, DataValid, HeadSays;
      if flat {
        FlatWords(hash, nextBucket, flatBucket, vmap, nextBlock);
      } else {
        forall h | 0 <= h < 199
          ensures HasWord(hash, 1 + h / 32, h % 32, table[h])
        {
          assert WordAt(hash, h, table[h]);
        }
      }
    }

    /** Everything is on file. */
    ghost predicate Closed()
      reads this
    {
      && IndexValid() && DataValid() && mem == map[] && lru == []
      && HeadOnFile(hash, flat, nextBlock, blockSize, firstBucket, nextBucket, flatBucket, table)
    }

    lemma ClosedNow()
      requires IndexValid() && mem == map[] && lru == []
      requires HeadOnFile(hash, flat, nextBlock, blockSize, firstBucket, nextBucket, flatBucket, table)
      requires DataValid()
      ensures Closed()
    {
    }

    /** Flushes the hash. */
    method FlushAll()
      requires IndexValid() && !flat
      requires
        || Unsaved(dirty, mem)
        || HeadOnFile(hash, flat, nextBlock, blockSize, firstBucket, nextBucket, flatBucket, table)
      modifies this`mem, this`lru, this`parray, this`hash, this`dirty
      ensures IndexValid() && mem == map[] && lru == []
      ensures dirty || HeadOnFile(hash, flat, nextBlock, blockSize, firstBucket, nextBucket, flatBucket, table)
    {
      hide *;
      IndexParts();
      ghost var dirty0, mem0, hash0 := dirty, mem, hash;
      FlushBuckets(-1);
      IndexAgain();
      HeadStays(dirty0, mem0, hash0);
      HeadNow();
      NoneDirty(dirty, mem);
    }

    lemma NoneDirty(dirty0: bool, mem0: Cache)
      requires mem0 == map[]
      ensures Unsaved(dirty0, mem0) <==> dirty0
    {
    }

    lemma TableSize()
      requires IndexValid() && !flat
      ensures |table| == HASH_SIZE
    {
    }

    lemma FileIs()
      requires IndexValid()
      ensures FileOk(hash, HASH_WORDS)
    {
    }

    /** Writing below the buckets does not touch the index. */
    lemma IndexBelow(hash0: File<int>)
      requires BelowBuckets(hash0, hash) && FileOk(hash, HASH_WORDS) && mem == map[] && lru == []
      requires nextBucket >= FIRST_BUCKET && firstBucket == FIRST_BUCKET
      requires flat ==> FlatOk(hash0, nextBucket, flatBucket, vmap, nextBlock)
      requires !flat ==>
        CacheOk(logic, mem, hash0) && ListsOk(mem, lru, parray, home) && HashValid() && flatBucket <= nextBucket
      ensures IndexValid()
    {
      if flat {
        FlatBelow(hash0, hash, nextBucket, flatBucket, vmap, nextBlock);
      } else {
        CacheBelow(logic, hash0, hash);
        CacheAgain();
      }
      IndexAgain();
    }
  }

  /** Opens a file whose commit was cut short after the blocks in done, when the register had
      been reg0, and commits it again: the register is as it is after a commit in one go. */
  method CommitAgain(part: ShadowFile, ghost reg0: File<int>, ghost done: set<int>) returns (again: ShadowFile)
    requires part.Closed() && part.Committing(reg0, done)
    ensures again.Valid() && again.vmap == part.vmap && again.latest == part.latest
    ensures forall reg :: IsCommit(reg0, reg, part.vmap, part.blocks, part.ZeroBlock()) ==> again.rmf == reg
  {
    hide *;
    part.CommittingParts(reg0, done);
    again := new ShadowFile(part.blockSize, part.rmf, part.hash, part.blocks, part);
    SameZero(part, again);
    var r := again.Commit();
    forall reg | IsCommit(reg0, reg, part.vmap, part.blocks, part.ZeroBlock())
      ensures again.rmf == reg
    {
      CommitRestarts(reg0, part.rmf, reg, again.rmf, part.vmap, part.blocks, part.ZeroBlock(), done);
    }
  }

  lemma SameZero(a: ShadowFile, b: ShadowFile)
    requires a.blockSize == b.blockSize
    ensures a.ZeroBlock() == b.ZeroBlock()
  {
  }

  /** A bucket has been read: those in memory before it still do not hold no. */
  lemma BucketRead(logic: Buckets, mem0: Cache, mem1: Cache, chain: seq<nat>, i: nat, no: int)
    requires i < |chain| && Distinct(chain) && (forall c :: c in mem1 && c != chain[i] ==> c in mem0)
    requires forall k :: i <= k < |chain| && chain[k] in logic && chain[k] in mem0 ==> !HasNo(logic[chain[k]], no)
    ensures forall k :: i < k < |chain| && chain[k] in logic && chain[k] in mem1 ==> !HasNo(logic[chain[k]], no)
  {
  }

  // ---------------------------------------------------------------- the header

  const HEAD_WORDS := 6
  const WORD_SIZE := 8
  const HALF_WORD := 0x1_0000_0000

  /** The block size and the number of chains share a word. */
  function HeadWords(flat: bool, nextBlock: int, blockSize: int, firstBucket: int, nextBucket: int,
                     flatBucket: int): seq<int> {
    [if flat then 2 else 1, nextBlock, blockSize + HALF_WORD * HASH_SIZE, firstBucket, nextBucket, flatBucket]
  }

  /** The header in block 0 of the index file, field by field: state, next shadow block, block size and
      number of chains, first bucket, end of the buckets, end of the flat index. */
  ghost predicate HeadSays(head: seq<int>, state: int, nextBlock: int, blockSize: int, chains: int, firstBucket: int,
                           nextBucket: int, flatBucket: int) {
    && |head| >= 6 && head[0] == state && head[1] == nextBlock && head[2] % 0x1_0000_0000 == blockSize
    && head[2] / 0x1_0000_0000 == chains && head[3] == firstBucket && head[4] == nextBucket && head[5] == flatBucket
  }

  lemma HeadFields(flat: bool, nextBlock: int, blockSize: BlockSize, firstBucket: int, nextBucket: int, flatBucket: int,
                   head: seq<int>)
    requires |head| >= HEAD_WORDS
    requires head[..HEAD_WORDS] == HeadWords(flat, nextBlock, blockSize, firstBucket, nextBucket, flatBucket)
    ensures HeadSays(head, if flat then 2 else 1, nextBlock, blockSize, HASH_SIZE, firstBucket, nextBucket, flatBucket)
  {
    var w := head[..HEAD_WORDS];
    assert w[0] == head[0] && w[1] == head[1] && w[2] == head[2];
    assert w[3] == head[3] && w[4] == head[4] && w[5] == head[5];
  }

  /** The header is in block 0 of the index file, and the hash array in the blocks after it. */
  ghost predicate HeadOnFile(hash: File<int>, flat: bool, nextBlock: int, blockSize: int, firstBucket: int,
                             nextBucket: int, flatBucket: int, table: seq<int>) {
    && |hash| > 0
    && HeadSays(hash[0], if flat then 2 else 1, nextBlock, blockSize, HASH_SIZE, firstBucket, nextBucket, flatBucket)
    && (!flat ==> |table| == HASH_SIZE && |hash| >= FIRST_BUCKET && TableOnFile(hash, table, HASH_SIZE))
  }

  ghost predicate TableOnFile(hash: File<int>, table: seq<int>, n: int) {
    forall i :: 0 <= i < n && i < |table| ==> WordAt(hash, i, table[i])
  }

  /** The index file has a word at the given block and place. */
  ghost predicate HasWord(hash: File<int>, block: int, place: int, w: int) {
    0 <= block < |hash| && 0 <= place < |hash[block]| && hash[block][place] == w
  }

  lemma FlatWords(hash: File<int>, start: nat, end: nat, vmap: map<int, int>, nextBlock: nat)
    requires FlatOk(hash, start, end, vmap, nextBlock)
    ensures forall no :: no in vmap ==> HasWord(hash, start + no / 32, no % 32, vmap[no])
  {
    forall no | no in vmap
      ensures HasWord(hash, start + no / 32, no % 32, vmap[no])
    {
      assert no >= 0;
      var n: nat := no;
      assert FlatWord(hash, start, n) == vmap[n];
    }
  }

  ghost predicate WordAt(hash: File<int>, i: int, w: int) {
    && 0 <= i && 1 + i / HASH_WORDS < |hash| && i % HASH_WORDS < |hash[1 + i / HASH_WORDS]|
    && hash[1 + i / HASH_WORDS][i % HASH_WORDS] == w
  }

  /** Nothing but the blocks of the header and the hash array may differ. */
  ghost predicate BelowBuckets(hash0: File<int>, hash1: File<int>) {
    && |hash0| <= |hash1| && (|hash1| <= |hash0| || |hash1| <= FIRST_BUCKET)
    && (forall i :: FIRST_BUCKET <= i < |hash0| ==> hash1[i] == hash0[i])
  }

  lemma BelowSame(hash: File<int>)
    ensures BelowBuckets(hash, hash)
  {
  }

  /** One more block of the hash array is on file. */
  lemma TableBlock(hash0: File<int>, hash: File<int>, table: seq<int>, bno: nat, tab: nat, n: nat)
    requires FileOk(hash, HASH_WORDS) && BelowBuckets(hash0, hash) && |hash| >= bno >= 1
    requires tab == HASH_WORDS * (bno - 1) && n <= HASH_WORDS
    requires tab + n <= |table| == HASH_SIZE && TableOnFile(hash, table, tab)
    ensures var hash' := WriteAt(hash, bno, 0, table[tab..tab + n], ZeroWords());
      && FileOk(hash', HASH_WORDS) && |hash'| > bno && BelowBuckets(hash0, hash') && hash'[0] == hash[0]
      && TableOnFile(hash', table, tab + n)
  {
    var hash' := WriteAt(hash, bno, 0, table[tab..tab + n], ZeroWords());
    WriteOk(hash, bno, 0, table[tab..tab + n], ZeroWords(), HASH_WORDS);
    forall i | 0 <= i < tab + n
      ensures WordAt(hash', i, table[i])
    {
      if i < tab {
        assert WordAt(hash, i, table[i]);
      } else {
        assert i / HASH_WORDS == bno - 1 && i % HASH_WORDS == i - tab;
      }
    }
  }

  lemma SomeSizes()
    ensures HASH_SIZE > 0 && FIRST_BUCKET > 0 && HALF_WORD > 0 && HASH_WORDS * WORD_SIZE > 0
    ensures (HASH_SIZE * WORD_SIZE + HEAD_WORDS * WORD_SIZE) / (HASH_WORDS * WORD_SIZE) + 2 == FIRST_BUCKET
  {
  }

  /** The words of a block of the hash array. */
  lemma BlockWords(hash: File<int>, was: seq<int>, bno: nat, tab: nat, n: nat)
    requires |was| == HASH_SIZE && FileOk(hash, HASH_WORDS) && |hash| >= FIRST_BUCKET
    requires TableOnFile(hash, was, HASH_SIZE)
    requires bno >= 1 && tab == HASH_WORDS * (bno - 1) && n <= HASH_WORDS && tab + n <= HASH_SIZE
    ensures bno < |hash| && |hash[bno]| == HASH_WORDS && was[..tab] + hash[bno][..n] == was[..tab + n]
  {
    forall i | tab <= i < tab + n
      ensures hash[bno][i - tab] == was[i]
    {
      assert WordAt(hash, i, was[i]);
      assert i / HASH_WORDS == bno - 1 && i % HASH_WORDS == i - tab;
    }
  }

  lemma NoneCached(mem: Cache, lru: seq<nat>, parray: seq<seq<nat>>, home: map<nat, nat>)
    requires mem == map[] && lru == [] && parray == seq(HASH_SIZE, i => [])
    ensures ListsOk(mem, lru, parray, home)
  {
  }

  lemma FlatBelow(hash0: File<int>, hash1: File<int>, start: nat, end: nat, vmap: map<int, int>, nextBlock: nat)
    requires FlatOk(hash0, start, end, vmap, nextBlock) && BelowBuckets(hash0, hash1) && FileOk(hash1, HASH_WORDS)
    requires start >= FIRST_BUCKET
    ensures FlatOk(hash1, start, end, vmap, nextBlock)
  {
    forall no: nat
      ensures FlatWord(hash1, start, no) == FlatWord(hash0, start, no)
    {
      assert BlockOf(hash1, start + no / HASH_WORDS, ZeroWords()) ==
        BlockOf(hash0, start + no / HASH_WORDS, ZeroWords());
    }
  }

  lemma CacheBelow(logic: Buckets, hash0: File<int>, hash1: File<int>)
    requires CacheOk(logic, map[], hash0) && BelowBuckets(hash0, hash1) && FileOk(hash1, HASH_WORDS)
    ensures CacheOk(logic, map[], hash1)
  {
    forall n: nat | Above(logic, n)
      ensures |hash1| <= n
    {
      assert |hash0| <= n;
    }
  }

  lemma HeadWrite(hash: File<int>, words: seq<int>)
    requires FileOk(hash, HASH_WORDS)
    requires exists flat, nextBlock, blockSize, firstBucket, nextBucket, flatBucket ::
      words == HeadWords(flat, nextBlock, blockSize, firstBucket, nextBucket, flatBucket)
    ensures var hash' := WriteAt(hash, 0, 0, words, ZeroWords());
      && FileOk(hash', HASH_WORDS) && |hash'| > 0 && BelowBuckets(hash, hash') && hash'[0][..HEAD_WORDS] == words
      && |hash'[0]| >= HEAD_WORDS
  {
    WriteOk(hash, 0, 0, words, ZeroWords(), HASH_WORDS);
  }

  lemma HeadWritten(hash0: File<int>, hash1: File<int>, hash2: File<int>, flat: bool, nextBlock: int,
                    blockSize: BlockSize, firstBucket: int, nextBucket: int, flatBucket: int, table: seq<int>)
    requires BelowBuckets(hash0, hash1) && BelowBuckets(hash1, hash2) && |hash1| > 0 && hash2[0] == hash1[0]
    requires FileOk(hash2, HASH_WORDS)
    requires hash1[0][..HEAD_WORDS] == HeadWords(flat, nextBlock, blockSize, firstBucket, nextBucket, flatBucket)
    requires |hash1[0]| >= HEAD_WORDS
    requires !flat ==> |table| == HASH_SIZE && |hash2| >= FIRST_BUCKET && TableOnFile(hash2, table, HASH_SIZE)
    ensures BelowBuckets(hash0, hash2)
    ensures HeadOnFile(hash2, flat, nextBlock, blockSize, firstBucket, nextBucket, flatBucket, table)
  {
    HeadFields(flat, nextBlock, blockSize, firstBucket, nextBucket, flatBucket, hash1[0]);
    hide HeadWords, HeadSays;
  }
}
