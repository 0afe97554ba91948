/** The index of a shadow file while it is a hash: buckets on file, some of them in memory. */
module CfIndex {
  import opened Sequences
  import opened CfStore

  const MAX_IN_MEMORY := 100

  // A bucket in memory, linked into the chain hno; dirty when its block on file may be out of
  // date.
  datatype Cached = Cached(ph: Bucket, dirty: bool, hno: nat)

  type Cache = map<nat, Cached>
  type Buckets = map<nat, Bucket>

  // ---------------------------------------------------------------- the cache

  ghost predicate OnFile(hash: File<int>, b: nat, x: Bucket) {
    b < |hash| && hash[b] == Encode(x)
  }

  /** n is past the header and all buckets. */
  ghost predicate Above(logic: Buckets, n: nat) {
    n >= FIRST_BUCKET && forall b :: b in logic ==> b < n
  }

  /** What a bucket number stands for is what is in memory, or else what is on file. */
  ghost predicate CacheOk(logic: Buckets, mem: Cache, hash: File<int>) {
    && (forall b :: b in mem ==> b in logic && mem[b].ph == logic[b])
    && (forall b :: b in mem && !mem[b].dirty ==> OnFile(hash, b, logic[b]))
    && (forall b :: b in logic && b !in mem ==> OnFile(hash, b, logic[b]))
    && (forall b :: b in logic ==> Sized(logic[b]) && logic[b].number == b >= FIRST_BUCKET)
    && FileOk(hash, HASH_WORDS)
    && (forall n: nat :: Above(logic, n) ==> |hash| <= n)
  }

  /** The blocks of the header and the hash array, where they are on file, have not changed. */
  ghost predicate HeadSame(hash0: File<int>, hash1: File<int>) {
    |hash0| <= |hash1| && forall i :: 0 <= i < FIRST_BUCKET && i < |hash0| ==> hash1[i] == hash0[i]
  }

  lemma HeadTrans(hash0: File<int>, hash1: File<int>, hash2: File<int>)
    requires HeadSame(hash0, hash1) && HeadSame(hash1, hash2)
    ensures HeadSame(hash0, hash2)
  {
  }

  /** Something is yet to be written to the index file. */
  ghost predicate Unsaved(dirty: bool, mem: Cache) {
    dirty || exists b :: b in mem && mem[b].dirty
  }

  /** Buckets that have left memory dirty have left the mark that they were. */
  ghost predicate MarkKept(dirty0: bool, mem0: Cache, dirty1: bool, mem1: Cache) {
    Unsaved(dirty0, mem0) ==> Unsaved(dirty1, mem1)
  }

  /** The buckets in memory, oldest first in lru, newest first in the chain of their hash code. */
  ghost predicate ListsOk(mem: Cache, lru: seq<nat>, parray: seq<seq<nat>>, home: map<nat, nat>) {
    && Distinct(lru) && |lru| <= MAX_IN_MEMORY && |parray| == HASH_SIZE
    && (forall b :: b in lru <==> b in mem)
    && (forall b :: b in mem ==> b in home && home[b] == mem[b].hno < HASH_SIZE)
    && (forall h, b :: 0 <= h < HASH_SIZE ==> (b in parray[h] <==> b in mem && home[b] == h))
    && (forall h :: 0 <= h < HASH_SIZE ==> Distinct(parray[h]))
  }

  function Remove(s: seq<nat>, x: nat): seq<nat> {
    if s == [] then [] else if s[0] == x then s[1..] else [s[0]] + Remove(s[1..], x)
  }

  lemma {:induction false} RemoveIs(s: seq<nat>, x: nat)
    requires Distinct(s)
    ensures Distinct(Remove(s, x)) && forall y :: y in Remove(s, x) <==> y in s && y != x
  {
    if s != [] {
      assert s == [s[0]] + s[1..];
      if s[0] == x {
        forall y
          ensures y in s[1..] <==> y in s && y != x
        {
        }
      } else {
        RemoveIs(s[1..], x);
        var r := Remove(s[1..], x);
        forall i | 0 <= i < |r|
          ensures r[i] != s[0]
        {
          assert r[i] in r;
        }
      }
    }
  }

  lemma DropLists(mem: Cache, lru: seq<nat>, parray: seq<seq<nat>>, home: map<nat, nat>, p: nat)
    requires ListsOk(mem, lru, parray, home) && lru != [] && p == lru[0]
    ensures p in mem && p in home && mem[p].hno < HASH_SIZE == |parray|
    ensures ListsOk(mem - {p}, lru[1..], parray[mem[p].hno := Remove(parray[mem[p].hno], p)], home)
  {
    assert p in lru;
    RemoveIs(parray[home[p]], p);
    assert lru == [p] + lru[1..];
    forall b
      ensures b in lru[1..] <==> b in mem - {p}
    {
    }
  }

  lemma DropCache(logic: Buckets, mem: Cache, hash: File<int>, p: nat)
    requires CacheOk(logic, mem, hash) && p in mem
    ensures var hash' := if mem[p].dirty then WriteAt(hash, p, 0, Encode(mem[p].ph), ZeroWords()) else hash;
      CacheOk(logic, mem - {p}, hash') && OnFile(hash', p, logic[p]) && HeadSame(hash, hash')
  {
    DecodeEncode(mem[p].ph);
    WriteOk(hash, p, 0, Encode(mem[p].ph), ZeroWords(), HASH_WORDS);
    assert Splice(BlockOf(hash, p, ZeroWords()), 0, Encode(mem[p].ph)) == Encode(mem[p].ph);
  }

  lemma AddLists(mem: Cache, lru: seq<nat>, parray: seq<seq<nat>>, home: map<nat, nat>, p: nat, x: Cached)
    requires ListsOk(mem, lru, parray, home) && p !in mem && |lru| < MAX_IN_MEMORY && p in home
    requires home[p] == x.hno < HASH_SIZE
    ensures |parray| == HASH_SIZE
    ensures ListsOk(mem[p := x], lru + [p], parray[home[p] := [p] + parray[home[p]]], home)
  {
    var h := home[p];
    forall b
      ensures b in lru + [p] <==> b in mem[p := x]
      ensures b in [p] + parray[h] <==> b in mem[p := x] && home[b] == h
    {
    }
    assert p !in lru && p !in parray[h];
  }

  lemma AddCache(logic: Buckets, mem: Cache, hash: File<int>, p: nat)
    requires CacheOk(logic, mem, hash) && p in logic && p !in mem
    ensures p < |hash| && |hash[p]| == HASH_WORDS && Decode(hash[p]) == logic[p]
    ensures forall h: nat :: CacheOk(logic, mem[p := Cached(logic[p], false, h)], hash)
  {
    DecodeEncode(logic[p]);
  }

  // ---------------------------------------------------------------- the hash

  function HashOf(no: int): (h: int)
    ensures 0 <= h < HASH_SIZE
  {
    no / 8 % HASH_SIZE
  }

  /** Eight blocks in a row share a chain, and the chains take turns. */
  lemma HashGroups(q: nat, r: nat)
    requires r < 8
    ensures HashOf(8 * q + r) == HashOf(8 * q)
    ensures HashOf(8 * (q + 1)) == if HashOf(8 * q) == 198 then 0 else HashOf(8 * q) + 1
    ensures HashOf(0) == 0
  {
    assert HashOf(8 * q + r) == q % 199 && HashOf(8 * (q + 1)) == (q + 1) % 199 by {
      assert (8 * q + r) / 8 == q && 8 * (q + 1) / 8 == q + 1;
    }
    assert HashOf(8 * q) == q % 199 by { assert 8 * q / 8 == q; }
    NextRest(q);
  }

  lemma NextRest(q: nat)
    ensures (q + 1) % 199 == if q % 199 == 198 then 0 else q % 199 + 1
  {
    var a, b := q / 199, q % 199;
    assert q == 199 * a + b;
    if b == 198 { assert q + 1 == 199 * (a + 1) + 0; }
  }

  /** From the head, the next links of the buckets run through the chain and end. */
  ghost predicate ChainOk(logic: Buckets, home: map<nat, nat>, chain: seq<nat>, head: int, h: nat) {
    && head == Nth(chain, 0) && Distinct(chain)
    && (forall i :: 0 <= i < |chain| ==>
      chain[i] in logic && chain[i] in home && home[chain[i]] == h && logic[chain[i]].next == Nth(chain, i + 1))
  }

  /** Every bucket is in the chain of its hash code. */
  ghost predicate ChainsOk(logic: Buckets, home: map<nat, nat>, chains: seq<seq<nat>>, table: seq<int>,
                           nextBucket: nat) {
    && |table| == |chains| == HASH_SIZE
    && (forall b: nat :: b in logic <==> FIRST_BUCKET <= b < nextBucket)
    && (forall b :: b in logic ==> b in home && home[b] < HASH_SIZE && b in chains[home[b]])
    && (forall h :: 0 <= h < HASH_SIZE ==> ChainOk(logic, home, chains[h], table[h], h))
  }

  ghost predicate BucketMaps(b: Bucket, h: int, vmap: map<int, int>) {
    && Packed(b)
    && (forall i, no :: Pairs(b, i, no) ==> no >= 0 && HashOf(no) == h && no in vmap && b.vno[i] == vmap[no])
    && (forall i, j, no :: Pairs(b, i, no) && Pairs(b, j, no) ==> i == j)
  }

  ghost predicate Held(logic: Buckets, no: int) {
    exists b: nat :: b in logic && HasNo(logic[b], no)
  }

  /** The slots of all buckets make up the block map; each block has one slot and one shadow. */
  ghost predicate SlotsOk(logic: Buckets, home: map<nat, nat>, vmap: map<int, int>, nextBlock: nat) {
    && 1 <= nextBlock
    && (forall b :: b in logic ==> b in home && BucketMaps(logic[b], home[b], vmap))
    && (forall no :: no in vmap ==> Held(logic, no) && 1 <= vmap[no] < nextBlock)
    && (forall no, no2 :: no in vmap && no2 in vmap && vmap[no] == vmap[no2] ==> no == no2)
    && (forall b, b2, no :: b in logic && b2 in logic && HasNo(logic[b], no) && HasNo(logic[b2], no) ==> b == b2)
  }

  lemma SlotMap(logic: Buckets, home: map<nat, nat>, vmap: map<int, int>, nextBlock: nat, b: nat, i: int, no: int)
    requires SlotsOk(logic, home, vmap, nextBlock) && b in logic && Pairs(logic[b], i, no)
    ensures no in vmap && vmap[no] == logic[b].vno[i]
  {
    assert BucketMaps(logic[b], home[b], vmap);
  }

  /** A block no bucket of its chain holds is not mapped. */
  lemma NotMapped(logic: Buckets, home: map<nat, nat>, chains: seq<seq<nat>>, table: seq<int>, nextBucket: nat,
                  vmap: map<int, int>, nextBlock: nat, no: int)
    requires ChainsOk(logic, home, chains, table, nextBucket) && SlotsOk(logic, home, vmap, nextBlock) && no >= 0
    requires forall k :: 0 <= k < |chains[HashOf(no)]| && chains[HashOf(no)][k] in logic ==>
      !HasNo(logic[chains[HashOf(no)][k]], no)
    ensures no !in vmap
  {
    NotHeld(logic, home, chains, table, nextBucket, vmap, nextBlock, no);
    assert no in vmap ==> Held(logic, no);
  }

  lemma NotHeld(logic: Buckets, home: map<nat, nat>, chains: seq<seq<nat>>, table: seq<int>, nextBucket: nat,
                vmap: map<int, int>, nextBlock: nat, no: int)
    requires ChainsOk(logic, home, chains, table, nextBucket) && SlotsOk(logic, home, vmap, nextBlock) && no >= 0
    requires forall k :: 0 <= k < |chains[HashOf(no)]| && chains[HashOf(no)][k] in logic ==>
      !HasNo(logic[chains[HashOf(no)][k]], no)
    ensures !Held(logic, no)
  {
    forall b: nat | b in logic
      ensures !HasNo(logic[b], no)
    {
      if HasNo(logic[b], no) {
        HeldIn(logic, home, chains, table, nextBucket, vmap, nextBlock, b, no);
      }
    }
  }

  lemma HeldIn(logic: Buckets, home: map<nat, nat>, chains: seq<seq<nat>>, table: seq<int>, nextBucket: nat,
               vmap: map<int, int>, nextBlock: nat, b: nat, no: int)
    requires ChainsOk(logic, home, chains, table, nextBucket) && SlotsOk(logic, home, vmap, nextBlock) && no >= 0
    requires b in logic && HasNo(logic[b], no)
    ensures exists k :: 0 <= k < |chains[HashOf(no)]| && chains[HashOf(no)][k] == b
  {
    var i :| Pairs(logic[b], i, no);
    assert BucketMaps(logic[b], home[b], vmap);
    assert b in chains[HashOf(no)];
  }

  // ---------------------------------------------------------------- a new block

  function PutSlot(b: Bucket, i: int, no: int, vno: int): Bucket
    requires Sized(b) && 0 <= i < HASH_BUCKET
  {
    Bucket(b.no[i := no], b.vno[i := vno], b.number, b.next)
  }

  lemma AboveLess(logic: Buckets, b: nat, x: Bucket, n: nat)
    requires Above(logic[b := x], n)
    ensures Above(logic, n)
  {
    assert forall c :: c in logic ==> c in logic[b := x];
  }

  lemma PutCache(logic: Buckets, mem: Cache, hash: File<int>, lru: seq<nat>, parray: seq<seq<nat>>, home: map<nat, nat>,
                 b: nat, x: Bucket)
    requires CacheOk(logic, mem, hash) && ListsOk(mem, lru, parray, home) && b in mem && Sized(x) && x.number == b
    ensures var mem' := mem[b := Cached(x, true, mem[b].hno)];
      CacheOk(logic[b := x], mem', hash) && ListsOk(mem', lru, parray, home)
  {
    var logic' := logic[b := x];
    forall n: nat | Above(logic', n)
      ensures |hash| <= n
    {
      AboveLess(logic, b, x, n);
    }
  }

  lemma PutChains(logic: Buckets, home: map<nat, nat>, chains: seq<seq<nat>>, table: seq<int>, nextBucket: nat, b: nat,
                  x: Bucket)
    requires ChainsOk(logic, home, chains, table, nextBucket) && b in logic && x.next == logic[b].next
    ensures ChainsOk(logic[b := x], home, chains, table, nextBucket)
  {
    hide ChainOk;
    forall h | 0 <= h < HASH_SIZE
      ensures ChainOk(logic[b := x], home, chains[h], table[h], h)
    {
      PutChain(logic, home, chains[h], table[h], h, b, x);
    }
  }

  lemma PutChain(logic: Buckets, home: map<nat, nat>, chain: seq<nat>, head: int, h: nat, b: nat, x: Bucket)
    requires ChainOk(logic, home, chain, head, h) && b in logic && x.next == logic[b].next
    ensures ChainOk(logic[b := x], home, chain, head, h)
  {
  }

  /** Filling the first free slot of a bucket adds the new block to what the bucket maps. */
  lemma PutBucket(b: Bucket, h: int, vmap: map<int, int>, i: int, no: int, vno: int)
    requires BucketMaps(b, h, vmap) && 0 <= i < HASH_BUCKET && b.vno[i] == 0
    requires (forall k :: 0 <= k < i ==> b.vno[k] != 0)
    requires no >= 0 && HashOf(no) == h && no !in vmap && vno != 0
    ensures BucketMaps(PutSlot(b, i, no, vno), h, vmap[no := vno])
    ensures forall k :: HasNo(PutSlot(b, i, no, vno), k) <==> HasNo(b, k) || k == no
  {
    var x := PutSlot(b, i, no, vno);
    forall j, k
      ensures Pairs(x, j, k) <==> Pairs(b, j, k) || (j == i && k == no)
    {
    }
    forall k
      ensures HasNo(x, k) <==> HasNo(b, k) || k == no
    {
      if HasNo(b, k) { var j :| Pairs(b, j, k); assert Pairs(x, j, k); }
      if k == no { assert Pairs(x, i, k); }
    }
  }

  lemma MapsMore(b: Bucket, h: int, vmap: map<int, int>, no: int, vno: int)
    requires BucketMaps(b, h, vmap) && no !in vmap
    ensures BucketMaps(b, h, vmap[no := vno]) && !HasNo(b, no)
  {
  }

  lemma PutSlots(logic: Buckets, home: map<nat, nat>, vmap: map<int, int>, nextBlock: nat, b: nat, i: int, no: int)
    requires SlotsOk(logic, home, vmap, nextBlock) && b in logic && Sized(logic[b]) && b in home
    requires HashOf(no) == home[b]
    requires 0 <= i < HASH_BUCKET && logic[b].vno[i] == 0 && (forall k :: 0 <= k < i ==> logic[b].vno[k] != 0)
    requires no >= 0 && no !in vmap
    ensures SlotsOk(logic[b := PutSlot(logic[b], i, no, nextBlock)], home, vmap[no := nextBlock], nextBlock + 1)
  {
    var x := PutSlot(logic[b], i, no, nextBlock);
    var logic', vmap' := logic[b := x], vmap[no := nextBlock];
    assert BucketMaps(logic[b], home[b], vmap);
    PutBucket(logic[b], home[b], vmap, i, no, nextBlock);
    forall c | c in logic'
      ensures c in home && BucketMaps(logic'[c], home[c], vmap')
      ensures forall k :: HasNo(logic'[c], k) <==> HasNo(logic[c], k) || (c == b && k == no)
      ensures c != b ==> !HasNo(logic[c], no)
    {
      assert BucketMaps(logic[c], home[c], vmap);
      MapsMore(logic[c], home[c], vmap, no, nextBlock);
    }
    HeldMore(logic, logic', vmap, nextBlock, no, b);
  }

  lemma HeldMore(logic: Buckets, logic': Buckets, vmap: map<int, int>, nextBlock: nat, no: int, b: nat)
    requires forall k :: k in vmap ==> Held(logic, k) && 1 <= vmap[k] < nextBlock
    requires forall c: nat :: c in logic ==> c in logic' && forall k :: HasNo(logic[c], k) ==> HasNo(logic'[c], k)
    requires b in logic' && HasNo(logic'[b], no) && 1 <= nextBlock
    ensures forall k :: k in vmap[no := nextBlock] ==> Held(logic', k) && 1 <= vmap[no := nextBlock][k] < nextBlock + 1
  {
    forall k | k in vmap[no := nextBlock]
      ensures Held(logic', k)
    {
      if k != no {
        var c: nat :| c in logic && HasNo(logic[c], k);
        assert c in logic' && HasNo(logic'[c], k);
      }
    }
  }

  function WithNext(b: Bucket, next: int): Bucket {
    Bucket(b.no, b.vno, b.number, next)
  }

  /** The chain h with a new bucket at its end; prev is its last bucket so far, 0 for none. */
  lemma NewChain(logic: Buckets, home: map<nat, nat>, chain: seq<nat>, head: int, h: nat, prev: nat, b: nat, x: Bucket)
    requires ChainOk(logic, home, chain, head, h) && b !in logic && b !in chain && b > 0 && x.next == 0
    requires if chain == [] then prev == 0 else prev == chain[|chain| - 1] && prev in logic
    requires forall c :: c in logic ==> c > 0
    ensures var logic' := if prev == 0 then logic else logic[prev := WithNext(logic[prev], b)];
      ChainOk(logic'[b := x], home[b := h], chain + [b], if chain == [] then b else head, h)
  {
    var logic' := (if prev == 0 then logic else logic[prev := WithNext(logic[prev], b)])[b := x];
    var more, n := chain + [b], |chain|;
    forall i, j | 0 <= i < j < |more|
      ensures more[i] != more[j]
    {
      if j == n { assert chain[i] in chain; }
    }
    forall i | 0 <= i < |more|
      ensures more[i] in logic' && more[i] in home[b := h] && home[b := h][more[i]] == h
      ensures logic'[more[i]].next == Nth(more, i + 1)
    {
      if i < n {
        assert chain[i] in chain && chain[i] != b && logic[chain[i]].next == Nth(chain, i + 1);
        if i < n - 1 { assert chain[i] != chain[n - 1]; }
      }
    }
  }

  lemma OtherChain(logic: Buckets, home: map<nat, nat>, chain: seq<nat>, head: int, h: nat, k: nat, prev: nat, b: nat,
                   x: Bucket)
    requires ChainOk(logic, home, chain, head, k) && b !in logic && b !in chain && h != k
    requires prev != 0 ==> prev in logic && prev in home && home[prev] == h
    ensures var logic' := if prev == 0 then logic else logic[prev := WithNext(logic[prev], b)];
      ChainOk(logic'[b := x], home[b := h], chain, head, k)
  {
  }

  lemma NewChains(logic: Buckets, home: map<nat, nat>, chains: seq<seq<nat>>, table: seq<int>, nextBucket: nat, h: nat,
                  prev: nat, x: Bucket)
    requires ChainsOk(logic, home, chains, table, nextBucket) && h < HASH_SIZE && nextBucket >= FIRST_BUCKET
    requires x.next == 0
    requires if chains[h] == [] then prev == 0 else prev == chains[h][|chains[h]| - 1]
    ensures prev != 0 ==> prev in logic
    ensures var logic' := if prev == 0 then logic else logic[prev := WithNext(logic[prev], nextBucket)];
      ChainsOk(logic'[nextBucket := x], home[nextBucket := h], chains[h := chains[h] + [nextBucket]],
               if prev == 0 then table[h := nextBucket] else table, nextBucket + 1)
  {
    hide ChainOk, WithNext;
    LastBucket(logic, home, chains, table, nextBucket, h, prev);
    EachChain(logic, home, chains, table, nextBucket, h, prev, x);
    var logic' := (if prev == 0 then logic else logic[prev := WithNext(logic[prev], nextBucket)])[nextBucket := x];
    var home', chains' := home[nextBucket := h], chains[h := chains[h] + [nextBucket]];
    forall b | b in logic'
      ensures b in home' && home'[b] < HASH_SIZE && b in chains'[home'[b]]
    {
      if b != nextBucket { assert b in chains[home[b]]; }
    }
  }

  lemma EachChain(logic: Buckets, home: map<nat, nat>, chains: seq<seq<nat>>, table: seq<int>, nextBucket: nat, h: nat,
                  prev: nat, x: Bucket)
    requires ChainsOk(logic, home, chains, table, nextBucket) && h < HASH_SIZE && nextBucket >= FIRST_BUCKET
    requires x.next == 0
    requires if chains[h] == [] then prev == 0 else prev == chains[h][|chains[h]| - 1]
    requires (prev != 0 ==> prev in logic && prev in home && home[prev] == h) && (chains[h] == [] <==> prev == 0)
    requires nextBucket !in logic
    ensures var logic' := if prev == 0 then logic else logic[prev := WithNext(logic[prev], nextBucket)];
      var table' := if prev == 0 then table[h := nextBucket] else table;
      forall k :: 0 <= k < HASH_SIZE ==>
        ChainOk(logic'[nextBucket := x], home[nextBucket := h], chains[h := chains[h] + [nextBucket]][k], table'[k], k)
  {
    hide ChainOk;
    var logic' := if prev == 0 then logic else logic[prev := WithNext(logic[prev], nextBucket)];
    var table' := if prev == 0 then table[h := nextBucket] else table;
    forall k | 0 <= k < HASH_SIZE
      ensures ChainOk(logic'[nextBucket := x], home[nextBucket := h], chains[h := chains[h] + [nextBucket]][k],
                      table'[k], k)
    {
      NotInChain(logic, home, chains[k], table[k], k, nextBucket);
      if k == h { NewChain(logic, home, chains[h], table[h], h, prev, nextBucket, x); }
      else { OtherChain(logic, home, chains[k], table[k], h, k, prev, nextBucket, x); }
    }
  }

  lemma LastBucket(logic: Buckets, home: map<nat, nat>, chains: seq<seq<nat>>, table: seq<int>, nextBucket: nat, h: nat,
                   prev: nat)
    requires ChainsOk(logic, home, chains, table, nextBucket) && h < HASH_SIZE
    requires if chains[h] == [] then prev == 0 else prev == chains[h][|chains[h]| - 1]
    ensures prev != 0 ==> prev in logic && prev in home && home[prev] == h
    ensures chains[h] == [] <==> prev == 0
    ensures nextBucket !in logic
  {
    assert ChainOk(logic, home, chains[h], table[h], h);
  }

  lemma NotInChain(logic: Buckets, home: map<nat, nat>, chain: seq<nat>, head: int, h: nat, b: nat)
    requires ChainOk(logic, home, chain, head, h) && b !in logic
    ensures b !in chain
  {
  }

  /** A new bucket holding only the new block. */
  lemma NewSlots(logic: Buckets, home: map<nat, nat>, vmap: map<int, int>, nextBlock: nat, h: nat, prev: nat, b: nat,
                 no: int)
    requires SlotsOk(logic, home, vmap, nextBlock) && b !in logic && no >= 0 && no !in vmap && h == HashOf(no)
    requires prev != 0 ==> prev in logic
    ensures var logic' := if prev == 0 then logic else logic[prev := WithNext(logic[prev], b)];
      SlotsOk(logic'[b := PutSlot(EmptyBucket(b), 0, no, nextBlock)], home[b := h], vmap[no := nextBlock],
              nextBlock + 1)
  {
    var x := PutSlot(EmptyBucket(b), 0, no, nextBlock);
    var logic1 := if prev == 0 then logic else logic[prev := WithNext(logic[prev], b)];
    var logic', home', vmap' := logic1[b := x], home[b := h], vmap[no := nextBlock];
    EmptyMaps(b, h, vmap);
    PutBucket(EmptyBucket(b), h, vmap, 0, no, nextBlock);
    forall c | c in logic
      ensures c in logic' && c in home' && BucketMaps(logic'[c], home'[c], vmap') && !HasNo(logic[c], no)
      ensures forall k :: HasNo(logic'[c], k) <==> HasNo(logic[c], k)
    {
      assert BucketMaps(logic[c], home[c], vmap);
      MapsMore(logic[c], home[c], vmap, no, nextBlock);
      NextKeeps(logic[c], b, home[c], vmap');
    }
    HeldMore(logic, logic', vmap, nextBlock, no, b);
  }

  lemma EmptyMaps(b: nat, h: int, vmap: map<int, int>)
    ensures BucketMaps(EmptyBucket(b), h, vmap) && forall k :: !HasNo(EmptyBucket(b), k)
  {
  }

  lemma NextKeeps(x: Bucket, next: int, h: int, vmap: map<int, int>)
    requires BucketMaps(x, h, vmap)
    ensures BucketMaps(WithNext(x, next), h, vmap)
    ensures forall k :: HasNo(WithNext(x, next), k) <==> HasNo(x, k)
  {
    var y := WithNext(x, next);
    forall i, k
      ensures Pairs(y, i, k) <==> Pairs(x, i, k)
    {
    }
    forall k
      ensures HasNo(y, k) <==> HasNo(x, k)
    {
      if HasNo(x, k) { var i :| Pairs(x, i, k); assert Pairs(y, i, k); }
      if HasNo(y, k) { var i :| Pairs(y, i, k); assert Pairs(x, i, k); }
    }
  }

  /** A bucket that did not exist before joins the ones in memory. */
  lemma NewCached(logic: Buckets, mem: Cache, hash: File<int>, lru: seq<nat>, parray: seq<seq<nat>>,
                  home: map<nat, nat>, b: nat, x: Bucket, h: nat)
    requires CacheOk(logic, mem, hash) && ListsOk(mem, lru, parray, home) && b !in logic && |lru| < MAX_IN_MEMORY
    requires h < HASH_SIZE
    requires Sized(x) && x.number == b >= FIRST_BUCKET
    ensures |parray| == HASH_SIZE
    ensures CacheOk(logic[b := x], mem[b := Cached(x, true, h)], hash)
    ensures ListsOk(mem[b := Cached(x, true, h)], lru + [b], parray[h := [b] + parray[h]], home[b := h])
  {
    assert b !in mem;
    var logic' := logic[b := x];
    forall n: nat | Above(logic', n)
      ensures |hash| <= n
    {
      AboveLess(logic, b, x, n);
    }
    HomeMore(mem, lru, parray, home, b, h);
    hide ListsOk;
    AddLists(mem, lru, parray, home[b := h], b, Cached(x, true, h));
  }

  lemma HomeMore(mem: Cache, lru: seq<nat>, parray: seq<seq<nat>>, home: map<nat, nat>, b: nat, h: nat)
    requires ListsOk(mem, lru, parray, home) && b !in mem
    ensures ListsOk(mem, lru, parray, home[b := h])
  {
  }
}
