/** The page cache of a dictionary file: blocks linked into a list by age, hash chains and a list
  of free blocks. It cannot be told from a store of pages. */
module DictCache {
  import opened Sequences
  import opened Wrappers
  import opened CfStore

  // Links are block numbers; NIL ends a list. What points at a block in its hash chain is the
  // head of the chain or the block before it.
  const NIL := -1
  datatype Link = Head(h: nat) | After(p: nat)

  type Page = seq<int>
  type Store = map<nat, Page>

  // ---------------------------------------------------------------- lists

  ghost predicate In(x: nat, s: seq<nat>) {
    x in s
  }

  ghost predicate Within(s: seq<nat>, n: int) {
    forall i :: 0 <= i < |s| ==> s[i] < n
  }

  lemma InJoin(a: seq<nat>, b: seq<nat>)
    ensures forall x: nat :: In(x, a + b) <==> In(x, a) || In(x, b)
  {
  }

  lemma InOne(p: nat)
    ensures forall x: nat :: In(x, [p]) <==> x == p
  {
  }

  lemma FirstIn(s: seq<nat>)
    requires s != [] && Distinct(s)
    ensures In(s[0], s) && !In(s[0], s[1..]) && forall x: nat :: In(x, s) <==> x == s[0] || In(x, s[1..])
  {
  }

  ghost function At(s: seq<nat>, i: int): int {
    if 0 <= i < |s| then s[i] else NIL
  }

  ghost function Without(s: seq<nat>, i: nat): seq<nat>
    requires i < |s|
  {
    s[..i] + s[i + 1..]
  }

  lemma WithoutIs(s: seq<nat>, i: nat)
    requires i < |s| && Distinct(s)
    ensures Distinct(Without(s, i)) && forall x: nat :: In(x, Without(s, i)) <==> In(x, s) && x != s[i]
  {
    forall x: nat | In(x, s) && x != s[i]
      ensures In(x, Without(s, i))
    {
      var j :| 0 <= j < |s| && s[j] == x;
      assert Without(s, i)[if j < i then j else j - 1] == x;
    }
  }

  /** The list by age, oldest first, linked both ways. */
  ghost predicate AgeOk(prev: seq<int>, next: seq<int>, back: int, front: int, list: seq<nat>) {
    && Distinct(list) && |prev| == |next| && Within(list, |next|) && back == At(list, 0)
    && front == At(list, |list| - 1)
    && (forall i :: 0 <= i < |list| ==> AgeAt(prev, next, list, i))
  }

  ghost predicate AgeAt(prev: seq<int>, next: seq<int>, list: seq<nat>, i: int) {
    && 0 <= i < |list| && list[i] < |prev| == |next| && next[list[i]] == At(list, i + 1)
    && prev[list[i]] == At(list, i - 1)
  }

  /** A chain, linked forward and from each block to what points at it. */
  ghost predicate ChainOk(next: seq<int>, prev: seq<Link>, head: int, h: nat, chain: seq<nat>) {
    && Distinct(chain) && |next| == |prev| && Within(chain, |next|) && head == At(chain, 0)
    && (forall i :: 0 <= i < |chain| ==> ChainAt(next, prev, h, chain, i))
  }

  ghost predicate ChainAt(next: seq<int>, prev: seq<Link>, h: nat, chain: seq<nat>, i: int) {
    && 0 <= i < |chain| && chain[i] < |prev| == |next| && next[chain[i]] == At(chain, i + 1)
    && prev[chain[i]] == if i == 0 then Head(h) else After(chain[i - 1])
  }

  ghost predicate FreeOk(next: seq<int>, head: int, free: seq<nat>) {
    && Distinct(free) && Within(free, |next|) && head == At(free, 0)
    && (forall i :: 0 <= i < |free| ==> next[free[i]] == At(free, i + 1))
  }

  // ---------------------------------------------------------------- the list by age

  function UnlinkedNext(prev: seq<int>, next: seq<int>, p: nat): seq<int>
    requires p < |prev| == |next|
  {
    if 0 <= prev[p] < |next| then next[prev[p] := next[p]] else next
  }

  function UnlinkedPrev(prev: seq<int>, next: seq<int>, p: nat): seq<int>
    requires p < |prev| == |next|
  {
    if 0 <= next[p] < |prev| then prev[next[p] := prev[p]] else prev
  }

  lemma Unlink(prev: seq<int>, next: seq<int>, back: int, front: int, list: seq<nat>, i: nat)
    requires AgeOk(prev, next, back, front, list) && i < |list|
    ensures var p := list[i];
      && -1 <= prev[p] < |next| && -1 <= next[p] < |next|
      && AgeOk(UnlinkedPrev(prev, next, p), UnlinkedNext(prev, next, p), if prev[p] == NIL then next[p] else back,
               if next[p] == NIL then prev[p] else front, Without(list, i))
  {
    var p, list' := list[i], Without(list, i);
    assert AgeAt(prev, next, list, i);
    WithoutIs(list, i);
    forall j | 0 <= j < |list'|
      ensures AgeAt(UnlinkedPrev(prev, next, p), UnlinkedNext(prev, next, p), list', j)
    {
      UnlinkAt(prev, next, back, front, list, i, j);
    }
  }

  lemma UnlinkAt(prev: seq<int>, next: seq<int>, back: int, front: int, list: seq<nat>, i: nat, j: nat)
    requires AgeOk(prev, next, back, front, list) && i < |list| && j < |list| - 1
    ensures list[i] < |prev|
    ensures AgeAt(UnlinkedPrev(prev, next, list[i]), UnlinkedNext(prev, next, list[i]), Without(list, i), j)
  {
    var k := if j < i then j else j + 1;
    assert AgeAt(prev, next, list, k) && AgeAt(prev, next, list, i);
    hide AgeOk;
    assert Without(list, i)[j] == list[k];
  }

  lemma Append(prev: seq<int>, next: seq<int>, back: int, front: int, list: seq<nat>, p: nat)
    requires AgeOk(prev, next, back, front, list) && !In(p, list) && p < |prev|
    ensures -1 <= front < |next|
    ensures AgeOk(prev[p := front], (if front == NIL then next[p := NIL] else next[p := NIL][front := p]),
                  if front == NIL then p else back, p, list + [p])
  {
    var list' := list + [p];
    var prev', next' := prev[p := front], if front == NIL then next[p := NIL] else next[p := NIL][front := p];
    forall j | 0 <= j < |list'|
      ensures AgeAt(prev', next', list', j)
    {
      if j < |list| { assert AgeAt(prev, next, list, j); }
    }
  }

  // ---------------------------------------------------------------- chains

  lemma Unchain(next: seq<int>, prev: seq<Link>, head: int, h: nat, chain: seq<nat>, i: nat)
    requires ChainOk(next, prev, head, h, chain) && i < |chain|
    ensures var p := chain[i];
      && -1 <= next[p] < |next| && (prev[p] == Head(h) || (prev[p].After? && prev[p].p < |next|))
      && ChainOk(if prev[p].After? then next[prev[p].p := next[p]] else next,
                 if next[p] == NIL then prev else prev[next[p] := prev[p]],
                 if prev[p].Head? then next[p] else head, h, Without(chain, i))
  {
    var p, chain' := chain[i], Without(chain, i);
    assert ChainAt(next, prev, h, chain, i);
    WithoutIs(chain, i);
    var next' := if prev[p].After? then next[prev[p].p := next[p]] else next;
    var prev' := if next[p] == NIL then prev else prev[next[p] := prev[p]];
    forall j | 0 <= j < |chain'|
      ensures ChainAt(next', prev', h, chain', j)
    {
      UnchainAt(next, prev, head, h, chain, i, j);
    }
  }

  lemma UnchainAt(next: seq<int>, prev: seq<Link>, head: int, h: nat, chain: seq<nat>, i: nat, j: nat)
    requires ChainOk(next, prev, head, h, chain) && i < |chain| && j < |chain| - 1
    ensures var p := chain[i];
      && p < |prev| == |next| && -1 <= next[p] < |next| && (prev[p].After? ==> prev[p].p < |next|)
      && ChainAt(if prev[p].After? then next[prev[p].p := next[p]] else next,
                 if next[p] == NIL then prev else prev[next[p] := prev[p]],
                 h, Without(chain, i), j)
  {
    var k := if j < i then j else j + 1;
    assert ChainAt(next, prev, h, chain, k) && ChainAt(next, prev, h, chain, i);
    assert j == i ==> i == 0 || ChainAt(next, prev, h, chain, i - 1);
    hide ChainOk;
    assert Without(chain, i)[j] == chain[k];
  }

  /** The chain does not care about the links of blocks that are not in it. */
  lemma ChainSame(next: seq<int>, prev: seq<Link>, head: int, h: nat, chain: seq<nat>, next': seq<int>,
                  prev': seq<Link>)
    requires ChainOk(next, prev, head, h, chain) && |next'| == |next| == |prev'|
    requires forall p: nat :: In(p, chain) ==> next'[p] == next[p] && prev'[p] == prev[p]
    ensures ChainOk(next', prev', head, h, chain)
  {
    forall i | 0 <= i < |chain|
      ensures ChainAt(next', prev', h, chain, i)
    {
      assert ChainAt(next, prev, h, chain, i) && In(chain[i], chain);
    }
  }

  lemma Enchain(next: seq<int>, prev: seq<Link>, head: int, h: nat, chain: seq<nat>, p: nat)
    requires ChainOk(next, prev, head, h, chain) && !In(p, chain) && p < |next|
    ensures -1 <= head < |next|
    ensures ChainOk(next[p := head], (if head == NIL then prev[p := Head(h)] else prev[p := Head(h)][head := After(p)]),
                    p, h, [p] + chain)
  {
    var chain' := [p] + chain;
    var next', prev' := next[p := head], if head == NIL then prev[p := Head(h)]
      else prev[p := Head(h)][head := After(p)];
    forall j | 0 <= j < |chain'|
      ensures ChainAt(next', prev', h, chain', j)
    {
      if j > 0 { assert ChainAt(next, prev, h, chain, j - 1); }
    }
  }

  lemma FreeSame(next: seq<int>, head: int, free: seq<nat>, next': seq<int>)
    requires FreeOk(next, head, free) && |next'| == |next|
    requires forall p: nat :: In(p, free) && p < |next| ==> next'[p] == next[p]
    ensures FreeOk(next', head, free)
  {
    forall i | 0 <= i < |free|
      ensures next'[free[i]] == At(free, i + 1)
    {
      InAt(free, i);
    }
  }

  // ---------------------------------------------------------------- all the links

  datatype Links = Links(no: seq<nat>, lruPrev: seq<int>, lruNext: seq<int>, lruBack: int, lruFront: int,
                         hNext: seq<int>, hPrev: seq<Link>, hashArray: seq<int>, freeList: int)

  // The lists the links make up: blocks in use by age, each chain, and the free blocks.
  datatype Lists = Lists(lru: seq<nat>, chains: seq<seq<nat>>, free: seq<nat>)

  function Code(no: nat, size: nat): nat
    requires size > 0
  {
    no % size
  }

  lemma CodeLess(size: nat)
    requires size > 0
    ensures forall no: nat :: Code(no, size) < size
  {
  }

  ghost predicate Shared(k: Links, g: Lists, n: nat, size: nat) {
    && |k.no| == |k.lruPrev| == |k.lruNext| == |k.hNext| == |k.hPrev| == n && |k.hashArray| == size
    && Sharing(k.no, g, n, size)
  }

  /** Every block is free, or in use and in the chain of its page number; no page has two blocks. */
  ghost predicate Sharing(no: seq<nat>, g: Lists, n: nat, size: nat) {
    && |no| == n && |g.chains| == size > 0
    && (forall p: nat :: p < n <==> In(p, g.lru) || In(p, g.free))
    && (forall p: nat :: In(p, g.lru) ==> !In(p, g.free))
    && (forall h, p: nat :: 0 <= h < size && In(p, g.chains[h]) ==> In(p, g.lru) && p < n && Code(no[p], size) == h)
    && (forall p: nat :: In(p, g.lru) && p < n ==> In(p, g.chains[Code(no[p], size)]))
    && (forall p: nat, q: nat :: In(p, g.lru) && In(q, g.lru) && p < n && q < n && no[p] == no[q] ==> p == q)
  }

  ghost predicate LinksOk(k: Links, g: Lists, n: nat, size: nat) {
    && Shared(k, g, n, size) && AgeOk(k.lruPrev, k.lruNext, k.lruBack, k.lruFront, g.lru)
    && FreeOk(k.hNext, k.freeList, g.free)
    && forall h :: 0 <= h < size ==> ChainOk(k.hNext, k.hPrev, k.hashArray[h], h, g.chains[h])
  }

  function InRange(p: int, n: nat): bool {
    -1 <= p < n
  }

  /** The links of block p lead to blocks. */
  predicate Linked(k: Links, p: nat) {
    && p < |k.no| == |k.lruPrev| == |k.lruNext| == |k.hNext| == |k.hPrev| && InRange(k.lruPrev[p], |k.no|)
    && InRange(k.lruNext[p], |k.no|)
    && InRange(k.hNext[p], |k.no|)
    && (if k.hPrev[p].After? then k.hPrev[p].p < |k.no| else k.hPrev[p].h < |k.hashArray|)
  }

  /** The links after block p has been released. */
  function Released(k: Links, p: nat): Links
    requires Linked(k, p)
  {
    var next, link := k.hNext[p], k.hPrev[p];
    k.(lruNext := UnlinkedNext(k.lruPrev, k.lruNext, p), lruPrev := UnlinkedPrev(k.lruPrev, k.lruNext, p),
       lruBack := if k.lruPrev[p] == NIL then k.lruNext[p] else k.lruBack,
       lruFront := if k.lruNext[p] == NIL then k.lruPrev[p] else k.lruFront,
       hNext := (if link.After? then k.hNext[link.p := next] else k.hNext)[p := k.freeList],
       hPrev := if next == NIL then k.hPrev else k.hPrev[next := link],
       hashArray := if link.Head? then k.hashArray[link.h := next] else k.hashArray, freeList := p)
  }

  ghost function ReleasedLists(g: Lists, i: nat, h: nat, j: nat): Lists
    requires i < |g.lru| && h < |g.chains| && j < |g.chains[h]|
  {
    Lists(Without(g.lru, i), g.chains[h := Without(g.chains[h], j)], [g.lru[i]] + g.free)
  }

  /** Where a block in use is. */
  lemma Place(k: Links, g: Lists, n: nat, size: nat, p: nat) returns (i: nat, h: nat, j: nat)
    requires LinksOk(k, g, n, size) && In(p, g.lru)
    ensures i < |g.lru| && g.lru[i] == p && h < size && h < |g.chains| && j < |g.chains[h]| && g.chains[h][j] == p
    ensures Linked(k, p)
    ensures p < n == |k.no| && h == k.no[p] % size
  {
    i :| 0 <= i < |g.lru| && g.lru[i] == p;
    h := k.no[p] % size;
    j :| 0 <= j < |g.chains[h]| && g.chains[h][j] == p;
    assert AgeAt(k.lruPrev, k.lruNext, g.lru, i);
    assert ChainOk(k.hNext, k.hPrev, k.hashArray[h], h, g.chains[h]);
    assert ChainAt(k.hNext, k.hPrev, h, g.chains[h], j);
  }

  lemma ReleaseSharing(no: seq<nat>, g: Lists, n: nat, size: nat, i: nat, h: nat, j: nat)
    requires Sharing(no, g, n, size) && Distinct(g.lru) && i < |g.lru| && h < size && j < |g.chains[h]|
    requires g.chains[h][j] == g.lru[i]
    requires Distinct(g.chains[h])
    ensures Sharing(no, ReleasedLists(g, i, h, j), n, size)
  {
    var p := g.lru[i];
    WithoutIs(g.lru, i);
    WithoutIs(g.chains[h], j);
    InOne(p);
    InJoin([p], g.free);
    InAt(g.lru, i);
    InAt(g.chains[h], j);
    hide Distinct, In, Sharing, Without;
    SharingLess(no, g, n, size, h, p, ReleasedLists(g, i, h, j));
  }

  lemma SharingLess(no: seq<nat>, g: Lists, n: nat, size: nat, h: nat, p: nat, g': Lists)
    requires Sharing(no, g, n, size) && In(p, g.lru) && h < size && In(p, g.chains[h]) && |g'.chains| == size
    requires forall q: nat :: In(q, g'.lru) <==> In(q, g.lru) && q != p
    requires forall q: nat :: In(q, g'.free) <==> In(q, g.free) || q == p
    requires forall q: nat :: In(q, g'.chains[h]) <==> In(q, g.chains[h]) && q != p
    requires forall c :: 0 <= c < size && c != h ==> g'.chains[c] == g.chains[c]
    ensures Sharing(no, g', n, size)
  {
    hide In, Code;
    CodeLess(size);
  }

  lemma InAt(s: seq<nat>, i: nat)
    requires i < |s|
    ensures In(s[i], s)
  {
  }

  lemma ReleaseShared(k: Links, g: Lists, n: nat, size: nat, i: nat, h: nat, j: nat)
    requires Shared(k, g, n, size) && Distinct(g.lru) && i < |g.lru| && h < size == |g.chains| && j < |g.chains[h]|
    requires g.chains[h][j] == g.lru[i]
    requires Linked(k, g.lru[i]) && Distinct(g.chains[h])
    ensures Shared(Released(k, g.lru[i]), ReleasedLists(g, i, h, j), n, size)
  {
    hide Sharing;
    ReleaseSharing(k.no, g, n, size, i, h, j);
  }

  /** What is next to a block in its chain is in the chain. */
  lemma Neighbours(next: seq<int>, prev: seq<Link>, head: int, h: nat, chain: seq<nat>, j: nat)
    requires ChainOk(next, prev, head, h, chain) && j < |chain|
    ensures chain[j] < |prev| == |next| && (prev[chain[j]].After? ==> In(prev[chain[j]].p, chain))
    ensures (prev[chain[j]].Head? ==> prev[chain[j]].h == h)
    ensures next[chain[j]] == NIL || (next[chain[j]] >= 0 && In(next[chain[j]], chain))
  {
    assert ChainAt(next, prev, h, chain, j);
  }

  lemma ReleaseFree(k: Links, g: Lists, n: nat, size: nat, i: nat, h: nat, j: nat)
    requires Shared(k, g, n, size) && FreeOk(k.hNext, k.freeList, g.free) && i < |g.lru| && Linked(k, g.lru[i])
    requires k.hPrev[g.lru[i]].After? ==> In(k.hPrev[g.lru[i]].p, g.lru)
    ensures FreeOk(Released(k, g.lru[i]).hNext, g.lru[i], [g.lru[i]] + g.free)
  {
    var p := g.lru[i];
    var next' := Released(k, p).hNext;
    InAt(g.lru, i);
    hide In, Distinct;
    assert !In(p, g.free) && forall q: nat :: In(q, g.free) ==> next'[q] == k.hNext[q];
    FreeSame(k.hNext, k.freeList, g.free, next');
    FreeMore(next', k.freeList, g.free, p);
  }

  /** A block at the head of the free list. */
  lemma FreeMore(next: seq<int>, head: int, free: seq<nat>, p: nat)
    requires FreeOk(next, head, free) && !In(p, free) && p < |next| && next[p] == head
    ensures FreeOk(next, p, [p] + free)
  {
    forall a | 0 <= a < |free| + 1
      ensures next[([p] + free)[a]] == At([p] + free, a + 1)
    {
      if a > 0 { assert next[free[a - 1]] == At(free, a); }
    }
  }

  /** Two chains have no block in common. */
  lemma Apart(k: Links, g: Lists, n: nat, size: nat, c: nat, h: nat)
    requires Shared(k, g, n, size) && c < size && h < size && c != h
    ensures forall q: nat :: In(q, g.chains[c]) ==> !In(q, g.chains[h]) && q < n
  {
    forall q: nat | In(q, g.chains[c])
      ensures !In(q, g.chains[h]) && q < n
    {
      assert q < n && k.no[q] % size == c;
    }
  }

  /** The links of one chain after its block j has been released. */
  lemma SameChain(k: Links, h: nat, chain: seq<nat>, j: nat, n: nat)
    requires h < |k.hashArray| && ChainOk(k.hNext, k.hPrev, k.hashArray[h], h, chain) && j < |chain|
    requires Linked(k, chain[j]) && n == |k.no|
    ensures var k' := Released(k, chain[j]);
      h < |k'.hashArray| && ChainOk(k'.hNext, k'.hPrev, k'.hashArray[h], h, Without(chain, j))
  {
    var p, k' := chain[j], Released(k, chain[j]);
    Neighbours(k.hNext, k.hPrev, k.hashArray[h], h, chain, j);
    Unchain(k.hNext, k.hPrev, k.hashArray[h], h, chain, j);
    ChainDistinct(k.hNext, k.hPrev, k.hashArray[h], h, chain);
    WithoutIs(chain, j);
    hide ChainOk, Distinct;
    var hNext := if k.hPrev[p].After? then k.hNext[k.hPrev[p].p := k.hNext[p]] else k.hNext;
    ChainSame(hNext, k'.hPrev, k'.hashArray[h], h, Without(chain, j), k'.hNext, k'.hPrev);
  }

  lemma OtherChain(k: Links, c: nat, other: seq<nat>, h: nat, chain: seq<nat>, j: nat)
    requires c < |k.hashArray| && h < |k.hashArray| && ChainOk(k.hNext, k.hPrev, k.hashArray[c], c, other) && c != h
    requires ChainOk(k.hNext, k.hPrev, k.hashArray[h], h, chain) && j < |chain| && Linked(k, chain[j])
    requires forall q: nat :: In(q, other) ==> !In(q, chain) && q < |k.no|
    ensures var k' := Released(k, chain[j]);
      c < |k'.hashArray| && ChainOk(k'.hNext, k'.hPrev, k'.hashArray[c], c, other)
  {
    var k' := Released(k, chain[j]);
    Neighbours(k.hNext, k.hPrev, k.hashArray[h], h, chain, j);
    hide ChainOk;
    ChainSame(k.hNext, k.hPrev, k.hashArray[c], c, other, k'.hNext, k'.hPrev);
  }

  lemma ReleaseChain(k: Links, g: Lists, n: nat, size: nat, i: nat, h: nat, j: nat, c: nat)
    requires LinksOk(k, g, n, size) && i < |g.lru| && h < size && j < |g.chains[h]| && g.chains[h][j] == g.lru[i]
    requires Linked(k, g.lru[i])
    requires c < size
    ensures var k', g' := Released(k, g.lru[i]), ReleasedLists(g, i, h, j);
      c < |k'.hashArray| && ChainOk(k'.hNext, k'.hPrev, k'.hashArray[c], c, g'.chains[c])
  {
    hide ChainOk, AgeOk, FreeOk, Released;
    assert ChainOk(k.hNext, k.hPrev, k.hashArray[h], h, g.chains[h]);
    assert ChainOk(k.hNext, k.hPrev, k.hashArray[c], c, g.chains[c]);
    if c == h {
      SameChain(k, h, g.chains[h], j, n);
    } else {
      Apart(k, g, n, size, c, h);
      OtherChain(k, c, g.chains[c], h, g.chains[h], j);
      ReleasedArray(k, g.lru[i]);
    }
  }

  lemma ReleasedArray(k: Links, p: nat)
    requires Linked(k, p)
    ensures |Released(k, p).hashArray| == |k.hashArray|
  {
  }

  lemma ReleaseAge(k: Links, list: seq<nat>, i: nat)
    requires AgeOk(k.lruPrev, k.lruNext, k.lruBack, k.lruFront, list) && i < |list| && Linked(k, list[i])
    ensures var k' := Released(k, list[i]); AgeOk(k'.lruPrev, k'.lruNext, k'.lruBack, k'.lruFront, Without(list, i))
  {
    Unlink(k.lruPrev, k.lruNext, k.lruBack, k.lruFront, list, i);
    hide AgeOk, UnlinkedPrev, UnlinkedNext;
  }

  lemma ChainDistinct(next: seq<int>, prev: seq<Link>, head: int, h: nat, chain: seq<nat>)
    requires ChainOk(next, prev, head, h, chain)
    ensures Distinct(chain)
  {
  }

  lemma ReleaseOk(k: Links, g: Lists, n: nat, size: nat, i: nat, h: nat, j: nat)
    requires LinksOk(k, g, n, size) && i < |g.lru| && h < size && j < |g.chains[h]| && g.chains[h][j] == g.lru[i]
    requires Linked(k, g.lru[i])
    ensures LinksOk(Released(k, g.lru[i]), ReleasedLists(g, i, h, j), n, size)
  {
    hide ChainOk, AgeOk, FreeOk, Released;
    var k', g' := Released(k, g.lru[i]), ReleasedLists(g, i, h, j);
    ReleaseRest(k, g, n, size, i, h, j);
    forall c | 0 <= c < size
      ensures ChainOk(k'.hNext, k'.hPrev, k'.hashArray[c], c, g'.chains[c])
    {
      ReleaseChain(k, g, n, size, i, h, j, c);
    }
  }

  lemma ReleaseRest(k: Links, g: Lists, n: nat, size: nat, i: nat, h: nat, j: nat)
    requires LinksOk(k, g, n, size) && i < |g.lru| && h < size && j < |g.chains[h]| && g.chains[h][j] == g.lru[i]
    requires Linked(k, g.lru[i])
    ensures var k', g' := Released(k, g.lru[i]), ReleasedLists(g, i, h, j);
      && Shared(k', g', n, size) && AgeOk(k'.lruPrev, k'.lruNext, k'.lruBack, k'.lruFront, g'.lru)
      && FreeOk(k'.hNext, k'.freeList, g'.free)
      && |k'.hashArray| == |g'.chains| == size
  {
    hide ChainOk, AgeOk, FreeOk, Released, Shared;
    Splits(k, g, n, size, h);
    ReleaseShared(k, g, n, size, i, h, j);
    ReleaseAge(k, g.lru, i);
    Neighbours(k.hNext, k.hPrev, k.hashArray[h], h, g.chains[h], j);
    InUse(k, g, n, size, h);
    ReleaseFree(k, g, n, size, i, h, j);
    ReleasedArray(k, g.lru[i]);
    ReleasedHead(k, g.lru[i]);
  }

  lemma Splits(k: Links, g: Lists, n: nat, size: nat, h: nat)
    requires LinksOk(k, g, n, size) && h < size
    ensures Shared(k, g, n, size) && AgeOk(k.lruPrev, k.lruNext, k.lruBack, k.lruFront, g.lru)
    ensures FreeOk(k.hNext, k.freeList, g.free)
    ensures |k.hashArray| == |g.chains| == size && ChainOk(k.hNext, k.hPrev, k.hashArray[h], h, g.chains[h])
    ensures Distinct(g.lru) && Distinct(g.chains[h]) && n == |k.no|
  {
    assert ChainOk(k.hNext, k.hPrev, k.hashArray[h], h, g.chains[h]);
  }

  lemma InUse(k: Links, g: Lists, n: nat, size: nat, h: nat)
    requires Shared(k, g, n, size) && h < size
    ensures forall p: nat :: In(p, g.chains[h]) ==> In(p, g.lru)
  {
  }

  lemma ReleasedHead(k: Links, p: nat)
    requires Linked(k, p)
    ensures Released(k, p).freeList == p
  {
  }

  // ---------------------------------------------------------------- taking a block

  predicate CanAllocate(k: Links, no: nat) {
    && |k.no| == |k.lruPrev| == |k.lruNext| == |k.hNext| == |k.hPrev| && 0 <= k.freeList < |k.no|
    && InRange(k.lruFront, |k.no|)
    && |k.hashArray| > 0 && InRange(k.hashArray[no % |k.hashArray|], |k.no|)
  }

  /** The links after the first free block has been taken for page no. */
  function Allocated(k: Links, no: nat): Links
    requires CanAllocate(k, no)
  {
    var p, h, front: int := k.freeList, no % |k.hashArray|, k.lruFront;
    var head := k.hashArray[h];
    k.(freeList := k.hNext[p], no := k.no[p := no], lruPrev := k.lruPrev[p := front],
       lruNext := if front == NIL then k.lruNext[p := NIL] else k.lruNext[p := NIL][front := p],
       lruBack := if front == NIL then p else k.lruBack, lruFront := p, hNext := k.hNext[p := head],
       hPrev := if head == NIL then k.hPrev[p := Head(h)] else k.hPrev[p := Head(h)][head := After(p)],
       hashArray := k.hashArray[h := p])
  }

  ghost function AllocatedLists(g: Lists, h: nat): Lists
    requires g.free != [] && h < |g.chains|
  {
    Lists(g.lru + [g.free[0]], g.chains[h := [g.free[0]] + g.chains[h]], g.free[1..])
  }

  ghost predicate NotCached(k: Links, g: Lists, no: nat) {
    forall p: nat :: In(p, g.lru) && p < |k.no| ==> k.no[p] != no
  }

  lemma AllocateSharing(no: seq<nat>, g: Lists, n: nat, size: nat, page: nat)
    requires Sharing(no, g, n, size) && g.free != [] && Distinct(g.free) && g.free[0] < n
    requires forall p: nat :: In(p, g.lru) && p < n ==> no[p] != page
    ensures Sharing(no[g.free[0] := page], AllocatedLists(g, page % size), n, size)
  {
    var p, h := g.free[0], page % size;
    FirstIn(g.free);
    InOne(p);
    InJoin(g.lru, [p]);
    InJoin([p], g.chains[h]);
    SharingMore(no, g, n, size, page, p, AllocatedLists(g, h));
  }

  lemma SharingMore(no: seq<nat>, g: Lists, n: nat, size: nat, page: nat, p: nat, g': Lists)
    requires Sharing(no, g, n, size) && p < n && In(p, g.free) && !In(p, g'.free) && |g'.chains| == size
    requires forall q: nat :: In(q, g.lru) && q < n ==> no[q] != page
    requires forall q: nat :: In(q, g'.lru) <==> In(q, g.lru) || q == p
    requires forall q: nat :: In(q, g.free) <==> In(q, g'.free) || q == p
    requires var h := Code(page, size);
      && (forall q: nat :: In(q, g'.chains[h]) <==> In(q, g.chains[h]) || q == p)
      && forall c :: 0 <= c < size && c != h ==> g'.chains[c] == g.chains[c]
    ensures Sharing(no[p := page], g', n, size)
  {
    hide In, Code;
    CodeLess(size);
  }

  lemma AllocateShared(k: Links, g: Lists, n: nat, size: nat, no: nat)
    requires Shared(k, g, n, size) && g.free != [] && CanAllocate(k, no) && k.freeList == g.free[0] && Distinct(g.free)
    requires NotCached(k, g, no)
    requires no % size < |g.chains|
    ensures Shared(Allocated(k, no), AllocatedLists(g, no % size), n, size)
  {
    hide Sharing;
    AllocateSharing(k.no, g, n, size, no);
  }

  lemma AllocateChain(k: Links, g: Lists, n: nat, size: nat, no: nat, c: nat)
    requires LinksOk(k, g, n, size) && g.free != [] && CanAllocate(k, no) && k.freeList == g.free[0] && c < size
    ensures var k', g' := Allocated(k, no), AllocatedLists(g, no % size);
      c < |k'.hashArray| && ChainOk(k'.hNext, k'.hPrev, k'.hashArray[c], c, g'.chains[c])
  {
    hide ChainOk, AgeOk, FreeOk;
    var p, h := g.free[0], no % size;
    var k' := Allocated(k, no);
    Splits(k, g, n, size, c);
    Splits(k, g, n, size, h);
    assert In(p, g.free) && !In(p, g.lru) && !In(p, g.chains[h]) && !In(p, g.chains[c]);
    if c == h {
      Enchain(k.hNext, k.hPrev, k.hashArray[h], h, g.chains[h], p);
    } else {
      Apart(k, g, n, size, c, h);
      HeadIn(k.hNext, k.hPrev, k.hashArray[h], h, g.chains[h]);
      ChainSame(k.hNext, k.hPrev, k.hashArray[c], c, g.chains[c], k'.hNext, k'.hPrev);
    }
  }

  lemma HeadIn(next: seq<int>, prev: seq<Link>, head: int, h: nat, chain: seq<nat>)
    requires ChainOk(next, prev, head, h, chain)
    ensures -1 <= head < |next| && (head == NIL || In(head, chain))
  {
  }

  lemma CanTake(k: Links, g: Lists, n: nat, size: nat, no: nat)
    requires LinksOk(k, g, n, size) && g.free != []
    ensures CanAllocate(k, no) && k.freeList == g.free[0] && g.free[0] < n && !In(g.free[0], g.lru)
    ensures no % size < |g.chains|
  {
    Splits(k, g, n, size, no % size);
    HeadIn(k.hNext, k.hPrev, k.hashArray[no % size], no % size, g.chains[no % size]);
    FrontIn(k.lruPrev, k.lruNext, k.lruBack, k.lruFront, g.lru);
    assert In(g.free[0], g.free);
    hide ChainOk, AgeOk;
  }

  lemma FrontIn(prev: seq<int>, next: seq<int>, back: int, front: int, list: seq<nat>)
    requires AgeOk(prev, next, back, front, list)
    ensures -1 <= front < |next| && (front == NIL <==> list == []) && (front != NIL ==> front == list[|list| - 1])
    ensures (back == NIL <==> list == []) && (back != NIL ==> back == list[0])
  {
  }

  lemma AllocateOk(k: Links, g: Lists, n: nat, size: nat, no: nat)
    requires LinksOk(k, g, n, size) && g.free != [] && NotCached(k, g, no)
    ensures CanAllocate(k, no) && no % size < |g.chains|
    ensures LinksOk(Allocated(k, no), AllocatedLists(g, no % size), n, size)
  {
    CanTake(k, g, n, size, no);
    var k', g' := Allocated(k, no), AllocatedLists(g, no % size);
    AllocateRest(k, g, n, size, no);
    hide ChainOk, AgeOk, FreeOk, Allocated, AllocatedLists, CanAllocate;
    forall c | 0 <= c < size
      ensures ChainOk(k'.hNext, k'.hPrev, k'.hashArray[c], c, g'.chains[c])
    {
      AllocateChain(k, g, n, size, no, c);
    }
  }

  lemma AllocateRest(k: Links, g: Lists, n: nat, size: nat, no: nat)
    requires LinksOk(k, g, n, size) && g.free != [] && NotCached(k, g, no) && CanAllocate(k, no)
    requires k.freeList == g.free[0] && no % size < |g.chains|
    ensures var k', g' := Allocated(k, no), AllocatedLists(g, no % size);
      && Shared(k', g', n, size) && AgeOk(k'.lruPrev, k'.lruNext, k'.lruBack, k'.lruFront, g'.lru)
      && FreeOk(k'.hNext, k'.freeList, g'.free)
  {
    hide ChainOk, AgeOk, NotCached;
    var p, k' := g.free[0], Allocated(k, no);
    Splits(k, g, n, size, 0);
    FreeParts(k.hNext, k.freeList, g.free);
    AllocateShared(k, g, n, size, no);
    assert In(p, g.free) && !In(p, g.lru);
    Append(k.lruPrev, k.lruNext, k.lruBack, k.lruFront, g.lru, p);
    FreeSame(k.hNext, k.hNext[p], g.free[1..], k'.hNext);
  }

  lemma FreeParts(next: seq<int>, head: int, free: seq<nat>)
    requires FreeOk(next, head, free) && free != []
    ensures Distinct(free) && free[0] < |next| && FreeOk(next, next[free[0]], free[1..]) && free[0] !in free[1..]
  {
  }

  // ---------------------------------------------------------------- a block in use again

  /** The links after block p, which is not the newest, has become the newest. */
  function Moved(k: Links, p: nat): Links
    requires Linked(k, p) && InRange(k.lruFront, |k.no|)
  {
    var prev, next := UnlinkedPrev(k.lruPrev, k.lruNext, p), UnlinkedNext(k.lruPrev, k.lruNext, p);
    var back, front: int := if k.lruPrev[p] == NIL then k.lruNext[p] else k.lruBack, k.lruFront;
    k.(lruPrev := prev[p := front], lruNext := if front == NIL then next[p := NIL] else next[p := NIL][front := p],
       lruBack := if front == NIL then p else back, lruFront := p)
  }

  lemma MoveOk(k: Links, g: Lists, n: nat, size: nat, i: nat)
    requires LinksOk(k, g, n, size) && i < |g.lru| && Linked(k, g.lru[i]) && k.lruNext[g.lru[i]] != NIL
    ensures InRange(k.lruFront, |k.no|)
    ensures LinksOk(Moved(k, g.lru[i]), g.(lru := Without(g.lru, i) + [g.lru[i]]), n, size)
  {
    hide AgeOk, ChainOk, FreeOk, Without;
    var p, list := g.lru[i], Without(g.lru, i);
    Splits(k, g, n, size, 0);
    MoveAge(k, g.lru, i);
    assert forall q: nat :: In(q, list + [p]) <==> In(q, g.lru);
  }

  lemma MoveAge(k: Links, lru: seq<nat>, i: nat)
    requires AgeOk(k.lruPrev, k.lruNext, k.lruBack, k.lruFront, lru) && i < |lru| && Linked(k, lru[i])
    requires k.lruNext[lru[i]] != NIL
    ensures InRange(k.lruFront, |k.no|) && (forall q: nat :: In(q, Without(lru, i)) <==> In(q, lru) && q != lru[i])
    ensures var k' := Moved(k, lru[i]);
      AgeOk(k'.lruPrev, k'.lruNext, k'.lruBack, k'.lruFront, Without(lru, i) + [lru[i]])
  {
    var p, list := lru[i], Without(lru, i);
    FrontIn(k.lruPrev, k.lruNext, k.lruBack, k.lruFront, lru);
    WithoutIs(lru, i);
    Unlink(k.lruPrev, k.lruNext, k.lruBack, k.lruFront, lru, i);
    hide AgeOk, Without;
    Append(UnlinkedPrev(k.lruPrev, k.lruNext, p), UnlinkedNext(k.lruPrev, k.lruNext, p),
           if k.lruPrev[p] == NIL then k.lruNext[p] else k.lruBack, k.lruFront, list, p);
  }

  // ---------------------------------------------------------------- what the cache holds

  ghost predicate OnFile(file: File<int>, no: nat, page: Page) {
    no < |file| && file[no] == page
  }

  ghost predicate BlockOk(k: Links, dirty: seq<bool>, data: seq<Page>, file: File<int>, pages: Store, size: nat,
                          p: nat) {
    && p < |k.no| == |dirty| == |data| && k.no[p] in pages && pages[k.no[p]] == data[p] && |data[p]| == size
    && (!dirty[p] ==> OnFile(file, k.no[p], data[p]))
  }

  /** Block p, which is in use, is that of page no. */
  ghost predicate CachedAt(k: Links, g: Lists, no: nat, p: nat) {
    In(p, g.lru) && p < |k.no| && k.no[p] == no
  }

  /** Every page is in a block or else on file; every block in use, but for the block except, holds
      its page, and differs from the file only when it is dirty. */
  ghost predicate Holds(k: Links, g: Lists, dirty: seq<bool>, data: seq<Page>, file: File<int>, pages: Store, size: nat,
                        except: int) {
    && |dirty| == |data| == |k.no| && FileOk(file, size)
    && (forall p: nat :: In(p, g.lru) && p != except ==> BlockOk(k, dirty, data, file, pages, size, p))
    && (forall no :: no in pages ==>
        OnFile(file, no, pages[no]) || exists p: nat :: p != except && CachedAt(k, g, no, p))
  }

  /** The file ends with a page, and what is in it but is no page was skipped over: it is zeros. */
  ghost predicate Covered(file: File<int>, pages: Store, zero: Page) {
    && (file != [] ==> |file| - 1 in pages)
    && forall no :: 0 <= no < |file| ==> no in pages || file[no] == zero
  }

  /** No page number is skipped. */
  ghost predicate Dense(pages: Store) {
    forall no: nat, m: nat :: no < m && m in pages ==> no in pages
  }

  lemma CoveredWritten(file: File<int>, pages: Store, zero: Page, no: nat, page: Page)
    requires Covered(file, pages, zero) && no in pages
    ensures Covered(WriteAt(file, no, 0, page, zero), pages, zero)
  {
  }

  lemma CoveredMore(file: File<int>, pages: Store, zero: Page, no: nat, page: Page)
    requires Covered(file, pages, zero)
    ensures Covered(file, pages[no := page], zero)
  {
  }

  /** What the file says of a page that is not in the store. */
  lemma CoveredIs(file: File<int>, pages: Store, zero: Page, no: nat)
    requires Covered(file, pages, zero) && no !in pages
    ensures no < |file| ==> file[no] == zero
    ensures Dense(pages) ==> no >= |file|
  {
  }

  /** Pages made one after another leave none out. */
  lemma DenseMore(pages: Store, no: nat, page: Page)
    requires Dense(pages) && forall m: nat :: m < no ==> m in pages
    ensures Dense(pages[no := page])
  {
  }

  /** A block whose page is on file can be released. */
  lemma HoldsReleased(k: Links, g: Lists, dirty: seq<bool>, data: seq<Page>, file: File<int>, pages: Store, size: nat,
                      i: nat, h: nat, j: nat)
    requires i < |g.lru| && h < |g.chains| && j < |g.chains[h]| && Linked(k, g.lru[i]) && Distinct(g.lru)
    requires Holds(k, g, dirty, data, file, pages, size, g.lru[i])
    ensures Holds(Released(k, g.lru[i]), ReleasedLists(g, i, h, j), dirty, data, file, pages, size, -1)
  {
    var k', g' := Released(k, g.lru[i]), ReleasedLists(g, i, h, j);
    WithoutIs(g.lru, i);
    assert k'.no == k.no;
    hide Released;
    forall no | no in pages && !OnFile(file, no, pages[no])
      ensures exists p: nat :: p != -1 && CachedAt(k', g', no, p)
    {
      var p: nat :| p != g.lru[i] && CachedAt(k, g, no, p);
      assert CachedAt(k', g', no, p);
    }
  }

  /** Once a block has been written if it is dirty, its page is on file. */
  lemma HoldsWritten(k: Links, g: Lists, dirty: seq<bool>, data: seq<Page>, file: File<int>, pages: Store, size: nat,
                     p: nat, zero: Page)
    requires Holds(k, g, dirty, data, file, pages, size, -1) && In(p, g.lru) && p < |k.no| == |dirty| == |data|
    requires |zero| == size
    requires forall q: nat :: In(q, g.lru) && q < |k.no| && k.no[q] == k.no[p] ==> q == p
    ensures Holds(k, g, dirty, data, if dirty[p] then WriteAt(file, k.no[p], 0, data[p], zero) else file, pages, size,
                  p)
    ensures k.no[p] in pages
  {
    assert BlockOk(k, dirty, data, file, pages, size, p);
    var file' := if dirty[p] then WriteAt(file, k.no[p], 0, data[p], zero) else file;
    WriteOk(file, k.no[p], 0, data[p], zero, size);
    assert dirty[p] ==> Splice(BlockOf(file, k.no[p], zero), 0, data[p]) == data[p];
    assert OnFile(file', k.no[p], data[p]);
    forall no: nat, page | no != k.no[p] && OnFile(file, no, page)
      ensures OnFile(file', no, page)
    {
    }
    hide OnFile;
    forall q: nat | In(q, g.lru) && q != p
      ensures BlockOk(k, dirty, data, file', pages, size, q)
    {
      assert BlockOk(k, dirty, data, file, pages, size, q);
    }
    forall no | no in pages && !OnFile(file', no, pages[no])
      ensures exists q: nat :: q != p && CachedAt(k, g, no, q)
    {
      var q: nat :| q != -1 && CachedAt(k, g, no, q);
      assert q != p;
    }
  }

  /** A block newly taken holds nothing yet. */
  lemma HoldsAllocated(k: Links, g: Lists, dirty: seq<bool>, data: seq<Page>, file: File<int>, pages: Store, size: nat,
                       no: nat, h: nat)
    requires CanAllocate(k, no) && g.free != [] && h < |g.chains| && k.freeList == g.free[0] && !In(g.free[0], g.lru)
    requires Holds(k, g, dirty, data, file, pages, size, -1)
    ensures Holds(Allocated(k, no), AllocatedLists(g, h), dirty[k.freeList := false], data, file, pages, size,
                  k.freeList)
    ensures CachedAt(Allocated(k, no), AllocatedLists(g, h), no, k.freeList)
  {
    var f: nat := k.freeList;
    var k', g' := Allocated(k, no), AllocatedLists(g, h);
    assert k'.no == k.no[f := no] && g'.lru == g.lru + [f];
    hide Allocated, AllocatedLists;
    var dirty' := dirty[f := false];
    forall p: nat | In(p, g'.lru) && p != f
      ensures BlockOk(k', dirty', data, file, pages, size, p)
    {
      assert BlockOk(k, dirty, data, file, pages, size, p);
    }
    forall n | n in pages && !OnFile(file, n, pages[n])
      ensures exists p: nat :: p != f && CachedAt(k', g', n, p)
    {
      var p: nat :| p != -1 && CachedAt(k, g, n, p);
      assert CachedAt(k', g', n, p);
    }
  }

  /** Filling a block with the new contents of its page. */
  lemma HoldsFilled(k: Links, g: Lists, dirty: seq<bool>, data: seq<Page>, file: File<int>, pages: Store, size: nat,
                    no: nat, p: nat, page: Page, except: int)
    requires Holds(k, g, dirty, data, file, pages, size, except) && (except == p || except == -1)
    requires CachedAt(k, g, no, p) && |page| == size
    requires p < |dirty| && (!dirty[p] ==> OnFile(file, no, page))
    requires forall q: nat :: In(q, g.lru) && q < |k.no| && k.no[q] == no ==> q == p
    ensures p < |data| && Holds(k, g, dirty, data[p := page], file, pages[no := page], size, -1)
  {
    var data', pages' := data[p := page], pages[no := page];
    forall q: nat | In(q, g.lru)
      ensures BlockOk(k, dirty, data', file, pages', size, q)
    {
      if q != p { assert BlockOk(k, dirty, data, file, pages, size, q); }
    }
    forall n | n in pages' && !OnFile(file, n, pages'[n])
      ensures exists q: nat :: q != -1 && CachedAt(k, g, n, q)
    {
      if n == no {
        assert p != -1 && CachedAt(k, g, no, p);
      } else {
        var q: nat :| q != except && CachedAt(k, g, n, q);
      }
    }
  }

  /** Marking a block does not matter to what is held. */
  lemma HoldsMarked(k: Links, g: Lists, dirty: seq<bool>, data: seq<Page>, file: File<int>, pages: Store, size: nat,
                    p: nat, except: int)
    requires Holds(k, g, dirty, data, file, pages, size, except) && p < |dirty|
    ensures Holds(k, g, dirty[p := true], data, file, pages, size, except)
  {
    var dirty' := dirty[p := true];
    forall q: nat | In(q, g.lru) && q != except
      ensures BlockOk(k, dirty', data, file, pages, size, q)
    {
      assert BlockOk(k, dirty, data, file, pages, size, q);
    }
  }

  lemma HoldsMoved(k: Links, g: Lists, dirty: seq<bool>, data: seq<Page>, file: File<int>, pages: Store, size: nat,
                   k': Links, g': Lists)
    requires Holds(k, g, dirty, data, file, pages, size, -1) && k'.no == k.no
    requires forall p: nat :: In(p, g'.lru) <==> In(p, g.lru)
    ensures Holds(k', g', dirty, data, file, pages, size, -1)
  {
    forall q: nat | In(q, g'.lru)
      ensures BlockOk(k', dirty, data, file, pages, size, q)
    {
      assert BlockOk(k, dirty, data, file, pages, size, q);
    }
    forall n | n in pages && !OnFile(file, n, pages[n])
      ensures exists q: nat :: q != -1 && CachedAt(k', g', n, q)
    {
      var q: nat :| q != -1 && CachedAt(k, g, n, q);
      assert CachedAt(k', g', n, q);
    }
  }

  /** Releasing a block, link by link. */
  lemma ReleasedIs(k: Links, p: nat)
    requires Linked(k, p)
    ensures var prev, next, hprev, hnext := k.lruPrev[p], k.lruNext[p], k.hPrev[p], k.hNext[p];
      Released(k, p) == Links(
        k.no, if next != NIL then k.lruPrev[next := prev] else k.lruPrev,
        if prev != NIL then k.lruNext[prev := next] else k.lruNext,
        if prev != NIL then k.lruBack else next, if next != NIL then k.lruFront else prev,
        (if hprev.After? then k.hNext[hprev.p := hnext] else k.hNext)[p := k.freeList],
        if hnext != NIL then k.hPrev[hnext := hprev] else k.hPrev,
        if hprev.Head? then k.hashArray[hprev.h := hnext] else k.hashArray, p)
  {
  }

  lemma ReleasedListsIs(g: Lists, i: nat, h: nat, j: nat)
    requires i < |g.lru| && h < |g.chains| && j < |g.chains[h]| && Distinct(g.lru)
    ensures var g' := ReleasedLists(g, i, h, j);
      && g'.free == [g.lru[i]] + g.free && (i == 0 ==> g'.lru == g.lru[1..])
      && g'.lru == Without(g.lru, i) && |g'.lru| == |g.lru| - 1
    ensures g.lru[0] == g.lru[i] ==> i == 0
  {
  }

  lemma OnePage(k: Links, g: Lists, n: nat, size: nat, p: nat)
    requires LinksOk(k, g, n, size) && In(p, g.lru)
    ensures p < |k.no| && forall q: nat :: In(q, g.lru) && q < |k.no| && k.no[q] == k.no[p] ==> q == p
  {
  }

  ghost predicate Newest(g: Lists, p: nat) {
    g.lru != [] && g.lru[|g.lru| - 1] == p
  }

  lemma NewestIs(g: Lists, p: nat)
    ensures Newest(g, p) <==> g.lru != [] && g.lru[|g.lru| - 1] == p
  {
  }

  lemma StillNotCached(k0: Links, g0: Lists, k: Links, g: Lists, no: nat)
    requires NotCached(k0, g0, no) && k.no == k0.no && g0.lru != [] && g.lru == g0.lru[1..]
    ensures NotCached(k, g, no)
  {
    assert forall p: nat :: In(p, g.lru) ==> In(p, g0.lru);
  }

  lemma NilIs()
    ensures NIL == -1
  {
  }

  lemma TakeParts(k: Links, no: nat)
    requires CanAllocate(k, no)
    ensures |k.no| == |k.lruPrev| == |k.lruNext| == |k.hNext| == |k.hPrev| && 0 <= k.freeList < |k.no|
    ensures -1 <= k.lruFront < |k.no|
    ensures |k.hashArray| > 0 && -1 <= k.hashArray[no % |k.hashArray|] < |k.no|
  {
  }

  /** Taking a block, link by link. */
  lemma AllocatedIs(k: Links, no: nat)
    requires CanAllocate(k, no)
    ensures var p, h, front: int := k.freeList, no % |k.hashArray|, k.lruFront;
      var head := k.hashArray[h];
      Allocated(k, no) == Links(
        k.no[p := no], k.lruPrev[p := front],
        if front != NIL then k.lruNext[p := NIL][front := p] else k.lruNext[p := NIL],
        if front != NIL then k.lruBack else p, p, k.hNext[p := head],
        if head != NIL then k.hPrev[p := Head(h)][head := After(p)] else k.hPrev[p := Head(h)], k.hashArray[h := p],
        k.hNext[p])
  {
  }

  lemma AllocatedNo(k: Links, g: Lists, no: nat, h: nat)
    requires CanAllocate(k, no) && g.free != [] && h < |g.chains| && k.freeList == g.free[0]
    ensures Allocated(k, no).no == k.no[g.free[0] := no]
    ensures var g' := AllocatedLists(g, h);
      g'.lru == g.lru + [g.free[0]] && |g'.lru| + |g'.free| == |g.lru| + |g.free|
  {
  }

  lemma AllocatedNewest(g: Lists, h: nat)
    requires g.free != [] && h < |g.chains|
    ensures Newest(AllocatedLists(g, h), g.free[0]) && In(g.free[0], AllocatedLists(g, h).lru)
  {
  }

  lemma CachedIs(k: Links, g: Lists, no: nat, p: nat)
    ensures CachedAt(k, g, no, p) <==> In(p, g.lru) && p < |k.no| && k.no[p] == no
  {
  }

  lemma LastIsNewest(k: Links, g: Lists, n: nat, size: nat, i: nat)
    requires LinksOk(k, g, n, size) && i < |g.lru| && g.lru[i] < |k.lruNext| && k.lruNext[g.lru[i]] == NIL
    ensures Newest(g, g.lru[i])
  {
    hide ChainOk, FreeOk, Shared;
    assert AgeAt(k.lruPrev, k.lruNext, g.lru, i);
  }

  /** Making a block the newest, link by link. */
  lemma MovedIs(k: Links, p: nat)
    requires Linked(k, p) && InRange(k.lruFront, |k.no|) && k.lruNext[p] != NIL
    ensures var prev, next := k.lruPrev[p], k.lruNext[p];
      var after, front: int := if prev != NIL then k.lruNext[prev := next] else k.lruNext, k.lruFront;
      && -1 <= front < |k.no|
      && Moved(k, p) == k.(
        lruPrev := k.lruPrev[next := prev][p := front],
        lruNext := if front != NIL then after[p := NIL][front := p] else after[p := NIL],
        lruBack := if front != NIL then (if prev != NIL then k.lruBack else next) else p, lruFront := p)
  {
  }

  lemma MovedNewest(g: Lists, i: nat)
    requires i < |g.lru| && Distinct(g.lru)
    ensures var p, list := g.lru[i], Without(g.lru, i) + [g.lru[i]];
      Newest(g.(lru := list), p) && forall q: nat :: In(q, list) <==> In(q, g.lru)
  {
    WithoutIs(g.lru, i);
  }

  lemma PageIs(k: Links, g: Lists, dirty: seq<bool>, data: seq<Page>, file: File<int>, pages: Store, size: nat, no: nat,
               p: nat)
    requires Holds(k, g, dirty, data, file, pages, size, -1) && CachedAt(k, g, no, p)
    ensures p < |data| && no in pages && pages[no] == data[p] && In(p, g.lru) && pages[no := data[p]] == pages
  {
    assert BlockOk(k, dirty, data, file, pages, size, p);
  }

  /** A page whose block holds nothing yet is on file, or does not exist. */
  lemma FileIs(k: Links, g: Lists, dirty: seq<bool>, data: seq<Page>, file: File<int>, pages: Store, size: nat, no: nat,
               p: nat)
    requires Holds(k, g, dirty, data, file, pages, size, p)
    requires forall q: nat :: In(q, g.lru) && q < |k.no| && k.no[q] == no ==> q == p
    ensures no in pages ==> OnFile(file, no, pages[no])
    ensures no < |file| ==> |file[no]| == size && OnFile(file, no, file[no])
    ensures no in pages ==> no < |file| && file[no] == pages[no]
  {
  }

  // ---------------------------------------------------------------- looking for a block

  ghost predicate OnChain(k: Links, g: Lists, h: nat, j: nat, p: int) {
    h < |g.chains| && j <= |g.chains[h]| && p == At(g.chains[h], j) && (p == NIL || 0 <= p < |k.no| == |k.hNext|)
  }

  /** None of the first j blocks of the chain is that of page no. */
  ghost predicate Passed(k: Links, g: Lists, no: nat, h: nat, j: nat) {
    && h < |g.chains| && j <= |g.chains[h]|
    && forall i :: 0 <= i < j && g.chains[h][i] < |k.no| ==> k.no[g.chains[h][i]] != no
  }

  lemma ChainStart(k: Links, g: Lists, n: nat, size: nat, no: nat, h: nat)
    requires LinksOk(k, g, n, size) && h < size
    ensures h < |k.hashArray| && OnChain(k, g, h, 0, k.hashArray[h]) && Passed(k, g, no, h, 0)
  {
    Splits(k, g, n, size, h);
  }

  lemma ChainParts(next: seq<int>, prev: seq<Link>, head: int, h: nat, chain: seq<nat>, j: nat)
    requires ChainOk(next, prev, head, h, chain) && j < |chain|
    ensures chain[j] < |next| && next[chain[j]] == At(chain, j + 1) && (j + 1 < |chain| ==> chain[j + 1] < |next|)
  {
    assert ChainAt(next, prev, h, chain, j);
  }

  lemma NextOnChain(k: Links, g: Lists, n: nat, size: nat, no: nat, h: nat, j: nat, p: int)
    requires LinksOk(k, g, n, size) && h < size && OnChain(k, g, h, j, p) && Passed(k, g, no, h, j) && p != NIL
    ensures 0 <= p < |k.no| == |k.hNext| && j < |g.chains[h]|
    ensures k.no[p] != no ==> OnChain(k, g, h, j + 1, k.hNext[p]) && Passed(k, g, no, h, j + 1)
  {
    hide LinksOk, Shared, AgeOk, FreeOk, Distinct;
    Splits(k, g, n, size, h);
    ChainParts(k.hNext, k.hPrev, k.hashArray[h], h, g.chains[h], j);
    hide ChainOk;
  }

  lemma Found(k: Links, g: Lists, n: nat, size: nat, no: nat, h: nat, j: nat, p: int)
    requires LinksOk(k, g, n, size) && h < size && h == no % size && OnChain(k, g, h, j, p) && Passed(k, g, no, h, j)
    requires p != NIL ==> 0 <= p < |k.no| && k.no[p] == no
    ensures p == NIL ==> NotCached(k, g, no)
    ensures p != NIL ==>
      p < n && CachedAt(k, g, no, p) && forall q: nat :: In(q, g.lru) && q < |k.no| && k.no[q] == no ==> q == p
  {
    hide ChainOk, AgeOk, FreeOk, Distinct, In;
    Splits(k, g, n, size, h);
    if p == NIL {
      forall q: nat | In(q, g.lru) && q < |k.no|
        ensures k.no[q] != no
      {
        OnItsChain(k, g, n, size, q);
        if k.no[q] % size == h { NotPassed(k, g, no, h, j, q); }
      }
    } else {
      FoundAt(g.chains[h], j, p);
      InUse(k, g, n, size, h);
    }
  }

  lemma OnItsChain(k: Links, g: Lists, n: nat, size: nat, q: nat)
    requires Shared(k, g, n, size) && In(q, g.lru) && q < |k.no|
    ensures In(q, g.chains[k.no[q] % size])
  {
    hide In;
    assert In(q, g.chains[Code(k.no[q], size)]);
  }

  lemma NotPassed(k: Links, g: Lists, no: nat, h: nat, j: nat, q: nat)
    requires Passed(k, g, no, h, j) && j == |g.chains[h]| && In(q, g.chains[h]) && q < |k.no|
    ensures k.no[q] != no
  {
    var i :| 0 <= i < |g.chains[h]| && g.chains[h][i] == q;
  }

  lemma FoundAt(chain: seq<nat>, j: nat, p: int)
    requires j <= |chain| && p == At(chain, j) && p != NIL
    ensures p >= 0 && In(p, chain)
  {
  }

  // ---------------------------------------------------------------- the order of the pages

  /** The pages in blocks, the one used longest ago first. */
  ghost function OrderOf(no: seq<nat>, lru: seq<nat>): (o: seq<nat>)
    ensures |o| == |lru| && forall i :: 0 <= i < |o| && lru[i] < |no| ==> o[i] == no[lru[i]]
  {
    seq(|lru|, i requires 0 <= i < |lru| => if lru[i] < |no| then no[lru[i]] else 0)
  }

  /** The page has become the one used last. */
  ghost predicate Refreshed(o: seq<nat>, o': seq<nat>, no: nat) {
    exists i :: 0 <= i < |o| && o[i] == no && o' == o[..i] + o[i + 1..] + [no]
  }

  /** When all n blocks are in use, the page used longest ago makes room. */
  ghost function RoomIn(o: seq<nat>, n: nat): seq<nat> {
    if |o| == n && n > 0 then o[1..] else o
  }

  lemma OrderFrom(no: seq<nat>, lru: seq<nat>, k: nat)
    requires k <= |lru|
    ensures OrderOf(no, lru[k..]) == OrderOf(no, lru)[k..]
  {
  }

  lemma DropOne(s: seq<nat>, i: nat)
    requires i <= |s| && s[i..] != []
    ensures i < |s| && s[i..][1..] == s[i + 1..]
  {
  }

  lemma OrderMore(no: seq<nat>, lru: seq<nat>, p: nat, page: nat)
    requires p < |no| && !In(p, lru)
    ensures OrderOf(no[p := page], lru + [p]) == OrderOf(no, lru) + [page]
  {
    assert forall i :: 0 <= i < |lru| ==> lru[i] != p;
  }

  lemma OrderMoved(no: seq<nat>, lru: seq<nat>, i: nat, page: nat)
    requires i < |lru| && lru[i] < |no| && no[lru[i]] == page
    ensures Refreshed(OrderOf(no, lru), OrderOf(no, Without(lru, i) + [lru[i]]), page)
  {
    var o := OrderOf(no, lru);
    assert OrderOf(no, Without(lru, i) + [lru[i]]) == o[..i] + o[i + 1..] + [page];
  }

  lemma OrderLess(no: seq<nat>, lru: seq<nat>)
    requires lru != []
    ensures OrderOf(no, lru[..|lru| - 1]) == OrderOf(no, lru)[..|lru| - 1] && |OrderOf(no, lru)| == |lru|
  {
  }

  lemma LessOne(o: seq<nat>, no: nat)
    ensures (o + [no])[..|o + [no]| - 1] == o && o + [] == o
  {
  }

  lemma OrderLast(no: seq<nat>, lru: seq<nat>, i: nat)
    requires i < |lru| && lru[|lru| - 1] == lru[i] && Distinct(lru)
    ensures Without(lru, i) == lru[..|lru| - 1]
    ensures lru[i] < |no| ==> Refreshed(OrderOf(no, lru), OrderOf(no, lru), no[lru[i]])
  {
    assert i == |lru| - 1;
    var o := OrderOf(no, lru);
    assert lru[i] < |no| ==> o == o[..i] + o[i + 1..] + [no[lru[i]]];
  }

  lemma WithoutSize(s: seq<nat>, i: nat)
    requires i < |s|
    ensures |Without(s, i)| == |s| - 1
  {
  }

  lemma OrderHas(k: Links, g: Lists, n: nat, size: nat, no: nat)
    requires LinksOk(k, g, n, size)
    ensures NotCached(k, g, no) <==> no !in OrderOf(k.no, g.lru)
  {
    hide ChainOk, AgeOk, FreeOk;
    var o := OrderOf(k.no, g.lru);
    if !NotCached(k, g, no) {
      var p: nat :| In(p, g.lru) && p < |k.no| && k.no[p] == no;
      var i :| 0 <= i < |g.lru| && g.lru[i] == p;
      assert o[i] == no;
    }
    if no in o {
      var i :| 0 <= i < |o| && o[i] == no;
      InAt(g.lru, i);
      assert In(g.lru[i], g.lru);
    }
  }

  // ---------------------------------------------------------------- the cache

  const CHAINS := 31

  lemma NothingCached(k: Links, g: Lists, n: nat)
    requires n > 0 && |k.no| == |k.lruPrev| == |k.lruNext| == |k.hPrev| == |k.hNext| == n
    requires k.lruBack == k.lruFront == NIL && k.freeList == 0 && k.hashArray == seq(CHAINS, i => NIL)
    requires forall i :: 0 <= i < n ==> k.hNext[i] == if i + 1 < n then i + 1 else NIL
    requires g == Lists([], seq(CHAINS, i => []), seq(n, i requires 0 <= i < n => i))
    ensures LinksOk(k, g, n, CHAINS)
  {
    forall p: nat | p < n
      ensures In(p, g.free)
    {
      assert g.free[p] == p;
    }
  }

  lemma NothingHeld(k: Links, g: Lists, dirty: seq<bool>, data: seq<Page>, f: File<int>, size: nat, zero: Page)
    requires g.lru == [] && FileOk(f, size) && |dirty| == |data| == |k.no|
    ensures var pages := map no: nat | no < |f| :: f[no];
      Holds(k, g, dirty, data, f, pages, size, -1) && Covered(f, pages, zero) && Dense(pages)
  {
  }

  class PageCache {
    const blockSize: nat
    const hashSize: nat
    const blocks: nat
    // The links of the blocks, and of each block whether it must be written and its page.
    var links: Links
    var dirty: seq<bool>
    var data: seq<Page>
    var file: File<int>
    var hits: int
    var misses: int
    ghost var lists: Lists
    // The pages as those who use the cache see them.
    ghost var pages: Store

    /** An empty cache of n blocks for a file, whose blocks are the pages. */
    constructor (f: File<int>, size: nat, n: nat)
      requires n > 0 && FileOk(f, size)
      ensures Valid() && file == f && blockSize == size && lists.lru == [] && hits == misses == 0
      ensures pages == (map no: nat | no < |f| :: f[no]) && Dense(pages)
    {
      hide LinksOk, Holds, Covered, Dense, FileOk, PageCache.Ok, PageCache.Valid;
      var next := [];
      var i := 0;
      while i < n - 1
        invariant 0 <= i <= n - 1 && |next| == i && forall k :: 0 <= k < i ==> next[k] == k + 1
      {
        next := next + [i + 1];
        i := i + 1;
      }
      next := next + [NIL];
      blockSize, hashSize, blocks := size, CHAINS, n;
      links := Links(seq(n, i => 0), seq(n, i => NIL), seq(n, i => NIL), NIL, NIL, next, seq(n, i => Head(0)),
                     seq(CHAINS, i => NIL), 0);
      dirty, data, file, hits, misses := seq(n, i => false), seq(n, i => seq(size, j => 0)), f, 0, 0;
      lists := Lists([], seq(CHAINS, i => []), seq(n, i requires 0 <= i < n => i));
      pages := map no: nat | no < |f| :: f[no];
      new;
      NothingCached(links, lists, n);
      NothingHeld(links, lists, dirty, data, f, size, ZeroPage());
      OkAgain(-1);
      ValidIs();
    }

    /** All is well but for the contents of the block except. */
    ghost predicate Ok(except: int)
      reads this`links, this`lists, this`dirty, this`data, this`file, this`pages
    {
      && blocks > 0 && LinksOk(links, lists, blocks, hashSize)
      && Holds(links, lists, dirty, data, file, pages, blockSize, except) && Covered(file, pages, ZeroPage())
      && |lists.lru| + |lists.free| == blocks
    }

    /** The pages in blocks, the one used longest ago first. */
    ghost function Order(): seq<nat>
      reads this`links, this`lists
    {
      OrderOf(links.no, lists.lru)
    }

    lemma OrderIs()
      ensures Order() == OrderOf(links.no, lists.lru)
    {
    }

    lemma RoomIs(o: seq<nat>)
      ensures |o| == blocks > 0 ==> RoomIn(o, blocks) == o[1..]
      ensures |o| < blocks ==> RoomIn(o, blocks) == o
    {
    }

    ghost predicate Valid()
      reads this`links, this`lists, this`dirty, this`data, this`file, this`pages
    {
      Ok(-1)
    }

    lemma OkParts(except: int)
      requires Ok(except)
      ensures blocks > 0 && LinksOk(links, lists, blocks, hashSize) && |dirty| == |data| == |links.no| == blocks
      ensures hashSize > 0
      ensures Holds(links, lists, dirty, data, file, pages, blockSize, except) && FileOk(file, blockSize)
      ensures Covered(file, pages, ZeroPage()) && |lists.lru| + |lists.free| == blocks
      ensures |links.hashArray| == |lists.chains| == hashSize && Distinct(lists.lru)
      ensures links.lruBack == NIL <==> lists.lru == []
      ensures lists.lru != [] ==> links.lruBack == lists.lru[0] && In(lists.lru[0], lists.lru)
      ensures links.freeList == NIL <==> lists.free == []
      ensures lists.lru == [] ==> lists.free != []
    {
      FrontIn(links.lruPrev, links.lruNext, links.lruBack, links.lruFront, lists.lru);
      assert 0 < blocks ==> In(0, lists.lru) || In(0, lists.free);
    }

    lemma OkAgain(except: int)
      requires blocks > 0 && LinksOk(links, lists, blocks, hashSize)
      requires Holds(links, lists, dirty, data, file, pages, blockSize, except) && Covered(file, pages, ZeroPage())
      requires |lists.lru| + |lists.free| == blocks
      ensures Ok(except)
    {
    }

    lemma ValidIs()
      ensures Valid() <==> Ok(-1)
    {
    }

    function ZeroPage(): (z: Page)
      ensures |z| == blockSize
    {
      seq(blockSize, i => 0)
    }

    /** The block of page no, or NIL. */
    method FindBlock(no: nat) returns (p: int)
      requires Ok(-1)
      ensures p == NIL ==> NotCached(links, lists, no)
      ensures p != NIL ==> 0 <= p < blocks && CachedAt(links, lists, no, p)
      ensures p != NIL ==> forall q: nat :: In(q, lists.lru) && q < |links.no| && links.no[q] == no ==> q == p
    {
      hide *;
      NilIs();
      OkParts(-1);
      var h := no % hashSize;
      ghost var j := 0;
      ChainStart(links, lists, blocks, hashSize, no, h);
      p := links.hashArray[h];
      while p != NIL
        invariant 0 <= j && OnChain(links, lists, h, j, p) && Passed(links, lists, no, h, j)
        decreases |lists.chains[h]| - j
      {
        NextOnChain(links, lists, blocks, hashSize, no, h, j, p);
        if links.no[p] == no {
          break;
        }
        p := links.hNext[p];
        j := j + 1;
      }
      Found(links, lists, blocks, hashSize, no, h, j, p);
    }

    /** Takes a block out of the lists and puts it at the head of the free list. */
    method Detach(p: nat)
      requires Linked(links, p)
      modifies this`links
      ensures links == Released(old(links), p)
    {
      hide *;
      NilIs();
      ReleasedIs(links, p);
      var prev, next, hprev, hnext := LinksOf(p);
      if prev != NIL {
        links := links.(lruNext := links.lruNext[prev := next]);
      } else {
        links := links.(lruBack := next);
      }
      if next != NIL {
        links := links.(lruPrev := links.lruPrev[next := prev]);
      } else {
        links := links.(lruFront := prev);
      }
      match hprev {
        case Head(c) => links := links.(hashArray := links.hashArray[c := hnext]);
        case After(q) => links := links.(hNext := links.hNext[q := hnext]);
      }
      if hnext != NIL {
        links := links.(hPrev := links.hPrev[hnext := hprev]);
      }
      links := links.(hNext := links.hNext[p := links.freeList]);
      links := links.(freeList := p);
    }

    /** Takes a block that holds its page no longer, or not yet, out of use. */
    method ReleaseBlock(p: nat)
      requires Ok(p) && In(p, lists.lru)
      modifies this`links, this`lists
      ensures Ok(-1) && lists.free == [p] + old(lists.free) && links.no == old(links.no)
      ensures old(lists.lru)[0] == p ==> lists.lru == old(lists.lru)[1..]
      ensures Newest(old(lists), p) ==> lists.lru == old(lists.lru)[..|old(lists.lru)| - 1]
    {
      hide *;
      NilIs();
      OkParts(p);
      ghost var k := links;
      ghost var i, h, j := Place(links, lists, blocks, hashSize, p);
      Detach(p);
      ReleasedIs(k, p);
      ReleaseOk(k, lists, blocks, hashSize, i, h, j);
      HoldsReleased(k, lists, dirty, data, file, pages, blockSize, i, h, j);
      ReleasedListsIs(lists, i, h, j);
      NewestIs(lists, p);
      if Newest(lists, p) { OrderLast(links.no, lists.lru, i); }
      lists := ReleasedLists(lists, i, h, j);
      OkAgain(-1);
    }

    /** The links of block p. */
    method LinksOf(p: nat) returns (prev: int, next: int, hprev: Link, hnext: int)
      requires Linked(links, p)
      ensures p < |links.no| == |links.lruPrev| == |links.lruNext| == |links.hNext| == |links.hPrev|
      ensures prev == links.lruPrev[p] && next == links.lruNext[p] && hprev == links.hPrev[p] && hnext == links.hNext[p]
      ensures -1 <= prev < |links.no| && -1 <= next < |links.no| && -1 <= hnext < |links.no|
      ensures if hprev.Head? then hprev.h < |links.hashArray| else hprev.p < |links.no|
    {
      prev, next, hprev, hnext := links.lruPrev[p], links.lruNext[p], links.hPrev[p], links.hNext[p];
    }

    /** Writes the page of the oldest block back if it is dirty, and releases the block. */
    method FlushOldest()
      requires Valid() && lists.lru != []
      modifies this`links, this`lists, this`file
      ensures Valid() && lists.lru == old(lists.lru)[1..] && lists.free == [old(lists.lru)[0]] + old(lists.free)
      ensures links.no == old(links.no)
    {
      hide *;
      NilIs();
      ValidIs();
      OkParts(-1);
      var p := links.lruBack;
      ghost var i, h, j := Place(links, lists, blocks, hashSize, p);
      OnePage(links, lists, blocks, hashSize, p);
      HoldsWritten(links, lists, dirty, data, file, pages, blockSize, p, ZeroPage());
      CoveredWritten(file, pages, ZeroPage(), links.no[p], data[p]);
      if dirty[p] {
        file := WriteAt(file, links.no[p], 0, data[p], ZeroPage());
      }
      OkAgain(p);
      ReleaseBlock(p);
      ValidIs();
    }

    /** Writes back and releases the oldest blocks: as many as asked for, or all when the number
        is negative. */
    method FlushBlocks(noToFlush: int)
      requires Valid()
      modifies this`links, this`lists, this`file
      ensures Valid() && links.no == old(links.no)
      ensures var all := |old(lists.lru)|;
        var k := if 0 <= noToFlush < all then noToFlush else all;
        && lists.lru == old(lists.lru)[k..] && Order() == old(Order())[k..]
        && |lists.free| == |old(lists.free)| + k
    {
      hide *;
      NilIs();
      ValidIs();
      OkParts(-1);
      OrderIs();
      ghost var lru, free := lists.lru, |lists.free|;
      var i := 0;
      while i != noToFlush && links.lruBack != NIL
        invariant Valid() && 0 <= i && (noToFlush >= 0 ==> i <= noToFlush)
        invariant (links.lruBack == NIL <==> lists.lru == [])
        invariant links.no == old(links.no) && i <= |lru| && lists.lru == lru[i..] && |lists.free| == free + i
        decreases |lru| - i
      {
        DropOne(lru, i);
        FlushOldest();
        ValidIs();
        OkParts(-1);
        i := i + 1;
      }
      OrderFrom(links.no, lru, i);
      OrderIs();
    }

    /** Takes the first free block for page no and puts it into the lists. */
    method Attach(no: nat) returns (p: nat)
      requires CanAllocate(links, no)
      modifies this`links
      ensures p == old(links).freeList && links == Allocated(old(links), no)
    {
      hide *;
      NilIs();
      TakeParts(links, no);
      AllocatedIs(links, no);
      var h, front := no % |links.hashArray|, links.lruFront;
      var head := links.hashArray[h];
      p := links.freeList;
      links := links.(freeList := links.hNext[p]);
      links := links.(no := links.no[p := no]);
      links := links.(lruNext := links.lruNext[p := NIL], lruPrev := links.lruPrev[p := front]);
      if front != NIL {
        links := links.(lruNext := links.lruNext[front := p]);
      } else {
        links := links.(lruBack := p);
      }
      links := links.(lruFront := p);
      links := links.(hNext := links.hNext[p := head], hPrev := links.hPrev[p := Head(h)]);
      if head != NIL {
        links := links.(hPrev := links.hPrev[head := After(p)]);
      }
      links := links.(hashArray := links.hashArray[h := p]);
    }

    /** Takes a block for page no, which has none. The oldest block makes room when none is free. */
    method AllocBlock(no: nat) returns (p: nat)
      requires Valid() && NotCached(links, lists, no)
      modifies this`links, this`lists, this`file, this`dirty
      ensures Ok(p) && p < blocks && CachedAt(links, lists, no, p) && p < |dirty| && !dirty[p] && Newest(lists, p)
      ensures Order() == RoomIn(old(Order()), blocks) + [no]
      ensures forall q: nat :: In(q, lists.lru) && q < |links.no| && links.no[q] == no ==> q == p
    {
      hide *;
      NilIs();
      ValidIs();
      OkParts(-1);
      ghost var k0, g0, o0 := links, lists, Order();
      OrderIs();
      RoomIs(o0);
      if links.freeList == NIL {
        FlushBlocks(1);
        ValidIs();
        OkParts(-1);
        StillNotCached(k0, g0, links, lists, no);
      }
      OrderIs();
      assert Order() == RoomIn(o0, blocks);
      CanTake(links, lists, blocks, hashSize, no);
      OrderMore(links.no, lists.lru, lists.free[0], no);
      AllocatedNo(links, lists, no, no % hashSize);
      AllocateOk(links, lists, blocks, hashSize, no);
      HoldsAllocated(links, lists, dirty, data, file, pages, blockSize, no, no % hashSize);
      p := Attach(no);
      dirty := dirty[p := false];
      AllocatedNewest(lists, no % hashSize);
      lists := AllocatedLists(lists, no % hashSize);
      OrderIs();
      OkAgain(p);
      OnePage(links, lists, blocks, hashSize, p);
      CachedIs(links, lists, no, p);
    }

    /** Makes block p, which is in use, the newest. */
    method MoveToFront(p: nat)
      requires Valid() && In(p, lists.lru)
      modifies this`links, this`lists
      ensures Valid() && links.no == old(links.no) && Newest(lists, p)
      ensures forall q: nat :: In(q, lists.lru) <==> In(q, old(lists.lru))
      ensures p < |links.no| && Refreshed(old(Order()), Order(), links.no[p])
    {
      hide *;
      NilIs();
      ValidIs();
      OkParts(-1);
      OrderIs();
      ghost var i, h, j := Place(links, lists, blocks, hashSize, p);
      ghost var k := links;
      OrderMoved(links.no, lists.lru, i, links.no[p]);
      var prev, next, hprev, hnext := LinksOf(p);
      if next == NIL {
        LastIsNewest(links, lists, blocks, hashSize, i);
        NewestIs(lists, p);
        OrderLast(links.no, lists.lru, i);
        return;
      }
      MoveOk(links, lists, blocks, hashSize, i);
      MovedIs(k, p);
      if prev != NIL {
        links := links.(lruNext := links.lruNext[prev := next]);
      } else {
        links := links.(lruBack := next);
      }
      links := links.(lruPrev := links.lruPrev[next := prev]);
      var front := links.lruFront;
      links := links.(lruNext := links.lruNext[p := NIL], lruPrev := links.lruPrev[p := front]);
      if front != NIL {
        links := links.(lruNext := links.lruNext[front := p]);
      } else {
        links := links.(lruBack := p);
      }
      links := links.(lruFront := p);
      assert links == Moved(k, p);
      MovedNewest(lists, i);
      ghost var g := lists;
      lists := lists.(lru := Without(lists.lru, i) + [p]);
      WithoutSize(g.lru, i);
      HoldsMoved(k, g, dirty, data, file, pages, blockSize, links, lists);
      OkAgain(-1);
      ValidIs();
      OrderIs();
    }

    /** The page with the given number, if there is one. */
    method ReadP(no: nat) returns (r: Option<Page>)
      requires Valid()
      modifies this`links, this`lists, this`file, this`dirty, this`data, this`hits, this`misses, this`pages
      ensures Valid() && (no in old(pages) ==> r == Some(old(pages)[no]))
      ensures no !in old(pages) ==> r == None || r == Some(ZeroPage())
      ensures Dense(old(pages)) && no !in old(pages) ==> r == None
      ensures pages == if r.Some? then old(pages)[no := r.value] else old(pages)
      ensures var o := old(Order());
        && (no in o ==> Refreshed(o, Order(), no) && hits == old(hits) + 1 && misses == old(misses))
        && (no !in o ==> Order() == RoomIn(o, blocks) + (if r.Some? then [no] else []))
        && (no !in o ==> misses == old(misses) + 1 && hits == old(hits))
    {
      hide *;
      NilIs();
      ValidIs();
      OkParts(-1);
      OrderIs();
      OrderHas(links, lists, blocks, hashSize, no);
      var p := FindBlock(no);
      if p != NIL {
        CachedIs(links, lists, no, p);
        HasBlock(links, lists, no, p);
        PageIs(links, lists, dirty, data, file, pages, blockSize, no, p);
        MoveToFront(p);
        hits := hits + 1;
        return Some(data[p]);
      }
      misses := misses + 1;
      p := AllocBlock(no);
      r := Load(no, p);
      LessOne(RoomIn(old(Order()), blocks), no);
    }

    /** Reads page no into the block taken for it; the block is released when there is no such page. */
    method Load(no: nat, p: nat) returns (r: Option<Page>)
      requires Ok(p) && CachedAt(links, lists, no, p) && p < |dirty| && !dirty[p] && Newest(lists, p)
      requires forall q: nat :: In(q, lists.lru) && q < |links.no| && links.no[q] == no ==> q == p
      modifies this`links, this`lists, this`data, this`pages
      ensures Valid() && (no in old(pages) ==> r == Some(old(pages)[no]))
      ensures no !in old(pages) ==> r == None || r == Some(ZeroPage())
      ensures Dense(old(pages)) && no !in old(pages) ==> r == None
      ensures pages == if r.Some? then old(pages)[no := r.value] else old(pages)
      ensures old(Order()) != []
      ensures Order() == if r.Some? then old(Order()) else old(Order())[..|old(Order())| - 1]
    {
      hide *;
      NilIs();
      OrderIs();
      NewestIs(lists, p);
      OrderLess(links.no, lists.lru);
      OkParts(p);
      FileIs(links, lists, dirty, data, file, pages, blockSize, no, p);
      if no !in pages { CoveredIs(file, pages, ZeroPage(), no); }
      CachedIs(links, lists, no, p);
      if no < |file| {
        HoldsFilled(links, lists, dirty, data, file, pages, blockSize, no, p, file[no], p);
        CoveredMore(file, pages, ZeroPage(), no, file[no]);
        data := data[p := file[no]];
        pages := pages[no := file[no]];
        OkAgain(-1);
        ValidIs();
        OrderIs();
        return Some(data[p]);
      }
      ReleaseBlock(p);
      ValidIs();
      OrderIs();
      r := None;
    }

    /** Makes page no anew: it holds zeros. */
    method NewP(no: nat)
      requires Valid()
      modifies this`links, this`lists, this`file, this`dirty, this`data, this`pages
      ensures Valid() && pages == old(pages)[no := ZeroPage()]
      ensures var o := old(Order()); if no in o then Refreshed(o, Order(), no) else Order() == RoomIn(o, blocks) + [no]
    {
      hide *;
      NilIs();
      ValidIs();
      OkParts(-1);
      ZeroSize();
      OrderIs();
      OrderHas(links, lists, blocks, hashSize, no);
      var p := FindBlock(no);
      ghost var except := -1;
      if p == NIL {
        p := AllocBlock(no);
        except := p;
      } else {
        CachedIs(links, lists, no, p);
        HasBlock(links, lists, no, p);
        MoveToFront(p);
        ValidIs();
        CachedIs(links, lists, no, p);
      }
      OkParts(except);
      OneMarked(links, lists, blocks, hashSize, no, p, dirty);
      HoldsMarked(links, lists, dirty, data, file, pages, blockSize, p, except);
      dirty := dirty[p := true];
      HoldsFilled(links, lists, dirty, data, file, pages, blockSize, no, p, ZeroPage(), except);
      CoveredMore(file, pages, ZeroPage(), no, ZeroPage());
      data := data[p := ZeroPage()];
      pages := pages[no := ZeroPage()];
      OkAgain(-1);
      ValidIs();
      OrderIs();
    }

    /** Marks the block of page no, if it has one, to be written. */
    method Touch(no: nat) returns (r: int)
      requires Valid()
      modifies this`dirty
      ensures Valid() && (r == 0 || r == -1) && (r == -1 <==> NotCached(links, lists, no))
      ensures r == 0 ==> exists p: nat :: CachedAt(links, lists, no, p) && p < |dirty| && dirty[p]
      ensures r == 0 ==> |dirty| == |old(dirty)|
    {
      hide *;
      NilIs();
      ValidIs();
      OkParts(-1);
      var p := FindBlock(no);
      if p == NIL {
        return -1;
      }
      CachedIs(links, lists, no, p);
      HasBlock(links, lists, no, p);
      HoldsMarked(links, lists, dirty, data, file, pages, blockSize, p, -1);
      dirty := dirty[p := true];
      OkAgain(-1);
      ValidIs();
      assert CachedAt(links, lists, no, p) && p < |dirty| && dirty[p];
      r := 0;
    }

    /** What those who use the cache do with the block of a page they have just read: they change
        it and then touch it. */
    method Change(no: nat, page: Page)
      requires Valid() && !NotCached(links, lists, no) && |page| == blockSize
      modifies this`dirty, this`data, this`pages
      ensures Valid() && pages == old(pages)[no := page]
    {
      hide *;
      NilIs();
      ValidIs();
      OkParts(-1);
      var p := FindBlock(no);
      OneMarked(links, lists, blocks, hashSize, no, p, dirty);
      HoldsMarked(links, lists, dirty, data, file, pages, blockSize, p, -1);
      HoldsFilled(links, lists, dirty[p := true], data, file, pages, blockSize, no, p, page, -1);
      CoveredMore(file, pages, ZeroPage(), no, page);
      data := data[p := page];
      dirty := dirty[p := true];
      pages := pages[no := page];
      OkAgain(-1);
      ValidIs();
    }

    /** Writes everything back: the file then holds the pages. */
    method FlushAll()
      requires Valid()
      modifies this`links, this`lists, this`file
      ensures Valid() && lists.lru == [] && forall no :: no in pages ==> OnFile(file, no, pages[no])
    {
      hide *;
      FlushBlocks(-1);
      ValidIs();
      OkParts(-1);
      AllOnFile(links, lists, dirty, data, file, pages, blockSize);
    }

    lemma ZeroSize()
      ensures |ZeroPage()| == blockSize
    {
    }
  }

  lemma OneMarked(k: Links, g: Lists, n: nat, size: nat, no: nat, p: nat, dirty: seq<bool>)
    requires LinksOk(k, g, n, size) && CachedAt(k, g, no, p) && |dirty| == n
    ensures p < |dirty| && dirty[p := true][p]
    ensures forall q: nat :: In(q, g.lru) && q < |k.no| && k.no[q] == no ==> q == p
  {
  }

  lemma HasBlock(k: Links, g: Lists, no: nat, p: nat)
    requires CachedAt(k, g, no, p)
    ensures !NotCached(k, g, no)
  {
  }

  lemma AllOnFile(k: Links, g: Lists, dirty: seq<bool>, data: seq<Page>, file: File<int>, pages: Store, size: nat)
    requires Holds(k, g, dirty, data, file, pages, size, -1) && g.lru == []
    ensures forall no :: no in pages ==> OnFile(file, no, pages[no])
  {
  }
}
