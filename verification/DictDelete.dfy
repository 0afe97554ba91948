/** Deletion from the paged dictionary: one key, or all keys with a prefix. Pages that become
  empty, and pages of deleted subtrees, go to the freelist. */
module DictDelete {
  import opened DictPage
  import opened DictTrie
  import opened DictStore
  import opened DictCapacity
  import opened DictEdit
  import opened DictHeard
  import opened Sequences

  // ---------------------------------------------------------------- releasing pages

  lemma PushFree(pages: Pages, path: Paths, last: nat, freelist: nat, free: seq<nat>, ptr: nat, p: Page)
    requires Conserved(pages, path, last, freelist, free) && ptr in path && p.backptr == freelist
    ensures Conserved(pages[ptr := p], path - {ptr}, last, ptr, [ptr] + free)
  {
    var pages', free' := pages[ptr := p], [ptr] + free;
    HeadIn(free);
    forall i | 0 <= i < |free'|
      ensures free'[i] in pages' && pages'[free'[i]].backptr == NextFree(free', i)
    {
      if i > 0 {
        assert free[i - 1] in free;
        assert pages[free[i - 1]].backptr == NextFree(free, i - 1);
      }
    }
    forall q: nat
      ensures 1 <= q < last <==> q in path - {ptr} || q in free'
    {
      assert q in free' <==> q == ptr || q in free;
    }
    forall i | 0 <= i < |free|
      ensures free[i] != ptr
    {
      assert free[i] in free;
    }
  }

  /** Puts a live page on the freelist; its entries stay in its bytes. */
  method Release(d: Dict, ptr: nat)
    requires ptr in d.path && ptr in d.pages
    requires Conserved(d.pages, d.path, d.last, d.freelist, d.free)
    modifies d`pages, d`freelist, d`path, d`free
    ensures Conserved(d.pages, d.path, d.last, d.freelist, d.free)
    ensures d.path == old(d.path) - {ptr}
    ensures d.pages == old(d.pages)[ptr := old(d.pages)[ptr].(backptr := old(d.freelist))]
  {
    PushFree(d.pages, d.path, d.last, d.freelist, d.free, ptr, d.pages[ptr].(backptr := d.freelist));
    d.pages := d.pages[ptr := d.pages[ptr].(backptr := d.freelist)];
    d.freelist := ptr;
    d.path := d.path - {ptr};
    d.free := [ptr] + d.free;
  }

  // ---------------------------------------------------------------- whole subtrees

  /** The live pages outside the subtree at path x. */
  ghost function Outside(path: Paths, x: Key): Paths {
    map q | q in path && !(x <= path[q]) :: path[q]
  }

  /** The subtree at path x is whole: its entries lead to its live pages, and each of them
      but the topmost hangs from another. */
  ghost predicate SubtreeOk(pages: Pages, path: Paths, x: Key, maxKey: nat) {
    && (forall q :: q in path && x <= path[q] ==> q in pages && q != 0 && SubsOk(pages[q].slots, path, path[q]))
    && (forall q :: q in path && x <= path[q] ==> PtrsDistinct(pages[q].slots) && |path[q]| <= maxKey)
    && (forall q :: q in path && x < path[q] ==> exists r :: Parent(pages, path, r, q))
    && (forall q, r :: q in path && r in path && path[q] == path[r] ==> q == r)
  }

  ghost predicate PtrsDistinct(slots: seq<Entry>) {
    forall i, j :: 0 <= i < j < |slots| && slots[i].Ptr? && slots[j].Ptr? ==> slots[i].ch != slots[j].ch
  }

  /** The path y passes the subpage of entry i at depth n. */
  ghost predicate Over(slots: seq<Entry>, i: int, y: Key, n: nat) {
    0 <= i < |slots| && n < |y| && slots[i].Ptr? && slots[i].sub != 0 && slots[i].ch == y[n]
  }

  /** Every live page strictly below ptr is below one of its entries. */
  lemma {:induction false} CoverBelow(pages: Pages, path: Paths, maxKey: nat, ptr: nat, q: nat)
    requires ptr in path && q in path && path[ptr] < path[q] && SubtreeOk(pages, path, path[ptr], maxKey)
    ensures exists i :: Over(pages[ptr].slots, i, path[q], |path[ptr]|)
    decreases |path[q]|
  {
    var x := path[ptr];
    var r :| Parent(pages, path, r, q);
    var y := path[q][..|path[q]| - 1];
    if y == x {
      var i :| && 0 <= i < |pages[r].slots| && pages[r].slots[i].Ptr?
               && pages[r].slots[i].ch == path[q][|x|] && pages[r].slots[i].sub == q;
      assert Over(pages[ptr].slots, i, path[q], |x|);
    } else {
      assert x < y;
      CoverBelow(pages, path, maxKey, ptr, r);
      var i :| Over(pages[ptr].slots, i, y, |x|);
      assert Over(pages[ptr].slots, i, path[q], |x|);
    }
  }

  /** The state of deleting the subtree at x after the subtrees of the first n entries of its
      page are gone. */
  ghost predicate Peeled(pages0: Pages, path0: Paths, pages: Pages, path: Paths, slots: seq<Entry>, x: Key, n: nat) {
    && (forall q :: q in path ==>
        q in path0 && path[q] == path0[q] && q in pages0 && q in pages && pages[q] == pages0[q])
    && (forall q :: q in path0 && !(x < path0[q]) ==> q in path)
    && (forall q :: q in path0 && x < path0[q] ==>
        (q in path <==> forall j :: 0 <= j < n ==> !Over(slots, j, path0[q], |x|)))
  }

  lemma PeelReady(pages0: Pages, path0: Paths, pages: Pages, path: Paths, ptr: nat, n: nat, maxKey: nat)
    requires ptr in path0 && ptr in pages0 && SubtreeOk(pages0, path0, path0[ptr], maxKey)
    requires forall q :: q in path0 ==> q in pages0
    requires n < |pages0[ptr].slots| && pages0[ptr].slots[n].Ptr? && pages0[ptr].slots[n].sub != 0
    requires Peeled(pages0, path0, pages, path, pages0[ptr].slots, path0[ptr], n)
    ensures var e := pages0[ptr].slots[n];
      && e.sub in path && path[e.sub] == path0[ptr] + [e.ch] && |path[e.sub]| <= maxKey
      && SubtreeOk(pages, path, path[e.sub], maxKey)
  {
    var s, x, e := pages0[ptr].slots, path0[ptr], pages0[ptr].slots[n];
    var y := x + [e.ch];
    SubtreeEntry(pages0, path0, ptr, n, maxKey);
    hide SubsOk, PtrsDistinct, Peeled, SubtreeOk;
    forall q | q in path0 && y <= path0[q]
      ensures q in path
    {
      PeelKeeps(pages0, path0, pages, path, s, x, n, q);
    }
    PeelSame(pages0, path0, pages, path, s, x, n);
    SubtreeBelow(pages0, path0, pages, path, x, y, maxKey);
  }

  lemma SubtreeEntry(pages: Pages, path: Paths, ptr: nat, n: nat, maxKey: nat)
    requires ptr in path && ptr in pages && SubtreeOk(pages, path, path[ptr], maxKey)
    requires n < |pages[ptr].slots| && pages[ptr].slots[n].Ptr? && pages[ptr].slots[n].sub != 0
    ensures var e := pages[ptr].slots[n];
      && e.sub in path && path[e.sub] == path[ptr] + [e.ch] && |path[e.sub]| <= maxKey && PtrsDistinct(pages[ptr].slots)
  {
    var e := pages[ptr].slots[n];
    assert SubsOk(pages[ptr].slots, path, path[ptr]);
    assert path[ptr] <= path[e.sub];
  }

  ghost predicate Thinned(pages0: Pages, path0: Paths, pages: Pages, path: Paths) {
    forall q :: q in path ==> q in path0 && path[q] == path0[q] && q in pages0 && q in pages && pages[q] == pages0[q]
  }

  lemma SubtreeParent(pages0: Pages, path0: Paths, pages: Pages, path: Paths, x: Key, y: Key, maxKey: nat, q: nat)
    requires SubtreeOk(pages0, path0, x, maxKey) && x < y && Thinned(pages0, path0, pages, path)
    requires forall q :: q in path0 && y <= path0[q] ==> q in path
    requires q in path && y < path[q]
    ensures exists r :: Parent(pages, path, r, q)
  {
    hide SubsOk, PtrsDistinct;
    assert x < path0[q];
    var r :| Parent(pages0, path0, r, q);
    assert y <= path0[r];
    assert Parent(pages, path, r, q);
  }

  lemma SubtreePageOk(pages0: Pages, path0: Paths, pages: Pages, path: Paths, x: Key, y: Key, maxKey: nat, q: nat)
    requires SubtreeOk(pages0, path0, x, maxKey) && x < y && Thinned(pages0, path0, pages, path)
    requires forall q :: q in path0 && y <= path0[q] ==> q in path
    requires q in path && y <= path[q]
    ensures q in pages && q != 0 && SubsOk(pages[q].slots, path, path[q]) && PtrsDistinct(pages[q].slots)
    ensures |path[q]| <= maxKey
  {
    hide SubsOk, PtrsDistinct;
    assert x <= path0[q];
    PeelSubs(path0, path, pages[q].slots, path[q], y);
  }

  /** A subtree stays whole while pages outside it are taken away. */
  lemma SubtreeBelow(pages0: Pages, path0: Paths, pages: Pages, path: Paths, x: Key, y: Key, maxKey: nat)
    requires SubtreeOk(pages0, path0, x, maxKey) && x < y && Thinned(pages0, path0, pages, path)
    requires forall q :: q in path0 && y <= path0[q] ==> q in path
    ensures SubtreeOk(pages, path, y, maxKey)
  {
    hide SubsOk, PtrsDistinct, Parent;
    forall q | q in path && y <= path[q]
      ensures q in pages && q != 0 && SubsOk(pages[q].slots, path, path[q]) && PtrsDistinct(pages[q].slots)
      ensures |path[q]| <= maxKey
    {
      SubtreePageOk(pages0, path0, pages, path, x, y, maxKey, q);
    }
    forall q | q in path && y < path[q]
      ensures exists r :: Parent(pages, path, r, q)
    {
      SubtreeParent(pages0, path0, pages, path, x, y, maxKey, q);
    }
  }

  lemma PeelKeeps(pages0: Pages, path0: Paths, pages: Pages, path: Paths, s: seq<Entry>, x: Key, n: nat, q: nat)
    requires Peeled(pages0, path0, pages, path, s, x, n) && n < |s| && s[n].Ptr? && PtrsDistinct(s)
    requires q in path0 && x + [s[n].ch] <= path0[q]
    ensures q in path
  {
    assert path0[q][|x|] == s[n].ch && x < path0[q];
  }

  lemma PeelSame(pages0: Pages, path0: Paths, pages: Pages, path: Paths, s: seq<Entry>, x: Key, n: nat)
    requires Peeled(pages0, path0, pages, path, s, x, n)
    ensures forall q :: q in path ==>
      q in path0 && path[q] == path0[q] && q in pages0 && q in pages && pages[q] == pages0[q]
  {
  }

  lemma PeelSubs(path0: Paths, path: Paths, slots: seq<Entry>, z: Key, y: Key)
    requires SubsOk(slots, path0, z) && y <= z
    requires forall q :: q in path0 && y <= path0[q] ==> q in path
    requires forall q :: q in path ==> q in path0 && path[q] == path0[q]
    ensures SubsOk(slots, path, z)
  {
    forall i | 0 <= i < |slots| && slots[i].Ptr? && slots[i].sub != 0
      ensures slots[i].sub in path
    {
      assert y <= z + [slots[i].ch];
    }
  }

  lemma PeelStep(pages0: Pages, path0: Paths, pages1: Pages, path1: Paths, pages2: Pages, path2: Paths,
                 slots: seq<Entry>, x: Key, n: nat)
    requires Peeled(pages0, path0, pages1, path1, slots, x, n) && n < |slots| && slots[n].Ptr? && slots[n].sub != 0
    requires path2 == Outside(path1, x + [slots[n].ch])
    requires forall q :: q in path2 && q in pages1 ==> q in pages2 && pages2[q] == pages1[q]
    ensures Peeled(pages0, path0, pages2, path2, slots, x, n + 1)
  {
    var y := x + [slots[n].ch];
    assert !(y <= x);
    forall q | q in path0
      ensures y <= path0[q] <==> (x < path0[q] && Over(slots, n, path0[q], |x|))
    {
      if x < path0[q] && path0[q][|x|] == slots[n].ch {
        assert path0[q][..|x| + 1] == y;
      }
    }
  }

  lemma PeelSkip(pages0: Pages, path0: Paths, pages: Pages, path: Paths, slots: seq<Entry>, x: Key, n: nat)
    requires Peeled(pages0, path0, pages, path, slots, x, n) && n < |slots|
    requires slots[n].Tail? || slots[n].sub == 0
    ensures Peeled(pages0, path0, pages, path, slots, x, n + 1)
  {
    forall q | q in path0
      ensures !Over(slots, n, path0[q], |x|)
    {
    }
  }

  lemma PeelDone(pages0: Pages, path0: Paths, pages: Pages, path: Paths, ptr: nat, maxKey: nat)
    requires ptr in path0 && ptr in pages0 && SubtreeOk(pages0, path0, path0[ptr], maxKey)
    requires Peeled(pages0, path0, pages, path, pages0[ptr].slots, path0[ptr], |pages0[ptr].slots|)
    ensures path - {ptr} == Outside(path0, path0[ptr])
  {
    var x, s := path0[ptr], pages0[ptr].slots;
    hide SubtreeOk;
    forall q | q in path0
      ensures q in path - {ptr} <==> !(x <= path0[q])
    {
      PeelOutside(pages0, path0, pages, path, ptr, maxKey, q);
    }
    assert forall q :: q in path - {ptr} ==> q in path0;
  }

  lemma PeelOutside(pages0: Pages, path0: Paths, pages: Pages, path: Paths, ptr: nat, maxKey: nat, q: nat)
    requires ptr in path0 && ptr in pages0 && SubtreeOk(pages0, path0, path0[ptr], maxKey) && q in path0
    requires Peeled(pages0, path0, pages, path, pages0[ptr].slots, path0[ptr], |pages0[ptr].slots|)
    ensures q in path - {ptr} <==> !(path0[ptr] <= path0[q])
  {
    var x := path0[ptr];
    if x < path0[q] { PeelGone(pages0, path0, pages, path, ptr, maxKey, q); }
    else if x <= path0[q] { OnlyHere(pages0, path0, ptr, maxKey, q); }
    hide SubtreeOk;
  }

  lemma OnlyHere(pages0: Pages, path0: Paths, ptr: nat, maxKey: nat, q: nat)
    requires ptr in path0 && q in path0 && SubtreeOk(pages0, path0, path0[ptr], maxKey)
    requires path0[ptr] <= path0[q] && !(path0[ptr] < path0[q])
    ensures q == ptr
  {
    assert path0[q] == path0[ptr];
  }

  lemma PeelGone(pages0: Pages, path0: Paths, pages: Pages, path: Paths, ptr: nat, maxKey: nat, q: nat)
    requires ptr in path0 && ptr in pages0 && SubtreeOk(pages0, path0, path0[ptr], maxKey)
    requires Peeled(pages0, path0, pages, path, pages0[ptr].slots, path0[ptr], |pages0[ptr].slots|)
    requires q in path0 && path0[ptr] < path0[q]
    ensures q !in path
  {
    CoverBelow(pages0, path0, maxKey, ptr, q);
    var i :| Over(pages0[ptr].slots, i, path0[q], |path0[ptr]|);
  }

  ghost predicate InSubtree(path: Paths, q: nat, x: Key) {
    q in path && x <= path[q]
  }

  /** Releases the page and all pages below it. */
  method DelSubtree(d: Dict, ptr: nat) returns (calls: seq<Info>)
    requires ptr != 0 ==> ptr in d.path && SubtreeOk(d.pages, d.path, d.path[ptr], d.cfg.maxKey)
    requires forall q :: q in d.path ==> q in d.pages
    requires Conserved(d.pages, d.path, d.last, d.freelist, d.free)
    modifies d`pages, d`freelist, d`path, d`free
    ensures Conserved(d.pages, d.path, d.last, d.freelist, d.free)
    ensures d.path == if ptr == 0 then old(d.path) else Outside(old(d.path), old(d.path)[ptr])
    ensures forall q :: q in old(d.pages) && (ptr == 0 || !InSubtree(old(d.path), q, old(d.path)[ptr])) ==>
      q in d.pages && d.pages[q] == old(d.pages)[q]
    ensures SameSlots(old(d.pages), d.pages)
    ensures calls == if ptr == 0 then [] else Calls(old(d.pages), ptr, Levels(d.cfg, old(d.path)[ptr]))
    decreases if ptr == 0 then 0 else d.cfg.maxKey + 1 - |d.path[ptr]|, 2
  {
    calls := [];
    if ptr != 0 {
      calls := DelLive(d, ptr);
    }
  }

  method DelLive(d: Dict, ptr: nat) returns (calls: seq<Info>)
    requires ptr in d.path && SubtreeOk(d.pages, d.path, d.path[ptr], d.cfg.maxKey)
    requires forall q :: q in d.path ==> q in d.pages
    requires Conserved(d.pages, d.path, d.last, d.freelist, d.free)
    requires |d.path[ptr]| <= d.cfg.maxKey
    modifies d`pages, d`freelist, d`path, d`free
    ensures Conserved(d.pages, d.path, d.last, d.freelist, d.free)
    ensures d.path == Outside(old(d.path), old(d.path)[ptr])
    ensures forall q :: q in old(d.pages) && !InSubtree(old(d.path), q, old(d.path)[ptr]) ==>
      q in d.pages && d.pages[q] == old(d.pages)[q]
    ensures SameSlots(old(d.pages), d.pages)
    ensures calls == Calls(old(d.pages), ptr, Levels(d.cfg, old(d.path)[ptr]))
    decreases d.cfg.maxKey + 1 - |d.path[ptr]|, 1
  {
    hide *;
    ghost var pages0, path0 := d.pages, d.path;
    ghost var x := d.path[ptr];
    ghost var h := LevelBelow(d.cfg, x);
    SubtreeTop(d.pages, d.path, x, d.cfg.maxKey, ptr);
    var slots := d.pages[ptr].slots;
    PeelStart(d.pages, d.path, slots, x);
    calls := [];
    NoCalls(pages0, slots, h);
    var i := 0;
    while i < |slots|
      invariant 0 <= i <= |slots|
      invariant PeeledTo(pages0, path0, d.pages, d.path, slots, x, i)
      invariant Conserved(d.pages, d.path, d.last, d.freelist, d.free)
      invariant SameSlots(pages0, d.pages) && calls == SlotCalls(pages0, slots, i, h)
    {
      OneCall(pages0, slots, i, h);
      ghost var before := calls;
      if slots[i].Tail? || |slots[i].info| != 0 {
        calls := calls + [slots[i].info];
      }
      assert calls == before + OwnCall(slots[i]);
      if slots[i].Ptr? && slots[i].sub != 0 {
        var more := DelChild(d, ptr, slots, i, pages0, path0);
        calls := calls + more;
      } else {
        PeelSkipTo(pages0, path0, d.pages, d.path, slots, x, i);
        assert calls + [] == calls;
      }
      i := i + 1;
    }
    PageCalls(pages0, ptr, d.cfg, x);
    PeelEnd(pages0, path0, d.pages, d.path, d.cfg.maxKey, ptr);
    ghost var pages1, path1 := d.pages, d.path;
    Release(d, ptr);
    ReleasedFrame(pages0, path0, pages1, d.pages, slots, x, ptr, path1);
    BackSlots(pages0, pages1, ptr, d.pages[ptr]);
  }

  lemma LevelBelow(cfg: Config, x: Key) returns (h: nat)
    requires |x| <= cfg.maxKey
    ensures Levels(cfg, x) == h + 1 && forall c :: Levels(cfg, x + [c]) == h
  {
    h := Levels(cfg, x) - 1;
  }

  lemma NoCalls(pages: Pages, slots: seq<Entry>, h: nat)
    ensures SlotCalls(pages, slots, 0, h) == [] && SameSlots(pages, pages)
  {
  }

  lemma OneCall(pages: Pages, slots: seq<Entry>, i: nat, h: nat)
    requires i < |slots|
    ensures SlotCalls(pages, slots, i + 1, h)
      == SlotCalls(pages, slots, i, h) + OwnCall(slots[i]) + SubCalls(pages, slots[i], h)
    ensures OwnCall(slots[i]) == if slots[i].Tail? || |slots[i].info| != 0 then [slots[i].info] else []
    ensures SubCalls(pages, slots[i], h) ==
      if slots[i].Ptr? && slots[i].sub != 0 then Calls(pages, slots[i].sub, h) else []
  {
  }

  lemma PageCalls(pages: Pages, ptr: nat, cfg: Config, x: Key)
    requires ptr in pages && |x| <= cfg.maxKey
    ensures Calls(pages, ptr, Levels(cfg, x)) ==
      SlotCalls(pages, pages[ptr].slots, |pages[ptr].slots|, Levels(cfg, x) - 1)
  {
  }

  /** A new back pointer changes no entries. */
  lemma BackSlots(pages0: Pages, pages: Pages, ptr: nat, p: Page)
    requires SameSlots(pages0, pages) && ptr in pages && p.slots == pages[ptr].slots
    ensures SameSlots(pages0, pages[ptr := p])
  {
  }

  /** The subtree of entry i goes. */
  method DelChild(d: Dict, ptr: nat, slots: seq<Entry>, i: nat, ghost pages0: Pages, ghost path0: Paths)
    returns (calls: seq<Info>)
    requires ptr in path0 && ptr in pages0 && pages0[ptr].slots == slots
    requires SubtreeOk(pages0, path0, path0[ptr], d.cfg.maxKey)
    requires forall q :: q in path0 ==> q in pages0
    requires i < |slots| && slots[i].Ptr? && slots[i].sub != 0 && |path0[ptr]| <= d.cfg.maxKey
    requires PeeledTo(pages0, path0, d.pages, d.path, slots, path0[ptr], i)
    requires Conserved(d.pages, d.path, d.last, d.freelist, d.free) && SameSlots(pages0, d.pages)
    modifies d`pages, d`freelist, d`path, d`free
    ensures SameSlots(pages0, d.pages)
    ensures calls == Calls(pages0, slots[i].sub, Levels(d.cfg, path0[ptr] + [slots[i].ch]))
    ensures PeeledTo(pages0, path0, d.pages, d.path, slots, path0[ptr], i + 1)
    ensures Conserved(d.pages, d.path, d.last, d.freelist, d.free)
    decreases d.cfg.maxKey + 1 - |path0[ptr]|, 0
  {
    hide *;
    ghost var pages1, path1 := d.pages, d.path;
    PeelReadyTo(pages0, path0, d.pages, d.path, ptr, i, d.cfg.maxKey);
    calls := DelSubtree(d, slots[i].sub);
    CallsSame(pages0, pages1, slots[i].sub, Levels(d.cfg, path0[ptr] + [slots[i].ch]));
    SlotsTrans(pages0, pages1, d.pages);
    PeelStepTo(pages0, path0, pages1, path1, d.pages, d.path, slots, path0[ptr], i, slots[i].sub);
  }

  lemma SlotsTrans(a: Pages, b: Pages, c: Pages)
    requires SameSlots(a, b) && SameSlots(b, c)
    ensures SameSlots(a, c)
  {
  }

  /** Peeled, and nothing outside the subtree at x changed. */
  ghost predicate PeeledTo(pages0: Pages, path0: Paths, pages: Pages, path: Paths, slots: seq<Entry>, x: Key, n: nat) {
    && Peeled(pages0, path0, pages, path, slots, x, n)
    && (forall q :: q in pages0 && !InSubtree(path0, q, x) ==> q in pages && pages[q] == pages0[q])
  }

  lemma SubtreeTop(pages: Pages, path: Paths, x: Key, maxKey: nat, ptr: nat)
    requires SubtreeOk(pages, path, x, maxKey) && ptr in path && path[ptr] == x
    ensures ptr in pages && |x| <= maxKey
  {
  }

  lemma PeelReadyTo(pages0: Pages, path0: Paths, pages: Pages, path: Paths, ptr: nat, n: nat, maxKey: nat)
    requires ptr in path0 && ptr in pages0 && SubtreeOk(pages0, path0, path0[ptr], maxKey)
    requires forall q :: q in path0 ==> q in pages0
    requires n < |pages0[ptr].slots| && pages0[ptr].slots[n].Ptr? && pages0[ptr].slots[n].sub != 0
    requires PeeledTo(pages0, path0, pages, path, pages0[ptr].slots, path0[ptr], n)
    ensures var e := pages0[ptr].slots[n];
      && e.sub in path && path[e.sub] == path0[ptr] + [e.ch] && |path[e.sub]| <= maxKey
      && SubtreeOk(pages, path, path[e.sub], maxKey) && |path[e.sub]| == |path0[ptr]| + 1
    ensures forall q :: q in path ==> q in pages
  {
    PeelReady(pages0, path0, pages, path, ptr, n, maxKey);
  }

  lemma PeelStepTo(pages0: Pages, path0: Paths, pages1: Pages, path1: Paths, pages2: Pages, path2: Paths,
                   slots: seq<Entry>, x: Key, n: nat, sub: nat)
    requires PeeledTo(pages0, path0, pages1, path1, slots, x, n) && n < |slots| && slots[n].Ptr? && slots[n].sub != 0
    requires sub in path1 && path1[sub] == x + [slots[n].ch] && path2 == Outside(path1, path1[sub])
    requires forall q :: q in pages1 && !InSubtree(path1, q, path1[sub]) ==> q in pages2 && pages2[q] == pages1[q]
    ensures PeeledTo(pages0, path0, pages2, path2, slots, x, n + 1)
  {
    PeelBelow(pages0, path0, pages1, path1, slots, x, n);
    hide Peeled;
    PeelStep(pages0, path0, pages1, path1, pages2, path2, slots, x, n);
  }

  lemma PeelSkipTo(pages0: Pages, path0: Paths, pages: Pages, path: Paths, slots: seq<Entry>, x: Key, n: nat)
    requires PeeledTo(pages0, path0, pages, path, slots, x, n) && n < |slots|
    requires slots[n].Tail? || slots[n].sub == 0
    ensures PeeledTo(pages0, path0, pages, path, slots, x, n + 1)
  {
    hide Peeled;
    PeelSkip(pages0, path0, pages, path, slots, x, n);
  }

  lemma ReleasedFrame(pages0: Pages, path0: Paths, pages1: Pages, pages2: Pages, slots: seq<Entry>, x: Key, ptr: nat,
                      path1: Paths)
    requires PeeledTo(pages0, path0, pages1, path1, slots, x, |slots|) && ptr in path0 && path0[ptr] == x
    requires ptr in pages1 && ptr in pages2 && pages2 == pages1[ptr := pages2[ptr]]
    ensures forall q :: q in pages0 && !InSubtree(path0, q, x) ==> q in pages2 && pages2[q] == pages0[q]
  {
    assert InSubtree(path0, ptr, x);
  }

  lemma PeelStart(pages: Pages, path: Paths, slots: seq<Entry>, x: Key)
    requires forall q :: q in path ==> q in pages
    ensures PeeledTo(pages, path, pages, path, slots, x, 0)
  {
  }

  lemma PeelBelow(pages0: Pages, path0: Paths, pages: Pages, path: Paths, slots: seq<Entry>, x: Key, i: nat)
    requires Peeled(pages0, path0, pages, path, slots, x, i) && i < |slots| && slots[i].Ptr?
    ensures forall q :: q in path ==> q in pages && q in pages0 && pages[q] == pages0[q]
    ensures forall q :: InSubtree(path, q, x + [slots[i].ch]) ==> InSubtree(path0, q, x)
    ensures forall q :: q in Outside(path, x + [slots[i].ch]) ==> q in path && !InSubtree(path, q, x + [slots[i].ch])
  {
  }

  lemma PeelEnd(pages0: Pages, path0: Paths, pages: Pages, path: Paths, maxKey: nat, ptr: nat)
    requires ptr in path0 && ptr in pages0 && SubtreeOk(pages0, path0, path0[ptr], maxKey)
    requires PeeledTo(pages0, path0, pages, path, pages0[ptr].slots, path0[ptr], |pages0[ptr].slots|)
    ensures ptr in path && ptr in pages && path - {ptr} == Outside(path0, path0[ptr])
  {
    assert !(path0[ptr] < path0[ptr]);
    PeelDone(pages0, path0, pages, path, ptr, maxKey);
  }

  // ---------------------------------------------------------------- finding what to delete

  /** The keys a deletion removes: str itself, or with sub all keys str is a prefix of. */
  ghost predicate Doomed(key: Key, str: Key, sub: bool) {
    if sub then str <= key else key == str
  }

  function DelCompare(e: Entry, str: Key, sub: bool): int {
    if sub && e.Tail? && str <= e.str then 0 else Compare(e, str)
  }

  lemma {:induction false} LessPast(str: Key, a: Key, t: Key)
    requires Less(str, a) && !(str <= a)
    ensures Less(str + t, a)
  {
    if a[0] == str[0] {
      assert str == [str[0]] + str[1..] && a == [a[0]] + a[1..];
      LessPast(str[1..], a[1..], t);
      assert (str + t)[1..] == str[1..] + t;
    }
  }

  /** Strings with a given prefix are not below it, and follow each other without a gap. */
  lemma DelCompareMonotone(a: Entry, b: Entry, str: Key, sub: bool)
    requires NonEmpty(a) && NonEmpty(b) && EntryLess(a, b) && str != []
    requires b.Ptr? ==> b.ch >= 1
    requires a.Ptr? ==> a.ch >= 1
    ensures DelCompare(b, str, sub) < 0 ==> DelCompare(a, str, sub) < 0
    ensures DelCompare(a, str, sub) > 0 ==> DelCompare(b, str, sub) > 0
  {
    CompareMonotone(a, b, str);
    if sub && a.Tail? && str <= a.str {
      assert a.str == str + a.str[|str|..] && str + [] == str;
      LessPrefix(str, a.str[|str|..], []);
    }
    if sub && b.Tail? && str <= b.str && DelCompare(a, str, sub) > 0 {
      var t := b.str[|str|..];
      assert b.str == str + t;
      if a.Tail? {
        LessTotal(a.str, str);
        LessPast(str, a.str, t);
        LessTotal(a.str, b.str);
      }
    }
  }

  method SearchDel(ghost cfg: Config, ghost depth: nat, slots: seq<Entry>, str: Key, sub: bool)
    returns (mid: nat, found: bool)
    requires ValidConfig(cfg) && SlotsOk(cfg, slots, depth) && str != []
    ensures found ==> mid < |slots| && DelCompare(slots[mid], str, sub) == 0
    ensures !found ==> forall k :: 0 <= k < |slots| ==> DelCompare(slots[k], str, sub) != 0
  {
    mid := 0;
    var lo, hi := 0, |slots| - 1;
    while lo <= hi
      invariant 0 <= lo <= hi + 1 <= |slots|
      invariant forall k :: 0 <= k < lo ==> DelCompare(slots[k], str, sub) < 0
      invariant forall k :: hi < k < |slots| ==> DelCompare(slots[k], str, sub) > 0
    {
      mid := (lo + hi) / 2;
      var cmp := DelCompare(slots[mid], str, sub);
      if cmp == 0 { return mid, true; }
      forall k | 0 <= k < |slots| && k != mid
        ensures k < mid && cmp < 0 ==> DelCompare(slots[k], str, sub) < 0
        ensures k > mid && cmp > 0 ==> DelCompare(slots[k], str, sub) > 0
      {
        if k < mid {
          DelCompareMonotone(slots[k], slots[mid], str, sub);
        } else {
          DelCompareMonotone(slots[mid], slots[k], str, sub);
        }
      }
      if cmp < 0 { lo := mid + 1; } else { hi := mid - 1; }
    }
    found := false;
  }

  // ---------------------------------------------------------------- one page

  /** From pages0 to pages1 only doomed keys changed under ptr, and those are gone. */
  ghost predicate Trimmed(pages0: Pages, pages1: Pages, ptr: nat, str: Key, sub: bool) {
    forall k :: Find(pages1, ptr, k) == Find(pages0, ptr, k) || (Doomed(k, str, sub) && Find(pages1, ptr, k) == [])
  }

  ghost predicate AllGone(pages: Pages, ptr: nat, str: Key, sub: bool) {
    forall k :: Doomed(k, str, sub) ==> Find(pages, ptr, k) == []
  }

  /** Nothing outside the pages at or below x changed, and no page was added. */
  ghost predicate Shrunk(pages0: Pages, path0: Paths, pages1: Pages, path1: Paths, x: Key) {
    && (forall q :: q in path1 ==> q in path0 && path1[q] == path0[q])
    && (forall q :: q in path0 && !(x <= path0[q]) ==> q in path1)
    && Kept(pages0, path0, pages1, x)
  }

  ghost predicate Tree(cfg: Config, pages: Pages, path: Paths, root: nat, orphans: set<Key>) {
    TrieOk(cfg, pages, path) && Linked(pages, path, root, orphans)
  }

  lemma TrimmedTrans(pages0: Pages, pages1: Pages, pages2: Pages, ptr: nat, str: Key, sub: bool)
    requires Trimmed(pages0, pages1, ptr, str, sub) && Trimmed(pages1, pages2, ptr, str, sub)
    ensures Trimmed(pages0, pages2, ptr, str, sub)
  {
  }

  lemma ShrunkTrans(pages0: Pages, path0: Paths, pages1: Pages, path1: Paths, pages2: Pages, path2: Paths, x: Key)
    requires Shrunk(pages0, path0, pages1, path1, x) && Shrunk(pages1, path1, pages2, path2, x)
    ensures Shrunk(pages0, path0, pages2, path2, x)
  {
  }

  lemma ShrunkHere(pages: Pages, path: Paths, ptr: nat, p: Page, x: Key)
    requires ptr in path && path[ptr] == x
    ensures Shrunk(pages, path, pages[ptr := p], path, x)
  {
  }

  /** A page with one entry less. */
  ghost function Without(p: Page, k: nat, dirty: bool): Page
    requires k < |p.slots|
  {
    Page(dirty, p.backptr, p.size, p.slots[..k] + p.slots[k + 1..])
  }

  lemma WithoutOk(cfg: Config, p: Page, k: nat, dirty: bool, depth: nat)
    requires k < |p.slots| && PageOk(cfg, p, depth)
    requires dirty || (p.slots[k].Ptr? && !p.dirty)
    ensures PageOk(cfg, Without(p, k, dirty), depth)
    ensures Tails(Without(p, k, dirty).slots) <= Tails(p.slots)
  {
    WithoutSlots(cfg, p.slots, k, depth);
    WithoutSums(p.slots, k);
    hide SlotsOk, SumBytes, TailBytes, Tails;
  }

  lemma WithoutSums(s: seq<Entry>, k: nat)
    requires k < |s|
    ensures var t := s[..k] + s[k + 1..];
      && SumBytes(t) == SumBytes(s) - Bytes(s[k])
      && TailBytes(t) == TailBytes(s) - (if s[k].Tail? then Bytes(s[k]) else 0)
      && Tails(t) == Tails(s) - (if s[k].Tail? then 1 else 0)
  {
    SumSplice(s, k, k + 1, []);
    assert s[..k] + [] + s[k + 1..] == s[..k] + s[k + 1..];
    assert s[k..k + 1] == [s[k]];
    SumOne(s[k]);
    SumNothing();
  }

  lemma SumNothing()
    ensures SumBytes([]) == 0 && TailBytes([]) == 0 && Tails([]) == 0
  {
  }

  lemma WithoutSlots(cfg: Config, s: seq<Entry>, k: nat, depth: nat)
    requires k < |s| && SlotsOk(cfg, s, depth)
    ensures SlotsOk(cfg, s[..k] + s[k + 1..], depth)
  {
    var t := s[..k] + s[k + 1..];
    forall i, j | 0 <= i < j < |t|
      ensures EntryLess(t[i], t[j])
    {
      assert t[i] == s[if i < k then i else i + 1] && t[j] == s[if j < k then j else j + 1];
    }
  }

  ghost function FoundWithout(pages: Pages, ptr: nat, e: Entry, key: Key): Info {
    if key != [] && Compare(e, key) == 0 then [] else Find(pages, ptr, key)
  }

  lemma DropReady(cfg: Config, pages: Pages, path: Paths, ptr: nat, k: nat, dirty: bool)
    requires TrieOk(cfg, pages, path) && ptr in path && k < |pages[ptr].slots|
    requires dirty || (pages[ptr].slots[k].Ptr? && !pages[ptr].dirty)
    ensures ptr in pages && PageOk(cfg, Without(pages[ptr], k, dirty), |path[ptr]|) && SubsOk([], path, path[ptr])
    ensures Without(pages[ptr], k, dirty).slots == pages[ptr].slots[..k] + [] + pages[ptr].slots[k + 1..]
  {
    PageSlots(cfg, pages, path, ptr);
    hide TrieOk, SlotsOk, SizeOk;
    WithoutOk(cfg, pages[ptr], k, dirty, |path[ptr]|);
  }

  lemma DropFound(cfg: Config, pages: Pages, path: Paths, ptr: nat, k: nat, dirty: bool)
    requires TrieOk(cfg, pages, path) && ptr in path && ptr in pages && k < |pages[ptr].slots|
    requires dirty || (pages[ptr].slots[k].Ptr? && !pages[ptr].dirty)
    ensures TrieOk(cfg, pages[ptr := Without(pages[ptr], k, dirty)], path)
    ensures forall key ::
      Find(pages[ptr := Without(pages[ptr], k, dirty)], ptr, key) == FoundWithout(pages, ptr, pages[ptr].slots[k], key)
  {
    hide *;
    var e, p' := pages[ptr].slots[k], Without(pages[ptr], k, dirty);
    DropReady(cfg, pages, path, ptr, k, dirty);
    LocalChange(cfg, pages, path, ptr, p', k, k + 1, []);
    forall key
      ensures Find(pages[ptr := p'], ptr, key) == FoundWithout(pages, ptr, e, key)
    {
      SplicedNone(pages, ptr, k, e, key);
    }
  }

  /** Removing an entry removes the keys found through it; a page it led to is left unlinked. */
  lemma DropEntry(cfg: Config, pages: Pages, path: Paths, root: nat, orphans: set<Key>, ptr: nat, k: nat, dirty: bool)
    requires Tree(cfg, pages, path, root, orphans) && ptr in path && k < |pages[ptr].slots|
    requires dirty || (pages[ptr].slots[k].Ptr? && !pages[ptr].dirty)
    ensures var e, pages' := pages[ptr].slots[k], pages[ptr := Without(pages[ptr], k, dirty)];
      && Tree(cfg, pages', path, root, orphans + Left(e, path[ptr] + (if e.Ptr? then [e.ch] else [])))
      && (forall key :: Find(pages', ptr, key) == FoundWithout(pages, ptr, e, key))
  {
    hide PageOk, SubsOk, Linked, Find, FoundWithout;
    TreeParts(cfg, pages, path, root, orphans, ptr);
    DropFound(cfg, pages, path, ptr, k, dirty);
    DropLinks(pages, path, root, orphans, ptr, k, Without(pages[ptr], k, dirty));
  }

  lemma SplicedNone(pages: Pages, ptr: nat, k: nat, e: Entry, key: Key)
    requires ptr in pages && k < |pages[ptr].slots| && pages[ptr].slots[k] == e
    ensures Spliced(pages, pages[ptr].slots, k, k + 1, [], key) == FoundWithout(pages, ptr, e, key)
  {
    assert pages[ptr].slots[k..k + 1] == [e];
    if key != [] { OneSlot(pages, e, key); }
  }

  lemma DropLinks(pages: Pages, path: Paths, root: nat, orphans: set<Key>, ptr: nat, k: nat, p: Page)
    requires Linked(pages, path, root, orphans) && ptr in path && ptr in pages && k < |pages[ptr].slots|
    requires forall q :: q in path ==> q in pages && q != 0
    requires p.slots == pages[ptr].slots[..k] + pages[ptr].slots[k + 1..]
    ensures var e := pages[ptr].slots[k];
      Linked(pages[ptr := p], path, root, orphans + Left(e, path[ptr] + (if e.Ptr? then [e.ch] else [])))
  {
    var s, e, pages' := pages[ptr].slots, pages[ptr].slots[k], pages[ptr := p];
    forall q | q in path && q != root && path[q] !in orphans && !(e.Ptr? && e.sub != 0 && path[q] == path[ptr] + [e.ch])
      ensures exists r :: Parent(pages', path, r, q)
    {
      var r :| Parent(pages, path, r, q);
      if r == ptr {
        var c := path[q][|path[q]| - 1];
        var i :| 0 <= i < |s| && s[i].Ptr? && s[i].ch == c && s[i].sub == q;
        assert path[q] == path[ptr] + [c];
        var j := if i < k then i else i - 1;
        assert p.slots[j] == s[i];
      }
      assert Parent(pages', path, r, q);
    }
  }

  // ---------------------------------------------------------------- what a deletion answers

  /** On the way from page ptr down to the key there is an empty page other than the root. A split
      leaves one when the only string of its group has length 1. */
  ghost predicate Hollow(pages: Pages, root: nat, ptr: nat, str: Key)
    decreases |str|
  {
    && ptr in pages && str != []
    && ((ptr != root && pages[ptr].slots == [])
        || (|str| > 1 && exists k :: 0 <= k < |pages[ptr].slots| && LeadsOn(pages, root, pages[ptr].slots[k], str)))
  }

  ghost predicate LeadsOn(pages: Pages, root: nat, e: Entry, str: Key)
    requires |str| > 1
    decreases |str|, 0
  {
    e.Ptr? && e.ch == str[0] && e.sub != 0 && Hollow(pages, root, e.sub, str[1..])
  }

  ghost predicate HollowBelowRoot(pages: Pages, root: nat, str: Key) {
    root != 0 && Hollow(pages, root, root, str)
  }

  /** There is nothing a deletion would report: neither the key nor an empty page to release. */
  ghost predicate Nothing(pages: Pages, root: nat, ptr: nat, str: Key) {
    Find(pages, ptr, str) == [] && !Hollow(pages, root, ptr, str)
  }

  // ---------------------------------------------------------------- what the deletion of a subtree answers

  /** The deletion of a subtree answers 0: on the way from page ptr there is no string with the prefix;
      and the way ends at a pointer entry without information, which is not the last entry of its page,
      or at a page without an entry to go on with, which is not empty. The root may be empty. */
  ghost predicate Quiet(pages: Pages, root: nat, ptr: nat, str: Key)
    decreases |str|
  {
    && ptr in pages && str != [] && NoTail(pages[ptr].slots, str)
    && (NoPtr(pages[ptr].slots, str[0]) ==> ptr == root || pages[ptr].slots != [])
    && (forall e :: e in pages[ptr].slots && e.Ptr? && e.ch == str[0] ==>
        QuietBelow(pages, root, e, str, ptr == root || |pages[ptr].slots| > 1))
  }

  ghost predicate QuietBelow(pages: Pages, root: nat, e: Entry, str: Key, others: bool)
    requires e.Ptr? && str != []
    decreases |str|, 0
  {
    if |str| == 1 then e.info == [] && others else e.sub == 0 || Quiet(pages, root, e.sub, str[1..])
  }

  ghost predicate NoTail(slots: seq<Entry>, str: Key) {
    forall e :: e in slots && e.Tail? ==> !(str <= e.str)
  }

  /** At a page with a pointer entry for the first character. */
  lemma QuietAt(cfg: Config, pages: Pages, depth: nat, root: nat, ptr: nat, mid: nat, str: Key)
    requires ptr in pages && SlotsOk(cfg, pages[ptr].slots, depth) && str != [] && mid < |pages[ptr].slots|
    requires pages[ptr].slots[mid].Ptr? && pages[ptr].slots[mid].ch == str[0]
    ensures Quiet(pages, root, ptr, str) <==>
      QuietBelow(pages, root, pages[ptr].slots[mid], str, ptr == root || |pages[ptr].slots| > 1)
  {
    var s := pages[ptr].slots;
    assert s[mid] in s;
    PtrNoTail(cfg, s, depth, mid, str);
    hide SlotsOk, QuietBelow, NoTail;
    forall e | e in s && e.Ptr? && e.ch == str[0]
      ensures e == s[mid]
    {
      var k :| 0 <= k < |s| && s[k] == e;
      if k != mid { PtrsDiffer(cfg, s, depth, k, mid); }
    }
  }

  lemma PtrNoTail(cfg: Config, slots: seq<Entry>, depth: nat, mid: nat, str: Key)
    requires SlotsOk(cfg, slots, depth) && str != [] && mid < |slots| && slots[mid].Ptr? && slots[mid].ch == str[0]
    ensures NoTail(slots, str)
  {
    hide SlotsOk;
    assert slots[mid] in slots;
    forall e | e in slots && e.Tail?
      ensures !(str <= e.str)
    {
      var k :| 0 <= k < |slots| && slots[k] == e;
      if str <= e.str { TailNoPtr(cfg, slots, depth, k, str); }
    }
  }

  /** At a page where the search ends without an entry. */
  lemma QuietHere(pages0: Pages, pages: Pages, root: nat, ptr: nat, str: Key, r: int)
    requires str != [] && ptr in pages0 && ptr in pages && NoPtr(pages0[ptr].slots, str[0]) && (r == 0 || r == 1)
    requires r == 0 <==> NoTail(pages0[ptr].slots, str)
    requires r == 0 ==> pages == pages0
    ensures Quiet(pages0, root, ptr, str) <==> r == 0 && !(pages[ptr].slots == [] && ptr != root)
  {
  }

  lemma NoTailHit(slots: seq<Entry>, str: Key)
    requires forall k :: 0 <= k < |slots| ==> DelCompare(slots[k], str, true) != 0
    ensures NoTail(slots, str)
  {
    forall e | e in slots && e.Tail?
      ensures !(str <= e.str)
    {
      var k :| 0 <= k < |slots| && slots[k] == e;
    }
  }

  lemma TailThere(slots: seq<Entry>, mid: nat, str: Key)
    requires mid < |slots| && slots[mid].Tail? && DelCompare(slots[mid], str, true) == 0
    ensures !NoTail(slots, str)
  {
    assert slots[mid] in slots;
  }

  /** Without a pointer entry where the prefix ends, the answer is that of the deletion of a key, unless a
      string with the prefix goes. */
  lemma {:induction false} QuietHollow(pages: Pages, root: nat, ptr: nat, str: Key)
    requires Quiet(pages, root, ptr, str)
    ensures EndsAtPtr(pages, ptr, str) || !Hollow(pages, root, ptr, str)
    decreases |str|
  {
    var s := pages[ptr].slots;
    if Hollow(pages, root, ptr, str) && |str| > 1 && !(ptr != root && s == []) {
      var k :| 0 <= k < |s| && LeadsOn(pages, root, s[k], str);
      assert s[k] in s && s[k].sub != 0;
      QuietHollow(pages, root, s[k].sub, str[1..]);
      if EndsAtPtr(pages, s[k].sub, str[1..]) { assert EndsBelow(pages, s[k], str); }
    }
  }

  lemma TailFound(cfg: Config, pages: Pages, path: Paths, root: nat, ptr: nat, mid: nat, str: Key)
    requires Tree(cfg, pages, path, root, {}) && ptr in path && ptr in pages && str != []
    requires mid < |pages[ptr].slots| && pages[ptr].slots[mid].Tail?
    requires DelCompare(pages[ptr].slots[mid], str, false) == 0
    ensures Find(pages, ptr, str) != []
  {
    TreePage(cfg, pages, path, root, {}, ptr);
    var s := pages[ptr].slots;
    assert EntryOk(cfg, s[mid], |path[ptr]|) && Hit(s, mid, str);
    SlotFindHit(cfg, pages, s, |path[ptr]|, mid, str);
  }

  /** At a page without an entry for the key. */
  lemma HollowHere(pages: Pages, root: nat, ptr: nat, str: Key)
    requires ptr in pages && str != []
    requires |str| > 1 ==> forall k :: 0 <= k < |pages[ptr].slots| ==> DelCompare(pages[ptr].slots[k], str, false) != 0
    ensures Hollow(pages, root, ptr, str) <==> ptr != root && pages[ptr].slots == []
  {
  }

  lemma NotFoundCode(pages0: Pages, pages: Pages, root: nat, ptr: nat, str: Key, r: int)
    requires str != [] && ptr in pages && (r == 0 || r == 1)
    requires r == 1 ==> Find(pages0, ptr, str) != []
    requires r == 0 ==> pages == pages0 && Find(pages, ptr, str) == []
    requires r == 0 ==> forall k :: 0 <= k < |pages[ptr].slots| ==> DelCompare(pages[ptr].slots[k], str, false) != 0
    ensures Nothing(pages0, root, ptr, str) <==> r == 0 && !(pages[ptr].slots == [] && ptr != root)
    ensures r == 1 ==> !Nothing(pages0, root, ptr, str)
  {
    if r == 0 { HollowHere(pages, root, ptr, str); }
    hide Find, Hollow;
  }

  /** At a page with a pointer entry where the key ends. */
  lemma HereCode(pages: Pages, root: nat, ptr: nat, mid: nat, str: Key)
    requires |str| == 1 && ptr in pages && mid < |pages[ptr].slots|
    ensures Nothing(pages, root, ptr, str) <==> Find(pages, ptr, str) == []
  {
    HollowHere(pages, root, ptr, str);
    hide Find, Hollow;
  }

  /** At a page with a pointer entry for the first character. */
  lemma HollowBelow(cfg: Config, pages: Pages, path: Paths, root: nat, ptr: nat, mid: nat, str: Key)
    requires Tree(cfg, pages, path, root, {}) && ptr in path && ptr in pages && |str| > 1
    requires mid < |pages[ptr].slots| && pages[ptr].slots[mid].Ptr? && pages[ptr].slots[mid].ch == str[0]
    ensures var q := pages[ptr].slots[mid].sub;
      Nothing(pages, root, ptr, str) <==> q == 0 || Nothing(pages, root, q, str[1..])
  {
    TreePage(cfg, pages, path, root, {}, ptr);
    DownFound(cfg, pages, path, ptr, mid, str);
    hide Find, Tree, TrieOk, Linked, PageOk, SlotsOk, SubsOk, Hollow;
    HollowDown(cfg, pages, |path[ptr]|, root, ptr, mid, str);
  }

  lemma HollowDown(cfg: Config, pages: Pages, depth: nat, root: nat, ptr: nat, mid: nat, str: Key)
    requires ptr in pages && |str| > 1 && SlotsOk(cfg, pages[ptr].slots, depth)
    requires mid < |pages[ptr].slots| && pages[ptr].slots[mid].Ptr? && pages[ptr].slots[mid].ch == str[0]
    ensures Hollow(pages, root, ptr, str) <==> LeadsOn(pages, root, pages[ptr].slots[mid], str)
  {
    hide SlotsOk;
    var s := pages[ptr].slots;
    forall k | 0 <= k < |s| && s[k].Ptr? && s[k].ch == str[0]
      ensures k == mid
    {
      if k != mid { PtrsDiffer(cfg, s, depth, k, mid); }
    }
  }

  // ---------------------------------------------------------------- dict_del_string

  /** What the caller of a subtree deletion is told: of each key that went, its information, but of
      str itself nothing but zeros when it ends at a pointer entry. Other deletions tell nothing. */
  ghost predicate Telling(pages0: Pages, pages: Pages, ptr: nat, str: Key, sub: bool, calls: seq<Info>, keys: seq<Key>,
                          infos: seq<Info>) {
    if sub then Heard(pages0, pages, ptr, keys, infos) && Wiped(keys, infos, calls, str, EndsAtPtr(pages0, ptr, str))
    else calls == []
  }

  /** The same while the subtree at q is out of the trie and still to be told. */
  ghost predicate TellingBut(pages0: Pages, pages: Pages, ptr: nat, str: Key, sub: bool, calls: seq<Info>,
                             keys: seq<Key>, infos: seq<Info>, q: nat)
    requires str != []
  {
    if sub
    then && HeardBut(pages0, pages, ptr, keys, infos, str[0], q)
         && Wiped(keys, infos, calls, str, EndsAtPtr(pages0, ptr, str))
    else calls == []
  }

  /** What a deletion leaves at page ptr, whose path was x, when it does not release it. */
  ghost predicate DelState(cfg: Config, pages0: Pages, path0: Paths, pages: Pages, path: Paths, root: nat, last: nat,
                           freelist: nat, free: seq<nat>, ptr: nat, x: Key, str: Key, sub: bool, orphans: set<Key>)
  {
    && Tree(cfg, pages, path, root, orphans) && Conserved(pages, path, last, freelist, free)
    && ptr in path && ptr in pages && path[ptr] == x && root in path
    && Shrunk(pages0, path0, pages, path, x)
    && Trimmed(pages0, pages, ptr, str, sub)
  }

  ghost predicate Deleting(d: Dict, pages0: Pages, path0: Paths, ptr: nat, x: Key, str: Key, sub: bool,
                           orphans: set<Key>)
    reads d`root, d`last, d`freelist, d`pages, d`path, d`free
  {
    DelState(d.cfg, pages0, path0, d.pages, d.path, d.root, d.last, d.freelist, d.free, ptr, x, str, sub, orphans)
  }

  lemma HitDoomed(e: Entry, k: Key, str: Key, sub: bool)
    requires Compare(e, k) == 0 && Doomed(k, str, sub) && k != [] && str != []
    ensures DelCompare(e, str, sub) == 0
  {
  }

  lemma NothingLeft(cfg: Config, pages: Pages, path: Paths, ptr: nat, str: Key, sub: bool)
    requires TrieOk(cfg, pages, path) && ptr in path && str != []
    requires forall k :: 0 <= k < |pages[ptr].slots| ==> DelCompare(pages[ptr].slots[k], str, sub) != 0
    ensures AllGone(pages, ptr, str, sub) && Find(pages, ptr, str) == []
  {
    assert Doomed(str, str, sub);
    var s := pages[ptr].slots;
    forall k | Doomed(k, str, sub)
      ensures Find(pages, ptr, k) == []
    {
      if i :| Hit(s, i, k) { HitDoomed(s[i], k, str, sub); }
    }
  }

  lemma TailDropped(pages0: Pages, path0: Paths, pages1: Pages, path: Paths, pages2: Pages, ptr: nat, x: Key, e: Entry,
                    p: Page, str: Key, sub: bool)
    requires ptr in path && path[ptr] == x && pages2 == pages1[ptr := p]
    requires Shrunk(pages0, path0, pages1, path, x) && Trimmed(pages0, pages1, ptr, str, sub)
    requires e.Tail? && DelCompare(e, str, sub) == 0 && str != []
    requires forall key :: Find(pages2, ptr, key) == FoundWithout(pages1, ptr, e, key)
    ensures Shrunk(pages0, path0, pages2, path, x) && Trimmed(pages0, pages2, ptr, str, sub)
    ensures !sub ==> AllGone(pages2, ptr, str, sub)
  {
    hide Find;
    forall k
      ensures Find(pages2, ptr, k) == Find(pages1, ptr, k) || (Doomed(k, str, sub) && Find(pages2, ptr, k) == [])
    {
    }
    TrimmedTrans(pages0, pages1, pages2, ptr, str, sub);
    ShrunkHere(pages1, path, ptr, p, x);
    ShrunkTrans(pages0, path0, pages1, path, pages2, path, x);
  }

  /** Removes the tail strings of a page that are doomed. Stops at the pointer entry that
      leads to the doomed keys, if there is one. */
  method DelTails(d: Dict, ptr: nat, ghost x: Key, str: Key, sub: bool, ghost pages0: Pages, ghost path0: Paths)
    returns (mid: nat, found: bool, r: int, calls: seq<Info>, ghost keys: seq<Key>)
    requires str != [] && Deleting(d, pages0, path0, ptr, x, str, sub, {}) && d.pages == pages0
    modifies d`pages
    ensures Deleting(d, pages0, path0, ptr, x, str, sub, {})
    ensures found ==> mid < |d.pages[ptr].slots| && d.pages[ptr].slots[mid].Ptr? && d.pages[ptr].slots[mid].ch == str[0]
    ensures !found ==> AllGone(d.pages, ptr, str, sub)
    ensures r == 0 || r == 1
    ensures !sub && r == 1 ==> Find(old(d.pages), ptr, str) != []
    ensures found && !sub ==> r == 0
    ensures !found && !sub && r == 0 ==> d.pages == old(d.pages) && Find(d.pages, ptr, str) == []
    ensures !found && !sub && r == 0 ==>
      ptr in d.pages && forall k :: 0 <= k < |d.pages[ptr].slots| ==> DelCompare(d.pages[ptr].slots[k], str, false) != 0
    ensures if sub then Heard(pages0, d.pages, ptr, keys, calls) else calls == []
    ensures ptr in pages0 && ptr in d.pages
    ensures found ==> d.pages == pages0 && calls == [] && keys == [] && r == 0
    ensures !found && sub ==> NoPtr(pages0[ptr].slots, str[0])
    ensures !found && sub ==> (r == 0 <==> NoTail(pages0[ptr].slots, str)) && (r == 0 ==> d.pages == pages0)
  {
    r, calls, keys := 0, [], [];
    HeardNone(pages0, ptr);
    SlotsAt(d, {}, ptr);
    hide SlotsOk, SubsOk, SizeOk, Linked, Shrunk, Trimmed, Find, Conserved, AllGone, Tree, Less, DelCompare;
    while true
      invariant Deleting(d, pages0, path0, ptr, x, str, sub, {})
      invariant r == 0 || (r == 1 && sub)
      invariant !sub ==> d.pages == old(d.pages)
      invariant if sub then Heard(pages0, d.pages, ptr, keys, calls) else calls == []
      invariant ptr in pages0 && ptr in d.pages
      invariant || (d.pages == pages0 && calls == [] && keys == [] && r == 0)
                || (sub && r == 1 && NoPtr(pages0[ptr].slots, str[0]) && NoPtr(d.pages[ptr].slots, str[0])
                    && !NoTail(pages0[ptr].slots, str))
      decreases |d.pages[ptr].slots|
    {
      SlotsAt(d, {}, ptr);
      mid, found := SearchDel(d.cfg, |x|, d.pages[ptr].slots, str, sub);
      if !found {
        NothingLeft(d.cfg, d.pages, d.path, ptr, str, sub);
        NoPtrHit(d.pages[ptr].slots, str, sub);
        if sub { NoTailHit(d.pages[ptr].slots, str); }
        break;
      }
      if d.pages[ptr].slots[mid].Ptr? {
        PtrHit(d.pages[ptr].slots[mid], str, sub);
        assert d.pages[ptr].slots[mid] in d.pages[ptr].slots;
        break;
      }
      if !sub { TailFound(d.cfg, d.pages, d.path, d.root, ptr, mid, str); }
      var e := d.pages[ptr].slots[mid];
      ghost var pages1 := d.pages;
      TailGone(d.cfg, d.pages, d.path, d.root, ptr, mid);
      if sub {
        TailNoPtr(d.cfg, d.pages[ptr].slots, |x|, mid, str);
        TailThere(d.pages[ptr].slots, mid, str);
      }
      DropTail(d, ptr, x, mid, str, sub, pages0, path0);
      if sub {
        HeardOne(pages0, pages1, d.pages, ptr, keys, calls, e.str, e.info);
        calls := calls + [e.info];
        keys := keys + [e.str];
      }
      r := 1;
      if !sub {
        found := false;
        break;
      }
    }
  }

  lemma SlotsAt(d: Dict, orphans: set<Key>, ptr: nat)
    requires Tree(d.cfg, d.pages, d.path, d.root, orphans) && ptr in d.path
    ensures ptr in d.pages && ValidConfig(d.cfg) && TrieOk(d.cfg, d.pages, d.path)
    ensures SlotsOk(d.cfg, d.pages[ptr].slots, |d.path[ptr]|)
  {
  }

  lemma PtrHit(e: Entry, str: Key, sub: bool)
    requires e.Ptr? && DelCompare(e, str, sub) == 0 && str != []
    ensures e.ch == str[0]
  {
  }

  method DropTail(d: Dict, ptr: nat, ghost x: Key, mid: nat, ghost str: Key, ghost sub: bool, ghost pages0: Pages,
                  ghost path0: Paths)
    requires str != [] && Deleting(d, pages0, path0, ptr, x, str, sub, {})
    requires mid < |d.pages[ptr].slots| && d.pages[ptr].slots[mid].Tail?
    requires DelCompare(d.pages[ptr].slots[mid], str, sub) == 0
    modifies d`pages
    ensures Deleting(d, pages0, path0, ptr, x, str, sub, {})
    ensures ptr in d.pages && |d.pages[ptr].slots| < |old(d.pages)[ptr].slots|
    ensures forall e :: e in d.pages[ptr].slots ==> e in old(d.pages)[ptr].slots
    ensures var gone := old(d.pages)[ptr].slots[mid].str;
      forall k :: Find(d.pages, ptr, k) == if k == gone then [] else Find(old(d.pages), ptr, k)
    ensures !sub ==> AllGone(d.pages, ptr, str, sub)
  {
    hide SlotsOk, SubsOk, SizeOk, Linked, Shrunk, Trimmed, Find, Conserved, AllGone, Tree, FoundWithout, DelCompare;
    var p := d.pages[ptr];
    ghost var pages1 := d.pages;
    ghost var none: set<Key> := {};
    assert none + {} == none;
    DropEntry(d.cfg, d.pages, d.path, d.root, none, ptr, mid, true);
    ConservedKept(d.pages, d.path, d.last, d.freelist, d.free, ptr, Without(p, mid, true));
    d.pages := d.pages[ptr := Page(true, p.backptr, p.size, p.slots[..mid] + p.slots[mid + 1..])];
    TailDropped(pages0, path0, pages1, d.path, d.pages, ptr, x, p.slots[mid], d.pages[ptr], str, sub);
    OnlyTail(pages1, d.pages, ptr, p.slots[mid]);
    assert p.slots == p.slots[..mid] + [p.slots[mid]] + p.slots[mid + 1..];
  }

  ghost predicate NoPtr(slots: seq<Entry>, c: int) {
    forall e :: e in slots && e.Ptr? ==> e.ch != c
  }

  /** Strings and a pointer entry with the same first character do not go together. */
  lemma TailNoPtr(cfg: Config, slots: seq<Entry>, depth: nat, mid: nat, str: Key)
    requires SlotsOk(cfg, slots, depth) && mid < |slots| && slots[mid].Tail? && str != []
    requires DelCompare(slots[mid], str, true) == 0
    ensures NoPtr(slots, str[0])
  {
    forall e | e in slots && e.Ptr?
      ensures e.ch != str[0]
    {
      var k :| 0 <= k < |slots| && slots[k] == e;
      assert if k < mid then EntryLess(slots[k], slots[mid]) else EntryLess(slots[mid], slots[k]);
    }
  }

  lemma NoPtrHit(slots: seq<Entry>, str: Key, sub: bool)
    requires str != [] && forall k :: 0 <= k < |slots| ==> DelCompare(slots[k], str, sub) != 0
    ensures NoPtr(slots, str[0])
  {
    forall e | e in slots && e.Ptr?
      ensures e.ch != str[0]
    {
      var k :| 0 <= k < |slots| && slots[k] == e;
    }
  }

  lemma OnlyTail(pages1: Pages, pages2: Pages, ptr: nat, e: Entry)
    requires e.Tail? && forall k :: Find(pages2, ptr, k) == FoundWithout(pages1, ptr, e, k)
    ensures forall k :: Find(pages2, ptr, k) == if k == e.str then [] else Find(pages1, ptr, k)
  {
    hide Find;
    forall k: Key
      ensures Compare(e, k) == 0 <==> k == e.str
    {
    }
    FindEmpty(pages2, ptr);
  }

  lemma TailGone(cfg: Config, pages: Pages, path: Paths, root: nat, ptr: nat, mid: nat)
    requires Tree(cfg, pages, path, root, {}) && ptr in path && ptr in pages
    requires mid < |pages[ptr].slots| && pages[ptr].slots[mid].Tail?
    ensures Find(pages, ptr, pages[ptr].slots[mid].str) == pages[ptr].slots[mid].info != []
  {
    TreePage(cfg, pages, path, root, {}, ptr);
    var s := pages[ptr].slots;
    assert EntryOk(cfg, s[mid], |path[ptr]|) && Hit(s, mid, s[mid].str);
    SlotFindHit(cfg, pages, s, |path[ptr]|, mid, s[mid].str);
  }

  /** The key ends at a pointer entry: its information goes, and with sub the whole entry. */
  method EndHere(d: Dict, ptr: nat, ghost x: Key, mid: nat, str: Key, sub: bool, r0: int, ghost pages0: Pages,
                 ghost path0: Paths)
    returns (r: int, calls: seq<Info>, ghost keys: seq<Key>, ghost infos: seq<Info>)
    requires |str| == 1 && Deleting(d, pages0, path0, ptr, x, str, sub, {}) && d.pages == pages0
    requires mid < |d.pages[ptr].slots| && d.pages[ptr].slots[mid].Ptr? && d.pages[ptr].slots[mid].ch == str[0]
    modifies d`pages
    ensures Deleting(d, pages0, path0, ptr, x, str, sub,
                     if sub then Left(old(d.pages[ptr].slots[mid]), x + str) else {})
    ensures AllGone(d.pages, ptr, str, sub)
    ensures sub ==> NoPage(d.pages[ptr].slots, str[0])
    ensures r == (if old(d.pages[ptr].slots[mid]).info != [] then 1 else r0)
    ensures ptr in d.pages && |d.pages[ptr].slots| == |old(d.pages[ptr].slots)| - if sub then 1 else 0
    ensures if sub
      then HeardBut(pages0, d.pages, ptr, keys, infos, str[0], old(d.pages[ptr].slots[mid]).sub)
           && Wiped(keys, infos, calls, str, true)
      else calls == []
  {
    hide SlotsOk, SubsOk, SizeOk, Linked, Shrunk, Trimmed, Find, Conserved, AllGone, Tree, FoundWithout, NoPage;
    hide Heard, HeardBut, Pending, Wiped;
    r, calls, keys, infos := r0, [], [], [];
    var e := d.pages[ptr].slots[mid];
    ghost var pages1 := d.pages;
    OwnInfo(d, ptr, mid, str);
    HeardNone(pages0, ptr);
    NoneWiped(str);
    if e.info != [] {
      Wipe(d, ptr, x, mid, str, sub, pages0, path0);
      OwnInfo(d, ptr, mid, str);
      if sub {
        WipeHeard(pages0, pages1, d.pages, ptr, keys, infos, str, e.info);
        WipedOne(keys, infos, calls, str, e.info);
        // the length byte is zero by the time the caller is told
        calls := calls + [[]];
        keys, infos := keys + [str], infos + [e.info];
      }
      r := 1;
    }
    if sub {
      ghost var pages2 := d.pages;
      DropPtr(d, ptr, x, mid, str, pages0, path0);
      DropHeard(d.cfg, pages0, pages2, d.path, d.root, d.pages, ptr, mid, keys, infos);
    } else {
      EndGone(d, ptr, mid, str);
    }
  }

  lemma OwnInfo(d: Dict, ptr: nat, mid: nat, str: Key)
    requires Tree(d.cfg, d.pages, d.path, d.root, {}) && ptr in d.path && ptr in d.pages && |str| == 1
    requires mid < |d.pages[ptr].slots| && d.pages[ptr].slots[mid].Ptr? && d.pages[ptr].slots[mid].ch == str[0]
    ensures Find(d.pages, ptr, str) == d.pages[ptr].slots[mid].info
  {
    PageSlots(d.cfg, d.pages, d.path, ptr);
    assert Hit(d.pages[ptr].slots, mid, str);
    SlotFindHit(d.cfg, d.pages, d.pages[ptr].slots, |d.path[ptr]|, mid, str);
  }

  lemma NoneWiped(str: Key)
    ensures Wiped([], [], [], str, true)
  {
  }

  lemma WipedOne(keys: seq<Key>, infos: seq<Info>, calls: seq<Info>, str: Key, info: Info)
    requires Wiped(keys, infos, calls, str, true)
    ensures Wiped(keys + [str], infos + [info], calls + [[]], str, true)
  {
  }

  lemma WipeHeard(pages0: Pages, pages1: Pages, pages2: Pages, ptr: nat, keys: seq<Key>, calls: seq<Info>, str: Key,
                  info: Info)
    requires Heard(pages0, pages1, ptr, keys, calls) && Trimmed(pages1, pages2, ptr, str, false)
    requires info != [] && Find(pages1, ptr, str) == info && Find(pages2, ptr, str) == []
    ensures Heard(pages0, pages2, ptr, keys + [str], calls + [info])
  {
    hide Heard, Find;
    HeardOne(pages0, pages1, pages2, ptr, keys, calls, str, info);
  }

  lemma DropHeard(cfg: Config, pages0: Pages, pages1: Pages, path: Paths, root: nat, pages2: Pages, ptr: nat, mid: nat,
                  keys: seq<Key>, calls: seq<Info>)
    requires Tree(cfg, pages1, path, root, {}) && ptr in path && ptr in pages1 && mid < |pages1[ptr].slots|
    requires pages1[ptr].slots[mid].Ptr? && pages1[ptr].slots[mid].info == [] && ptr in pages2
    requires pages2 == pages1[ptr := pages2[ptr]] && Heard(pages0, pages1, ptr, keys, calls)
    requires forall k :: Find(pages2, ptr, k) == FoundWithout(pages1, ptr, pages1[ptr].slots[mid], k)
    ensures HeardBut(pages0, pages2, ptr, keys, calls, pages1[ptr].slots[mid].ch, pages1[ptr].slots[mid].sub)
  {
    var e := pages1[ptr].slots[mid];
    var c, q := e.ch, e.sub;
    SubLive(cfg, pages1, path, root, ptr, mid);
    hide Find, Heard, HeardBut, Pending, Tree, TrieOk, Linked;
    forall k | q != 0
      ensures Find(pages2, q, k) == Find(pages1, q, k)
    {
      FindSame(cfg, pages1, path, pages2, q, k);
    }
    forall k
      ensures Pending(pages2, c, q, k) == if k != [] && k[0] == c then Find(pages1, ptr, k) else []
    {
      if k != [] && k[0] == c { BelowFound(cfg, pages1, path, ptr, mid, k); }
      DropPending(pages1, pages2, ptr, c, q, k);
    }
    WithoutPtr(pages1, pages2, ptr, e);
    hide FoundWithout;
    ButDrop(pages0, pages1, pages2, ptr, keys, calls, c, q);
  }

  lemma WithoutPtr(pages1: Pages, pages2: Pages, ptr: nat, e: Entry)
    requires e.Ptr? && forall k :: Find(pages2, ptr, k) == FoundWithout(pages1, ptr, e, k)
    ensures forall k :: Find(pages2, ptr, k) == if k != [] && k[0] == e.ch then [] else Find(pages1, ptr, k)
  {
    hide Find;
  }

  lemma BelowFound(cfg: Config, pages: Pages, path: Paths, ptr: nat, mid: nat, k: Key)
    requires TrieOk(cfg, pages, path) && ptr in path && ptr in pages && mid < |pages[ptr].slots|
    requires pages[ptr].slots[mid].Ptr? && pages[ptr].slots[mid].info == []
    requires k != [] && k[0] == pages[ptr].slots[mid].ch
    ensures var q := pages[ptr].slots[mid].sub;
      Find(pages, ptr, k) == if |k| > 1 && q != 0 then Find(pages, q, k[1..]) else []
  {
    PageSlots(cfg, pages, path, ptr);
    assert Hit(pages[ptr].slots, mid, k);
    SlotFindHit(cfg, pages, pages[ptr].slots, |path[ptr]|, mid, k);
  }

  lemma EndGone(d: Dict, ptr: nat, mid: nat, str: Key)
    requires Tree(d.cfg, d.pages, d.path, d.root, {}) && ptr in d.path && ptr in d.pages && |str| == 1
    requires mid < |d.pages[ptr].slots| && d.pages[ptr].slots[mid].Ptr? && d.pages[ptr].slots[mid].ch == str[0]
    requires d.pages[ptr].slots[mid].info == []
    ensures AllGone(d.pages, ptr, str, false)
  {
    PageSlots(d.cfg, d.pages, d.path, ptr);
    assert Hit(d.pages[ptr].slots, mid, str);
    SlotFindHit(d.cfg, d.pages, d.pages[ptr].slots, |d.path[ptr]|, mid, str);
  }

  lemma WipeFound(pages0: Pages, pages1: Pages, ptr: nat, e: Entry, str: Key, sub: bool)
    requires e.Ptr? && |str| == 1 && e.ch == str[0] && e.info == []
    requires forall key :: Find(pages1, ptr, key) == FoundAfter(pages0, ptr, e, key)
    requires forall key :: key != [] && Compare(e, key) == 0 && |key| > 1 ==>
      EntryFind(pages0, e, key) == Find(pages0, ptr, key)
    ensures Trimmed(pages0, pages1, ptr, str, sub)
  {
    forall k
      ensures Find(pages1, ptr, k) == Find(pages0, ptr, k) || (Doomed(k, str, sub) && Find(pages1, ptr, k) == [])
    {
      if k != [] && Compare(e, k) == 0 && |k| == 1 { assert k == str; }
    }
  }

  lemma PtrFound(cfg: Config, pages: Pages, path: Paths, ptr: nat, mid: nat)
    requires TrieOk(cfg, pages, path) && ptr in path && ptr in pages && mid < |pages[ptr].slots|
    requires pages[ptr].slots[mid].Ptr?
    ensures forall key :: key != [] && Compare(pages[ptr].slots[mid], key) == 0 ==>
      EntryFind(pages, pages[ptr].slots[mid], key) == Find(pages, ptr, key)
  {
    hide TrieOk, Find, EntryFind;
    forall key | key != [] && Compare(pages[ptr].slots[mid], key) == 0
      ensures EntryFind(pages, pages[ptr].slots[mid], key) == Find(pages, ptr, key)
    {
      PtrFoundKey(cfg, pages, path, ptr, mid, key);
    }
  }

  lemma WipeOk(cfg: Config, p: Page, mid: nat, depth: nat, path: Paths, x: Key)
    requires PageOk(cfg, p, depth) && mid < |p.slots| && p.slots[mid].Ptr? && SubsOk(p.slots, path, x)
    ensures var e := Ptr(p.slots[mid].ch, [], p.slots[mid].sub);
      && EntryOk(cfg, e, depth) && SamePlace(p.slots[mid], e) && SubsOk([e], path, x)
      && SizeOk(cfg, Page(true, p.backptr, p.size, p.slots[mid := e]))
  {
    SumUpdate(p.slots, mid, Ptr(p.slots[mid].ch, [], p.slots[mid].sub));
  }

  /** Empties the information of a pointer entry. */
  method Wipe(d: Dict, ptr: nat, ghost x: Key, mid: nat, ghost str: Key, ghost sub: bool, ghost pages0: Pages,
              ghost path0: Paths)
    requires |str| == 1 && Deleting(d, pages0, path0, ptr, x, str, sub, {})
    requires ptr in d.pages && mid < |d.pages[ptr].slots| && d.pages[ptr].slots[mid].Ptr?
    requires d.pages[ptr].slots[mid].ch == str[0]
    modifies d`pages
    ensures Deleting(d, pages0, path0, ptr, x, str, sub, {}) && ptr in d.pages
    ensures |d.pages[ptr].slots| == |old(d.pages[ptr].slots)|
    ensures d.pages[ptr].slots[mid] == Ptr(str[0], [], old(d.pages[ptr].slots[mid]).sub)
    ensures Trimmed(old(d.pages), d.pages, ptr, str, false)
  {
    hide *;
    DelValues(d, pages0, path0, ptr, x, str, sub);
    var p := d.pages[ptr];
    var e := Ptr(p.slots[mid].ch, [], p.slots[mid].sub);
    var p' := Page(true, p.backptr, p.size, p.slots[mid := e]);
    WipeStep(d.cfg, pages0, path0, d.pages, d.path, d.root, d.last, d.freelist, d.free, ptr, x, mid, str, sub);
    d.pages := d.pages[ptr := p'];
    Redo(d, pages0, path0, ptr, x, str, sub, {});
  }

  lemma DelValues(d: Dict, pages0: Pages, path0: Paths, ptr: nat, x: Key, str: Key, sub: bool)
    requires Deleting(d, pages0, path0, ptr, x, str, sub, {})
    ensures DelState(d.cfg, pages0, path0, d.pages, d.path, d.root, d.last, d.freelist, d.free, ptr, x, str, sub, {})
    ensures ptr in d.pages
  {
  }

  lemma Redo(d: Dict, pages0: Pages, path0: Paths, ptr: nat, x: Key, str: Key, sub: bool, orphans: set<Key>)
    requires DelState(d.cfg, pages0, path0, d.pages, d.path, d.root, d.last, d.freelist, d.free, ptr, x, str, sub,
                      orphans)
    ensures Deleting(d, pages0, path0, ptr, x, str, sub, orphans) && ptr in d.pages
  {
  }

  lemma WipeStep(cfg: Config, pages0: Pages, path0: Paths, pages: Pages, path: Paths, root: nat, last: nat,
                 freelist: nat, free: seq<nat>, ptr: nat, x: Key, mid: nat, str: Key, sub: bool)
    requires DelState(cfg, pages0, path0, pages, path, root, last, freelist, free, ptr, x, str, sub, {}) && |str| == 1
    requires mid < |pages[ptr].slots| && pages[ptr].slots[mid].Ptr? && pages[ptr].slots[mid].ch == str[0]
    ensures var p := pages[ptr];
      var p' := Page(true, p.backptr, p.size, p.slots[mid := Ptr(p.slots[mid].ch, [], p.slots[mid].sub)]);
      && DelState(cfg, pages0, path0, pages[ptr := p'], path, root, last, freelist, free, ptr, x, str, sub, {})
      && Trimmed(pages, pages[ptr := p'], ptr, str, false)
  {
    var p := pages[ptr];
    var e := Ptr(p.slots[mid].ch, [], p.slots[mid].sub);
    var p' := Page(true, p.backptr, p.size, p.slots[mid := e]);
    var pages' := pages[ptr := p'];
    hide SlotsOk, SubsOk, SizeOk, Shrunk, Trimmed, Find, FoundAfter;
    hide Conserved, PageOk, EntryOk, SamePlace, TrieOk, Linked, Tree;
    TreePage(cfg, pages, path, root, {}, ptr);
    WipeOk(cfg, p, mid, |x|, path, x);
    PtrFound(cfg, pages, path, ptr, mid);
    WipeTree(cfg, pages, path, root, ptr, mid, e, p');
    ConservedKept(pages, path, last, freelist, free, ptr, p');
    WipedFind(pages, ptr, p.slots[mid], e);
    WipeFound(pages, pages', ptr, e, str, sub);
    WipeFound(pages, pages', ptr, e, str, false);
    TrimmedTrans(pages0, pages, pages', ptr, str, sub);
    ShrunkHere(pages, path, ptr, p', x);
    ShrunkTrans(pages0, path0, pages, path, pages', path, x);
  }

  lemma WipedFind(pages: Pages, ptr: nat, e0: Entry, e: Entry)
    requires e0.Ptr? && e == Ptr(e0.ch, [], e0.sub)
    requires forall key :: key != [] && Compare(e0, key) == 0 ==> EntryFind(pages, e0, key) == Find(pages, ptr, key)
    ensures forall key :: key != [] && Compare(e, key) == 0 && |key| > 1 ==>
      EntryFind(pages, e, key) == Find(pages, ptr, key)
  {
    forall key | key != [] && Compare(e, key) == 0 && |key| > 1
      ensures EntryFind(pages, e, key) == Find(pages, ptr, key)
    {
      assert Compare(e0, key) == 0;
    }
  }

  lemma WipeTree(cfg: Config, pages: Pages, path: Paths, root: nat, ptr: nat, mid: nat, e: Entry, p: Page)
    requires Tree(cfg, pages, path, root, {}) && ptr in path && ptr in pages && mid < |pages[ptr].slots|
    requires SamePlace(pages[ptr].slots[mid], e) && EntryOk(cfg, e, |path[ptr]|) && SubsOk([e], path, path[ptr])
    requires p.slots == pages[ptr].slots[mid := e] && SizeOk(cfg, p)
    ensures Tree(cfg, pages[ptr := p], path, root, {})
    ensures forall key :: Find(pages[ptr := p], ptr, key) == FoundAfter(pages, ptr, e, key)
  {
    ReplaceFind(cfg, pages, path, ptr, mid, e, p);
    KeepsReplace(pages[ptr].slots, mid, e);
    LinkedKept(pages, path, root, {}, ptr, p);
  }

  lemma TreePage(cfg: Config, pages: Pages, path: Paths, root: nat, orphans: set<Key>, ptr: nat)
    requires Tree(cfg, pages, path, root, orphans) && ptr in path
    ensures ptr in pages && PageOk(cfg, pages[ptr], |path[ptr]|) && SubsOk(pages[ptr].slots, path, path[ptr])
    ensures TrieOk(cfg, pages, path) && ValidConfig(cfg)
    ensures SlotsOk(cfg, pages[ptr].slots, |path[ptr]|)
  {
  }

  /** Removes the pointer entry for a whole doomed subtree. */
  method DropPtr(d: Dict, ptr: nat, ghost x: Key, mid: nat, ghost str: Key, ghost pages0: Pages, ghost path0: Paths)
    requires |str| == 1 && Deleting(d, pages0, path0, ptr, x, str, true, {})
    requires mid < |d.pages[ptr].slots| && d.pages[ptr].slots[mid].Ptr? && d.pages[ptr].slots[mid].ch == str[0]
    modifies d`pages
    ensures Deleting(d, pages0, path0, ptr, x, str, true, Left(old(d.pages[ptr].slots[mid]), x + str))
    ensures AllGone(d.pages, ptr, str, true) && NoPage(d.pages[ptr].slots, str[0])
    ensures ptr in d.pages && d.pages == old(d.pages)[ptr := d.pages[ptr]]
    ensures |d.pages[ptr].slots| == |old(d.pages)[ptr].slots| - 1
    ensures forall k :: Find(d.pages, ptr, k) == FoundWithout(old(d.pages), ptr, old(d.pages)[ptr].slots[mid], k)
  {
    hide *;
    DelValues(d, pages0, path0, ptr, x, str, true);
    var p := d.pages[ptr];
    ghost var orphans := Left(p.slots[mid], x + str);
    DropPtrStep(d.cfg, pages0, path0, d.pages, d.path, d.root, d.last, d.freelist, d.free, ptr, x, mid, str);
    d.pages := d.pages[ptr := Page(true, p.backptr, p.size, p.slots[..mid] + p.slots[mid + 1..])];
    Redo(d, pages0, path0, ptr, x, str, true, orphans);
  }

  /** The path left unlinked when an entry goes. */
  ghost function Left(e: Entry, y: Key): set<Key> {
    if e.Ptr? && e.sub != 0 then {y} else {}
  }

  lemma DropPtrEntry(cfg: Config, pages: Pages, path: Paths, root: nat, ptr: nat, mid: nat, str: Key)
    requires Tree(cfg, pages, path, root, {}) && ptr in path && ptr in pages && mid < |pages[ptr].slots|
    requires pages[ptr].slots[mid].Ptr? && str == [pages[ptr].slots[mid].ch]
    ensures var p, e := pages[ptr], pages[ptr].slots[mid];
      var pages' := pages[ptr := Without(p, mid, true)];
      && Tree(cfg, pages', path, root, Left(e, path[ptr] + str))
      && (forall key :: Find(pages', ptr, key) == FoundWithout(pages, ptr, e, key))
      && NoPage(Without(p, mid, true).slots, str[0])
  {
    TreePage(cfg, pages, path, root, {}, ptr);
    hide *;
    DropEntry(cfg, pages, path, root, {}, ptr, mid, true);
    var y := Left(pages[ptr].slots[mid], path[ptr] + str);
    assert {} + y == y;
    GoneSlot(cfg, pages[ptr], mid, |path[ptr]|, true);
  }

  lemma DropPtrStep(cfg: Config, pages0: Pages, path0: Paths, pages: Pages, path: Paths, root: nat, last: nat,
                    freelist: nat, free: seq<nat>, ptr: nat, x: Key, mid: nat, str: Key)
    requires DelState(cfg, pages0, path0, pages, path, root, last, freelist, free, ptr, x, str, true, {}) && |str| == 1
    requires mid < |pages[ptr].slots| && pages[ptr].slots[mid].Ptr? && pages[ptr].slots[mid].ch == str[0]
    ensures var p := pages[ptr];
      var p' := Page(true, p.backptr, p.size, p.slots[..mid] + p.slots[mid + 1..]);
      && DelState(cfg, pages0, path0, pages[ptr := p'], path, root, last, freelist, free, ptr, x, str, true,
                  Left(p.slots[mid], x + str))
      && AllGone(pages[ptr := p'], ptr, str, true) && NoPage(p'.slots, str[0])
      && forall k :: Find(pages[ptr := p'], ptr, k) == FoundWithout(pages, ptr, p.slots[mid], k)
  {
    var p, e := pages[ptr], pages[ptr].slots[mid];
    var p' := Without(p, mid, true);
    var pages' := pages[ptr := p'];
    hide SlotsOk, SubsOk, SizeOk, Shrunk, Trimmed, Find, FoundWithout;
    hide Conserved, PageOk, TrieOk, Linked, Tree, AllGone, NoPage, Left;
    DropPtrEntry(cfg, pages, path, root, ptr, mid, str);
    ConservedKept(pages, path, last, freelist, free, ptr, p');
    PtrDropped(pages, pages', ptr, e, str);
    TrimmedTrans(pages0, pages, pages', ptr, str, true);
    ShrunkHere(pages, path, ptr, p', x);
    ShrunkTrans(pages0, path0, pages, path, pages', path, x);
  }

  lemma GoneSlot(cfg: Config, p: Page, mid: nat, depth: nat, dirty: bool)
    requires SlotsOk(cfg, p.slots, depth) && mid < |p.slots| && p.slots[mid].Ptr?
    ensures NoPage(Without(p, mid, dirty).slots, p.slots[mid].ch)
  {
    var t := Without(p, mid, dirty).slots;
    forall i | 0 <= i < |t| && t[i].Ptr?
      ensures t[i].ch != p.slots[mid].ch
    {
      PtrsDiffer(cfg, p.slots, depth, if i < mid then i else i + 1, mid);
    }
  }

  lemma PtrDropped(pages0: Pages, pages1: Pages, ptr: nat, e: Entry, str: Key)
    requires e.Ptr? && str == [e.ch]
    requires forall key :: Find(pages1, ptr, key) == FoundWithout(pages0, ptr, e, key)
    ensures Trimmed(pages0, pages1, ptr, str, true) && AllGone(pages1, ptr, str, true)
  {
    forall k
      ensures Find(pages1, ptr, k) == Find(pages0, ptr, k) || (Doomed(k, str, true) && Find(pages1, ptr, k) == [])
      ensures Doomed(k, str, true) ==> Find(pages1, ptr, k) == []
    {
      if k != [] && k[0] == e.ch { assert k == str + k[1..]; }
    }
  }

  // ---------------------------------------------------------------- descending

  /** Deleting the rest of str below the pointer entry mid deletes str from the page. */
  lemma AscendFind(cfg: Config, pages0: Pages, path0: Paths, pages1: Pages, ptr: nat, mid: nat, str: Key, sub: bool)
    requires TrieOk(cfg, pages0, path0) && ptr in path0 && mid < |pages0[ptr].slots|
    requires pages0[ptr].slots[mid].Ptr? && |str| > 1 && str[0] == pages0[ptr].slots[mid].ch
    requires Kept(pages0, path0, pages1, path0[ptr] + [str[0]])
    requires var q := pages0[ptr].slots[mid].sub;
      q != 0 ==> Trimmed(pages0, pages1, q, str[1..], sub) && AllGone(pages1, q, str[1..], sub)
    ensures Trimmed(pages0, pages1, ptr, str, sub) && AllGone(pages1, ptr, str, sub)
    ensures ptr in pages1 && pages1[ptr] == pages0[ptr]
  {
    var s, x := pages0[ptr].slots, path0[ptr];
    AboveKept(pages0, path0, pages1, ptr, x, str[0]);
    PageSlots(cfg, pages0, path0, ptr);
    forall k
      ensures Find(pages1, ptr, k) == Find(pages0, ptr, k) || (Doomed(k, str, sub) && Find(pages1, ptr, k) == [])
      ensures Doomed(k, str, sub) ==> Find(pages1, ptr, k) == []
    {
      if k != [] {
        AscendKey(cfg, pages0, path0, pages1, ptr, mid, str, sub, k);
      }
    }
  }

  lemma AscendKey(cfg: Config, pages0: Pages, path0: Paths, pages1: Pages, ptr: nat, mid: nat, str: Key, sub: bool,
                  k: Key)
    requires TrieOk(cfg, pages0, path0) && ptr in path0 && mid < |pages0[ptr].slots|
    requires pages0[ptr].slots[mid].Ptr? && |str| > 1 && str[0] == pages0[ptr].slots[mid].ch
    requires Kept(pages0, path0, pages1, path0[ptr] + [str[0]])
    requires var q := pages0[ptr].slots[mid].sub;
      q != 0 ==> Trimmed(pages0, pages1, q, str[1..], sub) && AllGone(pages1, q, str[1..], sub)
    requires k != []
    ensures var s := pages0[ptr].slots;
      && (SlotFind(pages1, s, k) == SlotFind(pages0, s, k) || (Doomed(k, str, sub) && SlotFind(pages1, s, k) == []))
      && (Doomed(k, str, sub) ==> SlotFind(pages1, s, k) == [])
  {
    var s, n := pages0[ptr].slots, |path0[ptr]|;
    PageSlots(cfg, pages0, path0, ptr);
    if Doomed(k, str, sub) {
      assert k[0] == str[0] && Doomed(k[1..], str[1..], sub);
      assert Hit(s, mid, k);
      SlotFindHit(cfg, pages1, s, n, mid, k);
    } else if j :| Hit(s, j, k) {
      SlotFindHit(cfg, pages0, s, n, j, k);
      SlotFindHit(cfg, pages1, s, n, j, k);
      if j != mid {
        OtherEntry(cfg, pages0, path0, pages1, ptr, mid, j, k);
      } else {
        NotDoomed(k, str, sub);
      }
    }
  }

  lemma NotDoomed(k: Key, str: Key, sub: bool)
    requires k != [] && str != [] && k[0] == str[0] && !Doomed(k, str, sub)
    ensures !Doomed(k[1..], str[1..], sub)
  {
    assert k == [k[0]] + k[1..] && str == [str[0]] + str[1..];
  }

  /** A child page that is empty and no longer pointed to can leave the tree. */
  lemma ChildGone(cfg: Config, pages: Pages, path: Paths, root: nat, ptr: nat, c: int, q: nat)
    requires ptr in path && q in path && path[q] == path[ptr] + [c] && q != root
    requires Tree(cfg, pages, path, root, {path[ptr] + [c]})
    requires pages[q].slots == [] && NoPage(pages[ptr].slots, c)
    ensures Tree(cfg, pages, path - {q}, root, {})
  {
    ChildGoneTrie(cfg, pages, path, root, ptr, c, q);
    ChildGoneLinks(pages, path, root, ptr, c, q);
  }

  /** Only the page one character above can point to a page. */
  lemma PointerHome(pages: Pages, path: Paths, ptr: nat, c: int, q: nat, r: nat, i: nat)
    requires forall q, r :: q in path && r in path && path[q] == path[r] ==> q == r
    requires ptr in path && q in path && path[q] == path[ptr] + [c] && q != 0
    requires r in path && r in pages && SubsOk(pages[r].slots, path, path[r])
    requires i < |pages[r].slots| && pages[r].slots[i].Ptr? && pages[r].slots[i].sub == q
    ensures r == ptr && PointsTo(pages[ptr].slots, c, q)
  {
    OnlyParent(path[r], pages[r].slots[i].ch, path[ptr], c);
  }

  lemma ChildGoneTrie(cfg: Config, pages: Pages, path: Paths, root: nat, ptr: nat, c: int, q: nat)
    requires ptr in path && q in path && path[q] == path[ptr] + [c]
    requires Tree(cfg, pages, path, root, {path[ptr] + [c]})
    requires NoPage(pages[ptr].slots, c)
    ensures TrieOk(cfg, pages, path - {q})
  {
    hide PageOk, SubsOk, NoPage;
    forall r | r in path - {q}
      ensures SubsOk(pages[r].slots, path - {q}, path[r])
    {
      ChildSubs(pages, path, ptr, c, q, r);
    }
    hide Linked, Tree;
    RestrictTrie(cfg, pages, path, path - {q});
  }

  lemma ChildSubs(pages: Pages, path: Paths, ptr: nat, c: int, q: nat, r: nat)
    requires forall q, r :: q in path && r in path && path[q] == path[r] ==> q == r
    requires ptr in path && ptr in pages && q in path && path[q] == path[ptr] + [c] && q != 0
    requires r in path && r in pages && SubsOk(pages[r].slots, path, path[r])
    requires NoPage(pages[ptr].slots, c)
    ensures SubsOk(pages[r].slots, path - {q}, path[r])
  {
    forall i: nat | i < |pages[r].slots| && pages[r].slots[i].Ptr? && pages[r].slots[i].sub != 0
      ensures pages[r].slots[i].sub != q
    {
      if pages[r].slots[i].sub == q { PointerHome(pages, path, ptr, c, q, r, i); }
    }
  }

  /** A smaller set of live pages, closed under subpages, is as good a trie. */
  lemma RestrictTrie(cfg: Config, pages: Pages, path: Paths, path': Paths)
    requires TrieOk(cfg, pages, path)
    requires forall q :: q in path' ==> q in path && path'[q] == path[q] && SubsOk(pages[q].slots, path', path'[q])
    ensures TrieOk(cfg, pages, path')
  {
    hide PageOk, SubsOk, ValidConfig;
  }

  lemma ChildGoneLinks(pages: Pages, path: Paths, root: nat, ptr: nat, c: int, q: nat)
    requires ptr in path && q in path && path[q] == path[ptr] + [c] && q != root
    requires Linked(pages, path, root, {path[ptr] + [c]})
    requires q in pages && pages[q].slots == []
    ensures Linked(pages, path - {q}, root, {})
  {
    var path' := path - {q};
    forall r | r in path' && r != root
      ensures exists t :: Parent(pages, path', t, r)
    {
      var t :| Parent(pages, path, t, r);
      assert Parent(pages, path', t, r);
    }
  }

  lemma OnlyParent(x: Key, b: int, y: Key, c: int)
    requires x + [b] == y + [c]
    ensures x == y && b == c
  {
    assert (x + [b])[..|x|] == x && (y + [c])[..|y|] == y;
    assert (x + [b])[|x|] == b && (y + [c])[|y|] == c;
  }

  /** What deleting str at page ptr with path x comes to. Code 2 means the page was released;
      its parent's entry still leads to it, and it counts as an empty page until that goes. */
  ghost predicate DelDone(cfg: Config, pages0: Pages, path0: Paths, pages: Pages, path: Paths, root: nat, last: nat,
                          freelist: nat, free: seq<nat>, ptr: nat, x: Key, str: Key, sub: bool, r: int)
  {
    var lp := if r == 2 then path[ptr := x] else path;
    && 0 <= r <= 2
    && Tree(cfg, pages, lp, root, {}) && Conserved(pages, path, last, freelist, free)
    && ptr in lp && ptr in pages && lp[ptr] == x && root in path
    && Shrunk(pages0, path0, pages, lp, x)
    && Trimmed(pages0, pages, ptr, str, sub) && AllGone(pages, ptr, str, sub)
    && (r == 2 ==> ptr !in path && ptr != root && pages[ptr].slots == [])
    && (!sub && Find(pages0, ptr, str) != [] ==> r >= 1)
  }

  /** The child's deletion, seen from the page above it. */
  lemma DownSeen(cfg: Config, pages0: Pages, path0: Paths, pages: Pages, path: Paths, root: nat, last: nat,
                 freelist: nat, free: seq<nat>, ptr: nat, mid: nat, str: Key, sub: bool, r: int)
    requires TrieOk(cfg, pages0, path0) && ptr in path0 && ptr in pages0 && mid < |pages0[ptr].slots|
    requires pages0[ptr].slots[mid].Ptr? && |str| > 1 && str[0] == pages0[ptr].slots[mid].ch
    requires pages0[ptr].slots[mid].sub != 0
    requires var q := pages0[ptr].slots[mid].sub;
      q in path0 && DelDone(cfg, pages0, path0, pages, path, root, last, freelist, free, q, path0[ptr] + [str[0]],
                            str[1..], sub, r)
    ensures var q, x, y := pages0[ptr].slots[mid].sub, path0[ptr], path0[ptr] + [str[0]];
      var lp := if r == 2 then path[q := y] else path;
      && Tree(cfg, pages, lp, root, {}) && Conserved(pages, path, last, freelist, free)
      && ptr in path && ptr in pages && path[ptr] == x && root in path && pages[ptr] == pages0[ptr]
      && Shrunk(pages0, path0, pages, lp, x) && Trimmed(pages0, pages, ptr, str, sub) && AllGone(pages, ptr, str, sub)
      && (r == 2 ==> q in lp && lp[q] == y && q !in path && q != root && q in pages && pages[q].slots == [])
      && (!sub && Find(pages0, ptr, str) != [] ==> r >= 1)
  {
    var q, x, y := pages0[ptr].slots[mid].sub, path0[ptr], path0[ptr] + [str[0]];
    hide Tree, Conserved, Trimmed, AllGone, SlotsOk, TrieOk, Shrunk, Kept, Find;
    assert x < y;
    ShrunkAbove(pages0, path0, pages, if r == 2 then path[q := y] else path, x, y, ptr);
    AscendFind(cfg, pages0, path0, pages, ptr, mid, str, sub);
    DownFound(cfg, pages0, path0, ptr, mid, str);
  }

  lemma ShrunkAbove(pages0: Pages, path0: Paths, pages1: Pages, path1: Paths, x: Key, y: Key, ptr: nat)
    requires Shrunk(pages0, path0, pages1, path1, y) && x < y && ptr in path0 && path0[ptr] == x && ptr in pages0
    ensures Shrunk(pages0, path0, pages1, path1, x) && Kept(pages0, path0, pages1, y)
    ensures ptr in path1 && path1[ptr] == x && ptr in pages1 && pages1[ptr] == pages0[ptr]
  {
    assert !(y <= x);
  }

  lemma DownFound(cfg: Config, pages: Pages, path: Paths, ptr: nat, mid: nat, str: Key)
    requires TrieOk(cfg, pages, path) && ptr in path && mid < |pages[ptr].slots|
    requires pages[ptr].slots[mid].Ptr? && |str| > 1 && str[0] == pages[ptr].slots[mid].ch
    ensures Find(pages, ptr, str) == if pages[ptr].slots[mid].sub == 0 then []
      else Find(pages, pages[ptr].slots[mid].sub, str[1..])
  {
    PageSlots(cfg, pages, path, ptr);
    assert Hit(pages[ptr].slots, mid, str);
    SlotFindHit(cfg, pages, pages[ptr].slots, |path[ptr]|, mid, str);
  }

  /** The page mid leads to was released and is empty. */
  ghost predicate ChildReleased(cfg: Config, pages: Pages, path: Paths, root: nat, ptr: nat, mid: nat) {
    && ptr in path && ptr in pages && mid < |pages[ptr].slots| && pages[ptr].slots[mid].Ptr?
    && var q, y := pages[ptr].slots[mid].sub, path[ptr] + [pages[ptr].slots[mid].ch];
      && q != 0 && q !in path && q != root && q in pages && pages[q].slots == [] && root in path
      && Tree(cfg, pages, path[q := y], root, {})
  }

  lemma EmptyChild(cfg: Config, pages: Pages, path: Paths, root: nat, ptr: nat, mid: nat)
    requires ChildReleased(cfg, pages, path, root, ptr, mid)
    ensures forall key :: key != [] && Compare(pages[ptr].slots[mid], key) == 0 ==>
      Find(pages, ptr, key) == if |key| == 1 then pages[ptr].slots[mid].info else []
  {
    hide TrieOk, Linked, Tree, Find, SlotFind, EntryFind;
    forall key | key != [] && Compare(pages[ptr].slots[mid], key) == 0
      ensures Find(pages, ptr, key) == if |key| == 1 then pages[ptr].slots[mid].info else []
    {
      EmptyChildKey(cfg, pages, path, root, ptr, mid, key);
    }
  }

  lemma EmptyChildKey(cfg: Config, pages: Pages, path: Paths, root: nat, ptr: nat, mid: nat, key: Key)
    requires ChildReleased(cfg, pages, path, root, ptr, mid)
    requires key != [] && Compare(pages[ptr].slots[mid], key) == 0
    ensures Find(pages, ptr, key) == if |key| == 1 then pages[ptr].slots[mid].info else []
  {
    var e := pages[ptr].slots[mid];
    var lp := path[e.sub := path[ptr] + [e.ch]];
    hide TrieOk, Linked, Find, SlotFind;
    NothingFound(pages, e.sub);
    PtrFoundKey(cfg, pages, lp, ptr, mid, key);
  }

  lemma PtrFoundKey(cfg: Config, pages: Pages, path: Paths, ptr: nat, mid: nat, key: Key)
    requires TrieOk(cfg, pages, path) && ptr in path && mid < |pages[ptr].slots| && key != []
    requires Compare(pages[ptr].slots[mid], key) == 0
    ensures EntryFind(pages, pages[ptr].slots[mid], key) == Find(pages, ptr, key)
  {
    PageSlots(cfg, pages, path, ptr);
    SlotFindHit(cfg, pages, pages[ptr].slots, |path[ptr]|, mid, key);
  }

  lemma NothingFound(pages: Pages, q: nat)
    requires q in pages && pages[q].slots == []
    ensures forall key :: Find(pages, q, key) == []
  {
  }

  lemma TreeParts(cfg: Config, pages: Pages, path: Paths, root: nat, orphans: set<Key>, ptr: nat)
    requires Tree(cfg, pages, path, root, orphans) && ptr in path
    ensures TrieOk(cfg, pages, path) && Linked(pages, path, root, orphans)
    ensures forall q :: q in path ==> q in pages && q != 0
    ensures PageOk(cfg, pages[ptr], |path[ptr]|) && SlotsOk(cfg, pages[ptr].slots, |path[ptr]|)
  {
  }

  lemma TreeJoin(cfg: Config, pages: Pages, path: Paths, root: nat, orphans: set<Key>)
    requires TrieOk(cfg, pages, path) && Linked(pages, path, root, orphans)
    ensures Tree(cfg, pages, path, root, orphans)
  {
  }

  lemma UnlinkLinks(pages: Pages, path: Paths, root: nat, ptr: nat, mid: nat, p: Page, q: nat, c: int)
    requires Linked(pages, path, root, {}) && ptr in path && ptr in pages && mid < |pages[ptr].slots|
    requires forall r :: r in path ==> r in pages && r != 0
    requires pages[ptr].slots[mid].Ptr? && pages[ptr].slots[mid].sub == q && pages[ptr].slots[mid].ch == c
    requires q in path && path[q] == path[ptr] + [c]
    requires p.slots == pages[ptr].slots[mid := Ptr(c, pages[ptr].slots[mid].info, 0)]
    ensures Linked(pages[ptr := p], path, root, {path[ptr] + [c]})
  {
    var s, pages' := pages[ptr].slots, pages[ptr := p];
    forall r | r in path && r != root && path[r] != path[ptr] + [c]
      ensures exists t :: Parent(pages', path, t, r)
    {
      var t :| Parent(pages, path, t, r);
      if t == ptr {
        var b := path[r][|path[r]| - 1];
        var i :| 0 <= i < |s| && s[i].Ptr? && s[i].ch == b && s[i].sub == r;
        assert p.slots[i] == s[i];
      }
      assert Parent(pages', path, t, r);
    }
  }

  lemma UnlinkEntry(cfg: Config, p: Page, mid: nat, depth: nat, path: Paths, x: Key)
    requires PageOk(cfg, p, depth) && mid < |p.slots| && p.slots[mid].Ptr?
    ensures var e := Ptr(p.slots[mid].ch, p.slots[mid].info, 0);
      && EntryOk(cfg, e, depth) && SameSpot(p.slots[mid], e) && SubsOk([e], path, x)
      && SizeOk(cfg, Page(p.dirty, p.backptr, p.size, p.slots[mid := e]))
      && NoPage(p.slots[mid := e], e.ch)
  {
    var e := Ptr(p.slots[mid].ch, p.slots[mid].info, 0);
    SumUpdate(p.slots, mid, e);
    forall i | 0 <= i < |p.slots| && p.slots[i].Ptr? && i != mid
      ensures p.slots[i].ch != e.ch
    {
      PtrsDiffer(cfg, p.slots, depth, i, mid);
    }
  }

  lemma ForgetChild(cfg: Config, pages: Pages, path: Paths, root: nat, ptr: nat, c: int, q: nat)
    requires ptr in path && q !in path && q != root && ptr in pages && q in pages
    requires Tree(cfg, pages, path[q := path[ptr] + [c]], root, {path[ptr] + [c]})
    requires pages[q].slots == [] && NoPage(pages[ptr].slots, c)
    ensures Tree(cfg, pages, path, root, {})
  {
    hide Tree, NoPage;
    var lp := path[q := path[ptr] + [c]];
    ChildGone(cfg, pages, lp, root, ptr, c, q);
    assert lp - {q} == path;
  }

  /** The entry has information of its own: it stays, without a subpage. */
  lemma UnlinkStep(cfg: Config, pages: Pages, path: Paths, root: nat, ptr: nat, mid: nat, p: Page)
    requires ChildReleased(cfg, pages, path, root, ptr, mid)
    requires var p0 := pages[ptr];
      p == Page(p0.dirty, p0.backptr, p0.size, p0.slots[mid := Ptr(p0.slots[mid].ch, p0.slots[mid].info, 0)])
    ensures Tree(cfg, pages[ptr := p], path, root, {}) && Same(pages, pages[ptr := p], ptr)
  {
    var e0, x := pages[ptr].slots[mid], path[ptr];
    var e, q, y := Ptr(e0.ch, e0.info, 0), e0.sub, x + [e0.ch];
    var lp := path[q := y];
    hide Tree, TrieOk, Linked, SlotsOk, SubsOk, SizeOk, PageOk, Find, SlotFind, NoPage, EntryOk, SameSpot, FoundAfter;
    TreeParts(cfg, pages, lp, root, {}, ptr);
    UnlinkEntry(cfg, pages[ptr], mid, |x|, lp, x);
    ReplaceFind(cfg, pages, lp, ptr, mid, e, p);
    UnlinkLinks(pages, lp, root, ptr, mid, p, q, e0.ch);
    EmptyChild(cfg, pages, path, root, ptr, mid);
    TreeJoin(cfg, pages[ptr := p], lp, root, {y});
    ForgetChild(cfg, pages[ptr := p], path, root, ptr, e0.ch, q);
    UnlinkSame(pages, pages[ptr := p], ptr, e0, e);
  }

  lemma UnlinkSame(pages: Pages, pages': Pages, ptr: nat, e0: Entry, e: Entry)
    requires e0.Ptr? && e == Ptr(e0.ch, e0.info, 0)
    requires forall key :: Find(pages', ptr, key) == FoundAfter(pages, ptr, e, key)
    requires forall key :: key != [] && Compare(e0, key) == 0 ==>
      Find(pages, ptr, key) == if |key| == 1 then e0.info else []
    ensures Same(pages, pages', ptr)
  {
    forall key
      ensures Find(pages', ptr, key) == Find(pages, ptr, key)
    {
      if key != [] && Compare(e, key) == 0 {
        assert Compare(e0, key) == 0;
      }
    }
  }

  /** The entry only led to its subpage: it goes. */
  lemma UnneededStep(cfg: Config, pages: Pages, path: Paths, root: nat, ptr: nat, mid: nat, p: Page)
    requires ChildReleased(cfg, pages, path, root, ptr, mid) && pages[ptr].slots[mid].info == []
    requires p == Without(pages[ptr], mid, pages[ptr].dirty)
    ensures Tree(cfg, pages[ptr := p], path, root, {}) && Same(pages, pages[ptr := p], ptr)
  {
    var e, x := pages[ptr].slots[mid], path[ptr];
    var q, y := e.sub, x + [e.ch];
    var lp := path[q := y];
    var none: set<Key> := {};
    hide Tree, TrieOk, Linked, SlotsOk, SubsOk, SizeOk, PageOk, Find, SlotFind, NoPage, EntryOk, FoundWithout;
    TreeParts(cfg, pages, lp, root, {}, ptr);
    DropEntry(cfg, pages, lp, root, none, ptr, mid, pages[ptr].dirty);
    assert none + {y} == {y};
    GoneSlot(cfg, pages[ptr], mid, |x|, pages[ptr].dirty);
    EmptyChild(cfg, pages, path, root, ptr, mid);
    ForgetChild(cfg, pages[ptr := p], path, root, ptr, e.ch, q);
    UnneededSame(pages, pages[ptr := p], ptr, e);
  }

  lemma UnneededSame(pages: Pages, pages': Pages, ptr: nat, e: Entry)
    requires e.Ptr? && e.info == []
    requires forall key :: Find(pages', ptr, key) == FoundWithout(pages, ptr, e, key)
    requires forall key :: key != [] && Compare(e, key) == 0 ==>
      Find(pages, ptr, key) == if |key| == 1 then e.info else []
    ensures Same(pages, pages', ptr)
  {
    forall key
      ensures Find(pages', ptr, key) == Find(pages, ptr, key)
    {
    }
  }

  lemma SameTrimmed(pages0: Pages, pages1: Pages, pages2: Pages, ptr: nat, str: Key, sub: bool)
    requires Trimmed(pages0, pages1, ptr, str, sub) && AllGone(pages1, ptr, str, sub) && Same(pages1, pages2, ptr)
    ensures Trimmed(pages0, pages2, ptr, str, sub) && AllGone(pages2, ptr, str, sub)
  {
  }

  /** Where a deletion stands at page ptr once the keys below its entry mid are gone. */
  ghost predicate DownDone(cfg: Config, pages0: Pages, path0: Paths, pages: Pages, path: Paths, root: nat, last: nat,
                           freelist: nat, free: seq<nat>, ptr: nat, x: Key, str: Key, sub: bool)
  {
    && DelState(cfg, pages0, path0, pages, path, root, last, freelist, free, ptr, x, str, sub, {})
    && AllGone(pages, ptr, str, sub)
  }

  lemma ShrunkDrop(pages0: Pages, path0: Paths, pages: Pages, path: Paths, q: nat, y: Key, ptr: nat, x: Key, p: Page)
    requires Shrunk(pages0, path0, pages, path[q := y], x) && q !in path && x < y && ptr in path && path[ptr] == x
    ensures Shrunk(pages0, path0, pages[ptr := p], path, x)
  {
    assert q in path[q := y];
  }

  lemma AfterRelease(cfg: Config, pages0: Pages, path0: Paths, pages: Pages, path: Paths, root: nat, last: nat,
                     freelist: nat, free: seq<nat>, ptr: nat, mid: nat, str: Key, sub: bool, p: Page)
    requires ptr in path0 && ptr in pages0 && mid < |pages0[ptr].slots| && pages0[ptr].slots[mid].Ptr?
    requires TrieOk(cfg, pages0, path0) && |str| > 1 && str[0] == pages0[ptr].slots[mid].ch
    requires pages0[ptr].slots[mid].sub != 0
    requires pages0[ptr].slots[mid].sub in path0
    requires DelDone(cfg, pages0, path0, pages, path, root, last, freelist, free, pages0[ptr].slots[mid].sub,
                     path0[ptr] + [str[0]], str[1..], sub, 2)
    requires var p0 := pages0[ptr];
      if p0.slots[mid].info != []
      then p == Page(p0.dirty, p0.backptr, p0.size, p0.slots[mid := Ptr(p0.slots[mid].ch, p0.slots[mid].info, 0)])
      else p == Page(p0.dirty, p0.backptr, p0.size, p0.slots[..mid] + p0.slots[mid + 1..])
    ensures ptr in path && ptr in pages
    ensures DownDone(cfg, pages0, path0, pages[ptr := p], path, root, last, freelist, free, ptr, path0[ptr], str, sub)
    ensures Same(pages, pages[ptr := p], ptr)
  {
    var q, x, y := pages0[ptr].slots[mid].sub, path0[ptr], path0[ptr] + [str[0]];
    hide Tree, Conserved, Trimmed, AllGone, TrieOk, Shrunk, Same, DelDone, Find, NoPage;
    DownSeen(cfg, pages0, path0, pages, path, root, last, freelist, free, ptr, mid, str, sub, 2);
    assert ChildReleased(cfg, pages, path, root, ptr, mid);
    if pages0[ptr].slots[mid].info != [] {
      UnlinkStep(cfg, pages, path, root, ptr, mid, p);
    } else {
      UnneededStep(cfg, pages, path, root, ptr, mid, p);
    }
    SameTrimmed(pages0, pages, pages[ptr := p], ptr, str, sub);
    ConservedKept(pages, path, last, freelist, free, ptr, p);
    ShrunkDrop(pages0, path0, pages, path, q, y, ptr, x, p);
  }

  lemma AfterDown(cfg: Config, pages0: Pages, path0: Paths, pages: Pages, path: Paths, root: nat, last: nat,
                  freelist: nat, free: seq<nat>, ptr: nat, mid: nat, str: Key, sub: bool, r: int)
    requires ptr in path0 && ptr in pages0 && mid < |pages0[ptr].slots| && pages0[ptr].slots[mid].Ptr?
    requires TrieOk(cfg, pages0, path0) && |str| > 1 && str[0] == pages0[ptr].slots[mid].ch
    requires pages0[ptr].slots[mid].sub != 0
    requires pages0[ptr].slots[mid].sub in path0 && r != 2
    requires DelDone(cfg, pages0, path0, pages, path, root, last, freelist, free, pages0[ptr].slots[mid].sub,
                     path0[ptr] + [str[0]], str[1..], sub, r)
    ensures DownDone(cfg, pages0, path0, pages, path, root, last, freelist, free, ptr, path0[ptr], str, sub)
    ensures 0 <= r <= 1 && (!sub && Find(pages0, ptr, str) != [] ==> r >= 1)
  {
    hide Tree, Conserved, Trimmed, AllGone, TrieOk, Shrunk, Find;
    DownSeen(cfg, pages0, path0, pages, path, root, last, freelist, free, ptr, mid, str, sub, r);
  }

  lemma NoSubpage(cfg: Config, pages: Pages, path: Paths, root: nat, last: nat, freelist: nat, free: seq<nat>, ptr: nat,
                  mid: nat, str: Key, sub: bool)
    requires Tree(cfg, pages, path, root, {}) && Conserved(pages, path, last, freelist, free)
    requires ptr in path && root in path && ptr in pages && mid < |pages[ptr].slots| && pages[ptr].slots[mid].Ptr?
    requires |str| > 1 && str[0] == pages[ptr].slots[mid].ch && pages[ptr].slots[mid].sub == 0
    ensures DownDone(cfg, pages, path, pages, path, root, last, freelist, free, ptr, path[ptr], str, sub)
    ensures Find(pages, ptr, str) == []
  {
    hide Tree, Conserved, Linked;
    assert TrieOk(cfg, pages, path) by { TreeParts(cfg, pages, path, root, {}, ptr); }
    AscendFind(cfg, pages, path, pages, ptr, mid, str, sub);
    DownFound(cfg, pages, path, ptr, mid, str);
    assert Shrunk(pages, path, pages, path, path[ptr]);
  }

  lemma QuietDown(cfg: Config, pages: Pages, path: Paths, root: nat, ptr: nat, mid: nat, str: Key)
    requires Tree(cfg, pages, path, root, {}) && ptr in path && ptr in pages && |str| > 1
    requires mid < |pages[ptr].slots| && pages[ptr].slots[mid].Ptr? && pages[ptr].slots[mid].ch == str[0]
    ensures var q := pages[ptr].slots[mid].sub;
      Quiet(pages, root, ptr, str) <==> q == 0 || Quiet(pages, root, q, str[1..])
  {
    TreePage(cfg, pages, path, root, {}, ptr);
    hide Tree, TrieOk, Linked, PageOk, SlotsOk, SubsOk, Quiet;
    QuietAt(cfg, pages, |path[ptr]|, root, ptr, mid, str);
  }

  lemma QuietEnd(cfg: Config, pages: Pages, path: Paths, root: nat, ptr: nat, mid: nat, str: Key)
    requires Tree(cfg, pages, path, root, {}) && ptr in path && ptr in pages && |str| == 1
    requires mid < |pages[ptr].slots| && pages[ptr].slots[mid].Ptr? && pages[ptr].slots[mid].ch == str[0]
    ensures Quiet(pages, root, ptr, str) <==>
      pages[ptr].slots[mid].info == [] && (ptr == root || |pages[ptr].slots| > 1)
  {
    TreePage(cfg, pages, path, root, {}, ptr);
    hide Tree, TrieOk, Linked, PageOk, SlotsOk, SubsOk, Quiet;
    QuietAt(cfg, pages, |path[ptr]|, root, ptr, mid, str);
  }

  lemma TellNone(pages: Pages, ptr: nat, c: int, str: Key, sub: bool)
    ensures Telling(pages, pages, ptr, str, sub, [], Prefixed(c, []), [])
  {
    HeardNone(pages, ptr);
    assert Prefixed(c, []) == [];
  }

  lemma TellingSame(pages0: Pages, pages1: Pages, pages2: Pages, ptr: nat, str: Key, sub: bool, calls: seq<Info>,
                    keys: seq<Key>, infos: seq<Info>)
    requires Telling(pages0, pages1, ptr, str, sub, calls, keys, infos) && Same(pages1, pages2, ptr)
    ensures Telling(pages0, pages2, ptr, str, sub, calls, keys, infos)
  {
    if sub { HeardSame(pages0, pages1, pages2, ptr, keys, infos); }
    hide Heard, Wiped, Same;
  }

  /** What was told below the pointer entry mid, seen from its page. */
  lemma TellUp(cfg: Config, pages0: Pages, path0: Paths, pages: Pages, path: Paths, root: nat, last: nat, freelist: nat,
               free: seq<nat>, ptr: nat, mid: nat, str: Key, sub: bool, r: int, calls: seq<Info>, keys: seq<Key>,
               infos: seq<Info>)
    requires TrieOk(cfg, pages0, path0) && ptr in path0 && ptr in pages0 && mid < |pages0[ptr].slots|
    requires pages0[ptr].slots[mid].Ptr? && |str| > 1 && str[0] == pages0[ptr].slots[mid].ch
    requires pages0[ptr].slots[mid].sub != 0
    requires var q := pages0[ptr].slots[mid].sub;
      && q in path0 && Telling(pages0, pages, q, str[1..], sub, calls, keys, infos)
      && DelDone(cfg, pages0, path0, pages, path, root, last, freelist, free, q, path0[ptr] + [str[0]], str[1..], sub,
                 r)
    ensures Telling(pages0, pages, ptr, str, sub, calls, Prefixed(str[0], keys), infos)
  {
    if sub {
      var q, c, y := pages0[ptr].slots[mid].sub, str[0], path0[ptr] + [str[0]];
      hide *;
      TellingIs(pages0, pages, q, str[1..], calls, keys, infos);
      DownSeen(cfg, pages0, path0, pages, path, root, last, freelist, free, ptr, mid, str, true, r);
      var lp := if r == 2 then path[q := y] else path;
      TreeParts(cfg, pages, lp, root, {}, ptr);
      OnlyDoomed(pages0, pages, ptr, str);
      forall k | |k| > 1 && k[0] == c
        ensures Find(pages0, ptr, k) == Find(pages0, q, k[1..]) && Find(pages, ptr, k) == Find(pages, q, k[1..])
      {
        DownFound(cfg, pages0, path0, ptr, mid, k);
        DownFound(cfg, pages, lp, ptr, mid, k);
      }
      HeardUp(pages0, pages, ptr, c, q, keys, infos);
      PageSlots(cfg, pages0, path0, ptr);
      EndsDown(cfg, pages0, |path0[ptr]|, ptr, mid, str);
      WipedPrefixed(c, keys, infos, calls, str, EndsAtPtr(pages0, ptr, str));
      TellingIs(pages0, pages, ptr, str, calls, Prefixed(c, keys), infos);
    }
  }

  lemma TellingIs(pages0: Pages, pages: Pages, ptr: nat, str: Key, calls: seq<Info>, keys: seq<Key>, infos: seq<Info>)
    ensures Telling(pages0, pages, ptr, str, true, calls, keys, infos) <==>
      Heard(pages0, pages, ptr, keys, infos) && Wiped(keys, infos, calls, str, EndsAtPtr(pages0, ptr, str))
  {
  }

  lemma OnlyDoomed(pages0: Pages, pages: Pages, ptr: nat, str: Key)
    requires Trimmed(pages0, pages, ptr, str, true) && |str| > 1
    ensures forall k :: !(|k| > 1 && k[0] == str[0]) ==> Find(pages, ptr, k) == Find(pages0, ptr, k)
  {
    hide Find;
  }

  lemma EndsDown(cfg: Config, pages: Pages, depth: nat, ptr: nat, mid: nat, str: Key)
    requires ptr in pages && SlotsOk(cfg, pages[ptr].slots, depth) && mid < |pages[ptr].slots| && |str| > 1
    requires pages[ptr].slots[mid].Ptr? && pages[ptr].slots[mid].ch == str[0] && pages[ptr].slots[mid].sub != 0
    ensures EndsAtPtr(pages, ptr, str) <==> EndsAtPtr(pages, pages[ptr].slots[mid].sub, str[1..])
  {
    hide SlotsOk;
    var s := pages[ptr].slots;
    if e :| e in s && EndsBelow(pages, e, str) {
      var k :| 0 <= k < |s| && s[k] == e;
      if k != mid { PtrsDiffer(cfg, s, depth, k, mid); }
    }
    if EndsAtPtr(pages, s[mid].sub, str[1..]) { assert s[mid] in s && EndsBelow(pages, s[mid], str); }
  }

  /** The rest of str is below the pointer entry mid: deletes it there, and mends the entry
      when that empties the subpage. */
  method GoDown(d: Dict, ptr: nat, mid: nat, str: Key, sub: bool)
    returns (r: int, calls: seq<Info>, ghost keys: seq<Key>, ghost infos: seq<Info>)
    requires Tree(d.cfg, d.pages, d.path, d.root, {}) && Conserved(d.pages, d.path, d.last, d.freelist, d.free)
    requires ptr in d.path && d.root in d.path && ptr in d.pages && mid < |d.pages[ptr].slots|
    requires d.pages[ptr].slots[mid].Ptr? && |str| > 1 && str[0] == d.pages[ptr].slots[mid].ch
    requires |d.path[ptr]| < d.cfg.maxKey
    modifies d`pages, d`freelist, d`path, d`free
    ensures DownDone(d.cfg, old(d.pages), old(d.path), d.pages, d.path, d.root, d.last, d.freelist, d.free, ptr,
                     old(d.path)[ptr], str, sub)
    ensures 0 <= r <= 1 && (!sub && Find(old(d.pages), ptr, str) != [] ==> r >= 1)
    ensures !sub ==> (r == 0 <==> Nothing(old(d.pages), d.root, ptr, str))
    ensures sub ==> (r == 0 <==> Quiet(old(d.pages), d.root, ptr, str))
    ensures r == 0 ==> ptr in d.pages && d.pages[ptr] == old(d.pages)[ptr]
    ensures Telling(old(d.pages), d.pages, ptr, str, sub, calls, keys, infos)
    decreases d.cfg.maxKey + 1 - |d.path[ptr]|, 0
  {
    hide *;
    ghost var pages0, path0 := d.pages, d.path;
    var e := d.pages[ptr].slots[mid];
    HollowBelow(d.cfg, d.pages, d.path, d.root, ptr, mid, str);
    QuietDown(d.cfg, d.pages, d.path, d.root, ptr, mid, str);
    SubLive(d.cfg, d.pages, d.path, d.root, ptr, mid);
    r, calls, keys, infos := DelString(d, str[1..], e.sub, sub);
    ghost var pages1 := d.pages;
    if e.sub == 0 {
      TellNone(pages0, ptr, e.ch, str, sub);
    } else {
      TellUp(d.cfg, pages0, path0, d.pages, d.path, d.root, d.last, d.freelist, d.free, ptr, mid, str, sub, r, calls,
             keys, infos);
    }
    keys := Prefixed(e.ch, keys);
    if e.sub == 0 {
      NoSubpage(d.cfg, pages0, path0, d.root, d.last, d.freelist, d.free, ptr, mid, str, sub);
    } else if r == 2 {
      PageStays(d.cfg, pages0, path0, d.pages, d.path, d.root, d.last, d.freelist, d.free, ptr, mid, str, sub, r);
      var p := d.pages[ptr];
      p := if e.info != [] then p.(slots := p.slots[mid := Ptr(e.ch, e.info, 0)])
           else p.(slots := p.slots[..mid] + p.slots[mid + 1..]);
      AfterRelease(d.cfg, pages0, path0, d.pages, d.path, d.root, d.last, d.freelist, d.free, ptr, mid, str, sub, p);
      d.pages := d.pages[ptr := p];
      TellingSame(pages0, pages1, d.pages, ptr, str, sub, calls, keys, infos);
      r := 1;
    } else {
      AfterDown(d.cfg, pages0, path0, d.pages, d.path, d.root, d.last, d.freelist, d.free, ptr, mid, str, sub, r);
      PageStays(d.cfg, pages0, path0, d.pages, d.path, d.root, d.last, d.freelist, d.free, ptr, mid, str, sub, r);
    }
  }

  lemma SubLive(cfg: Config, pages: Pages, path: Paths, root: nat, ptr: nat, mid: nat)
    requires Tree(cfg, pages, path, root, {}) && ptr in path && ptr in pages && mid < |pages[ptr].slots|
    requires pages[ptr].slots[mid].Ptr?
    ensures TrieOk(cfg, pages, path)
    ensures var q := pages[ptr].slots[mid].sub;
      q != 0 ==> q in path && path[q] == path[ptr] + [pages[ptr].slots[mid].ch]
  {
    assert SubsOk(pages[ptr].slots, path, path[ptr]);
  }

  lemma PageStays(cfg: Config, pages0: Pages, path0: Paths, pages: Pages, path: Paths, root: nat, last: nat,
                  freelist: nat, free: seq<nat>, ptr: nat, mid: nat, str: Key, sub: bool, r: int)
    requires TrieOk(cfg, pages0, path0) && ptr in path0 && ptr in pages0 && mid < |pages0[ptr].slots|
    requires pages0[ptr].slots[mid].Ptr? && |str| > 1 && str[0] == pages0[ptr].slots[mid].ch
    requires pages0[ptr].slots[mid].sub != 0
    requires pages0[ptr].slots[mid].sub in path0
    requires DelDone(cfg, pages0, path0, pages, path, root, last, freelist, free, pages0[ptr].slots[mid].sub,
                     path0[ptr] + [str[0]], str[1..], sub, r)
    ensures ptr in pages && pages[ptr] == pages0[ptr]
  {
    hide Tree, Conserved, Trimmed, AllGone, TrieOk, Shrunk, Find, DelDone;
    DownSeen(cfg, pages0, path0, pages, path, root, last, freelist, free, ptr, mid, str, sub, r);
  }

  // ---------------------------------------------------------------- ending at a page

  /** An emptied page other than the root is released. */
  lemma Emptied(cfg: Config, pages0: Pages, path0: Paths, pages: Pages, path: Paths, root: nat, last: nat,
                freelist: nat, free: seq<nat>, ptr: nat, x: Key, str: Key, sub: bool, orphans: set<Key>)
    requires DelState(cfg, pages0, path0, pages, path, root, last, freelist, free, ptr, x, str, sub, orphans)
    requires AllGone(pages, ptr, str, sub)
    ensures var pages' := pages[ptr := pages[ptr].(backptr := freelist)];
      && Tree(cfg, pages', path, root, orphans)
      && Shrunk(pages0, path0, pages', path, x) && Trimmed(pages0, pages', ptr, str, sub)
      && AllGone(pages', ptr, str, sub)
      && path == (path - {ptr})[ptr := x]
  {
    var p := pages[ptr].(backptr := freelist);
    TreeParts(cfg, pages, path, root, orphans, ptr);
    BackptrTree(cfg, pages, path, root, orphans, ptr, p);
    hide Tree, TrieOk, Linked, SlotsOk, PageOk, Conserved, Trimmed, AllGone;
    BackptrSame(cfg, pages, path, ptr, p);
    SameTrimmed(pages0, pages, pages[ptr := p], ptr, str, sub);
    ShrunkHere(pages, path, ptr, p, x);
    ShrunkTrans(pages0, path0, pages, path, pages[ptr := p], path, x);
  }

  lemma BackptrTree(cfg: Config, pages: Pages, path: Paths, root: nat, orphans: set<Key>, ptr: nat, p: Page)
    requires Tree(cfg, pages, path, root, orphans) && ptr in path && ptr in pages
    requires p == pages[ptr].(backptr := p.backptr)
    ensures Tree(cfg, pages[ptr := p], path, root, orphans)
  {
    TreeParts(cfg, pages, path, root, orphans, ptr);
    LinkedKept(pages, path, root, orphans, ptr, p);
    assert SubsOk(pages[ptr].slots, path, path[ptr]);
    hide Linked, SubsOk;
    OnePage(cfg, pages, path, ptr, p);
  }

  lemma BackptrSame(cfg: Config, pages: Pages, path: Paths, ptr: nat, p: Page)
    requires TrieOk(cfg, pages, path) && ptr in path && ptr in pages
    requires p == pages[ptr].(backptr := p.backptr)
    ensures Same(pages, pages[ptr := p], ptr)
  {
    PageSlots(cfg, pages, path, ptr);
    forall key
      ensures Find(pages[ptr := p], ptr, key) == Find(pages, ptr, key)
    {
      if key != [] { SlotFindSame(cfg, pages, path, pages[ptr := p], p.slots, path[ptr], |path[ptr]|, key); }
    }
  }

  // ---------------------------------------------------------------- an unlinked subtree

  lemma SubtreeReady(cfg: Config, pages: Pages, path: Paths, root: nat, ptr: nat, c: int, sub: nat, live: Paths)
    requires ptr in path && Tree(cfg, pages, path, root, {path[ptr] + [c]})
    requires sub in path && path[sub] == path[ptr] + [c] && |path[sub]| <= cfg.maxKey && root in path
    requires live == path || live == path - {ptr}
    ensures SubtreeOk(pages, live, path[sub], cfg.maxKey)
  {
    var x, y := path[ptr], path[sub];
    assert !(y <= x);
    forall q | q in live && y <= live[q]
      ensures q in pages && q != 0 && SubsOk(pages[q].slots, live, live[q]) && PtrsDistinct(pages[q].slots)
      ensures |live[q]| <= cfg.maxKey
    {
      SubtreePage(cfg, pages, path, root, ptr, c, sub, live, q);
    }
    forall q | q in live && y < live[q]
      ensures exists r :: Parent(pages, live, r, q)
    {
      SubtreeHang(pages, path, root, ptr, y, live, q);
    }
  }

  lemma SubtreeHang(pages: Pages, path: Paths, root: nat, ptr: nat, y: Key, live: Paths, q: nat)
    requires Linked(pages, path, root, {y}) && root in path && y != []
    requires ptr in path && !(y <= path[ptr])
    requires forall r :: r in path && r != ptr ==> r in live && live[r] == path[r]
    requires q in path && q in live && live[q] == path[q] && y < path[q]
    ensures exists r :: Parent(pages, live, r, q)
  {
    HasParent(pages, path, root, y, q);
    hide Linked, Parent;
    var r :| Parent(pages, path, r, q);
    HangsFrom(pages, path, ptr, y, live, r, q);
  }

  lemma HasParent(pages: Pages, path: Paths, root: nat, y: Key, q: nat)
    requires Linked(pages, path, root, {y}) && root in path && q in path && y < path[q]
    ensures exists r :: Parent(pages, path, r, q)
  {
    hide Parent;
    assert path[q] != y && q != root;
  }

  lemma HangsFrom(pages: Pages, path: Paths, ptr: nat, y: Key, live: Paths, r: nat, q: nat)
    requires ptr in path && !(y <= path[ptr]) && q in path && q in live && live[q] == path[q] && y < path[q]
    requires (forall r :: r in path && r != ptr ==> r in live && live[r] == path[r]) && Parent(pages, path, r, q)
    ensures Parent(pages, live, r, q)
  {
    hide PointsTo;
    assert y == path[r][..|y|];
  }

  lemma SubtreePage(cfg: Config, pages: Pages, path: Paths, root: nat, ptr: nat, c: int, sub: nat, live: Paths, q: nat)
    requires ptr in path && Tree(cfg, pages, path, root, {path[ptr] + [c]})
    requires sub in path && path[sub] == path[ptr] + [c] && |path[sub]| <= cfg.maxKey && root in path
    requires live == path || live == path - {ptr}
    requires q in live && path[sub] <= live[q]
    ensures q in pages && q != 0 && SubsOk(pages[q].slots, live, live[q]) && PtrsDistinct(pages[q].slots)
    ensures |live[q]| <= cfg.maxKey
  {
    var x, y, s := path[ptr], path[sub], pages[q].slots;
    TreeParts(cfg, pages, path, root, {y}, q);
    assert SubsOk(s, path, path[q]);
    forall i, j | 0 <= i < j < |s| && s[i].Ptr? && s[j].Ptr?
      ensures s[i].ch != s[j].ch
    {
      PtrsDiffer(cfg, s, |path[q]|, i, j);
    }
    forall i | 0 <= i < |s| && s[i].Ptr? && s[i].sub != 0
      ensures s[i].sub in live
    {
      assert |path[s[i].sub]| > |x|;
    }
    if y != path[q] {
      assert y < path[q] && path[root] == [];
      var r :| Parent(pages, path, r, q);
      var i :| && 0 <= i < |pages[r].slots| && pages[r].slots[i].Ptr?
               && pages[r].slots[i].ch == path[q][|path[q]| - 1] && pages[r].slots[i].sub == q;
      TreeParts(cfg, pages, path, root, {y}, r);
      assert EntryOk(cfg, pages[r].slots[i], |path[r]|);
    }
  }

  /** Removing an unlinked subtree leaves a tree in which the same is found. */
  lemma SubtreeGone(cfg: Config, pages: Pages, path: Paths, pages2: Pages, root: nat, ptr: nat, c: int)
    requires ptr in path && Tree(cfg, pages, path, root, {path[ptr] + [c]}) && root in path
    requires ptr in pages && NoPage(pages[ptr].slots, c)
    requires forall q :: q in pages && !InSubtree(path, q, path[ptr] + [c]) ==> q in pages2 && pages2[q] == pages[q]
    ensures Tree(cfg, pages2, Outside(path, path[ptr] + [c]), root, {})
    ensures Same(pages, pages2, ptr) && ptr in pages2 && pages2[ptr] == pages[ptr]
    ensures Kept(pages, path, pages2, path[ptr])
  {
    hide *;
    TreeParts(cfg, pages, path, root, {path[ptr] + [c]}, ptr);
    OutsideTree(cfg, pages, path, pages2, root, ptr, c);
    OutsideSame(cfg, pages, path, pages2, ptr, c);
  }

  lemma OutsideTree(cfg: Config, pages: Pages, path: Paths, pages2: Pages, root: nat, ptr: nat, c: int)
    requires ptr in path && TrieOk(cfg, pages, path) && Linked(pages, path, root, {path[ptr] + [c]})
    requires ptr in pages && NoPage(pages[ptr].slots, c)
    requires forall q :: q in pages && !InSubtree(path, q, path[ptr] + [c]) ==> q in pages2 && pages2[q] == pages[q]
    ensures Tree(cfg, pages2, Outside(path, path[ptr] + [c]), root, {})
  {
    OutsideTrie(cfg, pages, path, pages2, ptr, c);
    OutsideLinks(pages, path, pages2, root, ptr, c);
  }

  lemma OutsideSame(cfg: Config, pages: Pages, path: Paths, pages2: Pages, ptr: nat, c: int)
    requires ptr in path && TrieOk(cfg, pages, path) && ptr in pages && NoPage(pages[ptr].slots, c)
    requires forall q :: q in pages && !InSubtree(path, q, path[ptr] + [c]) ==> q in pages2 && pages2[q] == pages[q]
    ensures Same(pages, pages2, ptr) && ptr in pages2 && pages2[ptr] == pages[ptr]
    ensures Kept(pages, path, pages2, path[ptr])
  {
    var x, y := path[ptr], path[ptr] + [c];
    hide TrieOk, NoPage, Find, SlotFind;
    assert !(y <= x);
    assert Kept(pages, path, pages2, y);
    SameAbove(cfg, pages, path, pages2, ptr, c);
    hide Same;
    forall q | q in path && q in pages && !(x <= path[q])
      ensures q in pages2 && pages2[q] == pages[q]
    {
      assert !(y <= path[q]);
    }
  }

  lemma OutsideTrie(cfg: Config, pages: Pages, path: Paths, pages2: Pages, ptr: nat, c: int)
    requires ptr in path && TrieOk(cfg, pages, path) && ptr in pages && NoPage(pages[ptr].slots, c)
    requires forall q, r :: q in path && r in path && path[q] == path[r] ==> q == r
    requires forall q :: q in pages && !InSubtree(path, q, path[ptr] + [c]) ==> q in pages2 && pages2[q] == pages[q]
    ensures TrieOk(cfg, pages2, Outside(path, path[ptr] + [c]))
  {
    var y := path[ptr] + [c];
    var live := Outside(path, y);
    hide PageOk;
    forall q | q in live
      ensures SubsOk(pages[q].slots, live, live[q])
    {
      OutsideSubs(pages, path, ptr, c, q);
    }
    hide SubsOk;
    assert forall q :: q in live ==> q in pages2 && pages2[q] == pages[q];
  }

  lemma OutsideSubs(pages: Pages, path: Paths, ptr: nat, c: int, q: nat)
    requires ptr in path && ptr in pages && NoPage(pages[ptr].slots, c)
    requires forall q, r :: q in path && r in path && path[q] == path[r] ==> q == r
    requires q in path && q in pages && SubsOk(pages[q].slots, path, path[q]) && !(path[ptr] + [c] <= path[q])
    ensures SubsOk(pages[q].slots, Outside(path, path[ptr] + [c]), path[q])
  {
    var y, s := path[ptr] + [c], pages[q].slots;
    forall i: nat | i < |s| && s[i].Ptr? && s[i].sub != 0
      ensures !(y <= path[s[i].sub])
    {
      if y <= path[q] + [s[i].ch] {
        assert y == path[q] + [s[i].ch];
        PointerHome(pages, path, ptr, c, s[i].sub, q, i);
      }
    }
  }

  lemma OutsideParent(pages: Pages, path: Paths, pages2: Pages, root: nat, y: Key, q: nat)
    requires Linked(pages, path, root, {y}) && y != [] && q in path && !(y <= path[q]) && q != root
    requires forall q :: q in path ==> q in pages
    requires forall q :: q in pages && !InSubtree(path, q, y) ==> q in pages2 && pages2[q] == pages[q]
    ensures exists r :: Parent(pages2, Outside(path, y), r, q)
  {
    hide PointsTo;
    assert y <= y;
    var r :| Parent(pages, path, r, q);
    assert !(y <= path[q][..|path[q]| - 1]);
    assert Parent(pages2, Outside(path, y), r, q);
  }

  lemma OutsideLinks(pages: Pages, path: Paths, pages2: Pages, root: nat, ptr: nat, c: int)
    requires ptr in path && Linked(pages, path, root, {path[ptr] + [c]})
    requires forall q :: q in path ==> q in pages
    requires forall q :: q in pages && !InSubtree(path, q, path[ptr] + [c]) ==> q in pages2 && pages2[q] == pages[q]
    ensures Linked(pages2, Outside(path, path[ptr] + [c]), root, {})
  {
    hide Parent;
    var y := path[ptr] + [c];
    var live := Outside(path, y);
    forall q | q in live && q != root
      ensures exists r :: Parent(pages2, live, r, q)
    {
      OutsideParent(pages, path, pages2, root, y, q);
    }
  }

  // ---------------------------------------------------------------- dict_del_string

  /** The live pages, counting a just released page as an empty one. */
  ghost function Counting(path: Paths, ptr: nat, x: Key, released: bool): Paths {
    if released then path[ptr := x] else path
  }

  /** The end of a deletion at page ptr, with the subtree at subptr still to be removed. */
  ghost predicate Ending(cfg: Config, pages0: Pages, path0: Paths, pages: Pages, path: Paths, root: nat, last: nat,
                         freelist: nat, free: seq<nat>, ptr: nat, x: Key, str: Key, sub: bool, subptr: nat,
                         released: bool)
  {
    var lp := Counting(path, ptr, x, released);
    && Tree(cfg, pages, lp, root, if subptr != 0 then {x + str} else {}) && Conserved(pages, path, last, freelist, free)
    && ptr in lp && ptr in pages && lp[ptr] == x && root in path
    && Shrunk(pages0, path0, pages, lp, x) && Trimmed(pages0, pages, ptr, str, sub) && AllGone(pages, ptr, str, sub)
    && (released ==> ptr !in path && ptr != root && pages[ptr].slots == [])
    && (subptr != 0 ==> |str| == 1 && subptr in path && path[subptr] == x + str)
    && (subptr != 0 ==> sub && |x| + 1 <= cfg.maxKey && NoPage(pages[ptr].slots, str[0]))
  }

  method ReleaseIfEmpty(d: Dict, ptr: nat, ghost x: Key, ghost str: Key, ghost sub: bool, ghost subptr: nat,
                        ghost pages0: Pages, ghost path0: Paths)
    returns (released: bool)
    requires Ending(d.cfg, pages0, path0, d.pages, d.path, d.root, d.last, d.freelist, d.free, ptr, x, str, sub, subptr,
                    false)
    modifies d`pages, d`freelist, d`path, d`free
    ensures Ending(d.cfg, pages0, path0, d.pages, d.path, d.root, d.last, d.freelist, d.free, ptr, x, str, sub, subptr,
                   released)
    ensures ptr in old(d.pages) && (released <==> old(d.pages)[ptr].slots == [] && ptr != d.root)
    ensures SameSlots(old(d.pages), d.pages)
  {
    hide *;
    EndingParts(d.cfg, pages0, path0, d.pages, d.path, d.root, d.last, d.freelist, d.free, ptr, x, str, sub, subptr);
    if |d.pages[ptr].slots| == 0 && ptr != d.root {
      ghost var pages1, path1, freelist1, free1 := d.pages, d.path, d.freelist, d.free;
      Release(d, ptr);
      NoCalls(pages1, [], 0);
      BackSlots(pages1, pages1, ptr, d.pages[ptr]);
      EmptiedEnding(d.cfg, pages0, path0, pages1, path1, d.root, d.last, freelist1, free1, ptr, x, str, sub, subptr,
                    d.pages, d.path, d.freelist, d.free);
      return true;
    }
    NoCalls(d.pages, [], 0);
    return false;
  }

  lemma EndingParts(cfg: Config, pages0: Pages, path0: Paths, pages: Pages, path: Paths, root: nat, last: nat,
                    freelist: nat, free: seq<nat>, ptr: nat, x: Key, str: Key, sub: bool, subptr: nat)
    requires Ending(cfg, pages0, path0, pages, path, root, last, freelist, free, ptr, x, str, sub, subptr, false)
    ensures ptr in path && ptr in pages && Conserved(pages, path, last, freelist, free)
  {
  }

  lemma EmptiedEnding(cfg: Config, pages0: Pages, path0: Paths, pages: Pages, path: Paths, root: nat, last: nat,
                      freelist: nat, free: seq<nat>, ptr: nat, x: Key, str: Key, sub: bool, subptr: nat, pages1: Pages,
                      path1: Paths, freelist1: nat, free1: seq<nat>)
    requires Ending(cfg, pages0, path0, pages, path, root, last, freelist, free, ptr, x, str, sub, subptr, false)
    requires ptr in pages && pages[ptr].slots == [] && ptr != root
    requires pages1 == pages[ptr := pages[ptr].(backptr := freelist)] && path1 == path - {ptr}
    requires Conserved(pages1, path1, last, freelist1, free1)
    ensures Ending(cfg, pages0, path0, pages1, path1, root, last, freelist1, free1, ptr, x, str, sub, subptr, true)
  {
    hide Tree, Conserved, Shrunk, Trimmed, AllGone, NoPage;
    var orphans := if subptr != 0 then {x + str} else {};
    Emptied(cfg, pages0, path0, pages, path, root, last, freelist, free, ptr, x, str, sub, orphans);
    assert x + str != x || subptr == 0;
  }

  lemma CountingParts(cfg: Config, pages: Pages, path: Paths, root: nat, ptr: nat, x: Key, y: Key, released: bool,
                      sub: nat)
    requires (released ==> ptr !in path) && Tree(cfg, pages, Counting(path, ptr, x, released), root, {y})
    requires sub in path
    ensures var lp := Counting(path, ptr, x, released);
      && (path == lp || path == lp - {ptr}) && (forall q :: q in path ==> q in pages) && sub in lp
      && lp[sub] == path[sub]
  {
    hide Linked;
    var lp := Counting(path, ptr, x, released);
    if released { assert path == lp - {ptr}; }
  }

  lemma BeforeSubtree(cfg: Config, pages0: Pages, path0: Paths, pages: Pages, path: Paths, root: nat, last: nat,
                      freelist: nat, free: seq<nat>, ptr: nat, x: Key, str: Key, sub: bool, subptr: nat, released: bool)
    requires Ending(cfg, pages0, path0, pages, path, root, last, freelist, free, ptr, x, str, sub, subptr, released)
    requires subptr != 0
    ensures subptr in path && SubtreeOk(pages, path, path[subptr], cfg.maxKey) && (forall q :: q in path ==> q in pages)
    ensures Conserved(pages, path, last, freelist, free)
  {
    hide Conserved, Shrunk, Trimmed, AllGone, NoPage, Find, Tree, SubtreeOk, Counting;
    EndingFacts(cfg, pages0, path0, pages, path, root, last, freelist, free, ptr, x, str, sub, subptr, released);
    CountingParts(cfg, pages, path, root, ptr, x, x + str, released, subptr);
    SubtreeReady(cfg, pages, Counting(path, ptr, x, released), root, ptr, str[0], subptr, path);
  }

  lemma AfterSubtree(cfg: Config, pages0: Pages, path0: Paths, pages: Pages, path: Paths, root: nat, last: nat,
                     freelist: nat, free: seq<nat>, ptr: nat, x: Key, str: Key, sub: bool, subptr: nat, released: bool,
                     pages1: Pages, path1: Paths, freelist1: nat, free1: seq<nat>)
    requires Ending(cfg, pages0, path0, pages, path, root, last, freelist, free, ptr, x, str, sub, subptr, released)
    requires subptr != 0
    requires Conserved(pages1, path1, last, freelist1, free1)
    requires subptr in path && path1 == Outside(path, path[subptr])
    requires forall q :: q in pages && !InSubtree(path, q, path[subptr]) ==> q in pages1 && pages1[q] == pages[q]
    ensures Ending(cfg, pages0, path0, pages1, path1, root, last, freelist1, free1, ptr, x, str, sub, 0, released)
  {
    var lp, y := Counting(path, ptr, x, released), x + str;
    hide *;
    EndingFacts(cfg, pages0, path0, pages, path, root, last, freelist, free, ptr, x, str, sub, subptr, released);
    CountOutside(path, ptr, x, str, released);
    SubtreeGone(cfg, pages, lp, pages1, root, ptr, str[0]);
    SameTrimmed(pages0, pages, pages1, ptr, str, sub);
    ShrunkOutside(pages0, path0, pages, lp, pages1, x, y);
    EndingJoin(cfg, pages0, path0, pages1, path1, root, last, freelist1, free1, ptr, x, str, sub, released);
  }

  lemma EndingJoin(cfg: Config, pages0: Pages, path0: Paths, pages: Pages, path: Paths, root: nat, last: nat,
                   freelist: nat, free: seq<nat>, ptr: nat, x: Key, str: Key, sub: bool, released: bool)
    requires var lp := Counting(path, ptr, x, released);
      && Tree(cfg, pages, lp, root, {}) && Conserved(pages, path, last, freelist, free)
      && ptr in lp && ptr in pages && lp[ptr] == x && root in path
      && Shrunk(pages0, path0, pages, lp, x) && Trimmed(pages0, pages, ptr, str, sub) && AllGone(pages, ptr, str, sub)
      && (released ==> ptr !in path && ptr != root && pages[ptr].slots == [])
    ensures Ending(cfg, pages0, path0, pages, path, root, last, freelist, free, ptr, x, str, sub, 0, released)
  {
    hide Tree, Conserved, Trimmed, AllGone, Shrunk;
  }

  lemma EndingFacts(cfg: Config, pages0: Pages, path0: Paths, pages: Pages, path: Paths, root: nat, last: nat,
                    freelist: nat, free: seq<nat>, ptr: nat, x: Key, str: Key, sub: bool, subptr: nat, released: bool)
    requires Ending(cfg, pages0, path0, pages, path, root, last, freelist, free, ptr, x, str, sub, subptr, released)
    requires subptr != 0
    ensures |str| == 1 && str == [str[0]] && subptr in path && path[subptr] == x + str
    ensures var lp := Counting(path, ptr, x, released);
      && Tree(cfg, pages, lp, root, {x + str}) && ptr in lp && lp[ptr] == x && ptr in pages && root in lp
      && root in path
      && Shrunk(pages0, path0, pages, lp, x) && Trimmed(pages0, pages, ptr, str, sub) && AllGone(pages, ptr, str, sub)
      && (released ==> ptr !in path && ptr != root && pages[ptr].slots == [])
      && path[root] == []
    ensures NoPage(pages[ptr].slots, str[0])
  {
    hide Conserved, Trimmed, AllGone, NoPage, Shrunk, TrieOk;
  }

  lemma CountOutside(path: Paths, ptr: nat, x: Key, str: Key, released: bool)
    requires |str| == 1 && (released ==> ptr !in path)
    requires ptr in Counting(path, ptr, x, released) && Counting(path, ptr, x, released)[ptr] == x
    ensures Counting(Outside(path, x + str), ptr, x, released) == Outside(Counting(path, ptr, x, released), x + str)
    ensures ptr in Counting(Outside(path, x + str), ptr, x, released)
    ensures Counting(Outside(path, x + str), ptr, x, released)[ptr] == x
    ensures x <= x + str
    ensures forall q :: q in path && path[q] == [] ==> q in Outside(path, x + str)
    ensures released ==> ptr !in Outside(path, x + str)
    ensures forall q :: InSubtree(Counting(path, ptr, x, released), q, x + str) <==> InSubtree(path, q, x + str)
  {
    assert !(x + str <= x);
  }

  lemma ShrunkOutside(pages0: Pages, path0: Paths, pages: Pages, path: Paths, pages1: Pages, x: Key, y: Key)
    requires Shrunk(pages0, path0, pages, path, x) && Kept(pages, path, pages1, x) && x <= y
    ensures Shrunk(pages0, path0, pages1, Outside(path, y), x)
  {
    forall q | q in path0 && q in pages0 && !(x <= path0[q])
      ensures q in pages1 && pages1[q] == pages0[q]
    {
      assert q in path && q in pages;
    }
  }

  lemma EndingDone(cfg: Config, pages0: Pages, path0: Paths, pages: Pages, path: Paths, root: nat, last: nat,
                   freelist: nat, free: seq<nat>, ptr: nat, x: Key, str: Key, sub: bool, released: bool, r: int)
    requires Ending(cfg, pages0, path0, pages, path, root, last, freelist, free, ptr, x, str, sub, 0, released)
    requires if released then r == 2 else 0 <= r <= 1 && (!sub && Find(pages0, ptr, str) != [] ==> r >= 1)
    ensures DelDone(cfg, pages0, path0, pages, path, root, last, freelist, free, ptr, x, str, sub, r)
  {
    hide Tree, Conserved, Trimmed, AllGone, Shrunk, Find;
  }

  /** Deletes str, what is left of the key at page ptr, or with sub all keys it is a prefix
      of. 0 when nothing was found, 2 when the page became empty and was released. */
  method DelString(d: Dict, str: Key, ptr: nat, sub: bool)
    returns (r: int, calls: seq<Info>, ghost keys: seq<Key>, ghost infos: seq<Info>)
    requires Tree(d.cfg, d.pages, d.path, d.root, {}) && Conserved(d.pages, d.path, d.last, d.freelist, d.free)
    requires d.root in d.path && str != [] && (ptr != 0 ==> ptr in d.path && |d.path[ptr]| <= d.cfg.maxKey)
    modifies d`pages, d`freelist, d`path, d`free
    ensures ptr == 0 ==> r == 0 && d.pages == old(d.pages) && d.path == old(d.path)
    ensures ptr == 0 ==> d.freelist == old(d.freelist) && d.free == old(d.free)
    ensures ptr != 0 ==>
      DelDone(d.cfg, old(d.pages), old(d.path), d.pages, d.path, d.root, d.last, d.freelist, d.free, ptr,
              old(d.path)[ptr], str, sub, r)
    ensures ptr != 0 && !sub ==> (r == 0 <==> Nothing(old(d.pages), d.root, ptr, str))
    ensures ptr != 0 && sub ==> (r == 0 <==> Quiet(old(d.pages), d.root, ptr, str))
    ensures ptr == 0 ==> calls == [] && keys == [] && infos == []
    ensures ptr != 0 ==> Telling(old(d.pages), d.pages, ptr, str, sub, calls, keys, infos)
    decreases if ptr == 0 then 0 else d.cfg.maxKey + 1 - |d.path[ptr]|, 2
  {
    hide *;
    if ptr == 0 {
      return 0, [], [], [];
    }
    ghost var pages0, path0 := d.pages, d.path;
    ghost var x := d.path[ptr];
    DelStart(d, ptr, str, sub);
    var subptr;
    r, subptr, calls, keys, infos := DelPage(d, str, ptr, x, sub, pages0, path0);
    ghost var pages2 := d.pages;
    var released := ReleaseIfEmpty(d, ptr, x, str, sub, subptr, pages0, path0);
    ButReleased(pages0, pages2, d.pages, ptr, str, sub, calls, keys, infos, subptr);
    if released { r := 2; }
    if subptr != 0 {
      ghost var pages1, path1, freelist1, free1 := d.pages, d.path, d.freelist, d.free;
      BeforeSubtree(d.cfg, pages0, path0, d.pages, d.path, d.root, d.last, d.freelist, d.free, ptr, x, str, sub, subptr,
                    released);
      var more := DelSubtree(d, subptr);
      keys, infos := TellRest(d.cfg, pages0, path0, pages1, path1, d.pages, d.root, d.last, freelist1, free1, ptr, x,
                              str, sub, subptr, released, calls, keys, infos);
      calls := calls + more;
      AfterSubtree(d.cfg, pages0, path0, pages1, path1, d.root, d.last, freelist1, free1, ptr, x, str, sub, subptr,
                   released,
                   d.pages, d.path, d.freelist, d.free);
    } else {
      ButAll(pages0, d.pages, ptr, str, sub, calls, keys, infos);
    }
    EndingDone(d.cfg, pages0, path0, d.pages, d.path, d.root, d.last, d.freelist, d.free, ptr, x, str, sub, released,
               r);
  }

  lemma ButReleased(pages0: Pages, pages1: Pages, pages2: Pages, ptr: nat, str: Key, sub: bool, calls: seq<Info>,
                    keys: seq<Key>, infos: seq<Info>, q: nat)
    requires str != [] && TellingBut(pages0, pages1, ptr, str, sub, calls, keys, infos, q) && SameSlots(pages1, pages2)
    ensures TellingBut(pages0, pages2, ptr, str, sub, calls, keys, infos, q)
  {
    if sub { ButSame(pages0, pages1, pages2, ptr, keys, infos, str[0], q); }
    hide HeardBut, Wiped, SameSlots;
  }

  lemma ButAll(pages0: Pages, pages: Pages, ptr: nat, str: Key, sub: bool, calls: seq<Info>, keys: seq<Key>,
               infos: seq<Info>)
    requires str != [] && TellingBut(pages0, pages, ptr, str, sub, calls, keys, infos, 0)
    ensures Telling(pages0, pages, ptr, str, sub, calls, keys, infos)
  {
    ButNone(pages0, pages, ptr, keys, infos, str[0]);
    hide HeardBut, Heard, Wiped;
  }

  /** The keys of the subtree that was taken out are told last. */
  lemma TellRest(cfg: Config, pages0: Pages, path0: Paths, pages: Pages, path: Paths, pages2: Pages, root: nat,
                 last: nat, freelist: nat, free: seq<nat>, ptr: nat, x: Key, str: Key, sub: bool, subptr: nat,
                 released: bool, calls: seq<Info>, keys: seq<Key>, infos: seq<Info>)
    returns (keys': seq<Key>, infos': seq<Info>)
    requires Ending(cfg, pages0, path0, pages, path, root, last, freelist, free, ptr, x, str, sub, subptr, released)
    requires str != [] && subptr != 0 && TellingBut(pages0, pages, ptr, str, sub, calls, keys, infos, subptr)
    requires SameSlots(pages, pages2)
    ensures subptr in path
    ensures var more := Calls(pages, subptr, Levels(cfg, path[subptr]));
      Telling(pages0, pages2, ptr, str, sub, calls + more, keys', infos')
  {
    hide *;
    EndingFacts(cfg, pages0, path0, pages, path, root, last, freelist, free, ptr, x, str, sub, subptr, released);
    EndingSub(cfg, pages0, path0, pages, path, root, last, freelist, free, ptr, x, str, sub, subptr, released);
    keys', infos' := keys, infos;
    var lp := Counting(path, ptr, x, released);
    CountingParts(cfg, pages, path, root, ptr, x, x + str, released, subptr);
    TreeParts(cfg, pages, lp, root, {x + str}, subptr);
    var more := Calls(pages, subptr, Levels(cfg, path[subptr]));
    var keys2 := CallsKeys(cfg, pages, lp, subptr);
    RestIs(pages0, pages, ptr, str, calls, keys, infos, subptr);
    ButDone(pages0, pages, pages2, ptr, keys, infos, str[0], subptr, keys2, more);
    ListsNonEmpty(pages, subptr, keys2, more);
    WipedMore(keys, infos, calls, str, EndsAtPtr(pages0, ptr, str), str[0], keys2, more);
    keys', infos' := keys + Prefixed(str[0], keys2), infos + more;
    TellingIs(pages0, pages2, ptr, str, calls + more, keys', infos');
  }

  lemma RestIs(pages0: Pages, pages: Pages, ptr: nat, str: Key, calls: seq<Info>, keys: seq<Key>, infos: seq<Info>,
               q: nat)
    requires str != [] && TellingBut(pages0, pages, ptr, str, true, calls, keys, infos, q)
    ensures HeardBut(pages0, pages, ptr, keys, infos, str[0], q)
    ensures Wiped(keys, infos, calls, str, EndsAtPtr(pages0, ptr, str))
  {
    hide HeardBut, Wiped;
  }

  /** A subtree is left to be removed only in a deletion of a subtree. */
  lemma EndingSub(cfg: Config, pages0: Pages, path0: Paths, pages: Pages, path: Paths, root: nat, last: nat,
                  freelist: nat, free: seq<nat>, ptr: nat, x: Key, str: Key, sub: bool, subptr: nat, released: bool)
    requires Ending(cfg, pages0, path0, pages, path, root, last, freelist, free, ptr, x, str, sub, subptr, released)
    requires subptr != 0
    ensures sub && |x| + 1 <= cfg.maxKey && (released ==> ptr !in path)
  {
    hide Tree, Conserved, Trimmed, AllGone, NoPage, Shrunk;
  }

  lemma DelStart(d: Dict, ptr: nat, str: Key, sub: bool)
    requires Tree(d.cfg, d.pages, d.path, d.root, {}) && Conserved(d.pages, d.path, d.last, d.freelist, d.free)
    requires d.root in d.path && ptr in d.path
    ensures Deleting(d, d.pages, d.path, ptr, d.path[ptr], str, sub, {})
  {
    hide Conserved, Linked, Find;
    assert ptr in d.pages;
  }

  /** The search and changes inside one page; with sub, the subtree to remove afterwards. */
  method DelPage(d: Dict, str: Key, ptr: nat, ghost x: Key, sub: bool, ghost pages0: Pages, ghost path0: Paths)
    returns (r: int, subptr: nat, calls: seq<Info>, ghost keys: seq<Key>, ghost infos: seq<Info>)
    requires str != [] && Deleting(d, pages0, path0, ptr, x, str, sub, {}) && d.pages == pages0 && d.path == path0
    requires |x| <= d.cfg.maxKey && ptr in d.path && d.path[ptr] == x
    modifies d`pages, d`freelist, d`path, d`free
    ensures Ending(d.cfg, pages0, path0, d.pages, d.path, d.root, d.last, d.freelist, d.free, ptr, x, str, sub, subptr,
                   false)
    ensures 0 <= r <= 1 && (!sub && Find(pages0, ptr, str) != [] ==> r >= 1)
    ensures !sub ==>
      ptr in d.pages && (Nothing(pages0, d.root, ptr, str) <==> r == 0 && !(d.pages[ptr].slots == [] && ptr != d.root))
    ensures !sub && r == 1 ==> !Nothing(pages0, d.root, ptr, str)
    ensures sub ==>
      ptr in d.pages && (Quiet(pages0, d.root, ptr, str) <==> r == 0 && !(d.pages[ptr].slots == [] && ptr != d.root))
    ensures TellingBut(pages0, d.pages, ptr, str, sub, calls, keys, infos, subptr)
    decreases d.cfg.maxKey + 1 - |d.path[ptr]|, 1
  {
    hide *;
    var mid, found;
    mid, found, r, calls, keys := DelTails(d, ptr, x, str, sub, pages0, path0);
    subptr, infos := 0, calls;
    if !found {
      NotFoundEnding(d, pages0, path0, ptr, x, str, sub);
      EndingParts(d.cfg, pages0, path0, d.pages, d.path, d.root, d.last, d.freelist, d.free, ptr, x, str, sub, 0);
      if sub {
        QuietHere(pages0, d.pages, d.root, ptr, str, r);
      } else {
        NotFoundCode(pages0, d.pages, d.root, ptr, str, r);
      }
      TailsTold(pages0, d.pages, ptr, str, sub, calls, keys);
      return;
    }
    ghost var pages1, path1, last1, freelist1, free1 := d.pages, d.path, d.last, d.freelist, d.free;
    EntryParts(d, pages0, path0, ptr, x, str, sub, mid);
    var e := d.pages[ptr].slots[mid];
    if |str| == 1 {
      HereCode(pages0, d.root, ptr, mid, str);
      QuietEnd(d.cfg, pages0, d.path, d.root, ptr, mid, str);
    }
    if |str| == 1 {
      r, calls, keys, infos := EndHere(d, ptr, x, mid, str, sub, r, pages0, path0);
      subptr := if sub then e.sub else 0;
      HereTold(pages0, d.pages, ptr, mid, str, sub, calls, keys, infos);
      EndHereEnding(d, pages0, path0, pages1, ptr, x, mid, str, sub, subptr);
    } else {
      r, calls, keys, infos := GoDown(d, ptr, mid, str, sub);
      DownTold(pages0, d.pages, ptr, str, sub, calls, keys, infos);
      GoDownEnding(d.cfg, pages0, path0, pages1, path1, last1, freelist1, free1, d.pages, d.path, d.root, d.last,
                   d.freelist, d.free, ptr, x, str, sub);
      EndingParts(d.cfg, pages0, path0, d.pages, d.path, d.root, d.last, d.freelist, d.free, ptr, x, str, sub, 0);
    }
  }

  lemma TailsTold(pages0: Pages, pages: Pages, ptr: nat, str: Key, sub: bool, calls: seq<Info>, keys: seq<Key>)
    requires str != [] && ptr in pages0 && (sub ==> NoPtr(pages0[ptr].slots, str[0]))
    requires if sub then Heard(pages0, pages, ptr, keys, calls) else calls == []
    ensures TellingBut(pages0, pages, ptr, str, sub, calls, keys, calls, 0)
  {
    ButNone(pages0, pages, ptr, keys, calls, str[0]);
    HeardSize(pages0, pages, ptr, keys, calls);
    hide Heard, HeardBut;
    assert sub ==> !EndsAtPtr(pages0, ptr, str);
  }

  lemma HeardSize(pages0: Pages, pages: Pages, ptr: nat, keys: seq<Key>, infos: seq<Info>)
    ensures Heard(pages0, pages, ptr, keys, infos) ==> |keys| == |infos|
  {
  }

  lemma HereTold(pages0: Pages, pages: Pages, ptr: nat, mid: nat, str: Key, sub: bool, calls: seq<Info>, keys: seq<Key>,
                 infos: seq<Info>)
    requires |str| == 1 && ptr in pages0 && mid < |pages0[ptr].slots|
    requires pages0[ptr].slots[mid].Ptr? && pages0[ptr].slots[mid].ch == str[0]
    requires if sub
      then HeardBut(pages0, pages, ptr, keys, infos, str[0], pages0[ptr].slots[mid].sub)
           && Wiped(keys, infos, calls, str, true)
      else calls == []
    ensures TellingBut(pages0, pages, ptr, str, sub, calls, keys, infos, if sub then pages0[ptr].slots[mid].sub else 0)
  {
    hide HeardBut, Wiped;
    var e := pages0[ptr].slots[mid];
    assert e in pages0[ptr].slots && EndsBelow(pages0, e, str);
  }

  lemma DownTold(pages0: Pages, pages: Pages, ptr: nat, str: Key, sub: bool, calls: seq<Info>, keys: seq<Key>,
                 infos: seq<Info>)
    requires str != [] && Telling(pages0, pages, ptr, str, sub, calls, keys, infos)
    ensures TellingBut(pages0, pages, ptr, str, sub, calls, keys, infos, 0)
  {
    ButNone(pages0, pages, ptr, keys, infos, str[0]);
    hide Heard, HeardBut, Wiped;
  }

  lemma NotFoundEnding(d: Dict, pages0: Pages, path0: Paths, ptr: nat, x: Key, str: Key, sub: bool)
    requires Deleting(d, pages0, path0, ptr, x, str, sub, {}) && AllGone(d.pages, ptr, str, sub)
    ensures Ending(d.cfg, pages0, path0, d.pages, d.path, d.root, d.last, d.freelist, d.free, ptr, x, str, sub, 0,
                   false)
  {
    hide Tree, Conserved, Trimmed, AllGone, Shrunk;
  }

  lemma EntryParts(d: Dict, pages0: Pages, path0: Paths, ptr: nat, x: Key, str: Key, sub: bool, mid: nat)
    requires Deleting(d, pages0, path0, ptr, x, str, sub, {}) && str != []
    requires mid < |d.pages[ptr].slots| && d.pages[ptr].slots[mid].Ptr? && d.pages[ptr].slots[mid].ch == str[0]
    ensures Tree(d.cfg, d.pages, d.path, d.root, {}) && Conserved(d.pages, d.path, d.last, d.freelist, d.free)
    ensures ptr in d.path && d.path[ptr] == x && d.root in d.path && ptr in d.pages && |x| < d.cfg.maxKey
    ensures DelState(d.cfg, pages0, path0, d.pages, d.path, d.root, d.last, d.freelist, d.free, ptr, x, str, sub, {})
    ensures |str| == 1 ==> Find(d.pages, ptr, str) == d.pages[ptr].slots[mid].info
    ensures var q := d.pages[ptr].slots[mid].sub; q != 0 ==> q in d.path && d.path[q] == x + [str[0]]
  {
    hide Conserved, Shrunk, Trimmed;
    SubLive(d.cfg, d.pages, d.path, d.root, ptr, mid);
    TreePage(d.cfg, d.pages, d.path, d.root, {}, ptr);
    assert EntryOk(d.cfg, d.pages[ptr].slots[mid], |x|);
    hide Tree, TrieOk, Find, SlotsOk;
    if |str| == 1 { PtrFoundKey(d.cfg, d.pages, d.path, ptr, mid, str); }
  }

  lemma EndHereEnding(d: Dict, pages0: Pages, path0: Paths, pages1: Pages, ptr: nat, x: Key, mid: nat, str: Key,
                      sub: bool, subptr: nat)
    requires |str| == 1 && ptr in pages1 && mid < |pages1[ptr].slots| && pages1[ptr].slots[mid].Ptr?
    requires Deleting(d, pages0, path0, ptr, x, str, sub, if sub then Left(pages1[ptr].slots[mid], x + str) else {})
    requires AllGone(d.pages, ptr, str, sub) && (sub ==> NoPage(d.pages[ptr].slots, str[0])) && |x| < d.cfg.maxKey
    requires subptr == if sub then pages1[ptr].slots[mid].sub else 0
    requires subptr != 0 ==> subptr in d.path && d.path[subptr] == x + [str[0]]
    ensures Ending(d.cfg, pages0, path0, d.pages, d.path, d.root, d.last, d.freelist, d.free, ptr, x, str, sub, subptr,
                   false)
  {
    hide Tree, Conserved, Trimmed, AllGone, Shrunk, NoPage;
    assert str == [str[0]];
  }

  lemma GoDownEnding(cfg: Config, pages0: Pages, path0: Paths, pages1: Pages, path1: Paths, last1: nat, freelist1: nat,
                     free1: seq<nat>, pages: Pages, path: Paths, root: nat, last: nat, freelist: nat, free: seq<nat>,
                     ptr: nat, x: Key, str: Key, sub: bool)
    requires DelState(cfg, pages0, path0, pages1, path1, root, last1, freelist1, free1, ptr, x, str, sub, {})
    requires DownDone(cfg, pages1, path1, pages, path, root, last, freelist, free, ptr, x, str, sub)
    ensures Ending(cfg, pages0, path0, pages, path, root, last, freelist, free, ptr, x, str, sub, 0, false)
  {
    hide Tree, Conserved, Trimmed, AllGone, Shrunk;
    TrimmedTrans(pages0, pages1, pages, ptr, str, sub);
    ShrunkTrans(pages0, path0, pages1, path1, pages, path, x);
  }

  // ---------------------------------------------------------------- dict_delete, dict_delete_subtree

  /** The keys of m that are not doomed, with their information. */
  ghost function Spared(m: map<Key, Info>, str: Key, sub: bool): map<Key, Info> {
    map k | k in m && !Doomed(k, str, sub) :: m[k]
  }

  function SmallConfig(): Config {
    Config(64, {97, 98}, 2, 1)
  }

  function SmallPages(): Pages {
    map[1 := Page(false, 0, 21, [Ptr(97, [7], 2)]), 2 := Page(false, 1, HEADER_SIZE, [])]
  }

  function SmallPath(): Paths {
    map[1 := [], 2 := [97]]
  }

  lemma SmallTrie()
    ensures TrieOk(SmallConfig(), SmallPages(), SmallPath())
  {
    assert |SmallConfig().alphabet| == 2;
  }

  lemma SmallLinked()
    ensures Linked(SmallPages(), SmallPath(), 1, {}) && Conserved(SmallPages(), SmallPath(), 3, 0, [])
  {
    var slots := SmallPages()[1].slots;
    assert slots[0] == Ptr(97, [7], 2);
    assert PointsTo(slots, 97, 2);
    assert Parent(SmallPages(), SmallPath(), 1, 2);
  }

  lemma SmallFinds()
    ensures var pages := SmallPages();
      && Find(pages, 1, [97]) == [7] && Find(pages, 1, [97, 98]) == [] && HollowBelowRoot(pages, 1, [97, 98])
  {
    var pages := SmallPages();
    assert Hit(pages[1].slots, 0, [97]) && Hit(pages[1].slots, 0, [97, 98]);
    assert Hollow(pages, 1, 2, [98]);
    assert LeadsOn(pages, 1, pages[1].slots[0], [97, 98]);
  }

  lemma SmallEnds()
    ensures EndsAtRootPtr(SmallPages(), 1, [97])
  {
    var slots := SmallPages()[1].slots;
    assert slots[0] in slots && EndsBelow(SmallPages(), slots[0], [97]);
  }

  /** A dictionary that holds the key a, with an empty page below it, as a split of a page whose only
      string with that character is a leaves it. Deleting the absent key ab is answered with 1, and
      the information of a would not be told in a deletion of the subtree at a. */
  lemma AbsentReported()
    ensures var pages := SmallPages();
      && StateOk(SmallConfig(), pages, SmallPath(), 1, 3, 0, [], {})
      && Find(pages, 1, [97]) == [7] && Find(pages, 1, [97, 98]) == [] && HollowBelowRoot(pages, 1, [97, 98])
      && EndsAtRootPtr(pages, 1, [97])
  {
    SmallTrie();
    SmallLinked();
    SmallFinds();
    SmallEnds();
    hide TrieOk, Linked, Conserved, Find, HollowBelowRoot, EndsAtRootPtr;
  }

  /** What the caller is told of a deletion in a dictionary that held m, and of which keys. */
  ghost predicate Told(m: map<Key, Info>, str: Key, calls: seq<Info>, keys: seq<Key>, wiped: bool) {
    && |keys| == |calls| && Distinct(keys)
    && (forall k :: k in keys <==> k in m && str <= k)
    && (forall i :: 0 <= i < |keys| ==> calls[i] == if wiped && keys[i] == str then [] else m[keys[i]])
  }

  ghost predicate EndsAtRootPtr(pages: Pages, root: nat, str: Key) {
    root != 0 && EndsAtPtr(pages, root, str)
  }

  method DeleteAtRoot(d: Dict, str: Key, sub: bool) returns (r: int, calls: seq<Info>, ghost keys: seq<Key>)
    requires d.Valid() && str != []
    modifies d
    ensures d.Valid() && d.contents == Spared(old(d.contents), str, sub)
    ensures 0 <= r <= 1 && (!sub && str in old(d.contents) ==> r == 1)
    ensures !sub ==> (r == 1 <==> str in old(d.contents) || HollowBelowRoot(old(d.pages), d.root, str))
    ensures sub ==> Told(old(d.contents), str, calls, keys, EndsAtRootPtr(old(d.pages), d.root, str))
    ensures sub ==> (r == 0 <==> d.root == 0 || Quiet(old(d.pages), d.root, d.root, str))
  {
    hide *;
    if d.root == 0 {
      EmptySpared(d, str, sub);
      NothingTold(d, str);
      return 0, [], [];
    }
    ghost var pages0, path0, contents0 := d.pages, d.path, d.contents;
    RootReady(d, str);
    NothingStored(d, str);
    ghost var infos;
    r, calls, keys, infos := DelString(d, str, d.root, sub);
    if sub { RootTold(d, pages0, path0, contents0, str, calls, keys, infos, r); }
    d.contents := Spared(contents0, str, sub);
    Deleted(d, pages0, path0, contents0, str, sub, r);
  }

  lemma EmptySpared(d: Dict, str: Key, sub: bool)
    requires d.Valid() && d.root == 0
    ensures d.contents == Spared(d.contents, str, sub) && str !in d.contents
    ensures !HollowBelowRoot(d.pages, d.root, str)
  {
    forall key
      ensures key !in d.contents
    {
      assert d.Get(key) == InfoOf(d.contents, key);
    }
  }

  lemma NothingTold(d: Dict, str: Key)
    requires d.Valid() && d.root == 0
    ensures Told(d.contents, str, [], [], EndsAtRootPtr(d.pages, d.root, str))
  {
    forall key
      ensures key !in d.contents
    {
      assert d.Get(key) == InfoOf(d.contents, key);
    }
  }

  lemma RootTold(d: Dict, pages0: Pages, path0: Paths, contents0: map<Key, Info>, str: Key, calls: seq<Info>,
                 keys: seq<Key>, infos: seq<Info>, r: int)
    requires d.root != 0 && d.root in path0
    requires DelDone(d.cfg, pages0, path0, d.pages, d.path, d.root, d.last, d.freelist, d.free, d.root, path0[d.root],
                     str, true, r)
    requires Telling(pages0, d.pages, d.root, str, true, calls, keys, infos)
    requires forall key :: Find(pages0, d.root, key) == InfoOf(contents0, key)
    requires forall key :: key in contents0 ==> contents0[key] != []
    ensures Told(contents0, str, calls, keys, EndsAtRootPtr(pages0, d.root, str))
  {
    TrimmedGone(d.cfg, pages0, path0, d.pages, d.path, d.root, d.last, d.freelist, d.free, d.root, path0[d.root], str,
                r);
    TellingIs(pages0, d.pages, d.root, str, calls, keys, infos);
    hide Find, DelDone, EndsAtPtr, Heard, Telling;
    RootKeys(pages0, d.pages, d.root, contents0, str, keys, infos);
  }

  lemma RootKeys(pages0: Pages, pages: Pages, root: nat, contents0: map<Key, Info>, str: Key, keys: seq<Key>,
                 infos: seq<Info>)
    requires Heard(pages0, pages, root, keys, infos)
    requires forall k :: Find(pages, root, k) == if str <= k then [] else Find(pages0, root, k)
    requires forall k :: Find(pages0, root, k) == InfoOf(contents0, k)
    requires forall k :: k in contents0 ==> contents0[k] != []
    ensures |keys| == |infos| && Distinct(keys) && (forall k :: k in keys <==> k in contents0 && str <= k)
    ensures forall i :: 0 <= i < |keys| ==> keys[i] in contents0 && infos[i] == contents0[keys[i]]
  {
    hide Find;
    forall i | 0 <= i < |keys|
      ensures keys[i] in contents0 && infos[i] == contents0[keys[i]] && str <= keys[i]
    {
      assert KeyGone(pages0, pages, root, keys[i], infos[i]);
      assert Find(pages0, root, keys[i]) == InfoOf(contents0, keys[i]);
    }
    forall k | k in contents0 && str <= k
      ensures k in keys
    {
      assert Find(pages0, root, k) == InfoOf(contents0, k);
    }
  }

  lemma TrimmedGone(cfg: Config, pages0: Pages, path0: Paths, pages: Pages, path: Paths, root: nat, last: nat,
                    freelist: nat, free: seq<nat>, ptr: nat, x: Key, str: Key, r: int)
    requires DelDone(cfg, pages0, path0, pages, path, root, last, freelist, free, ptr, x, str, true, r)
    ensures forall k :: Find(pages, ptr, k) == if str <= k then [] else Find(pages0, ptr, k)
  {
    hide Tree, Conserved, Shrunk, Find;
    forall k
      ensures Find(pages, ptr, k) == if str <= k then [] else Find(pages0, ptr, k)
    {
      assert Doomed(k, str, true) <==> str <= k;
    }
  }

  lemma NothingStored(d: Dict, str: Key)
    requires d.Valid() && d.root != 0
    ensures Nothing(d.pages, d.root, d.root, str) <==> str !in d.contents && !HollowBelowRoot(d.pages, d.root, str)
  {
    RootReady(d, str);
    hide Find, Hollow, Dict.Valid;
    assert Find(d.pages, d.root, str) == InfoOf(d.contents, str);
  }

  lemma RootReady(d: Dict, str: Key)
    requires d.Valid() && d.root != 0
    ensures d.root in d.path && Tree(d.cfg, d.pages, d.path, d.root, {}) && |d.path[d.root]| <= d.cfg.maxKey
    ensures Conserved(d.pages, d.path, d.last, d.freelist, d.free)
    ensures forall key :: Find(d.pages, d.root, key) == InfoOf(d.contents, key)
    ensures forall key :: key in d.contents ==> d.contents[key] != []
  {
    forall key
      ensures Find(d.pages, d.root, key) == InfoOf(d.contents, key)
    {
      assert d.Get(key) == InfoOf(d.contents, key);
    }
  }

  lemma Deleted(d: Dict, pages0: Pages, path0: Paths, contents0: map<Key, Info>, str: Key, sub: bool, r: int)
    requires d.root != 0 && d.root in path0
    requires DelDone(d.cfg, pages0, path0, d.pages, d.path, d.root, d.last, d.freelist, d.free, d.root, path0[d.root],
                     str, sub, r)
    requires forall key :: Find(pages0, d.root, key) == InfoOf(contents0, key)
    requires forall key :: key in contents0 ==> contents0[key] != []
    requires d.contents == Spared(contents0, str, sub)
    ensures d.Valid() && 0 <= r <= 1 && (!sub && str in contents0 ==> r == 1)
  {
    hide TrieOk, Linked, Conserved, Find, Shrunk;
    forall key
      ensures Find(d.pages, d.root, key) == InfoOf(d.contents, key)
    {
    }
    assert Find(pages0, d.root, str) == InfoOf(contents0, str);
  }

  /** Removes a key. The answer is 1 for a present key, and also for an absent one when an empty page
      on the way to it is released; otherwise it is 0. */
  method Delete(d: Dict, str: Key) returns (r: int)
    requires d.Valid() && str != []
    modifies d
    ensures d.Valid() && d.contents == old(d.contents) - {str}
    ensures r == if str in old(d.contents) || HollowBelowRoot(old(d.pages), d.root, str) then 1 else 0
  {
    hide *;
    SparedOne(d.contents, str);
    var calls;
    ghost var keys;
    r, calls, keys := DeleteAtRoot(d, str, false);
  }

  lemma SparedOne(m: map<Key, Info>, str: Key)
    ensures Spared(m, str, false) == m - {str}
    ensures Spared(m, str, true) == map k | k in m && !(str <= k) :: m[k]
  {
  }

  /** Removes all keys that have the prefix str. The caller is told of each, once, and of its
      information; but of the key str itself, when it ends at a pointer entry, only that it had none. */
  method DeleteSubtree(d: Dict, str: Key) returns (r: int, calls: seq<Info>, ghost keys: seq<Key>)
    requires d.Valid() && str != []
    modifies d
    ensures d.Valid()
    ensures d.contents == map k | k in old(d.contents) && !(str <= k) :: old(d.contents)[k]
    ensures r == if d.root == 0 || Quiet(old(d.pages), d.root, d.root, str) then 0 else 1
    ensures Told(old(d.contents), str, calls, keys, EndsAtRootPtr(old(d.pages), d.root, str))
  {
    hide *;
    SparedOne(d.contents, str);
    r, calls, keys := DeleteAtRoot(d, str, true);
  }
}
