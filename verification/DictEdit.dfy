/** Changing one entry of a live page: the invariants that survive and what is found after. */
module DictEdit {
  import opened DictPage
  import opened DictTrie
  import opened DictStore
  import opened DictCapacity

  /** The entry e can stand where e0 stands: same string, or same character and subpage. */
  ghost predicate SamePlace(e0: Entry, e: Entry) {
    match e0
    case Tail(s, _) => e.Tail? && e.str == s
    case Ptr(c, _, sub) => e.Ptr? && e.ch == c && (sub != 0 ==> e.sub == sub)
  }

  /** The same string, or the same character. */
  ghost predicate SameSpot(e0: Entry, e: Entry) {
    match e0
    case Tail(s, _) => e.Tail? && e.str == s
    case Ptr(c, _, _) => e.Ptr? && e.ch == c
  }

  lemma ReplaceSlots(cfg: Config, s: seq<Entry>, k: nat, e: Entry, depth: nat)
    requires k < |s| && SlotsOk(cfg, s, depth) && SameSpot(s[k], e) && EntryOk(cfg, e, depth)
    ensures SlotsOk(cfg, s[k := e], depth)
  {
  }

  lemma InsertSlots(cfg: Config, s: seq<Entry>, k: nat, e: Entry, depth: nat)
    requires ValidConfig(cfg) && k <= |s| && SlotsOk(cfg, s, depth) && e.Tail? && EntryOk(cfg, e, depth)
    requires forall m :: 0 <= m < k ==> Compare(s[m], e.str) < 0
    requires forall m :: k <= m < |s| ==> Compare(s[m], e.str) > 0
    ensures SlotsOk(cfg, s[..k] + [e] + s[k..], depth)
  {
    forall m | 0 <= m < |s|
      ensures if m < k then EntryLess(s[m], e) else EntryLess(e, s[m])
    {
      if s[m].Tail? { LessTotal(s[m].str, e.str); }
    }
  }

  /** Pointer entries to pages survive a change of slots. */
  ghost predicate KeepsPtrs(s: seq<Entry>, t: seq<Entry>) {
    forall c, q :: q != 0 && PointsTo(s, c, q) ==> PointsTo(t, c, q)
  }

  lemma KeepsReplace(s: seq<Entry>, k: nat, e: Entry)
    requires k < |s| && SamePlace(s[k], e)
    ensures KeepsPtrs(s, s[k := e])
  {
    forall c, q | q != 0 && PointsTo(s, c, q)
      ensures PointsTo(s[k := e], c, q)
    {
      var i :| 0 <= i < |s| && s[i].Ptr? && s[i].ch == c && s[i].sub == q;
      assert s[k := e][i].Ptr?;
    }
  }

  lemma KeepsInsert(s: seq<Entry>, k: nat, e: Entry)
    requires k <= |s|
    ensures KeepsPtrs(s, s[..k] + [e] + s[k..])
  {
    var t := s[..k] + [e] + s[k..];
    forall c, q | q != 0 && PointsTo(s, c, q)
      ensures PointsTo(t, c, q)
    {
      var i :| 0 <= i < |s| && s[i].Ptr? && s[i].ch == c && s[i].sub == q;
      var j := if i < k then i else i + 1;
      assert t[j] == s[i];
    }
  }

  lemma LinkedKept(pages: Pages, path: Paths, root: nat, orphans: set<Key>, ptr: nat, p: Page)
    requires Linked(pages, path, root, orphans) && ptr in path && ptr in pages
    requires forall q :: q in path ==> q in pages && q != 0
    requires KeepsPtrs(pages[ptr].slots, p.slots)
    ensures Linked(pages[ptr := p], path, root, orphans)
  {
    var pages' := pages[ptr := p];
    forall q | q in path && q != root && path[q] !in orphans
      ensures exists r :: Parent(pages', path, r, q)
    {
      var r :| Parent(pages, path, r, q);
      assert Parent(pages', path, r, q);
    }
  }

  lemma ConservedKept(pages: Pages, path: Paths, last: nat, freelist: nat, free: seq<nat>, ptr: nat, p: Page)
    requires Conserved(pages, path, last, freelist, free) && ptr in path
    ensures Conserved(pages[ptr := p], path, last, freelist, free)
  {
    forall i | 0 <= i < |free|
      ensures free[i] != ptr
    {
      assert free[i] in free;
    }
  }

  /** Replacing or adding one entry of a live page keeps the state's invariants. */
  lemma OnePageOk(cfg: Config, pages: Pages, path: Paths, root: nat, last: nat, freelist: nat, free: seq<nat>,
                  orphans: set<Key>, ptr: nat, p: Page)
    requires StateOk(cfg, pages, path, root, last, freelist, free, orphans) && ptr in path && ptr in pages
    requires KeepsPtrs(pages[ptr].slots, p.slots)
    requires TrieOk(cfg, pages[ptr := p], path)
    ensures StateOk(cfg, pages[ptr := p], path, root, last, freelist, free, orphans)
  {
    LinkedKept(pages, path, root, orphans, ptr, p);
    ConservedKept(pages, path, last, freelist, free, ptr, p);
  }

  ghost function FoundAfter(pages: Pages, ptr: nat, e: Entry, key: Key): Info {
    if key != [] && Compare(e, key) == 0 then EntryFind(pages, e, key) else Find(pages, ptr, key)
  }

  lemma NoSubs(e: Entry, path: Paths, x: Key)
    requires e.Tail?
    ensures SubsOk([e], path, x)
  {
  }

  lemma SplicedOne(pages: Pages, ptr: nat, i: nat, j: nat, e: Entry, key: Key)
    requires ptr in pages && i <= j <= i + 1 && j <= |pages[ptr].slots|
    requires i < j ==> SameSpot(pages[ptr].slots[i], e)
    ensures Spliced(pages, pages[ptr].slots, i, j, [e], key) == FoundAfter(pages, ptr, e, key)
  {
    var s := pages[ptr].slots;
    if key != [] {
      OneSlot(pages, e, key);
      if i < j {
        assert s[i..j] == [s[i]];
        OneSlot(pages, s[i], key);
      } else {
        assert s[i..j] == [];
      }
    }
  }

  lemma ReplaceFind(cfg: Config, pages: Pages, path: Paths, ptr: nat, k: nat, e: Entry, p: Page)
    requires TrieOk(cfg, pages, path) && ptr in path && k < |pages[ptr].slots|
    requires SameSpot(pages[ptr].slots[k], e) && EntryOk(cfg, e, |path[ptr]|)
    requires SubsOk([e], path, path[ptr])
    requires p.slots == pages[ptr].slots[k := e] && SizeOk(cfg, p)
    ensures TrieOk(cfg, pages[ptr := p], path)
    ensures forall key :: Find(pages[ptr := p], ptr, key) == FoundAfter(pages, ptr, e, key)
  {
    var s := pages[ptr].slots;
    PageSlots(cfg, pages, path, ptr);
    ReplaceSlots(cfg, s, k, e, |path[ptr]|);
    assert s[..k] + [e] + s[k + 1..] == s[k := e];
    assert s[k..k + 1] == [s[k]];
    hide SlotsOk, SubsOk, SizeOk, TrieOk, Spliced, FoundAfter, Find;
    LocalChange(cfg, pages, path, ptr, p, k, k + 1, [e]);
    forall key
      ensures Find(pages[ptr := p], ptr, key) == FoundAfter(pages, ptr, e, key)
    {
      SplicedOne(pages, ptr, k, k + 1, e, key);
    }
  }

  lemma InsertFind(cfg: Config, pages: Pages, path: Paths, ptr: nat, k: nat, e: Entry, p: Page)
    requires TrieOk(cfg, pages, path) && ptr in path && k <= |pages[ptr].slots|
    requires e.Tail? && EntryOk(cfg, e, |path[ptr]|)
    requires forall m :: 0 <= m < k ==> Compare(pages[ptr].slots[m], e.str) < 0
    requires forall m :: k <= m < |pages[ptr].slots| ==> Compare(pages[ptr].slots[m], e.str) > 0
    requires p.slots == pages[ptr].slots[..k] + [e] + pages[ptr].slots[k..] && SizeOk(cfg, p)
    ensures TrieOk(cfg, pages[ptr := p], path)
    ensures forall key :: Find(pages[ptr := p], ptr, key) == FoundAfter(pages, ptr, e, key)
  {
    var s := pages[ptr].slots;
    PageSlots(cfg, pages, path, ptr);
    InsertSlots(cfg, s, k, e, |path[ptr]|);
    assert s[k..k] == [];
    NoSubs(e, path, path[ptr]);
    hide SlotsOk, SubsOk, SizeOk, TrieOk, Spliced, FoundAfter, Find;
    LocalChange(cfg, pages, path, ptr, p, k, k, [e]);
    forall key
      ensures Find(pages[ptr := p], ptr, key) == FoundAfter(pages, ptr, e, key)
    {
      SplicedOne(pages, ptr, k, k, e, key);
    }
  }

  // ---------------------------------------------------------------- frames

  /** The live pages whose path does not extend x did not change. */
  ghost predicate Kept(pages0: Pages, path0: Paths, pages1: Pages, x: Key) {
    forall q :: q in path0 && q in pages0 && !(x <= path0[q]) ==> q in pages1 && pages1[q] == pages0[q]
  }

  /** Two states of a dictionary that cannot be told apart from page ptr. */
  ghost predicate Same(pages0: Pages, pages1: Pages, ptr: nat) {
    forall k :: Find(pages1, ptr, k) == Find(pages0, ptr, k)
  }

  /** An entry other than slot i is unaffected by changes below slot i's path. */
  lemma OtherEntry(cfg: Config, pages0: Pages, path0: Paths, pages1: Pages, ptr: nat, i: nat, j: nat, key: Key)
    requires TrieOk(cfg, pages0, path0) && ptr in path0
    requires i < |pages0[ptr].slots| && j < |pages0[ptr].slots| && i != j && pages0[ptr].slots[i].Ptr?
    requires Kept(pages0, path0, pages1, path0[ptr] + [pages0[ptr].slots[i].ch])
    requires key != []
    ensures EntryFind(pages1, pages0[ptr].slots[j], key) == EntryFind(pages0, pages0[ptr].slots[j], key)
  {
    var s, x := pages0[ptr].slots, path0[ptr];
    PageSlots(cfg, pages0, path0, ptr);
    if s[j].Ptr? && s[j].sub != 0 && |key| > 1 {
      assert s[i].ch != s[j].ch by {
        assert if i < j then EntryLess(s[i], s[j]) else EntryLess(s[j], s[i]);
      }
      assert path0[s[j].sub] == x + [s[j].ch];
      forall q | q in path0 && path0[s[j].sub] <= path0[q]
        ensures q in pages1 && pages1[q] == pages0[q]
      {
        assert path0[q][|x|] == s[j].ch;
      }
      FindSame(cfg, pages0, path0, pages1, s[j].sub, key[1..]);
    }
  }

  /** No entry leads from the page to another one by c. */
  ghost predicate NoPage(s: seq<Entry>, c: int) {
    forall q :: q != 0 ==> !PointsTo(s, c, q)
  }

  lemma AboveKept(pages0: Pages, path0: Paths, pages1: Pages, ptr: nat, x: Key, c: int)
    requires Kept(pages0, path0, pages1, x + [c]) && ptr in path0 && path0[ptr] == x && ptr in pages0
    ensures ptr in pages1 && pages1[ptr] == pages0[ptr]
  {
    assert !(x + [c] <= x);
  }

  /** Changes below a character ptr has no pointer entry for is not found from ptr. */
  lemma SameAbove(cfg: Config, pages0: Pages, path0: Paths, pages1: Pages, ptr: nat, c: int)
    requires TrieOk(cfg, pages0, path0) && ptr in path0
    requires NoPage(pages0[ptr].slots, c)
    requires Kept(pages0, path0, pages1, path0[ptr] + [c])
    ensures Same(pages0, pages1, ptr)
  {
    var s, x := pages0[ptr].slots, path0[ptr];
    AboveKept(pages0, path0, pages1, ptr, x, c);
    PageSlots(cfg, pages0, path0, ptr);
    forall key
      ensures Find(pages1, ptr, key) == Find(pages0, ptr, key)
    {
      if key != [] {
        if j :| Hit(s, j, key) {
          SlotFindHit(cfg, pages0, s, |x|, j, key);
          SlotFindHit(cfg, pages1, s, |x|, j, key);
          if s[j].Ptr? && s[j].sub != 0 && |key| > 1 {
            assert PointsTo(s, s[j].ch, s[j].sub);
            BranchSame(cfg, pages0, path0, pages1, s[j].sub, x, s[j].ch, c, key[1..]);
          }
        }
      }
    }
  }

  lemma BranchSame(cfg: Config, pages0: Pages, path0: Paths, pages1: Pages, sub: nat, x: Key, b: int, c: int, key: Key)
    requires TrieOk(cfg, pages0, path0) && sub in path0 && path0[sub] == x + [b] && b != c
    requires Kept(pages0, path0, pages1, x + [c])
    ensures Find(pages1, sub, key) == Find(pages0, sub, key)
  {
    forall q | q in path0 && path0[sub] <= path0[q]
      ensures q in pages1 && pages1[q] == pages0[q]
    {
      assert path0[q][|x|] == b;
    }
    FindSame(cfg, pages0, path0, pages1, sub, key);
  }

  lemma PtrsDiffer(cfg: Config, s: seq<Entry>, depth: nat, i: nat, j: nat)
    requires SlotsOk(cfg, s, depth) && i < |s| && j < |s| && i != j && s[i].Ptr? && s[j].Ptr?
    ensures s[i].ch != s[j].ch
  {
    assert if i < j then EntryLess(s[i], s[j]) else EntryLess(s[j], s[i]);
  }
}
