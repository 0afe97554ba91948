/** The dictionary object: its head (root, last, freelist), its pages, and which pages are
  live or free. */
module DictStore {
  import opened DictPage
  import opened DictTrie

  ghost predicate PointsTo(slots: seq<Entry>, c: int, q: nat) {
    exists i :: 0 <= i < |slots| && slots[i].Ptr? && slots[i].ch == c && slots[i].sub == q
  }

  ghost predicate Parent(pages: Pages, path: Paths, r: nat, q: nat)
    requires q in path
  {
    && r in path && r in pages && path[q] != []
    && path[r] == path[q][..|path[q]| - 1]
    && PointsTo(pages[r].slots, path[q][|path[q]| - 1], q)
  }

  /** No two live pages have the same path, and every live page but the root hangs from a
      live page. Pages at a path in orphans are exempt: they are being built. */
  ghost predicate Linked(pages: Pages, path: Paths, root: nat, orphans: set<Key>) {
    && (forall q, r :: q in path && r in path && path[q] == path[r] ==> q == r)
    && (root in path ==> path[root] == [])
    && (forall q :: q in path && q != root && path[q] !in orphans ==> exists r :: Parent(pages, path, r, q))
  }

  function NextFree(free: seq<nat>, i: nat): nat {
    if i + 1 < |free| then free[i + 1] else 0
  }

  /** The freelist threads the free pages through their back pointers. */
  ghost predicate Chain(pages: Pages, head: nat, free: seq<nat>) {
    && head == (if free == [] then 0 else free[0])
    && (forall i :: 0 <= i < |free| ==> free[i] in pages && pages[free[i]].backptr == NextFree(free, i))
  }

  /** Each page number in 1..last-1 is live, or on the freelist exactly once, never both. */
  ghost predicate Conserved(pages: Pages, path: Paths, last: nat, freelist: nat, free: seq<nat>) {
    && 1 <= last
    && Chain(pages, freelist, free)
    && (forall q: nat :: 1 <= q < last <==> q in path || q in free)
    && (forall q :: q in free ==> q !in path)
    && (forall i, j :: 0 <= i < j < |free| ==> free[i] != free[j])
  }

  ghost function InfoOf(contents: map<Key, Info>, key: Key): Info {
    if key in contents then contents[key] else []
  }

  ghost predicate StateOk(cfg: Config, pages: Pages, path: Paths, root: nat, last: nat, freelist: nat, free: seq<nat>,
                          orphans: set<Key>)
  {
    && TrieOk(cfg, pages, path)
    && Conserved(pages, path, last, freelist, free)
    && Linked(pages, path, root, orphans)
  }

  class Dict {
    const cfg: Config
    const rw: bool
    var root: nat
    var last: nat
    var freelist: nat
    var pages: Pages
    var noSplit: nat
    ghost var path: Paths
    ghost var free: seq<nat>
    // The finite map the dictionary stands for; no key has empty information.
    ghost var contents: map<Key, Info>

    ghost predicate Ok(orphans: set<Key>)
      reads this`root, this`last, this`freelist, this`pages, this`path, this`free
    {
      StateOk(cfg, pages, path, root, last, freelist, free, orphans)
    }

    ghost predicate Valid()
      reads this`root, this`last, this`freelist, this`pages, this`path, this`free, this`contents
    {
      && Ok({}) && (if root == 0 then path == map[] else root in path)
      && (forall key :: key in contents ==> contents[key] != [])
      && (forall key :: Get(key) == InfoOf(contents, key))
    }

    /** The information found for a key; empty when there is none. */
    ghost function Get(key: Key): Info
      reads this`root, this`pages
    {
      if root == 0 then [] else Find(pages, root, key)
    }

    constructor (cfg: Config, rw: bool)
      requires ValidConfig(cfg)
      ensures Valid() && this.cfg == cfg && this.rw == rw && contents == map[]
    {
      this.cfg, this.rw := cfg, rw;
      root, last, freelist, pages, noSplit := 0, 1, 0, map[], 0;
      path, free, contents := map[], [], map[];
    }

    /** Takes a page off the freelist, or a new one at the end, and empties it. */
    method NewPage(backptr: nat, ghost x: Key) returns (ptr: nat)
      requires TrieOk(cfg, pages, path) && Conserved(pages, path, last, freelist, free)
      modifies this`pages, this`last, this`freelist, this`path, this`free
      ensures ptr != 0 && ptr !in old(path)
      ensures path == old(path)[ptr := x]
      ensures pages == old(pages)[ptr := Page(false, backptr, HEADER_SIZE, [])]
      ensures TrieOk(cfg, pages, path) && Conserved(pages, path, last, freelist, free)
    {
      ptr := last;
      ghost var empty := Page(false, backptr, HEADER_SIZE, []);
      if freelist == 0 {
        AppendFree(pages, path, last, freelist, free, empty, x);
        last := last + 1;
      } else {
        PopFree(pages, path, last, freelist, free, empty, x);
        ptr := freelist;
        freelist := pages[ptr].backptr;
        free := free[1..];
      }
      AddLive(cfg, pages, path, ptr, empty, x);
      pages := pages[ptr := Page(false, backptr, HEADER_SIZE, [])];
      path := path[ptr := x];
    }
  }

  lemma PopFree(pages: Pages, path: Paths, last: nat, freelist: nat, free: seq<nat>, empty: Page, x: Key)
    requires Conserved(pages, path, last, freelist, free) && freelist != 0
    ensures free != [] && freelist == free[0] && freelist in pages && freelist !in path
    ensures Conserved(pages[freelist := empty], path[freelist := x], last, pages[freelist].backptr, free[1..])
  {
    var rest := free[1..];
    var pages' := pages[freelist := empty];
    assert free[0] in free;
    assert free == [freelist] + rest;
    assert pages[free[0]].backptr == NextFree(free, 0);
    forall i | 0 <= i < |rest|
      ensures rest[i] in pages' && pages'[rest[i]].backptr == NextFree(rest, i)
    {
      assert rest[i] == free[i + 1] && free[0] != free[i + 1];
      assert pages[free[i + 1]].backptr == NextFree(free, i + 1);
    }
    forall q: nat
      ensures 1 <= q < last <==> q in path[freelist := x] || q in rest
    {
      assert q in free <==> q == freelist || q in rest;
    }
  }

  lemma AppendFree(pages: Pages, path: Paths, last: nat, freelist: nat, free: seq<nat>, empty: Page, x: Key)
    requires Conserved(pages, path, last, freelist, free) && freelist == 0
    ensures free == [] && last !in path
    ensures Conserved(pages[last := empty], path[last := x], last + 1, 0, free)
  {
    HeadIn(free);
  }

  lemma HeadIn(free: seq<nat>)
    ensures free == [] || free[0] in free
  {
  }

  lemma AddLive(cfg: Config, pages: Pages, path: Paths, ptr: nat, empty: Page, x: Key)
    requires TrieOk(cfg, pages, path) && ptr !in path && ptr != 0
    requires empty.slots == [] && empty.size == HEADER_SIZE && !empty.dirty
    ensures TrieOk(cfg, pages[ptr := empty], path[ptr := x])
  {
    ConfigRoom(cfg);
  }

  lemma ConfigRoom(cfg: Config)
    requires ValidConfig(cfg)
    ensures |cfg.alphabet| * (8 + cfg.maxInfo) == PtrRoom(cfg) + SLOT_SIZE * |cfg.alphabet|
    ensures PtrRoom(cfg) >= 0
    ensures HEADER_SIZE + PtrRoom(cfg) + SLOT_SIZE * |cfg.alphabet| + 8 + cfg.maxInfo
            + cfg.maxKey + cfg.maxInfo + 4 <= cfg.pageSize
  {
    var a, u := |cfg.alphabet|, cfg.maxInfo;
    assert (a + 1) * (8 + u) == a * (8 + u) + (8 + u);
    assert a * (8 + u) == a * (6 + u) + 2 * a;
  }
}
