/** The keys of a trie in ascending order. */
module DictList {
  import opened DictPage
  import opened DictTrie

  datatype Item = Item(key: Key, info: Info)

  ghost function Height(cfg: Config, depth: nat): nat {
    if depth <= cfg.maxKey then cfg.maxKey - depth else 0
  }

  /** The keys under page ptr, slot by slot; a key stored on a pointer entry comes before the
      keys of its subpage. */
  ghost function List(cfg: Config, pages: Pages, path: Paths, ptr: nat): seq<Item>
    requires TrieOk(cfg, pages, path) && ptr in path
    decreases Height(cfg, |path[ptr]|), 2, 0
  {
    SlotList(cfg, pages, path, ptr, |pages[ptr].slots|)
  }

  /** The keys of the first n slots of page ptr. */
  ghost function SlotList(cfg: Config, pages: Pages, path: Paths, ptr: nat, n: nat): seq<Item>
    requires TrieOk(cfg, pages, path) && ptr in path && n <= |pages[ptr].slots|
    decreases Height(cfg, |path[ptr]|), 1, n
  {
    if n == 0 then [] else SlotList(cfg, pages, path, ptr, n - 1) + EntryList(cfg, pages, path, ptr, n - 1)
  }

  ghost function EntryList(cfg: Config, pages: Pages, path: Paths, ptr: nat, i: nat): seq<Item>
    requires TrieOk(cfg, pages, path) && ptr in path && i < |pages[ptr].slots|
    decreases Height(cfg, |path[ptr]|), 0, 0
  {
    EntryAt(cfg, pages, path, ptr, i);
    match pages[ptr].slots[i]
    case Tail(s, info) => [Item(path[ptr] + s, info)]
    case Ptr(c, info, sub) =>
      Own(path[ptr] + [c], info) + if sub == 0 then [] else List(cfg, pages, path, sub)
  }

  ghost function Own(key: Key, info: Info): seq<Item> {
    if info == [] then [] else [Item(key, info)]
  }

  lemma EntryAt(cfg: Config, pages: Pages, path: Paths, ptr: nat, i: nat)
    requires TrieOk(cfg, pages, path) && ptr in path && i < |pages[ptr].slots|
    ensures var e, x := pages[ptr].slots[i], path[ptr];
      && EntryOk(cfg, e, |x|) && NonEmpty(e) && SlotsOk(cfg, pages[ptr].slots, |x|) && ValidConfig(cfg)
      && (e.Ptr? ==> |x| < cfg.maxKey && e.ch >= 1 && (e.sub != 0 ==> e.sub in path && path[e.sub] == x + [e.ch]))
      && (e.Tail? ==> |x| + |e.str| <= cfg.maxKey && e.str != [] && e.info != [])
  {
    assert SubsOk(pages[ptr].slots, path, path[ptr]);
    assert PageOk(cfg, pages[ptr], |path[ptr]|);
    hide TrieOk, SubsOk, SizeOk;
  }

  // ---------------------------------------------------------------- what the list holds

  ghost predicate Ordered(list: seq<Item>) {
    forall i, j :: 0 <= i < j < |list| ==> Less(list[i].key, list[j].key)
  }

  /** The item is a key of slot i of page ptr, with its information. */
  ghost predicate InEntry(cfg: Config, pages: Pages, path: Paths, ptr: nat, i: nat, f: Item)
    requires TrieOk(cfg, pages, path) && ptr in path && i < |pages[ptr].slots|
  {
    var x := path[ptr];
    && x < f.key && f.info != [] && Compare(pages[ptr].slots[i], f.key[|x|..]) == 0
    && f.info == EntryFind(pages, pages[ptr].slots[i], f.key[|x|..])
  }

  /** The item is a key under page ptr, with its information. */
  ghost predicate Stored(pages: Pages, path: Paths, ptr: nat, f: Item)
    requires ptr in path
  {
    path[ptr] < f.key && f.info != [] && f.info == Find(pages, ptr, f.key[|path[ptr]|..])
  }

  /** The list of a page holds the keys under it, in ascending order. */
  lemma {:induction false} ListStored(cfg: Config, pages: Pages, path: Paths, ptr: nat)
    requires TrieOk(cfg, pages, path) && ptr in path
    ensures Ordered(List(cfg, pages, path, ptr))
    ensures forall f :: f in List(cfg, pages, path, ptr) <==> Stored(pages, path, ptr, f)
    decreases Height(cfg, |path[ptr]|), 2, 0
  {
    var n := |pages[ptr].slots|;
    SlotsStored(cfg, pages, path, ptr, n);
    PageSlots(cfg, pages, path, ptr);
    forall f
      ensures f in List(cfg, pages, path, ptr) <==> Stored(pages, path, ptr, f)
    {
      StoredInEntry(cfg, pages, path, ptr, f);
    }
  }

  lemma StoredInEntry(cfg: Config, pages: Pages, path: Paths, ptr: nat, f: Item)
    requires TrieOk(cfg, pages, path) && ptr in path
    ensures Stored(pages, path, ptr, f) <==>
      exists i: nat :: i < |pages[ptr].slots| && InEntry(cfg, pages, path, ptr, i, f)
  {
    PageSlots(cfg, pages, path, ptr);
    var x, slots := path[ptr], pages[ptr].slots;
    if Stored(pages, path, ptr, f) {
      var k := f.key[|x|..];
      assert Find(pages, ptr, k) == SlotFind(pages, slots, k);
      var i :| Hit(slots, i, k);
      SlotFindHit(cfg, pages, slots, |x|, i, k);
      assert InEntry(cfg, pages, path, ptr, i, f);
    }
    if i: nat :| i < |slots| && InEntry(cfg, pages, path, ptr, i, f) {
      var k := f.key[|x|..];
      assert Hit(slots, i, k);
      SlotFindHit(cfg, pages, slots, |x|, i, k);
    }
  }

  lemma {:induction false} SlotsStored(cfg: Config, pages: Pages, path: Paths, ptr: nat, n: nat)
    requires TrieOk(cfg, pages, path) && ptr in path && n <= |pages[ptr].slots|
    ensures Ordered(SlotList(cfg, pages, path, ptr, n))
    ensures forall f :: f in SlotList(cfg, pages, path, ptr, n) <==>
      exists i: nat :: i < n && InEntry(cfg, pages, path, ptr, i, f)
    decreases Height(cfg, |path[ptr]|), 1, n
  {
    hide EntryList, InEntry, Less;
    if n > 0 {
      SlotsStored(cfg, pages, path, ptr, n - 1);
      EntryStored(cfg, pages, path, ptr, n - 1);
      SlotsJoin(cfg, pages, path, ptr, n - 1);
    }
  }

  lemma SlotsJoin(cfg: Config, pages: Pages, path: Paths, ptr: nat, m: nat)
    requires TrieOk(cfg, pages, path) && ptr in path && m < |pages[ptr].slots|
    requires Ordered(SlotList(cfg, pages, path, ptr, m)) && Ordered(EntryList(cfg, pages, path, ptr, m))
    requires forall f :: f in SlotList(cfg, pages, path, ptr, m) <==>
      exists i: nat :: i < m && InEntry(cfg, pages, path, ptr, i, f)
    requires forall f :: f in EntryList(cfg, pages, path, ptr, m) <==> InEntry(cfg, pages, path, ptr, m, f)
    ensures Ordered(SlotList(cfg, pages, path, ptr, m + 1))
    ensures var n := m + 1;
      forall f :: f in SlotList(cfg, pages, path, ptr, n) <==>
        exists i: nat :: i < n && InEntry(cfg, pages, path, ptr, i, f)
  {
    var a, b := SlotList(cfg, pages, path, ptr, m), EntryList(cfg, pages, path, ptr, m);
    assert SlotList(cfg, pages, path, ptr, m + 1) == a + b;
    hide TrieOk, EntryList, SlotList, InEntry;
    forall f, g | f in a && g in b
      ensures Less(f.key, g.key)
    {
      var i: nat :| i < m && InEntry(cfg, pages, path, ptr, i, f);
      EntriesApart(cfg, pages, path, ptr, i, m, f, g);
    }
    forall f
      ensures f in a + b <==> exists i: nat :: i < m + 1 && InEntry(cfg, pages, path, ptr, i, f)
    {
      if i: nat :| i < m + 1 && InEntry(cfg, pages, path, ptr, i, f) { assert i < m || i == m; }
      if f in a {
        var i: nat :| i < m && InEntry(cfg, pages, path, ptr, i, f);
        assert i < m + 1;
      }
    }
  }

  lemma EntriesApart(cfg: Config, pages: Pages, path: Paths, ptr: nat, i: nat, j: nat, f: Item, g: Item)
    requires TrieOk(cfg, pages, path) && ptr in path && i < j < |pages[ptr].slots|
    requires InEntry(cfg, pages, path, ptr, i, f) && InEntry(cfg, pages, path, ptr, j, g)
    ensures Less(f.key, g.key)
  {
    var x, slots := path[ptr], pages[ptr].slots;
    EntryAt(cfg, pages, path, ptr, i);
    EntryAt(cfg, pages, path, ptr, j);
    assert EntryLess(slots[i], slots[j]);
    assert f.key == x + f.key[|x|..] && g.key == x + g.key[|x|..];
    LessPrefix(x, f.key[|x|..], g.key[|x|..]);
  }

  lemma {:induction false} EntryStored(cfg: Config, pages: Pages, path: Paths, ptr: nat, i: nat)
    requires TrieOk(cfg, pages, path) && ptr in path && i < |pages[ptr].slots|
    ensures Ordered(EntryList(cfg, pages, path, ptr, i))
    ensures forall f :: f in EntryList(cfg, pages, path, ptr, i) <==> InEntry(cfg, pages, path, ptr, i, f)
    decreases Height(cfg, |path[ptr]|), 0, 0
  {
    EntryAt(cfg, pages, path, ptr, i);
    var x, e := path[ptr], pages[ptr].slots[i];
    if e.Tail? {
      TailStored(cfg, pages, path, ptr, i);
    } else {
      if e.sub != 0 { ListStored(cfg, pages, path, e.sub); }
      PtrStored(cfg, pages, path, ptr, i);
    }
  }

  lemma TailStored(cfg: Config, pages: Pages, path: Paths, ptr: nat, i: nat)
    requires TrieOk(cfg, pages, path) && ptr in path && i < |pages[ptr].slots| && pages[ptr].slots[i].Tail?
    ensures Ordered(EntryList(cfg, pages, path, ptr, i))
    ensures forall f :: f in EntryList(cfg, pages, path, ptr, i) <==> InEntry(cfg, pages, path, ptr, i, f)
  {
    EntryAt(cfg, pages, path, ptr, i);
    var x, e := path[ptr], pages[ptr].slots[i];
    forall f
      ensures f in EntryList(cfg, pages, path, ptr, i) <==> InEntry(cfg, pages, path, ptr, i, f)
    {
      assert x < f.key ==> f.key == x + f.key[|x|..];
      assert (x + e.str)[|x|..] == e.str;
    }
  }

  lemma PtrStored(cfg: Config, pages: Pages, path: Paths, ptr: nat, i: nat)
    requires TrieOk(cfg, pages, path) && ptr in path && i < |pages[ptr].slots| && pages[ptr].slots[i].Ptr?
    requires pages[ptr].slots[i].sub != 0 ==> pages[ptr].slots[i].sub in path
    requires var sub := pages[ptr].slots[i].sub; sub != 0 ==> Ordered(List(cfg, pages, path, sub))
    requires var sub := pages[ptr].slots[i].sub;
      sub != 0 ==> forall f :: f in List(cfg, pages, path, sub) <==> Stored(pages, path, sub, f)
    ensures Ordered(EntryList(cfg, pages, path, ptr, i))
    ensures forall f :: f in EntryList(cfg, pages, path, ptr, i) <==> InEntry(cfg, pages, path, ptr, i, f)
  {
    EntryAt(cfg, pages, path, ptr, i);
    var x, e := path[ptr], pages[ptr].slots[i];
    var own, below := Own(x + [e.ch], e.info), if e.sub == 0 then [] else List(cfg, pages, path, e.sub);
    assert EntryList(cfg, pages, path, ptr, i) == own + below;
    forall f
      ensures f in own + below <==> InEntry(cfg, pages, path, ptr, i, f)
      ensures f in below ==> Less(x + [e.ch], f.key)
    {
      PtrItem(cfg, pages, path, ptr, i, f);
      if f in below { LongerLess(x + [e.ch], f.key); }
    }
  }

  lemma LongerLess(a: Key, b: Key)
    requires a < b
    ensures Less(a, b)
  {
    assert b == a + b[|a|..] && a == a + [];
    LessPrefix(a, [], b[|a|..]);
  }

  lemma PtrItem(cfg: Config, pages: Pages, path: Paths, ptr: nat, i: nat, f: Item)
    requires TrieOk(cfg, pages, path) && ptr in path && i < |pages[ptr].slots| && pages[ptr].slots[i].Ptr?
    ensures var x, e := path[ptr], pages[ptr].slots[i];
      && (e.sub != 0 ==> e.sub in path && path[e.sub] == x + [e.ch])
      && (InEntry(cfg, pages, path, ptr, i, f) <==>
          (e.info != [] && f == Item(x + [e.ch], e.info)) || (e.sub != 0 && Stored(pages, path, e.sub, f)))
  {
    EntryAt(cfg, pages, path, ptr, i);
    var x, e := path[ptr], pages[ptr].slots[i];
    if x < f.key {
      var k := f.key[|x|..];
      assert f.key == x + k && k == [k[0]] + k[1..] && f.key == x + [k[0]] + k[1..];
      assert |k| == 1 ==> f.key == x + [k[0]];
      if x + [e.ch] < f.key {
        assert k[0] == f.key[|x|] == (x + [e.ch])[|x|] == e.ch;
        assert k[1..] == f.key[|x| + 1..];
      }
    }
    if e.sub != 0 && Stored(pages, path, e.sub, f) { assert x < x + [e.ch] < f.key; }
    hide TrieOk;
  }
}
