/** What the caller of a deletion is told: the information of every key that goes, each once. */
module DictHeard {
  import opened Sequences
  import opened DictPage
  import opened DictTrie
  import opened DictEdit
  import opened DictList

  // ---------------------------------------------------------------- the keys of a subtree

  /** The information of all keys under page ptr, which is h levels high, page by page. */
  ghost function Calls(pages: Pages, ptr: nat, h: nat): seq<Info>
    decreases h, 1, 0
  {
    if h == 0 || ptr !in pages then [] else SlotCalls(pages, pages[ptr].slots, |pages[ptr].slots|, h - 1)
  }

  ghost function SlotCalls(pages: Pages, slots: seq<Entry>, n: nat, h: nat): seq<Info>
    requires n <= |slots|
    decreases h, 2, n
  {
    if n == 0 then [] else SlotCalls(pages, slots, n - 1, h) + OwnCall(slots[n - 1]) + SubCalls(pages, slots[n - 1], h)
  }

  /** What is told of an entry itself. */
  ghost function OwnCall(e: Entry): seq<Info> {
    if e.Ptr? && e.info == [] then [] else [e.info]
  }

  ghost function SubCalls(pages: Pages, e: Entry, h: nat): seq<Info>
    decreases h, 1, 1
  {
    if e.Ptr? && e.sub != 0 then Calls(pages, e.sub, h) else []
  }

  /** The entries of all pages are the same. */
  ghost predicate SameSlots(a: Pages, b: Pages) {
    forall q :: (q in a <==> q in b) && (q in a ==> a[q].slots == b[q].slots)
  }

  lemma {:induction false} SlotsFind(a: Pages, b: Pages, ptr: nat, key: Key)
    requires SameSlots(a, b)
    ensures Find(a, ptr, key) == Find(b, ptr, key)
    decreases |key|
  {
    if key != [] && ptr in a && HasHit(a[ptr].slots, key) {
      var s := a[ptr].slots;
      forall i | Hit(s, i, key)
        ensures EntryFind(a, s[i], key) == EntryFind(b, s[i], key)
      {
        if s[i].Ptr? && |key| > 1 { SlotsFind(a, b, s[i].sub, key[1..]); }
      }
    }
  }

  lemma {:induction false} CallsSame(a: Pages, b: Pages, ptr: nat, h: nat)
    requires SameSlots(a, b)
    ensures Calls(a, ptr, h) == Calls(b, ptr, h)
    decreases h, 1, 0
  {
    if h > 0 && ptr in a { SlotCallsSame(a, b, a[ptr].slots, |a[ptr].slots|, h - 1); }
  }

  lemma {:induction false} SlotCallsSame(a: Pages, b: Pages, slots: seq<Entry>, n: nat, h: nat)
    requires SameSlots(a, b) && n <= |slots|
    ensures SlotCalls(a, slots, n, h) == SlotCalls(b, slots, n, h)
    decreases h, 2, n
  {
    if n > 0 {
      SlotCallsSame(a, b, slots, n - 1, h);
      if slots[n - 1].Ptr? { CallsSame(a, b, slots[n - 1].sub, h); }
    }
  }

  ghost function Infos(list: seq<Item>): (r: seq<Info>)
    ensures |r| == |list| && forall i :: 0 <= i < |r| ==> r[i] == list[i].info
  {
    seq(|list|, i requires 0 <= i < |list| => list[i].info)
  }

  ghost function Levels(cfg: Config, x: Key): nat {
    if |x| <= cfg.maxKey then cfg.maxKey + 1 - |x| else 0
  }

  /** In a live trie what is told of a page is the information of its keys, in order. */
  lemma {:induction false} CallsList(cfg: Config, pages: Pages, path: Paths, ptr: nat)
    requires TrieOk(cfg, pages, path) && ptr in path && |path[ptr]| <= cfg.maxKey
    ensures Calls(pages, ptr, Levels(cfg, path[ptr])) == Infos(List(cfg, pages, path, ptr))
    decreases Height(cfg, |path[ptr]|), 2, 0
  {
    SlotCallsList(cfg, pages, path, ptr, |pages[ptr].slots|, cfg.maxKey - |path[ptr]|);
    hide SlotCalls, SlotList, Infos;
  }

  lemma {:induction false} SlotCallsList(cfg: Config, pages: Pages, path: Paths, ptr: nat, n: nat, h: nat)
    requires TrieOk(cfg, pages, path) && ptr in path && n <= |pages[ptr].slots| && |path[ptr]| + h == cfg.maxKey
    ensures SlotCalls(pages, pages[ptr].slots, n, h) == Infos(SlotList(cfg, pages, path, ptr, n))
    decreases Height(cfg, |path[ptr]|), 1, n
  {
    hide SlotCalls, SlotList, EntryList, OwnCall, SubCalls, Infos;
    if n == 0 {
      NoSlots(cfg, pages, path, ptr, h);
    } else {
      SlotCallsList(cfg, pages, path, ptr, n - 1, h);
      EntryCallsList(cfg, pages, path, ptr, n - 1, h);
      MoreSlots(cfg, pages, path, ptr, n, h);
      InfosJoin(SlotList(cfg, pages, path, ptr, n - 1), EntryList(cfg, pages, path, ptr, n - 1));
    }
  }

  lemma NoSlots(cfg: Config, pages: Pages, path: Paths, ptr: nat, h: nat)
    requires TrieOk(cfg, pages, path) && ptr in path
    ensures SlotCalls(pages, pages[ptr].slots, 0, h) == [] == Infos(SlotList(cfg, pages, path, ptr, 0))
  {
    hide TrieOk;
  }

  lemma MoreSlots(cfg: Config, pages: Pages, path: Paths, ptr: nat, n: nat, h: nat)
    requires TrieOk(cfg, pages, path) && ptr in path && 0 < n <= |pages[ptr].slots|
    ensures var e := pages[ptr].slots[n - 1];
      SlotCalls(pages, pages[ptr].slots, n, h)
        == SlotCalls(pages, pages[ptr].slots, n - 1, h) + (OwnCall(e) + SubCalls(pages, e, h))
    ensures SlotList(cfg, pages, path, ptr, n) ==
      SlotList(cfg, pages, path, ptr, n - 1) + EntryList(cfg, pages, path, ptr, n - 1)
  {
    hide TrieOk, EntryList, SubCalls;
  }

  lemma InfosJoin(a: seq<Item>, b: seq<Item>)
    ensures Infos(a + b) == Infos(a) + Infos(b)
  {
  }

  lemma {:induction false} EntryCallsList(cfg: Config, pages: Pages, path: Paths, ptr: nat, i: nat, h: nat)
    requires TrieOk(cfg, pages, path) && ptr in path && i < |pages[ptr].slots| && |path[ptr]| + h == cfg.maxKey
    ensures var e := pages[ptr].slots[i];
      OwnCall(e) + SubCalls(pages, e, h) == Infos(EntryList(cfg, pages, path, ptr, i))
    decreases Height(cfg, |path[ptr]|), 0, 0
  {
    EntryAt(cfg, pages, path, ptr, i);
    var e := pages[ptr].slots[i];
    hide TrieOk, Calls, List;
    if e.Ptr? && e.sub != 0 { CallsList(cfg, pages, path, e.sub); }
  }

  /** The keys under a page, with their information, each once. */
  ghost predicate Lists(pages: Pages, ptr: nat, keys: seq<Key>, calls: seq<Info>) {
    && |keys| == |calls| && Distinct(keys)
    && (forall i :: 0 <= i < |keys| ==> calls[i] != [] && calls[i] == Find(pages, ptr, keys[i]))
    && (forall k :: Find(pages, ptr, k) != [] ==> k in keys)
  }

  lemma CallsKeys(cfg: Config, pages: Pages, path: Paths, ptr: nat) returns (keys: seq<Key>)
    requires TrieOk(cfg, pages, path) && ptr in path && |path[ptr]| <= cfg.maxKey
    ensures Lists(pages, ptr, keys, Calls(pages, ptr, Levels(cfg, path[ptr])))
  {
    CallsList(cfg, pages, path, ptr);
    ListStored(cfg, pages, path, ptr);
    var list, n := List(cfg, pages, path, ptr), |path[ptr]|;
    hide List, Calls, TrieOk, Find, Less;
    forall i | 0 <= i < |list|
      ensures Stored(pages, path, ptr, list[i]) && n <= |list[i].key|
    {
      assert list[i] in list;
    }
    keys := seq(|list|, i requires 0 <= i < |list| => list[i].key[n..]);
    forall i, j | 0 <= i < j < |keys|
      ensures keys[i] != keys[j]
    {
      LessTotal(list[i].key, list[j].key);
      assert list[i].key == path[ptr] + keys[i] && list[j].key == path[ptr] + keys[j];
    }
    forall k | Find(pages, ptr, k) != []
      ensures k in keys
    {
      FindEmpty(pages, ptr);
      var f := Item(path[ptr] + k, Find(pages, ptr, k));
      assert f.key[n..] == k && Stored(pages, path, ptr, f);
      var i :| 0 <= i < |list| && list[i] == f;
      assert keys[i] == k;
    }
  }

  lemma FindEmpty(pages: Pages, ptr: nat)
    ensures Find(pages, ptr, []) == []
  {
  }

  // ---------------------------------------------------------------- what has been told

  /** The key is gone, and its information was info. */
  ghost predicate KeyGone(pages0: Pages, pages: Pages, ptr: nat, k: Key, info: Info) {
    info != [] && Find(pages0, ptr, k) == info && Find(pages, ptr, k) == []
  }

  /** From pages0 to pages the keys that went from under ptr are keys, told by calls. */
  ghost predicate Heard(pages0: Pages, pages: Pages, ptr: nat, keys: seq<Key>, calls: seq<Info>) {
    && |keys| == |calls| && Distinct(keys)
    && (forall i :: 0 <= i < |keys| ==> KeyGone(pages0, pages, ptr, keys[i], calls[i]))
    && (forall k :: Find(pages0, ptr, k) != Find(pages, ptr, k) ==> k in keys)
  }

  /** The key ends at a pointer entry. */
  ghost predicate EndsAtPtr(pages: Pages, ptr: nat, str: Key)
    decreases |str|
  {
    ptr in pages && str != [] && exists e :: e in pages[ptr].slots && EndsBelow(pages, e, str)
  }

  ghost predicate EndsBelow(pages: Pages, e: Entry, str: Key)
    requires str != []
    decreases |str|, 0
  {
    e.Ptr? && e.ch == str[0] && (|str| == 1 || (e.sub != 0 && EndsAtPtr(pages, e.sub, str[1..])))
  }

  /** What the caller is told of keys with these informations: the information of str itself is wiped
      before it is told, when str ends at a pointer entry. */
  ghost predicate Wiped(keys: seq<Key>, infos: seq<Info>, calls: seq<Info>, str: Key, wiped: bool) {
    && |keys| == |infos| == |calls|
    && forall i :: 0 <= i < |keys| ==> calls[i] == if wiped && keys[i] == str then [] else infos[i]
  }

  lemma WipedPrefixed(c: int, keys: seq<Key>, infos: seq<Info>, calls: seq<Info>, str: Key, wiped: bool)
    requires str != [] && str[0] == c && Wiped(keys, infos, calls, str[1..], wiped)
    ensures Wiped(Prefixed(c, keys), infos, calls, str, wiped)
  {
    forall i | 0 <= i < |keys|
      ensures Prefixed(c, keys)[i] == str <==> keys[i] == str[1..]
    {
      assert str == [c] + str[1..] && Prefixed(c, keys)[i][1..] == keys[i];
    }
  }

  /** Longer keys are told as they are. */
  lemma WipedMore(keys: seq<Key>, infos: seq<Info>, calls: seq<Info>, str: Key, wiped: bool, c: int, keys2: seq<Key>,
                  infos2: seq<Info>)
    requires Wiped(keys, infos, calls, str, wiped) && |str| == 1 && |keys2| == |infos2|
    requires forall i :: 0 <= i < |keys2| ==> keys2[i] != []
    ensures Wiped(keys + Prefixed(c, keys2), infos + infos2, calls + infos2, str, wiped)
  {
    forall i | 0 <= i < |keys2|
      ensures Prefixed(c, keys2)[i] != str
    {
      assert |Prefixed(c, keys2)[i]| > 1;
    }
  }

  lemma ListsNonEmpty(pages: Pages, ptr: nat, keys: seq<Key>, infos: seq<Info>)
    requires Lists(pages, ptr, keys, infos)
    ensures forall i :: 0 <= i < |keys| ==> keys[i] != []
    ensures |keys| == |infos|
  {
  }

  /** The information of a key in the subtree at q, which hung from c and is no longer in the trie. */
  ghost function Pending(pages: Pages, c: int, q: nat, k: Key): Info {
    if q != 0 && |k| > 1 && k[0] == c then Find(pages, q, k[1..]) else []
  }

  /** The same, but for the keys of a subtree that is out of the trie and still to be told. */
  ghost predicate HeardBut(pages0: Pages, pages: Pages, ptr: nat, keys: seq<Key>, calls: seq<Info>, c: int, q: nat) {
    && |keys| == |calls| && Distinct(keys)
    && (forall i :: 0 <= i < |keys| ==> && KeyGone(pages0, pages, ptr, keys[i], calls[i])
                                        && Pending(pages, c, q, keys[i]) == [])
    && (forall k :: Pending(pages, c, q, k) != [] ==> KeyGone(pages0, pages, ptr, k, Pending(pages, c, q, k)))
    && (forall k :: Find(pages0, ptr, k) != Find(pages, ptr, k) ==> k in keys || Pending(pages, c, q, k) != [])
  }

  lemma HeardNone(pages: Pages, ptr: nat)
    ensures Heard(pages, pages, ptr, [], [])
  {
  }

  /** One more key, the only one that went. */
  lemma HeardOne(pages0: Pages, pages1: Pages, pages2: Pages, ptr: nat, keys: seq<Key>, calls: seq<Info>, k: Key,
                 info: Info)
    requires Heard(pages0, pages1, ptr, keys, calls) && KeyGone(pages1, pages2, ptr, k, info)
    requires forall other :: other != k ==> Find(pages2, ptr, other) == Find(pages1, ptr, other)
    ensures Heard(pages0, pages2, ptr, keys + [k], calls + [info])
  {
    hide Find;
    assert k !in keys;
  }

  lemma HeardSame(pages0: Pages, pages1: Pages, pages2: Pages, ptr: nat, keys: seq<Key>, calls: seq<Info>)
    requires Heard(pages0, pages1, ptr, keys, calls) && Same(pages1, pages2, ptr)
    ensures Heard(pages0, pages2, ptr, keys, calls)
  {
    hide Find;
  }

  lemma ButNone(pages0: Pages, pages: Pages, ptr: nat, keys: seq<Key>, calls: seq<Info>, c: int)
    ensures HeardBut(pages0, pages, ptr, keys, calls, c, 0) <==> Heard(pages0, pages, ptr, keys, calls)
  {
    hide Find;
  }

  /** The keys below a pointer entry, seen from its page. */
  ghost function Prefixed(c: int, keys: seq<Key>): (r: seq<Key>)
    ensures |r| == |keys| && forall i :: 0 <= i < |r| ==> r[i] == [c] + keys[i]
  {
    seq(|keys|, i requires 0 <= i < |keys| => [c] + keys[i])
  }

  lemma PrefixedIs(c: int, keys: seq<Key>)
    requires Distinct(keys)
    ensures Distinct(Prefixed(c, keys))
    ensures forall k :: k in Prefixed(c, keys) <==> k != [] && k[0] == c && k[1..] in keys
  {
    var r := Prefixed(c, keys);
    forall i, j | 0 <= i < j < |r|
      ensures r[i] != r[j]
    {
      assert r[i][1..] == keys[i] && r[j][1..] == keys[j];
    }
    forall k
      ensures k in r <==> k != [] && k[0] == c && k[1..] in keys
    {
      if k != [] && k[0] == c && k[1..] in keys {
        var i :| 0 <= i < |keys| && keys[i] == k[1..];
        assert r[i] == k;
      }
      if i :| 0 <= i < |r| && r[i] == k { assert k[1..] == keys[i]; }
    }
  }

  /** What went below a pointer entry went from its page. */
  lemma HeardUp(pages0: Pages, pages1: Pages, ptr: nat, c: int, q: nat, keys: seq<Key>, calls: seq<Info>)
    requires Heard(pages0, pages1, q, keys, calls)
    requires forall k :: |k| > 1 && k[0] == c ==>
      Find(pages0, ptr, k) == Find(pages0, q, k[1..]) && Find(pages1, ptr, k) == Find(pages1, q, k[1..])
    requires forall k :: !(|k| > 1 && k[0] == c) ==> Find(pages1, ptr, k) == Find(pages0, ptr, k)
    ensures Heard(pages0, pages1, ptr, Prefixed(c, keys), calls)
  {
    FindEmpty(pages0, q);
    hide Find;
    PrefixedIs(c, keys);
    var all := Prefixed(c, keys);
    forall i | 0 <= i < |all|
      ensures KeyGone(pages0, pages1, ptr, all[i], calls[i])
    {
      assert KeyGone(pages0, pages1, q, keys[i], calls[i]) && all[i][1..] == keys[i];
    }
    forall k | Find(pages0, ptr, k) != Find(pages1, ptr, k)
      ensures k in all
    {
      assert k[1..] in keys;
    }
  }

  lemma DropPending(pages1: Pages, pages2: Pages, ptr: nat, c: int, q: nat, k: Key)
    requires k != [] && k[0] == c ==> Find(pages1, ptr, k) == if |k| > 1 && q != 0 then Find(pages1, q, k[1..]) else []
    requires q != 0 ==> forall k :: Find(pages2, q, k) == Find(pages1, q, k)
    ensures Pending(pages2, c, q, k) == if k != [] && k[0] == c then Find(pages1, ptr, k) else []
  {
    hide Find;
  }

  /** The pointer entry for c, which has no information of its own, is taken out, and the subtree at q
      with it. */
  lemma ButDrop(pages0: Pages, pages1: Pages, pages2: Pages, ptr: nat, keys: seq<Key>, calls: seq<Info>, c: int, q: nat)
    requires Heard(pages0, pages1, ptr, keys, calls)
    requires forall k :: Find(pages2, ptr, k) == if k != [] && k[0] == c then [] else Find(pages1, ptr, k)
    requires forall k :: Pending(pages2, c, q, k) == if k != [] && k[0] == c then Find(pages1, ptr, k) else []
    ensures HeardBut(pages0, pages2, ptr, keys, calls, c, q)
  {
    hide Find, Pending;
    forall i | 0 <= i < |keys|
      ensures KeyGone(pages0, pages2, ptr, keys[i], calls[i]) && Pending(pages2, c, q, keys[i]) == []
    {
      assert KeyGone(pages0, pages1, ptr, keys[i], calls[i]);
    }
    forall k | Pending(pages2, c, q, k) != []
      ensures KeyGone(pages0, pages2, ptr, k, Pending(pages2, c, q, k))
    {
      assert k !in keys;
    }
  }

  lemma ButSame(pages0: Pages, pages1: Pages, pages2: Pages, ptr: nat, keys: seq<Key>, calls: seq<Info>, c: int, q: nat)
    requires HeardBut(pages0, pages1, ptr, keys, calls, c, q) && SameSlots(pages1, pages2)
    ensures HeardBut(pages0, pages2, ptr, keys, calls, c, q)
  {
    forall p: nat, k
      ensures Find(pages2, p, k) == Find(pages1, p, k)
    {
      SlotsFind(pages1, pages2, p, k);
    }
    hide Find;
    assert forall k :: Pending(pages2, c, q, k) == Pending(pages1, c, q, k);
    hide Pending;
  }

  /** The keys of a subtree, seen from the page it hung from, are those that are pending. */
  lemma PendingKeys(pages: Pages, c: int, q: nat, keys: seq<Key>, infos: seq<Info>)
    requires Lists(pages, q, keys, infos) && q != 0
    ensures |infos| == |keys| && Distinct(Prefixed(c, keys))
    ensures forall k :: k in Prefixed(c, keys) <==> Pending(pages, c, q, k) != []
    ensures forall i :: 0 <= i < |keys| ==> Pending(pages, c, q, Prefixed(c, keys)[i]) == infos[i] != []
  {
    FindEmpty(pages, q);
    PrefixedIs(c, keys);
    hide Find;
    var all := Prefixed(c, keys);
    forall i | 0 <= i < |keys|
      ensures Pending(pages, c, q, all[i]) == infos[i] != []
    {
      assert all[i][1..] == keys[i] && keys[i] != [];
    }
    forall k | Pending(pages, c, q, k) != []
      ensures k in all
    {
    }
    forall k | k in all
      ensures Pending(pages, c, q, k) != []
    {
      var i :| 0 <= i < |all| && all[i] == k;
    }
  }

  lemma PendingTold(pages0: Pages, pages: Pages, ptr: nat, keys: seq<Key>, calls: seq<Info>, c: int, q: nat,
                    more: seq<Key>, calls2: seq<Info>)
    requires HeardBut(pages0, pages, ptr, keys, calls, c, q) && |more| == |calls2| && Distinct(more)
    requires forall k :: k in more <==> Pending(pages, c, q, k) != []
    requires forall i :: 0 <= i < |more| ==> Pending(pages, c, q, more[i]) == calls2[i] != []
    ensures Heard(pages0, pages, ptr, keys + more, calls + calls2)
  {
    hide Find, Pending, KeyGone;
    var all, told := keys + more, calls + calls2;
    forall i | 0 <= i < |all|
      ensures KeyGone(pages0, pages, ptr, all[i], told[i])
    {
      if i < |keys| {
        assert KeyGone(pages0, pages, ptr, keys[i], calls[i]);
      } else {
        var j := i - |keys|;
        assert KeyGone(pages0, pages, ptr, more[j], Pending(pages, c, q, more[j]));
      }
    }
    forall i, j | 0 <= i < |keys| && 0 <= j < |more|
      ensures keys[i] != more[j]
    {
      assert more[j] in more;
    }
  }

  lemma ListsSame(pages1: Pages, pages2: Pages, q: nat, keys: seq<Key>, infos: seq<Info>)
    requires Lists(pages1, q, keys, infos) && SameSlots(pages1, pages2)
    ensures Lists(pages2, q, keys, infos)
  {
    forall k
      ensures Find(pages2, q, k) == Find(pages1, q, k)
    {
      SlotsFind(pages1, pages2, q, k);
    }
    hide Find, SameSlots;
  }

  /** The keys of the subtree are told. */
  lemma ButDone(pages0: Pages, pages1: Pages, pages2: Pages, ptr: nat, keys: seq<Key>, calls: seq<Info>, c: int, q: nat,
                keys2: seq<Key>, calls2: seq<Info>)
    requires HeardBut(pages0, pages1, ptr, keys, calls, c, q) && q != 0 && SameSlots(pages1, pages2)
    requires Lists(pages1, q, keys2, calls2)
    ensures Heard(pages0, pages2, ptr, keys + Prefixed(c, keys2), calls + calls2)
  {
    hide *;
    ButSame(pages0, pages1, pages2, ptr, keys, calls, c, q);
    ListsSame(pages1, pages2, q, keys2, calls2);
    PendingKeys(pages2, c, q, keys2, calls2);
    PendingTold(pages0, pages2, ptr, keys, calls, c, q, Prefixed(c, keys2), calls2);
  }
}
