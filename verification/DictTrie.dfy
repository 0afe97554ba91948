/** What a set of dictionary pages means: the information found for each key, the
  invariants of the pages, and how local changes to a page change what is found. */
module DictTrie {
  import opened DictPage

  type Pages = map<nat, Page>
  // The live pages, each with the characters consumed on the way to it from the root.
  type Paths = map<nat, Key>

  // ---------------------------------------------------------------- meaning

  ghost predicate Hit(slots: seq<Entry>, i: int, key: Key) {
    0 <= i < |slots| && Compare(slots[i], key) == 0
  }

  ghost predicate HasHit(slots: seq<Entry>, key: Key) {
    exists i :: Hit(slots, i, key)
  }

  /** The information stored for key under page ptr; empty when there is none. */
  ghost function Find(pages: Pages, ptr: nat, key: Key): Info
    decreases |key|, 2
  {
    if key == [] || ptr !in pages then [] else SlotFind(pages, pages[ptr].slots, key)
  }

  ghost function SlotFind(pages: Pages, slots: seq<Entry>, key: Key): Info
    requires key != []
    decreases |key|, 1
  {
    if HasHit(slots, key) then
      var i :| Hit(slots, i, key);
      EntryFind(pages, slots[i], key)
    else []
  }

  ghost function EntryFind(pages: Pages, e: Entry, key: Key): Info
    requires key != []
    decreases |key|, 0
  {
    match e
    case Tail(_, info) => info
    case Ptr(_, info, sub) =>
      if |key| == 1 then info else if sub == 0 then [] else Find(pages, sub, key[1..])
  }

  // ---------------------------------------------------------------- invariants

  ghost predicate EntryOk(cfg: Config, e: Entry, depth: nat) {
    match e
    case Tail(s, info) =>
      s != [] && ValidKey(cfg, s) && depth + |s| <= cfg.maxKey && 1 <= |info| <= cfg.maxInfo
    case Ptr(c, info, sub) =>
      && c in cfg.alphabet && |info| <= cfg.maxInfo
      && depth + 1 <= cfg.maxKey
  }

  ghost predicate SlotsOk(cfg: Config, slots: seq<Entry>, depth: nat) {
    && (forall i :: 0 <= i < |slots| ==> EntryOk(cfg, slots[i], depth))
    && Sorted(slots)
  }

  /** The most that pointer entries, live or removed since the last cleaning, can take. */
  ghost function PtrRoom(cfg: Config): int {
    |cfg.alphabet| * (PTR_SIZE + 2 + cfg.maxInfo)
  }

  /** Bytes in use never pass the slot directory; a page not marked dirty has no unused
      bytes except those of pointer entries removed when their subpage became empty. */
  ghost predicate SizeOk(cfg: Config, p: Page) {
    && HEADER_SIZE + SumBytes(p.slots) <= p.size <= cfg.pageSize - SLOT_SIZE * |p.slots|
    && (!p.dirty ==> p.size <= HEADER_SIZE + TailBytes(p.slots) + PtrRoom(cfg))
  }

  ghost predicate PageOk(cfg: Config, p: Page, depth: nat) {
    SlotsOk(cfg, p.slots, depth) && SizeOk(cfg, p)
  }

  /** Every pointer entry of a live page leads to the live page of its path. */
  ghost predicate SubsOk(slots: seq<Entry>, path: Paths, x: Key) {
    forall i :: 0 <= i < |slots| && slots[i].Ptr? && slots[i].sub != 0 ==>
      slots[i].sub in path && path[slots[i].sub] == x + [slots[i].ch]
  }

  ghost predicate TrieOk(cfg: Config, pages: Pages, path: Paths) {
    && ValidConfig(cfg)
    && (forall q :: q in path ==> q in pages && q != 0)
    && (forall q :: q in path ==> PageOk(cfg, pages[q], |path[q]|))
    && (forall q :: q in path ==> SubsOk(pages[q].slots, path, path[q]))
  }

  // ---------------------------------------------------------------- lemmas on hits

  lemma HitUnique(cfg: Config, slots: seq<Entry>, depth: nat, i: int, j: int, key: Key)
    requires ValidConfig(cfg) && SlotsOk(cfg, slots, depth)
    requires Hit(slots, i, key) && Hit(slots, j, key)
    ensures i == j
  {
    if i < j {
      CompareMonotone(slots[i], slots[j], key);
    } else if j < i {
      CompareMonotone(slots[j], slots[i], key);
    }
  }

  lemma SlotFindHit(cfg: Config, pages: Pages, slots: seq<Entry>, depth: nat, i: int, key: Key)
    requires ValidConfig(cfg) && SlotsOk(cfg, slots, depth)
    requires key != [] && Hit(slots, i, key)
    ensures SlotFind(pages, slots, key) == EntryFind(pages, slots[i], key)
  {
    var j :| Hit(slots, j, key) && SlotFind(pages, slots, key) == EntryFind(pages, slots[j], key);
    HitUnique(cfg, slots, depth, i, j, key);
  }

  /** A slot of a spliced page is either one of the new slots or a kept old one. */
  lemma SpliceHit(s: seq<Entry>, i: nat, j: nat, mid: seq<Entry>, b: int, key: Key)
    requires i <= j <= |s|
    requires Hit(s[..i] + mid + s[j..], b, key)
    ensures Hit(mid, b - i,
                key) || (Hit(s, b, key) && b < i) || (Hit(s, b - i - |mid| + j, key) && j <= b - i - |mid| + j)
  {
  }

  lemma SliceHit(s: seq<Entry>, i: nat, j: nat, a: int, key: Key)
    requires i <= j <= |s|
    ensures Hit(s[i..j], a, key) <==> i <= i + a < j && Hit(s, i + a, key)
  {
  }

  /** Replacing the slots i..j by mid: keys hit in mid are found there, keys hit only in the
      removed slots are gone, all others are found as before. */
  lemma SpliceFind(cfg: Config, pages: Pages, s: seq<Entry>, i: nat, j: nat, mid: seq<Entry>, depth: nat, key: Key)
    requires ValidConfig(cfg) && i <= j <= |s| && key != []
    requires SlotsOk(cfg, s, depth) && SlotsOk(cfg, s[..i] + mid + s[j..], depth)
    ensures SlotFind(pages, s[..i] + mid + s[j..], key) ==
      if HasHit(mid, key) then SlotFind(pages, mid, key)
      else if HasHit(s[i..j], key) then []
      else SlotFind(pages, s, key)
  {
    var t := s[..i] + mid + s[j..];
    if HasHit(mid, key) {
      SpliceFindNew(cfg, pages, s, i, j, mid, depth, key);
    } else if b :| Hit(t, b, key) {
      SpliceHit(s, i, j, mid, b, key);
      assert !Hit(mid, b - i, key);
      var c := if b < i then b else b - i - |mid| + j;
      assert t[b] == s[c];
      SlotFindHit(cfg, pages, t, depth, b, key);
      SlotFindHit(cfg, pages, s, depth, c, key);
      if a :| Hit(s[i..j], a, key) {
        SliceHit(s, i, j, a, key);
        HitUnique(cfg, s, depth, i + a, c, key);
      }
    } else if !HasHit(s[i..j], key) && HasHit(s, key) {
      var a :| Hit(s, a, key);
      SliceHit(s, i, j, a - i, key);
      assert !Hit(s[i..j], a - i, key);
      var b := if a < i then a else a - j + |mid| + i;
      assert t[b] == s[a];
      assert Hit(t, b, key);
    }
  }

  lemma SpliceFindNew(cfg: Config, pages: Pages, s: seq<Entry>, i: nat, j: nat, mid: seq<Entry>, depth: nat, key: Key)
    requires ValidConfig(cfg) && i <= j <= |s| && key != []
    requires SlotsOk(cfg, s[..i] + mid + s[j..], depth)
    requires HasHit(mid, key)
    ensures SlotFind(pages, s[..i] + mid + s[j..], key) == SlotFind(pages, mid, key)
  {
    var t := s[..i] + mid + s[j..];
    SlotsOkSlice(cfg, t, i, i + |mid|, depth);
    assert t[i..i + |mid|] == mid;
    var a :| Hit(mid, a, key);
    assert t[i + a] == mid[a];
    SlotFindHit(cfg, pages, t, depth, i + a, key);
    SlotFindHit(cfg, pages, mid, depth, a, key);
  }

  lemma SlotsOkSlice(cfg: Config, s: seq<Entry>, i: nat, j: nat, depth: nat)
    requires i <= j <= |s| && SlotsOk(cfg, s, depth)
    ensures SlotsOk(cfg, s[i..j], depth)
  {
  }

  // ---------------------------------------------------------------- frames

  /** What is found under ptr depends only on the pages whose path extends ptr's. */
  lemma {:induction false} FindSame(cfg: Config, pages: Pages, path: Paths, pages': Pages, ptr: nat, key: Key)
    requires TrieOk(cfg, pages, path) && ptr in path
    requires forall q :: q in path && path[ptr] <= path[q] ==> q in pages' && pages'[q] == pages[q]
    ensures Find(pages', ptr, key) == Find(pages, ptr, key)
    decreases |key|, 2
  {
    if key != [] {
      assert pages'[ptr] == pages[ptr];
      var slots := pages[ptr].slots;
      assert SubsOk(slots, path, path[ptr]);
      SlotFindSame(cfg, pages, path, pages', slots, path[ptr], |path[ptr]|, key);
    }
  }

  lemma {:induction false} SlotFindSame(cfg: Config, pages: Pages, path: Paths, pages': Pages, slots: seq<Entry>,
                                        x: Key, depth: nat, key: Key)
    requires TrieOk(cfg, pages, path) && SubsOk(slots, path, x) && SlotsOk(cfg, slots, depth) && key != []
    requires forall q :: q in path && x < path[q] ==> q in pages' && pages'[q] == pages[q]
    ensures SlotFind(pages', slots, key) == SlotFind(pages, slots, key)
    decreases |key|, 1
  {
    if HasHit(slots, key) {
      var i :| Hit(slots, i, key);
      SlotFindHit(cfg, pages, slots, depth, i, key);
      SlotFindHit(cfg, pages', slots, depth, i, key);
      if slots[i].Ptr? && |key| > 1 && slots[i].sub != 0 {
        FindSame(cfg, pages, path, pages', slots[i].sub, key[1..]);
      }
    }
  }

  // ---------------------------------------------------------------- one changed page

  lemma OneSlot(pages: Pages, e: Entry, key: Key)
    requires key != []
    ensures HasHit([e], key) <==> Compare(e, key) == 0
    ensures SlotFind(pages, [e], key) == if Compare(e, key) == 0 then EntryFind(pages, e, key) else []
  {
    assert Hit([e], 0, key) <==> Compare(e, key) == 0;
  }

  /** What is found after splicing the slots of one page. */
  ghost function Spliced(pages: Pages, s: seq<Entry>, i: nat, j: nat, mid: seq<Entry>, key: Key): Info
    requires i <= j <= |s|
  {
    if key == [] then []
    else if HasHit(mid, key) then SlotFind(pages, mid, key)
    else if HasHit(s[i..j], key) then []
    else SlotFind(pages, s, key)
  }

  /** A live page whose slots are spliced keeps the trie's invariants, and finds the spliced slots. */
  lemma LocalChange(cfg: Config, pages: Pages, path: Paths, ptr: nat, p: Page, i: nat, j: nat, mid: seq<Entry>)
    requires TrieOk(cfg, pages, path) && ptr in path
    requires i <= j <= |pages[ptr].slots|
    requires p.slots == pages[ptr].slots[..i] + mid + pages[ptr].slots[j..]
    requires PageOk(cfg, p, |path[ptr]|) && SubsOk(mid, path, path[ptr])
    ensures TrieOk(cfg, pages[ptr := p], path)
    ensures forall key :: Find(pages[ptr := p], ptr, key) == Spliced(pages, pages[ptr].slots, i, j, mid, key)
  {
    SpliceSubs(pages[ptr].slots, i, j, mid, path, path[ptr]);
    OnePage(cfg, pages, path, ptr, p);
    forall key
      ensures Find(pages[ptr := p], ptr, key) == Spliced(pages, pages[ptr].slots, i, j, mid, key)
    {
      if key != [] {
        SplicedFind(cfg, pages, path, ptr, p, i, j, mid, key);
      }
    }
  }

  lemma SpliceSubs(s: seq<Entry>, i: nat, j: nat, mid: seq<Entry>, path: Paths, x: Key)
    requires i <= j <= |s| && SubsOk(s, path, x) && SubsOk(mid, path, x)
    ensures SubsOk(s[..i] + mid + s[j..], path, x)
  {
  }

  lemma OnePage(cfg: Config, pages: Pages, path: Paths, ptr: nat, p: Page)
    requires TrieOk(cfg, pages, path) && ptr in path
    requires PageOk(cfg, p, |path[ptr]|) && SubsOk(p.slots, path, path[ptr])
    ensures TrieOk(cfg, pages[ptr := p], path)
  {
    hide PageOk, SubsOk;
  }

  lemma SplicedFind(cfg: Config, pages: Pages, path: Paths, ptr: nat, p: Page, i: nat, j: nat, mid: seq<Entry>,
                    key: Key)
    requires TrieOk(cfg, pages, path) && ptr in path && key != []
    requires i <= j <= |pages[ptr].slots|
    requires p.slots == pages[ptr].slots[..i] + mid + pages[ptr].slots[j..]
    requires PageOk(cfg, p, |path[ptr]|) && SubsOk(p.slots, path, path[ptr])
    ensures Find(pages[ptr := p], ptr, key) == Spliced(pages, pages[ptr].slots, i, j, mid, key)
  {
    SlotFindSame(cfg, pages, path, pages[ptr := p], p.slots, path[ptr], |path[ptr]|, key);
    PageSlots(cfg, pages, path, ptr);
    hide TrieOk, SubsOk, PageOk, SlotsOk;
    SpliceFind(cfg, pages, pages[ptr].slots, i, j, mid, |path[ptr]|, key);
  }

  lemma PageSlots(cfg: Config, pages: Pages, path: Paths, ptr: nat)
    requires TrieOk(cfg, pages, path) && ptr in path
    ensures SlotsOk(cfg, pages[ptr].slots, |path[ptr]|) && SubsOk(pages[ptr].slots, path, path[ptr])
    ensures SizeOk(cfg, pages[ptr]) && ValidConfig(cfg)
  {
  }

  // ---------------------------------------------------------------- searching a page

  /** The binary search every dictionary operation starts a page with. mid is the last slot
      probed and cmp the outcome there. */
  method Search(ghost cfg: Config, ghost depth: nat, slots: seq<Entry>, str: Key) returns (mid: nat, cmp: int)
    requires ValidConfig(cfg) && SlotsOk(cfg, slots, depth)
    ensures cmp == 0 ==> Hit(slots, mid, str)
    ensures cmp != 0 ==> !HasHit(slots, str) && (if cmp < 0 then mid + 1 else mid) <= |slots|
    ensures cmp != 0 ==> forall k :: 0 <= k < (if cmp < 0 then mid + 1 else mid) ==> Compare(slots[k], str) < 0
    ensures cmp != 0 ==> forall k :: (if cmp < 0 then mid + 1 else mid) <= k < |slots| ==> Compare(slots[k], str) > 0
  {
    mid, cmp := 0, 1;
    var lo, hi := 0, |slots| - 1;
    while lo <= hi
      invariant 0 <= lo <= hi + 1 <= |slots|
      invariant forall k :: 0 <= k < lo ==> Compare(slots[k], str) < 0
      invariant forall k :: hi < k < |slots| ==> Compare(slots[k], str) > 0
      invariant cmp != 0
      invariant lo > hi ==> (if cmp < 0 then mid + 1 else mid) == lo
    {
      mid := (lo + hi) / 2;
      cmp := Compare(slots[mid], str);
      if cmp == 0 { return; }
      forall k | 0 <= k < |slots| && k != mid
        ensures k < mid && cmp < 0 ==> Compare(slots[k], str) < 0
        ensures k > mid && cmp > 0 ==> Compare(slots[k], str) > 0
      {
        if k < mid { CompareMonotone(slots[k], slots[mid], str); } else { CompareMonotone(slots[mid], slots[k], str); }
      }
      if cmp < 0 { lo := mid + 1; } else { hi := mid - 1; }
    }
  }
}
