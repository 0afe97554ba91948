/** Insertion into the paged dictionary, with cleaning and splitting of full pages. */
module DictInsert {
  import opened DictPage
  import opened DictTrie
  import opened DictStore
  import opened DictCapacity
  import opened DictEdit

  // ---------------------------------------------------------------- frames

  /** From (pages0, path0) to (pages1, path1) no page was lost, nothing outside the pages at
      or below path x changed, and new pages are strictly below x. */
  ghost predicate Grown(pages0: Pages, path0: Paths, pages1: Pages, path1: Paths, x: Key) {
    && (forall q :: q in path0 ==> q in path1 && path1[q] == path0[q])
    && Kept(pages0, path0, pages1, x)
    && (forall q :: q in path1 && q !in path0 ==> x < path1[q])
  }

  /** No page being built lies strictly below x. */
  ghost predicate ClearBelow(orphans: set<Key>, x: Key) {
    forall o :: o in orphans ==> !(x < o)
  }

  // ---------------------------------------------------------------- cleaning

  /** The slots i..j are the tail strings starting with c, all of them. */
  ghost predicate IsGroup(s: seq<Entry>, i: nat, j: nat, c: int) {
    && i < j <= |s|
    && (forall k :: 0 <= k < |s| ==> ((i <= k < j) <==> (s[k].Tail? && s[k].str != [] && s[k].str[0] == c)))
  }

  /** Rewrites a page without its unused bytes. With out set, the tail strings starting with
      out are replaced by one pointer entry to subptr. */
  method CleanPage(d: Dict, ptr: nat, out: int, subptr: nat, userinfo: Info, ghost i: nat, ghost j: nat)
    requires ptr in d.pages && Sorted(d.pages[ptr].slots)
    requires out != 0 ==> subptr != 0 && IsGroup(d.pages[ptr].slots, i, j, out)
    requires out == 0 ==> i == j == |d.pages[ptr].slots|
    requires i <= j <= |d.pages[ptr].slots|
    modifies d`pages
    ensures var s := old(d.pages[ptr].slots);
      var t := s[..i] + (if out != 0 then [Ptr(out, userinfo, subptr)] else []) + s[j..];
      d.pages == old(d.pages)[ptr := Page(false, old(d.pages[ptr].backptr), HEADER_SIZE + SumBytes(t), t)]
  {
    hide Sorted, IsGroup, SumBytes, CleanedUpTo;
    GroupNonEmpty(d.pages[ptr].slots, i, j, out);
    var p := d.pages[ptr];
    var np: seq<Entry> := [];
    var size := HEADER_SIZE;
    var sub := subptr;
    ghost var mid := if out != 0 then [Ptr(out, userinfo, subptr)] else [];
    SumNone();
    CleanedEnds(p.slots, i, j, mid);
    var k := 0;
    while k < |p.slots|
      invariant 0 <= k <= |p.slots| && d.pages == old(d.pages)
      invariant np == CleanedUpTo(p.slots, i, j, mid, k)
      invariant sub == if out != 0 && k > i then 0 else subptr
      invariant size == HEADER_SIZE + SumBytes(np)
    {
      var e := p.slots[k];
      if out != 0 { GroupSlot(p.slots, i, j, out, k); }
      CleanedStep(p.slots, i, j, mid, k);
      if e.Tail? && out != 0 && e.str[0] == out {
        if sub != 0 {
          SumConcat(np, [Ptr(out, userinfo, sub)]);
          SumOne(Ptr(out, userinfo, sub));
          np := np + [Ptr(out, userinfo, sub)];
          size := size + PTR_SIZE + 1 + 1 + |userinfo|;
          sub := 0;
        }
      } else {
        SumConcat(np, [e]);
        SumOne(e);
        np := np + [e];
        size := size + Bytes(e);
      }
      k := k + 1;
    }
    d.pages := d.pages[ptr := Page(false, p.backptr, size, np)];
  }

  ghost function CleanedUpTo(s: seq<Entry>, i: nat, j: nat, mid: seq<Entry>, k: nat): seq<Entry>
    requires i <= j <= |s| && k <= |s|
  {
    if k <= i then s[..k] else if k <= j then s[..i] + mid else s[..i] + mid + s[j..k]
  }

  lemma CleanedStep(s: seq<Entry>, i: nat, j: nat, mid: seq<Entry>, k: nat)
    requires i <= j <= |s| && k < |s|
    requires i < j || (i == j == |s| && mid == [])
    ensures CleanedUpTo(s, i, j, mid, k + 1) ==
      CleanedUpTo(s, i, j, mid, k) + (if i <= k < j then (if k == i then mid else []) else [s[k]])
  {
  }

  lemma CleanedEnds(s: seq<Entry>, i: nat, j: nat, mid: seq<Entry>)
    requires i <= j <= |s|
    requires i < j || (i == j == |s| && mid == [])
    ensures CleanedUpTo(s, i, j, mid, 0) == []
    ensures CleanedUpTo(s, i, j, mid, |s|) == s[..i] + mid + s[j..]
  {
    assert s[j..|s|] == s[j..];
    if i == |s| {
      assert s[..i] + mid + s[j..] == s[..|s|];
    } else if j == |s| {
      assert s[..i] + mid + s[j..] == s[..i] + mid;
    }
  }

  lemma GroupNonEmpty(s: seq<Entry>, i: nat, j: nat, c: int)
    requires c != 0 ==> IsGroup(s, i, j, c)
    ensures c != 0 ==> i < j
  {
  }

  lemma GroupSlot(s: seq<Entry>, i: nat, j: nat, c: int, k: nat)
    requires IsGroup(s, i, j, c) && k < |s| && Sorted(s)
    ensures i <= k < j <==> s[k].Tail? && s[k].str[0] == c
    ensures s[k].Tail? ==> s[k].str != []
  {
  }

  lemma SumNone()
    ensures SumBytes([]) == 0
  {
  }

  // ---------------------------------------------------------------- choosing a group

  /** The weight a group is chosen by: string lengths plus two bytes each. */
  function Weight(slots: seq<Entry>): nat {
    if slots == [] then 0
    else Weight(slots[..|slots| - 1]) + (if slots[|slots| - 1].Tail? then 2 + |slots[|slots| - 1].str| else 0)
  }

  lemma WeightSnoc(s: seq<Entry>, i: nat, j: nat)
    requires i <= j < |s|
    ensures Weight(s[i..j + 1]) == Weight(s[i..j]) + (if s[j].Tail? then 2 + |s[j].str| else 0)
  {
    assert s[i..j + 1][..j - i] == s[i..j];
  }

  /** Tails i..j are, among the first k slots, all the tails starting with c. */
  ghost predicate GroupUpTo(s: seq<Entry>, i: nat, j: nat, k: nat, c: int) {
    && i < j <= k <= |s|
    && (forall m :: 0 <= m < k ==> ((i <= m < j) <==> (s[m].Tail? && s[m].str != [] && s[m].str[0] == c)))
  }

  /** No single tail, and no two neighbouring tails of one group, weigh more than size. */
  ghost predicate Heaviest(s: seq<Entry>, n: int, size: int)
    requires n <= |s|
  {
    && (forall k :: 0 <= k < n && s[k].Tail? ==> 2 + |s[k].str| <= size)
    && (forall k :: 0 < k < n && SameGroup(s[k - 1], s[k]) ==> 4 + |s[k - 1].str| + |s[k].str| <= size)
  }

  ghost predicate SameGroup(a: Entry, b: Entry) {
    a.Tail? && b.Tail? && a.str != [] && b.str != [] && a.str[0] == b.str[0]
  }

  /** Where the choice stands after k slots: the last group seen is cs..ce, the best bs..be. */
  ghost predicate Chosen(s: seq<Entry>, k: nat, cs: nat, ce: nat, prev: int, current: int, bs: nat, be: nat, best: int,
                         size: int)
    requires k <= |s|
  {
    && (forall m :: 0 <= m < k && s[m].Tail? ==> m < ce)
    && GroupUpTo(s, cs, ce, k, prev) && current == Weight(s[cs..ce])
    && GroupUpTo(s, bs, be, k, best) && size == Weight(s[bs..be])
    && current <= size
    && (best == prev ==> bs == cs && be == ce)
    && Heaviest(s, k, size)
  }

  ghost predicate NoTails(s: seq<Entry>, k: nat)
    requires k <= |s|
  {
    forall m :: 0 <= m < k ==> s[m].Ptr?
  }

  /** Picks the first character whose tail strings weigh most. Its last slot is bestLast. */
  method ChooseGroup(slots: seq<Entry>) returns (bestNo: nat, bestLast: nat, bestChar: int, bestSize: nat)
    requires Sorted(slots)
    requires forall k :: 0 <= k < |slots| && slots[k].Tail? ==> slots[k].str != [] && slots[k].str[0] >= 1
    requires Tails(slots) > 0
    ensures 0 < bestNo <= bestLast + 1 && IsGroup(slots, bestLast + 1 - bestNo, bestLast + 1, bestChar)
    ensures bestSize == Weight(slots[bestLast + 1 - bestNo..bestLast + 1])
    ensures Heaviest(slots, |slots|, bestSize)
  {
    hide Chosen, GroupUpTo, Sorted, IsGroup, Heaviest, Weight, Tails, NoTails;
    bestNo, bestLast, bestChar, bestSize := 0, 0, 0, 0;
    var prevChar, noCurrent, currentSize := 0, 0, 0;
    ghost var cs, ce := 0, 0;
    var i := 0;
    NoTailsAt(slots, 0);
    while i < |slots|
      invariant 0 <= i <= |slots|
      invariant prevChar == 0 ==> NoTails(slots, i) && bestNo == 0 && bestSize == 0
      invariant prevChar != 0 ==> noCurrent == ce - cs && 0 < bestNo <= bestLast + 1
      invariant prevChar != 0 ==>
        Chosen(slots, i, cs, ce, prevChar, currentSize, bestLast + 1 - bestNo, bestLast + 1, bestChar, bestSize)
    {
      if slots[i].Tail? {
        var term := slots[i].str;
        var dc := term[0];
        ghost var first := dc != prevChar;
        ghost var cs0, ce0, prev0, current0 := cs, ce, prevChar, currentSize;
        ghost var bs0, be0, best0, size0 := bestLast + 1 - bestNo, bestLast + 1, bestChar, bestSize;
        if dc != prevChar {
          currentSize, noCurrent, prevChar := 0, 0, dc;
          cs := i;
        }
        noCurrent := noCurrent + 1;
        currentSize := currentSize + 2 + |term|;
        ce := i + 1;
        if first {
          FirstOfGroup(slots, i, cs0, ce0, prev0, current0, bs0, be0, best0, size0);
        } else {
          ChosenAdjacent(slots, i, cs0, ce0, prev0, current0, bs0, be0, best0, size0);
          NextOfGroup(slots, i, cs0, prev0, current0, bs0, be0, best0, size0);
        }
        if currentSize > bestSize {
          bestSize, bestChar, bestLast, bestNo := currentSize, dc, i, noCurrent;
        }
      } else if prevChar == 0 {
        NoTailsAt(slots, i);
      } else {
        SkipPointer(slots, i, cs, ce, prevChar, currentSize, bestLast + 1 - bestNo, bestLast + 1, bestChar, bestSize);
      }
      i := i + 1;
    }
    assert slots[..|slots|] == slots;
    if prevChar == 0 {
      NoTailsNone(slots, i);
    } else {
      ChosenAll(slots, cs, ce, prevChar, currentSize, bestLast + 1 - bestNo, bestLast + 1, bestChar, bestSize);
    }
  }

  lemma ChosenAll(s: seq<Entry>, cs: nat, ce: nat, prev: int, current: int, bs: nat, be: nat, best: int, size: int)
    requires Chosen(s, |s|, cs, ce, prev, current, bs, be, best, size)
    ensures IsGroup(s, bs, be, best) && size == Weight(s[bs..be]) && Heaviest(s, |s|, size)
  {
  }

  lemma NoTailsAt(s: seq<Entry>, k: nat)
    requires k <= |s|
    ensures NoTails(s, 0)
    ensures NoTails(s, k) && k < |s| && s[k].Ptr? ==> NoTails(s, k + 1)
  {
  }

  lemma {:induction false} NoTailsNone(s: seq<Entry>, k: nat)
    requires k <= |s| && NoTails(s, k)
    ensures Tails(s[..k]) == 0
  {
    if k > 0 {
      NoTailsNone(s, k - 1);
      assert s[..k][..k - 1] == s[..k - 1];
    }
  }

  lemma SkipPointer(s: seq<Entry>, k: nat, cs: nat, ce: nat, prev: int, current: int, bs: nat, be: nat, best: int,
                    size: int)
    requires k < |s| && s[k].Ptr?
    requires Chosen(s, k, cs, ce, prev, current, bs, be, best, size)
    ensures Chosen(s, k + 1, cs, ce, prev, current, bs, be, best, size)
  {
  }

  /** A tail with a new character starts a group of its own. */
  lemma FirstOfGroup(s: seq<Entry>, k: nat, cs: nat, ce: nat, prev: int, current: int, bs: nat, be: nat, best: int,
                     size: int)
    requires Sorted(s) && k < |s| && s[k].Tail? && s[k].str[0] >= 1 && s[k].str[0] != prev
    requires if prev == 0 then NoTails(s, k) && size == 0 else Chosen(s, k, cs, ce, prev, current, bs, be, best, size)
    ensures var c, w := s[k].str[0], 2 + |s[k].str|;
      if w > size then Chosen(s, k + 1, k, k + 1, c, w, k, k + 1, c, w)
      else prev != 0 && Chosen(s, k + 1, k, k + 1, c, w, bs, be, best, size)
  {
    var c, w := s[k].str[0], 2 + |s[k].str|;
    assert Weight(s[k..k + 1]) == w by {
      assert s[k..k] == [];
      WeightSnoc(s, k, k);
    }
    FreshChar(s, k, cs, ce, prev, c);
    hide Sorted, EntryLess;
    assert GroupUpTo(s, k, k + 1, k + 1, c);
    if prev == 0 {
      assert Heaviest(s, 0, w);
      assert Heaviest(s, k + 1, w);
    } else {
      assert k > 0 ==> !SameGroup(s[k - 1], s[k]);
      HeaviestNext(s, k, size, if w > size then w else size);
    }
  }

  /** No earlier tail has the character that starts a new group. */
  lemma FreshChar(s: seq<Entry>, k: nat, cs: nat, ce: nat, prev: int, c: int)
    requires Sorted(s) && k < |s| && s[k].Tail? && s[k].str[0] == c && c != prev
    requires if prev == 0 then NoTails(s, k)
             else GroupUpTo(s, cs, ce, k, prev) && forall m :: 0 <= m < k && s[m].Tail? ==> m < ce
    ensures forall m :: 0 <= m < k && s[m].Tail? ==> s[m].str[0] != c
  {
    if prev != 0 {
      forall m | 0 <= m < k && s[m].Tail?
        ensures s[m].str[0] != c
      {
        if m < cs {
          assert EntryLess(s[m], s[cs]) && EntryLess(s[cs], s[k]);
        }
      }
    }
  }

  lemma ExtendGroup(s: seq<Entry>, k: nat, cs: nat, c: int)
    requires k < |s| && s[k].Tail? && s[k].str != [] && s[k].str[0] == c
    requires GroupUpTo(s, cs, k, k, c)
    ensures GroupUpTo(s, cs, k + 1, k + 1, c)
  {
  }

  lemma PtrBetween(a: Entry, b: Entry, e: Entry)
    requires NonEmpty(a) && NonEmpty(e) && b.Ptr?
    requires EntryLess(a, b) && EntryLess(b, e)
    ensures First(a) < First(e)
  {
  }

  /** A tail with the character of the current group directly follows that group. */
  lemma GroupAdjacent(s: seq<Entry>, k: nat, cs: nat, ce: nat, c: int)
    requires Sorted(s) && k < |s| && s[k].Tail? && s[k].str[0] == c
    requires GroupUpTo(s, cs, ce, k, c)
    requires forall m :: 0 <= m < k && s[m].Tail? ==> m < ce
    ensures ce == k
  {
    if ce < k {
      PtrBetween(s[ce - 1], s[ce], s[k]);
    }
  }

  lemma ChosenAdjacent(s: seq<Entry>, k: nat, cs: nat, ce: nat, prev: int, current: int, bs: nat, be: nat, best: int,
                       size: int)
    requires Sorted(s) && k < |s| && s[k].Tail? && s[k].str[0] == prev
    requires Chosen(s, k, cs, ce, prev, current, bs, be, best, size)
    ensures ce == k
  {
    GroupAdjacent(s, k, cs, ce, prev);
  }

  lemma NextOfGroup(s: seq<Entry>, k: nat, cs: nat, prev: int, current: int, bs: nat, be: nat, best: int, size: int)
    requires k < |s| && s[k].Tail? && s[k].str != [] && s[k].str[0] == prev
    requires Chosen(s, k, cs, k, prev, current, bs, be, best, size)
    ensures var w := current + 2 + |s[k].str|;
      if w > size then Chosen(s, k + 1, cs, k + 1, prev, w, cs, k + 1, prev, w)
      else Chosen(s, k + 1, cs, k + 1, prev, w, bs, be, best, size)
  {
    var w := current + 2 + |s[k].str|;
    ExtendGroup(s, k, cs, prev);
    assert Weight(s[cs..k + 1]) == w && w >= 4 + |s[k - 1].str| + |s[k].str| by {
      WeightSnoc(s, cs, k);
      WeightSnoc(s, cs, k - 1);
    }
    HeaviestNext(s, k, size, if w > size then w else size);
  }

  lemma HeaviestNext(s: seq<Entry>, k: nat, size: int, size': int)
    requires k < |s| && Heaviest(s, k, size) && size <= size'
    requires s[k].Tail? ==> 2 + |s[k].str| <= size'
    requires k > 0 && SameGroup(s[k - 1], s[k]) ==> 4 + |s[k - 1].str| + |s[k].str| <= size'
    ensures Heaviest(s, k + 1, size')
  {
  }

  // ---------------------------------------------------------------- writing one entry

  /** Puts an entry where one for the same string or character stands. */
  method ReplaceEntry(d: Dict, ptr: nat, k: nat, e: Entry, size: int, dirty: bool, ghost orphans: set<Key>)
    requires d.Ok(orphans) && ptr in d.path && k < |d.pages[ptr].slots|
    requires SamePlace(d.pages[ptr].slots[k], e) && EntryOk(d.cfg, e, |d.path[ptr]|)
    requires SubsOk([e], d.path, d.path[ptr])
    requires SizeOk(d.cfg, Page(dirty, d.pages[ptr].backptr, size, d.pages[ptr].slots[k := e]))
    modifies d`pages
    ensures d.Ok(orphans)
    ensures var p := old(d.pages[ptr]);
      d.pages == old(d.pages)[ptr := Page(dirty, p.backptr, size, p.slots[k := e])]
    ensures forall key :: Find(d.pages, ptr, key) == FoundAfter(old(d.pages), ptr, e, key)
  {
    var p := d.pages[ptr];
    var p' := Page(dirty, p.backptr, size, p.slots[k := e]);
    hide SlotsOk, SubsOk, SizeOk, TrieOk, EntryOk, Linked, Conserved;
    KeepsReplace(p.slots, k, e);
    ReplaceFind(d.cfg, d.pages, d.path, ptr, k, e, p');
    OnePageOk(d.cfg, d.pages, d.path, d.root, d.last, d.freelist, d.free, orphans, ptr, p');
    d.pages := d.pages[ptr := p'];
  }

  /** Puts a new tail string between two slots. */
  method InsertEntry(d: Dict, ptr: nat, k: nat, e: Entry, size: int, ghost orphans: set<Key>)
    requires d.Ok(orphans) && ptr in d.path && k <= |d.pages[ptr].slots|
    requires e.Tail? && EntryOk(d.cfg, e, |d.path[ptr]|)
    requires forall m :: 0 <= m < k ==> Compare(d.pages[ptr].slots[m], e.str) < 0
    requires forall m :: k <= m < |d.pages[ptr].slots| ==> Compare(d.pages[ptr].slots[m], e.str) > 0
    requires size == d.pages[ptr].size + Bytes(e) <= d.cfg.pageSize - SLOT_SIZE * (1 + |d.pages[ptr].slots|)
    modifies d`pages
    ensures d.Ok(orphans)
    ensures var p := old(d.pages[ptr]);
      d.pages == old(d.pages)[ptr := Page(p.dirty, p.backptr, size, p.slots[..k] + [e] + p.slots[k..])]
    ensures forall key :: Find(d.pages, ptr, key) == FoundAfter(old(d.pages), ptr, e, key)
  {
    var p := d.pages[ptr];
    var p' := Page(p.dirty, p.backptr, size, p.slots[..k] + [e] + p.slots[k..]);
    PageSlots(d.cfg, d.pages, d.path, ptr);
    SumInsert(p.slots, k, e);
    hide SlotsOk, SubsOk, TrieOk, EntryOk, Linked, Conserved, SumBytes, TailBytes;
    assert SizeOk(d.cfg, p');
    hide SizeOk;
    KeepsInsert(p.slots, k, e);
    InsertFind(d.cfg, d.pages, d.path, ptr, k, e, p');
    OnePageOk(d.cfg, d.pages, d.path, d.root, d.last, d.freelist, d.free, orphans, ptr, p');
    d.pages := d.pages[ptr := p'];
  }

  // ---------------------------------------------------------------- growing below a page

  lemma GrownTrans(pages0: Pages, path0: Paths, pages1: Pages, path1: Paths, pages2: Pages, path2: Paths, x: Key)
    requires Grown(pages0, path0, pages1, path1, x) && Grown(pages1, path1, pages2, path2, x)
    ensures Grown(pages0, path0, pages2, path2, x)
  {
  }

  lemma GrownAbove(pages0: Pages, path0: Paths, pages1: Pages, path1: Paths, x: Key, y: Key)
    requires Grown(pages0, path0, pages1, path1, y) && x <= y
    ensures Grown(pages0, path0, pages1, path1, x)
  {
  }

  lemma GrownHere(pages: Pages, path: Paths, ptr: nat, p: Page)
    requires ptr in path
    ensures Grown(pages, path, pages[ptr := p], path, path[ptr])
  {
  }

  ghost predicate Stored(pages0: Pages, pages1: Pages, ptr: nat, str: Key, info: Info) {
    forall k :: Find(pages1, ptr, k) == if k == str then info else Find(pages0, ptr, k)
  }

  /** Storing str's tail below the pointer entry i of a page stores str in the page. */
  lemma DescendFind(cfg: Config, pages0: Pages, path0: Paths, pages1: Pages, path1: Paths, ptr: nat, i: nat, str: Key,
                    info: Info)
    requires TrieOk(cfg, pages0, path0) && TrieOk(cfg, pages1, path1) && ptr in path0
    requires i < |pages0[ptr].slots| && pages0[ptr].slots[i].Ptr? && pages0[ptr].slots[i].sub != 0
    requires |str| > 1 && str[0] == pages0[ptr].slots[i].ch
    requires Grown(pages0, path0, pages1, path1, path0[ptr] + [str[0]])
    requires Stored(pages0, pages1, pages0[ptr].slots[i].sub, str[1..], info)
    ensures Grown(pages0, path0, pages1, path1, path0[ptr])
    ensures Stored(pages0, pages1, ptr, str, info)
  {
    var s, x := pages0[ptr].slots, path0[ptr];
    assert !(x + [str[0]] <= x);
    assert pages1[ptr] == pages0[ptr];
    GrownAbove(pages0, path0, pages1, path1, x, x + [str[0]]);
    forall k
      ensures Find(pages1, ptr, k) == if k == str then info else Find(pages0, ptr, k)
    {
      if k != [] {
        PageSlots(cfg, pages0, path0, ptr);
        DescendKey(cfg, pages0, path0, pages1, path1, ptr, i, str, info, k);
      }
    }
  }

  lemma DescendKey(cfg: Config, pages0: Pages, path0: Paths, pages1: Pages, path1: Paths, ptr: nat, i: nat, str: Key,
                   info: Info, k: Key)
    requires TrieOk(cfg, pages0, path0) && ptr in path0
    requires i < |pages0[ptr].slots| && pages0[ptr].slots[i].Ptr? && pages0[ptr].slots[i].sub != 0
    requires |str| > 1 && str[0] == pages0[ptr].slots[i].ch
    requires Grown(pages0, path0, pages1, path1, path0[ptr] + [str[0]])
    requires Stored(pages0, pages1, pages0[ptr].slots[i].sub, str[1..], info)
    requires k != []
    ensures SlotFind(pages1, pages0[ptr].slots, k) == if k == str then info else SlotFind(pages0, pages0[ptr].slots, k)
  {
    var s := pages0[ptr].slots;
    PageSlots(cfg, pages0, path0, ptr);
    assert Hit(s, i, str);
    if j :| Hit(s, j, k) {
      SlotFindHit(cfg, pages0, s, |path0[ptr]|, j, k);
      SlotFindHit(cfg, pages1, s, |path0[ptr]|, j, k);
      if j == i {
        assert k == [k[0]] + k[1..] && str == [str[0]] + str[1..];
      } else {
        OtherEntry(cfg, pages0, path0, pages1, ptr, i, j, k);
        if k == str { HitUnique(cfg, s, |path0[ptr]|, i, j, k); }
      }
    }
  }

  // ---------------------------------------------------------------- linking a new page

  /** A live page one character below a page hangs from it. */
  lemma ChildOf(pages: Pages, path: Paths, root: nat, orphans: set<Key>, ptr: nat, c: int, q: nat)
    requires Linked(pages, path, root, orphans) && root in path && ptr in path && q in path
    requires forall q :: q in path ==> q in pages && q != 0
    requires path[q] == path[ptr] + [c] && path[q] !in orphans
    ensures PointsTo(pages[ptr].slots, c, q)
  {
    var r :| Parent(pages, path, r, q);
    assert path[q][..|path[q]| - 1] == path[ptr] && path[q][|path[q]| - 1] == c;
  }

  lemma NewOrphan(pages: Pages, path: Paths, root: nat, orphans: set<Key>, ptr: nat, c: int, n: nat, p: Page)
    requires Linked(pages, path, root, orphans) && root in path && ptr in path && n !in path
    requires forall q :: q in path ==> q in pages && q != 0
    requires ClearBelow(orphans, path[ptr])
    requires NoPage(pages[ptr].slots, c)
    ensures Linked(pages[n := p], path[n := path[ptr] + [c]], root, orphans + {path[ptr] + [c]})
  {
    var x := path[ptr];
    var pages', path' := pages[n := p], path[n := x + [c]];
    forall q | q in path
      ensures path[q] != x + [c]
    {
      assert x < x + [c];
      if path[q] == x + [c] { ChildOf(pages, path, root, orphans, ptr, c, q); }
    }
    forall q | q in path' && q != root && path'[q] !in orphans + {x + [c]}
      ensures exists r :: Parent(pages', path', r, q)
    {
      var r :| Parent(pages, path, r, q);
      assert Parent(pages', path', r, q);
    }
  }

  lemma Adopt(pages: Pages, path: Paths, root: nat, orphans: set<Key>, ptr: nat, c: int, n: nat)
    requires ptr in path && ptr in pages && n in path
    requires Linked(pages, path, root, orphans + {path[ptr] + [c]})
    requires path[n] == path[ptr] + [c]
    requires PointsTo(pages[ptr].slots, c, n)
    ensures Linked(pages, path, root, orphans)
  {
    var x := path[ptr];
    assert (x + [c])[..|x|] == x;
    assert Parent(pages, path, ptr, n);
  }

  // ---------------------------------------------------------------- dict_ins

  ghost predicate CanInsert(cfg: Config, path: Paths, root: nat, orphans: set<Key>, ptr: nat, str: Key, info: Info) {
    && ptr in path && root in path && ClearBelow(orphans, path[ptr])
    && str != [] && ValidKey(cfg, str) && |path[ptr]| + |str| <= cfg.maxKey
    && 1 <= |info| <= cfg.maxInfo
  }

  /** 0 when the key is new, 2 when its information does not change, 1 when it does. */
  function Outcome(before: Info, info: Info): int {
    if before == [] then 0 else if before == info then 2 else 1
  }

  ghost predicate Located(slots: seq<Entry>, str: Key, mid: nat, cmp: int) {
    && (cmp == 0 ==> Hit(slots, mid, str))
    && (cmp != 0 ==> !HasHit(slots, str) && (if cmp < 0 then mid + 1 else mid) <= |slots|)
    && (cmp != 0 ==> forall k :: 0 <= k < (if cmp < 0 then mid + 1 else mid) ==> Compare(slots[k], str) < 0)
    && (cmp != 0 ==> forall k :: (if cmp < 0 then mid + 1 else mid) <= k < |slots| ==> Compare(slots[k], str) > 0)
  }

  predicate Overflows(cfg: Config, p: Page, need: int) {
    p.size + need >= cfg.pageSize - SLOT_SIZE * (1 + |p.slots|)
  }

  /** The page takes a new tail string for str as it is. */
  ghost predicate Fits(cfg: Config, p: Page, str: Key, info: Info) {
    !HasHit(p.slots, str) && p.size + |str| + 1 + |info| < cfg.pageSize - 2 * (1 + |p.slots|)
  }

  ghost predicate Appended(p0: Page, p1: Page, str: Key, info: Info) {
    exists k :: 0 <= k <= |p0.slots| &&
      p1 == Page(p0.dirty, p0.backptr, p0.size + |str| + 2 + |info|, p0.slots[..k] + [Tail(str, info)] + p0.slots[k..])
  }

  lemma LocatedFind(cfg: Config, pages: Pages, path: Paths, ptr: nat, str: Key, mid: nat, cmp: int)
    requires TrieOk(cfg, pages, path) && ptr in path && str != []
    requires Located(pages[ptr].slots, str, mid, cmp)
    ensures Find(pages, ptr, str) == if cmp == 0 then EntryFind(pages, pages[ptr].slots[mid], str) else []
  {
    PageSlots(cfg, pages, path, ptr);
    if cmp == 0 {
      SlotFindHit(cfg, pages, pages[ptr].slots, |path[ptr]|, mid, str);
    }
  }

  lemma EntryKept(cfg: Config, slots: seq<Entry>, mid: nat, info: Info, depth: nat, path: Paths, x: Key)
    requires mid < |slots| && SlotsOk(cfg, slots, depth) && SubsOk(slots, path, x)
    requires 1 <= |info| <= cfg.maxInfo
    ensures var e := WithInfo(slots[mid], info);
      EntryOk(cfg, e, depth) && SamePlace(slots[mid], e) && SubsOk([e], path, x)
  {
  }

  lemma RewriteSize(cfg: Config, p: Page, mid: nat, e: Entry, grow: nat)
    requires mid < |p.slots| && SizeOk(cfg, p) && (e.Tail? <==> p.slots[mid].Tail?)
    requires Bytes(e) <= Bytes(p.slots[mid]) + grow
    requires p.size + grow <= cfg.pageSize - SLOT_SIZE * |p.slots|
    ensures SizeOk(cfg, Page(true, p.backptr, p.size + grow, p.slots[mid := e]))
    ensures grow == 0 && Bytes(e) == Bytes(p.slots[mid]) ==>
      SizeOk(cfg, Page(p.dirty, p.backptr, p.size, p.slots[mid := e]))
  {
    SumUpdate(p.slots, mid, e);
  }

  /** Replacing the information of the entry for str stores it for str and nothing else. */
  lemma StoredOne(cfg: Config, pages: Pages, path: Paths, pages1: Pages, ptr: nat, mid: nat, str: Key, info: Info)
    requires TrieOk(cfg, pages, path) && ptr in path && str != []
    requires Hit(pages[ptr].slots, mid, str)
    requires pages[ptr].slots[mid].Ptr? ==> |str| == 1
    requires forall key :: Find(pages1, ptr, key) == FoundAfter(pages, ptr, WithInfo(pages[ptr].slots[mid], info), key)
    ensures Stored(pages, pages1, ptr, str, info)
  {
    PageSlots(cfg, pages, path, ptr);
    forall key
      ensures Find(pages1, ptr, key) == if key == str then info else Find(pages, ptr, key)
    {
      if key != [] && Hit(pages[ptr].slots, mid, key) {
        SlotFindHit(cfg, pages, pages[ptr].slots, |path[ptr]|, mid, key);
        assert key[0] == str[0];
        assert |key| == 1 && |str| == 1 ==> key == str;
      }
    }
  }

  /** New information for an existing entry with room for it. */
  method Overwrite(d: Dict, str: Key, ptr: nat, mid: nat, info: Info, ghost orphans: set<Key>) returns (r: int)
    requires d.Ok(orphans) && CanInsert(d.cfg, d.path, d.root, orphans, ptr, str, info)
    requires Located(d.pages[ptr].slots, str, mid, 0)
    requires |d.pages[ptr].slots[mid].info| >= |info|
    requires d.pages[ptr].slots[mid].Ptr? ==> |str| == 1
    modifies d`pages
    ensures d.Ok(orphans)
    ensures Grown(old(d.pages), d.path, d.pages, d.path, d.path[ptr])
    ensures Stored(old(d.pages), d.pages, ptr, str, info)
    ensures r == Outcome(Find(old(d.pages), ptr, str), info)
  {
    var p := d.pages[ptr];
    var e := WithInfo(p.slots[mid], info);
    var oldInfo := p.slots[mid].info;
    LocatedFind(d.cfg, d.pages, d.path, ptr, str, mid, 0);
    PageSlots(d.cfg, d.pages, d.path, ptr);
    EntryKept(d.cfg, p.slots, mid, info, |d.path[ptr]|, d.path, d.path[ptr]);
    RewriteSize(d.cfg, p, mid, e, 0);
    GrownHere(d.pages, d.path, ptr, Page(p.dirty, p.backptr, p.size, p.slots[mid := e]));
    GrownHere(d.pages, d.path, ptr, Page(true, p.backptr, p.size, p.slots[mid := e]));
    hide SlotsOk, SubsOk, SizeOk, Grown, EntryOk, SamePlace, Conserved, Linked, Find, FoundAfter;
    if |oldInfo| == |info| {
      if oldInfo != info {
        ReplaceEntry(d, ptr, mid, e, p.size, p.dirty, orphans);
        StoredOne(d.cfg, old(d.pages), d.path, d.pages, ptr, mid, str, info);
        return 1;
      }
      assert Stored(d.pages, d.pages, ptr, str, info);
      return 2;
    }
    ReplaceEntry(d, ptr, mid, e, p.size, true, orphans);
    StoredOne(d.cfg, old(d.pages), d.path, d.pages, ptr, mid, str, info);
    return 1;
  }

  // ---------------------------------------------------------------- splitting: sizes

  ghost predicate Ahead(a: Entry, b: Entry) {
    NonEmpty(a) && NonEmpty(b) && First(a) < First(b)
  }

  lemma {:induction false} ChainApart(s: seq<Entry>)
    requires forall i :: 0 <= i < |s| ==> NonEmpty(s[i])
    requires forall i :: 0 < i < |s| ==> Ahead(s[i - 1], s[i])
    ensures Apart(s)
  {
    if s != [] {
      var n := |s| - 1;
      ChainApart(s[..n]);
      forall i | 0 <= i < n
        ensures First(s[i]) < First(s[n])
      {
        assert Ahead(s[n - 1], s[n]);
        assert s[..n][i] == s[i] && s[..n][n - 1] == s[n - 1];
      }
    }
  }

  /** When the heaviest group is a single string of at most two characters, all entries
      start differently. */
  lemma LightApart(cfg: Config, s: seq<Entry>, depth: nat, size: int)
    requires SlotsOk(cfg, s, depth) && Heaviest(s, |s|, size) && size <= 4
    ensures Apart(s)
    ensures forall i :: 0 <= i < |s| ==> First(s[i]) in cfg.alphabet && Bytes(s[i]) <= PTR_SIZE + 2 + cfg.maxInfo
  {
    forall i | 0 < i < |s|
      ensures Ahead(s[i - 1], s[i])
    {
      assert EntryLess(s[i - 1], s[i]);
      assert !SameGroup(s[i - 1], s[i]);
    }
    ChainApart(s);
  }

  ghost function SplitSlots(s: seq<Entry>, lo: nat, hi: nat, c: int, info: Info, sub: nat): seq<Entry>
    requires lo <= hi <= |s|
  {
    s[..lo] + [Ptr(c, info, sub)] + s[hi..]
  }

  ghost function InfoHere(s: seq<Entry>, lo: nat): Info
    requires lo < |s| && s[lo].Tail?
  {
    if |s[lo].str| == 1 then s[lo].info else []
  }

  /** The page that remains after a split has room for its pointer entry. */
  lemma SplitRoom(cfg: Config, p: Page, depth: nat, lo: nat, hi: nat, c: int, size: int, sub: nat)
    requires ValidConfig(cfg) && PageOk(cfg, p, depth) && IsGroup(p.slots, lo, hi, c)
    requires size == Weight(p.slots[lo..hi]) && Heaviest(p.slots, |p.slots|, size)
    ensures var t := SplitSlots(p.slots, lo, hi, c, InfoHere(p.slots, lo), sub);
      HEADER_SIZE + SumBytes(t) <= cfg.pageSize - SLOT_SIZE * |t| && Tails(t) < Tails(p.slots)
  {
    var s := p.slots;
    var e := Ptr(c, InfoHere(s, lo), sub);
    SumSplice(s, lo, hi, [e]);
    SumOne(e);
    SplitTails(s, lo, hi, c);
    GroupBytes(cfg, s, depth, lo, hi, c);
    if SumBytes(s[lo..hi]) < Bytes(e) {
      WeightSnoc(s, lo, lo);
      assert s[lo..lo] == [] && Weight(s[lo..lo]) == 0;
      LightApart(cfg, s, depth, size);
      ApartBound(cfg, s, PTR_SIZE + 2 + cfg.maxInfo);
      LightRoom(cfg, s, lo, e);
    }
  }

  lemma LightRoom(cfg: Config, s: seq<Entry>, lo: nat, e: Entry)
    requires ValidConfig(cfg) && lo < |s| && e.Ptr? && |e.info| <= cfg.maxInfo
    requires forall i :: 0 <= i < |s| ==> Bytes(s[i]) <= PTR_SIZE + 2 + cfg.maxInfo
    requires |s| <= |cfg.alphabet|
    ensures HEADER_SIZE + SumBytes(s[..lo] + [e] + s[lo + 1..]) <= cfg.pageSize - SLOT_SIZE * |s|
  {
    var t := s[..lo] + [e] + s[lo + 1..];
    SumAtMost(t, PTR_SIZE + 2 + cfg.maxInfo);
    MulMono(|t|, |cfg.alphabet|, PTR_SIZE + 2 + cfg.maxInfo);
    ConfigRoom(cfg);
  }

  lemma SplitTails(s: seq<Entry>, lo: nat, hi: nat, c: int)
    requires IsGroup(s, lo, hi, c)
    ensures Tails(s[lo..hi]) == hi - lo
  {
    AllTails(s[lo..hi]);
  }

  lemma {:induction false} AllTails(s: seq<Entry>)
    requires forall i :: 0 <= i < |s| ==> s[i].Tail?
    ensures Tails(s) == |s|
  {
    if s != [] { AllTails(s[..|s| - 1]); }
  }

  /** A group is no smaller than its pointer entry, unless it is one very short string. */
  lemma GroupBytes(cfg: Config, s: seq<Entry>, depth: nat, lo: nat, hi: nat, c: int)
    requires SlotsOk(cfg, s, depth) && IsGroup(s, lo, hi, c)
    ensures SumBytes(s[lo..hi]) >= PTR_SIZE + 2 + |InfoHere(s, lo)| || (hi == lo + 1 && |s[lo].str| <= 2)
  {
    assert EntryOk(cfg, s[lo], depth);
    var g := s[lo..hi];
    assert g[0] == s[lo];
    if hi > lo + 1 {
      assert EntryOk(cfg, s[lo + 1], depth) && s[lo + 1].Tail?;
      assert g[1] == s[lo + 1];
    }
    hide SlotsOk, IsGroup, EntryOk;
    SumFirst(g);
  }

  lemma SumFirst(g: seq<Entry>)
    requires g != []
    ensures SumBytes(g) >= Bytes(g[0]) + (if |g| > 1 then Bytes(g[1]) else 0)
  {
    assert g == [g[0]] + g[1..];
    SumConcat([g[0]], g[1..]);
    SumOne(g[0]);
    if |g| > 1 {
      assert g[1..] == [g[1]] + g[2..];
      SumConcat([g[1]], g[2..]);
      SumOne(g[1]);
    }
  }

  // ---------------------------------------------------------------- splitting: meaning

  /** The information of the tail string key among s. */
  ghost function GroupFind(s: seq<Entry>, key: Key): Info {
    if s == [] then [] else if Compare(s[0], key) == 0 then s[0].info else GroupFind(s[1..], key)
  }

  lemma {:induction false} GroupFindSlots(cfg: Config, pages: Pages, s: seq<Entry>, depth: nat, key: Key)
    requires ValidConfig(cfg) && SlotsOk(cfg, s, depth) && key != []
    requires forall i :: 0 <= i < |s| ==> s[i].Tail?
    ensures GroupFind(s, key) == SlotFind(pages, s, key)
  {
    if s == [] {
    } else if Compare(s[0], key) == 0 {
      assert Hit(s, 0, key);
      SlotFindHit(cfg, pages, s, depth, 0, key);
    } else {
      SlotsOkSlice(cfg, s, 1, |s|, depth);
      GroupFindSlots(cfg, pages, s[1..], depth, key);
      if i :| Hit(s[1..], i, key) {
        assert Hit(s, i + 1, key);
        SlotFindHit(cfg, pages, s, depth, i + 1, key);
        SlotFindHit(cfg, pages, s[1..], depth, i, key);
      } else if i :| Hit(s, i, key) {
        assert Hit(s[1..], i - 1, key);
      }
    }
  }

  /** All entries a key starting with c can hit are in c's group. */
  lemma GroupHits(cfg: Config, pages: Pages, s: seq<Entry>, depth: nat, lo: nat, hi: nat, c: int, key: Key)
    requires ValidConfig(cfg) && SlotsOk(cfg, s, depth) && IsGroup(s, lo, hi, c)
    requires key != []
    ensures key[0] == c ==> SlotFind(pages, s, key) == GroupFind(s[lo..hi], key)
    ensures key[0] != c ==> !HasHit(s[lo..hi], key)
  {
    if key[0] == c {
      SlotsOkSlice(cfg, s, lo, hi, depth);
      GroupFindSlots(cfg, pages, s[lo..hi], depth, key);
      if i :| Hit(s, i, key) {
        if s[i].Ptr? { PointerApart(cfg, s, depth, lo, i, c); }
        SliceHit(s, lo, hi, i - lo, key);
        SlotFindHit(cfg, pages, s, depth, i, key);
        SlotFindHit(cfg, pages, s[lo..hi], depth, i - lo, key);
      } else if i :| Hit(s[lo..hi], i, key) {
        SliceHit(s, lo, hi, i, key);
      }
    } else if i :| Hit(s[lo..hi], i, key) {
      SliceHit(s, lo, hi, i, key);
    }
  }

  lemma PointerApart(cfg: Config, s: seq<Entry>, depth: nat, k: nat, i: nat, c: int)
    requires SlotsOk(cfg, s, depth) && k < |s| && i < |s|
    requires s[k].Tail? && s[k].str[0] == c && s[i].Ptr?
    ensures s[i].ch != c
  {
    assert if k < i then EntryLess(s[k], s[i]) else EntryLess(s[i], s[k]);
  }

  lemma LongerTail(a: Key, b: Key)
    requires Less(a, b) && a != [] && a[0] == b[0]
    ensures |b| > 1
  {
    assert Less(a[1..], b[1..]);
  }

  /** Only the first string of a group can be a single character. */
  lemma GroupSingle(cfg: Config, s: seq<Entry>, depth: nat, lo: nat, hi: nat, c: int)
    requires SlotsOk(cfg, s, depth) && IsGroup(s, lo, hi, c)
    ensures forall k :: lo < k < hi ==> |s[k].str| > 1
    ensures GroupFind(s[lo..hi], [c]) == InfoHere(s, lo)
  {
    forall k | lo < k < hi
      ensures |s[k].str| > 1
    {
      assert EntryLess(s[lo], s[k]) && s[lo].str[0] == s[k].str[0] == c;
      LongerTail(s[lo].str, s[k].str);
    }
    assert s[lo].str[0] == c;
    if |s[lo].str| == 1 {
      assert s[lo].str == [c];
    } else {
      NoSingle(s[lo..hi], c);
    }
  }

  lemma {:induction false} NoSingle(s: seq<Entry>, c: int)
    requires forall i :: 0 <= i < |s| ==> s[i].Tail? && |s[i].str| > 1
    ensures GroupFind(s, [c]) == []
  {
    if s != [] { NoSingle(s[1..], c); }
  }

  lemma SplitSorted(cfg: Config, s: seq<Entry>, depth: nat, lo: nat, hi: nat, c: int, sub: nat)
    requires SlotsOk(cfg, s, depth) && IsGroup(s, lo, hi, c)
    ensures SlotsOk(cfg, SplitSlots(s, lo, hi, c, InfoHere(s, lo), sub), depth)
  {
    var e := Ptr(c, InfoHere(s, lo), sub);
    assert EntryOk(cfg, s[lo], depth) && s[lo].Tail? && s[lo].str[0] == c && c in cfg.alphabet;
    var t := SplitSlots(s, lo, hi, c, InfoHere(s, lo), sub);
    forall m | 0 <= m < lo
      ensures EntryLess(s[m], e)
    {
      assert NonEmpty(s[m]) && !(s[m].Tail? && s[m].str[0] == c);
      FirstOrder(s[m], s[lo]);
    }
    forall m | hi <= m < |s|
      ensures EntryLess(e, s[m])
    {
      assert NonEmpty(s[m]) && !(s[m].Tail? && s[m].str[0] == c);
      FirstOrder(s[lo], s[m]);
    }
    SplitOrder(s, lo, hi, e);
  }

  lemma FirstOrder(a: Entry, b: Entry)
    requires NonEmpty(a) && NonEmpty(b) && EntryLess(a, b)
    ensures First(a) <= First(b) && (First(a) == First(b) ==> a.Tail? && b.Tail?)
  {
  }

  lemma SplitOrder(s: seq<Entry>, lo: nat, hi: nat, e: Entry)
    requires Sorted(s) && lo < hi <= |s| && e.Ptr?
    requires forall m :: 0 <= m < lo ==> EntryLess(s[m], e)
    requires forall m :: hi <= m < |s| ==> EntryLess(e, s[m])
    ensures Sorted(s[..lo] + [e] + s[hi..])
  {
  }

  /** Moving a group to a subpage holding the same strings without their first character
      changes nothing that is found. */
  lemma SplitFind(cfg: Config, pages: Pages, path: Paths, ptr: nat, lo: nat, hi: nat, c: int, sub: nat, p: Page)
    requires TrieOk(cfg, pages, path) && ptr in path && IsGroup(pages[ptr].slots, lo, hi, c)
    requires sub in path && path[sub] == path[ptr] + [c]
    requires forall key :: key != [] ==> Find(pages, sub, key) == GroupFind(pages[ptr].slots[lo..hi], [c] + key)
    requires p.slots == SplitSlots(pages[ptr].slots, lo, hi, c, InfoHere(pages[ptr].slots, lo), sub) && SizeOk(cfg, p)
    ensures TrieOk(cfg, pages[ptr := p], path)
    ensures Same(pages, pages[ptr := p], ptr)
  {
    var s, x := pages[ptr].slots, path[ptr];
    var e := Ptr(c, InfoHere(s, lo), sub);
    PageSlots(cfg, pages, path, ptr);
    SplitSorted(cfg, s, |x|, lo, hi, c, sub);
    GroupSingle(cfg, s, |x|, lo, hi, c);
    SubHere(e, path, x);
    hide SlotsOk, SubsOk, SizeOk, Spliced;
    LocalChange(cfg, pages, path, ptr, p, lo, hi, [e]);
    forall key
      ensures Find(pages[ptr := p], ptr, key) == Find(pages, ptr, key)
    {
      if key != [] {
        GroupHits(cfg, pages, s, |x|, lo, hi, c, key);
        OneSlot(pages, e, key);
        SplicedSplit(pages, s, lo, hi, e, key);
        if key[0] == c {
          assert key == [c] + key[1..];
          assert |key| == 1 ==> key == [c];
        }
      }
    }
  }

  lemma SubHere(e: Entry, path: Paths, x: Key)
    requires e.Ptr? && (e.sub != 0 ==> e.sub in path && path[e.sub] == x + [e.ch])
    ensures SubsOk([e], path, x)
  {
  }

  lemma SplicedSplit(pages: Pages, s: seq<Entry>, lo: nat, hi: nat, e: Entry, key: Key)
    requires lo <= hi <= |s| && key != [] && e.Ptr?
    requires key[0] != e.ch ==> !HasHit(s[lo..hi], key)
    ensures Spliced(pages, s, lo, hi, [e], key) == if key[0] == e.ch then EntryFind(pages, e, key)
      else SlotFind(pages, s, key)
  {
    OneSlot(pages, e, key);
  }

  // ---------------------------------------------------------------- dict_ins and split_page

  lemma CleanedSame(cfg: Config, pages: Pages, path: Paths, root: nat, last: nat, freelist: nat, free: seq<nat>,
                    orphans: set<Key>, ptr: nat, p: Page)
    requires StateOk(cfg, pages, path, root, last, freelist, free, orphans) && ptr in path
    requires p.slots == pages[ptr].slots && p.size == HEADER_SIZE + SumBytes(p.slots) && !p.dirty
    ensures StateOk(cfg, pages[ptr := p], path, root, last, freelist, free, orphans)
    ensures Same(pages, pages[ptr := p], ptr)
    ensures Grown(pages, path, pages[ptr := p], path, path[ptr])
  {
    var s := pages[ptr].slots;
    PageSlots(cfg, pages, path, ptr);
    PtrBound(cfg, s, |path[ptr]|);
    assert PageOk(cfg, p, |path[ptr]|);
    hide SlotsOk, SubsOk, PageOk, SizeOk, Conserved, Linked;
    OnePage(cfg, pages, path, ptr, p);
    forall key
      ensures Find(pages[ptr := p], ptr, key) == Find(pages, ptr, key)
    {
      if key != [] { SlotFindSame(cfg, pages, path, pages[ptr := p], s, path[ptr], |path[ptr]|, key); }
    }
    hide TrieOk;
    OnePageOk(cfg, pages, path, root, last, freelist, free, orphans, ptr, p);
    GrownHere(pages, path, ptr, p);
  }

  /** What the strings inserted so far into a split's fresh page look like. */
  ghost predicate Fresh(p: Page, done: seq<Entry>) {
    && !p.dirty && p.size == HEADER_SIZE + SumBytes(p.slots)
    && (forall i :: 0 <= i < |p.slots| ==> p.slots[i].Tail?)
    && SumBytes(p.slots) + |p.slots| <= SumBytes(done) && |p.slots| <= |done|
  }

  lemma FreshStep(p0: Page, p1: Page, done: seq<Entry>, e: Entry)
    requires e.Tail? && |e.str| > 1 && Fresh(p0, done) && Appended(p0, p1, e.str[1..], e.info)
    ensures Fresh(p1, [e] + done)
  {
    var f := Tail(e.str[1..], e.info);
    var k :| 0 <= k <= |p0.slots| &&
      p1 == Page(p0.dirty, p0.backptr, p0.size + |e.str[1..]| + 2 + |e.info|, p0.slots[..k] + [f] + p0.slots[k..]);
    FreshAt(p0, p1, done, e, f, k);
  }

  lemma FreshAt(p0: Page, p1: Page, done: seq<Entry>, e: Entry, f: Entry, k: nat)
    requires e.Tail? && |e.str| > 1 && f == Tail(e.str[1..], e.info) && Fresh(p0, done) && k <= |p0.slots|
    requires p1 == Page(p0.dirty, p0.backptr, p0.size + |f.str| + 2 + |f.info|, p0.slots[..k] + [f] + p0.slots[k..])
    ensures Fresh(p1, [e] + done)
  {
    hide SumBytes, TailBytes, Tails;
    SumInsert(p0.slots, k, f);
    SumConcat([e], done);
    SumOne(e);
  }

  lemma FreshSkip(p: Page, done: seq<Entry>, e: Entry)
    requires Fresh(p, done)
    ensures Fresh(p, [e] + done)
  {
    SumConcat([e], done);
    SumOne(e);
  }

  /** Inserts str, what is left of the key at page ptr, with its information. */
  method DictIns(d: Dict, str: Key, ptr: nat, info: Info, ghost orphans: set<Key>) returns (r: int)
    requires d.Ok(orphans) && CanInsert(d.cfg, d.path, d.root, orphans, ptr, str, info)
    modifies d
    ensures d.Ok(orphans) && d.root == old(d.root)
    ensures Grown(old(d.pages), old(d.path), d.pages, d.path, old(d.path)[ptr])
    ensures Stored(old(d.pages), d.pages, ptr, str, info)
    ensures r == Outcome(Find(old(d.pages), ptr, str), info)
    ensures Fits(d.cfg, old(d.pages)[ptr], str, info) ==>
      && d.noSplit == old(d.noSplit) && d.path == old(d.path)
      && ptr in d.pages && Appended(old(d.pages)[ptr], d.pages[ptr], str, info)
    decreases d.cfg.maxKey - |d.path[ptr]|, Tails(d.pages[ptr].slots), d.pages[ptr].dirty, 4
  {
    hide StateOk, TrieOk, Grown, Conserved, Linked, Stored, Fits, Appended;
    ghost var pages0, path0 := d.pages, d.path;
    StateFacts(d, orphans, ptr);
    var p := d.pages[ptr];
    var mid, cmp := Search(d.cfg, |d.path[ptr]|, p.slots, str);
    LocatedFind(d.cfg, d.pages, d.path, ptr, str, mid, cmp);
    if cmp == 0 {
      NoFit(d.cfg, p, mid, str, info);
      if p.slots[mid].Ptr? && |str| > 1 {
        r := Descend(d, str, ptr, mid, info, orphans);
        return;
      }
      if |p.slots[mid].info| >= |info| {
        r := Overwrite(d, str, ptr, mid, info, orphans);
        return;
      }
      if p.slots[mid].Ptr? {
        r := Expand(d, str, ptr, mid, info, orphans);
        return;
      }
    }
    r := StoreTail(d, str, ptr, mid, cmp, info, orphans);
  }

  lemma NoFit(cfg: Config, p: Page, mid: nat, str: Key, info: Info)
    requires Hit(p.slots, mid, str)
    ensures !Fits(cfg, p, str, info)
  {
  }

  lemma StateFacts(d: Dict, orphans: set<Key>, ptr: nat)
    requires d.Ok(orphans) && ptr in d.path
    ensures TrieOk(d.cfg, d.pages, d.path) && ptr in d.pages && ValidConfig(d.cfg)
    ensures SlotsOk(d.cfg, d.pages[ptr].slots, |d.path[ptr]|) && SubsOk(d.pages[ptr].slots, d.path, d.path[ptr])
    ensures SizeOk(d.cfg, d.pages[ptr])
  {
  }

  lemma PointsUnique(cfg: Config, s: seq<Entry>, depth: nat, mid: nat, c: int, q: nat)
    requires SlotsOk(cfg, s, depth) && mid < |s| && s[mid].Ptr? && s[mid].ch == c
    requires PointsTo(s, c, q)
    ensures s[mid].sub == q
  {
    var i :| 0 <= i < |s| && s[i].Ptr? && s[i].ch == c && s[i].sub == q;
    if i != mid { PtrsDiffer(cfg, s, depth, i, mid); }
  }

  /** Taking a new page for the path one character below ptr changes nothing that is found. */
  lemma NewPageSame(cfg: Config, pages: Pages, path: Paths, root: nat, orphans: set<Key>, ptr: nat, c: int, n: nat,
                    p: Page)
    requires TrieOk(cfg, pages, path) && Linked(pages, path, root, orphans)
    requires root in path && ptr in path && n !in path && n != 0
    requires ClearBelow(orphans, path[ptr])
    requires NoPage(pages[ptr].slots, c)
    ensures var pages', path' := pages[n := p], path[n := path[ptr] + [c]];
      && Linked(pages', path', root, orphans + {path[ptr] + [c]})
      && Same(pages, pages', ptr) && Grown(pages, path, pages', path', path[ptr])
  {
    NewOrphan(pages, path, root, orphans, ptr, c, n, p);
    hide Linked;
    forall k
      ensures Find(pages[n := p], ptr, k) == Find(pages, ptr, k)
    {
      FindSame(cfg, pages, path, pages[n := p], ptr, k);
    }
  }

  lemma SameTrans(pages0: Pages, pages1: Pages, pages2: Pages, ptr: nat)
    requires Same(pages0, pages1, ptr) && Same(pages1, pages2, ptr)
    ensures Same(pages0, pages2, ptr)
  {
  }

  lemma SameStored(pages0: Pages, pages1: Pages, pages2: Pages, ptr: nat, str: Key, info: Info)
    requires Same(pages0, pages1, ptr) && Stored(pages1, pages2, ptr, str, info)
    ensures Stored(pages0, pages2, ptr, str, info)
    ensures Find(pages1, ptr, str) == Find(pages0, ptr, str)
  {
  }

  /** Takes a new page for the path one character below ptr. */
  method FreshPage(d: Dict, ptr: nat, ghost c: int, ghost orphans: set<Key>) returns (sub: nat)
    requires d.Ok(orphans) && ptr in d.path && d.root in d.path && ClearBelow(orphans, d.path[ptr])
    requires NoPage(d.pages[ptr].slots, c)
    modifies d
    ensures d.Ok(orphans + {old(d.path)[ptr] + [c]}) && d.root == old(d.root) && d.noSplit == old(d.noSplit)
    ensures SplitState(d.pages, d.path, d.root, ptr, old(d.pages)[ptr], old(d.path)[ptr], sub, c)
    ensures Grown(old(d.pages), old(d.path), d.pages, d.path, old(d.path)[ptr]) && Same(old(d.pages), d.pages, ptr)
    ensures Fresh(d.pages[sub], []) && Moved(d.pages, sub, [], c)
  {
    ghost var pages0, path0 := d.pages, d.path;
    StateFacts(d, orphans, ptr);
    hide TrieOk, Conserved, Linked, SlotsOk, SubsOk, SizeOk, Grown, Same;
    sub := d.NewPage(ptr, d.path[ptr] + [c]);
    NewPageSame(d.cfg, pages0, path0, d.root, orphans, ptr, c, sub, d.pages[sub]);
    EmptyMoved(d.pages, sub, c);
  }

  /** Gives the pointer entry mid, which has none, a subpage. */
  method LinkNew(d: Dict, ptr: nat, mid: nat, ghost orphans: set<Key>) returns (sub: nat)
    requires d.Ok(orphans) && d.root in d.path && ptr in d.path && ClearBelow(orphans, d.path[ptr])
    requires mid < |d.pages[ptr].slots| && d.pages[ptr].slots[mid].Ptr? && d.pages[ptr].slots[mid].sub == 0
    modifies d
    ensures d.Ok(orphans) && d.root == old(d.root) && d.noSplit == old(d.noSplit)
    ensures Grown(old(d.pages), old(d.path), d.pages, d.path, old(d.path)[ptr])
    ensures Same(old(d.pages), d.pages, ptr)
    ensures ptr in d.pages && mid < |d.pages[ptr].slots|
    ensures d.pages[ptr].slots[mid] == Ptr(old(d.pages[ptr].slots[mid].ch), old(d.pages[ptr].slots[mid].info), sub)
    ensures sub != 0 && Tails(d.pages[ptr].slots) == Tails(old(d.pages[ptr].slots))
  {
    hide *;
    StateFacts(d, orphans, ptr);
    ghost var pages0, path0 := d.pages, d.path;
    ghost var x := d.path[ptr];
    var p := d.pages[ptr];
    var e := p.slots[mid];
    NoOther(d.cfg, p.slots, |x|, mid);
    sub := FreshPage(d, ptr, e.ch, orphans);
    SplitParts(d.pages, d.path, d.root, ptr, p, x, sub, e.ch);
    LinkHere(d, ptr, mid, sub, orphans, pages0, path0);
  }

  lemma SplitParts(pages: Pages, path: Paths, root: nat, ptr: nat, p: Page, x: Key, sub: nat, c: int)
    requires SplitState(pages, path, root, ptr, p, x, sub, c)
    ensures ptr in path && ptr in pages && path[ptr] == x && pages[ptr] == p && sub != 0 && sub in path
    ensures path[sub] == x + [c]
  {
  }

  method LinkHere(d: Dict, ptr: nat, mid: nat, sub: nat, ghost orphans: set<Key>, ghost pages0: Pages,
                  ghost path0: Paths)
    requires ptr in d.path && ptr in d.pages && mid < |d.pages[ptr].slots|
    requires d.pages[ptr].slots[mid].Ptr? && d.pages[ptr].slots[mid].sub == 0
    requires d.Ok(orphans + {d.path[ptr] + [d.pages[ptr].slots[mid].ch]})
    requires SplitState(d.pages, d.path, d.root, ptr, d.pages[ptr], d.path[ptr], sub, d.pages[ptr].slots[mid].ch)
    requires Moved(d.pages, sub, [], d.pages[ptr].slots[mid].ch)
    requires Grown(pages0, path0, d.pages, d.path, d.path[ptr]) && Same(pages0, d.pages, ptr)
    modifies d`pages
    ensures d.Ok(orphans)
    ensures Grown(pages0, path0, d.pages, d.path, d.path[ptr]) && Same(pages0, d.pages, ptr)
    ensures ptr in d.pages && mid < |d.pages[ptr].slots|
    ensures d.pages[ptr].slots[mid] == Ptr(old(d.pages[ptr].slots[mid].ch), old(d.pages[ptr].slots[mid].info), sub)
    ensures Tails(d.pages[ptr].slots) == Tails(old(d.pages[ptr].slots))
  {
    ghost var pages1 := d.pages;
    var p := d.pages[ptr];
    var e := p.slots[mid];
    ghost var x := d.path[ptr];
    var e' := Ptr(e.ch, e.info, sub);
    StateFacts(d, orphans + {x + [e.ch]}, ptr);
    hide StateOk, TrieOk, Conserved, Linked, SlotsOk, SubsOk, SizeOk;
    hide Grown, Same, Find, EntryOk, SamePlace, Fresh, Moved;
    LinkEntry(d.cfg, p, mid, sub, d.path, x, |x|);
    ReplaceEntry(d, ptr, mid, e', p.size, p.dirty, orphans + {x + [e.ch]});
    LinkSame(d.cfg, pages1, d.path, d.pages, ptr, mid, sub);
    SameTrans(pages0, pages1, d.pages, ptr);
    GrownHere(pages1, d.path, ptr, d.pages[ptr]);
    GrownTrans(pages0, path0, pages1, d.path, d.pages, d.path, x);
    assert d.pages[ptr].slots[mid] == e';
    AdoptState(d, orphans, ptr, mid);
    SumUpdate(p.slots, mid, e');
  }

  lemma AdoptState(d: Dict, orphans: set<Key>, ptr: nat, mid: nat)
    requires ptr in d.path && ptr in d.pages && mid < |d.pages[ptr].slots| && d.pages[ptr].slots[mid].Ptr?
    requires d.Ok(orphans + {d.path[ptr] + [d.pages[ptr].slots[mid].ch]})
    requires d.pages[ptr].slots[mid].sub in d.path
    requires d.path[d.pages[ptr].slots[mid].sub] == d.path[ptr] + [d.pages[ptr].slots[mid].ch]
    ensures d.Ok(orphans)
  {
    var e := d.pages[ptr].slots[mid];
    assert PointsTo(d.pages[ptr].slots, e.ch, e.sub);
    Adopt(d.pages, d.path, d.root, orphans, ptr, e.ch, e.sub);
  }

  lemma NoOther(cfg: Config, s: seq<Entry>, depth: nat, mid: nat)
    requires SlotsOk(cfg, s, depth) && mid < |s| && s[mid].Ptr? && s[mid].sub == 0
    ensures NoPage(s, s[mid].ch)
  {
    forall q | q != 0
      ensures !PointsTo(s, s[mid].ch, q)
    {
      if PointsTo(s, s[mid].ch, q) { PointsUnique(cfg, s, depth, mid, s[mid].ch, q); }
    }
  }

  lemma LinkEntry(cfg: Config, p: Page, mid: nat, sub: nat, path: Paths, x: Key, depth: nat)
    requires mid < |p.slots| && p.slots[mid].Ptr? && p.slots[mid].sub == 0
    requires SlotsOk(cfg, p.slots, depth) && SizeOk(cfg, p)
    requires sub in path && path[sub] == x + [p.slots[mid].ch]
    ensures var e := Ptr(p.slots[mid].ch, p.slots[mid].info, sub);
      && SamePlace(p.slots[mid], e) && EntryOk(cfg, e, depth) && SubsOk([e], path, x)
      && SizeOk(cfg, Page(p.dirty, p.backptr, p.size, p.slots[mid := e]))
  {
    SumUpdate(p.slots, mid, Ptr(p.slots[mid].ch, p.slots[mid].info, sub));
  }

  /** An empty subpage is like no subpage. */
  lemma LinkSame(cfg: Config, pages: Pages, path: Paths, pages': Pages, ptr: nat, mid: nat, sub: nat)
    requires TrieOk(cfg, pages, path) && ptr in path && mid < |pages[ptr].slots|
    requires pages[ptr].slots[mid].Ptr? && pages[ptr].slots[mid].sub == 0
    requires Moved(pages, sub, [], pages[ptr].slots[mid].ch)
    requires forall key :: (
      Find(pages', ptr, key) == FoundAfter(pages, ptr, Ptr(pages[ptr].slots[mid].ch, pages[ptr].slots[mid].info, sub),
                                           key))
    ensures Same(pages, pages', ptr)
  {
    PageSlots(cfg, pages, path, ptr);
    forall key
      ensures Find(pages', ptr, key) == Find(pages, ptr, key)
    {
      if key != [] && Hit(pages[ptr].slots, mid, key) {
        SlotFindHit(cfg, pages, pages[ptr].slots, |path[ptr]|, mid, key);
        assert |key| > 1 ==> Find(pages, sub, key[1..]) == [];
      }
    }
  }

  method Descend(d: Dict, str: Key, ptr: nat, mid: nat, info: Info, ghost orphans: set<Key>) returns (r: int)
    requires d.Ok(orphans) && CanInsert(d.cfg, d.path, d.root, orphans, ptr, str, info)
    requires Located(d.pages[ptr].slots, str, mid, 0) && d.pages[ptr].slots[mid].Ptr? && |str| > 1
    modifies d
    ensures d.Ok(orphans) && d.root == old(d.root)
    ensures Grown(old(d.pages), old(d.path), d.pages, d.path, old(d.path)[ptr])
    ensures Stored(old(d.pages), d.pages, ptr, str, info)
    ensures r == Outcome(Find(old(d.pages), ptr, str), info)
    decreases d.cfg.maxKey - |d.path[ptr]|, Tails(d.pages[ptr].slots), d.pages[ptr].dirty, 3
  {
    ghost var pages0, path0 := d.pages, d.path;
    ghost var x := d.path[ptr];
    var e := d.pages[ptr].slots[mid];
    hide Dict.Ok, StateOk, TrieOk, Grown, Same, Find, Stored, ClearBelow, Tails;
    if e.sub == 0 {
      var sub := LinkNew(d, ptr, mid, orphans);
      GrownKeeps(pages0, path0, d.pages, d.path, x, ptr);
      GrownKeeps(pages0, path0, d.pages, d.path, x, d.root);
    } else {
      SameRefl(d.pages, d.path, ptr, x);
    }
    ghost var pages1, path1 := d.pages, d.path;
    r := DescendInto(d, str, ptr, mid, info, orphans);
    SameStored(pages0, pages1, d.pages, ptr, str, info);
    GrownTrans(pages0, path0, pages1, path1, d.pages, d.path, x);
  }

  method DescendInto(d: Dict, str: Key, ptr: nat, mid: nat, info: Info, ghost orphans: set<Key>) returns (r: int)
    requires d.Ok(orphans) && CanInsert(d.cfg, d.path, d.root, orphans, ptr, str, info)
    requires Located(d.pages[ptr].slots, str, mid, 0) && |str| > 1
    requires d.pages[ptr].slots[mid].Ptr? && d.pages[ptr].slots[mid].sub != 0
    modifies d
    ensures d.Ok(orphans) && d.root == old(d.root)
    ensures Grown(old(d.pages), old(d.path), d.pages, d.path, old(d.path)[ptr])
    ensures Stored(old(d.pages), d.pages, ptr, str, info)
    ensures r == Outcome(Find(old(d.pages), ptr, str), info)
    decreases d.cfg.maxKey - |d.path[ptr]|, Tails(d.pages[ptr].slots), false, 1
  {
    ghost var pages1, path1 := d.pages, d.path;
    ghost var x := d.path[ptr];
    var e := d.pages[ptr].slots[mid];
    StateFacts(d, orphans, ptr);
    ClearChild(orphans, x, e.ch);
    LocatedFind(d.cfg, pages1, path1, ptr, str, mid, 0);
    SubAt(pages1[ptr].slots, path1, x, mid);
    hide Dict.Ok, StateOk, SlotsOk, SubsOk, SizeOk, TrieOk, Grown, Find, Stored, ClearBelow, Tails;
    r := DictIns(d, str[1..], e.sub, info, orphans);
    StateTrie(d, orphans);
    DescendFind(d.cfg, pages1, path1, d.pages, d.path, ptr, mid, str, info);
  }

  lemma SubAt(s: seq<Entry>, path: Paths, x: Key, mid: nat)
    requires SubsOk(s, path, x) && mid < |s| && s[mid].Ptr? && s[mid].sub != 0
    ensures s[mid].sub in path && path[s[mid].sub] == x + [s[mid].ch]
  {
  }

  lemma StateTrie(d: Dict, orphans: set<Key>)
    requires d.Ok(orphans)
    ensures TrieOk(d.cfg, d.pages, d.path)
  {
  }

  lemma ClearChild(orphans: set<Key>, x: Key, c: int)
    requires ClearBelow(orphans, x)
    ensures ClearBelow(orphans, x + [c])
  {
    forall o | o in orphans
      ensures !(x + [c] < o)
    {
      PrefixTrans(x, c, o);
    }
  }

  lemma PrefixTrans(x: Key, c: int, o: Key)
    ensures x + [c] < o ==> x < o
  {
  }

  lemma SameRefl(pages: Pages, path: Paths, ptr: nat, x: Key)
    ensures Same(pages, pages, ptr) && Grown(pages, path, pages, path, x)
  {
  }

  lemma GrownKeeps(pages0: Pages, path0: Paths, pages1: Pages, path1: Paths, x: Key, q: nat)
    requires Grown(pages0, path0, pages1, path1, x) && q in path0
    ensures q in path1 && path1[q] == path0[q]
  {
  }

  /** Longer information for the key ending at a pointer entry: the entry moves. */
  method Expand(d: Dict, str: Key, ptr: nat, mid: nat, info: Info, ghost orphans: set<Key>) returns (r: int)
    requires d.Ok(orphans) && CanInsert(d.cfg, d.path, d.root, orphans, ptr, str, info)
    requires Located(d.pages[ptr].slots, str, mid, 0) && d.pages[ptr].slots[mid].Ptr? && |str| == 1
    requires |d.pages[ptr].slots[mid].info| < |info|
    modifies d
    ensures d.Ok(orphans) && d.root == old(d.root)
    ensures Grown(old(d.pages), old(d.path), d.pages, d.path, old(d.path)[ptr])
    ensures Stored(old(d.pages), d.pages, ptr, str, info)
    ensures r == Outcome(Find(old(d.pages), ptr, str), info)
    decreases d.cfg.maxKey - |d.path[ptr]|, Tails(d.pages[ptr].slots), d.pages[ptr].dirty, 3
  {
    var p := d.pages[ptr];
    var e := p.slots[mid];
    ghost var pages0, path0 := d.pages, d.path;
    ghost var x := d.path[ptr];
    StateFacts(d, orphans, ptr);
    LocatedFind(d.cfg, d.pages, d.path, ptr, str, mid, 0);
    EntryKept(d.cfg, p.slots, mid, info, |x|, d.path, x);
    hide StateOk, TrieOk, Conserved, Linked, SlotsOk, SubsOk, Grown, Same, Find, Stored, EntryOk, SamePlace;
    if Overflows(d.cfg, p, 1 + PTR_SIZE + |info|) {
      r := Reinsert(d, str, ptr, 1 + PTR_SIZE + |info|, info, orphans);
      return;
    }
    RewriteSize(d.cfg, p, mid, WithInfo(e, info), PTR_SIZE + 1 + 1 + |info|);
    hide SizeOk;
    ReplaceEntry(d, ptr, mid, WithInfo(e, info), p.size + PTR_SIZE + 1 + 1 + |info|, true, orphans);
    StoredOne(d.cfg, pages0, d.path, d.pages, ptr, mid, str, info);
    GrownHere(pages0, d.path, ptr, d.pages[ptr]);
    return if e.info != [] then 1 else 0;
  }

  /** The end of dict_ins: a new tail string, or longer information for an existing one. */
  method StoreTail(d: Dict, str: Key, ptr: nat, mid: nat, cmp: int, info: Info, ghost orphans: set<Key>)
    returns (r: int)
    requires d.Ok(orphans) && CanInsert(d.cfg, d.path, d.root, orphans, ptr, str, info)
    requires Located(d.pages[ptr].slots, str, mid, cmp)
    requires cmp == 0 ==> d.pages[ptr].slots[mid].Tail? && |d.pages[ptr].slots[mid].info| < |info|
    modifies d
    ensures d.Ok(orphans) && d.root == old(d.root)
    ensures Grown(old(d.pages), old(d.path), d.pages, d.path, old(d.path)[ptr])
    ensures Stored(old(d.pages), d.pages, ptr, str, info)
    ensures r == Outcome(Find(old(d.pages), ptr, str), info)
    ensures Fits(d.cfg, old(d.pages)[ptr], str, info) ==>
      && d.noSplit == old(d.noSplit) && d.path == old(d.path)
      && ptr in d.pages && Appended(old(d.pages)[ptr], d.pages[ptr], str, info)
    decreases d.cfg.maxKey - |d.path[ptr]|, Tails(d.pages[ptr].slots), d.pages[ptr].dirty, 3
  {
    StateFacts(d, orphans, ptr);
    var p := d.pages[ptr];
    ghost var pages0, path0 := d.pages, d.path;
    var slen := |str| + 1;
    LocatedFind(d.cfg, d.pages, d.path, ptr, str, mid, cmp);
    hide Dict.Ok, StateOk, TrieOk, SlotsOk, SubsOk, Grown, Same;
    hide Find, Stored, SamePlace, Appended, ClearBelow, FoundAfter, Tails;
    if Overflows(d.cfg, p, slen + |info|) {
      r := Reinsert(d, str, ptr, slen + |info|, info, orphans);
      return;
    }
    if cmp != 0 {
      NewTail(d, str, ptr, mid, cmp, info, orphans);
      return 0;
    }
    NoFit(d.cfg, p, mid, str, info);
    GrowTail(d, str, ptr, mid, info, orphans);
    r := 1;
  }

  /** A new tail string, in its place among the slots. */
  method NewTail(d: Dict, str: Key, ptr: nat, mid: nat, cmp: int, info: Info, ghost orphans: set<Key>)
    requires d.Ok(orphans) && CanInsert(d.cfg, d.path, d.root, orphans, ptr, str, info)
    requires Located(d.pages[ptr].slots, str, mid, cmp) && cmp != 0
    requires !Overflows(d.cfg, d.pages[ptr], |str| + 1 + |info|)
    modifies d
    ensures d.Ok(orphans) && d.root == old(d.root)
    ensures Grown(old(d.pages), old(d.path), d.pages, d.path, old(d.path)[ptr])
    ensures Stored(old(d.pages), d.pages, ptr, str, info)
    ensures d.noSplit == old(d.noSplit) && d.path == old(d.path)
    ensures ptr in d.pages && Appended(old(d.pages)[ptr], d.pages[ptr], str, info)
  {
    StateFacts(d, orphans, ptr);
    var p := d.pages[ptr];
    ghost var pages0, path0 := d.pages, d.path;
    LocatedFind(d.cfg, d.pages, d.path, ptr, str, mid, cmp);
    var k := if cmp < 0 then mid + 1 else mid;
    hide Dict.Ok, StateOk, TrieOk, SlotsOk, SubsOk, Grown, Same;
    hide Find, Stored, SamePlace, Appended, ClearBelow, FoundAfter, Tails;
    InsertEntry(d, ptr, k, Tail(str, info), p.size + |str| + 2 + |info|, orphans);
    StoredNew(pages0, d.pages, ptr, str, info);
    GrownHere(pages0, d.path, ptr, d.pages[ptr]);
    AppendedAt(p, d.pages[ptr], k, str, info);
  }

  /** Longer information for the key of a tail string: the entry moves. */
  method GrowTail(d: Dict, str: Key, ptr: nat, mid: nat, info: Info, ghost orphans: set<Key>)
    requires d.Ok(orphans) && CanInsert(d.cfg, d.path, d.root, orphans, ptr, str, info)
    requires Located(d.pages[ptr].slots, str, mid, 0) && d.pages[ptr].slots[mid].Tail?
    requires !Overflows(d.cfg, d.pages[ptr], |str| + 1 + |info|)
    modifies d
    ensures d.Ok(orphans) && d.root == old(d.root)
    ensures Grown(old(d.pages), old(d.path), d.pages, d.path, old(d.path)[ptr])
    ensures Stored(old(d.pages), d.pages, ptr, str, info)
  {
    var p := d.pages[ptr];
    ghost var pages0, x := d.pages, d.path[ptr];
    StateFacts(d, orphans, ptr);
    LocatedFind(d.cfg, d.pages, d.path, ptr, str, mid, 0);
    EntryKept(d.cfg, p.slots, mid, info, |x|, d.path, x);
    hide StateOk, TrieOk, Conserved, Linked, SlotsOk, SubsOk, Grown, Same, Find, Stored, EntryOk, SamePlace;
    RewriteSize(d.cfg, p, mid, WithInfo(p.slots[mid], info), |str| + 2 + |info|);
    hide SizeOk;
    ReplaceEntry(d, ptr, mid, WithInfo(p.slots[mid], info), p.size + |str| + 2 + |info|, true, orphans);
    StoredOne(d.cfg, pages0, d.path, d.pages, ptr, mid, str, info);
    GrownHere(pages0, d.path, ptr, d.pages[ptr]);
  }

  /** Makes room on a full page, and starts over there. */
  method Reinsert(d: Dict, str: Key, ptr: nat, need: nat, info: Info, ghost orphans: set<Key>) returns (r: int)
    requires d.Ok(orphans) && CanInsert(d.cfg, d.path, d.root, orphans, ptr, str, info)
    requires Overflows(d.cfg, d.pages[ptr], need) && need <= d.cfg.maxKey + 5 + d.cfg.maxInfo
    modifies d
    ensures d.Ok(orphans) && d.root == old(d.root)
    ensures Grown(old(d.pages), old(d.path), d.pages, d.path, old(d.path)[ptr])
    ensures Stored(old(d.pages), d.pages, ptr, str, info)
    ensures r == Outcome(Find(old(d.pages), ptr, str), info)
    decreases d.cfg.maxKey - |d.path[ptr]|, Tails(d.pages[ptr].slots), d.pages[ptr].dirty, 2
  {
    ghost var pages0, path0, x := d.pages, d.path, d.path[ptr];
    hide Dict.Ok, StateOk, TrieOk, Grown, Same, Find, Stored, ClearBelow, Tails;
    MakeRoom(d, ptr, need, orphans);
    ghost var pages1, path1 := d.pages, d.path;
    GrownKeeps(pages0, path0, pages1, path1, x, ptr);
    GrownKeeps(pages0, path0, pages1, path1, x, d.root);
    r := DictIns(d, str, ptr, info, orphans);
    SameStored(pages0, pages1, d.pages, ptr, str, info);
    GrownTrans(pages0, path0, pages1, path1, d.pages, d.path, x);
  }

  lemma AppendedAt(p0: Page, p1: Page, k: nat, str: Key, info: Info)
    requires k <= |p0.slots|
    requires p1 ==
      Page(p0.dirty, p0.backptr, p0.size + |str| + 2 + |info|, p0.slots[..k] + [Tail(str, info)] + p0.slots[k..])
    ensures Appended(p0, p1, str, info)
  {
  }

  lemma StoredNew(pages: Pages, pages1: Pages, ptr: nat, str: Key, info: Info)
    requires str != [] && forall key :: Find(pages1, ptr, key) == FoundAfter(pages, ptr, Tail(str, info), key)
    ensures Stored(pages, pages1, ptr, str, info)
  {
    forall key
      ensures Find(pages1, ptr, key) == if key == str then info else Find(pages, ptr, key)
    {
    }
  }

  /** A full page: its unused bytes are reclaimed, or if there are none it is split. */
  method MakeRoom(d: Dict, ptr: nat, need: nat, ghost orphans: set<Key>)
    requires d.Ok(orphans) && ptr in d.path && d.root in d.path && ClearBelow(orphans, d.path[ptr])
    requires Overflows(d.cfg, d.pages[ptr], need) && need <= d.cfg.maxKey + 5 + d.cfg.maxInfo
    requires |d.path[ptr]| <= d.cfg.maxKey
    modifies d
    ensures d.Ok(orphans) && d.root == old(d.root)
    ensures Grown(old(d.pages), old(d.path), d.pages, d.path, old(d.path)[ptr])
    ensures Same(old(d.pages), d.pages, ptr)
    ensures ptr in d.pages && !d.pages[ptr].dirty
    ensures Tails(d.pages[ptr].slots) < Tails(old(d.pages)[ptr].slots)
      || (Tails(d.pages[ptr].slots) == Tails(old(d.pages)[ptr].slots) && old(d.pages)[ptr].dirty)
    decreases d.cfg.maxKey - |d.path[ptr]|, Tails(d.pages[ptr].slots), d.pages[ptr].dirty, 1
  {
    StateFacts(d, orphans, ptr);
    ghost var p, pages0 := d.pages[ptr], d.pages;
    hide TrieOk, Conserved, Linked, Grown, Same, Find, Stored;
    if d.pages[ptr].dirty {
      CleanPage(d, ptr, 0, 0, [], |p.slots|, |p.slots|);
      WholePage(p.slots);
      CleanedSame(d.cfg, pages0, d.path, d.root, d.last, d.freelist, d.free, orphans, ptr, d.pages[ptr]);
    } else {
      if Tails(p.slots) == 0 { PointersLeaveRoom(d.cfg, p, |d.path[ptr]|, need); }
      SplitPage(d, ptr, orphans);
    }
  }

  lemma WholePage(s: seq<Entry>)
    ensures s[..|s|] + [] + s[|s|..] == s
  {
  }

  /** Moves the heaviest group of tail strings of a page to a page of its own. The strings
      always fit there: no further page is split. */
  method SplitPage(d: Dict, ptr: nat, ghost orphans: set<Key>)
    requires d.Ok(orphans) && ptr in d.path && d.root in d.path && ClearBelow(orphans, d.path[ptr])
    requires ptr in d.pages && !d.pages[ptr].dirty && Tails(d.pages[ptr].slots) > 0 && |d.path[ptr]| <= d.cfg.maxKey
    modifies d
    ensures d.Ok(orphans) && d.root == old(d.root)
    ensures Grown(old(d.pages), old(d.path), d.pages, d.path, old(d.path)[ptr])
    ensures Same(old(d.pages), d.pages, ptr)
    ensures ptr in d.pages && !d.pages[ptr].dirty
    ensures Tails(d.pages[ptr].slots) < Tails(old(d.pages)[ptr].slots)
    ensures d.noSplit == old(d.noSplit) + 1
    decreases d.cfg.maxKey - |d.path[ptr]|, Tails(d.pages[ptr].slots), d.pages[ptr].dirty, 0
  {
    hide Dict.Ok, StateOk, TrieOk, SlotsOk, SubsOk, SizeOk, Grown, Same, Sorted, IsGroup, Tails, Heaviest, Weight;
    hide SplitState, Fresh, Moved, InfoHere, PointsTo, NoPage, ClearBelow;
    ghost var pages0, path0 := d.pages, d.path;
    ghost var x := d.path[ptr];
    StateFacts(d, orphans, ptr);
    var p := d.pages[ptr];
    TailsOk(d.cfg, p.slots, |x|);
    d.noSplit := d.noSplit + 1;
    var bestNo, bestLast, bestChar, bestSize := ChooseGroup(p.slots);
    ghost var lo, hi := bestLast + 1 - bestNo, bestLast + 1;
    GroupFacts(d.cfg, p.slots, |x|, lo, hi, bestChar);
    var subptr := FreshPage(d, ptr, bestChar, orphans);
    var infoHere := MoveGroup(d, ptr, p, x, lo, bestNo, bestLast, bestChar, subptr, orphans, pages0, path0);
    FinishSplit(d, ptr, p, x, lo, hi, bestChar, bestSize, subptr, infoHere, orphans, pages0, path0);
  }

  /** The loop of a split: the strings of the group, last to first, go to the new page; the
      one that is a single character leaves its information to the pointer entry. */
  method MoveGroup(d: Dict, ptr: nat, p: Page, ghost x: Key, ghost lo: nat, bestNo: nat, bestLast: nat, bestChar: int,
                   sub: nat, ghost orphans: set<Key>, ghost pages0: Pages, ghost path0: Paths)
    returns (infoHere: Info)
    requires |x| + 1 <= d.cfg.maxKey
    requires d.Ok(orphans + {x + [bestChar]}) && ClearBelow(orphans, x)
    requires bestLast + 1 == lo + bestNo && IsGroup(p.slots, lo, bestLast + 1, bestChar)
    requires SplitState(d.pages, d.path, d.root, ptr, p, x, sub, bestChar)
    requires Grown(pages0, path0, d.pages, d.path, x) && Same(pages0, d.pages, ptr)
    requires Fresh(d.pages[sub], []) && Moved(d.pages, sub, [], bestChar)
    modifies d
    ensures d.Ok(orphans + {x + [bestChar]}) && d.root == old(d.root) && d.noSplit == old(d.noSplit)
    ensures SplitState(d.pages, d.path, d.root, ptr, p, x, sub, bestChar)
    ensures Grown(pages0, path0, d.pages, d.path, x) && Same(pages0, d.pages, ptr)
    ensures Moved(d.pages, sub, p.slots[lo..bestLast + 1], bestChar)
    ensures p.slots[lo].Tail? && infoHere == InfoHere(p.slots, lo)
    decreases d.cfg.maxKey - |x|, 0, false, 0
  {
    ghost var hi := bestLast + 1;
    infoHere := [];
    hide Dict.Ok, StateOk, Grown, Same, IsGroup, Moved, Fresh, SplitState, InfoHere, ClearBelow, Tails;
    GroupBounds(p.slots, lo, hi, bestChar);
    StateSub(d, ptr, p, x, sub, bestChar);
    assert p.slots[hi..hi] == [];
    var i := 0;
    while i < bestNo
      invariant 0 <= i <= bestNo
      invariant d.Ok(orphans + {x + [bestChar]}) && d.root == old(d.root) && d.noSplit == old(d.noSplit)
      invariant SplitState(d.pages, d.path, d.root, ptr, p, x, sub, bestChar) && sub in d.pages
      invariant Grown(pages0, path0, d.pages, d.path, x) && Same(pages0, d.pages, ptr)
      invariant Fresh(d.pages[sub], p.slots[hi - i..hi])
      invariant Moved(d.pages, sub, p.slots[hi - i..hi], bestChar)
      invariant infoHere == (if i == bestNo then InfoHere(p.slots, lo) else [])
    {
      assert p.slots[hi - (i + 1)..hi] == [p.slots[bestLast - i]] + p.slots[hi - i..hi];
      infoHere := MoveEntry(d, ptr, p, x, lo, bestLast + 1, bestChar, sub, bestLast - i, orphans, infoHere, pages0,
                            path0);
      i := i + 1;
    }
  }

  method MoveEntry(d: Dict, ptr: nat, p: Page, ghost x: Key, ghost lo: nat, hi: nat, c: int, sub: nat, k: nat,
                   ghost orphans: set<Key>, info: Info, ghost pages0: Pages, ghost path0: Paths)
    returns (infoHere: Info)
    requires |x| + 1 <= d.cfg.maxKey
    requires d.Ok(orphans + {x + [c]}) && ClearBelow(orphans, x)
    requires SplitState(d.pages, d.path, d.root, ptr, p, x, sub, c) && sub in d.pages
    requires IsGroup(p.slots, lo, hi, c) && lo <= k < hi && info == []
    requires Grown(pages0, path0, d.pages, d.path, x) && Same(pages0, d.pages, ptr)
    requires Fresh(d.pages[sub], p.slots[k + 1..hi]) && Moved(d.pages, sub, p.slots[k + 1..hi], c)
    modifies d
    ensures d.Ok(orphans + {x + [c]}) && d.root == old(d.root) && d.noSplit == old(d.noSplit)
    ensures SplitState(d.pages, d.path, d.root, ptr, p, x, sub, c) && sub in d.pages
    ensures Grown(pages0, path0, d.pages, d.path, x) && Same(pages0, d.pages, ptr)
    ensures Fresh(d.pages[sub], [p.slots[k]] + p.slots[k + 1..hi])
    ensures Moved(d.pages, sub, [p.slots[k]] + p.slots[k + 1..hi], c)
    ensures p.slots[lo].Tail? && infoHere == (if k == lo then InfoHere(p.slots, lo) else [])
    decreases d.cfg.maxKey - |x + [c]|, Tails(d.pages[sub].slots), d.pages[sub].dirty, 6
  {
    var e := p.slots[k];
    ghost var done := p.slots[k + 1..hi];
    hide *;
    EntryFacts(d, orphans + {x + [c]}, ptr, p, x, sub, lo, hi, c, k);
    infoHere := info;
    if |e.str| == 1 {
      infoHere := e.info;
      FreshSkip(d.pages[sub], done, e);
      MovedSkip(d.pages, sub, done, e, c);
    } else {
      MoveOne(d, ptr, p, x, lo, hi, c, sub, k, orphans, pages0, path0);
      StateSub(d, ptr, p, x, sub, c);
    }
  }

  lemma StateSub(d: Dict, ptr: nat, p: Page, x: Key, sub: nat, c: int)
    requires SplitState(d.pages, d.path, d.root, ptr, p, x, sub, c)
    ensures sub in d.pages
  {
  }

  lemma EntryFacts(d: Dict, orphans: set<Key>, ptr: nat, p: Page, x: Key, sub: nat, lo: nat, hi: nat, c: int, k: nat)
    requires d.Ok(orphans) && SplitState(d.pages, d.path, d.root, ptr, p, x, sub, c)
    requires IsGroup(p.slots, lo, hi, c) && lo <= k < hi
    ensures p.slots[k].Tail? && p.slots[k].str != [] && p.slots[lo].Tail?
    ensures |p.slots[k].str| == 1 ==> k == lo && p.slots[k].info == InfoHere(p.slots, lo)
    ensures |p.slots[k].str| != 1 && k == lo ==> InfoHere(p.slots, lo) == []
  {
    StateFacts(d, orphans, ptr);
    GroupEntry(d.cfg, p.slots, |x|, lo, hi, c, k);
  }

  lemma GroupBounds(s: seq<Entry>, lo: nat, hi: nat, c: int)
    requires IsGroup(s, lo, hi, c)
    ensures lo < hi <= |s| && s[lo].Tail?
  {
  }

  /** Between the steps of a split: ptr still holds its old entries, subptr is its new page. */
  ghost predicate SplitState(pages: Pages, path: Paths, root: nat, ptr: nat, p: Page, x: Key, sub: nat, c: int) {
    && ptr in path && ptr in pages && root in path && path[ptr] == x && pages[ptr] == p
    && sub != 0 && sub in path && sub in pages && path[sub] == x + [c]
  }

  /** The strings of done, without their first character, are what sub holds. */
  ghost predicate Moved(pages: Pages, sub: nat, done: seq<Entry>, c: int) {
    forall key :: key != [] ==> Find(pages, sub, key) == GroupFind(done, [c] + key)
  }

  lemma MovedSkip(pages: Pages, sub: nat, done: seq<Entry>, e: Entry, c: int)
    requires Moved(pages, sub, done, c) && e.Tail? && |e.str| == 1
    ensures Moved(pages, sub, [e] + done, c)
  {
    forall key | key != []
      ensures Find(pages, sub, key) == GroupFind([e] + done, [c] + key)
    {
      assert ([e] + done)[1..] == done;
    }
  }

  lemma MovedStep(pages0: Pages, pages1: Pages, sub: nat, done: seq<Entry>, e: Entry, c: int)
    requires Moved(pages0, sub, done, c) && e.Tail? && |e.str| > 1 && e.str[0] == c
    requires Stored(pages0, pages1, sub, e.str[1..], e.info)
    ensures Moved(pages1, sub, [e] + done, c)
  {
    forall key | key != []
      ensures Find(pages1, sub, key) == GroupFind([e] + done, [c] + key)
    {
      assert ([e] + done)[1..] == done;
      assert e.str == [c] + e.str[1..];
      assert ([c] + key)[1..] == key;
    }
  }

  lemma TailsOk(cfg: Config, s: seq<Entry>, depth: nat)
    requires ValidConfig(cfg) && SlotsOk(cfg, s, depth)
    ensures Sorted(s)
    ensures forall k :: 0 <= k < |s| && s[k].Tail? ==> s[k].str != [] && s[k].str[0] >= 1
  {
    forall k | 0 <= k < |s| && s[k].Tail?
      ensures s[k].str != [] && s[k].str[0] >= 1
    {
      assert EntryOk(cfg, s[k], depth);
    }
  }

  lemma GroupFacts(cfg: Config, s: seq<Entry>, depth: nat, lo: nat, hi: nat, c: int)
    requires ValidConfig(cfg) && SlotsOk(cfg, s, depth) && IsGroup(s, lo, hi, c)
    ensures s[lo].Tail? && c in cfg.alphabet && c >= 1 && depth + 1 <= cfg.maxKey
    ensures GroupFind([], [c]) == []
    ensures NoPage(s, c)
  {
    assert EntryOk(cfg, s[lo], depth) && s[lo].str[0] == c;
    forall i | 0 <= i < |s| && s[i].Ptr?
      ensures s[i].ch != c
    {
      PointerApart(cfg, s, depth, lo, i, c);
    }
  }

  lemma GroupEntry(cfg: Config, s: seq<Entry>, depth: nat, lo: nat, hi: nat, c: int, k: nat)
    requires ValidConfig(cfg) && SlotsOk(cfg, s, depth) && IsGroup(s, lo, hi, c) && lo <= k < hi
    ensures s[k].Tail? && s[k].str != [] && s[k].str[0] == c && EntryOk(cfg, s[k], depth)
    ensures k > lo ==> |s[k].str| > 1
  {
    GroupSingle(cfg, s, depth, lo, hi, c);
  }

  lemma EmptyMoved(pages: Pages, sub: nat, c: int)
    requires sub in pages && pages[sub].slots == []
    ensures Moved(pages, sub, [], c)
  {
  }

  /** Inserts one string of the group into the new page. */
  method MoveOne(d: Dict, ptr: nat, p: Page, ghost x: Key, ghost lo: nat, hi: nat, c: int, sub: nat, k: nat,
                 ghost orphans: set<Key>, ghost pages0: Pages, ghost path0: Paths)
    requires |x| + 1 <= d.cfg.maxKey
    requires d.Ok(orphans + {x + [c]}) && ClearBelow(orphans, x)
    requires SplitState(d.pages, d.path, d.root, ptr, p, x, sub, c)
    requires IsGroup(p.slots, lo, hi, c) && lo <= k < hi && |p.slots[k].str| > 1
    requires Grown(pages0, path0, d.pages, d.path, x) && Same(pages0, d.pages, ptr)
    requires Fresh(d.pages[sub], p.slots[k + 1..hi]) && Moved(d.pages, sub, p.slots[k + 1..hi], c)
    modifies d
    ensures d.Ok(orphans + {x + [c]}) && d.root == old(d.root) && d.noSplit == old(d.noSplit)
    ensures SplitState(d.pages, d.path, d.root, ptr, p, x, sub, c)
    ensures Grown(pages0, path0, d.pages, d.path, x) && Same(pages0, d.pages, ptr)
    ensures Fresh(d.pages[sub], [p.slots[k]] + p.slots[k + 1..hi])
    ensures Moved(d.pages, sub, [p.slots[k]] + p.slots[k + 1..hi], c)
    decreases d.cfg.maxKey - |x + [c]|, Tails(d.pages[sub].slots), d.pages[sub].dirty, 5
  {
    var e := p.slots[k];
    ghost var pages1, path1 := d.pages, d.path;
    ghost var done := p.slots[k + 1..hi];
    ghost var orphans' := orphans + {x + [c]};
    MoveReady(d, ptr, p, x, lo, hi, c, sub, k, orphans);
    hide Dict.Ok, StateOk, TrieOk, SlotsOk, SubsOk, SizeOk, Grown, Same;
    hide Find, Fits, Appended, Fresh, Moved, Stored, Tails, IsGroup, PointsTo;
    var r := DictIns(d, e.str[1..], sub, e.info, orphans');
    MoveAfter(d.cfg, pages1, path1, d.pages, d.path, d.root, ptr, p, x, sub, c);
    FreshStep(pages1[sub], d.pages[sub], done, e);
    MovedStep(pages1, d.pages, sub, done, e, c);
    SameTrans(pages0, pages1, d.pages, ptr);
    GrownTrans(pages0, path0, pages1, path1, d.pages, d.path, x);
  }

  lemma MoveReady(d: Dict, ptr: nat, p: Page, x: Key, lo: nat, hi: nat, c: int, sub: nat, k: nat, orphans: set<Key>)
    requires d.Ok(orphans + {x + [c]}) && ClearBelow(orphans, x)
    requires SplitState(d.pages, d.path, d.root, ptr, p, x, sub, c)
    requires IsGroup(p.slots, lo, hi, c) && lo <= k < hi && |p.slots[k].str| > 1
    requires Fresh(d.pages[sub], p.slots[k + 1..hi]) && Moved(d.pages, sub, p.slots[k + 1..hi], c)
    ensures TrieOk(d.cfg, d.pages, d.path)
    ensures var e := p.slots[k];
      && e.Tail? && e.str[0] == c
      && CanInsert(d.cfg, d.path, d.root, orphans + {x + [c]}, sub, e.str[1..], e.info)
      && Fits(d.cfg, d.pages[sub], e.str[1..], e.info)
    ensures NoPage(p.slots, c)
  {
    StateFacts(d, orphans + {x + [c]}, ptr);
    hide Dict.Ok, StateOk, TrieOk, SubsOk, SizeOk, PointsTo, Fresh, Moved, Fits;
    GroupEntry(d.cfg, p.slots, |x|, lo, hi, c, k);
    GroupFacts(d.cfg, p.slots, |x|, lo, hi, c);
    FitsFresh(d.cfg, d.pages, d.path, ptr, sub, lo, hi, c, k);
    hide SlotsOk, IsGroup;
    ClearOwn(orphans, x, c);
  }

  lemma ClearOwn(orphans: set<Key>, x: Key, c: int)
    requires ClearBelow(orphans, x)
    ensures ClearBelow(orphans + {x + [c]}, x + [c])
  {
    ClearChild(orphans, x, c);
  }

  lemma MoveAfter(cfg: Config, pages1: Pages, path1: Paths, pages2: Pages, path2: Paths, root: nat, ptr: nat, p: Page,
                  x: Key, sub: nat, c: int)
    requires TrieOk(cfg, pages1, path1) && SplitState(pages1, path1, root, ptr, p, x, sub, c)
    requires Grown(pages1, path1, pages2, path2, x + [c]) && sub in pages2
    requires NoPage(p.slots, c)
    ensures SplitState(pages2, path2, root, ptr, p, x, sub, c)
    ensures Same(pages1, pages2, ptr) && Grown(pages1, path1, pages2, path2, x)
  {
    AboveKept(pages1, path1, pages2, ptr, x, c);
    SameAbove(cfg, pages1, path1, pages2, ptr, c);
    GrownAbove(pages1, path1, pages2, path2, x, x + [c]);
  }

  /** Each string of the group fits the new page as it is. */
  lemma FitsFresh(cfg: Config, pages: Pages, path: Paths, ptr: nat, sub: nat, lo: nat, hi: nat, c: int, k: nat)
    requires TrieOk(cfg, pages, path) && ptr in path && sub in path
    requires IsGroup(pages[ptr].slots, lo, hi, c) && lo <= k < hi && |pages[ptr].slots[k].str| > 1
    requires Fresh(pages[sub], pages[ptr].slots[k + 1..hi]) && Moved(pages, sub, pages[ptr].slots[k + 1..hi], c)
    ensures Fits(cfg, pages[sub], pages[ptr].slots[k].str[1..], pages[ptr].slots[k].info)
  {
    PageSlots(cfg, pages, path, ptr);
    PageSlots(cfg, pages, path, sub);
    FreshRoom(cfg, pages[ptr], pages[sub], k, hi);
    FreshMiss(cfg, pages, path, ptr, sub, lo, hi, c, k);
  }

  lemma FreshRoom(cfg: Config, p: Page, q: Page, k: nat, hi: nat)
    requires SizeOk(cfg, p) && k < hi <= |p.slots| && p.slots[k].Tail? && |p.slots[k].str| > 1
    requires Fresh(q, p.slots[k + 1..hi])
    ensures !Overflows(cfg, q, |p.slots[k].str[1..]| + 1 + |p.slots[k].info|)
  {
    var s, e := p.slots, p.slots[k];
    var done := s[k + 1..hi];
    SumSplice(s, k, hi, []);
    assert s[k..hi] == [e] + done;
    SumConcat([e], done);
    SumOne(e);
  }

  lemma FreshMiss(cfg: Config, pages: Pages, path: Paths, ptr: nat, sub: nat, lo: nat, hi: nat, c: int, k: nat)
    requires TrieOk(cfg, pages, path) && ptr in path && sub in path
    requires IsGroup(pages[ptr].slots, lo, hi, c) && lo <= k < hi && |pages[ptr].slots[k].str| > 1
    requires Fresh(pages[sub], pages[ptr].slots[k + 1..hi]) && Moved(pages, sub, pages[ptr].slots[k + 1..hi], c)
    ensures !HasHit(pages[sub].slots, pages[ptr].slots[k].str[1..])
  {
    var s, e, q := pages[ptr].slots, pages[ptr].slots[k], pages[sub];
    PageSlots(cfg, pages, path, ptr);
    PageSlots(cfg, pages, path, sub);
    var key := e.str[1..];
    assert e.str == [c] + key;
    NotAgain(cfg, s, |path[ptr]|, k, hi, e.str);
    assert Find(pages, sub, key) == [];
    if j :| Hit(q.slots, j, key) { HitFound(cfg, pages, path, sub, j, key); }
  }

  lemma HitFound(cfg: Config, pages: Pages, path: Paths, sub: nat, j: nat, key: Key)
    requires TrieOk(cfg, pages, path) && sub in path && key != []
    requires Hit(pages[sub].slots, j, key) && pages[sub].slots[j].Tail?
    ensures Find(pages, sub, key) != []
  {
    PageSlots(cfg, pages, path, sub);
    SlotFindHit(cfg, pages, pages[sub].slots, |path[sub]|, j, key);
    assert EntryOk(cfg, pages[sub].slots[j], |path[sub]|);
  }

  lemma {:induction false} NotAgain(cfg: Config, s: seq<Entry>, depth: nat, k: nat, hi: nat, str: Key)
    requires SlotsOk(cfg, s, depth) && k < hi <= |s| && s[k].Tail? && s[k].str == str
    requires forall m :: k <= m < hi ==> s[m].Tail?
    ensures GroupFind(s[k + 1..hi], str) == []
  {
    NotAgainFrom(cfg, s, depth, k, k + 1, hi);
  }

  lemma {:induction false} NotAgainFrom(cfg: Config, s: seq<Entry>, depth: nat, k: nat, m: nat, hi: nat)
    requires SlotsOk(cfg, s, depth) && k < m <= hi <= |s|
    requires forall m :: k <= m < hi ==> s[m].Tail?
    ensures GroupFind(s[m..hi], s[k].str) == []
    decreases hi - m
  {
    if m < hi {
      assert EntryLess(s[k], s[m]);
      LessTotal(s[k].str, s[m].str);
      NotAgainFrom(cfg, s, depth, k, m + 1, hi);
      assert s[m..hi][1..] == s[m + 1..hi];
    }
  }

  /** Replaces the group by its pointer entry. */
  method FinishSplit(d: Dict, ptr: nat, p: Page, ghost x: Key, ghost lo: nat, ghost hi: nat, c: int, ghost size: int,
                     sub: nat, infoHere: Info, ghost orphans: set<Key>, ghost pages0: Pages, ghost path0: Paths)
    requires d.Ok(orphans + {x + [c]})
    requires SplitState(d.pages, d.path, d.root, ptr, p, x, sub, c)
    requires IsGroup(p.slots, lo, hi, c) && c != 0 && infoHere == InfoHere(p.slots, lo)
    requires size == Weight(p.slots[lo..hi]) && Heaviest(p.slots, |p.slots|, size)
    requires Grown(pages0, path0, d.pages, d.path, x) && Same(pages0, d.pages, ptr)
    requires Moved(d.pages, sub, p.slots[lo..hi], c)
    modifies d`pages
    ensures d.Ok(orphans)
    ensures Grown(pages0, path0, d.pages, d.path, x) && Same(pages0, d.pages, ptr)
    ensures ptr in d.pages && !d.pages[ptr].dirty && Tails(d.pages[ptr].slots) < Tails(p.slots)
  {
    ghost var pages1 := d.pages;
    StateFacts(d, orphans + {x + [c]}, ptr);
    SplitRoom(d.cfg, p, |x|, lo, hi, c, size, sub);
    SplitSorted(d.cfg, p.slots, |x|, lo, hi, c, sub);
    hide StateOk, TrieOk, Conserved, Linked, SubsOk, Grown, Same, Find, IsGroup, Moved, Heaviest;
    CleanPage(d, ptr, c, sub, infoHere, lo, hi);
    ghost var q := d.pages[ptr];
    assert q.slots == SplitSlots(p.slots, lo, hi, c, infoHere, sub);
    PtrBound(d.cfg, q.slots, |x|);
    hide SlotsOk;
    assert SizeOk(d.cfg, q);
    SplitFindState(d.cfg, pages1, d.path, d.root, d.last, d.freelist, d.free, orphans, ptr, lo, hi, c, sub, q);
    SameTrans(pages0, pages1, d.pages, ptr);
    GrownHere(pages1, d.path, ptr, q);
    GrownTrans(pages0, path0, pages1, d.path, d.pages, d.path, x);
  }

  lemma SplitFindState(cfg: Config, pages: Pages, path: Paths, root: nat, last: nat, freelist: nat, free: seq<nat>,
                       orphans: set<Key>, ptr: nat, lo: nat, hi: nat, c: int, sub: nat, p: Page)
    requires ptr in path && ptr in pages
    requires StateOk(cfg, pages, path, root, last, freelist, free, orphans + {path[ptr] + [c]})
    requires IsGroup(pages[ptr].slots, lo, hi, c)
    requires sub in path && path[sub] == path[ptr] + [c]
    requires Moved(pages, sub, pages[ptr].slots[lo..hi], c)
    requires p.slots == SplitSlots(pages[ptr].slots, lo, hi, c, InfoHere(pages[ptr].slots, lo), sub) && SizeOk(cfg, p)
    ensures StateOk(cfg, pages[ptr := p], path, root, last, freelist, free, orphans)
    ensures Same(pages, pages[ptr := p], ptr)
  {
    SplitFind(cfg, pages, path, ptr, lo, hi, c, sub, p);
    SplitKeeps(pages[ptr].slots, lo, hi, c, InfoHere(pages[ptr].slots, lo), sub);
    OnePageOk(cfg, pages, path, root, last, freelist, free, orphans + {path[ptr] + [c]}, ptr, p);
    hide TrieOk, Conserved, SizeOk, IsGroup, Moved, Same;
    assert p.slots[lo].Ptr?;
    assert PointsTo(p.slots, c, sub);
    Adopt(pages[ptr := p], path, root, orphans, ptr, c, sub);
  }

  lemma SplitKeeps(s: seq<Entry>, lo: nat, hi: nat, c: int, info: Info, sub: nat)
    requires IsGroup(s, lo, hi, c)
    ensures KeepsPtrs(s, SplitSlots(s, lo, hi, c, info, sub))
  {
    var t := SplitSlots(s, lo, hi, c, info, sub);
    forall b, q | q != 0 && PointsTo(s, b, q)
      ensures PointsTo(t, b, q)
    {
      var i :| 0 <= i < |s| && s[i].Ptr? && s[i].ch == b && s[i].sub == q;
      var j := if i < lo then i else i - hi + lo + 1;
      assert t[j] == s[i];
    }
  }

  // ---------------------------------------------------------------- dict_insert

  /** Stores information for a key: 0 when the key is new, 1 when its information changes,
      2 when it had the same information, -1 when the dictionary is read-only. */
  method Insert(d: Dict, str: Key, info: Info) returns (r: int)
    requires d.Valid() && str != [] && ValidKey(d.cfg, str) && |str| <= d.cfg.maxKey
    requires 1 <= |info| <= d.cfg.maxInfo
    modifies d
    ensures d.Valid()
    ensures d.contents == if d.rw then old(d.contents)[str := info] else old(d.contents)
    ensures !d.rw ==> r == -1
    ensures d.rw && str !in old(d.contents) ==> r == 0
    ensures d.rw && str in old(d.contents) && old(d.contents)[str] != info ==> r == 1
    ensures d.rw && str in old(d.contents) && old(d.contents)[str] == info ==> r == 2
  {
    hide *;
    Answers(d, str, info);
    if !d.rw {
      return -1;
    }
    if d.root == 0 {
      FirstPage(d);
    }
    r := InsertAtRoot(d, str, info);
  }

  /** The answer in terms of what was stored. */
  lemma Answers(d: Dict, str: Key, info: Info)
    requires d.Valid() && info != []
    ensures var r := Outcome(InfoOf(d.contents, str), info);
      && (str !in d.contents ==> r == 0) && (str in d.contents && d.contents[str] != info ==> r == 1)
      && (str in d.contents && d.contents[str] == info ==> r == 2)
  {
  }

  method InsertAtRoot(d: Dict, str: Key, info: Info) returns (r: int)
    requires d.Valid() && d.root != 0 && str != [] && ValidKey(d.cfg, str) && |str| <= d.cfg.maxKey
    requires 1 <= |info| <= d.cfg.maxInfo
    modifies d
    ensures d.Valid() && d.contents == old(d.contents)[str := info]
    ensures r == Outcome(InfoOf(old(d.contents), str), info)
  {
    hide *;
    RootFacts(d, str, info);
    ghost var pages0, path0, root0, contents0 := d.pages, d.path, d.root, d.contents;
    r := DictIns(d, str, d.root, info, {});
    d.contents := contents0[str := info];
    Insertion(d, pages0, path0, root0, str, info, contents0);
  }

  lemma RootFacts(d: Dict, str: Key, info: Info)
    requires d.Valid() && d.root != 0 && str != [] && ValidKey(d.cfg, str) && |str| <= d.cfg.maxKey
    requires 1 <= |info| <= d.cfg.maxInfo
    ensures d.Ok({}) && CanInsert(d.cfg, d.path, d.root, {}, d.root, str, info)
    ensures Find(d.pages, d.root, str) == InfoOf(d.contents, str)
    ensures Denotes(d.pages, d.root, d.contents) && d.root in d.path
  {
    assert d.Get(str) == InfoOf(d.contents, str);
    forall key
      ensures Find(d.pages, d.root, key) == InfoOf(d.contents, key)
    {
      assert d.Get(key) == InfoOf(d.contents, key);
    }
  }

  ghost predicate Denotes(pages: Pages, root: nat, contents: map<Key, Info>) {
    && (forall key :: key in contents ==> contents[key] != [])
    && (forall key :: Find(pages, root, key) == InfoOf(contents, key))
  }

  lemma Insertion(d: Dict, pages0: Pages, path0: Paths, root0: nat, str: Key, info: Info, contents0: map<Key, Info>)
    requires d.Ok({}) && d.root != 0
    requires root0 in path0 && Grown(pages0, path0, d.pages, d.path, path0[root0]) && d.root == root0
    requires Denotes(pages0, d.root, contents0) && info != []
    requires Stored(pages0, d.pages, d.root, str, info)
    requires d.contents == contents0[str := info]
    ensures d.Valid()
  {
    hide StateOk, Find;
  }

  /** The first insertion gives the dictionary its root page. */
  method FirstPage(d: Dict)
    requires d.Valid() && d.root == 0
    modifies d
    ensures d.Valid() && d.root != 0 && d.contents == old(d.contents) && d.path[d.root] == []
  {
    d.root := d.NewPage(0, []);
    EmptyPage(d.pages, d.root);
    forall key
      ensures d.Get(key) == InfoOf(d.contents, key)
    {
      assert old(d.Get(key)) == InfoOf(d.contents, key);
    }
  }

  lemma EmptyPage(pages: Pages, ptr: nat)
    requires ptr in pages && pages[ptr].slots == []
    ensures forall key :: Find(pages, ptr, key) == []
  {
  }
}
