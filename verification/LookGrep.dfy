/** Approximate search of the dictionary: the trie is walked with the levels of the automaton,
  and every stored key within range edits of an accepted word is reported, in order. */
module LookGrep {
  import opened DictPage
  import opened DictTrie
  import opened DictStore
  import opened GrepLevels
  import opened GrepBits

  const MAX_LENGTH := 1024

  datatype Found = Found(key: Key, info: Info)

  // ---------------------------------------------------------------- what matches

  // What is searched for: the automaton, the number of edits, and how many characters at the start
  // of a key must not be edited.
  datatype Goal = Goal(auto: seq<Node>, range: nat, init: nat)

  /** The number of edits allowed in a text of n characters. */
  function Limit(g: Goal, n: nat): nat {
    if n > g.init then g.range else 0
  }

  /** The part of a text that must not be edited. */
  function Start(g: Goal, w: Text): Text {
    if |w| <= g.init then w else w[..g.init]
  }

  /** Some word the automaton knows the beginning of starts like the text. */
  ghost predicate Alive(g: Goal, w: Text) {
    !Dead(g.auto, 0, Start(g, w))
  }

  ghost predicate Takes(g: Goal, w: Text) {
    Accepts(g.auto, Limit(g, |w|), w) && Alive(g, w)
  }

  lemma AliveEmpty(g: Goal)
    ensures Alive(g, [])
  {
    assert Lev([], []) == 0 && Runs(g.auto, [], 0);
    assert Near(g.auto, 0, [], 0);
  }

  lemma AliveStep(g: Goal, w: Text, ch: int)
    requires AutoOk(g.auto) && Alive(g, w) && !Dead(g.auto, Limit(g, |w| + 1), w + [ch])
    ensures Alive(g, w + [ch])
  {
    if |w| >= g.init { assert Start(g, w + [ch]) == Start(g, w); }
  }

  /** When no state is left at the level in use, no text that goes on is taken. */
  lemma DeadTakes(g: Goal, w: Text, v: Text)
    requires AutoOk(g.auto) && Dead(g.auto, Limit(g, |w|), w)
    ensures !Takes(g, w + v)
  {
    if |w| > g.init {
      DeadForever(g.auto, g.range, w, v);
    } else {
      var u := Start(g, w + v)[|w|..];
      assert Start(g, w + v) == w + u;
      DeadForever(g.auto, 0, w, u);
    }
  }

  // ---------------------------------------------------------------- what is to be reported

  /** The key k under page ptr, whose path is x, is stored and close enough. */
  ghost predicate Wanted(pages: Pages, ptr: nat, g: Goal, x: Key, k: Key) {
    Find(pages, ptr, k) != [] && Takes(g, x + k)
  }

  ghost predicate WantedIn(pages: Pages, e: Entry, g: Goal, x: Key, k: Key) {
    k != [] && Compare(e, k) == 0 && EntryFind(pages, e, k) != [] && Takes(g, x + k)
  }

  ghost predicate Ascending(found: seq<Found>) {
    forall i, j :: 0 <= i < j < |found| ==> Less(found[i].key, found[j].key)
  }

  ghost predicate Has(found: seq<Found>, key: Key, info: Info) {
    Found(key, info) in found
  }

  /** The key has been reported, or the search was stopped before it came to it. */
  ghost predicate Seen(found: seq<Found>, stopped: bool, key: Key, info: Info) {
    Has(found, key, info) || (stopped && found != [] && Less(found[|found| - 1].key, key))
  }

  /** What is found from found on was told one by one, until stop answered that it is enough. */
  ghost predicate Told(stop: seq<Found> -> bool, found: seq<Found>, all: seq<Found>, stopped: bool) {
    && found <= all && (stopped ==> |all| > |found|)
    && forall n :: |found| < n <= |all| ==> stop(all[..n]) == (stopped && n == |all|)
  }

  lemma ToldNone(stop: seq<Found> -> bool, found: seq<Found>)
    ensures Told(stop, found, found, false)
  {
  }

  lemma ToldOne(stop: seq<Found> -> bool, found: seq<Found>, f: Found)
    ensures Told(stop, found, found + [f], stop(found + [f]))
  {
    assert (found + [f])[..|found| + 1] == found + [f];
  }

  lemma ToldTrans(stop: seq<Found> -> bool, a: seq<Found>, b: seq<Found>, c: seq<Found>, stopped: bool)
    requires Told(stop, a, b, false) && Told(stop, b, c, stopped)
    ensures Told(stop, a, c, stopped)
  {
    forall n | |a| < n <= |c|
      ensures stop(c[..n]) == (stopped && n == |c|)
    {
      if n <= |b| { assert c[..n] == b[..n]; }
    }
  }

  /** Exactly the wanted keys under page ptr are reported, with their information, in order. */
  ghost predicate Reports(pages: Pages, ptr: nat, g: Goal, x: Key, found: seq<Found>, stopped: bool) {
    && Ascending(found) && (stopped ==> found != [])
    && (forall i :: 0 <= i < |found| ==> IsWanted(pages, ptr, g, x, found[i]))
    && (forall k :: Wanted(pages, ptr, g, x, k) ==> Seen(found, stopped, x + k, Find(pages, ptr, k)))
  }

  ghost predicate IsWanted(pages: Pages, ptr: nat, g: Goal, x: Key, f: Found) {
    x <= f.key && Wanted(pages, ptr, g, x, f.key[|x|..]) && f.info == Find(pages, ptr, f.key[|x|..])
  }

  /** The same for one entry of a page. */
  ghost predicate EntryReports(pages: Pages, e: Entry, g: Goal, x: Key, found: seq<Found>, stopped: bool) {
    && Ascending(found) && (stopped ==> found != [])
    && (forall i :: 0 <= i < |found| ==> IsWantedIn(pages, e, g, x, found[i]))
    && (forall k :: WantedIn(pages, e, g, x, k) ==> Seen(found, stopped, x + k, EntryFind(pages, e, k)))
  }

  ghost predicate IsWantedIn(pages: Pages, e: Entry, g: Goal, x: Key, f: Found) {
    x <= f.key && WantedIn(pages, e, g, x, f.key[|x|..]) && f.info == EntryFind(pages, e, f.key[|x|..])
  }

  /** The same for the first n entries of a page. */
  ghost predicate SlotReports(pages: Pages, slots: seq<Entry>, n: int, g: Goal, x: Key, found: seq<Found>,
                              stopped: bool)
    requires 0 <= n <= |slots|
  {
    && Ascending(found) && (stopped ==> found != [])
    && (forall i :: 0 <= i < |found| ==>
        exists j :: 0 <= j < n && IsWantedIn(pages, slots[j], g, x, found[i]))
    && (forall j, k :: 0 <= j < n && WantedIn(pages, slots[j], g, x, k) ==>
        Seen(found, stopped, x + k, EntryFind(pages, slots[j], k)))
  }

  lemma EntryOrder(a: Entry, b: Entry, k1: Key, k2: Key)
    requires NonEmpty(a) && NonEmpty(b) && EntryLess(a, b) && k1 != [] && k2 != []
    requires Compare(a, k1) == 0 && Compare(b, k2) == 0
    ensures Less(k1, k2)
  {
    CompareZero(a, k1);
    CompareZero(b, k2);
  }

  lemma CompareZero(e: Entry, k: Key)
    requires NonEmpty(e) && k != [] && Compare(e, k) == 0
    ensures k[0] == First(e) && (e.Tail? ==> k == e.str)
  {
  }

  lemma AddPrefix(x: Key, a: Key)
    ensures x <= x + a && (x + a)[|x|..] == a
  {
  }

  lemma PrefixOrder(x: Key, a: Key, b: Key)
    requires x <= a && x <= b && Less(a[|x|..], b[|x|..])
    ensures Less(a, b)
  {
    assert a == x + a[|x|..] && b == x + b[|x|..];
    LessPrefix(x, a[|x|..], b[|x|..]);
  }

  /** Reports of one more entry follow those of the entries before it. */
  lemma SlotOrder(pages: Pages, slots: seq<Entry>, n: nat, g: Goal, x: Key, found: seq<Found>, more: seq<Found>,
                  stopped: bool)
    requires n < |slots| && Sorted(slots) && SlotReports(pages, slots, n, g, x, found, false)
    requires EntryReports(pages, slots[n], g, x, more, stopped)
    ensures Ascending(found + more)
    ensures forall i :: 0 <= i < |found + more| ==>
      exists j :: 0 <= j < n + 1 && IsWantedIn(pages, slots[j], g, x, (found + more)[i])
  {
    var all := found + more;
    forall i, j | 0 <= i < j < |all|
      ensures Less(all[i].key, all[j].key)
    {
      if i < |found| <= j {
        var m :| 0 <= m < n && IsWantedIn(pages, slots[m], g, x, found[i]);
        var f := more[j - |found|];
        assert IsWantedIn(pages, slots[n], g, x, f);
        EntryOrder(slots[m], slots[n], found[i].key[|x|..], f.key[|x|..]);
        PrefixOrder(x, found[i].key, f.key);
      }
    }
    forall i | 0 <= i < |all|
      ensures exists j :: 0 <= j < n + 1 && IsWantedIn(pages, slots[j], g, x, all[i])
    {
      if i < |found| {
        var j :| 0 <= j < n && IsWantedIn(pages, slots[j], g, x, found[i]);
        assert j < n + 1 && IsWantedIn(pages, slots[j], g, x, all[i]);
      } else {
        assert IsWantedIn(pages, slots[n], g, x, all[i]);
      }
    }
  }

  lemma SeenAfter(first: seq<Found>, below: seq<Found>, stopped: bool, key: Key, info: Info)
    requires Seen(below, stopped, key, info)
    ensures Seen(first + below, stopped, key, info)
  {
    hide Less;
    assert below != [] ==> (first + below)[|first + below| - 1] == below[|below| - 1];
  }

  lemma SeenBefore(found: seq<Found>, more: seq<Found>, stopped: bool, key: Key, info: Info)
    requires Seen(found, false, key, info)
    ensures Seen(found + more, stopped, key, info)
  {
  }

  /** What the entries after a stop hold comes after the last report. */
  lemma SlotPast(pages: Pages, slots: seq<Entry>, n: nat, g: Goal, x: Key, f: Found, j: nat, k: Key)
    requires n < j < |slots| && Sorted(slots)
    requires IsWantedIn(pages, slots[n], g, x, f) && WantedIn(pages, slots[j], g, x, k)
    ensures Less(f.key, x + k)
  {
    hide EntryFind, Takes, Less, Compare;
    assert EntryLess(slots[n], slots[j]) && NonEmpty(slots[n]) && NonEmpty(slots[j]);
    EntryOrder(slots[n], slots[j], f.key[|x|..], k);
    AddPrefix(x, k);
    PrefixOrder(x, f.key, x + k);
  }

  lemma WantedKey(pages: Pages, e: Entry, g: Goal, x: Key, k: Key)
    requires WantedIn(pages, e, g, x, k)
    ensures k != []
  {
  }

  lemma SlotSeen(pages: Pages, slots: seq<Entry>, n: nat, g: Goal, x: Key, found: seq<Found>, more: seq<Found>,
                 stopped: bool, j: nat, k: Key)
    requires n < |slots| && Sorted(slots) && SlotReports(pages, slots, n, g, x, found, false)
    requires EntryReports(pages, slots[n], g, x, more, stopped)
    requires j < (if stopped then |slots| else n + 1) && WantedIn(pages, slots[j], g, x, k)
    ensures Seen(found + more, stopped, x + k, EntryFind(pages, slots[j], k))
  {
    hide EntryFind, IsWantedIn, WantedIn, Sorted, Ascending, Less;
    WantedKey(pages, slots[j], g, x, k);
    var info := EntryFind(pages, slots[j], k);
    if j < n {
      SeenBefore(found, more, stopped, x + k, info);
    } else if j == n {
      SeenAfter(found, more, stopped, x + k, info);
    } else {
      SlotPast(pages, slots, n, g, x, more[|more| - 1], j, k);
      assert (found + more)[|found + more| - 1] == more[|more| - 1];
    }
  }

  lemma SlotMore(pages: Pages, slots: seq<Entry>, n: nat, g: Goal, x: Key, found: seq<Found>, more: seq<Found>,
                 stopped: bool)
    requires n < |slots| && Sorted(slots) && SlotReports(pages, slots, n, g, x, found, false)
    requires EntryReports(pages, slots[n], g, x, more, stopped)
    ensures SlotReports(pages, slots, if stopped then |slots| else n + 1, g, x, found + more, stopped)
  {
    SlotOrder(pages, slots, n, g, x, found, more, stopped);
    forall j, k | 0 <= j < (if stopped then |slots| else n + 1) && WantedIn(pages, slots[j], g, x, k)
      ensures Seen(found + more, stopped, x + k, EntryFind(pages, slots[j], k))
    {
      SlotSeen(pages, slots, n, g, x, found, more, stopped, j, k);
    }
    hide IsWantedIn, WantedIn, Seen, EntryFind, Ascending;
  }

  lemma NoSlots(pages: Pages, slots: seq<Entry>, g: Goal, x: Key)
    ensures SlotReports(pages, slots, 0, g, x, [], false)
  {
  }

  lemma AllSlots(cfg: Config, pages: Pages, ptr: nat, depth: nat, g: Goal, x: Key, found: seq<Found>, stopped: bool)
    requires ValidConfig(cfg) && ptr in pages && SlotsOk(cfg, pages[ptr].slots, depth)
    requires SlotReports(pages, pages[ptr].slots, |pages[ptr].slots|, g, x, found, stopped)
    ensures Reports(pages, ptr, g, x, found, stopped)
  {
    var slots := pages[ptr].slots;
    forall i | 0 <= i < |found|
      ensures IsWanted(pages, ptr, g, x, found[i])
    {
      var j :| 0 <= j < |slots| && IsWantedIn(pages, slots[j], g, x, found[i]);
      SlotFindHit(cfg, pages, slots, depth, j, found[i].key[|x|..]);
    }
    forall k | Wanted(pages, ptr, g, x, k)
      ensures Seen(found, stopped, x + k, Find(pages, ptr, k))
    {
      assert Find(pages, ptr, k) == SlotFind(pages, slots, k);
      assert HasHit(slots, k);
      var j :| Hit(slots, j, k);
      SlotFindHit(cfg, pages, slots, depth, j, k);
      assert WantedIn(pages, slots[j], g, x, k);
    }
  }

  /** A tail entry stands for one key. */
  lemma TailReport(pages: Pages, e: Entry, g: Goal, x: Key, matched: bool, stopped: bool)
    requires e.Tail? && e.str != [] && e.info != [] && matched == Takes(g, x + e.str) && (stopped ==> matched)
    ensures EntryReports(pages, e, g, x, if matched then [Found(x + e.str, e.info)] else [], stopped)
  {
    var found := if matched then [Found(x + e.str, e.info)] else [];
    AddPrefix(x, e.str);
    forall k | WantedIn(pages, e, g, x, k)
      ensures Seen(found, stopped, x + k, EntryFind(pages, e, k))
    {
      assert k == e.str;
      assert found[0] == Found(x + k, e.info);
    }
  }

  /** A key comes before the keys it is a proper prefix of. */
  lemma PtrOrder(y: Key, info: Info, below: seq<Found>)
    requires Ascending(below) && forall i :: 0 <= i < |below| ==> y < below[i].key
    ensures Ascending([Found(y, info)] + below)
  {
    var found := [Found(y, info)] + below;
    forall i, j | 0 <= i < j < |found|
      ensures Less(found[i].key, found[j].key)
    {
      if i == 0 {
        var k := below[j - 1].key;
        var rest := k[|y|..];
        assert k == y + rest && y + [] == y;
        LessPrefix(y, [], rest);
      }
    }
  }

  /** What is reported below a pointer entry, when the search comes so far. */
  ghost predicate Below(pages: Pages, e: Entry, g: Goal, x: Key, below: seq<Found>, stopped: bool)
    requires e.Ptr?
  {
    if e.sub == 0 then below == [] && !stopped else Reports(pages, e.sub, g, x + [e.ch], below, stopped)
  }

  lemma PtrWanted(pages: Pages, e: Entry, g: Goal, x: Key, below: seq<Found>, stopped: bool)
    requires e.Ptr? && Below(pages, e, g, x, below, stopped)
    ensures forall i :: 0 <= i < |below| ==> x + [e.ch] < below[i].key && IsWantedIn(pages, e, g, x, below[i])
    ensures Ascending(below)
  {
    forall i | 0 <= i < |below|
      ensures x + [e.ch] < below[i].key && IsWantedIn(pages, e, g, x, below[i])
    {
      BelowWanted(pages, e, g, x, below[i]);
    }
  }

  lemma BelowSeen(pages: Pages, e: Entry, g: Goal, x: Key, below: seq<Found>, stopped: bool, k: Key)
    requires e.Ptr? && e.sub != 0 && Below(pages, e, g, x, below, stopped) && Wanted(pages, e.sub, g, x + [e.ch], k)
    ensures Seen(below, stopped, x + [e.ch] + k, Find(pages, e.sub, k))
  {
    hide Find, Takes, Seen;
  }

  lemma PtrCovers(pages: Pages, e: Entry, g: Goal, x: Key, own: bool, below: seq<Found>, stopped: bool, k: Key)
    requires e.Ptr? && own == (e.info != [] && Takes(g, x + [e.ch])) && WantedIn(pages, e, g, x, k)
    requires Below(pages, e, g, x, below, stopped)
    ensures Seen((if own then [Found(x + [e.ch], e.info)] else []) + below, stopped, x + k, EntryFind(pages, e, k))
  {
    WantedBelow(pages, e, g, x, k);
    hide Find, EntryFind, Takes, Below, WantedIn, Wanted, Less, Compare;
    var first := if own then [Found(x + [e.ch], e.info)] else [];
    if |k| == 1 {
      assert (first + below)[0] == Found(x + k, e.info);
    } else {
      hide Seen;
      BelowSeen(pages, e, g, x, below, stopped, k[1..]);
      SeenAfter(first, below, stopped, x + k, EntryFind(pages, e, k));
    }
  }

  /** A pointer entry stands for its own key, and for the keys under its subpage. */
  lemma PtrReport(pages: Pages, e: Entry, g: Goal, x: Key, own: bool, below: seq<Found>, stopped: bool)
    requires e.Ptr? && own == (e.info != [] && Takes(g, x + [e.ch])) && Below(pages, e, g, x, below, stopped)
    ensures EntryReports(pages, e, g, x, (if own then [Found(x + [e.ch], e.info)] else []) + below, stopped)
  {
    PtrWanted(pages, e, g, x, below, stopped);
    BelowStopped(pages, e, g, x, below, stopped);
    hide Reports, Below, IsWantedIn, Has, Takes, Ascending, EntryFind, Compare, Seen;
    if own {
      OwnWanted(pages, e, g, x);
      PtrOrder(x + [e.ch], e.info, below);
    } else {
      assert [] + below == below;
    }
    forall k | WantedIn(pages, e, g, x, k)
      ensures Seen((if own then [Found(x + [e.ch], e.info)] else []) + below, stopped, x + k, EntryFind(pages, e, k))
    {
      PtrCovers(pages, e, g, x, own, below, stopped, k);
    }
  }

  lemma BelowStopped(pages: Pages, e: Entry, g: Goal, x: Key, below: seq<Found>, stopped: bool)
    requires e.Ptr? && Below(pages, e, g, x, below, stopped)
    ensures stopped ==> below != []
  {
  }

  /** The search was stopped at the own key of a pointer entry. */
  lemma PtrStopped(pages: Pages, e: Entry, g: Goal, x: Key)
    requires e.Ptr? && e.info != [] && Takes(g, x + [e.ch])
    ensures EntryReports(pages, e, g, x, [Found(x + [e.ch], e.info)], true)
  {
    var y := x + [e.ch];
    OwnWanted(pages, e, g, x);
    forall k | WantedIn(pages, e, g, x, k)
      ensures Seen([Found(y, e.info)], true, x + k, EntryFind(pages, e, k))
    {
      WantedBelow(pages, e, g, x, k);
      if |k| > 1 {
        assert y + [] == y && x + k == y + k[1..];
        LessPrefix(y, [], k[1..]);
      } else {
        assert [Found(y, e.info)][0] == Found(x + k, e.info);
      }
    }
  }

  lemma OwnWanted(pages: Pages, e: Entry, g: Goal, x: Key)
    requires e.Ptr? && e.info != [] && Takes(g, x + [e.ch])
    ensures IsWantedIn(pages, e, g, x, Found(x + [e.ch], e.info))
  {
    AddPrefix(x, [e.ch]);
  }

  lemma BelowWanted(pages: Pages, e: Entry, g: Goal, x: Key, f: Found)
    requires e.Ptr? && e.sub != 0 && IsWanted(pages, e.sub, g, x + [e.ch], f)
    ensures x + [e.ch] <= f.key && f.key[|x| + 1..] != [] && IsWantedIn(pages, e, g, x, f)
  {
    var y := x + [e.ch];
    var k := f.key[|x|..];
    assert k == [e.ch] + f.key[|y|..] && k[1..] == f.key[|y|..];
    assert y + f.key[|y|..] == f.key && x + k == f.key;
  }

  lemma WantedBelow(pages: Pages, e: Entry, g: Goal, x: Key, k: Key)
    requires e.Ptr? && WantedIn(pages, e, g, x, k)
    ensures k[0] == e.ch
    ensures |k| == 1 ==>
      k == [e.ch] && e.info != [] && Takes(g, x + [e.ch]) && EntryFind(pages, e, k) == e.info
    ensures |k| > 1 ==> e.sub != 0 && Wanted(pages, e.sub, g, x + [e.ch], k[1..])
    ensures |k| > 1 ==> EntryFind(pages, e, k) == Find(pages, e.sub, k[1..]) && x + k == x + [e.ch] + k[1..]
  {
    assert k == [e.ch] + k[1..];
    assert x + k == x + [e.ch] + k[1..];
  }

  // ---------------------------------------------------------------- the search

  /** Some bit of the row is set. */
  method AnyBit(r: array<Bits>, off: nat, n: nat) returns (b: bool)
    requires Words(r[..]) && off + n <= r.Length
    ensures b <==> exists s: nat :: s / WORD_BITS < n && Bit(r[..], off, s)
  {
    var d := n;
    while d > 0
      invariant 0 <= d <= n
      invariant forall s: nat :: d <= s / WORD_BITS < n ==> !Bit(r[..], off, s)
    {
      d := d - 1;
      var word := r[off + d];
      if i :| 0 <= i < |word| && word[i] {
        assert (d * WORD_BITS + i) / WORD_BITS == d && (d * WORD_BITS + i) % WORD_BITS == i;
        assert Bit(r[..], off, d * WORD_BITS + i);
        return true;
      }
    }
    return false;
  }

  /** Some bit of the row is also set in the mask. */
  method AnyMatch(r: array<Bits>, off: nat, n: nat, mask: seq<Bits>) returns (b: bool)
    requires Words(r[..]) && off + n <= r.Length && Words(mask) && |mask| == n
    ensures b <==> exists s: nat :: s / WORD_BITS < n && Bit(r[..], off, s) && Bit(mask, 0, s)
  {
    var d := n;
    while d > 0
      invariant 0 <= d <= n
      invariant forall s: nat :: d <= s / WORD_BITS < n ==> !(Bit(r[..], off, s) && Bit(mask, 0, s))
    {
      d := d - 1;
      var word, accept := r[off + d], mask[d];
      if i :| 0 <= i < |word| && word[i] && accept[i] {
        assert (d * WORD_BITS + i) / WORD_BITS == d && (d * WORD_BITS + i) % WORD_BITS == i;
        assert Bit(r[..], off, d * WORD_BITS + i) && Bit(mask, 0, d * WORD_BITS + i);
        return true;
      }
    }
    return false;
  }

  /** The mask holds the accepting states. */
  ghost predicate MaskOk(auto: seq<Node>, mask: seq<Bits>, n: nat) {
    && Words(mask) && |mask| == n == (|auto| + WORD_BITS) / WORD_BITS
    && (forall s: nat :: s / WORD_BITS < n ==> (Bit(mask, 0, s) <==> s < |auto| && auto[s].rule != 0))
  }

  lemma DeadRow(auto: seq<Node>, r: seq<Bits>, off: nat, n: nat, d: nat, w: Text)
    requires AutoOk(auto) && LevelAt(auto, r, off, n, d, w) && |auto| <= n * WORD_BITS
    ensures (exists s: nat :: s / WORD_BITS < n && Bit(r, off, s)) <==> !Dead(auto, d, w)
  {
    if !Dead(auto, d, w) {
      var q: nat :| Near(auto, d, w, q);
      StaysInside(auto, d, w, q);
      assert q / WORD_BITS < n && Bit(r, off, q);
    }
  }

  lemma AcceptRow(auto: seq<Node>, r: seq<Bits>, off: nat, n: nat, mask: seq<Bits>, d: nat, w: Text)
    requires AutoOk(auto) && LevelAt(auto, r, off, n, d, w) && |auto| <= n * WORD_BITS && MaskOk(auto, mask, n)
    ensures (exists s: nat :: s / WORD_BITS < n && Bit(r, off, s) && Bit(mask, 0, s)) <==> Accepts(auto, d, w)
  {
    if Accepts(auto, d, w) {
      var q: nat :| Near(auto, d, w, q) && q < |auto| && auto[q].rule != 0;
      assert q / WORD_BITS < n && Bit(r, off, q) && Bit(mask, 0, q);
    }
  }

  /** What is searched for with the sizes of rows: n words a row, fact words for all levels. */
  datatype Context = Context(goal: Goal, n: nat, fact: nat, mask: seq<Bits>)

  ghost predicate ContextOk(c: Context) {
    && AutoOk(c.goal.auto) && MaskOk(c.goal.auto, c.mask, c.n) && c.n == (|c.goal.auto| + WORD_BITS) / WORD_BITS
    && c.fact == (c.goal.range + 1) * c.n
  }

  /** The buffers: levels for each depth, and the key spelled so far. */
  ghost predicate BuffersOk(c: Context, r: array<Bits>, prefix: array<int>)
    reads r
  {
    Words(r[..]) && r.Length == (MAX_LENGTH + 2) * c.fact && prefix.Length == MAX_LENGTH + 1
  }

  lemma Sizes(c: Context, base: nat, len: nat)
    requires ContextOk(c) && base + 3 * c.fact <= len
    ensures Row(base, c.n, c.goal.range) + c.n == base + c.fact
    ensures Row(base + c.fact, c.n, c.goal.range) + c.n == base + 2 * c.fact
    ensures base + 2 * c.fact <= len && (c.goal.range > 0 ==> base + 2 * c.fact + 2 * c.n <= len)
    ensures |c.goal.auto| <= c.n * WORD_BITS
    ensures AutoOk(c.goal.auto) && c.n == (|c.goal.auto| + WORD_BITS) / WORD_BITS
    ensures MaskOk(c.goal.auto, c.mask, c.n) && Words(c.mask)
    ensures |c.mask| == c.n
  {
    RowEnd(base, c.n, c.goal.range);
    RowEnd(base + c.fact, c.n, c.goal.range);
    if c.goal.range > 0 { TwoRows(c.n, c.goal.range); }
  }

  lemma RowEnd(base: nat, n: nat, range: nat)
    ensures Row(base, n, range) + n == base + (range + 1) * n
  {
  }

  lemma TwoRows(n: nat, range: nat)
    requires range > 0
    ensures 2 * n <= (range + 1) * n
  {
    assert (range + 1) * n == (range - 1) * n + 2 * n;
  }

  /** Reads a character from the levels at base into those after them; says whether nothing can
      match any more. */
  method Step(c: Context, r: array<Bits>, base: nat, pos: nat, ch: int, ghost w: Text) returns (dead: bool)
    requires ContextOk(c) && Words(r[..]) && base + 3 * c.fact <= r.Length && pos == |w|
    requires LevelsAt(c.goal.auto, r[..], base, c.n, c.goal.range, w)
    modifies r
    ensures Words(r[..]) && SameBelow(old(r[..]), r[..], base + c.fact)
    ensures LevelsAt(c.goal.auto, r[..], base + c.fact, c.n, c.goal.range, w + [ch])
    ensures dead == Dead(c.goal.auto, Limit(c.goal, pos + 1), w + [ch])
  {
    hide *;
    Sizes(c, base, r.Length);
    Move(c.goal.auto, r, base, base + c.fact, base + 2 * c.fact, c.n, c.goal.range, w, ch);
    var off, range := LevelRow(c, base + c.fact, pos);
    LevelOf(c.goal.auto, r[..], base + c.fact, c.n, c.goal.range, w + [ch], range);
    RowInside(c, base + c.fact, range, r.Length);
    var b := AnyBit(r, off, c.n);
    DeadRow(c.goal.auto, r[..], off, c.n, range, w + [ch]);
    dead := !b;
  }

  /** Where the level in use at character pos starts, in the rows at base, and which it is. */
  method LevelRow(c: Context, base: nat, pos: nat) returns (off: nat, range: nat)
    ensures off == Row(base, c.n, range) && range == Limit(c.goal, pos + 1) && range <= c.goal.range
  {
    range := if pos >= c.goal.init then c.goal.range else 0;
    off := base + range * c.n;
  }

  lemma RowInside(c: Context, base: nat, d: nat, len: nat)
    requires ContextOk(c) && d <= c.goal.range && base + c.fact <= len
    ensures Row(base, c.n, d) + c.n <= len
  {
    Product(d + 1, c.goal.range + 1, c.n);
  }

  /** The text read so far, which ends at character pos, is close enough. */
  method Matched(c: Context, r: array<Bits>, base: nat, pos: nat, ghost w: Text) returns (b: bool)
    requires ContextOk(c) && Words(r[..]) && base + c.fact <= r.Length && |w| == pos + 1
    requires LevelsAt(c.goal.auto, r[..], base, c.n, c.goal.range, w)
    ensures b == Accepts(c.goal.auto, Limit(c.goal, |w|), w)
  {
    hide *;
    Sizes(c, base, base + 3 * c.fact);
    var off, range := LevelRow(c, base, pos);
    LevelOf(c.goal.auto, r[..], base, c.n, c.goal.range, w, range);
    RowInside(c, base, range, r.Length);
    b := AnyMatch(r, off, c.n, c.mask);
    AcceptRow(c.goal.auto, r[..], off, c.n, c.mask, range, w);
  }

  lemma Room(c: Context, pos: nat, len: nat)
    requires pos < MAX_LENGTH && len == (MAX_LENGTH + 2) * c.fact
    ensures pos * c.fact + 3 * c.fact <= len && (pos + 1) * c.fact == pos * c.fact + c.fact
  {
    Product(pos + 3, MAX_LENGTH + 2, c.fact);
  }

  lemma Product(a: nat, b: nat, c: nat)
    requires a <= b
    ensures a * c <= b * c
  {
    assert b * c == a * c + (b - a) * c;
  }

  lemma RoomLast(c: Context, pos: nat, len: nat)
    requires pos <= MAX_LENGTH && len == (MAX_LENGTH + 2) * c.fact
    ensures pos * c.fact + c.fact <= len
  {
    Product(pos + 1, MAX_LENGTH + 2, c.fact);
  }

  /** A tail entry: its string is read character by character until nothing can match or it
      ends, and its key is reported when the last character read was a match. */
  method GrepTail(c: Context, r: array<Bits>, prefix: array<int>, pos: nat, e: Entry, ghost pages: Pages, ghost x: Key,
                  stop: seq<Found> -> bool, found: seq<Found>)
    returns (found': seq<Found>, stopped: bool, ghost more: seq<Found>)
    requires ContextOk(c) && BuffersOk(c, r, prefix) && e.Tail? && e.str != [] && e.info != [] && pos == |x|
    requires pos + |e.str| <= MAX_LENGTH && Alive(c.goal, x) && NoEnd(e.str) && NoEnd(x)
    requires LevelsAt(c.goal.auto, r[..], pos * c.fact, c.n, c.goal.range, x) && prefix[..pos] == x
    modifies r, prefix
    ensures BuffersOk(c, r, prefix) && SameBelow(old(r[..]), r[..], pos * c.fact + c.fact) && prefix[..pos] == x
    ensures found' == found + more && EntryReports(pages, e, c.goal, x, more, stopped)
    ensures Told(stop, found, found', stopped)
  {
    hide *;
    ghost var r0 := r[..];
    BufferSizes(c, r, prefix);
    RowIs(c, pos);
    var base, j, wasMatch := pos * c.fact, 0, false;
    found', stopped, more := found, false, [];
    ToldNone(stop, found);
    BelowSelf(r0, base + c.fact);
    assert x + e.str[..0] == x;
    while true
      invariant 0 <= j <= |e.str| && base == RowAt(c, pos + j) && prefix.Length == MAX_LENGTH + 1
      invariant Words(r[..]) && SameBelow(r0, r[..], RowAt(c, pos) + c.fact) && prefix[..pos + j] == x + e.str[..j]
      invariant LevelsAt(c.goal.auto, r[..], base, c.n, c.goal.range, x + e.str[..j]) && Alive(c.goal, x + e.str[..j])
      invariant wasMatch == (j > 0 && Takes(c.goal, x + e.str[..j]))
      decreases |e.str| - j
    {
      var ch := if j < |e.str| then e.str[j] else EOS;
      ghost var key, w := prefix[..pos + j], x + e.str[..j];
      prefix[pos + j] := ch;
      assert prefix[..pos + j] == key;
      assert prefix[..pos] == key[..pos] == x;
      if ch == EOS {
        EndOf(e.str, j);
        if wasMatch {
          NoEndJoin(x, e.str);
          var name := TextOf(prefix, pos + j);
          var f := Found(name, e.info);
          more, found' := [f], found + [f];
          ToldOne(stop, found, f);
          stopped := stop(found');
        }
        TailReport(pages, e, c.goal, x, wasMatch, stopped);
        assert found' == found + more;
        BuffersAgain(c, r, prefix);
        return;
      }
      RoomAt(c, pos + j, r.Length);
      ghost var r1 := r[..];
      var dead := Step(c, r, base, pos + j, ch, w);
      Spell(x, e.str, j);
      StepBelowAt(c, r0, r1, r[..], pos, j);
      if dead {
        DeadTakes(c.goal, x + e.str[..j + 1], e.str[j + 1..]);
        TailReport(pages, e, c.goal, x, false, false);
        assert found' == found + more;
        BuffersAgain(c, r, prefix);
        return;
      }
      AliveStep(c.goal, w, ch);
      wasMatch := Matched(c, r, base + c.fact, pos + j, x + e.str[..j + 1]);
      TakesIs(c.goal, x + e.str[..j + 1]);
      assert prefix[..pos + (j + 1)] == key + [ch];
      base, j := base + c.fact, j + 1;
    }
  }

  lemma TakesIs(g: Goal, w: Text)
    requires Alive(g, w)
    ensures Takes(g, w) <==> Accepts(g.auto, Limit(g, |w|), w)
  {
  }

  /** Where the levels for a depth are. */
  ghost function RowAt(c: Context, pos: nat): nat {
    pos * c.fact
  }

  lemma RowIs(c: Context, pos: nat)
    ensures RowAt(c, pos) == pos * c.fact
  {
  }

  lemma RoomAt(c: Context, pos: nat, len: nat)
    requires pos < MAX_LENGTH && len == (MAX_LENGTH + 2) * c.fact
    ensures RowAt(c, pos) + 3 * c.fact <= len && RowAt(c, pos + 1) == RowAt(c, pos) + c.fact
  {
    Room(c, pos, len);
  }

  lemma StepBelowAt(c: Context, r0: seq<Bits>, r1: seq<Bits>, r2: seq<Bits>, pos: nat, j: nat)
    requires SameBelow(r0, r1, RowAt(c, pos) + c.fact) && SameBelow(r1, r2, RowAt(c, pos + j) + c.fact)
    ensures SameBelow(r0, r2, RowAt(c, pos) + c.fact)
  {
    hide SameBelow;
    StepBelow(r0, r1, r2, pos * c.fact + c.fact, (pos + j) * c.fact + c.fact, pos, j, c.fact);
  }

  lemma BufferSizes(c: Context, r: array<Bits>, prefix: array<int>)
    requires ContextOk(c) && BuffersOk(c, r, prefix)
    ensures Words(r[..]) && r.Length == (MAX_LENGTH + 2) * c.fact && prefix.Length == MAX_LENGTH + 1
    ensures MAX_LENGTH == 1024 && EOS == 0
    ensures AutoOk(c.goal.auto)
  {
  }

  lemma BuffersAgain(c: Context, r: array<Bits>, prefix: array<int>)
    requires Words(r[..]) && r.Length == (MAX_LENGTH + 2) * c.fact && prefix.Length == MAX_LENGTH + 1
    ensures BuffersOk(c, r, prefix)
  {
  }

  lemma BelowSelf(r: seq<Bits>, bound: nat)
    ensures SameBelow(r, r, bound)
  {
  }

  lemma EndOf(s: Key, j: nat)
    requires j <= |s| && NoEnd(s) && (if j < |s| then s[j] else EOS) == EOS
    ensures j == |s| && s[..j] == s
  {
  }

  lemma Spell(x: Key, s: Key, j: nat)
    requires j < |s|
    ensures x + s[..j] + [s[j]] == x + s[..j + 1] && x + s[..j + 1] + s[j + 1..] == x + s
  {
  }

  lemma StepBelow(r0: seq<Bits>, r1: seq<Bits>, r2: seq<Bits>, bound: nat, more: nat, pos: nat, j: nat, fact: nat)
    requires SameBelow(r0, r1, bound) && SameBelow(r1, r2, more) && bound == pos * fact + fact
    requires more == (pos + j) * fact + fact
    ensures SameBelow(r0, r2, bound)
  {
    Product(pos, pos + j, fact);
    BelowTrans(r0, r1, r2, bound, more);
  }

  /** A pointer entry: its character is read; its own key is reported when it is stored and
      matches, and the search goes on in its subpage. */
  method GrepPtr(d: Dict, c: Context, r: array<Bits>, prefix: array<int>, pos: nat, e: Entry, ghost x: Key,
                 stop: seq<Found> -> bool, found: seq<Found>)
    returns (found': seq<Found>, stopped: bool, ghost more: seq<Found>)
    requires ContextOk(c) && BuffersOk(c, r, prefix) && e.Ptr? && pos == |x| && pos + 1 <= d.cfg.maxKey <= MAX_LENGTH
    requires TrieOk(d.cfg, d.pages, d.path) && (e.sub != 0 ==> e.sub in d.path && d.path[e.sub] == x + [e.ch])
    requires NoEnd(x) && e.ch != EOS
    requires LevelsAt(c.goal.auto, r[..], pos * c.fact, c.n, c.goal.range, x) && prefix[..pos] == x && Alive(c.goal, x)
    modifies r, prefix
    ensures BuffersOk(c, r, prefix) && SameBelow(old(r[..]), r[..], pos * c.fact + c.fact) && prefix[..pos] == x
    ensures found' == found + more && EntryReports(d.pages, e, c.goal, x, more, stopped)
    ensures Told(stop, found, found', stopped)
    decreases d.cfg.maxKey - pos, 0
  {
    hide *;
    ghost var r0 := r[..];
    BufferSizes(c, r, prefix);
    var base := pos * c.fact;
    found', stopped := found, false;
    ToldNone(stop, found);
    NoEndMore(x, e.ch);
    prefix[pos] := e.ch;
    assert prefix[..pos] == x && prefix[..pos + 1] == x + [e.ch];
    Room(c, pos, r.Length);
    var dead := Step(c, r, base, pos, e.ch, x);
    if dead {
      more := [];
      DeadPtr(d.pages, e, c.goal, x);
      assert found' == found + more;
      BuffersAgain(c, r, prefix);
      return;
    }
    AliveStep(c.goal, x, e.ch);
    var own := false;
    if |e.info| != 0 {
      own := Matched(c, r, base + c.fact, pos, x + [e.ch]);
      if own {
        prefix[pos + 1] := EOS;
        assert prefix[..pos + 1] == x + [e.ch];
        var name := TextOf(prefix, pos + 1);
        var f := Found(name, e.info);
        found' := found + [f];
        ToldOne(stop, found, f);
        stopped := stop(found');
      }
    }
    TakesIs(c.goal, x + [e.ch]);
    ghost var r1, mine := r[..], if own then [Found(x + [e.ch], e.info)] else [];
    assert found' == found + mine && prefix[..pos] == x;
    if stopped {
      more := mine;
      PtrStopped(d.pages, e, c.goal, x);
      BuffersAgain(c, r, prefix);
      return;
    }
    ghost var below: seq<Found> := [];
    ghost var found0 := found';
    if e.sub != 0 {
      BuffersAgain(c, r, prefix);
      found', stopped, below := Grep(d, c, r, prefix, pos + 1, e.sub, x + [e.ch], stop, found');
      ToldTrans(stop, found, found0, found', stopped);
      BufferSizes(c, r, prefix);
      BelowTrans(r0, r1, r[..], base + c.fact, base + c.fact + c.fact);
      assert prefix[..pos] == prefix[..pos + 1][..pos] == x;
    }
    more := mine + below;
    assert found' == found + more;
    BelowIs(d.pages, e, c.goal, x, below, stopped);
    PtrReport(d.pages, e, c.goal, x, own, below, stopped);
    BuffersAgain(c, r, prefix);
  }

  lemma BelowIs(pages: Pages, e: Entry, g: Goal, x: Key, below: seq<Found>, stopped: bool)
    requires e.Ptr?
    requires if e.sub == 0 then below == [] && !stopped else Reports(pages, e.sub, g, x + [e.ch], below, stopped)
    ensures Below(pages, e, g, x, below, stopped)
  {
  }

  lemma DeadPtr(pages: Pages, e: Entry, g: Goal, x: Key)
    requires AutoOk(g.auto) && e.Ptr? && Dead(g.auto, Limit(g, |x| + 1), x + [e.ch])
    ensures EntryReports(pages, e, g, x, [], false)
  {
    forall k
      ensures !WantedIn(pages, e, g, x, k)
    {
      if k != [] && Compare(e, k) == 0 {
        assert k == [e.ch] + k[1..] && x + k == x + [e.ch] + k[1..];
        DeadTakes(g, x + [e.ch], k[1..]);
      }
    }
  }

  /** Searches the page ptr, entry by entry, until stop answers that what was reported is enough. */
  method Grep(d: Dict, c: Context, r: array<Bits>, prefix: array<int>, pos: nat, ptr: nat, ghost x: Key,
              stop: seq<Found> -> bool, found: seq<Found>)
    returns (found': seq<Found>, stopped: bool, ghost more: seq<Found>)
    requires ContextOk(c) && BuffersOk(c, r, prefix) && pos == |x| <= d.cfg.maxKey <= MAX_LENGTH
    requires TrieOk(d.cfg, d.pages, d.path) && ptr in d.path && d.path[ptr] == x && Alive(c.goal, x) && NoEnd(x)
    requires LevelsAt(c.goal.auto, r[..], pos * c.fact, c.n, c.goal.range, x) && prefix[..pos] == x
    modifies r, prefix
    ensures BuffersOk(c, r, prefix) && SameBelow(old(r[..]), r[..], pos * c.fact + c.fact) && prefix[..pos] == x
    ensures found' == found + more && Reports(d.pages, ptr, c.goal, x, more, stopped)
    ensures Told(stop, found, found', stopped)
    decreases d.cfg.maxKey - pos, 1
  {
    hide *;
    ghost var r0 := r[..];
    BufferSizes(c, r, prefix);
    PageSlots(d.cfg, d.pages, d.path, ptr);
    LivePage(d.cfg, d.pages, d.path, ptr);
    var slots := d.pages[ptr].slots;
    found', stopped, more := found, false, [];
    ToldNone(stop, found);
    NoSlots(d.pages, slots, c.goal, x);
    BelowSelf(r0, pos * c.fact + c.fact);
    var lo, hi := 0, |slots| - 1;
    while lo <= hi
      invariant 0 <= lo <= |slots| == hi + 1 && BuffersOk(c, r, prefix) && prefix[..pos] == x && !stopped
      invariant SameBelow(r0, r[..], pos * c.fact + c.fact) && found' == found + more
      invariant SlotReports(d.pages, slots, lo, c.goal, x, more, false) && Told(stop, found, found', false)
    {
      var e := slots[lo];
      EntryParts(d.cfg, slots, d.path, x, lo);
      ghost var r1, found1, next: seq<Found> := r[..], found', [];
      LevelsStay(c, r0, r1, pos, x);
      if e.Tail? {
        found', stopped, next := GrepTail(c, r, prefix, pos, e, d.pages, x, stop, found');
      } else {
        found', stopped, next := GrepPtr(d, c, r, prefix, pos, e, x, stop, found');
      }
      SlotMore(d.pages, slots, lo, c.goal, x, more, next, stopped);
      ToldTrans(stop, found, found1, found', stopped);
      BelowTrans(r0, r1, r[..], pos * c.fact + c.fact, pos * c.fact + c.fact);
      assert found + more + next == found + (more + next);
      more := more + next;
      if stopped {
        AllSlots(d.cfg, d.pages, ptr, |x|, c.goal, x, more, true);
        return;
      }
      lo := lo + 1;
    }
    AllSlots(d.cfg, d.pages, ptr, |x|, c.goal, x, more, false);
  }

  lemma LivePage(cfg: Config, pages: Pages, path: Paths, ptr: nat)
    requires TrieOk(cfg, pages, path) && ptr in path
    ensures ptr in pages && ptr != 0
  {
  }

  lemma EntryParts(cfg: Config, slots: seq<Entry>, path: Paths, x: Key, i: nat)
    requires ValidConfig(cfg) && SlotsOk(cfg, slots, |x|) && SubsOk(slots, path, x) && i < |slots|
    ensures Sorted(slots)
    ensures slots[i].Tail? ==> slots[i].str != [] && slots[i].info != [] && |x| + |slots[i].str| <= cfg.maxKey
    ensures if slots[i].Tail? then NoEnd(slots[i].str) else slots[i].ch != EOS && |x| + 1 <= cfg.maxKey
    ensures slots[i].Ptr? && slots[i].sub != 0 ==> slots[i].sub in path && path[slots[i].sub] == x + [slots[i].ch]
  {
    assert EntryOk(cfg, slots[i], |x|);
  }

  lemma LevelsStay(c: Context, r0: seq<Bits>, r1: seq<Bits>, pos: nat, x: Key)
    requires ContextOk(c) && LevelsAt(c.goal.auto, r0, pos * c.fact, c.n, c.goal.range, x)
    requires SameBelow(r0, r1, pos * c.fact + c.fact)
    ensures LevelsAt(c.goal.auto, r1, pos * c.fact, c.n, c.goal.range, x)
  {
    RowEnd(pos * c.fact, c.n, c.goal.range);
    LevelsKept(c.goal.auto, r0, r1, pos * c.fact + c.fact, pos * c.fact, c.n, c.goal.range, x);
  }
}
