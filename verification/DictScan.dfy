/** Scanning the keys around a term: the first ones from the term on, and the last ones before it. */
module DictScan {
  import opened DictPage
  import opened DictTrie
  import opened DictStore
  import opened DictList

  // ---------------------------------------------------------------- parts of lists

  // A call of the function that is given: the key and its information, and the number of keys still
  // wanted, negative for those before the term. An answer other than 0 ends the scan in that direction.
  datatype Call = Call(item: Item, pos: int)
  type Stop = (Item, int) -> bool

  // The calls made, and how many keys are still wanted.
  datatype Told = Told(found: seq<Call>, left: nat)

  function After(f: Item, count: nat, dir: int, stop: Stop): Told
    requires count > 0
  {
    Told([Call(f, count * dir)], if stop(f, count * dir) then 0 else count - 1)
  }

  ghost function Then(a: Told, b: Told): Told {
    Told(a.found + b.found, b.left)
  }

  /** The calls for the first count items of a list, up to one that ends the scan. */
  ghost function Take(s: seq<Item>, count: nat, dir: int, stop: Stop): Told
    decreases |s|
  {
    if s == [] || count == 0 then Told([], count)
    else
      var one := After(s[0], count, dir, stop);
      Then(one, Take(s[1..], one.left, dir, stop))
  }

  ghost function Rev(s: seq<Item>): seq<Item> {
    if s == [] then [] else Rev(s[1..]) + [s[0]]
  }

  lemma {:induction false} TakeMore(a: seq<Item>, b: seq<Item>, count: nat, dir: int, stop: Stop)
    ensures var first := Take(a, count, dir, stop);
      Take(a + b, count, dir, stop) == Then(first, Take(b, first.left, dir, stop))
    decreases |a|
  {
    if a == [] || count == 0 {
      assert a + b == if a == [] then b else a + b;
      TakeNone(b, count, dir, stop);
    } else {
      var one := After(a[0], count, dir, stop);
      assert (a + b)[1..] == a[1..] + b && (a + b)[0] == a[0];
      TakeMore(a[1..], b, one.left, dir, stop);
      var rest := Take(a[1..], one.left, dir, stop);
      ThenThen(one, rest, Take(b, rest.left, dir, stop));
    }
  }

  lemma TakeNone(s: seq<Item>, count: nat, dir: int, stop: Stop)
    ensures count == 0 ==> Take(s, count, dir, stop) == Told([], 0)
    ensures Then(Told([], count), Take(s, count, dir, stop)) == Take(s, count, dir, stop)
  {
  }

  lemma ThenThen(a: Told, b: Told, c: Told)
    ensures Then(Then(a, b), c) == Then(a, Then(b, c))
  {
  }

  /** The calls made for the items side: one for each of the first items, with what is still wanted at
      the time; an answer other than 0 stands at the last call only, and then nothing more is wanted;
      without one there are as many calls as wanted, or as there are items. */
  ghost predicate Reported(side: seq<Item>, count: nat, dir: int, stop: Stop, calls: seq<Call>, left: nat) {
    && |calls| <= |side| && |calls| <= count
    && (forall i :: 0 <= i < |calls| ==> calls[i] == Call(side[i], (count - i) * dir))
    && (forall i :: 0 <= i < |calls| && Ends(calls[i], stop) ==> i == |calls| - 1 && left == 0)
    && ((forall i :: 0 <= i < |calls| ==> !Ends(calls[i], stop)) ==>
        |calls| == (if count <= |side| then count else |side|) && left == count - |calls|)
  }

  /** The call was answered with something other than 0. */
  ghost predicate Ends(c: Call, stop: Stop) {
    stop(c.item, c.pos)
  }

  lemma {:induction false} TakeReported(s: seq<Item>, count: nat, dir: int, stop: Stop)
    ensures var told := Take(s, count, dir, stop); Reported(s, count, dir, stop, told.found, told.left)
    decreases |s|
  {
    if s != [] && count > 0 {
      var one := After(s[0], count, dir, stop);
      var rest := Take(s[1..], one.left, dir, stop);
      TakeReported(s[1..], one.left, dir, stop);
      ReportedMore(s, count, dir, stop, one, rest);
    }
  }

  lemma ReportedMore(s: seq<Item>, count: nat, dir: int, stop: Stop, one: Told, rest: Told)
    requires s != [] && count > 0 && one == After(s[0], count, dir, stop)
    requires Reported(s[1..], one.left, dir, stop, rest.found, rest.left)
    ensures Reported(s, count, dir, stop, one.found + rest.found, rest.left)
  {
    var calls, first := one.found + rest.found, one.found[0];
    assert Ends(first, stop) ==> rest.found == [];
    forall i | 0 <= i < |calls|
      ensures i > 0 ==> calls[i] == rest.found[i - 1]
      ensures calls[i] == Call(s[i], (count - i) * dir)
    {
      if i > 0 {
        var j := i - 1;
        assert rest.found[j] == Call(s[1..][j], (one.left - j) * dir);
        assert one.left - j == count - i;
      }
    }
    if forall i :: 0 <= i < |calls| ==> !Ends(calls[i], stop) {
      assert calls[0] == first;
      forall i | 0 <= i < |rest.found|
        ensures !Ends(rest.found[i], stop)
      {
        assert calls[i + 1] == rest.found[i];
      }
    }
  }

  /** The last items before the place k of a term, backwards. */
  ghost function Backwards(s: seq<Item>, k: nat): (r: seq<Item>)
    requires k <= |s|
    ensures |r| == k && forall i :: 0 <= i < k ==> r[i] == s[k - 1 - i]
  {
    seq(k, i requires 0 <= i < k => s[k - 1 - i])
  }

  lemma {:induction false} RevBackwards(s: seq<Item>)
    ensures Rev(s) == Backwards(s, |s|)
  {
    if s != [] {
      var t := s[1..];
      RevBackwards(t);
      var r, b := Rev(t), Backwards(s, |s|);
      hide Rev, Backwards;
      forall i | 0 <= i < |s|
        ensures (r + [s[0]])[i] == b[i]
      {
        if i < |t| { assert r[i] == t[|t| - 1 - i]; }
      }
      assert r + [s[0]] == b;
    }
  }

  lemma {:induction false} RevJoin(a: seq<Item>, b: seq<Item>)
    ensures Rev(a + b) == Rev(b) + Rev(a)
  {
    if a == [] {
      assert a + b == b;
    } else {
      assert (a + b)[1..] == a[1..] + b;
      RevJoin(a[1..], b);
    }
  }

  /** The keys of the slots of page ptr from slot n on. */
  ghost function SlotsFrom(cfg: Config, pages: Pages, path: Paths, ptr: nat, n: nat): seq<Item>
    requires TrieOk(cfg, pages, path) && ptr in path && n <= |pages[ptr].slots|
    decreases |pages[ptr].slots| - n
  {
    if n == |pages[ptr].slots| then []
      else EntryList(cfg, pages, path, ptr, n) + SlotsFrom(cfg, pages, path, ptr, n + 1)
  }

  lemma {:induction false} ListCut(cfg: Config, pages: Pages, path: Paths, ptr: nat, n: nat)
    requires TrieOk(cfg, pages, path) && ptr in path && n <= |pages[ptr].slots|
    ensures List(cfg, pages, path, ptr) == SlotList(cfg, pages, path, ptr, n) + SlotsFrom(cfg, pages, path, ptr, n)
    decreases |pages[ptr].slots| - n
  {
    hide EntryList;
    if n < |pages[ptr].slots| {
      ListCut(cfg, pages, path, ptr, n + 1);
      var a, b, c := SlotList(cfg, pages, path, ptr, n), EntryList(cfg, pages, path, ptr, n), SlotsFrom(cfg, pages,
                              path, ptr, n + 1);
      assert (a + b) + c == a + (b + c);
    }
  }

  /** What is to be reported of a list, in which direction. */
  ghost function Wanted(s: seq<Item>, count: nat, dir: int, stop: Stop): Told {
    Take(if dir > 0 then s else Rev(s), count, dir, stop)
  }

  lemma OneWanted(f: Item, count: nat, dir: int, stop: Stop)
    ensures Wanted([f], count, dir, stop) == if count > 0 then After(f, count, dir, stop) else Told([], count)
    ensures Wanted([], count, dir, stop) == Told([], count)
  {
    assert Rev([f][1..]) == [];
    assert Rev([f]) == [f];
    if count > 0 {
      var one := After(f, count, dir, stop);
      assert Take([f][1..], one.left, dir, stop) == Told([], one.left);
      assert Then(one, Told([], one.left)) == one;
    }
  }

  /** The parts of a list are reported one after the other. */
  lemma WantedJoin(a: seq<Item>, b: seq<Item>, count: nat, dir: int, stop: Stop)
    ensures dir > 0 ==> var first := Wanted(a, count, dir, stop);
      Wanted(a + b, count, dir, stop) == Then(first, Wanted(b, first.left, dir, stop))
    ensures dir <= 0 ==> var first := Wanted(b, count, dir, stop);
      Wanted(a + b, count, dir, stop) == Then(first, Wanted(a, first.left, dir, stop))
  {
    RevJoin(a, b);
    if dir > 0 { TakeMore(a, b, count, dir, stop); } else { TakeMore(Rev(b), Rev(a), count, dir, stop); }
  }

  // ---------------------------------------------------------------- scanning in one direction

  lemma PageParts(cfg: Config, pages: Pages, path: Paths, ptr: nat)
    requires TrieOk(cfg, pages, path) && ptr in path
    ensures ptr in pages && List(cfg, pages, path, ptr) == SlotList(cfg, pages, path, ptr, |pages[ptr].slots|)
    ensures SlotList(cfg, pages, path, ptr, 0) == [] && SlotsFrom(cfg, pages, path, ptr, |pages[ptr].slots|) == []
    ensures SlotsFrom(cfg, pages, path, ptr, 0) == List(cfg, pages, path, ptr)
    ensures SlotsOk(cfg, pages[ptr].slots, |path[ptr]|) && ValidConfig(cfg)
  {
    ListCut(cfg, pages, path, ptr, 0);
    PageSlots(cfg, pages, path, ptr);
  }

  lemma EntryParts(cfg: Config, pages: Pages, path: Paths, ptr: nat, i: nat)
    requires TrieOk(cfg, pages, path) && ptr in path && ptr in pages && i < |pages[ptr].slots|
    ensures var e, x := pages[ptr].slots[i], path[ptr];
      && (e.Tail? ==> && |x| + |e.str| <= cfg.maxKey && e.info != [] && e.str != []
                      && NoEnd(e.str)
                      && EntryList(cfg, pages, path, ptr, i) == [Item(x + e.str, e.info)])
      && (e.Ptr? ==> && |x| < cfg.maxKey && e.ch != EOS
                     && (e.sub != 0 ==> e.sub in path && e.sub in pages && path[e.sub] == x + [e.ch])
                     && EntryList(cfg, pages, path, ptr, i)
                        == Own(x + [e.ch], e.info) + if e.sub == 0 then [] else List(cfg, pages, path, e.sub))
    ensures var i1 := i + 1;
      && SlotList(cfg, pages, path, ptr, i1) == SlotList(cfg, pages, path, ptr, i) + EntryList(cfg, pages, path, ptr, i)
      && SlotsFrom(cfg, pages, path, ptr, i) == EntryList(cfg, pages, path, ptr, i) + SlotsFrom(cfg, pages, path, ptr,
                                                                                                i1)
  {
    EntryAt(cfg, pages, path, ptr, i);
    hide TrieOk;
  }

  lemma HeightLess(cfg: Config, n: nat)
    requires n < cfg.maxKey
    ensures Height(cfg, n + 1) < Height(cfg, n)
  {
  }

  lemma OwnIs(key: Key, info: Info)
    ensures Own(key, info) == if info == [] then [] else [Item(key, info)]
  {
  }

  /** Reports what slot i of page ptr holds. The name is spelled in str, after that of the page. */
  method ScanEntry(d: Dict, ptr: nat, i: nat, pos: nat, str: array<int>, count: nat, dir: int, stop: Stop)
    returns (left: nat, found: seq<Call>)
    requires TrieOk(d.cfg, d.pages, d.path) && ptr in d.path && ptr in d.pages && i < |d.pages[ptr].slots| && count > 0
    requires (dir == 1 || dir == -1)
    requires str.Length > d.cfg.maxKey && pos == |d.path[ptr]| < str.Length && str[..pos] == d.path[ptr]
    requires NoEnd(d.path[ptr])
    modifies str
    ensures str[..pos] == old(str[..pos])
    ensures Told(found, left) == Wanted(EntryList(d.cfg, d.pages, d.path, ptr, i), count, dir, stop)
    decreases Height(d.cfg, pos), 1
  {
    hide *;
    EntryParts(d.cfg, d.pages, d.path, ptr, i);
    ghost var x := d.path[ptr];
    var e := d.pages[ptr].slots[i];
    match e
    case Tail(s, info) =>
      Spell(str, pos, s, x);
      OneWanted(Item(x + s, info), count, dir, stop);
      NoEndJoin(x, s);
      var name := TextOf(str, pos + |s|);
      left, found := Report(Item(name, info), count, dir, stop);
    case Ptr(_, _, _) =>
      BelowIs(d.cfg, d.pages, d.path, e);
      left, found := ScanPtr(d, pos, str, e, count, dir, stop, x);
  }

  /** Calls the function that is given. */
  method Report(f: Item, count: nat, dir: int, stop: Stop) returns (left: nat, found: seq<Call>)
    requires count > 0
    ensures Told(found, left) == After(f, count, dir, stop)
  {
    found := [Call(f, count * dir)];
    if stop(f, count * dir) {
      left := 0;
    } else {
      left := count - 1;
    }
  }

  /** Reports what a pointer entry holds: its own key comes before those of its subpage. */
  method ScanPtr(d: Dict, pos: nat, str: array<int>, e: Entry, count: nat, dir: int, stop: Stop, ghost x: Key)
    returns (left: nat, found: seq<Call>)
    requires TrieOk(d.cfg, d.pages, d.path) && e.Ptr? && count > 0 && (dir == 1 || dir == -1)
    requires pos == |x| < d.cfg.maxKey < str.Length && str[..pos] == x && NoEnd(x) && e.ch != EOS
    requires e.sub != 0 ==> e.sub in d.path && e.sub in d.pages && d.path[e.sub] == x + [e.ch]
    modifies str
    ensures str[..pos] == x
    ensures Told(found, left) == Wanted(Own(x + [e.ch], e.info) + Below(d.cfg, d.pages, d.path, e), count, dir, stop)
    decreases Height(d.cfg, pos), 0
  {
    hide *;
    left, found := count, [];
    NoEndMore(x, e.ch);
    str[pos] := e.ch;
    assert str[..pos] == x && str[..pos + 1] == x + [e.ch];
    ghost var item, own, below := Item(x + [e.ch], e.info), Own(x + [e.ch], e.info), Below(d.cfg, d.pages, d.path, e);
    OwnIs(x + [e.ch], e.info);
    BelowIs(d.cfg, d.pages, d.path, e);
    WantedJoin(own, below, count, dir, stop);
    OneWanted(item, count, dir, stop);
    if dir > 0 && |e.info| != 0 {
      str[pos + 1] := EOS;
      assert str[..pos + 1] == x + [e.ch];
      var name := TextOf(str, pos + 1);
      left, found := Report(Item(name, e.info), left, dir, stop);
    }
    ghost var first, most := found, left;
    var more := [];
    if left > 0 && e.sub != 0 {
      HeightLess(d.cfg, pos);
      OnwardAll(d.cfg, d.pages, d.path, e.sub, left, stop);
      left, more := ScanDirection(d, e.sub, pos + 1, str, -1, left, dir, stop);
      assert str[..pos] == str[..pos + 1][..pos] == x;
    } else {
      NoneWanted(below, left, dir, stop);
    }
    assert Told(more, left) == Wanted(below, most, dir, stop);
    found := found + more;
    OneWanted(item, left, dir, stop);
    ThenIs(Told(first, most), Told(more, left));
    ghost var middle := left;
    var last := [];
    if left > 0 && dir <= 0 && |e.info| != 0 {
      str[pos + 1] := EOS;
      assert str[..pos + 1] == x + [e.ch];
      var name := TextOf(str, pos + 1);
      left, last := Report(Item(name, e.info), left, dir, stop);
    }
    ThenIs(Told(more, middle), Told(last, left));
    assert [] + more == more && more + [] == more;
    found := found + last;
  }

  lemma ThenIs(a: Told, b: Told)
    ensures Then(a, b) == Told(a.found + b.found, b.left)
  {
  }

  ghost function Below(cfg: Config, pages: Pages, path: Paths, e: Entry): seq<Item>
    requires TrieOk(cfg, pages, path) && e.Ptr? && (e.sub != 0 ==> e.sub in path)
  {
    if e.sub == 0 then [] else List(cfg, pages, path, e.sub)
  }

  lemma BelowIs(cfg: Config, pages: Pages, path: Paths, e: Entry)
    requires TrieOk(cfg, pages, path) && e.Ptr? && (e.sub != 0 ==> e.sub in path)
    ensures Below(cfg, pages, path, e) == if e.sub == 0 then [] else List(cfg, pages, path, e.sub)
  {
  }

  lemma NoneWanted(s: seq<Item>, count: nat, dir: int, stop: Stop)
    requires s == [] || count == 0
    ensures Wanted(s, count, dir, stop) == Told([], count)
  {
  }

  /** Writes s and an end mark into str. */
  method Spell(str: array<int>, pos: nat, s: Key, ghost x: Key)
    requires pos + |s| < str.Length && str[..pos] == x
    modifies str
    ensures str[..pos + |s|] == x + s && str[pos + |s|] == EOS && str[..pos] == x
  {
    var j := 0;
    while j < |s|
      invariant 0 <= j <= |s| && str[..pos + j] == x + s[..j]
    {
      ghost var was := str[..pos + j];
      str[pos + j] := s[j];
      assert str[..pos + (j + 1)] == was + [s[j]];
      j := j + 1;
    }
    ghost var all := str[..pos + j];
    str[pos + j] := EOS;
    assert s[..j] == s && str[..pos + j] == all && str[..pos] == all[..pos];
  }

  /** What is to be reported of the slots of a page from slot lo on, or from slot lo back. */
  ghost function Onward(cfg: Config, pages: Pages, path: Paths, ptr: nat, lo: int, count: nat, dir: int,
                        stop: Stop): Told
    requires TrieOk(cfg, pages, path) && ptr in path && -1 <= lo <= |pages[ptr].slots|
  {
    if dir > 0 && 0 <= lo then Wanted(SlotsFrom(cfg, pages, path, ptr, lo), count, 1, stop)
    else if dir < 0 && lo < |pages[ptr].slots| then Wanted(SlotList(cfg, pages, path, ptr, lo + 1), count, -1, stop)
    else Told([], count)
  }

  /** First what slot lo holds, then the others. */
  lemma OnwardStep(cfg: Config, pages: Pages, path: Paths, ptr: nat, lo: nat, count: nat, dir: int, stop: Stop)
    requires TrieOk(cfg, pages, path) && ptr in path && ptr in pages && lo < |pages[ptr].slots|
    requires dir == 1 || dir == -1
    ensures var here := Wanted(EntryList(cfg, pages, path, ptr, lo), count, dir, stop);
      Onward(cfg, pages, path, ptr, lo, count, dir, stop)
        == Then(here, Onward(cfg, pages, path, ptr, lo + dir, here.left, dir, stop))
  {
    hide *;
    EntryParts(cfg, pages, path, ptr, lo);
    OnwardAt(cfg, pages, path, ptr, lo, count, stop);
    var here := Wanted(EntryList(cfg, pages, path, ptr, lo), count, dir, stop);
    if dir > 0 {
      WantedJoin(EntryList(cfg, pages, path, ptr, lo), SlotsFrom(cfg, pages, path, ptr, lo + 1), count, dir, stop);
      OnwardAt(cfg, pages, path, ptr, lo + 1, here.left, stop);
    } else {
      WantedJoin(SlotList(cfg, pages, path, ptr, lo), EntryList(cfg, pages, path, ptr, lo), count, dir, stop);
      var before: int := lo;
      OnwardAt(cfg, pages, path, ptr, before - 1, here.left, stop);
    }
  }

  lemma OnwardAt(cfg: Config, pages: Pages, path: Paths, ptr: nat, lo: int, count: nat, stop: Stop)
    requires TrieOk(cfg, pages, path) && ptr in path && ptr in pages && -1 <= lo <= |pages[ptr].slots|
    ensures lo >= 0 ==>
      Onward(cfg, pages, path, ptr, lo, count, 1, stop) == Wanted(SlotsFrom(cfg, pages, path, ptr, lo), count, 1, stop)
    ensures lo < |pages[ptr].slots| ==>
      Onward(cfg, pages, path, ptr, lo, count, -1, stop)
        == Wanted(SlotList(cfg, pages, path, ptr, lo + 1), count, -1, stop)
  {
    hide Wanted, SlotsFrom, SlotList;
  }

  lemma OnwardEnd(cfg: Config, pages: Pages, path: Paths, ptr: nat, lo: int, count: nat, dir: int, stop: Stop)
    requires TrieOk(cfg, pages, path) && ptr in path && -1 <= lo <= |pages[ptr].slots|
    requires count == 0 || lo == -1 || lo == |pages[ptr].slots|
    ensures Onward(cfg, pages, path, ptr, lo, count, dir, stop) == Told([], count)
  {
    PageParts(cfg, pages, path, ptr);
    if dir > 0 && 0 <= lo { NoneWanted(SlotsFrom(cfg, pages, path, ptr, lo), count, 1, stop); }
    if dir < 0 && lo < |pages[ptr].slots| { NoneWanted(SlotList(cfg, pages, path, ptr, lo + 1), count, -1, stop); }
    hide Wanted;
  }

  /** Reports the keys of a page from a slot on, or from a slot back; -1 stands for all slots. */
  method ScanDirection(d: Dict, ptr: nat, pos: nat, str: array<int>, start: int, count: nat, dir: int, stop: Stop)
    returns (left: nat, found: seq<Call>)
    requires TrieOk(d.cfg, d.pages, d.path) && ptr in d.path && ptr in d.pages && -1 <= start && (dir == 1 || dir == -1)
    requires start < |d.pages[ptr].slots| || (dir == 1 && start == |d.pages[ptr].slots|)
    requires str.Length > d.cfg.maxKey && pos == |d.path[ptr]| < str.Length && str[..pos] == d.path[ptr]
    requires NoEnd(d.path[ptr])
    modifies str
    ensures str[..pos] == old(str[..pos])
    ensures var lo := if start != -1 then start else if dir == -1 then |d.pages[ptr].slots| - 1 else 0;
      Told(found, left) == Onward(d.cfg, d.pages, d.path, ptr, lo, count, dir, stop)
    decreases Height(d.cfg, pos), 2
  {
    hide *;
    PageParts(d.cfg, d.pages, d.path, ptr);
    var hi := |d.pages[ptr].slots| - 1;
    var lo := if start != -1 then start else if dir == -1 then hi else 0;
    left, found := count, [];
    ghost var goal := Onward(d.cfg, d.pages, d.path, ptr, lo, count, dir, stop);
    ThenIs(Told([], count), goal);
    assert [] + goal.found == goal.found;
    while 0 <= lo <= hi && left > 0
      invariant -1 <= lo <= hi + 1 && str[..pos] == d.path[ptr]
      invariant goal == Then(Told(found, left), Onward(d.cfg, d.pages, d.path, ptr, lo, left, dir, stop))
      decreases if dir > 0 then hi - lo + 1 else lo + 1
    {
      OnwardStep(d.cfg, d.pages, d.path, ptr, lo, left, dir, stop);
      ghost var was := Told(found, left);
      var more;
      left, more := ScanEntry(d, ptr, lo, pos, str, left, dir, stop);
      found := found + more;
      lo := lo + dir;
      ThenThen(was, Told(more, left), Onward(d.cfg, d.pages, d.path, ptr, lo, left, dir, stop));
      ThenIs(was, Told(more, left));
    }
    OnwardEnd(d.cfg, d.pages, d.path, ptr, lo, left, dir, stop);
    ThenIs(Told(found, left), Told([], left));
    assert found + [] == found;
  }

  /** All of a page. */
  lemma OnwardAll(cfg: Config, pages: Pages, path: Paths, ptr: nat, count: nat, stop: Stop)
    requires TrieOk(cfg, pages, path) && ptr in path && ptr in pages
    ensures Onward(cfg, pages, path, ptr, 0, count, 1, stop) == Wanted(List(cfg, pages, path, ptr), count, 1, stop)
    ensures var last := |pages[ptr].slots| - 1;
      Onward(cfg, pages, path, ptr, last, count, -1, stop) == Wanted(List(cfg, pages, path, ptr), count, -1, stop)
  {
    hide *;
    PageParts(cfg, pages, path, ptr);
    OnwardAt(cfg, pages, path, ptr, 0, count, stop);
    OnwardAt(cfg, pages, path, ptr, |pages[ptr].slots| - 1, count, stop);
  }

  // ---------------------------------------------------------------- around a term

  /** The first k items are the ones before key. */
  ghost predicate Splits(s: seq<Item>, k: int, key: Key) {
    && 0 <= k <= |s| && (forall i :: 0 <= i < k ==> Less(s[i].key, key))
    && forall i :: k <= i < |s| ==> !Less(s[i].key, key)
  }

  /** The last before items of the first k, backwards, and the first after items of the others. An
      answer that ends the scan ends it in its own direction only. */
  ghost predicate Around(s: seq<Item>, k: int, before: nat, after: nat, stop: Stop, befores: Told, afters: Told) {
    0 <= k <= |s| && befores == Wanted(s[..k], before, -1, stop) && afters == Wanted(s[k..], after, 1, stop)
  }

  lemma SplitsJoin(a: seq<Item>, b: seq<Item>, kb: int, c: seq<Item>, key: Key)
    requires Splits(b, kb, key) && (forall f :: f in a ==> Less(f.key, key)) && forall f :: f in c ==> !Less(f.key, key)
    ensures Splits(a + b + c, |a| + kb, key) && (a + b + c)[..|a| + kb] == a + b[..kb]
    ensures (a + b + c)[|a| + kb..] == b[kb..] + c
  {
    var s := a + b + c;
    forall i | 0 <= i < |s|
      ensures Less(s[i].key, key) <==> i < |a| + kb
    {
      if i < |a| { assert s[i] in a; }
      else if i < |a| + |b| { assert s[i] == b[i - |a|]; }
      else { assert s[i] in c; }
    }
  }

  lemma FromOne(cfg: Config, pages: Pages, path: Paths, ptr: nat, n: nat, f: Item)
    requires TrieOk(cfg, pages, path) && ptr in path && n <= |pages[ptr].slots|
    requires f in SlotsFrom(cfg, pages, path, ptr, n)
    ensures n < |pages[ptr].slots|
    ensures f in EntryList(cfg, pages, path, ptr, n) || f in SlotsFrom(cfg, pages, path, ptr, n + 1)
  {
    hide EntryList, TrieOk;
  }

  lemma {:induction false} FromStored(cfg: Config, pages: Pages, path: Paths, ptr: nat, n: nat, f: Item)
    requires TrieOk(cfg, pages, path) && ptr in path && n <= |pages[ptr].slots|
    requires f in SlotsFrom(cfg, pages, path, ptr, n)
    ensures exists i: nat :: n <= i < |pages[ptr].slots| && InEntry(cfg, pages, path, ptr, i, f)
    decreases |pages[ptr].slots| - n
  {
    FromOne(cfg, pages, path, ptr, n, f);
    EntryStored(cfg, pages, path, ptr, n);
    hide *;
    if f !in EntryList(cfg, pages, path, ptr, n) { FromStored(cfg, pages, path, ptr, n + 1, f); }
  }

  /** An item of a slot that compares low comes before the term, one of a slot that compares high does not. */
  lemma EntrySide(cfg: Config, pages: Pages, path: Paths, ptr: nat, i: nat, f: Item, y: Key)
    requires TrieOk(cfg, pages, path) && ptr in path && i < |pages[ptr].slots| && InEntry(cfg, pages, path, ptr, i, f)
    ensures Compare(pages[ptr].slots[i], y) < 0 ==> Less(f.key, path[ptr] + y)
    ensures Compare(pages[ptr].slots[i], y) > 0 ==> !Less(f.key, path[ptr] + y)
  {
    EntryAt(cfg, pages, path, ptr, i);
    var x := path[ptr];
    var rel := f.key[|x|..];
    assert f.key == x + rel && rel != [];
    LessPrefix(x, rel, y);
    LessTotal(rel, y);
  }

  /** The keys of the slots before and after the place of the term. */
  lemma Sides(cfg: Config, pages: Pages, path: Paths, ptr: nat, m: nat, n: nat, y: Key)
    requires TrieOk(cfg, pages, path) && ptr in path && m <= n <= |pages[ptr].slots|
    requires forall i :: 0 <= i < m ==> Compare(pages[ptr].slots[i], y) < 0
    requires forall i :: n <= i < |pages[ptr].slots| ==> Compare(pages[ptr].slots[i], y) > 0
    ensures forall f :: f in SlotList(cfg, pages, path, ptr, m) ==> Less(f.key, path[ptr] + y)
    ensures forall f :: f in SlotsFrom(cfg, pages, path, ptr, n) ==> !Less(f.key, path[ptr] + y)
  {
    SlotsStored(cfg, pages, path, ptr, m);
    hide SlotList, SlotsFrom, InEntry, Compare, Less;
    forall f | f in SlotList(cfg, pages, path, ptr, m)
      ensures Less(f.key, path[ptr] + y)
    {
      var i: nat :| i < m && InEntry(cfg, pages, path, ptr, i, f);
      EntrySide(cfg, pages, path, ptr, i, f, y);
    }
    forall f | f in SlotsFrom(cfg, pages, path, ptr, n)
      ensures !Less(f.key, path[ptr] + y)
    {
      FromStored(cfg, pages, path, ptr, n, f);
      var i: nat :| n <= i < |pages[ptr].slots| && InEntry(cfg, pages, path, ptr, i, f);
      EntrySide(cfg, pages, path, ptr, i, f, y);
    }
  }

  /** Around a slot that compares equal, the others compare low and high. */
  lemma HitSides(cfg: Config, slots: seq<Entry>, depth: nat, mid: nat, y: Key)
    requires ValidConfig(cfg) && SlotsOk(cfg, slots, depth) && Hit(slots, mid, y)
    ensures forall i :: 0 <= i < mid ==> Compare(slots[i], y) < 0
    ensures forall i :: mid < i < |slots| ==> Compare(slots[i], y) > 0
  {
    forall i | 0 <= i < |slots| && i != mid
      ensures if i < mid then Compare(slots[i], y) < 0 else Compare(slots[i], y) > 0
    {
      if i < mid { CompareMonotone(slots[i], slots[mid], y); } else { CompareMonotone(slots[mid], slots[i], y); }
    }
  }

  /** str spells the rest y of a term after x. */
  ghost predicate Spells(str: seq<int>, x: Key, y: Key) {
    |x| + |y| < |str| && str[..|x| + |y|] == x + y && str[|x| + |y|] == EOS && NoEnd(y)
  }

  method Term(str: array<int>, pos: nat, ghost x: Key, ghost y: Key) returns (rest: Key)
    requires Spells(str[..], x, y) && pos == |x|
    ensures rest == y && str[..pos] == x && pos + |y| < str.Length && str[..pos + |y|] == x + y
    ensures str[pos + |y|] == EOS && NoEnd(y)
  {
    rest := [];
    assert forall j :: 0 <= j < |y| ==> str[..][..pos + |y|][pos + j] == y[j];
    while str[pos + |rest|] != EOS
      invariant |rest| <= |y| && rest == y[..|rest|]
      decreases |y| - |rest|
    {
      rest := rest + [str[pos + |rest|]];
    }
    assert str[..][..pos + |y|] == str[..pos + |y|];
    assert str[..pos] == str[..pos + |y|][..pos];
  }

  lemma SubTerm(str: seq<int>, x: Key, y: Key)
    requires Spells(str, x, y) && |y| > 1
    ensures Spells(str, x + [y[0]], y[1..]) && x + [y[0]] + y[1..] == x + y && str[..|x| + 1] == x + [y[0]]
  {
    assert x + [y[0]] + y[1..] == x + y;
    assert str[..|x| + 1] == str[..|x| + |y|][..|x| + 1];
  }

  /** The term is the string of slot mid. */
  lemma TailSplit(cfg: Config, pages: Pages, path: Paths, ptr: nat, mid: nat, y: Key)
    requires TrieOk(cfg, pages, path) && ptr in path && mid < |pages[ptr].slots| && pages[ptr].slots[mid].Tail?
    requires Compare(pages[ptr].slots[mid], y) == 0
    ensures var item := Item(path[ptr] + y, pages[ptr].slots[mid].info);
      EntryList(cfg, pages, path, ptr, mid) == [item] && Splits([item], 0, path[ptr] + y)
  {
    EntryParts(cfg, pages, path, ptr, mid);
    LessTotal(path[ptr] + y, path[ptr] + y);
  }

  /** The term ends with the character of pointer entry mid, or goes on below it. */
  lemma PtrSplit(cfg: Config, pages: Pages, path: Paths, ptr: nat, mid: nat, y: Key, kb: int)
    requires TrieOk(cfg, pages, path) && ptr in path && mid < |pages[ptr].slots| && pages[ptr].slots[mid].Ptr?
    requires y != []
    requires Compare(pages[ptr].slots[mid], y) == 0
    requires pages[ptr].slots[mid].sub != 0 ==> pages[ptr].slots[mid].sub in path
    requires |y| > 1 ==> if pages[ptr].slots[mid].sub == 0 then kb == 0
      else Splits(List(cfg, pages, path, pages[ptr].slots[mid].sub), kb, path[ptr] + y)
    ensures var e := pages[ptr].slots[mid];
      var own, below := Own(path[ptr] + [e.ch], e.info), if e.sub == 0 then [] else List(cfg, pages, path, e.sub);
      && EntryList(cfg, pages, path, ptr, mid) == own + below
      && Splits(own + below, if |y| == 1 then 0 else |own| + kb, path[ptr] + y)
  {
    hide TrieOk, List, EntryList, Splits, Own, SlotList, SlotsFrom, Less;
    PageParts(cfg, pages, path, ptr);
    EntryParts(cfg, pages, path, ptr, mid);
    var x, e := path[ptr], pages[ptr].slots[mid];
    if e.sub != 0 { NotBefore(cfg, pages, path, e.sub); }
    SplitsThere(x, e.ch, e.info, if e.sub == 0 then [] else List(cfg, pages, path, e.sub), y, kb);
  }

  lemma SplitsThere(x: Key, ch: int, info: Info, below: seq<Item>, y: Key, kb: int)
    requires y != [] && ch == y[0] && forall f :: f in below ==> !Less(f.key, x + [ch])
    requires |y| > 1 ==> (below == [] && kb == 0) || Splits(below, kb, x + y)
    ensures var own := Own(x + [ch], info); Splits(own + below, if |y| == 1 then 0 else |own| + kb, x + y)
  {
    hide *;
    OwnIs(x + [ch], info);
    if |y| == 1 {
      assert x + y == x + [ch];
      SplitsFirst(Own(x + [ch], info), below, x + y, info);
    } else {
      assert x + y == x + [ch] + y[1..];
      LongerLess(x + [ch], x + y);
      SplitsOwn(Own(x + [ch], info), below, kb, x + y);
    }
  }

  /** No key below a page comes before the text of the page. */
  lemma NotBefore(cfg: Config, pages: Pages, path: Paths, ptr: nat)
    requires TrieOk(cfg, pages, path) && ptr in path
    ensures forall f :: f in List(cfg, pages, path, ptr) ==> !Less(f.key, path[ptr])
  {
    ListStored(cfg, pages, path, ptr);
    hide TrieOk, List, Less;
    forall f | f in List(cfg, pages, path, ptr)
      ensures !Less(f.key, path[ptr])
    {
      LongerLess(path[ptr], f.key);
      LessTotal(f.key, path[ptr]);
    }
  }

  lemma SplitsFirst(own: seq<Item>, below: seq<Item>, key: Key, info: Info)
    requires (own == [] || own == [Item(key, info)]) && forall f :: f in below ==> !Less(f.key, key)
    ensures Splits(own + below, 0, key)
  {
    LessTotal(key, key);
    hide Less;
    forall i | 0 <= i < |own + below|
      ensures !Less((own + below)[i].key, key)
    {
      if i >= |own| { assert (own + below)[i] in below; }
    }
  }

  lemma SplitsOwn(own: seq<Item>, below: seq<Item>, kb: int, key: Key)
    requires (forall i :: 0 <= i < |own| ==> Less(own[i].key, key))
    requires ((below == [] && kb == 0) || Splits(below, kb, key))
    ensures Splits(own + below, |own| + kb, key)
  {
    assert forall i :: |own| <= i < |own + below| ==> (own + below)[i] == below[i - |own|];
  }

  /** Reports around the term what slot mid, which compares equal to its rest, holds. */
  method ScanHit(d: Dict, ptr: nat, mid: nat, pos: nat, str: array<int>, before: nat, after: nat, stop: Stop,
                 ghost y: Key)
    returns (before': nat, after': nat, befores: seq<Call>, afters: seq<Call>, ghost k: int)
    requires TrieOk(d.cfg, d.pages, d.path) && ptr in d.path && ptr in d.pages && Hit(d.pages[ptr].slots, mid, y)
    requires str.Length > d.cfg.maxKey && pos == |d.path[ptr]| && Spells(str[..], d.path[ptr], y) && y != []
    requires NoEnd(d.path[ptr])
    modifies str
    ensures str[..pos] == d.path[ptr]
    ensures mid < |d.pages[ptr].slots| && Splits(EntryList(d.cfg, d.pages, d.path, ptr, mid), k, d.path[ptr] + y)
    ensures Around(EntryList(d.cfg, d.pages, d.path, ptr, mid), k, before, after, stop, Told(befores, before'),
                   Told(afters, after'))
    decreases Height(d.cfg, pos), 1
  {
    hide *;
    HitAt(d.pages[ptr].slots, mid, y);
    ghost var x := d.path[ptr];
    var rest := Term(str, pos, x, y);
    EntryParts(d.cfg, d.pages, d.path, ptr, mid);
    before', after', befores, afters, k := before, after, [], [], 0;
    var e := d.pages[ptr].slots[mid];
    match e
    case Tail(s, info) =>
      TailSplit(d.cfg, d.pages, d.path, ptr, mid, y);
      if after > 0 {
        NoEndJoin(x, y);
        var name := TextOf(str, pos + |y|);
        after', afters := Report(Item(name, info), after, 1, stop);
      }
      TailAround(Item(x + y, info), before, after, stop);
    case Ptr(c, info, sub) =>
      if |rest| == 1 {
        PtrSplit(d.cfg, d.pages, d.path, ptr, mid, y, 0);
        after', afters := ScanPrefix(d, pos, str, e, after, stop, x);
        PrefixAround(Own(x + [c], info) + if sub == 0 then [] else List(d.cfg, d.pages, d.path, sub), before, after,
                     stop);
      } else {
        before', after', befores, afters, k := ScanBelow(d, ptr, mid, pos, str, before, after, stop, y);
      }
  }

  /** Reports what there is below pointer entry mid around the term, which goes on there. The key of the
      entry comes before. */
  method ScanBelow(d: Dict, ptr: nat, mid: nat, pos: nat, str: array<int>, before: nat, after: nat, stop: Stop,
                   ghost y: Key)
    returns (before': nat, after': nat, befores: seq<Call>, afters: seq<Call>, ghost k: int)
    requires TrieOk(d.cfg, d.pages, d.path) && ptr in d.path && ptr in d.pages && mid < |d.pages[ptr].slots|
    requires d.pages[ptr].slots[mid].Ptr? && Compare(d.pages[ptr].slots[mid], y) == 0 && |y| > 1
    requires d.pages[ptr].slots[mid].ch == y[0]
    requires str.Length > d.cfg.maxKey && pos == |d.path[ptr]| && Spells(str[..], d.path[ptr], y)
    requires NoEnd(d.path[ptr])
    modifies str
    ensures str[..pos] == d.path[ptr]
    ensures Splits(EntryList(d.cfg, d.pages, d.path, ptr, mid), k, d.path[ptr] + y)
    ensures Around(EntryList(d.cfg, d.pages, d.path, ptr, mid), k, before, after, stop, Told(befores, before'),
                   Told(afters, after'))
    decreases Height(d.cfg, pos), 0
  {
    hide *;
    ghost var x := d.path[ptr];
    var e := d.pages[ptr].slots[mid];
    EntryParts(d.cfg, d.pages, d.path, ptr, mid);
    before', after', befores, afters := before, after, [], [];
    SubTerm(str[..], x, y);
    NoEndMore(x, e.ch);
    ghost var own := Own(x + [e.ch], e.info);
    ghost var below, kb := if e.sub == 0 then [] else List(d.cfg, d.pages, d.path, e.sub), 0;
    if e.sub != 0 {
      HeightLess(d.cfg, pos);
      before', after', befores, afters, kb := ScanR(d, e.sub, pos + 1, str, before, after, stop, y[1..]);
    } else {
      NothingAround(before, after, stop);
    }
    assert str[..pos + 1] == x + [e.ch];
    assert str[..pos] == str[..pos + 1][..pos] == x;
    PtrSplit(d.cfg, d.pages, d.path, ptr, mid, y, kb);
    OwnAround(own, below, kb, before, after, stop, Told(befores, before'), Told(afters, after'));
    OwnIs(x + [e.ch], e.info);
    OneWanted(Item(x + [e.ch], e.info), before', -1, stop);
    k := |own| + kb;
    ghost var told := Told(befores, before');
    ThenIs(told, Told([], before'));
    assert befores + [] == befores;
    if |e.info| != 0 && before' > 0 {
      str[pos + 1] := EOS;
      assert str[..pos + 1] == x + [e.ch];
      var name := TextOf(str, pos + 1);
      var one;
      before', one := Report(Item(name, e.info), before', -1, stop);
      befores := befores + one;
      ThenIs(told, Told(one, before'));
      assert str[..pos] == str[..pos + 1][..pos] == x;
    }
  }

  lemma HitAt(slots: seq<Entry>, mid: nat, y: Key)
    requires Hit(slots, mid, y) && y != []
    ensures mid < |slots| && Compare(slots[mid], y) == 0 && (slots[mid].Ptr? ==> slots[mid].ch == y[0])
  {
  }

  lemma TailAround(item: Item, before: nat, after: nat, stop: Stop)
    ensures Around([item], 0, before, after, stop, Told([], before),
                   if after > 0 then After(item, after, 1, stop) else Told([], after))
  {
    OneWanted(item, after, 1, stop);
    OneWanted(item, before, -1, stop);
    assert [item][..0] == [] && [item][0..] == [item];
  }

  lemma PrefixAround(s: seq<Item>, before: nat, after: nat, stop: Stop)
    ensures Around(s, 0, before, after, stop, Told([], before), Wanted(s, after, 1, stop))
  {
    NoneWanted([], before, -1, stop);
    assert s[..0] == [] && s[0..] == s;
  }

  lemma NothingAround(before: nat, after: nat, stop: Stop)
    ensures Around([], 0, before, after, stop, Told([], before), Told([], after))
  {
    PrefixAround([], before, after, stop);
    NoneWanted([], after, 1, stop);
  }

  /** The key of a pointer entry comes before those below it. */
  lemma OwnAround(own: seq<Item>, below: seq<Item>, kb: int, before: nat, after: nat, stop: Stop, befores: Told,
                  afters: Told)
    requires Around(below, kb, before, after, stop, befores, afters)
    ensures Around(own + below, |own| + kb, before, after, stop, Then(befores, Wanted(own, befores.left, -1, stop)),
                   afters)
  {
    hide Wanted;
    assert (own + below)[..|own| + kb] == own + below[..kb] && (own + below)[|own| + kb..] == below[kb..];
    WantedJoin(own, below[..kb], before, -1, stop);
  }

  /** The term is the key of a pointer entry: it and the keys below it come from the term on. */
  method ScanPrefix(d: Dict, pos: nat, str: array<int>, e: Entry, after: nat, stop: Stop, ghost x: Key)
    returns (after': nat, afters: seq<Call>)
    requires TrieOk(d.cfg, d.pages, d.path) && e.Ptr? && pos == |x| < d.cfg.maxKey < str.Length
    requires str[..pos + 1] == x + [e.ch] && str[pos + 1] == EOS && NoEnd(x) && e.ch != EOS
    requires e.sub != 0 ==> e.sub in d.path && e.sub in d.pages && d.path[e.sub] == x + [e.ch]
    modifies str
    ensures str[..pos] == x
    ensures var below := if e.sub == 0 then [] else List(d.cfg, d.pages, d.path, e.sub);
      Told(afters, after') == Wanted(Own(x + [e.ch], e.info) + below, after, 1, stop)
  {
    hide *;
    assert str[..pos] == str[..pos + 1][..pos] == x;
    NoEndMore(x, e.ch);
    OwnIs(x + [e.ch], e.info);
    OneWanted(Item(x + [e.ch], e.info), after, 1, stop);
    ghost var below := if e.sub == 0 then [] else List(d.cfg, d.pages, d.path, e.sub);
    WantedJoin(Own(x + [e.ch], e.info), below, after, 1, stop);
    after', afters := after, [];
    if |e.info| != 0 && after > 0 {
      var name := TextOf(str, pos + 1);
      after', afters := Report(Item(name, e.info), after, 1, stop);
    }
    ghost var first := Told(afters, after');
    var more := [];
    if after' > 0 && e.sub != 0 {
      PageParts(d.cfg, d.pages, d.path, e.sub);
      OnwardAll(d.cfg, d.pages, d.path, e.sub, after', stop);
      after', more := ScanDirection(d, e.sub, pos + 1, str, -1, after', 1, stop);
      assert str[..pos] == str[..pos + 1][..pos];
    } else {
      NoneWanted(below, after', 1, stop);
    }
    ThenIs(first, Told(more, after'));
    afters := afters + more;
  }

  /** Reports the keys under page ptr around the term whose rest is spelled in str. */
  method ScanR(d: Dict, ptr: nat, pos: nat, str: array<int>, before: nat, after: nat, stop: Stop, ghost y: Key)
    returns (before': nat, after': nat, befores: seq<Call>, afters: seq<Call>, ghost k: int)
    requires TrieOk(d.cfg, d.pages, d.path) && ptr in d.path && ptr in d.pages
    requires str.Length > d.cfg.maxKey && pos == |d.path[ptr]| && Spells(str[..], d.path[ptr], y)
    requires NoEnd(d.path[ptr])
    modifies str
    ensures str[..pos] == d.path[ptr]
    ensures Splits(List(d.cfg, d.pages, d.path, ptr), k, d.path[ptr] + y)
    ensures Around(List(d.cfg, d.pages, d.path, ptr), k, before, after, stop, Told(befores, before'),
                   Told(afters, after'))
    decreases Height(d.cfg, pos), 4
  {
    hide *;
    PageParts(d.cfg, d.pages, d.path, ptr);
    ghost var x := d.path[ptr];
    var slots := d.pages[ptr].slots;
    var rest := Term(str, pos, x, y);
    var mid, cmp := Search(d.cfg, pos, slots, rest);
    ghost var here: seq<Item> := [];
    before', after', befores, afters, k := before, after, [], [], 0;
    if cmp == 0 {
      HitThere(d.cfg, slots, pos, mid, y);
      HitSides(d.cfg, slots, pos, mid, y);
      EntryParts(d.cfg, d.pages, d.path, ptr, mid);
      here := EntryList(d.cfg, d.pages, d.path, ptr, mid);
      before', after', befores, afters, k := ScanHit(d, ptr, mid, pos, str, before, after, stop, y);
    } else {
      NothingAround(before, after, stop);
      NothingSplits(x + y);
      if cmp < 0 {
        mid := mid + 1;
      }
    }
    var next := if cmp == 0 then mid + 1 else mid;
    Sides(d.cfg, d.pages, d.path, ptr, mid, next, y);
    ListCut(d.cfg, d.pages, d.path, ptr, mid);
    ghost var a, c := SlotList(d.cfg, d.pages, d.path, ptr, mid), SlotsFrom(d.cfg, d.pages, d.path, ptr, next);
    assert List(d.cfg, d.pages, d.path, ptr) == a + here + c;
    SplitsJoin(a, here, k, c, x + y);
    ghost var b0, f0 := Told(befores, before'), Told(afters, after');
    AroundJoin(a, here, k, c, before, after, stop, b0, f0);
    k := |a| + k;
    var b, f;
    before', after', b, f := ScanRest(d, ptr, pos, str, mid, next, before', after', stop);
    ThenIs(b0, Told(b, before'));
    ThenIs(f0, Told(f, after'));
    befores, afters := befores + b, afters + f;
  }

  /** Reports the keys of a page from slot next on, and those before slot mid. */
  method ScanRest(d: Dict, ptr: nat, pos: nat, str: array<int>, mid: nat, next: nat, before: nat, after: nat,
                  stop: Stop)
    returns (before': nat, after': nat, befores: seq<Call>, afters: seq<Call>)
    requires TrieOk(d.cfg, d.pages, d.path) && ptr in d.path && ptr in d.pages && mid <= next <= |d.pages[ptr].slots|
    requires str.Length > d.cfg.maxKey && pos == |d.path[ptr]| < str.Length && str[..pos] == d.path[ptr]
    requires NoEnd(d.path[ptr])
    modifies str
    ensures str[..pos] == d.path[ptr]
    ensures Told(befores, before') == Wanted(SlotList(d.cfg, d.pages, d.path, ptr, mid), before, -1, stop)
    ensures Told(afters, after') == Wanted(SlotsFrom(d.cfg, d.pages, d.path, ptr, next), after, 1, stop)
    decreases Height(d.cfg, pos), 3
  {
    hide *;
    PageParts(d.cfg, d.pages, d.path, ptr);
    before', after', befores, afters := before, after, [], [];
    if after > 0 {
      OnwardAt(d.cfg, d.pages, d.path, ptr, next, after, stop);
      after', afters := ScanDirection(d, ptr, pos, str, next, after, 1, stop);
    } else {
      NoneWanted(SlotsFrom(d.cfg, d.pages, d.path, ptr, next), after, 1, stop);
    }
    if before > 0 && mid > 0 {
      OnwardAt(d.cfg, d.pages, d.path, ptr, mid - 1, before, stop);
      before', befores := ScanDirection(d, ptr, pos, str, mid - 1, before, -1, stop);
    } else {
      NoneWanted(SlotList(d.cfg, d.pages, d.path, ptr, mid), before, -1, stop);
    }
  }

  lemma HitThere(cfg: Config, slots: seq<Entry>, depth: nat, mid: nat, y: Key)
    requires ValidConfig(cfg) && SlotsOk(cfg, slots, depth) && Hit(slots, mid, y)
    ensures mid < |slots| && y != []
  {
    assert EntryOk(cfg, slots[mid], depth);
  }

  lemma NothingSplits(key: Key)
    ensures Splits([], 0, key)
  {
  }

  lemma AroundJoin(a: seq<Item>, b: seq<Item>, kb: int, c: seq<Item>, before: nat, after: nat, stop: Stop,
                   befores: Told, afters: Told)
    requires Around(b, kb, before, after, stop, befores, afters)
    ensures Around(a + b + c, |a| + kb, before, after, stop, Then(befores, Wanted(a, befores.left, -1, stop)),
                   Then(afters, Wanted(c, afters.left, 1, stop)))
  {
    hide Wanted;
    assert (a + b + c)[..|a| + kb] == a + b[..kb] && (a + b + c)[|a| + kb..] == b[kb..] + c;
    WantedJoin(a, b[..kb], before, -1, stop);
    WantedJoin(b[kb..], c, after, 1, stop);
  }

  /** What a scan around place k reports. */
  lemma AroundReported(s: seq<Item>, k: int, before: nat, after: nat, stop: Stop, befores: Told, afters: Told)
    requires Around(s, k, before, after, stop, befores, afters)
    ensures 0 <= k <= |s| && Reported(s[k..], after, 1, stop, afters.found, afters.left)
    ensures Reported(Backwards(s, k), before, -1, stop, befores.found, befores.left)
  {
    hide Take, Reported;
    TakeReported(s[k..], after, 1, stop);
    RevBackwards(s[..k]);
    assert Backwards(s[..k], k) == Backwards(s, k);
    TakeReported(Rev(s[..k]), before, -1, stop);
  }

  /** The list holds exactly the contents of a dictionary, in ascending order. */
  ghost predicate Lists(list: seq<Item>, contents: map<Key, Info>) {
    Ordered(list) && forall f :: f in list <==> f.key in contents && contents[f.key] == f.info
  }

  /** Reports the keys around the term spelled in str: of those from the term on the first ones,
      ascending, and of those before it the last ones, descending, up to the given numbers or to an
      answer that ends the scan in a direction. before' and after' are what is still wanted. */
  method Scan(d: Dict, str: array<int>, before: nat, after: nat, stop: Stop, ghost term: Key)
    returns (before': nat, after': nat, befores: seq<Call>, afters: seq<Call>, ghost list: seq<Item>, ghost k: int)
    requires d.Valid() && str.Length > d.cfg.maxKey && Spells(str[..], [], term)
    modifies str
    ensures Lists(list, d.contents) && Splits(list, k, term) && 0 <= k <= |list|
    ensures Reported(list[k..], after, 1, stop, afters, after')
    ensures Reported(Backwards(list, k), before, -1, stop, befores, before')
  {
    hide *;
    if d.root == 0 {
      before', after', befores, afters, list, k := before, after, [], [], [], 0;
      NothingListed(d);
      NothingSplits(term);
      NothingAround(before, after, stop);
      AroundReported(list, k, before, after, stop, Told(befores, before'), Told(afters, after'));
      return;
    }
    RootListed(d);
    NoEndNone();
    list := List(d.cfg, d.pages, d.path, d.root);
    assert [] + term == term;
    before', after', befores, afters, k := ScanR(d, d.root, 0, str, before, after, stop, term);
    AroundReported(list, k, before, after, stop, Told(befores, before'), Told(afters, after'));
  }

  lemma NothingListed(d: Dict)
    requires d.Valid() && d.root == 0
    ensures Lists([], d.contents)
  {
    forall key
      ensures key !in d.contents
    {
      assert d.Get(key) == InfoOf(d.contents, key);
    }
  }

  lemma RootListed(d: Dict)
    requires d.Valid() && d.root != 0
    ensures TrieOk(d.cfg, d.pages, d.path) && d.root in d.path && d.root in d.pages && d.path[d.root] == []
    ensures Lists(List(d.cfg, d.pages, d.path, d.root), d.contents)
  {
    ListStored(d.cfg, d.pages, d.path, d.root);
    forall f: Item
      ensures Stored(d.pages, d.path, d.root, f) <==> f.key in d.contents && d.contents[f.key] == f.info
    {
      assert d.Get(f.key) == InfoOf(d.contents, f.key);
      assert f.key[0..] == f.key;
      assert f.key == [] ==> Find(d.pages, d.root, f.key) == [];
    }
  }
}
