/** Exact lookup: a binary search per page, and descent through pointer entries. */
module DictLookup {
  import opened DictPage
  import opened DictTrie
  import opened DictStore
  import opened Wrappers

  /** The information stored for str under page ptr, if any. One loop serves all pages: when
      a pointer entry matches, the search starts over in its subpage with the rest of str. */
  method DictLook(d: Dict, str0: Key, ptr0: nat) returns (r: Option<Info>)
    requires TrieOk(d.cfg, d.pages, d.path) && ptr0 in d.path
    ensures r == if Find(d.pages, ptr0, str0) == [] then None else Some(Find(d.pages, ptr0, str0))
  {
    var str, ptr := str0, ptr0;
    PageSlots(d.cfg, d.pages, d.path, ptr);
    var p := d.pages[ptr];
    var mid, lo, hi := 0, 0, |p.slots| - 1;
    while lo <= hi
      invariant ptr in d.path && p == d.pages[ptr] && SlotsOk(d.cfg, p.slots, |d.path[ptr]|)
      invariant str0 != [] ==> str != []
      invariant str0 == [] ==> str == []
      invariant Find(d.pages, ptr, str) == Find(d.pages, ptr0, str0)
      invariant 0 <= lo <= hi + 1 <= |p.slots|
      invariant forall k :: 0 <= k < lo ==> Compare(p.slots[k], str) < 0
      invariant forall k :: hi < k < |p.slots| ==> Compare(p.slots[k], str) > 0
      decreases |str|, hi - lo + 1
    {
      mid := (lo + hi) / 2;
      var e := p.slots[mid];
      var cmp := Compare(e, str);
      if cmp == 0 {
        assert EntryOk(d.cfg, e, |d.path[ptr]|) && NonEmpty(e);
        SlotFindHit(d.cfg, d.pages, p.slots, |d.path[ptr]|, mid, str);
        if e.Tail? {
          return Some(e.info);
        }
        str := str[1..];
        if str == [] {
          return if e.info != [] then Some(e.info) else None;
        }
        if e.sub == 0 {
          return None;
        }
        assert SubsOk(d.pages[ptr].slots, d.path, d.path[ptr]);
        ptr := e.sub;
        p := d.pages[ptr];
        mid, lo, hi := 0, 0, |p.slots| - 1;
        continue;
      }
      forall k | 0 <= k < |p.slots| && k != mid
        ensures k < mid && cmp < 0 ==> Compare(p.slots[k], str) < 0
        ensures k > mid && cmp > 0 ==> Compare(p.slots[k], str) > 0
      {
        if k < mid {
          CompareMonotone(p.slots[k], p.slots[mid], str);
        } else {
          CompareMonotone(p.slots[mid], p.slots[k], str);
        }
      }
      if cmp < 0 { lo := mid + 1; } else { hi := mid - 1; }
    }
    assert !HasHit(p.slots, str);
    return None;
  }

  method Lookup(d: Dict, key: Key) returns (r: Option<Info>)
    requires d.Valid()
    ensures r == if key in d.contents then Some(d.contents[key]) else None
  {
    if d.root == 0 {
      assert d.Get(key) == [];
      return None;
    }
    r := DictLook(d, key, d.root);
    assert d.Get(key) == InfoOf(d.contents, key);
  }
}
