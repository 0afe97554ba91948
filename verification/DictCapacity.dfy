/** Byte arithmetic of dictionary pages: how much a page's entries can take. */
module DictCapacity {
  import opened DictPage
  import opened DictTrie
  import opened DictStore

  lemma CardSubset<T>(a: set<T>, b: set<T>)
    requires a <= b
    ensures |a| <= |b|
  {
    assert a + (b - a) == b;
  }

  ghost function Firsts(s: seq<Entry>): set<int>
    requires forall i :: 0 <= i < |s| ==> NonEmpty(s[i])
  {
    if s == [] then {} else
      assert NonEmpty(s[|s| - 1]);
      Firsts(s[..|s| - 1]) + {First(s[|s| - 1])}
  }

  /** No two slots share a first character. */
  ghost predicate Apart(s: seq<Entry>) {
    && (forall i :: 0 <= i < |s| ==> NonEmpty(s[i]))
    && (forall i, j :: 0 <= i < j < |s| ==> First(s[i]) < First(s[j]))
  }

  /** A page whose entries all start differently and are short has room for all of them. */
  lemma {:induction false} ApartBound(cfg: Config, s: seq<Entry>, most: nat)
    requires Apart(s)
    requires forall i :: 0 <= i < |s| ==> First(s[i]) in cfg.alphabet && Bytes(s[i]) <= most
    ensures |s| <= |cfg.alphabet|
    ensures SumBytes(s) <= |s| * most
  {
    FirstsApart(cfg, s);
    CardSubset(Firsts(s), cfg.alphabet);
    SumAtMost(s, most);
  }

  lemma {:induction false} FirstsApart(cfg: Config, s: seq<Entry>)
    requires Apart(s)
    requires forall i :: 0 <= i < |s| ==> First(s[i]) in cfg.alphabet
    ensures Firsts(s) <= cfg.alphabet && |Firsts(s)| == |s|
    ensures forall x :: x in Firsts(s) ==> s != [] && x <= First(s[|s| - 1])
  {
    if s != [] {
      var n := |s| - 1;
      FirstsApart(cfg, s[..n]);
      assert n > 0 ==> First(s[n - 1]) < First(s[n]);
      assert First(s[n]) !in Firsts(s[..n]);
    }
  }

  lemma {:induction false} SumAtMost(s: seq<Entry>, most: nat)
    requires forall i :: 0 <= i < |s| ==> Bytes(s[i]) <= most
    ensures SumBytes(s) <= |s| * most
  {
    if s != [] {
      var n := |s| - 1;
      SumAtMost(s[..n], most);
      assert |s| * most == n * most + most;
    }
  }

  /** The pointer entries of a page. */
  ghost function Ptrs(s: seq<Entry>): seq<Entry> {
    if s == [] then []
    else Ptrs(s[..|s| - 1]) + (if s[|s| - 1].Ptr? then [s[|s| - 1]] else [])
  }

  lemma {:induction false} PtrsSum(s: seq<Entry>)
    ensures SumBytes(s) == TailBytes(s) + SumBytes(Ptrs(s))
    ensures Tails(s) + |Ptrs(s)| == |s|
    ensures Tails(s) == 0 ==> TailBytes(s) == 0
    ensures forall e :: e in Ptrs(s) ==> e in s && e.Ptr?
  {
    if s != [] {
      var n := |s| - 1;
      PtrsSum(s[..n]);
      SumConcat(Ptrs(s[..n]), if s[n].Ptr? then [s[n]] else []);
      if s[n].Ptr? { SumOne(s[n]); }
    }
  }

  lemma {:induction false} PtrsApart(s: seq<Entry>)
    requires Sorted(s)
    ensures Apart(Ptrs(s))
  {
    if s != [] {
      var n := |s| - 1;
      var t := Ptrs(s[..n]);
      PtrsApart(s[..n]);
      PtrsSum(s[..n]);
      if s[n].Ptr? {
        forall i | 0 <= i < |t|
          ensures First(t[i]) < First(s[n])
        {
          assert t[i] in s[..n];
          var k :| 0 <= k < n && s[k] == t[i];
          assert EntryLess(s[k], s[n]);
        }
      }
    }
  }

  /** There are at most as many pointer entries as characters, and they take at most PtrRoom. */
  lemma PtrsBound(cfg: Config, s: seq<Entry>, depth: nat)
    requires SlotsOk(cfg, s, depth)
    ensures |Ptrs(s)| <= |cfg.alphabet| && SumBytes(Ptrs(s)) <= PtrRoom(cfg)
  {
    PtrsApart(s);
    PtrsSum(s);
    var t := Ptrs(s);
    forall i | 0 <= i < |t|
      ensures First(t[i]) in cfg.alphabet && Bytes(t[i]) <= PTR_SIZE + 2 + cfg.maxInfo
    {
      assert t[i] in s;
    }
    ApartBound(cfg, t, PTR_SIZE + 2 + cfg.maxInfo);
    MulMono(|t|, |cfg.alphabet|, PTR_SIZE + 2 + cfg.maxInfo);
  }

  /** Pointer entries never take more than PtrRoom. */
  lemma PtrBound(cfg: Config, s: seq<Entry>, depth: nat)
    requires SlotsOk(cfg, s, depth)
    ensures SumBytes(s) <= TailBytes(s) + PtrRoom(cfg)
  {
    PtrsBound(cfg, s, depth);
    PtrsSum(s);
  }

  lemma MulMono(a: nat, b: nat, c: nat)
    requires a <= b
    ensures a * c <= b * c
  {
  }

  /** A page without tails that is not dirty always has room for one more entry. */
  lemma PointersLeaveRoom(cfg: Config, p: Page, depth: nat, need: nat)
    requires ValidConfig(cfg) && PageOk(cfg, p, depth) && !p.dirty && Tails(p.slots) == 0
    requires need <= cfg.maxKey + 5 + cfg.maxInfo
    ensures p.size + need < cfg.pageSize - SLOT_SIZE * (1 + |p.slots|)
  {
    ConfigRoom(cfg);
    PtrsSum(p.slots);
    PtrsBound(cfg, p.slots, depth);
  }

  lemma SumUpdate(s: seq<Entry>, k: nat, e: Entry)
    requires k < |s|
    ensures SumBytes(s[k := e]) == SumBytes(s) - Bytes(s[k]) + Bytes(e)
    ensures TailBytes(s[k := e]) == TailBytes(s) - (if s[k].Tail? then Bytes(s[k]) else 0) + (if e.Tail? then Bytes(e)
        else 0)
    ensures Tails(s[k := e]) == Tails(s) - (if s[k].Tail? then 1 else 0) + (if e.Tail? then 1 else 0)
  {
    SumSplice(s, k, k + 1, [e]);
    assert s[k..k + 1] == [s[k]];
    SumOne(s[k]);
    SumOne(e);
    assert s[..k] + [e] + s[k + 1..] == s[k := e];
  }

  lemma SumInsert(s: seq<Entry>, k: nat, e: Entry)
    requires k <= |s|
    ensures SumBytes(s[..k] + [e] + s[k..]) == SumBytes(s) + Bytes(e)
    ensures TailBytes(s[..k] + [e] + s[k..]) == TailBytes(s) + (if e.Tail? then Bytes(e) else 0)
    ensures Tails(s[..k] + [e] + s[k..]) == Tails(s) + (if e.Tail? then 1 else 0)
  {
    SumSplice(s, k, k, [e]);
    SumOne(e);
    assert s[k..k] == [];
  }
}
