/** No page is lost or shared: what the invariants of a dictionary say about its graph of pages. */
module DictConserve {
  import opened DictPage
  import opened DictTrie
  import opened DictStore

  /** Following the pointer entries for the characters of key leads from page root to page q. */
  ghost predicate Leads(pages: Pages, root: nat, key: Key, q: nat)
    decreases |key|
  {
    if key == [] then q == root
    else
      var up := key[..|key| - 1];
      exists r: nat :: Leads(pages, root, up, r) && r in pages && q != 0 && PointsTo(pages[r].slots, key[|key| - 1], q)
  }

  lemma {:induction false} LiveReached(pages: Pages, path: Paths, root: nat, q: nat)
    requires Linked(pages, path, root, {}) && root in path && q in path
    requires forall r :: r in path ==> r in pages && r != 0
    ensures Leads(pages, root, path[q], q)
    decreases |path[q]|
  {
    if q != root {
      var r :| Parent(pages, path, r, q);
      LiveReached(pages, path, root, r);
      assert path[r] == path[q][..|path[q]| - 1];
    }
  }

  lemma PointedLive(cfg: Config, pages: Pages, path: Paths, r: nat, c: int, q: nat)
    requires TrieOk(cfg, pages, path) && r in path && q != 0 && PointsTo(pages[r].slots, c, q)
    ensures q in path && path[q] == path[r] + [c]
  {
    assert SubsOk(pages[r].slots, path, path[r]);
  }

  lemma {:induction false} ReachedLive(cfg: Config, pages: Pages, path: Paths, root: nat, key: Key, q: nat)
    requires TrieOk(cfg, pages, path) && root in path && path[root] == []
    requires Leads(pages, root, key, q)
    ensures q in path && path[q] == key
    decreases |key|
  {
    hide TrieOk, PointsTo;
    if key != [] {
      var up, c := key[..|key| - 1], key[|key| - 1];
      var r: nat :| Leads(pages, root, up, r) && r in pages && q != 0 && PointsTo(pages[r].slots, c, q);
      ReachedLive(cfg, pages, path, root, up, r);
      PointedLive(cfg, pages, path, r, c, q);
      assert key == up + [c];
    }
  }

  lemma ValidParts(d: Dict)
    requires d.Valid() && d.root != 0
    ensures TrieOk(d.cfg, d.pages, d.path) && Linked(d.pages, d.path, d.root, {}) && d.root in d.path
    ensures d.path[d.root] == []
    ensures Conserved(d.pages, d.path, d.last, d.freelist, d.free)
    ensures forall r :: r in d.path ==> r in d.pages && r != 0
  {
    hide PageOk, SubsOk, Find, Parent;
  }

  lemma ConservedAt(pages: Pages, path: Paths, last: nat, freelist: nat, free: seq<nat>, q: nat)
    requires Conserved(pages, path, last, freelist, free) && 1 <= q < last
    ensures Chain(pages, freelist, free)
    ensures q in path <==> q !in free
    ensures forall i, j :: 0 <= i < |free| && 0 <= j < |free| && free[i] == q && free[j] == q ==> i == j
  {
    hide Chain;
  }

  lemma ReachedOnce(cfg: Config, pages: Pages, path: Paths, root: nat, q: nat)
    requires TrieOk(cfg, pages, path) && Linked(pages, path, root, {}) && root in path && path[root] == []
    requires forall r :: r in path ==> r in pages && r != 0
    ensures (exists key :: Leads(pages, root, key, q)) <==> q in path
    ensures forall k1, k2 :: Leads(pages, root, k1, q) && Leads(pages, root, k2, q) ==> k1 == k2
  {
    hide *;
    if q in path {
      LiveReached(pages, path, root, q);
      assert exists key :: key == path[q] && Leads(pages, root, key, q);
    }
    forall key | Leads(pages, root, key, q)
      ensures q in path && path[q] == key
    {
      ReachedLive(cfg, pages, path, root, key, q);
    }
  }

  /** Page conservation: each page number in 1..last-1 is either reached from the root by
      exactly one path and not free, or on the freelist exactly once and not reached. */
  lemma PagesConserved(d: Dict, q: nat)
    requires d.Valid() && 1 <= q < d.last && d.root != 0
    ensures Chain(d.pages, d.freelist, d.free)
    ensures (exists key :: Leads(d.pages, d.root, key, q)) <==> q !in d.free
    ensures forall k1, k2 :: Leads(d.pages, d.root, k1, q) && Leads(d.pages, d.root, k2, q) ==> k1 == k2
    ensures forall i, j :: 0 <= i < |d.free| && 0 <= j < |d.free| && d.free[i] == q && d.free[j] == q ==> i == j
  {
    hide *;
    ValidParts(d);
    ConservedAt(d.pages, d.path, d.last, d.freelist, d.free, q);
    ReachedOnce(d.cfg, d.pages, d.path, d.root, q);
  }
}
