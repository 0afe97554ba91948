/** Postings of terms: their order, and what inserts and deletes of the same posting come to. */
module KeyOrder {
  import opened DictPage

  // An insert or a delete of key under the term name.
  datatype Posting = Posting(name: Key, key: seq<int>, ins: bool)

  // ---------------------------------------------------------------- order

  predicate Same(a: Posting, b: Posting) {
    a.name == b.name && a.key == b.key
  }

  /** By name, then by key. */
  predicate Before(a: Posting, b: Posting) {
    Less(a.name, b.name) || (a.name == b.name && Less(a.key, b.key))
  }

  predicate AtMost(a: Posting, b: Posting) {
    Same(a, b) || Before(a, b)
  }

  /** A posting comes before another exactly when its name does, or, of one name, its key does, where
      they differ first. */
  lemma BeforeMeans(a: Posting, b: Posting)
    ensures Before(a, b) <==>
      (exists k: nat :: LessAt(a.name, b.name, k)) || (a.name == b.name && exists k: nat :: LessAt(a.key, b.key, k))
  {
    LessMeans(a.name, b.name);
    LessMeans(a.key, b.key);
  }

  lemma BeforeTotal(a: Posting, b: Posting)
    ensures Before(a, b) || Same(a, b) || Before(b, a)
    ensures !(Before(a, b) && AtMost(b, a))
  {
    LessTotal(a.name, b.name);
    LessTotal(a.key, b.key);
  }

  lemma AtMostTransitive(a: Posting, b: Posting, c: Posting)
    requires AtMost(a, b) && AtMost(b, c)
    ensures AtMost(a, c) && (Before(a, b) || Before(b, c) ==> Before(a, c))
  {
    if Less(a.name, b.name) && Less(b.name, c.name) { LessTransitive(a.name, b.name, c.name); }
    if Less(a.key, b.key) && Less(b.key, c.key) { LessTransitive(a.key, b.key, c.key); }
  }

  /** The comparison of two postings is positive. Of two that differ only in the flag, the one
      with the greater flag is above: an insert while a run is sorted, where the flag is 1, but
      a delete while runs are merged, where the flag of an insert is a negative character. */
  predicate Above(a: Posting, b: Posting, merging: bool) {
    Before(b, a) || (Same(a, b) && a.ins != b.ins && (a.ins <==> !merging))
  }

  lemma AboveOrder(a: Posting, b: Posting, merging: bool)
    ensures !Above(a, b, merging) ==> AtMost(a, b)
    ensures Above(a, b, merging) ==> AtMost(b, a) && !Above(b, a, merging)
  {
    BeforeTotal(a, b);
  }

  lemma AboveTransitive(a: Posting, b: Posting, c: Posting, merging: bool)
    requires !Above(a, b, merging) && !Above(b, c, merging)
    ensures !Above(a, c, merging)
  {
    AboveOrder(a, b, merging);
    AboveOrder(b, c, merging);
    AtMostTransitive(a, b, c);
    BeforeTotal(a, c);
  }

  ghost predicate Ascending(s: seq<Posting>) {
    forall i, j :: 0 <= i < j < |s| ==> AtMost(s[i], s[j])
  }

  // ---------------------------------------------------------------- netting

  /** How many more inserts than deletes of a key there are. */
  function Net(m: multiset<Posting>, name: Key, key: seq<int>): int {
    var inserts: int := m[Posting(name, key, true)];
    inserts - m[Posting(name, key, false)]
  }

  function Positive(n: int): nat {
    if n > 0 then n else 0
  }

  /** What is left of a posting once inserts and deletes have cancelled. */
  function Target(m: multiset<Posting>, p: Posting): nat {
    var n := Net(m, p.name, p.key);
    Positive(if p.ins then n else -n)
  }

  /** The postings of m after netting, by name and key. */
  ghost predicate Netted(out: seq<Posting>, m: multiset<Posting>) {
    Ascending(out) && forall p :: multiset(out)[p] == Target(m, p)
  }

  ghost predicate SameNet(m1: multiset<Posting>, m2: multiset<Posting>) {
    forall name, key :: Net(m1, name, key) == Net(m2, name, key)
  }

  /** The sum of each key decides what comes out. */
  lemma NettedUnique(a: seq<Posting>, m1: multiset<Posting>, b: seq<Posting>, m2: multiset<Posting>)
    requires Netted(a, m1) && Netted(b, m2) && SameNet(m1, m2)
    ensures a == b
  {
    forall p
      ensures multiset(a)[p] == multiset(b)[p]
    {
      assert Target(m1, p) == Target(m2, p);
    }
    assert multiset(a) == multiset(b);
    forall x, y | x in a && y in a && Same(x, y)
      ensures x == y
    {
      assert x in multiset(a) && y in multiset(a);
      assert Target(m1, x) > 0 && Target(m1, y) > 0;
    }
    OneOrder(a, b);
  }

  /** Postings that do not differ only in their flag have one ascending order. */
  lemma {:induction false} OneOrder(a: seq<Posting>, b: seq<Posting>)
    requires Ascending(a) && Ascending(b) && multiset(a) == multiset(b)
    requires forall x, y :: x in a && y in a && Same(x, y) ==> x == y
    ensures a == b
  {
    assert |b| == |multiset(b)| == |multiset(a)| == |a|;
    if a != [] {
      SameFirst(a, b);
      assert a == [a[0]] + a[1..] && b == [b[0]] + b[1..];
      assert multiset(a[1..]) == multiset(a) - multiset{a[0]} && multiset(b[1..]) == multiset(b) - multiset{b[0]};
      OneOrder(a[1..], b[1..]);
    }
  }

  lemma SameFirst(a: seq<Posting>, b: seq<Posting>)
    requires Ascending(a) && Ascending(b) && multiset(a) == multiset(b)
    requires forall x, y :: x in a && y in a && Same(x, y) ==> x == y
    requires a != [] && b != []
    ensures a[0] == b[0]
  {
    assert a[0] in multiset(b) && b[0] in multiset(a);
    var i :| 0 <= i < |b| && b[i] == a[0];
    var j :| 0 <= j < |a| && a[j] == b[0];
    hide AtMost, Same;
    AtMostSelf(a[0]);
    AtMostSelf(b[0]);
    assert AtMost(b[0], b[i]) && AtMost(a[0], a[j]);
    AtMostBoth(a[0], b[0]);
  }

  lemma AtMostSelf(a: Posting)
    ensures AtMost(a, a)
  {
  }

  lemma AtMostBoth(a: Posting, b: Posting)
    requires AtMost(a, b) && AtMost(b, a)
    ensures Same(a, b)
  {
    BeforeTotal(a, b);
  }

  /** A delete and an insert of the same key make no difference. */
  lemma PairCancels(m: multiset<Posting>, p: Posting, q: Posting)
    requires Same(p, q) && p.ins != q.ins
    ensures SameNet(m + multiset{p, q}, m)
  {
    forall name, key
      ensures Net(m + multiset{p, q}, name, key) == Net(m, name, key)
    {
      assert p.name == name && p.key == key ==> p == Posting(name, key, p.ins) && q == Posting(name, key, q.ins);
    }
  }
}
