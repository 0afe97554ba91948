/** Character classes: bit sets of characters walked word by word, and the syntax tree of a
  class, one leaf for each of its ranges. */
module DfaCset {
  import opened DfaTree

  const WORD_BITS := 16

  // A word is the sequence of its bits, lowest first.
  type Bits = seq<bool>

  predicate IsWord(w: Bits) {
    |w| == WORD_BITS
  }

  function Zero(): Bits {
    seq(WORD_BITS, i => false)
  }

  function Ones(): Bits {
    seq(WORD_BITS, i => true)
  }

  ghost predicate IsSet(s: seq<Bits>, size: nat) {
    |s| == 1 + size / WORD_BITS && forall i :: 0 <= i < |s| ==> IsWord(s[i])
  }

  /** m is a member of the set. */
  predicate Has(s: seq<Bits>, m: int)
    requires m >= 0
  {
    m / WORD_BITS < |s| && m % WORD_BITS < |s[m / WORD_BITS]| && s[m / WORD_BITS][m % WORD_BITS]
  }

  lemma Place(m: nat, w: nat, b: nat)
    requires b < WORD_BITS && m == w * WORD_BITS + b
    ensures m / WORD_BITS == w && m % WORD_BITS == b
  {
  }

  method AddSet(s: array<Bits>, size: nat, member: nat)
    requires IsSet(s[..], size) && member <= size
    modifies s
    ensures IsSet(s[..], size)
    ensures forall m: nat :: m <= size ==> (Has(s[..], m) <==> m == member || Has(old(s[..]), m))
  {
    var w, b := member / WORD_BITS, member % WORD_BITS;
    ghost var s0 := s[..];
    assert IsWord(s0[w]);
    s[w] := s[w][b := true];
    assert s[..] == s0[w := s0[w][b := true]];
  }

  /** Turns every member into a non-member and the other way round. */
  method Complement(s: array<Bits>, size: nat)
    requires IsSet(s[..], size)
    modifies s
    ensures IsSet(s[..], size)
    ensures forall m: nat :: m <= size ==> (Has(s[..], m) <==> !Has(old(s[..]), m))
  {
    ghost var s0 := s[..];
    var i := 0;
    while i < s.Length
      invariant i <= s.Length && |s0| == s.Length
      invariant forall k :: 0 <= k < i ==>
        |s[k]| == WORD_BITS && forall b :: 0 <= b < WORD_BITS ==> s[k][b] == !s0[k][b]
      invariant forall k :: i <= k < s.Length ==> s[k] == s0[k]
    {
      var w := s[i];
      assert w == s0[i] && IsWord(s0[i]);
      s[i] := seq(WORD_BITS, b requires 0 <= b < WORD_BITS => !w[b]);
      i := i + 1;
    }
    forall m: nat | m <= size
      ensures Has(s[..], m) <==> !Has(s0, m)
    {
      assert s[..][m / WORD_BITS] == s[m / WORD_BITS] && IsWord(s0[m / WORD_BITS]);
    }
  }

  /** The first member from m on whose membership is not skip, or -1. Whole words of one kind
      are skipped at once. */
  method Seek(s: array<Bits>, size: nat, m: nat, skip: bool) returns (r: int)
    requires IsSet(s[..], size)
    ensures r == -1 || m <= r <= size
    ensures r != -1 ==> Has(s[..], r) != skip && forall c :: m <= c < r ==> Has(s[..], c) == skip
    ensures r == -1 ==> forall c :: m <= c <= size ==> Has(s[..], c) == skip
  {
    var member, i := m, size - m;
    var sw, b := m / WORD_BITS, m % WORD_BITS;
    var whole := if skip then Ones() else Zero();
    while i >= 0
      invariant m <= member && i == size - member && member == sw * WORD_BITS + b && 0 <= b < WORD_BITS
      invariant forall c :: m <= c < member && c <= size ==> Has(s[..], c) == skip
      decreases i + 1
    {
      Place(member, sw, b);
      assert IsWord(s[..][sw]) && s[..][sw] == s[sw];
      if b == 0 && s[sw] == whole {
        SkipWord(s[..], size, sw, skip);
        member, sw, i := member + WORD_BITS, sw + 1, i - WORD_BITS;
      } else if s[sw][b] != skip {
        return member;
      } else {
        member, i, b := member + 1, i - 1, b + 1;
        if b == WORD_BITS {
          b, sw := 0, sw + 1;
        }
      }
    }
    return -1;
  }

  lemma SkipWord(s: seq<Bits>, size: nat, w: nat, skip: bool)
    requires IsSet(s, size) && w < |s| && s[w] == if skip then Ones() else Zero()
    ensures forall c :: w * WORD_BITS <= c < w * WORD_BITS + WORD_BITS ==> Has(s, c) == skip
  {
    forall c | w * WORD_BITS <= c < w * WORD_BITS + WORD_BITS
      ensures Has(s, c) == skip
    {
      Place(c, w, c - w * WORD_BITS);
    }
  }

  /** The first member from m on, or -1. */
  method TravSet(s: array<Bits>, size: nat, m: nat) returns (r: int)
    requires IsSet(s[..], size)
    ensures r == -1 || m <= r <= size
    ensures r != -1 ==> Has(s[..], r) && forall c :: m <= c < r ==> !Has(s[..], c)
    ensures r == -1 ==> forall c :: m <= c <= size ==> !Has(s[..], c)
  {
    r := Seek(s, size, m, false);
  }

  /** The first non-member from m on, or -1. */
  method TraviSet(s: array<Bits>, size: nat, m: nat) returns (r: int)
    requires IsSet(s[..], size)
    ensures r == -1 || m <= r <= size
    ensures r != -1 ==> !Has(s[..], r) && forall c :: m <= c < r ==> Has(s[..], c)
    ensures r == -1 ==> forall c :: m <= c <= size ==> Has(s[..], c)
  {
    r := Seek(s, size, m, true);
  }

  // ---------------------------------------------------------------- the tree of a class

  /** The tree matches the one-character words of the members below bound, and no others. */
  ghost predicate ClassBelow(t: Tnode, s: seq<Bits>, bound: int) {
    forall w: Word :: Matches(t, w) <==> |w| == 1 && 0 <= w[0] < bound && Has(s, w[0])
  }

  /** New positions, each used once. */
  ghost predicate NewLeaves(t: Tnode, from: nat, upto: nat, size: nat) {
    && Linear(t)
    && (forall p: nat :: p in Positions(t) <==> from < p <= upto)
    && (forall p: nat :: p in Positions(t) ==> 0 <= At(t, p).ch0 <= At(t, p).ch1 <= size)
  }

  lemma RangeLeaf(s: seq<Bits>, p: nat, lo: nat, hi: nat, bound: int)
    requires lo <= hi < bound
    requires forall c :: 0 <= c < lo ==> !Has(s, c)
    requires forall c :: lo <= c <= hi ==> Has(s, c)
    requires forall c :: hi < c < bound ==> !Has(s, c)
    ensures ClassBelow(Leaf(p, lo, hi), s, bound)
  {
  }

  lemma RangeMore(t: Tnode, s: seq<Bits>, p: nat, from: int, lo: int, hi: int, bound: int)
    requires ClassBelow(t, s, from) && 0 <= from <= lo <= hi < bound
    requires forall c :: from <= c < lo ==> !Has(s, c)
    requires forall c :: lo <= c <= hi ==> Has(s, c)
    requires forall c :: hi < c < bound ==> !Has(s, c)
    ensures ClassBelow(Or(t, Leaf(p, lo, hi)), s, bound)
  {
  }

  lemma MoreLeaves(t: Tnode, from: nat, p: nat, lo: int, hi: int, size: nat)
    requires NewLeaves(t, from, p, size) && from <= p && 0 <= lo <= hi <= size
    ensures NewLeaves(Or(t, Leaf(p + 1, lo, hi)), from, p + 1, size)
  {
    var leaf := Leaf(p + 1, lo, hi);
    var t' := Or(t, leaf);
    assert p + 1 !in Positions(t);
    assert Positions(leaf) == {p + 1} && Linear(t');
    forall q: nat
      ensures q in Positions(t') <==> from < q <= p + 1
      ensures q in Positions(t') ==> 0 <= At(t', q).ch0 <= At(t', q).ch1 <= size
    {
      assert q in Positions(t) <==> from < q <= p;
      assert q in Positions(leaf) <==> q == p + 1;
    }
  }

  lemma FirstLeaf(p: nat, lo: int, hi: int, size: nat)
    ensures NewLeaves(Epsilon, p, p, size)
    ensures 0 <= lo <= hi <= size ==> NewLeaves(Leaf(p + 1, lo, hi), p, p + 1, size)
  {
  }

  /** The tree of a class: one leaf for each maximal range of members. The empty class becomes
      the empty word. */
  method ClassTree(s: array<Bits>, size: nat, position: nat) returns (t: Tnode, position': nat)
    requires IsSet(s[..], size)
    ensures position' >= position && NewLeaves(t, position, position', size)
    ensures (exists c :: 0 <= c <= size && Has(s[..], c)) ==> ClassBelow(t, s[..], size + 1)
    ensures (forall c :: 0 <= c <= size ==> !Has(s[..], c)) ==> t == Epsilon
  {
    hide *;
    position' := position;
    var ch0 := TravSet(s, size, 0);
    FirstLeaf(position, ch0, size, size);
    if ch0 == -1 {
      return Epsilon, position;
    }
    position' := position + 1;
    var ch1 := TraviSet(s, size, ch0 + 1);
    if ch1 == -1 {
      t := Leaf(position', ch0, size);
      RangeLeaf(s[..], position', ch0, size, size + 1);
      return;
    }
    t := Leaf(position', ch0, ch1 - 1);
    RangeLeaf(s[..], position', ch0, ch1 - 1, ch1 + 1);
    FirstLeaf(position, ch0, ch1 - 1, size);
    ch0 := TravSet(s, size, ch1);
    while ch0 != -1
      invariant position' >= position && NewLeaves(t, position, position', size)
      invariant 0 <= ch1 <= size && ClassBelow(t, s[..], ch1 + 1) && !Has(s[..], ch1)
      invariant ch0 == -1 || ch1 < ch0 <= size
      invariant ch0 != -1 ==> Has(s[..], ch0) && forall c :: ch1 <= c < ch0 ==> !Has(s[..], c)
      invariant ch0 == -1 ==> forall c :: ch1 <= c <= size ==> !Has(s[..], c)
      decreases if ch0 == -1 then 0 else size + 1 - ch1
    {
      ghost var from := ch1 + 1;
      ch1 := TraviSet(s, size, ch0 + 1);
      var hi := if ch1 == -1 then size else ch1 - 1;
      RangeMore(t, s[..], position' + 1, from, ch0, hi, if ch1 == -1 then size + 1 else ch1 + 1);
      MoreLeaves(t, position, position', ch0, hi, size);
      position' := position' + 1;
      t := Or(t, Leaf(position', ch0, hi));
      if ch1 == -1 {
        return;
      }
      ch0 := TravSet(s, size, ch1);
    }
    ClassWider(t, s[..], ch1 + 1, size + 1);
  }

  lemma ClassWider(t: Tnode, s: seq<Bits>, from: int, bound: int)
    requires ClassBelow(t, s, from) && 0 <= from <= bound && forall c :: from <= c < bound ==> !Has(s, c)
    ensures ClassBelow(t, s, bound)
  {
  }
}
