/** The bit-parallel form of the levels: rows of 32-bit words in one buffer, one bit for each
  state, moved on by each character of text. */
module GrepBits {
  import opened DfaStates
  import opened GrepLevels

  const WORD_BITS := 32

  // A word is the sequence of its bits, lowest first.
  type Bits = seq<bool>

  ghost predicate Words(r: seq<Bits>) {
    forall i :: 0 <= i < |r| ==> |r[i]| == WORD_BITS
  }

  /** Bit s of the row at off. */
  predicate Bit(r: seq<Bits>, off: nat, s: nat) {
    off + s / WORD_BITS < |r| && s % WORD_BITS < |r[off + s / WORD_BITS]| && r[off + s / WORD_BITS][s % WORD_BITS]
  }

  /** Nothing outside the row of n words at off has changed. */
  ghost predicate OnlyRow(r0: seq<Bits>, r1: seq<Bits>, off: nat, n: nat) {
    && |r1| == |r0|
    && (forall i :: 0 <= i < |r0| && !(off <= i < off + n) ==> r1[i] == r0[i])
  }

  lemma SameRow(r0: seq<Bits>, r1: seq<Bits>, off: nat, n: nat, from: nat, s: nat)
    requires OnlyRow(r0, r1, off, n) && (from + n <= off || off + n <= from) && s / WORD_BITS < n
    ensures Bit(r1, from, s) == Bit(r0, from, s)
  {
  }

  lemma OnlyTrans(r0: seq<Bits>, r1: seq<Bits>, r2: seq<Bits>, off: nat, n: nat)
    requires OnlyRow(r0, r1, off, n) && OnlyRow(r1, r2, off, n)
    ensures OnlyRow(r0, r2, off, n)
  {
  }

  method SetBit(r: array<Bits>, off: nat, n: nat, s: nat)
    requires Words(r[..]) && off + n <= r.Length && s / WORD_BITS < n
    modifies r
    ensures Words(r[..]) && OnlyRow(old(r[..]), r[..], off, n)
    ensures forall q: nat :: Bit(r[..], off, q) <==> Bit(old(r[..]), off, q) || q == s
  {
    ghost var r0 := r[..];
    var w := off + s / WORD_BITS;
    r[w] := r[w][s % WORD_BITS := true];
    assert r[..] == r0[w := r0[w][s % WORD_BITS := true]];
    SetBitIs(r0, off, s);
  }

  lemma SetBitIs(r: seq<Bits>, off: nat, s: nat)
    requires Words(r) && off + s / WORD_BITS < |r|
    ensures var w := off + s / WORD_BITS;
      forall q: nat :: Bit(r[w := r[w][s % WORD_BITS := true]], off, q) <==> Bit(r, off, q) || q == s
  {
    var w := off + s / WORD_BITS;
    var r' := r[w := r[w][s % WORD_BITS := true]];
    forall q: nat
      ensures Bit(r', off, q) <==> Bit(r, off, q) || q == s
    {
      assert q / WORD_BITS * WORD_BITS + q % WORD_BITS == q && s / WORD_BITS * WORD_BITS + s % WORD_BITS == s;
    }
  }

  // ---------------------------------------------------------------- shifting a row

  /** State s leads to q: by any transition, or by one on ch. */
  ghost predicate Leads(auto: seq<Node>, any: bool, ch: int, s: nat, q: nat) {
    if any then GoesAny(auto, s, q) else Goes(auto, s, ch, q)
  }

  ghost predicate Follows(t: Tran, any: bool, ch: int) {
    any || t.ch0 <= ch <= t.ch1
  }

  /** Sets the bits of the states one transition from s. */
  method SetTargets(auto: seq<Node>, r: array<Bits>, dst: nat, n: nat, any: bool, ch: int, s: nat)
    requires AutoOk(auto) && Words(r[..]) && dst + n <= r.Length && |auto| <= n * WORD_BITS && s < |auto|
    modifies r
    ensures Words(r[..]) && OnlyRow(old(r[..]), r[..], dst, n)
    ensures forall q: nat :: Bit(r[..], dst, q) <==> Bit(old(r[..]), dst, q) || Leads(auto, any, ch, s, q)
  {
    ghost var r0 := r[..];
    var trans := auto[s].trans;
    var i := |trans|;
    assert NodeOk(trans, |auto|);
    while i > 0
      invariant 0 <= i <= |trans| && Words(r[..]) && OnlyRow(r0, r[..], dst, n)
      invariant forall q: nat :: Bit(r[..], dst, q) <==> Bit(r0, dst, q) || Later(trans, i, any, ch, q)
    {
      i := i - 1;
      ghost var r1 := r[..];
      assert TranOk(trans[i], |auto|);
      if any || (ch >= trans[i].ch0 && ch <= trans[i].ch1) {
        SetBit(r, dst, n, trans[i].to);
        OnlyTrans(r0, r1, r[..], dst, n);
      }
      LaterMore(trans, i, any, ch);
    }
    LaterAll(auto, s, any, ch);
  }

  ghost predicate Later(trans: seq<Tran>, i: int, any: bool, ch: int, q: nat) {
    exists k :: i <= k < |trans| && k >= 0 && Follows(trans[k], any, ch) && trans[k].to == q
  }

  lemma LaterMore(trans: seq<Tran>, i: nat, any: bool, ch: int)
    requires i < |trans|
    ensures forall q: nat :: Later(trans, i, any, ch, q) <==>
      Later(trans, i + 1, any, ch, q) || (Follows(trans[i], any, ch) && q == trans[i].to)
  {
    forall q: nat
      ensures Later(trans, i, any, ch, q) <==>
        Later(trans, i + 1, any, ch, q) || (Follows(trans[i], any, ch) && q == trans[i].to)
    {
      if Later(trans, i + 1, any, ch, q) {
        var k :| i + 1 <= k < |trans| && k >= 0 && Follows(trans[k], any, ch) && trans[k].to == q;
        assert i <= k;
      }
    }
  }

  lemma LaterAll(auto: seq<Node>, s: nat, any: bool, ch: int)
    requires s < |auto|
    ensures forall q: nat :: Later(auto[s].trans, 0, any, ch, q) <==> Leads(auto, any, ch, s, q)
  {
    forall q: nat
      ensures Later(auto[s].trans, 0, any, ch, q) <==> Leads(auto, any, ch, s, q)
    {
      var trans := auto[s].trans;
      if Leads(auto, any, ch, s, q) {
        if any {
          var k :| 0 <= k < |trans| && trans[k].to == q;
          assert Follows(trans[k], any, ch);
        } else {
          var k :| 0 <= k < |trans| && trans[k].ch0 <= ch <= trans[k].ch1 && trans[k].to == q;
          assert Follows(trans[k], any, ch);
        }
      }
    }
  }

  /** Some state below bound with its bit set at src leads to q. */
  ghost predicate From(auto: seq<Node>, r: seq<Bits>, src: nat, any: bool, ch: int, bound: int, q: nat) {
    exists s: nat :: s < bound && Bit(r, src, s) && Leads(auto, any, ch, s, q)
  }

  lemma FromMore(auto: seq<Node>, r: seq<Bits>, src: nat, any: bool, ch: int, s: nat)
    ensures forall q: nat :: From(auto, r, src, any, ch, s + 1, q) <==>
      From(auto, r, src, any, ch, s, q) || (Bit(r, src, s) && Leads(auto, any, ch, s, q))
  {
    forall q: nat
      ensures From(auto, r, src, any, ch, s + 1, q) <==>
        From(auto, r, src, any, ch, s, q) || (Bit(r, src, s) && Leads(auto, any, ch, s, q))
    {
      if From(auto, r, src, any, ch, s, q) {
        var x: nat :| x < s && Bit(r, src, x) && Leads(auto, any, ch, x, q);
        assert x < s + 1;
      }
    }
  }

  /** The bits of the states reached so far. */
  ghost predicate Reached(auto: seq<Node>, r0: seq<Bits>, src: nat, r: seq<Bits>, dst: nat, n: nat, any: bool, ch: int,
                          bound: int) {
    forall q: nat :: q / WORD_BITS < n ==> (Bit(r, dst, q) <==> From(auto, r0, src, any, ch, bound, q))
  }

  /** No bit is set for a number that is not a state. */
  ghost predicate Clear(auto: seq<Node>, r: seq<Bits>, off: nat, n: nat) {
    forall s: nat :: s >= |auto| && s / WORD_BITS < n ==> !Bit(r, off, s)
  }

  /** One state's bit: set in the mask, its targets are set. */
  method ShiftOne(auto: seq<Node>, r: array<Bits>, dst: nat, ghost src: nat, n: nat, any: bool, ch: int, s: nat,
                  bit: bool, ghost r0: seq<Bits>)
    requires AutoOk(auto) && Words(r[..]) && dst + n <= r.Length && |auto| <= n * WORD_BITS
    requires bit == Bit(r0, src, s) && (bit ==> s < |auto|) && Reached(auto, r0, src, r[..], dst, n, any, ch, s)
    requires OnlyRow(r0, r[..], dst, n)
    modifies r
    ensures Words(r[..]) && OnlyRow(r0, r[..], dst, n) && Reached(auto, r0, src, r[..], dst, n, any, ch, s + 1)
  {
    ghost var r1 := r[..];
    FromMore(auto, r0, src, any, ch, s);
    if bit {
      SetTargets(auto, r, dst, n, any, ch, s);
      OnlyTrans(r0, r1, r[..], dst, n);
    }
  }

  method ClearRow(r: array<Bits>, off: nat, n: nat)
    requires Words(r[..]) && off + n <= r.Length
    modifies r
    ensures Words(r[..]) && OnlyRow(old(r[..]), r[..], off, n)
    ensures forall s: nat :: s / WORD_BITS < n ==> !Bit(r[..], off, s)
  {
    ghost var r0 := r[..];
    var j := 0;
    while j < n
      invariant j <= n && Words(r[..]) && OnlyRow(r0, r[..], off, n)
      invariant forall k :: off <= k < off + j ==> r[k] == seq(WORD_BITS, i => false)
    {
      r[off + j] := seq(WORD_BITS, i => false);
      j := j + 1;
    }
  }

  /** What is left of the source word: its bits from s on. */
  ghost predicate MaskAt(r: seq<Bits>, src: nat, mask: Bits, s: nat, left: nat) {
    |mask| == WORD_BITS && left <= WORD_BITS && forall k :: 0 <= k < left ==> mask[k] == Bit(r, src, s + k)
  }

  lemma MaskStart(r: seq<Bits>, src: nat, w: nat)
    requires Words(r) && src + w < |r|
    ensures MaskAt(r, src, r[src + w], WORD_BITS * w, WORD_BITS)
  {
    var word := r[src + w];
    forall k: nat | k < WORD_BITS
      ensures word[k] == Bit(r, src, WORD_BITS * w + k)
    {
      assert (WORD_BITS * w + k) / WORD_BITS == w && (WORD_BITS * w + k) % WORD_BITS == k;
    }
  }

  lemma MaskNext(r: seq<Bits>, src: nat, mask: Bits, s: nat, left: nat)
    requires MaskAt(r, src, mask, s, left) && left >= 4
    ensures MaskAt(r, src, mask[4..] + [false, false, false, false], s + 4, left - 4)
  {
    var mask' := mask[4..] + [false, false, false, false];
    forall k | 0 <= k < left - 4
      ensures mask'[k] == Bit(r, src, s + 4 + k)
    {
      assert mask'[k] == mask[k + 4];
    }
  }

  /** Four states at a time: a group whose bits are all clear is passed over. */
  method ShiftFour(auto: seq<Node>, r: array<Bits>, dst: nat, ghost src: nat, n: nat, any: bool, ch: int, s: nat,
                   mask: Bits, ghost r0: seq<Bits>)
    requires AutoOk(auto) && Words(r[..]) && dst + n <= r.Length && |auto| <= n * WORD_BITS
    requires MaskAt(r0, src, mask, s, 4) && Clear(auto, r0, src, n) && s + 4 <= n * WORD_BITS
    requires Reached(auto, r0, src, r[..], dst, n, any, ch, s) && OnlyRow(r0, r[..], dst, n)
    modifies r
    ensures Words(r[..]) && OnlyRow(r0, r[..], dst, n) && Reached(auto, r0, src, r[..], dst, n, any, ch, s + 4)
  {
    BitsClear(auto, r0, src, n, mask, s);
    hide *;
    if mask[0] || mask[1] || mask[2] || mask[3] {
      ShiftOne(auto, r, dst, src, n, any, ch, s, mask[0], r0);
      ShiftOne(auto, r, dst, src, n, any, ch, s + 1, mask[1], r0);
      ShiftOne(auto, r, dst, src, n, any, ch, s + 2, mask[2], r0);
      ShiftOne(auto, r, dst, src, n, any, ch, s + 3, mask[3], r0);
    } else {
      ReachedNone(auto, r0, src, r[..], dst, n, any, ch, s);
    }
  }

  lemma BitsClear(auto: seq<Node>, r: seq<Bits>, src: nat, n: nat, mask: Bits, s: nat)
    requires MaskAt(r, src, mask, s, 4) && Clear(auto, r, src, n) && s + 4 <= n * WORD_BITS
    ensures |mask| == WORD_BITS
    ensures mask[0] == Bit(r, src, s) && mask[1] == Bit(r, src, s + 1) && mask[2] == Bit(r, src, s + 2)
    ensures mask[3] == Bit(r, src, s + 3)
    ensures (mask[0] ==> s < |auto|) && (mask[1] ==> s + 1 < |auto|) && (mask[2] ==> s + 2 < |auto|)
    ensures (mask[3] ==> s + 3 < |auto|)
  {
    assert mask[0] == Bit(r, src, s + 0);
  }

  lemma ReachedNone(auto: seq<Node>, r0: seq<Bits>, src: nat, r: seq<Bits>, dst: nat, n: nat, any: bool, ch: int,
                    s: nat)
    requires Reached(auto, r0, src, r, dst, n, any, ch, s)
    requires !Bit(r0, src, s) && !Bit(r0, src, s + 1) && !Bit(r0, src, s + 2) && !Bit(r0, src, s + 3)
    ensures Reached(auto, r0, src, r, dst, n, any, ch, s + 4)
  {
    FromMore(auto, r0, src, any, ch, s);
    FromMore(auto, r0, src, any, ch, s + 1);
    FromMore(auto, r0, src, any, ch, s + 2);
    FromMore(auto, r0, src, any, ch, s + 3);
  }

  /** Sets in the row at dst the states one transition from those in the row at src: any
      transition, or one on ch. One loop stands for mask_shift and shift, which differ only in
      the test of the character. */
  method Shift(auto: seq<Node>, r: array<Bits>, dst: nat, src: nat, n: nat, any: bool, ch: int)
    requires AutoOk(auto) && Words(r[..]) && dst + n <= r.Length && src + n <= r.Length
    requires (dst + n <= src || src + n <= dst)
    requires n == (|auto| + WORD_BITS) / WORD_BITS && Clear(auto, r[..], src, n)
    modifies r
    ensures Words(r[..]) && OnlyRow(old(r[..]), r[..], dst, n)
    ensures Reached(auto, old(r[..]), src, r[..], dst, n, any, ch, |auto|)
  {
    hide *;
    ghost var r0 := r[..];
    Words32(n, |auto|);
    SomeState(auto);
    ClearRow(r, dst, n);
    ReachedStart(auto, r0, src, r[..], dst, n, any, ch);
    var s, wno := 0, 0;
    while true
      invariant s == 32 * wno && s < |auto| && wno < n
      invariant Words(r[..]) && OnlyRow(r0, r[..], dst, n) && Reached(auto, r0, src, r[..], dst, n, any, ch, s)
      decreases n - wno
    {
      SourceWord(r0, r[..], dst, n, src, wno);
      var mask := r[src + wno];
      MaskStart(r0, src, wno);
      wno := wno + 1;
      var j := 0;
      while j < 8
        invariant 0 <= j <= 8 && s == 32 * (wno - 1) + 4 * j && MaskAt(r0, src, mask, s, 32 - 4 * j) && |mask| == 32
        invariant Words(r[..]) && OnlyRow(r0, r[..], dst, n) && Reached(auto, r0, src, r[..], dst, n, any, ch, s)
        invariant s < |auto|
      {
        MaskPart(r0, src, mask, s, 32 - 4 * j);
        ShiftFour(auto, r, dst, src, n, any, ch, s, mask, r0);
        MaskNext(r0, src, mask, s, 32 - 4 * j);
        s := s + 4;
        if s >= |auto| {
          ReachedAll(auto, r0, src, r[..], dst, n, any, ch, s);
          return;
        }
        mask := mask[4..] + [false, false, false, false];
        j := j + 1;
      }
    }
  }

  lemma SomeState(auto: seq<Node>)
    requires AutoOk(auto)
    ensures |auto| > 0
  {
  }

  lemma Words32(n: nat, states: nat)
    ensures n == (states + WORD_BITS) / WORD_BITS ==>
      states < n * 32 <= states + 32 && states <= n * WORD_BITS && WORD_BITS == 32
  {
  }

  lemma ReachedStart(auto: seq<Node>, r0: seq<Bits>, src: nat, r: seq<Bits>, dst: nat, n: nat, any: bool, ch: int)
    requires forall s: nat :: s / WORD_BITS < n ==> !Bit(r, dst, s)
    ensures Reached(auto, r0, src, r, dst, n, any, ch, 0)
  {
  }

  lemma SourceWord(r0: seq<Bits>, r: seq<Bits>, dst: nat, n: nat, src: nat, w: nat)
    requires OnlyRow(r0, r, dst, n) && Words(r0) && w < n && src + n <= |r0| && (dst + n <= src || src + n <= dst)
    ensures src + w < |r| == |r0| && r[src + w] == r0[src + w] && |r[src + w]| == 32
  {
  }

  lemma MaskPart(r: seq<Bits>, src: nat, mask: Bits, s: nat, left: nat)
    requires MaskAt(r, src, mask, s, left) && left >= 4
    ensures MaskAt(r, src, mask, s, 4)
  {
  }

  lemma ReachedAll(auto: seq<Node>, r0: seq<Bits>, src: nat, r: seq<Bits>, dst: nat, n: nat, any: bool, ch: int, s: nat)
    requires Reached(auto, r0, src, r, dst, n, any, ch, s) && s >= |auto|
    ensures Reached(auto, r0, src, r, dst, n, any, ch, |auto|)
  {
    forall q: nat
      ensures From(auto, r0, src, any, ch, s, q) <==> From(auto, r0, src, any, ch, |auto|, q)
    {
      if From(auto, r0, src, any, ch, s, q) {
        var x: nat :| x < s && Bit(r0, src, x) && Leads(auto, any, ch, x, q);
        assert x < |auto|;
      }
      if From(auto, r0, src, any, ch, |auto|, q) {
        var x: nat :| x < |auto| && Bit(r0, src, x) && Leads(auto, any, ch, x, q);
        assert x < s;
      }
    }
  }

  // ---------------------------------------------------------------- levels in rows

  /** Each bit of the row is the union of those of two rows. */
  ghost predicate IsOr(r0: seq<Bits>, src1: nat, src2: nat, r: seq<Bits>, dst: nat, n: nat) {
    forall s: nat :: s / WORD_BITS < n ==> (Bit(r, dst, s) <==> Bit(r0, src1, s) || Bit(r0, src2, s))
  }

  /** The union of two rows; the destination may be the second of them. */
  method Or(r: array<Bits>, dst: nat, src1: nat, src2: nat, n: nat)
    requires Words(r[..]) && dst + n <= r.Length && src1 + n <= r.Length && src2 + n <= r.Length
    requires (dst + n <= src1 || src1 + n <= dst) && (dst == src2 || dst + n <= src2 || src2 + n <= dst)
    modifies r
    ensures Words(r[..]) && OnlyRow(old(r[..]), r[..], dst, n) && IsOr(old(r[..]), src1, src2, r[..], dst, n)
  {
    ghost var r0 := r[..];
    var i := 0;
    while i < n
      invariant i <= n && Words(r[..]) && OnlyRow(r0, r[..], dst, n) && IsOr(r0, src1, src2, r[..], dst, i)
      invariant forall k :: dst + i <= k < dst + n ==> r[k] == r0[k]
    {
      ghost var r1 := r[..];
      var a, b := r[src1 + i], r[src2 + i];
      assert a == r0[src1 + i] && b == r0[src2 + i];
      r[dst + i] := seq(WORD_BITS, k requires 0 <= k < WORD_BITS => a[k] || b[k]);
      OrMore(r0, src1, src2, r1, r[..], dst, i);
      i := i + 1;
    }
  }

  lemma OrMore(r0: seq<Bits>, src1: nat, src2: nat, r1: seq<Bits>, r2: seq<Bits>, dst: nat, i: nat)
    requires IsOr(r0, src1, src2, r1, dst, i) && |r2| == |r1| && dst + i < |r1| && src1 + i < |r0| && src2 + i < |r0|
    requires forall k :: 0 <= k < |r1| && k != dst + i ==> r2[k] == r1[k]
    requires OrWord(r0[src1 + i], r0[src2 + i], r2[dst + i])
    ensures IsOr(r0, src1, src2, r2, dst, i + 1)
  {
    forall s: nat | s / WORD_BITS < i + 1
      ensures Bit(r2, dst, s) <==> Bit(r0, src1, s) || Bit(r0, src2, s)
    {
      if s / WORD_BITS < i {
        assert Bit(r1, dst, s) <==> Bit(r0, src1, s) || Bit(r0, src2, s);
        assert r2[dst + s / WORD_BITS] == r1[dst + s / WORD_BITS];
      }
    }
  }

  ghost predicate OrWord(a: Bits, b: Bits, c: Bits) {
    |a| == |b| == |c| == WORD_BITS && forall k :: 0 <= k < WORD_BITS ==> c[k] == (a[k] || b[k])
  }

  /** The row at off holds level d of the text w. */
  ghost predicate LevelAt(auto: seq<Node>, r: seq<Bits>, off: nat, n: nat, d: int, w: Text) {
    forall s: nat :: s / WORD_BITS < n ==> (Bit(r, off, s) <==> Near(auto, d, w, s))
  }

  lemma LevelClear(auto: seq<Node>, r: seq<Bits>, off: nat, n: nat, d: int, w: Text)
    requires AutoOk(auto) && LevelAt(auto, r, off, n, d, w)
    ensures Clear(auto, r, off, n)
  {
    forall s: nat | s >= |auto| && s / WORD_BITS < n
      ensures !Bit(r, off, s)
    {
      if Near(auto, d, w, s) { StaysInside(auto, d, w, s); }
    }
  }

  lemma OrClear(auto: seq<Node>, r0: seq<Bits>, a: nat, b: nat, r: seq<Bits>, dst: nat, n: nat)
    requires IsOr(r0, a, b, r, dst, n) && Clear(auto, r0, a, n) && Clear(auto, r0, b, n)
    ensures Clear(auto, r, dst, n)
  {
  }

  lemma SameLevel(auto: seq<Node>, r0: seq<Bits>, r1: seq<Bits>, changed: nat, off: nat, n: nat, d: int, w: Text)
    requires LevelAt(auto, r0, off, n, d, w) && OnlyRow(r0, r1, changed, n)
    requires (off + n <= changed || changed + n <= off)
    ensures LevelAt(auto, r1, off, n, d, w)
  {
    forall s: nat | s / WORD_BITS < n
      ensures Bit(r1, off, s) == Bit(r0, off, s)
    {
      SameRow(r0, r1, changed, n, off, s);
    }
  }

  /** A row shifted from a row at level d. */
  lemma FromLevel(auto: seq<Node>, r: seq<Bits>, src: nat, n: nat, d: int, w: Text, ch: int, q: nat)
    requires AutoOk(auto) && LevelAt(auto, r, src, n, d, w) && |auto| <= n * WORD_BITS
    ensures From(auto, r, src, false, ch, |auto|, q) <==> NearOn(auto, d, w, ch, q)
  {
    if From(auto, r, src, false, ch, |auto|, q) {
      var s: nat :| s < |auto| && Bit(r, src, s) && Leads(auto, false, ch, s, q);
      assert Near(auto, d, w, s) && Goes(auto, s, ch, q);
    }
    if NearOn(auto, d, w, ch, q) {
      var s: nat :| Near(auto, d, w, s) && Goes(auto, s, ch, q);
      assert s / WORD_BITS < n;
      assert Bit(r, src, s) && Leads(auto, false, ch, s, q);
    }
  }

  /** A row shifted from the union of a level of w and the same level of another text. */
  lemma FromBoth(auto: seq<Node>, r0: seq<Bits>, a: nat, b: nat, r: seq<Bits>, src: nat, n: nat, d: int, w: Text,
                 v: Text, ch: int, q: nat)
    requires AutoOk(auto) && LevelAt(auto, r0, a, n, d, w) && LevelAt(auto, r0, b, n, d, v) && |auto| <= n * WORD_BITS
    requires IsOr(r0, a, b, r, src, n)
    ensures From(auto, r, src, true, ch, |auto|, q) <==> NearAny(auto, d, w, q) || NearAny(auto, d, v, q)
  {
    if From(auto, r, src, true, ch, |auto|, q) {
      var s: nat :| s < |auto| && Bit(r, src, s) && Leads(auto, true, ch, s, q);
      assert s / WORD_BITS < n;
      assert GoesAny(auto, s, q) && (Near(auto, d, w, s) || Near(auto, d, v, s));
    }
    if NearAny(auto, d, w, q) {
      var s: nat :| Near(auto, d, w, s) && GoesAny(auto, s, q);
      assert s / WORD_BITS < n;
      assert Bit(r, src, s) && Leads(auto, true, ch, s, q);
    }
    if NearAny(auto, d, v, q) {
      var s: nat :| Near(auto, d, v, s) && GoesAny(auto, s, q);
      assert s / WORD_BITS < n;
      assert Bit(r, src, s) && Leads(auto, true, ch, s, q);
    }
  }

  lemma SameBits(r0: seq<Bits>, r1: seq<Bits>, changed: nat, n: nat, off: nat)
    requires OnlyRow(r0, r1, changed, n) && (off + n <= changed || changed + n <= off)
    ensures forall s: nat :: s / WORD_BITS < n ==> (Bit(r1, off, s) <==> Bit(r0, off, s))
  {
    forall s: nat | s / WORD_BITS < n
      ensures Bit(r1, off, s) == Bit(r0, off, s)
    {
      SameRow(r0, r1, changed, n, off, s);
    }
  }

  /** The five row operations of one level make the next level of the longer text. */
  lemma MoveRow(auto: seq<Node>, r0: seq<Bits>, r1: seq<Bits>, r2: seq<Bits>, r3: seq<Bits>, r4: seq<Bits>,
                r5: seq<Bits>, rj: nat, rj1: nat, tmp: nat, n: nat, d: nat, w: Text, ch: int)
    requires AutoOk(auto) && d > 0 && |auto| <= n * WORD_BITS && rj + 2 * n <= rj1 && rj1 + 2 * n <= tmp
    requires LevelAt(auto, r0, rj, n, d - 1, w) && LevelAt(auto, r0, rj + n, n, d, w)
    requires LevelAt(auto, r0, rj1, n, d - 1, w + [ch])
    requires IsOr(r0, rj, rj1, r1, tmp, n) && OnlyRow(r0, r1, tmp, n)
    requires Reached(auto, r1, tmp, r2, tmp + n, n, true, ch, |auto|) && OnlyRow(r1, r2, tmp + n, n)
    requires Reached(auto, r2, rj + n, r3, tmp, n, false, ch, |auto|) && OnlyRow(r2, r3, tmp, n)
    requires IsOr(r3, tmp + n, tmp, r4, tmp, n) && OnlyRow(r3, r4, tmp, n)
    requires IsOr(r4, tmp, rj, r5, rj1 + n, n)
    ensures LevelAt(auto, r5, rj1 + n, n, d, w + [ch])
  {
    SameLevel(auto, r0, r1, tmp, rj + n, n, d, w);
    SameLevel(auto, r1, r2, tmp + n, rj + n, n, d, w);
    SameLevel(auto, r0, r1, tmp, rj, n, d - 1, w);
    SameLevel(auto, r1, r2, tmp + n, rj, n, d - 1, w);
    SameLevel(auto, r2, r3, tmp, rj, n, d - 1, w);
    SameLevel(auto, r3, r4, tmp, rj, n, d - 1, w);
    SameBits(r2, r3, tmp, n, tmp + n);
    MoveBits(auto, r0, r1, r2, r3, r4, r5, rj, rj1, tmp, n, d, w, ch);
  }

  lemma MoveBits(auto: seq<Node>, r0: seq<Bits>, r1: seq<Bits>, r2: seq<Bits>, r3: seq<Bits>, r4: seq<Bits>,
                 r5: seq<Bits>, rj: nat, rj1: nat, tmp: nat, n: nat, d: nat, w: Text, ch: int)
    requires AutoOk(auto) && d > 0 && |auto| <= n * WORD_BITS
    requires LevelAt(auto, r0, rj, n, d - 1, w) && LevelAt(auto, r2, rj + n, n, d, w)
    requires LevelAt(auto, r0, rj1, n, d - 1, w + [ch])
    requires IsOr(r0, rj, rj1, r1, tmp, n) && Reached(auto, r1, tmp, r2, tmp + n, n, true, ch, |auto|)
    requires Reached(auto, r2, rj + n, r3, tmp, n, false, ch, |auto|)
    requires forall s: nat :: s / WORD_BITS < n ==> (Bit(r3, tmp + n, s) <==> Bit(r2, tmp + n, s))
    requires IsOr(r3, tmp + n, tmp, r4, tmp, n) && LevelAt(auto, r4, rj, n, d - 1, w)
    requires IsOr(r4, tmp, rj, r5, rj1 + n, n)
    ensures LevelAt(auto, r5, rj1 + n, n, d, w + [ch])
  {
    hide AutoOk, Bit, From, Near;
    forall s: nat | s / WORD_BITS < n
      ensures Bit(r5, rj1 + n, s) <==> Near(auto, d, w + [ch], s)
    {
      FromBoth(auto, r0, rj, rj1, r1, tmp, n, d - 1, w, w + [ch], ch, s);
      FromLevel(auto, r2, rj + n, n, d, w, ch, s);
      LevelStep(auto, d, w, ch, s);
    }
  }

  // ---------------------------------------------------------------- move

  /** Where level d of the rows at base starts. */
  function Row(base: nat, n: nat, d: nat): nat {
    base + d * n
  }

  lemma RowNext(base: nat, n: nat, d: nat)
    ensures Row(base, n, 0) == base && Row(base, n, d + 1) == Row(base, n, d) + n
  {
  }

  lemma {:induction false} RowOrder(base: nat, n: nat, d: nat, e: nat)
    requires d < e
    ensures Row(base, n, d) + n <= Row(base, n, e)
    decreases e
  {
    RowNext(base, n, e - 1);
    if d < e - 1 { RowOrder(base, n, d, e - 1); }
  }

  /** The rows at base hold the levels 0..range of the text w. */
  ghost predicate LevelsAt(auto: seq<Node>, r: seq<Bits>, base: nat, n: nat, range: nat, w: Text) {
    forall d: nat :: d <= range ==> LevelAt(auto, r, Row(base, n, d), n, d, w)
  }

  lemma LevelOf(auto: seq<Node>, r: seq<Bits>, base: nat, n: nat, range: nat, w: Text, d: nat)
    requires LevelsAt(auto, r, base, n, range, w) && d <= range
    ensures LevelAt(auto, r, Row(base, n, d), n, d, w)
  {
  }

  /** Nothing below bound changed. */
  ghost predicate SameBelow(r0: seq<Bits>, r1: seq<Bits>, bound: nat) {
    |r1| == |r0| && forall i :: 0 <= i < bound && i < |r0| ==> r1[i] == r0[i]
  }

  lemma LevelsKept(auto: seq<Node>, r0: seq<Bits>, r1: seq<Bits>, bound: nat, base: nat, n: nat, range: nat, w: Text)
    requires LevelsAt(auto, r0, base, n, range, w) && SameBelow(r0, r1, bound) && Row(base, n, range) + n <= bound
    ensures LevelsAt(auto, r1, base, n, range, w)
  {
    forall d: nat | d <= range
      ensures LevelAt(auto, r1, Row(base, n, d), n, d, w)
    {
      LevelOf(auto, r0, base, n, range, w, d);
      if d < range { RowOrder(base, n, d, range); }
      LevelBelow(auto, r0, r1, bound, Row(base, n, d), n, d, w);
    }
  }

  lemma LevelBelow(auto: seq<Node>, r0: seq<Bits>, r1: seq<Bits>, bound: nat, off: nat, n: nat, d: int, w: Text)
    requires LevelAt(auto, r0, off, n, d, w) && SameBelow(r0, r1, bound) && off + n <= bound
    ensures LevelAt(auto, r1, off, n, d, w)
  {
    forall s: nat | s / WORD_BITS < n
      ensures Bit(r1, off, s) == Bit(r0, off, s)
    {
    }
  }

  /** One more level of the rows of the longer text. rj is the row of the level below of the
      text so far, rj1 that of the longer text. */
  method MoveLevel(auto: seq<Node>, r: array<Bits>, rj: nat, rj1: nat, tmp: nat, n: nat, ghost d: nat, ghost w: Text,
                   ch: int)
    requires AutoOk(auto) && Words(r[..]) && d > 0 && n == (|auto| + WORD_BITS) / WORD_BITS
    requires rj + 2 * n <= rj1 && rj1 + 2 * n <= tmp && tmp + 2 * n <= r.Length
    requires LevelAt(auto, r[..], rj, n, d - 1, w) && LevelAt(auto, r[..], rj + n, n, d, w)
    requires LevelAt(auto, r[..], rj1, n, d - 1, w + [ch])
    modifies r
    ensures Words(r[..]) && SameBelow(old(r[..]), r[..], rj1 + n) && LevelAt(auto, r[..], rj1 + n, n, d, w + [ch])
  {
    hide *;
    ghost var r0 := r[..];
    Words32(n, |auto|);
    Or(r, tmp, rj, rj1, n);
    ghost var r1 := r[..];
    LevelClear(auto, r0, rj, n, d - 1, w);
    LevelClear(auto, r0, rj1, n, d - 1, w + [ch]);
    OrClear(auto, r0, rj, rj1, r1, tmp, n);
    Shift(auto, r, tmp + n, tmp, n, true, ch);
    ghost var r2 := r[..];
    SameLevel(auto, r0, r1, tmp, rj + n, n, d, w);
    SameLevel(auto, r1, r2, tmp + n, rj + n, n, d, w);
    LevelClear(auto, r2, rj + n, n, d, w);
    Shift(auto, r, tmp, rj + n, n, false, ch);
    ghost var r3 := r[..];
    Or(r, tmp, tmp + n, tmp, n);
    ghost var r4 := r[..];
    Or(r, rj1 + n, tmp, rj, n);
    MoveRow(auto, r0, r1, r2, r3, r4, r[..], rj, rj1, tmp, n, d, w, ch);
    FiveRows(r0, r1, r2, r3, r4, r[..], tmp, n, rj1);
  }

  lemma FiveRows(r0: seq<Bits>, r1: seq<Bits>, r2: seq<Bits>, r3: seq<Bits>, r4: seq<Bits>, r5: seq<Bits>, tmp: nat,
                 n: nat, rj1: nat)
    requires OnlyRow(r0, r1, tmp, n) && OnlyRow(r1, r2, tmp + n, n) && OnlyRow(r2, r3, tmp, n)
    requires OnlyRow(r3, r4, tmp, n)
    requires OnlyRow(r4, r5, rj1 + n, n) && rj1 + 2 * n <= tmp
    ensures SameBelow(r0, r5, rj1 + n)
  {
  }

  /** Reads one more character: the rows at rj become, at rj1, those of the longer text. */
  method Move(auto: seq<Node>, r: array<Bits>, rj: nat, rj1: nat, tmp: nat, n: nat, range: nat, ghost w: Text, ch: int)
    requires AutoOk(auto) && Words(r[..]) && n == (|auto| + WORD_BITS) / WORD_BITS
    requires Row(rj, n, range) + n <= rj1 && Row(rj1, n, range) + n <= tmp <= r.Length
    requires (range > 0 ==> tmp + 2 * n <= r.Length)
    requires LevelsAt(auto, r[..], rj, n, range, w)
    modifies r
    ensures Words(r[..]) && SameBelow(old(r[..]), r[..], rj1) && LevelsAt(auto, r[..], rj1, n, range, w + [ch])
  {
    hide *;
    ghost var r0 := r[..];
    RowZero(rj, n, range);
    RowZero(rj1, n, range);
    LevelOf(auto, r0, rj, n, range, w, 0);
    RowNext(rj, n, 0);
    RowNext(rj1, n, 0);
    LevelClear(auto, r0, rj, n, 0, w);
    Words32(n, |auto|);
    Shift(auto, r, rj1, rj, n, false, ch);
    FirstLevel(auto, r0, rj, r[..], rj1, n, w, ch);
    RowBelow(r0, r[..], rj1, n);
    var d, a, b := 1, rj, rj1;
    while d <= range
      invariant 1 <= d <= range + 1 && a == Row(rj, n, d - 1) && b == Row(rj1, n, d - 1)
      invariant Words(r[..]) && SameBelow(r0, r[..], rj1) && LevelsUpTo(auto, r[..], rj1, n, d, w + [ch])
    {
      ghost var r1 := r[..];
      RowNext(rj, n, d - 1);
      RowNext(rj1, n, d - 1);
      Rows(rj, n, d, range);
      Rows(rj1, n, d, range);
      RowStart(rj, rj1, n, d);
      LevelOf(auto, r0, rj, n, range, w, d - 1);
      LevelOf(auto, r0, rj, n, range, w, d);
      LevelBelow(auto, r0, r1, rj1, Row(rj, n, d - 1), n, d - 1, w);
      LevelBelow(auto, r0, r1, rj1, Row(rj, n, d), n, d, w);
      LevelUpTo(auto, r1, rj1, n, d, w + [ch]);
      MoveLevel(auto, r, a, b, tmp, n, d, w, ch);
      NextUpTo(auto, r1, r[..], rj1, n, d, w + [ch]);
      BelowTrans(r0, r1, r[..], rj1, Row(rj1, n, d));
      a, b, d := a + n, b + n, d + 1;
    }
    AllLevels(auto, r[..], rj1, n, range, w + [ch]);
  }

  ghost predicate LevelsUpTo(auto: seq<Node>, r: seq<Bits>, base: nat, n: nat, upto: nat, w: Text) {
    forall d: nat :: d < upto ==> LevelAt(auto, r, Row(base, n, d), n, d, w)
  }

  lemma AllLevels(auto: seq<Node>, r: seq<Bits>, base: nat, n: nat, range: nat, w: Text)
    requires LevelsUpTo(auto, r, base, n, range + 1, w)
    ensures LevelsAt(auto, r, base, n, range, w)
  {
  }

  lemma LevelUpTo(auto: seq<Node>, r: seq<Bits>, base: nat, n: nat, d: nat, w: Text)
    requires LevelsUpTo(auto, r, base, n, d, w) && d > 0
    ensures LevelAt(auto, r, Row(base, n, d - 1), n, d - 1, w)
  {
  }

  lemma NextUpTo(auto: seq<Node>, r0: seq<Bits>, r1: seq<Bits>, base: nat, n: nat, d: nat, w: Text)
    requires LevelsUpTo(auto, r0, base, n, d, w) && SameBelow(r0, r1, Row(base, n, d))
    requires LevelAt(auto, r1, Row(base, n, d), n, d, w)
    ensures LevelsUpTo(auto, r1, base, n, d + 1, w)
  {
    forall e: nat | e < d
      ensures LevelAt(auto, r1, Row(base, n, e), n, e, w)
    {
      RowOrder(base, n, e, d);
      LevelBelow(auto, r0, r1, Row(base, n, d), Row(base, n, e), n, e, w);
    }
  }

  lemma BelowTrans(r0: seq<Bits>, r1: seq<Bits>, r2: seq<Bits>, bound: nat, more: nat)
    requires SameBelow(r0, r1, bound) && SameBelow(r1, r2, more) && bound <= more
    ensures SameBelow(r0, r2, bound)
  {
  }

  lemma RowBelow(r0: seq<Bits>, r1: seq<Bits>, off: nat, n: nat)
    requires OnlyRow(r0, r1, off, n)
    ensures SameBelow(r0, r1, off)
  {
  }

  lemma RowZero(base: nat, n: nat, range: nat)
    ensures base + n <= Row(base, n, range) + n && Row(base, n, 0) == base
  {
    if range > 0 { RowOrder(base, n, 0, range); }
  }

  /** Where the rows of one level and the next lie. */
  lemma Rows(base: nat, n: nat, d: nat, range: nat)
    requires 1 <= d <= range
    ensures Row(base, n, d) == Row(base, n, d - 1) + n && Row(base, n, d) + n <= Row(base, n, range) + n
  {
    RowNext(base, n, d - 1);
    if d < range { RowOrder(base, n, d, range); }
  }

  lemma RowStart(rj: nat, rj1: nat, n: nat, d: nat)
    ensures rj1 <= Row(rj1, n, d)
    ensures d >= 1 ==> rj1 <= Row(rj1, n, d - 1)
  {
  }

  lemma FirstLevel(auto: seq<Node>, r0: seq<Bits>, src: nat, r: seq<Bits>, dst: nat, n: nat, w: Text, ch: int)
    requires AutoOk(auto) && LevelAt(auto, r0, src, n, 0, w) && |auto| <= n * WORD_BITS
    requires Reached(auto, r0, src, r, dst, n, false, ch, |auto|)
    ensures LevelsUpTo(auto, r, dst, n, 1, w + [ch])
  {
    forall s: nat | s / WORD_BITS < n
      ensures Bit(r, dst, s) <==> Near(auto, 0, w + [ch], s)
    {
      FromLevel(auto, r0, src, n, 0, w, ch, s);
      LevelStep(auto, 0, w, ch, s);
    }
    RowNext(dst, n, 0);
  }
}
