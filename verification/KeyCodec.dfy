/** The compact form of keys in run files: each is coded by how it differs from the one before. */
module KeyCodec {
  const KEY_LEVEL_MAX := 5
  const MAX_PART := 0x8000_0000_0000_0000   // the parts of a key are signed 64-bit numbers

  ghost predicate KeyOk(key: seq<int>) {
    1 <= |key| <= KEY_LEVEL_MAX && forall i :: 0 <= i < |key| ==> 0 <= key[i] < MAX_PART
  }

  // What coder and decoder remember of the keys before.
  ghost predicate MemOk(mem: seq<int>) {
    |mem| == KEY_LEVEL_MAX && forall i :: 0 <= i < KEY_LEVEL_MAX ==> 0 <= mem[i] < MAX_PART
  }

  function Zeros(): seq<int> {
    seq(KEY_LEVEL_MAX, i => 0)
  }

  // ---------------------------------------------------------------- numbers

  ghost function IntBytes(d: nat): seq<int> {
    if d > 127 then [128 + d % 128] + IntBytes(d / 128) else [d]
  }

  /** Codes a number seven bits to a byte, the lowest first. */
  method EncodeInt(d: nat) returns (out: seq<int>)
    ensures out == IntBytes(d)
  {
    var n := d;
    out := [];
    while n > 127
      invariant out + IntBytes(n) == IntBytes(d)
    {
      assert out + IntBytes(n) == out + [128 + n % 128] + IntBytes(n / 128);
      out := out + [128 + n % 128];
      n := n / 128;
    }
    out := out + [n];
  }

  /** Reads back the number d that is coded at the front of src. */
  method DecodeInt(src: seq<int>, ghost d: nat, ghost after: seq<int>) returns (n: nat, left: seq<int>)
    requires src == IntBytes(d) + after
    ensures n == d && left == after
  {
    var r: nat := 1;
    ghost var e: nat := d;
    n, left := 0, src;
    while left[0] >= 128
      invariant left == IntBytes(e) + after && n + r * e == d && r > 0
      decreases e
    {
      Digit(n, r, e);
      assert left[0] == 128 + e % 128 && left[1..] == IntBytes(e / 128) + after;
      n := n + (left[0] - 128) * r;
      r := r * 128;
      left := left[1..];
      e := e / 128;
    }
    n := n + left[0] * r;
    left := left[1..];
  }

  lemma Digit(n: int, r: nat, e: nat)
    ensures n + r * e == n + (e % 128) * r + (r * 128) * (e / 128) && (e % 128) * r >= 0
  {
    assert e == e / 128 * 128 + e % 128;
    assert r * e == r * (e / 128 * 128) + r * (e % 128);
  }

  ghost function Pow128(n: nat): nat {
    if n == 0 then 1 else 128 * Pow128(n - 1)
  }

  lemma {:induction false} IntLength(d: nat, n: nat)
    requires n >= 1 && d < Pow128(n)
    ensures 1 <= |IntBytes(d)| <= n && forall i :: 0 <= i < |IntBytes(d)| ==> 0 <= IntBytes(d)[i] < 256
  {
    if d > 127 {
      assert n > 1;
      IntLength(d / 128, n - 1);
    }
  }

  // ---------------------------------------------------------------- keys

  ghost function Ints(s: seq<int>): seq<int>
    requires forall i :: 0 <= i < |s| ==> s[i] >= 0
  {
    if s == [] then [] else IntBytes(s[0]) + Ints(s[1..])
  }

  /** The first part that differs from what is remembered, or else the last part. */
  ghost predicate Differs(mem: seq<int>, key: seq<int>, i: int)
    requires |mem| == KEY_LEVEL_MAX && 1 <= |key| <= KEY_LEVEL_MAX
  {
    0 <= i < |key| && key[..i] == mem[..i] && (i < |key| - 1 ==> key[i] != mem[i])
  }

  ghost function FirstDiff(mem: seq<int>, key: seq<int>, i: nat): (r: nat)
    requires |mem| == KEY_LEVEL_MAX && 1 <= |key| <= KEY_LEVEL_MAX && i < |key| && key[..i] == mem[..i]
    ensures Differs(mem, key, r)
    decreases |key| - i
  {
    if key[i] != mem[i] || i == |key| - 1 then i
    else
      assert key[..i + 1] == key[..i] + [key[i]];
      FirstDiff(mem, key, i + 1)
  }

  lemma DiffIs(mem: seq<int>, key: seq<int>)
    requires MemOk(mem) && KeyOk(key)
    ensures Differs(mem, key, FirstDiff(mem, key, 0))
  {
  }

  /** A key as it is written: the place of the first difference and the number of parts; the
      difference there, if it is an increase; and the parts from there on. */
  ghost function KeyBytes(mem: seq<int>, key: seq<int>): seq<int>
    requires MemOk(mem) && KeyOk(key)
  {
    var f := FirstDiff(mem, key, 0);
    IntBytes(Leader(mem, key, f)) + Parts(mem, key, f)
  }

  ghost function Leader(mem: seq<int>, key: seq<int>, f: nat): nat
    requires f < |key| <= |mem|
  {
    f + 8 * |key| + if key[f] > mem[f] then 64 else 0
  }

  ghost function Parts(mem: seq<int>, key: seq<int>, f: nat): seq<int>
    requires KeyOk(key) && f < |key| <= |mem|
  {
    if key[f] > mem[f] then IntBytes(key[f] - mem[f]) + Ints(key[f + 1..]) else Ints(key[f..])
  }

  ghost function Remember(mem: seq<int>, key: seq<int>): seq<int>
    requires |mem| == KEY_LEVEL_MAX && |key| <= KEY_LEVEL_MAX
  {
    key + mem[|key|..]
  }

  lemma NextPart(key: seq<int>, i: nat)
    requires KeyOk(key) && i < |key|
    ensures Ints(key[i..]) == IntBytes(key[i]) + Ints(key[i + 1..])
  {
    assert key[i..][1..] == key[i + 1..];
  }

  /** What is remembered once the parts before i have been dealt with. */
  ghost predicate Remembers(mem: seq<int>, mem': seq<int>, key: seq<int>, i: int) {
    && |mem| == |mem'| == KEY_LEVEL_MAX && 0 <= i <= |key| <= KEY_LEVEL_MAX && mem'[..i] == key[..i]
    && mem'[i..] == mem[i..]
  }

  lemma RememberPart(mem: seq<int>, mem': seq<int>, key: seq<int>, i: int)
    requires Remembers(mem, mem', key, i) && i < |key|
    ensures Remembers(mem, mem'[i := key[i]], key, i + 1)
  {
    assert key[..i + 1] == key[..i] + [key[i]];
  }

  lemma RememberAll(mem: seq<int>, mem': seq<int>, key: seq<int>)
    requires Remembers(mem, mem', key, |key|)
    ensures mem' == Remember(mem, key) && mem'[..|key|] == key
  {
    assert mem' == mem'[..|key|] + mem'[|key|..] && key[..|key|] == key;
  }

  method EncodeKey(mem: seq<int>, key: seq<int>) returns (out: seq<int>, mem': seq<int>)
    requires MemOk(mem) && KeyOk(key)
    ensures out == KeyBytes(mem, key) && mem' == Remember(mem, key)
  {
    hide IntBytes, Ints, KeyBytes, Leader, Parts;
    var i := 0;
    while key[i] == mem[i] && i != |key| - 1
      invariant 0 <= i < |key| && key[..i] == mem[..i] && FirstDiff(mem, key, 0) == FirstDiff(mem, key, i)
      decreases |key| - i
    {
      assert key[..i + 1] == key[..i] + [key[i]];
      i := i + 1;
    }
    var left;
    mem' := mem;
    ghost var f := i;
    if key[i] > mem[i] {
      out := EncodeInt(i + 8 * |key| + 64);
      var d := EncodeInt(key[i] - mem[i]);
      out := out + d;
      RememberPart(mem, mem', key, i);
      mem' := mem'[i := key[i]];
      i := i + 1;
    } else {
      out := EncodeInt(i + 8 * |key|);
    }
    left, mem' := EncodeParts(mem', key, i, mem);
    out := out + left;
    Whole(mem, key, f);
  }

  lemma Whole(mem: seq<int>, key: seq<int>, f: nat)
    requires MemOk(mem) && KeyOk(key) && f == FirstDiff(mem, key, 0)
    ensures KeyBytes(mem, key) ==
      if key[f] > mem[f] then IntBytes(f + 8 * |key| + 64) + IntBytes(key[f] - mem[f]) + Ints(key[f + 1..])
                                  else IntBytes(f + 8 * |key|) + Ints(key[f..])
  {
    hide FirstDiff, IntBytes, Ints;
  }

  /** Codes the parts of a key from i on as they are. */
  method EncodeParts(mem: seq<int>, key: seq<int>, from: nat, ghost mem0: seq<int>)
    returns (out: seq<int>, mem': seq<int>)
    requires KeyOk(key) && Remembers(mem0, mem, key, from)
    ensures out == Ints(key[from..]) && mem' == Remember(mem0, key)
  {
    var i := from;
    out, mem' := [], mem;
    while i < |key|
      invariant from <= i <= |key| && Remembers(mem0, mem', key, i) && out + Ints(key[i..]) == Ints(key[from..])
    {
      NextPart(key, i);
      RememberPart(mem0, mem', key, i);
      var d := EncodeInt(key[i]);
      assert out + Ints(key[i..]) == out + d + Ints(key[i + 1..]);
      out := out + d;
      mem' := mem'[i := key[i]];
      i := i + 1;
    }
    RememberAll(mem0, mem', key);
  }

  /** Reads back the key that was written with the same parts remembered. */
  method DecodeKey(mem: seq<int>, src: seq<int>, ghost key: seq<int>, ghost after: seq<int>)
    returns (got: seq<int>, mem': seq<int>)
    requires MemOk(mem) && KeyOk(key) && src == KeyBytes(mem, key) + after
    ensures got == key && mem' == Remember(mem, key)
  {
    hide FirstDiff, IntBytes, Ints, Leader, Parts, KeyBytes;
    ghost var f := FirstDiff(mem, key, 0);
    DiffIs(mem, key);
    Lead(mem, key, f);
    Front(mem, key, f, after);
    var leader, left := DecodeInt(src, Leader(mem, key, f), Parts(mem, key, f) + after);
    var i, n := leader % 8, leader / 8 % 8;
    var d;
    d, left := DecodeFirst(mem, leader, left, i, key, after);
    RememberPart(mem, mem, key, f);
    mem' := DecodeParts(mem[i := d], left, i + 1, n, mem, key, after);
    got := mem'[..n];
  }

  /** Reads back part i of a key, as an increase or as it is. */
  method DecodeFirst(mem: seq<int>, leader: nat, src: seq<int>, i: nat, ghost key: seq<int>, ghost after: seq<int>)
    returns (d: int, left: seq<int>)
    requires MemOk(mem) && KeyOk(key) && i < |key| && leader == Leader(mem, key, i) && src == Parts(mem, key, i) + after
    ensures d == key[i] && left == Ints(key[i + 1..]) + after
  {
    hide IntBytes, Ints;
    ghost var rest := Ints(key[i + 1..]) + after;
    if leader >= 64 {
      assert src == IntBytes(key[i] - mem[i]) + rest;
      d, left := DecodeInt(src, key[i] - mem[i], rest);
      d := mem[i] + d;
    } else {
      NextPart(key, i);
      assert src == IntBytes(key[i]) + rest;
      d, left := DecodeInt(src, key[i], rest);
    }
  }

  lemma Front(mem: seq<int>, key: seq<int>, f: nat, after: seq<int>)
    requires MemOk(mem) && KeyOk(key) && f == FirstDiff(mem, key, 0)
    ensures KeyBytes(mem, key) + after == IntBytes(Leader(mem, key, f)) + (Parts(mem, key, f) + after)
  {
  }

  /** Reads back the parts of a key from i on. */
  method DecodeParts(mem: seq<int>, src: seq<int>, from: nat, n: nat, ghost mem0: seq<int>, ghost key: seq<int>,
                     ghost after: seq<int>)
    returns (mem': seq<int>)
    requires KeyOk(key) && Remembers(mem0, mem, key, from) && n == |key| && src == Ints(key[from..]) + after
    ensures mem' == Remember(mem0, key) && mem'[..n] == key
  {
    var i, left, d := from, src, 0;
    mem' := mem;
    while i < n
      invariant from <= i <= n && Remembers(mem0, mem', key, i) && left == Ints(key[i..]) + after
    {
      NextPart(key, i);
      RememberPart(mem0, mem', key, i);
      assert left == IntBytes(key[i]) + (Ints(key[i + 1..]) + after);
      d, left := DecodeInt(left, key[i], Ints(key[i + 1..]) + after);
      mem' := mem'[i := d];
      i := i + 1;
    }
    RememberAll(mem0, mem', key);
  }

  lemma Lead(mem: seq<int>, key: seq<int>, f: nat)
    requires f < |key| <= 5 && |key| <= |mem|
    ensures Leader(mem, key, f) % 8 == f && Leader(mem, key, f) / 8 % 8 == |key|
  {
    assert (f + 8 * |key| + 64) / 8 == |key| + 8;
  }

  /** The length of a key as written fits the seven bits kept for it. */
  lemma KeyLength(mem: seq<int>, key: seq<int>)
    requires MemOk(mem) && KeyOk(key)
    ensures 1 <= |KeyBytes(mem, key)| <= 1 + 9 * KEY_LEVEL_MAX
    ensures forall i :: 0 <= i < |KeyBytes(mem, key)| ==> 0 <= KeyBytes(mem, key)[i] < 256
  {
    var f := FirstDiff(mem, key, 0);
    assert Pow128(1) == 128 && Pow128(9) == MAX_PART;
    IntLength(Leader(mem, key, f), 1);
    if key[f] > mem[f] {
      IntLength(key[f] - mem[f], 9);
      IntsLength(key[f + 1..]);
    } else {
      IntsLength(key[f..]);
    }
  }

  lemma {:induction false} IntsLength(s: seq<int>)
    requires forall i :: 0 <= i < |s| ==> 0 <= s[i] < MAX_PART
    ensures |Ints(s)| <= 9 * |s| && forall i :: 0 <= i < |Ints(s)| ==> 0 <= Ints(s)[i] < 256
  {
    if s != [] {
      assert Pow128(9) == MAX_PART;
      IntLength(s[0], 9);
      IntsLength(s[1..]);
    }
  }
}
