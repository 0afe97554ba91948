/** Dictionary pages: keys, entries, their order inside a page, and their size in bytes.

  A page holds a directory of slots growing down from its end and entry bytes growing up
  from its header. An entry is either a tail string with its information, or a pointer
  entry: one character, the information of the key ending there (empty when there is no
  such key) and the page holding the rest of the longer keys (0 when there is none). */
module DictPage {
  // Characters are bytes 1..255; byte 0 ends a string.
  type Key = seq<int>
  type Info = seq<int>

  datatype Entry =
    | Tail(str: Key, info: Info)
    | Ptr(ch: int, info: Info, sub: nat)

  function WithInfo(e: Entry, info: Info): Entry {
    match e
    case Tail(s, _) => Tail(s, info)
    case Ptr(c, _, sub) => Ptr(c, info, sub)
  }

  // dirty is the page's type flag: set when the page may hold bytes no slot refers to.
  datatype Page = Page(dirty: bool, backptr: nat, size: int, slots: seq<Entry>)

  /** What bounds a dictionary: the page size, the characters its keys use, the longest
      key and the longest information. */
  datatype Config = Config(pageSize: int, alphabet: set<int>, maxKey: nat, maxInfo: nat)

  const HEADER_SIZE := 14   // two page numbers and three shorts
  const PTR_SIZE := 4
  const SLOT_SIZE := 2
  const MAX_INFO := 127     // the length byte is a signed char

  ghost predicate ValidConfig(cfg: Config) {
    && (forall c :: c in cfg.alphabet ==> 1 <= c <= 255)
    && 1 <= cfg.maxKey
    && 1 <= cfg.maxInfo <= MAX_INFO
    && HEADER_SIZE + (|cfg.alphabet| + 1) * (8 + cfg.maxInfo) + (cfg.maxKey + cfg.maxInfo + 4) <= cfg.pageSize
  }

  ghost predicate ValidKey(cfg: Config, s: Key) {
    forall i :: 0 <= i < |s| ==> s[i] in cfg.alphabet
  }

  // ---------------------------------------------------------------- keys in a buffer

  const EOS := 0

  predicate NoEnd(s: Key) {
    forall i :: 0 <= i < |s| ==> s[i] != EOS
  }

  lemma NoEndNone()
    ensures NoEnd([])
  {
  }

  lemma NoEndMore(x: Key, ch: int)
    requires NoEnd(x) && ch != EOS
    ensures NoEnd(x + [ch])
  {
  }

  lemma NoEndJoin(x: Key, s: Key)
    requires NoEnd(x) && NoEnd(s)
    ensures NoEnd(x + s)
  {
  }

  /** The string in a buffer, as whoever is handed the buffer reads it: up to the first end mark. */
  method TextOf(buf: array<int>, ghost n: nat) returns (s: Key)
    requires n < buf.Length && buf[n] == EOS && NoEnd(buf[..n])
    ensures s == buf[..n]
  {
    assert forall j :: 0 <= j < n ==> buf[j] == buf[..n][j];
    s := [];
    while buf[|s|] != EOS
      invariant |s| <= n && s == buf[..|s|]
      decreases n - |s|
    {
      assert buf[..|s| + 1] == s + [buf[|s|]];
      s := s + [buf[|s|]];
    }
  }

  // ---------------------------------------------------------------- order of keys

  /** The order of strcmp on keys. */
  predicate Less(a: Key, b: Key) {
    b != [] && (a == [] || a[0] < b[0] || (a[0] == b[0] && Less(a[1..], b[1..])))
  }

  /** The strings differ first at k, where a ends or has the smaller character. */
  ghost predicate LessAt(a: Key, b: Key, k: nat) {
    k <= |a| && k < |b| && a[..k] == b[..k] && (k == |a| || a[k] < b[k])
  }

  /** A string comes before another exactly when it does so where they differ first. */
  lemma {:induction false} LessMeans(a: Key, b: Key)
    ensures Less(a, b) <==> exists k: nat :: LessAt(a, b, k)
  {
    if Less(a, b) && (a == [] || a[0] < b[0]) {
      assert LessAt(a, b, 0);
    } else if Less(a, b) {
      LessMeans(a[1..], b[1..]);
      var k: nat :| LessAt(a[1..], b[1..], k);
      assert a[..k + 1] == [a[0]] + a[1..][..k] && b[..k + 1] == [b[0]] + b[1..][..k];
      assert LessAt(a, b, k + 1);
    }
    if k: nat :| LessAt(a, b, k) {
      if k > 0 {
        assert a[0] == a[..k][0] == b[..k][0] == b[0];
        assert a[1..][..k - 1] == a[..k][1..] && b[1..][..k - 1] == b[..k][1..];
        assert LessAt(a[1..], b[1..], k - 1);
        LessMeans(a[1..], b[1..]);
      }
    }
  }

  lemma {:induction false} LessTransitive(a: Key, b: Key, c: Key)
    requires Less(a, b) && Less(b, c)
    ensures Less(a, c)
  {
    if a != [] && a[0] == b[0] && b[0] == c[0] {
      LessTransitive(a[1..], b[1..], c[1..]);
    }
  }

  lemma {:induction false} LessTotal(a: Key, b: Key)
    ensures Less(a, b) || a == b || Less(b, a)
    ensures !(Less(a, b) && (a == b || Less(b, a)))
  {
    if a != [] && b != [] && a[0] == b[0] {
      LessTotal(a[1..], b[1..]);
      assert a == [a[0]] + a[1..] && b == [b[0]] + b[1..];
    }
  }

  /** A common prefix does not matter for the order. */
  lemma {:induction false} LessPrefix(p: Key, a: Key, b: Key)
    ensures Less(p + a, p + b) <==> Less(a, b)
  {
    if p == [] {
      assert p + a == a && p + b == b;
    } else {
      LessPrefix(p[1..], a, b);
      assert (p + a)[1..] == p[1..] + a && (p + b)[1..] == p[1..] + b;
    }
  }

  // ---------------------------------------------------------------- order of entries

  function First(e: Entry): int
    requires e.Tail? ==> e.str != []
  {
    match e
    case Tail(s, _) => s[0]
    case Ptr(c, _, _) => c
  }

  predicate NonEmpty(e: Entry) {
    e.Tail? ==> e.str != []
  }

  predicate EntryLess(a: Entry, b: Entry)
    requires NonEmpty(a) && NonEmpty(b)
  {
    if a.Tail? && b.Tail? then Less(a.str, b.str) else First(a) < First(b)
  }

  ghost predicate Sorted(slots: seq<Entry>) {
    && (forall i :: 0 <= i < |slots| ==> NonEmpty(slots[i]))
    && (forall i, j :: 0 <= i < j < |slots| ==> EntryLess(slots[i], slots[j]))
  }

  /** The comparison made at each probe of a page: strcmp against a tail string, difference
      of first characters against a pointer entry. */
  function Compare(e: Entry, str: Key): (r: int)
  {
    match e
    case Tail(s, _) => if s == str then 0 else if Less(s, str) then -1 else 1
    case Ptr(c, _, _) => c - (if str == [] then 0 else str[0])
  }

  lemma CompareMonotone(a: Entry, b: Entry, str: Key)
    requires NonEmpty(a) && NonEmpty(b) && EntryLess(a, b)
    requires b.Ptr? ==> b.ch >= 1
    requires a.Ptr? ==> a.ch >= 1
    ensures Compare(b, str) <= 0 ==> Compare(a, str) < 0
    ensures Compare(a, str) >= 0 ==> Compare(b, str) > 0
  {
    match (a, b) {
      case (Tail(s, _), Tail(t, _)) =>
        LessTotal(s, str);
        LessTotal(t, str);
        LessTotal(s, t);
        if Less(t, str) { LessTransitive(s, t, str); }
        if Less(str, s) { LessTransitive(str, s, t); }
      case (Tail(s, _), Ptr(c, _, _)) =>
        LessTotal(s, str);
      case (Ptr(c, _, _), Tail(t, _)) =>
        LessTotal(t, str);
      case (Ptr(_, _, _), Ptr(_, _, _)) =>
    }
  }

  // ---------------------------------------------------------------- bytes

  function Bytes(e: Entry): nat {
    match e
    case Tail(s, info) => |s| + 1 + 1 + |info|
    case Ptr(_, info, _) => PTR_SIZE + 1 + 1 + |info|
  }

  function SumBytes(slots: seq<Entry>): nat {
    if slots == [] then 0 else SumBytes(slots[..|slots| - 1]) + Bytes(slots[|slots| - 1])
  }

  function TailBytes(slots: seq<Entry>): nat {
    if slots == [] then 0
    else TailBytes(slots[..|slots| - 1]) + (if slots[|slots| - 1].Tail? then Bytes(slots[|slots| - 1]) else 0)
  }

  function Tails(slots: seq<Entry>): nat {
    if slots == [] then 0
    else Tails(slots[..|slots| - 1]) + (if slots[|slots| - 1].Tail? then 1 else 0)
  }

  lemma {:induction false} SumConcat(a: seq<Entry>, b: seq<Entry>)
    ensures SumBytes(a + b) == SumBytes(a) + SumBytes(b)
    ensures TailBytes(a + b) == TailBytes(a) + TailBytes(b)
    ensures Tails(a + b) == Tails(a) + Tails(b)
    decreases |b|
  {
    if b == [] {
      assert a + b == a;
    } else {
      var n := |b| - 1;
      SumConcat(a, b[..n]);
      assert (a + b)[..|a + b| - 1] == a + b[..n];
    }
  }

  lemma SumOne(e: Entry)
    ensures SumBytes([e]) == Bytes(e)
    ensures TailBytes([e]) == if e.Tail? then Bytes(e) else 0
    ensures Tails([e]) == if e.Tail? then 1 else 0
  {
    assert [e][..0] == [];
    assert SumBytes([]) == 0 && TailBytes([]) == 0 && Tails([]) == 0;
  }

  /** Replacing the slots i..j of a page by others shifts the three sums by the difference. */
  lemma SumSplice(s: seq<Entry>, i: nat, j: nat, mid: seq<Entry>)
    requires i <= j <= |s|
    ensures SumBytes(s) == SumBytes(s[..i]) + SumBytes(s[i..j]) + SumBytes(s[j..])
    ensures TailBytes(s) == TailBytes(s[..i]) + TailBytes(s[i..j]) + TailBytes(s[j..])
    ensures Tails(s) == Tails(s[..i]) + Tails(s[i..j]) + Tails(s[j..])
    ensures SumBytes(s[..i] + mid + s[j..]) == SumBytes(s) - SumBytes(s[i..j]) + SumBytes(mid)
    ensures TailBytes(s[..i] + mid + s[j..]) == TailBytes(s) - TailBytes(s[i..j]) + TailBytes(mid)
    ensures Tails(s[..i] + mid + s[j..]) == Tails(s) - Tails(s[i..j]) + Tails(mid)
  {
    SumConcat(s[..i], s[i..j]);
    SumConcat(s[..i] + s[i..j], s[j..]);
    assert s[..i] + s[i..j] + s[j..] == s;
    SumConcat(s[..i], mid);
    SumConcat(s[..i] + mid, s[j..]);
  }
}
