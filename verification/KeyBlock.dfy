/** The key block: postings collect in a buffer, which is sorted and written as a run when it is full. */
module KeyBlock {
  import opened DictPage
  import opened KeyOrder
  import opened KeyCodec
  import opened KeyRun
  import opened KeyHeap

  const POINTER_SIZE := 8
  const WRITE_ROOM := 1024  // room that is made before a posting is written

  // ---------------------------------------------------------------- names

  /** The code of an index number that starts the names of its terms. */
  ghost function SuBytes(ch: nat): seq<int> {
    if ch == 0 then [] else if ch >= 64 then [65 + ch % 64] + SuBytes(ch / 64) else [1 + ch]
  }

  const NO_INDEX := 129  // stands for an index that does not exist

  method SuEncode(ch: int) returns (out: seq<int>)
    requires ch >= -1
    ensures out == if ch == -1 then [NO_INDEX] else SuBytes(ch)
  {
    if ch == -1 {
      return [NO_INDEX];
    }
    var n := ch;
    out := [];
    while n != 0
      invariant n >= 0 && out + SuBytes(n) == SuBytes(ch)
      decreases n
    {
      ghost var out0, n0 := out, n;
      if n >= 64 {
        out := out + [65 + n % 64];
      } else {
        out := out + [1 + n];
        assert n / 64 == 0;
      }
      n := n / 64;
      assert out0 + SuBytes(n0) == out + SuBytes(n);
    }
  }

  /** The codes by example. Index 0 has no code at all, where a comment says it has the byte 1. */
  lemma SuTable()
    ensures SuBytes(1) == [2] && SuBytes(63) == [64] && SuBytes(64) == [65, 2] && SuBytes(65) == [66, 2]
    ensures SuBytes(127) == [128, 2] && SuBytes(128) == [65, 3] && SuBytes(191) == [128, 3] && SuBytes(192) == [65, 4]
    ensures SuBytes(0) == []
  {
  }

  // ---------------------------------------------------------------- reading names back

  /** Bytes of 65 and more go on, and others end the code of an index number. */
  ghost predicate SuEnds(name: seq<int>) {
    exists i :: 0 <= i < |name| && name[i] < 65
  }

  /** The number the code at the start of a name stands for, and its length. */
  ghost function SuValue(name: seq<int>): (r: (int, nat))
    requires SuEnds(name)
    ensures 1 <= r.1 <= |name|
  {
    if name[0] < 65 then (name[0] - 1, 1)
    else
      assert SuEnds(name[1..]) by { SuRest(name); }
      var rest := SuValue(name[1..]);
      (name[0] - 65 + 64 * rest.0, rest.1 + 1)
  }

  lemma SuRest(name: seq<int>)
    requires SuEnds(name) && name[0] >= 65
    ensures SuEnds(name[1..])
  {
    var i :| 0 <= i < |name| && name[i] < 65;
    assert name[1..][i - 1] == name[i];
  }

  /** Reads the code of an index number at the start of a name. */
  method SuDecode(name: seq<int>) returns (ch: int, len: nat)
    requires SuEnds(name)
    ensures (ch, len) == SuValue(name)
  {
    var fact := 1;
    ch, len := 0, 1;
    while name[len - 1] >= 65
      invariant 1 <= len <= |name| && SuEnds(name[len - 1..]) && fact >= 1
      invariant var rest := SuValue(name[len - 1..]);
        SuValue(name) == (ch + fact * rest.0, len - 1 + rest.1)
      decreases |name| - len
    {
      ghost var tail := name[len - 1..];
      SuRest(tail);
      assert tail[1..] == name[len..];
      ghost var v, f0, c0 := SuValue(name[len..]), fact, ch;
      ch := ch + (name[len - 1] - 65) * fact;
      fact := fact * 64;
      SuFactor(c0, f0, name[len - 1] - 65, v.0);
      len := len + 1;
    }
    ch := ch + (name[len - 1] - 1) * fact;
  }

  lemma SuFactor(c: int, f: int, digit: int, rest: int)
    ensures c + f * (digit + 64 * rest) == c + digit * f + f * 64 * rest
  {
  }

  /** The index number of a name is read back, and its term comes after the code; index 0 is not read
      back. */
  lemma {:induction false} SuBack(ch: nat, term: seq<int>)
    requires ch > 0
    ensures SuEnds(SuBytes(ch) + term) && SuValue(SuBytes(ch) + term) == (ch, |SuBytes(ch)|)
    ensures (SuBytes(ch) + term)[|SuBytes(ch)|..] == term
  {
    var name := SuBytes(ch) + term;
    if ch < 64 {
      assert name[0] == 1 + ch;
    } else {
      SuBack(ch / 64, term);
      assert name[0] == 65 + ch % 64 && name[1..] == SuBytes(ch / 64) + term;
      var i :| 0 <= i < |name[1..]| && name[1..][i] < 65;
      assert name[i + 1] < 65;
    }
  }

  lemma SuZero()
    ensures SuEnds(SuBytes(0) + [50]) && SuValue(SuBytes(0) + [50]) == (49, 1)
  {
    assert (SuBytes(0) + [50])[0] == 50;
  }

  /** No index has the code of the index that does not exist. */
  lemma NullApart(ch: nat, term: seq<int>)
    requires ch > 0
    ensures SuBytes(ch) + term != [] && (SuBytes(ch) + term)[0] != NO_INDEX
  {
  }

  /** The name of a posting tells its index and its term. */
  ghost predicate NameTells(name: seq<int>, ch: int, term: seq<int>) {
    SuEnds(name) && SuValue(name).0 == ch && name[SuValue(name).1..] == term
  }

  /** Terms of different indexes have different names. */
  lemma NamesApart(a: nat, s: seq<int>, b: nat, t: seq<int>)
    requires a > 0 && b > 0 && SuBytes(a) + s == SuBytes(b) + t
    ensures a == b && s == t
  {
    SuBack(a, s);
    SuBack(b, t);
    hide SuBytes, SuValue, SuEnds;
  }

  // A key of a record and its term: the parts of the key are the index, the record it stands
  // for when that is another one, and its place.
  datatype RecKey = RecKey(key: seq<int>, str: seq<int>)

  /** The posting that is written for a key of record sysno. */
  ghost function PostingOf(sysno: int, k: RecKey, ins: bool, rank: int, rankEnable: bool): Posting
    requires |k.key| >= 2 && k.key[0] >= 0
  {
    Posting(SuBytes(k.key[0]) + k.str,
            (if rankEnable then [rank] else []) + [if k.key[1] != 0 then k.key[1] else sysno] + k.key[2..], ins)
  }

  /** What the key of a posting says: the static rank, when there is one, then the record, which the
      record key may name itself, and then the place, part by part. */
  ghost predicate KeyTells(key: seq<int>, sysno: int, k: seq<int>, rank: int, rankEnable: bool) {
    var r := if rankEnable then 1 else 0;
    && |k| >= 2 && |key| == r + |k| - 1 && (rankEnable ==> key[0] == rank)
    && (key[r] == k[1] || (k[1] == 0 && key[r] == sysno))
    && forall i :: 2 <= i < |k| ==> key[r + i - 1] == k[i]
  }

  ghost predicate RecKeyOk(sysno: int, k: RecKey, rank: int, rankEnable: bool) {
    && |k.key| >= 2 && k.key[0] >= 0
    && PostingOk(PostingOf(sysno, k, true, rank, rankEnable))
    && POINTER_SIZE + |SuBytes(k.key[0])| + |k.str| + 2 + KEY_SIZE <= WRITE_ROOM
  }

  const MAX_WORD := 512
  const MAX_ORD := 0x1_0000_0000

  lemma {:induction false} SuBytesOk(ch: nat)
    ensures forall i :: 0 <= i < |SuBytes(ch)| ==> 0 < SuBytes(ch)[i] < 256
    ensures ch < 64 ==> |SuBytes(ch)| <= 1
    ensures ch < 64 * 64 ==> |SuBytes(ch)| <= 2
    ensures ch < 64 * 64 * 64 ==> |SuBytes(ch)| <= 3
    ensures ch < 64 * 64 * 64 * 64 ==> |SuBytes(ch)| <= 4
    ensures ch < 64 * 64 * 64 * 64 * 64 ==> |SuBytes(ch)| <= 5
    ensures ch < MAX_ORD ==> |SuBytes(ch)| <= 6
  {
    if ch >= 64 { SuBytesOk(ch / 64); }
  }

  /** A term of up to 512 bytes, without a zero byte, fits every buffer on its way. */
  lemma TermFits(sysno: int, k: RecKey, rank: int, rankEnable: bool)
    requires |k.key| >= 2 && 0 < k.key[0] < MAX_ORD && |k.str| <= MAX_WORD
    requires forall i :: 0 <= i < |k.str| ==> 0 < k.str[i] < 256
    requires KeyOk(PostingOf(sysno, k, true, rank, rankEnable).key)
    ensures RecKeyOk(sysno, k, rank, rankEnable)
  {
    SuBytesOk(k.key[0]);
    assert SuBytes(k.key[0]) != [];
    hide SuBytes, KeyOk;
  }

  // ---------------------------------------------------------------- sorting

  ghost predicate Sorted(s: seq<Posting>) {
    forall i, j :: 0 <= i < j < |s| ==> !Above(s[i], s[j], false)
  }

  lemma SortedAscends(s: seq<Posting>)
    requires Sorted(s)
    ensures Ascending(s)
  {
    forall i, j | 0 <= i < j < |s|
      ensures AtMost(s[i], s[j])
    {
      AboveOrder(s[i], s[j], false);
    }
  }

  /** Stands for the library's sort. */
  method Sort(s: seq<Posting>) returns (r: seq<Posting>)
    ensures Sorted(r) && multiset(r) == multiset(s)
  {
    r := [];
    var i := 0;
    while i < |s|
      invariant 0 <= i <= |s| && Sorted(r) && multiset(r) == multiset(s[..i])
    {
      r := SortIn(r, s[i]);
      assert s[..i + 1] == s[..i] + [s[i]];
      i := i + 1;
    }
    assert s[..i] == s;
  }

  method SortIn(s: seq<Posting>, p: Posting) returns (r: seq<Posting>)
    requires Sorted(s)
    ensures Sorted(r) && multiset(r) == multiset(s) + multiset{p}
  {
    var k := 0;
    while k < |s| && !Above(s[k], p, false)
      invariant 0 <= k <= |s| && forall i :: 0 <= i < k ==> !Above(s[i], p, false)
    {
      k := k + 1;
    }
    forall j | k <= j < |s|
      ensures !Above(p, s[j], false)
    {
      AboveOrder(s[k], p, false);
      if j > k { AboveTransitive(p, s[k], s[j], false); }
    }
    r := s[..k] + [p] + s[k..];
    hide Above;
    assert s == s[..k] + s[k..];
  }

  // ---------------------------------------------------------------- the block

  ghost predicate RunOk(run: seq<int>, batch: seq<Posting>) {
    MemOk(Zeros()) && AllOk(batch) && Ascending(batch) && run == RunBytes([], Zeros(), batch)
  }

  /** The run files hold the batches, each sorted. */
  ghost predicate RunsOk(runs: seq<seq<int>>, batches: seq<seq<Posting>>) {
    |runs| == |batches| && forall i :: 0 <= i < |runs| ==> RunOk(runs[i], batches[i])
  }

  /** What postings take in the buffer: the name and its end, the mark that tells inserts, the key. */
  ghost function BytesOf(buf: seq<Posting>): nat {
    if buf == [] then 0 else BytesOf(buf[..|buf| - 1]) + |buf[|buf| - 1].name| + 1 + 1 + KEY_SIZE
  }

  lemma BytesMore(buf: seq<Posting>, p: Posting)
    ensures BytesOf(buf + [p]) == BytesOf(buf) + |p.name| + 2 + KEY_SIZE && BytesOf([]) == 0
  {
    assert (buf + [p])[..|buf + [p]| - 1] == buf;
  }

  class Block {
    // Pointers come down from the end of the buffer, postings go up from its start.
    const ptrTop: nat
    var ptrI: nat
    var keyBufUsed: nat
    var keyBuf: seq<Posting>
    // The run files written so far.
    var runs: seq<seq<int>>
    ghost var batches: seq<seq<Posting>>
    ghost var written: seq<Posting>

    ghost predicate Valid()
      reads this
    {
      && WRITE_ROOM <= POINTER_SIZE * ptrTop && ptrI == |keyBuf| && AllOk(keyBuf)
      && keyBufUsed + POINTER_SIZE * ptrI <= POINTER_SIZE * ptrTop && keyBufUsed == BytesOf(keyBuf)
      && RunsOk(runs, batches) && All(batches) + multiset(keyBuf) == multiset(written)
    }

    constructor (mem: nat)
      requires WRITE_ROOM + POINTER_SIZE <= mem
      ensures Valid() && written == [] && fresh(this)
    {
      ptrTop, ptrI, keyBufUsed, keyBuf, runs, batches, written := mem / POINTER_SIZE, 0, 0, [], [], [], [];
    }

    /** Sorts what is in the buffer and writes it as a run, unless there is nothing. */
    method Flush()
      requires Valid()
      modifies this
      ensures Valid() && written == old(written) && keyBuf == [] && keyBufUsed == 0 && ptrI == 0 && HasRoom()
      ensures if old(keyBuf) == [] then runs == old(runs) && batches == old(batches)
        else |runs| == |old(runs)| + 1 && |batches| == |old(batches)| + 1 && runs[..|old(runs)|] == old(runs)
             && batches[..|old(batches)|] == old(batches) && Ascending(batches[|batches| - 1])
             && multiset(batches[|batches| - 1]) == multiset(old(keyBuf))
    {
      hide *;
      ValidParts();
      if ptrI != 0 {
        ghost var buf := keyBuf;
        var batch := Sort(keyBuf);
        BatchOk(keyBuf, batch);
        var run := WriteRun(batch);
        MkRun(run, batch);
        AddRun(runs, batches, run, batch);
        runs, batches := runs + [run], batches + [batch];
      }
      ptrI, keyBufUsed, keyBuf := 0, 0, [];
      EmptyAgain();
    }

    lemma EmptyAgain()
      requires WRITE_ROOM <= POINTER_SIZE * ptrTop && ptrI == 0 && keyBuf == [] && keyBufUsed == 0
      requires RunsOk(runs, batches) && All(batches) == multiset(written)
      ensures Valid() && HasRoom()
    {
      assert multiset(keyBuf) == multiset{} && All(batches) + multiset{} == All(batches);
    }

    /** There is room for a posting, whatever its length. */
    predicate HasRoom()
      reads this`keyBufUsed, this`ptrI
    {
      keyBufUsed + WRITE_ROOM <= (ptrTop - ptrI) * POINTER_SIZE
    }

    /** Writes the buffer out when it is full. */
    method MakeRoom()
      requires Valid()
      modifies this
      ensures Valid() && HasRoom() && written == old(written)
      ensures if old(HasRoom()) then keyBuf == old(keyBuf) && runs == old(runs) && batches == old(batches)
        else keyBuf == [] && |runs| == |old(runs)| + 1
    {
      hide *;
      RoomIs();
      if keyBufUsed + WRITE_ROOM > (ptrTop - ptrI) * POINTER_SIZE {
        ValidParts();
        EmptyRoom();
        Flush();
      }
    }

    /** A buffer with nothing in it has room. */
    lemma EmptyRoom()
      requires Valid() && !HasRoom()
      ensures keyBuf != []
    {
    }

    /** Adds the posting of a key to the buffer, which is written out first when it is full. */
    method Write(sysno: int, k: RecKey, ins: bool, rank: int, rankEnable: bool)
      requires Valid() && RecKeyOk(sysno, k, rank, rankEnable)
      modifies this
      ensures Valid() && written == old(written) + [PostingOf(sysno, k, ins, rank, rankEnable)]
      ensures k.key[0] > 0 ==> NameTells(written[|written| - 1].name, k.key[0], k.str)
      ensures written[|written| - 1].ins == ins
      ensures KeyTells(written[|written| - 1].key, sysno, k.key, rank, rankEnable)
      ensures if old(HasRoom()) then runs == old(runs) && keyBuf == old(keyBuf) + [written[|written| - 1]]
        else |runs| == |old(runs)| + 1 && keyBuf == [written[|written| - 1]]
    {
      hide *;
      RecKeyParts(sysno, k, ins, rank, rankEnable);
      if k.key[0] > 0 { NameIs(k); }
      KeyIs(sysno, k, ins, rank, rankEnable);
      MakeRoom();
      var name := SuEncode(k.key[0]);
      name := name + k.str;
      var key := KeyOf(sysno, k, rank, rankEnable);
      Append(Posting(name, key, ins));
      assert [] + [written[|written| - 1]] == [written[|written| - 1]];
    }

    /** Puts a posting into the buffer, and a pointer to it. */
    method Append(p: Posting)
      requires Valid() && HasRoom() && PostingOk(p) && POINTER_SIZE + |p.name| + 2 + KEY_SIZE <= WRITE_ROOM
      modifies this
      ensures Valid() && written == old(written) + [p] && keyBuf == old(keyBuf) + [p] && runs == old(runs)
    {
      hide *;
      ValidParts();
      RoomIs();
      ptrI := ptrI + 1;
      keyBufUsed := keyBufUsed + |p.name| + 2;
      keyBufUsed := keyBufUsed + KEY_SIZE;
      AddPosting(keyBuf, p, All(batches), written);
      BytesMore(keyBuf, p);
      keyBuf := keyBuf + [p];
      written := written + [p];
      ValidAgain();
    }

    lemma RoomIs()
      ensures HasRoom() <==> keyBufUsed + WRITE_ROOM <= (ptrTop - ptrI) * POINTER_SIZE
      ensures KEY_SIZE >= 0
    {
    }

    lemma ValidParts()
      requires Valid()
      ensures WRITE_ROOM <= POINTER_SIZE * ptrTop && ptrI == |keyBuf| && AllOk(keyBuf) && POINTER_SIZE == 8
      ensures keyBufUsed + POINTER_SIZE * ptrI <= POINTER_SIZE * ptrTop && keyBufUsed == BytesOf(keyBuf)
      ensures RunsOk(runs, batches) && All(batches) + multiset(keyBuf) == multiset(written)
    {
    }

    lemma ValidAgain()
      requires WRITE_ROOM <= POINTER_SIZE * ptrTop && ptrI == |keyBuf| && AllOk(keyBuf)
      requires keyBufUsed + POINTER_SIZE * ptrI <= POINTER_SIZE * ptrTop && keyBufUsed == BytesOf(keyBuf)
      requires RunsOk(runs, batches) && All(batches) + multiset(keyBuf) == multiset(written)
      ensures Valid()
    {
    }
  }

  lemma KeyIs(sysno: int, k: RecKey, ins: bool, rank: int, rankEnable: bool)
    requires |k.key| >= 2 && k.key[0] >= 0
    ensures var p := PostingOf(sysno, k, ins, rank, rankEnable);
      p.ins == ins && KeyTells(p.key, sysno, k.key, rank, rankEnable)
  {
  }

  lemma NameIs(k: RecKey)
    requires |k.key| >= 2 && k.key[0] > 0
    ensures NameTells(SuBytes(k.key[0]) + k.str, k.key[0], k.str)
  {
    SuBack(k.key[0], k.str);
  }

  lemma AddPosting(buf: seq<Posting>, p: Posting, m: multiset<Posting>, written: seq<Posting>)
    requires AllOk(buf) && PostingOk(p) && m + multiset(buf) == multiset(written)
    ensures AllOk(buf + [p]) && m + multiset(buf + [p]) == multiset(written + [p])
  {
    hide PostingOk;
    assert multiset(buf + [p]) == multiset(buf) + multiset{p};
  }

  lemma RecKeyParts(sysno: int, k: RecKey, ins: bool, rank: int, rankEnable: bool)
    requires RecKeyOk(sysno, k, rank, rankEnable)
    ensures |k.key| >= 2 && k.key[0] >= 0 && KEY_SIZE >= 0
    ensures POINTER_SIZE + |SuBytes(k.key[0])| + |k.str| + 2 + KEY_SIZE <= WRITE_ROOM
    ensures var p := PostingOf(sysno, k, ins, rank, rankEnable);
      && PostingOk(p) && p.name == SuBytes(k.key[0]) + k.str && p.ins == ins
      && p.key == (if rankEnable then [rank] else []) + [if k.key[1] != 0 then k.key[1] else sysno] + k.key[2..]
  {
    SameKey(sysno, k, ins, rank, rankEnable);
  }

  lemma SameKey(sysno: int, k: RecKey, ins: bool, rank: int, rankEnable: bool)
    requires RecKeyOk(sysno, k, rank, rankEnable)
    ensures PostingOk(PostingOf(sysno, k, ins, rank, rankEnable))
  {
    assert PostingOf(sysno, k, ins, rank, rankEnable).key == PostingOf(sysno, k, true, rank, rankEnable).key;
  }

  /** The key of a posting: the static rank if there is one, the record, and the place. */
  method KeyOf(sysno: int, k: RecKey, rank: int, rankEnable: bool) returns (key: seq<int>)
    requires |k.key| >= 2
    ensures key == (if rankEnable then [rank] else []) + [if k.key[1] != 0 then k.key[1] else sysno] + k.key[2..]
  {
    key := if rankEnable then [rank] else [];
    key := key + [if k.key[1] != 0 then k.key[1] else sysno];
    ghost var front := key;
    var i := 2;
    while i < |k.key|
      invariant 2 <= i <= |k.key| && key == front + k.key[2..i]
    {
      key := key + [k.key[i]];
      i := i + 1;
    }
    assert k.key[2..i] == k.key[2..];
  }

  lemma BatchOk(buf: seq<Posting>, batch: seq<Posting>)
    requires AllOk(buf) && Sorted(batch) && multiset(batch) == multiset(buf)
    ensures AllOk(batch) && Ascending(batch) && |batch| == |buf|
  {
    SortedAscends(batch);
    assert |multiset(batch)| == |batch| && |multiset(buf)| == |buf|;
    forall i | 0 <= i < |batch|
      ensures PostingOk(batch[i])
    {
      assert batch[i] in multiset(buf);
      assert batch[i] in buf;
    }
  }

  lemma MkRun(run: seq<int>, batch: seq<Posting>)
    requires MemOk(Zeros()) && AllOk(batch) && Ascending(batch) && run == RunBytes([], Zeros(), batch)
    ensures RunOk(run, batch)
  {
  }

  lemma AddRun(runs: seq<seq<int>>, batches: seq<seq<Posting>>, run: seq<int>, batch: seq<Posting>)
    requires RunsOk(runs, batches) && RunOk(run, batch)
    ensures RunsOk(runs + [run], batches + [batch]) && All(batches + [batch]) == All(batches) + multiset(batch)
  {
    AllAppend(batches, batch);
  }

  lemma {:induction false} AllAppend(batches: seq<seq<Posting>>, batch: seq<Posting>)
    ensures All(batches + [batch]) == All(batches) + multiset(batch)
  {
    if batches == [] {
      assert (batches + [batch])[1..] == [];
    } else {
      assert (batches + [batch])[1..] == batches[1..] + [batch];
      AllAppend(batches[1..], batch);
    }
  }
}
