/** Run files: sorted postings written to a file, and read back a chunk at a time. */
module KeyRun {
  import opened DictPage
  import opened KeyOrder
  import opened KeyCodec

  const NAME_MAX := 768
  const KEY_SIZE := 48  // the length of a key and its five parts
  const EOF := -1
  const INSERT_BIT := 128

  /** A name fits the buffer of the merge together with its zero byte, a flag and a key. */
  ghost predicate NameOk(name: Key) {
    1 <= |name| && |name| + 2 + KEY_SIZE < NAME_MAX && forall i :: 0 <= i < |name| ==> 0 < name[i] < 256
  }

  ghost predicate PostingOk(p: Posting) {
    NameOk(p.name) && KeyOk(p.key)
  }

  ghost predicate AllOk(ps: seq<Posting>) {
    forall i :: 0 <= i < |ps| ==> PostingOk(ps[i])
  }

  // ---------------------------------------------------------------- the format

  /** The key of a posting, after a byte for its length and its flag. */
  ghost function PostingBytes(mem: seq<int>, p: Posting): seq<int>
    requires MemOk(mem) && KeyOk(p.key)
  {
    [|KeyBytes(mem, p.key)| + if p.ins then INSERT_BIT else 0] + KeyBytes(mem, p.key)
  }

  /** A name is written in full, with a zero byte, when it is not the one before; the coding of
      keys then starts anew. */
  ghost function NameBytes(prev: Key, name: Key): seq<int> {
    (if name == prev then [] else name) + [0]
  }

  ghost function MemAt(prev: Key, mem: seq<int>, name: Key): seq<int> {
    if name == prev then mem else Zeros()
  }

  ghost function RunBytes(prev: Key, mem: seq<int>, ps: seq<Posting>): seq<int>
    requires MemOk(mem) && AllOk(ps)
    decreases |ps|
  {
    if ps == [] then [] else
      var m := MemAt(prev, mem, ps[0].name);
      RememberOk(m, ps[0].key);
      NameBytes(prev, ps[0].name) + PostingBytes(m, ps[0]) + RunBytes(ps[0].name, Remember(m, ps[0].key), ps[1..])
  }

  lemma RememberOk(mem: seq<int>, key: seq<int>)
    requires MemOk(mem) && KeyOk(key)
    ensures MemOk(Remember(mem, key))
  {
  }

  lemma ZerosOk()
    ensures MemOk(Zeros())
  {
  }

  // ---------------------------------------------------------------- writing

  /** Writes a name, or nothing for the one before, and a key. */
  method EncodeKeyWrite(name: Key, p: Posting, mem: seq<int>) returns (bytes: seq<int>, mem': seq<int>)
    requires MemOk(mem) && KeyOk(p.key)
    ensures bytes == name + [0] + PostingBytes(mem, p) && mem' == Remember(mem, p.key)
  {
    var kb;
    kb, mem' := EncodeKey(mem, p.key);
    bytes := name + [0] + ([(if p.ins then 1 else 0) * INSERT_BIT + |kb|] + kb);
  }

  /** Writes a batch of sorted postings as a run file. */
  method WriteRun(ps: seq<Posting>) returns (file: seq<int>)
    requires ps != [] && AllOk(ps)
    ensures MemOk(Zeros()) && file == RunBytes([], Zeros(), ps)
  {
    hide RunBytes, PostingBytes, Remember, KeyBytes, KeyOk, NameOk;
    ZerosOk();
    var prev, bytes, mem := ps[0].name, [], Zeros();
    PostingIs(ps, 0);
    file, mem := EncodeKeyWrite(ps[0].name, ps[0], mem);
    RunNext([], Zeros(), ps, 0);
    assert ps[0..] == ps;
    var i := 1;
    while i < |ps|
      invariant 1 <= i <= |ps| && MemOk(mem) && prev == ps[i - 1].name
      invariant file + RunBytes(prev, mem, ps[i..]) == RunBytes([], Zeros(), ps)
    {
      PostingIs(ps, i);
      RunNext(prev, mem, ps, i);
      ghost var rest := RunBytes(prev, mem, ps[i..]);
      ghost var file0 := file;
      if ps[i].name != prev {
        bytes, mem := EncodeKeyWrite(ps[i].name, ps[i], Zeros());
        prev := ps[i].name;
      } else {
        bytes, mem := EncodeKeyWrite([], ps[i], mem);
      }
      file := file + bytes;
      i := i + 1;
      assert rest == bytes + RunBytes(prev, mem, ps[i..]);
      Assoc(file0, bytes, RunBytes(prev, mem, ps[i..]));
    }
    assert ps[i..] == [];
    RunEnd(prev, mem);
  }

  lemma NameParts(name: Key)
    requires NameOk(name)
    ensures 1 <= |name| <= NAME_MAX - 2 && |name| + 2 + KEY_SIZE < NAME_MAX
    ensures forall i :: 0 <= i < |name| ==> name[i] != 0
  {
  }

  lemma Assoc(a: seq<int>, b: seq<int>, c: seq<int>)
    ensures (a + b) + c == a + (b + c)
  {
  }

  lemma PostingIs(ps: seq<Posting>, i: nat)
    requires AllOk(ps) && i < |ps|
    ensures PostingOk(ps[i]) && KeyOk(ps[i].key) && ps[i].name != [] && AllOk(ps[i..]) && AllOk(ps[i + 1..])
  {
  }

  lemma RunNext(prev: Key, mem: seq<int>, ps: seq<Posting>, i: nat)
    requires MemOk(mem) && AllOk(ps) && i < |ps| && AllOk(ps[i..]) && AllOk(ps[i + 1..]) && KeyOk(ps[i].key)
    ensures var m := MemAt(prev, mem, ps[i].name);
      && MemOk(m) && MemOk(Remember(m, ps[i].key))
      && RunBytes(prev, mem, ps[i..])
         == NameBytes(prev, ps[i].name) + PostingBytes(m, ps[i])
            + RunBytes(ps[i].name, Remember(m, ps[i].key), ps[i + 1..])
  {
    assert ps[i..][0] == ps[i] && ps[i..][1..] == ps[i + 1..];
    ZerosOk();
    RememberOk(MemAt(prev, mem, ps[i].name), ps[i].key);
  }

  lemma RunEnd(prev: Key, mem: seq<int>)
    requires MemOk(mem)
    ensures RunBytes(prev, mem, []) == []
  {
  }

  // ---------------------------------------------------------------- reading

  class KeyFile {
    const file: seq<int>
    const chunk: nat
    var offset: nat
    var buf: seq<int>
    var bufPtr: nat
    var prevName: Key
    var mem: seq<int>
    // The postings still to be read.
    ghost var todo: seq<Posting>

    /** What has not been read yet. */
    ghost function Rest(): seq<int>
      reads this`offset, this`bufPtr
    {
      if offset + bufPtr <= |file| then file[offset + bufPtr..] else []
    }

    /** The buffer holds the chunk at offset, which is short only at the end of the file. */
    ghost predicate BufOk()
      reads this`offset, this`buf, this`bufPtr
    {
      && 0 < chunk && bufPtr <= |buf| <= chunk && offset + |buf| <= |file|
      && buf == file[offset..offset + |buf|] && (|buf| < chunk ==> offset + |buf| == |file|)
    }

    ghost predicate Valid()
      reads this
    {
      BufOk() && MemOk(mem) && AllOk(todo) && Rest() == RunBytes(prevName, mem, todo)
    }

    constructor (bytes: seq<int>, size: nat, ghost ps: seq<Posting>)
      requires 0 < size && MemOk(Zeros()) && AllOk(ps) && bytes == RunBytes([], Zeros(), ps)
      ensures Valid() && todo == ps
    {
      file, chunk, offset, prevName, mem, todo := bytes, size, 0, [], Zeros(), ps;
      buf, bufPtr := [], 0;
      new;
      ChunkRead();
    }

    /** Reads the chunk at offset. */
    method ChunkRead()
      requires offset <= |file| && 0 < chunk
      modifies this`buf, this`bufPtr
      ensures BufOk() && bufPtr == 0
    {
      bufPtr := 0;
      buf := if chunk < |file| - offset then file[offset..offset + chunk] else file[offset..];
    }

    /** The next byte. */
    method Getc() returns (c: int)
      requires BufOk()
      modifies this`offset, this`buf, this`bufPtr
      ensures BufOk()
      ensures old(Rest()) == [] ==> c == EOF && Rest() == []
      ensures old(Rest()) != [] ==> c == old(Rest())[0] && Rest() == old(Rest())[1..]
    {
      if bufPtr < |buf| {
        c := buf[bufPtr];
        bufPtr := bufPtr + 1;
        return;
      }
      if |buf| < chunk {
        return EOF;
      }
      offset := offset + |buf|;
      ChunkRead();
      if bufPtr < |buf| {
        c := buf[bufPtr];
        bufPtr := bufPtr + 1;
      } else {
        c := EOF;
      }
    }

    /** Reads the name that starts with c. */
    method ReadName(c: int, ghost name: Key, ghost after: seq<int>) returns (got: Key)
      requires BufOk() && NameOk(name) && c == name[0] && Rest() == name[1..] + [0] + after
      modifies this`offset, this`buf, this`bufPtr
      ensures BufOk() && got == name && Rest() == after
    {
      hide *;
      NameParts(name);
      got := [c];
      ghost var i := 1;
      var d := Getc();
      while d != 0
        invariant BufOk() && 1 <= i <= |name| && got == name[..i]
        invariant if i < |name| then d == name[i] && Rest() == name[i + 1..] + [0] + after
          else d == 0 && Rest() == after
        modifies this`offset, this`buf, this`bufPtr
        decreases |name| - i
      {
        if |got| < NAME_MAX - 2 {
          got := got + [d];
        }
        i := i + 1;
        d := Getc();
      }
    }

    /** Reads n bytes. */
    method ReadBytes(n: nat, ghost bytes: seq<int>, ghost after: seq<int>) returns (got: seq<int>)
      requires BufOk() && |bytes| == n && Rest() == bytes + after
      modifies this`offset, this`buf, this`bufPtr
      ensures BufOk() && got == bytes && Rest() == after
    {
      got := [];
      var j := 0;
      while j < n
        invariant BufOk() && 0 <= j <= n && got == bytes[..j] && Rest() == bytes[j..] + after
        modifies this`offset, this`buf, this`bufPtr
      {
        var c := Getc();
        got := got + [c];
        j := j + 1;
      }
    }

    /** Reads the next posting, unless there are no more. */
    method Read() returns (found: bool, p: Posting)
      requires Valid()
      modifies this
      ensures Valid() && found == (old(todo) != [])
      ensures found ==> p == old(todo)[0] && todo == old(todo)[1..] && NameOk(p.name)
      ensures !found ==> todo == []
    {
      hide *;
      ReadParts();
      ghost var t := todo;
      var c := Getc();
      if t == [] {
        RunEnd(prevName, mem);
      } else {
        NextPosting(prevName, mem, t);
      }
      if c == EOF {
        found, p := false, Posting([], [], false);
        ReadAgain();
        return;
      }
      ghost var e := t[0];
      ghost var m := MemAt(prevName, mem, e.name);
      ghost var rest := RunBytes(e.name, Remember(m, e.key), t[1..]);
      var name := prevName;
      if c != 0 {
        name := ReadName(c, e.name, PostingBytes(m, e) + rest);
        prevName := name;
        mem := Zeros();
      }
      Flag(m, e, rest);
      c := Getc();
      var ins := c >= INSERT_BIT;
      var src := ReadBytes(c % INSERT_BIT, KeyBytes(m, e.key), rest);
      var key;
      assert src + [] == src;
      key, mem := DecodeKey(mem, src, e.key, []);
      found, p := true, Posting(name, key, ins);
      todo := todo[1..];
      ReadAgain();
    }

    lemma ReadParts()
      requires Valid()
      ensures BufOk() && MemOk(mem) && AllOk(todo) && Rest() == RunBytes(prevName, mem, todo)
    {
    }

    lemma ReadAgain()
      requires BufOk() && MemOk(mem) && AllOk(todo) && Rest() == RunBytes(prevName, mem, todo)
      ensures Valid()
    {
    }
  }

  /** What the next posting looks like in a run file. */
  lemma NextPosting(prev: Key, mem: seq<int>, ps: seq<Posting>)
    requires MemOk(mem) && AllOk(ps) && ps != []
    ensures PostingOk(ps[0]) && NameOk(ps[0].name) && KeyOk(ps[0].key) && AllOk(ps[1..]) && MemOk(Zeros())
    ensures var name, m := ps[0].name, MemAt(prev, mem, ps[0].name);
      && MemOk(m) && |m| == KEY_LEVEL_MAX >= |ps[0].key| && MemOk(Remember(m, ps[0].key))
      && (var all, rest := RunBytes(prev, mem, ps),
          PostingBytes(m, ps[0]) + RunBytes(name, Remember(m, ps[0].key), ps[1..]);
      && all != [] && all[0] != EOF && (all[0] == 0 <==> name == prev)
      && (name == prev ==> m == mem && all[1..] == rest)
      && (name != prev ==> m == Zeros() && all[0] == name[0] && all[1..] == name[1..] + [0] + rest))
  {
    PostingIs(ps, 0);
    assert ps[0..] == ps;
    RunNext(prev, mem, ps, 0);
    hide RunBytes, PostingBytes, Remember, MemOk, KeyOk;
    var name, m := ps[0].name, MemAt(prev, mem, ps[0].name);
    var a, b := PostingBytes(m, ps[0]), RunBytes(name, Remember(m, ps[0].key), ps[1..]);
    Assoc(NameBytes(prev, name), a, b);
    NameFront(prev, name, a + b);
  }

  lemma NameFront(prev: Key, name: Key, rest: seq<int>)
    requires NameOk(name)
    ensures var all := NameBytes(prev, name) + rest;
      && all != [] && all[0] != EOF && (all[0] == 0 <==> name == prev)
      && (name == prev ==> all[1..] == rest)
      && (name != prev ==> all[0] == name[0] && all[1..] == name[1..] + [0] + rest)
  {
  }

  lemma Flag(mem: seq<int>, p: Posting, rest: seq<int>)
    requires MemOk(mem) && KeyOk(p.key)
    ensures var all := PostingBytes(mem, p) + rest;
      && INSERT_BIT > 0 && all != [] && all[0] >= 0 && (all[0] >= INSERT_BIT <==> p.ins)
      && all[0] % INSERT_BIT == |KeyBytes(mem, p.key)|
      && all[1..] == KeyBytes(mem, p.key) + rest
  {
    KeyLength(mem, p.key);
    hide KeyBytes, KeyOk, MemOk;
    var kb := KeyBytes(mem, p.key);
    var first := [|kb| + if p.ins then INSERT_BIT else 0];
    assert first + kb + rest == first + (kb + rest);
    FlagBit(|kb|, p.ins);
  }

  lemma FlagBit(n: nat, ins: bool)
    requires n < INSERT_BIT
    ensures var c := n + if ins then INSERT_BIT else 0;
      (c >= INSERT_BIT <==> ins) && c % INSERT_BIT == n
  {
  }

  /** A run file is a file of bytes. */
  lemma {:induction false} RunIsBytes(prev: Key, mem: seq<int>, ps: seq<Posting>)
    requires MemOk(mem) && AllOk(ps)
    ensures forall i :: 0 <= i < |RunBytes(prev, mem, ps)| ==> 0 <= RunBytes(prev, mem, ps)[i] < 256
    decreases |ps|
  {
    if ps != [] {
      var m := MemAt(prev, mem, ps[0].name);
      KeyLength(m, ps[0].key);
      RememberOk(m, ps[0].key);
      RunIsBytes(ps[0].name, Remember(m, ps[0].key), ps[1..]);
      hide KeyBytes, Remember, MemOk;
    }
  }
}
