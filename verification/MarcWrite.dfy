/** Printing a MARC record in two passes: the first finds the lengths, the second fills the buffer
  from two cursors, one in the directory and one in the data. */
module MarcWrite {
  import opened Wrappers
  import opened MarcRecord

  /** Copies s into the buffer. */
  method Put(op: array<int>, pos: nat, s: Text)
    requires pos + |s| <= op.Length
    modifies op
    ensures op[..] == old(op[..])[..pos] + s + old(op[..])[pos + |s|..]
  {
    var i := 0;
    while i < |s|
      invariant 0 <= i <= |s| && op[..] == old(op[..])[..pos] + s[..i] + old(op[..])[pos + i..]
    {
      op[pos + i] := s[i];
      i := i + 1;
    }
  }

  /** The parts of the buffer below two cursors: the form before entryP, the data from base to dataP. */
  ghost predicate Filled(op: seq<int>, front: Text, base: nat, data: Text) {
    |front| <= base && base + |data| <= |op| && op[..|front|] == front && op[base..base + |data|] == data
  }

  /** Something has been put at the front cursor. */
  lemma PutFront(op: seq<int>, op': seq<int>, front: Text, base: nat, data: Text, s: Text)
    requires Filled(op, front, base, data) && |front| + |s| <= base
    requires op' == op[..|front|] + s + op[|front| + |s|..]
    ensures Filled(op', front + s, base, data)
  {
    assert op'[base..base + |data|] == op[base..base + |data|];
  }

  /** Something has been put at the data cursor. */
  lemma PutData(op: seq<int>, op': seq<int>, front: Text, base: nat, data: Text, s: Text)
    requires Filled(op, front, base, data) && base + |data| + |s| <= |op|
    requires op' == op[..base + |data|] + s + op[base + |data| + |s|..]
    ensures Filled(op', front, base, data + s)
  {
    assert op'[..|front|] == op[..|front|];
    assert op'[base..base + |data| + |s|] == op[base..base + |data|] + s;
  }

  method Append(op: array<int>, dataP: nat, s: Text, ghost front: Text, ghost base: nat, ghost data: Text)
    returns (p: nat)
    requires Filled(op[..], front, base, data) && dataP == base + |data| && dataP + |s| <= op.Length
    modifies op
    ensures Filled(op[..], front, base, data + s) && p == dataP + |s|
  {
    hide *;
    ghost var was := op[..];
    Put(op, dataP, s);
    PutData(was, op[..], front, base, data, s);
    p := dataP + |s|;
  }

  method Enter(op: array<int>, entryP: nat, s: Text, ghost front: Text, ghost base: nat, ghost data: Text)
    returns (p: nat)
    requires Filled(op[..], front, base, data) && entryP == |front| && entryP + |s| <= base <= op.Length
    modifies op
    ensures Filled(op[..], front + s, base, data) && p == entryP + |s|
  {
    hide *;
    ghost var was := op[..];
    Put(op, entryP, s);
    PutFront(was, op[..], front, base, data, s);
    p := entryP + |s|;
  }

  /** How long the contents of a field are. */
  method FieldLength(f: Field) returns (len: nat)
    ensures len + 1 == |FieldBytes(f)|
  {
    hide *;
    FieldIs(f);
    len := 0;
    if !f.control {
      len := len + IND_LENGTH;
      var j := 0;
      while j < |f.subs|
        invariant 0 <= j <= |f.subs| && len == IND_LENGTH + |SubBytes(f.subs[..j])|
      {
        SubMore(f.subs, j);
        TwoMarks();
        len := len + ID_LENGTH + |f.subs[j].text|;
        j := j + 1;
      }
      assert f.subs[..j] == f.subs;
    } else if f.text.Some? {
      len := len + |f.text.value|;
    }
  }

  lemma TwoMarks()
    ensures IND_LENGTH == ID_LENGTH == 2 && TAG + ENTRY_DATA + ENTRY_START == 12 && LABEL == 24
  {
  }

  /** The first pass: the base address and the length of the record. */
  method Measure(fs: seq<Field>) returns (base: nat, len: nat)
    ensures base == Base(fs) && len == Length(fs)
  {
    hide Digits, FieldBytes, Body, Directory, Normals, Printed;
    len, base := 26, 25;
    NoneBefore(fs);
    var i := 0;
    while i < |fs|
      invariant 0 <= i <= |fs| && base == LABEL + |Directory(fs[..i])| + 1 && len == base + |Body(fs[..i])| + 1
    {
      var f := fs[i];
      FieldMore(fs, i);
      if Printed(f) {
        var n := FieldLength(f);
        len := len + 4 + ENTRY_DATA + ENTRY_START + n;
        base := base + TAG + ENTRY_DATA + ENTRY_START;
      }
      i := i + 1;
    }
    assert fs[..i] == fs;
  }

  /** Prints the contents of a field at the data cursor. */
  method PutField(op: array<int>, dataP: nat, f: Field, ghost front: Text, ghost base: nat, ghost data: Text)
    returns (p: nat)
    requires Filled(op[..], front, base, data) && dataP == base + |data| && dataP + |FieldBytes(f)| <= op.Length
    modifies op
    ensures Filled(op[..], front, base, data + FieldBytes(f)) && p == dataP + |FieldBytes(f)|
  {
    hide *;
    FieldIs(f);
    p := dataP;
    ghost var done := data;
    if !f.control {
      p := Append(op, p, Padded(f.ind), front, base, done);
      done := done + Padded(f.ind);
      var j := 0;
      while j < |f.subs|
        invariant 0 <= j <= |f.subs| && done == data + (Padded(f.ind) + SubBytes(f.subs[..j])) && p == base + |done|
        invariant Filled(op[..], front, base, done)
      {
        SubMore(f.subs, j);
        SubsFit(f.subs, j);
        var s := f.subs[j];
        p := Append(op, p, [IDFS, FirstChar(s.code)], front, base, done);
        p := Append(op, p, s.text, front, base, done + [IDFS, FirstChar(s.code)]);
        ghost var was := SubBytes(f.subs[..j]);
        assert done + [IDFS, FirstChar(s.code)] + s.text ==
          data + (Padded(f.ind) + (was + [IDFS, FirstChar(s.code)] + s.text));
        done := done + [IDFS, FirstChar(s.code)] + s.text;
        j := j + 1;
      }
      assert f.subs[..j] == f.subs;
    } else if f.text.Some? {
      p := Append(op, p, f.text.value, front, base, done);
      done := done + f.text.value;
    }
    p := Append(op, p, [FS], front, base, done);
    assert done + [FS] == data + FieldBytes(f);
  }

  lemma FieldIs(f: Field)
    ensures f.control ==> FieldBytes(f) == (if f.text.Some? then f.text.value else []) + [FS]
    ensures !f.control ==> FieldBytes(f) == Padded(f.ind) + SubBytes(f.subs) + [FS]
    ensures SubBytes(f.subs[..0]) == [] && |Padded(f.ind)| == IND_LENGTH
  {
  }

  lemma {:induction false} SubsFit(subs: seq<Sub>, j: nat)
    requires j < |subs|
    ensures |SubBytes(subs[..j + 1])| <= |SubBytes(subs)|
    decreases |subs| - j
  {
    if j + 1 < |subs| {
      SubMore(subs, j + 1);
      SubsFit(subs, j + 1);
    } else {
      assert subs[..j + 1] == subs;
    }
  }

  lemma Sizes(r: Record)
    requires |r.leader| == LABEL
    ensures LABEL == 24 && |r.leader[5..12]| == 7 && |r.leader[17..]| == 7
    ensures Base(r.fields) == 24 + |Directory(r.fields)| + 1
    ensures Length(r.fields) == Base(r.fields) + |Body(r.fields)| + 1
  {
  }

  lemma Empty(op: seq<int>, base: nat)
    requires base <= |op|
    ensures Filled(op, [], base, [])
  {
  }

  lemma LabelIs(r: Record)
    requires |r.leader| == LABEL
    ensures Label(r.leader, r.fields) ==
      [] + Digits(Length(r.fields), 5) + r.leader[5..12] + Digits(Base(r.fields), 5) + r.leader[17..]
    ensures |Label(r.leader, r.fields)| == 24
  {
    hide Digits, Length, Base;
  }

  /** There is room for field i. */
  lemma Fits(fs: seq<Field>, i: nat)
    requires i < |fs| && Printed(fs[i])
    ensures |Body(fs[..i])| + |FieldBytes(fs[i])| <= |Body(fs)| && |Directory(fs[..i])| + 12 <= |Directory(fs)|
    ensures |EntryTag(fs[i])| == 3 && ENTRY_DATA == 4 && ENTRY_START == 5
  {
    PrefixForm(fs, i + 1);
    FieldMore(fs, i);
    hide Body, Directory, FieldBytes;
  }

  lemma Join(a: Text, b: Text, c: Text, d: Text, e: Text)
    ensures a + b + c + d + e == a + (b + (c + d + e))
  {
  }

  lemma Complete(op: seq<int>, front: Text, base: nat, data: Text)
    requires Filled(op, front, base, data) && |front| == base && base + |data| == |op|
    ensures op == front + data
  {
    assert op == op[..base] + op[base..];
  }

  lemma ExchangeIs(r: Record)
    requires |r.leader| == LABEL
    ensures Exchange(r) == (Label(r.leader, r.fields) + Directory(r.fields) + [FS]) + (Body(r.fields) + [RS])
  {
  }

  /** Prints a record; both passes agree on where the data start and how long the record is. */
  method NodeToMarc(r: Record) returns (op: array<int>, len: nat)
    requires |r.leader| == LABEL
    ensures fresh(op) && op[..] == Exchange(r) && len == op.Length == Length(r.fields)
  {
    hide *;
    var fs := r.fields;
    var base;
    base, len := Measure(fs);
    op := new int[len](i => 0);
    Sizes(r);
    NoneBefore(fs);
    Empty(op[..], base);
    var entryP, dataP := 0, base;
    entryP := Enter(op, 0, Digits(len, 5), [], base, []);
    ghost var front := [] + Digits(len, 5);
    entryP := Enter(op, entryP, r.leader[5..12], front, base, []);
    front := front + r.leader[5..12];
    entryP := Enter(op, entryP, Digits(base, 5), front, base, []);
    front := front + Digits(base, 5);
    entryP := Enter(op, entryP, r.leader[17..], front, base, []);
    front := front + r.leader[17..];
    LabelIs(r);
    assert front == Label(r.leader, fs);
    var i := 0;
    while i < |fs|
      invariant 0 <= i <= |fs| && entryP == |front| && front == Label(r.leader, fs) + Directory(fs[..i])
      invariant dataP == base + |Body(fs[..i])|
      invariant Filled(op[..], front, base, Body(fs[..i]))
    {
      FieldMore(fs, i);
      var f := fs[i];
      if Printed(f) {
        Fits(fs, i);
        var data0 := dataP;
        ghost var body := Body(fs[..i]);
        dataP := PutField(op, dataP, f, front, base, body);
        body := body + FieldBytes(f);
        entryP := Enter(op, entryP, EntryTag(f), front, base, body);
        ghost var front1 := front + EntryTag(f);
        entryP := Enter(op, entryP, Digits(dataP - data0, ENTRY_DATA), front1, base, body);
        front1 := front1 + Digits(dataP - data0, ENTRY_DATA);
        entryP := Enter(op, entryP, Digits(data0 - base, ENTRY_START), front1, base, body);
        Join(Label(r.leader, fs), Directory(fs[..i]), EntryTag(f), Digits(dataP - data0, ENTRY_DATA),
             Digits(data0 - base, ENTRY_START));
        front := front1 + Digits(data0 - base, ENTRY_START);
      } else {
        assert Directory(fs[..i]) + [] == Directory(fs[..i]) && Body(fs[..i]) + [] == Body(fs[..i]);
      }
      i := i + 1;
    }
    assert fs[..i] == fs;
    entryP := Enter(op, entryP, [FS], front, base, Body(fs));
    assert entryP == base;
    dataP := Append(op, dataP, [RS], front + [FS], base, Body(fs));
    assert dataP == len;
    Complete(op[..], front + [FS], base, Body(fs) + [RS]);
    ExchangeIs(r);
  }
}
