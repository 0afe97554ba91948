/** Reading a MARC record from its exchange form, guided by its directory. */
module MarcRead {
  import opened Wrappers
  import opened MarcRecord
  import MarcWrite

  const MAX_BUFFER := 100000

  function At(buf: Text, i: int): int {
    if 0 <= i < |buf| then buf[i] else 0
  }

  function Slice(buf: Text, i: int, j: int): Text {
    if 0 <= i <= j <= |buf| then buf[i..j] else []
  }

  // ---------------------------------------------------------------- fields

  /** A field that is printed lies in buf from start on, with the mark that ends it at end. */
  ghost predicate FieldAt(buf: Text, start: nat, end: int, f: Field) {
    FieldOk(f) && Printed(f) && start <= end < |buf| && buf[start..end + 1] == FieldBytes(f)
  }

  /** The text of a subfield lies in buf from start on, before another subfield or the end of the field. */
  ghost predicate TextAt(buf: Text, start: nat, end: int, t: Text) {
    && start + |t| <= end < |buf| && buf[start..start + |t|] == t && NoMarks(t, {RS, FS, IDFS})
    && (start + |t| == end || buf[start + |t|] == IDFS)
  }

  /** Reads the text of a subfield: up to a mark, or the end of the field. */
  method TextEnd(buf: Text, start: nat, end: int, ghost t: Text) returns (i: nat)
    ensures start <= i && (i == start || i <= end)
    ensures TextAt(buf, start, end, t) ==> i == start + |t|
  {
    i := start;
    while At(buf, i) != RS && At(buf, i) != IDFS && At(buf, i) != FS && i < end
      invariant start <= i && (i == start || i <= end)
      invariant TextAt(buf, start, end, t) ==> i <= start + |t|
      decreases end - i
    {
      i := i + 1;
    }
    if TextAt(buf, start, end, t) && i < start + |t| { CharOf(buf, start, end, t, i); }
  }

  lemma CharOf(buf: Text, start: nat, end: int, t: Text, i: nat)
    requires TextAt(buf, start, end, t) && start <= i < start + |t|
    ensures At(buf, i) != RS && At(buf, i) != IDFS && At(buf, i) != FS && i < end
  {
    assert buf[i] == buf[start..start + |t|][i - start] == t[i - start];
  }

  /** Subfield n of a data field lies at i. */
  ghost predicate SubAt(buf: Text, start: nat, end: int, f: Field, n: int, i: int) {
    0 <= n <= |f.subs| && i == start + IND_LENGTH + |SubBytes(f.subs[..n])| <= end && (n == |f.subs| ==> i == end)
  }

  lemma DataStarts(buf: Text, start: nat, end: int, f: Field)
    requires FieldAt(buf, start, end, f) && !f.control
    ensures SubAt(buf, start, end, f, 0, start + IND_LENGTH) && start + IND_LENGTH <= |buf|
    ensures buf[start..start + IND_LENGTH] == Padded(f.ind)
  {
    FieldIs(f);
    assert buf[start..end + 1][..IND_LENGTH] == buf[start..start + IND_LENGTH];
    hide SubBytes, FieldOk;
    if f.subs != [] { SubsFit(f.subs, 0); }
  }

  lemma FieldIs(f: Field)
    ensures f.control ==> FieldBytes(f) == TextOf(f) + [FS]
    ensures !f.control ==> FieldBytes(f) == Padded(f.ind) + SubBytes(f.subs) + [FS] && SubBytes(f.subs[..0]) == []
    ensures f.subs[..|f.subs|] == f.subs
  {
  }

  lemma {:induction false} SubsFit(subs: seq<Sub>, j: nat)
    requires j < |subs|
    ensures SubBytes(subs[..j + 1]) <= SubBytes(subs) && |SubBytes(subs[..j + 1])| >= |SubBytes(subs[..j])|
    ensures j + 1 < |subs| ==>
      |SubBytes(subs)| > |SubBytes(subs[..j + 1])| && SubBytes(subs)[|SubBytes(subs[..j + 1])|] == IDFS
    decreases |subs| - j
  {
    SubMore(subs, j);
    if j + 1 < |subs| {
      SubMore(subs, j + 1);
      SubsFit(subs, j + 1);
    } else {
      assert subs[..j + 1] == subs;
    }
  }

  /** Where subfield n is among the subfields of a field, and what follows it. */
  lemma SubPlace(subs: seq<Sub>, n: nat)
    requires n < |subs|
    ensures var all, at, s := SubBytes(subs), |SubBytes(subs[..n])|, subs[n];
      && at + ID_LENGTH + |s.text| <= |all| && all[at] == IDFS && all[at + 1] == FirstChar(s.code)
      && all[at + ID_LENGTH..at + ID_LENGTH + |s.text|] == s.text
      && |SubBytes(subs[..n + 1])| == at + ID_LENGTH + |s.text|
      && (if n + 1 < |subs| then at + ID_LENGTH + |s.text| < |all| && all[at + ID_LENGTH + |s.text|] == IDFS
          else at + ID_LENGTH + |s.text| == |all|)
  {
    SubMore(subs, n);
    SubsFit(subs, n);
    assert n + 1 == |subs| ==> subs[..n + 1] == subs;
    hide SubBytes, FirstChar;
    var all, before, s := SubBytes(subs), SubBytes(subs[..n]), subs[n];
    var more := before + [IDFS, FirstChar(s.code)] + s.text;
    assert more <= all;
    assert more[|before| + 2..] == s.text && all[..|more|] == more;
    assert all[|before| + 2..|more|] == more[|before| + 2..];
  }

  /** The next subfield of a data field, and what follows it. */
  lemma NextSub(buf: Text, start: nat, end: int, f: Field, n: int, i: int)
    requires FieldAt(buf, start, end, f) && !f.control && SubAt(buf, start, end, f, n, i) && i < end
    ensures n < |f.subs| && i + 1 < |buf| && buf[i + 1] == FirstChar(f.subs[n].code)
    ensures TextAt(buf, i + ID_LENGTH, end, f.subs[n].text)
    ensures SubAt(buf, start, end, f, n + 1, i + ID_LENGTH + |f.subs[n].text|)
  {
    FieldIs(f);
    SubPlace(f.subs, n);
    assert SubsOk(f.subs);
    hide SubBytes, FieldOk, FieldBytes, SubsOk, FirstChar;
    InField(buf, start, end, Padded(f.ind), SubBytes(f.subs));
  }

  lemma SliceOf(buf: Text, start: nat, end: nat, i: nat, j: nat)
    requires start <= end <= |buf| && i <= j <= end - start
    ensures buf[start..end][i..j] == buf[start + i..start + j]
  {
    var a, b := buf[start..end][i..j], buf[start + i..start + j];
    assert |a| == |b| && forall k :: 0 <= k < |a| ==> a[k] == b[k];
  }

  lemma InField(buf: Text, start: nat, end: int, ind: Text, all: Text)
    requires start <= end < |buf| && buf[start..end + 1] == ind + all + [FS]
    ensures end == start + |ind| + |all| && buf[start + |ind|..end] == all && buf[end] == FS
    ensures forall j :: 0 <= j < |all| ==> buf[start + |ind| + j] == all[j]
    ensures forall j, k :: 0 <= j <= k <= |all| ==> buf[start + |ind| + j..start + |ind| + k] == all[j..k]
  {
    var b := buf[start..end + 1];
    assert b[|ind|..|ind| + |all|] == all && b[|b| - 1] == FS;
    SliceOf(buf, start, end + 1, |ind|, |ind| + |all|);
    forall j, k | 0 <= j <= k <= |all|
      ensures buf[start + |ind| + j..start + |ind| + k] == all[j..k]
    {
      SliceOf(buf, start, end + 1, |ind| + j, |ind| + k);
      assert b[|ind| + j..|ind| + k] == all[j..k];
    }
    forall j | 0 <= j < |all|
      ensures buf[start + |ind| + j] == all[j]
    {
      assert b[|ind| + j] == all[j];
    }
  }

  /** In the text of a control field there is no mark. */
  lemma InText(buf: Text, start: nat, end: int, f: Field, i: int)
    requires FieldAt(buf, start, end, f) && f.control && start <= i <= end
    ensures i < end ==> At(buf, i) != FS && At(buf, i) != RS
    ensures Slice(buf, start, end) == TextOf(f) && end == start + |TextOf(f)| && f.ind == [] && f.subs == []
  {
    FieldIs(f);
    InField(buf, start, end, [], TextOf(f));
    assert [] + TextOf(f) == TextOf(f);
    if i < end { assert buf[i] == TextOf(f)[i - start]; }
  }

  lemma Marks()
    ensures RS != FS && IDFS != RS && IDFS != FS && IND_LENGTH == ID_LENGTH == 2
  {
  }

  lemma TagIs(buf: Text, start: nat, end: int, f: Field)
    requires FieldAt(buf, start, end, f)
    ensures f.control == ControlTag(f.tag) && start <= end
  {
  }

  lemma IndIs(buf: Text, start: nat, ind: Text, f: Field)
    requires |ind| == IND_LENGTH && (forall k :: 0 <= k < |ind| ==> ind[k] == At(buf, start + k))
    requires start + IND_LENGTH <= |buf| && buf[start..start + IND_LENGTH] == Padded(f.ind)
    ensures ind == Padded(f.ind)
  {
    assert ind == buf[start..start + IND_LENGTH];
  }

  lemma NoSubs(subs: seq<Sub>)
    ensures NormalSubs(subs[..0]) == []
  {
  }

  lemma SubRead(buf: Text, i: nat, end: int, subs: seq<Sub>, n: nat, code: Text)
    requires n < |subs| && i + 1 < |buf| && code == [At(buf, i + 1)] && buf[i + 1] == FirstChar(subs[n].code)
    requires TextAt(buf, i + ID_LENGTH, end, subs[n].text)
    ensures NormalSubs(subs[..n + 1]) ==
      NormalSubs(subs[..n]) + [Sub(code, Slice(buf, i + ID_LENGTH, i + ID_LENGTH + |subs[n].text|))]
  {
    hide FirstChar;
    var a, b := NormalSubs(subs[..n + 1]), NormalSubs(subs[..n]);
    assert a[..n] == b && a == a[..n] + [a[n]];
  }

  lemma SubMark(buf: Text, start: nat, end: int, f: Field, n: int, i: int)
    requires FieldAt(buf, start, end, f) && !f.control && SubAt(buf, start, end, f, n, i)
    ensures n < |f.subs| ==> i < end && At(buf, i) == IDFS
    ensures n == |f.subs| ==> i == end
  {
    if n < |f.subs| {
      FieldIs(f);
      SubPlace(f.subs, n);
      hide SubBytes, FieldOk, FieldBytes, SubsOk;
      InField(buf, start, end, Padded(f.ind), SubBytes(f.subs));
    }
  }

  /** A data field has been read as far as its end. */
  lemma DataRead(buf: Text, start: nat, end: int, f: Field, n: int, i: int, subs: seq<Sub>, ind: Text)
    requires FieldAt(buf, start, end, f) && !f.control && SubAt(buf, start, end, f, n, i)
    requires subs == NormalSubs(f.subs[..n])
    requires ind == Padded(f.ind) && !(At(buf, i) != RS && At(buf, i) != FS && i < end)
    ensures Field(false, f.tag, ind, subs, None) == Normal(f)
  {
    SubMark(buf, start, end, f, n, i);
    assert f.subs[..|f.subs|] == f.subs;
    hide NormalSubs;
  }

  /** A control field has been read as far as its end. */
  lemma TextRead(buf: Text, start: nat, end: int, f: Field, i: int)
    requires FieldAt(buf, start, end, f) && f.control && start <= i <= end
    requires !(At(buf, i) != RS && At(buf, i) != FS && i < end)
    ensures Field(true, f.tag, [], [], if i > start then Some(Slice(buf, start, i)) else None) == Normal(f)
  {
    InText(buf, start, end, f, i);
  }

  /** The code of a subfield. */
  method ReadCode(buf: Text, i: nat, idLength: nat) returns (code: Text)
    ensures idLength == ID_LENGTH ==> code == [At(buf, i + 1)]
  {
    code := [];
    var j := 1;
    while j < idLength && j < 9
      invariant 1 <= j && |code| == j - 1 && (idLength == ID_LENGTH ==> j <= 2)
      invariant (j >= 2 ==> code[0] == At(buf, i + 1))
    {
      code := code + [At(buf, i + j)];
      j := j + 1;
    }
  }

  lemma ControlIs(tag: Text)
    ensures ControlTag(tag) <==> |tag| >= 2 && tag[0] == 48 && tag[1] == 48
  {
  }

  /** Reads a field: its indicators, and then its subfields or its text. */
  method ReadField(buf: Text, start: nat, end: int, tag: Text, indLength: nat, idLength: nat, ghost f: Field)
    returns (r: Field)
    ensures FieldAt(buf, start, end, f) && tag == f.tag && indLength == IND_LENGTH && idLength == ID_LENGTH ==>
      r == Normal(f)
    ensures r.tag == tag && (r.control <==> (|tag| >= 2 && tag[0] == 48 && tag[1] == 48) || indLength == 0)
    ensures if r.control then r.ind == []
      else |r.ind| == indLength && forall k :: 0 <= k < indLength ==> r.ind[k] == At(buf, start + k)
    ensures (|tag| >= 2 && tag[0] == 48 && tag[1] == 48) || idLength == 0 ==> r.subs == []
  {
    hide *;
    Marks();
    ControlIs(tag);
    ghost var good := FieldAt(buf, start, end, f) && tag == f.tag && indLength == IND_LENGTH && idLength == ID_LENGTH;
    if good { TagIs(buf, start, end, f); }
    var i, ind := start, [];
    var control := ControlTag(tag) || indLength == 0;
    if !control {
      while |ind| < indLength
        invariant |ind| <= indLength && forall k :: 0 <= k < |ind| ==> ind[k] == At(buf, start + k)
      {
        ind := ind + [At(buf, start + |ind|)];
      }
      i := i + indLength;
    }
    var i0, subs: seq<Sub> := i, [];
    ghost var n := 0;
    if good && !f.control {
      DataStarts(buf, start, end, f);
      IndIs(buf, start, ind, f);
    }
    NoSubs(f.subs);
    while At(buf, i) != RS && At(buf, i) != FS && i < end
      invariant i >= i0 >= start && (ControlTag(tag) || idLength == 0 ==> subs == [])
      invariant good && f.control ==> subs == [] && i0 == start && i <= end
      invariant good && !f.control ==>
        SubAt(buf, start, end, f, n, i) && 0 <= n <= |f.subs| && subs == NormalSubs(f.subs[..n]) && i == i0
      decreases end - i
    {
      if !ControlTag(tag) && idLength != 0 {
        var code := ReadCode(buf, i, idLength);
        ghost var t: Text := [];
        if good {
          NextSub(buf, start, end, f, n, i);
          t := f.subs[n].text;
          SubRead(buf, i, end, f.subs, n, code);
        }
        i := i + idLength;
        i0 := i;
        i := TextEnd(buf, i, end, t);
        subs := subs + [Sub(code, Slice(buf, i0, i))];
        i0 := i;
        n := n + 1;
      } else {
        i := i + 1;
      }
    }
    if good && f.control { TextRead(buf, start, end, f, i); }
    if good && !f.control { DataRead(buf, start, end, f, n, i, subs, ind); }
    r := Field(control, tag, ind, subs, if i > i0 then Some(Slice(buf, i0, i)) else None);
  }

  // ---------------------------------------------------------------- records

  /** buf holds the form of record r; ps are its fields that are printed. */
  ghost predicate RecordAt(buf: Text, r: Record, ps: seq<Field>) {
    && RecordOk(r) && buf == Exchange(r) && ps == Kept(r.fields) && Normals(ps) == Normals(r.fields)
    && |buf| == Length(r.fields) && Base(r.fields) == LABEL + ENTRY * |ps| + 1 && |buf| > Base(r.fields)
    && (forall k :: 0 <= k < |ps| ==> EntryIn(buf, Base(r.fields), ps, k) && FieldOk(ps[k]) && Printed(ps[k]))
    && buf[LABEL + ENTRY * |ps|] == FS && buf[|buf| - 1] == RS && buf[..LABEL] == Label(r.leader, r.fields)
  }

  lemma RecordThere(r: Record)
    requires RecordOk(r)
    ensures RecordAt(Exchange(r), r, Kept(r.fields))
  {
    hide *;
    RecordIs(r);
    var ps := Kept(r.fields);
    KeptForm(r.fields);
    RecordSizes(r);
    ExchangeParts(r, ps);
    forall k | 0 <= k < |ps|
      ensures EntryIn(Exchange(r), Base(r.fields), ps, k)
    {
      EntryThere(r, ps, k);
    }
    RecordAgain(Exchange(r), r, ps);
  }

  lemma RecordIs(r: Record)
    requires RecordOk(r)
    ensures |r.leader| == LABEL && forall i :: 0 <= i < |r.fields| ==> FieldOk(r.fields[i])
  {
  }

  lemma ExchangeParts(r: Record, ps: seq<Field>)
    requires |r.leader| == LABEL == |Label(r.leader, r.fields)| && Base(r.fields) == LABEL + |Directory(r.fields)| + 1
    requires |Directory(r.fields)| == ENTRY * |ps|
    ensures var buf := Exchange(r);
      && |buf| == Length(r.fields) && |buf| > Base(r.fields) && buf[LABEL + ENTRY * |ps|] == FS && buf[|buf| - 1] == RS
      && buf[..LABEL] == Label(r.leader, r.fields)
  {
    hide Label, Directory, Body;
  }

  lemma RecordAgain(buf: Text, r: Record, ps: seq<Field>)
    requires RecordOk(r) && buf == Exchange(r) && ps == Kept(r.fields) && Normals(ps) == Normals(r.fields)
    requires |buf| == Length(r.fields) && Base(r.fields) == LABEL + ENTRY * |ps| + 1 && |buf| > Base(r.fields)
    requires forall k :: 0 <= k < |ps| ==> EntryIn(buf, Base(r.fields), ps, k) && FieldOk(ps[k]) && Printed(ps[k])
    requires buf[LABEL + ENTRY * |ps|] == FS && buf[|buf| - 1] == RS && buf[..LABEL] == Label(r.leader, r.fields)
    ensures RecordAt(buf, r, ps)
  {
  }

  /** The numbers in the label. */
  lemma LabelNumbers(buf: Text, r: Record, ps: seq<Field>)
    requires RecordAt(buf, r, ps)
    ensures |buf| >= LABEL && Number(buf[..5]) == |buf| && IsDigit(buf[0]) && Number(buf[12..17]) == Base(r.fields)
    ensures Number([buf[10]]) == IND_LENGTH && Number([buf[11]]) == ID_LENGTH
    ensures Number([buf[20]]) == ENTRY_DATA && Number([buf[21]]) == ENTRY_START
  {
    hide Length, Base, Kept, Exchange, Normals;
    var l := Label(r.leader, r.fields);
    assert Pow10(5) == 100000;
    DigitsNumber(Length(r.fields), 5);
    DigitsNumber(Base(r.fields), 5);
    assert buf[..5] == l[..5] == Digits(Length(r.fields), 5) && buf[12..17] == l[12..17] == Digits(Base(r.fields), 5);
    assert buf[0] == buf[..5][0];
    assert buf[10] == l[10] == r.leader[10] && buf[11] == l[11] == r.leader[11];
    assert buf[20] == l[20] == r.leader[20] && buf[21] == l[21] == r.leader[21];
    forall c | c == ZERO + 2 || c == ZERO + 4 || c == ZERO + 5
      ensures Number([c]) == c - ZERO
    {
      assert [c][..0] == [];
    }
  }

  lemma EntryKnown(buf: Text, r: Record, ps: seq<Field>, k: nat)
    requires RecordAt(buf, r, ps) && k < |ps|
    ensures EntryIn(buf, Base(r.fields), ps, k) && FieldOk(ps[k]) && Printed(ps[k]) && |buf| < Pow10(ENTRY_START)
    ensures |ps[k].tag| == TAG
    ensures |FieldBytes(ps[k])| < Pow10(ENTRY_DATA) && |FieldBytes(ps[k])| > 0 && ps[k].tag[0] != FS
    ensures EntryTag(ps[k]) == ps[k].tag
  {
    hide Length, Base, Kept, Exchange, Normals, EntryIn, Label;
  }

  ghost predicate AllDigits(buf: Text, i: int, j: int) {
    forall k :: i <= k < j ==> IsDigit(At(buf, k))
  }

  /** A directory entry in buf: a tag, and two numbers in digits. */
  ghost predicate EntryAt(buf: Text, e: nat, tag: Text, x: nat, y: nat) {
    && e + ENTRY < |buf| && At(buf, e) != FS && AllDigits(buf, e + TAG, e + ENTRY) && Slice(buf, e, e + TAG) == tag
    && Number(Slice(buf, e + TAG, e + TAG + ENTRY_DATA)) == x
    && Number(Slice(buf, e + TAG + ENTRY_DATA, e + ENTRY)) == y
  }

  lemma EntryNumbers(buf: Text, e: nat, tag: Text, x: nat, y: nat)
    requires e + ENTRY < |buf| && buf[e..e + ENTRY] == tag + Digits(x, ENTRY_DATA) + Digits(y, ENTRY_START)
    requires |tag| == TAG && tag[0] != FS && x < Pow10(ENTRY_DATA) && y < Pow10(ENTRY_START)
    ensures EntryAt(buf, e, tag, x, y)
  {
    DigitsNumber(x, ENTRY_DATA);
    DigitsNumber(y, ENTRY_START);
    hide Number, Digits, Pow10;
    var b := buf[e..e + ENTRY];
    EntrySlices(b, tag, Digits(x, ENTRY_DATA), Digits(y, ENTRY_START));
    SliceOf(buf, e, e + ENTRY, 0, TAG);
    SliceOf(buf, e, e + ENTRY, 3, 7);
    SliceOf(buf, e, e + ENTRY, 7, 12);
    forall k | e + TAG <= k < e + ENTRY
      ensures IsDigit(At(buf, k))
    {
      assert At(buf, k) == b[k - e];
    }
    assert At(buf, e) == b[0];
  }

  lemma EntrySlices(entry: Text, tag: Text, a: Text, b: Text)
    requires entry == tag + a + b && |tag| == 3 && |a| == 4 && |b| == 5
    ensures entry[0..3] == tag && entry[3..7] == a && entry[7..12] == b && entry[0] == tag[0]
    ensures forall j :: 3 <= j < 12 ==> entry[j] == if j < 7 then a[j - 3] else b[j - 7]
  {
  }

  lemma EntryParts(buf: Text, r: Record, ps: seq<Field>, k: nat)
    requires RecordAt(buf, r, ps) && k < |ps|
    ensures EntryAt(buf, LABEL + ENTRY * k, ps[k].tag, |FieldBytes(ps[k])|, |Body(ps[..k])|)
    ensures LABEL + ENTRY * k + ENTRY < |buf| && |FieldBytes(ps[k])| > 0
    ensures Base(r.fields) + |Body(ps[..k])| + |FieldBytes(ps[k])| < |buf|
    ensures FieldAt(buf, Base(r.fields) + |Body(ps[..k])|, Base(r.fields) + |Body(ps[..k])| + |FieldBytes(ps[k])| - 1,
                    ps[k])
  {
    hide *;
    Steps();
    EntryKnown(buf, r, ps, k);
    EntryInIs(buf, Base(r.fields), ps, k);
    EntryNumbers(buf, LABEL + ENTRY * k, ps[k].tag, |FieldBytes(ps[k])|, |Body(ps[..k])|);
  }

  lemma EntryInIs(buf: Text, base: nat, ps: seq<Field>, k: nat)
    requires k < |ps| && EntryIn(buf, base, ps, k) && EntryTag(ps[k]) == ps[k].tag && FieldOk(ps[k]) && Printed(ps[k])
    requires |FieldBytes(ps[k])| > 0
    ensures var e, x, y := LABEL + ENTRY * k, |FieldBytes(ps[k])|, |Body(ps[..k])|;
      && e + ENTRY < |buf| && buf[e..e + ENTRY] == ps[k].tag + Digits(x, ENTRY_DATA) + Digits(y, ENTRY_START)
      && base + y + x < |buf| && FieldAt(buf, base + y, base + y + x - 1, ps[k])
  {
    hide FieldOk, Digits, Body, FieldBytes, Printed, EntryTag;
  }

  lemma DirectoryStart(buf: Text, r: Record, ps: seq<Field>)
    requires RecordAt(buf, r, ps)
    ensures LABEL + ENTRY * |ps| < |buf| && At(buf, LABEL + ENTRY * |ps|) == FS
  {
  }

  lemma EntryIs(buf: Text, e: nat, tag: Text, x: nat, y: nat)
    requires EntryAt(buf, e, tag, x, y)
    ensures e + ENTRY < |buf| && At(buf, e) != FS && AllDigits(buf, e + TAG, e + ENTRY)
  {
  }

  lemma DigitAt(buf: Text, i: int, j: int, k: int)
    requires AllDigits(buf, i, j) && i <= k < j
    ensures IsDigit(At(buf, k))
  {
  }

  lemma Steps()
    ensures LABEL == 24 && TAG == 3 && ENTRY == 12 && ENTRY == TAG + ENTRY_DATA + ENTRY_START
  {
  }

  /** A directory entry at e with the given length: more bytes follow it, and its numbers are in digits. */
  ghost predicate EntrySound(buf: Text, e: int, step: nat) {
    e + step < |buf| && AllDigits(buf, e + TAG, e + step)
  }

  /** The first n places for entries hold entries, and none is the end mark of the directory. */
  ghost predicate EntriesSound(buf: Text, step: nat, n: nat) {
    forall k :: 0 <= k < n ==> SoundAt(buf, step, k)
  }

  ghost predicate SoundAt(buf: Text, step: nat, k: nat) {
    At(buf, LABEL + k * step) != FS && EntrySound(buf, LABEL + k * step, step)
  }

  lemma SoundMore(buf: Text, step: nat, n: nat)
    ensures EntriesSound(buf, step, 0)
    ensures EntriesSound(buf, step, n) && At(buf, LABEL + n * step) != FS && EntrySound(buf, LABEL + n * step, step) ==>
      EntriesSound(buf, step, n + 1)
  {
    hide EntrySound;
  }

  lemma SoundIs(buf: Text, e: int, step: nat, l: int)
    requires TAG - 1 <= l < step && AllDigits(buf, e + l + 1, e + step)
    ensures l < TAG && e + step < |buf| ==> EntrySound(buf, e, step)
    ensures l >= TAG && !IsDigit(At(buf, e + l)) ==> !EntrySound(buf, e, step)
  {
  }

  lemma DigitMore(buf: Text, i: int, j: int)
    ensures AllDigits(buf, j, j)
    ensures AllDigits(buf, i + 1, j) && IsDigit(At(buf, i)) ==> AllDigits(buf, i, j)
  {
  }

  lemma SoundEnd(buf: Text, e: int, step: nat)
    requires e + step >= |buf|
    ensures !EntrySound(buf, e, step)
  {
  }

  /** Finds the end of the directory: the first place for an entry that holds the end mark, or one that
      holds no sound entry. There is no record when the bytes end before such a place. */
  method ScanDirectory(buf: Text, step: nat, ghost r: Record, ghost ps: seq<Field>)
    returns (ok: bool, end: nat, ghost n: nat)
    requires step >= TAG && |buf| >= LABEL + 1 && step > 0
    ensures end == LABEL + n * step && EntriesSound(buf, step, n)
    ensures At(buf, end) != FS ==> !EntrySound(buf, end, step)
    ensures ok <==> At(buf, end) == FS || end + step < |buf|
    ensures RecordAt(buf, r, ps) && step == ENTRY ==> ok && n == |ps| && end == LABEL + ENTRY * |ps|
  {
    hide *;
    Steps();
    end, n, ok := LABEL, 0, true;
    ghost var good := RecordAt(buf, r, ps) && step == ENTRY;
    if good { DirectoryStart(buf, r, ps); }
    SoundMore(buf, step, 0);
    while At(buf, end) != FS
      invariant end == LABEL + n * step && ok && (good ==> n <= |ps|) && EntriesSound(buf, step, n)
      decreases |buf| - end
    {
      ghost var more := good && n < |ps|;
      assert good ==> end == LABEL + ENTRY * n;
      if more {
        EntryParts(buf, r, ps, n);
        EntryIs(buf, LABEL + ENTRY * n, ps[n].tag, |FieldBytes(ps[n])|, |Body(ps[..n])|);
      }
      if end + step >= |buf| {
        SoundEnd(buf, end, step);
        ok := false;
        return;
      }
      var l := step - 1;
      DigitMore(buf, end, end + step);
      while l >= TAG && IsDigit(At(buf, end + l))
        invariant TAG - 1 <= l < step && AllDigits(buf, end + l + 1, end + step)
      {
        DigitMore(buf, end + l, end + step);
        l := l - 1;
      }
      SoundIs(buf, end, step, l);
      SoundMore(buf, step, n);
      if l >= TAG {
        if more { DigitAt(buf, end + TAG, end + ENTRY, end + l); }
        break;
      }
      end, n := end + step, n + 1;
    }
    assert good ==> end == LABEL + ENTRY * n;
    if good && n < |ps| {
      EntryParts(buf, r, ps, n);
      EntryIs(buf, LABEL + ENTRY * n, ps[n].tag, |FieldBytes(ps[n])|, |Body(ps[..n])|);
    }
  }

  /** The lengths are those of the form that is written. */
  ghost predicate Described(indLength: nat, idLength: nat, dataLength: nat, startLength: nat) {
    indLength == IND_LENGTH && idLength == ID_LENGTH && dataLength == ENTRY_DATA && startLength == ENTRY_START
  }

  lemma DescribedIs(indLength: nat, idLength: nat, dataLength: nat, startLength: nat)
    ensures Described(indLength, idLength, dataLength, startLength) <==>
      indLength == IND_LENGTH && idLength == ID_LENGTH && dataLength == ENTRY_DATA && startLength == ENTRY_START
  {
  }

  lemma EntryValues(buf: Text, e: nat, tag: Text, x: nat, y: nat)
    requires EntryAt(buf, e, tag, x, y)
    ensures Slice(buf, e, e + TAG) == tag && Number(Slice(buf, e + TAG, e + TAG + ENTRY_DATA)) == x
    ensures Number(Slice(buf, e + TAG + ENTRY_DATA, e + TAG + ENTRY_DATA + ENTRY_START)) == y
  {
  }

  lemma AllRead(buf: Text, r: Record, ps: seq<Field>)
    requires RecordAt(buf, r, ps)
    ensures ps[..|ps|] == ps && Normals(ps) == Normals(r.fields)
  {
  }

  /** Entry k of the directory, and what field it stands for: its data must lie in the record. */
  ghost predicate OffsetGood(buf: Text, base: nat, dataLength: nat, startLength: nat, k: nat) {
    var e := LABEL + k * (TAG + dataLength + startLength) + TAG;
    var length, offset := Number(Slice(buf, e, e + dataLength)), Number(Slice(buf, e + dataLength, e + dataLength
                                                                                    + startLength));
    length > 0 && base + offset + length - 1 < |buf|
  }

  ghost predicate Listed(buf: Text, base: nat, dataLength: nat, startLength: nat, fs: seq<Field>) {
    forall k :: 0 <= k < |fs| ==> ListedAt(buf, base, dataLength, startLength, fs[k], k)
  }

  ghost predicate ListedAt(buf: Text, base: nat, dataLength: nat, startLength: nat, f: Field, k: nat) {
    var e := LABEL + k * (TAG + dataLength + startLength);
    OffsetGood(buf, base, dataLength, startLength, k) && f.tag == Slice(buf, e, e + TAG)
  }

  lemma ListedMore(buf: Text, base: nat, dataLength: nat, startLength: nat, fs: seq<Field>, e: nat, length: nat,
                   offset: nat, f: Field)
    requires e == LABEL + |fs| * (TAG + dataLength + startLength)
    requires length == Number(Slice(buf, e + TAG, e + TAG + dataLength))
    requires offset == Number(Slice(buf, e + TAG + dataLength, e + TAG + dataLength + startLength))
    ensures OffsetGood(buf, base, dataLength, startLength, |fs|) <==>
      length > 0 && base + offset + length - 1 < |buf|
    ensures && Listed(buf, base, dataLength, startLength, fs) && length > 0 && base + offset + length - 1 < |buf|
            && f.tag == Slice(buf, e, e + TAG)
            ==> Listed(buf, base, dataLength, startLength, fs + [f])
  {
    hide Number, Slice;
  }

  lemma NoneListed(buf: Text, base: nat, dataLength: nat, startLength: nat)
    ensures Listed(buf, base, dataLength, startLength, [])
  {
  }

  /** Reads the fields that the directory lists, as far as their offsets are good. */
  method ReadFields(buf: Text, end: nat, base: nat, indLength: nat, idLength: nat, dataLength: nat, startLength: nat,
                    ghost r: Record, ghost ps: seq<Field>, ghost n: nat)
    returns (fs: seq<Field>)
    requires end == LABEL + n * (TAG + dataLength + startLength)
    ensures
      && RecordAt(buf, r, ps)
      && n == |ps|
      && base == Base(r.fields)
      && Described(indLength, idLength, dataLength, startLength)
      ==> fs == Normals(r.fields)
    ensures |fs| <= n && Listed(buf, base, dataLength, startLength, fs)
    ensures |fs| < n ==> !OffsetGood(buf, base, dataLength, startLength, |fs|)
  {
    hide *;
    Steps();
    NoneListed(buf, base, dataLength, startLength);
    ghost var good :=
      && RecordAt(buf, r, ps)
      && n == |ps|
      && base == Base(r.fields)
      && Described(indLength, idLength, dataLength, startLength);
    DescribedIs(indLength, idLength, dataLength, startLength);
    ghost var k := 0;
    fs := [];
    var entryP := LABEL;
    NoneBefore(ps);
    while entryP != end
      invariant 0 <= k <= n && entryP == LABEL + k * (TAG + dataLength + startLength)
      invariant good ==> fs == Normals(ps[..k])
      invariant |fs| == k && Listed(buf, base, dataLength, startLength, fs)
      decreases n - k
    {
      ghost var f := Field(false, [], [], [], None);
      if good {
        EntryParts(buf, r, ps, k);
        FieldMore(ps, k);
        EntryKnown(buf, r, ps, k);
        f := ps[k];
        EntryValues(buf, LABEL + ENTRY * k, f.tag, |FieldBytes(f)|, |Body(ps[..k])|);
      }
      assert good ==> entryP == LABEL + ENTRY * k;
      ghost var e := entryP;
      var tag := Slice(buf, entryP, entryP + TAG);
      entryP := entryP + TAG;
      var length := Number(Slice(buf, entryP, entryP + dataLength));
      entryP := entryP + dataLength;
      var offset := Number(Slice(buf, entryP, entryP + startLength));
      entryP := entryP + startLength;
      var i := offset + base;
      var endOffset := i + length - 1;
      if length <= 0 || endOffset >= |buf| {
        ListedMore(buf, base, dataLength, startLength, fs, e, length, offset, f);
        break;
      }
      var field := ReadField(buf, i, endOffset, tag, indLength, idLength, f);
      ListedMore(buf, base, dataLength, startLength, fs, e, length, offset, field);
      fs := fs + [field];
      k := k + 1;
    }
    if good { AllRead(buf, r, ps); }
  }

  // ---------------------------------------------------------------- the stream

  /** The first digit of a stream is at j. */
  ghost predicate FirstDigit(stream: Text, j: nat) {
    j < |stream| && IsDigit(stream[j]) && forall i :: 0 <= i < j ==> !IsDigit(stream[i])
  }

  /** The bytes of a record start with the first digit of the stream, and are at least as many as their
      first five say. More are taken only up to an end mark, the end of the buffer or of the stream. */
  ghost predicate BytesOf(stream: Text, j: nat, buf: Text) {
    && FirstDigit(stream, j) && j + |buf| <= |stream| && buf == stream[j..j + |buf|] && |buf| >= LABEL + 1
    && LABEL + 1 <= Number(buf[..5]) <= |buf|
    && (forall i :: Number(buf[..5]) - 1 <= i < |buf| - 1 ==> buf[i] != RS)
    && (buf[|buf| - 1] == RS || |buf| > MAX_BUFFER - 2 || j + |buf| == |stream|)
  }

  /** There is no record: no digit with four more bytes, or a length that is too small or too large. */
  ghost predicate NoBytes(stream: Text) {
    forall j: nat :: FirstDigit(stream, j) && j + 5 <= |stream| ==>
      Number(stream[j..j + 5]) < LABEL + 1 || j + Number(stream[j..j + 5]) > |stream|
  }

  /** Skips what comes before a digit. */
  method SkipJunk(stream: Text) returns (ok: bool, buf: Text, used: nat, ghost j: nat)
    ensures if ok then used == j + 5 <= |stream| && buf == stream[j..j + 5] && FirstDigit(stream, j)
      else NoBytes(stream)
  {
    hide Number;
    ok, buf, used, j := false, Slice(stream, 0, 5), 5, 0;
    if |stream| < 5 {
      return;
    }
    while !IsDigit(buf[0])
      invariant used == j + 5 <= |stream| && buf == stream[j..j + 5]
      invariant forall i :: 0 <= i < j ==> !IsDigit(stream[i])
      decreases |stream| - used
    {
      if used == |stream| {
        return;
      }
      buf, used := buf[1..] + [stream[used]], used + 1;
      j := j + 1;
    }
    ok := true;
  }

  /** Reads the bytes of a record from a stream: what comes before a digit is skipped, and a record
      longer than it says goes on to its end mark. used tells how much of the stream is taken. */
  method ReadBytes(stream: Text) returns (ok: bool, buf: Text, used: nat, ghost j: nat)
    ensures if ok then BytesOf(stream, j, buf) && used == j + |buf| else NoBytes(stream)
  {
    hide Number;
    ok, buf, used, j := SkipJunk(stream);
    if !ok {
      return;
    }
    var length := Number(buf);
    ghost var first := buf;
    if length < LABEL + 1 || |stream| - used < length - 5 {
      OneFirst(stream, j);
      return false, buf, used, j;
    }
    buf, used := buf + stream[used..used + (length - 5)], used + (length - 5);
    assert buf[..5] == first;
    while buf[|buf| - 1] != RS && |buf| <= MAX_BUFFER - 2 && used < |stream|
      invariant |buf| >= length && used == j + |buf| <= |stream| && buf == stream[j..used] && buf[..5] == first
      invariant forall i :: length - 1 <= i < |buf| - 1 ==> buf[i] != RS
      decreases |stream| - used
    {
      buf, used := buf + [stream[used]], used + 1;
    }
  }

  lemma OneFirst(stream: Text, j: nat)
    requires FirstDigit(stream, j)
    ensures forall k: nat :: FirstDigit(stream, k) ==> k == j
  {
  }

  /** A record that stands in a stream after bytes that are no digits is what is read. */
  lemma BytesThere(stream: Text, junk: Text, e: Text, rest: Text, ok: bool, buf: Text, j: nat)
    requires if ok then BytesOf(stream, j, buf) else NoBytes(stream)
    requires stream == junk + e + rest && forall i :: 0 <= i < |junk| ==> !IsDigit(junk[i])
    requires |e| >= LABEL + 1 && Number(e[..5]) == |e| && IsDigit(e[0]) && e[|e| - 1] == RS
    ensures ok && buf == e && j == |junk|
  {
    hide Number, IsDigit;
    var n := |junk|;
    forall i | 0 <= i < |e|
      ensures stream[n + i] == e[i]
    {
    }
    assert stream[n] == e[0] && FirstDigit(stream, n);
    assert stream[n..n + 5] == e[..5];
    if ok {
      assert j == n;
      assert buf[..5] == stream[j..j + 5];
      assert stream[n + (|e| - 1)] == RS;
      assert buf == e;
    }
  }

  /** Reads a record from a stream. What was printed of a well-formed record is read back, after any
      bytes that are no digits. */
  method ReadMarc(stream: Text, ghost junk: Text, ghost r: Record, ghost rest: Text)
    returns (record: Option<Record>, used: nat)
    ensures && RecordOk(r) && |r.leader| == LABEL && stream == junk + Exchange(r) + rest
            && (forall i :: 0 <= i < |junk| ==> !IsDigit(junk[i]))
            ==> record == Some(Normalised(r)) && used == |junk| + |Exchange(r)|
  {
    hide *;
    ghost var good := && RecordOk(r) && |r.leader| == LABEL && stream == junk + Exchange(r) + rest
                      && (forall i :: 0 <= i < |junk| ==> !IsDigit(junk[i]));
    ghost var e, ps: seq<Field> := [], [];
    if good {
      e, ps := Exchange(r), Kept(r.fields);
      RecordThere(r);
      LabelNumbers(e, r, ps);
      RecordLength(e, r, ps);
    }
    Steps();
    var ok, buf;
    ghost var j;
    ok, buf, used, j := ReadBytes(stream);
    if good { BytesThere(stream, junk, e, rest, ok, buf, j); }
    if !ok {
      return None, used;
    }
    BytesParts(stream, j, buf);
    var leader := buf[..24];
    var indLength, idLength, base := Number([buf[10]]), Number([buf[11]]), Number(buf[12..17]);
    var dataLength, startLength := Number([buf[20]]), Number([buf[21]]);
    DescribedIs(indLength, idLength, dataLength, startLength);
    var end;
    ghost var n;
    ok, end, n := ScanDirectory(buf, TAG + dataLength + startLength, r, ps);
    if !ok {
      return None, used;
    }
    var fs := ReadFields(buf, end, base, indLength, idLength, dataLength, startLength, r, ps, n);
    if good { NormalisedIs(r); }
    record := Some(Record(leader, fs));
  }

  lemma BytesParts(stream: Text, j: nat, buf: Text)
    requires BytesOf(stream, j, buf)
    ensures |buf| >= LABEL + 1
  {
  }

  lemma RecordLength(buf: Text, r: Record, ps: seq<Field>)
    requires RecordAt(buf, r, ps)
    ensures |buf| >= LABEL + 1 && buf[|buf| - 1] == RS && buf[..LABEL] == Label(r.leader, r.fields)
    ensures |r.leader| == LABEL
  {
    hide Length, Label, Exchange;
  }

  lemma NormalisedIs(r: Record)
    requires |r.leader| == LABEL
    ensures Normalised(r) == Record(Label(r.leader, r.fields), Normals(r.fields))
  {
  }

  /** Printing a well-formed record and reading it back gives the same fields, indicators, codes and text. */
  method RoundTrip(r: Record) returns (back: Option<Record>)
    requires RecordOk(r)
    ensures |r.leader| == LABEL && back == Some(Normalised(r))
  {
    hide *;
    RecordIs(r);
    var op, len := MarcWrite.NodeToMarc(r);
    var used;
    assert [] + op[..] + [] == op[..];
    back, used := ReadMarc(op[..], [], r, []);
  }
}
