/** MARC records: what a record holds, and its exchange form (ISO 2709:2008, clause 4): a record
  label, a directory with an entry for each field, and the fields. */
module MarcRecord {
  import opened Wrappers

  type Text = seq<int>

  const RS := 29    // ends a record
  const FS := 30    // ends the directory and each field
  const IDFS := 31  // starts a subfield
  const SPACE := 32
  const ZERO := 48

  const LABEL := 24
  const TAG := 3
  const IND_LENGTH := 2
  const ID_LENGTH := 2
  const ENTRY_DATA := 4
  const ENTRY_START := 5
  const ENTRY := 12

  datatype Sub = Sub(code: Text, text: Text)

  // A control field has text; a data field has indicators and subfields. What has neither text
  // nor subfields has no contents.
  datatype Field = Field(control: bool, tag: Text, ind: Text, subs: seq<Sub>, text: Option<Text>)

  datatype Record = Record(leader: Text, fields: seq<Field>)

  // ---------------------------------------------------------------- numbers

  /** The last n decimal digits of a number. */
  function Digits(v: nat, n: nat): (s: Text)
    ensures |s| == n
  {
    if n == 0 then [] else Digits(v / 10, n - 1) + [ZERO + v % 10]
  }

  predicate IsDigit(c: int) {
    ZERO <= c <= ZERO + 9
  }

  /** The number the digits among the characters make up. */
  function Number(s: Text): nat {
    if s == [] then 0 else
      var v := Number(s[..|s| - 1]);
      if IsDigit(s[|s| - 1]) then 10 * v + (s[|s| - 1] - ZERO) else v
  }

  function Pow10(n: nat): nat {
    if n == 0 then 1 else 10 * Pow10(n - 1)
  }

  lemma {:induction false} DigitsNumber(v: nat, n: nat)
    requires v < Pow10(n)
    ensures Number(Digits(v, n)) == v && forall i :: 0 <= i < n ==> IsDigit(Digits(v, n)[i])
  {
    if n > 0 {
      DigitsNumber(v / 10, n - 1);
      assert Digits(v, n)[..n - 1] == Digits(v / 10, n - 1);
    }
  }

  // ---------------------------------------------------------------- the exchange form

  /** A field has contents: it is printed. */
  predicate Printed(f: Field) {
    f.text.Some? || f.subs != []
  }

  function Padded(ind: Text): (r: Text)
    ensures |r| == IND_LENGTH
  {
    if |ind| >= IND_LENGTH then ind[..IND_LENGTH] else ind + seq(IND_LENGTH - |ind|, i => SPACE)
  }

  function FirstChar(code: Text): int {
    if code == [] then 0 else code[0]
  }

  function SubBytes(subs: seq<Sub>): Text {
    if subs == [] then []
      else SubBytes(subs[..|subs| - 1]) + [IDFS, FirstChar(subs[|subs| - 1].code)] + subs[|subs| - 1].text
  }

  function TextOf(f: Field): Text {
    if f.text.Some? then f.text.value else []
  }

  /** A field in its exchange form, with the mark that ends it. */
  function FieldBytes(f: Field): Text {
    (if f.control then TextOf(f) else Padded(f.ind) + SubBytes(f.subs)) + [FS]
  }

  function Body(fs: seq<Field>): Text {
    if fs == [] then [] else Body(fs[..|fs| - 1]) + if Printed(fs[|fs| - 1]) then FieldBytes(fs[|fs| - 1]) else []
  }

  /** The tag in the directory entry of a field. */
  function EntryTag(f: Field): (t: Text)
    ensures |t| == TAG
  {
    if |f.tag| == TAG then f.tag else [ZERO, ZERO, ZERO]
  }

  /** The directory: for each field its tag, its length and where it starts. */
  function Directory(fs: seq<Field>): Text {
    if fs == [] then [] else
      var f, before := fs[|fs| - 1], fs[..|fs| - 1];
      Directory(before) + if Printed(f) then
        EntryTag(f) + Digits(|FieldBytes(f)|, ENTRY_DATA) + Digits(|Body(before)|, ENTRY_START)
      else []
  }

  function Base(fs: seq<Field>): nat {
    LABEL + |Directory(fs)| + 1
  }

  function Length(fs: seq<Field>): nat {
    Base(fs) + |Body(fs)| + 1
  }

  /** The leader with the length of the record and the base address of its data. */
  function Label(leader: Text, fs: seq<Field>): Text
    requires |leader| == LABEL
  {
    Digits(Length(fs), 5) + leader[5..12] + Digits(Base(fs), 5) + leader[17..]
  }

  function Exchange(r: Record): Text
    requires |r.leader| == LABEL
  {
    Label(r.leader, r.fields) + Directory(r.fields) + [FS] + Body(r.fields) + [RS]
  }

  // ---------------------------------------------------------------- well-formed records

  ghost predicate NoMarks(t: Text, marks: set<int>) {
    forall i :: 0 <= i < |t| ==> t[i] !in marks
  }

  predicate ControlTag(tag: Text) {
    |tag| >= 2 && tag[0] == tag[1] == ZERO
  }

  ghost predicate SubsOk(subs: seq<Sub>) {
    forall i :: 0 <= i < |subs| ==> NoMarks(subs[i].text, {RS, FS, IDFS})
  }

  /** Tags of three characters, those of control fields starting with 00; marks only where they
      belong; and lengths that fit the directory. */
  ghost predicate FieldOk(f: Field) {
    && |f.tag| == TAG && f.tag[0] != FS && f.control == ControlTag(f.tag)
    && (if f.control then f.ind == [] && f.subs == [] && NoMarks(TextOf(f), {RS, FS})
        else f.text == None && SubsOk(f.subs))
    && |FieldBytes(f)| < Pow10(ENTRY_DATA)
  }

  /** The leader describes the form: indicators and identifiers of two characters, and directory
      entries of four and five digits. */
  ghost predicate RecordOk(r: Record) {
    && |r.leader| == LABEL && r.leader[10] == ZERO + IND_LENGTH && r.leader[11] == ZERO + ID_LENGTH
    && r.leader[20] == ZERO + ENTRY_DATA && r.leader[21] == ZERO + ENTRY_START
    && (forall i :: 0 <= i < |r.fields| ==> FieldOk(r.fields[i]))
    && Length(r.fields) < Pow10(5)
  }

  function NormalSubs(subs: seq<Sub>): seq<Sub> {
    seq(|subs|, i requires 0 <= i < |subs| => Sub([FirstChar(subs[i].code)], subs[i].text))
  }

  /** What becomes of a field: indicators are padded, codes are one character, and empty text
      leaves no trace. */
  function Normal(f: Field): Field {
    if f.control then f.(text := if TextOf(f) == [] then None else f.text)
    else f.(ind := Padded(f.ind), subs := NormalSubs(f.subs))
  }

  function Normals(fs: seq<Field>): seq<Field> {
    if fs == [] then [] else Normals(fs[..|fs| - 1]) + if Printed(fs[|fs| - 1]) then [Normal(fs[|fs| - 1])] else []
  }

  /** What is read back of a record that has been written. */
  function Normalised(r: Record): Record
    requires |r.leader| == LABEL
  {
    Record(Label(r.leader, r.fields), Normals(r.fields))
  }

  // ---------------------------------------------------------------- the form by example

  function SmallLeader(): Text {
    [48, 48, 48, 48, 48, 110, 97, 109, 32, 32, 50, 50, 48, 48, 48, 48, 48, 32, 32, 32, 52, 53, 48, 48]
  }

  /** A record with control field 001, x, and field 245 with indicators 1 and 0 and y in subfield a. */
  function SmallRecord(): Record {
    Record(SmallLeader(), [Field(true, [48, 48, 49], [], [], Some([120])),
                           Field(false, [50, 52, 53], [49, 48], [Sub([97], [121])], None)])
  }

  lemma SmallFields()
    ensures var fs := SmallRecord().fields;
      && FieldBytes(fs[0]) == [120, 30] && FieldBytes(fs[1]) == [49, 48, 31, 97, 121, 30]
      && Printed(fs[0]) && Printed(fs[1]) && EntryTag(fs[0]) == [48, 48, 49] && EntryTag(fs[1]) == [50, 52, 53]
  {
    var f := SmallRecord().fields[1];
    assert f.subs[..0] == [] && SubBytes([]) == [];
    assert SubBytes(f.subs) == [31, 97, 121];
  }

  lemma SmallDigits()
    ensures Digits(2, 4) == [48, 48, 48, 50] && Digits(6, 4) == [48, 48, 48, 54]
    ensures Digits(0, 5) == [48, 48, 48, 48, 48] && Digits(2, 5) == [48, 48, 48, 48, 50]
    ensures Digits(58, 5) == [48, 48, 48, 53, 56] && Digits(49, 5) == [48, 48, 48, 52, 57]
  {
  }

  lemma SmallFirst()
    ensures var f := SmallRecord().fields[0];
      && Body([f]) == [120, 30] && Directory([f]) == [48, 48, 49, 48, 48, 48, 50, 48, 48, 48, 48, 48]
  {
    var f := SmallRecord().fields[0];
    SmallFields();
    SmallDigits();
    FormSnoc([], f);
    assert Body([]) == [] && Directory([]) == [] && [] + [f] == [f];
    hide FieldBytes, Digits, EntryTag, Printed, Body, Directory;
  }

  lemma SmallParts()
    ensures var fs := SmallRecord().fields;
      && Body(fs) == [120, 30] + [49, 48, 31, 97, 121, 30]
      && Directory(fs)
         == [48, 48, 49, 48, 48, 48, 50, 48, 48, 48, 48, 48] + [50, 52, 53, 48, 48, 48, 54, 48, 48, 48, 48, 50]
  {
    var fs := SmallRecord().fields;
    SmallFields();
    SmallDigits();
    SmallFirst();
    FormSnoc([fs[0]], fs[1]);
    hide FieldBytes, Digits, EntryTag, Printed, Body, Directory;
    assert [fs[0]] + [fs[1]] == fs;
  }

  /** How the record is printed: label, directory, the mark 30, the fields with the marks 31 and 30, and
      the mark 29. */
  lemma SmallExchange()
    ensures |SmallLeader()| == LABEL
    ensures Exchange(SmallRecord()) ==
      [48, 48, 48, 53, 56, 110, 97, 109, 32, 32, 50, 50, 48, 48, 48, 52, 57, 32, 32, 32, 52, 53, 48, 48]
      + ([48, 48, 49, 48, 48, 48, 50, 48, 48, 48, 48, 48] + [50, 52, 53, 48, 48, 48, 54, 48, 48, 48, 48, 50])
      + [30] + ([120, 30] + [49, 48, 31, 97, 121, 30]) + [29]
  {
    SmallParts();
    SmallLabel();
    hide Digits, Body, Directory, Label;
  }

  lemma SmallLabel()
    ensures |SmallLeader()| == LABEL
    ensures Label(SmallLeader(), SmallRecord().fields) ==
      [48, 48, 48, 53, 56, 110, 97, 109, 32, 32, 50, 50, 48, 48, 48, 52, 57, 32, 32, 32, 52, 53, 48, 48]
  {
    SmallParts();
    SmallDigits();
    hide Digits, Body, Directory;
    var fs, leader := SmallRecord().fields, SmallLeader();
    assert |Directory(fs)| == 24 && |Body(fs)| == 8;
    assert leader[5..12] == [110, 97, 109, 32, 32, 50, 50] && leader[17..] == [32, 32, 32, 52, 53, 48, 48];
  }

  // ---------------------------------------------------------------- when nothing is lost

  /** A field is read back as it was. */
  predicate Lossless(f: Field) {
    && Printed(f)
    && (if f.control then f.text != Some([])
        else |f.ind| == IND_LENGTH && forall i :: 0 <= i < |f.subs| ==> |f.subs[i].code| == 1)
  }

  lemma NormalSubsSame(subs: seq<Sub>)
    ensures NormalSubs(subs) == subs <==> forall i :: 0 <= i < |subs| ==> |subs[i].code| == 1
  {
    forall i | 0 <= i < |subs|
      ensures NormalSubs(subs)[i] == subs[i] <==> |subs[i].code| == 1
    {
    }
    if forall i :: 0 <= i < |subs| ==> |subs[i].code| == 1 {
      assert NormalSubs(subs) == subs;
    }
  }

  lemma NormalSame(f: Field)
    requires Printed(f)
    ensures Normal(f) == f <==> Lossless(f)
  {
    NormalSubsSame(f.subs);
    hide NormalSubs;
    if !f.control { assert |f.ind| == IND_LENGTH ==> f.ind[..IND_LENGTH] == f.ind; }
  }

  lemma {:induction false} NormalsLength(fs: seq<Field>)
    ensures |Normals(fs)| <= |fs|
  {
    if fs != [] { NormalsLength(fs[..|fs| - 1]); }
  }

  /** Fields are read back as they were exactly when each of them is. */
  lemma {:induction false} NormalsSame(fs: seq<Field>)
    ensures Normals(fs) == fs <==> forall i :: 0 <= i < |fs| ==> Lossless(fs[i])
  {
    hide Normal, Lossless;
    if fs != [] {
      var n := |fs| - 1;
      var before, f := fs[..n], fs[n];
      assert fs == before + [f];
      NormalsSame(before);
      NormalsLength(before);
      LosslessPrinted(f);
      if Printed(f) { NormalSame(f); }
    }
  }

  lemma LosslessPrinted(f: Field)
    ensures Lossless(f) ==> Printed(f)
  {
  }

  /** What is read back is the record itself exactly when its fields lose nothing and its leader says
      how long it is. */
  lemma RecordSame(r: Record)
    requires |r.leader| == LABEL
    ensures Normalised(r) == r <==>
      (forall i :: 0 <= i < |r.fields| ==> Lossless(r.fields[i])) && Label(r.leader, r.fields) == r.leader
  {
    NormalsSame(r.fields);
    hide Normals, Lossless, Label;
  }

  /** The fields that leave no trace when they are printed a second time. */
  predicate EmptyText(f: Field) {
    f.control && f.text == Some([])
  }

  lemma NormalBytes(f: Field)
    requires FieldOk(f) && Printed(f) && !EmptyText(f)
    ensures FieldBytes(Normal(f)) == FieldBytes(f) && EntryTag(Normal(f)) == EntryTag(f) && Printed(Normal(f))
  {
    if !f.control {
      NormalSubBytes(f.subs);
      assert Padded(Padded(f.ind)) == Padded(f.ind);
    }
  }

  lemma {:induction false} NormalSubBytes(subs: seq<Sub>)
    ensures SubBytes(NormalSubs(subs)) == SubBytes(subs)
  {
    if subs != [] {
      var n := |subs| - 1;
      NormalSubBytes(subs[..n]);
      assert NormalSubs(subs)[..n] == NormalSubs(subs[..n]);
    }
  }

  lemma EmptyTextGoes(f: Field)
    requires FieldOk(f) && EmptyText(f)
    ensures Printed(f) && !Printed(Normal(f))
  {
  }

  /** One more field. */
  lemma FormSnoc(fs: seq<Field>, f: Field)
    ensures Directory(fs + [f]) == Directory(fs)
      + if Printed(f) then EntryTag(f) + Digits(|FieldBytes(f)|, ENTRY_DATA) + Digits(|Body(fs)|, ENTRY_START) else []
    ensures Body(fs + [f]) == Body(fs) + if Printed(f) then FieldBytes(f) else []
    ensures Normals(fs + [f]) == Normals(fs) + if Printed(f) then [Normal(f)] else []
  {
    assert (fs + [f])[..|fs|] == fs;
    hide Printed, EntryTag, Digits, FieldBytes, Normal;
  }

  lemma EntrySize(f: Field, x: nat, y: nat)
    ensures |EntryTag(f) + Digits(x, ENTRY_DATA) + Digits(y, ENTRY_START)| == ENTRY
  {
    hide Digits;
  }

  ghost predicate SomeEmpty(fs: seq<Field>) {
    exists i :: 0 <= i < |fs| && EmptyText(fs[i])
  }

  lemma SomeEmptySnoc(fs: seq<Field>, f: Field)
    ensures SomeEmpty(fs + [f]) <==> SomeEmpty(fs) || EmptyText(f)
  {
    hide EmptyText;
    var all := fs + [f];
    assert all[|fs|] == f && forall i :: 0 <= i < |fs| ==> all[i] == fs[i];
  }

  /** What is read back of fields is no longer than they are, and is the same unless a text is empty. */
  ghost predicate FormOk(fs: seq<Field>) {
    && |Directory(Normals(fs))| <= |Directory(fs)| && |Body(Normals(fs))| <= |Body(fs)|
    && if SomeEmpty(fs) then |Directory(Normals(fs))| < |Directory(fs)|
       else Directory(Normals(fs)) == Directory(fs) && Body(Normals(fs)) == Body(fs)
  }

  lemma FormStep(before: seq<Field>, f: Field)
    requires FormOk(before) && FieldOk(f)
    ensures FormOk(before + [f])
  {
    hide FieldOk, FieldBytes, Digits, Normal, EmptyText, Printed, EntryTag, SomeEmpty, Directory, Body, Normals;
    var ns := Normals(before);
    FormSnoc(before, f);
    SomeEmptySnoc(before, f);
    if !Printed(f) {
      assert ns + [] == ns && Directory(before) + [] == Directory(before) && Body(before) + [] == Body(before);
      if EmptyText(f) { EmptyTextGoes(f); }
    } else {
      FormSnoc(ns, Normal(f));
      EntrySize(f, |FieldBytes(f)|, |Body(before)|);
      if EmptyText(f) {
        EmptyTextGoes(f);
      } else {
        NormalBytes(f);
        EntrySize(f, |FieldBytes(f)|, |Body(ns)|);
      }
    }
  }

  lemma {:induction false} NormalForm(fs: seq<Field>)
    requires forall i :: 0 <= i < |fs| ==> FieldOk(fs[i])
    ensures FormOk(fs)
  {
    if fs == [] {
      assert Normals(fs) == [] && !SomeEmpty(fs);
    } else {
      hide FieldOk, FormOk;
      var n := |fs| - 1;
      assert fs == fs[..n] + [fs[n]];
      NormalForm(fs[..n]);
      FormStep(fs[..n], fs[n]);
    }
  }

  /** A record that was read prints as it did before, exactly when no control field was printed with
      empty text: such a field has an entry in the directory the first time and none the second. */
  lemma PrintsAgain(r: Record)
    requires RecordOk(r)
    ensures |Normalised(r).leader| == LABEL
    ensures Exchange(Normalised(r)) == Exchange(r) <==> !SomeEmpty(r.fields)
  {
    var fs := r.fields;
    var ns := Normals(fs);
    NormalForm(fs);
    RecordSizes(r);
    hide FieldOk, Directory, Body, Digits, EmptyText, Normals, SomeEmpty;
    if SomeEmpty(fs) {
      assert |Exchange(Normalised(r))| < |Exchange(r)|;
    } else {
      LabelAgain(r.leader, fs, ns);
    }
  }

  lemma LabelAgain(leader: Text, fs: seq<Field>, ns: seq<Field>)
    requires |leader| == LABEL && Directory(ns) == Directory(fs) && Body(ns) == Body(fs)
    ensures |Label(leader, fs)| == LABEL && Label(Label(leader, fs), ns) == Label(leader, fs)
  {
    hide Directory, Body, Digits;
  }

  // ---------------------------------------------------------------- prefixes

  lemma Snoc<T>(s: seq<T>, i: nat)
    requires i < |s|
    ensures s[..i + 1][..i] == s[..i] && s[..i + 1][i] == s[i] && |s[..i + 1]| == i + 1 && s[..i + 1] != []
  {
  }

  /** The form of one more field. */
  lemma FieldMore(fs: seq<Field>, i: nat)
    requires i < |fs|
    ensures var f, before, upto := fs[i], fs[..i], fs[..i + 1];
      && Body(upto) == Body(before) + (if Printed(f) then FieldBytes(f) else [])
      && Directory(upto) == Directory(before)
         + (if Printed(f) then EntryTag(f) + Digits(|FieldBytes(f)|, ENTRY_DATA) + Digits(|Body(before)|, ENTRY_START)
             else [])
      && Normals(upto) == Normals(before) + (if Printed(f) then [Normal(f)] else [])
  {
    Snoc(fs, i);
  }

  lemma SubMore(subs: seq<Sub>, i: nat)
    requires i < |subs|
    ensures SubBytes(subs[..i + 1]) == SubBytes(subs[..i]) + [IDFS, FirstChar(subs[i].code)] + subs[i].text
  {
    Snoc(subs, i);
  }

  lemma NoneBefore(fs: seq<Field>)
    ensures Body(fs[..0]) == [] && Directory(fs[..0]) == [] && Normals(fs[..0]) == [] && SubBytes([]) == []
  {
  }

  /** What comes before a field starts the whole. */
  lemma {:induction false} PrefixForm(fs: seq<Field>, i: nat)
    requires i <= |fs|
    ensures Body(fs[..i]) <= Body(fs) && Directory(fs[..i]) <= Directory(fs)
    decreases |fs| - i
  {
    if i < |fs| {
      PrefixForm(fs, i + 1);
      FieldMore(fs, i);
    } else {
      assert fs[..i] == fs;
    }
  }

  // ---------------------------------------------------------------- where things are

  /** The fields that are printed. */
  ghost function Kept(fs: seq<Field>): seq<Field> {
    if fs == [] then [] else Kept(fs[..|fs| - 1]) + if Printed(fs[|fs| - 1]) then [fs[|fs| - 1]] else []
  }

  /** Only the fields that are printed matter. */
  lemma {:induction false} KeptForm(fs: seq<Field>)
    requires forall i :: 0 <= i < |fs| ==> FieldOk(fs[i])
    ensures var ps := Kept(fs);
      && Body(ps) == Body(fs) && Directory(ps) == Directory(fs) && Normals(ps) == Normals(fs)
      && (forall i :: 0 <= i < |ps| ==> FieldOk(ps[i]) && Printed(ps[i])) && |Directory(fs)| == ENTRY * |ps|
  {
    hide FieldOk, FieldBytes, Digits, Normal, Body, Directory, Normals, Printed;
    if fs != [] {
      var before, f := fs[..|fs| - 1], fs[|fs| - 1];
      KeptForm(before);
      var ps := Kept(before);
      FieldMore(fs, |fs| - 1);
      FieldMore(ps + [f], |ps|);
      assert fs[..|fs|] == fs && (ps + [f])[..|ps|] == ps && (ps + [f])[..|ps| + 1] == ps + [f] && ps + [] == ps;
      assert (ps + [f])[|ps|] == f;
    } else {
      NoneBefore(fs);
      assert fs[..0] == fs;
    }
  }

  ghost function Entry(ps: seq<Field>, k: nat): Text
    requires k < |ps|
  {
    EntryTag(ps[k]) + Digits(|FieldBytes(ps[k])|, ENTRY_DATA) + Digits(|Body(ps[..k])|, ENTRY_START)
  }

  /** Entry k of the directory in buf, and the field it describes. */
  ghost predicate EntryIn(buf: Text, base: nat, ps: seq<Field>, k: int) {
    && 0 <= k < |ps| && LABEL + ENTRY * k + ENTRY < |buf|
    && buf[LABEL + ENTRY * k..LABEL + ENTRY * k + ENTRY] == Entry(ps, k)
    && base + |Body(ps[..k])| + |FieldBytes(ps[k])| < |buf|
    && buf[base + |Body(ps[..k])|..base + |Body(ps[..k])| + |FieldBytes(ps[k])|] == FieldBytes(ps[k])
  }

  lemma EntryThere(r: Record, ps: seq<Field>, k: nat)
    requires RecordOk(r) && Body(ps) == Body(r.fields) && Directory(ps) == Directory(r.fields) && k < |ps|
    requires (forall i :: 0 <= i < |ps| ==> Printed(ps[i])) && |Directory(ps)| == ENTRY * |ps|
    ensures EntryIn(Exchange(r), Base(r.fields), ps, k)
  {
    hide RecordOk, FieldBytes, Digits, Body, Directory, Printed, Label, Base, Length;
    RecordSizes(r);
    var buf, l, d, b := Exchange(r), Label(r.leader, r.fields), Directory(ps), Body(ps);
    EntryAt(ps, k);
    var x, y := |Body(ps[..k])|, |FieldBytes(ps[k])|;
    Within(l, d, [FS] + b + [RS], ENTRY * k, ENTRY * k + ENTRY);
    Within(l + d + [FS], b, [RS], x, x + y);
    assert l + d + ([FS] + b + [RS]) == buf;
  }

  lemma RecordSizes(r: Record)
    requires RecordOk(r)
    ensures |r.leader| == LABEL && |Label(r.leader, r.fields)| == LABEL
    ensures Base(r.fields) == LABEL + |Directory(r.fields)| + 1
  {
    hide Length;
  }

  lemma EntryAt(ps: seq<Field>, k: nat)
    requires k < |ps| && (forall i :: 0 <= i < |ps| ==> Printed(ps[i])) && |Directory(ps)| == ENTRY * |ps|
    ensures ENTRY * k + ENTRY <= |Directory(ps)| && Directory(ps)[ENTRY * k..ENTRY * k + ENTRY] == Entry(ps, k)
    ensures var x, y := |Body(ps[..k])|, |FieldBytes(ps[k])|;
      x + y <= |Body(ps)| && Body(ps)[x..x + y] == FieldBytes(ps[k])
  {
    hide *;
    FieldMore(ps, k);
    PrefixForm(ps, k + 1);
    EveryEntry(ps, k);
    EntryIs(ps, k);
    MiddleOf(Directory(ps[..k]), Entry(ps, k), Directory(ps));
    MiddleOf(Body(ps[..k]), FieldBytes(ps[k]), Body(ps));
  }

  lemma EntryIs(ps: seq<Field>, k: nat)
    requires k < |ps|
    ensures Entry(ps, k) ==
      EntryTag(ps[k]) + Digits(|FieldBytes(ps[k])|, ENTRY_DATA) + Digits(|Body(ps[..k])|, ENTRY_START)
    ensures |Entry(ps, k)| == ENTRY
  {
    hide FieldBytes, Digits, Body;
  }

  lemma MiddleOf(a: Text, b: Text, c: Text)
    requires a + b <= c
    ensures |a| + |b| <= |c| && c[|a|..|a| + |b|] == b
  {
    assert c[|a|..|a| + |b|] == (a + b)[|a|..];
  }

  lemma {:induction false} EveryEntry(ps: seq<Field>, k: nat)
    requires k < |ps| && forall i :: 0 <= i < |ps| ==> Printed(ps[i])
    ensures |Directory(ps[..k])| == ENTRY * k && |Directory(ps[..k + 1])| == ENTRY * (k + 1)
  {
    FieldMore(ps, k);
    NoneBefore(ps);
    if k > 0 { EveryEntry(ps, k - 1); }
    hide FieldBytes, Body, Directory;
  }

  lemma Within(a: Text, b: Text, c: Text, i: nat, j: nat)
    requires i <= j <= |b|
    ensures (a + b + c)[|a| + i..|a| + j] == b[i..j]
  {
  }
}
