/** The parser of regular expressions: from the tokens of a pattern to its syntax tree. It accepts
  exactly the patterns of the grammar, and the tree matches the words the pattern stands for. */
module DfaSyntax {
  import opened Wrappers
  import opened DfaTree
  import opened DfaReach
  import opened DfaCset

  // The end of a pattern has no token. Wild is read by the lexer but the parser never accepts it.
  datatype Token =
    | Lp | Rp | Char(c: nat) | Chars(s: seq<Bits>) | Any | Alt | AnyZ | Wild | Quest | Clos1 | Clos0 | End | Start

  const NEWLINE := 10

  // ---------------------------------------------------------------- patterns

  // A pattern: alternatives, sequences, repetitions, groups and characters.
  datatype Re = Alts(parts: seq<Re>) | Cats(parts: seq<Re>) | Post(e: Re, op: Token) | Group(e: Re) | Atom(tok: Token)

  predicate Postfix(tok: Token) {
    tok.Quest? || tok.Clos0? || tok.Clos1?
  }

  predicate Starter(tok: Token) {
    tok.Wild? || tok.AnyZ? || tok.Any? || tok.Lp? || tok.Char? || tok.Chars?
  }

  /** The grammar has four levels: alternatives, sequences, repetitions and the rest. */
  ghost predicate IsRe(re: Re, level: nat)
    decreases re, if level <= 4 then 4 - level else 0
  {
    match level
    case 1 => re.Alts? && re.parts != [] && forall i :: 0 <= i < |re.parts| ==> IsRe(re.parts[i], 2)
    case 2 => re.Cats? && re.parts != [] && forall i :: 0 <= i < |re.parts| ==> IsRe(re.parts[i], 3)
    case 3 => if re.Post? then IsRe(re.e, 4) && Postfix(re.op) else IsRe(re, 4)
    case _ =>
      if re.Group? then IsRe(re.e, 1)
      else re.Atom? && (re.tok.Char? || re.tok.Chars? || re.tok.Any? || re.tok.AnyZ?)
  }

  /** The tokens of a pattern. */
  ghost function Show(re: Re): seq<Token>
    decreases re, 1, 0
  {
    match re
    case Alts(ps) => ShowAlts(re, |ps|)
    case Cats(ps) => ShowCats(re, |ps|)
    case Post(e, op) => Show(e) + [op]
    case Group(e) => [Lp] + Show(e) + [Rp]
    case Atom(tok) => [tok]
  }

  ghost function ShowAlts(re: Re, n: nat): seq<Token>
    requires re.Alts? && n <= |re.parts|
    decreases re, 0, n
  {
    if n == 0 then []
    else ShowAlts(re, n - 1) + (if n == 1 then [] else [Alt]) + Show(re.parts[n - 1])
  }

  ghost function ShowCats(re: Re, n: nat): seq<Token>
    requires re.Cats? && n <= |re.parts|
    decreases re, 0, n
  {
    if n == 0 then [] else ShowCats(re, n - 1) + Show(re.parts[n - 1])
  }

  /** The words a class stands for: its members, or the empty word when it has none. */
  ghost predicate ClassMeans(s: seq<Bits>, size: nat, w: Word) {
    if exists c :: 0 <= c <= size && Has(s, c) then |w| == 1 && 0 <= w[0] <= size && Has(s, w[0]) else w == []
  }

  /** The words a pattern stands for; any is the class of the token Any. */
  ghost predicate Means(re: Re, w: Word, any: seq<Bits>, size: nat)
    decreases re, 1, 0
  {
    match re
    case Alts(ps) => exists k :: 0 <= k < |ps| && Means(ps[k], w, any, size)
    case Cats(ps) => MeansCats(re, |ps|, w, any, size)
    case Post(e, op) =>
      if op.Quest? then w == [] || Means(e, w, any, size)
      else exists n: nat :: n >= (if op.Clos1? then 1 else 0) && MeansRep(e, n, w, any, size)
    case Group(e) => Means(e, w, any, size)
    case Atom(tok) =>
      match tok
      case Char(c) => w == [c]
      case Chars(s) => ClassMeans(s, size, w)
      case Any => ClassMeans(any, size, w)
      case AnyZ => w == [] || ClassMeans(any, size, w)
      case _ => false
  }

  ghost predicate MeansCats(re: Re, n: nat, w: Word, any: seq<Bits>, size: nat)
    requires re.Cats? && n <= |re.parts|
    decreases re, 0, n
  {
    if n == 0 then w == []
    else exists i ::
      0 <= i <= |w| && MeansCats(re, n - 1, w[..i], any, size) && Means(re.parts[n - 1], w[i..], any, size)
  }

  ghost predicate MeansRep(e: Re, n: nat, w: Word, any: seq<Bits>, size: nat)
    decreases e, 2, n
  {
    if n == 0 then w == []
    else exists i :: 0 <= i <= |w| && Means(e, w[..i], any, size) && MeansRep(e, n - 1, w[i..], any, size)
  }

  // ---------------------------------------------------------------- trees of patterns

  /** The tree matches what the pattern stands for. */
  ghost predicate SameWords(t: Tnode, re: Re, any: seq<Bits>, size: nat) {
    forall w: Word :: Matches(t, w) <==> Means(re, w, any, size)
  }

  lemma AltsOne(t: Tnode, p: Re, any: seq<Bits>, size: nat)
    requires SameWords(t, p, any, size)
    ensures SameWords(t, Alts([p]), any, size) && Show(Alts([p])) == Show(p)
  {
    forall w: Word
      ensures Means(Alts([p]), w, any, size) <==> Means(p, w, any, size)
    {
      assert [p][0] == p;
    }
    assert ShowAlts(Alts([p]), 0) == [];
  }

  lemma AltsMore(t1: Tnode, ps: seq<Re>, t2: Tnode, p: Re, any: seq<Bits>, size: nat)
    requires SameWords(t1, Alts(ps), any, size) && SameWords(t2, p, any, size) && ps != []
    ensures SameWords(Or(t1, t2), Alts(ps + [p]), any, size) && Show(Alts(ps + [p])) == Show(Alts(ps)) + [Alt] + Show(p)
  {
    var qs := ps + [p];
    forall w: Word
      ensures Means(Alts(qs), w, any, size) <==> Means(Alts(ps), w, any, size) || Means(p, w, any, size)
    {
      if k :| 0 <= k < |qs| && Means(qs[k], w, any, size) {
        if k < |ps| { assert Means(ps[k], w, any, size); }
      }
      if k :| 0 <= k < |ps| && Means(ps[k], w, any, size) { assert Means(qs[k], w, any, size); }
      if Means(p, w, any, size) { assert Means(qs[|ps|], w, any, size); }
    }
    ShowAltsFront(ps, p, |ps|);
    hide Means;
  }

  lemma {:induction false} ShowAltsFront(ps: seq<Re>, p: Re, n: nat)
    requires n <= |ps|
    ensures ShowAlts(Alts(ps + [p]), n) == ShowAlts(Alts(ps), n)
  {
    if n > 0 { ShowAltsFront(ps, p, n - 1); }
  }

  lemma CatsOne(t: Tnode, p: Re, any: seq<Bits>, size: nat)
    requires SameWords(t, p, any, size)
    ensures SameWords(t, Cats([p]), any, size) && Show(Cats([p])) == Show(p)
  {
    var re := Cats([p]);
    forall w: Word
      ensures Means(re, w, any, size) <==> Means(p, w, any, size)
    {
      if i :| 0 <= i <= |w| && MeansCats(re, 0, w[..i], any, size) && Means(p, w[i..], any, size) {
        assert w[i..] == w;
      }
      if Means(p, w, any, size) {
        assert w[..0] == [] && w[0..] == w;
        assert MeansCats(re, 0, w[..0], any, size);
      }
    }
    assert ShowCats(re, 0) == [];
  }

  lemma CatsMore(t1: Tnode, ps: seq<Re>, t2: Tnode, p: Re, any: seq<Bits>, size: nat)
    requires SameWords(t1, Cats(ps), any, size) && SameWords(t2, p, any, size)
    ensures SameWords(Cat(t1, t2), Cats(ps + [p]), any, size) && Show(Cats(ps + [p])) == Show(Cats(ps)) + Show(p)
  {
    var n := |ps|;
    forall w: Word
      ensures Matches(Cat(t1, t2), w) <==> Means(Cats(ps + [p]), w, any, size)
    {
      forall i | 0 <= i <= |w|
        ensures MeansCats(Cats(ps + [p]), n, w[..i], any, size) <==> Matches(t1, w[..i])
        ensures Means(p, w[i..], any, size) <==> Matches(t2, w[i..])
      {
        CatsFront(ps, p, n, w[..i], any, size);
        assert Means(Cats(ps), w[..i], any, size) == MeansCats(Cats(ps), n, w[..i], any, size);
      }
    }
    ShowCatsFront(ps, p, n);
    hide Means, MeansCats;
  }

  lemma {:induction false} CatsFront(ps: seq<Re>, p: Re, n: nat, w: Word, any: seq<Bits>, size: nat)
    requires n <= |ps|
    ensures MeansCats(Cats(ps + [p]), n, w, any, size) <==> MeansCats(Cats(ps), n, w, any, size)
  {
    if n > 0 {
      forall i | 0 <= i <= |w|
        ensures MeansCats(Cats(ps + [p]), n - 1, w[..i], any, size) <==> MeansCats(Cats(ps), n - 1, w[..i], any, size)
      {
        CatsFront(ps, p, n - 1, w[..i], any, size);
      }
    }
  }

  lemma {:induction false} ShowCatsFront(ps: seq<Re>, p: Re, n: nat)
    requires n <= |ps|
    ensures ShowCats(Cats(ps + [p]), n) == ShowCats(Cats(ps), n)
  {
    if n > 0 { ShowCatsFront(ps, p, n - 1); }
  }

  lemma {:induction false} RepSame(t: Tnode, e: Re, n: nat, w: Word, any: seq<Bits>, size: nat)
    requires SameWords(t, e, any, size)
    ensures Repeats(t, n, w) <==> MeansRep(e, n, w, any, size)
    decreases n
  {
    if n > 0 {
      forall i | 0 <= i <= |w|
        ensures Repeats(t, n - 1, w[i..]) <==> MeansRep(e, n - 1, w[i..], any, size)
        ensures Matches(t, w[..i]) <==> Means(e, w[..i], any, size)
      {
        RepSame(t, e, n - 1, w[i..], any, size);
      }
    }
  }

  lemma PostSame(t: Tnode, e: Re, op: Token, any: seq<Bits>, size: nat)
    requires SameWords(t, e, any, size) && Postfix(op)
    ensures var tree := if op.Clos0? then Star(t) else if op.Clos1? then Plus(t) else Or(t, Epsilon);
      SameWords(tree, Post(e, op), any, size)
  {
    var tree := if op.Clos0? then Star(t) else if op.Clos1? then Plus(t) else Or(t, Epsilon);
    forall w: Word
      ensures Matches(tree, w) <==> Means(Post(e, op), w, any, size)
    {
      forall n: nat
        ensures Repeats(t, n, w) <==> MeansRep(e, n, w, any, size)
      {
        RepSame(t, e, n, w, any, size);
      }
      var least := if op.Clos1? then 1 else 0;
      if n: nat :| n >= least && Repeats(t, n, w) { assert MeansRep(e, n, w, any, size); }
      if n: nat :| n >= least && MeansRep(e, n, w, any, size) { assert Repeats(t, n, w); }
    }
  }

  lemma ClassSame(t: Tnode, s: seq<Bits>, size: nat)
    requires (exists c :: 0 <= c <= size && Has(s, c)) ==> ClassBelow(t, s, size + 1)
    requires (forall c :: 0 <= c <= size ==> !Has(s, c)) ==> t == Epsilon
    ensures forall w: Word :: Matches(t, w) <==> ClassMeans(s, size, w)
  {
  }

  // ---------------------------------------------------------------- positions of trees

  lemma LeavesOr(l: Tnode, r: Tnode, a: nat, b: nat, c: nat, size: nat)
    requires NewLeaves(l, a, b, size) && NewLeaves(r, b, c, size) && a <= b <= c
    ensures NewLeaves(Or(l, r), a, c, size) && NewLeaves(Cat(l, r), a, c, size)
  {
    assert forall p: nat :: p in Positions(l) ==> p !in Positions(r);
  }

  lemma LeavesOne(t: Tnode, a: nat, b: nat, size: nat)
    requires NewLeaves(t, a, b, size)
    ensures NewLeaves(Star(t), a, b, size) && NewLeaves(Plus(t), a, b, size) && NewLeaves(Or(t, Epsilon), a, b, size)
  {
  }

  // ---------------------------------------------------------------- what the parser says

  ghost predicate TokensOk(ts: seq<Token>, size: nat) {
    forall i :: 0 <= i < |ts| ==> (ts[i].Chars? ==> IsSet(ts[i].s, size)) && (ts[i].Char? ==> ts[i].c <= size)
  }

  /** A pattern of the level has been read from i to j, and its tree has new positions. */
  ghost predicate Parsed(ts: seq<Token>, i: nat, j: nat, t: Tnode, from: nat, upto: nat, re: Re, level: nat,
                         any: seq<Bits>, size: nat) {
    && i < j <= |ts| && from <= upto && IsRe(re, level) && ts[i..j] == Show(re)
    && NewLeaves(t, from, upto, size) && SameWords(t, re, any, size)
  }

  /** The token at j, or the end, cannot go on with a pattern of the level. */
  predicate Stops(ts: seq<Token>, j: nat, level: nat) {
    j < |ts| ==>
      && (level <= 3 ==> !Postfix(ts[j]))
      && (level <= 2 ==> !Starter(ts[j]))
      && (level <= 1 ==> !ts[j].Alt?)
  }

  /** A pattern of the level stands at i, and ends there. */
  ghost predicate Stands(ts: seq<Token>, i: nat, re: Re, level: nat) {
    && IsRe(re, level) && i + |Show(re)| <= |ts| && ts[i..i + |Show(re)|] == Show(re)
    && Stops(ts, i + |Show(re)|, level)
  }

  lemma StandsHas(ts: seq<Token>, i: nat, re: Re, level: nat)
    requires Stands(ts, i, re, level)
    ensures level == 1 ==> re.Alts? && re.parts != []
    ensures level == 2 ==> re.Cats? && re.parts != []
  {
  }

  /** Every pattern starts with a token that can start one. */
  lemma {:induction false} ShowStarts(re: Re, level: nat)
    requires IsRe(re, level) && 1 <= level <= 4
    ensures Show(re) != [] && Starter(Show(re)[0]) && !Show(re)[0].Wild?
    decreases re, 4 - level
  {
    if level == 1 {
      ShowStarts(re.parts[0], 2);
      AltsStart(re, |re.parts|);
    } else if level == 2 {
      ShowStarts(re.parts[0], 3);
      CatsStart(re, |re.parts|);
    } else if level == 3 {
      if re.Post? { ShowStarts(re.e, 4); } else { ShowStarts(re, 4); }
    }
  }

  lemma {:induction false} AltsStart(re: Re, n: nat)
    requires re.Alts? && 1 <= n <= |re.parts| && Show(re.parts[0]) != []
    ensures ShowAlts(re, n) != [] && ShowAlts(re, n)[0] == Show(re.parts[0])[0]
  {
    if n > 1 { AltsStart(re, n - 1); } else { assert ShowAlts(re, 0) == []; }
  }

  lemma {:induction false} CatsStart(re: Re, n: nat)
    requires re.Cats? && 1 <= n <= |re.parts| && Show(re.parts[0]) != []
    ensures ShowCats(re, n) != [] && ShowCats(re, n)[0] == Show(re.parts[0])[0]
  {
    if n > 1 { CatsStart(re, n - 1); } else { assert ShowCats(re, 0) == []; }
  }

  lemma {:induction false} AltsPrefix(re: Re, n: nat)
    requires re.Alts? && n <= |re.parts|
    ensures ShowAlts(re, n) <= ShowAlts(re, |re.parts|)
    decreases |re.parts| - n
  {
    if n < |re.parts| { AltsPrefix(re, n + 1); }
  }

  lemma {:induction false} CatsPrefix(re: Re, n: nat)
    requires re.Cats? && n <= |re.parts|
    ensures ShowCats(re, n) <= ShowCats(re, |re.parts|)
    decreases |re.parts| - n
  {
    if n < |re.parts| { CatsPrefix(re, n + 1); }
  }

  /** Where alternative n of a pattern stands. */
  lemma AltStands(ts: seq<Token>, i: nat, re: Re, n: nat)
    requires Stands(ts, i, re, 1) && n < |re.parts|
    ensures var at := i + |ShowAlts(re, n)| + if n == 0 then 0 else 1;
      && Stands(ts, at, re.parts[n], 2) && at + |Show(re.parts[n])| == i + |ShowAlts(re, n + 1)|
      && (n > 0 ==> i + |ShowAlts(re, n)| < |ts| && ts[i + |ShowAlts(re, n)|].Alt?)
  {
    var all, m := ShowAlts(re, |re.parts|), n + 1;
    assert Show(re) == all;
    AltsPrefix(re, m);
    var a, b := ShowAlts(re, n) + (if n == 0 then [] else [Alt]), Show(re.parts[n]);
    assert ShowAlts(re, m) == a + b;
    Middle(ts, i, all, a, b);
    if n > 0 { assert all[|ShowAlts(re, n)|] == (a + b)[|ShowAlts(re, n)|] == Alt; }
    if m < |re.parts| { AltNext(re, m); }
  }

  lemma AltNext(re: Re, m: nat)
    requires re.Alts? && 0 < m < |re.parts|
    ensures |ShowAlts(re, m)| < |ShowAlts(re, |re.parts|)| && ShowAlts(re, |re.parts|)[|ShowAlts(re, m)|] == Alt
  {
    AltsPrefix(re, m + 1);
    var a, b := ShowAlts(re, m), Show(re.parts[m]);
    assert ShowAlts(re, m + 1) == a + [Alt] + b;
    assert ShowAlts(re, |re.parts|)[|a|] == (a + [Alt] + b)[|a|];
  }

  lemma Middle(ts: seq<Token>, i: nat, all: seq<Token>, a: seq<Token>, b: seq<Token>)
    requires i + |all| <= |ts| && ts[i..i + |all|] == all && a + b <= all
    ensures ts[i + |a|..i + |a| + |b|] == b && forall k :: 0 <= k < |all| ==> ts[i + k] == all[k]
  {
    forall k | 0 <= k < |all|
      ensures ts[i + k] == all[k]
    {
      assert ts[i..i + |all|][k] == all[k];
    }
    forall k | 0 <= k < |b|
      ensures ts[i + |a| + k] == b[k]
    {
      assert all[|a| + k] == (a + b)[|a| + k] == b[k];
    }
  }

  /** The next part of a sequence starts with a token that can start one. */
  lemma CatNext(re: Re, m: nat)
    requires IsRe(re, 2) && m < |re.parts|
    ensures var at, all := |ShowCats(re, m)|, ShowCats(re, |re.parts|);
      at < |all| && Starter(all[at]) && !all[at].Wild?
  {
    CatsPrefix(re, m + 1);
    ShowStarts(re.parts[m], 3);
    hide IsRe, Show;
    var a, b := ShowCats(re, m), Show(re.parts[m]);
    assert ShowCats(re, m + 1) == a + b;
    assert ShowCats(re, |re.parts|)[|a|] == (a + b)[|a|] == b[0];
  }

  /** Where part n of a sequence stands. */
  lemma CatStands(ts: seq<Token>, i: nat, re: Re, n: nat)
    requires Stands(ts, i, re, 2) && n < |re.parts|
    ensures var at := i + |ShowCats(re, n)|;
      Stands(ts, at, re.parts[n], 3) && at + |Show(re.parts[n])| == i + |ShowCats(re, n + 1)|
    ensures i + |ShowCats(re, n)| < |ts| && Starter(ts[i + |ShowCats(re, n)|]) && !ts[i + |ShowCats(re, n)|].Wild?
  {
    var all, m := ShowCats(re, |re.parts|), n + 1;
    assert Show(re) == all;
    CatsPrefix(re, m);
    CatNext(re, n);
    var a, b := ShowCats(re, n), Show(re.parts[n]);
    assert ShowCats(re, m) == a + b;
    Middle(ts, i, all, a, b);
    if m < |re.parts| { CatNext(re, m); }
  }

  // ---------------------------------------------------------------- levels of the parser

  // What the parser works on: the tokens, the class of Any, and the last character.
  datatype Input = Input(ts: seq<Token>, any: seq<Bits>, size: nat)

  ghost predicate InputOk(p: Input) {
    TokensOk(p.ts, p.size) && IsSet(p.any, p.size)
  }

  /** What a level of the parser promises: a tree only for a pattern of the level, and one for
      every such pattern. */
  ghost predicate Says(p: Input, i: nat, from: nat, level: nat, t: Option<Tnode>, j: nat, upto: nat, re: Re) {
    && j <= |p.ts| && from <= upto
    && (t.Some? ==> Parsed(p.ts, i, j, t.value, from, upto, re, level, p.any, p.size))
    && (forall want :: Stands(p.ts, i, want, level) ==> t.Some? && re == want && j == i + |Show(want)|)
  }

  lemma SaysParts(p: Input, i: nat, from: nat, level: nat, t: Option<Tnode>, j: nat, upto: nat, re: Re)
    requires Says(p, i, from, level, t, j, upto, re)
    ensures j <= |p.ts| && from <= upto
    ensures forall want :: Stands(p.ts, i, want, level) ==> t.Some? && re == want && j == i + |Show(want)|
    ensures t.Some? ==> Parsed(p.ts, i, j, t.value, from, upto, re, level, p.any, p.size) && i < j
  {
  }

  lemma SaysNone(p: Input, i: nat, from: nat, level: nat, j: nat, upto: nat, re: Re)
    requires j <= |p.ts| && from <= upto && forall want :: !Stands(p.ts, i, want, level)
    ensures Says(p, i, from, level, None, j, upto, re)
  {
  }

  lemma SaysSome(p: Input, i: nat, from: nat, level: nat, t: Tnode, j: nat, upto: nat, re: Re)
    requires Parsed(p.ts, i, j, t, from, upto, re, level, p.any, p.size)
    requires forall want :: Stands(p.ts, i, want, level) ==> re == want
    ensures Says(p, i, from, level, Some(t), j, upto, re)
  {
  }

  // ---------------------------------------------------------------- alternatives

  /** ps are the first alternatives of any pattern that stands at i, and end at j. */
  ghost predicate AltsSoFar(ts: seq<Token>, i: nat, ps: seq<Re>, j: nat) {
    forall want :: Stands(ts, i, want, 1) ==>
      1 <= |ps| <= |want.parts| && ps == want.parts[..|ps|] && j == i + |ShowAlts(want, |ps|)|
  }

  lemma NoAlts(want: Re)
    requires want.Alts?
    ensures ShowAlts(want, 0) == []
  {
  }

  lemma FirstAlt(p: Input, i: nat, position: nat, t: Option<Tnode>, j: nat, upto: nat, re: Re)
    requires Says(p, i, position, 2, t, j, upto, re)
    ensures AltsSoFar(p.ts, i, [re], j) && (t == None ==> forall want :: !Stands(p.ts, i, want, 1))
  {
    forall want | Stands(p.ts, i, want, 1)
      ensures t.Some? && 1 <= |want.parts| && [re] == want.parts[..1] && j == i + |ShowAlts(want, 1)|
    {
      hide *;
      StandsHas(p.ts, i, want, 1);
      AltStands(p.ts, i, want, 0);
      SaysParts(p, i, position, 2, t, j, upto, re);
      NoAlts(want);
      assert want.parts[..1] == [want.parts[0]];
    }
  }

  lemma NextAlt(p: Input, i: nat, ps: seq<Re>, j: nat, position: nat, t: Option<Tnode>, j2: nat, upto: nat, re: Re)
    requires AltsSoFar(p.ts, i, ps, j) && j < |p.ts| && p.ts[j].Alt?
    requires Says(p, j + 1, position, 2, t, j2, upto, re)
    ensures AltsSoFar(p.ts, i, ps + [re], j2) && (t == None ==> forall want :: !Stands(p.ts, i, want, 1))
  {
    hide Says, Parsed, Stands, Show, ShowAlts, IsRe, Starter;
    var n := |ps|;
    forall want | Stands(p.ts, i, want, 1)
      ensures want.Alts? && t.Some? && n + 1 <= |want.parts| && ps + [re] == want.parts[..n + 1]
      ensures j2 == i + |ShowAlts(want, n + 1)|
    {
      StandsHas(p.ts, i, want, 1);
      assert 1 <= n <= |want.parts| && ps == want.parts[..n] && j == i + |ShowAlts(want, n)|;
      MoreAltParts(p.ts, i, want, n, j);
      AltStands(p.ts, i, want, n);
      SaysParts(p, j + 1, position, 2, t, j2, upto, re);
      assert want.parts[..n + 1] == want.parts[..n] + [want.parts[n]];
    }
  }

  /** A token that another part may start with is not the end. */
  lemma MoreAltParts(ts: seq<Token>, i: nat, want: Re, n: nat, j: nat)
    requires Stands(ts, i, want, 1) && n <= |want.parts| && j == i + |ShowAlts(want, n)|
    requires j < |ts| && ts[j].Alt?
    ensures n < |want.parts|
  {
  }

  lemma AltsEnd(ts: seq<Token>, i: nat, ps: seq<Re>, j: nat)
    requires AltsSoFar(ts, i, ps, j) && !(j < |ts| && ts[j].Alt?)
    ensures forall want :: Stands(ts, i, want, 1) ==> Alts(ps) == want
  {
    forall want | Stands(ts, i, want, 1)
      ensures Alts(ps) == want
    {
      if |ps| < |want.parts| { AltStands(ts, i, want, |ps|); }
    }
  }

  lemma OneAlt(p: Input, i: nat, j: nat, t: Tnode, from: nat, upto: nat, re: Re)
    requires Parsed(p.ts, i, j, t, from, upto, re, 2, p.any, p.size)
    ensures Parsed(p.ts, i, j, t, from, upto, Alts([re]), 1, p.any, p.size)
  {
    AltsOne(t, re, p.any, p.size);
    hide SameWords, NewLeaves;
  }

  lemma MoreAlts(p: Input, i: nat, j: nat, j2: nat, t1: Tnode, t2: Tnode, from: nat, upto: nat, upto2: nat,
                 ps: seq<Re>, re: Re)
    requires Parsed(p.ts, i, j, t1, from, upto, Alts(ps), 1, p.any, p.size) && j < |p.ts| && p.ts[j].Alt?
    requires Parsed(p.ts, j + 1, j2, t2, upto, upto2, re, 2, p.any, p.size)
    ensures Parsed(p.ts, i, j2, Or(t1, t2), from, upto2, Alts(ps + [re]), 1, p.any, p.size)
  {
    AltsMore(t1, ps, t2, re, p.any, p.size);
    LeavesOr(t1, t2, from, upto, upto2, p.size);
    hide SameWords, NewLeaves, Show;
    assert p.ts[i..j2] == p.ts[i..j] + [p.ts[j]] + p.ts[j + 1..j2];
  }

  // ---------------------------------------------------------------- sequences

  /** ps are the first parts of any sequence that stands at i, and end at j. */
  ghost predicate CatsSoFar(ts: seq<Token>, i: nat, ps: seq<Re>, j: nat) {
    forall want :: Stands(ts, i, want, 2) ==>
      1 <= |ps| <= |want.parts| && ps == want.parts[..|ps|] && j == i + |ShowCats(want, |ps|)|
  }

  lemma NoCats(want: Re)
    requires want.Cats?
    ensures ShowCats(want, 0) == []
  {
  }

  lemma FirstCat(p: Input, i: nat, position: nat, t: Option<Tnode>, j: nat, upto: nat, re: Re)
    requires Says(p, i, position, 3, t, j, upto, re)
    ensures CatsSoFar(p.ts, i, [re], j) && (t == None ==> forall want :: !Stands(p.ts, i, want, 2))
  {
    forall want | Stands(p.ts, i, want, 2)
      ensures t.Some? && 1 <= |want.parts| && [re] == want.parts[..1] && j == i + |ShowCats(want, 1)|
    {
      hide *;
      StandsHas(p.ts, i, want, 2);
      CatStands(p.ts, i, want, 0);
      SaysParts(p, i, position, 3, t, j, upto, re);
      NoCats(want);
      assert want.parts[..1] == [want.parts[0]];
    }
  }

  lemma NextCat(p: Input, i: nat, ps: seq<Re>, j: nat, position: nat, t: Option<Tnode>, j2: nat, upto: nat, re: Re)
    requires CatsSoFar(p.ts, i, ps, j) && j < |p.ts| && Starter(p.ts[j])
    requires Says(p, j, position, 3, t, j2, upto, re)
    ensures CatsSoFar(p.ts, i, ps + [re], j2) && (t == None ==> forall want :: !Stands(p.ts, i, want, 2))
  {
    hide Says, Parsed, Stands, Show, ShowCats, IsRe, Starter;
    var n := |ps|;
    forall want | Stands(p.ts, i, want, 2)
      ensures want.Cats? && t.Some? && n + 1 <= |want.parts| && ps + [re] == want.parts[..n + 1]
      ensures j2 == i + |ShowCats(want, n + 1)|
    {
      StandsHas(p.ts, i, want, 2);
      assert 1 <= n <= |want.parts| && ps == want.parts[..n] && j == i + |ShowCats(want, n)|;
      MoreCatParts(p.ts, i, want, n, j);
      CatStands(p.ts, i, want, n);
      SaysParts(p, j, position, 3, t, j2, upto, re);
      assert want.parts[..n + 1] == want.parts[..n] + [want.parts[n]];
    }
  }

  /** A token that another part may start with is not the end. */
  lemma MoreCatParts(ts: seq<Token>, i: nat, want: Re, n: nat, j: nat)
    requires Stands(ts, i, want, 2) && n <= |want.parts| && j == i + |ShowCats(want, n)|
    requires j < |ts| && Starter(ts[j])
    ensures n < |want.parts|
  {
  }

  lemma CatsEnd(ts: seq<Token>, i: nat, ps: seq<Re>, j: nat)
    requires CatsSoFar(ts, i, ps, j) && !(j < |ts| && Starter(ts[j]))
    ensures forall want :: Stands(ts, i, want, 2) ==> Cats(ps) == want
  {
    forall want | Stands(ts, i, want, 2)
      ensures Cats(ps) == want
    {
      if |ps| < |want.parts| { CatStands(ts, i, want, |ps|); }
    }
  }

  lemma OneCat(p: Input, i: nat, j: nat, t: Tnode, from: nat, upto: nat, re: Re)
    requires Parsed(p.ts, i, j, t, from, upto, re, 3, p.any, p.size)
    ensures Parsed(p.ts, i, j, t, from, upto, Cats([re]), 2, p.any, p.size)
  {
    CatsOne(t, re, p.any, p.size);
    hide SameWords, NewLeaves;
  }

  lemma MoreCats(p: Input, i: nat, j: nat, j2: nat, t1: Tnode, t2: Tnode, from: nat, upto: nat, upto2: nat,
                 ps: seq<Re>, re: Re)
    requires Parsed(p.ts, i, j, t1, from, upto, Cats(ps), 2, p.any, p.size)
    requires Parsed(p.ts, j, j2, t2, upto, upto2, re, 3, p.any, p.size)
    ensures Parsed(p.ts, i, j2, Cat(t1, t2), from, upto2, Cats(ps + [re]), 2, p.any, p.size)
  {
    CatsMore(t1, ps, t2, re, p.any, p.size);
    LeavesOr(t1, t2, from, upto, upto2, p.size);
    hide SameWords, NewLeaves, Show;
    assert p.ts[i..j2] == p.ts[i..j] + p.ts[j..j2];
  }

  // ---------------------------------------------------------------- repetitions

  /** What is repeated, if anything is. */
  ghost function Inner(re: Re): Re {
    if re.Post? then re.e else re
  }

  lemma InnerStands(ts: seq<Token>, i: nat, want: Re)
    requires Stands(ts, i, want, 3)
    ensures var j := i + |Show(Inner(want))|;
      && Stands(ts, i, Inner(want), 4)
      && (if want.Post? then j < |ts| && Postfix(ts[j]) && want == Post(Inner(want), ts[j])
          else want == Inner(want) && !(j < |ts| && Postfix(ts[j])))
  {
    if want.Post? {
      Middle(ts, i, Show(want), [], Show(want.e));
      Middle(ts, i, Show(want), Show(want.e), [want.op]);
      assert ts[i + |Show(want.e)|] == Show(want)[|Show(want.e)|];
    }
  }

  lemma AllInner(p: Input, i: nat, position: nat, t: Option<Tnode>, j: nat, upto: nat, re: Re)
    requires Says(p, i, position, 4, t, j, upto, re)
    ensures forall want :: Stands(p.ts, i, want, 3) ==>
      t.Some? && want == if j < |p.ts| && Postfix(p.ts[j]) then Post(re, p.ts[j]) else re
  {
    forall want | Stands(p.ts, i, want, 3)
      ensures t.Some? && want == if j < |p.ts| && Postfix(p.ts[j]) then Post(re, p.ts[j]) else re
    {
      InnerStands(p.ts, i, want);
      hide Stands, Parsed;
    }
  }

  lemma PlainParsed(p: Input, i: nat, j: nat, t: Tnode, from: nat, upto: nat, re: Re)
    requires Parsed(p.ts, i, j, t, from, upto, re, 4, p.any, p.size)
    ensures Parsed(p.ts, i, j, t, from, upto, re, 3, p.any, p.size) && !re.Post?
  {
    hide SameWords, NewLeaves, Show;
  }

  lemma PostParsed(p: Input, i: nat, j: nat, t: Tnode, from: nat, upto: nat, re: Re)
    requires Parsed(p.ts, i, j, t, from, upto, re, 4, p.any, p.size) && j < |p.ts| && Postfix(p.ts[j])
    ensures var op := p.ts[j];
      var tree := if op.Clos0? then Star(t) else if op.Clos1? then Plus(t) else Or(t, Epsilon);
      Parsed(p.ts, i, j + 1, tree, from, upto, Post(re, op), 3, p.any, p.size)
  {
    PostSame(t, re, p.ts[j], p.any, p.size);
    LeavesOne(t, from, upto, p.size);
    hide SameWords, NewLeaves;
    assert p.ts[i..j + 1] == p.ts[i..j] + [p.ts[j]];
  }

  lemma IsPostfix(tok: Token)
    ensures Postfix(tok) <==> tok.Clos0? || tok.Clos1? || tok.Quest?
  {
  }

  // ---------------------------------------------------------------- groups and characters

  /** The tree of a class. */
  method ClassOf(s: seq<Bits>, size: nat, position: nat) returns (t: Tnode, upto: nat)
    requires IsSet(s, size)
    ensures upto >= position && NewLeaves(t, position, upto, size)
    ensures forall w: Word :: Matches(t, w) <==> ClassMeans(s, size, w)
  {
    hide NewLeaves, ClassMeans, Matches, ClassBelow, IsSet;
    var a := new Bits[|s|](i requires 0 <= i < |s| => s[i]);
    assert a[..] == s;
    t, upto := ClassTree(a, size, position);
    ClassSame(t, s, size);
  }

  lemma GroupShape(re: Re)
    requires IsRe(re, 4)
    ensures Show(re) != [] && (if re.Group? then Show(re) == [Lp] + Show(re.e) + [Rp] && IsRe(re.e, 1)
            else re.Atom? && Show(re) == [re.tok] && !re.tok.Lp?)
  {
  }

  lemma StandsAt(ts: seq<Token>, i: nat, re: Re, level: nat)
    requires Stands(ts, i, re, level)
    ensures IsRe(re, level) && i + |Show(re)| <= |ts|
    ensures forall k :: 0 <= k < |Show(re)| ==> ts[i + k] == Show(re)[k]
  {
    var all := Show(re);
    Middle(ts, i, all, [], all);
  }

  lemma StandsAgain(ts: seq<Token>, i: nat, re: Re, level: nat)
    requires IsRe(re, level) && i + |Show(re)| <= |ts| && Stops(ts, i + |Show(re)|, level)
    requires forall k :: 0 <= k < |Show(re)| ==> ts[i + k] == Show(re)[k]
    ensures Stands(ts, i, re, level)
  {
    hide IsRe, Show, Stops;
    assert ts[i..i + |Show(re)|] == Show(re);
  }

  lemma GroupStands(ts: seq<Token>, i: nat, want: Re)
    requires Stands(ts, i, want, 4) && i < |ts| && ts[i].Lp?
    ensures want.Group? && Stands(ts, i + 1, want.e, 1)
    ensures var j := i + 1 + |Show(want.e)|; j < |ts| && ts[j].Rp?
  {
    StandsAt(ts, i, want, 4);
    GroupShape(want);
    hide Stands, IsRe, Show;
    var all := Show(want);
    assert ts[i + 0] == all[0];
    var inside := Show(want.e);
    forall k | 0 <= k < |inside|
      ensures ts[i + 1 + k] == inside[k]
    {
      assert ts[i + (1 + k)] == all[1 + k];
    }
    assert ts[i + (1 + |inside|)] == all[1 + |inside|] == Rp;
    StandsAgain(ts, i + 1, want.e, 1);
  }

  lemma AllGroups(p: Input, i: nat, position: nat, t: Option<Tnode>, j: nat, upto: nat, re: Re)
    requires i < |p.ts| && p.ts[i].Lp? && Says(p, i + 1, position, 1, t, j, upto, re)
    ensures forall want :: Stands(p.ts, i, want, 4) ==> t.Some? && want == Group(re) && j < |p.ts| && p.ts[j].Rp?
  {
    forall want | Stands(p.ts, i, want, 4)
      ensures t.Some? && want == Group(re) && j < |p.ts| && p.ts[j].Rp?
    {
      GroupStands(p.ts, i, want);
      hide Stands, Parsed;
    }
  }

  lemma GroupParsed(p: Input, i: nat, j: nat, t: Tnode, from: nat, upto: nat, re: Re)
    requires i < |p.ts| && p.ts[i].Lp? && Parsed(p.ts, i + 1, j, t, from, upto, re, 1, p.any, p.size)
    requires j < |p.ts| && p.ts[j].Rp?
    ensures Parsed(p.ts, i, j + 1, t, from, upto, Group(re), 4, p.any, p.size)
  {
    hide NewLeaves;
    assert p.ts[i..j + 1] == [p.ts[i]] + p.ts[i + 1..j] + [p.ts[j]];
  }

  lemma AtomStands(ts: seq<Token>, i: nat, want: Re)
    requires Stands(ts, i, want, 4) && !(i < |ts| && ts[i].Lp?)
    ensures i < |ts| && want == Atom(ts[i]) && (ts[i].Char? || ts[i].Chars? || ts[i].Any? || ts[i].AnyZ?)
  {
    StandsAt(ts, i, want, 4);
    GroupShape(want);
    hide Stands, Show;
    assert ts[i + 0] == Show(want)[0];
  }

  lemma AllAtoms(ts: seq<Token>, i: nat)
    requires !(i < |ts| && ts[i].Lp?)
    ensures forall want :: Stands(ts, i, want, 4) ==>
      i < |ts| && want == Atom(ts[i]) && (ts[i].Char? || ts[i].Chars? || ts[i].Any? || ts[i].AnyZ?)
  {
    forall want | Stands(ts, i, want, 4)
      ensures i < |ts| && want == Atom(ts[i]) && (ts[i].Char? || ts[i].Chars? || ts[i].Any? || ts[i].AnyZ?)
    {
      AtomStands(ts, i, want);
    }
  }

  lemma AtomParsed(p: Input, i: nat, t: Tnode, from: nat, upto: nat)
    requires i < |p.ts| && (p.ts[i].Char? || p.ts[i].Chars? || p.ts[i].Any? || p.ts[i].AnyZ?)
    requires from <= upto && NewLeaves(t, from, upto, p.size) && SameWords(t, Atom(p.ts[i]), p.any, p.size)
    ensures Parsed(p.ts, i, i + 1, t, from, upto, Atom(p.ts[i]), 4, p.any, p.size)
  {
    hide NewLeaves, SameWords;
  }

  lemma CharSame(c: nat, position: nat, any: seq<Bits>, size: nat)
    requires c <= size
    ensures NewLeaves(Leaf(position + 1, c, c), position, position + 1, size)
    ensures SameWords(Leaf(position + 1, c, c), Atom(Char(c)), any, size)
  {
    FirstLeaf(position, c, c, size);
  }

  lemma SetSame(t: Tnode, tok: Token, any: seq<Bits>, size: nat)
    requires tok.Chars? || tok.Any? || tok.AnyZ?
    requires forall w: Word :: Matches(t, w) <==> ClassMeans(if tok.Chars? then tok.s else any, size, w)
    ensures SameWords(if tok.AnyZ? then Or(t, Epsilon) else t, Atom(tok), any, size)
  {
    hide ClassMeans;
    forall w: Word
      ensures Matches(if tok.AnyZ? then Or(t, Epsilon) else t, w) <==> Means(Atom(tok), w, any, size)
    {
      assert tok.AnyZ? ==> (Matches(Or(t, Epsilon), w) <==> Matches(t, w) || w == []);
    }
  }

  lemma TokenOk(p: Input, i: nat)
    requires InputOk(p) && i < |p.ts|
    ensures IsSet(p.any, p.size) && (p.ts[i].Chars? ==> IsSet(p.ts[i].s, p.size))
    ensures p.ts[i].Char? ==> p.ts[i].c <= p.size
  {
  }


  // ---------------------------------------------------------------- whole patterns

  // A pattern as it is given: the body may be missing when the end is marked.
  datatype Pattern = Pattern(start: bool, body: Option<Re>, end: bool)

  datatype Error = ErrSyntax | ErrLp | ErrRp

  datatype Outcome = Fail(error: Error) | Done(rule: Rule)

  ghost predicate IsPattern(q: Pattern) {
    if q.body.Some? then IsRe(q.body.value, 1) else q.end
  }

  ghost function ShowBody(body: Option<Re>): seq<Token> {
    if body.Some? then Show(body.value) else []
  }

  /** The tokens of a whole pattern. */
  ghost function ShowPattern(q: Pattern): seq<Token> {
    (if q.start then [Start] else []) + ShowBody(q.body) + (if q.end then [End] else [])
  }

  /** The words a whole pattern stands for: the mark of the end is read as a newline. */
  ghost predicate PatternMeans(q: Pattern, w: Word, any: seq<Bits>, size: nat) {
    if q.end then w != [] && w[|w| - 1] == 10 && BodyMeans(q.body, w[..|w| - 1], any, size)
    else BodyMeans(q.body, w, any, size)
  }

  ghost predicate BodyMeans(body: Option<Re>, w: Word, any: seq<Bits>, size: nat) {
    if body.Some? then Means(body.value, w, any, size) else w == []
  }

  /** The tree matches what the whole pattern stands for, with new positions. */
  ghost predicate BodyRead(t: Tnode, from: nat, upto: nat, q: Pattern, any: seq<Bits>, size: nat) {
    && from <= upto && NewLeaves(t, from, upto, size)
    && forall w: Word :: Matches(t, w) <==> PatternMeans(q, w, any, size)
  }

  /** The tokens are those of the pattern, and of no other. */
  ghost predicate OnlyPattern(ts: seq<Token>, pat: Pattern) {
    && IsPattern(pat) && ShowPattern(pat) == ts
    && forall q :: IsPattern(q) && ShowPattern(q) == ts ==> q == pat
  }

  ghost predicate NoPattern(ts: seq<Token>) {
    forall q :: IsPattern(q) ==> ShowPattern(q) != ts
  }

  /** Where the body and the end of a whole pattern are. */
  lemma PatternParts(ts: seq<Token>, q: Pattern)
    requires IsPattern(q) && ShowPattern(q) == ts
    ensures ts != [] && (q.start <==> ts[0].Start?)
    ensures var i := if q.start then 1 else 0;
      && (q.body.None? <==> i < |ts| && ts[i].End?) && (q.body.Some? ==> Stands(ts, i, q.body.value, 1))
      && |ts| == i + |ShowBody(q.body)| + (if q.end then 1 else 0) && (q.end ==> ts[|ts| - 1].End?)
      && (!q.end ==> i + |ShowBody(q.body)| == |ts|)
  {
    var i := if q.start then 1 else 0;
    var body := ShowBody(q.body);
    if q.body.Some? {
      ShowStarts(q.body.value, 1);
      assert ts[i] == body[0];
      assert ts[i..i + |body|] == body;
    }
    hide Show, IsRe;
  }

  lemma EmptyRead(from: nat, start: bool, any: seq<Bits>, size: nat)
    requires NEWLINE <= size
    ensures BodyRead(Leaf(from + 1, NEWLINE, NEWLINE), from, from + 1, Pattern(start, None, true), any, size)
  {
    CharSame(NEWLINE, from, any, size);
    var leaf := Leaf(from + 1, NEWLINE, NEWLINE);
    hide NewLeaves, SameWords;
    forall w: Word
      ensures Matches(leaf, w) <==> PatternMeans(Pattern(start, None, true), w, any, size)
    {
      assert w != [] ==> (|w| == 1 <==> w[..|w| - 1] == []);
    }
  }

  lemma PlainRead(p: Input, i: nat, j: nat, t: Tnode, from: nat, upto: nat, re: Re, start: bool)
    requires Parsed(p.ts, i, j, t, from, upto, re, 1, p.any, p.size)
    ensures BodyRead(t, from, upto, Pattern(start, Some(re), false), p.any, p.size)
  {
    hide NewLeaves, Matches, Means;
  }

  lemma EndRead(p: Input, i: nat, j: nat, t: Tnode, from: nat, upto: nat, re: Re, start: bool)
    requires NEWLINE <= p.size && Parsed(p.ts, i, j, t, from, upto, re, 1, p.any, p.size)
    ensures var tree := Cat(t, Leaf(upto + 1, NEWLINE, NEWLINE));
      BodyRead(tree, from, upto + 1, Pattern(start, Some(re), true), p.any, p.size)
  {
    var leaf := Leaf(upto + 1, NEWLINE, NEWLINE);
    CharSame(NEWLINE, upto, p.any, p.size);
    LeavesOr(t, leaf, from, upto, upto + 1, p.size);
    hide NewLeaves, Means;
    forall w: Word
      ensures Matches(Cat(t, leaf), w) <==> PatternMeans(Pattern(start, Some(re), true), w, p.any, p.size)
    {
      EndMatches(t, leaf, w);
      if w != [] { assert Matches(t, w[..|w| - 1]) <==> Means(re, w[..|w| - 1], p.any, p.size); }
    }
  }

  lemma LeafMatches(leaf: Tnode, w: Word)
    requires leaf.Leaf? && leaf.ch0 == leaf.ch1 >= 0
    ensures Matches(leaf, w) <==> w == [leaf.ch0]
  {
  }

  lemma CatMatches(l: Tnode, r: Tnode, w: Word)
    ensures Matches(Cat(l, r), w) <==> exists i :: 0 <= i <= |w| && Matches(l, w[..i]) && Matches(r, w[i..])
  {
  }

  lemma EndMatches(t: Tnode, leaf: Tnode, w: Word)
    requires leaf.Leaf? && leaf.ch0 == leaf.ch1 >= 0
    ensures Matches(Cat(t, leaf), w) <==> w != [] && w[|w| - 1] == leaf.ch0 && Matches(t, w[..|w| - 1])
  {
    hide *;
    CatMatches(t, leaf, w);
    forall i | 0 <= i <= |w|
      ensures Matches(leaf, w[i..]) <==> w[i..] == [leaf.ch0]
    {
      LeafMatches(leaf, w[i..]);
    }
    if i :| 0 <= i <= |w| && Matches(t, w[..i]) && Matches(leaf, w[i..]) { assert i == |w| - 1; }
    if w != [] && w[|w| - 1] == leaf.ch0 && Matches(t, w[..|w| - 1]) {
      assert w[|w| - 1..] == [leaf.ch0];
    }
  }

  lemma OnlyBody(p: Input, i: nat, from: nat, t: Option<Tnode>, j: nat, upto: nat, re: Re, start: bool, end: bool)
    requires Says(p, i, from, 1, t, j, upto, re) && t.Some?
    requires (start <==> p.ts != [] && p.ts[0].Start?) && i == (if start then 1 else 0) && i <= |p.ts|
    requires !(i < |p.ts| && p.ts[i].End?) && |p.ts| == j + (if end then 1 else 0) && (end ==> p.ts[j].End?)
    ensures OnlyPattern(p.ts, Pattern(start, Some(re), end))
  {
    hide *;
    SaysParts(p, i, from, 1, t, j, upto, re);
    ParsedShow(p, i, j, t.value, from, upto, re);
    BodyShown(p.ts, i, j, re, start, end);
    forall q | IsPattern(q) && ShowPattern(q) == p.ts
      ensures q == Pattern(start, Some(re), end)
    {
      PatternParts(p.ts, q);
      ShowSome(q.body);
    }
    MkOnly(p.ts, Pattern(start, Some(re), end));
  }

  lemma ParsedShow(p: Input, i: nat, j: nat, t: Tnode, from: nat, upto: nat, re: Re)
    requires Parsed(p.ts, i, j, t, from, upto, re, 1, p.any, p.size)
    ensures i < j <= |p.ts| && IsRe(re, 1) && p.ts[i..j] == Show(re)
  {
  }

  lemma BodyShown(ts: seq<Token>, i: nat, j: nat, re: Re, start: bool, end: bool)
    requires i < j <= |ts| && IsRe(re, 1) && ts[i..j] == Show(re)
    requires i == (if start then 1 else 0) && (start ==> ts[0].Start?)
    requires |ts| == j + (if end then 1 else 0) && (end ==> ts[j].End?)
    ensures IsPattern(Pattern(start, Some(re), end)) && ShowPattern(Pattern(start, Some(re), end)) == ts
  {
    hide IsRe, Show;
    assert ts == ts[..i] + ts[i..j] + ts[j..];
  }

  lemma ShowSome(body: Option<Re>)
    ensures body.Some? ==> ShowBody(body) == Show(body.value)
  {
  }

  lemma MkOnly(ts: seq<Token>, pat: Pattern)
    requires IsPattern(pat) && ShowPattern(pat) == ts
    requires forall q :: IsPattern(q) && ShowPattern(q) == ts ==> q == pat
    ensures OnlyPattern(ts, pat)
  {
  }

  lemma OnlyEnd(ts: seq<Token>, start: bool)
    requires ts == (if start then [Start] else []) + [End]
    ensures OnlyPattern(ts, Pattern(start, None, true))
  {
    forall q | IsPattern(q) && ShowPattern(q) == ts
      ensures q == Pattern(start, None, true)
    {
      PatternParts(ts, q);
    }
  }

  /** Where reading stopped too early, there is no pattern. */
  lemma NoBody(p: Input, i: nat, from: nat, t: Option<Tnode>, j: nat, upto: nat, re: Re)
    requires Says(p, i, from, 1, t, j, upto, re) && i == (if p.ts != [] && p.ts[0].Start? then 1 else 0)
    requires !(i < |p.ts| && p.ts[i].End?)
    requires t.Some? ==> j < |p.ts| && !(p.ts[j].End? && j + 1 == |p.ts|)
    ensures NoPattern(p.ts)
  {
    forall q | IsPattern(q)
      ensures ShowPattern(q) != p.ts
    {
      if ShowPattern(q) == p.ts { PatternParts(p.ts, q); }
    }
  }

  lemma NoEnd(ts: seq<Token>, i: nat)
    requires i == (if ts != [] && ts[0].Start? then 1 else 0) && i + 1 < |ts| && ts[i].End?
    ensures NoPattern(ts)
  {
    forall q | IsPattern(q)
      ensures ShowPattern(q) != ts
    {
      if ShowPattern(q) == ts { PatternParts(ts, q); }
    }
  }

  /** After the tokens of a pattern comes one that no pattern could go on with. */
  ghost predicate TooMuch(ts: seq<Token>, q: Pattern) {
    && IsPattern(q) && ShowPattern(q) < ts
    && (q.end || (Stops(ts, |ShowPattern(q)|, 1) && !ts[|ShowPattern(q)|].End?))
  }

  /** The error tells of a closing parenthesis, of an opening one, or of something else. */
  ghost predicate Blames(tok: Token, error: Error) {
    && (tok.Rp? <==> error == ErrRp)
    && (tok.Lp? <==> error == ErrLp)
  }

  /** Where the body of a pattern stands that comes before a token too much. */
  lemma TooMuchParts(ts: seq<Token>, q: Pattern)
    requires TooMuch(ts, q)
    ensures ts != [] && (q.start <==> ts[0].Start?) && |ShowPattern(q)| < |ts|
    ensures var i := if q.start then 1 else 0;
      && i < |ts| && (q.body.None? <==> ts[i].End?) && (q.body.Some? ==> Stands(ts, i, q.body.value, 1))
      && |ShowPattern(q)| == i + |ShowBody(q.body)| + (if q.end then 1 else 0)
      && (q.end ==> ts[|ShowPattern(q)| - 1].End?) && (!q.end ==> !ts[|ShowPattern(q)|].End?)
  {
    var i, n := if q.start then 1 else 0, |ShowPattern(q)|;
    var body, front := ShowBody(q.body), ts[..n];
    assert front == ShowPattern(q);
    if q.body.Some? {
      ShowStarts(q.body.value, 1);
      assert front[i] == body[0] && ts[i] == front[i];
      assert front[i..i + |body|] == body && ts[i..i + |body|] == front[i..i + |body|];
    } else {
      assert front[i] == End && ts[i] == front[i];
    }
    assert q.start ==> front[0] == ts[0] == Start;
    assert q.end ==> front[n - 1] == ts[n - 1] == End;
    hide Show, IsRe;
  }

  /** Then the parser stops at that token. */
  lemma StopsThere(p: Input, i: nat, from: nat, t: Option<Tnode>, j: nat, upto: nat, re: Re, pat: Pattern, at: nat)
    requires i == (if p.ts != [] && p.ts[0].Start? then 1 else 0)
    requires if pat.body.None? then i < |p.ts| && p.ts[i].End? && at == i + 1
      else !(i < |p.ts| && p.ts[i].End?) && Says(p, i, from, 1, t, j, upto, re)
           && at == if t.Some? && j < |p.ts| && p.ts[j].End? then j + 1 else j
    ensures forall q :: TooMuch(p.ts, q) ==> at == |ShowPattern(q)| && Blames(p.ts[at], ErrorAt(p.ts, at))
  {
    forall q | TooMuch(p.ts, q)
      ensures at == |ShowPattern(q)| && Blames(p.ts[at], ErrorAt(p.ts, at))
    {
      StopAt(p, i, from, t, j, upto, re, pat, q);
    }
  }

  lemma StopAt(p: Input, i: nat, from: nat, t: Option<Tnode>, j: nat, upto: nat, re: Re, pat: Pattern, q: Pattern)
    requires i == (if p.ts != [] && p.ts[0].Start? then 1 else 0) && TooMuch(p.ts, q)
    requires if pat.body.None? then i < |p.ts| && p.ts[i].End?
      else !(i < |p.ts| && p.ts[i].End?) && Says(p, i, from, 1, t, j, upto, re)
    ensures |ShowPattern(q)| < |p.ts|
    ensures |ShowPattern(q)| ==
      if pat.body.None? then i + 1 else if t.Some? && j < |p.ts| && p.ts[j].End? then j + 1 else j
    ensures pat.body.Some? ==> t.Some?
  {
    TooMuchParts(p.ts, q);
    if pat.body.Some? { SaysParts(p, i, from, 1, t, j, upto, re); }
    hide Says, Stands, IsPattern, ShowPattern, Show, Parsed, TooMuch;
  }

  /** A pattern with nothing after it has nothing too much. */
  lemma NotTooMuch(p: Input, i: nat, from: nat, t: Option<Tnode>, j: nat, upto: nat, re: Re, pat: Pattern)
    requires i == (if p.ts != [] && p.ts[0].Start? then 1 else 0)
    requires if pat.body.None? then i + 1 == |p.ts| && p.ts[i].End?
      else !(i < |p.ts| && p.ts[i].End?) && Says(p, i, from, 1, t, j, upto, re)
           && |p.ts| == if t.Some? && j < |p.ts| && p.ts[j].End? then j + 1 else j
    ensures forall q :: !TooMuch(p.ts, q)
  {
    forall q
      ensures !TooMuch(p.ts, q)
    {
      if TooMuch(p.ts, q) { StopAt(p, i, from, t, j, upto, re, pat, q); }
    }
  }

  function ErrorAt(ts: seq<Token>, j: nat): Error {
    if j < |ts| && ts[j].Rp? then ErrRp else if j < |ts| && ts[j].Lp? then ErrLp else ErrSyntax
  }

  /** A rule of a pattern: its tree matches what the pattern stands for, and its end comes after
      the positions of the tree, which are new. */
  ghost predicate IsRule(rule: Rule, from: nat, upto: nat, q: Pattern, any: seq<Bits>, size: nat) {
    from < upto == rule.end && rule.anchored == q.start && BodyRead(rule.body, from, upto - 1, q, any, size)
  }

  lemma MkRule(rule: Rule, from: nat, upto: nat, q: Pattern, any: seq<Bits>, size: nat)
    requires from < upto == rule.end && rule.anchored == q.start && BodyRead(rule.body, from, upto - 1, q, any, size)
    ensures IsRule(rule, from, upto, q, any, size)
  {
  }

  // ---------------------------------------------------------------- the parser

  // The parser has read the tokens before at, and given out the positions up to position.
  class Parser {
    const p: Input
    var at: nat
    var position: nat

    constructor (p: Input, position: nat)
      ensures this.p == p && at == 0 && this.position == position
    {
      this.p, this.at, this.position := p, 0, position;
    }

    /** Alternatives, separated by bars. */
    method Expr1() returns (t: Option<Tnode>, ghost re: Re)
      requires InputOk(p) && at <= |p.ts|
      modifies this
      ensures Says(p, old(at), old(position), 1, t, at, position, re)
      decreases |p.ts| - at, 4
    {
      hide *;
      ghost var i, from := at, position;
      t, re := Expr2();
      SaysParts(p, i, from, 2, t, at, position, re);
      FirstAlt(p, i, from, t, at, position, re);
      if t == None {
        SaysNone(p, i, from, 1, at, position, re);
        return;
      }
      var t1 := t.value;
      ghost var ps := [re];
      OneAlt(p, i, at, t1, from, position, re);
      while at < |p.ts| && p.ts[at].Alt?
        invariant i < at <= |p.ts| && from <= position && ps != []
        invariant Parsed(p.ts, i, at, t1, from, position, Alts(ps), 1, p.any, p.size) && AltsSoFar(p.ts, i, ps, at)
        decreases |p.ts| - at
      {
        ghost var j, upto := at, position;
        at := at + 1;
        var t2;
        t2, re := Expr2();
        SaysParts(p, j + 1, upto, 2, t2, at, position, re);
        NextAlt(p, i, ps, j, upto, t2, at, position, re);
        if t2 == None {
          SaysNone(p, i, from, 1, at, position, re);
          return None, re;
        }
        MoreAlts(p, i, j, at, t1, t2.value, from, upto, position, ps, re);
        t1, ps := Or(t1, t2.value), ps + [re];
      }
      re := Alts(ps);
      t := Some(t1);
      AltsEnd(p.ts, i, ps, at);
      SaysSome(p, i, from, 1, t1, at, position, re);
    }

    /** A sequence: it goes on while a token can start another part. */
    method Expr2() returns (t: Option<Tnode>, ghost re: Re)
      requires InputOk(p) && at <= |p.ts|
      modifies this
      ensures Says(p, old(at), old(position), 2, t, at, position, re)
      decreases |p.ts| - at, 3
    {
      hide *;
      ghost var i, from := at, position;
      t, re := Expr3();
      SaysParts(p, i, from, 3, t, at, position, re);
      FirstCat(p, i, from, t, at, position, re);
      if t == None {
        SaysNone(p, i, from, 2, at, position, re);
        return;
      }
      var t1 := t.value;
      ghost var ps := [re];
      OneCat(p, i, at, t1, from, position, re);
      while at < |p.ts| && Starter(p.ts[at])
        invariant i < at <= |p.ts| && from <= position && ps != []
        invariant Parsed(p.ts, i, at, t1, from, position, Cats(ps), 2, p.any, p.size) && CatsSoFar(p.ts, i, ps, at)
        decreases |p.ts| - at
      {
        ghost var j, upto := at, position;
        var t2;
        t2, re := Expr3();
        SaysParts(p, j, upto, 3, t2, at, position, re);
        NextCat(p, i, ps, j, upto, t2, at, position, re);
        if t2 == None {
          SaysNone(p, i, from, 2, at, position, re);
          return None, re;
        }
        MoreCats(p, i, j, at, t1, t2.value, from, upto, position, ps, re);
        t1, ps := Cat(t1, t2.value), ps + [re];
      }
      re := Cats(ps);
      t := Some(t1);
      CatsEnd(p.ts, i, ps, at);
      SaysSome(p, i, from, 2, t1, at, position, re);
    }

    /** Something that may be repeated, at most once over. */
    method Expr3() returns (t: Option<Tnode>, ghost re: Re)
      requires InputOk(p) && at <= |p.ts|
      modifies this
      ensures Says(p, old(at), old(position), 3, t, at, position, re)
      decreases |p.ts| - at, 2
    {
      hide *;
      ghost var i, from := at, position;
      t, re := Expr4();
      ghost var j := at;
      SaysParts(p, i, from, 4, t, j, position, re);
      AllInner(p, i, from, t, j, position, re);
      if t == None {
        SaysNone(p, i, from, 3, j, position, re);
        return;
      }
      PlainParsed(p, i, j, t.value, from, position, re);
      if j < |p.ts| {
        IsPostfix(p.ts[j]);
        if Postfix(p.ts[j]) { PostParsed(p, i, j, t.value, from, position, re); }
      }
      if at < |p.ts| && p.ts[at].Clos0? {
        t, at := Some(Star(t.value)), at + 1;
      } else if at < |p.ts| && p.ts[at].Clos1? {
        t, at := Some(Plus(t.value)), at + 1;
      } else if at < |p.ts| && p.ts[at].Quest? {
        t, at := Some(Or(t.value, Epsilon)), at + 1;
      }
      if at > j { re := Post(re, p.ts[j]); }
      SaysSome(p, i, from, 3, t.value, at, position, re);
    }

    /** A group, a character or a class. */
    method Expr4() returns (t: Option<Tnode>, ghost re: Re)
      requires InputOk(p) && at <= |p.ts|
      modifies this
      ensures Says(p, old(at), old(position), 4, t, at, position, re)
      ensures old(at) < |p.ts| && p.ts[old(at)].Wild? ==> t == None && at == old(at) + 1
      decreases |p.ts| - at, 1
    {
      hide *;
      ghost var i, from := at, position;
      re := Atom(Wild);
      if at < |p.ts| { TokenOk(p, at); }
      if at < |p.ts| && p.ts[at].Lp? {
        at := at + 1;
        t, re := Expr1();
        SaysParts(p, i + 1, from, 1, t, at, position, re);
        AllGroups(p, i, from, t, at, position, re);
        if t == None || !(at < |p.ts| && p.ts[at].Rp?) {
          SaysNone(p, i, from, 4, at, position, re);
          return None, re;
        }
        GroupParsed(p, i, at, t.value, from, position, re);
        at, re := at + 1, Group(re);
        SaysSome(p, i, from, 4, t.value, at, position, re);
        return;
      }
      AllAtoms(p.ts, i);
      if at == |p.ts| || !(p.ts[at].Char? || p.ts[at].Chars? || p.ts[at].Any? || p.ts[at].AnyZ?) {
        if at < |p.ts| && p.ts[at].Wild? {
          // the class is built and then given up
          var unused;
          unused, position := ClassOf(p.any, p.size, position);
          at := at + 1;
        }
        SaysNone(p, i, from, 4, at, position, re);
        return None, re;
      }
      var leaf;
      match p.ts[at] {
        case Char(c) =>
          CharSame(c, position, p.any, p.size);
          position := position + 1;
          leaf := Leaf(position, c, c);
        case Chars(s) =>
          leaf, position := ClassOf(s, p.size, position);
          SetSame(leaf, p.ts[at], p.any, p.size);
        case Any =>
          leaf, position := ClassOf(p.any, p.size, position);
          SetSame(leaf, p.ts[at], p.any, p.size);
        case AnyZ =>
          leaf, position := ClassOf(p.any, p.size, position);
          SetSame(leaf, p.ts[at], p.any, p.size);
          LeavesOne(leaf, from, position, p.size);
          leaf := Or(leaf, Epsilon);
        case _ =>
      }
      at := at + 1;
      AtomParsed(p, i, leaf, from, position);
      t, re := Some(leaf), Atom(p.ts[i]);
      SaysSome(p, i, from, 4, leaf, at, position, re);
    }

    /** Reads a whole pattern: a rule when the tokens are those of a pattern, an error when they
        are not. */
    method DoParse() returns (out: Outcome, ghost pat: Pattern)
      requires InputOk(p) && NEWLINE <= p.size && at == 0
      modifies this
      ensures old(position) <= position && (out.Fail? ==> NoPattern(p.ts))
      ensures out.Done? ==> OnlyPattern(p.ts, pat) && IsRule(out.rule, old(position), position, pat, p.any, p.size)
      ensures forall q :: TooMuch(p.ts, q) ==> out.Fail? && Blames(p.ts[|ShowPattern(q)|], out.error)
    {
      hide *;
      ghost var from := position;
      var start := p.ts != [] && p.ts[0].Start?;
      if start { at := at + 1; }
      pat := Pattern(start, None, true);
      var t;
      ghost var i, j, upto, re := at, at, position, Atom(Wild);
      var end := at < |p.ts| && p.ts[at].End?;
      if end {
        EmptyRead(position, start, p.any, p.size);
        position, at := position + 1, at + 1;
        t := Some(Leaf(position, NEWLINE, NEWLINE));
      } else {
        t, re := Expr1();
        j, upto := at, position;
        SaysParts(p, i, from, 1, t, j, upto, re);
        end := t.Some? && at < |p.ts| && p.ts[at].End?;
        pat := Pattern(start, Some(re), end);
        if end {
          EndRead(p, i, j, t.value, from, upto, re, start);
          position, at := position + 1, at + 1;
          t := Some(Cat(t.value, Leaf(position, NEWLINE, NEWLINE)));
        } else if t.Some? {
          PlainRead(p, i, j, t.value, from, upto, re, start);
        }
      }
      if t == None || at < |p.ts| {
        if pat.body.Some? {
          NoBody(p, i, from, if end then Some(t.value.left) else t, j, upto, re);
        } else {
          NoEnd(p.ts, i);
        }
        StopsThere(p, i, from, if end && pat.body.Some? then Some(t.value.left) else t, j, upto, re, pat, at);
        return Fail(ErrorAt(p.ts, at)), pat;
      }
      position := position + 1;
      out := Done(Rule(t.value, position, start));
      if pat.body.Some? {
        OnlyBody(p, i, from, if end then Some(t.value.left) else t, j, upto, re, start, end);
      } else {
        assert p.ts == (if start then [Start] else []) + [End];
        OnlyEnd(p.ts, start);
      }
      MkRule(out.rule, from, position, pat, p.any, p.size);
      NotTooMuch(p, i, from, if end && pat.body.Some? then Some(t.value.left) else t, j, upto, re, pat);
    }
  }

  // ---------------------------------------------------------------- the class of Any

  const LAST_CHAR := 255

  /** Every character. */
  function AllChars(): seq<Bits> {
    seq(1 + LAST_CHAR / WORD_BITS, i => Ones())
  }

  /** What the class of Any is at first: every character but the newline. */
  method MkAnySet() returns (any: seq<Bits>)
    ensures IsSet(any, LAST_CHAR) && forall m: nat :: m <= LAST_CHAR ==> (Has(any, m) <==> m != NEWLINE)
  {
    var a := new Bits[1 + LAST_CHAR / WORD_BITS](_ => Zero());
    assert a[..] == seq(1 + LAST_CHAR / WORD_BITS, i => Zero());
    AddSet(a, LAST_CHAR, NEWLINE);
    Complement(a, LAST_CHAR);
    any := a[..];
  }

  /** The class with the newline added. */
  method WithNewline(any: seq<Bits>) returns (any': seq<Bits>)
    requires IsSet(any, LAST_CHAR)
    ensures IsSet(any', LAST_CHAR)
    ensures forall m: nat :: m <= LAST_CHAR ==> (Has(any', m) <==> m == NEWLINE || Has(any, m))
  {
    var a := new Bits[|any|](i requires 0 <= i < |any| => any[i]);
    assert a[..] == any;
    AddSet(a, LAST_CHAR, NEWLINE);
    any' := a[..];
  }

  lemma AllHas(s: seq<Bits>)
    requires IsSet(s, LAST_CHAR) && forall m: nat :: m <= LAST_CHAR ==> Has(s, m)
    ensures s == AllChars()
  {
    forall w | 0 <= w < |s|
      ensures s[w] == Ones()
    {
      assert IsWord(s[w]);
      forall b | 0 <= b < WORD_BITS
        ensures s[w][b]
      {
        Place(w * WORD_BITS + b, w, b);
        assert Has(s, w * WORD_BITS + b);
      }
    }
  }
}
