/** From patterns to their automaton: patterns are parsed one after another, and the automaton of
  all of them tells, for every word, the first pattern the word belongs to. */
module DfaPatterns {
  import opened Wrappers
  import opened DfaTree
  import opened DfaReach
  import opened DfaStates
  import opened DfaCset
  import opened DfaSyntax
  import F = Dfa
  import N = DfaTran
  import V = DfaTrav

  /** What the rules parsed so far are: trees of the patterns, with positions of their own. */
  ghost predicate AllRead(rules: seq<Rule>, position: nat, pats: seq<Pattern>, any: seq<Bits>) {
    && |pats| == |rules| && RulesOk(rules)
    && (rules != [] ==> V.Within(Root(rules), position) && N.CharsOk(Root(rules)))
    && forall k, w: Word :: 0 <= k < |rules| ==>
      (Matches(rules[k].body, w) <==> PatternMeans(pats[k], w, any, LAST_CHAR))
  }

  /** Word w belongs to pattern number k, counted from 1. */
  ghost predicate InPattern(pats: seq<Pattern>, any: seq<Bits>, w: Word, k: int) {
    1 <= k <= |pats| && PatternMeans(pats[k - 1], w, any, LAST_CHAR)
  }

  /** r is the number of the first pattern that holds the word, 0 when there is none. */
  ghost predicate FirstPattern(pats: seq<Pattern>, any: seq<Bits>, w: Word, r: int) {
    && (r != 0 ==> InPattern(pats, any, w, r))
    && (forall k :: InPattern(pats, any, w, k) ==> r != 0 && k >= r)
  }

  lemma RulePositions(rule: Rule, k: int, from: nat, upto: nat, q: Pattern, any: seq<Bits>)
    requires IsRule(rule, from, upto, q, any, LAST_CHAR) && k >= 1
    ensures RuleOk(rule) && forall p :: p in Positions(Top(rule, k)) <==> from < p <= upto
    ensures N.CharsOk(Top(rule, k))
  {
  }

  lemma JoinWithin(l: Tnode, r: Tnode, from: nat, upto: nat)
    requires V.Within(l, from) && N.CharsOk(l) && N.CharsOk(r) && from <= upto
    requires forall p :: p in Positions(r) <==> from < p <= upto
    ensures V.Within(Or(l, r), upto) && N.CharsOk(Or(l, r))
  {
  }

  lemma EarlierRule(rules: seq<Rule>, i: nat, t: Tnode, from: nat)
    requires i < |rules| && V.Within(Root(rules), from) && t == Top(rules[i], i + 1)
    ensures V.Within(t, from)
  {
    forall p | p in Positions(t)
      ensures 1 <= p <= from
    {
      RootPositions(rules, p);
    }
  }

  /** One more rule. */
  lemma RuleAdded(rules: seq<Rule>, from: nat, pats: seq<Pattern>, any: seq<Bits>, rule: Rule, upto: nat, q: Pattern)
    requires AllRead(rules, from, pats, any) && IsRule(rule, from, upto, q, any, LAST_CHAR)
    ensures AllRead(rules + [rule], upto, pats + [q], any)
  {
    var n, more := |rules|, rules + [rule];
    RulePositions(rule, n + 1, from, upto, q, any);
    assert more[..n] == rules;
    if n > 0 { JoinWithin(Root(rules), Top(rule, n + 1), from, upto); }
    forall i, j | 0 <= i < j < n + 1
      ensures Positions(Top(more[i], i + 1)) !! Positions(Top(more[j], j + 1))
    {
      assert more[i] == rules[i] && (j < n ==> more[j] == rules[j]);
      if j == n { EarlierRule(rules, i, Top(rules[i], i + 1), from); }
    }
    hide Top, RuleOk, Positions, V.Within, N.CharsOk, PatternMeans, Matches;
  }

  lemma ManyRead(rules: seq<Rule>, from: nat, upto: nat, pats: seq<Pattern>, any: seq<Bits>)
    requires AllRead(rules, from, pats, any) && from <= upto
    ensures AllRead(rules, upto, pats, any)
  {
  }

  lemma NoneYet(position: nat, any: seq<Bits>)
    ensures AllRead([], position, [], any)
  {
  }

  /** The automaton of the rules tells the first pattern a word belongs to. */
  lemma FirstRead(rules: seq<Rule>, position: nat, pats: seq<Pattern>, any: seq<Bits>, content: seq<seq<int>>,
                  states: seq<State>, blocks: seq<seq<Tran>>, w: Word)
    requires AllRead(rules, position, pats, any) && rules != [] && F.Characters(w)
    requires N.Built(Root(rules), content, states, blocks)
    ensures FirstPattern(pats, any, w, F.RuleOf(states, F.Run(states, blocks, w)))
  {
    F.RunAccepts(rules, content, states, blocks, w);
    forall k
      ensures F.InRule(rules, w, k) <==> InPattern(pats, any, w, k)
    {
    }
    hide Matches, PatternMeans, RulesOk, N.Built, F.RuleOf;
  }

  // The rules of the patterns given so far, and how many positions they use.
  class DfaInfo {
    var any: seq<Bits>
    var rules: seq<Rule>
    var position: nat
    ghost var pats: seq<Pattern>

    ghost predicate Valid()
      reads this
    {
      AllRead(rules, position, pats, any) && IsSet(any, LAST_CHAR)
    }

    /** No patterns yet; Any stands for every character but the newline. */
    constructor ()
      ensures Valid() && rules == [] && pats == []
      ensures forall m: nat :: m <= LAST_CHAR ==> (Has(any, m) <==> m != NEWLINE)
    {
      hide AllRead, IsSet, TokensOk, InputOk, OnlyPattern, NoPattern, IsRule, FirstPattern, TooMuch, Blames;
      hide N.Built, F.RuleOf, F.Run, Root;
      var all := MkAnySet();
      NoneYet(0, all);
      any, rules, position, pats := all, [], 0, [];
    }

    /** From now on Any stands for the newline too. */
    method AnySetIncludesNl()
      requires Valid() && pats == []
      modifies this`any
      ensures Valid() && forall m: nat :: m <= LAST_CHAR ==> (Has(any, m) <==> m == NEWLINE || Has(old(any), m))
    {
      hide AllRead, IsSet;
      ReadParts(rules, position, pats, any);
      any := WithNewline(any);
      NoneYet(position, any);
    }

    /** Adds the rule of a pattern. Nothing is added when the tokens are not those of a pattern. */
    method DfaParse(ts: seq<Token>) returns (error: Option<Error>)
      requires Valid() && TokensOk(ts, LAST_CHAR)
      modifies this
      ensures Valid() && any == old(any)
      ensures error.Some? ==> NoPattern(ts) && rules == old(rules) && pats == old(pats)
      ensures forall q :: TooMuch(ts, q) ==> error.Some? && Blames(ts[|ShowPattern(q)|], error.value)
      ensures error.None? ==> exists q :: OnlyPattern(ts, q) && pats == old(pats) + [q] && |rules| == old(|rules|) + 1
    {
      hide AllRead, IsSet, TokensOk, InputOk, OnlyPattern, NoPattern, IsRule, FirstPattern, TooMuch, Blames;
      hide N.Built, F.RuleOf, F.Run, Root;
      var p := Input(ts, any, LAST_CHAR);
      var parser := new Parser(p, position);
      MkInput(p);
      var out;
      ghost var q;
      out, q := parser.DoParse();
      ManyRead(rules, position, parser.position, pats, any);
      if out.Fail? {
        position := parser.position;
        return Some(out.error);
      }
      RuleAdded(rules, position, pats, any, out.rule, parser.position, q);
      rules, position, pats := rules + [out.rule], parser.position, pats + [q];
      error := None;
    }

    /** The automaton of the patterns given so far. */
    method DfaMkState() returns (d: StateTable)
      requires Valid() && rules != []
      ensures N.Built(Root(rules), d.content, d.states, d.blocks)
      ensures forall w :: F.Characters(w) ==>
        FirstPattern(pats, any, w, F.RuleOf(d.states, F.Run(d.states, d.blocks, w)))
    {
      hide AllRead, IsSet, TokensOk, InputOk, OnlyPattern, NoPattern, IsRule, FirstPattern, TooMuch, Blames;
      hide N.Built, F.RuleOf, F.Run, Root;
      ReadParts(rules, position, pats, any);
      d := F.MkDfas(rules, position);
      forall w | F.Characters(w)
        ensures FirstPattern(pats, any, w, F.RuleOf(d.states, F.Run(d.states, d.blocks, w)))
      {
        FirstRead(rules, position, pats, any, d.content, d.states, d.blocks, w);
      }
    }
  }

  lemma MkInput(p: Input)
    requires TokensOk(p.ts, LAST_CHAR) && IsSet(p.any, LAST_CHAR) && p.size == LAST_CHAR
    ensures InputOk(p) && NEWLINE <= p.size
  {
  }

  lemma ReadParts(rules: seq<Rule>, position: nat, pats: seq<Pattern>, any: seq<Bits>)
    requires AllRead(rules, position, pats, any)
    ensures |pats| == |rules| && RulesOk(rules)
    ensures rules != [] ==> V.Within(Root(rules), position) && N.CharsOk(Root(rules))
  {
  }
}
