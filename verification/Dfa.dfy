/** Building an automaton from parsed rules, and what running it says: the state reached by a
  word carries the least rule the word belongs to. */
module Dfa {
  import opened Wrappers
  import opened DfaTree
  import opened DfaReach
  import opened DfaTrav
  import opened DfaStates
  import opened DfaTran
  import S = DfaSet

  // ---------------------------------------------------------------- running the automaton

  /** The state reached by following transitions from state 0; None when one is missing. */
  ghost function Run(states: seq<State>, blocks: seq<seq<Tran>>, w: Word): Option<nat>
    decreases |w|
  {
    if w == [] then Some(0)
    else
      match Run(states, blocks, w[..|w| - 1])
      case None => None
      case Some(i) => if i < |states| then Move(TransOf(blocks, states[i]), w[|w| - 1]) else None
  }

  ghost function Move(trans: seq<Tran>, c: int): Option<nat> {
    if exists k :: Takes(trans, k, c) then
      var k :| Takes(trans, k, c);
      Some(trans[k].to)
    else None
  }

  ghost predicate Characters(w: Word) {
    forall i :: 0 <= i < |w| ==> 0 <= w[i] <= MAX_CHAR
  }

  /** The state i holds exactly the positions the word reaches. */
  ghost predicate Holds(t: Tnode, content: seq<seq<int>>, w: Word, i: nat) {
    i < |content| && forall p: nat :: p in content[i] <==> Reaches(t, w, p)
  }

  /** Running the automaton on a word leads to the state of the positions the word reaches, and
      nowhere when it reaches none. */
  lemma {:induction false} RunReaches(t: Tnode, content: seq<seq<int>>, states: seq<State>, blocks: seq<seq<Tran>>,
                                      w: Word)
    requires Built(t, content, states, blocks) && Characters(w)
    ensures match Run(states, blocks, w)
      case Some(i) => Holds(t, content, w, i)
      case None => forall p: nat :: !Reaches(t, w, p)
    decreases |w|
  {
    if w == [] {
      StartHolds(t, content, states, blocks);
    } else {
      var n, c := |w| - 1, w[|w| - 1];
      RunReaches(t, content, states, blocks, w[..n]);
      match Run(states, blocks, w[..n])
      case None =>
        forall p: nat
          ensures !Reaches(t, w, p)
        {
        }
      case Some(i) =>
        MoveReaches(t, content, states, blocks, w, i);
    }
  }

  lemma StartHolds(t: Tnode, content: seq<seq<int>>, states: seq<State>, blocks: seq<seq<Tran>>)
    requires Built(t, content, states, blocks)
    ensures Holds(t, content, [], 0)
  {
    hide StateDone, DfaTran.Inside;
  }

  lemma StepsReach(t: Tnode, s: seq<int>, w: Word, q: nat)
    requires w != [] && forall p: nat :: p in s <==> Reaches(t, w[..|w| - 1], p)
    ensures Steps(t, s, w[|w| - 1], q) <==> Reaches(t, w, q)
  {
    var c := w[|w| - 1];
    if Steps(t, s, c, q) {
      var p: nat :| p in s && Reads1(t, p, c) && Follows(t, p, q);
      assert Reads1(t, p, c) && Reaches(t, w[..|w| - 1], p);
    }
    if Reaches(t, w, q) {
      var p :| Reads1(t, p, c) && Reaches(t, w[..|w| - 1], p) && Follows(t, p, q);
      assert p in s;
    }
  }

  lemma MoveReaches(t: Tnode, content: seq<seq<int>>, states: seq<State>, blocks: seq<seq<Tran>>, w: Word, i: nat)
    requires Built(t, content, states, blocks) && Characters(w) && w != [] && Holds(t, content, w[..|w| - 1], i)
    ensures match Move(TransOf(blocks, states[i]), w[|w| - 1])
      case Some(j) => Holds(t, content, w, j)
      case None => forall p: nat :: !Reaches(t, w, p)
  {
    var c, trans := w[|w| - 1], TransOf(blocks, states[i]);
    assert StateDone(t, content, states, blocks, i);
    assert StepDone(t, content, trans, content[i], c);
    forall q: nat
      ensures Steps(t, content[i], c, q) <==> Reaches(t, w, q)
    {
      StepsReach(t, content[i], w, q);
    }
    hide Reaches, Steps, TransOf, Built;
    if k :| Takes(trans, k, c) {
      var j := Move(trans, c).value;
      var m :| Takes(trans, m, c) && trans[m].to == j;
      assert IsStep(t, content[i], c, content[j]);
      forall p: nat
        ensures p in content[j] <==> Reaches(t, w, p)
      {
      }
    }
  }

  // ---------------------------------------------------------------- rules

  /** Rule number k holds the word. */
  ghost predicate InRule(rules: seq<Rule>, w: Word, k: int) {
    1 <= k <= |rules| && Matches(rules[k - 1].body, w)
  }

  /** r is the least rule that holds the word, 0 when there is none. */
  ghost predicate IsLeast(rules: seq<Rule>, w: Word, r: int) {
    && (r != 0 ==> InRule(rules, w, r))
    && (forall k :: InRule(rules, w, k) ==> r != 0 && k >= r)
  }

  ghost function RuleOf(states: seq<State>, end: Option<nat>): int {
    match end
    case None => 0
    case Some(i) => if i < |states| then states[i].ruleNo else 0
  }

  /** The automaton built from rules tells, for every word, the least rule it belongs to. */
  lemma RunAccepts(rules: seq<Rule>, content: seq<seq<int>>, states: seq<State>, blocks: seq<seq<Tran>>, w: Word)
    requires rules != [] && RulesOk(rules) && Built(Root(rules), content, states, blocks) && Characters(w)
    ensures IsLeast(rules, w, RuleOf(states, Run(states, blocks, w)))
  {
    var t := Root(rules);
    RunReaches(t, content, states, blocks, w);
    RootClosed(rules);
    forall k: int | k >= 1
      ensures InRule(rules, w, k) <==> ReachesEnd(t, w, k)
    {
      RuleHolds(rules, w, k);
    }
    match Run(states, blocks, w)
    case None =>
      NoEnd(rules, t, w);
    case Some(i) =>
      assert StateDone(t, content, states, blocks, i);
      LeastEnd(rules, t, content[i], w, states[i].ruleNo);
  }

  lemma NoEnd(rules: seq<Rule>, t: Tnode, w: Word)
    requires forall k: int :: k >= 1 ==> (InRule(rules, w, k) <==> ReachesEnd(t, w, k))
    requires forall p: nat :: !Reaches(t, w, p)
    ensures IsLeast(rules, w, 0)
  {
  }

  lemma LeastEnd(rules: seq<Rule>, t: Tnode, s: seq<int>, w: Word, r: int)
    requires forall k: int :: k >= 1 ==> (InRule(rules, w, k) <==> ReachesEnd(t, w, k))
    requires (forall p: nat :: p in s <==> Reaches(t, w, p)) && RuleIs(t, s, r)
    ensures IsLeast(rules, w, r)
  {
    if r != 0 {
      var p: nat :| p in s && p in Positions(t) && At(t, p).ch0 == -r;
      assert ReachesEnd(t, w, r);
    }
    forall k | InRule(rules, w, k)
      ensures r != 0 && k >= r
    {
      var p :| p in Positions(t) && At(t, p).ch0 == -k && Reaches(t, w, p);
      assert p in s;
    }
  }

  // ---------------------------------------------------------------- mk_dfas

  /** Builds the automaton of the rules parsed so far. */
  method MkDfas(rules: seq<Rule>, position: nat) returns (d: StateTable)
    requires rules != [] && RulesOk(rules) && Within(Root(rules), position) && CharsOk(Root(rules))
    ensures d.unmarked == [] && Built(Root(rules), d.content, d.states, d.blocks)
  {
    hide *;
    var t := Root(rules);
    RootClosed(rules);
    ClosedStarts(t);
    var parse := new DfaParse(position);
    ghost var v0, posar0 := View(parse.pool.sets, parse.followpos[..]), parse.posar[..];
    NothingFollows(parse.pool.sets, parse.followpos[..]);
    var nullable, firstpos, lastpos := parse.Trav(t, {});
    ghost var v := View(parse.pool.sets, parse.followpos[..]);
    ghost var keep := Keep(parse, firstpos);
    Traversed(parse, t, v0, posar0, nullable, firstpos, lastpos);
    d := MkDfaTran(parse.pool, parse.followpos, parse.posar, t, v, firstpos, keep);
  }

  ghost function Keep(parse: DfaParse, firstpos: nat): set<nat>
    reads parse.followpos
  {
    (set i | 0 <= i < parse.followpos.Length && parse.followpos[i] != 0 :: parse.followpos[i]) + {firstpos}
  }

  lemma ClosedStarts(t: Tnode)
    requires Closed(t)
    ensures Linear(t) && First(t) != {}
  {
    FirstExists(t);
  }

  lemma NothingFollows(sets: Sets, f: seq<nat>)
    requires forall p :: 0 <= p < |f| ==> S.Elems(sets, f[p]) == []
    ensures NoRows(View(sets, f))
  {
  }

  ghost predicate NoRows(v: seq<seq<int>>) {
    forall p: nat :: p < |v| ==> v[p] == []
  }

  lemma TableFollows(t: Tnode, v0: seq<seq<int>>, v: seq<seq<int>>)
    requires Filled(v0, v, t) && NoRows(v0)
    ensures FollowTable(t, v) && |v| == |v0|
  {
    forall p: nat | p < |v|
      ensures FollowRow(t, p, v[p])
    {
      assert Gained(v0[p], v[p], t, p);
    }
  }

  lemma TableLeaves(t: Tnode, posar0: seq<Tnode>, posar: seq<Tnode>, position: nat)
    requires Leaves(posar0, posar, t) && Within(t, position) && |posar| == position + 1
    ensures LeavesOk(t, posar)
  {
  }

  /** After the traversal of the tree, everything the subset construction relies on is in place. */
  lemma Traversed(parse: DfaParse, t: Tnode, v0: seq<seq<int>>, posar0: seq<Tnode>, nullable: bool, firstpos: nat,
                  lastpos: nat)
    requires parse.Ready({} + Handle(firstpos) + Handle(lastpos))
    requires Computed(parse.pool.sets, {}, t, nullable, firstpos, lastpos)
    requires Filled(v0, View(parse.pool.sets, parse.followpos[..]), t) && NoRows(v0)
    requires Leaves(posar0, parse.posar[..], t) && Within(t, parse.position) && CharsOk(t) && Linear(t)
    requires First(t) != {}
    ensures var v, keep := View(parse.pool.sets, parse.followpos[..]), Keep(parse, firstpos);
      && Steady(parse.pool, parse.followpos, v, keep) && Known(t, v, parse.posar[..]) && parse.followpos.Length == |v|
      && firstpos in keep && Lists(S.Elems(parse.pool.sets, firstpos), First(t))
  {
    hide *;
    TraversedParts(parse, t, nullable, firstpos, lastpos);
    TableFollows(t, v0, View(parse.pool.sets, parse.followpos[..]));
    TableLeaves(t, posar0, parse.posar[..], parse.position);
    KeepOk(parse, firstpos);
    SteadyAgain(parse.pool, parse.followpos, View(parse.pool.sets, parse.followpos[..]), Keep(parse, firstpos));
    KnownAgain(t, View(parse.pool.sets, parse.followpos[..]), parse.posar[..]);
  }

  lemma KnownAgain(t: Tnode, v: seq<seq<int>>, posar: seq<Tnode>)
    requires Linear(t) && CharsOk(t) && FollowTable(t, v) && LeavesOk(t, posar) && |posar| == |v|
    ensures Known(t, v, posar)
  {
  }

  lemma TraversedParts(parse: DfaParse, t: Tnode, nullable: bool, firstpos: nat, lastpos: nat)
    requires parse.Ready({} + Handle(firstpos) + Handle(lastpos)) && First(t) != {}
    requires Computed(parse.pool.sets, {}, t, nullable, firstpos, lastpos)
    ensures parse.pool.Valid() && parse.pool.chunk > 8 && Lists(S.Elems(parse.pool.sets, firstpos), First(t))
    ensures firstpos in parse.pool.sets && Owns(parse.pool.sets, parse.followpos[..], {firstpos})
    ensures parse.followpos.Length == parse.position + 1 == parse.posar.Length
    ensures |View(parse.pool.sets, parse.followpos[..])| == parse.followpos.Length
  {
    hide S.Rep;
    var p :| p in First(t);
    assert p in S.Elems(parse.pool.sets, firstpos);
  }

  lemma KeepOk(parse: DfaParse, firstpos: nat)
    requires Owns(parse.pool.sets, parse.followpos[..], {firstpos}) && firstpos in parse.pool.sets
    ensures firstpos in Keep(parse, firstpos) && Keeps(parse.pool.sets, parse.followpos[..], Keep(parse, firstpos))
  {
    var f := parse.followpos[..];
    forall i | 0 <= i < |f|
      ensures f[i] == 0 || f[i] in Keep(parse, firstpos)
    {
      assert f[i] == parse.followpos[i];
    }
    forall h | h in Keep(parse, firstpos)
      ensures h in parse.pool.sets
    {
      if h != firstpos {
        var i :| 0 <= i < parse.followpos.Length && parse.followpos[i] != 0 && parse.followpos[i] == h;
        assert f[i] == h;
      }
    }
  }
}
