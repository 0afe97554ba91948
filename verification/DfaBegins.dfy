/** Beginnings of words: the automaton can go on reading exactly as long as some word of a rule
  begins with what has been read. */
module DfaBegins {
  import opened Wrappers
  import opened DfaTree
  import opened DfaReach
  import opened DfaStates
  import opened DfaTran
  import opened Dfa
  import R = DfaReach

  // ---------------------------------------------------------------- the way to an end

  /** Positions that follow one another up to a last one. */
  ghost predicate WayOut(t: Tnode, ps: seq<nat>) {
    && ps != [] && ps[|ps| - 1] in Last(t)
    && forall i, j :: 0 <= i && j == i + 1 < |ps| ==> Follows(t, ps[i], ps[j])
  }

  lemma WayWider(t: Tnode, u: Tnode, ps: seq<nat>)
    requires WayOut(t, ps) && forall p, q :: Follows(t, p, q) ==> Follows(u, p, q)
    requires ps[|ps| - 1] in Last(u)
    ensures WayOut(u, ps)
  {
    hide Follows, Last;
  }

  lemma WayJoin(l: Tnode, r: Tnode, ps: seq<nat>, qs: seq<nat>)
    requires WayOut(l, ps) && WayOut(r, qs) && qs[0] in First(r)
    ensures WayOut(Cat(l, r), ps + qs)
  {
    var all, t := ps + qs, Cat(l, r);
    forall i, j | 0 <= i && j == i + 1 < |all|
      ensures Follows(t, all[i], all[j])
    {
      if j < |ps| {
        assert Follows(l, ps[i], ps[j]);
      } else if i >= |ps| {
        assert Follows(r, qs[i - |ps|], qs[j - |ps|]);
      }
    }
  }

  /** From every position there is a way to a last one. */
  lemma {:induction false} Way(t: Tnode, p: nat) returns (ps: seq<nat>)
    requires p in Positions(t)
    ensures WayOut(t, ps) && ps[0] == p
  {
    match t {
      case Cat(l, r) =>
        if p in Positions(l) {
          ps := Way(l, p);
          if Nullable(r) {
            WayWider(l, t, ps);
          } else {
            FirstExists(r);
            var q :| q in First(r);
            var qs := Way(r, q);
            WayJoin(l, r, ps, qs);
            ps := ps + qs;
          }
        } else {
          ps := Way(r, p);
          WayWider(r, t, ps);
        }
      case Or(l, r) =>
        if p in Positions(l) {
          ps := Way(l, p);
          WayWider(l, t, ps);
        } else {
          ps := Way(r, p);
          WayWider(r, t, ps);
        }
      case Star(s) =>
        ps := Way(s, p);
        WayWider(s, t, ps);
      case Plus(s) =>
        ps := Way(s, p);
        WayWider(s, t, ps);
      case Leaf(_, _, _) =>
        ps := [p];
    }
  }

  lemma ReachMore(t: Tnode, w: Word, p: nat, c: int, q: nat)
    requires Reaches(t, w, p) && Reads1(t, p, c) && Follows(t, p, q)
    ensures Reaches(t, w + [c], q)
  {
    assert (w + [c])[..|w|] == w && (w + [c])[|w|] == c;
  }

  /** Reading on along the way ends a rule. */
  lemma {:induction false} GoesOn(t: Tnode, w: Word, ps: seq<nat>) returns (s: Word, k: int)
    requires Closed(t) && CharsOk(t) && Characters(w) && WayOut(t, ps) && Reaches(t, w, ps[0])
    ensures Characters(w + s) && k >= 1 && ReachesEnd(t, w + s, k)
    decreases |ps|
  {
    var p := ps[0];
    R.FirstInside(t, w, p);
    if At(t, p).ch0 < 0 {
      s, k := [], -At(t, p).ch0;
      assert w + [] == w;
    } else {
      var c := At(t, p).ch0;
      assert p !in Last(t) && |ps| > 1 && Follows(t, ps[0], ps[1]);
      hide Closed;
      ReachMore(t, w, p, c, ps[1]);
      WayRest(t, ps);
      s, k := GoesOn(t, w + [c], ps[1..]);
      assert w + ([c] + s) == w + [c] + s;
      s := [c] + s;
    }
  }

  lemma WayRest(t: Tnode, ps: seq<nat>)
    requires WayOut(t, ps) && |ps| > 1
    ensures WayOut(t, ps[1..])
  {
    hide Follows, Last;
  }

  // ---------------------------------------------------------------- beginnings of words

  /** Some word of a rule begins with v. */
  ghost predicate Begins(rules: seq<Rule>, v: Word) {
    exists u, k :: InRule(rules, u, k) && Characters(u) && v <= u
  }

  lemma RunSomewhere(t: Tnode, content: seq<seq<int>>, states: seq<State>, blocks: seq<seq<Tran>>, w: Word)
    requires Built(t, content, states, blocks) && Characters(w) && First(t) != {} && Run(states, blocks, w).Some?
    ensures exists p: nat :: Reaches(t, w, p)
  {
    RunReaches(t, content, states, blocks, w);
    if w == [] {
      var p :| p in First(t);
      assert Reaches(t, w, p);
    } else {
      var n, c := |w| - 1, w[|w| - 1];
      RunReaches(t, content, states, blocks, w[..n]);
      var i := Run(states, blocks, w[..n]).value;
      var trans := TransOf(blocks, states[i]);
      assert StateDone(t, content, states, blocks, i);
      assert StepDone(t, content, trans, content[i], c);
      var q: nat :| Steps(t, content[i], c, q);
      StepsReach(t, content[i], w, q);
    }
  }

  lemma {:induction false} RunFront(states: seq<State>, blocks: seq<seq<Tran>>, u: Word, n: nat)
    requires Run(states, blocks, u).Some? && n <= |u|
    ensures Run(states, blocks, u[..n]).Some?
    decreases |u|
  {
    if n < |u| {
      assert u[..|u| - 1][..n] == u[..n];
      RunFront(states, blocks, u[..|u| - 1], n);
    } else {
      assert u[..n] == u;
    }
  }

  /** The automaton gets through v exactly when some word of a rule begins with v. */
  lemma RunBegins(rules: seq<Rule>, content: seq<seq<int>>, states: seq<State>, blocks: seq<seq<Tran>>, v: Word)
    requires rules != [] && RulesOk(rules) && CharsOk(Root(rules)) && Built(Root(rules), content, states, blocks)
    ensures Characters(v) && Run(states, blocks, v).Some? <==> Begins(rules, v)
  {
    var t := Root(rules);
    RootClosed(rules);
    hide Built, RulesOk, Root;
    if Begins(rules, v) {
      var u, k :| InRule(rules, u, k) && Characters(u) && v <= u;
      RunAccepts(rules, content, states, blocks, u);
      assert Run(states, blocks, u).Some?;
      RunFront(states, blocks, u, |v|);
      assert u[..|v|] == v;
    }
    if Characters(v) && Run(states, blocks, v).Some? {
      hide Run;
      ClosedStarts(t);
      RunSomewhere(t, content, states, blocks, v);
      var p: nat :| Reaches(t, v, p);
      R.FirstInside(t, v, p);
      var ps := Way(t, p);
      var s, k := GoesOn(t, v, ps);
      RuleHolds(rules, v + s, k);
      assert InRule(rules, v + s, k) && v <= v + s;
    }
  }
}
