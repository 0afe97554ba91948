/** Sets of positions reached by reading a word, and what they say about the rules a word
  belongs to. */
module DfaReach {
  import opened DfaTree
  import opened DfaPosition

  /** After reading w from the start, position p may be read next. */
  ghost predicate Reaches(t: Tnode, w: Word, p: nat)
    decreases |w|
  {
    if w == [] then p in First(t)
    else exists q :: Reads1(t, q, w[|w| - 1]) && Reaches(t, w[..|w| - 1], q) && Follows(t, q, p)
  }

  /** Position q of the tree reads the letter c. */
  predicate Reads1(t: Tnode, q: nat, c: int) {
    q in Positions(t) && Reads(At(t, q), c)
  }

  /** ps is a walk that may still go on. */
  ghost predicate Walk(t: Tnode, ps: seq<nat>) {
    && ps != [] && ps[0] in First(t)
    && (forall i :: 0 <= i < |ps| - 1 ==> Follows(t, ps[i], ps[i + 1]))
  }

  lemma {:induction false} ReachWalk(t: Tnode, w: Word, p: nat) returns (ps: seq<nat>)
    requires Reaches(t, w, p)
    ensures Fits(t, ps, w) && Walk(t, ps + [p])
    decreases |w|
  {
    if w == [] {
      ps := [];
    } else {
      var n := |w| - 1;
      var q :| Reads1(t, q, w[n]) && Reaches(t, w[..n], q) && Follows(t, q, p);
      var us := ReachWalk(t, w[..n], q);
      ps := us + [q];
      assert w == w[..n] + [w[n]];
    }
  }

  lemma WalkFront(t: Tnode, us: seq<nat>, p: nat)
    requires Walk(t, us + [p]) && us != []
    ensures Walk(t, us) && Follows(t, us[|us| - 1], p)
  {
    var n := |us| - 1;
    assert (us + [p])[n] == us[n] && (us + [p])[n + 1] == p && (us + [p])[0] == us[0];
    forall i | 0 <= i < n
      ensures Follows(t, us[i], us[i + 1])
    {
      assert (us + [p])[i] == us[i] && (us + [p])[i + 1] == us[i + 1];
    }
  }

  lemma {:induction false} WalkReach(t: Tnode, ps: seq<nat>, w: Word, p: nat)
    requires Fits(t, ps, w) && Walk(t, ps + [p])
    ensures Reaches(t, w, p)
    decreases |w|
  {
    if w != [] {
      var n := |w| - 1;
      var q, us := ps[n], ps[..n];
      assert us + [q] == ps;
      WalkFront(t, ps, p);
      hide Walk;
      WalkReach(t, us, w[..n], q);
      assert Reads1(t, q, w[n]);
    }
  }

  lemma FirstInside(t: Tnode, w: Word, p: nat)
    requires Reaches(t, w, p)
    ensures p in Positions(t)
  {
    if w != [] {
      var q :| Reads1(t, q, w[|w| - 1]) && Reaches(t, w[..|w| - 1], q) && Follows(t, q, p);
      FollowsInside(t, q, p);
    }
  }

  // ---------------------------------------------------------------- closed trees

  /** The last positions are exactly the ends of rules, and there is something to read. */
  predicate Closed(t: Tnode) {
    && !Nullable(t) && Linear(t)
    && (forall p :: p in Positions(t) ==> (p in Last(t) <==> At(t, p).ch0 < 0))
  }

  predicate Unmarked(t: Tnode) {
    forall p :: p in Positions(t) ==> At(t, p).ch0 >= 0
  }

  lemma {:induction false} FirstExists(t: Tnode)
    requires Positions(t) != {} || !Nullable(t)
    ensures First(t) != {}
  {
    match t {
      case Cat(l, r) =>
        if Positions(l) != {} || !Nullable(l) { FirstExists(l); } else { FirstExists(r); }
      case Or(l, r) =>
        if Positions(l) != {} || !Nullable(l) { FirstExists(l); } else { FirstExists(r); }
      case Star(s) => FirstExists(s);
      case Plus(s) => FirstExists(s);
      case Leaf(p, _, _) => assert p in First(t);
    }
  }

  /** Every position that is not last has a position to follow it. */
  lemma {:induction false} FollowExists(t: Tnode, p: nat)
    requires p in Positions(t) && p !in Last(t)
    ensures exists q :: Follows(t, p, q)
  {
    match t {
      case Cat(l, r) =>
        if p in Positions(r) && p !in Last(r) {
          FollowExists(r, p);
          var q :| Follows(r, p, q);
          assert Follows(t, p, q);
        } else if p in Last(l) {
          FirstExists(r);
          var q :| q in First(r);
          assert Follows(t, p, q);
        } else {
          FollowExists(l, p);
          var q :| Follows(l, p, q);
          assert Follows(t, p, q);
        }
      case Or(l, r) =>
        if p in Positions(l) {
          FollowExists(l, p);
          var q :| Follows(l, p, q);
          assert Follows(t, p, q);
        } else {
          FollowExists(r, p);
          var q :| Follows(r, p, q);
          assert Follows(t, p, q);
        }
      case Star(s) =>
        FollowExists(s, p);
        var q :| Follows(s, p, q);
        assert Follows(t, p, q);
      case Plus(s) =>
        FollowExists(s, p);
        var q :| Follows(s, p, q);
        assert Follows(t, p, q);
    }
  }

  /** In a closed tree, every position that reads characters is followed by another. */
  lemma FollowNonEmpty(t: Tnode, p: nat)
    requires Closed(t) && p in Positions(t) && At(t, p).ch0 >= 0
    ensures exists q :: Follows(t, p, q)
  {
    FollowExists(t, p);
  }

  ghost predicate ReachesEnd(t: Tnode, w: Word, k: int) {
    exists p :: p in Positions(t) && At(t, p).ch0 == -k && Reaches(t, w, p)
  }

  lemma WalkEnds(t: Tnode, w: Word, k: int, ps: seq<nat>)
    requires k >= 1 && Local(t, ps) && Fits(t, ps, w + [-k])
    ensures ReachesEnd(t, w, k)
  {
    var n := |w|;
    var u := w + [-k];
    assert ps == ps[..n] + [ps[n]] && u[..n] == w && u[n] == -k;
    FitsCut(t, ps, u, n);
    WalkReach(t, ps[..n], w, ps[n]);
    assert Reads(At(t, ps[n]), u[n]);
  }

  lemma EndWalks(t: Tnode, w: Word, k: int, p: nat) returns (ps: seq<nat>)
    requires k >= 1 && p in Last(t) && At(t, p).ch0 == -k && Reaches(t, w, p)
    ensures Local(t, ps) && Fits(t, ps, w + [-k])
  {
    var us := ReachWalk(t, w, p);
    var n, u := |w|, w + [-k];
    ps := us + [p];
    assert u[..n] == w && u[n..] == [-k];
    assert Fits(t, [p], [-k]);
    FitsJoin(t, us, [p], u, n);
  }

  /** A word followed by the end of rule k is matched exactly when the word reaches an end of rule k. */
  lemma RuleReached(t: Tnode, w: Word, k: int)
    requires Closed(t) && k >= 1
    ensures Matches(t, w + [-k]) <==> ReachesEnd(t, w, k)
  {
    MatchesWalk(t, w + [-k]);
    if ps :| Local(t, ps) && Fits(t, ps, w + [-k]) {
      WalkEnds(t, w, k, ps);
    }
    if ReachesEnd(t, w, k) {
      var p :| p in Positions(t) && At(t, p).ch0 == -k && Reaches(t, w, p);
      var ps := EndWalks(t, w, k, p);
    }
  }

  // ---------------------------------------------------------------- rules

  /** A parsed pattern: its tree and the position of its end. Rules are numbered from 1. */
  datatype Rule = Rule(body: Tnode, end: nat, anchored: bool)

  /** The tree of rule number k. */
  function Top(rule: Rule, k: int): Tnode {
    Cat(rule.body, Leaf(rule.end, -k, if rule.anchored then 0 else -k))
  }

  /** The tree of all rules parsed so far. */
  function Root(rules: seq<Rule>): Tnode
    requires rules != []
  {
    var n := |rules|;
    if n == 1 then Top(rules[0], 1) else Or(Root(rules[..n - 1]), Top(rules[n - 1], n))
  }

  predicate RuleOk(rule: Rule) {
    Linear(rule.body) && Unmarked(rule.body) && rule.end !in Positions(rule.body)
  }

  predicate RulesOk(rules: seq<Rule>) {
    && (forall i :: 0 <= i < |rules| ==> RuleOk(rules[i]))
    && (forall i, j :: 0 <= i < j < |rules| ==> Positions(Top(rules[i], i + 1)) !! Positions(Top(rules[j], j + 1)))
  }

  lemma TopClosed(rule: Rule, k: int)
    requires RuleOk(rule) && k >= 1
    ensures Closed(Top(rule, k))
  {
  }

  lemma {:induction false} RootPositions(rules: seq<Rule>, p: nat)
    requires rules != []
    ensures p in Positions(Root(rules)) <==> exists i :: 0 <= i < |rules| && p in Positions(Top(rules[i], i + 1))
    decreases |rules|
  {
    var n := |rules|;
    if n > 1 {
      RootPositions(rules[..n - 1], p);
      assert forall i :: 0 <= i < n - 1 ==> rules[..n - 1][i] == rules[i];
      if p in Positions(Root(rules[..n - 1])) {
        var i :| 0 <= i < n - 1 && p in Positions(Top(rules[..n - 1][i], i + 1));
        assert p in Positions(Top(rules[i], i + 1));
      }
    }
  }

  /** The tree of all rules is closed. */
  lemma {:induction false} RootClosed(rules: seq<Rule>)
    requires rules != [] && RulesOk(rules)
    ensures Closed(Root(rules))
    decreases |rules|
  {
    var n := |rules|;
    TopClosed(rules[n - 1], n);
    if n > 1 {
      var l, r := Root(rules[..n - 1]), Top(rules[n - 1], n);
      RootClosed(rules[..n - 1]);
      forall p | p in Positions(l)
        ensures p !in Positions(r)
      {
        RootPositions(rules[..n - 1], p);
      }
      OrClosed(l, r);
    }
  }

  lemma OrClosed(l: Tnode, r: Tnode)
    requires Closed(l) && Closed(r) && Positions(l) !! Positions(r)
    ensures Closed(Or(l, r))
  {
  }

  lemma TopMatches(rule: Rule, j: int, w: Word, k: int)
    requires RuleOk(rule) && j >= 1 && k >= 1 && (forall i :: 0 <= i < |w| ==> w[i] >= 0)
    ensures Matches(Top(rule, j), w + [-k]) <==> k == j && Matches(rule.body, w)
  {
    var t, u := Top(rule, j), w + [-k];
    assert u[..|w|] == w && u[|w|..] == [-k];
    if Matches(t, u) {
      var i :| 0 <= i <= |u| && Matches(rule.body, u[..i]) && Matches(t.right, u[i..]);
      assert i == |w|;
    }
  }

  /** A word of rule k, followed by the end of rule k, is what the tree of all rules matches. */
  lemma {:induction false} RootMatches(rules: seq<Rule>, w: Word, k: int)
    requires rules != [] && RulesOk(rules) && k >= 1 && (forall i :: 0 <= i < |w| ==> w[i] >= 0)
    ensures Matches(Root(rules), w + [-k]) <==> k <= |rules| && Matches(rules[k - 1].body, w)
    decreases |rules|
  {
    var n := |rules|;
    TopMatches(rules[n - 1], n, w, k);
    if n > 1 {
      RootMatches(rules[..n - 1], w, k);
    }
  }

  /** Rule k holds a word exactly when reading the word reaches an end of rule k. */
  lemma RuleHolds(rules: seq<Rule>, w: Word, k: int)
    requires rules != [] && RulesOk(rules) && k >= 1 && (forall i :: 0 <= i < |w| ==> w[i] >= 0)
    ensures (k <= |rules| && Matches(rules[k - 1].body, w)) <==> ReachesEnd(Root(rules), w, k)
  {
    RootClosed(rules);
    RootMatches(rules, w, k);
    RuleReached(Root(rules), w, k);
  }
}
