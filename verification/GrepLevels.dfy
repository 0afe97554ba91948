/** Approximate matching: the states an automaton can be in after words within a number of
  edits of the text read so far, and how they change with each character. */
module GrepLevels {
  import opened DfaStates

  type Text = seq<int>

  // The states of an automaton: their transitions and, when not 0, their rule.
  datatype Node = Node(trans: seq<Tran>, rule: int)

  ghost predicate AutoOk(auto: seq<Node>) {
    && auto != []
    && (forall s :: 0 <= s < |auto| ==> NodeOk(auto[s].trans, |auto|))
  }

  ghost predicate NodeOk(trans: seq<Tran>, n: nat) {
    forall k :: 0 <= k < |trans| ==> TranOk(trans[k], n)
  }

  ghost predicate TranOk(t: Tran, n: nat) {
    t.to < n && 0 <= t.ch0 <= t.ch1 <= 255
  }

  /** State s has a transition to q on c. */
  ghost predicate Goes(auto: seq<Node>, s: nat, c: int, q: nat) {
    && s < |auto|
    && exists k :: && 0 <= k < |auto[s].trans| && auto[s].trans[k].to == q
                   && auto[s].trans[k].ch0 <= c <= auto[s].trans[k].ch1
  }

  /** State s has a transition to q. */
  ghost predicate GoesAny(auto: seq<Node>, s: nat, q: nat) {
    s < |auto| && exists k :: 0 <= k < |auto[s].trans| && auto[s].trans[k].to == q
  }

  lemma AnyGoes(auto: seq<Node>, s: nat, q: nat)
    requires AutoOk(auto)
    ensures GoesAny(auto, s, q) <==> exists c :: Goes(auto, s, c, q)
  {
    if GoesAny(auto, s, q) {
      var k :| 0 <= k < |auto[s].trans| && auto[s].trans[k].to == q;
      assert TranOk(auto[s].trans[k], |auto|);
      assert Goes(auto, s, auto[s].trans[k].ch0, q);
    }
  }

  function Front(u: Text): Text
    requires u != []
  {
    u[..|u| - 1]
  }

  function Final(u: Text): int
    requires u != []
  {
    u[|u| - 1]
  }

  /** Reading u from state 0 can end in q. */
  ghost predicate Runs(auto: seq<Node>, u: Text, q: nat)
    decreases |u|
  {
    if u == [] then q == 0
    else exists s: nat :: Runs(auto, Front(u), s) && Goes(auto, s, Final(u), q)
  }

  lemma RunsSnoc(auto: seq<Node>, u: Text, a: int, s: nat, q: nat)
    requires Runs(auto, u, s) && Goes(auto, s, a, q)
    ensures Runs(auto, u + [a], q)
  {
    assert Front(u + [a]) == u && Final(u + [a]) == a;
  }

  // ---------------------------------------------------------------- edit distance

  function Min(a: nat, b: nat): nat {
    if a <= b then a else b
  }

  /** The least number of insertions, deletions and substitutions that turn u into w. */
  function Lev(u: Text, w: Text): nat
    decreases |u| + |w|
  {
    if u == [] then |w|
    else if w == [] then |u|
    else
      var u', w' := u[..|u| - 1], w[..|w| - 1];
      Min(Lev(u', w') + (if u[|u| - 1] == w[|w| - 1] then 0 else 1), Min(Lev(u', w) + 1, Lev(u, w') + 1))
  }

  /** The distance of two words is 0 exactly when they are equal. */
  lemma {:induction false} LevZero(u: Text, w: Text)
    ensures Lev(u, w) == 0 <==> u == w
    decreases |u| + |w|
  {
    if u != [] && w != [] {
      LevZero(u[..|u| - 1], w[..|w| - 1]);
      assert u == u[..|u| - 1] + [u[|u| - 1]] && w == w[..|w| - 1] + [w[|w| - 1]];
    }
  }

  lemma LevSnoc(u: Text, a: int, w: Text, c: int)
    ensures Lev(u + [a], w + [c]) ==
      Min(Lev(u, w) + (if a == c then 0 else 1), Min(Lev(u, w + [c]) + 1, Lev(u + [a], w) + 1))
  {
    assert (u + [a])[..|u|] == u && (w + [c])[..|w|] == w;
  }

  lemma LevInsert(u: Text, w: Text, c: int)
    ensures Lev(u, w + [c]) <= Lev(u, w) + 1
  {
    assert (w + [c])[..|w|] == w;
  }

  lemma LevNone(w: Text)
    ensures Lev([], w) == Lev(w, []) == |w|
  {
  }

  lemma FrontFinal(c: int, u: Text)
    requires u != []
    ensures u == Front(u) + [Final(u)] && [c] + u == ([c] + Front(u)) + [Final(u)]
  {
  }

  lemma {:induction false} LevFirst(c: int, u: Text, w: Text)
    ensures Lev([c] + u, [c] + w) == Lev(u, w)
    decreases |u| + |w|
  {
    hide Lev;
    assert [c] + [] == [] + [c] == [c];
    LevNone(u);
    LevNone(w);
    LevNone([c] + u);
    LevNone([c] + w);
    LevNone([]);
    if u != [] { FrontFinal(c, u); }
    if w != [] { FrontFinal(c, w); }
    if u == [] && w == [] {
      LevSnoc([], c, [], c);
      LevNone([c]);
    } else if u == [] {
      LevFirst(c, u, Front(w));
      LevNone(Front(w));
      LevNone([c] + Front(w));
      LevSnoc([], c, [c] + Front(w), Final(w));
    } else if w == [] {
      LevFirst(c, Front(u), w);
      LevNone(Front(u));
      LevNone([c] + Front(u));
      LevSnoc([c] + Front(u), Final(u), [], c);
    } else {
      LevFirst(c, Front(u), Front(w));
      LevFirst(c, Front(u), w);
      LevFirst(c, u, Front(w));
      LevSnoc([c] + Front(u), Final(u), [c] + Front(w), Final(w));
      LevSnoc(Front(u), Final(u), Front(w), Final(w));
    }
  }

  /** A common beginning adds nothing to the distance. */
  lemma {:induction false} LevPrefix(p: Text, u: Text, w: Text)
    ensures Lev(p + u, p + w) == Lev(u, w)
    decreases |p|
  {
    if p == [] {
      assert p + u == u && p + w == w;
    } else {
      var a := Front(p);
      assert p + u == a + ([Final(p)] + u) && p + w == a + ([Final(p)] + w);
      LevPrefix(a, [Final(p)] + u, [Final(p)] + w);
      LevFirst(Final(p), u, w);
    }
  }

  lemma LevEmpty(u: Text)
    ensures Lev(u, []) == |u|
  {
  }

  // ---------------------------------------------------------------- levels

  /** State q is at level d after w: some word within d edits of w leads there. */
  ghost predicate Near(auto: seq<Node>, d: int, w: Text, q: nat) {
    exists u :: Runs(auto, u, q) && Lev(u, w) <= d
  }

  lemma NearMore(auto: seq<Node>, d: int, w: Text, q: nat)
    requires Near(auto, d, w, q)
    ensures Near(auto, d + 1, w, q)
  {
    var u :| Runs(auto, u, q) && Lev(u, w) <= d;
  }

  /** The states one transition away from a level. */
  ghost predicate NearAny(auto: seq<Node>, d: int, w: Text, q: nat) {
    exists s: nat :: Near(auto, d, w, s) && GoesAny(auto, s, q)
  }

  ghost predicate NearOn(auto: seq<Node>, d: int, w: Text, c: int, q: nat) {
    exists s: nat :: Near(auto, d, w, s) && Goes(auto, s, c, q)
  }

  /** Before anything is read, level d holds the states at most d transitions away. */
  lemma LevelStart(auto: seq<Node>, d: nat, q: nat)
    requires AutoOk(auto)
    ensures d == 0 ==> (Near(auto, d, [], q) <==> q == 0)
    ensures d > 0 ==> (Near(auto, d, [], q) <==> Near(auto, d - 1, [], q) || NearAny(auto, d - 1, [], q))
  {
    if u :| Runs(auto, u, q) && Lev(u, []) <= d {
      LevEmpty(u);
      if d > 0 && u != [] {
        var n := |u| - 1;
        var s: nat :| Runs(auto, Front(u), s) && Goes(auto, s, Final(u), q);
        LevEmpty(u[..n]);
        AnyGoes(auto, s, q);
        assert Near(auto, d - 1, [], s);
      }
    }
    if d == 0 && q == 0 {
      LevEmpty([]);
      assert Runs(auto, [], 0);
    }
    if d > 0 && Near(auto, d - 1, [], q) { NearMore(auto, d - 1, [], q); }
    if d > 0 && NearAny(auto, d - 1, [], q) {
      var s: nat :| Near(auto, d - 1, [], s) && GoesAny(auto, s, q);
      var u :| Runs(auto, u, s) && Lev(u, []) <= d - 1;
      AnyGoes(auto, s, q);
      var c :| Goes(auto, s, c, q);
      RunsSnoc(auto, u, c, s, q);
      LevEmpty(u);
      LevEmpty(u + [c]);
    }
  }

  /** What one more character of text makes of level d: a transition on it from level d, the
      character passed over, any transition instead of it, or any transition besides it. */
  ghost predicate Stepped(auto: seq<Node>, d: nat, w: Text, c: int, q: nat) {
    || NearOn(auto, d, w, c, q)
    || (d > 0 && (Near(auto, d - 1, w, q) || NearAny(auto, d - 1, w, q) || NearAny(auto, d - 1, w + [c], q)))
  }

  lemma LevelStepDown(auto: seq<Node>, d: nat, w: Text, c: int, q: nat, u: Text)
    requires AutoOk(auto) && Runs(auto, u, q) && Lev(u, w + [c]) <= d
    ensures Stepped(auto, d, w, c, q)
  {
    if u == [] {
      assert Lev([], w + [c]) == |w| + 1 && Lev([], w) == |w|;
      assert Near(auto, d - 1, w, q);
    } else {
      var n, a := |u| - 1, u[|u| - 1];
      var s: nat :| Runs(auto, Front(u), s) && Goes(auto, s, Final(u), q);
      assert u == u[..n] + [a];
      LevSnoc(u[..n], a, w, c);
      AnyGoes(auto, s, q);
      if Lev(u[..n], w) + (if a == c then 0 else 1) <= d {
        if a == c {
          assert Near(auto, d, w, s);
        } else {
          assert Near(auto, d - 1, w, s);
        }
      } else if Lev(u[..n], w + [c]) + 1 <= d {
        assert Near(auto, d - 1, w + [c], s);
      } else {
        assert Near(auto, d - 1, w, q);
      }
    }
  }

  lemma StepMatch(auto: seq<Node>, d: int, w: Text, c: int, q: nat)
    requires NearOn(auto, d, w, c, q)
    ensures Near(auto, d, w + [c], q)
  {
    var s: nat :| Near(auto, d, w, s) && Goes(auto, s, c, q);
    var u :| Runs(auto, u, s) && Lev(u, w) <= d;
    RunsSnoc(auto, u, c, s, q);
    LevSnoc(u, c, w, c);
  }

  lemma StepSkip(auto: seq<Node>, d: int, w: Text, c: int, q: nat)
    requires Near(auto, d - 1, w, q)
    ensures Near(auto, d, w + [c], q)
  {
    var u :| Runs(auto, u, q) && Lev(u, w) <= d - 1;
    LevInsert(u, w, c);
  }

  lemma StepOther(auto: seq<Node>, d: int, w: Text, c: int, q: nat)
    requires AutoOk(auto) && NearAny(auto, d - 1, w, q)
    ensures Near(auto, d, w + [c], q)
  {
    var s: nat :| Near(auto, d - 1, w, s) && GoesAny(auto, s, q);
    var u :| Runs(auto, u, s) && Lev(u, w) <= d - 1;
    AnyGoes(auto, s, q);
    var a :| Goes(auto, s, a, q);
    RunsSnoc(auto, u, a, s, q);
    LevSnoc(u, a, w, c);
  }

  lemma StepBeside(auto: seq<Node>, d: int, w: Text, c: int, q: nat)
    requires AutoOk(auto) && NearAny(auto, d - 1, w + [c], q)
    ensures Near(auto, d, w + [c], q)
  {
    var s: nat :| Near(auto, d - 1, w + [c], s) && GoesAny(auto, s, q);
    var u :| Runs(auto, u, s) && Lev(u, w + [c]) <= d - 1;
    AnyGoes(auto, s, q);
    var a :| Goes(auto, s, a, q);
    RunsSnoc(auto, u, a, s, q);
    LevSnoc(u, a, w, c);
  }

  lemma LevelStepUp(auto: seq<Node>, d: nat, w: Text, c: int, q: nat)
    requires AutoOk(auto) && Stepped(auto, d, w, c, q)
    ensures Near(auto, d, w + [c], q)
  {
    hide Near, NearOn, NearAny, AutoOk;
    if NearOn(auto, d, w, c, q) {
      StepMatch(auto, d, w, c, q);
    } else if Near(auto, d - 1, w, q) {
      StepSkip(auto, d, w, c, q);
    } else if NearAny(auto, d - 1, w, q) {
      StepOther(auto, d, w, c, q);
    } else {
      StepBeside(auto, d, w, c, q);
    }
  }

  /** The recurrence the bit-parallel search computes is the Levenshtein ball of the text. */
  lemma LevelStep(auto: seq<Node>, d: nat, w: Text, c: int, q: nat)
    requires AutoOk(auto)
    ensures Near(auto, d, w + [c], q) <==> Stepped(auto, d, w, c, q)
  {
    if Near(auto, d, w + [c], q) {
      var u :| Runs(auto, u, q) && Lev(u, w + [c]) <= d;
      LevelStepDown(auto, d, w, c, q, u);
    }
    if Stepped(auto, d, w, c, q) {
      LevelStepUp(auto, d, w, c, q);
    }
  }

  /** Once a level is empty it stays empty, whatever is read. */
  ghost predicate Dead(auto: seq<Node>, d: int, w: Text) {
    forall q: nat :: !Near(auto, d, w, q)
  }

  lemma DeadLess(auto: seq<Node>, d: int, w: Text)
    requires Dead(auto, d + 1, w)
    ensures Dead(auto, d, w)
  {
    forall q: nat
      ensures !Near(auto, d, w, q)
    {
      if Near(auto, d, w, q) { NearMore(auto, d, w, q); }
    }
  }

  lemma {:induction false} DeadStep(auto: seq<Node>, d: nat, w: Text, c: int)
    requires AutoOk(auto) && Dead(auto, d, w)
    ensures Dead(auto, d, w + [c])
    decreases d
  {
    if d > 0 {
      DeadLess(auto, d - 1, w);
      DeadStep(auto, d - 1, w, c);
    }
    forall q: nat
      ensures !Near(auto, d, w + [c], q)
    {
      LevelStep(auto, d, w, c, q);
    }
  }

  lemma {:induction false} DeadForever(auto: seq<Node>, d: nat, w: Text, v: Text)
    requires AutoOk(auto) && Dead(auto, d, w)
    ensures Dead(auto, d, w + v)
    decreases |v|
  {
    if v == [] {
      assert w + v == w;
    } else {
      var n := |v| - 1;
      DeadForever(auto, d, w, v[..n]);
      DeadStep(auto, d, w + v[..n], v[n]);
      assert w + v == w + v[..n] + [v[n]];
    }
  }

  /** The text is within d edits of a word some rule accepts. */
  ghost predicate Accepts(auto: seq<Node>, d: int, w: Text) {
    exists q: nat :: Near(auto, d, w, q) && q < |auto| && auto[q].rule != 0
  }

  lemma StaysInside(auto: seq<Node>, d: int, w: Text, q: nat)
    requires AutoOk(auto) && Near(auto, d, w, q)
    ensures q < |auto|
  {
    var u :| Runs(auto, u, q) && Lev(u, w) <= d;
    if u != [] {
      var s: nat :| Runs(auto, Front(u), s) && Goes(auto, s, Final(u), q);
      var k :| && 0 <= k < |auto[s].trans| && auto[s].trans[k].to == q
               && auto[s].trans[k].ch0 <= Final(u) <= auto[s].trans[k].ch1;
      assert TranOk(auto[s].trans[k], |auto|);
    }
  }
}
