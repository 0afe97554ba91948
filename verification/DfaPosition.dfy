/** The position automaton of a syntax tree accepts exactly the words the tree matches. */
module DfaPosition {
  import opened DfaTree

  /** The tree whose every leaf reads its own position. */
  function Marked(t: Tnode): (m: Tnode)
    ensures Nullable(m) == Nullable(t)
  {
    match t
    case Cat(l, r) => Cat(Marked(l), Marked(r))
    case Or(l, r) => Or(Marked(l), Marked(r))
    case Star(s) => Star(Marked(s))
    case Plus(s) => Plus(Marked(s))
    case Epsilon => Epsilon
    case Leaf(p, _, _) => Leaf(p, p, p)
  }

  /** A walk through the positions: it starts at a first position, each position follows the
      one before, and it stops at a last position. */
  ghost predicate Local(t: Tnode, ps: seq<nat>) {
    && (ps == [] ==> Nullable(t))
    && (ps != [] ==> ps[0] in First(t) && ps[|ps| - 1] in Last(t))
    && (forall i :: 0 <= i < |ps| - 1 ==> Follows(t, ps[i], ps[i + 1]))
  }

  // ---------------------------------------------------------------- position words are walks

  lemma LocalCat(l: Tnode, r: Tnode, u: seq<nat>, v: seq<nat>)
    requires Local(l, u) && Local(r, v)
    ensures Local(Cat(l, r), u + v)
  {
    var t, w := Cat(l, r), u + v;
    forall i | 0 <= i < |w| - 1
      ensures Follows(t, w[i], w[i + 1])
    {
      if i < |u| - 1 {
        assert Follows(l, u[i], u[i + 1]);
      } else if i >= |u| {
        assert Follows(r, v[i - |u|], v[i - |u| + 1]);
      }
    }
    hide Follows;
    if u == [] { assert w == v; }
    if v == [] { assert w == u; }
  }

  lemma LocalStar(s: Tnode, u: seq<nat>, v: seq<nat>)
    requires Local(s, u) && Local(Star(s), v)
    ensures Local(Star(s), u + v)
  {
    if u == [] { assert u + v == v; }
    if v == [] { assert u + v == u; }
  }

  lemma {:induction false} MatchesLocal(t: Tnode, ps: seq<nat>)
    requires Matches(Marked(t), ps)
    ensures Local(t, ps)
    decreases t, 0
  {
    match t {
      case Cat(l, r) =>
        var i :| 0 <= i <= |ps| && Matches(Marked(l), ps[..i]) && Matches(Marked(r), ps[i..]);
        MatchesLocal(l, ps[..i]);
        MatchesLocal(r, ps[i..]);
        LocalCat(l, r, ps[..i], ps[i..]);
        assert ps[..i] + ps[i..] == ps;
      case Or(l, r) =>
        if Matches(Marked(l), ps) { MatchesLocal(l, ps); } else { MatchesLocal(r, ps); }
      case Star(s) =>
        var n: nat :| Repeats(Marked(s), n, ps);
        RepeatsLocal(s, n, ps);
      case Plus(s) =>
        var n: nat :| n >= 1 && Repeats(Marked(s), n, ps);
        RepeatsLocal(s, n, ps);
        if ps == [] {
          EmptyRepeats(Marked(s));
          NullableEmpty(Marked(s));
        }
        assert forall p, q :: Follows(Star(s), p, q) == Follows(Plus(s), p, q);
      case Epsilon =>
      case Leaf(_, _, _) =>
    }
  }

  lemma {:induction false} RepeatsLocal(s: Tnode, n: nat, ps: seq<nat>)
    requires Repeats(Marked(s), n, ps)
    ensures Local(Star(s), ps)
    decreases s, n + 1
  {
    if n > 0 {
      var i :| 0 <= i <= |ps| && Matches(Marked(s), ps[..i]) && Repeats(Marked(s), n - 1, ps[i..]);
      MatchesLocal(s, ps[..i]);
      RepeatsLocal(s, n - 1, ps[i..]);
      LocalStar(s, ps[..i], ps[i..]);
      assert ps[..i] + ps[i..] == ps;
    }
  }

  // ---------------------------------------------------------------- walks are position words

  lemma CatFollows(l: Tnode, r: Tnode, p: nat, q: nat)
    requires Linear(Cat(l, r)) && Follows(Cat(l, r), p, q)
    ensures p in Positions(l) ==> (if q in Positions(l) then Follows(l, p, q) else p in Last(l) && q in First(r))
    ensures p in Positions(r) ==> Follows(r, p, q)
    ensures p in Positions(l) || p in Positions(r)
  {
    if Follows(l, p, q) { FollowsInside(l, p, q); }
    if Follows(r, p, q) { FollowsInside(r, p, q); }
  }

  /** How many positions a walk takes before it leaves the left part of a concatenation. */
  function LeftPart(l: Tnode, ps: seq<nat>): (i: nat)
    ensures i <= |ps| && (forall k :: 0 <= k < i ==> ps[k] in Positions(l)) && (i < |ps| ==> ps[i] !in Positions(l))
  {
    if ps == [] || ps[0] !in Positions(l) then 0 else 1 + LeftPart(l, ps[1..])
  }

  lemma {:induction false} RightPart(l: Tnode, r: Tnode, ps: seq<nat>, i: nat, k: nat)
    requires Linear(Cat(l, r)) && Local(Cat(l, r), ps) && i <= k < |ps| && ps[i] !in Positions(l)
    ensures ps[k] in Positions(r)
    decreases k
  {
    if k > i {
      RightPart(l, r, ps, i, k - 1);
      CatFollows(l, r, ps[k - 1], ps[k]);
      FollowsInside(r, ps[k - 1], ps[k]);
    } else if k > 0 {
      CatFollows(l, r, ps[k - 1], ps[k]);
      FollowsInside(Cat(l, r), ps[k - 1], ps[k]);
    }
  }

  /** A walk through a concatenation is a walk through its left part and one through its right part. */
  lemma LocalSplit(l: Tnode, r: Tnode, ps: seq<nat>)
    requires Linear(Cat(l, r)) && Local(Cat(l, r), ps)
    ensures var i := LeftPart(l, ps); Local(l, ps[..i]) && Local(r, ps[i..])
  {
    var i := LeftPart(l, ps);
    forall k | i <= k < |ps|
      ensures ps[k] in Positions(r) && ps[k] !in Positions(l)
    {
      RightPart(l, r, ps, i, k);
    }
    forall k | 0 <= k < |ps| - 1
      ensures k < i - 1 ==> Follows(l, ps[k], ps[k + 1])
      ensures k == i - 1 ==> ps[k] in Last(l) && ps[k + 1] in First(r)
      ensures i <= k ==> Follows(r, ps[k], ps[k + 1])
    {
      CatFollows(l, r, ps[k], ps[k + 1]);
    }
  }

  /** The length of the longest prefix of a walk through a repetition that stays in one round. */
  function Round(s: Tnode, ps: seq<nat>): (i: nat)
    requires ps != []
    ensures 1 <= i <= |ps|
    ensures forall k :: 0 <= k < i - 1 ==> Follows(s, ps[k], ps[k + 1])
    ensures i < |ps| ==> !Follows(s, ps[i - 1], ps[i])
  {
    if |ps| == 1 || !Follows(s, ps[0], ps[1]) then 1 else 1 + Round(s, ps[1..])
  }

  lemma {:induction false} LocalRepeats(s: Tnode, ps: seq<nat>) returns (n: nat)
    requires Linear(s) && Local(Star(s), ps)
    ensures Repeats(Marked(s), n, ps) && (ps != [] ==> n >= 1)
    decreases s, |ps| + 1
  {
    n := 0;
    if ps != [] {
      var i := Round(s, ps);
      if i < |ps| { assert Follows(Star(s), ps[i - 1], ps[i]); }
      assert Local(s, ps[..i]);
      LocalMatches(s, ps[..i]);
      assert Local(Star(s), ps[i..]);
      n := LocalRepeats(s, ps[i..]);
      n := n + 1;
    }
  }

  lemma {:induction false} LocalMatches(t: Tnode, ps: seq<nat>)
    requires Linear(t) && Local(t, ps)
    ensures Matches(Marked(t), ps)
    decreases t, 0
  {
    match t {
      case Cat(l, r) =>
        LocalSplit(l, r, ps);
        var i := LeftPart(l, ps);
        LocalMatches(l, ps[..i]);
        LocalMatches(r, ps[i..]);
      case Or(l, r) =>
        LocalSide(l, r, ps);
        if Local(l, ps) { LocalMatches(l, ps); } else { LocalMatches(r, ps); }
      case Star(s) =>
        var n := LocalRepeats(s, ps);
      case Plus(s) =>
        if ps == [] {
          NullableEmpty(Marked(s));
          EmptyRepeats(Marked(s));
        } else {
          assert forall p, q :: Follows(Star(s), p, q) == Follows(Plus(s), p, q);
          var n := LocalRepeats(s, ps);
        }
      case Epsilon =>
      case Leaf(p, _, _) =>
        assert |ps| <= 1 || Follows(t, ps[0], ps[1]);
    }
  }

  lemma {:induction false} OneSide(l: Tnode, r: Tnode, ps: seq<nat>, k: nat)
    requires Linear(Or(l, r)) && Local(Or(l, r), ps) && k < |ps|
    ensures ps[0] in Positions(l) <==> ps[k] in Positions(l)
    ensures ps[0] in Positions(r) <==> ps[k] in Positions(r)
    ensures ps[k] in Positions(l) || ps[k] in Positions(r)
    decreases k
  {
    if k > 0 {
      OneSide(l, r, ps, k - 1);
      assert Follows(Or(l, r), ps[k - 1], ps[k]);
      if Follows(l, ps[k - 1], ps[k]) {
        FollowsInside(l, ps[k - 1], ps[k]);
      } else {
        FollowsInside(r, ps[k - 1], ps[k]);
      }
    }
  }

  lemma LocalSide(l: Tnode, r: Tnode, ps: seq<nat>)
    requires Linear(Or(l, r)) && Local(Or(l, r), ps)
    ensures Local(l, ps) || Local(r, ps)
  {
    forall k | 0 <= k < |ps|
      ensures ps[0] in Positions(l) <==> ps[k] in Positions(l)
      ensures ps[0] in Positions(r) <==> ps[k] in Positions(r)
      ensures ps[k] in Positions(l) || ps[k] in Positions(r)
    {
      OneSide(l, r, ps, k);
    }
    forall k | 0 <= k < |ps| - 1
      ensures ps[0] in Positions(l) ==> Follows(l, ps[k], ps[k + 1])
      ensures ps[0] in Positions(r) ==> Follows(r, ps[k], ps[k + 1])
    {
      if Follows(l, ps[k], ps[k + 1]) { FollowsInside(l, ps[k], ps[k + 1]); }
      if Follows(r, ps[k], ps[k + 1]) { FollowsInside(r, ps[k], ps[k + 1]); }
    }
  }

  // ---------------------------------------------------------------- words and position words

  /** The leaf at each position reads the letter of the word. */
  ghost predicate Fits(t: Tnode, ps: seq<nat>, w: Word) {
    |ps| == |w| && forall i :: 0 <= i < |ps| ==> ps[i] in Positions(t) && Reads(At(t, ps[i]), w[i])
  }

  lemma FitsJoin(t: Tnode, u: seq<nat>, v: seq<nat>, w: Word, i: nat)
    requires i <= |w| && Fits(t, u, w[..i]) && Fits(t, v, w[i..])
    ensures Fits(t, u + v, w)
  {
    forall k | 0 <= k < |u + v|
      ensures (u + v)[k] in Positions(t) && Reads(At(t, (u + v)[k]), w[k])
    {
      if k < i { assert w[..i][k] == w[k]; } else { assert w[i..][k - i] == w[k]; }
    }
  }

  lemma FitsCut(t: Tnode, ps: seq<nat>, w: Word, i: nat)
    requires Fits(t, ps, w) && i <= |w|
    ensures Fits(t, ps[..i], w[..i]) && Fits(t, ps[i..], w[i..])
  {
  }

  /** Each word the tree matches labels a position word. */
  lemma {:induction false} Label(t: Tnode, w: Word) returns (ps: seq<nat>)
    requires Linear(t) && Matches(t, w)
    ensures Matches(Marked(t), ps) && Fits(t, ps, w)
    decreases t, 0
  {
    match t {
      case Cat(l, r) =>
        var i :| 0 <= i <= |w| && Matches(l, w[..i]) && Matches(r, w[i..]);
        var u := Label(l, w[..i]);
        var v := Label(r, w[i..]);
        ps := u + v;
        assert ps[..i] == u && ps[i..] == v;
        assert Fits(t, u, w[..i]) && Fits(t, v, w[i..]);
        FitsJoin(t, u, v, w, i);
      case Or(l, r) =>
        if Matches(l, w) { ps := Label(l, w); } else { ps := Label(r, w); }
      case Star(s) =>
        var n: nat :| Repeats(s, n, w);
        ps := LabelRepeats(s, n, w);
      case Plus(s) =>
        var n: nat :| n >= 1 && Repeats(s, n, w);
        ps := LabelRepeats(s, n, w);
      case Epsilon =>
        ps := [];
      case Leaf(p, _, _) =>
        ps := [p];
    }
  }

  lemma {:induction false} LabelRepeats(s: Tnode, n: nat, w: Word) returns (ps: seq<nat>)
    requires Linear(s) && Repeats(s, n, w)
    ensures Repeats(Marked(s), n, ps) && Fits(s, ps, w)
    decreases s, n + 1
  {
    if n == 0 {
      ps := [];
    } else {
      var i :| 0 <= i <= |w| && Matches(s, w[..i]) && Repeats(s, n - 1, w[i..]);
      var u := Label(s, w[..i]);
      var v := LabelRepeats(s, n - 1, w[i..]);
      ps := u + v;
      assert ps[..i] == u && ps[i..] == v;
      FitsJoin(s, u, v, w, i);
    }
  }

  /** A word that labels a position word is matched. */
  lemma {:induction false} Unlabel(t: Tnode, ps: seq<nat>, w: Word)
    requires Linear(t) && Matches(Marked(t), ps) && Fits(t, ps, w)
    ensures Matches(t, w)
    decreases t, 0
  {
    match t {
      case Cat(l, r) =>
        var i :| 0 <= i <= |ps| && Matches(Marked(l), ps[..i]) && Matches(Marked(r), ps[i..]);
        FitsCut(t, ps, w, i);
        MatchesInside(l, ps[..i]);
        MatchesInside(r, ps[i..]);
        assert Fits(l, ps[..i], w[..i]) && Fits(r, ps[i..], w[i..]);
        Unlabel(l, ps[..i], w[..i]);
        Unlabel(r, ps[i..], w[i..]);
      case Or(l, r) =>
        if Matches(Marked(l), ps) {
          MatchesInside(l, ps);
          Unlabel(l, ps, w);
        } else {
          MatchesInside(r, ps);
          Unlabel(r, ps, w);
        }
      case Star(s) =>
        var n: nat :| Repeats(Marked(s), n, ps);
        UnlabelRepeats(s, n, ps, w);
      case Plus(s) =>
        var n: nat :| n >= 1 && Repeats(Marked(s), n, ps);
        UnlabelRepeats(s, n, ps, w);
      case Epsilon =>
      case Leaf(p, _, _) =>
    }
  }

  lemma {:induction false} UnlabelRepeats(s: Tnode, n: nat, ps: seq<nat>, w: Word)
    requires Linear(s) && Repeats(Marked(s), n, ps) && Fits(s, ps, w)
    ensures Repeats(s, n, w)
    decreases s, n + 1
  {
    if n > 0 {
      var i :| 0 <= i <= |ps| && Matches(Marked(s), ps[..i]) && Repeats(Marked(s), n - 1, ps[i..]);
      FitsCut(s, ps, w, i);
      Unlabel(s, ps[..i], w[..i]);
      UnlabelRepeats(s, n - 1, ps[i..], w[i..]);
    }
  }

  /** A walk stays among the positions of its tree. */
  lemma MatchesInside(t: Tnode, ps: seq<nat>)
    requires Matches(Marked(t), ps)
    ensures forall k :: 0 <= k < |ps| ==> ps[k] in Positions(t)
  {
    MatchesLocal(t, ps);
    forall k | 0 <= k < |ps|
      ensures ps[k] in Positions(t)
    {
      if k > 0 { FollowsInside(t, ps[k - 1], ps[k]); }
    }
  }

  /** A tree with distinct positions matches exactly the words that label a walk through its
      first, follow and last positions. */
  lemma MatchesWalk(t: Tnode, w: Word)
    requires Linear(t)
    ensures Matches(t, w) <==> exists ps :: Local(t, ps) && Fits(t, ps, w)
  {
    if Matches(t, w) {
      var ps := Label(t, w);
      MatchesLocal(t, ps);
    }
    if ps :| Local(t, ps) && Fits(t, ps, w) {
      LocalMatches(t, ps);
      Unlabel(t, ps, w);
    }
  }
}
