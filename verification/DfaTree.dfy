/** Syntax trees of regular expressions, the words they match, and the position automaton:
  nullable, first, last and follow positions describe exactly the matched words. */
module DfaTree {
  // A leaf with ch0 >= 0 matches the characters ch0..ch1; a leaf with ch0 < 0 ends rule -ch0.
  datatype Tnode =
    | Cat(left: Tnode, right: Tnode)
    | Or(left: Tnode, right: Tnode)
    | Star(sub: Tnode)
    | Plus(sub: Tnode)
    | Epsilon
    | Leaf(pos: nat, ch0: int, ch1: int)

  type Word = seq<int>

  // ---------------------------------------------------------------- meaning

  /** The letter c is what a leaf matches. The end of rule k is read as the letter -k. */
  predicate Reads(t: Tnode, c: int)
    requires t.Leaf?
  {
    if t.ch0 < 0 then c == t.ch0 else t.ch0 <= c <= t.ch1
  }

  /** The tree matches the whole word. */
  ghost predicate Matches(t: Tnode, w: Word)
    decreases t, 0
  {
    match t
    case Cat(l, r) => exists i :: 0 <= i <= |w| && Matches(l, w[..i]) && Matches(r, w[i..])
    case Or(l, r) => Matches(l, w) || Matches(r, w)
    case Star(s) => exists n: nat :: Repeats(s, n, w)
    case Plus(s) => exists n: nat :: n >= 1 && Repeats(s, n, w)
    case Epsilon => w == []
    case Leaf(_, _, _) => |w| == 1 && Reads(t, w[0])
  }

  /** The word is made of n words the tree matches. */
  ghost predicate Repeats(t: Tnode, n: nat, w: Word)
    decreases t, n + 1
  {
    if n == 0 then w == []
    else exists i :: 0 <= i <= |w| && Matches(t, w[..i]) && Repeats(t, n - 1, w[i..])
  }

  // ---------------------------------------------------------------- positions

  function Positions(t: Tnode): set<nat> {
    match t
    case Cat(l, r) => Positions(l) + Positions(r)
    case Or(l, r) => Positions(l) + Positions(r)
    case Star(s) => Positions(s)
    case Plus(s) => Positions(s)
    case Epsilon => {}
    case Leaf(p, _, _) => {p}
  }

  /** No position is used twice. */
  predicate Linear(t: Tnode) {
    match t
    case Cat(l, r) => Linear(l) && Linear(r) && Positions(l) !! Positions(r)
    case Or(l, r) => Linear(l) && Linear(r) && Positions(l) !! Positions(r)
    case Star(s) => Linear(s)
    case Plus(s) => Linear(s)
    case Epsilon => true
    case Leaf(_, _, _) => true
  }

  /** The leaf at a position. */
  function At(t: Tnode, p: nat): (leaf: Tnode)
    requires p in Positions(t)
    ensures leaf.Leaf? && leaf.pos == p
  {
    match t
    case Cat(l, r) => if p in Positions(l) then At(l, p) else At(r, p)
    case Or(l, r) => if p in Positions(l) then At(l, p) else At(r, p)
    case Star(s) => At(s, p)
    case Plus(s) => At(s, p)
    case Leaf(_, _, _) => t
  }

  predicate Nullable(t: Tnode) {
    match t
    case Cat(l, r) => Nullable(l) && Nullable(r)
    case Or(l, r) => Nullable(l) || Nullable(r)
    case Star(_) => true
    case Plus(s) => Nullable(s)
    case Epsilon => true
    case Leaf(_, _, _) => false
  }

  function First(t: Tnode): (r: set<nat>)
    ensures r <= Positions(t)
  {
    match t
    case Cat(l, r) => if Nullable(l) then First(l) + First(r) else First(l)
    case Or(l, r) => First(l) + First(r)
    case Star(s) => First(s)
    case Plus(s) => First(s)
    case Epsilon => {}
    case Leaf(p, _, _) => {p}
  }

  function Last(t: Tnode): (r: set<nat>)
    ensures r <= Positions(t)
  {
    match t
    case Cat(l, r) => if Nullable(r) then Last(l) + Last(r) else Last(r)
    case Or(l, r) => Last(l) + Last(r)
    case Star(s) => Last(s)
    case Plus(s) => Last(s)
    case Epsilon => {}
    case Leaf(p, _, _) => {p}
  }

  /** Position q can come right after position p. */
  predicate Follows(t: Tnode, p: nat, q: nat) {
    match t
    case Cat(l, r) => Follows(l, p, q) || Follows(r, p, q) || (p in Last(l) && q in First(r))
    case Or(l, r) => Follows(l, p, q) || Follows(r, p, q)
    case Star(s) => Follows(s, p, q) || (p in Last(s) && q in First(s))
    case Plus(s) => Follows(s, p, q) || (p in Last(s) && q in First(s))
    case Epsilon => false
    case Leaf(_, _, _) => false
  }

  lemma {:induction false} FollowsInside(t: Tnode, p: nat, q: nat)
    requires Follows(t, p, q)
    ensures p in Positions(t) && q in Positions(t)
  {
    match t {
      case Cat(l, r) =>
        if Follows(l, p, q) { FollowsInside(l, p, q); } else if Follows(r, p, q) { FollowsInside(r, p, q); }
      case Or(l, r) =>
        if Follows(l, p, q) { FollowsInside(l, p, q); } else { FollowsInside(r, p, q); }
      case Star(s) => if Follows(s, p, q) { FollowsInside(s, p, q); }
      case Plus(s) => if Follows(s, p, q) { FollowsInside(s, p, q); }
    }
  }

  lemma {:induction false} NullableEmpty(t: Tnode)
    ensures Nullable(t) <==> Matches(t, [])
  {
    match t {
      case Cat(l, r) =>
        NullableEmpty(l);
        NullableEmpty(r);
        var w: Word := [];
        assert w[..0] == [] && w[0..] == [];
        assert Matches(l, []) && Matches(r, []) ==> Matches(l, w[..0]) && Matches(r, w[0..]);
      case Or(l, r) =>
        NullableEmpty(l);
        NullableEmpty(r);
      case Star(s) =>
        assert Repeats(s, 0, []);
      case Plus(s) =>
        NullableEmpty(s);
        EmptyRepeats(s);
      case Epsilon =>
      case Leaf(_, _, _) =>
    }
  }

  lemma EmptyRepeats(s: Tnode)
    ensures (exists n: nat :: n >= 1 && Repeats(s, n, [])) <==> Matches(s, [])
  {
    var w: Word := [];
    if n: nat :| n >= 1 && Repeats(s, n, w) {
      var i :| 0 <= i <= |w| && Matches(s, w[..i]) && Repeats(s, n - 1, w[i..]);
      assert w[..i] == [];
    }
    if Matches(s, w) {
      assert w[..0] == [] && w[0..] == [];
      assert Repeats(s, 0, w[0..]);
      assert Repeats(s, 1, w);
    }
  }
}
