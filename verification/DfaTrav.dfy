/** Filling in the position automaton of a syntax tree: which subtrees match the empty word,
  the first and last positions of each, and the positions that can follow each position. */
module DfaTrav {
  import opened DfaTree
  import opened DfaSet
  import DfaPosition

  type Sets = map<nat, seq<int>>

  /** The sequence lists the positions of the set, all at most most. */
  ghost predicate Lists(s: seq<int>, ps: set<nat>) {
    && (forall p: nat :: p in s <==> p in ps)
    && (forall x: int :: x in s ==> x >= 0)
  }

  ghost predicate InRange(s: seq<int>, most: nat) {
    forall x: int :: x in s ==> 1 <= x <= most
  }

  function Handle(h: nat): set<nat> {
    if h == 0 then {} else {h}
  }

  /** The sets in live and those named in f are in use, and no set is named twice. */
  ghost predicate Owns(sets: Sets, f: seq<nat>, live: set<nat>) {
    && 0 !in sets
    && (forall h :: h in live ==> h in sets)
    && (forall i :: 0 <= i < |f| ==> f[i] !in live && (f[i] != 0 ==> f[i] in sets))
    && (forall i, j :: 0 <= i < j < |f| && f[i] != 0 ==> f[i] != f[j])
  }

  ghost predicate Kept(sets0: Sets, sets1: Sets, live: set<nat>) {
    forall h :: h in live && h in sets0 ==> h in sets1 && sets1[h] == sets0[h]
  }

  ghost predicate SameFollow(sets0: Sets, sets1: Sets, f: seq<nat>) {
    forall i :: 0 <= i < |f| ==> Elems(sets1, f[i]) == Elems(sets0, f[i])
  }

  ghost predicate Bounded(sets: Sets, most: nat) {
    forall h :: h in sets ==> InRange(sets[h], most)
  }

  /** The set s gives way to a set r holding m. */
  lemma Swap(sets: Sets, f: seq<nat>, live: set<nat>, s: nat, r: nat, m: seq<int>)
    requires Owns(sets, f, live) && (s == 0 || s in live) && r !in sets - {s} && (m == [] <==> r == 0)
    ensures var sets' := Put(sets - {s}, r, m);
      && Owns(sets', f, live - {s} + Handle(r)) && Kept(sets, sets', live - {s}) && SameFollow(sets, sets', f)
      && Elems(sets', r) == m && r !in live - {s}
  {
  }

  /** The set named f[v] gives way to a set r holding m. */
  lemma SwapFollow(sets: Sets, f: seq<nat>, live: set<nat>, v: nat, r: nat, m: seq<int>)
    requires Owns(sets, f, live) && v < |f| && r !in sets - {f[v]} && (m == [] <==> r == 0)
    ensures var sets', f' := Put(sets - {f[v]}, r, m), f[v := r];
      && Owns(sets', f', live) && Kept(sets, sets', live)
      && (forall i :: 0 <= i < |f| ==> Elems(sets', f'[i]) == if i == v then m else Elems(sets, f[i]))
  {
  }

  lemma PutBounded(sets: Sets, s: nat, r: nat, m: seq<int>, most: nat)
    requires Bounded(sets, most) && InRange(m, most)
    ensures Bounded(Put(sets - {s}, r, m), most)
  {
  }

  /** The follow sets, as sequences. */
  ghost function View(sets: Sets, f: seq<nat>): seq<seq<int>> {
    seq(|f|, i requires 0 <= i < |f| => Elems(sets, f[i]))
  }

  /** Each follow set has gained the positions that follow its own in t. */
  ghost predicate Filled(v0: seq<seq<int>>, v1: seq<seq<int>>, t: Tnode) {
    && |v1| == |v0|
    && (forall p: nat :: p < |v0| ==> Gained(v0[p], v1[p], t, p))
  }

  ghost predicate Gained(s0: seq<int>, s1: seq<int>, t: Tnode, p: nat) {
    forall x: int :: x in s1 <==> x in s0 || (x >= 0 && Follows(t, p, x))
  }

  predicate Within(t: Tnode, most: nat) {
    forall p :: p in Positions(t) ==> 1 <= p <= most
  }

  /** The handles the traversal of a subtree returns. */
  ghost predicate Computed(sets: Sets, live: set<nat>, t: Tnode, nullable: bool, firstpos: nat, lastpos: nat) {
    && nullable == Nullable(t)
    && Lists(Elems(sets, firstpos), First(t)) && Lists(Elems(sets, lastpos), Last(t))
    && firstpos !in live && lastpos !in live && (firstpos != lastpos || firstpos == 0)
  }

  ghost predicate Leaves(posar0: seq<Tnode>, posar1: seq<Tnode>, t: Tnode) {
    && |posar1| == |posar0|
    && (forall p: nat :: p < |posar0| ==> posar1[p] == if p in Positions(t) then At(t, p) else posar0[p])
  }

  class DfaParse {
    const position: nat
    const pool: SetPool
    const followpos: array<nat>
    const posar: array<Tnode>

    ghost predicate Ready(live: set<nat>)
      reads this, pool, followpos
    {
      && pool.Valid() && pool.chunk > 8 && followpos.Length == position + 1 && posar.Length == position + 1
      && Owns(pool.sets, followpos[..], live) && Bounded(pool.sets, position)
    }

    constructor (position: nat)
      ensures Ready({}) && this.position == position && fresh(pool) && fresh(followpos) && fresh(posar)
      ensures forall p :: 0 <= p <= position ==> Elems(pool.sets, followpos[p]) == []
    {
      this.position := position;
      pool := new SetPool(100);
      followpos := new nat[position + 1](_ => 0);
      posar := new Tnode[position + 1](_ => Epsilon);
      new;
      assert forall i :: 0 <= i < |followpos[..]| ==> followpos[..][i] == 0;
    }

    lemma Parts(live: set<nat>, s: nat)
      requires Ready(live) && (s == 0 || s in live)
      ensures pool.Valid() && pool.IsSet(s) && Owns(pool.sets, followpos[..], live) && Bounded(pool.sets, position)
      ensures pool.chunk > 8
      ensures pool.Get(s) == Elems(pool.sets, s) && Ascending(Elems(pool.sets, s))
      ensures followpos.Length == position + 1 && posar.Length == position + 1
    {
      hide Rep;
      pool.GetAscending(s);
    }

    lemma Whole(live: set<nat>)
      requires pool.Valid() && pool.chunk > 8 && Owns(pool.sets, followpos[..], live) && Bounded(pool.sets, position)
      requires followpos.Length == position + 1 && posar.Length == position + 1
      ensures Ready(live)
    {
    }

    /** Adds the elements of b to a. */
    method UnionLive(a: nat, b: nat, ghost live: set<nat>) returns (r: nat)
      requires Ready(live) && (a == 0 || a in live) && (b == 0 || b in live) && (a != b || a == 0)
      modifies pool
      ensures Ready(live - {a} + Handle(r)) && r !in live - {a}
      ensures Kept(old(pool.sets), pool.sets, live - {a}) && SameFollow(old(pool.sets), pool.sets, followpos[..])
      ensures Joins(Elems(pool.sets, r), Elems(old(pool.sets), a), Elems(old(pool.sets), b))
    {
      hide *;
      Parts(live, a);
      Parts(live, b);
      ghost var sets0, m := pool.sets, Merge(Elems(pool.sets, a), Elems(pool.sets, b));
      r := pool.UnionSet(a, b);
      MergeUnion(Elems(sets0, a), Elems(sets0, b));
      UnionValues(sets0, followpos[..], live, a, b, r, m, position);
      Whole(live - {a} + Handle(r));
    }

    /** The union of a and, when asked for, b, in a new set. */
    method Join(a: nat, b: nat, both: bool, ghost live: set<nat>) returns (r: nat)
      requires Ready(live) && (a == 0 || a in live) && (b == 0 || b in live)
      modifies pool
      ensures Ready(live + Handle(r)) && r !in live
      ensures Kept(old(pool.sets), pool.sets, live) && SameFollow(old(pool.sets), pool.sets, followpos[..])
      ensures JoinIf(Elems(pool.sets, r), Elems(old(pool.sets), a), Elems(old(pool.sets), b), both)
    {
      hide *;
      Parts(live, a);
      Parts(live, b);
      ghost var sets0, f := pool.sets, followpos[..];
      LiveZero(sets0, f, live);
      r := UnionLive(0, a, live);
      ghost var sets1, r1 := pool.sets, r;
      JoinNext(live, r);
      if both {
        r := UnionLive(r, b, live + Handle(r));
        JoinLive(live, r1, r);
      }
      JoinValues(sets0, sets1, pool.sets, f, live, a, b, r1, r, both);
    }

    lemma JoinNext(live: set<nat>, r: nat)
      requires Ready(live + Handle(r))
      ensures (r == 0 || r in live + Handle(r)) && 0 !in pool.sets
      ensures forall b :: b in live ==> b in live + Handle(r)
    {
    }

    /** Another set is named by the handle of a leaf's positions. */
    method Single(p: nat, ghost live: set<nat>) returns (r: nat)
      requires Ready(live) && 1 <= p <= position
      modifies pool
      ensures Ready(live + Handle(r)) && r !in live
      ensures Kept(old(pool.sets), pool.sets, live) && SameFollow(old(pool.sets), pool.sets, followpos[..])
      ensures forall x: int :: x in Elems(pool.sets, r) <==> x == p
    {
      hide *;
      Parts(live, 0);
      ghost var sets0, f := pool.sets, followpos[..];
      LiveZero(sets0, f, live);
      r := pool.AddSet(0, p);
      SingleValues(sets0, f, live, r, p, position);
      Whole(live + Handle(r));
    }

    /** Gives up a set. */
    method Drop(a: nat, ghost live: set<nat>)
      requires Ready(live) && (a == 0 || a in live)
      modifies pool
      ensures Ready(live - {a})
      ensures Kept(old(pool.sets), pool.sets, live - {a}) && SameFollow(old(pool.sets), pool.sets, followpos[..])
    {
      hide *;
      Parts(live, a);
      ghost var sets0, f := pool.sets, followpos[..];
      pool.RmSet(a);
      DropValues(sets0, f, live, a, position);
      Whole(live - {a});
    }

    /** Adds the set firstpos to the positions that follow v. */
    method AddFollowAt(v: nat, firstpos: nat, ghost live: set<nat>)
      requires Ready(live) && (firstpos == 0 || firstpos in live) && v <= position
      modifies pool, followpos
      ensures Ready(live) && Kept(old(pool.sets), pool.sets, live) && Kept1(old(pool.lists), pool.lists, live)
      ensures FollowAdded(old(pool.sets), old(followpos[..]), pool.sets, followpos[..], [v],
                          Elems(old(pool.sets), firstpos))
    {
      hide *;
      Parts(live, firstpos);
      ghost var sets0, f0 := pool.sets, followpos[..];
      FollowParts(live, v, firstpos);
      var s := followpos[v];
      ghost var m := Merge(Elems(sets0, s), Elems(sets0, firstpos));
      ghost var lists0 := pool.lists;
      var r := pool.UnionSet(s, firstpos);
      assert f0[v] == s;
      ListsKept(lists0, pool.lists, s, live, sets0, f0, v);
      followpos[v] := r;
      assert followpos[..] == f0[v := r];
      FollowValues(sets0, f0, live, v, r, m, firstpos, position);
      Whole(live);
    }

    lemma FollowParts(live: set<nat>, v: nat, firstpos: nat)
      requires Ready(live) && (firstpos == 0 || firstpos in live) && v <= position
      ensures followpos.Length == position + 1 && pool.IsSet(followpos[v])
      ensures (followpos[v] != firstpos || firstpos == 0)
      ensures pool.Get(followpos[v]) == Elems(pool.sets, followpos[v])
      ensures Joins(Merge(Elems(pool.sets, followpos[v]), Elems(pool.sets, firstpos)), Elems(pool.sets, followpos[v]),
                    Elems(pool.sets, firstpos))
    {
      Parts(live, firstpos);
      hide Rep;
      assert followpos[..][v] == followpos[v];
      pool.GetAscending(followpos[v]);
      MergeUnion(Elems(pool.sets, followpos[v]), Elems(pool.sets, firstpos));
    }

    /** Each position in lastpos can be followed by those in firstpos. */
    method AddFollow(lastpos: nat, firstpos: nat, ghost live: set<nat>)
      requires Ready(live) && (lastpos == 0 || lastpos in live) && (firstpos == 0 || firstpos in live)
      modifies pool, followpos
      ensures Ready(live) && Kept(old(pool.sets), pool.sets, live)
      ensures FollowAdded(old(pool.sets), old(followpos[..]), pool.sets, followpos[..], Elems(old(pool.sets), lastpos),
                          Elems(old(pool.sets), firstpos))
    {
      hide *;
      ghost var sets0, f0 := pool.sets, followpos[..];
      ghost var lp, fp := Elems(sets0, lastpos), Elems(sets0, firstpos);
      var c := lastpos;
      ghost var j := 0;
      Parts(live, lastpos);
      pool.ReadStart(lastpos);
      NoneAdded(sets0, f0, fp, live);
      assert lp[..0] == [];
      while c != 0
        invariant Ready(live) && Kept(sets0, pool.sets, live)
        invariant j <= |lp| && Cursor(pool.lists, pool.sets, lastpos, j, c)
        invariant Elems(pool.sets, lastpos) == lp && Elems(pool.sets, firstpos) == fp
        invariant FollowAdded(sets0, f0, pool.sets, followpos[..], lp[..j], fp)
        decreases |lp| - j
      {
        Parts(live, lastpos);
        pool.ReadStart(lastpos);
        pool.CursorEnd([], lastpos, j, c);
        ElementIn(pool.sets, lastpos, j, position);
        ghost var lists1, sets1, f1 := pool.lists, pool.sets, followpos[..];
        AddFollowAt(pool.value[c], firstpos, live);
        Parts(live, lastpos);
        CursorKept(lists1, sets1, f1, pool.lists, pool.sets, followpos[..], live, lastpos, firstpos, j, c);
        Parts(live, lastpos);
        pool.ReadStart(lastpos);
        pool.CursorEnd([], lastpos, j, c);
        AddedMore(sets0, f0, sets1, f1, pool.sets, followpos[..], lp, j, fp);
        KeptTrans(sets0, sets1, pool.sets, live);
        c, j := pool.next[c], j + 1;
      }
      Parts(live, lastpos);
      pool.ReadStart(lastpos);
      pool.CursorEnd([], lastpos, j, c);
      assert lp[..j] == lp;
    }

    method DropFour(a: nat, b: nat, c: nat, e: nat, ghost keep: set<nat>, ghost live: set<nat>)
      requires Ready(live) && (a == 0 || a in live) && (b == 0 || b in live) && (c == 0 || c in live)
      requires (e == 0 || e in live)
      requires (a == 0 || (a != b && a != c && a != e)) && (b == 0 || (b != c && b != e)) && (c == 0 || c != e)
      requires keep <= live - {a, b, c, e}
      modifies pool
      ensures Ready(keep) && Kept(old(pool.sets), pool.sets, keep)
      ensures View(pool.sets, followpos[..]) == old(View(pool.sets, followpos[..]))
    {
      hide Ready, Owns, View, Elems;
      ghost var sets0 := pool.sets;
      Drop(a, live);
      ghost var sets1 := pool.sets;
      Drop(b, live - {a});
      ghost var sets2 := pool.sets;
      Drop(c, live - {a} - {b});
      ghost var sets3 := pool.sets;
      Drop(e, live - {a} - {b} - {c});
      ViewSame(sets0, sets1, followpos[..]);
      ViewSame(sets1, sets2, followpos[..]);
      ViewSame(sets2, sets3, followpos[..]);
      ViewSame(sets3, pool.sets, followpos[..]);
      Fewer(live - {a} - {b} - {c} - {e}, keep);
    }

    /** Fills in the sets of a subtree; its first and last positions come back as new sets. */
    method Trav(n: Tnode, ghost live: set<nat>) returns (nullable: bool, firstpos: nat, lastpos: nat)
      requires Ready(live) && Linear(n) && Within(n, position)
      modifies pool, followpos, posar
      ensures Ready(live + Handle(firstpos) + Handle(lastpos)) && Kept(old(pool.sets), pool.sets, live)
      ensures Computed(pool.sets, live, n, nullable, firstpos, lastpos)
      ensures Filled(old(View(pool.sets, followpos[..])), View(pool.sets, followpos[..]), n)
      ensures Leaves(old(posar[..]), posar[..], n)
      decreases n, 2
    {
      hide *;
      SubLinear(n, position);
      match n {
        case Cat(l, r) =>
          nullable, firstpos, lastpos := TravCat(l, r, live);
        case Or(l, r) =>
          nullable, firstpos, lastpos := TravOr(l, r, live);
        case Star(s) =>
          nullable, firstpos, lastpos := TravLoop(n, s, live);
          LoopNode(n, s, pool.sets, live, nullable, true, firstpos, lastpos);
          nullable := true;
        case Plus(s) =>
          nullable, firstpos, lastpos := TravLoop(n, s, live);
          LoopNode(n, s, pool.sets, live, nullable, nullable, firstpos, lastpos);
        case Epsilon =>
          nullable, firstpos, lastpos := true, 0, 0;
          EpsilonNode(live);
        case Leaf(p, _, _) =>
          nullable, firstpos, lastpos := TravLeaf(n, live);
      }
    }

    lemma EpsilonNode(live: set<nat>)
      requires Ready(live)
      ensures Ready(live + Handle(0) + Handle(0)) && Kept(pool.sets, pool.sets, live)
      ensures Computed(pool.sets, live, Epsilon, true, 0, 0)
      ensures Filled(View(pool.sets, followpos[..]), View(pool.sets, followpos[..]), Epsilon)
      ensures Leaves(posar[..], posar[..], Epsilon)
    {
      LiveZero(pool.sets, followpos[..], live);
      assert live + Handle(0) + Handle(0) == live && First(Epsilon) == {} && Last(Epsilon) == {};
      assert Lists(Elems(pool.sets, 0), {});
      FilledSame(View(pool.sets, followpos[..]), Epsilon);
    }

    method TravLeaf(n: Tnode, ghost live: set<nat>) returns (nullable: bool, firstpos: nat, lastpos: nat)
      requires Ready(live) && n.Leaf? && Within(n, position)
      modifies pool, posar
      ensures Ready(live + Handle(firstpos) + Handle(lastpos)) && Kept(old(pool.sets), pool.sets, live)
      ensures Computed(pool.sets, live, n, nullable, firstpos, lastpos)
      ensures Filled(old(View(pool.sets, followpos[..])), View(pool.sets, followpos[..]), n)
      ensures Leaves(old(posar[..]), posar[..], n)
    {
      hide *;
      LeafStart(n, live);
      ghost var sets0, posar0 := pool.sets, posar[..];
      posar[n.pos] := n;
      nullable := false;
      firstpos := Single(n.pos, live);
      ghost var sets1 := pool.sets;
      NoZero(live + Handle(firstpos));
      lastpos := Single(n.pos, live + Handle(firstpos));
      NoZero(live + Handle(firstpos) + Handle(lastpos));
      assert posar[..] == posar0[n.pos := n];
      LeafNode(n, sets0, sets1, pool.sets, followpos[..], live, firstpos, lastpos);
      LeafLeaves(n, posar0);
    }

    lemma HandleFacts(live: set<nat>, a: nat, b: nat)
      requires Ready(live + Handle(a) + Handle(b))
      ensures 0 !in pool.sets && (a != 0 ==> a in pool.sets) && (b != 0 ==> b in pool.sets)
      ensures (a == 0 || a in live + Handle(a) + Handle(b)) && (b == 0 || b in live + Handle(a) + Handle(b))
      ensures live <= live + Handle(a) + Handle(b)
    {
    }

    lemma NoZero(live: set<nat>)
      requires Ready(live)
      ensures 0 !in pool.sets && 0 !in live
    {
    }

    lemma LeafStart(n: Tnode, live: set<nat>)
      requires Ready(live) && n.Leaf? && Within(n, position)
      ensures 1 <= n.pos <= position && n.pos < posar.Length
    {
      assert n.pos in Positions(n);
    }

    method TravLoop(n: Tnode, s: Tnode, ghost live: set<nat>) returns (nullable: bool, firstpos: nat, lastpos: nat)
      requires Ready(live) && Linear(s) && Within(s, position) && (n == Star(s) || n == Plus(s))
      modifies pool, followpos, posar
      ensures Ready(live + Handle(firstpos) + Handle(lastpos)) && Kept(old(pool.sets), pool.sets, live)
      ensures Computed(pool.sets, live, s, nullable, firstpos, lastpos)
      ensures Filled(old(View(pool.sets, followpos[..])), View(pool.sets, followpos[..]), n)
      ensures Leaves(old(posar[..]), posar[..], n)
      decreases n, 0
    {
      hide *;
      ghost var sets0, v0 := pool.sets, View(pool.sets, followpos[..]);
      nullable, firstpos, lastpos := Trav(s, live);
      ghost var sets1, v1, f1, live1 := pool.sets, View(pool.sets, followpos[..]), followpos[..],
        live + Handle(firstpos) + Handle(lastpos);
      HandleFacts(live, firstpos, lastpos);
      AddFollow(lastpos, firstpos, live1);
      HandleFacts(live, firstpos, lastpos);
      LoopFilled(n, s, v0, v1, sets1, f1, pool.sets, followpos[..], live, firstpos, lastpos, nullable, old(posar[..]),
                 posar[..]);
      KeptLive(sets0, sets1, pool.sets, live, live1);
    }

    /** Traverses both parts of a node. */
    method TravBoth(ghost n: Tnode, l: Tnode, r: Tnode, ghost live: set<nat>)
      returns (nl: bool, fl: nat, ll: nat, nr: bool, fr: nat, lr: nat)
      requires Ready(live) && Linear(l) && Linear(r) && Within(l, position) && Within(r, position)
      requires Positions(l) !! Positions(r) && (n == Cat(l, r) || n == Or(l, r))
      modifies pool, followpos, posar
      ensures Ready(Four(live, fl, ll, fr, lr)) && Kept(old(pool.sets), pool.sets, live)
      ensures Computed(pool.sets, live, l, nl, fl, ll)
      ensures Computed(pool.sets, live + Handle(fl) + Handle(ll), r, nr, fr, lr)
      ensures FilledBoth(old(View(pool.sets, followpos[..])), View(pool.sets, followpos[..]), l, r)
      ensures LeavesBoth(old(posar[..]), posar[..], l, r)
      decreases n, 0
    {
      hide *;
      ghost var sets0, v0, posar0 := pool.sets, View(pool.sets, followpos[..]), posar[..];
      nl, fl, ll := Trav(l, live);
      ghost var sets1, v1, posar1 := pool.sets, View(pool.sets, followpos[..]), posar[..];
      HandleFacts(live, fl, ll);
      nr, fr, lr := Trav(r, live + Handle(fl) + Handle(ll));
      HandleFacts(live + Handle(fl) + Handle(ll), fr, lr);
      KeptLive(sets0, sets1, pool.sets, live, live + Handle(fl) + Handle(ll));
      ComputedKept(sets1, pool.sets, live, l, nl, fl, ll);
      FilledTwice(v0, v1, View(pool.sets, followpos[..]), l, r);
      LeavesTwice(posar0, posar1, posar[..], l, r);
      FourIs(live, fl, ll, fr, lr);
    }

    /** The union of two sets in a new set. */
    method MergeLive(a: nat, b: nat, ghost live: set<nat>) returns (r: nat)
      requires Ready(live) && (a == 0 || a in live) && (b == 0 || b in live)
      modifies pool
      ensures Ready(live + Handle(r)) && r !in live
      ensures Kept(old(pool.sets), pool.sets, live) && SameFollow(old(pool.sets), pool.sets, followpos[..])
      ensures Joins(Elems(pool.sets, r), Elems(old(pool.sets), a), Elems(old(pool.sets), b))
    {
      hide *;
      Parts(live, a);
      Parts(live, b);
      ghost var sets0, m := pool.sets, Merge(Elems(pool.sets, a), Elems(pool.sets, b));
      LiveZero(sets0, followpos[..], live);
      r := pool.MergeSet(a, b);
      MergeUnion(Elems(sets0, a), Elems(sets0, b));
      MergeValues(sets0, followpos[..], live, a, b, r, m, position);
      Whole(live + Handle(r));
    }

    method TravOr(l: Tnode, r: Tnode, ghost live: set<nat>) returns (nullable: bool, firstpos: nat, lastpos: nat)
      requires Ready(live) && Linear(Or(l, r)) && Within(Or(l, r), position)
      modifies pool, followpos, posar
      ensures Ready(live + Handle(firstpos) + Handle(lastpos)) && Kept(old(pool.sets), pool.sets, live)
      ensures Computed(pool.sets, live, Or(l, r), nullable, firstpos, lastpos)
      ensures Filled(old(View(pool.sets, followpos[..])), View(pool.sets, followpos[..]), Or(l, r))
      ensures Leaves(old(posar[..]), posar[..], Or(l, r))
      decreases Or(l, r), 1
    {
      hide *;
      SubLinear(Or(l, r), position);
      var nl, fl, ll, nr, fr, lr;
      ghost var sets0, v0, posar0 := pool.sets, View(pool.sets, followpos[..]), posar[..];
      nl, fl, ll, nr, fr, lr := TravBoth(Or(l, r), l, r, live);
      ghost var sets1, live1, f := pool.sets, Four(live, fl, ll, fr, lr), followpos[..];
      FourFacts(live, fl, ll, fr, lr);
      nullable := nl || nr;
      firstpos := MergeLive(fl, fr, live1);
      ghost var sets2 := pool.sets;
      Parted(live1, firstpos, ll, lr);
      lastpos := MergeLive(ll, lr, live1 + Handle(firstpos));
      ghost var sets3 := pool.sets;
      Parted(live1 + Handle(firstpos), lastpos, 0, 0);
      ViewSame(sets1, sets2, f);
      ViewSame(sets2, sets3, f);
      Disjoint(sets1, live, l, r, nl, fl, ll, nr, fr, lr, firstpos, lastpos);
      DropFour(fl, ll, fr, lr, live + Handle(firstpos) + Handle(lastpos), live1 + Handle(firstpos) + Handle(lastpos));
      NoZero(live + Handle(firstpos) + Handle(lastpos));
      OrNode(v0, View(pool.sets, followpos[..]), posar0, posar[..], l, r);
      JoinsIf(sets1, sets2, sets3, fl, fr, firstpos, ll, lr, lastpos);
      NodeSets(l, r, sets1, live, nl, fl, ll, nr, fr, lr);
      NodeDone(Or(l, r), l, r, sets1, sets2, sets3, pool.sets, live, nl, fl, ll, nr, fr, lr, true, firstpos, true,
               lastpos, nullable);
      NodeKept(sets0, sets1, sets2, sets3, pool.sets, live, live1, Handle(firstpos), Handle(lastpos));
    }

    method TravCat(l: Tnode, r: Tnode, ghost live: set<nat>) returns (nullable: bool, firstpos: nat, lastpos: nat)
      requires Ready(live) && Linear(Cat(l, r)) && Within(Cat(l, r), position)
      modifies pool, followpos, posar
      ensures Ready(live + Handle(firstpos) + Handle(lastpos)) && Kept(old(pool.sets), pool.sets, live)
      ensures Computed(pool.sets, live, Cat(l, r), nullable, firstpos, lastpos)
      ensures Filled(old(View(pool.sets, followpos[..])), View(pool.sets, followpos[..]), Cat(l, r))
      ensures Leaves(old(posar[..]), posar[..], Cat(l, r))
      decreases Cat(l, r), 1
    {
      hide *;
      SubLinear(Cat(l, r), position);
      var nl, fl, ll, nr, fr, lr;
      ghost var sets0, v0, posar0 := pool.sets, View(pool.sets, followpos[..]), posar[..];
      nl, fl, ll, nr, fr, lr := TravBoth(Cat(l, r), l, r, live);
      ghost var sets1, live1, f := pool.sets, Four(live, fl, ll, fr, lr), followpos[..];
      FourFacts(live, fl, ll, fr, lr);
      nullable := nl && nr;
      firstpos := Join(fl, fr, nl, live1);
      ghost var sets2 := pool.sets;
      Parted(live1, firstpos, ll, lr);
      lastpos := Join(lr, ll, nr, live1 + Handle(firstpos));
      ghost var sets3, live3 := pool.sets, live1 + Handle(firstpos) + Handle(lastpos);
      Parted(live1 + Handle(firstpos), lastpos, 0, 0);
      ViewSame(sets1, sets2, f);
      ViewSame(sets2, sets3, f);
      Disjoint(sets1, live, l, r, nl, fl, ll, nr, fr, lr, firstpos, lastpos);
      KeptLive(sets1, sets2, sets3, live1, live1 + Handle(firstpos));
      CatLists(sets1, sets3, live1, live, l, r, nl, fl, ll, nr, fr, lr);
      AddFollow(ll, fr, live3);
      ghost var sets4, v4 := pool.sets, View(pool.sets, followpos[..]);
      AddedFilled(sets3, f, sets4, followpos[..], Elems(sets3, ll), Elems(sets3, fr), l, r);
      DropFour(fl, ll, fr, lr, live + Handle(firstpos) + Handle(lastpos), live3);
      NoZero(live + Handle(firstpos) + Handle(lastpos));
      SizeView(sets3, f);
      CatNode(v0, View(sets3, f), v4, posar0, posar[..], l, r);
      NodeSets(l, r, sets1, live, nl, fl, ll, nr, fr, lr);
      FewerKept(sets3, sets4, pool.sets, live, live1, Handle(firstpos), Handle(lastpos));
      NodeDone(Cat(l, r), l, r, sets1, sets2, sets3, pool.sets, live, nl, fl, ll, nr, fr, lr, nl, firstpos, nr, lastpos,
               nullable);
      NodeKept(sets0, sets1, sets2, sets3, pool.sets, live, live1, Handle(firstpos), Handle(lastpos));
    }

    lemma FourFacts(live: set<nat>, fl: nat, ll: nat, fr: nat, lr: nat)
      requires Ready(Four(live, fl, ll, fr, lr))
      ensures var all := Four(live, fl, ll, fr, lr);
        && (fl == 0 || fl in all) && (ll == 0 || ll in all) && (fr == 0 || fr in all) && (lr == 0 || lr in all)
        && live <= all
        && 0 !in pool.sets && (forall h :: h in all ==> h in pool.sets)
    {
    }

    lemma Parted(live: set<nat>, firstpos: nat, a: nat, b: nat)
      requires Ready(live + Handle(firstpos)) && (a == 0 || a in live) && (b == 0 || b in live)
      ensures (a == 0 || a in live + Handle(firstpos)) && (b == 0 || b in live + Handle(firstpos)) && 0 !in pool.sets
      ensures firstpos != 0 ==> firstpos in pool.sets
    {
    }

    lemma Fewer(live: set<nat>, keep: set<nat>)
      requires Ready(live) && keep <= live
      ensures Ready(keep)
    {
    }
  }

  lemma LoopNode(n: Tnode, s: Tnode, sets: Sets, live: set<nat>, inner: bool, nullable: bool, firstpos: nat,
                 lastpos: nat)
    requires (n == Star(s) && nullable) || (n == Plus(s) && nullable == inner)
    requires Computed(sets, live, s, inner, firstpos, lastpos)
    ensures Computed(sets, live, n, nullable, firstpos, lastpos)
  {
  }

  lemma SubLinear(n: Tnode, most: nat)
    requires Linear(n) && Within(n, most)
    ensures n.Cat? || n.Or? ==> Linear(n.left) && Linear(n.right) && Within(n.left, most) && Within(n.right, most)
    ensures n.Cat? || n.Or? ==> Positions(n.left) !! Positions(n.right)
    ensures n.Star? || n.Plus? ==> Linear(n.sub) && Within(n.sub, most)
  {
    if n.Cat? || n.Or? {
      forall p | p in Positions(n.left) || p in Positions(n.right)
        ensures p in Positions(n)
      {
      }
    } else if n.Star? || n.Plus? {
      forall p | p in Positions(n.sub)
        ensures p in Positions(n)
      {
      }
    }
  }

  lemma FilledSame(v: seq<seq<int>>, t: Tnode)
    requires t.Epsilon? || t.Leaf?
    ensures Filled(v, v, t)
  {
    forall p: nat | p < |v|
      ensures Gained(v[p], v[p], t, p)
    {
    }
  }

  lemma LeafNode(n: Tnode, sets0: Sets, sets1: Sets, sets2: Sets, f: seq<nat>, live: set<nat>, a: nat, b: nat)
    requires n.Leaf? && n.pos >= 1 && a !in live && b !in live + Handle(a)
    requires Kept(sets0, sets1, live) && Kept(sets1, sets2, live + Handle(a)) && SameFollow(sets0, sets1, f)
    requires SameFollow(sets1, sets2, f)
    requires forall x: int :: x in Elems(sets1, a) <==> x == n.pos
    requires forall x: int :: x in Elems(sets2, b) <==> x == n.pos
    requires 0 !in sets1 && 0 !in sets2
    ensures Kept(sets0, sets2, live) && Computed(sets2, live, n, false, a, b)
    ensures Filled(View(sets0, f), View(sets2, f), n)
  {
    assert n.pos in Elems(sets1, a) && n.pos in Elems(sets2, b);
    ViewSame(sets0, sets1, f);
    ViewSame(sets1, sets2, f);
    FilledSame(View(sets0, f), n);
  }

  lemma LeafLeaves(n: Tnode, posar: seq<Tnode>)
    requires n.Leaf? && n.pos < |posar|
    ensures Leaves(posar, posar[n.pos := n], n)
  {
  }

  lemma KeptLive(sets0: Sets, sets1: Sets, sets2: Sets, live: set<nat>, live1: set<nat>)
    requires Kept(sets0, sets1, live) && Kept(sets1, sets2, live1) && live <= live1
    ensures Kept(sets0, sets2, live)
  {
  }

  /** A repetition adds: its first positions follow its last ones. */
  lemma LoopFilled(n: Tnode, s: Tnode, v0: seq<seq<int>>, v1: seq<seq<int>>, sets1: Sets, f1: seq<nat>, sets2: Sets,
                   f2: seq<nat>, live: set<nat>, a: nat, b: nat, nullable: bool, posar0: seq<Tnode>, posar1: seq<Tnode>)
    requires (n == Star(s) || n == Plus(s)) && Filled(v0, v1, s) && v1 == View(sets1, f1) && Leaves(posar0, posar1, s)
    requires Computed(sets1, live, s, nullable, a, b) && Kept(sets1, sets2, live + Handle(a) + Handle(b))
    requires 0 !in sets1 && 0 !in sets2 && (a != 0 ==> a in sets1) && (b != 0 ==> b in sets1)
    requires FollowAdded(sets1, f1, sets2, f2, Elems(sets1, b), Elems(sets1, a))
    ensures Filled(v0, View(sets2, f2), n) && Computed(sets2, live, s, nullable, a, b) && Leaves(posar0, posar1, n)
  {
    AddedFilled(sets1, f1, sets2, f2, Elems(sets1, b), Elems(sets1, a), s, s);
    forall p: nat | p < |v0|
      ensures Gained(v0[p], View(sets2, f2)[p], n, p)
    {
      assert Gained(v0[p], v1[p], s, p);
    }
    assert Elems(sets2, a) == Elems(sets1, a) && Elems(sets2, b) == Elems(sets1, b);
  }

  /** After add_follow, the first positions of r follow the last positions of l. */
  lemma AddedFilled(sets1: Sets, f1: seq<nat>, sets2: Sets, f2: seq<nat>, lp: seq<int>, fp: seq<int>, l: Tnode,
                    r: Tnode)
    requires FollowAdded(sets1, f1, sets2, f2, lp, fp) && Lists(lp, Last(l)) && Lists(fp, First(r))
    ensures |View(sets2, f2)| == |View(sets1, f1)|
    ensures forall p: nat :: p < |f1| ==> Crossed(View(sets1, f1)[p], View(sets2, f2)[p], l, r, p)
  {
    forall p: nat | p < |f1|
      ensures Crossed(View(sets1, f1)[p], View(sets2, f2)[p], l, r, p)
    {
      assert FollowOf(Elems(sets1, f1[p]), Elems(sets2, f2[p]), p in lp, fp);
      forall x: int
        ensures x in fp <==> x >= 0 && x in First(r)
      {
      }
    }
  }

  ghost predicate Crossed(s1: seq<int>, s2: seq<int>, l: Tnode, r: Tnode, p: nat) {
    forall x: int :: x in s2 <==> x in s1 || (x >= 0 && p in Last(l) && x in First(r))
  }

  ghost function Four(live: set<nat>, a: nat, b: nat, c: nat, e: nat): set<nat> {
    live + Handle(a) + Handle(b) + Handle(c) + Handle(e)
  }

  lemma FourIs(live: set<nat>, a: nat, b: nat, c: nat, e: nat)
    ensures live + Handle(a) + Handle(b) + Handle(c) + Handle(e) == Four(live, a, b, c, e)
  {
  }

  ghost predicate FilledBoth(v0: seq<seq<int>>, v1: seq<seq<int>>, l: Tnode, r: Tnode) {
    && |v1| == |v0|
    && (forall p: nat :: p < |v0| ==> GainedBoth(v0[p], v1[p], l, r, p))
  }

  ghost predicate GainedBoth(s0: seq<int>, s1: seq<int>, l: Tnode, r: Tnode, p: nat) {
    forall x: int :: x in s1 <==> x in s0 || (x >= 0 && (Follows(l, p, x) || Follows(r, p, x)))
  }

  ghost predicate LeavesBoth(posar0: seq<Tnode>, posar1: seq<Tnode>, l: Tnode, r: Tnode) {
    && |posar1| == |posar0|
    && (forall p: nat :: p < |posar0| ==>
      posar1[p] == if p in Positions(l) then DfaTree.At(l, p) else if p in Positions(r) then DfaTree.At(r, p)
        else posar0[p])
  }

  lemma FilledTwice(v0: seq<seq<int>>, v1: seq<seq<int>>, v2: seq<seq<int>>, l: Tnode, r: Tnode)
    requires Filled(v0, v1, l) && Filled(v1, v2, r)
    ensures FilledBoth(v0, v2, l, r)
  {
    forall p: nat | p < |v0|
      ensures GainedBoth(v0[p], v2[p], l, r, p)
    {
      assert Gained(v0[p], v1[p], l, p) && Gained(v1[p], v2[p], r, p);
    }
  }

  lemma LeavesTwice(posar0: seq<Tnode>, posar1: seq<Tnode>, posar2: seq<Tnode>, l: Tnode, r: Tnode)
    requires Leaves(posar0, posar1, l) && Leaves(posar1, posar2, r) && Positions(l) !! Positions(r)
    ensures LeavesBoth(posar0, posar2, l, r)
  {
  }

  lemma ComputedKept(sets0: Sets, sets1: Sets, live: set<nat>, t: Tnode, n: bool, a: nat, b: nat)
    requires Computed(sets0, live, t, n, a, b) && Kept(sets0, sets1, live + Handle(a) + Handle(b))
    requires (a != 0 ==> a in sets0) && (b != 0 ==> b in sets0) && 0 !in sets0 && 0 !in sets1
    ensures Computed(sets1, live, t, n, a, b)
  {
    assert Elems(sets1, a) == Elems(sets0, a) && Elems(sets1, b) == Elems(sets0, b);
  }

  lemma MergeValues(sets: Sets, f: seq<nat>, live: set<nat>, a: nat, b: nat, r: nat, m: seq<int>, most: nat)
    requires Owns(sets, f, live) && Bounded(sets, most)
    requires Joins(m, Elems(sets, a), Elems(sets, b)) && r !in sets && (m == [] <==> r == 0)
    ensures var sets' := Put(sets, r, m);
      && Owns(sets', f, live + Handle(r)) && Kept(sets, sets', live) && SameFollow(sets, sets', f)
      && Elems(sets', r) == m && r !in live && Bounded(sets', most)
  {
    LiveZero(sets, f, live);
    assert sets - {0} == sets;
    Swap(sets, f, live, 0, r, m);
    hide Owns, Kept, SameFollow;
    forall x | x in m
      ensures 1 <= x <= most
    {
    }
    PutBounded(sets, 0, r, m, most);
  }

  lemma Disjoint(sets: Sets, live: set<nat>, l: Tnode, r: Tnode, nl: bool, fl: nat, ll: nat, nr: bool, fr: nat, lr: nat,
                 a: nat, b: nat)
    requires Computed(sets, live, l, nl, fl, ll) && Computed(sets, live + Handle(fl) + Handle(ll), r, nr, fr, lr)
    requires var live1 := Four(live, fl, ll, fr, lr); a !in live1 && b !in live1 + Handle(a)
    ensures (fl == 0 || (fl != ll && fl != fr && fl != lr)) && (ll == 0 || (ll != fr && ll != lr))
    ensures (fr == 0 || fr != lr)
    ensures var all := Four(live, fl, ll, fr, lr) + Handle(a) + Handle(b);
      && live + Handle(a) + Handle(b) <= all - {fl, ll, fr, lr}
      && (fl == 0 || fl in all) && (ll == 0 || ll in all) && (fr == 0 || fr in all) && (lr == 0 || lr in all)
  {
  }

  ghost predicate JoinIf(s: seq<int>, a: seq<int>, b: seq<int>, both: bool) {
    forall x: int :: x in s <==> x in a || (both && x in b)
  }

  lemma JoinsIf(sets1: Sets, sets2: Sets, sets3: Sets, fl: nat, fr: nat, a: nat, ll: nat, lr: nat, b: nat)
    requires Joins(Elems(sets2, a), Elems(sets1, fl), Elems(sets1, fr))
    requires Joins(Elems(sets3, b), Elems(sets2, ll), Elems(sets2, lr))
    ensures JoinIf(Elems(sets2, a), Elems(sets1, fl), Elems(sets1, fr), true)
    ensures JoinIf(Elems(sets3, b), Elems(sets2, lr), Elems(sets2, ll), true)
  {
  }

  lemma OrNode(v0: seq<seq<int>>, v1: seq<seq<int>>, posar0: seq<Tnode>, posar1: seq<Tnode>, l: Tnode, r: Tnode)
    requires FilledBoth(v0, v1, l, r) && LeavesBoth(posar0, posar1, l, r)
    ensures Filled(v0, v1, Or(l, r)) && Leaves(posar0, posar1, Or(l, r))
  {
    forall p: nat | p < |v0|
      ensures Gained(v0[p], v1[p], Or(l, r), p)
    {
      assert GainedBoth(v0[p], v1[p], l, r, p);
    }
  }

  lemma ListsIf(s: seq<int>, a: seq<int>, b: seq<int>, both: bool, x: set<nat>, y: set<nat>)
    requires JoinIf(s, a, b, both) && Lists(a, x) && Lists(b, y)
    ensures Lists(s, if both then x + y else x)
  {
  }

  lemma ElemsKept(sets0: Sets, sets1: Sets, live: set<nat>, h: nat)
    requires Kept(sets0, sets1, live) && (h == 0 || h in live) && (h != 0 ==> h in sets0) && 0 !in sets0 && 0 !in sets1
    ensures Elems(sets1, h) == Elems(sets0, h)
  {
  }

  /** The first and last positions of a node from those of its parts, after these are given up. */
  lemma NodeDone(t: Tnode, l: Tnode, r: Tnode, sets1: Sets, sets2: Sets, sets3: Sets, sets4: Sets, live: set<nat>,
                 nl: bool, fl: nat, ll: nat, nr: bool, fr: nat, lr: nat, b1: bool, a: nat, b2: bool, b: nat,
                 nullable: bool)
    requires Computed(sets1, live, l, nl, fl, ll) && Computed(sets1, live + Handle(fl) + Handle(ll), r, nr, fr, lr)
    requires JoinIf(Elems(sets2, a), Elems(sets1, fl), Elems(sets1, fr), b1)
    requires JoinIf(Elems(sets3, b), Elems(sets2, lr), Elems(sets2, ll), b2)
    requires forall h :: h in Four(live, fl, ll, fr, lr) ==> h in sets1
    requires 0 !in sets1 && 0 !in sets2 && 0 !in sets3 && 0 !in sets4
    requires a !in Four(live, fl, ll, fr, lr) && b !in Four(live, fl, ll, fr, lr) + Handle(a)
    requires (a != 0 ==> a in sets2) && (b != 0 ==> b in sets3)
    requires Kept(sets1, sets2, Four(live, fl, ll, fr, lr))
    requires Kept(sets2, sets3, Four(live, fl, ll, fr, lr) + Handle(a))
    requires Kept(sets3, sets4, live + Handle(a) + Handle(b))
    requires First(t) == (if b1 then First(l) + First(r) else First(l))
    requires Last(t) == (if b2 then Last(r) + Last(l) else Last(r))
    requires nullable == Nullable(t)
    ensures Computed(sets4, live, t, nullable, a, b)
  {
    ElemsKept(sets1, sets2, Four(live, fl, ll, fr, lr), ll);
    ElemsKept(sets1, sets2, Four(live, fl, ll, fr, lr), lr);
    ListsIf(Elems(sets2, a), Elems(sets1, fl), Elems(sets1, fr), b1, First(l), First(r));
    ListsIf(Elems(sets3, b), Elems(sets2, lr), Elems(sets2, ll), b2, Last(r), Last(l));
    ElemsKept(sets2, sets3, Four(live, fl, ll, fr, lr) + Handle(a), a);
    ElemsKept(sets3, sets4, live + Handle(a) + Handle(b), a);
    ElemsKept(sets3, sets4, live + Handle(a) + Handle(b), b);
  }

  lemma NodeKept(sets0: Sets, sets1: Sets, sets2: Sets, sets3: Sets, sets4: Sets, live: set<nat>, live1: set<nat>,
                 a: set<nat>, b: set<nat>)
    requires Kept(sets0, sets1, live) && Kept(sets1, sets2, live1) && Kept(sets2, sets3, live1 + a) && live <= live1
    requires Kept(sets3, sets4, live + a + b)
    ensures Kept(sets0, sets4, live)
  {
  }

  lemma NodeSets(l: Tnode, r: Tnode, sets: Sets, live: set<nat>, nl: bool, fl: nat, ll: nat, nr: bool, fr: nat, lr: nat)
    requires Computed(sets, live, l, nl, fl, ll) && Computed(sets, live + Handle(fl) + Handle(ll), r, nr, fr, lr)
    ensures First(Or(l, r)) == First(l) + First(r) && Last(Or(l, r)) == Last(r) + Last(l)
    ensures Nullable(Or(l, r)) == (nl || nr)
    ensures First(Cat(l, r)) == if nl then First(l) + First(r) else First(l)
    ensures Last(Cat(l, r)) == if nr then Last(r) + Last(l) else Last(r)
    ensures Nullable(Cat(l, r)) == (nl && nr)
  {
  }

  /** A concatenation adds: the first positions of its right part follow the last ones of its left part. */
  lemma CatNode(v0: seq<seq<int>>, v1: seq<seq<int>>, v2: seq<seq<int>>, posar0: seq<Tnode>, posar1: seq<Tnode>,
                l: Tnode, r: Tnode)
    requires FilledBoth(v0, v1, l, r) && LeavesBoth(posar0, posar1, l, r)
    requires |v2| == |v1| && forall p: nat :: p < |v1| ==> Crossed(v1[p], v2[p], l, r, p)
    ensures Filled(v0, v2, Cat(l, r)) && Leaves(posar0, posar1, Cat(l, r))
  {
    forall p: nat | p < |v0|
      ensures Gained(v0[p], v2[p], Cat(l, r), p)
    {
      assert GainedBoth(v0[p], v1[p], l, r, p) && Crossed(v1[p], v2[p], l, r, p);
    }
  }

  lemma CatLists(sets1: Sets, sets3: Sets, all: set<nat>, live: set<nat>, l: Tnode, r: Tnode, nl: bool, fl: nat,
                 ll: nat, nr: bool, fr: nat, lr: nat)
    requires Computed(sets1, live, l, nl, fl, ll) && Computed(sets1, live + Handle(fl) + Handle(ll), r, nr, fr, lr)
    requires (forall h :: h in all ==> h in sets1) && (ll == 0 || ll in all) && (fr == 0 || fr in all) && 0 !in sets1
    requires 0 !in sets3
    requires Kept(sets1, sets3, all)
    ensures Lists(Elems(sets3, ll), Last(l)) && Lists(Elems(sets3, fr), First(r))
  {
    ElemsKept(sets1, sets3, all, ll);
    ElemsKept(sets1, sets3, all, fr);
  }

  lemma SizeView(sets: Sets, f: seq<nat>)
    ensures |View(sets, f)| == |f|
  {
  }

  lemma FewerKept(sets3: Sets, sets4: Sets, sets5: Sets, live: set<nat>, live1: set<nat>, a: set<nat>, b: set<nat>)
    requires Kept(sets3, sets4, live1 + a + b) && Kept(sets4, sets5, live + a + b) && live <= live1
    ensures Kept(sets3, sets5, live + a + b)
  {
  }

  lemma ViewSame(sets0: Sets, sets1: Sets, f: seq<nat>)
    requires SameFollow(sets0, sets1, f)
    ensures View(sets1, f) == View(sets0, f)
  {
  }

  ghost predicate Kept1(lists0: map<nat, seq<nat>>, lists1: map<nat, seq<nat>>, live: set<nat>) {
    forall h :: h in live && h in lists0 ==> h in lists1 && lists1[h] == lists0[h]
  }

  /** Each position in ps is now also followed by those in fp. */
  ghost predicate FollowAdded(sets0: Sets, f0: seq<nat>, sets1: Sets, f1: seq<nat>, ps: seq<int>, fp: seq<int>) {
    && |f1| == |f0|
    && (forall i: nat :: i < |f0| ==> FollowOf(Elems(sets0, f0[i]), Elems(sets1, f1[i]), i in ps, fp))
  }

  ghost predicate FollowOf(s0: seq<int>, s1: seq<int>, added: bool, fp: seq<int>) {
    forall x: int :: x in s1 <==> x in s0 || (added && x in fp)
  }

  lemma ListsKept(lists0: map<nat, seq<nat>>, lists1: map<nat, seq<nat>>, s: nat, live: set<nat>, sets: Sets,
                  f: seq<nat>, v: nat)
    requires Owns(sets, f, live) && v < |f| && f[v] == s
    requires forall k :: k in lists0 && k != s ==> k in lists1 && lists1[k] == lists0[k]
    ensures Kept1(lists0, lists1, live)
  {
  }

  lemma FollowValues(sets: Sets, f: seq<nat>, live: set<nat>, v: nat, r: nat, m: seq<int>, b: nat, most: nat)
    requires Owns(sets, f, live) && Bounded(sets, most) && v < |f| && r !in sets - {f[v]} && (m == [] <==> r == 0)
    requires Joins(m, Elems(sets, f[v]), Elems(sets, b))
    ensures var sets', f' := Put(sets - {f[v]}, r, m), f[v := r];
      && Owns(sets', f', live) && Kept(sets, sets', live) && Bounded(sets', most)
      && FollowAdded(sets, f, sets', f', [v], Elems(sets, b))
  {
    SwapFollow(sets, f, live, v, r, m);
    hide Owns, Kept;
    forall x | x in m
      ensures 1 <= x <= most
    {
    }
    PutBounded(sets, f[v], r, m, most);
  }

  lemma NoneAdded(sets: Sets, f: seq<nat>, fp: seq<int>, live: set<nat>)
    ensures FollowAdded(sets, f, sets, f, [], fp) && Kept(sets, sets, live)
  {
    forall i: nat | i < |f|
      ensures FollowOf(Elems(sets, f[i]), Elems(sets, f[i]), i in [], fp)
    {
    }
  }

  lemma ElementIn(sets: Sets, h: nat, j: nat, most: nat)
    requires Bounded(sets, most) && j < |Elems(sets, h)|
    ensures 1 <= Elems(sets, h)[j] <= most
  {
    assert InRange(sets[h], most) && sets[h][j] in sets[h];
  }

  lemma CursorKept(lists0: map<nat, seq<nat>>, sets0: Sets, f0: seq<nat>, lists1: map<nat, seq<nat>>, sets1: Sets,
                   f1: seq<nat>, live: set<nat>, s: nat, b: nat, j: nat, c: nat)
    requires Kept(sets0, sets1, live) && Kept1(lists0, lists1, live) && (s == 0 || s in live) && (b == 0 || b in live)
    requires Owns(sets0, f0, live) && Owns(sets1, f1, live) && Cursor(lists0, sets0, s, j, c)
    ensures Cursor(lists1, sets1, s, j, c) && Elems(sets1, s) == Elems(sets0, s) && Elems(sets1, b) == Elems(sets0, b)
  {
  }

  lemma AddedMore(sets0: Sets, f0: seq<nat>, sets1: Sets, f1: seq<nat>, sets2: Sets, f2: seq<nat>, lp: seq<int>, j: nat,
                  fp: seq<int>)
    requires j < |lp| && FollowAdded(sets0, f0, sets1, f1, lp[..j], fp)
    requires FollowAdded(sets1, f1, sets2, f2, [lp[j]], fp)
    ensures FollowAdded(sets0, f0, sets2, f2, lp[..j + 1], fp)
  {
    assert lp[..j + 1] == lp[..j] + [lp[j]];
    forall i: nat | i < |f0|
      ensures FollowOf(Elems(sets0, f0[i]), Elems(sets2, f2[i]), i in lp[..j + 1], fp)
    {
      assert FollowOf(Elems(sets0, f0[i]), Elems(sets1, f1[i]), i in lp[..j], fp);
      assert FollowOf(Elems(sets1, f1[i]), Elems(sets2, f2[i]), i in [lp[j]], fp);
    }
  }

  lemma KeptTrans(sets0: Sets, sets1: Sets, sets2: Sets, live: set<nat>)
    requires Kept(sets0, sets1, live) && Kept(sets1, sets2, live)
    ensures Kept(sets0, sets2, live)
  {
  }

  lemma LiveZero(sets: Sets, f: seq<nat>, live: set<nat>)
    requires Owns(sets, f, live)
    ensures 0 !in live && live - {0} == live && Elems(sets, 0) == [] && 0 !in sets
  {
  }

  lemma JoinLive(live: set<nat>, r1: nat, r: nat)
    requires r1 !in live
    ensures live + Handle(r1) - {r1} + Handle(r) == live + Handle(r)
    ensures live + Handle(r1) - {r1} == live
  {
  }

  lemma JoinValues(sets0: Sets, sets1: Sets, sets2: Sets, f: seq<nat>, live: set<nat>, a: nat, b: nat, r1: nat, r: nat,
                   both: bool)
    requires Owns(sets0, f, live) && (b == 0 || b in live) && 0 !in sets1 && r1 !in live
    requires Kept(sets0, sets1, live) && SameFollow(sets0, sets1, f)
    requires Joins(Elems(sets1, r1), Elems(sets0, 0), Elems(sets0, a))
    requires both ==> Kept(sets1, sets2, live) && SameFollow(sets1, sets2, f)
    requires both ==> Joins(Elems(sets2, r), Elems(sets1, r1), Elems(sets1, b))
    requires !both ==> sets2 == sets1 && r == r1
    ensures Kept(sets0, sets2, live) && SameFollow(sets0, sets2, f)
    ensures JoinIf(Elems(sets2, r), Elems(sets0, a), Elems(sets0, b), both)
  {
    assert Elems(sets0, 0) == [];
    assert both ==> Elems(sets1, b) == Elems(sets0, b);
  }

  lemma SingleValues(sets: Sets, f: seq<nat>, live: set<nat>, r: nat, p: nat, most: nat)
    requires Owns(sets, f, live) && Bounded(sets, most) && 1 <= p <= most && r !in sets - {0} && r != 0
    ensures var m := Merge([], [p]);
      var sets' := Put(sets - {0}, r, m);
      && m == [p] && Owns(sets', f, live + Handle(r)) && Kept(sets, sets', live) && SameFollow(sets, sets', f)
      && Elems(sets', r) == m && r !in live && Bounded(sets', most)
  {
    LiveZero(sets, f, live);
    Swap(sets, f, live, 0, r, [p]);
    PutBounded(sets, 0, r, [p], most);
  }

  lemma DropValues(sets: Sets, f: seq<nat>, live: set<nat>, a: nat, most: nat)
    requires Owns(sets, f, live) && Bounded(sets, most) && (a == 0 || a in live)
    ensures Owns(sets - {a}, f, live - {a}) && Kept(sets, sets - {a}, live - {a}) && SameFollow(sets, sets - {a}, f)
    ensures Bounded(sets - {a}, most)
  {
    Swap(sets, f, live, a, 0, []);
    LiveZero(sets, f, live);
    assert live - {a} + Handle(0) == live - {a};
  }

  lemma UnionValues(sets: Sets, f: seq<nat>, live: set<nat>, a: nat, b: nat, r: nat, m: seq<int>, most: nat)
    requires Owns(sets, f, live) && Bounded(sets, most) && (a == 0 || a in live)
    requires Joins(m, Elems(sets, a), Elems(sets, b)) && r !in sets - {a} && (m == [] <==> r == 0)
    ensures var sets' := Put(sets - {a}, r, m);
      && Owns(sets', f, live - {a} + Handle(r)) && Kept(sets, sets', live - {a}) && SameFollow(sets, sets', f)
      && Elems(sets', r) == m && r !in live - {a} && Bounded(sets', most)
  {
    Swap(sets, f, live, a, r, m);
    hide Owns, Kept, SameFollow;
    forall x | x in m
      ensures 1 <= x <= most
    {
    }
    PutBounded(sets, a, r, m, most);
  }
}
