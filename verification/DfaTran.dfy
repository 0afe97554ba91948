/** The subset construction: each state's outgoing transitions, found by cutting the characters
  into ranges that no position of the state tells apart. */
module DfaTran {
  import opened Sequences
  import opened DfaTree
  import opened DfaReach
  import opened DfaTrav
  import opened DfaStates
  import S = DfaSet

  const MAX_CHAR := 255

  // ---------------------------------------------------------------- what a state should do

  predicate CharsOk(t: Tnode) {
    forall p :: p in Positions(t) && At(t, p).ch0 >= 0 ==> At(t, p).ch0 <= At(t, p).ch1 <= MAX_CHAR
  }

  /** Reading c in a state with positions s, position q comes next. */
  ghost predicate Steps(t: Tnode, s: seq<int>, c: int, q: nat) {
    exists p: nat :: p in s && Reads1(t, p, c) && Follows(t, p, q)
  }

  /** The positions r are those that come next. */
  ghost predicate IsStep(t: Tnode, s: seq<int>, c: int, r: seq<int>) {
    forall x: int :: x in r <==> x >= 0 && Steps(t, s, c, x)
  }

  ghost predicate Takes(trans: seq<Tran>, k: int, c: int) {
    0 <= k < |trans| && trans[k].ch0 <= c <= trans[k].ch1
  }

  /** On c, the state has one transition, to the state of the next positions, or none when no
      position comes next. */
  ghost predicate StepDone(t: Tnode, content: seq<seq<int>>, trans: seq<Tran>, s: seq<int>, c: int) {
    && ((exists k :: Takes(trans, k, c)) <==> (exists q: nat :: Steps(t, s, c, q)))
    && (forall k :: Takes(trans, k, c) ==> trans[k].to < |content| && IsStep(t, s, c, content[trans[k].to]))
    && (forall j, k :: Takes(trans, j, c) && Takes(trans, k, c) ==> j == k)
  }

  ghost predicate Expanded(t: Tnode, content: seq<seq<int>>, trans: seq<Tran>, s: seq<int>, upto: int) {
    && (forall c :: 0 <= c < upto ==> StepDone(t, content, trans, s, c))
    && (forall k :: 0 <= k < |trans| ==> 0 <= trans[k].ch0 <= trans[k].ch1 < upto)
  }

  /** The least rule with an end among the positions; 0 when there is none. */
  ghost predicate RuleIs(t: Tnode, s: seq<int>, r: int) {
    && (r == 0 ==> forall p: nat :: p in s && p in Positions(t) ==> At(t, p).ch0 >= 0)
    && (r != 0 ==> r > 0 && exists p: nat :: p in s && p in Positions(t) && At(t, p).ch0 == -r)
    && (r != 0 ==> forall p: nat :: p in s && p in Positions(t) && At(t, p).ch0 < 0 ==> -At(t, p).ch0 >= r)
  }

  ghost predicate Inside(t: Tnode, s: seq<int>) {
    S.Ascending(s) && forall x: int :: x in s ==> x >= 0 && x in Positions(t)
  }

  // ---------------------------------------------------------------- cutting the characters

  /** The positions pos of the tree that read characters, by their leaves. */
  ghost predicate Chars(t: Tnode, posar: seq<Tnode>, pos: seq<nat>) {
    forall k :: 0 <= k < |pos| ==>
      && pos[k] in Positions(t) && pos[k] < |posar| && posar[pos[k]] == At(t, pos[k])
      && 0 <= posar[pos[k]].ch0 <= posar[pos[k]].ch1 <= MAX_CHAR
  }

  predicate In(leaf: Tnode, c: int)
    requires leaf.Leaf?
  {
    leaf.ch0 <= c <= leaf.ch1
  }

  /** The first character from char1 on that some position reads. */
  method FirstChar(ghost t: Tnode, posar: array<Tnode>, pos: seq<nat>, char1: int) returns (char0: int)
    requires Chars(t, posar[..], pos) && 0 <= char1 <= MAX_CHAR
    ensures char1 <= char0 <= MAX_CHAR + 1
    ensures forall k, c :: 0 <= k < |pos| && char1 <= c < char0 ==> !In(At(t, pos[k]), c)
    ensures char0 <= MAX_CHAR ==> exists k :: 0 <= k < |pos| && In(At(t, pos[k]), char0)
  {
    char0 := MAX_CHAR + 1;
    var i := 0;
    while i < |pos|
      invariant i <= |pos| && char1 <= char0 <= MAX_CHAR + 1
      invariant forall k, c :: 0 <= k < i && char1 <= c < char0 ==> !In(At(t, pos[k]), c)
      invariant char0 <= MAX_CHAR ==> exists k :: 0 <= k < i && In(At(t, pos[k]), char0)
    {
      var leaf := posar[pos[i]];
      assert leaf == At(t, pos[i]) && posar[..][pos[i]] == leaf;
      if leaf.ch1 >= char1 && leaf.ch0 < char0 {
        char0 := if leaf.ch0 < char1 then char1 else leaf.ch0;
        assert In(At(t, pos[i]), char0);
      }
      i := i + 1;
    }
  }

  /** No position of the first n tells the characters char0..char1 apart. */
  ghost predicate Uniform(t: Tnode, pos: seq<nat>, n: int, char0: int, char1: int)
    requires forall k :: 0 <= k < |pos| ==> pos[k] in Positions(t)
  {
    forall k, c :: 0 <= k < n && k < |pos| && char0 <= c <= char1 ==> (In(At(t, pos[k]), c) <==>
        In(At(t, pos[k]), char0))
  }

  function Narrow(leaf: Tnode, char0: int, char1: int): int
    requires leaf.Leaf?
  {
    if leaf.ch0 > char0 && leaf.ch0 <= char1 then leaf.ch0 - 1
    else if leaf.ch1 >= char0 && leaf.ch1 < char1 then leaf.ch1
    else char1
  }

  lemma NarrowUniform(t: Tnode, posar: seq<Tnode>, pos: seq<nat>, n: nat, char0: int, char1: int)
    requires Chars(t, posar, pos) && n < |pos| && 0 <= char0 <= char1 <= MAX_CHAR
    requires forall k :: 0 <= k < |pos| ==> pos[k] in Positions(t)
    requires Uniform(t, pos, n, char0, char1)
    ensures var c1 := Narrow(posar[pos[n]], char0, char1); char0 <= c1 <= char1 && Uniform(t, pos, n + 1, char0, c1)
  {
    var c1 := Narrow(posar[pos[n]], char0, char1);
    assert posar[pos[n]] == At(t, pos[n]);
    forall k, c | 0 <= k < n + 1 && k < |pos| && char0 <= c <= c1
      ensures In(At(t, pos[k]), c) <==> In(At(t, pos[k]), char0)
    {
      if k < n { assert char0 <= c <= char1; }
    }
  }

  // ---------------------------------------------------------------- the positions that come next

  /** The follow sets are in the pool, among the sets to keep. */
  ghost predicate Steady(pool: S.SetPool, followpos: array<nat>, v: seq<seq<int>>, keep: set<nat>)
    reads pool, followpos
  {
    && pool.Valid() && pool.chunk > 8 && View(pool.sets, followpos[..]) == v
    && Keeps(pool.sets, followpos[..], keep)
  }

  ghost predicate Keeps(sets: Sets, f: seq<nat>, keep: set<nat>) {
    && 0 !in sets && (forall h :: h in keep ==> h in sets)
    && (forall i :: 0 <= i < |f| ==> f[i] == 0 || f[i] in keep)
  }

  lemma KeepsView(sets0: Sets, sets1: Sets, f: seq<nat>, keep: set<nat>)
    requires Keeps(sets0, f, keep) && Kept(sets0, sets1, keep) && 0 !in sets1
    ensures Keeps(sets1, f, keep) && View(sets1, f) == View(sets0, f)
  {
  }

  /** The elements of r are what follows the first n positions of pos that read c. */
  ghost predicate Gathered(t: Tnode, v: seq<seq<int>>, pos: seq<nat>, n: int, c: int, r: seq<int>)
    requires forall k :: 0 <= k < |pos| ==> pos[k] in Positions(t)
  {
    forall x: int :: x in r <==>
      exists k :: 0 <= k < n && k < |pos| && pos[k] < |v| && In(At(t, pos[k]), c) && x in v[pos[k]]
  }

  lemma GatherMore(t: Tnode, v: seq<seq<int>>, pos: seq<nat>, n: nat, c: int, r: seq<int>, r': seq<int>)
    requires forall k :: 0 <= k < |pos| ==> pos[k] in Positions(t)
    requires n < |pos| && pos[n] < |v| && Gathered(t, v, pos, n, c, r)
    requires if In(At(t, pos[n]), c) then S.Joins(r', r, v[pos[n]]) else r' == r
    ensures Gathered(t, v, pos, n + 1, c, r')
  {
    forall x
      ensures x in r' <==>
        exists k :: 0 <= k < n + 1 && k < |pos| && pos[k] < |v| && In(At(t, pos[k]), c) && x in v[pos[k]]
    {
      if x in r {
        var k :| 0 <= k < n && k < |pos| && pos[k] < |v| && In(At(t, pos[k]), c) && x in v[pos[k]];
        assert k < n + 1;
      }
    }
  }

  /** Adds the positions that follow position p to the set being gathered. */
  method UnionFollow(pool: S.SetPool, followpos: array<nat>, ghost v: seq<seq<int>>, a: nat, p: nat,
                     ghost keep: set<nat>)
    returns (r: nat)
    requires Steady(pool, followpos, v, keep) && p < followpos.Length && p < |v| && a !in keep
    requires (a == 0 || a in pool.sets)
    modifies pool
    ensures Steady(pool, followpos, v, keep) && Kept(old(pool.sets), pool.sets, keep) && r !in keep
    ensures (r == 0 || r in pool.sets)
    ensures S.Joins(S.Elems(pool.sets, r), S.Elems(old(pool.sets), a), v[p])
    ensures r == 0 <==> S.Elems(pool.sets, r) == []
  {
    hide *;
    UnionReady(pool, followpos, v, a, p, keep);
    ghost var sets0, f := pool.sets, followpos[..];
    var b := followpos[p];
    r := pool.UnionSet(a, b);
    S.MergeUnion(S.Elems(sets0, a), S.Elems(sets0, b));
    UnionDone(sets0, f, keep, a, r, S.Merge(S.Elems(sets0, a), S.Elems(sets0, b)));
    assert followpos[..] == f;
    SteadyAgain(pool, followpos, v, keep);
  }

  lemma SteadyAgain(pool: S.SetPool, followpos: array<nat>, v: seq<seq<int>>, keep: set<nat>)
    requires pool.Valid() && pool.chunk > 8 && View(pool.sets, followpos[..]) == v
    requires Keeps(pool.sets, followpos[..], keep)
    ensures Steady(pool, followpos, v, keep)
  {
  }

  lemma UnionReady(pool: S.SetPool, followpos: array<nat>, v: seq<seq<int>>, a: nat, p: nat, keep: set<nat>)
    requires Steady(pool, followpos, v, keep) && p < followpos.Length && p < |v| && a !in keep
    requires (a == 0 || a in pool.sets)
    ensures pool.Valid() && pool.chunk > 8 && pool.IsSet(a) && pool.IsSet(followpos[p]) && (a != followpos[p] || a == 0)
    ensures pool.Get(a) == S.Elems(pool.sets, a) && pool.Get(followpos[p]) == S.Elems(pool.sets, followpos[p]) == v[p]
    ensures S.Ascending(pool.Get(a)) && S.Ascending(pool.Get(followpos[p]))
    ensures Keeps(pool.sets, followpos[..], keep) && View(pool.sets, followpos[..]) == v
  {
    hide S.Rep;
    assert followpos[..][p] == followpos[p];
    pool.GetAscending(a);
    pool.GetAscending(followpos[p]);
  }

  lemma UnionDone(sets: Sets, f: seq<nat>, keep: set<nat>, a: nat, r: nat, m: seq<int>)
    requires Keeps(sets, f, keep) && a !in keep && r !in sets - {a} && (m == [] <==> r == 0)
    ensures var sets' := S.Put(sets - {a}, r, m);
      && Kept(sets, sets', keep) && Keeps(sets', f, keep) && View(sets', f) == View(sets, f)
      && S.Elems(sets', r) == m && r !in keep && (r == 0 || r in sets')
  {
    var sets' := S.Put(sets - {a}, r, m);
    KeepsView(sets, sets', f, keep);
  }

  /** The end of the range of characters, from char0 on, that no position tells apart, and the
      set of positions that come next on them. */
  method Chunk(ghost t: Tnode, pool: S.SetPool, followpos: array<nat>, posar: array<Tnode>, ghost v: seq<seq<int>>,
               pos: seq<nat>, char0: int, ghost keep: set<nat>)
    returns (char1: int, tranSet: nat)
    requires Steady(pool, followpos, v, keep) && Chars(t, posar[..], pos) && 0 <= char0 <= MAX_CHAR
    requires followpos.Length == posar.Length == |v|
    modifies pool
    ensures Steady(pool, followpos, v, keep) && Kept(old(pool.sets), pool.sets, keep)
    ensures tranSet !in keep && (tranSet == 0 || tranSet in pool.sets)
    ensures (tranSet == 0 <==> S.Elems(pool.sets, tranSet) == [])
    ensures forall k :: 0 <= k < |pos| ==> pos[k] in Positions(t)
    ensures char0 <= char1 <= MAX_CHAR && Uniform(t, pos, |pos|, char0, char1)
    ensures Gathered(t, v, pos, |pos|, char0, S.Elems(pool.sets, tranSet))
  {
    hide *;
    CharsIn(t, posar[..], pos);
    char1, tranSet := MAX_CHAR, 0;
    ghost var sets0, posar0 := pool.sets, posar[..];
    GatherStart(pool, followpos, t, v, pos, char0, keep);
    var i := 0;
    while i < |pos|
      invariant i <= |pos| && char0 <= char1 <= MAX_CHAR && posar[..] == posar0
      invariant Steady(pool, followpos, v, keep) && Kept(sets0, pool.sets, keep)
      invariant tranSet !in keep && (tranSet == 0 || tranSet in pool.sets)
      invariant (tranSet == 0 <==> S.Elems(pool.sets, tranSet) == [])
      invariant Uniform(t, pos, i, char0, char1) && Gathered(t, v, pos, i, char0, S.Elems(pool.sets, tranSet))
    {
      var p := pos[i];
      CharsAt(t, posar0, pos, i, char0);
      NarrowUniform(t, posar0, pos, i, char0, char1);
      NarrowIs(posar[p], char0, char1);
      ghost var sets1, r := pool.sets, S.Elems(pool.sets, tranSet);
      if posar[p].ch0 > char0 && posar[p].ch0 <= char1 {
        char1 := posar[p].ch0 - 1;
      } else if posar[p].ch1 >= char0 && posar[p].ch1 < char1 {
        char1 := posar[p].ch1;
      }
      if posar[p].ch1 >= char0 && posar[p].ch0 <= char0 {
        tranSet := UnionFollow(pool, followpos, v, tranSet, p, keep);
        KeptTrans(sets0, sets1, pool.sets, keep);
      }
      GatherMore(t, v, pos, i, char0, r, S.Elems(pool.sets, tranSet));
      assert posar[..] == posar0;
      i := i + 1;
    }
  }

  lemma CharsIn(t: Tnode, posar: seq<Tnode>, pos: seq<nat>)
    requires Chars(t, posar, pos)
    ensures forall k :: 0 <= k < |pos| ==> pos[k] in Positions(t) && pos[k] < |posar|
  {
  }

  lemma CharsAt(t: Tnode, posar: seq<Tnode>, pos: seq<nat>, i: nat, char0: int)
    requires Chars(t, posar, pos) && i < |pos|
    ensures pos[i] in Positions(t) && pos[i] < |posar| && posar[pos[i]] == At(t, pos[i]) && posar[pos[i]].Leaf?
    ensures In(At(t, pos[i]), char0) <==> posar[pos[i]].ch1 >= char0 && posar[pos[i]].ch0 <= char0
  {
  }

  lemma NarrowIs(leaf: Tnode, char0: int, char1: int)
    requires leaf.Leaf?
    ensures Narrow(leaf, char0, char1) == if leaf.ch0 > char0 && leaf.ch0 <= char1 then leaf.ch0 - 1
      else if leaf.ch1 >= char0 && leaf.ch1 < char1 then leaf.ch1 else char1
  {
  }

  lemma GatherStart(pool: S.SetPool, followpos: array<nat>, t: Tnode, v: seq<seq<int>>, pos: seq<nat>, char0: int,
                    keep: set<nat>)
    requires Steady(pool, followpos, v, keep) && 0 <= char0 <= MAX_CHAR
    requires forall k :: 0 <= k < |pos| ==> pos[k] in Positions(t)
    ensures 0 !in keep && S.Elems(pool.sets, 0) == [] && Kept(pool.sets, pool.sets, keep)
    ensures Gathered(t, v, pos, 0, char0, []) && Uniform(t, pos, 0, char0, MAX_CHAR)
  {
    hide S.Rep;
  }

  // ---------------------------------------------------------------- transitions of one state

  /** pos lists the positions of s that read characters. */
  ghost predicate PosOf(t: Tnode, pos: seq<nat>, s: seq<int>) {
    forall p: nat :: p in pos <==> p in s && p in Positions(t) && At(t, p).ch0 >= 0
  }

  ghost predicate FollowTable(t: Tnode, v: seq<seq<int>>) {
    forall p: nat :: p < |v| ==> FollowRow(t, p, v[p])
  }

  ghost predicate FollowRow(t: Tnode, p: nat, r: seq<int>) {
    forall x: int :: x in r <==> x >= 0 && Follows(t, p, x)
  }

  lemma StepsAt(t: Tnode, pos: seq<nat>, s: seq<int>, c: int, q: nat)
    requires PosOf(t, pos, s) && c >= 0
    ensures Steps(t, s, c, q) <==>
      exists k :: 0 <= k < |pos| && pos[k] in Positions(t) && In(At(t, pos[k]), c) && Follows(t, pos[k], q)
  {
    if Steps(t, s, c, q) {
      var p: nat :| p in s && Reads1(t, p, c) && Follows(t, p, q);
      assert p in pos;
      var k :| 0 <= k < |pos| && pos[k] == p;
      assert In(At(t, pos[k]), c);
    }
    if k :| 0 <= k < |pos| && pos[k] in Positions(t) && In(At(t, pos[k]), c) && Follows(t, pos[k], q) {
      assert pos[k] in pos;
      assert Reads1(t, pos[k], c);
    }
  }

  lemma GatheredStep(t: Tnode, v: seq<seq<int>>, pos: seq<nat>, s: seq<int>, c: int, r: seq<int>)
    requires PosOf(t, pos, s) && c >= 0 && FollowTable(t, v)
    requires forall k :: 0 <= k < |pos| ==> pos[k] in Positions(t) && pos[k] < |v|
    requires Gathered(t, v, pos, |pos|, c, r)
    ensures IsStep(t, s, c, r)
  {
    forall x
      ensures x in r <==> x >= 0 && Steps(t, s, c, x)
    {
      if x in r {
        var k :| 0 <= k < |pos| && pos[k] < |v| && In(At(t, pos[k]), c) && x in v[pos[k]];
        assert FollowRow(t, pos[k], v[pos[k]]);
        StepsAt(t, pos, s, c, x);
      } else if x >= 0 {
        StepsAt(t, pos, s, c, x);
        forall k | 0 <= k < |pos| && In(At(t, pos[k]), c)
          ensures !Follows(t, pos[k], x)
        {
          assert FollowRow(t, pos[k], v[pos[k]]);
        }
      }
    }
  }

  /** Characters the positions do not tell apart lead to the same positions. */
  lemma SameSteps(t: Tnode, pos: seq<nat>, s: seq<int>, c: int, c': int, r: seq<int>)
    requires PosOf(t, pos, s) && c >= 0 && c' >= 0 && IsStep(t, s, c, r)
    requires forall k :: 0 <= k < |pos| && pos[k] in Positions(t) ==> (In(At(t, pos[k]), c) <==> In(At(t, pos[k]), c'))
    ensures IsStep(t, s, c', r)
  {
    forall q: nat
      ensures Steps(t, s, c, q) <==> Steps(t, s, c', q)
    {
      StepsAt(t, pos, s, c, q);
      StepsAt(t, pos, s, c', q);
    }
  }

  lemma NoSteps(t: Tnode, content: seq<seq<int>>, trans: seq<Tran>, s: seq<int>, pos: seq<nat>, c: int)
    requires PosOf(t, pos, s) && c >= 0 && (forall k :: 0 <= k < |trans| ==> trans[k].ch1 < c)
    requires forall k :: 0 <= k < |pos| && pos[k] in Positions(t) ==> !In(At(t, pos[k]), c)
    ensures StepDone(t, content, trans, s, c)
  {
    forall q: nat
      ensures !Steps(t, s, c, q)
    {
      StepsAt(t, pos, s, c, q);
    }
  }

  lemma OldStep(t: Tnode, content: seq<seq<int>>, trans: seq<Tran>, s: seq<int>, c: int, tr: Tran)
    requires StepDone(t, content, trans, s, c) && c < tr.ch0
    ensures StepDone(t, content, trans + [tr], s, c)
  {
    var trans' := trans + [tr];
    forall k
      ensures Takes(trans', k, c) <==> Takes(trans, k, c)
      ensures Takes(trans, k, c) ==> trans'[k] == trans[k]
    {
    }
  }

  lemma FirstStep(t: Tnode, s: seq<int>, c: int, r: seq<int>)
    requires IsStep(t, s, c, r) && r != []
    ensures exists q: nat :: Steps(t, s, c, q)
  {
    var x := r[0];
    assert x in r;
    assert x >= 0 && Steps(t, s, c, x);
  }

  lemma NewStep(t: Tnode, content: seq<seq<int>>, trans: seq<Tran>, s: seq<int>, c: int, tr: Tran)
    requires (forall k :: 0 <= k < |trans| ==> trans[k].ch1 < c) && tr.ch0 <= c <= tr.ch1 && tr.to < |content|
    requires IsStep(t, s, c, content[tr.to]) && content[tr.to] != []
    ensures StepDone(t, content, trans + [tr], s, c)
  {
    var trans', n := trans + [tr], |trans|;
    forall k
      ensures Takes(trans', k, c) <==> k == n
    {
    }
    var r := content[tr.to];
    FirstStep(t, s, c, r);
    assert Takes(trans', n, c);
  }

  /** A range of characters is done: its transition is the last one so far. */
  lemma ChunkDone(t: Tnode, content: seq<seq<int>>, trans: seq<Tran>, s: seq<int>, pos: seq<nat>, upto: int, char0: int,
                  char1: int, to: nat)
    requires Expanded(t, content, trans, s, upto) && PosOf(t, pos, s) && 0 <= upto <= char0 <= char1
    requires forall k :: 0 <= k < |pos| ==> pos[k] in Positions(t)
    requires forall k, c :: 0 <= k < |pos| && upto <= c < char0 ==> !In(At(t, pos[k]), c)
    requires Uniform(t, pos, |pos|, char0, char1)
    requires to < |content| && content[to] != [] && IsStep(t, s, char0, content[to])
    ensures Expanded(t, content, trans + [Tran(char0, char1, to)], s, char1 + 1)
  {
    var tr := Tran(char0, char1, to);
    forall c | 0 <= c < char1 + 1
      ensures StepDone(t, content, trans + [tr], s, c)
    {
      if c < char0 {
        if c >= upto { NoSteps(t, content, trans, s, pos, c); }
        OldStep(t, content, trans, s, c, tr);
      } else {
        SameSteps(t, pos, s, char0, c, content[to]);
        NewStep(t, content, trans, s, c, tr);
      }
    }
  }

  /** Up to where no position reads anything, there is nothing to add. */
  lemma GapDone(t: Tnode, content: seq<seq<int>>, trans: seq<Tran>, s: seq<int>, pos: seq<nat>, upto: int, char0: int)
    requires Expanded(t, content, trans, s, upto) && PosOf(t, pos, s) && 0 <= upto <= char0
    requires forall k :: 0 <= k < |pos| ==> pos[k] in Positions(t)
    requires forall k, c :: 0 <= k < |pos| && upto <= c < char0 ==> !In(At(t, pos[k]), c)
    ensures Expanded(t, content, trans, s, char0)
  {
    forall c | 0 <= c < char0
      ensures StepDone(t, content, trans, s, c)
    {
      if c >= upto { NoSteps(t, content, trans, s, pos, c); }
    }
  }

  /** On a range of characters with no next position there is nothing to add either. */
  lemma EmptyDone(t: Tnode, content: seq<seq<int>>, trans: seq<Tran>, s: seq<int>, pos: seq<nat>, char0: int,
                  char1: int)
    requires Expanded(t, content, trans, s, char0) && PosOf(t, pos, s) && 0 <= char0 <= char1
    requires forall k :: 0 <= k < |pos| ==> pos[k] in Positions(t)
    requires Uniform(t, pos, |pos|, char0, char1) && IsStep(t, s, char0, [])
    ensures Expanded(t, content, trans, s, char1 + 1)
  {
    forall c | char0 <= c < char1 + 1
      ensures StepDone(t, content, trans, s, c)
    {
      SameSteps(t, pos, s, char0, c, []);
      forall q: nat
        ensures !Steps(t, s, c, q)
      {
        assert q !in [];
      }
    }
  }

  lemma MoreContent(t: Tnode, content: seq<seq<int>>, content': seq<seq<int>>, trans: seq<Tran>, s: seq<int>, upto: int)
    requires Expanded(t, content, trans, s, upto) && content <= content'
    ensures Expanded(t, content', trans, s, upto)
  {
    forall c | 0 <= c < upto
      ensures StepDone(t, content', trans, s, c)
    {
      assert StepDone(t, content, trans, s, c);
    }
  }

  // ---------------------------------------------------------------- expanding a state

  /** The least rule among the first n elements of s, and the positions among them that read
      characters. */
  ghost predicate Scanned(t: Tnode, s: seq<int>, n: int, pos: seq<nat>, r: int)
    requires 0 <= n <= |s|
  {
    PosOf(t, pos, s[..n]) && RuleIs(t, s[..n], r)
  }

  lemma ScanChar(t: Tnode, s: seq<int>, n: nat, pos: seq<nat>, r: int, p: nat)
    requires n < |s| && s[n] == p && p in Positions(t) && At(t, p).ch0 >= 0 && Scanned(t, s, n, pos, r)
    ensures Scanned(t, s, n + 1, pos + [p], r)
  {
    assert s[..n + 1] == s[..n] + [p];
  }

  lemma RuleSnoc(t: Tnode, a: seq<int>, r: int, p: nat)
    requires RuleIs(t, a, r) && p in Positions(t) && At(t, p).ch0 < 0
    ensures RuleIs(t, a + [p], if r == 0 || At(t, p).ch0 > -r then -At(t, p).ch0 else r)
  {
    var b := a + [p];
    var r' := if r == 0 || At(t, p).ch0 > -r then -At(t, p).ch0 else r;
    if r' == -At(t, p).ch0 {
      assert p in b;
    } else {
      var q: nat :| q in a && q in Positions(t) && At(t, q).ch0 == -r;
      assert q in b;
    }
    forall q: nat | q in b && q in Positions(t) && At(t, q).ch0 < 0
      ensures -At(t, q).ch0 >= r'
    {
      if q != p { assert q in a; }
    }
  }

  lemma PosSnoc(t: Tnode, pos: seq<nat>, a: seq<int>, p: nat)
    requires PosOf(t, pos, a) && p in Positions(t) && At(t, p).ch0 < 0
    ensures PosOf(t, pos, a + [p])
  {
  }

  lemma ScanEnd(t: Tnode, s: seq<int>, n: nat, pos: seq<nat>, r: int, p: nat)
    requires n < |s| && s[n] == p && p in Positions(t) && At(t, p).ch0 < 0 && Scanned(t, s, n, pos, r)
    ensures Scanned(t, s, n + 1, pos, if r == 0 || At(t, p).ch0 > -r then -At(t, p).ch0 else r)
  {
    hide PosOf, RuleIs;
    assert s[..n + 1] == s[..n] + [p];
    PosSnoc(t, pos, s[..n], p);
    RuleSnoc(t, s[..n], r, p);
  }

  ghost predicate LeavesOk(t: Tnode, posar: seq<Tnode>) {
    forall p :: p in Positions(t) ==> p < |posar| && posar[p] == At(t, p)
  }

  /** The positions of a state that read characters, and its rule. */
  method CharPositions(ghost t: Tnode, pool: S.SetPool, posar: array<Tnode>, set_: nat)
    returns (pos: seq<nat>, rule: int)
    requires pool.Valid() && set_ in pool.sets && Inside(t, pool.sets[set_]) && CharsOk(t) && LeavesOk(t, posar[..])
    ensures Chars(t, posar[..], pos) && PosOf(t, pos, pool.sets[set_]) && RuleIs(t, pool.sets[set_], rule)
  {
    hide *;
    ghost var x := pool.sets[set_];
    pos := [];
    var i := 0;
    var c := set_;
    ghost var j := 0;
    pool.ReadStart2(set_);
    ScanStart(t, x, posar[..]);
    while c != 0
      invariant S.Cursor(pool.lists, pool.sets, set_, j, c) && j <= |x| && S.Elems(pool.sets, set_) == x
      invariant Chars(t, posar[..], pos) && Scanned(t, x, j, pos, -i)
      decreases |x| - j
    {
      pool.CursorEnd([], set_, j, c);
      var p := pool.value[c];
      ScanAt(t, posar[..], x, j, pos);
      var ch := posar[p].ch0;
      if ch >= 0 && ch <= MAX_CHAR {
        ScanChar(t, x, j, pos, -i, p);
        pos := pos + [p];
      } else if ch < 0 {
        ScanEnd(t, x, j, pos, -i, p);
        if i == 0 || ch > i { i := ch; }
      }
      c, j := pool.next[c], j + 1;
    }
    pool.CursorEnd([], set_, j, c);
    ScanDone(t, x, pos, -i);
    rule := -i;
  }

  lemma ScanStart(t: Tnode, s: seq<int>, posar: seq<Tnode>)
    ensures Scanned(t, s, 0, [], 0) && Chars(t, posar, [])
  {
  }

  lemma ScanAt(t: Tnode, posar: seq<Tnode>, s: seq<int>, j: nat, pos: seq<nat>)
    requires LeavesOk(t, posar) && CharsOk(t) && Inside(t, s) && j < |s| && Chars(t, posar, pos)
    ensures s[j] >= 0 && s[j] in Positions(t) && s[j] < |posar| && posar[s[j]] == At(t, s[j]) && posar[s[j]].Leaf?
    ensures At(t, s[j]).ch0 <= MAX_CHAR
    ensures At(t, s[j]).ch0 >= 0 ==> Chars(t, posar, pos + [s[j]])
  {
    assert s[j] in s;
  }

  lemma ScanDone(t: Tnode, s: seq<int>, pos: seq<nat>, r: int)
    requires Scanned(t, s, |s|, pos, r)
    ensures PosOf(t, pos, s) && RuleIs(t, s, r)
  {
    assert s[..|s|] == s;
  }

  ghost predicate AllInside(t: Tnode, content: seq<seq<int>>) {
    forall i :: 0 <= i < |content| ==> Inside(t, content[i])
  }

  /** The tree with what the traversal has filled in. */
  ghost predicate Known(t: Tnode, v: seq<seq<int>>, posar: seq<Tnode>) {
    Linear(t) && CharsOk(t) && FollowTable(t, v) && LeavesOk(t, posar) && |posar| == |v|
  }

  ghost function Handles(states: seq<State>): set<nat> {
    set i | 0 <= i < |states| :: states[i].set_
  }

  /** State no is being expanded: its transitions are right for the characters below char1. */
  ghost predicate Expanding(d: StateTable, followpos: array<nat>, posar: array<Tnode>, t: Tnode, v: seq<seq<int>>,
                            keep: set<nat>, no: nat, pos: seq<nat>, char1: int)
    reads d, d.hasharray, d.pool, followpos, posar
  {
    && d.Ok(keep) && Steady(d.pool, followpos, v, keep) && Known(t, v, posar[..]) && followpos.Length == |v|
    && d.marked != [] && d.marked[0] == no && no < |d.content| == |d.states| && AllInside(t, d.content)
    && Chars(t, posar[..], pos) && PosOf(t, pos, d.content[no])
    && Expanded(t, d.content, TransOf(d.blocks, d.states[no]), d.content[no], char1)
  }

  lemma ExpandingParts(d: StateTable, followpos: array<nat>, posar: array<Tnode>, t: Tnode, v: seq<seq<int>>,
                       keep: set<nat>, no: nat, pos: seq<nat>, char1: int)
    requires Expanding(d, followpos, posar, t, v, keep, no, pos, char1)
    ensures d.Ok(keep) && Steady(d.pool, followpos, v, keep) && Known(t, v, posar[..])
    ensures followpos.Length == |v| == posar.Length
    ensures d.marked != [] && d.marked[0] == no && no < |d.content| == |d.states| && AllInside(t, d.content)
    ensures Chars(t, posar[..], pos) && PosOf(t, pos, d.content[no]) && FollowTable(t, v)
    ensures Expanded(t, d.content, TransOf(d.blocks, d.states[no]), d.content[no], char1)
    ensures forall k :: 0 <= k < |pos| ==> pos[k] in Positions(t) && pos[k] < |v|
  {
    hide StateTable.Ok, Steady, PosOf, Expanded, AllInside, FollowTable, CharsOk;
  }

  /** What is reserved while the next positions are gathered: the follow sets and the states' sets. */
  lemma Reserve(d: StateTable, followpos: array<nat>, v: seq<seq<int>>, keep: set<nat>)
    requires d.Ok(keep) && Steady(d.pool, followpos, v, keep)
    ensures Steady(d.pool, followpos, v, keep + Handles(d.states))
    ensures SetsOk(d.pool.sets, d.states, d.content, keep) && HashOk(d.hasharray[..], d.content)
    ensures ListsOk(d.unmarked, d.marked, |d.states|) && BlocksOk(d.blocks, d.sizes, d.states, d.marked)
  {
    hide S.Rep, HashOk, ListsOk, BlocksOk;
  }

  lemma Reserved(sets0: Sets, sets1: Sets, states: seq<State>, content: seq<seq<int>>, keep: set<nat>, s: nat)
    requires SetsOk(sets0, states, content, keep) && Kept(sets0, sets1, keep + Handles(states)) && 0 !in sets1
    requires s !in keep + Handles(states)
    ensures SetsOk(sets1, states, content, keep) && Kept(sets0, sets1, keep)
    ensures s !in keep && (forall i :: 0 <= i < |states| ==> states[i].set_ != s)
  {
    assert forall i :: 0 <= i < |states| ==> states[i].set_ in keep + Handles(states);
  }

  lemma SteadyLess(pool: S.SetPool, followpos: array<nat>, v: seq<seq<int>>, sets0: Sets, keep: set<nat>,
                   more: set<nat>, f: seq<nat>)
    requires Steady(pool, followpos, v, keep + more) && Keeps(sets0, f, keep) && f == followpos[..]
    ensures Steady(pool, followpos, v, keep) && 0 !in pool.sets && pool.Valid() && pool.chunk > 8
  {
    hide S.Rep;
  }

  lemma SteadyKept(pool: S.SetPool, followpos: array<nat>, v: seq<seq<int>>, sets0: Sets, keep: set<nat>, f: seq<nat>)
    requires Keeps(sets0, f, keep) && View(sets0, f) == v && f == followpos[..] && Kept(sets0, pool.sets, keep)
    requires pool.Valid() && pool.chunk > 8 && 0 !in pool.sets
    ensures Steady(pool, followpos, v, keep)
  {
    hide S.Rep;
    KeepsView(sets0, pool.sets, f, keep);
  }

  lemma KeepsOf(pool: S.SetPool, followpos: array<nat>, v: seq<seq<int>>, keep: set<nat>)
    requires Steady(pool, followpos, v, keep)
    ensures Keeps(pool.sets, followpos[..], keep) && View(pool.sets, followpos[..]) == v && pool.Valid()
    ensures pool.chunk > 8
  {
  }

  lemma InsideStep(t: Tnode, s: seq<int>, c: int, r: seq<int>)
    requires IsStep(t, s, c, r) && S.Ascending(r)
    ensures Inside(t, r)
  {
    forall x: int | x in r
      ensures x >= 0 && x in Positions(t)
    {
      var p: nat :| p in s && Reads1(t, p, c) && Follows(t, p, x);
      FollowsInside(t, p, x);
    }
  }

  /** What expanding state no leaves as it was. */
  ghost predicate Frame(content0: seq<seq<int>>, states0: seq<State>, blocks0: seq<seq<Tran>>, content1: seq<seq<int>>,
                        states1: seq<State>, blocks1: seq<seq<Tran>>, marked: seq<nat>, no: nat)
  {
    && content0 <= content1 && |states0| <= |states1|
    && (forall i :: 0 <= i < |states0| ==> states1[i].ruleNo == states0[i].ruleNo)
    && (forall i :: 0 <= i < |states0| && i in marked && i != no ==>
        TransOf(blocks1, states1[i]) == TransOf(blocks0, states0[i]))
  }

  /** The next range of characters of state no: its next positions get a state if they have none,
      and the state a transition. */
  method NextChunk(d: StateTable, followpos: array<nat>, posar: array<Tnode>, ghost t: Tnode, ghost v: seq<seq<int>>,
                   ghost keep: set<nat>, no: nat, pos: seq<nat>, char1: int)
    returns (next: int)
    requires Expanding(d, followpos, posar, t, v, keep, no, pos, char1) && 0 <= char1 <= MAX_CHAR
    modifies d, d.hasharray, d.pool
    ensures Expanding(d, followpos, posar, t, v, keep, no, pos, next) && char1 < next <= MAX_CHAR + 1
    ensures d.marked == old(d.marked) && Kept(old(d.pool.sets), d.pool.sets, keep)
    ensures Frame(old(d.content), old(d.states), old(d.blocks), d.content, d.states, d.blocks, d.marked, no)
  {
    hide *;
    ExpandingParts(d, followpos, posar, t, v, keep, no, pos, char1);
    ghost var content0, states0, blocks0, marked0, sets0, s := d.content, d.states, d.blocks, d.marked, d.pool.sets,
      d.content[no];
    var char0 := FirstChar(t, posar, pos, char1);
    GapDone(t, d.content, TransOf(d.blocks, d.states[no]), s, pos, char1, char0);
    if char0 > MAX_CHAR {
      Reexpand(d, followpos, posar, t, v, keep, no, pos, char0);
      NoFrame(content0, states0, blocks0, marked0, sets0, keep, no);
      return char0;
    }
    Reserve(d, followpos, v, keep);
    KeepsOf(d.pool, followpos, v, keep);
    ghost var hash0, f0, posar0 := d.hasharray[..], followpos[..], posar[..];
    var c1, tranSet := Chunk(t, d.pool, followpos, posar, v, pos, char0, keep + Handles(d.states));
    ghost var sets1, r := d.pool.sets, S.Elems(d.pool.sets, tranSet);
    assert d.hasharray[..] == hash0 && followpos[..] == f0 && posar[..] == posar0;
    SteadyLess(d.pool, followpos, v, sets0, keep, Handles(d.states), f0);
    Reserved(sets0, sets1, d.states, d.content, keep, tranSet);
    d.Whole(keep);
    GatheredStep(t, v, pos, s, char0, r);
    if tranSet == 0 {
      EmptyDone(t, d.content, TransOf(d.blocks, d.states[no]), s, pos, char0, c1);
      Reexpand(d, followpos, posar, t, v, keep, no, pos, c1 + 1);
      NoFrame(content0, states0, blocks0, marked0, sets0, keep, no);
      return c1 + 1;
    }
    next := c1 + 1;
    Reexpand(d, followpos, posar, t, v, keep, no, pos, char0);
    TakeStep(d, followpos, posar, t, v, keep, no, pos, char0, c1, tranSet);
    KeptTrans(sets0, sets1, d.pool.sets, keep);
  }

  lemma Reexpand(d: StateTable, followpos: array<nat>, posar: array<Tnode>, t: Tnode, v: seq<seq<int>>, keep: set<nat>,
                 no: nat, pos: seq<nat>, char1: int)
    requires d.Ok(keep) && Steady(d.pool, followpos, v, keep) && Known(t, v, posar[..]) && followpos.Length == |v|
    requires d.marked != [] && d.marked[0] == no && no < |d.content| == |d.states| && AllInside(t, d.content)
    requires Chars(t, posar[..], pos) && PosOf(t, pos, d.content[no])
    requires Expanded(t, d.content, TransOf(d.blocks, d.states[no]), d.content[no], char1)
    ensures Expanding(d, followpos, posar, t, v, keep, no, pos, char1)
  {
  }

  lemma NoFrame(content: seq<seq<int>>, states: seq<State>, blocks: seq<seq<Tran>>, marked: seq<nat>, sets: Sets,
                keep: set<nat>, no: nat)
    ensures Frame(content, states, blocks, content, states, blocks, marked, no) && Kept(sets, sets, keep)
    ensures MAX_CHAR >= 0
  {
  }

  /** The gathered positions become a state, to which a transition leads. */
  method TakeStep(d: StateTable, followpos: array<nat>, posar: array<Tnode>, ghost t: Tnode, ghost v: seq<seq<int>>,
                  ghost keep: set<nat>, no: nat, pos: seq<nat>, char0: int, char1: int, tranSet: nat)
    requires Expanding(d, followpos, posar, t, v, keep, no, pos, char0) && 0 <= char0 <= char1 <= MAX_CHAR
    requires tranSet in d.pool.sets && tranSet !in keep
    requires (forall i :: 0 <= i < |d.states| ==> d.states[i].set_ != tranSet)
    requires forall k :: 0 <= k < |pos| ==> pos[k] in Positions(t)
    requires IsStep(t, d.content[no], char0, S.Elems(d.pool.sets, tranSet)) && Uniform(t, pos, |pos|, char0, char1)
    modifies d, d.hasharray, d.pool
    ensures Expanding(d, followpos, posar, t, v, keep, no, pos, char1 + 1)
    ensures d.marked == old(d.marked) && Kept(old(d.pool.sets), d.pool.sets, keep)
    ensures Frame(old(d.content), old(d.states), old(d.blocks), d.content, d.states, d.blocks, d.marked, no)
  {
    hide *;
    ExpandingParts(d, followpos, posar, t, v, keep, no, pos, char0);
    d.Start(keep, tranSet);
    d.pool.GetAscending(tranSet);
    KeepsOf(d.pool, followpos, v, keep);
    ghost var content1, states1, blocks1, sets1, marked1 := d.content, d.states, d.blocks, d.pool.sets, d.marked;
    ghost var f0, posar0, s, r := followpos[..], posar[..], d.content[no], S.Elems(d.pool.sets, tranSet);
    InsideStep(t, s, char0, r);
    var to, added := d.AddState(tranSet, keep);
    assert followpos[..] == f0 && posar[..] == posar0;
    ghost var content2, states2, blocks2 := d.content, d.states, d.blocks;
    InsideMore(t, content1, content2, r, added);
    MoreContent(t, content1, content2, TransOf(blocks1, states1[no]), s, char0);
    d.Start(keep, 0);
    SetsZero(d.pool.sets, states2, content2, keep);
    SteadyKept(d.pool, followpos, v, sets1, keep, f0);
    d.AddTran(no, char0, char1, to, keep);
    ChunkDone(t, content2, TransOf(blocks1, states1[no]), s, pos, char0, char0, char1, to);
    StepFrame(content1, states1, blocks1, content2, states2, d.states, d.blocks, marked1, no);
    d.Start(keep, 0);
    Reexpand(d, followpos, posar, t, v, keep, no, pos, char1 + 1);
  }

  lemma SetsZero(sets: Sets, states: seq<State>, content: seq<seq<int>>, keep: set<nat>)
    requires SetsOk(sets, states, content, keep)
    ensures 0 !in sets
  {
  }

  lemma InsideMore(t: Tnode, content0: seq<seq<int>>, content1: seq<seq<int>>, r: seq<int>, added: bool)
    requires AllInside(t, content0) && Inside(t, r) && content1 == if added then content0 + [r] else content0
    ensures AllInside(t, content1) && content0 <= content1
  {
  }

  lemma StepFrame(content0: seq<seq<int>>, states0: seq<State>, blocks: seq<seq<Tran>>, content1: seq<seq<int>>,
                  states1: seq<State>, states2: seq<State>, blocks2: seq<seq<Tran>>, marked: seq<nat>, no: nat)
    requires content0 <= content1 && |states0| <= |states1| == |states2| && states1[..|states0|] == states0
    requires forall i :: 0 <= i < |states1| && i in marked && i != no ==>
      TransOf(blocks2, states2[i]) == TransOf(blocks, states1[i])
    requires forall i :: 0 <= i < |states1| ==> states2[i].ruleNo == states1[i].ruleNo
    ensures Frame(content0, states0, blocks, content1, states2, blocks2, marked, no)
  {
    assert forall i :: 0 <= i < |states0| ==> states1[i] == states0[i];
  }

  /** Expands state no over all characters. */
  method ExpandState(d: StateTable, followpos: array<nat>, posar: array<Tnode>, ghost t: Tnode, ghost v: seq<seq<int>>,
                     ghost keep: set<nat>, no: nat, pos: seq<nat>)
    requires Expanding(d, followpos, posar, t, v, keep, no, pos, 0)
    modifies d, d.hasharray, d.pool
    ensures Expanding(d, followpos, posar, t, v, keep, no, pos, MAX_CHAR + 1)
    ensures d.marked == old(d.marked) && Kept(old(d.pool.sets), d.pool.sets, keep)
    ensures Frame(old(d.content), old(d.states), old(d.blocks), d.content, d.states, d.blocks, d.marked, no)
  {
    hide *;
    ghost var content0, states0, blocks0, sets0 := d.content, d.states, d.blocks, d.pool.sets;
    NoFrame(content0, states0, blocks0, d.marked, sets0, keep, no);
    var char1 := 0;
    while char1 <= MAX_CHAR
      invariant 0 <= char1 <= MAX_CHAR + 1 && Expanding(d, followpos, posar, t, v, keep, no, pos, char1)
      invariant d.marked == old(d.marked) && Kept(sets0, d.pool.sets, keep)
      invariant Frame(content0, states0, blocks0, d.content, d.states, d.blocks, d.marked, no)
    {
      ghost var content1, states1, blocks1, sets1 := d.content, d.states, d.blocks, d.pool.sets;
      char1 := NextChunk(d, followpos, posar, t, v, keep, no, pos, char1);
      FrameTrans(content0, states0, blocks0, content1, states1, blocks1, d.content, d.states, d.blocks, d.marked, no);
      KeptTrans(sets0, sets1, d.pool.sets, keep);
    }
  }

  lemma FrameTrans(content0: seq<seq<int>>, states0: seq<State>, blocks0: seq<seq<Tran>>, content1: seq<seq<int>>,
                   states1: seq<State>, blocks1: seq<seq<Tran>>, content2: seq<seq<int>>, states2: seq<State>,
                   blocks2: seq<seq<Tran>>, marked: seq<nat>, no: nat)
    requires Frame(content0, states0, blocks0, content1, states1, blocks1, marked, no)
    requires Frame(content1, states1, blocks1, content2, states2, blocks2, marked, no)
    ensures Frame(content0, states0, blocks0, content2, states2, blocks2, marked, no)
  {
  }

  // ---------------------------------------------------------------- the worklist

  ghost function Power(t: Tnode): set<set<nat>> {
    set s | s <= Positions(t)
  }

  ghost function ToSet(t: Tnode, s: seq<int>): set<nat> {
    set p | p in Positions(t) && p in s
  }

  ghost function SetsOf(t: Tnode, content: seq<seq<int>>): set<set<nat>> {
    if content == [] then {} else SetsOf(t, content[..|content| - 1]) + {ToSet(t, content[|content| - 1])}
  }

  lemma {:induction false} SetsOfIn(t: Tnode, content: seq<seq<int>>, s: set<nat>)
    requires s in SetsOf(t, content)
    ensures exists i :: 0 <= i < |content| && s == ToSet(t, content[i])
  {
    var n := |content| - 1;
    if s in SetsOf(t, content[..n]) {
      SetsOfIn(t, content[..n], s);
      var i :| 0 <= i < n && s == ToSet(t, content[..n][i]);
      assert content[..n][i] == content[i];
    }
  }

  lemma SameSet(t: Tnode, a: seq<int>, b: seq<int>)
    requires Inside(t, a) && Inside(t, b) && ToSet(t, a) == ToSet(t, b)
    ensures a == b
  {
    forall x: int
      ensures x in a <==> x in b
    {
      if x in a { assert x in ToSet(t, a); }
      if x in b { assert x in ToSet(t, b); }
    }
    S.AscendingEqual(a, b);
  }

  /** There are no more states than sets of positions. */
  lemma {:induction false} StatesBound(t: Tnode, content: seq<seq<int>>)
    requires AllInside(t, content) && Distinct(content)
    ensures |SetsOf(t, content)| == |content| && SetsOf(t, content) <= Power(t)
  {
    if content != [] {
      var n := |content| - 1;
      StatesBound(t, content[..n]);
      var last := ToSet(t, content[n]);
      if last in SetsOf(t, content[..n]) {
        SetsOfIn(t, content[..n], last);
        var i :| 0 <= i < n && last == ToSet(t, content[..n][i]);
        SameSet(t, content[i], content[n]);
      }
    }
  }

  lemma SubsetSize<T>(a: set<T>, b: set<T>)
    requires a <= b
    ensures |a| <= |b|
  {
    if a != {} {
      var x :| x in a;
      SubsetSize(a - {x}, b - {x});
    }
  }

  lemma AddOne<T>(a: set<T>, x: T)
    requires x !in a
    ensures |a + {x}| == |a| + 1
  {
  }

  function Range(n: nat): set<nat> {
    if n == 0 then {} else Range(n - 1) + {n - 1}
  }

  lemma {:induction false} RangeIs(n: nat, x: nat)
    ensures x in Range(n) <==> x < n
  {
    if n > 0 { RangeIs(n - 1, x); }
  }

  lemma {:induction false} RangeSize(n: nat)
    ensures |Range(n)| == n
  {
    if n > 0 {
      RangeSize(n - 1);
      RangeIs(n - 1, n - 1);
      AddOne(Range(n - 1), n - 1);
    }
  }

  function Members(s: seq<nat>): set<nat> {
    set x | x in s
  }

  lemma {:induction false} DistinctSize(s: seq<nat>)
    requires Distinct(s)
    ensures |Members(s)| == |s|
  {
    if s != [] {
      var n := |s| - 1;
      DistinctSize(s[..n]);
      forall i | 0 <= i < n
        ensures s[..n][i] != s[n]
      {
      }
      AddOne(Members(s[..n]), s[n]);
      assert s == s[..n] + [s[n]];
      assert Members(s) == Members(s[..n]) + {s[n]};
    } else {
      assert Members(s) == {};
    }
  }

  /** Distinct numbers below n are at most n. */
  lemma DistinctBound(s: seq<nat>, n: nat)
    requires Distinct(s) && forall i :: 0 <= i < |s| ==> s[i] < n
    ensures |s| <= n
  {
    DistinctSize(s);
    forall x | x in Members(s)
      ensures x in Range(n)
    {
      RangeIs(n, x);
    }
    RangeSize(n);
    SubsetSize(Members(s), Range(n));
  }

  /** Each expanded state does what its positions say. */
  ghost predicate Done(t: Tnode, content: seq<seq<int>>, states: seq<State>, blocks: seq<seq<Tran>>, marked: seq<nat>) {
    && |states| == |content|
    && (forall i :: 0 <= i < |content| && i in marked ==> StateDone(t, content, states, blocks, i))
  }

  ghost predicate StateDone(t: Tnode, content: seq<seq<int>>, states: seq<State>, blocks: seq<seq<Tran>>, i: nat)
    requires i < |content| == |states|
  {
    && Expanded(t, content, TransOf(blocks, states[i]), content[i], MAX_CHAR + 1)
    && RuleIs(t, content[i], states[i].ruleNo)
  }

  /** The finished automaton: it starts with the first positions, and every state is expanded. */
  ghost predicate Built(t: Tnode, content: seq<seq<int>>, states: seq<State>, blocks: seq<seq<Tran>>) {
    && |states| == |content| > 0 && Lists(content[0], First(t))
    && (forall i :: 0 <= i < |content| ==> StateDone(t, content, states, blocks, i) && Inside(t, content[i]))
  }

  /** Builds the automaton of a tree. States are expanded until none is waiting. */
  method MkDfaTran(pool: S.SetPool, followpos: array<nat>, posar: array<Tnode>, ghost t: Tnode, ghost v: seq<seq<int>>,
                   firstpos: nat, ghost keep: set<nat>)
    returns (d: StateTable)
    requires Steady(pool, followpos, v, keep) && Known(t, v, posar[..]) && followpos.Length == |v|
    requires firstpos in keep && Lists(S.Elems(pool.sets, firstpos), First(t))
    modifies pool
    ensures fresh(d) && d.unmarked == [] && Built(t, d.content, d.states, d.blocks)
  {
    hide *;
    KeepsOf(pool, followpos, v, keep);
    ghost var sets0, f0, posar0 := pool.sets, followpos[..], posar[..];
    KeepsIn(sets0, f0, keep, firstpos);
    CopyReady(pool, firstpos);
    FirstInside(t, S.Elems(sets0, firstpos));
    var tranSet := pool.CopySet(firstpos);
    CopyDone(sets0, f0, keep, tranSet, S.Elems(sets0, firstpos));
    assert followpos[..] == f0 && posar[..] == posar0;
    SteadyKept(pool, followpos, v, sets0, keep, f0);
    KeepsIn(pool.sets, f0, keep, firstpos);
    KeepsOf(pool, followpos, v, keep);
    d := new StateTable(pool, keep);
    ghost var sets1 := pool.sets;
    d.Start(keep, 0);
    var no, added := d.AddState(tranSet, keep);
    assert followpos[..] == f0 && posar[..] == posar0;
    d.Start(keep, 0);
    SetsZero(pool.sets, d.states, d.content, keep);
    SteadyKept(pool, followpos, v, sets1, keep, f0);
    var next := d.GetState(keep);
    WaitStart(d, followpos, posar, t, v, keep, next, S.Elems(sets0, firstpos));
    while next != -1
      invariant d.pool == pool && fresh(d) && fresh(d.hasharray) && followpos[..] == f0 && posar[..] == posar0
      invariant Waiting(d, followpos, posar, t, v, keep, next) && next >= -1
      decreases if next == -1 then 0 else |Power(t)| - |d.marked| + 1
    {
      MarkedBound(d, followpos, posar, t, v, keep, next);
      next := Work(d, followpos, posar, t, v, keep, next);
      MarkedBound(d, followpos, posar, t, v, keep, next);
      assert followpos[..] == f0 && posar[..] == posar0;
    }
    WaitEnd(d, followpos, posar, t, v, keep);
  }

  /** The worklist: all states taken off it but the last are done. */
  ghost predicate Waiting(d: StateTable, followpos: array<nat>, posar: array<Tnode>, t: Tnode, v: seq<seq<int>>,
                          keep: set<nat>, next: int)
    reads d, d.hasharray, d.pool, followpos, posar
  {
    && d.Ok(keep) && Steady(d.pool, followpos, v, keep) && Known(t, v, posar[..]) && followpos.Length == |v|
    && AllInside(t, d.content) && d.content != [] && Lists(d.content[0], First(t))
    && (next == -1 ==> d.unmarked == [] && Done(t, d.content, d.states, d.blocks, d.marked))
    && (next != -1 ==>
      && 0 <= next < |d.content| == |d.states| && d.marked != [] && d.marked[0] == next
      && TransOf(d.blocks, d.states[next]) == [] && Done(t, d.content, d.states, d.blocks, d.marked[1..]))
  }

  method Work(d: StateTable, followpos: array<nat>, posar: array<Tnode>, ghost t: Tnode, ghost v: seq<seq<int>>,
              ghost keep: set<nat>, no: int)
    returns (next: int)
    requires Waiting(d, followpos, posar, t, v, keep, no) && no >= 0
    modifies d, d.hasharray, d.pool
    ensures Waiting(d, followpos, posar, t, v, keep, next)
    ensures next >= -1 && (next != -1 ==> |d.marked| == |old(d.marked)| + 1)
  {
    hide *;
    WaitParts(d, followpos, posar, t, v, keep, no);
    ghost var content0, states0, blocks0, marked, rest := d.content, d.states, d.blocks, d.marked, d.marked[1..];
    ghost var f0, posar0 := followpos[..], posar[..];
    MarkedDistinct(d.unmarked, marked, |states0|);
    var pos, rule := CharPositions(t, d.pool, posar, d.states[no].set_);
    d.SetRule(no, rule, keep);
    ghost var states1 := d.states;
    StartExpanding(d, followpos, posar, t, v, keep, no, pos, states0);
    ghost var set0 := d.pool.sets;
    ExpandState(d, followpos, posar, t, v, keep, no, pos);
    ghost var states2 := d.states;
    assert posar[..] == posar0;
    ExpandingParts(d, followpos, posar, t, v, keep, no, pos, MAX_CHAR + 1);
    RuleFrame(content0, states0, states1, blocks0, d.content, states2, d.blocks, marked, no);
    AfterExpand(t, content0, states0, states1, blocks0, d.content, states2, d.blocks, marked, no, rest, rule,
                d.unmarked);
    next := d.GetState(keep);
    WaitNext(d, followpos, posar, t, v, keep, next, states2, marked);
  }

  lemma RuleFrame(content0: seq<seq<int>>, states0: seq<State>, states1: seq<State>, blocks0: seq<seq<Tran>>,
                  content2: seq<seq<int>>, states2: seq<State>, blocks2: seq<seq<Tran>>, marked: seq<nat>, no: nat)
    requires Frame(content0, states1, blocks0, content2, states2, blocks2, marked, no)
    requires |states1| == |states0| && forall i :: 0 <= i < |states0| && i != no ==> states1[i] == states0[i]
    ensures content0 <= content2 && |states0| <= |states2|
    ensures forall i :: 0 <= i < |states0| && i != no ==> states2[i].ruleNo == states0[i].ruleNo
    ensures forall i :: 0 <= i < |states0| && i in marked && i != no ==>
      TransOf(blocks2, states2[i]) == TransOf(blocks0, states0[i])
    ensures no < |states0| ==> states2[no].ruleNo == states1[no].ruleNo
  {
    hide TransOf;
  }

  lemma AfterExpand(t: Tnode, content0: seq<seq<int>>, states0: seq<State>, states1: seq<State>,
                    blocks0: seq<seq<Tran>>, content2: seq<seq<int>>, states2: seq<State>, blocks2: seq<seq<Tran>>,
                    marked: seq<nat>, no: nat, rest: seq<nat>, rule: int, unmarked: seq<nat>)
    requires Done(t, content0, states0, blocks0, rest) && marked != [] && marked[0] == no && rest == marked[1..]
    requires no < |content0|
    requires content0 <= content2 && |content2| == |states2| && |states1| == |states0| && no < |states1|
    requires states1[no].ruleNo == rule
    requires forall i :: 0 <= i < |states0| && i != no ==> states2[i].ruleNo == states0[i].ruleNo
    requires forall i :: 0 <= i < |states0| && i in marked && i != no ==>
      TransOf(blocks2, states2[i]) == TransOf(blocks0, states0[i])
    requires states2[no].ruleNo == rule && RuleIs(t, content0[no], rule)
    requires Expanded(t, content2, TransOf(blocks2, states2[no]), content2[no], MAX_CHAR + 1)
    requires Distinct(marked) && forall i :: 0 <= i < |marked| ==> marked[i] < |content0|
    ensures Done(t, content2, states2, blocks2, marked)
  {
    assert marked == [no] + rest;
    hide TransOf, RuleIs, Expanded;
    forall i | 0 <= i < |content2| && i in marked
      ensures StateDone(t, content2, states2, blocks2, i)
    {
      if i != no {
        assert i in rest && StateDone(t, content0, states0, blocks0, i);
        assert content2[i] == content0[i];
        MoreContent(t, content0, content2, TransOf(blocks0, states0[i]), content0[i], MAX_CHAR + 1);
      }
    }
  }

  lemma WaitNext(d: StateTable, followpos: array<nat>, posar: array<Tnode>, t: Tnode, v: seq<seq<int>>, keep: set<nat>,
                 next: int, states: seq<State>, marked: seq<nat>)
    requires d.Ok(keep) && Steady(d.pool, followpos, v, keep) && Known(t, v, posar[..]) && followpos.Length == |v|
    requires AllInside(t, d.content) && d.content != [] && Lists(d.content[0], First(t))
    requires Done(t, d.content, states, d.blocks, marked)
    requires next == -1 ==> d.unmarked == [] && d.marked == marked && d.states == states
    requires next != -1 ==>
      0 <= next < |d.states| && d.marked == [next] + marked && TransOf(d.blocks, d.states[next]) == []
    requires next != -1 ==>
      |d.states| == |states| && forall i :: 0 <= i < |states| && i != next ==> d.states[i] == states[i]
    ensures Waiting(d, followpos, posar, t, v, keep, next)
  {
    OkLists(d, keep);
    hide StateTable.Ok, Steady, Known, Lists, TransOf, AllInside, RuleIs, Expanded;
    if next != -1 {
      assert d.marked[1..] == marked;
      NextNotMarked(d.unmarked, d.marked, |d.states|);
      forall i | 0 <= i < |d.content| && i in marked
        ensures StateDone(t, d.content, d.states, d.blocks, i)
      {
        assert StateDone(t, d.content, states, d.blocks, i);
      }
    }
  }

  lemma NextNotMarked(unmarked: seq<nat>, marked: seq<nat>, no: nat)
    requires ListsOk(unmarked, marked, no) && marked != []
    ensures marked[0] !in marked[1..]
  {
    MarkedDistinct(unmarked, marked, no);
  }

  lemma KeepsIn(sets: Sets, f: seq<nat>, keep: set<nat>, h: nat)
    requires Keeps(sets, f, keep) && h in keep
    ensures h in sets && h != 0 && (forall k :: k in keep ==> k in sets) && 0 !in sets
  {
  }

  lemma CopyReady(pool: S.SetPool, h: nat)
    requires pool.Valid() && h in pool.sets
    ensures pool.IsSet(h) && pool.Get(h) == S.Elems(pool.sets, h) && pool.Get(h) != [] && S.Ascending(pool.Get(h))
  {
    hide S.Rep;
    pool.Filled(h);
    pool.GetAscending(h);
  }

  lemma CopyDone(sets: Sets, f: seq<nat>, keep: set<nat>, r: nat, s: seq<int>)
    requires Keeps(sets, f, keep) && r !in sets && r != 0 && s != []
    ensures Kept(sets, S.Put(sets, r, s), keep) && 0 !in S.Put(sets, r, s) && r in S.Put(sets, r, s) && r !in keep
    ensures Keeps(S.Put(sets, r, s), f, keep) && S.Elems(S.Put(sets, r, s), r) == s
  {
  }

  lemma FirstInside(t: Tnode, s: seq<int>)
    requires Lists(s, First(t)) && S.Ascending(s)
    ensures Inside(t, s)
  {
    forall x: int | x in s
      ensures x >= 0 && x in Positions(t)
    {
      assert x in First(t);
    }
  }

  lemma WaitStart(d: StateTable, followpos: array<nat>, posar: array<Tnode>, t: Tnode, v: seq<seq<int>>, keep: set<nat>,
                  next: int, s: seq<int>)
    requires d.Ok(keep) && Steady(d.pool, followpos, v, keep) && Known(t, v, posar[..]) && followpos.Length == |v|
    requires d.content == [s] && Inside(t, s) && Lists(s, First(t)) && next >= 0 && d.marked == [next]
    requires next < |d.states|
    requires TransOf(d.blocks, d.states[next]) == []
    ensures Waiting(d, followpos, posar, t, v, keep, next)
  {
    hide Steady, Known, Inside, Lists, TransOf, StateDone, HashOk, ListsOk, BlocksOk;
  }

  lemma MarkedBound(d: StateTable, followpos: array<nat>, posar: array<Tnode>, t: Tnode, v: seq<seq<int>>,
                    keep: set<nat>, next: int)
    requires Waiting(d, followpos, posar, t, v, keep, next)
    ensures |d.marked| <= |Power(t)|
  {
    OkLists(d, keep);
    hide StateTable.Ok, Steady, Known, Lists, TransOf, Done;
    StatesBound(t, d.content);
    SubsetSize(SetsOf(t, d.content), Power(t));
    MarkedDistinct(d.unmarked, d.marked, |d.states|);
    DistinctBound(d.marked, |d.states|);
  }

  lemma OkLists(d: StateTable, keep: set<nat>)
    requires d.Ok(keep)
    ensures ListsOk(d.unmarked, d.marked, |d.states|) && Distinct(d.content) && |d.states| == |d.content|
  {
    hide S.Rep, BlocksOk;
  }

  lemma MarkedDistinct(unmarked: seq<nat>, marked: seq<nat>, no: nat)
    requires ListsOk(unmarked, marked, no)
    ensures Distinct(marked) && (forall i :: 0 <= i < |marked| ==> marked[i] < no)
  {
    var all, n := unmarked + marked, |unmarked|;
    assert all[n..] == marked;
    forall i, j | 0 <= i < j < |marked|
      ensures marked[i] != marked[j]
    {
      assert marked[i] == all[n + i] && marked[j] == all[n + j];
    }
    forall i | 0 <= i < |marked|
      ensures marked[i] < no
    {
      assert marked[i] == all[n + i] && all[n + i] in all;
    }
  }

  lemma AllMarked(marked: seq<nat>, no: nat)
    requires ListsOk([], marked, no)
    ensures forall i: nat :: i < no ==> i in marked
  {
    assert [] + marked == marked;
  }

  lemma WaitEnd(d: StateTable, followpos: array<nat>, posar: array<Tnode>, t: Tnode, v: seq<seq<int>>, keep: set<nat>)
    requires Waiting(d, followpos, posar, t, v, keep, -1)
    ensures d.unmarked == [] && Built(t, d.content, d.states, d.blocks)
  {
    OkLists(d, keep);
    AllMarked(d.marked, |d.states|);
    hide StateTable.Ok, Steady, Known, Lists, TransOf, StateDone, Inside;
  }

  lemma WaitParts(d: StateTable, followpos: array<nat>, posar: array<Tnode>, t: Tnode, v: seq<seq<int>>, keep: set<nat>,
                  no: int)
    requires Waiting(d, followpos, posar, t, v, keep, no) && no >= 0
    ensures d.Ok(keep) && Steady(d.pool, followpos, v, keep) && Known(t, v, posar[..]) && followpos.Length == |v|
    ensures AllInside(t, d.content) && d.content != [] && Lists(d.content[0], First(t))
    ensures no < |d.content| == |d.states| && d.marked != [] && d.marked[0] == no && d.pool.Valid()
    ensures TransOf(d.blocks, d.states[no]) == [] && Done(t, d.content, d.states, d.blocks, d.marked[1..])
    ensures d.states[no].set_ in d.pool.sets && d.pool.sets[d.states[no].set_] == d.content[no]
    ensures Inside(t, d.content[no])
    ensures CharsOk(t) && LeavesOk(t, posar[..])
    ensures ListsOk(d.unmarked, d.marked, |d.states|)
  {
    hide S.Rep, HashOk, ListsOk, BlocksOk, Lists, TransOf, Done;
  }

  lemma StartExpanding(d: StateTable, followpos: array<nat>, posar: array<Tnode>, t: Tnode, v: seq<seq<int>>,
                       keep: set<nat>, no: nat, pos: seq<nat>, states0: seq<State>)
    requires d.Ok(keep) && Steady(d.pool, followpos, v, keep) && Known(t, v, posar[..]) && followpos.Length == |v|
    requires d.marked != [] && d.marked[0] == no && no < |d.content| == |d.states| && AllInside(t, d.content)
    requires Chars(t, posar[..], pos) && PosOf(t, pos, d.content[no]) && TransOf(d.blocks, d.states[no]) == []
    ensures Expanding(d, followpos, posar, t, v, keep, no, pos, 0)
  {
    hide StateTable.Ok, Steady, Known, AllInside, Chars, PosOf, TransOf;
    assert Expanded(t, d.content, [], d.content[no], 0);
  }
}
