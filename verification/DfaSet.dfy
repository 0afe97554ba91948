/** Sorted sets of positions kept as linked cells of a shared pool. Cells are numbered from 1;
  0 is the empty set. A set is named by its first cell. */
module DfaSet {
  import opened Sequences
  // ---------------------------------------------------------------- sorted sequences

  ghost predicate Ascending(s: seq<int>) {
    forall i, j :: 0 <= i < j < |s| ==> s[i] < s[j]
  }

  function Merge(a: seq<int>, b: seq<int>): seq<int>
    decreases |a| + |b|
  {
    if a == [] then b
    else if b == [] then a
    else if a[0] < b[0] then [a[0]] + Merge(a[1..], b)
    else if a[0] > b[0] then [b[0]] + Merge(a, b[1..])
    else [a[0]] + Merge(a[1..], b[1..])
  }

  ghost predicate Joins(r: seq<int>, a: seq<int>, b: seq<int>) {
    forall x :: x in r <==> x in a || x in b
  }

  lemma MergeStep(a: seq<int>, b: seq<int>, a': seq<int>, b': seq<int>, x: int, m: seq<int>)
    requires Ascending(a) && Ascending(b) && Ascending(m) && Joins(m, a', b')
    requires if a != [] && a[0] == x then a' == a[1..] else a' == a && (a == [] || x < a[0])
    requires if b != [] && b[0] == x then b' == b[1..] else b' == b && (b == [] || x < b[0])
    requires a' != a || b' != b
    ensures Ascending([x] + m) && Joins([x] + m, a, b)
  {
    assert forall y :: y in a <==> y in a' || (a' != a && y == x);
    assert forall y :: y in b <==> y in b' || (b' != b && y == x);
    forall k | 0 <= k < |m|
      ensures x < m[k]
    {
      assert m[k] in a' || m[k] in b';
    }
  }

  /** Merging two ascending sequences gives the ascending sequence of their union. */
  lemma {:induction false} MergeUnion(a: seq<int>, b: seq<int>)
    requires Ascending(a) && Ascending(b)
    ensures Ascending(Merge(a, b)) && Joins(Merge(a, b), a, b)
    decreases |a| + |b|
  {
    if a != [] && b != [] {
      var a', b' := if a[0] <= b[0] then a[1..] else a, if b[0] <= a[0] then b[1..] else b;
      MergeUnion(a', b');
      MergeStep(a, b, a', b', if a[0] <= b[0] then a[0] else b[0], Merge(a', b'));
    }
  }

  /** Two ascending sequences with the same elements are equal. */
  lemma {:induction false} AscendingEqual(a: seq<int>, b: seq<int>)
    requires Ascending(a) && Ascending(b) && (forall x :: x in a <==> x in b)
    ensures a == b
  {
    assert a != [] ==> a[0] in a && a[0] in b;
    assert b != [] ==> b[0] in b && b[0] in a;
    if a != [] && b != [] {
      assert a[0] == b[0];
      assert forall x :: x in a[1..] <==> x in a && x != a[0];
      assert forall x :: x in b[1..] <==> x in b && x != b[0];
      AscendingEqual(a[1..], b[1..]);
      assert a == [a[0]] + a[1..] && b == [b[0]] + b[1..];
    }
  }

  // ---------------------------------------------------------------- chains of cells

  ghost predicate Apart(a: seq<nat>, b: seq<nat>) {
    forall i, j :: 0 <= i < |a| && 0 <= j < |b| ==> a[i] != b[j]
  }

  /** From cell h, the next links run through the cells cs and end. */
  ghost predicate Chain(next: seq<nat>, h: nat, cs: seq<nat>) {
    && h == Nth(cs, 0)
    && (forall i :: 0 <= i < |cs| ==> 0 < cs[i] < |next| && next[cs[i]] == Nth(cs, i + 1))
  }

  /** Each cell of the pool is in one place: the freelist, one set, or among the loose cells
      an operation is working on. */
  ghost predicate Owned(size: nat, lists: map<nat, seq<nat>>, free: seq<nat>, loose: seq<nat>) {
    && Distinct(free) && Distinct(loose) && Apart(free, loose)
    && (forall h :: h in lists ==> Distinct(lists[h]) && Apart(lists[h], free) && Apart(lists[h], loose))
    && (forall h, k :: h in lists && k in lists && h != k ==> Apart(lists[h], lists[k]))
    && (forall c: nat :: 0 < c < size ==> c in free || c in loose || InList(lists, c))
    && (forall i :: 0 <= i < |loose| ==> loose[i] < size)
  }

  ghost predicate InList(lists: map<nat, seq<nat>>, c: nat) {
    exists h :: h in lists && c in lists[h]
  }

  ghost predicate Linked(next: seq<nat>, freelist: nat, lists: map<nat, seq<nat>>, free: seq<nat>) {
    && Chain(next, freelist, free)
    && (forall h :: h in lists ==> lists[h] != [] && Chain(next, h, lists[h]))
  }

  /** What each set holds. */
  ghost predicate Held(value: seq<int>, next: seq<nat>, lists: map<nat, seq<nat>>, sets: map<nat, seq<int>>) {
    && |value| == |next| > 0
    && (forall h :: h in lists <==> h in sets)
    && (forall h :: h in lists ==> Holds(value, lists[h], sets[h]) && Ascending(sets[h]))
  }

  ghost predicate Holds(value: seq<int>, cs: seq<nat>, s: seq<int>) {
    |cs| == |s| && forall i :: 0 <= i < |cs| ==> cs[i] < |value| && value[cs[i]] == s[i]
  }

  /** The sets of a pool whose cells in loose are being worked on. */
  ghost predicate Rep(value: seq<int>, next: seq<nat>, freelist: nat, lists: map<nat, seq<nat>>, free: seq<nat>,
                      sets: map<nat, seq<int>>, loose: seq<nat>)
  {
    Owned(|next|, lists, free, loose) && Linked(next, freelist, lists, free) && Held(value, next, lists, sets)
  }

  // ---------------------------------------------------------------- taking a cell

  lemma TakeCell(value: seq<int>, next: seq<nat>, freelist: nat, lists: map<nat, seq<nat>>, free: seq<nat>,
                 sets: map<nat, seq<int>>, loose: seq<nat>, n: int)
    requires Rep(value, next, freelist, lists, free, sets, loose) && freelist != 0
    ensures free != [] && free[0] == freelist && freelist < |value| && freelist !in loose
    ensures Rep(value[freelist := n], next, next[freelist], lists, free[1..], sets, loose + [freelist])
  {
    TakeChain(next, freelist, free);
    TakeOwned(|next|, lists, free, loose);
    TakeHeld(value, next, lists, free, sets, n);
    hide Owned, Held, Apart, Chain;
  }

  lemma TakeChain(next: seq<nat>, freelist: nat, free: seq<nat>)
    requires Chain(next, freelist, free) && freelist != 0
    ensures free != [] && free[0] == freelist < |next| && Chain(next, next[freelist], free[1..])
  {
    assert free == [freelist] + free[1..];
  }

  lemma TakeHeld(value: seq<int>, next: seq<nat>, lists: map<nat, seq<nat>>, free: seq<nat>, sets: map<nat, seq<int>>,
                 n: int)
    requires Held(value, next, lists, sets) && free != [] && free[0] < |value|
    requires forall h :: h in lists ==> Apart(lists[h], free)
    ensures Held(value[free[0] := n], next, lists, sets)
  {
    forall h | h in lists
      ensures Holds(value[free[0] := n], lists[h], sets[h])
    {
      assert Apart(lists[h], free);
      assert Holds(value, lists[h], sets[h]);
    }
  }

  lemma TakeOwned(size: nat, lists: map<nat, seq<nat>>, free: seq<nat>, loose: seq<nat>)
    requires Owned(size, lists, free, loose) && free != [] && free[0] < size
    ensures Owned(size, lists, free[1..], loose + [free[0]]) && free[0] !in loose
  {
    assert free == [free[0]] + free[1..];
  }

  lemma Grow(value: seq<int>, next: seq<nat>, lists: map<nat, seq<nat>>, free: seq<nat>, sets: map<nat, seq<int>>,
             loose: seq<nat>, value': seq<int>, next': seq<nat>, free': seq<nat>)
    requires Rep(value, next, 0, lists, free, sets, loose)
    requires |value'| == |next'| == |next| + |free'| && value <= value' && next <= next' && free' != []
    requires forall i :: 0 <= i < |free'| ==> free'[i] == |next| + i
    requires forall m :: |next| <= m < |next'| ==> next'[m] == if m + 1 < |next'| then m + 1 else 0
    ensures Rep(value', next', |next|, lists, free', sets, loose)
  {
    assert free == [];
    forall c: nat | 0 < c < |next'|
      ensures c in free' || c in loose || InList(lists, c)
    {
      if c >= |next| { assert free'[c - |next|] == c; }
    }
    forall i | 0 <= i < |free'|
      ensures next'[free'[i]] == Nth(free', i + 1)
    {
    }
    forall h | h in lists
      ensures Chain(next', h, lists[h]) && Apart(lists[h], free') && Holds(value', lists[h], sets[h])
    {
      assert Chain(next, h, lists[h]) && Holds(value, lists[h], sets[h]);
    }
  }

  // ---------------------------------------------------------------- building a list

  /** The cells out are linked from head to p; the last link is still open. */
  ghost predicate Segment(next: seq<nat>, head: nat, p: nat, out: seq<nat>) {
    && (if out == [] then p == 0 && head == 0 else head == out[0] && p == out[|out| - 1])
    && (forall i :: 0 <= i < |out| ==> 0 < out[i] < |next|)
    && (forall i :: 0 <= i < |out| - 1 ==> next[out[i]] == out[i + 1])
  }

  function Link(next: seq<nat>, p: nat, c: nat): seq<nat> {
    if 0 < p < |next| then next[p := c] else next
  }

  lemma LinkKeeps(value: seq<int>, next: seq<nat>, freelist: nat, lists: map<nat, seq<nat>>, free: seq<nat>,
                  sets: map<nat, seq<int>>, loose: seq<nat>, p: nat, c: nat)
    requires Rep(value, next, freelist, lists, free, sets, loose) && (p == 0 || p in loose)
    ensures Rep(value, Link(next, p, c), freelist, lists, free, sets, loose)
  {
    var next' := Link(next, p, c);
    if p != 0 {
      var k :| 0 <= k < |loose| && loose[k] == p;
      forall h | h in lists
        ensures Chain(next', h, lists[h])
      {
        assert Apart(lists[h], loose);
        assert Chain(next, h, lists[h]);
      }
      assert Chain(next', freelist, free);
    }
  }

  lemma LinkSegment(next: seq<nat>, head: nat, p: nat, out: seq<nat>, c: nat)
    requires Segment(next, head, p, out) && Distinct(out + [c]) && 0 < c < |next|
    ensures Segment(Link(next, p, c), if p == 0 then c else head, c, out + [c])
  {
    forall i | 0 <= i < |out| - 1
      ensures out[i] != p
    {
      assert (out + [c])[i] != (out + [c])[|out| - 1];
    }
  }

  /** A finished list joins the sets. */
  lemma Finish(value: seq<int>, next: seq<nat>, freelist: nat, lists: map<nat, seq<nat>>, free: seq<nat>,
               sets: map<nat, seq<int>>, cs: seq<nat>, h: nat, s: seq<int>)
    requires Rep(value, next, freelist, lists, free, sets, cs) && Chain(next, h, cs) && Holds(value, cs, s)
    requires Ascending(s)
    ensures h !in sets
    ensures cs == [] ==> Rep(value, next, freelist, lists, free, sets, [])
    ensures cs != [] ==> Rep(value, next, freelist, lists[h := cs], free, sets[h := s], [])
  {
    forall k | k in lists
      ensures k != h
    {
      assert Chain(next, k, lists[k]) && Apart(lists[k], cs);
    }
    if cs != [] {
      FinishOwned(|next|, lists, free, cs, h);
    }
  }

  lemma FinishOwned(size: nat, lists: map<nat, seq<nat>>, free: seq<nat>, cs: seq<nat>, h: nat)
    requires Owned(size, lists, free, cs) && h !in lists
    ensures Owned(size, lists[h := cs], free, [])
  {
    forall c: nat | 0 < c < size
      ensures c in free || InList(lists[h := cs], c)
    {
      if c in cs {
        assert c in lists[h := cs][h];
      } else if InList(lists, c) {
        var k :| k in lists && c in lists[k];
        assert c in lists[h := cs][k];
      }
    }
  }

  /** A set's cells become loose. */
  lemma Open(value: seq<int>, next: seq<nat>, freelist: nat, lists: map<nat, seq<nat>>, free: seq<nat>,
             sets: map<nat, seq<int>>, h: nat)
    requires Rep(value, next, freelist, lists, free, sets, []) && h in lists
    ensures Rep(value, next, freelist, lists - {h}, free, sets - {h}, lists[h])
  {
    assert Chain(next, h, lists[h]);
    OpenOwned(|next|, lists, free, h);
    hide Owned, Chain, Holds;
  }

  lemma OpenOwned(size: nat, lists: map<nat, seq<nat>>, free: seq<nat>, h: nat)
    requires Owned(size, lists, free, []) && h in lists && (forall i :: 0 <= i < |lists[h]| ==> lists[h][i] < size)
    ensures Owned(size, lists - {h}, free, lists[h])
  {
    forall c: nat | 0 < c < size
      ensures c in free || c in lists[h] || InList(lists - {h}, c)
    {
      if c !in free {
        var k :| k in lists && c in lists[k];
        assert k != h ==> c in (lists - {h})[k];
      }
    }
    assert Apart(free, lists[h]) by { assert Apart(lists[h], free); }
  }

  /** The cell of element j of a set. */
  lemma CellAt(value: seq<int>, next: seq<nat>, freelist: nat, lists: map<nat, seq<nat>>, free: seq<nat>,
               sets: map<nat, seq<int>>, loose: seq<nat>, h: nat, j: nat)
    requires Rep(value, next, freelist, lists, free, sets, loose) && h in sets
    ensures h in lists && |lists[h]| == |sets[h]| && Ascending(sets[h]) && h == Nth(lists[h], 0) && sets[h] != []
    ensures |value| == |next| > 0
    ensures j < |sets[h]| ==>
      0 < lists[h][j] < |next| && value[lists[h][j]] == sets[h][j] && next[lists[h][j]] == Nth(lists[h], j + 1)
    ensures j == |sets[h]| ==> Nth(lists[h], j) == 0
  {
    hide Owned;
    assert Chain(next, h, lists[h]) && Holds(value, lists[h], sets[h]);
  }

  /** The next cell of the list being consumed is linked in. */
  lemma KeepCell(value: seq<int>, next: seq<nat>, freelist: nat, lists: map<nat, seq<nat>>, free: seq<nat>,
                 sets: map<nat, seq<int>>, head: nat, p: nat, out: seq<nat>, rest: seq<nat>)
    requires Rep(value, next, freelist, lists, free, sets, out + rest)
    requires Segment(next, head, p, out) && rest != [] && Chain(next, rest[0], rest)
    ensures var c, next' := rest[0], Link(next, p, rest[0]);
      && Rep(value, next', freelist, lists, free, sets, out + [c] + rest[1..])
      && Segment(next', if p == 0 then c else head, c, out + [c])
      && 0 < c < |next'| && Chain(next', next'[c], rest[1..])
  {
    var c, next' := rest[0], Link(next, p, rest[0]);
    assert out + [c] + rest[1..] == out + rest;
    var loose := out + rest;
    assert out != [] ==> loose[|out| - 1] == p;
    LinkKeeps(value, next, freelist, lists, free, sets, out + rest, p, c);
    KeepApart(loose, out, rest);
    hide Rep;
    LinkSegment(next, head, p, out, c);
    LinkChain(next, p, c, rest);
  }

  lemma KeepApart(loose: seq<nat>, out: seq<nat>, rest: seq<nat>)
    requires Distinct(loose) && loose == out + rest && rest != []
    ensures Distinct(out + [rest[0]])
    ensures out != [] ==> forall k :: 0 <= k < |rest| ==> rest[k] != out[|out| - 1]
  {
    assert out + [rest[0]] == loose[..|out| + 1];
    forall k | out != [] && 0 <= k < |rest|
      ensures rest[k] != out[|out| - 1]
    {
      assert rest[k] == loose[|out| + k] && out[|out| - 1] == loose[|out| - 1];
    }
  }

  lemma LinkChain(next: seq<nat>, p: nat, c: nat, rest: seq<nat>)
    requires rest != [] && Chain(next, rest[0], rest)
    requires p != 0 ==> forall k :: 0 <= k < |rest| ==> rest[k] != p
    ensures var next' := Link(next, p, c); Chain(next', rest[0], rest) && Chain(next', next'[rest[0]], rest[1..])
  {
    assert rest == [rest[0]] + rest[1..];
  }

  /** A new cell is linked in. */
  lemma AppendCell(value: seq<int>, next: seq<nat>, freelist: nat, lists: map<nat, seq<nat>>, free: seq<nat>,
                   sets: map<nat, seq<int>>, head: nat, p: nat, out: seq<nat>, rest: seq<nat>, h: nat, c: nat)
    requires Rep(value, next, freelist, lists, free, sets, out + rest + [c]) && 0 < c < |next|
    requires Segment(next, head, p, out) && Chain(next, h, rest)
    ensures var next' := Link(next, p, c);
      && Rep(value, next', freelist, lists, free, sets, out + [c] + rest)
      && Segment(next', if p == 0 then c else head, c, out + [c])
      && Chain(next', h, rest)
  {
    var loose := out + rest + [c];
    assert out != [] ==> loose[|out| - 1] == p;
    AppendApart(loose, out, rest, c);
    Shuffle(value, next, freelist, lists, free, sets, loose, out + [c] + rest);
    assert out != [] ==> (out + [c] + rest)[|out| - 1] == p;
    LinkKeeps(value, next, freelist, lists, free, sets, out + [c] + rest, p, c);
    hide Rep;
    LinkSegment(next, head, p, out, c);
  }

  lemma AppendApart(loose: seq<nat>, out: seq<nat>, rest: seq<nat>, c: nat)
    requires Distinct(loose) && loose == out + rest + [c]
    ensures Distinct(out + [c]) && Distinct(out + [c] + rest)
    ensures out != [] ==> forall k :: 0 <= k < |rest| ==> rest[k] != out[|out| - 1]
    ensures forall x :: x in out + [c] + rest <==> x in loose
  {
    var m := out + [c] + rest;
    var n := |out|;
    forall i, j | 0 <= i < j < |m|
      ensures m[i] != m[j]
    {
      var i', j' := if i < n then i else if i == n then |loose| - 1 else i - 1, if j < n then j
        else if j == n then |loose| - 1 else j - 1;
      assert m[i] == loose[i'] && m[j] == loose[j'];
    }
    assert forall i, j :: 0 <= i < j < n + 1 ==> (out + [c])[i] == m[i] && (out + [c])[j] == m[j];
    forall k | out != [] && 0 <= k < |rest|
      ensures rest[k] != out[n - 1]
    {
      assert rest[k] == loose[n + k] && out[n - 1] == loose[n - 1];
    }
  }

  lemma Shuffle(value: seq<int>, next: seq<nat>, freelist: nat, lists: map<nat, seq<nat>>, free: seq<nat>,
                sets: map<nat, seq<int>>, loose: seq<nat>, loose': seq<nat>)
    requires Rep(value, next, freelist, lists, free, sets, loose) && Distinct(loose')
    requires forall x :: x in loose' <==> x in loose
    ensures Rep(value, next, freelist, lists, free, sets, loose')
  {
    hide Linked, Held;
    forall j | 0 <= j < |loose'|
      ensures exists k :: 0 <= k < |loose| && loose[k] == loose'[j]
    {
      assert loose'[j] in loose;
    }
  }

  /** The state of building a list: out is linked, rest is still to be consumed from h, and
      vo holds the values of out. */
  ghost predicate Building(value: seq<int>, next: seq<nat>, freelist: nat, lists: map<nat, seq<nat>>, free: seq<nat>,
                           sets: map<nat, seq<int>>, head: nat, p: nat, out: seq<nat>, h: nat, rest: seq<nat>,
                           vo: seq<int>, vr: seq<int>)
  {
    && Rep(value, next, freelist, lists, free, sets, out + rest)
    && Segment(next, head, p, out) && Chain(next, h, rest)
    && Holds(value, out, vo) && Holds(value, rest, vr)
  }

  /** The first cell of the rest joins the list. */
  lemma BuildKeep(value: seq<int>, next: seq<nat>, freelist: nat, lists: map<nat, seq<nat>>, free: seq<nat>,
                  sets: map<nat, seq<int>>, head: nat, p: nat, out: seq<nat>, h: nat, rest: seq<nat>, vo: seq<int>,
                  vr: seq<int>)
    requires Building(value, next, freelist, lists, free, sets, head, p, out, h, rest, vo, vr) && h != 0
    ensures rest != [] && vr != [] && rest[0] == h && 0 < h < |value| == |next| && value[h] == vr[0]
    ensures var next' := Link(next, p, h);
      h < |next'| && Building(value, next', freelist, lists, free, sets, if p == 0 then h else head, h, out + [h],
                              next'[h], rest[1..], vo + [vr[0]], vr[1..])
  {
    KeepCell(value, next, freelist, lists, free, sets, head, p, out, rest);
    hide Owned, Linked, Segment, Chain;
  }

  /** A new cell joins the list. */
  lemma BuildNew(value: seq<int>, next: seq<nat>, freelist: nat, lists: map<nat, seq<nat>>, free: seq<nat>,
                 sets: map<nat, seq<int>>, head: nat, p: nat, out: seq<nat>, h: nat, rest: seq<nat>, vo: seq<int>,
                 vr: seq<int>, c: nat)
    requires Rep(value, next, freelist, lists, free, sets, out + rest + [c]) && 0 < c < |next| && c < |value|
    requires Segment(next, head, p, out) && Chain(next, h, rest) && Holds(value, out, vo) && Holds(value, rest, vr)
    ensures Building(value, Link(next, p, c), freelist, lists, free, sets, if p == 0 then c else head, c, out + [c],
                     h, rest, vo + [value[c]], vr)
  {
    AppendCell(value, next, freelist, lists, free, sets, head, p, out, rest, h, c);
  }

  /** What is being built survives taking a cell. */
  lemma BuildTake(value: seq<int>, next: seq<nat>, freelist: nat, lists: map<nat, seq<nat>>, free: seq<nat>,
                  sets: map<nat, seq<int>>, head: nat, p: nat, out: seq<nat>, h: nat, rest: seq<nat>, vo: seq<int>,
                  vr: seq<int>, value': seq<int>, next': seq<nat>)
    requires Building(value, next, freelist, lists, free, sets, head, p, out, h, rest, vo, vr)
    requires next <= next'
    requires forall x :: x in out + rest && x < |value| ==> x < |value'| && value'[x] == value[x]
    ensures Segment(next', head, p, out) && Chain(next', h, rest) && Holds(value', out, vo) && Holds(value', rest, vr)
  {
    hide Rep;
    var loose := out + rest;
    assert forall i :: 0 <= i < |out| ==> loose[i] == out[i] && out[i] in loose;
    forall i | 0 <= i < |rest|
      ensures rest[i] in loose
    {
      assert loose[|out| + i] == rest[i];
    }
  }

  /** Nothing is left to link: the open end is closed on the rest, which becomes the tail. */
  lemma BuildEnd(value: seq<int>, next: seq<nat>, freelist: nat, lists: map<nat, seq<nat>>, free: seq<nat>,
                 sets: map<nat, seq<int>>, head: nat, p: nat, out: seq<nat>, h: nat, rest: seq<nat>, vo: seq<int>,
                 vr: seq<int>)
    requires Building(value, next, freelist, lists, free, sets, head, p, out, h, rest, vo, vr) && Ascending(vo + vr)
    ensures var next', r := Link(next, p, h), if p == 0 then h else head;
      && r !in sets && r !in lists && (vo + vr == [] <==> r == 0)
      && Rep(value, next', freelist, if vo + vr == [] then lists else lists[r := out + rest], free, Put(sets, r,
                                                                                                        vo + vr), [])
  {
    var next', r, cs := Link(next, p, h), if p == 0 then h else head, out + rest;
    assert out != [] ==> cs[|out| - 1] == p;
    LinkKeeps(value, next, freelist, lists, free, sets, cs, p, h);
    EndChain(next, head, p, out, h, rest);
    HoldsJoin(value, out, rest, vo, vr);
    Finish(value, next', freelist, lists, free, sets, cs, r, vo + vr);
  }

  lemma HoldsJoin(value: seq<int>, out: seq<nat>, rest: seq<nat>, vo: seq<int>, vr: seq<int>)
    requires Holds(value, out, vo) && Holds(value, rest, vr)
    ensures Holds(value, out + rest, vo + vr)
  {
  }

  lemma EndChain(next: seq<nat>, head: nat, p: nat, out: seq<nat>, h: nat, rest: seq<nat>)
    requires Segment(next, head, p, out) && Chain(next, h, rest) && Distinct(out + rest)
    ensures Chain(Link(next, p, h), if p == 0 then h else head, out + rest)
  {
    var cs, next' := out + rest, Link(next, p, h);
    forall i | 0 <= i < |cs|
      ensures 0 < cs[i] < |next'| && next'[cs[i]] == Nth(cs, i + 1)
    {
      if i < |out| - 1 {
        assert cs[i] != cs[|out| - 1];
      } else if i >= |out| {
        assert out != [] ==> cs[i] != cs[|out| - 1];
        assert cs[i] == rest[i - |out|];
      }
    }
  }

  // ---------------------------------------------------------------- the pool

  /** The sets after s is given up and r holds v instead. */
  function Put(sets: map<nat, seq<int>>, r: nat, v: seq<int>): map<nat, seq<int>> {
    if v == [] then sets else sets[r := v]
  }

  ghost function Elems(sets: map<nat, seq<int>>, s: nat): seq<int> {
    if s in sets then sets[s] else []
  }

  /** c is the cell of element j of set s, or 0 at its end. */
  ghost predicate Cursor(lists: map<nat, seq<nat>>, sets: map<nat, seq<int>>, s: nat, j: nat, c: nat) {
    if s in sets then s in lists && |lists[s]| == |sets[s]| && j <= |lists[s]| && c == Nth(lists[s], j)
      else c == 0 && j == 0
  }

  lemma MergeLess(vo: seq<int>, a: seq<int>, b: seq<int>)
    requires a != [] && (b != [] ==> a[0] < b[0])
    ensures vo + Merge(a, b) == vo + [a[0]] + Merge(a[1..], b)
  {
    var m := Merge(a[1..], b);
    assert b == [] ==> a == [a[0]] + a[1..];
    assert Merge(a, b) == [a[0]] + m;
    assert vo + ([a[0]] + m) == vo + [a[0]] + m;
  }

  lemma Rest(s: seq<int>, i: nat)
    requires i < |s|
    ensures s[i..] != [] && s[i..][0] == s[i] && s[i..][1..] == s[i + 1..]
  {
  }

  lemma MergeMore(vo: seq<int>, a: seq<int>, b: seq<int>)
    requires b != [] && (a != [] ==> a[0] > b[0])
    ensures vo + Merge(a, b) == vo + [b[0]] + Merge(a, b[1..])
  {
    var m := Merge(a, b[1..]);
    assert a == [] ==> b == [b[0]] + b[1..];
    assert Merge(a, b) == [b[0]] + m;
    assert vo + ([b[0]] + m) == vo + [b[0]] + m;
  }

  lemma MergeSame(vo: seq<int>, a: seq<int>, b: seq<int>)
    requires a != [] && b != [] && a[0] == b[0]
    ensures vo + Merge(a, b) == vo + [a[0]] + Merge(a[1..], b[1..])
  {
    var m := Merge(a[1..], b[1..]);
    assert Merge(a, b) == [a[0]] + m;
    assert vo + ([a[0]] + m) == vo + [a[0]] + m;
  }

  /** What an operation is working on: the cells linked so far and those still to be
      consumed, with their values. */
  datatype Work = Work(out: seq<nat>, rest: seq<nat>, vo: seq<int>, vr: seq<int>)

  lemma LinkSame(next: seq<nat>, p: nat, h: nat)
    ensures |Link(next, p, h)| == |next|
    ensures forall c :: 0 <= c < |next| && c != p ==> Link(next, p, h)[c] == next[c]
  {
  }

  class SetPool {
    const chunk: nat
    var value: seq<int>
    var next: seq<nat>
    var freelist: nat
    ghost var lists: map<nat, seq<nat>>
    ghost var free: seq<nat>
    // The sets in use, by their first cell.
    ghost var sets: map<nat, seq<int>>

    ghost predicate Ok(loose: seq<nat>)
      reads this
    {
      Rep(value, next, freelist, lists, free, sets, loose)
    }

    ghost predicate Valid()
      reads this
    {
      Ok([])
    }

    ghost predicate IsSet(s: nat)
      reads this`sets
    {
      s == 0 || s in sets
    }

    /** The elements of a set, in order. */
    ghost function Get(s: nat): seq<int>
      reads this`sets
    {
      if s in sets then sets[s] else []
    }

    constructor (chunk: nat)
      requires chunk > 8
      ensures Valid() && sets == map[] && this.chunk == chunk
    {
      this.chunk := chunk;
      value, next, freelist := [0], [0], 0;
      lists, free, sets := map[], [], map[];
    }

    /** Threads a new block of cells onto the empty freelist. */
    method NewBlock(ghost loose: seq<nat>)
      requires Ok(loose) && chunk > 8 && freelist == 0
      modifies this
      ensures Ok(loose) && freelist != 0
      ensures lists == old(lists) && sets == old(sets) && old(next) <= next && old(value) <= value
    {
      ghost var value0, next0 := value, next;
      ghost var block: seq<nat> := [];
      Sizes(value, next, freelist, lists, free, sets, loose);
      hide *;
      var base := |next|;
      var i := chunk;
      while i > 0
        invariant 0 <= i <= chunk && |block| == chunk - i && |value| == |next| == base + |block|
        invariant value0 <= value && next0 <= next && |next0| == base
        invariant forall k :: 0 <= k < |block| ==> block[k] == base + k
        invariant forall m :: base <= m < |next| ==> next[m] == if m + 1 < base + chunk then m + 1 else 0
        invariant lists == old(lists) && sets == old(sets) && free == old(free) && freelist == old(freelist)
      {
        block := block + [|next|];
        value, next := value + [0], next + [if i > 1 then |next| + 1 else 0];
        i := i - 1;
      }
      Grow(value0, next0, lists, free, sets, loose, value, next, block);
      freelist, free := base, block;
      Fold(loose);
    }

    lemma Fold(loose: seq<nat>)
      requires Rep(value, next, freelist, lists, free, sets, loose)
      ensures Ok(loose)
    {
    }

    /** Takes a cell off the freelist. */
    method MkElement(n: int, ghost loose: seq<nat>) returns (c: nat)
      requires Ok(loose) && chunk > 8
      modifies this
      ensures Ok(loose + [c]) && 0 < c < |next| && c < |value| && value[c] == n && c !in loose
      ensures lists == old(lists) && sets == old(sets) && old(next) <= next
      ensures forall x :: x in loose && x < |old(value)| ==> x < |value| && value[x] == old(value)[x]
    {
      if freelist == 0 {
        NewBlock(loose);
      }
      TakeCell(value, next, freelist, lists, free, sets, loose, n);
      Sizes(value, next, freelist, lists, free, sets, loose);
      hide *;
      c := freelist;
      value := value[c := n];
      freelist := next[c];
      free := free[1..];
      Fold(loose + [c]);
    }

    lemma Unfold(loose: seq<nat>)
      requires Ok(loose)
      ensures Rep(value, next, freelist, lists, free, sets, loose)
    {
    }

    /** A list is being built from head to p while the list at h is consumed. */
    ghost predicate Busy(head: nat, p: nat, h: nat, w: Work)
      reads this
    {
      Building(value, next, freelist, lists, free, sets, head, p, w.out, h, w.rest, w.vo, w.vr)
    }

    lemma Look(head: nat, p: nat, h: nat, w: Work)
      requires Busy(head, p, h, w)
      ensures Building(value, next, freelist, lists, free, sets, head, p, w.out, h, w.rest, w.vo, w.vr)
      ensures Rep(value, next, freelist, lists, free, sets, w.out + w.rest) && Ok(w.out + w.rest)
      ensures |value| == |next| && h < |next| && (h == 0 <==> w.vr == [] ) && (h == 0 <==> w.rest == [])
      ensures h != 0 ==> value[h] == w.vr[0]
    {
      hide Owned, Linked, Segment, Apart;
    }

    lemma Refold(head: nat, p: nat, h: nat, w: Work)
      requires Building(value, next, freelist, lists, free, sets, head, p, w.out, h, w.rest, w.vo, w.vr)
      ensures Busy(head, p, h, w)
    {
    }

    /** Puts a new cell after p. */
    method LinkNew(n: int, head: nat, p: nat, h: nat, ghost w: Work) returns (head': nat, c: nat, ghost w': Work)
      requires Busy(head, p, h, w) && chunk > 8
      modifies this
      ensures w' == Work(w.out + [c], w.rest, w.vo + [n], w.vr) && Busy(head', c, h, w')
      ensures lists == old(lists) && sets == old(sets)
    {
      Look(head, p, h, w);
      ghost var value0, next0, freelist0, free0 := value, next, freelist, free;
      hide *;
      c := MkElement(n, w.out + w.rest);
      Unfold(w.out + w.rest + [c]);
      BuildTake(value0, next0, freelist0, lists, free0, sets, head, p, w.out, h, w.rest, w.vo, w.vr, value, next);
      BuildNew(value, next, freelist, lists, free, sets, head, p, w.out, h, w.rest, w.vo, w.vr, c);
      next := Link(next, p, c);
      head' := if p == 0 then c else head;
      w' := Work(w.out + [c], w.rest, w.vo + [n], w.vr);
      Refold(head', c, h, w');
    }

    /** Moves on to the next cell of the consumed list, which joins the one being built. */
    method LinkOld(head: nat, p: nat, h: nat, ghost w: Work) returns (head': nat, h': nat, ghost w': Work)
      requires Busy(head, p, h, w) && h != 0
      modifies this`next
      ensures w.rest != [] && w.vr != [] && w' == Work(w.out + [h], w.rest[1..], w.vo + [w.vr[0]], w.vr[1..])
      ensures Busy(head', h, h', w') && |next| == |old(next)| && h' == old(next)[h]
      ensures forall c :: 0 <= c < |next| && c != p ==> next[c] == old(next)[c]
    {
      Look(head, p, h, w);
      BuildKeep(value, next, freelist, lists, free, sets, head, p, w.out, h, w.rest, w.vo, w.vr);
      ghost var next0 := next;
      LinkSame(next, p, h);
      hide *;
      next := Link(next, p, h);
      head' := if p == 0 then h else head;
      h' := next[h];
      w' := Work(w.out + [h], w.rest[1..], w.vo + [w.vr[0]], w.vr[1..]);
      Refold(head', h, h', w');
    }

    /** Closes the open end on what is left of the consumed list. */
    method LinkEnd(head: nat, p: nat, h: nat, ghost w: Work) returns (r: nat)
      requires Busy(head, p, h, w) && Ascending(w.vo + w.vr)
      modifies this`next, this`lists, this`sets
      ensures Valid() && r !in old(sets) && (w.vo + w.vr == [] <==> r == 0)
      ensures sets == Put(old(sets), r, w.vo + w.vr)
      ensures forall k :: k in old(lists) ==> k in lists && lists[k] == old(lists)[k]
    {
      hide *;
      Look(head, p, h, w);
      ghost var v, cs := w.vo + w.vr, w.out + w.rest;
      BuildEnd(value, next, freelist, lists, free, sets, head, p, w.out, h, w.rest, w.vo, w.vr);
      r := if p == 0 then h else head;
      ghost var lists', sets' := if v == [] then lists else lists[r := cs], Put(sets, r, v);
      next := Link(next, p, h);
      lists := lists';
      sets := sets';
      Fold([]);
      IsValid();
    }

    lemma IsValid()
      requires Ok([])
      ensures Valid()
    {
    }

    lemma OpenSet(s: nat)
      requires Valid() && IsSet(s)
      ensures var cs, v := if s in sets then lists[s] else [], Elems(sets, s);
        Building(value, next, freelist, lists - {s}, free, sets - {s}, 0, 0, [], s, cs, [], v)
    {
      if s in sets {
        Open(value, next, freelist, lists, free, sets, s);
        assert [] + lists[s] == lists[s];
      } else {
        assert s !in lists;
        assert lists - {s} == lists && sets - {s} == sets;
      }
    }

    lemma CursorStart(loose: seq<nat>, s: nat)
      requires Ok(loose) && IsSet(s)
      ensures Cursor(lists, sets, s, 0, s)
    {
      if s in sets { CellAt(value, next, freelist, lists, free, sets, loose, s, 0); }
    }

    lemma CursorAt(loose: seq<nat>, s: nat, j: nat, c: nat)
      requires Ok(loose) && Cursor(lists, sets, s, j, c) && c != 0
      ensures j < |Elems(sets, s)| && c < |next| == |value| && value[c] == Elems(sets, s)[j]
      ensures Cursor(lists, sets, s, j + 1, next[c]) && c !in loose
    {
      CellAt(value, next, freelist, lists, free, sets, loose, s, j);
      if j + 1 < |sets[s]| { CellAt(value, next, freelist, lists, free, sets, loose, s, j + 1); }
      assert Apart(lists[s], loose);
    }

    lemma GetAscending(s: nat)
      requires Valid()
      ensures Ascending(Get(s)) && Get(s) == Elems(sets, s)
    {
      if s in sets { CellAt(value, next, freelist, lists, free, sets, [], s, 0); }
    }

    /** Merging: what is built, then the merger of what is left of both lists, make the goal. */
    ghost predicate Merging(head: nat, p: nat, c1: nat, w: Work, s2: nat, j: nat, c2: nat, goal: seq<int>)
      reads this
    {
      && Busy(head, p, c1, w) && Cursor(lists, sets, s2, j, c2) && j <= |Elems(sets, s2)|
      && w.vo + Merge(w.vr, Elems(sets, s2)[j..]) == goal
    }

    lemma MergingParts(head: nat, p: nat, c1: nat, w: Work, s2: nat, j: nat, c2: nat, goal: seq<int>)
      requires Merging(head, p, c1, w, s2, j, c2, goal)
      ensures Busy(head, p, c1, w) && Cursor(lists, sets, s2, j, c2) && j <= |Elems(sets, s2)|
      ensures w.vo + Merge(w.vr, Elems(sets, s2)[j..]) == goal && Ok(w.out + w.rest)
      ensures c1 != 0 ==> c1 < |value| && w.vr != [] && value[c1] == w.vr[0] && c1 < |next|
      ensures c1 == 0 ==> w.vr == []
      ensures c2 != 0 ==> j < |Elems(sets, s2)| && c2 < |value| == |next| && value[c2] == Elems(sets, s2)[j]
      ensures c2 != 0 ==> Cursor(lists, sets, s2, j + 1, next[c2]) && (p != 0 ==> p != c2)
      ensures c2 == 0 ==> j == |Elems(sets, s2)|
    {
      Look(head, p, c1, w);
      assert p != 0 ==> p in w.out + w.rest by { assert p != 0 ==> (w.out + w.rest)[|w.out| - 1] == p; }
      if c2 != 0 { CursorAt(w.out + w.rest, s2, j, c2); }
      else if s2 in sets && j < |sets[s2]| { CellAt(value, next, freelist, lists, free, sets, w.out + w.rest, s2, j); }
    }

    method TakeFirst(head: nat, p: nat, c1: nat, ghost w: Work, ghost s2: nat, ghost j: nat, c2: nat,
                     ghost goal: seq<int>)
      returns (head': nat, c1': nat, ghost w': Work)
      requires Merging(head, p, c1, w, s2, j, c2, goal) && c1 != 0 && c2 != 0
      requires c1 < |value| && c2 < |value| && value[c1] < value[c2]
      modifies this`next
      ensures Merging(head', c1, c1', w', s2, j, c2, goal) && |w'.vr| < |w.vr|
    {
      MergingParts(head, p, c1, w, s2, j, c2, goal);
      MergeLess(w.vo, w.vr, Elems(sets, s2)[j..]);
      hide Merge, Building, SetPool.Ok, SetPool.Busy, Cursor, Elems;
      head', c1', w' := LinkOld(head, p, c1, w);
    }

    method TakeBoth(head: nat, p: nat, c1: nat, ghost w: Work, ghost s2: nat, ghost j: nat, c2: nat,
                    ghost goal: seq<int>)
      returns (head': nat, c1': nat, c2': nat, ghost w': Work)
      requires Merging(head, p, c1, w, s2, j, c2, goal) && c1 != 0 && c2 != 0
      requires c1 < |value| && c2 < |value| && value[c1] == value[c2]
      modifies this`next
      ensures Merging(head', c1, c1', w', s2, j + 1, c2', goal) && |w'.vr| < |w.vr|
    {
      MergingParts(head, p, c1, w, s2, j, c2, goal);
      MergeSame(w.vo, w.vr, Elems(sets, s2)[j..]);
      assert Elems(sets, s2)[j..][1..] == Elems(sets, s2)[j + 1..];
      hide Merge, Building, SetPool.Ok, SetPool.Busy, Cursor, Elems;
      head', c1', w' := LinkOld(head, p, c1, w);
      c2' := next[c2];
    }

    /** The element of s2 at c2 gets a new cell; nothing smaller is left of s1. */
    method TakeSecond(head: nat, p: nat, c1: nat, ghost w: Work, ghost s2: nat, ghost j: nat, c2: nat,
                      ghost goal: seq<int>)
      returns (head': nat, p': nat, c2': nat, ghost w': Work)
      requires Merging(head, p, c1, w, s2, j, c2, goal) && c2 != 0 && chunk > 8
      requires c1 < |value| && c2 < |value| && (c1 != 0 ==> value[c1] > value[c2])
      modifies this
      ensures Merging(head', p', c1, w', s2, j + 1, c2', goal) && w'.vr == w.vr && lists == old(lists)
      ensures sets == old(sets)
    {
      MergingParts(head, p, c1, w, s2, j, c2, goal);
      MergeMore(w.vo, w.vr, Elems(sets, s2)[j..]);
      assert Elems(sets, s2)[j..][1..] == Elems(sets, s2)[j + 1..];
      hide Merge, Building, SetPool.Ok, SetPool.Busy, Cursor, Elems;
      c2' := next[c2];
      head', p', w' := LinkNew(value[c2], head, p, c1, w);
    }

    lemma MergingStart(s1: nat, s2: nat, w: Work)
      requires Busy(0, 0, s1, w) && w.vo == [] && IsSet(s2)
      ensures Merging(0, 0, s1, w, s2, 0, s2, Merge(w.vr, Elems(sets, s2)))
    {
      Look(0, 0, s1, w);
      CursorStart(w.out + w.rest, s2);
      hide Merge, SetPool.Busy, Building, Cursor, Elems;
      assert Elems(sets, s2)[0..] == Elems(sets, s2);
      assert w.vo + Merge(w.vr, Elems(sets, s2)) == Merge(w.vr, Elems(sets, s2));
    }

    lemma MergingEnd(head: nat, p: nat, c1: nat, w: Work, s2: nat, j: nat, goal: seq<int>)
      requires Merging(head, p, c1, w, s2, j, 0, goal)
      ensures Busy(head, p, c1, w) && w.vo + w.vr == goal
    {
      MergingParts(head, p, c1, w, s2, j, 0, goal);
      assert Elems(sets, s2)[j..] == [];
    }

    /** Merges what is left of s1 into the list being built with the elements of s2. */
    method MergeLoop(s1: nat, s2: nat, ghost w0: Work, ghost goal: seq<int>)
      returns (head: nat, p: nat, c1: nat, ghost w: Work)
      requires Merging(0, 0, s1, w0, s2, 0, s2, goal) && chunk > 8
      modifies this
      ensures Busy(head, p, c1, w) && w.vo + w.vr == goal && lists == old(lists) && sets == old(sets)
    {
      hide Merge, Building, SetPool.Ok, SetPool.Busy, SetPool.Merging, Cursor, Ascending, Rep, Elems;
      head, p, c1, w := 0, 0, s1, w0;
      var c2 := s2;
      ghost var j := 0;
      while c1 != 0 && c2 != 0
        invariant Merging(head, p, c1, w, s2, j, c2, goal) && lists == old(lists) && sets == old(sets)
        decreases |w.vr| + |Elems(sets, s2)| - j
      {
        MergingParts(head, p, c1, w, s2, j, c2, goal);
        var c0 := c1;
        if value[c1] < value[c2] {
          head, c1, w := TakeFirst(head, p, c0, w, s2, j, c2, goal);
          p := c0;
        } else if value[c1] > value[c2] {
          head, p, c2, w := TakeSecond(head, p, c1, w, s2, j, c2, goal);
          j := j + 1;
        } else {
          head, c1, c2, w := TakeBoth(head, p, c0, w, s2, j, c2, goal);
          p, j := c0, j + 1;
        }
      }
      if c1 == 0 {
        while c2 != 0
          invariant Merging(head, p, c1, w, s2, j, c2, goal) && c1 == 0 && lists == old(lists) && sets == old(sets)
          decreases |Elems(sets, s2)| - j
        {
          MergingParts(head, p, c1, w, s2, j, c2, goal);
          head, p, c2, w := TakeSecond(head, p, c1, w, s2, j, c2, goal);
          j := j + 1;
        }
      }
      MergingEnd(head, p, c1, w, s2, j, goal);
    }

    lemma UnionStart(s1: nat, s2: nat)
      requires Valid() && IsSet(s1) && IsSet(s2)
      ensures s1 in sets <==> s1 in lists
      ensures var cs, v := if s1 in sets then lists[s1] else [], Elems(sets, s1);
        Building(value, next, freelist, lists - {s1}, free, sets - {s1}, 0, 0, [], s1, cs, [], v)
      ensures Elems(sets, s1) == Get(s1) && Elems(sets, s2) == Get(s2) && Ascending(Merge(Get(s1), Get(s2)))
      ensures 0 !in sets
    {
      Zero();
      OpenSet(s1);
      GetAscending(s1);
      GetAscending(s2);
      MergeUnion(Get(s1), Get(s2));
    }

    /** Adds the elements of s2 to s1, reusing the cells of s1; s2 keeps its own. */
    method UnionSet(s1: nat, s2: nat) returns (r: nat)
      requires Valid() && chunk > 8 && IsSet(s1) && IsSet(s2) && (s1 != s2 || s1 == 0)
      modifies this
      ensures Valid() && r !in old(sets) - {s1} && (Get(r) == [] <==> r == 0)
      ensures Get(r) == Merge(old(Get(s1)), old(Get(s2)))
      ensures sets == Put(old(sets) - {s1}, r, Get(r))
      ensures forall k :: k in old(lists) && k != s1 ==> k in lists && lists[k] == old(lists)[k]
    {
      hide Merge, Building, SetPool.Ok, SetPool.Busy, SetPool.Valid;
      hide SetPool.Merging, Cursor, Ascending, Rep, SetPool.Get;
      UnionStart(s1, s2);
      ghost var goal := Merge(Get(s1), Get(s2));
      ghost var w := Work([], if s1 in sets then lists[s1] else [], [], Elems(sets, s1));
      lists, sets := lists - {s1}, sets - {s1};
      Refold(0, 0, s1, w);
      MergingStart(s1, s2, w);
      var head, p, c1;
      head, p, c1, w := MergeLoop(s1, s2, w, goal);
      r := LinkEnd(head, p, c1, w);
      PutGet(r, goal);
    }

    /** Copies what is left of two sets, in order, behind p. */
    ghost predicate Copying(head: nat, p: nat, w: Work, s1: nat, i: nat, c1: nat, s2: nat, j: nat, c2: nat,
                            goal: seq<int>)
      reads this
    {
      && Busy(head, p, 0, w) && Cursor(lists, sets, s1, i, c1) && Cursor(lists, sets, s2, j, c2)
      && i <= |Elems(sets, s1)| && j <= |Elems(sets, s2)|
      && w.vo + Merge(Elems(sets, s1)[i..], Elems(sets, s2)[j..]) == goal
    }

    lemma CopyingParts(head: nat, p: nat, w: Work, s1: nat, i: nat, c1: nat, s2: nat, j: nat, c2: nat, goal: seq<int>)
      requires Copying(head, p, w, s1, i, c1, s2, j, c2, goal)
      ensures Busy(head, p, 0, w) && i <= |Elems(sets, s1)| && j <= |Elems(sets, s2)|
      ensures w.vo + Merge(Elems(sets, s1)[i..], Elems(sets, s2)[j..]) == goal
      ensures Cursor(lists, sets, s1, i, c1) && Cursor(lists, sets, s2, j, c2)
      ensures if c1 == 0 then i == |Elems(sets, s1)| else
        && i < |Elems(sets, s1)| && c1 < |value| == |next| && value[c1] == Elems(sets, s1)[i]
        && Cursor(lists, sets, s1, i + 1, next[c1])
      ensures if c2 == 0 then j == |Elems(sets, s2)| else
        && j < |Elems(sets, s2)| && c2 < |value| == |next| && value[c2] == Elems(sets, s2)[j]
        && Cursor(lists, sets, s2, j + 1, next[c2])
    {
      Look(head, p, 0, w);
      var loose := w.out + w.rest;
      hide Merge, Building, SetPool.Busy, Rep;
      CursorEnd(loose, s1, i, c1);
      CursorEnd(loose, s2, j, c2);
    }

    lemma CursorEnd(loose: seq<nat>, s: nat, j: nat, c: nat)
      requires Ok(loose) && Cursor(lists, sets, s, j, c)
      ensures if c == 0 then j == |Elems(sets, s)| else
        && j < |Elems(sets, s)| && c < |value| == |next| && value[c] == Elems(sets, s)[j]
        && Cursor(lists, sets, s, j + 1, next[c])
    {
      if c != 0 { CursorAt(loose, s, j, c); }
      else if s in sets && j < |sets[s]| { CellAt(value, next, freelist, lists, free, sets, loose, s, j); }
    }

    /** Copies the smaller of two first elements, and the first set's when the second has ended. */
    method CopyOne(head: nat, p: nat, ghost w: Work, ghost s1: nat, ghost i: nat, c1: nat, ghost s2: nat, ghost j: nat,
                   c2: nat, ghost goal: seq<int>)
      returns (head': nat, p': nat, c1': nat, c2': nat, ghost w': Work, ghost i': nat, ghost j': nat)
      requires Copying(head, p, w, s1, i, c1, s2, j, c2, goal) && (c1 != 0 || c2 != 0) && chunk > 8
      modifies this
      ensures Copying(head', p', w', s1, i', c1', s2, j', c2', goal) && i' + j' > i + j
      ensures lists == old(lists) && sets == old(sets)
      ensures (c1 == 0 ==> c1' == 0) && (c2 == 0 ==> c2' == 0)
    {
      CopyingParts(head, p, w, s1, i, c1, s2, j, c2, goal);
      ghost var a, b := Elems(sets, s1)[i..], Elems(sets, s2)[j..];
      if c1 != 0 { Rest(Elems(sets, s1), i); }
      if c2 != 0 { Rest(Elems(sets, s2), j); }
      hide Merge, Building, SetPool.Ok, SetPool.Busy, Cursor, Elems, Rep;
      c1', c2', i', j' := c1, c2, i, j;
      if c1 != 0 && (c2 == 0 || value[c1] < value[c2]) {
        MergeLess(w.vo, a, b);
        c1', i' := next[c1], i + 1;
        head', p', w' := LinkNew(value[c1], head, p, 0, w);
      } else if c1 == 0 || value[c1] > value[c2] {
        MergeMore(w.vo, a, b);
        c2', j' := next[c2], j + 1;
        head', p', w' := LinkNew(value[c2], head, p, 0, w);
      } else {
        MergeSame(w.vo, a, b);
        c1', i', c2', j' := next[c1], i + 1, next[c2], j + 1;
        head', p', w' := LinkNew(value[c1], head, p, 0, w);
      }
    }

    lemma EmptyBusy()
      requires Valid()
      ensures Busy(0, 0, 0, Work([], [], [], []))
    {
      var none: seq<nat> := [];
      assert none + none == none;
      hide Owned, Linked, Held;
    }

    lemma CopyingStart(s1: nat, s2: nat)
      requires Valid() && IsSet(s1) && IsSet(s2)
      ensures Copying(0, 0, Work([], [], [], []), s1, 0, s1, s2, 0, s2, Merge(Get(s1), Get(s2)))
    {
      EmptyBusy();
      CursorStart([], s1);
      CursorStart([], s2);
      hide Merge, Rep, SetPool.Busy, SetPool.Ok, Cursor, Building;
      var m := Merge(Get(s1), Get(s2));
      assert Elems(sets, s1)[0..] == Get(s1) && Elems(sets, s2)[0..] == Get(s2);
      assert [] + m == m;
    }

    /** The union of two sets, in new cells. */
    method MergeSet(s1: nat, s2: nat) returns (r: nat)
      requires Valid() && chunk > 8 && IsSet(s1) && IsSet(s2)
      modifies this
      ensures Valid() && r !in old(sets) && (Get(r) == [] <==> r == 0)
      ensures Get(r) == Merge(old(Get(s1)), old(Get(s2)))
      ensures sets == Put(old(sets), r, Get(r))
      ensures forall k :: k in old(lists) ==> k in lists && lists[k] == old(lists)[k]
    {
      hide Merge, Building, SetPool.Ok, SetPool.Busy, SetPool.Valid;
      hide SetPool.Copying, Cursor, Ascending, Rep, Elems, SetPool.Get;
      UnionStart(s1, s2);
      CopyingStart(s1, s2);
      ghost var goal := Merge(Get(s1), Get(s2));
      ghost var w := Work([], [], [], []);
      ghost var i, j := 0, 0;
      var head, p, c1, c2 := 0, 0, s1, s2;
      while c1 != 0 && c2 != 0
        invariant Copying(head, p, w, s1, i, c1, s2, j, c2, goal) && lists == old(lists) && sets == old(sets)
        decreases |Elems(sets, s1)| + |Elems(sets, s2)| - i - j
      {
        CopyingParts(head, p, w, s1, i, c1, s2, j, c2, goal);
        head, p, c1, c2, w, i, j := CopyOne(head, p, w, s1, i, c1, s2, j, c2, goal);
        CopyingParts(head, p, w, s1, i, c1, s2, j, c2, goal);
      }
      while c1 != 0 || c2 != 0
        invariant Copying(head, p, w, s1, i, c1, s2, j, c2, goal) && lists == old(lists) && sets == old(sets)
        decreases |Elems(sets, s1)| + |Elems(sets, s2)| - i - j
      {
        CopyingParts(head, p, w, s1, i, c1, s2, j, c2, goal);
        head, p, c1, c2, w, i, j := CopyOne(head, p, w, s1, i, c1, s2, j, c2, goal);
        CopyingParts(head, p, w, s1, i, c1, s2, j, c2, goal);
      }
      CopyingEnd(head, p, w, s1, i, s2, j, goal);
      r := LinkEnd(head, p, 0, w);
      PutGet(r, goal);
    }

    lemma CopyingEnd(head: nat, p: nat, w: Work, s1: nat, i: nat, s2: nat, j: nat, goal: seq<int>)
      requires Copying(head, p, w, s1, i, 0, s2, j, 0, goal)
      ensures Busy(head, p, 0, w) && w.vo + w.vr == goal
    {
      CopyingParts(head, p, w, s1, i, 0, s2, j, 0, goal);
      Look(head, p, 0, w);
      hide SetPool.Busy, Building, Cursor;
      assert Elems(sets, s1)[i..] == [] && Elems(sets, s2)[j..] == [];
    }

    /** A copy of a set. */
    method CopySet(s: nat) returns (r: nat)
      requires Valid() && chunk > 8 && IsSet(s)
      modifies this
      ensures Valid() && r !in old(sets) && (Get(r) == [] <==> r == 0)
      ensures Get(r) == old(Get(s))
      ensures sets == Put(old(sets), r, Get(r))
    {
      Zero();
      r := MergeSet(s, 0);
    }

    lemma Filled(s: nat)
      requires Valid() && s in sets
      ensures Get(s) != [] && Get(s) == sets[s]
    {
      CellAt(value, next, freelist, lists, free, sets, [], s, 0);
    }

    lemma Zero()
      requires Valid()
      ensures 0 !in sets
    {
      if 0 in sets { CellAt(value, next, freelist, lists, free, sets, [], 0, 0); }
    }

    lemma AddStart(s: nat, n: int)
      requires Valid() && IsSet(s)
      ensures s in sets <==> s in lists
      ensures var cs, v := if s in sets then lists[s] else [], Elems(sets, s);
        Building(value, next, freelist, lists - {s}, free, sets - {s}, 0, 0, [], s, cs, [], v)
      ensures Elems(sets, s) == Get(s) && Ascending(Merge(Get(s), [n])) && n in Merge(Get(s), [n])
      ensures [] + Merge(Get(s), [n]) == Merge(Get(s), [n])
    {
      OpenSet(s);
      GetAscending(s);
      MergeUnion(Get(s), [n]);
      assert n in [n];
      assert n in Merge(Get(s), [n]);
    }

    /** Puts n in its place in the list of s. */
    method AddSet(s: nat, n: int) returns (r: nat)
      requires Valid() && chunk > 8 && IsSet(s)
      modifies this
      ensures Valid() && r !in old(sets) - {s} && r != 0
      ensures Get(r) == Merge(old(Get(s)), [n])
      ensures sets == Put(old(sets) - {s}, r, Get(r))
      ensures forall k :: k in old(lists) && k != s ==> k in lists && lists[k] == old(lists)[k]
    {
      hide Merge, Building, SetPool.Ok, SetPool.Busy, SetPool.Valid, Ascending, Rep, SetPool.Get, SetPool.IsSet, Elems;
      AddStart(s, n);
      ghost var goal := Merge(Get(s), [n]);
      ghost var w := Work([], if s in sets then lists[s] else [], [], Elems(sets, s));
      lists, sets := lists - {s}, sets - {s};
      var head: nat, p: nat, c: nat := 0, 0, s;
      Refold(0, 0, s, w);
      Look(head, p, c, w);
      while c != 0 && value[c] < n
        invariant Busy(head, p, c, w) && w.vo + Merge(w.vr, [n]) == goal && lists == old(lists) - {s}
        invariant sets == old(sets) - {s}
        invariant c < |value| && c < |next| && (c != 0 ==> w.vr != [] && value[c] == w.vr[0]) && (c == 0 ==> w.vr == [])
        decreases |w.vr|
      {
        MergeLess(w.vo, w.vr, [n]);
        var c0 := c;
        head, c, w := LinkOld(head, p, c0, w);
        p := c0;
        Look(head, p, c, w);
      }
      if c != 0 && value[c] == n {
        MergePlace(w.vo, w.vr, n);
      } else {
        MergeMore(w.vo, w.vr, [n]);
        MergeNone(w.vr);
        head, p, w := LinkNew(n, head, p, c, w);
      }
      r := LinkEnd(head, p, c, w);
      PutGet(r, goal);
    }

    lemma PutGet(r: nat, v: seq<int>)
      requires r in sets ==> sets[r] == v
      requires v != [] ==> r in sets
      requires v == [] ==> r !in sets
      ensures Get(r) == v
    {
    }

    /** Gives the cells of a set back to the freelist. */
    method RmSet(s: nat)
      requires Valid() && IsSet(s)
      modifies this
      ensures Valid() && sets == old(sets) - {s} && next != [] && |next| == |old(next)|
      ensures |free| == |old(free)| + |old(Get(s))|
    {
      hide *;
      GiveStart(s);
      if s == 0 {
        return;
      }
      Give(value, next, freelist, lists, free, sets, s);
      ghost var i, cs := 0, lists[s];
      var c := s;
      while next[c] != 0
        invariant i < |cs| && c == cs[i] && c < |next|
        decreases |cs| - i
        modifies {}
      {
        GiveNext(s, i);
        c, i := next[c], i + 1;
      }
      GiveNext(s, i);
      next := next[c := freelist];
      freelist, free, lists, sets := s, cs + free, lists - {s}, sets - {s};
      Fold([]);
      IsValid();
    }

    lemma GiveStart(s: nat)
      requires Valid() && IsSet(s)
      ensures Rep(value, next, freelist, lists, free, sets, []) && next != []
      ensures s == 0 ==> sets - {s} == sets && Get(s) == []
      ensures s != 0 ==>
        s in sets && s in lists && lists[s] != [] && lists[s][0] == s && |lists[s]| == |Get(s)| && s < |next|
    {
      Zero();
      Sizes(value, next, freelist, lists, free, sets, []);
      if s != 0 { CellAt(value, next, freelist, lists, free, sets, [], s, 0); }
    }

    lemma GiveNext(s: nat, i: nat)
      requires Valid() && s in sets && s in lists && i < |lists[s]|
      ensures lists[s][i] < |next| && (next[lists[s][i]] == 0 <==> i + 1 == |lists[s]|)
      ensures next[lists[s][i]] != 0 ==> next[lists[s][i]] == lists[s][i + 1] && lists[s][i + 1] < |next|
      ensures Rep(value, next, freelist, lists, free, sets, [])
    {
      assert Chain(next, s, lists[s]);
    }

    lemma ReadStart(s: nat)
      requires Valid() && IsSet(s)
      ensures Ok([]) && Get(s) == Elems(sets, s) && Cursor(lists, sets, s, 0, s)
    {
      CursorStart([], s);
    }

    lemma ReadStart2(s: nat)
      requires Valid() && s in sets
      ensures Ok([]) && sets[s] == Elems(sets, s) && Cursor(lists, sets, s, 0, s)
    {
      CursorStart([], s);
    }

    /** Two sets hold the same elements. */
    method EqSet(s1: nat, s2: nat) returns (b: bool)
      requires Valid() && IsSet(s1) && IsSet(s2)
      ensures b <==> Get(s1) == Get(s2)
    {
      hide *;
      var c1, c2 := s1, s2;
      ghost var i := 0;
      ghost var x, y := Elems(sets, s1), Elems(sets, s2);
      ReadStart(s1);
      ReadStart(s2);
      while c1 != 0 && c2 != 0
        invariant Cursor(lists, sets, s1, i, c1) && Cursor(lists, sets, s2, i, c2)
        invariant i <= |x| && i <= |y| && x[..i] == y[..i]
        decreases |x| - i
      {
        CursorEnd([], s1, i, c1);
        CursorEnd([], s2, i, c2);
        if value[c1] != value[c2] {
          assert x[i] != y[i];
          return false;
        }
        assert x[..i + 1] == x[..i] + [x[i]] && y[..i + 1] == y[..i] + [y[i]];
        c1, c2, i := next[c1], next[c2], i + 1;
      }
      CursorEnd([], s1, i, c1);
      CursorEnd([], s2, i, c2);
      if c1 == 0 && c2 == 0 { assert x == x[..i] && y == y[..i]; }
      return c1 == 0 && c2 == 0;
    }

    /** The hash code of a set. */
    method HashSet(s: nat) returns (n: int)
      requires Valid() && IsSet(s)
      ensures n == Hash(Get(s))
    {
      hide Rep, SetPool.Ok, SetPool.Valid, SetPool.Get, Cursor, Elems, SetPool.IsSet;
      n := 0;
      var c := s;
      ghost var i, x := 0, Elems(sets, s);
      ReadStart(s);
      while c != 0
        invariant Cursor(lists, sets, s, i, c) && i <= |x| && n == Hash(x[..i])
        decreases |x| - i
      {
        CursorEnd([], s, i, c);
        assert x[..i + 1][..i] == x[..i];
        n := (n + 11 * value[c]) % 0x1_0000_0000;
        c, i := next[c], i + 1;
      }
      CursorEnd([], s, i, c);
      assert x[..i] == x;
    }
  }

  /** The sum of 11 times each element, in 32-bit arithmetic. */
  function Hash(s: seq<int>): int {
    if s == [] then 0 else (Hash(s[..|s| - 1]) + 11 * s[|s| - 1]) % 0x1_0000_0000
  }

  lemma MergePlace(vo: seq<int>, vr: seq<int>, n: int)
    requires vr != [] && vr[0] == n
    ensures vo + Merge(vr, [n]) == vo + vr
  {
    assert Merge(vr[1..], []) == vr[1..];
    assert vr == [vr[0]] + vr[1..];
  }

  lemma MergeNone(vr: seq<int>)
    ensures forall n: int :: [n][1..] == []
    ensures Merge(vr, []) == vr
  {
  }

  /** The cells of a set move to the front of the freelist. */
  lemma Give(value: seq<int>, next: seq<nat>, freelist: nat, lists: map<nat, seq<nat>>, free: seq<nat>,
             sets: map<nat, seq<int>>, s: nat)
    requires Rep(value, next, freelist, lists, free, sets, []) && s in sets
    ensures s in lists && lists[s] != [] && |lists[s]| == |sets[s]|
    ensures var cs := lists[s];
      && cs[|cs| - 1] < |next|
      && Rep(value, next[cs[|cs| - 1] := freelist], s, lists - {s}, cs + free, sets - {s}, [])
  {
    var cs := lists[s];
    Open(value, next, freelist, lists, free, sets, s);
    assert Chain(next, s, cs);
    var p := cs[|cs| - 1];
    LinkKeeps(value, next, freelist, lists - {s}, free, sets - {s}, cs, p, freelist);
    assert Link(next, p, freelist) == next[p := freelist];
    GiveChain(next, s, cs, freelist, free);
    GiveOwned(|next|, lists - {s}, free, cs);
  }

  lemma GiveChain(next: seq<nat>, s: nat, cs: seq<nat>, freelist: nat, free: seq<nat>)
    requires Chain(next, s, cs) && cs != [] && Distinct(cs) && Chain(next, freelist, free) && Apart(free, cs)
    ensures Chain(next[cs[|cs| - 1] := freelist], s, cs + free)
  {
    var next', all := next[cs[|cs| - 1] := freelist], cs + free;
    forall i | 0 <= i < |all|
      ensures 0 < all[i] < |next'| && next'[all[i]] == Nth(all, i + 1)
    {
      if i >= |cs| { assert all[i] == free[i - |cs|]; }
    }
  }

  lemma GiveOwned(size: nat, lists: map<nat, seq<nat>>, free: seq<nat>, cs: seq<nat>)
    requires Owned(size, lists, free, cs)
    ensures Owned(size, lists, cs + free, [])
  {
    forall h | h in lists
      ensures Apart(lists[h], cs + free)
    {
      assert Apart(lists[h], cs) && Apart(lists[h], free);
    }
  }

  lemma Sizes(value: seq<int>, next: seq<nat>, freelist: nat, lists: map<nat, seq<nat>>, free: seq<nat>,
              sets: map<nat, seq<int>>, loose: seq<nat>)
    requires Rep(value, next, freelist, lists, free, sets, loose)
    ensures |value| == |next| > 0 && 0 <= freelist && (freelist != 0 ==> freelist < |next|)
  {
    hide Owned;
  }
}
