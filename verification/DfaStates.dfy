/** The table of automaton states: found by hashing their position sets, kept on a list of
  states still to be expanded or one of states already expanded, with their transitions in
  blocks of shared memory. */
module DfaStates {
  import opened Sequences
  import opened DfaSet
  import opened DfaTrav

  const STATE_HASH := 199
  const TRAN_CHUNK := 100

  datatype Tran = Tran(ch0: int, ch1: int, to: nat)

  // The transitions of a state are tranNo entries of a block, starting at index at.
  datatype State = State(set_: nat, ruleNo: int, block: nat, at: nat, tranNo: nat)

  /** State i holds its own set of the pool, whose elements are content[i]. */
  ghost predicate SetsOk(sets: Sets, states: seq<State>, content: seq<seq<int>>, keep: set<nat>) {
    && |states| == |content|
    && (forall h :: h in keep ==> h in sets) && 0 !in sets
    && (forall i :: 0 <= i < |states| ==>
        states[i].set_ in sets && sets[states[i].set_] == content[i] && states[i].set_ !in keep)
    && (forall i, j :: 0 <= i < j < |states| ==> states[i].set_ != states[j].set_)
  }

  /** Each state is in the chain of its hash code, and no set has two states. */
  ghost predicate HashOk(hasharray: seq<seq<nat>>, content: seq<seq<int>>) {
    && |hasharray| == STATE_HASH
    && (forall b, k :: 0 <= b < STATE_HASH && 0 <= k < |hasharray[b]| ==> hasharray[b][k] < |content|)
    && (forall i: nat :: i < |content| ==> i in hasharray[Hash(content[i]) % STATE_HASH])
    && Distinct(content)
  }

  /** Each state is waiting or expanded, not both. */
  ghost predicate ListsOk(unmarked: seq<nat>, marked: seq<nat>, no: nat) {
    && (forall i: nat :: i < no <==> i in unmarked + marked)
    && Distinct(unmarked + marked)
  }

  /** The transitions of a state lie inside their block; those of the state being expanded end
      where the current block ends. */
  ghost predicate BlocksOk(blocks: seq<seq<Tran>>, sizes: seq<nat>, states: seq<State>, marked: seq<nat>) {
    && |blocks| == |sizes| > 0
    && (forall k :: 0 <= k < |blocks| ==> |blocks[k]| <= sizes[k])
    && (forall i :: 0 <= i < |states| && i in marked ==> Inside(blocks, states[i]))
    && (forall i :: 0 <= i < |states| && i !in marked ==> states[i].tranNo == 0)
    && (marked != [] && marked[0] < |states| ==>
      var s := states[marked[0]]; s.block == |blocks| - 1 && s.at + s.tranNo == |blocks[s.block]|)
  }

  ghost predicate Inside(blocks: seq<seq<Tran>>, s: State) {
    s.block < |blocks| && s.at + s.tranNo <= |blocks[s.block]|
  }

  /** The transitions of a state. */
  function TransOf(blocks: seq<seq<Tran>>, s: State): seq<Tran> {
    if s.block < |blocks| && s.at + s.tranNo <= |blocks[s.block]| then blocks[s.block][s.at..s.at + s.tranNo] else []
  }

  class StateTable {
    const pool: SetPool
    const hasharray: array<seq<nat>>
    var states: seq<State>
    var unmarked: seq<nat>
    var marked: seq<nat>
    var blocks: seq<seq<Tran>>
    var sizes: seq<nat>
    // The elements of each state's set.
    ghost var content: seq<seq<int>>

    ghost predicate Ok(keep: set<nat>)
      reads this, pool, hasharray
    {
      && pool.Valid() && pool.chunk > 8 && SetsOk(pool.sets, states, content, keep)
      && HashOk(hasharray[..], content) && ListsOk(unmarked, marked, |states|)
      && BlocksOk(blocks, sizes, states, marked)
    }

    constructor (pool: SetPool, ghost keep: set<nat>)
      requires pool.Valid() && pool.chunk > 8 && forall h :: h in keep ==> h in pool.sets
      ensures Ok(keep) && content == [] && states == [] && unmarked == [] && marked == [] && this.pool == pool
      ensures fresh(hasharray)
    {
      this.pool := pool;
      hasharray := new seq<nat>[STATE_HASH](_ => []);
      states, unmarked, marked := [], [], [];
      blocks, sizes, content := [[]], [TRAN_CHUNK], [];
      new;
      pool.Zero();
    }

    /** The state of a set, which is given up when there already is one. */
    method AddState(s: nat, ghost keep: set<nat>) returns (no: nat, added: bool)
      requires Ok(keep) && s in pool.sets && s !in keep && (forall i :: 0 <= i < |states| ==> states[i].set_ != s)
      modifies this`states, this`content, this`unmarked, hasharray, pool
      ensures Ok(keep) && Kept(old(pool.sets), pool.sets, keep)
      ensures no < |content| && content[no] == Elems(old(pool.sets), s) && added == (content[no] !in old(content))
      ensures content == if added then old(content) + [content[no]] else old(content)
      ensures unmarked == if added then [no] + old(unmarked) else old(unmarked)
      ensures |states| >= |old(states)| && states[..|old(states)|] == old(states)
    {
      hide *;
      Start(keep, s);
      ghost var sets0, e := pool.sets, Elems(pool.sets, s);
      var b := pool.HashSet(s);
      HashBound(e);
      b := b % STATE_HASH;
      var chain := hasharray[b];
      var k := 0;
      DifferNone(content, chain, e);
      assert hasharray[..][b] == chain;
      while k < |chain|
        invariant k <= |chain| && Differ(content, chain, k, e)
        invariant Ok(keep) && hasharray[b] == chain
        modifies {}
      {
        var i := chain[k];
        ChainAt(keep, b, k);
        ghost var found := content[i];
        var same := pool.EqSet(states[i].set_, s);
        if same {
          assert found == e;
          break;
        }
        DifferMore(content, chain, k, e);
        k := k + 1;
      }
      ghost var hash0, content0 := hasharray[..], content;
      Start(keep, s);
      if k < |chain| {
        ChainAt(keep, b, k);
        no, added := chain[k], false;
        DropSet(pool.sets, states, content, keep, s);
        pool.RmSet(s);
        assert hasharray[..] == hash0;
        Whole(keep);
        ContentIn(content, no);
        return;
      }
      assert hash0[b] == chain;
      NotFound(hash0, content, e, b);
      no, added := |states|, true;
      NewState(pool.sets, states, content, keep, s);
      NewHash(hash0, content, e, b);
      NewUnmarked(unmarked, marked, |states|);
      NewBlocks(blocks, sizes, states, marked, unmarked, s);
      states, unmarked := states + [State(s, 0, 0, 0, 0)], [|states|] + unmarked;
      hasharray[b] := [no] + chain;
      content := content + [e];
      assert hasharray[..] == hash0[b := [no] + chain];
      Whole(keep);
    }

    lemma Start(keep: set<nat>, s: nat)
      requires Ok(keep) && (s == 0 || s in pool.sets)
      ensures pool.Valid() && pool.chunk > 8 && pool.IsSet(s) && pool.Get(s) == Elems(pool.sets, s)
      ensures SetsOk(pool.sets, states, content, keep) && HashOk(hasharray[..], content)
      ensures ListsOk(unmarked, marked, |states|)
      ensures BlocksOk(blocks, sizes, states, marked) && hasharray.Length == STATE_HASH && |states| == |content|
      ensures s in pool.sets ==> Elems(pool.sets, s) != []
    {
      hide Rep;
      if s in pool.sets { pool.Filled(s); }
    }

    lemma Whole(keep: set<nat>)
      requires pool.Valid() && pool.chunk > 8 && SetsOk(pool.sets, states, content, keep)
      requires HashOk(hasharray[..], content)
      requires ListsOk(unmarked, marked, |states|) && BlocksOk(blocks, sizes, states, marked)
      ensures Ok(keep)
    {
    }

    lemma ChainAt(keep: set<nat>, b: nat, k: nat)
      requires Ok(keep) && b < hasharray.Length && k < |hasharray[b]|
      ensures hasharray[b][k] < |states| == |content| && pool.IsSet(states[hasharray[b][k]].set_)
      ensures pool.Get(states[hasharray[b][k]].set_) == content[hasharray[b][k]]
    {
      hide Rep, BlocksOk, ListsOk;
      assert hasharray[..][b] == hasharray[b];
    }

    /** Takes the next state to be expanded. */
    method GetState(ghost keep: set<nat>) returns (no: int)
      requires Ok(keep)
      modifies this`unmarked, this`marked, this`states
      ensures Ok(keep)
      ensures no == -1 <==> old(unmarked) == []
      ensures no == -1 ==> unmarked == [] && marked == old(marked) && states == old(states)
      ensures no != -1 ==>
        no >= 0 && no == old(unmarked)[0] && unmarked == old(unmarked)[1..] && marked == [no] + old(marked)
      ensures no != -1 ==> no < |states| == |old(states)| && TransOf(blocks, states[no]) == []
      ensures no != -1 ==> forall i :: 0 <= i < |states| && i != no ==> states[i] == old(states)[i]
    {
      hide *;
      if |unmarked| == 0 {
        return -1;
      }
      Start(keep, 0);
      MarkLists(unmarked, marked, |states|);
      no := unmarked[0];
      var cur := |blocks| - 1;
      ghost var states0, marked0 := states, marked;
      MarkBlocks(blocks, sizes, states, unmarked, marked);
      MarkSets(pool.sets, states, content, keep, no, cur, |blocks[cur]|);
      states := states[no := State(states[no].set_, states[no].ruleNo, cur, |blocks[cur]|, 0)];
      unmarked, marked := unmarked[1..], [no] + marked;
      Whole(keep);
    }

    /** Notes the rule of a state. */
    method SetRule(no: nat, rule: int, ghost keep: set<nat>)
      requires Ok(keep) && no < |states|
      modifies this`states
      ensures Ok(keep) && |states| == |old(states)| && states[no].ruleNo == rule
      ensures forall i :: 0 <= i < |states| ==>
        TransOf(blocks, states[i]) == TransOf(blocks, old(states)[i]) && (i != no ==> states[i] == old(states)[i])
    {
      hide *;
      Start(keep, 0);
      var st := states[no];
      RuleBlocks(pool.sets, content, keep, blocks, sizes, states, marked, no, rule);
      states := states[no := State(st.set_, rule, st.block, st.at, st.tranNo)];
      Whole(keep);
    }

    /** Adds a transition to the state being expanded. */
    method AddTran(s: nat, c0: int, c1: int, to: nat, ghost keep: set<nat>)
      requires Ok(keep) && marked != [] && s == marked[0] && s < |states|
      modifies this`states, this`blocks, this`sizes
      ensures Ok(keep) && |states| == |old(states)|
      ensures TransOf(blocks, states[s]) == TransOf(old(blocks), old(states)[s]) + [Tran(c0, c1, to)]
      ensures forall i :: 0 <= i < |states| && i in marked && i != s ==>
        TransOf(blocks, states[i]) == TransOf(old(blocks), old(states)[i])
      ensures forall i :: 0 <= i < |states| ==> states[i].ruleNo == old(states)[i].ruleNo
    {
      hide *;
      Start(keep, 0);
      CurrentBlock(blocks, sizes, states, marked, unmarked, s);
      var cur := |blocks| - 1;
      var st := states[s];
      ghost var blocks0, sizes0, states0 := blocks, sizes, states;
      if |blocks[cur]| == sizes[cur] {
        var size := if st.tranNo >= TRAN_CHUNK then st.tranNo + 8 else TRAN_CHUNK;
        blocks, sizes := blocks + [TransOf(blocks, st)], sizes + [size];
        st := State(st.set_, st.ruleNo, |blocks| - 1, 0, st.tranNo);
        NewBlock(blocks0, sizes0, states, marked, unmarked, s, size, st);
        cur := |blocks| - 1;
      } else {
        SameState(states, s);
        SameTransNow(blocks, states, marked);
      }
      ghost var blocks1, states1 := blocks, states[s := st];
      AppendTran(blocks, sizes, states1, marked, unmarked, s, Tran(c0, c1, to));
      blocks := blocks[cur := blocks[cur] + [Tran(c0, c1, to)]];
      states := states[s := State(st.set_, st.ruleNo, st.block, st.at, st.tranNo + 1)];
      assert states == states1[s := State(st.set_, st.ruleNo, st.block, st.at, st.tranNo + 1)];
      SetsSame(pool.sets, states0, states, content, keep);
      SameTransThen(blocks0, states0, blocks1, states1, marked, s);
      Whole(keep);
    }
  }

  ghost predicate Differ(content: seq<seq<int>>, chain: seq<nat>, k: nat, e: seq<int>) {
    forall j :: 0 <= j < k && j < |chain| && chain[j] < |content| ==> content[chain[j]] != e
  }

  lemma DifferNone(content: seq<seq<int>>, chain: seq<nat>, e: seq<int>)
    ensures Differ(content, chain, 0, e)
  {
  }

  lemma DifferMore(content: seq<seq<int>>, chain: seq<nat>, k: nat, e: seq<int>)
    requires Differ(content, chain, k, e) && k < |chain| && (chain[k] < |content| ==> content[chain[k]] != e)
    ensures Differ(content, chain, k + 1, e)
  {
  }

  lemma HashBound(e: seq<int>)
    ensures 0 <= Hash(e) % STATE_HASH < STATE_HASH
  {
  }

  lemma ContentIn(content: seq<seq<int>>, i: nat)
    requires i < |content|
    ensures content[i] in content
  {
  }

  lemma NotFound(hasharray: seq<seq<nat>>, content: seq<seq<int>>, e: seq<int>, b: nat)
    requires HashOk(hasharray, content) && b == Hash(e) % STATE_HASH && Differ(content, hasharray[b], |hasharray[b]|, e)
    ensures e !in content
  {
    forall i: nat | i < |content|
      ensures content[i] != e
    {
      assert i in hasharray[Hash(content[i]) % STATE_HASH];
    }
  }

  lemma DropSet(sets: Sets, states: seq<State>, content: seq<seq<int>>, keep: set<nat>, s: nat)
    requires SetsOk(sets, states, content, keep) && s !in keep
    requires (forall i :: 0 <= i < |states| ==> states[i].set_ != s)
    ensures SetsOk(sets - {s}, states, content, keep) && Kept(sets, sets - {s}, keep)
  {
  }

  lemma NewState(sets: Sets, states: seq<State>, content: seq<seq<int>>, keep: set<nat>, s: nat)
    requires SetsOk(sets, states, content, keep) && s in sets && s !in keep
    requires (forall i :: 0 <= i < |states| ==> states[i].set_ != s)
    ensures SetsOk(sets, states + [State(s, 0, 0, 0, 0)], content + [Elems(sets, s)], keep) && Kept(sets, sets, keep)
  {
  }

  lemma NewHash(hasharray: seq<seq<nat>>, content: seq<seq<int>>, e: seq<int>, b: nat)
    requires HashOk(hasharray, content) && b == Hash(e) % STATE_HASH && e !in content
    ensures HashOk(hasharray[b := [|content|] + hasharray[b]], content + [e])
  {
    var hash', content' := hasharray[b := [|content|] + hasharray[b]], content + [e];
    forall i: nat | i < |content'|
      ensures i in hash'[Hash(content'[i]) % STATE_HASH]
    {
      if i < |content| { assert i in hasharray[Hash(content[i]) % STATE_HASH]; }
    }
  }

  lemma NewUnmarked(unmarked: seq<nat>, marked: seq<nat>, no: nat)
    requires ListsOk(unmarked, marked, no)
    ensures ListsOk([no] + unmarked, marked, no + 1)
  {
    var all := unmarked + marked;
    assert [no] + unmarked + marked == [no] + all;
    assert no !in all;
    forall i, j | 0 <= i < j < |[no] + all|
      ensures ([no] + all)[i] != ([no] + all)[j]
    {
      assert ([no] + all)[j] == all[j - 1] && all[j - 1] in all;
      if i > 0 { assert ([no] + all)[i] == all[i - 1]; }
    }
  }

  lemma NewBlocks(blocks: seq<seq<Tran>>, sizes: seq<nat>, states: seq<State>, marked: seq<nat>, unmarked: seq<nat>,
                  s: nat)
    requires BlocksOk(blocks, sizes, states, marked) && ListsOk(unmarked, marked, |states|)
    ensures BlocksOk(blocks, sizes, states + [State(s, 0, 0, 0, 0)], marked)
  {
    var no := |states|;
    assert no !in unmarked + marked;
    assert marked != [] ==> marked[0] in unmarked + marked;
  }

  lemma MarkLists(unmarked: seq<nat>, marked: seq<nat>, no: nat)
    requires ListsOk(unmarked, marked, no) && unmarked != []
    ensures ListsOk(unmarked[1..], [unmarked[0]] + marked, no) && unmarked[0] < no && unmarked[0] !in marked
  {
    var all, all' := unmarked + marked, unmarked[1..] + ([unmarked[0]] + marked);
    var n := |unmarked| - 1;
    assert all[0] == unmarked[0] && all[0] in all;
    forall i | 0 <= i < |all'|
      ensures all'[i] == all[if i < n then i + 1 else if i == n then 0 else i]
    {
    }
    forall i: nat
      ensures i in all' <==> i in all
    {
      if k :| 0 <= k < |all| && all[k] == i {
        assert all'[if k == 0 then n else if k <= n then k - 1 else k] == i;
      }
    }
    forall k | 0 <= k < |marked|
      ensures marked[k] != unmarked[0]
    {
      assert all[n + 1 + k] == marked[k];
    }
  }

  lemma MarkBlocks(blocks: seq<seq<Tran>>, sizes: seq<nat>, states: seq<State>, unmarked: seq<nat>, marked: seq<nat>)
    requires BlocksOk(blocks, sizes, states, marked) && unmarked != [] && unmarked[0] < |states|
    requires unmarked[0] !in marked
    ensures |blocks| > 0
    ensures var no, cur := unmarked[0], |blocks| - 1;
      var st := State(states[no].set_, states[no].ruleNo, cur, |blocks[cur]|, 0);
      BlocksOk(blocks, sizes, states[no := st], [no] + marked) && TransOf(blocks, st) == []
  {
  }

  lemma MarkSets(sets: Sets, states: seq<State>, content: seq<seq<int>>, keep: set<nat>, no: nat, block: nat, at: nat)
    requires SetsOk(sets, states, content, keep) && no < |states|
    ensures SetsOk(sets, states[no := State(states[no].set_, states[no].ruleNo, block, at, 0)], content, keep)
  {
  }

  lemma SameState(states: seq<State>, s: nat)
    requires s < |states|
    ensures states[s := states[s]] == states
  {
  }

  lemma CurrentBlock(blocks: seq<seq<Tran>>, sizes: seq<nat>, states: seq<State>, marked: seq<nat>, unmarked: seq<nat>,
                     s: nat)
    requires BlocksOk(blocks, sizes, states, marked) && marked != [] && s == marked[0] && s < |states|
    ensures |blocks| == |sizes| > 0 && |blocks[|blocks| - 1]| <= sizes[|blocks| - 1]
    ensures states[s].block == |blocks| - 1 && Inside(blocks, states[s])
  {
  }

  /** The transitions of each expanded state stay what they were. */
  ghost predicate SameTrans(blocks0: seq<seq<Tran>>, states0: seq<State>, blocks1: seq<seq<Tran>>, states1: seq<State>,
                            marked: seq<nat>) {
    && |states1| == |states0|
    && (forall i :: 0 <= i < |states0| && i in marked ==> TransOf(blocks1, states1[i]) == TransOf(blocks0, states0[i]))
  }

  lemma SameTransNow(blocks: seq<seq<Tran>>, states: seq<State>, marked: seq<nat>)
    ensures SameTrans(blocks, states, blocks, states, marked)
  {
  }

  lemma SameTransThen(blocks0: seq<seq<Tran>>, states0: seq<State>, blocks1: seq<seq<Tran>>, states1: seq<State>,
                      marked: seq<nat>, s: nat)
    requires SameTrans(blocks0, states0, blocks1, states1, marked) && s < |states0| && marked != [] && s == marked[0]
    ensures |states1| == |states0| && TransOf(blocks1, states1[s]) == TransOf(blocks0, states0[s])
    ensures forall i :: 0 <= i < |states0| && i in marked ==>
      TransOf(blocks1, states1[i]) == TransOf(blocks0, states0[i])
  {
  }

  /** When the current block is full, the state being expanded moves to a new one. */
  lemma NewBlock(blocks: seq<seq<Tran>>, sizes: seq<nat>, states: seq<State>, marked: seq<nat>, unmarked: seq<nat>,
                 s: nat, size: nat, st: State)
    requires BlocksOk(blocks, sizes, states, marked) && marked != [] && s == marked[0] && s < |states|
    requires size == if states[s].tranNo >= TRAN_CHUNK then states[s].tranNo + 8 else TRAN_CHUNK
    requires st == State(states[s].set_, states[s].ruleNo, |blocks|, 0, states[s].tranNo)
    ensures var blocks' := blocks + [TransOf(blocks, states[s])];
      && BlocksOk(blocks', sizes + [size], states[s := st], marked) && |blocks'[|blocks|]| < size
      && SameTrans(blocks, states, blocks', states[s := st], marked)
  {
  }

  lemma AppendBlocks(blocks: seq<seq<Tran>>, sizes: seq<nat>, states: seq<State>, marked: seq<nat>, s: nat, t: Tran)
    requires BlocksOk(blocks, sizes, states, marked) && marked != [] && s == marked[0] && s < |states|
    requires |blocks[|blocks| - 1]| < sizes[|blocks| - 1]
    ensures var cur, st := |blocks| - 1, states[s];
      BlocksOk(blocks[cur := blocks[cur] + [t]], sizes,
               states[s := State(st.set_, st.ruleNo, st.block, st.at, st.tranNo + 1)], marked)
  {
  }

  /** The state being expanded gains a transition at the end of the current block. */
  lemma AppendTran(blocks: seq<seq<Tran>>, sizes: seq<nat>, states: seq<State>, marked: seq<nat>, unmarked: seq<nat>,
                   s: nat, t: Tran)
    requires BlocksOk(blocks, sizes, states, marked) && marked != [] && s == marked[0] && s < |states|
    requires |blocks[|blocks| - 1]| < sizes[|blocks| - 1]
    ensures var cur, st := |blocks| - 1, states[s];
      var blocks', states' := blocks[cur := blocks[cur] + [t]],
        states[s := State(st.set_, st.ruleNo, st.block, st.at, st.tranNo + 1)];
      && BlocksOk(blocks', sizes, states', marked)
      && TransOf(blocks', states'[s]) == TransOf(blocks, states[s]) + [t]
      && (forall i :: 0 <= i < |states| && i in marked && i != s ==>
          TransOf(blocks', states'[i]) == TransOf(blocks, states[i]))
  {
    AppendBlocks(blocks, sizes, states, marked, s, t);
    var cur := |blocks| - 1;
    var blocks' := blocks[cur := blocks[cur] + [t]];
    assert s in marked && Inside(blocks, states[s]);
    forall i | 0 <= i < |states| && i in marked && i != s
      ensures TransOf(blocks', states[i]) == TransOf(blocks, states[i])
    {
      assert Inside(blocks, states[i]);
    }
  }

  lemma SetsSame(sets: Sets, states0: seq<State>, states1: seq<State>, content: seq<seq<int>>, keep: set<nat>)
    requires SetsOk(sets, states0, content, keep) && |states1| == |states0|
    requires forall i :: 0 <= i < |states0| ==> states1[i].set_ == states0[i].set_
    ensures SetsOk(sets, states1, content, keep)
  {
  }

  lemma RuleBlocks(sets: Sets, content: seq<seq<int>>, keep: set<nat>, blocks: seq<seq<Tran>>, sizes: seq<nat>,
                   states: seq<State>, marked: seq<nat>, no: nat, rule: int)
    requires SetsOk(sets, states, content, keep) && BlocksOk(blocks, sizes, states, marked) && no < |states|
    ensures var st := states[no];
      var states' := states[no := State(st.set_, rule, st.block, st.at, st.tranNo)];
      && SetsOk(sets, states', content, keep) && BlocksOk(blocks, sizes, states', marked)
      && (forall i :: 0 <= i < |states| ==> TransOf(blocks, states'[i]) == TransOf(blocks, states[i]))
  {
  }
}
