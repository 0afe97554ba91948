/** dict_lookup_grep: the automaton of a pattern is built and run against the dictionary; the
  keys reported are exactly the stored ones within range edits of the pattern's words. */
module LookupGrep {
  import opened Wrappers
  import opened DictPage
  import opened DictTrie
  import opened DictStore
  import opened DfaStates
  import opened GrepLevels
  import opened GrepBits
  import opened LookGrep
  import B = DfaBegins
  import R = DfaReach
  import T = DfaTree
  import N = DfaTran
  import F = Dfa
  import V = DfaTrav

  // ---------------------------------------------------------------- the automaton built

  function AutoOf(states: seq<State>, blocks: seq<seq<Tran>>): (auto: seq<Node>)
    ensures |auto| == |states|
    ensures forall i :: 0 <= i < |auto| ==> auto[i] == Node(TransOf(blocks, states[i]), states[i].ruleNo)
  {
    seq(|states|, i requires 0 <= i < |states| => Node(TransOf(blocks, states[i]), states[i].ruleNo))
  }

  lemma BuiltAuto(t: T.Tnode, content: seq<seq<int>>, states: seq<State>, blocks: seq<seq<Tran>>)
    requires N.Built(t, content, states, blocks)
    ensures AutoOk(AutoOf(states, blocks))
  {
    var auto := AutoOf(states, blocks);
    forall s | 0 <= s < |auto|
      ensures NodeOk(auto[s].trans, |auto|)
    {
      var trans := TransOf(blocks, states[s]);
      assert N.StateDone(t, content, states, blocks, s);
      forall k | 0 <= k < |trans|
        ensures TranOk(trans[k], |auto|)
      {
        assert N.StepDone(t, content, trans, content[s], trans[k].ch0);
        assert N.Takes(trans, k, trans[k].ch0);
      }
    }
  }

  lemma GoesMove(t: T.Tnode, content: seq<seq<int>>, states: seq<State>, blocks: seq<seq<Tran>>, s: nat, c: int, q: nat)
    requires N.Built(t, content, states, blocks) && s < |states|
    ensures Goes(AutoOf(states, blocks), s, c, q) <==>
      0 <= c <= N.MAX_CHAR && F.Move(TransOf(blocks, states[s]), c) == Some(q)
  {
    var trans := TransOf(blocks, states[s]);
    assert N.StateDone(t, content, states, blocks, s);
    hide TransOf;
    if Goes(AutoOf(states, blocks), s, c, q) {
      var k :| 0 <= k < |trans| && trans[k].ch0 <= c <= trans[k].ch1 && trans[k].to == q;
      assert N.Takes(trans, k, c);
      assert N.StepDone(t, content, trans, content[s], c);
    }
  }

  /** Walking through the transitions is running the automaton. */
  lemma {:induction false} RunsRun(t: T.Tnode, content: seq<seq<int>>, states: seq<State>, blocks: seq<seq<Tran>>,
                                   u: Text, q: nat)
    requires N.Built(t, content, states, blocks)
    ensures Runs(AutoOf(states, blocks), u, q) <==> F.Characters(u) && F.Run(states, blocks, u) == Some(q)
    decreases |u|
  {
    hide N.Built, TransOf, F.Move, Goes;
    if u != [] {
      CharactersSnoc(u);
      forall s: nat
        ensures Runs(AutoOf(states, blocks), Front(u), s) <==>
          F.Characters(Front(u)) && F.Run(states, blocks, Front(u)) == Some(s)
      {
        RunsRun(t, content, states, blocks, Front(u), s);
      }
      forall s: nat | s < |states|
        ensures Goes(AutoOf(states, blocks), s, Final(u), q) <==>
          0 <= Final(u) <= N.MAX_CHAR && F.Move(TransOf(blocks, states[s]), Final(u)) == Some(q)
      {
        GoesMove(t, content, states, blocks, s, Final(u), q);
      }
      RunsLast(states, blocks, u, q);
    }
  }

  lemma CharactersSnoc(u: Text)
    requires u != []
    ensures F.Characters(u) <==> F.Characters(Front(u)) && 0 <= Final(u) <= N.MAX_CHAR
  {
    assert u == Front(u) + [Final(u)];
  }

  lemma RunsLast(states: seq<State>, blocks: seq<seq<Tran>>, u: Text, q: nat)
    requires u != [] && (F.Characters(u) <==> F.Characters(Front(u)) && 0 <= Final(u) <= N.MAX_CHAR)
    requires forall s: nat :: Runs(AutoOf(states, blocks), Front(u), s) <==>
      F.Characters(Front(u)) && F.Run(states, blocks, Front(u)) == Some(s)
    requires forall s: nat :: s < |states| ==> (Goes(AutoOf(states, blocks), s, Final(u), q) <==>
      0 <= Final(u) <= N.MAX_CHAR && F.Move(TransOf(blocks, states[s]), Final(u)) == Some(q))
    ensures Runs(AutoOf(states, blocks), u, q) <==> F.Characters(u) && F.Run(states, blocks, u) == Some(q)
  {
    hide TransOf, F.Move;
    var auto := AutoOf(states, blocks);
    if Runs(auto, u, q) {
      var s: nat :| Runs(auto, Front(u), s) && Goes(auto, s, Final(u), q);
      assert s < |states|;
    }
    if F.Characters(u) && F.Run(states, blocks, u) == Some(q) {
      var s := F.Run(states, blocks, Front(u)).value;
      assert Runs(auto, Front(u), s) && Goes(auto, s, Final(u), q);
    }
  }

  /** Some word of the rules is within range edits of the key. */
  ghost predicate CloseTo(rules: seq<R.Rule>, range: nat, key: Key) {
    exists u, k :: F.InRule(rules, u, k) && F.Characters(u) && Lev(u, key) <= range
  }

  /** The key is to be reported: some word is close to it, and the part of it that must not be edited
      begins some word. In a key that has no other part nothing may be edited. */
  ghost predicate Hits(rules: seq<R.Rule>, range: nat, init: nat, key: Key) {
    && CloseTo(rules, if |key| > init then range else 0, key)
    && B.Begins(rules, if |key| <= init then key else key[..init])
  }

  /** The levels accept exactly the texts close to a word of the rules. */
  lemma AcceptsClose(rules: seq<R.Rule>, content: seq<seq<int>>, states: seq<State>, blocks: seq<seq<Tran>>, range: nat,
                     key: Key)
    requires rules != [] && R.RulesOk(rules) && N.Built(R.Root(rules), content, states, blocks)
    ensures Accepts(AutoOf(states, blocks), range, key) <==> CloseTo(rules, range, key)
  {
    var t, auto := R.Root(rules), AutoOf(states, blocks);
    if Accepts(auto, range, key) {
      var q: nat :| Near(auto, range, key, q) && q < |auto| && auto[q].rule != 0;
      var u :| Runs(auto, u, q) && Lev(u, key) <= range;
      RunsRun(t, content, states, blocks, u, q);
      F.RunAccepts(rules, content, states, blocks, u);
      assert F.InRule(rules, u, auto[q].rule);
    }
    if CloseTo(rules, range, key) {
      var u, k :| F.InRule(rules, u, k) && F.Characters(u) && Lev(u, key) <= range;
      F.RunAccepts(rules, content, states, blocks, u);
      RunSome(rules, content, states, blocks, u, k);
      var q := F.Run(states, blocks, u).value;
      RunsRun(t, content, states, blocks, u, q);
      assert Near(auto, range, key, q);
    }
  }

  lemma NearZero(auto: seq<Node>, v: Text, q: nat)
    ensures Near(auto, 0, v, q) <==> Runs(auto, v, q)
  {
    LevZero(v, v);
    if u :| Runs(auto, u, q) && Lev(u, v) <= 0 { LevZero(u, v); }
  }

  lemma AliveBegins(rules: seq<R.Rule>, content: seq<seq<int>>, states: seq<State>, blocks: seq<seq<Tran>>, v: Text)
    requires rules != [] && R.RulesOk(rules) && N.CharsOk(R.Root(rules))
    requires N.Built(R.Root(rules), content, states, blocks)
    ensures !Dead(AutoOf(states, blocks), 0, v) <==> B.Begins(rules, v)
  {
    var t, auto := R.Root(rules), AutoOf(states, blocks);
    hide N.Built, R.RulesOk, R.Root, F.Run, Near, Runs;
    forall q: nat
      ensures Near(auto, 0, v, q) <==> F.Characters(v) && F.Run(states, blocks, v) == Some(q)
    {
      NearZero(auto, v, q);
      RunsRun(t, content, states, blocks, v, q);
    }
    B.RunBegins(rules, content, states, blocks, v);
    if F.Characters(v) && F.Run(states, blocks, v).Some? {
      assert Near(auto, 0, v, F.Run(states, blocks, v).value);
    }
  }

  /** The search takes exactly the keys that are to be reported. */
  lemma TakesHits(rules: seq<R.Rule>, content: seq<seq<int>>, states: seq<State>, blocks: seq<seq<Tran>>, range: nat,
                  init: nat, key: Key)
    requires rules != [] && R.RulesOk(rules) && N.CharsOk(R.Root(rules))
    requires N.Built(R.Root(rules), content, states, blocks)
    ensures Takes(Goal(AutoOf(states, blocks), range, init), key) <==> Hits(rules, range, init, key)
  {
    var g := Goal(AutoOf(states, blocks), range, init);
    AcceptsClose(rules, content, states, blocks, Limit(g, |key|), key);
    AliveBegins(rules, content, states, blocks, Start(g, key));
    hide N.Built, R.RulesOk, R.Root, Dead, Accepts, CloseTo, B.Begins, AutoOf;
  }

  lemma RunSome(rules: seq<R.Rule>, content: seq<seq<int>>, states: seq<State>, blocks: seq<seq<Tran>>, u: Text, k: int)
    requires F.IsLeast(rules, u, F.RuleOf(states, F.Run(states, blocks, u))) && F.InRule(rules, u, k)
    ensures F.Run(states, blocks, u).Some? && F.Run(states, blocks, u).value < |states|
    ensures states[F.Run(states, blocks, u).value].ruleNo != 0
  {
  }

  // ---------------------------------------------------------------- dict_lookup_grep

  /** The words of bits of the accepting states. */
  method MkMask(auto: seq<Node>, n: nat) returns (mask: seq<Bits>)
    requires AutoOk(auto) && n == (|auto| + WORD_BITS) / WORD_BITS
    ensures MaskOk(auto, mask, n)
  {
    var m := new Bits[n](_ => seq(WORD_BITS, i => false));
    var s := 0;
    assert forall q: nat :: !Bit(m[..], 0, q);
    while s < |auto|
      invariant s <= |auto| && Words(m[..])
      invariant forall q: nat :: Bit(m[..], 0, q) <==> q < s && auto[q].rule != 0
    {
      if auto[s].rule != 0 {
        SetBit(m, 0, n, s);
      }
      s := s + 1;
    }
    mask := m[..];
  }

  /** Copies a row. */
  method CopyRow(r: array<Bits>, dst: nat, src: nat, n: nat)
    requires Words(r[..]) && dst + n <= r.Length && src + n <= dst
    modifies r
    ensures Words(r[..]) && OnlyRow(old(r[..]), r[..], dst, n)
    ensures forall s: nat :: s / WORD_BITS < n ==> (Bit(r[..], dst, s) <==> Bit(old(r[..]), src, s))
  {
    ghost var r0 := r[..];
    var j := 0;
    while j < n
      invariant j <= n && Words(r[..]) && OnlyRow(r0, r[..], dst, n)
      invariant forall s: nat :: s / WORD_BITS < j ==> (Bit(r[..], dst, s) <==> Bit(r0, src, s))
    {
      ghost var r1 := r[..];
      r[dst + j] := r[src + j];
      CopyMore(r0, r1, r[..], dst, src, j);
      j := j + 1;
    }
  }

  lemma CopyMore(r0: seq<Bits>, r1: seq<Bits>, r2: seq<Bits>, dst: nat, src: nat, j: nat)
    requires |r1| == |r0| && |r2| == |r0| && dst + j < |r0| && src + j < dst
    requires (forall k :: 0 <= k < |r0| && k != dst + j ==> r2[k] == r1[k]) && r2[dst + j] == r1[src + j]
    requires r1[src + j] == r0[src + j]
    requires forall s: nat :: s / WORD_BITS < j ==> (Bit(r1, dst, s) <==> Bit(r0, src, s))
    ensures forall s: nat :: s / WORD_BITS < j + 1 ==> (Bit(r2, dst, s) <==> Bit(r0, src, s))
  {
    forall s: nat | s / WORD_BITS < j + 1
      ensures Bit(r2, dst, s) <==> Bit(r0, src, s)
    {
      if s / WORD_BITS < j {
        assert Bit(r1, dst, s) <==> Bit(r0, src, s);
        assert r2[dst + s / WORD_BITS] == r1[dst + s / WORD_BITS];
      }
    }
  }

  /** A row together with what its first s states lead to. */
  ghost predicate Widened(auto: seq<Node>, r0: seq<Bits>, src: nat, r: seq<Bits>, dst: nat, n: nat, s: int) {
    forall q: nat :: q / WORD_BITS < n ==> (Bit(r, dst, q) <==> Bit(r0, src, q) || From(auto, r0, src, true, 0, s, q))
  }

  /** The next level before anything is read: the level below and what its states lead to. */
  method WidenLevel(auto: seq<Node>, r: array<Bits>, src: nat, n: nat, ghost d: nat)
    requires AutoOk(auto) && Words(r[..]) && n == (|auto| + WORD_BITS) / WORD_BITS && src + 2 * n <= r.Length
    requires LevelAt(auto, r[..], src, n, d, [])
    modifies r
    ensures Words(r[..]) && OnlyRow(old(r[..]), r[..], src + n, n) && LevelAt(auto, r[..], src + n, n, d + 1, [])
  {
    hide *;
    ghost var r0 := r[..];
    Words32(n, |auto|);
    CopyRow(r, src + n, src, n);
    WidenStart(auto, r0, src, r[..], src + n, n);
    var s := 0;
    while s < |auto|
      invariant s <= |auto| && Words(r[..]) && OnlyRow(r0, r[..], src + n, n)
      invariant Widened(auto, r0, src, r[..], src + n, n, s)
    {
      ghost var r1 := r[..];
      WidenRow(r0, r1, src, n, s, |auto|);
      if Bit(r[..], src, s) {
        SetTargets(auto, r, src + n, n, true, 0, s);
        OnlyTrans(r0, r1, r[..], src + n, n);
      }
      WidenMore(auto, r0, src, r1, r[..], src + n, n, s);
      s := s + 1;
    }
    WidenEnd(auto, r0, src, r[..], n, d);
  }

  lemma WidenStart(auto: seq<Node>, r0: seq<Bits>, src: nat, r: seq<Bits>, dst: nat, n: nat)
    requires forall s: nat :: s / WORD_BITS < n ==> (Bit(r, dst, s) <==> Bit(r0, src, s))
    ensures Widened(auto, r0, src, r, dst, n, 0)
  {
  }

  lemma WidenRow(r0: seq<Bits>, r1: seq<Bits>, src: nat, n: nat, s: nat, states: nat)
    requires OnlyRow(r0, r1, src + n, n) && s < states && states <= n * WORD_BITS
    ensures Bit(r1, src, s) == Bit(r0, src, s)
  {
    SameRow(r0, r1, src + n, n, src, s);
  }

  lemma WidenMore(auto: seq<Node>, r0: seq<Bits>, src: nat, r1: seq<Bits>, r2: seq<Bits>, dst: nat, n: nat, s: nat)
    requires Widened(auto, r0, src, r1, dst, n, s)
    requires if Bit(r0, src, s) then forall q: nat :: Bit(r2, dst, q) <==>
      Bit(r1, dst, q) || Leads(auto, true, 0, s, q) else r2 == r1
    ensures Widened(auto, r0, src, r2, dst, n, s + 1)
  {
    FromMore(auto, r0, src, true, 0, s);
  }

  lemma WidenEnd(auto: seq<Node>, r0: seq<Bits>, src: nat, r: seq<Bits>, n: nat, d: nat)
    requires AutoOk(auto) && |auto| <= n * WORD_BITS
    requires LevelAt(auto, r0, src, n, d, []) && Widened(auto, r0, src, r, src + n, n, |auto|)
    ensures LevelAt(auto, r, src + n, n, d + 1, [])
  {
    forall q: nat | q / WORD_BITS < n
      ensures Bit(r, src + n, q) <==> Near(auto, d + 1, [], q)
    {
      LevelStart(auto, d + 1, q);
      WidenFrom(auto, r0, src, n, d, q);
    }
  }

  lemma WidenFrom(auto: seq<Node>, r0: seq<Bits>, src: nat, n: nat, d: nat, q: nat)
    requires AutoOk(auto) && |auto| <= n * WORD_BITS && LevelAt(auto, r0, src, n, d, [])
    ensures From(auto, r0, src, true, 0, |auto|, q) <==> NearAny(auto, d, [], q)
  {
    if From(auto, r0, src, true, 0, |auto|, q) {
      var s: nat :| s < |auto| && Bit(r0, src, s) && Leads(auto, true, 0, s, q);
      assert Near(auto, d, [], s) && GoesAny(auto, s, q);
    }
    if NearAny(auto, d, [], q) {
      var s: nat :| Near(auto, d, [], s) && GoesAny(auto, s, q);
      assert s / WORD_BITS < n;
      assert Bit(r0, src, s) && Leads(auto, true, 0, s, q);
    }
  }

  lemma NoLevel(auto: seq<Node>, r: seq<Bits>, n: nat)
    requires AutoOk(auto) && forall q: nat :: q / WORD_BITS < n ==> (Bit(r, 0, q) <==> q == 0)
    ensures LevelsUpTo(auto, r, 0, n, 1, [])
  {
    forall q: nat | q / WORD_BITS < n
      ensures Bit(r, 0, q) <==> Near(auto, 0, [], q)
    {
      LevelStart(auto, 0, q);
    }
    RowNext(0, n, 0);
  }

  /** The levels before any character is read. */
  method StartLevels(auto: seq<Node>, r: array<Bits>, n: nat, range: nat)
    requires AutoOk(auto) && Words(r[..]) && n == (|auto| + WORD_BITS) / WORD_BITS && (range + 1) * n <= r.Length
    requires forall q: nat :: q / WORD_BITS < n ==> !Bit(r[..], 0, q)
    modifies r
    ensures Words(r[..]) && LevelsAt(auto, r[..], 0, n, range, [])
  {
    hide *;
    ghost var r0 := r[..];
    RowEnd(0, n, range);
    RowZero(0, n, range);
    Words32(n, |auto|);
    SomeState(auto);
    SetFirst(r, n, |auto|);
    NoLevel(auto, r[..], n);
    var d, src := 1, 0;
    RowNext(0, n, 0);
    while d <= range
      invariant 1 <= d <= range + 1 && src == Row(0, n, d - 1) && Words(r[..]) && LevelsUpTo(auto, r[..], 0, n, d, [])
    {
      ghost var r1 := r[..];
      LevelUpTo(auto, r1, 0, n, d, []);
      RowNext(0, n, d - 1);
      Rows(0, n, d, range);
      WidenLevel(auto, r, src, n, d - 1);
      RowBelow(r1, r[..], src + n, n);
      NextUpTo(auto, r1, r[..], 0, n, d, []);
      src, d := src + n, d + 1;
    }
    AllLevels(auto, r[..], 0, n, range, []);
  }

  method SetFirst(r: array<Bits>, n: nat, states: nat)
    requires Words(r[..]) && n <= r.Length && n > 0 && forall q: nat :: q / WORD_BITS < n ==> !Bit(r[..], 0, q)
    modifies r
    ensures Words(r[..]) && forall q: nat :: q / WORD_BITS < n ==> (Bit(r[..], 0, q) <==> q == 0)
  {
    SetBit(r, 0, n, 0);
  }

  /** Exactly the stored keys that are to be reported, each once, in ascending order, with their
      information; up to the last one, when the search was stopped. */
  ghost predicate ReportsClose(contents: map<Key, Info>, rules: seq<R.Rule>, range: nat, init: nat, found: seq<Found>,
                               stopped: bool) {
    && Ascending(found) && (stopped ==> found != [])
    && (forall i :: 0 <= i < |found| ==> && found[i].key in contents && found[i].info == contents[found[i].key]
                                         && Hits(rules, range, init, found[i].key))
    && (forall key :: key in contents && Hits(rules, range, init, key) ==> Seen(found, stopped, key, contents[key]))
  }

  lemma ReportsAll(d: Dict, rules: seq<R.Rule>, content: seq<seq<int>>, states: seq<State>, blocks: seq<seq<Tran>>,
                   range: nat, init: nat, found: seq<Found>, stopped: bool)
    requires d.Valid() && d.root != 0 && rules != [] && R.RulesOk(rules) && N.CharsOk(R.Root(rules))
    requires N.Built(R.Root(rules), content, states, blocks)
    requires Reports(d.pages, d.root, Goal(AutoOf(states, blocks), range, init), [], found, stopped)
    ensures ReportsClose(d.contents, rules, range, init, found, stopped)
  {
    StoredKeys(d);
    hide Dict.Valid, Find, N.Built, Hits, Takes, R.RulesOk, R.Root, N.CharsOk, Seen;
    var g := Goal(AutoOf(states, blocks), range, init);
    forall i | 0 <= i < |found|
      ensures found[i].key in d.contents && found[i].info == d.contents[found[i].key]
      ensures Hits(rules, range, init, found[i].key)
    {
      var key := found[i].key;
      assert IsWanted(d.pages, d.root, g, [], found[i]);
      assert key[0..] == key && [] + key == key;
      TakesHits(rules, content, states, blocks, range, init, key);
    }
    forall key | key in d.contents && Hits(rules, range, init, key)
      ensures Seen(found, stopped, key, d.contents[key])
    {
      assert [] + key == key;
      TakesHits(rules, content, states, blocks, range, init, key);
      assert Wanted(d.pages, d.root, g, [], key);
    }
  }

  lemma StoredKeys(d: Dict)
    requires d.Valid() && d.root != 0
    ensures forall key :: if key in d.contents then Find(d.pages, d.root, key) == d.contents[key] != []
      else Find(d.pages, d.root, key) == []
  {
    hide Find, Dict.Ok;
    forall key
      ensures if key in d.contents then Find(d.pages, d.root, key) == d.contents[key] != []
        else Find(d.pages, d.root, key) == []
    {
      assert d.Get(key) == InfoOf(d.contents, key);
    }
  }

  /** Fills in the levels at the root and searches from there. */
  method SearchAll(d: Dict, c: Context, stop: seq<Found> -> bool) returns (found: seq<Found>, stopped: bool)
    requires ContextOk(c) && d.Valid() && d.cfg.maxKey <= MAX_LENGTH
    ensures d.root == 0 ==> found == [] && !stopped
    ensures d.root != 0 ==> Reports(d.pages, d.root, c.goal, [], found, stopped)
    ensures Told(stop, [], found, stopped)
  {
    hide *;
    Sizes(c, 0, 3 * c.fact);
    var r := NewRows(c);
    RoomLast(c, 0, r.Length);
    RowEnd(0, c.n, c.goal.range);
    ContextSize(c);
    StartLevels(c.goal.auto, r, c.n, c.goal.range);
    var prefix := NewPrefix();
    found, stopped := [], false;
    ToldNone(stop, found);
    AliveEmpty(c.goal);
    NoEndNone();
    if d.root != 0 {
      RootPage(d);
      BuffersAgain(c, r, prefix);
      assert prefix[..0] == [];
      ghost var more: seq<Found>;
      found, stopped, more := Grep(d, c, r, prefix, 0, d.root, [], stop, found);
      assert [] + more == more;
    }
  }

  lemma ContextSize(c: Context)
    requires ContextOk(c)
    ensures c.fact == (c.goal.range + 1) * c.n && 0 * c.fact == 0 && MAX_LENGTH == 1024
  {
  }

  method MkContext(auto: seq<Node>, range: nat, init: nat) returns (c: Context)
    requires AutoOk(auto)
    ensures ContextOk(c) && c.goal == Goal(auto, range, init)
  {
    var n := (|auto| + WORD_BITS) / WORD_BITS;
    var mask := MkMask(auto, n);
    c := Context(Goal(auto, range, init), n, (range + 1) * n, mask);
  }

  /** Reports the stored keys within range edits of the words of a pattern, of which the first init
      characters must not be edited, until stop answers that what was reported is enough. */
  method DictLookupGrep(d: Dict, rules: seq<R.Rule>, position: nat, range: nat, init: nat, stop: seq<Found> -> bool)
    returns (found: seq<Found>, stopped: bool)
    requires d.Valid() && d.cfg.maxKey <= MAX_LENGTH
    requires rules != [] && R.RulesOk(rules) && N.CharsOk(R.Root(rules))
    requires V.Within(R.Root(rules), position)
    ensures ReportsClose(d.contents, rules, range, init, found, stopped) && Told(stop, [], found, stopped)
  {
    hide *;
    var dfa := F.MkDfas(rules, position);
    var auto := AutoOf(dfa.states, dfa.blocks);
    BuiltAuto(R.Root(rules), dfa.content, dfa.states, dfa.blocks);
    var c := MkContext(auto, range, init);
    found, stopped := SearchAll(d, c, stop);
    if d.root != 0 {
      ReportsAll(d, rules, dfa.content, dfa.states, dfa.blocks, range, init, found, stopped);
    } else {
      NothingStored(d, rules, range, init);
    }
  }

  /** The zeroed rows of all depths. */
  method NewRows(c: Context) returns (r: array<Bits>)
    ensures fresh(r) && r.Length == (MAX_LENGTH + 2) * c.fact && Words(r[..])
    ensures forall q: nat :: q / WORD_BITS < c.n ==> !Bit(r[..], 0, q)
  {
    r := new Bits[(MAX_LENGTH + 2) * c.fact](_ => seq(WORD_BITS, i => false));
  }

  method NewPrefix() returns (prefix: array<int>)
    ensures fresh(prefix) && prefix.Length == MAX_LENGTH + 1
  {
    prefix := new int[MAX_LENGTH + 1];
  }

  lemma RootPage(d: Dict)
    requires d.Valid() && d.root != 0
    ensures TrieOk(d.cfg, d.pages, d.path) && d.root in d.path && d.path[d.root] == []
  {
    hide TrieOk, Find;
  }

  lemma NothingStored(d: Dict, rules: seq<R.Rule>, range: nat, init: nat)
    requires d.Valid() && d.root == 0
    ensures ReportsClose(d.contents, rules, range, init, [], false)
  {
    forall key
      ensures key !in d.contents
    {
      assert d.Get(key) == InfoOf(d.contents, key);
    }
  }
}
