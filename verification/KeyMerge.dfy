/** Merging the runs: inserts and deletes of the same key cancel, and what is left is handed out
  name by name. */
module KeyMerge {
  import opened DictPage
  import opened KeyOrder
  import opened KeyRun
  import opened KeyHeap

  // ---------------------------------------------------------------- accounts

  /** What has been given out and what the rest comes to make up what all comes to. */
  ghost predicate Account(given: seq<Posting>, rest: multiset<Posting>, all: multiset<Posting>) {
    forall p :: multiset(given)[p] + Target(rest, p) == Target(all, p)
  }

  /** Nothing given out comes after what is left. */
  ghost predicate InOrder(given: seq<Posting>, rest: multiset<Posting>) {
    Ascending(given) && forall g, x :: g in given && x in rest ==> AtMost(g, x)
  }

  /** s, still to be read, and g, already read, are what is left. */
  ghost predicate Owes(given: seq<Posting>, s: multiset<Posting>, g: multiset<Posting>, all: multiset<Posting>) {
    Account(given, s + g, all) && InOrder(given, s + g)
  }

  ghost function Copies(p: Posting, n: nat): multiset<Posting> {
    multiset{}[p := n]
  }

  ghost function Plus(m: multiset<Posting>, p: Posting): multiset<Posting> {
    m + multiset{p}
  }

  ghost function Card(m: multiset<Posting>): nat {
    |m|
  }

  lemma AccountSame(given: seq<Posting>, rest: multiset<Posting>, rest': multiset<Posting>, all: multiset<Posting>)
    requires Account(given, rest, all) && SameNet(rest, rest')
    ensures Account(given, rest', all)
  {
    forall p
      ensures multiset(given)[p] + Target(rest', p) == Target(all, p)
    {
      assert Target(rest', p) == Target(rest, p);
    }
  }

  /** Giving out a posting of a key of which only such postings are left. */
  lemma Give(given: seq<Posting>, rest: multiset<Posting>, all: multiset<Posting>, p: Posting)
    requires Account(given, rest, all) && p in rest && forall x :: x in rest && Same(x, p) ==> x == p
    ensures Account(given + [p], rest - multiset{p}, all)
  {
    assert rest[Posting(p.name, p.key, !p.ins)] == 0;
    assert p == Posting(p.name, p.key, p.ins);
    forall q
      ensures multiset(given + [p])[q] + Target(rest - multiset{p}, q) == Target(all, q)
    {
      assert q == Posting(q.name, q.key, q.ins);
      assert multiset(given)[q] + Target(rest, q) == Target(all, q);
    }
  }

  /** A posting that is read goes from one side to the other. */
  lemma MoveOver(given: seq<Posting>, s: multiset<Posting>, g: multiset<Posting>, p: Posting, all: multiset<Posting>)
    ensures Owes(given, Plus(s, p), g, all) <==> Owes(given, s, Plus(g, p), all)
    ensures Card(Plus(s, p)) == Card(s) + 1 && Card(Plus(g, p)) == Card(g) + 1
  {
    assert Plus(s, p) + g == s + Plus(g, p);
  }

  // ---------------------------------------------------------------- groups

  /** All of one key, inserts less deletes being level. */
  ghost predicate Group(g: multiset<Posting>, p: Posting, level: int) {
    (forall x :: x in g ==> Same(x, p)) && Net(g, p.name, p.key) == level
  }

  lemma GroupOne(p: Posting)
    ensures Group(Plus(multiset{}, p), p, if p.ins then 1 else -1) && Card(Plus(multiset{}, p)) == 1
  {
    assert p == Posting(p.name, p.key, p.ins);
  }

  lemma GroupMore(g: multiset<Posting>, p: Posting, level: int, q: Posting)
    requires Group(g, p, level) && Same(p, q)
    ensures Group(Plus(g, q), p, level + if q.ins then 1 else -1)
  {
    assert q == Posting(p.name, p.key, q.ins);
  }

  ghost function Size(level: int): nat {
    if level > 0 then level else -level
  }

  lemma SizeIs(level: int)
    ensures Size(level) == if level > 0 then level else -level
  {
  }

  /** A group comes to as many copies as its level says. */
  lemma GroupNet(rest: multiset<Posting>, g: multiset<Posting>, p: Posting, level: int)
    requires Group(g, p, level)
    ensures SameNet(rest + g, rest + Copies(Posting(p.name, p.key, level > 0), Size(level))) && Size(level) <= Card(g)
  {
    var c := Copies(Posting(p.name, p.key, level > 0), Size(level));
    forall name, key
      ensures Net(rest + g, name, key) == Net(rest + c, name, key)
    {
      var a, b := Posting(name, key, true), Posting(name, key, false);
      if name != p.name || key != p.key { assert a !in g && b !in g; }
    }
    GroupSize(g, Posting(p.name, p.key, level > 0));
  }

  lemma GroupSize(g: multiset<Posting>, p: Posting)
    ensures g[p] <= |g|
  {
    assert g == g[p := 0] + multiset{}[p := g[p]];
  }

  // ---------------------------------------------------------------- steps of the reader

  ghost predicate Named(s: multiset<Posting>) {
    forall x :: x in s ==> x.name != []
  }

  /** Nothing in s is of an earlier key than p. */
  ghost predicate From(p: Posting, s: multiset<Posting>) {
    forall x :: x in s ==> AtMost(p, x)
  }

  /** Everything in s is of a later key than p. */
  ghost predicate Later(p: Posting, s: multiset<Posting>) {
    forall x :: x in s ==> Before(p, x)
  }

  lemma SameIs(a: Posting, b: Posting)
    ensures Same(a, b) <==> a.name == b.name && a.key == b.key
  {
  }

  /** The least posting p of s has been taken. */
  lemma Taken(s: multiset<Posting>, p: Posting, s': multiset<Posting>)
    requires p in s && s' == s - multiset{p} && Named(s) && forall x :: x in s' ==> AtMost(p, x)
    ensures s == Plus(s', p) && Named(s') && p.name != [] && From(p, s') && From(p, s)
  {
    assert forall x :: x in s' ==> x in s;
    assert forall x :: x in s ==> x in s' || x == p;
  }

  /** The first posting of a name has been handed out. */
  lemma NotFirst(cur: Posting, left: multiset<Posting>)
    requires From(cur, Plus(left, cur)) && Named(Plus(left, cur))
    ensures From(cur, left) && Named(left)
  {
    assert forall x :: x in left ==> x in Plus(left, cur);
  }

  lemma NextName(cur: Posting, stream: multiset<Posting>, p: Posting)
    requires From(cur, stream) && p in stream
    ensures AtMost(cur, p) && (cur.name == p.name || Less(cur.name, p.name))
  {
  }

  /** The name has ended: what is ahead is of later names. */
  lemma NameEnds(p: Posting, c: Posting, more: bool, cur: Posting, stream: multiset<Posting>)
    requires Same(p, c) && (if more then Less(c.name, cur.name) && From(cur, stream) else stream == multiset{})
    ensures Later(p, stream)
  {
    forall x | x in stream
      ensures Before(p, x)
    {
      AtMostTransitive(p, cur, x);
    }
  }

  /** Another key has come: what is ahead is of later keys. */
  lemma KeyEnds(p: Posting, c: Posting, cur: Posting, stream: multiset<Posting>)
    requires Same(p, c) && AtMost(c, cur) && !Same(p, cur) && From(cur, stream)
    ensures Later(p, Plus(stream, cur))
  {
    forall x | x in Plus(stream, cur)
      ensures Before(p, x)
    {
      BeforeTotal(p, cur);
      if x in stream { AtMostTransitive(p, cur, x); }
    }
  }

  lemma Start(all: multiset<Posting>)
    ensures Owes([], all, multiset{}, all)
  {
    assert all + multiset{} == all;
  }

  lemma NoneLeft(given: seq<Posting>, all: multiset<Posting>)
    requires Owes(given, multiset{}, multiset{}, all)
    ensures Netted(given, all)
  {
    forall p
      ensures multiset(given)[p] == Target(all, p)
    {
      assert Target(multiset{} + multiset{}, p) == 0;
    }
  }

  /** One of the copies of p is given out. */
  lemma GiveCopy(given: seq<Posting>, s: multiset<Posting>, p: Posting, n: nat, all: multiset<Posting>)
    requires Owes(given, s, Copies(p, n), all) && n > 0 && Later(p, s)
    ensures Owes(given + [p], s, Copies(p, n - 1), all)
  {
    var rest := s + Copies(p, n);
    forall x | x in rest && Same(x, p)
      ensures x == p
    {
      BeforeTotal(p, x);
    }
    Give(given, rest, all, p);
    assert rest - multiset{p} == s + Copies(p, n - 1);
    assert rest == s + Copies(p, n - 1) + multiset{p};
    AtMostSelf(p);
  }

  /** A key other than that of the group has been read: its copies are settled, and one is given out. */
  lemma Settle(given: seq<Posting>, s: multiset<Posting>, g: multiset<Posting>, p: Posting, level: int,
               all: multiset<Posting>)
    requires Owes(given, s, g, all) && Group(g, p, level) && level != 0 && Later(p, s)
    ensures var q := Posting(p.name, p.key, level > 0);
      Owes(given + [q], s, Copies(q, Size(level) - 1), all) && Later(q, s)
    ensures Size(level) <= Card(g)
  {
    var q := Posting(p.name, p.key, level > 0);
    GroupNet(s, g, p, level);
    AccountSame(given, s + g, s + Copies(q, Size(level)), all);
    forall h, x | h in given && x in s + Copies(q, Size(level))
      ensures AtMost(h, x)
    {
      if x !in s {
        assert g != multiset{};
        var y :| y in g;
        assert AtMost(h, y) && Same(y, p);
      }
    }
    GiveCopy(given, s, q, Size(level), all);
  }

  /** A group that is level comes to nothing. */
  lemma Drop(given: seq<Posting>, s: multiset<Posting>, g: multiset<Posting>, p: Posting, all: multiset<Posting>)
    requires Owes(given, s, g, all) && Group(g, p, 0)
    ensures Owes(given, s, multiset{}, all)
  {
    GroupNet(s, g, p, 0);
    assert s + Copies(Posting(p.name, p.key, false), 0) == s == s + multiset{};
    AccountSame(given, s + g, s, all);
  }

  /** One more posting of the key is counted. */
  lemma CountMore(given: seq<Posting>, s: multiset<Posting>, g: multiset<Posting>, p: Posting, level: int, q: Posting,
                  all: multiset<Posting>)
    requires Owes(given, Plus(s, q), g, all) && Group(g, p, level) && Same(p, q)
    ensures Owes(given, s, Plus(g, q), all) && Group(Plus(g, q), p, level + if q.ins then 1 else -1)
    ensures Card(Plus(g, q)) == Card(g) + 1
  {
    MoveOver(given, s, g, q, all);
    GroupMore(g, p, level, q);
  }

  /** The count starts anew with another key. */
  lemma CountNew(given: seq<Posting>, s: multiset<Posting>, g: multiset<Posting>, p: Posting, q: Posting,
                 all: multiset<Posting>)
    requires Owes(given, Plus(s, q), g, all) && Group(g, p, 0)
    ensures Owes(given, s, Plus(multiset{}, q), all) && Group(Plus(multiset{}, q), q, if q.ins then 1 else -1)
    ensures Card(Plus(multiset{}, q)) == 1
  {
    Drop(given, Plus(s, q), g, p, all);
    MoveOver(given, s, multiset{}, q, all);
    GroupOne(q);
  }

  /** With no copies left, it does not matter of what. */
  lemma NoCopies(p: Posting)
    ensures Copies(p, 0) == multiset{}
  {
  }

  /** What the merge has yet to hand out, and the posting that has been read ahead, if any. */
  ghost function Ahead(stream: multiset<Posting>, ret: int, cur: Posting): multiset<Posting> {
    if ret == 1 then Plus(stream, cur) else stream
  }

  lemma AheadIs(stream: multiset<Posting>, ret: int, cur: Posting)
    ensures Ahead(stream, ret, cur) == if ret == 1 then Plus(stream, cur) else stream
    ensures Card(Plus(stream, cur)) == Card(stream) + 1
  {
  }

  // ---------------------------------------------------------------- the reader

  // A key that was inserted or deleted.
  datatype Item = Item(key: seq<int>, ins: bool)

  class KeyReader {
    const hi: KeyHeap
    // The posting read last, and the name of the one before.
    var prevName: Key
    var cur: Posting
    // The key being counted and the one read ahead, each with its flag.
    var item1: Item
    var item2: Item
    // The posting read last is the first of its name and has not been handed out.
    var firstInList: bool
    var more: bool
    // 1 when a key has been read ahead, 0 when the name has ended, -1 when a key must be read.
    var ret: int
    // Copies of the key being counted still to be handed out; negative for deletes.
    var lookLevel: int
    // All postings of all runs, and what has been handed out.
    ghost const all: multiset<Posting>
    ghost var given: seq<Posting>
    // What the merge has yet to hand out.
    ghost var stream: multiset<Posting>

    ghost predicate StreamOk()
      reads this`cur, this`more, this`firstInList, this`stream, hi, hi.Repr
    {
      && hi.Valid() && this !in hi.Repr && Named(stream)
      && stream == (if more && firstInList then Plus(hi.Left(), cur) else hi.Left())
      && (if more then cur.name != [] && From(cur, stream) else stream == multiset{})
    }

    lemma StreamParts()
      requires StreamOk()
      ensures hi.Valid() && this !in hi.Repr && Named(stream)
      ensures stream == if more && firstInList then Plus(hi.Left(), cur) else hi.Left()
      ensures if more then cur.name != [] && From(cur, stream) else stream == multiset{}
    {
    }

    lemma StreamAgain()
      requires hi.Valid() && this !in hi.Repr && Named(stream)
      requires stream == if more && firstInList then Plus(hi.Left(), cur) else hi.Left()
      requires if more then cur.name != [] && From(cur, stream) else stream == multiset{}
      ensures StreamOk()
    {
    }

    constructor (heap: KeyHeap)
      requires heap.Valid() && Named(heap.Left())
      modifies heap.Repr
      ensures hi == heap && Valid() && given == [] && all == old(heap.Left())
    {
      hide *;
      hi, all, given := heap, heap.Left(), [];
      prevName, item1, item2, ret, firstInList, lookLevel := [], Item([], false), Item([], false), -1, true, 0;
      new;
      var found, p := hi.ReadOne();
      more, cur, stream := found, p, all;
      if more { Taken(all, p, hi.Left()); }
      StreamAgain();
      Start(all);
      ValidAgain();
    }

    /** The next posting of the name; false at the end of the name. */
    method NextItem() returns (r: bool, item: Item)
      requires StreamOk() && more
      modifies this`prevName, this`cur, this`firstInList, this`more, this`stream
      modifies hi.Repr
      ensures StreamOk() && (old(firstInList) ==> r)
      ensures r ==> more && !firstInList && cur.name == old(cur.name) && item == Item(cur.key, cur.ins)
      ensures r ==> old(stream) == Plus(stream, cur) && AtMost(old(cur), cur) && From(cur, stream)
      ensures !r ==>
        stream == old(stream) && (more ==> firstInList && Less(old(cur.name), cur.name) && From(cur, stream))
      ensures !r && !more ==> stream == multiset{}
    {
      hide *;
      StreamParts();
      if firstInList {
        r, item := true, Item(cur.key, cur.ins);
        AtMostSelf(cur);
        NotFirst(cur, hi.Left());
        firstInList, stream := false, hi.Left();
        StreamAgain();
        return;
      }
      prevName := cur.name;
      var found, p := hi.ReadOne();
      more := found;
      if !more {
        r, item := false, Item([], false);
        StreamAgain();
        return;
      }
      Taken(stream, p, hi.Left());
      r := Take(p);
      item := Item(p.key, p.ins);
    }

    /** Notes the posting read last: whether it is of the same name as the one before. */
    method Take(p: Posting) returns (r: bool)
      requires hi.Valid() && this !in hi.Repr && more && !firstInList && Named(stream)
      requires cur.name == prevName == cur.name && p in stream
      requires stream == Plus(hi.Left(), p) && From(p, hi.Left()) && From(p, stream) && From(cur, stream)
      requires Named(hi.Left()) && p.name != []
      modifies this`cur, this`firstInList, this`stream
      ensures StreamOk() && cur == p
      ensures firstInList == !r && From(p, stream) && AtMost(old(cur), p)
      ensures r ==> p.name == prevName && old(stream) == Plus(stream, p)
      ensures !r ==> Less(prevName, p.name) && old(stream) == stream
    {
      hide *;
      NextName(cur, stream, p);
      r := p.name == [] || p.name == prevName;
      cur, firstInList := p, !r;
      if r { stream := hi.Left(); }
      StreamAgain();
    }

    /** Between two calls, while the keys of name are handed out. */
    ghost predicate Ready(name: Key)
      reads this, hi, hi.Repr
    {
      StreamOk() && Standing(name)
    }

    ghost predicate Standing(name: Key)
      reads this
    {
      var ahead, p := Ahead(stream, ret, cur), Posting(name, item1.key, lookLevel > 0);
      && Owes(given, ahead, Copies(p, Size(lookLevel)), all) && -1 <= ret <= 1
      && (ret == -1 ==> lookLevel == 0 && more && firstInList && cur.name == name)
      && (ret == 0 ==> more ==> firstInList)
      && (ret == 1 ==> more && !firstInList && cur.name == name && item2 == Item(cur.key, cur.ins))
      && (lookLevel != 0 ==> ret != -1 && Later(p, ahead))
    }

    /** Before and after the keys of a name. */
    ghost predicate Valid()
      reads this, hi, hi.Repr
    {
      StreamOk() && Owes(given, stream, multiset{}, all) && ret == -1 && lookLevel == 0 && (more ==> firstInList)
    }

    lemma ReadyParts(name: Key)
      requires Ready(name)
      ensures StreamOk() && Standing(name)
    {
    }

    lemma StandingParts(name: Key)
      requires Standing(name)
      ensures var ahead, p := Ahead(stream, ret, cur), Posting(name, item1.key, lookLevel > 0);
        && -1 <= ret <= 1 && Owes(given, ahead, Copies(p, Size(lookLevel)), all)
        && (lookLevel != 0 ==> ret != -1 && Later(p, ahead)) && (lookLevel == 0 ==> Owes(given, ahead, multiset{}, all))
      ensures ret == -1 ==> lookLevel == 0 && more && firstInList && cur.name == name
      ensures ret == 0 ==> more ==> firstInList
      ensures ret == 1 ==> more && !firstInList && cur.name == name && item2 == Item(cur.key, cur.ins)
    {
      hide Owes, Later, Copies;
      NoCopies(Posting(name, item1.key, false));
    }

    lemma CopiesLeft(name: Key, ins: bool)
      requires 0 <= ret <= 1 && (lookLevel != 0 ==> ins == (lookLevel > 0)) && StreamOk()
      requires ret == 0 ==> more ==> firstInList
      requires ret == 1 ==> more && !firstInList && cur.name == name && item2 == Item(cur.key, cur.ins)
      requires Later(Posting(name, item1.key, ins), Ahead(stream, ret, cur))
      requires Owes(given, Ahead(stream, ret, cur), Copies(Posting(name, item1.key, ins), Size(lookLevel)), all)
      ensures Ready(name)
    {
      hide Owes, Later, Copies, StreamOk;
      NoCopies(Posting(name, item1.key, false));
      NoCopies(Posting(name, item1.key, true));
    }

    lemma ValidAgain()
      requires StreamOk() && Owes(given, stream, multiset{}, all) && ret == -1 && lookLevel == 0
      requires (more ==> firstInList)
      ensures Valid()
    {
    }

    /** The key is counted, and what is ahead is of later keys. */
    ghost predicate Settled(name: Key, level: int, g: multiset<Posting>)
      reads this
    {
      var ahead, p := Ahead(stream, ret, cur), Posting(name, item1.key, item1.ins);
      Owes(given, ahead, g, all) && Group(g, p, level) && Later(p, ahead)
    }

    lemma SettledIs(name: Key, level: int, g: multiset<Posting>)
      ensures Settled(name, level, g) <==>
        var ahead, p := Ahead(stream, ret, cur), Posting(name, item1.key, item1.ins);
        Owes(given, ahead, g, all) && Group(g, p, level) && Later(p, ahead)
    {
    }

    /** Reads the keys of name ahead until one is left over and another comes. Its level tells how
        many inserts or, when it is negative, deletes there are; 0 means that none was left at the
        end of the name. */
    method Count(ghost name: Key) returns (level: int, ghost g: multiset<Posting>)
      requires StreamOk() && more && !firstInList && cur.name == name && cur == Posting(name, item1.key, item1.ins)
      requires Owes(given, stream, Plus(multiset{}, cur), all)
      modifies this`prevName, this`cur, this`item1, this`item2
      modifies this`firstInList, this`more, this`ret, this`stream
      modifies hi.Repr
      ensures StreamOk() && 0 <= ret <= 1 && (ret == 0 ==> more ==> firstInList)
      ensures ret == 1 ==> more && !firstInList && cur.name == name && item2 == Item(cur.key, cur.ins)
      ensures level == 0 ==> Owes(given, stream, multiset{}, all) && Card(stream) <= Card(old(stream)) && ret == 0
      ensures level != 0 ==> Settled(name, level, g) && Card(Ahead(stream, ret, cur)) + Card(g) <= Card(old(stream)) + 1
    {
      hide *;
      level := if item1.ins then 1 else -1;
      g := Plus(multiset{}, cur);
      GroupOne(cur);
      SameIs(cur, cur);
      MoveOver(given, stream, multiset{}, cur, all);
      while true
        invariant StreamOk() && more && !firstInList && cur.name == name
        invariant Same(Posting(name, item1.key, item1.ins), cur) && cur.name == name
        invariant Owes(given, stream, g, all) && Group(g, Posting(name, item1.key, item1.ins), level)
        invariant Card(stream) + Card(g) <= Card(old(stream)) + 1 && Card(stream) <= Card(old(stream))
        decreases Card(stream)
      {
        ghost var p, c := Posting(name, item1.key, item1.ins), cur;
        StreamParts();
        var b;
        b, item2 := NextItem();
        ret := if b then 1 else 0;
        AheadIs(stream, ret, cur);
        if !b {
          if level == 0 {
            Drop(given, stream, g, p, all);
            return;
          }
          NameEnds(p, c, more, cur, stream);
          SettledIs(name, level, g);
          return;
        }
        var done;
        done, level, g := Absorb(name, level, g, c);
        if done {
          return;
        }
      }
    }

    /** Counts the posting read ahead: as one more of the key, or as the first of the next key when
        nothing is left of the one before. */
    method Absorb(ghost name: Key, level: int, ghost g: multiset<Posting>, ghost c: Posting)
      returns (done: bool, level': int, ghost g': multiset<Posting>)
      requires ret == 1 && item2 == Item(cur.key, cur.ins) && cur.name == name && AtMost(c, cur) && From(cur, stream)
      requires Owes(given, Plus(stream, cur), g, all) && Group(g, Posting(name, item1.key, item1.ins), level)
      requires Same(Posting(name, item1.key, item1.ins), c)
      modifies this`item1
      ensures done ==> Settled(name, level, g) && level' == level != 0 && g' == g
      ensures !done ==> Owes(given, stream, g', all) && Group(g', Posting(name, item1.key, item1.ins),
                                                              level') && Card(g') <= Card(g) + 1
      ensures !done ==> Same(Posting(name, item1.key, item1.ins), cur)
    {
      hide *;
      done, level', g' := false, level, g;
      ghost var p := Posting(name, item1.key, item1.ins);
      SameIs(p, cur);
      if item1.key == item2.key {
        CountMore(given, stream, g, p, level, cur, all);
        g' := Plus(g, cur);
        level' := level + if item2.ins then 1 else -1;
      } else if level != 0 {
        KeyEnds(p, c, cur, stream);
        AheadIs(stream, ret, cur);
        SettledIs(name, level, g);
        done := true;
      } else {
        CountNew(given, stream, g, p, cur, all);
        item1 := item2;
        level' := if item1.ins then 1 else -1;
        g' := Plus(multiset{}, cur);
        SameIs(cur, cur);
      }
    }

    /** Hands out another copy of the key. */
    method GiveAgain(ghost name: Key) returns (key: seq<int>, ins: bool)
      requires Ready(name) && lookLevel != 0
      modifies this`lookLevel, this`given
      ensures Ready(name) && ret != -1 && given == old(given) + [Posting(name, key, ins)] && LeftOf() < old(LeftOf())
    {
      hide *;
      ReadyParts(name);
      StandingParts(name);
      LeftIs();
      ins, key := lookLevel > 0, item1.key;
      GiveCopy(given, Ahead(stream, ret, cur), Posting(name, key, ins), Size(lookLevel), all);
      lookLevel := if lookLevel > 0 then lookLevel - 1 else lookLevel + 1;
      LeftIs();
      given := given + [Posting(name, key, ins)];
      CopiesLeft(name, ins);
    }

    /** Hands out the first of the copies of the key that was counted. */
    method GiveFirst(ghost name: Key, level: int, ghost g: multiset<Posting>) returns (key: seq<int>, ins: bool)
      requires StreamOk() && Settled(name, level, g) && level != 0 && lookLevel == 0 && 0 <= ret <= 1
      requires ret == 0 ==> more ==> firstInList
      requires ret == 1 ==> more && !firstInList && cur.name == name && item2 == Item(cur.key, cur.ins)
      modifies this`lookLevel, this`given
      ensures Ready(name) && given == old(given) + [Posting(name, key, ins)]
      ensures LeftOf() < Card(Ahead(stream, ret, cur)) + Card(g)
    {
      hide *;
      StreamParts();
      ins, key := level > 0, item1.key;
      SettledIs(name, level, g);
      Settle(given, Ahead(stream, ret, cur), g, Posting(name, key, item1.ins), level, all);
      SizeIs(level);
      lookLevel := if ins then level - 1 else level + 1;
      LeftIs();
      given := given + [Posting(name, key, ins)];
      CopiesLeft(name, ins);
    }

    /** The next key of name that is left after netting, an insert or a delete; false at the end
        of the name. */
    method Next(ghost name: Key) returns (r: bool, key: seq<int>, ins: bool)
      requires Ready(name)
      modifies this`prevName, this`cur, this`item1, this`item2
      modifies this`firstInList, this`more, this`ret, this`lookLevel, this`given, this`stream
      modifies hi.Repr
      ensures r ==>
        Ready(name) && ret != -1 && given == old(given) + [Posting(name, key, ins)] && LeftOf() < old(LeftOf())
      ensures !r ==> Valid() && given == old(given) && Card(stream) <= old(LeftOf())
      ensures !r && old(ret) == -1 ==> Card(stream) < old(LeftOf())
    {
      hide *;
      ReadyParts(name);
      StreamParts();
      r, key, ins := false, [], false;
      if lookLevel != 0 {
        key, ins := GiveAgain(name);
        r := true;
        return;
      }
      StandingParts(name);
      LeftIs();
      AheadIs(stream, ret, cur);
      if ret == 0 {
        ret := -1;
        ValidAgain();
        return;
      }
      if ret == -1 {
        var b;
        b, item1 := NextItem();
        AheadIs(stream, ret, cur);
        ret := if b then 1 else 0;
      } else {
        item1 := item2;
      }
      MoveOver(given, stream, multiset{}, cur, all);
      var level;
      ghost var g;
      level, g := Count(name);
      if level == 0 {
        ret := -1;
        ValidAgain();
        return;
      }
      key, ins := GiveFirst(name, level, g);
      r := true;
    }

    /** How much is left to hand out at most. */
    ghost function LeftOf(): nat
      reads this`stream, this`ret, this`cur, this`lookLevel
    {
      Card(Ahead(stream, ret, cur)) + Size(lookLevel)
    }

    lemma LeftIs()
      ensures LeftOf() == Card(Ahead(stream, ret, cur)) + Size(lookLevel)
      ensures Size(lookLevel) == if lookLevel > 0 then lookLevel else -lookLevel
    {
    }

    lemma ListStarts()
      requires Valid() && more
      ensures Ready(cur.name) && LeftOf() == Card(stream) && ret == -1
    {
      hide StreamOk, Owes, Later, Copies;
      NoCopies(Posting(cur.name, item1.key, false));
    }

    lemma AllGiven()
      requires Valid() && !more
      ensures Netted(given, all)
    {
      NoneLeft(given, all);
    }

    /** Hands out everything, name by name. */
    method MergeAll() returns (out: seq<Posting>)
      requires Valid() && given == []
      modifies this`prevName, this`cur, this`item1, this`item2
      modifies this`firstInList, this`more, this`ret, this`lookLevel, this`given, this`stream
      modifies hi.Repr
      ensures Netted(out, all)
    {
      hide *;
      out := [];
      while more
        invariant Valid() && out == given
        decreases Card(stream)
      {
        var thisName := cur.name;
        ListStarts();
        ghost var before := Card(stream);
        var r, key, ins := Next(thisName);
        while r
          invariant r ==>
            Ready(thisName) && ret != -1 && given == out + [Posting(thisName, key, ins)] && LeftOf() < before
          invariant !r ==> Valid() && given == out && Card(stream) < before
          decreases r, LeftOf()
        {
          out := out + [Posting(thisName, key, ins)];
          r, key, ins := Next(thisName);
        }
      }
      AllGiven();
    }
  }
}
