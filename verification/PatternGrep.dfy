/** dict_lookup_grep from the tokens of its pattern: the keys reported are exactly the stored ones
  within range edits of a word the pattern stands for. */
module PatternGrep {
  import opened Wrappers
  import opened DictPage
  import opened DictStore
  import opened GrepLevels
  import opened LookGrep
  import opened LookupGrep
  import opened DfaSyntax
  import opened DfaPatterns
  import B = DfaBegins
  import F = Dfa
  import R = DfaReach
  import T = DfaTree

  // ---------------------------------------------------------------- what is to be reported

  ghost predicate WordOf(q: Pattern, u: Text) {
    PatternMeans(q, u, AllChars(), LAST_CHAR) && F.Characters(u)
  }

  /** Some word the pattern stands for is within range edits of the key. */
  ghost predicate ClosePattern(q: Pattern, range: nat, key: Key) {
    exists u :: WordOf(q, u) && Lev(u, key) <= range
  }

  ghost predicate BeginsPattern(q: Pattern, v: Text) {
    exists u :: WordOf(q, u) && v <= u
  }

  /** The key is to be reported: some word is close to it, and the part of it that must not be edited
      begins some word. In a key that has no other part nothing may be edited. */
  ghost predicate HitsPattern(q: Pattern, range: nat, init: nat, key: Key) {
    && ClosePattern(q, if |key| > init then range else 0, key)
    && BeginsPattern(q, if |key| <= init then key else key[..init])
  }

  /** Exactly the stored keys that are to be reported, each once, in ascending order, with their
      information; up to the last one, when the search was stopped. */
  ghost predicate ReportsPattern(contents: map<Key, Info>, q: Pattern, range: nat, init: nat, found: seq<Found>,
                                 stopped: bool) {
    && Ascending(found) && (stopped ==> found != [])
    && (forall i :: 0 <= i < |found| ==> && found[i].key in contents && found[i].info == contents[found[i].key]
                                         && HitsPattern(q, range, init, found[i].key))
    && (forall key :: key in contents && HitsPattern(q, range, init, key) ==>
        Seen(found, stopped, key, contents[key]))
  }

  // ---------------------------------------------------------------- what this means for callers

  /** Without edits the keys close to a pattern are the words it stands for. */
  lemma CloseExact(q: Pattern, key: Key)
    ensures ClosePattern(q, 0, key) <==> WordOf(q, key)
  {
    hide WordOf, Lev;
    forall u: Text
      ensures Lev(u, key) <= 0 <==> u == key
    {
      LevZero(u, key);
    }
  }

  /** When nothing must be left unedited, being close is all that counts. */
  lemma HitsClose(q: Pattern, range: nat, key: Key)
    requires key != []
    ensures HitsPattern(q, range, 0, key) <==> ClosePattern(q, range, key)
  {
    hide WordOf, Lev;
    if u :| WordOf(q, u) && Lev(u, key) <= range { assert [] <= u; }
  }

  /** When every word of the pattern starts with p, and p must not be edited, the keys reported are
      those that start with p, too, and whose rest is within range edits of the rest of a word. */
  lemma HitsRest(q: Pattern, range: nat, p: Text, key: Key)
    requires (forall u :: WordOf(q, u) ==> p <= u) && |key| > |p|
    ensures HitsPattern(q, range, |p|, key) <==>
      p <= key && exists u :: WordOf(q, u) && p <= u && Lev(u[|p|..], key[|p|..]) <= range
  {
    hide WordOf, Lev;
    var n := |p|;
    forall u | WordOf(q, u)
      ensures p <= key ==> Lev(u, key) == Lev(u[n..], key[n..])
    {
      if p <= key {
        assert u == p + u[n..] && key == p + key[n..];
        LevPrefix(p, u[n..], key[n..]);
      }
    }
    if HitsPattern(q, range, n, key) {
      var u :| WordOf(q, u) && key[..n] <= u;
      assert key[..n] == u[..n] == p;
      var v :| WordOf(q, v) && Lev(v, key) <= range;
      assert p <= v;
    }
    if p <= key && exists u :: WordOf(q, u) && p <= u && Lev(u[n..], key[n..]) <= range {
      var u :| WordOf(q, u) && p <= u && Lev(u[n..], key[n..]) <= range;
      assert key[..n] == p;
      assert Lev(u, key) <= range;
    }
  }

  /** In general the start of a key must begin some word, but not the word the key is close to: with
      the words ab and xyz, one edit and one unedited character, xb is reported. */
  lemma StartOfAnother(q: Pattern)
    requires forall u :: WordOf(q, u) <==> u == [97, 98] || u == [120, 121, 122]
    ensures HitsPattern(q, 1, 1, [120, 98])
    ensures !exists u :: WordOf(q, u) && u[..1] == [120] && Lev(u, [120, 98]) <= 1
  {
    hide WordOf, Lev;
    LevNear();
    LevFar();
    var ab: Text, xyz: Text, key := [97, 98], [120, 121, 122], [120, 98];
    assert WordOf(q, ab) && ClosePattern(q, 1, key);
    assert WordOf(q, xyz) && key[..1] == [120] == xyz[..1] && BeginsPattern(q, key[..1]);
    assert ab[..1] == [97];
  }

  lemma LevNear()
    ensures Lev([97, 98], [120, 98]) <= 1
  {
    hide Lev;
    LevSnoc([97], 98, [120], 98);
    LevSnoc([], 97, [], 120);
    LevNone([]);
    assert [97] + [98] == [97, 98] && [120] + [98] == [120, 98] && [] + [97] == [97] && [] + [120] == [120];
  }

  lemma LevFar()
    ensures Lev([120, 121, 122], [120, 98]) == 2
  {
    hide Lev;
    LevPrefix([120], [121, 122], [98]);
    LevSnoc([121], 122, [], 98);
    LevSnoc([], 121, [], 98);
    LevNone([]);
    LevNone([121]);
    LevNone([98]);
    LevNone([121, 122]);
    assert [120] + [121, 122] == [120, 121, 122] && [120] + [98] == [120, 98];
    assert [121] + [122] == [121, 122] && [] + [121] == [121] && [] + [98] == [98];
  }

  // ---------------------------------------------------------------- dict_lookup_grep

  lemma WordRule(rules: seq<R.Rule>, position: nat, q: Pattern, u: Text)
    requires AllRead(rules, position, [q], AllChars()) && F.Characters(u)
    ensures (exists k :: F.InRule(rules, u, k)) <==> WordOf(q, u)
  {
    hide R.RulesOk, T.Matches, PatternMeans, F.Characters;
    assert T.Matches(rules[0].body, u) <==> PatternMeans([q][0], u, AllChars(), LAST_CHAR);
    if WordOf(q, u) { assert F.InRule(rules, u, 1); }
  }

  /** What is to be reported for the rule that was parsed is what the pattern says. */
  lemma HitsOne(rules: seq<R.Rule>, position: nat, q: Pattern, range: nat, init: nat, key: Key)
    requires AllRead(rules, position, [q], AllChars())
    ensures Hits(rules, range, init, key) <==> HitsPattern(q, range, init, key)
  {
    CharactersOf(q);
    hide AllRead, PatternMeans, F.Characters, Lev, F.InRule, WordOf;
    forall u: Text | F.Characters(u)
      ensures (exists k :: F.InRule(rules, u, k)) <==> WordOf(q, u)
    {
      WordRule(rules, position, q, u);
    }
  }

  lemma CharactersOf(q: Pattern)
    ensures forall u :: WordOf(q, u) ==> F.Characters(u)
  {
  }

  lemma ReportsOne(contents: map<Key, Info>, rules: seq<R.Rule>, position: nat, q: Pattern, range: nat, init: nat,
                   found: seq<Found>, stopped: bool)
    requires AllRead(rules, position, [q], AllChars()) && ReportsClose(contents, rules, range, init, found, stopped)
    ensures ReportsPattern(contents, q, range, init, found, stopped)
  {
    hide AllRead, Hits, HitsPattern, Ascending, Seen;
    forall key
      ensures Hits(rules, range, init, key) <==> HitsPattern(q, range, init, key)
    {
      HitsOne(rules, position, q, range, init, key);
    }
  }

  /** Reports the stored keys within range edits of the words of a pattern; nothing is looked up
      when the tokens are not those of a pattern, or something comes after them. */
  method DictLookupPattern(d: Dict, ts: seq<Token>, rest: bool, range: nat, init: nat, stop: seq<Found> -> bool)
    returns (found: Option<seq<Found>>, stopped: bool)
    requires d.Valid() && d.cfg.maxKey <= MAX_LENGTH && TokensOk(ts, LAST_CHAR)
    ensures found == None <==> NoPattern(ts) || rest
    ensures found.Some? ==> Told(stop, [], found.value, stopped) && exists q ::
      OnlyPattern(ts, q) && ReportsPattern(d.contents, q, range, init, found.value, stopped)
  {
    OneOrNone(ts);
    hide Dict.Valid, TokensOk, NoPattern, OnlyPattern, ReportsPattern, ReportsClose, AllRead, R.RulesOk, R.Root, Told;
    var dfa := new DfaInfo();
    dfa.AnySetIncludesNl();
    AllHas(dfa.any);
    var error := dfa.DfaParse(ts);
    if error.Some? || rest {
      return None, false;
    }
    ghost var q :| OnlyPattern(ts, q) && dfa.pats == [] + [q];
    assert dfa.pats == [q];
    ReadParts(dfa.rules, dfa.position, dfa.pats, dfa.any);
    var keys;
    keys, stopped := DictLookupGrep(d, dfa.rules, dfa.position, range, init, stop);
    ReportsOne(d.contents, dfa.rules, dfa.position, q, range, init, keys, stopped);
    found := Some(keys);
  }

  lemma OneOrNone(ts: seq<Token>)
    ensures NoPattern(ts) ==> forall q :: !OnlyPattern(ts, q)
  {
  }
}
