/** Sequences that stand for linked lists. */
module Sequences {
  ghost predicate Distinct<T>(s: seq<T>) {
    forall i, j :: 0 <= i < j < |s| ==> s[i] != s[j]
  }

  /** Item i of a list of numbered cells; 0 ends the list. */
  function Nth(s: seq<nat>, i: nat): nat {
    if i < |s| then s[i] else 0
  }
}
