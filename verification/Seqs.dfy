/** Searching and splicing lists. */
module Seqs {
  /** Where a string first is in a list, from a position on; the length of the list if it is not there. */
  function IndexFrom(list: seq<string>, x: string, from: nat): (k: nat)
    requires from <= |list|
    ensures from <= k <= |list| && (k < |list| ==> list[k] == x)
    ensures forall i | from <= i < k :: list[i] != x
    decreases |list| - from
  {
    if from == |list| || list[from] == x then from else IndexFrom(list, x, from + 1)
  }

  lemma Spliced<T>(s: seq<T>, x: T, k: nat)
    requires k <= |s|
    ensures multiset(s[..k] + [x] + s[k..]) == multiset(s) + multiset{x}
  {
    assert s == s[..k] + s[k..];
  }
}
