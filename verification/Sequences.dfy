/**
 * What several parts of the model need of sequences.
 */
module Sequences {
  ghost predicate Distinct<T>(s: seq<T>) { forall i, j :: 0 <= i < j < |s| ==> s[i] != s[j] }

  lemma {:induction false} DistinctWithin<T>(s: seq<T>, within: set<T>)
    requires Distinct(s) && forall x :: x in s ==> x in within
    ensures |s| <= |within|
  {
    if s != [] {
      var n := |s| - 1;
      DistinctWithin(s[..n], within - {s[n]});
    }
  }

  function Flatten<T>(parts: seq<seq<T>>): seq<T> {
    if parts == [] then [] else Flatten(parts[..|parts| - 1]) + parts[|parts| - 1]
  }

  lemma AppendOne<T>(s: seq<T>, x: T)
    ensures multiset(s + [x]) == multiset(s) + multiset{x}
  {
  }

  lemma LastApart<T>(s: seq<T>)
    requires s != []
    ensures multiset(s) == multiset(s[..|s| - 1]) + multiset{s[|s| - 1]}
  {
    assert s == s[..|s| - 1] + [s[|s| - 1]];
  }

  lemma WithoutOne<T>(s: seq<T>, i: nat)
    requires i < |s|
    ensures multiset(s[..i] + s[i + 1..]) == multiset(s) - multiset{s[i]}
  {
    assert s == s[..i] + [s[i]] + s[i + 1..];
  }

  /** The last element of a permutation, found in the other one. */
  lemma MatchLast<T>(a: seq<T>, b: seq<T>) returns (i: nat)
    requires a != [] && multiset(a) == multiset(b)
    ensures i < |b| && b[i] == a[|a| - 1] && multiset(a[..|a| - 1]) == multiset(b[..i] + b[i + 1..])
  {
    assert a[|a| - 1] in multiset(b);
    i :| i < |b| && b[i] == a[|a| - 1];
    LastApart(a);
    WithoutOne(b, i);
  }
}
