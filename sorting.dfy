/** Ascending order of numbers, for `results.sort((a, b) => a - b)`. */
module Sorting {

  predicate SortedAscending(s: seq<real>)
  {
    forall i, j :: 0 <= i < j < |s| ==> s[i] <= s[j]
  }

  /** Inserts x into a sorted sequence, before the first element not below it. */
  function Insert(x: real, s: seq<real>): (r: seq<real>)
    ensures |r| == |s| + 1
    ensures multiset(r) == multiset(s) + multiset{x}
    ensures forall k :: 0 <= k < |r| ==> r[k] == x || r[k] in s
  {
    if |s| == 0 then [x]
    else if x <= s[0] then [x] + s
    else
      var rest := Insert(x, s[1..]);
      assert s == [s[0]] + s[1..];
      [s[0]] + rest
  }

  /** Inserting into a sorted sequence keeps it sorted. */
  lemma {:induction false} InsertSorted(x: real, s: seq<real>)
    requires SortedAscending(s)
    ensures SortedAscending(Insert(x, s))
  {
    if |s| > 0 && x > s[0] {
      InsertSorted(x, s[1..]);
      var rest := Insert(x, s[1..]);
      assert forall k :: 0 <= k < |rest| ==> s[0] <= rest[k];
      assert Insert(x, s) == [s[0]] + rest;
    }
  }

  /** Insertion sort: an ascending permutation of the input. */
  function SortAscending(s: seq<real>): (r: seq<real>)
    ensures |r| == |s|
    ensures multiset(r) == multiset(s)
    ensures SortedAscending(r)
  {
    if |s| == 0 then []
    else
      assert s == s[..|s| - 1] + [s[|s| - 1]];
      InsertSorted(s[|s| - 1], SortAscending(s[..|s| - 1]));
      Insert(s[|s| - 1], SortAscending(s[..|s| - 1]))
  }

  /** A lower bound on every input element is one on every sorted element. */
  lemma SortKeepsLowerBound(s: seq<real>, bound: real)
    requires forall k :: 0 <= k < |s| ==> s[k] >= bound
    ensures forall k :: 0 <= k < |SortAscending(s)| ==> SortAscending(s)[k] >= bound
  {
    var r := SortAscending(s);
    forall k | 0 <= k < |r|
      ensures r[k] >= bound
    {
      assert r[k] in multiset(r);
      assert r[k] in multiset(s);
      var j :| 0 <= j < |s| && s[j] == r[k];
    }
  }
}
