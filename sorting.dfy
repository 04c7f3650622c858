/** `list.sort()` and `sorted()` on a list of Python ints: the ascending
    permutation of the list. The library's algorithm (Timsort) is not part of
    this model; any sorted permutation is the same list, so insertion sort
    stands for it. */
module Sorting {

  predicate Ascending(s: seq<int>) {
    forall i, j :: 0 <= i < j < |s| ==> s[i] <= s[j]
  }

  predicate StrictlyAscending(s: seq<int>) {
    forall i, j :: 0 <= i < j < |s| ==> s[i] < s[j]
  }

  /** `s` with `x` inserted before the first element greater than it. */
  function Insert(x: int, s: seq<int>): (r: seq<int>)
    requires Ascending(s)
    ensures Ascending(r)
    ensures multiset(r) == multiset(s) + multiset{x}
    ensures |r| == |s| + 1
    ensures r[0] == if |s| > 0 && s[0] < x then s[0] else x
  {
    if |s| == 0 then [x]
    else if x <= s[0] then [x] + s
    else
      var t := Insert(x, s[1..]);
      assert s == [s[0]] + s[1..];
      assert s[0] <= t[0];
      assert forall k :: 0 <= k < |t| ==> s[0] <= t[k];
      [s[0]] + t
  }

  /** `sorted(s)`. */
  function Sort(s: seq<int>): (r: seq<int>)
    ensures Ascending(r)
    ensures multiset(r) == multiset(s)
    ensures |r| == |s|
  {
    if |s| == 0 then []
    else
      assert s == s[..|s| - 1] + [s[|s| - 1]];
      Insert(s[|s| - 1], Sort(s[..|s| - 1]))
  }

  /** A sorted permutation is unique: two ascending lists with the same
      elements are equal. So Sort(s) is what any correct sort returns. */
  lemma {:induction false} SortedPermutationUnique(a: seq<int>, b: seq<int>)
    requires Ascending(a) && Ascending(b) && multiset(a) == multiset(b)
    ensures a == b
    decreases |a|
  {
    assert |b| == |multiset(b)| == |a|;
    if |a| > 0 {
      assert a[0] in multiset(b) && b[0] in multiset(a);
      FirstIsLeast(a, b[0]);
      FirstIsLeast(b, a[0]);
      RestAscending(a);
      RestAscending(b);
      assert a[0] == b[0];
      assert multiset(a[1..]) == multiset(b[1..]);
      SortedPermutationUnique(a[1..], b[1..]);
    }
  }

  lemma RestAscending(s: seq<int>)
    requires Ascending(s) && |s| > 0
    ensures Ascending(s[1..]) && multiset(s[1..]) == multiset(s) - multiset{s[0]}
  {
    assert s == [s[0]] + s[1..];
  }

  /** In an ascending list, the first element is no greater than any element. */
  lemma FirstIsLeast(s: seq<int>, x: int)
    requires Ascending(s) && x in multiset(s)
    ensures |s| > 0 && s[0] <= x
  {
    var i :| 0 <= i < |s| && s[i] == x;
    assert i == 0 || s[0] <= s[i];
  }

  /** In an ascending list, the last element is no less than any element. */
  lemma LastIsGreatest(s: seq<int>, x: int)
    requires Ascending(s) && x in multiset(s)
    ensures |s| > 0 && x <= s[|s| - 1]
  {
    var i :| 0 <= i < |s| && s[i] == x;
    assert i == |s| - 1 || s[i] <= s[|s| - 1];
  }

  /** Sorting keeps the elements: the same values, each as often. */
  lemma SortKeepsMembers(s: seq<int>, x: int)
    ensures x in Sort(s) <==> x in s
  {
    var r := Sort(s);
    assert x in r <==> x in multiset(r);
    assert x in s <==> x in multiset(s);
  }

  /** Sorting an already ascending list leaves it unchanged. */
  lemma SortAscending(s: seq<int>)
    requires Ascending(s)
    ensures Sort(s) == s
  {
    SortedPermutationUnique(Sort(s), s);
  }
}
