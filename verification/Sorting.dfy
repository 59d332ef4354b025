// Go's sort.Ints, by what it promises: an ascending permutation.
module Sorting {
  predicate Ascending(s: seq<int>) {
    forall i, j :: 0 <= i <= j < |s| ==> s[i] <= s[j]
  }

  // The position of x in a sorted sequence.
  function Place(s: seq<int>, x: int): (p: nat)
    requires Ascending(s)
    ensures p <= |s|
    ensures forall i :: 0 <= i < p ==> s[i] <= x
    ensures forall i :: p <= i < |s| ==> x < s[i]
  {
    if s == [] || s[|s| - 1] <= x then |s| else Place(s[..|s| - 1], x)
  }

  function Inserted(s: seq<int>, x: int): (r: seq<int>)
    requires Ascending(s)
    ensures Ascending(r) && |r| == |s| + 1
  {
    var p := Place(s, x);
    s[..p] + [x] + s[p..]
  }

  // Insertion sort.
  function Sorted(s: seq<int>): (r: seq<int>)
    ensures Ascending(r) && |r| == |s|
  {
    if s == [] then [] else Inserted(Sorted(s[..|s| - 1]), s[|s| - 1])
  }

  lemma InsertedPermutes(s: seq<int>, x: int)
    requires Ascending(s)
    ensures multiset(Inserted(s, x)) == multiset(s) + multiset{x}
  {
    var low, high := s[..Place(s, x)], s[Place(s, x)..];
    assert s == low + high;
  }

  lemma {:induction false} SortedPermutes(s: seq<int>)
    ensures multiset(Sorted(s)) == multiset(s)
  {
    if s != [] {
      SortedPermutes(s[..|s| - 1]);
      InsertedPermutes(Sorted(s[..|s| - 1]), s[|s| - 1]);
      assert s == s[..|s| - 1] + [s[|s| - 1]];
    }
  }
}
