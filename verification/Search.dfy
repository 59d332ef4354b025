// First occurrence of a pattern in a sequence: what bytes.Index and the
// backend's own indexOf both promise.
module Search {
  ghost predicate OccursAt<T>(s: seq<T>, pat: seq<T>, i: int) {
    0 <= i <= |s| - |pat| && s[i..i + |pat|] == pat
  }

  ghost predicate Contains<T>(s: seq<T>, pat: seq<T>) {
    exists i :: OccursAt(s, pat, i)
  }

  function FirstIndex<T(==)>(s: seq<T>, pat: seq<T>, from: nat := 0): (r: int)
    ensures r == -1 || from <= r
    ensures r == -1 ==> forall i | from <= i :: !OccursAt(s, pat, i)
    ensures r != -1 ==> OccursAt(s, pat, r) && forall i | from <= i < r :: !OccursAt(s, pat, i)
    decreases |s| - from
  {
    if from > |s| - |pat| then -1
    else if s[from..from + |pat|] == pat then from
    else
      assert !OccursAt(s, pat, from);
      FirstIndex(s, pat, from + 1)
  }

  lemma FirstIndexIs<T>(s: seq<T>, pat: seq<T>, i: int)
    requires OccursAt(s, pat, i) && forall j | 0 <= j < i :: !OccursAt(s, pat, j)
    ensures FirstIndex(s, pat) == i
  {
    var r := FirstIndex(s, pat);
    assert r != -1;
  }

  lemma InsideOccurrence<T>(s: seq<T>, pat: seq<T>, i: int, p: int)
    requires OccursAt(s, pat, i) && i <= p < i + |pat|
    ensures s[p] in pat
  {
    assert s[i..i + |pat|][p - i] == s[p];
  }

  // Occurrences survive in any longer sequence that agrees on their range.
  lemma OccurrenceShifts<T>(s: seq<T>, t: seq<T>, pat: seq<T>, i: int, j: int)
    requires OccursAt(s, pat, i) && 0 <= j <= |t| - |pat| && t[j..j + |pat|] == s[i..i + |pat|]
    ensures OccursAt(t, pat, j)
  {
  }

  lemma StartsWithFirst<T>(s: seq<T>, pat: seq<T>, i: int)
    requires OccursAt(s, pat, i) && pat != []
    ensures s[i] == pat[0]
  {
    assert s[i..i + |pat|][0] == s[i];
  }

  lemma OccursInRest<T>(first: seq<T>, rest: seq<T>, pat: seq<T>, i: int)
    requires OccursAt(first + rest, pat, i) && i >= |first|
    ensures OccursAt(rest, pat, i - |first|)
  {
    assert (first + rest)[i..i + |pat|] == rest[i - |first|..i - |first| + |pat|];
  }
}
