// The rescanning substitution of internal/manager/backend/backend.go:114-131: which
// texts it comes to an end on, and with what.
module Rescan {
  import opened Search

  // s with the occurrence of pat at i replaced.
  function Replaced(s: string, pat: string, value: string, i: nat): string
    requires i + |pat| <= |s|
  {
    s[..i] + value + s[i + |pat|..]
  }

  // The text after n rounds, each of which replaces the first occurrence, or after
  // fewer if none is left.
  function Rounds(s: string, pat: string, value: string, n: nat): string
    decreases n
  {
    var i := FirstIndex(s, pat);
    if n == 0 || i == -1 then s else Rounds(Replaced(s, pat, value, i), pat, value, n - 1)
  }

  // The rescan comes to an end.
  ghost predicate Ends(s: string, pat: string, value: string) {
    exists n: nat :: !Contains(Rounds(s, pat, value, n), pat)
  }

  ghost predicate IsResult(s: string, pat: string, value: string, r: string) {
    !Contains(r, pat) && exists n: nat :: r == Rounds(s, pat, value, n)
  }

  lemma NotFoundIff(s: string, pat: string)
    ensures FirstIndex(s, pat) == -1 <==> !Contains(s, pat)
  {
    if FirstIndex(s, pat) != -1 { assert OccursAt(s, pat, FirstIndex(s, pat)); }
  }

  lemma ResultEnds(s: string, pat: string, value: string, r: string)
    requires IsResult(s, pat, value, r)
    ensures Ends(s, pat, value)
  {
    var n: nat :| r == Rounds(s, pat, value, n);
    assert !Contains(Rounds(s, pat, value, n), pat);
  }

  lemma OwnResult(s: string, pat: string, value: string)
    requires !Contains(s, pat)
    ensures IsResult(s, pat, value, s) && Ends(s, pat, value)
  {
    assert Rounds(s, pat, value, 0) == s;
  }

  lemma ResultFromRound(s: string, pat: string, value: string, i: nat, r: string)
    requires FirstIndex(s, pat) == i && IsResult(Replaced(s, pat, value, i), pat, value, r)
    ensures IsResult(s, pat, value, r)
  {
    var n: nat :| r == Rounds(Replaced(s, pat, value, i), pat, value, n);
    assert Rounds(s, pat, value, n + 1) == r;
  }

  lemma RoundsCons(s: string, pat: string, value: string, n: nat)
    requires FirstIndex(s, pat) != -1 && !Contains(Rounds(s, pat, value, n), pat)
    ensures n > 0 && Rounds(s, pat, value, n) == Rounds(Replaced(s, pat, value, FirstIndex(s, pat)), pat, value, n - 1)
  {
    NotFoundIff(s, pat);
  }

  lemma {:induction false} SameEnd(s: string, pat: string, value: string, m: nat, n: nat)
    requires !Contains(Rounds(s, pat, value, m), pat) && !Contains(Rounds(s, pat, value, n), pat)
    ensures Rounds(s, pat, value, m) == Rounds(s, pat, value, n)
    decreases m
  {
    if FirstIndex(s, pat) != -1 {
      RoundsCons(s, pat, value, m);
      RoundsCons(s, pat, value, n);
      SameEnd(Replaced(s, pat, value, FirstIndex(s, pat)), pat, value, m - 1, n - 1);
    }
  }

  // There is at most one result.
  lemma OneResult(s: string, pat: string, value: string, q: string, r: string)
    requires IsResult(s, pat, value, q) && IsResult(s, pat, value, r)
    ensures q == r
  {
    var m: nat :| q == Rounds(s, pat, value, m);
    var n: nat :| r == Rounds(s, pat, value, n);
    SameEnd(s, pat, value, m, n);
  }

  lemma {:induction false} RoundsSnoc(s: string, pat: string, value: string, n: nat)
    requires FirstIndex(Rounds(s, pat, value, n), pat) != -1
    ensures var r := Rounds(s, pat, value, n);
      Rounds(s, pat, value, n + 1) == Replaced(r, pat, value, FirstIndex(r, pat))
    decreases n
  {
    if n > 0 {
      RoundsSnoc(Replaced(s, pat, value, FirstIndex(s, pat)), pat, value, n - 1);
    } else {
      assert Rounds(s, pat, value, 0) == s;
    }
  }

  // The text holds the pattern, and its round leads into the family.
  ghost predicate StaysWithin(family: iset<string>, s: string, pat: string, value: string) {
    var i := FirstIndex(s, pat);
    i != -1 && Replaced(s, pat, value, i) in family
  }

  ghost predicate Closed(family: iset<string>, pat: string, value: string) {
    forall t {:trigger StaysWithin(family, t, pat, value)} :: t in family ==> StaysWithin(family, t, pat, value)
  }

  lemma {:induction false} RoundsWithin(family: iset<string>, s: string, pat: string, value: string, n: nat)
    requires s in family && Closed(family, pat, value)
    ensures Rounds(s, pat, value, n) in family
    decreases n
  {
    assert StaysWithin(family, s, pat, value);
    if n > 0 { RoundsWithin(family, Replaced(s, pat, value, FirstIndex(s, pat)), pat, value, n - 1); }
  }

  // A family of texts that no round leaves has none on which the rescan ends.
  lemma NeverEndsWithin(family: iset<string>, s: string, pat: string, value: string)
    requires s in family && Closed(family, pat, value)
    ensures !Ends(s, pat, value)
  {
    forall n: nat ensures Contains(Rounds(s, pat, value, n), pat) {
      RoundsWithin(family, s, pat, value, n);
      assert StaysWithin(family, Rounds(s, pat, value, n), pat, value);
      NotFoundIff(Rounds(s, pat, value, n), pat);
    }
  }

  /* A value that contains the pattern. */

  lemma ContainsInside(s: string, pat: string, value: string, i: nat, j: nat)
    requires OccursAt(s, pat, i) && OccursAt(value, pat, j)
    ensures Contains(Replaced(s, pat, value, i), pat)
  {
    var r := Replaced(s, pat, value, i);
    assert r[i..i + |value|] == value;
    assert r[i + j..i + j + |pat|] == r[i..i + |value|][j..j + |pat|];
    OccurrenceShifts(value, r, pat, j, i + j);
  }

  // With a value that contains the pattern, only a text without the pattern lets the
  // rescan end.
  lemma RescanNeverEnds(s: string, pat: string, value: string)
    requires Contains(value, pat)
    ensures Ends(s, pat, value) <==> !Contains(s, pat)
  {
    if Contains(s, pat) {
      ghost var family := iset t: string | Contains(t, pat);
      forall t | t in family ensures StaysWithin(family, t, pat, value) {
        NotFoundIff(t, pat);
        var j :| OccursAt(value, pat, j);
        ContainsInside(t, pat, value, FirstIndex(t, pat), j);
      }
      NeverEndsWithin(family, s, pat, value);
    } else {
      OwnResult(s, pat, value);
    }
  }

  /* The code itself. */

  method IndexOf(s: string, substr: string) returns (r: int)
    ensures r == FirstIndex(s, substr)
  {
    r := -1;
    var i := 0;
    while i <= |s| - |substr|
      invariant FirstIndex(s, substr) == FirstIndex(s, substr, i)
    {
      if s[i..i + |substr|] == substr {
        return i;
      }
      i := i + 1;
    }
  }

  // r is the text after some rounds, and is at most left rounds away from the end.
  ghost predicate Underway(s: string, pat: string, value: string, r: string, left: nat) {
    && (exists n: nat :: r == Rounds(s, pat, value, n))
    && !Contains(Rounds(r, pat, value, left), pat)
  }

  lemma RoundTaken(s: string, pat: string, value: string, r: string, left: nat, i: nat)
    requires Underway(s, pat, value, r, left) && FirstIndex(r, pat) == i
    ensures i + |pat| <= |r| && left > 0 && Underway(s, pat, value, Replaced(r, pat, value, i), left - 1)
  {
    NotFoundIff(r, pat);
    var n: nat :| r == Rounds(s, pat, value, n);
    RoundsSnoc(s, pat, value, n);
    assert Rounds(s, pat, value, n + 1) == Replaced(r, pat, value, i);
  }

  lemma StartUnderway(s: string, pat: string, value: string) returns (left: nat)
    requires Ends(s, pat, value)
    ensures Underway(s, pat, value, s, left)
  {
    left :| !Contains(Rounds(s, pat, value, left), pat);
    assert s == Rounds(s, pat, value, 0);
  }

  lemma EndReached(s: string, pat: string, value: string, r: string, left: nat)
    requires Underway(s, pat, value, r, left) && FirstIndex(r, pat) == -1
    ensures IsResult(s, pat, value, r)
  {
    NotFoundIff(r, pat);
  }

  // One turn of the loop.
  method ReplaceFirst(
    ghost s: string, pat: string, value: string, r: string, ghost left: nat) returns (found: bool, next: string)
    requires Underway(s, pat, value, r, left)
    ensures found ==> left > 0 && Underway(s, pat, value, next, left - 1)
    ensures !found ==> next == r && IsResult(s, pat, value, r)
  {
    var i := IndexOf(r, pat);
    if i < 0 {
      EndReached(s, pat, value, r, left);
      return false, r;
    }
    RoundTaken(s, pat, value, r, left, i);
    return true, Replaced(r, pat, value, i);
  }

  // Asks no more than that the rescan ends.
  method ReplaceEach(s: string, pat: string, value: string) returns (r: string)
    requires Ends(s, pat, value)
    ensures IsResult(s, pat, value, r)
  {
    ghost var left := StartUnderway(s, pat, value);
    r := s;
    while true
      invariant Underway(s, pat, value, r, left)
      decreases left
    {
      var found, next := ReplaceFirst(s, pat, value, r, left);
      if !found {
        return;
      }
      r := next;
      left := left - 1;
    }
  }
}
