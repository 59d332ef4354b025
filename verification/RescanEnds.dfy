// Which values let the rescanning substitution of internal/manager/backend/backend.go:114-131
// come to an end, and on which texts.
module RescanEnds {
  import opened Search
  import opened Rescan

  /* A value that cannot be the beginning, or cannot be the end, of an occurrence. */

  // No non-empty suffix of the value is a prefix of the pattern.
  ghost predicate NeverBegins(pat: string, value: string) {
    forall m :: 0 <= m < |value| ==> !(value[m..] <= pat)
  }

  // No non-empty prefix of the value is a suffix of the pattern.
  ghost predicate NeverFinishes(pat: string, value: string) {
    forall m :: 0 < m <= |value| ==> !EndsWith(pat, value[..m])
  }

  predicate EndsWith(s: string, end: string) {
    |end| <= |s| && s[|s| - |end|..] == end
  }

  // A mark says where in the value a character came from; characters of the original
  // text have a negative one. A marked run goes on to the end of the value.
  ghost predicate OnAt(s: string, marks: seq<int>, value: string, k: nat)
    requires |marks| == |s| && k < |s|
  {
    marks[k] >= 0 ==>
      && marks[k] < |value| && s[k] == value[marks[k]]
      && (marks[k] + 1 < |value| ==> k + 1 < |s| && marks[k + 1] == marks[k] + 1)
  }

  ghost predicate RunsOn(s: string, marks: seq<int>, value: string) {
    |marks| == |s| && forall k :: 0 <= k < |s| ==> OnAt(s, marks, value, k)
  }

  // A marked run comes from the start of the value.
  ghost predicate FromAt(s: string, marks: seq<int>, value: string, k: nat)
    requires |marks| == |s| && k < |s|
  {
    marks[k] >= 0 ==>
      && marks[k] < |value| && s[k] == value[marks[k]]
      && (marks[k] > 0 ==> k > 0 && marks[k - 1] == marks[k] - 1)
  }

  ghost predicate RunsFrom(s: string, marks: seq<int>, value: string) {
    |marks| == |s| && forall k :: 0 <= k < |s| ==> FromAt(s, marks, value, k)
  }

  function Unmarked(marks: seq<int>): nat {
    if marks == [] then 0 else (if marks[0] < 0 then 1 else 0) + Unmarked(marks[1..])
  }

  lemma {:induction false} UnmarkedConcat(a: seq<int>, b: seq<int>)
    ensures Unmarked(a + b) == Unmarked(a) + Unmarked(b)
  {
    if a == [] {
      assert a + b == b;
    } else {
      assert (a + b)[1..] == a[1..] + b;
      UnmarkedConcat(a[1..], b);
    }
  }

  function Marks(n: nat): seq<int> {
    seq(n, j => j)
  }

  lemma {:induction false} AllMarked(marks: seq<int>)
    requires forall k :: 0 <= k < |marks| ==> marks[k] >= 0
    ensures Unmarked(marks) == 0
  {
    if marks != [] { AllMarked(marks[1..]); }
  }

  lemma {:induction false} UnmarkedAt(marks: seq<int>, k: nat)
    requires k < |marks| && marks[k] < 0
    ensures Unmarked(marks) > 0
  {
    if k > 0 { UnmarkedAt(marks[1..], k - 1); }
  }

  // The marks once the characters from i to j have been replaced by the value.
  function Remarked(marks: seq<int>, i: nat, j: nat, value: string): seq<int>
    requires i <= j <= |marks|
  {
    marks[..i] + Marks(|value|) + marks[j..]
  }

  lemma UnmarkedParts(a: seq<int>, b: seq<int>, c: seq<int>)
    ensures Unmarked(a + b + c) == Unmarked(a) + Unmarked(b) + Unmarked(c)
  {
    UnmarkedConcat(a + b, c);
    UnmarkedConcat(a, b);
  }

  lemma FewerUnmarked(a: seq<int>, was: seq<int>, now: seq<int>, c: seq<int>, k: nat)
    requires k < |was| && was[k] < 0 && forall i :: 0 <= i < |now| ==> now[i] >= 0
    ensures Unmarked(a + now + c) < Unmarked(a + was + c)
  {
    UnmarkedParts(a, was, c);
    UnmarkedParts(a, now, c);
    UnmarkedAt(was, k);
    AllMarked(now);
  }

  lemma ThreeParts(marks: seq<int>, i: nat, j: nat)
    requires i <= j <= |marks|
    ensures marks[..i] + marks[i..j] + marks[j..] == marks
  {
  }

  // Fewer characters are unmarked if one of the replaced was.
  lemma RemarkedFewer(marks: seq<int>, i: nat, j: nat, value: string, k: nat)
    requires i <= k < j <= |marks| && marks[k] < 0
    ensures Unmarked(Remarked(marks, i, j, value)) < Unmarked(marks)
  {
    ThreeParts(marks, i, j);
    FewerUnmarked(marks[..i], marks[i..j], Marks(|value|), marks[j..], k - i);
  }

  lemma {:induction false} RunForward(s: string, marks: seq<int>, value: string, k: nat, t: nat)
    requires RunsOn(s, marks, value) && k < |s| && marks[k] >= 0 && marks[k] + t < |value|
    ensures k + t < |s| && marks[k + t] == marks[k] + t && s[k + t] == value[marks[k] + t]
    decreases t
  {
    assert OnAt(s, marks, value, k);
    if t > 0 {
      RunForward(s, marks, value, k, t - 1);
      assert OnAt(s, marks, value, k + t - 1);
      assert OnAt(s, marks, value, k + t);
    }
  }

  lemma {:induction false} RunBack(s: string, marks: seq<int>, value: string, k: nat, t: nat)
    requires RunsFrom(s, marks, value) && k < |s| && 0 <= t <= marks[k]
    ensures marks[k] < |value| && k >= t && marks[k - t] == marks[k] - t && s[k - t] == value[marks[k] - t]
    decreases t
  {
    assert FromAt(s, marks, value, k);
    if t > 0 {
      RunBack(s, marks, value, k, t - 1);
      assert FromAt(s, marks, value, k - (t - 1));
      assert FromAt(s, marks, value, k - t);
    }
  }

  lemma SameSlice(a: string, x: nat, b: string, y: nat, len: nat)
    requires x + len <= |a| && y + len <= |b| && forall t :: x <= t < x + len ==> a[t] == b[y + t - x]
    ensures a[x..x + len] == b[y..y + len]
  {
  }

  lemma HeadChar(s: string, marks: seq<int>, pat: string, value: string, i: nat, m: nat, t: nat)
    requires RunsOn(s, marks, value) && OccursAt(s, pat, i) && i < |s| && marks[i] == m
    requires t < |pat| && m + t < |value|
    ensures pat[t] == value[m + t]
  {
    RunForward(s, marks, value, i, t);
    assert s[i..i + |pat|][t] == s[i + t];
  }

  // The first len characters of an occurrence that begins in the m-th character of the
  // value.
  lemma SameHead(s: string, marks: seq<int>, pat: string, value: string, i: nat, m: nat, len: nat)
    requires RunsOn(s, marks, value) && OccursAt(s, pat, i) && i < |s| && marks[i] == m
    requires len <= |pat| && m + len <= |value|
    ensures pat[0..len] == value[m..m + len]
  {
    forall t | 0 <= t < len ensures pat[t] == value[m + t - 0] { HeadChar(s, marks, pat, value, i, m, t); }
    SameSlice(pat, 0, value, m, len);
  }

  // The value from m on begins an occurrence, or holds one.
  lemma BeginsThere(s: string, marks: seq<int>, pat: string, value: string, i: nat, m: nat)
    requires RunsOn(s, marks, value) && OccursAt(s, pat, i) && i < |s| && marks[i] == m < |value|
    ensures value[m..] <= pat || Contains(value, pat)
  {
    if |value| - m < |pat| {
      SameHead(s, marks, pat, value, i, m, |value| - m);
      assert value[m..] == value[m..m + (|value| - m)] && pat[0..|value| - m] == pat[..|value| - m];
    } else {
      SameHead(s, marks, pat, value, i, m, |pat|);
      assert pat[0..|pat|] == pat && OccursAt(value, pat, m);
    }
  }

  lemma BeginsUnmarked(s: string, marks: seq<int>, pat: string, value: string, i: nat)
    requires RunsOn(s, marks, value) && OccursAt(s, pat, i) && pat != ""
    requires NeverBegins(pat, value) && !Contains(value, pat)
    ensures marks[i] < 0
  {
    assert OnAt(s, marks, value, i);
    if marks[i] >= 0 {
      BeginsThere(s, marks, pat, value, i, marks[i]);
    }
  }

  lemma TailChar(s: string, marks: seq<int>, pat: string, value: string, i: nat, m: nat, back: nat)
    requires RunsFrom(s, marks, value) && OccursAt(s, pat, i) && pat != "" && marks[i + |pat| - 1] == m
    requires back < |pat| && back <= m < |value|
    ensures pat[|pat| - 1 - back] == value[m - back]
  {
    RunBack(s, marks, value, i + |pat| - 1, back);
    assert s[i..i + |pat|][|pat| - 1 - back] == s[i + |pat| - 1 - back];
  }

  // The last len characters of an occurrence that ends in the m-th character of the
  // value.
  lemma SameTail(s: string, marks: seq<int>, pat: string, value: string, i: nat, m: nat, len: nat)
    requires RunsFrom(s, marks, value) && OccursAt(s, pat, i) && pat != "" && marks[i + |pat| - 1] == m
    requires len <= |pat| && len <= m + 1 <= |value|
    ensures pat[|pat| - len..|pat| - len + len] == value[m + 1 - len..m + 1 - len + len]
  {
    var x, y := |pat| - len, m + 1 - len;
    forall t | x <= t < x + len ensures pat[t] == value[y + t - x] {
      TailChar(s, marks, pat, value, i, m, |pat| - 1 - t);
    }
    SameSlice(pat, x, value, y, len);
  }

  // The value up to m finishes an occurrence, or holds one.
  lemma FinishesThere(s: string, marks: seq<int>, pat: string, value: string, i: nat, m: nat)
    requires RunsFrom(s, marks, value) && OccursAt(s, pat, i) && pat != "" && marks[i + |pat| - 1] == m < |value|
    ensures EndsWith(pat, value[..m + 1]) || Contains(value, pat)
  {
    if m >= |pat| - 1 {
      SameTail(s, marks, pat, value, i, m, |pat|);
      assert pat[0..0 + |pat|] == pat && OccursAt(value, pat, m + 1 - |pat|);
    } else {
      SameTail(s, marks, pat, value, i, m, m + 1);
      assert value[0..0 + (m + 1)] == value[..m + 1];
    }
  }

  lemma FinishesUnmarked(s: string, marks: seq<int>, pat: string, value: string, i: nat)
    requires RunsFrom(s, marks, value) && OccursAt(s, pat, i) && pat != ""
    requires NeverFinishes(pat, value) && !Contains(value, pat)
    ensures marks[i + |pat| - 1] < 0
  {
    assert FromAt(s, marks, value, i + |pat| - 1);
    if marks[i + |pat| - 1] >= 0 {
      FinishesThere(s, marks, pat, value, i, marks[i + |pat| - 1]);
    }
  }

  lemma RunsOnAfter(s: string, marks: seq<int>, pat: string, value: string, i: nat)
    requires RunsOn(s, marks, value) && OccursAt(s, pat, i) && pat != "" && marks[i] < 0
    ensures RunsOn(Replaced(s, pat, value, i), Remarked(marks, i, i + |pat|, value), value)
  {
    var r, after := Replaced(s, pat, value, i), Remarked(marks, i, i + |pat|, value);
    forall k | 0 <= k < |r| ensures OnAt(r, after, value, k) {
      if k < i {
        assert OnAt(s, marks, value, k);
      } else if k >= i + |value| {
        assert OnAt(s, marks, value, k - |value| + |pat|);
      }
    }
  }

  lemma RunsFromAfter(s: string, marks: seq<int>, pat: string, value: string, i: nat)
    requires RunsFrom(s, marks, value) && OccursAt(s, pat, i) && pat != "" && marks[i + |pat| - 1] < 0
    ensures RunsFrom(Replaced(s, pat, value, i), Remarked(marks, i, i + |pat|, value), value)
  {
    var r, after := Replaced(s, pat, value, i), Remarked(marks, i, i + |pat|, value);
    forall k | 0 <= k < |r| ensures FromAt(r, after, value, k) {
      if k < i {
        assert FromAt(s, marks, value, k);
      } else if k >= i + |value| {
        assert FromAt(s, marks, value, k - |value| + |pat|);
      }
    }
  }

  lemma {:induction false} EndsForward(s: string, marks: seq<int>, pat: string, value: string) returns (n: nat)
    requires pat != "" && RunsOn(s, marks, value) && NeverBegins(pat, value) && !Contains(value, pat)
    ensures !Contains(Rounds(s, pat, value, n), pat)
    decreases Unmarked(marks)
  {
    NotFoundIff(s, pat);
    var i := FirstIndex(s, pat);
    if i == -1 {
      n := 0;
    } else {
      BeginsUnmarked(s, marks, pat, value, i);
      RunsOnAfter(s, marks, pat, value, i);
      RemarkedFewer(marks, i, i + |pat|, value, i);
      var m := EndsForward(Replaced(s, pat, value, i), Remarked(marks, i, i + |pat|, value), pat, value);
      n := m + 1;
    }
  }

  lemma {:induction false} EndsBackward(s: string, marks: seq<int>, pat: string, value: string) returns (n: nat)
    requires pat != "" && RunsFrom(s, marks, value) && NeverFinishes(pat, value) && !Contains(value, pat)
    ensures !Contains(Rounds(s, pat, value, n), pat)
    decreases Unmarked(marks)
  {
    NotFoundIff(s, pat);
    var i := FirstIndex(s, pat);
    if i == -1 {
      n := 0;
    } else {
      FinishesUnmarked(s, marks, pat, value, i);
      RunsFromAfter(s, marks, pat, value, i);
      RemarkedFewer(marks, i, i + |pat|, value, i + |pat| - 1);
      var m := EndsBackward(Replaced(s, pat, value, i), Remarked(marks, i, i + |pat|, value), pat, value);
      n := m + 1;
    }
  }

  ghost predicate OneSided(pat: string, value: string) {
    NeverBegins(pat, value) || NeverFinishes(pat, value)
  }

  lemma OneSidedEnds(s: string, pat: string, value: string)
    requires pat != "" && OneSided(pat, value) && !Contains(value, pat)
    ensures Ends(s, pat, value)
  {
    if NeverBegins(pat, value) {
      var n := EndsForward(s, seq(|s|, _ => -1), pat, value);
    } else {
      var n := EndsBackward(s, seq(|s|, _ => -1), pat, value);
    }
  }

  lemma HoldsLast(pat: string, value: string, m: nat)
    requires 0 < m <= |value| && EndsWith(pat, value[..m])
    ensures pat[|pat| - 1] in value
  {
    assert pat[|pat| - m..][m - 1] == pat[|pat| - 1] && value[..m][m - 1] == value[m - 1];
  }

  lemma HoldsEnds(value: string, pat: string)
    requires pat != "" && Contains(value, pat)
    ensures pat[0] in value && pat[|pat| - 1] in value
  {
    var i :| OccursAt(value, pat, i);
    assert value[i..i + |pat|][0] == value[i] && value[i..i + |pat|][|pat| - 1] == value[i + |pat| - 1];
  }

  // A value that lacks the first character of the pattern, or the last.
  lemma LackingIsOneSided(pat: string, value: string)
    requires pat != "" && (pat[0] !in value || pat[|pat| - 1] !in value)
    ensures OneSided(pat, value) && !Contains(value, pat)
  {
    if Contains(value, pat) { HoldsEnds(value, pat); }
    if pat[0] !in value {
      forall m | 0 <= m < |value| ensures !(value[m..] <= pat) {
        assert value[m..][0] == value[m];
      }
    } else {
      forall m | 0 < m <= |value| ensures !EndsWith(pat, value[..m]) {
        if EndsWith(pat, value[..m]) { HoldsLast(pat, value, m); }
      }
    }
  }

  /* A value with at most one opening, or at most one closing, brace. */

  predicate OnlyAt(c: char, s: string, j: int) {
    0 <= j < |s| && s[j] == c && forall i :: 0 <= i < |s| && s[i] == c ==> i == j
  }

  ghost predicate AtMostOne(c: char, s: string) {
    c !in s || exists j :: OnlyAt(c, s, j)
  }

  // The first and the last character of the pattern are nowhere else in it.
  predicate Delimited(pat: string) {
    pat != "" && OnlyAt(pat[0], pat, 0) && OnlyAt(pat[|pat| - 1], pat, |pat| - 1)
  }

  // A character weighs k to the number of c before it.
  function Weight(c: char, k: nat, s: string): nat {
    if s == "" then 0 else 1 + Factor(c, k, s[0]) * Weight(c, k, s[1..])
  }

  function Factor(c: char, k: nat, d: char): nat {
    if d == c then k else 1
  }

  function Scale(c: char, k: nat, s: string): nat {
    if s == "" then 1 else Factor(c, k, s[0]) * Scale(c, k, s[1..])
  }

  lemma Distribute(f: nat, a: nat, b: nat, d: nat)
    ensures f * (a + b * d) == f * a + (f * b) * d
    ensures f * (b * d) == (f * b) * d
  {
  }

  lemma {:induction false} WeightConcat(c: char, k: nat, s: string, t: string)
    ensures Weight(c, k, s + t) == Weight(c, k, s) + Scale(c, k, s) * Weight(c, k, t)
    ensures Scale(c, k, s + t) == Scale(c, k, s) * Scale(c, k, t)
  {
    if s == "" {
      assert s + t == t;
    } else {
      var f, rest := Factor(c, k, s[0]), s[1..];
      assert (s + t)[1..] == rest + t;
      WeightConcat(c, k, rest, t);
      Distribute(f, Weight(c, k, rest), Scale(c, k, rest), Weight(c, k, t));
      Distribute(f, 0, Scale(c, k, rest), Scale(c, k, t));
    }
  }

  lemma {:induction false} PlainWeight(c: char, k: nat, s: string)
    requires c !in s
    ensures Weight(c, k, s) == |s| && Scale(c, k, s) == 1
  {
    if s != "" { PlainWeight(c, k, s[1..]); }
  }

  lemma WeightWithOne(c: char, k: nat, s: string, j: nat)
    requires OnlyAt(c, s, j)
    ensures Weight(c, k, s) == j + 1 + k * (|s| - j - 1) && Scale(c, k, s) == k
  {
    var u, v := s[..j], s[j + 1..];
    assert s == u + s[j..] && s[j..][0] == c && s[j..][1..] == v;
    PlainWeight(c, k, u);
    PlainWeight(c, k, v);
    WeightConcat(c, k, u, s[j..]);
  }

  lemma Scaled(f: nat, x: nat, y: nat)
    requires f > 0 && x < y
    ensures f * x < f * y
  {
  }

  lemma LighterInFront(c: char, k: nat, p: string, v: string, b: string)
    requires Weight(c, k, v) < Weight(c, k, p) && Scale(c, k, v) == Scale(c, k, p)
    ensures Weight(c, k, v + b) < Weight(c, k, p + b)
  {
    WeightConcat(c, k, v, b);
    WeightConcat(c, k, p, b);
  }

  lemma {:induction false} LighterInside(c: char, k: nat, a: string, p: string, v: string)
    requires k > 0 && Weight(c, k, v) < Weight(c, k, p)
    ensures Weight(c, k, a + v) < Weight(c, k, a + p)
  {
    if a == "" {
      assert a + v == v && a + p == p;
    } else {
      assert (a + v)[1..] == a[1..] + v && (a + p)[1..] == a[1..] + p;
      LighterInside(c, k, a[1..], p, v);
      Scaled(Factor(c, k, a[0]), Weight(c, k, a[1..] + v), Weight(c, k, a[1..] + p));
    }
  }

  // The value weighs less than the pattern wherever it takes its place.
  ghost predicate Lighter(weigh: string -> nat, pat: string, value: string) {
    forall a, b {:trigger weigh(a + (value + b))} :: weigh(a + (value + b)) < weigh(a + (pat + b))
  }

  function Reversed(s: string): (r: string)
    ensures |r| == |s| && forall i :: 0 <= i < |s| ==> r[i] == s[|s| - 1 - i]
  {
    seq(|s|, i requires 0 <= i < |s| => s[|s| - 1 - i])
  }

  // The text, read from its end if back is set.
  function View(s: string, back: bool): string {
    if back then Reversed(s) else s
  }

  function Weigh(c: char, k: nat, back: bool): string -> nat {
    s => Weight(c, k, View(s, back))
  }

  lemma LighterThere(c: char, k: nat, back: bool, a: string, pat: string, value: string, b: string)
    requires k > 0 && Weight(c, k, View(value, back)) < Weight(c, k, View(pat, back))
    requires Scale(c, k, View(value, back)) == Scale(c, k, View(pat, back))
    ensures Weight(c, k, View(a + (value + b), back)) < Weight(c, k, View(a + (pat + b), back))
  {
    var p, v, left, right := View(pat, back), View(value, back), View(a, back), View(b, back);
    if back {
      assert View(a + (value + b), back) == right + (v + left) && View(a + (pat + b), back) == right + (p + left);
      LighterInFront(c, k, p, v, left);
      LighterInside(c, k, right, p + left, v + left);
    } else {
      LighterInFront(c, k, p, v, right);
      LighterInside(c, k, left, p + right, v + right);
    }
  }

  lemma LighterEverywhere(c: char, k: nat, back: bool, pat: string, value: string)
    requires k > 0 && Weight(c, k, View(value, back)) < Weight(c, k, View(pat, back))
    requires Scale(c, k, View(value, back)) == Scale(c, k, View(pat, back))
    ensures Lighter(Weigh(c, k, back), pat, value)
  {
    forall a, b
      ensures Weigh(c, k, back)(a + (value + b)) < Weigh(c, k, back)(a + (pat + b))
    {
      LighterThere(c, k, back, a, pat, value, b);
    }
  }

  lemma LighterAfter(s: string, pat: string, value: string, i: nat, weigh: string -> nat)
    requires Lighter(weigh, pat, value) && OccursAt(s, pat, i)
    ensures weigh(Replaced(s, pat, value, i)) < weigh(s)
  {
    var head, tail := s[..i], s[i + |pat|..];
    assert s == head + (pat + tail);
    assert Replaced(s, pat, value, i) == head + (value + tail);
  }

  lemma {:induction false} LighterEnds(
    s: string, pat: string, value: string, weigh: string -> nat) returns (n: nat)
    requires Lighter(weigh, pat, value)
    ensures !Contains(Rounds(s, pat, value, n), pat)
    decreases weigh(s)
  {
    NotFoundIff(s, pat);
    var i := FirstIndex(s, pat);
    if i == -1 {
      n := 0;
    } else {
      LighterAfter(s, pat, value, i, weigh);
      var m := LighterEnds(Replaced(s, pat, value, i), pat, value, weigh);
      n := m + 1;
    }
  }

  // The pattern starts with c, which is nowhere else in it, and the value has c once,
  // with less behind it.
  lemma ShortTailEnds(s: string, pat: string, value: string, back: bool, c: char, j: nat)
    requires OnlyAt(c, View(pat, back), 0) && OnlyAt(c, View(value, back), j) && |value| - j < |pat|
    ensures Ends(s, pat, value)
  {
    WeightWithOne(c, j + 1, View(pat, back), 0);
    WeightWithOne(c, j + 1, View(value, back), j);
    TailLighter(j, |pat| - 1, |value| - j - 1);
    LighterEverywhere(c, j + 1, back, pat, value);
    var n := LighterEnds(s, pat, value, Weigh(c, j + 1, back));
  }

  lemma TailLighter(j: nat, p: nat, v: nat)
    requires v < p
    ensures j + 1 + (j + 1) * v < 1 + (j + 1) * p
  {
    assert (j + 1) * p >= (j + 1) * (v + 1);
  }

  lemma LongTailNeverBegins(pat: string, value: string, j: nat)
    requires pat != "" && OnlyAt(pat[0], value, j) && |value| - j >= |pat| && !Contains(value, pat)
    ensures NeverBegins(pat, value)
  {
    assert !OccursAt(value, pat, j);
    assert |value| - j == |pat| ==> value[j..] == value[j..j + |pat|];
    forall m | 0 <= m < |value| ensures !(value[m..] <= pat) {
      assert value[m..][0] == value[m];
    }
  }

  lemma LongHeadNeverFinishes(pat: string, value: string, j: nat)
    requires pat != "" && OnlyAt(pat[|pat| - 1], value, j) && j + 1 >= |pat| && !Contains(value, pat)
    ensures NeverFinishes(pat, value)
  {
    assert !OccursAt(value, pat, 0);
    forall m | 0 < m <= |value| ensures !EndsWith(pat, value[..m]) {
      if m == j + 1 {
        assert m == |pat| ==> pat[|pat| - m..] == pat && value[0..0 + m] == value[..m];
      } else if m <= |pat| {
        assert pat[|pat| - m..][m - 1] == pat[|pat| - 1] && value[..m][m - 1] == value[m - 1];
      }
    }
  }

  lemma OneOpeningEnds(s: string, pat: string, value: string, j: nat)
    requires Delimited(pat) && OnlyAt(pat[0], value, j) && !Contains(value, pat)
    ensures Ends(s, pat, value)
  {
    if |value| - j < |pat| {
      ShortTailEnds(s, pat, value, false, pat[0], j);
    } else {
      LongTailNeverBegins(pat, value, j);
      OneSidedEnds(s, pat, value);
    }
  }

  lemma OneClosingEnds(s: string, pat: string, value: string, j: nat)
    requires Delimited(pat) && OnlyAt(pat[|pat| - 1], value, j) && !Contains(value, pat)
    ensures Ends(s, pat, value)
  {
    if j + 1 < |pat| {
      ReversedOnlyAt(pat[|pat| - 1], pat, |pat| - 1);
      ReversedOnlyAt(pat[|pat| - 1], value, j);
      ShortTailEnds(s, pat, value, true, pat[|pat| - 1], |value| - 1 - j);
    } else {
      LongHeadNeverFinishes(pat, value, j);
      OneSidedEnds(s, pat, value);
    }
  }

  lemma ReversedOnlyAt(c: char, s: string, j: nat)
    requires OnlyAt(c, s, j)
    ensures OnlyAt(c, Reversed(s), |s| - 1 - j)
  {
  }

  /* Together. */

  ghost predicate FewBraces(pat: string, value: string)
    requires pat != ""
  {
    AtMostOne(pat[0], value) || AtMostOne(pat[|pat| - 1], value)
  }

  // All values but those with two or more of both braces that can begin and finish an
  // occurrence without holding one.
  ghost predicate Settled(pat: string, value: string)
    requires pat != ""
  {
    FewBraces(pat, value) || OneSided(pat, value) || Contains(value, pat)
  }

  lemma FewBracesEnd(s: string, pat: string, value: string)
    requires Delimited(pat) && FewBraces(pat, value) && !Contains(value, pat)
    ensures Ends(s, pat, value)
  {
    var first, last := pat[0], pat[|pat| - 1];
    if first !in value || last !in value {
      LackingIsOneSided(pat, value);
      OneSidedEnds(s, pat, value);
    } else if j: nat :| OnlyAt(first, value, j) {
      OneOpeningEnds(s, pat, value, j);
    } else {
      var j: nat :| OnlyAt(last, value, j);
      OneClosingEnds(s, pat, value, j);
    }
  }

  // The rescan ends exactly if the value does not contain the pattern or the text does
  // not.
  lemma EndsIff(s: string, pat: string, value: string)
    requires Delimited(pat) && Settled(pat, value)
    ensures Ends(s, pat, value) <==> !Contains(value, pat) || !Contains(s, pat)
  {
    if Contains(value, pat) {
      RescanNeverEnds(s, pat, value);
    } else if OneSided(pat, value) {
      OneSidedEnds(s, pat, value);
    } else {
      FewBracesEnd(s, pat, value);
    }
  }

  /* A value that can do both, and never ends although it does not contain the pattern. */

  const PUMP := "s}s}{o{o"
  const PUMPED := "{o{os}"

  lemma FirstAfter(pre: string, text: string, pat: string, i: nat)
    requires pat != "" && pat[0] !in pre && FirstIndex(text, pat) == i
    ensures FirstIndex(pre + text, pat) == |pre| + i
  {
    var s := pre + text;
    assert OccursAt(text, pat, i);
    assert s[|pre| + i..|pre| + i + |pat|] == text[i..i + |pat|];
    forall j | 0 <= j < |pre| + i ensures !OccursAt(s, pat, j) {
      if OccursAt(s, pat, j) {
        if j >= |pre| { OccursInRest(pre, text, pat, j); } else { StartsWithFirst(s, pat, j); }
      }
    }
    FirstIndexIs(s, pat, |pre| + i);
  }

  lemma FirstHalf(post: string)
    ensures FirstIndex(PUMPED + post, "{os}") == 2
    ensures Replaced(PUMPED + post, "{os}", PUMP, 2) == "{os}s}{o{o" + post
  {
    var s := PUMPED + post;
    assert s[2..6] == "{os}";
    assert s[1] == 'o' && s[0..4] == "{o{o";
    FirstIndexIs(s, "{os}", 2);
  }

  lemma SecondHalf(post: string)
    ensures FirstIndex("{os}s}{o{o" + post, "{os}") == 0
    ensures Replaced("{os}s}{o{o" + post, "{os}", PUMP, 0) == "s}s}" + (PUMPED + ("{o{o" + post))
  {
    var s := "{os}s}{o{o" + post;
    assert s[0..4] == "{os}";
    FirstIndexIs(s, "{os}", 0);
    assert s[4..] == "s}{o{o" + post;
  }

  lemma ReplacedAfter(pre: string, s: string, pat: string, value: string, i: nat)
    requires i + |pat| <= |s|
    ensures Replaced(pre + s, pat, value, |pre| + i) == pre + Replaced(s, pat, value, i)
  {
    assert (pre + s)[..|pre| + i] == pre + s[..i] && (pre + s)[|pre| + i + |pat|..] == s[i + |pat|..];
  }

  // The round finds and replaces in s what it does in pre + s.
  lemma RoundAfter(pre: string, s: string, pat: string, value: string, i: nat, r: string)
    requires pat != "" && pat[0] !in pre && FirstIndex(s, pat) == i && Replaced(s, pat, value, i) == r
    ensures FirstIndex(pre + s, pat) == |pre| + i && Replaced(pre + s, pat, value, |pre| + i) == pre + r
  {
    FirstAfter(pre, s, pat, i);
    ReplacedAfter(pre, s, pat, value, i);
  }

  ghost predicate Whole(s: string, pre: string, post: string) {
    '{' !in pre && s == pre + (PUMPED + post)
  }

  ghost predicate Half(s: string, pre: string, post: string) {
    '{' !in pre && s == pre + ("{os}s}{o{o" + post)
  }

  ghost const PUMPING := iset s | exists pre, post :: Whole(s, pre, post) || Half(s, pre, post)

  lemma WholeIsIn(s: string, pre: string, post: string)
    requires Whole(s, pre, post)
    ensures StaysWithin(PUMPING, s, "{os}", PUMP)
  {
    FirstHalf(post);
    RoundAfter(pre, PUMPED + post, "{os}", PUMP, 2, "{os}s}{o{o" + post);
    assert Half(pre + ("{os}s}{o{o" + post), pre, post);
  }

  lemma HalfIsIn(s: string, pre: string, post: string)
    requires Half(s, pre, post)
    ensures StaysWithin(PUMPING, s, "{os}", PUMP)
  {
    SecondHalf(post);
    RoundAfter(pre, "{os}s}{o{o" + post, "{os}", PUMP, 0, "s}s}" + (PUMPED + ("{o{o" + post)));
    assert pre + ("s}s}" + (PUMPED + ("{o{o" + post))) == (pre + "s}s}") + (PUMPED + ("{o{o" + post));
    assert Whole(pre + ("s}s}" + (PUMPED + ("{o{o" + post))), pre + "s}s}", "{o{o" + post);
  }

  lemma PumpDoesBoth()
    ensures !Settled("{os}", PUMP)
  {
    assert PUMP[4] == PUMP[6] == '{' && PUMP[1] == PUMP[3] == '}';
    assert PUMP[6..] == "{o" && "{o" <= "{os}";
    assert PUMP[..2] == "s}" && "{os}"[2..] == "s}" && EndsWith("{os}", PUMP[..2]);
    forall i ensures !OccursAt(PUMP, "{os}", i) {
      if 0 <= i <= |PUMP| - 4 { assert PUMP[i..i + 4][3] == PUMP[i + 3] && PUMP[i..i + 4][0] == PUMP[i]; }
    }
  }

  // The value s}s}{o{o, which has no more than two of either brace, does not contain {os},
  // and yet the rescan of {o{os} never ends: two rounds turn the text into itself with
  // more around it.
  lemma PumpNeverEnds()
    ensures !Settled("{os}", PUMP) && !Ends(PUMPED, "{os}", PUMP)
  {
    PumpDoesBoth();
    forall s | s in PUMPING ensures StaysWithin(PUMPING, s, "{os}", PUMP) {
      var pre, post :| Whole(s, pre, post) || Half(s, pre, post);
      if Whole(s, pre, post) { WholeIsIn(s, pre, post); } else { HalfIsIn(s, pre, post); }
    }
    assert Whole(PUMPED, "", "");
    NeverEndsWithin(PUMPING, PUMPED, "{os}", PUMP);
  }
}
