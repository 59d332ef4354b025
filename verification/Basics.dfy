// What several modules share: options, Go's division and copy, and windows.
module Basics {
  datatype Option<T> = None | Some(value: T)

  // Go's integer division, for a positive divisor.
  function Quotient(a: int, b: int): int
    requires b > 0
  {
    if a >= 0 then a / b else -(-a / b)
  }

  // It drops the fraction, towards zero.
  lemma QuotientTruncates(a: int, b: int)
    requires b > 0
    ensures a >= 0 ==> Quotient(a, b) * b <= a < Quotient(a, b) * b + b
    ensures a <= 0 ==> Quotient(a, b) * b - b < a <= Quotient(a, b) * b
  {
  }

  lemma MulMonotone(m: int, n: int, step: int)
    requires m <= n && step >= 0
    ensures m * step <= n * step
  {
  }

  function LastOnes<T>(s: seq<T>, n: nat): seq<T> {
    if |s| <= n then s else s[|s| - n..]
  }

  // The last n, or all if there are fewer.
  lemma LastOnesEnd<T>(s: seq<T>, n: nat)
    ensures |LastOnes(s, n)| == (if |s| < n then |s| else n)
    ensures s == s[..|s| - |LastOnes(s, n)|] + LastOnes(s, n)
  {
  }

  lemma LastOnesSnoc<T>(s: seq<T>, n: nat, x: T)
    ensures LastOnes(s + [x], n) == LastOnes(LastOnes(s, n) + [x], n)
  {
    if |s| >= n && n > 0 {
      assert (s + [x])[|s| + 1 - n..] == s[|s| - n..][1..] + [x];
    }
  }

  // Go's copy, into the part of data that starts at the given position.
  method CopyInto<T>(data: array<T>, at: nat, src: seq<T>)
    requires at + |src| <= data.Length
    modifies data
    ensures data[..] == old(data[..at]) + src + old(data[at + |src|..])
  {
    forall k | 0 <= k < |src| {
      data[at + k] := src[k];
    }
  }
}
