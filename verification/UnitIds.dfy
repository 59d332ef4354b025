// Work-unit identifiers (internal/manager/queue/queue.go, NextID) and the text a
// worker signs (internal/client/worker/worker.go, canonicalSignaturePayload).
module UnitIds {
  function Digit(d: nat): char
    requires d < 10
  {
    "0123456789"[d]
  }

  function Decimal(n: nat): (s: string)
    ensures |s| > 0 && forall c | c in s :: '0' <= c <= '9'
  {
    if n < 10 then [Digit(n)] else Decimal(n / 10) + [Digit(n % 10)]
  }

  // The number that a reader takes decimal digits for.
  function Parsed(s: string): int {
    if s == "" then 0 else 10 * Parsed(s[..|s| - 1]) + (s[|s| - 1] as int - '0' as int)
  }

  lemma {:induction false} DecimalReadsBack(n: nat)
    ensures Parsed(Decimal(n)) == n
  {
    var s := Decimal(n);
    if n >= 10 {
      DecimalReadsBack(n / 10);
      assert s[..|s| - 1] == Decimal(n / 10);
    } else {
      assert s[..|s| - 1] == "";
    }
  }

  lemma DecimalInjective(m: nat, n: nat)
    requires Decimal(m) == Decimal(n)
    ensures m == n
  {
    DecimalReadsBack(m);
    DecimalReadsBack(n);
  }

  lemma CharOfPrefix(a: string, rest: string, k: nat)
    requires k < |a|
    ensures (a + rest)[k] in a
  {
  }

  lemma CharOfSuffix(rest: string, b: string, k: nat)
    requires |rest| <= k < |rest + b|
    ensures (rest + b)[k] in b
  {
  }

  // A separator that does not occur on one side of it splits a text in one way.
  lemma SplitAtFirst(a: string, b: string, c: string, d: string, sep: char)
    requires a + [sep] + b == c + [sep] + d && sep !in a && sep !in c
    ensures a == c && b == d
  {
    var s := a + [sep] + b;
    assert s == a + ([sep] + b) == c + ([sep] + d);
    if |a| < |c| {
      CharOfPrefix(c, [sep] + d, |a|);
    } else if |c| < |a| {
      CharOfPrefix(a, [sep] + b, |c|);
    }
    assert a == s[..|a|] && c == s[..|c|];
    assert b == s[|a| + 1..] && d == s[|c| + 1..];
  }

  lemma SplitAtLast(a: string, b: string, c: string, d: string, sep: char)
    requires a + [sep] + b == c + [sep] + d && sep !in b && sep !in d
    ensures a == c && b == d
  {
    var s := a + [sep] + b;
    if |a| < |c| {
      CharOfSuffix(a + [sep], b, |c|);
    } else if |c| < |a| {
      CharOfSuffix(c + [sep], d, |a|);
    }
    assert a == s[..|a|] && c == s[..|c|];
    assert b == s[|a| + 1..] && d == s[|c| + 1..];
  }

  // wu-<milliseconds>-<counter>
  function UnitId(ms: nat, counter: nat): string {
    "wu-" + Decimal(ms) + "-" + Decimal(counter)
  }

  // The prefix and the separators.
  lemma UnitIdReadsBack(ms: nat, counter: nat) returns (a: string, b: string)
    ensures UnitId(ms, counter) == "wu-" + a + "-" + b && Parsed(a) == ms && Parsed(b) == counter
  {
    a, b := Decimal(ms), Decimal(counter);
    DecimalReadsBack(ms);
    DecimalReadsBack(counter);
  }

  lemma UnitIdDetermines(ms: nat, counter: nat, ms': nat, counter': nat)
    requires UnitId(ms, counter) == UnitId(ms', counter')
    ensures ms == ms' && counter == counter'
  {
    SplitAtLast("wu-" + Decimal(ms), Decimal(counter), "wu-" + Decimal(ms'), Decimal(counter'), '-');
    assert Decimal(ms) == ("wu-" + Decimal(ms))[3..] && Decimal(ms') == ("wu-" + Decimal(ms'))[3..];
    DecimalInjective(ms, ms');
    DecimalInjective(counter, counter');
  }

  // <id>:<output>:<milliseconds>
  function SignaturePayload(id: string, output: string, ms: nat): string {
    id + ":" + output + ":" + Decimal(ms)
  }

  lemma PayloadReadsBack(id: string, output: string, ms: nat) returns (time: string)
    ensures SignaturePayload(id, output, ms) == id + ":" + output + ":" + time && Parsed(time) == ms
  {
    time := Decimal(ms);
    DecimalReadsBack(ms);
  }

  // A signature binds the unit, the output and the time, for identifiers without
  // a colon, such as every one that NextID makes.
  lemma PayloadDetermines(id: string, output: string, ms: nat, id': string, output': string, ms': nat)
    requires ':' !in id && ':' !in id'
    requires SignaturePayload(id, output, ms) == SignaturePayload(id', output', ms')
    ensures id == id' && output == output' && ms == ms'
  {
    SplitAtLast(id + ":" + output, Decimal(ms), id' + ":" + output', Decimal(ms'), ':');
    DecimalInjective(ms, ms');
    SplitAtFirst(id, output, id', output', ':');
  }

  lemma UnitIdHasNoColon(ms: nat, counter: nat)
    ensures ':' !in UnitId(ms, counter)
  {
  }

  lemma ColonsWouldCollide()
    ensures SignaturePayload("a:b", "c", 1) == SignaturePayload("a", "b:c", 1)
  {
    assert "a:b" + ":" + "c" == "a" + ":" + "b:c";
  }
}
