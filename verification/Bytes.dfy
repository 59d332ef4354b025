// Bytes and the fixed-width integers of the two binary formats the manager and
// the client write: Mach-O / code-signing blobs and the ICO container.
module Bytes {
  type Byte = b: int | 0 <= b < 256
  type UInt32 = w: int | 0 <= w < 0x1_0000_0000

  const TWO_32: int := 0x1_0000_0000

  // Go's uint32 arithmetic wraps around.
  function Add32(a: UInt32, b: UInt32): UInt32 {
    if a + b < TWO_32 then a + b else a + b - TWO_32
  }

  function Mul32(a: UInt32, b: UInt32): UInt32 {
    (a * b) % TWO_32
  }

  // The number whose bytes these are, the lowest one first.
  function Number(s: seq<Byte>): nat {
    if s == [] then 0 else s[0] + 0x100 * Number(s[1..])
  }

  lemma Number2(b0: Byte, b1: Byte)
    ensures Number([b0, b1]) == b0 + 0x100 * b1
  {
    assert [b0, b1][1..] == [b1] && [b1][1..] == [];
    assert Number([b1]) == b1;
  }

  lemma Number4(b0: Byte, b1: Byte, b2: Byte, b3: Byte)
    ensures Number([b0, b1, b2, b3]) == b0 + 0x100 * b1 + 0x1_0000 * b2 + 0x100_0000 * b3
  {
    assert [b0, b1, b2, b3][1..] == [b1, b2, b3] && [b1, b2, b3][1..] == [b2, b3];
    Number2(b2, b3);
  }

  function LE16(s: seq<Byte>, off: nat): nat
    requires off + 2 <= |s|
  {
    Number([s[off], s[off + 1]])
  }

  function LE32(s: seq<Byte>, off: nat): UInt32
    requires off + 4 <= |s|
  {
    Number4(s[off], s[off + 1], s[off + 2], s[off + 3]);
    Number([s[off], s[off + 1], s[off + 2], s[off + 3]])
  }

  function BE32(s: seq<Byte>, off: nat): UInt32
    requires off + 4 <= |s|
  {
    Number4(s[off + 3], s[off + 2], s[off + 1], s[off]);
    Number([s[off + 3], s[off + 2], s[off + 1], s[off]])
  }

  // The encoders take any natural number and keep its low bytes, as the
  // conversions uint16(v) and uint32(v) do.
  function PutLE16(v: nat): (s: seq<Byte>)
    ensures |s| == 2
  {
    [v % 0x100, v / 0x100 % 0x100]
  }

  function PutLE32(v: nat): (s: seq<Byte>)
    ensures |s| == 4
  {
    PutLE16(v) + PutLE16(v / 0x1_0000)
  }

  function PutBE32(v: nat): (s: seq<Byte>)
    ensures |s| == 4
  {
    [v / 0x100_0000 % 0x100, v / 0x1_0000 % 0x100, v / 0x100 % 0x100, v % 0x100]
  }

  // Which byte counts for how much.
  lemma Positions(s: seq<Byte>, off: nat, b0: nat, b1: nat, b2: nat, b3: nat)
    requires off + 4 <= |s| && b0 < 0x100 && b1 < 0x100 && b2 < 0x100 && b3 < 0x100
    requires s[off..off + 4] == [b0, b1, b2, b3]
    ensures LE16(s, off) == b0 + 0x100 * b1
    ensures LE32(s, off) == b0 + 0x100 * b1 + 0x1_0000 * b2 + 0x100_0000 * b3
    ensures BE32(s, off) == 0x100_0000 * b0 + 0x1_0000 * b1 + 0x100 * b2 + b3
  {
    var e := s[off..off + 4];
    assert s[off] == e[0] && s[off + 1] == e[1] && s[off + 2] == e[2] && s[off + 3] == e[3];
    Number2(b0, b1);
    Number4(b0, b1, b2, b3);
    Number4(b3, b2, b1, b0);
  }

  lemma WrapsAround(a: UInt32, b: UInt32)
    ensures Add32(a, b) == (a + b) % 0x1_0000_0000 && Mul32(a, b) == (a * b) % 0x1_0000_0000
  {
  }

  lemma ReadPutLE16(v: nat, s: seq<Byte>, off: nat)
    requires off + 2 <= |s| && s[off..off + 2] == PutLE16(v)
    ensures LE16(s, off) == v % 0x1_0000
  {
    assert s[off] == s[off..off + 2][0] && s[off + 1] == s[off..off + 2][1];
    Number2(s[off], s[off + 1]);
    SplitAt8(v);
  }

  lemma ReadPutLE32(v: nat, s: seq<Byte>, off: nat)
    requires off + 4 <= |s| && s[off..off + 4] == PutLE32(v)
    ensures LE32(s, off) == v % TWO_32
  {
    assert s[off..off + 2] == s[off..off + 4][..2] == PutLE16(v);
    assert s[off + 2..off + 4] == s[off..off + 4][2..] == PutLE16(v / 0x1_0000);
    ReadPutLE16(v, s, off);
    ReadPutLE16(v / 0x1_0000, s, off + 2);
    Number2(s[off], s[off + 1]);
    Number2(s[off + 2], s[off + 3]);
    Number4(s[off], s[off + 1], s[off + 2], s[off + 3]);
    SplitAt16(v);
  }

  lemma ReadPutBE32(v: nat, s: seq<Byte>, off: nat)
    requires off + 4 <= |s| && s[off..off + 4] == PutBE32(v)
    ensures BE32(s, off) == v % TWO_32
  {
    var e := s[off..off + 4];
    assert s[off] == e[0] && s[off + 1] == e[1] && s[off + 2] == e[2] && s[off + 3] == e[3];
    Number4(e[3], e[2], e[1], e[0]);
    SplitAt8(v);
    SplitAt8(v / 0x1_0000);
    SplitAt16(v);
  }

  lemma SplitAt8(v: nat)
    ensures v % 0x100 + 0x100 * (v / 0x100 % 0x100) == v % 0x1_0000
  {
    var hi := v / 0x100;
    assert v == v % 0x100 + 0x100 * (hi % 0x100) + 0x1_0000 * (hi / 0x100);
  }

  lemma SplitAt16(v: nat)
    ensures v % 0x1_0000 + 0x1_0000 * (v / 0x1_0000 % 0x1_0000) == v % TWO_32
  {
    var hi := v / 0x1_0000;
    assert v == v % 0x1_0000 + 0x1_0000 * (hi % 0x1_0000) + TWO_32 * (hi / 0x1_0000);
  }
}
