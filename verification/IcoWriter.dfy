// The ICO container that wraps the tray icons
// (internal/client/tray/icons_windows.go:70-112).
module IcoWriter {
  import opened Bytes

  type Image = seq<Byte>

  const DIR_SIZE := 6
  const ENTRY_SIZE := 16

  // The width or height of an image, 0 for images too short to have one.
  function Dimension(p: Image, at: nat): UInt32
    requires at + 4 <= 24
  {
    if |p| >= 24 then BE32(p, at) else 0
  }

  // As a directory byte; 0 stands for 256 and more.
  function DimensionByte(d: UInt32): Byte {
    if d >= 256 then 0 else d
  }

  function EntryStart(i: nat): nat {
    DIR_SIZE + ENTRY_SIZE * i
  }

  // Where image i belongs, without wrap-around.
  function Offset(pngs: seq<Image>, i: nat): nat
    requires i <= |pngs|
  {
    if i == 0 then EntryStart(|pngs|) else Offset(pngs, i - 1) + |pngs[i - 1]|
  }

  function EntryHead(p: Image): (e: seq<Byte>)
    ensures |e| == 8
  {
    [DimensionByte(Dimension(p, 16)), DimensionByte(Dimension(p, 20)), 0, 0] + PutLE16(1) + PutLE16(32)
  }

  function Entry(p: Image, offset: UInt32): (e: seq<Byte>)
    ensures |e| == ENTRY_SIZE
  {
    EntryHead(p) + PutLE32(|p|) + PutLE32(offset)
  }

  function Entries(pngs: seq<Image>, i: nat): (e: seq<Byte>)
    requires i <= |pngs|
    ensures |e| == ENTRY_SIZE * i
  {
    if i == 0 then [] else Entries(pngs, i - 1) + Entry(pngs[i - 1], Offset(pngs, i - 1) % TWO_32)
  }

  function Body(pngs: seq<Image>, i: nat): (b: seq<Byte>)
    requires i <= |pngs|
    ensures |b| == Offset(pngs, i) - Offset(pngs, 0)
  {
    if i == 0 then [] else Body(pngs, i - 1) + pngs[i - 1]
  }

  function Header(n: nat): (h: seq<Byte>)
    ensures |h| == DIR_SIZE
  {
    PutLE16(0) + PutLE16(1) + PutLE16(n)
  }

  function Packed(pngs: seq<Image>): seq<Byte> {
    Header(|pngs|) + Entries(pngs, |pngs|) + Body(pngs, |pngs|)
  }

  lemma AddWraps(a: nat, b: nat)
    ensures Add32(a % TWO_32, b % TWO_32) == (a + b) % TWO_32
  {
  }

  method ToByte(d: UInt32) returns (b: Byte)
    ensures b == DimensionByte(d)
  {
    b := d % 256;
    if d >= 256 {
      b := 0;
    }
  }

  method ReadDimensions(p: Image) returns (width: UInt32, height: UInt32)
    ensures width == Dimension(p, 16) && height == Dimension(p, 20)
  {
    width, height := 0, 0;
    if |p| >= 24 {
      width, height := BE32(p, 16), BE32(p, 20);
    }
  }

  method PackICO(pngs: seq<Image>) returns (buf: seq<Byte>)
    ensures buf == Packed(pngs)
  {
    var body: seq<Byte>, entries: seq<Byte> := [], [];
    var imageOffset: UInt32 := (EntryStart(|pngs|)) % TWO_32;
    for i := 0 to |pngs|
      invariant imageOffset == Offset(pngs, i) % TWO_32
      invariant entries == Entries(pngs, i)
      invariant body == Body(pngs, i)
    {
      var p := pngs[i];
      var width, height := ReadDimensions(p);
      var w := ToByte(width);
      var h := ToByte(height);
      var head := [w, h, 0, 0] + PutLE16(1) + PutLE16(32);
      assert head == EntryHead(p);
      entries := entries + (head + PutLE32(|p|) + PutLE32(imageOffset));
      AddWraps(Offset(pngs, i), |p|);
      imageOffset := Add32(imageOffset, |p| % TWO_32);
      body := body + p;
    }
    buf := PutLE16(0) + PutLE16(1) + PutLE16(|pngs|);
    buf := buf + entries;
    buf := buf + body;
  }

  /* A reader of the container. */

  function ReadCount(buf: seq<Byte>): nat
    requires |buf| >= DIR_SIZE
  {
    LE16(buf, 4)
  }

  function ReadSize(buf: seq<Byte>, i: nat): UInt32
    requires EntryStart(i + 1) <= |buf|
  {
    LE32(buf, EntryStart(i) + 8)
  }

  function ReadOffset(buf: seq<Byte>, i: nat): UInt32
    requires EntryStart(i + 1) <= |buf|
  {
    LE32(buf, EntryStart(i) + 12)
  }

  lemma {:induction false} OffsetsAscend(pngs: seq<Image>, i: nat, j: nat)
    requires i <= j <= |pngs|
    ensures Offset(pngs, i) <= Offset(pngs, j)
    decreases j
  {
    if i < j { OffsetsAscend(pngs, i, j - 1); }
  }

  lemma {:induction false} EntryAt(pngs: seq<Image>, i: nat, n: nat)
    requires i < n <= |pngs|
    ensures ENTRY_SIZE * (i + 1) <= |Entries(pngs, n)|
    ensures Entries(pngs, n)[ENTRY_SIZE * i..ENTRY_SIZE * (i + 1)] == Entry(pngs[i], Offset(pngs, i) % TWO_32)
    decreases n
  {
    var before := Entries(pngs, n - 1);
    if i < n - 1 {
      EntryAt(pngs, i, n - 1);
      assert Entries(pngs, n)[ENTRY_SIZE * i..ENTRY_SIZE * (i + 1)] == before[ENTRY_SIZE * i..ENTRY_SIZE * (i + 1)];
    } else {
      var entry := Entry(pngs[i], Offset(pngs, i) % TWO_32);
      assert |before| == ENTRY_SIZE * i && |entry| == ENTRY_SIZE;
      assert (before + entry)[|before|..|before| + ENTRY_SIZE] == entry;
    }
  }

  lemma {:induction false} BodyAt(pngs: seq<Image>, i: nat, n: nat)
    requires i < n <= |pngs|
    ensures 0 <= Offset(pngs, i) - Offset(pngs, 0) <= Offset(pngs, i + 1) - Offset(pngs, 0) <= |Body(pngs, n)|
    ensures Body(pngs, n)[Offset(pngs, i) - Offset(pngs, 0)..Offset(pngs, i + 1) - Offset(pngs, 0)] == pngs[i]
    decreases n
  {
    OffsetsAscend(pngs, 0, i);
    OffsetsAscend(pngs, i + 1, n);
    if i < n - 1 {
      BodyAt(pngs, i, n - 1);
    }
  }

  lemma EntryFields(p: Image, offset: UInt32)
    ensures Entry(p, offset)[8..12] == PutLE32(|p|) && Entry(p, offset)[12..16] == PutLE32(offset)
    ensures Entry(p, offset)[0] == DimensionByte(Dimension(p, 16))
    ensures Entry(p, offset)[1] == DimensionByte(Dimension(p, 20))
  {
    var head, size, off := EntryHead(p), PutLE32(|p|), PutLE32(offset);
    assert (head + size + off)[8..12] == size && (head + size + off)[12..16] == off;
  }

  lemma SliceOfSlice(buf: seq<Byte>, at: nat, to: nat, i: nat, j: nat)
    requires at <= to <= |buf| && i <= j <= to - at
    ensures buf[at..to][i..j] == buf[at + i..at + j]
  {
    assert |buf[at..to][i..j]| == |buf[at + i..at + j]|;
    assert forall k :: 0 <= k < j - i ==> buf[at..to][i..j][k] == buf[at + i..at + j][k];
  }

  lemma SizeFromEntry(buf: seq<Byte>, i: nat, p: Image, offset: UInt32)
    requires EntryStart(i + 1) <= |buf| && buf[EntryStart(i)..EntryStart(i + 1)] == Entry(p, offset)
    ensures ReadSize(buf, i) == |p| % TWO_32
  {
    EntryFields(p, offset);
    SliceOfSlice(buf, EntryStart(i), EntryStart(i + 1), 8, 12);
    ReadPutLE32(|p|, buf, EntryStart(i) + 8);
  }

  lemma OffsetFromEntry(buf: seq<Byte>, i: nat, p: Image, offset: UInt32)
    requires EntryStart(i + 1) <= |buf| && buf[EntryStart(i)..EntryStart(i + 1)] == Entry(p, offset)
    ensures ReadOffset(buf, i) == offset % TWO_32
  {
    EntryFields(p, offset);
    SliceOfSlice(buf, EntryStart(i), EntryStart(i + 1), 12, 16);
    ReadPutLE32(offset, buf, EntryStart(i) + 12);
  }

  lemma DimensionsFromEntry(buf: seq<Byte>, i: nat, p: Image, offset: UInt32)
    requires EntryStart(i + 1) <= |buf| && buf[EntryStart(i)..EntryStart(i + 1)] == Entry(p, offset)
    ensures buf[EntryStart(i)] == DimensionByte(Dimension(p, 16))
    ensures buf[EntryStart(i) + 1] == DimensionByte(Dimension(p, 20))
  {
    var e := buf[EntryStart(i)..EntryStart(i + 1)];
    EntryFields(p, offset);
    assert buf[EntryStart(i)] == e[0] && buf[EntryStart(i) + 1] == e[1];
  }

  lemma MiddleSlice(before: seq<Byte>, middle: seq<Byte>, after: seq<Byte>, i: nat, j: nat)
    requires i <= j <= |middle|
    ensures (before + middle + after)[|before| + i..|before| + j] == middle[i..j]
  {
  }

  lemma PackedEntry(pngs: seq<Image>, i: nat)
    requires i < |pngs|
    ensures EntryStart(i + 1) <= |Packed(pngs)|
    ensures Packed(pngs)[EntryStart(i)..EntryStart(i + 1)] == Entry(pngs[i], Offset(pngs, i) % TWO_32)
  {
    EntryAt(pngs, i, |pngs|);
    MiddleSlice(Header(|pngs|), Entries(pngs, |pngs|), Body(pngs, |pngs|), ENTRY_SIZE * i, ENTRY_SIZE * (i + 1));
  }

  lemma HeadFields(p: Image, offset: UInt32)
    ensures Entry(p, offset)[2] == 0 && Entry(p, offset)[3] == 0
    ensures Entry(p, offset)[4..6] == PutLE16(1) && Entry(p, offset)[6..8] == PutLE16(32)
  {
    var planes, depth := PutLE16(1), PutLE16(32);
    var dims := [DimensionByte(Dimension(p, 16)), DimensionByte(Dimension(p, 20)), 0, 0];
    assert EntryHead(p) == dims + planes + depth;
    assert (dims + planes + depth)[4..6] == planes && (dims + planes + depth)[6..8] == depth;
    assert Entry(p, offset)[4..6] == EntryHead(p)[4..6] && Entry(p, offset)[6..8] == EntryHead(p)[6..8];
  }

  // The file format, byte by byte: six bytes of header and sixteen for each image, whose
  // width and height are in the bytes 16 to 23 of the image.
  lemma Layout(pngs: seq<Image>, i: nat)
    requires i < |pngs|
    ensures |Packed(pngs)| >= 6 + 16 * (i + 1)
    ensures var buf, p, at := Packed(pngs), pngs[i], 6 + 16 * i;
      && LE16(buf, 0) == 0 && LE16(buf, 2) == 1 && LE16(buf, 4) == |pngs| % 0x1_0000
      && buf[at] == (if |p| >= 24 && BE32(p, 16) < 256 then BE32(p, 16) else 0)
      && buf[at + 1] == (if |p| >= 24 && BE32(p, 20) < 256 then BE32(p, 20) else 0)
      && buf[at + 2] == 0 && buf[at + 3] == 0 && LE16(buf, at + 4) == 1 && LE16(buf, at + 6) == 32
      && LE32(buf, at + 8) == |p| % 0x1_0000_0000 && LE32(buf, at + 12) == Offset(pngs, i) % 0x1_0000_0000
  {
    ReadBack(pngs, i);
    CountReadBack(pngs);
    HeaderLayout(pngs);
    EntryLayout(pngs, i);
  }

  lemma HeaderLayout(pngs: seq<Image>)
    ensures |Packed(pngs)| >= 6 && LE16(Packed(pngs), 0) == 0 && LE16(Packed(pngs), 2) == 1
  {
    var buf := Packed(pngs);
    assert buf[0..2] == Header(|pngs|)[0..2] == PutLE16(0);
    assert buf[2..4] == Header(|pngs|)[2..4] == PutLE16(1);
    ReadPutLE16(0, buf, 0);
    ReadPutLE16(1, buf, 2);
  }

  lemma EntryLayout(pngs: seq<Image>, i: nat)
    requires i < |pngs|
    ensures |Packed(pngs)| >= 6 + 16 * (i + 1)
    ensures var buf, at := Packed(pngs), 6 + 16 * i;
      buf[at + 2] == 0 && buf[at + 3] == 0 && LE16(buf, at + 4) == 1 && LE16(buf, at + 6) == 32
  {
    PackedEntry(pngs, i);
    HeadFromEntry(Packed(pngs), i, pngs[i], Offset(pngs, i) % TWO_32);
  }

  lemma HeadFromEntry(buf: seq<Byte>, i: nat, p: Image, offset: UInt32)
    requires EntryStart(i + 1) <= |buf| && buf[EntryStart(i)..EntryStart(i + 1)] == Entry(p, offset)
    ensures buf[EntryStart(i) + 2] == 0 && buf[EntryStart(i) + 3] == 0
    ensures LE16(buf, EntryStart(i) + 4) == 1 && LE16(buf, EntryStart(i) + 6) == 32
  {
    var at, e := EntryStart(i), buf[EntryStart(i)..EntryStart(i + 1)];
    HeadFields(p, offset);
    assert buf[at + 2] == e[2] && buf[at + 3] == e[3];
    SliceOfSlice(buf, at, EntryStart(i + 1), 4, 6);
    SliceOfSlice(buf, at, EntryStart(i + 1), 6, 8);
    ReadPutLE16(1, buf, at + 4);
    ReadPutLE16(32, buf, at + 6);
  }

  lemma ModTwice(v: nat)
    ensures v % TWO_32 % TWO_32 == v % TWO_32
  {
  }

  // What a reader finds, whatever the sizes: the fields are cut to their widths.
  lemma ReadBack(pngs: seq<Image>, i: nat)
    requires i < |pngs|
    ensures EntryStart(i + 1) <= |Packed(pngs)|
    ensures Packed(pngs)[EntryStart(i)] == DimensionByte(Dimension(pngs[i], 16))
    ensures Packed(pngs)[EntryStart(i) + 1] == DimensionByte(Dimension(pngs[i], 20))
    ensures ReadSize(Packed(pngs), i) == |pngs[i]| % TWO_32
    ensures ReadOffset(Packed(pngs), i) == Offset(pngs, i) % TWO_32
  {
    PackedEntry(pngs, i);
    DimensionsFromEntry(Packed(pngs), i, pngs[i], Offset(pngs, i) % TWO_32);
    SizeFromEntry(Packed(pngs), i, pngs[i], Offset(pngs, i) % TWO_32);
    OffsetFromEntry(Packed(pngs), i, pngs[i], Offset(pngs, i) % TWO_32);
    ModTwice(Offset(pngs, i));
  }

  lemma CountReadBack(pngs: seq<Image>)
    ensures |Packed(pngs)| >= DIR_SIZE && ReadCount(Packed(pngs)) == |pngs| % 0x1_0000
  {
    var buf := Packed(pngs);
    assert buf[4..6] == Header(|pngs|)[4..6] == PutLE16(|pngs|);
    ReadPutLE16(|pngs|, buf, 4);
  }

  // The regions of the images are consecutive, hence disjoint; they start after the
  // directory, end with the file, and each holds its image.
  lemma RegionsFillFile(pngs: seq<Image>, i: nat)
    requires i < |pngs|
    ensures Offset(pngs, 0) == EntryStart(|pngs|) && Offset(pngs, |pngs|) == |Packed(pngs)|
    ensures Offset(pngs, i + 1) == Offset(pngs, i) + |pngs[i]|
    ensures Offset(pngs, 0) <= Offset(pngs, i) && Offset(pngs, i + 1) <= Offset(pngs, |pngs|)
    ensures Packed(pngs)[Offset(pngs, i)..Offset(pngs, i + 1)] == pngs[i]
  {
    BodyAt(pngs, i, |pngs|);
    OffsetsAscend(pngs, 0, i);
    OffsetsAscend(pngs, i + 1, |pngs|);
    var first := Offset(pngs, 0);
    MiddleSlice(Header(|pngs|) + Entries(pngs, |pngs|), Body(pngs, |pngs|), [],
                Offset(pngs, i) - first, Offset(pngs, i + 1) - first);
    assert Packed(pngs) + [] == Packed(pngs);
  }

  // Entry i of the directory leads a reader to image i.
  ghost predicate Leads(buf: seq<Byte>, pngs: seq<Image>, i: nat)
    requires i < |pngs| && EntryStart(i + 1) <= |buf|
  {
    var size, offset := ReadSize(buf, i), ReadOffset(buf, i);
    && size == |pngs[i]| && offset == Offset(pngs, i)
    && offset + size <= |buf| && buf[offset..offset + size] == pngs[i]
  }

  ghost predicate Faithful(buf: seq<Byte>, pngs: seq<Image>) {
    && |buf| >= EntryStart(|pngs|) && ReadCount(buf) == |pngs|
    && forall i :: 0 <= i < |pngs| ==> Leads(buf, pngs, i)
  }

  ghost predicate Fits(pngs: seq<Image>) {
    && |pngs| < 0x1_0000
    && forall i :: 0 <= i < |pngs| ==> |pngs[i]| < TWO_32 && Offset(pngs, i) < TWO_32
  }

  lemma ModFits(v: nat)
    ensures v % TWO_32 == v <==> v < TWO_32
    ensures v % 0x1_0000 == v <==> v < 0x1_0000
  {
  }

  lemma LeadsIff(pngs: seq<Image>, i: nat)
    requires i < |pngs|
    ensures EntryStart(i + 1) <= |Packed(pngs)|
    ensures Leads(Packed(pngs), pngs, i) <==> |pngs[i]| < TWO_32 && Offset(pngs, i) < TWO_32
  {
    ReadBack(pngs, i);
    ModFits(|pngs[i]|);
    ModFits(Offset(pngs, i));
    RegionsFillFile(pngs, i);
  }

  // Faithful exactly when the count fits 16 bits and every size and offset 32.
  lemma FaithfulIff(pngs: seq<Image>)
    ensures Faithful(Packed(pngs), pngs) <==> Fits(pngs)
  {
    CountReadBack(pngs);
    ModFits(|pngs|);
    assert |Packed(pngs)| >= EntryStart(|pngs|);
    forall i | 0 <= i < |pngs|
      ensures Leads(Packed(pngs), pngs, i) <==> |pngs[i]| < TWO_32 && Offset(pngs, i) < TWO_32
    {
      LeadsIff(pngs, i);
    }
  }
}
