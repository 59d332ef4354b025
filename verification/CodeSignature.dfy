// Re-signing a patched client binary: internal/manager/api/download.go,
// recomputeAdHocSignature.
//
// The Go function reads uint32 fields out of an untrusted image and slices with
// them, so every read and every slice can panic; a panic aborts the download
// request. SHA-256 is any function from bytes to 32 bytes.
module CodeSignature {
  import opened Basics
  import opened Bytes

  type Digest = d: seq<Byte> | |d| == 32 witness seq(32, _ => 0)

  const MACHO_64_MAGIC: UInt32 := 0xfeedfacf
  const LC_CODE_SIGNATURE: UInt32 := 0x1d
  const EMBEDDED_SIGNATURE_MAGIC: UInt32 := 0xfade0cc0

  datatype Lookup<+T> = Panicked | Missing | Found(value: T)

  // The code directory of an image: where its hash slots are and what they hash.
  datatype Directory = Directory(
    csOff: UInt32, csSize: UInt32, cdOff: UInt32, hashOffset: UInt32,
    nCode: UInt32, codeLimit: UInt32, hashSize: UInt32, pageSize: UInt32)

  function ShiftLeft32(x: UInt32, n: nat): UInt32
    decreases n
  {
    if n == 0 then x else ShiftLeft32(Mul32(x, 2), n - 1)
  }

  /* What the three parsing steps read, as functions of the bytes. */

  function ScanCommands(b: seq<Byte>, n: nat, off: UInt32, seen: (UInt32, UInt32)): Lookup<(UInt32, UInt32)>
    decreases n
  {
    if n == 0 then Found(seen)
    else if off + 4 > |b| || Add32(off, 4) + 4 > |b| then Panicked
    else
      var next := Add32(off, LE32(b, Add32(off, 4)));
      if LE32(b, off) != LC_CODE_SIGNATURE then ScanCommands(b, n - 1, next, seen)
      else if Add32(off, 8) + 4 > |b| || Add32(off, 12) + 4 > |b| then Panicked
      else ScanCommands(b, n - 1, next, (LE32(b, Add32(off, 8)), LE32(b, Add32(off, 12))))
  }

  function BlobEntry(i: UInt32): UInt32 {
    Add32(12, Mul32(i, 8))
  }

  function ScanBlobs(cs: seq<Byte>, count: UInt32, i: UInt32): Lookup<UInt32>
    requires i <= count
    decreases count - i
  {
    if i == count then Missing
    else if BlobEntry(i) + 4 > |cs| || Add32(BlobEntry(i), 4) + 4 > |cs| then Panicked
    else if BE32(cs, BlobEntry(i)) == 0 then Found(BE32(cs, Add32(BlobEntry(i), 4)))
    else ScanBlobs(cs, count, i + 1)
  }

  function ReadDirectory(cs: seq<Byte>, csOff: UInt32, cdOff: UInt32): Directory
    requires |cs| < TWO_32 && cdOff + 40 <= |cs|
  {
    Directory(csOff, |cs|, cdOff, BE32(cs, cdOff + 16), BE32(cs, cdOff + 28), BE32(cs, cdOff + 32),
              cs[cdOff + 36], ShiftLeft32(1, cs[cdOff + 39]))
  }

  function LocateIn(cs: seq<Byte>, csOff: UInt32): Lookup<Directory>
    requires |cs| < TWO_32
  {
    if |cs| < 4 then Panicked
    else if BE32(cs, 0) != EMBEDDED_SIGNATURE_MAGIC then Missing
    else if |cs| < 12 then Panicked
    else
      match ScanBlobs(cs, BE32(cs, 8), 0)
      case Panicked => Panicked
      case Missing => Missing
      case Found(cdOff) =>
        if cdOff == 0 || Add32(cdOff, 44) > |cs| then Missing
        else if cdOff + 40 > |cs| then Panicked
        else
          var d := ReadDirectory(cs, csOff, cdOff);
          if d.hashSize == 0 || d.pageSize == 0 || d.nCode == 0 then Missing else Found(d)
  }

  // The range of the signature that the scan of the load commands announces.
  function AnnouncedRange(scan: Lookup<(UInt32, UInt32)>, len: nat): (r: Lookup<(UInt32, UInt32)>)
    ensures r.Found? ==> r.value.0 <= r.value.1 <= len
  {
    match scan
    case Panicked => Panicked
    case Missing => Missing
    case Found((csOff, csSize)) =>
      var end := Add32(csOff, csSize);
      if csOff == 0 || end > len then Missing
      else if end < csOff then Panicked
      else Found((csOff, end))
  }

  // Where the embedded signature starts and ends.
  function SignatureRange(b: seq<Byte>): (r: Lookup<(UInt32, UInt32)>)
    ensures r.Found? ==> r.value.0 <= r.value.1 <= |b|
  {
    if |b| < 32 || LE32(b, 0) != MACHO_64_MAGIC then Missing
    else AnnouncedRange(ScanCommands(b, LE32(b, 16), 32, (0, 0)), |b|)
  }

  function Locate(b: seq<Byte>): (r: Lookup<Directory>)
    ensures r.Found? ==> r.value.csOff + r.value.csSize <= |b| && r.value.hashSize < 256
  {
    match SignatureRange(b)
    case Panicked => Panicked
    case Missing => Missing
    case Found((csOff, end)) => LocateIn(b[csOff..end], csOff)
  }

  /* The same directory, described declaratively. */

  // offs are the offsets of the load commands, the last one being their end.
  ghost predicate CommandChain(b: seq<Byte>, offs: seq<UInt32>) {
    && |offs| > 0 && offs[0] == 32
    && forall i | 0 <= i < |offs| - 1 ::
         offs[i] + 16 <= |b| && offs[i] + 16 < TWO_32 && offs[i + 1] == offs[i] + LE32(b, offs[i] + 4)
  }

  ghost predicate LastSignature(b: seq<Byte>, offs: seq<UInt32>, j: int) {
    && CommandChain(b, offs)
    && 0 <= j < |offs| - 1 && LE32(b, offs[j]) == LC_CODE_SIGNATURE
    && forall i | j < i < |offs| - 1 :: LE32(b, offs[i]) != LC_CODE_SIGNATURE
  }

  ghost predicate FirstCodeDirectory(cs: seq<Byte>, k: int) {
    && 0 <= k && 12 + 8 * (k + 1) <= |cs| && k < BE32(cs, 8) && BE32(cs, 12 + 8 * k) == 0
    && forall i | 0 <= i < k :: BE32(cs, 12 + 8 * i) != 0
  }

  // b is a 64-bit Mach-O image whose load commands are at offs and whose last
  // signature command, number j, announces d's range of bytes.
  ghost predicate DescribesHeader(b: seq<Byte>, offs: seq<UInt32>, j: nat, d: Directory) {
    && |b| >= 32 && LE32(b, 0) == MACHO_64_MAGIC
    && LastSignature(b, offs, j) && |offs| == LE32(b, 16) + 1
    && d.csOff == LE32(b, offs[j] + 8) && d.csSize == LE32(b, offs[j] + 12)
    && d.csOff > 0 && d.csOff + d.csSize <= |b| && d.csOff + d.csSize < TWO_32
  }

  function PowerOfTwo(n: nat): nat {
    if n == 0 then 1 else 2 * PowerOfTwo(n - 1)
  }

  // Where the fields of a code directory are; the page size is given by its logarithm.
  ghost predicate DescribesDirectory(cs: seq<Byte>, at: nat, d: Directory) {
    && at + 44 <= |cs|
    && d.hashOffset == BE32(cs, at + 16) && d.nCode == BE32(cs, at + 28) && d.codeLimit == BE32(cs, at + 32)
    && d.hashSize == cs[at + 36] && cs[at + 39] < 32 && d.pageSize == PowerOfTwo(cs[at + 39])
  }

  // cs is an embedded signature whose first code directory, blob k, is d.
  ghost predicate DescribesSignature(cs: seq<Byte>, k: nat, d: Directory) {
    && 12 <= |cs| < TWO_32 && BE32(cs, 0) == EMBEDDED_SIGNATURE_MAGIC
    && FirstCodeDirectory(cs, k) && d.cdOff == BE32(cs, 16 + 8 * k)
    && d.cdOff > 0 && d.cdOff + 44 <= |cs| && d.csSize == |cs|
    && DescribesDirectory(cs, d.cdOff, d)
    && d.hashSize > 0 && d.nCode > 0
  }

  ghost predicate Describes(b: seq<Byte>, offs: seq<UInt32>, j: nat, k: nat, d: Directory) {
    && DescribesHeader(b, offs, j, d)
    && DescribesSignature(b[d.csOff..d.csOff + d.csSize], k, d)
  }

  function AfterCommand(b: seq<Byte>, off: UInt32, seen: (UInt32, UInt32)): (UInt32, UInt32)
    requires off + 16 <= |b|
  {
    if LE32(b, off) == LC_CODE_SIGNATURE then (LE32(b, off + 8), LE32(b, off + 12)) else seen
  }

  // One command, that lies inside the image and announces where the next one is.
  lemma ScanOne(b: seq<Byte>, off: UInt32, next: UInt32, n: nat, seen: (UInt32, UInt32))
    requires off + 16 <= |b| && off + 16 < TWO_32 && next == off + LE32(b, off + 4)
    ensures ScanCommands(b, n + 1, off, seen) == ScanCommands(b, n, next, AfterCommand(b, off, seen))
  {
    assert Add32(off, 4) == off + 4 && Add32(off, 8) == off + 8 && Add32(off, 12) == off + 12;
    assert Add32(off, LE32(b, off + 4)) == next;
  }

  lemma ScanStep(b: seq<Byte>, offs: seq<UInt32>, i: nat, n: nat, seen: (UInt32, UInt32))
    requires CommandChain(b, offs) && i < |offs| - 1
    ensures ScanCommands(b, n + 1, offs[i], seen) == ScanCommands(b, n, offs[i + 1], AfterCommand(b, offs[i], seen))
  {
    ScanOne(b, offs[i], offs[i + 1], n, seen);
  }

  lemma {:induction false} ScanFindsLastSignature(
    b: seq<Byte>, offs: seq<UInt32>, j: nat, i: nat, seen: (UInt32, UInt32))
    requires LastSignature(b, offs, j) && i < |offs|
    requires i > j ==> seen == (LE32(b, offs[j] + 8), LE32(b, offs[j] + 12))
    ensures ScanCommands(b, |offs| - 1 - i, offs[i], seen) == Found((LE32(b, offs[j] + 8), LE32(b, offs[j] + 12)))
    decreases |offs| - i
  {
    if i < |offs| - 1 {
      ScanStep(b, offs, i, |offs| - 2 - i, seen);
      ScanFindsLastSignature(b, offs, j, i + 1, AfterCommand(b, offs[i], seen));
    }
  }

  lemma BlobEntryIs(i: UInt32)
    requires 12 + 8 * i < TWO_32
    ensures BlobEntry(i) == 12 + 8 * i
  {
  }

  lemma {:induction false} ScanFindsFirstDirectory(cs: seq<Byte>, k: nat, i: UInt32)
    requires 12 <= |cs| < TWO_32 && FirstCodeDirectory(cs, k) && i <= k
    ensures ScanBlobs(cs, BE32(cs, 8), i) == Found(BE32(cs, 16 + 8 * k))
    decreases k - i
  {
    BlobEntryIs(i);
    if i < k {
      ScanFindsFirstDirectory(cs, k, i + 1);
    }
  }

  lemma {:induction false} PowersAscend(m: nat, n: nat)
    requires m <= n
    ensures 1 <= PowerOfTwo(m) <= PowerOfTwo(n)
    decreases n
  {
    if n > 0 { PowersAscend(if m < n then m else m - 1, n - 1); }
  }

  lemma LargestPower()
    ensures PowerOfTwo(31) == 0x8000_0000
  {
    assert PowerOfTwo(8) == 0x100;
    assert PowerOfTwo(16) == 0x1_0000;
    assert PowerOfTwo(24) == 0x100_0000;
  }

  lemma {:induction false} ShiftsPower(x: UInt32, m: nat, n: nat)
    requires x == PowerOfTwo(m) && m + n <= 31
    ensures ShiftLeft32(x, n) == PowerOfTwo(m + n)
    decreases n
  {
    if n > 0 {
      LargestPower();
      PowersAscend(m + 1, 31);
      ShiftsPower(Mul32(x, 2), m + 1, n - 1);
    }
  }

  lemma {:induction false} ZeroStays(n: nat)
    ensures ShiftLeft32(0, n) == 0
    decreases n
  {
    if n > 0 { ZeroStays(n - 1); }
  }

  lemma ShiftedOut(n: nat)
    requires n >= 32
    ensures ShiftLeft32(1, n) == 0
  {
    LargestPower();
    ShiftsPower(1, 0, 31);
    ShiftsTwice(1, 31, n - 31);
    ZeroStays(n - 32);
  }

  lemma {:induction false} ShiftsTwice(x: UInt32, m: nat, n: nat)
    ensures ShiftLeft32(x, m + n) == ShiftLeft32(ShiftLeft32(x, m), n)
    decreases m
  {
    if m > 0 { ShiftsTwice(Mul32(x, 2), m - 1, n); }
  }

  // The page size that the shift makes of the logarithm.
  lemma PageSizeIs(log: nat)
    ensures ShiftLeft32(1, log) == if log < 32 then PowerOfTwo(log) else 0
  {
    if log < 32 { ShiftsPower(1, 0, log); } else { ShiftedOut(log); }
  }

  // What ReadDirectory reads is where the description says.
  lemma DirectoryIs(cs: seq<Byte>, d: Directory)
    requires |cs| < TWO_32 && d.cdOff + 44 <= |cs|
    ensures d == ReadDirectory(cs, d.csOff, d.cdOff) && d.pageSize != 0
       <==> d.csSize == |cs| && DescribesDirectory(cs, d.cdOff, d)
  {
    PageSizeIs(cs[d.cdOff + 39]);
    PowersAscend(0, cs[d.cdOff + 39]);
  }

  lemma LocateInFindsDescribed(cs: seq<Byte>, k: nat, d: Directory)
    requires DescribesSignature(cs, k, d)
    ensures LocateIn(cs, d.csOff) == Found(d)
  {
    ScanFindsFirstDirectory(cs, k, 0);
    DirectoryIs(cs, d);
  }

  lemma ScanFindsDescribed(b: seq<Byte>, offs: seq<UInt32>, j: nat, n: nat)
    requires LastSignature(b, offs, j) && |offs| == n + 1
    ensures ScanCommands(b, n, 32, (0, 0)) == Found((LE32(b, offs[j] + 8), LE32(b, offs[j] + 12)))
  {
    ScanFindsLastSignature(b, offs, j, 0, (0, 0));
  }

  lemma AnnouncesRange(csOff: UInt32, csSize: UInt32, len: nat)
    requires csOff > 0 && csOff + csSize <= len && csOff + csSize < TWO_32
    ensures AnnouncedRange(Found((csOff, csSize)), len) == Found((csOff, csOff + csSize))
  {
  }

  lemma RangeFindsDescribed(b: seq<Byte>, offs: seq<UInt32>, j: nat, d: Directory)
    requires DescribesHeader(b, offs, j, d)
    ensures SignatureRange(b) == Found((d.csOff, d.csOff + d.csSize))
  {
    ScanFindsDescribed(b, offs, j, |offs| - 1);
    AnnouncesRange(d.csOff, d.csSize, |b|);
  }

  lemma LocateFindsDescribed(b: seq<Byte>, offs: seq<UInt32>, j: nat, k: nat, d: Directory)
    requires Describes(b, offs, j, k, d)
    ensures Locate(b) == Found(d)
  {
    RangeFindsDescribed(b, offs, j, d);
    LocateInFindsDescribed(b[d.csOff..d.csOff + d.csSize], k, d);
  }

  /* And nothing else is located. */

  // The first code directory that the scan of the blobs finds.
  lemma {:induction false} FoundIsFirst(cs: seq<Byte>, count: UInt32, i: UInt32) returns (k: nat)
    requires |cs| < TWO_32 && i <= count && 12 + 8 * i <= |cs| && ScanBlobs(cs, count, i).Found?
    ensures i <= k < count && 12 + 8 * (k + 1) <= |cs| && BE32(cs, 12 + 8 * k) == 0
    ensures forall m | i <= m < k :: BE32(cs, 12 + 8 * m) != 0
    ensures ScanBlobs(cs, count, i) == Found(BE32(cs, 16 + 8 * k))
    decreases count - i
  {
    BlobEntryIs(i);
    if BE32(cs, 12 + 8 * i) == 0 {
      k := i;
    } else {
      k := FoundIsFirst(cs, count, i + 1);
    }
  }

  // Below the last bytes of 4 GiB, where offsets wrap around.
  lemma LocatedInIsDescribed(cs: seq<Byte>, csOff: UInt32, d: Directory) returns (k: nat)
    requires |cs| + 4 < TWO_32 && LocateIn(cs, csOff) == Found(d)
    ensures DescribesSignature(cs, k, d) && d.csOff == csOff
  {
    k := FoundIsFirst(cs, BE32(cs, 8), 0);
    DirectoryIs(cs, d);
  }

  lemma {:induction false} ScanFindsNone(b: seq<Byte>, offs: seq<UInt32>, i: nat, seen: (UInt32, UInt32))
    requires CommandChain(b, offs) && i < |offs|
    requires forall m | i <= m < |offs| - 1 :: LE32(b, offs[m]) != LC_CODE_SIGNATURE
    ensures ScanCommands(b, |offs| - 1 - i, offs[i], seen) == Found(seen)
    decreases |offs| - i
  {
    if i < |offs| - 1 {
      ScanStep(b, offs, i, |offs| - 2 - i, seen);
      ScanFindsNone(b, offs, i + 1, seen);
    }
  }

  lemma {:induction false} LastOrNone(b: seq<Byte>, offs: seq<UInt32>, n: nat) returns (j: int)
    requires CommandChain(b, offs) && n < |offs|
    ensures -1 <= j < n && (j >= 0 ==> LE32(b, offs[j]) == LC_CODE_SIGNATURE)
    ensures forall m | j < m < n :: LE32(b, offs[m]) != LC_CODE_SIGNATURE
  {
    if n == 0 {
      j := -1;
    } else if LE32(b, offs[n - 1]) == LC_CODE_SIGNATURE {
      j := n - 1;
    } else {
      j := LastOrNone(b, offs, n - 1);
    }
  }

  lemma RangeHasSignature(b: seq<Byte>, offs: seq<UInt32>) returns (j: nat)
    requires |b| >= 32 && CommandChain(b, offs) && |offs| == LE32(b, 16) + 1 && SignatureRange(b).Found?
    ensures LastSignature(b, offs, j)
  {
    var last := LastOrNone(b, offs, |offs| - 1);
    if last == -1 { ScanFindsNone(b, offs, 0, (0, 0)); }
    j := last;
  }

  lemma RangeIsDescribed(b: seq<Byte>, offs: seq<UInt32>, d: Directory) returns (j: nat)
    requires |b| < TWO_32 && |b| >= 32 && CommandChain(b, offs) && |offs| == LE32(b, 16) + 1
    requires SignatureRange(b) == Found((d.csOff, d.csOff + d.csSize))
    ensures DescribesHeader(b, offs, j, d)
  {
    j := RangeHasSignature(b, offs);
    ScanFindsDescribed(b, offs, j, |offs| - 1);
  }

  lemma LocatedIsDescribed(b: seq<Byte>, offs: seq<UInt32>, d: Directory) returns (j: nat, k: nat)
    requires |b| + 4 < TWO_32 && |b| >= 32 && CommandChain(b, offs) && |offs| == LE32(b, 16) + 1
    requires Locate(b) == Found(d)
    ensures Describes(b, offs, j, k, d)
  {
    var (csOff, end) := SignatureRange(b).value;
    k := LocatedInIsDescribed(b[csOff..end], csOff, d);
    j := RangeIsDescribed(b, offs, d);
  }

  // An image whose load commands lie inside it has the directory that is described, and
  // no other.
  lemma LocateIff(b: seq<Byte>, offs: seq<UInt32>, d: Directory)
    requires |b| + 4 < TWO_32 && |b| >= 32 && CommandChain(b, offs) && |offs| == LE32(b, 16) + 1
    ensures Locate(b) == Found(d) <==> exists j: nat, k: nat :: Describes(b, offs, j, k, d)
  {
    if Locate(b) == Found(d) {
      var j, k := LocatedIsDescribed(b, offs, d);
    }
    forall j: nat, k: nat | Describes(b, offs, j, k, d) ensures Locate(b) == Found(d) {
      LocateFindsDescribed(b, offs, j, k, d);
    }
  }

  // Files that are no 64-bit Mach-O images, or have no signature, are left alone.
  lemma OthersHaveNoDirectory(b: seq<Byte>, offs: seq<UInt32>)
    requires |b| < 32 || LE32(b, 0) != 0xfeedfacf
          || (CommandChain(b, offs) && |offs| == LE32(b, 16) + 1
              && forall m | 0 <= m < |offs| - 1 :: LE32(b, offs[m]) != 0x1d)
    ensures Locate(b) == Missing
  {
    if |b| >= 32 && LE32(b, 0) == 0xfeedfacf {
      ScanFindsNone(b, offs, 0, (0, 0));
    }
  }

  lemma {:induction false} NoCodeDirectory(cs: seq<Byte>, count: UInt32, i: UInt32)
    requires |cs| < TWO_32 && i <= count && 12 + 8 * count <= |cs|
    requires forall m | i <= m < count :: BE32(cs, 12 + 8 * m) != 0
    ensures ScanBlobs(cs, count, i) == Missing
    decreases count - i
  {
    if i < count {
      BlobEntryIs(i);
      NoCodeDirectory(cs, count, i + 1);
    }
  }

  // Nor are signatures of another kind, or without a code directory, touched.
  lemma OtherSignaturesAreKept(b: seq<Byte>, offs: seq<UInt32>, j: nat, d: Directory)
    requires DescribesHeader(b, offs, j, d)
    requires var cs := b[d.csOff..d.csOff + d.csSize];
      || (|cs| >= 4 && BE32(cs, 0) != 0xfade0cc0)
      || (|cs| >= 12 && 12 + 8 * BE32(cs, 8) <= |cs| && forall m | 0 <= m < BE32(cs, 8) :: BE32(cs, 12 + 8 * m) != 0)
    ensures Locate(b) == Missing
  {
    RangeFindsDescribed(b, offs, j, d);
    var cs := b[d.csOff..d.csOff + d.csSize];
    if |cs| >= 12 && BE32(cs, 0) == 0xfade0cc0 { NoCodeDirectory(cs, BE32(cs, 8), 0); }
  }

  // An image that ends inside its load commands makes the scan panic.
  lemma TruncatedPanics(b: seq<Byte>)
    requires 32 <= |b| < 40 && LE32(b, 0) == 0xfeedfacf && LE32(b, 16) > 0
    ensures Locate(b) == Panicked
  {
  }

  /* What re-signing has to establish. */

  // Page and slot positions as the code computes them, in wrapping arithmetic.
  function PageStart(d: Directory, i: UInt32): UInt32 {
    Mul32(i, d.pageSize)
  }

  function PageEnd(d: Directory, i: UInt32): UInt32 {
    var end := Add32(PageStart(d, i), d.pageSize);
    if end < d.codeLimit then end else d.codeLimit
  }

  function SlotBase(d: Directory, i: UInt32): UInt32 {
    Add32(Add32(d.cdOff, d.hashOffset), Mul32(i, d.hashSize))
  }

  // Slots and pages as the code directory means them.
  function SlotAt(d: Directory, i: nat): nat {
    d.csOff + d.cdOff + d.hashOffset + i * d.hashSize
  }

  function Page(b: seq<Byte>, d: Directory, i: nat): seq<Byte>
    requires i * d.pageSize <= d.codeLimit <= |b|
  {
    b[i * d.pageSize..if (i + 1) * d.pageSize < d.codeLimit then (i + 1) * d.pageSize else d.codeLimit]
  }

  // The slots lie inside the signature, the code before it, and every page
  // starts inside the code.
  ghost predicate InBounds(d: Directory, len: nat) {
    && 0 < d.hashSize <= 32 && 0 < d.pageSize && 0 < d.nCode
    && (d.nCode - 1) * d.pageSize <= d.codeLimit <= d.csOff
    && d.csOff + d.csSize <= len && d.csOff + d.csSize < TWO_32
    && d.cdOff + d.hashOffset + d.nCode * d.hashSize <= d.csSize
  }

  ghost predicate Matches(b: seq<Byte>, d: Directory, sha: seq<Byte> -> Digest, i: nat)
    requires InBounds(d, |b|) && i < d.nCode
  {
    PageStartsInside(d, i);
    SlotInside(d, i);
    b[SlotAt(d, i)..SlotAt(d, i) + d.hashSize] == sha(Page(b, d, i))[..d.hashSize]
  }

  // Step i of n equal steps.
  lemma StepInside(i: nat, n: nat, step: nat)
    requires i < n
    ensures 0 <= i * step && (i + 1) * step == i * step + step <= n * step
  {
    MulMonotone(0, i, step);
    MulMonotone(i + 1, n, step);
  }

  lemma PageStartsInside(d: Directory, i: nat)
    requires 0 < d.nCode && (d.nCode - 1) * d.pageSize <= d.codeLimit && i < d.nCode
    ensures 0 <= i * d.pageSize <= d.codeLimit
  {
    MulMonotone(0, i, d.pageSize);
    MulMonotone(i, d.nCode - 1, d.pageSize);
  }

  lemma SlotInside(d: Directory, i: nat)
    requires d.cdOff + d.hashOffset + d.nCode * d.hashSize <= d.csSize && i < d.nCode
    ensures SlotAt(d, 0) <= SlotAt(d, i)
    ensures SlotAt(d, i) + d.hashSize == SlotAt(d, i + 1) <= SlotAt(d, d.nCode) <= d.csOff + d.csSize
  {
    StepInside(i, d.nCode, d.hashSize);
  }

  ghost predicate SameOutside(a: seq<Byte>, b: seq<Byte>, lo: int, hi: int) {
    |a| == |b| && forall k | 0 <= k < |a| && !(lo <= k < hi) :: a[k] == b[k]
  }

  // Some byte window that the loop writes, for any directory at all.
  ghost predicate InSomeSlot(d: Directory, k: int) {
    exists i: UInt32 | i < d.nCode :: d.csOff + SlotBase(d, i) <= k < d.csOff + SlotBase(d, i) + d.hashSize
  }

  // In bounds, the wrapping arithmetic is exact as long as the pages stay below 2^32.
  lemma SlotDoesNotWrap(d: Directory, len: nat, i: UInt32)
    requires InBounds(d, len) && i < d.nCode
    ensures d.csOff + SlotBase(d, i) == SlotAt(d, i)
  {
    SlotInside(d, i);
    StepInside(i, d.nCode, d.hashSize);
    var offset := i * d.hashSize;
    assert offset % TWO_32 == offset;
  }

  lemma PageWrapsOnlyAtTheEnd(d: Directory, len: nat, i: UInt32)
    requires InBounds(d, len) && i < d.nCode
    ensures PageStart(d, i) == i * d.pageSize
    ensures i < d.nCode - 1 || d.nCode * d.pageSize < TWO_32 ==>
              && PageEnd(d, i) == (if (i + 1) * d.pageSize < d.codeLimit then (i + 1) * d.pageSize else d.codeLimit)
              && PageStart(d, i) <= PageEnd(d, i)
    ensures i == d.nCode - 1 && d.nCode * d.pageSize >= TWO_32 ==> PageEnd(d, i) < PageStart(d, i)
  {
    PageStartsInside(d, i);
    StepInside(i, d.nCode, d.pageSize);
    var start := i * d.pageSize;
    assert start % TWO_32 == start;
    if i < d.nCode - 1 {
      PageStartsInside(d, i + 1);
    }
  }

  lemma SameSlice(a: seq<Byte>, b: seq<Byte>, n: nat, from: nat, to: nat)
    requires n <= |a| && n <= |b| && a[..n] == b[..n] && from <= to <= n
    ensures a[from..to] == b[from..to]
  {
    assert a[from..to] == a[..n][from..to];
    assert b[from..to] == b[..n][from..to];
  }

  lemma SamePage(a: seq<Byte>, b: seq<Byte>, d: Directory, i: nat)
    requires |a| == |b| && InBounds(d, |a|) && i < d.nCode && a[..d.csOff] == b[..d.csOff]
    ensures 0 <= i * d.pageSize <= d.codeLimit && Page(a, d, i) == Page(b, d, i)
  {
    PageStartsInside(d, i);
    var from, next := i * d.pageSize, (i + 1) * d.pageSize;
    assert next == from + d.pageSize;
    SameSlice(a, b, d.csOff, from, if next < d.codeLimit then next else d.codeLimit);
  }

  // The first i slots hold the hashes of the pages, and nothing else changed.
  ghost predicate Rehashed(before: seq<Byte>, now: seq<Byte>, d: Directory, sha: seq<Byte> -> Digest, i: nat)
    requires InBounds(d, |before|) && i <= d.nCode
  {
    && SameOutside(before, now, SlotAt(d, 0), SlotAt(d, i))
    && forall j | 0 <= j < i :: Matches(now, d, sha, j)
  }

  lemma SlotKept(a: seq<Byte>, b: seq<Byte>, d: Directory, sha: seq<Byte> -> Digest, i: nat, j: nat)
    requires InBounds(d, |a|) && j < i < d.nCode && SameOutside(a, b, SlotAt(d, i), SlotAt(d, i + 1))
    requires a[..d.csOff] == b[..d.csOff] && Matches(a, d, sha, j)
    ensures Matches(b, d, sha, j)
  {
    SamePage(a, b, d, j);
    SlotInside(d, j);
    StepInside(j, i, d.hashSize);
    var at := SlotAt(d, j);
    assert b[at..at + d.hashSize] == a[at..at + d.hashSize];
  }

  // Writing slot i keeps the earlier slots and every page, so slots 0..i now match.
  lemma SlotWritten(before: seq<Byte>, a: seq<Byte>, b: seq<Byte>, d: Directory, sha: seq<Byte> -> Digest, i: nat)
    requires InBounds(d, |before|) && i < d.nCode && Rehashed(before, a, d, sha, i)
    requires 0 <= i * d.pageSize <= d.codeLimit && SlotAt(d, i) + d.hashSize <= |a|
    requires b == a[..SlotAt(d, i)] + sha(Page(a, d, i))[..d.hashSize] + a[SlotAt(d, i) + d.hashSize..]
    ensures Rehashed(before, b, d, sha, i + 1)
  {
    SlotInside(d, i);
    assert a[..d.csOff] == b[..d.csOff];
    SamePage(a, b, d, i);
    forall j | 0 <= j < i
      ensures Matches(b, d, sha, j)
    {
      SlotKept(a, b, d, sha, i, j);
    }
  }

  /* The code itself. */

  method FindCodeSignature(data: array<Byte>) returns (r: Lookup<(UInt32, UInt32)>)
    requires data.Length >= 32
    ensures r == ScanCommands(data[..], LE32(data[..], 16), 32, (0, 0))
  {
    var b := data[..];
    var ncmds: nat := LE32(b, 16);
    var off: UInt32 := 32;
    var csOff: UInt32, csSize: UInt32 := 0, 0;
    for i := 0 to ncmds
      invariant ScanCommands(b, ncmds - i, off, (csOff, csSize)) == ScanCommands(b, ncmds, 32, (0, 0))
    {
      if off + 4 > |b| || Add32(off, 4) + 4 > |b| {
        return Panicked;
      }
      var cmd := LE32(b, off);
      var cmdsize := LE32(b, Add32(off, 4));
      if cmd == LC_CODE_SIGNATURE {
        if Add32(off, 8) + 4 > |b| || Add32(off, 12) + 4 > |b| {
          return Panicked;
        }
        csOff := LE32(b, Add32(off, 8));
        csSize := LE32(b, Add32(off, 12));
      }
      off := Add32(off, cmdsize);
    }
    return Found((csOff, csSize));
  }

  method FindCodeDirectory(cs: seq<Byte>) returns (r: Lookup<UInt32>)
    requires 12 <= |cs| < TWO_32
    ensures r == ScanBlobs(cs, BE32(cs, 8), 0)
  {
    var count := BE32(cs, 8);
    var i: UInt32 := 0;
    while i < count
      invariant i <= count
      invariant ScanBlobs(cs, count, i) == ScanBlobs(cs, count, 0)
    {
      if BlobEntry(i) + 4 > |cs| || Add32(BlobEntry(i), 4) + 4 > |cs| {
        return Panicked;
      }
      if BE32(cs, BlobEntry(i)) == 0 {
        return Found(BE32(cs, Add32(BlobEntry(i), 4)));
      }
      i := i + 1;
    }
    return Missing;
  }

  method LocateInSignature(cs: seq<Byte>, csOff: UInt32) returns (r: Lookup<Directory>)
    requires |cs| < TWO_32
    ensures r == LocateIn(cs, csOff)
  {
    if |cs| < 4 {
      return Panicked;
    }
    if BE32(cs, 0) != EMBEDDED_SIGNATURE_MAGIC {
      return Missing;
    }
    if |cs| < 12 {
      return Panicked;
    }
    var blob := FindCodeDirectory(cs);
    match blob {
      case Panicked => return Panicked;
      case Missing => return Missing;
      case Found(cdOff) =>
        if cdOff == 0 || Add32(cdOff, 44) > |cs| {
          return Missing;
        }
        if cdOff + 40 > |cs| {
          return Panicked;
        }
        var d := ReadDirectory(cs, csOff, cdOff);
        if d.hashSize == 0 || d.pageSize == 0 || d.nCode == 0 {
          return Missing;
        }
        return Found(d);
    }
  }

  method FindSignatureRange(data: array<Byte>) returns (r: Lookup<(UInt32, UInt32)>)
    ensures r == SignatureRange(data[..])
  {
    if data.Length < 32 || LE32(data[..], 0) != MACHO_64_MAGIC {
      return Missing;
    }
    var found := FindCodeSignature(data);
    r := AnnouncedRange(found, data.Length);
  }

  // Nothing but hash slots has changed.
  ghost predicate OnlySlots(d: Directory, before: seq<Byte>, now: seq<Byte>) {
    |now| == |before| && forall k | 0 <= k < |before| && !InSomeSlot(d, k) :: now[k] == before[k]
  }

  method WriteSlot(data: array<Byte>, d: Directory, i: UInt32, hash: seq<Byte>)
    requires i < d.nCode && |hash| == d.hashSize && d.csOff + SlotBase(d, i) + d.hashSize <= data.Length
    modifies data
    ensures data[..]
         == old(data[..d.csOff + SlotBase(d, i)]) + hash + old(data[d.csOff + SlotBase(d, i) + d.hashSize..])
    ensures OnlySlots(d, old(data[..]), data[..])
  {
    var at := d.csOff + SlotBase(d, i);
    CopyInto(data, at, hash);
    assert forall k | at <= k < at + d.hashSize :: InSomeSlot(d, k);
  }

  // What one turn of the re-hashing loop does: write a slot, leave the loop, or panic
  // on a slice whose end lies before its start or beyond the 32 bytes of a hash.
  datatype Turn = Writes | Breaks | Panics

  function TurnAt(d: Directory, len: nat, i: UInt32): Turn {
    if PageEnd(d, i) > len then Breaks
    else if PageStart(d, i) > PageEnd(d, i) then Panics
    else if SlotBase(d, i) + d.hashSize > d.csSize then Breaks
    else if d.hashSize > 32 then Panics
    else Writes
  }

  // Turn i is the first that does not write.
  ghost predicate FirstStop(d: Directory, len: nat, i: UInt32) {
    && i < d.nCode && TurnAt(d, len, i) != Writes
    && forall j: UInt32 :: j < i ==> TurnAt(d, len, j) == Writes
  }

  // For any directory at all: it depends on the directory and the length only.
  ghost predicate LoopPanics(d: Directory, len: nat) {
    exists i: UInt32 :: FirstStop(d, len, i) && TurnAt(d, len, i) == Panics
  }

  lemma StopDecides(d: Directory, len: nat, i: UInt32)
    requires FirstStop(d, len, i)
    ensures LoopPanics(d, len) <==> TurnAt(d, len, i) == Panics
  {
    forall j: UInt32 | FirstStop(d, len, j) ensures j == i {
      assert j < i ==> TurnAt(d, len, j) == Writes;
      assert i < j ==> TurnAt(d, len, i) == Writes;
    }
  }

  // In bounds, a step of the loop neither breaks off nor panics, but for one whose
  // page end has wrapped around.
  lemma StepStaysInBounds(d: Directory, len: nat, i: UInt32)
    requires InBounds(d, len) && i < d.nCode
    ensures PageEnd(d, i) <= len && SlotBase(d, i) + d.hashSize <= d.csSize
    ensures PageStart(d, i) > PageEnd(d, i) <==> i == d.nCode - 1 && d.nCode * d.pageSize >= TWO_32
  {
    PageWrapsOnlyAtTheEnd(d, len, i);
    SlotDoesNotWrap(d, len, i);
    SlotInside(d, i);
  }

  lemma TurnInBounds(d: Directory, len: nat, i: UInt32)
    requires InBounds(d, len) && i < d.nCode
    ensures TurnAt(d, len, i) == if i == d.nCode - 1 && d.nCode * d.pageSize >= TWO_32 then Panics else Writes
  {
    StepStaysInBounds(d, len, i);
  }

  // In bounds, it panics exactly when the last page would end at 2^32 or beyond.
  lemma PanicsInBoundsIff(d: Directory, len: nat)
    requires InBounds(d, len)
    ensures LoopPanics(d, len) <==> d.nCode * d.pageSize >= TWO_32
  {
    forall i: UInt32 | i < d.nCode
      ensures TurnAt(d, len, i) == if i == d.nCode - 1 && d.nCode * d.pageSize >= TWO_32 then Panics else Writes
    {
      TurnInBounds(d, len, i);
    }
    if d.nCode * d.pageSize >= TWO_32 {
      StopDecides(d, len, d.nCode - 1);
    }
  }

  // Two inputs that panic: an image in bounds with two pages of 2 GiB, and any whose
  // first page and slot are in place but whose hashes are longer than 32 bytes.
  lemma HugePagesPanic(len: nat)
    requires len >= 0x8000_0064
    ensures var d := Directory(0x8000_0000, 0x64, 12, 44, 2, 0x8000_0000, 16, 0x8000_0000);
      InBounds(d, len) && LoopPanics(d, len)
  {
    PanicsInBoundsIff(Directory(0x8000_0000, 0x64, 12, 44, 2, 0x8000_0000, 16, 0x8000_0000), len);
  }

  lemma LongHashesPanic(d: Directory, len: nat)
    requires d.nCode > 0 && d.hashSize > 32 && PageEnd(d, 0) <= len && SlotBase(d, 0) + d.hashSize <= d.csSize
    ensures LoopPanics(d, len)
  {
    StopDecides(d, len, 0);
  }

  lemma StepRehashes(before: seq<Byte>, was: seq<Byte>, now: seq<Byte>, d: Directory, sha: seq<Byte> -> Digest, i: UInt32)
    requires InBounds(d, |before|) && i < d.nCode && Rehashed(before, was, d, sha, i)
    requires PageStart(d, i) <= PageEnd(d, i) <= |was| && d.csOff + SlotBase(d, i) + d.hashSize <= |was|
    requires now == was[..d.csOff + SlotBase(d, i)]
                  + sha(was[PageStart(d, i)..PageEnd(d, i)])[..d.hashSize]
                  + was[d.csOff + SlotBase(d, i) + d.hashSize..]
    ensures Rehashed(before, now, d, sha, i + 1)
  {
    PageWrapsOnlyAtTheEnd(d, |before|, i);
    SlotDoesNotWrap(d, |before|, i);
    PageStartsInside(d, i);
    assert was[PageStart(d, i)..PageEnd(d, i)] == Page(was, d, i);
    SlotWritten(before, was, now, d, sha, i);
  }

  lemma BreakIn(d: Directory, len: nat, i: UInt32)
    requires FirstStop(d, len, i) && TurnAt(d, len, i) == Breaks
    ensures !LoopPanics(d, len) && !InBounds(d, len)
  {
    StopDecides(d, len, i);
    if InBounds(d, len) { TurnInBounds(d, len, i); }
  }

  // The re-hashing loop: slot i receives the hash of page i of the very array it
  // lies in. The result says whether the loop ran to its end or panicked.
  method RehashPages(data: array<Byte>, d: Directory, sha: seq<Byte> -> Digest) returns (completed: bool)
    requires d.csOff + d.csSize <= data.Length && d.hashSize < 256
    modifies data
    ensures OnlySlots(d, old(data[..]), data[..])
    ensures completed <==> !LoopPanics(d, data.Length)
    ensures InBounds(d, data.Length) && completed ==> Rehashed(old(data[..]), data[..], d, sha, d.nCode)
  {
    ghost var before := data[..];
    ghost var inBounds := InBounds(d, data.Length);
    var i: UInt32 := 0;
    while i < d.nCode
      invariant i <= d.nCode
      invariant forall j: UInt32 :: j < i ==> TurnAt(d, data.Length, j) == Writes
      invariant OnlySlots(d, before, data[..])
      invariant inBounds ==> Rehashed(before, data[..], d, sha, i)
    {
      var start := PageStart(d, i);
      var end := PageEnd(d, i);
      if end > data.Length {
        BreakIn(d, data.Length, i);
        return true;
      }
      if start > end {
        StopDecides(d, data.Length, i);
        return false;
      }
      var h := sha(data[start..end]);
      var slot := SlotBase(d, i);
      if slot + d.hashSize > d.csSize {
        BreakIn(d, data.Length, i);
        return true;
      }
      if d.hashSize > 32 {
        StopDecides(d, data.Length, i);
        return false;
      }
      ghost var was := data[..];
      assert data[start..end] == was[start..end];
      WriteSlot(data, d, i, h[..d.hashSize]);
      if inBounds {
        StepRehashes(before, was, data[..], d, sha, i);
      }
      i := i + 1;
    }
    return true;
  }

  ghost predicate InHashSlot(b: seq<Byte>, k: int) {
    Locate(b).Found? && InSomeSlot(Locate(b).value, k)
  }

  // Re-signing panics, in one of the three searches or in the loop.
  ghost predicate ResigningPanics(b: seq<Byte>) {
    match Locate(b)
    case Panicked => true
    case Missing => false
    case Found(d) => LoopPanics(d, |b|)
  }

  // What re-signing does to an image, and when it panics instead.
  ghost predicate Resigned(before: seq<Byte>, after: seq<Byte>, sha: seq<Byte> -> Digest, completed: bool) {
    match Locate(before)
    case Panicked => !completed && after == before
    case Missing => completed && after == before
    case Found(d) =>
      && OnlySlots(d, before, after)
      && (completed <==> !LoopPanics(d, |before|))
      && (InBounds(d, |before|) && completed ==> Rehashed(before, after, d, sha, d.nCode))
  }

  lemma ResignedKeeps(before: seq<Byte>, after: seq<Byte>, sha: seq<Byte> -> Digest, completed: bool, k: int)
    requires Resigned(before, after, sha, completed) && 0 <= k < |before| && !InHashSlot(before, k)
    ensures |after| == |before| && after[k] == before[k]
  {
  }

  method RecomputeAdHocSignature(data: array<Byte>, sha: seq<Byte> -> Digest) returns (completed: bool)
    modifies data
    ensures Resigned(old(data[..]), data[..], sha, completed) && (completed <==> !ResigningPanics(old(data[..])))
  {
    var range := FindSignatureRange(data);
    if !range.Found? {
      return range.Missing?;
    }
    var (csOff, end) := range.value;
    var located := LocateInSignature(data[csOff..end], csOff);
    assert data[csOff..end] == data[..][csOff..end];
    if !located.Found? {
      return located.Missing?;
    }
    completed := RehashPages(data, located.value, sha);
  }

  /* What the operating system sees. */

  // An image verifies when the directory found in it hashes its own pages.
  ghost predicate Verifies(b: seq<Byte>, sha: seq<Byte> -> Digest) {
    && Locate(b).Found? && InBounds(Locate(b).value, |b|)
    && forall i: nat | i < Locate(b).value.nCode :: Matches(b, Locate(b).value, sha, i)
  }

  // The load commands, the blob index and the directory header lie before the slots.
  ghost predicate SlotsLast(offs: seq<UInt32>, k: nat, d: Directory) {
    && (forall i | 0 <= i < |offs| :: offs[i] + 16 <= d.csOff)
    && 12 + 8 * (k + 1) <= d.cdOff + d.hashOffset
    && 44 <= d.hashOffset
  }

  lemma SameWord(a: seq<Byte>, b: seq<Byte>, n: nat, off: nat)
    requires off + 4 <= n <= |a| && n <= |b| && a[..n] == b[..n]
    ensures LE32(a, off) == LE32(b, off) && BE32(a, off) == BE32(b, off)
  {
    assert forall k | 0 <= k < n :: a[k] == a[..n][k] && b[k] == b[..n][k];
  }

  lemma CommandsSurvive(a: seq<Byte>, b: seq<Byte>, n: UInt32, offs: seq<UInt32>, j: nat)
    requires LastSignature(a, offs, j) && n <= |a| == |b| && a[..n] == b[..n]
    requires forall i | 0 <= i < |offs| :: offs[i] + 16 <= n
    ensures LastSignature(b, offs, j)
    ensures LE32(b, offs[j] + 8) == LE32(a, offs[j] + 8) && LE32(b, offs[j] + 12) == LE32(a, offs[j] + 12)
  {
    forall i | 0 <= i < |offs|
      ensures LE32(a, offs[i]) == LE32(b, offs[i]) && LE32(a, offs[i] + 4) == LE32(b, offs[i] + 4)
    {
      SameWord(a, b, n, offs[i]);
      SameWord(a, b, n, offs[i] + 4);
    }
    SameWord(a, b, n, offs[j] + 8);
    SameWord(a, b, n, offs[j] + 12);
  }

  lemma HeaderSurvives(a: seq<Byte>, b: seq<Byte>, n: UInt32, offs: seq<UInt32>, j: nat, d: Directory)
    requires DescribesHeader(a, offs, j, d) && n <= |a| == |b| && a[..n] == b[..n]
    requires forall i | 0 <= i < |offs| :: offs[i] + 16 <= n
    ensures DescribesHeader(b, offs, j, d)
  {
    assert offs[0] == 32;
    SameWord(a, b, n, 0);
    SameWord(a, b, n, 16);
    CommandsSurvive(a, b, n, offs, j);
  }

  lemma SignatureSurvives(cs: seq<Byte>, cs': seq<Byte>, n: nat, k: nat, d: Directory)
    requires |cs| == |cs'| && DescribesSignature(cs, k, d)
    requires 12 + 8 * (k + 1) <= n <= |cs| && d.cdOff + 44 <= n && cs[..n] == cs'[..n]
    ensures DescribesSignature(cs', k, d)
  {
    SameWord(cs, cs', n, 0);
    SameWord(cs, cs', n, 8);
    forall i | 0 <= i <= k
      ensures BE32(cs, 12 + 8 * i) == BE32(cs', 12 + 8 * i) && BE32(cs, 16 + 8 * i) == BE32(cs', 16 + 8 * i)
    {
      SameWord(cs, cs', n, 12 + 8 * i);
      SameWord(cs, cs', n, 16 + 8 * i);
    }
    SameWord(cs, cs', n, d.cdOff + 16);
    SameWord(cs, cs', n, d.cdOff + 28);
    SameWord(cs, cs', n, d.cdOff + 32);
    assert cs[d.cdOff + 36] == cs[..n][d.cdOff + 36] == cs'[d.cdOff + 36];
    assert cs[d.cdOff + 39] == cs[..n][d.cdOff + 39] == cs'[d.cdOff + 39];
  }

  lemma SliceInPrefix(a: seq<Byte>, at: nat, size: nat, m: nat)
    requires m <= size && at + size <= |a|
    ensures a[at..at + size][..m] == a[..at + m][at..] && a[..at] == a[..at + m][..at]
  {
  }

  lemma BytesBeforeSlotsKept(a: seq<Byte>, b: seq<Byte>, d: Directory)
    requires InBounds(d, |a|) && SameOutside(a, b, SlotAt(d, 0), SlotAt(d, d.nCode))
    ensures d.cdOff + d.hashOffset <= d.csSize && a[..d.csOff] == b[..d.csOff]
    ensures a[d.csOff..d.csOff + d.csSize][..d.cdOff + d.hashOffset]
         == b[d.csOff..d.csOff + d.csSize][..d.cdOff + d.hashOffset]
  {
    MulMonotone(0, d.nCode, d.hashSize);
    var m := d.cdOff + d.hashOffset;
    assert a[..d.csOff + m] == b[..d.csOff + m];
    SliceInPrefix(a, d.csOff, d.csSize, m);
    SliceInPrefix(b, d.csOff, d.csSize, m);
  }

  lemma DescriptionSurvives(a: seq<Byte>, b: seq<Byte>, offs: seq<UInt32>, j: nat, k: nat, d: Directory)
    requires Describes(a, offs, j, k, d) && SlotsLast(offs, k, d)
    requires InBounds(d, |a|) && SameOutside(a, b, SlotAt(d, 0), SlotAt(d, d.nCode))
    ensures Describes(b, offs, j, k, d)
  {
    BytesBeforeSlotsKept(a, b, d);
    HeaderSurvives(a, b, d.csOff, offs, j, d);
    var cs, cs' := a[d.csOff..d.csOff + d.csSize], b[d.csOff..d.csOff + d.csSize];
    SignatureSurvives(cs, cs', d.cdOff + d.hashOffset, k, d);
  }

  // A re-signed image verifies under its own, unchanged directory.
  lemma ResignedVerifies(
    a: seq<Byte>, b: seq<Byte>, offs: seq<UInt32>, j: nat, k: nat, d: Directory, sha: seq<Byte> -> Digest)
    requires Describes(a, offs, j, k, d) && SlotsLast(offs, k, d)
    requires InBounds(d, |a|) && Rehashed(a, b, d, sha, d.nCode)
    ensures Locate(a) == Locate(b) == Found(d) && Verifies(b, sha)
  {
    DescriptionSurvives(a, b, offs, j, k, d);
    LocateFindsDescribed(a, offs, j, k, d);
    LocateFindsDescribed(b, offs, j, k, d);
  }

  lemma DescribedPanicsIff(b: seq<Byte>, offs: seq<UInt32>, j: nat, k: nat, d: Directory)
    requires Describes(b, offs, j, k, d) && InBounds(d, |b|)
    ensures ResigningPanics(b) <==> d.nCode * d.pageSize >= TWO_32
  {
    LocateFindsDescribed(b, offs, j, k, d);
    PanicsInBoundsIff(d, |b|);
  }

  lemma DescribedVerifies(
    a: seq<Byte>, b: seq<Byte>, offs: seq<UInt32>, j: nat, k: nat, d: Directory, sha: seq<Byte> -> Digest)
    requires Describes(a, offs, j, k, d) && SlotsLast(offs, k, d) && InBounds(d, |a|)
    requires Resigned(a, b, sha, true)
    ensures Locate(b) == Found(d) && Verifies(b, sha)
  {
    LocateFindsDescribed(a, offs, j, k, d);
    ResignedVerifies(a, b, offs, j, k, d, sha);
  }

  lemma SlotByteUnique(b: seq<Byte>, c: seq<Byte>, d: Directory, sha: seq<Byte> -> Digest, i: nat, x: int)
    requires |b| == |c| && InBounds(d, |b|) && i < d.nCode && b[..d.csOff] == c[..d.csOff]
    requires Matches(b, d, sha, i) && Matches(c, d, sha, i)
    requires SlotAt(d, i) <= x < SlotAt(d, i) + d.hashSize
    ensures x < |b| && b[x] == c[x]
  {
    SlotInside(d, i);
    SamePage(b, c, d, i);
    var at := SlotAt(d, i);
    assert b[at..at + d.hashSize][x - at] == c[at..at + d.hashSize][x - at];
  }

  lemma ByteUnique(b: seq<Byte>, c: seq<Byte>, d: Directory, sha: seq<Byte> -> Digest, x: int)
    requires |b| == |c| && InBounds(d, |b|) && b[..d.csOff] == c[..d.csOff]
    requires forall i | 0 <= i < d.nCode :: Matches(b, d, sha, i) && Matches(c, d, sha, i)
    requires SlotAt(d, 0) <= x < SlotAt(d, d.nCode)
    ensures x < |b| && b[x] == c[x]
  {
    var i := (x - SlotAt(d, 0)) / d.hashSize;
    SlotOfByte(d, x, i);
    SlotByteUnique(b, c, d, sha, i, x);
  }

  // There is one way to sign given code: a verifying image is re-signed to itself.
  lemma ResigningIsUnique(a: seq<Byte>, b: seq<Byte>, c: seq<Byte>, d: Directory, sha: seq<Byte> -> Digest)
    requires InBounds(d, |a|) && Rehashed(a, b, d, sha, d.nCode) && Rehashed(b, c, d, sha, d.nCode)
    ensures b == c
  {
    assert b[..d.csOff] == c[..d.csOff];
    forall x | 0 <= x < |b|
      ensures b[x] == c[x]
    {
      if SlotAt(d, 0) <= x < SlotAt(d, d.nCode) {
        ByteUnique(b, c, d, sha, x);
      }
    }
  }

  lemma NextMultiple(i: nat, step: nat)
    ensures (i + 1) * step == i * step + step
  {
  }

  lemma PageIs(b: seq<Byte>, d: Directory, i: nat, page: nat, end: nat)
    requires page == i * d.pageSize <= d.codeLimit <= |b|
    requires end == if page + d.pageSize < d.codeLimit then page + d.pageSize else d.codeLimit
    ensures page <= end <= |b| && Page(b, d, i) == b[page..end]
  {
    NextMultiple(i, d.pageSize);
  }

  // In bytes: slot i of the directory is the start of the hash of page i.
  lemma MatchesMeans(b: seq<Byte>, d: Directory, sha: seq<Byte> -> Digest, i: nat, slot: nat, page: nat, end: nat)
    requires InBounds(d, |b|) && i < d.nCode
    requires slot == d.csOff + d.cdOff + d.hashOffset + i * d.hashSize && page == i * d.pageSize
    requires end == if page + d.pageSize < d.codeLimit then page + d.pageSize else d.codeLimit
    ensures slot + d.hashSize <= |b| && page <= end <= |b|
    ensures Matches(b, d, sha, i) <==> b[slot..slot + d.hashSize] == sha(b[page..end])[..d.hashSize]
  {
    assert SlotAt(d, i) == slot;
    SlotInside(d, i);
    PageStartsInside(d, i);
    PageIs(b, d, i, page, end);
  }

  lemma SlotOfByte(d: Directory, x: int, i: int)
    requires 0 < d.hashSize && SlotAt(d, 0) <= x < SlotAt(d, d.nCode) && i == (x - SlotAt(d, 0)) / d.hashSize
    ensures 0 <= i < d.nCode && SlotAt(d, i) <= x < SlotAt(d, i) + d.hashSize
  {
    assert SlotAt(d, d.nCode) == SlotAt(d, 0) + d.nCode * d.hashSize;
    assert SlotAt(d, i) == SlotAt(d, 0) + i * d.hashSize;
    QuotientBelow(x - SlotAt(d, 0), d.nCode, d.hashSize);
  }

  lemma QuotientBelow(y: nat, n: nat, step: nat)
    requires 0 < step && y < n * step
    ensures y / step < n && y / step * step <= y < y / step * step + step
  {
    var q := y / step;
    assert y == q * step + y % step;
    if n <= q {
      MulMonotone(n, q, step);
    }
  }
}
