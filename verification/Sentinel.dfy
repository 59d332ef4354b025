// The manager-URL sentinel: the manager writes the URL into a downloaded client
// binary (internal/manager/api/download.go, patchSentinel) and the client reads
// it back at start-up (internal/client/config/config.go, resolveManagerURL).
module Sentinel {
  import opened Basics
  import opened Bytes
  import opened Search
  import opened CodeSignature

  const SLOT_SIZE: nat := 256
  const TEXT_SIZE: nat := 24

  // $$SYNERGIA_MANAGER_URL$$
  const TEXT: seq<Byte> := [36, 36, 83, 89, 78, 69, 82, 71, 73, 65, 95, 77,
                            65, 78, 65, 71, 69, 82, 95, 85, 82, 76, 36, 36]

  // The bytes of an ASCII text.
  ghost predicate Spells(b: seq<Byte>, s: string) {
    |b| == |s| && forall i :: 0 <= i < |b| ==> b[i] == s[i] as int
  }

  lemma TextIs()
    ensures Spells(TEXT, "$$SYNERGIA_MANAGER_URL$$") && |TEXT| == TEXT_SIZE == 24 && SLOT_SIZE == 256
  {
  }

  datatype PatchResult =
    | Patched(image: array<Byte>)
    | NotFound
    | TooCloseToEnd
    | UrlTooLong
    | MultipleSentinels
    | SigningPanicked

  // The URL, null-padded to fill the slot.
  function Slot(url: seq<Byte>): (r: seq<Byte>)
    requires |url| < SLOT_SIZE
    ensures |r| == SLOT_SIZE
  {
    url + seq(SLOT_SIZE - |url|, _ => 0)
  }

  // The image with the slot written, before its pages are hashed again.
  function Written(b: seq<Byte>, idx: nat, url: seq<Byte>): (r: seq<Byte>)
    requires |url| < SLOT_SIZE && idx + SLOT_SIZE <= |b|
    ensures |r| == |b|
  {
    b[..idx] + Slot(url) + b[idx + SLOT_SIZE..]
  }

  // Everything the checks of patchSentinel establish before it writes.
  ghost predicate Patchable(b: seq<Byte>, url: seq<Byte>) {
    var idx := FirstIndex(b, TEXT);
    0 <= idx && idx + SLOT_SIZE <= |b| && |url| < SLOT_SIZE && !Contains(b[idx + SLOT_SIZE..], TEXT)
  }

  lemma WrittenTail(b: seq<Byte>, idx: nat, url: seq<Byte>)
    requires |url| < SLOT_SIZE && idx + SLOT_SIZE <= |b|
    ensures Written(b, idx, url)[idx + SLOT_SIZE..] == b[idx + SLOT_SIZE..]
  {
  }

  method ContainsSentinel(s: seq<Byte>) returns (found: bool)
    ensures found <==> Contains(s, TEXT)
  {
    var i := FirstIndex(s, TEXT);
    found := i != -1;
    assert found ==> OccursAt(s, TEXT, i);
  }

  // The copy with the slot written, and whether another sentinel follows it.
  method CopyWithSlot(data: array<Byte>, idx: nat, url: seq<Byte>) returns (result: array<Byte>, second: bool)
    requires |url| < SLOT_SIZE && idx + SLOT_SIZE <= data.Length
    ensures fresh(result) && result[..] == Written(data[..], idx, url)
    ensures second <==> Contains(data[idx + SLOT_SIZE..], TEXT)
  {
    result := new Byte[data.Length](i requires 0 <= i < data.Length reads data => data[i]);
    assert result[..] == data[..];
    CopyInto(result, idx, Slot(url));
    WrittenTail(data[..], idx, url);
    assert result[idx + SLOT_SIZE..] == result[..][idx + SLOT_SIZE..];
    second := ContainsSentinel(result[idx + SLOT_SIZE..]);
  }

  method PatchSentinel(data: array<Byte>, url: seq<Byte>, sha: seq<Byte> -> Digest) returns (r: PatchResult)
    ensures r.NotFound? <==> !Contains(data[..], TEXT)
    ensures r.TooCloseToEnd? <==> var idx := FirstIndex(data[..], TEXT); 0 <= idx && idx + SLOT_SIZE > data.Length
    ensures r.UrlTooLong? <==>
            var idx := FirstIndex(data[..], TEXT); 0 <= idx && idx + SLOT_SIZE <= data.Length && |url| >= SLOT_SIZE
    ensures r.Patched? || r.SigningPanicked? <==> Patchable(data[..], url)
    ensures r.Patched? ==>
              && fresh(r.image)
              && Resigned(Written(data[..], FirstIndex(data[..], TEXT), url), r.image[..], sha, true)
    ensures r.SigningPanicked? <==>
              Patchable(data[..], url) && ResigningPanics(Written(data[..], FirstIndex(data[..], TEXT), url))
  {
    var b := data[..];
    var idx := FirstIndex(b, TEXT);
    if idx == -1 {
      return NotFound;
    }
    assert OccursAt(b, TEXT, idx);
    if idx + SLOT_SIZE > data.Length {
      return TooCloseToEnd;
    }
    if |url| >= SLOT_SIZE {
      return UrlTooLong;
    }
    var result, second := CopyWithSlot(data, idx, url);
    if second {
      return MultipleSentinels;
    }
    var completed := RecomputeAdHocSignature(result, sha);
    return if completed then Patched(result) else SigningPanicked;
  }

  function TrimRightNul(s: seq<Byte>): (r: seq<Byte>)
    ensures |r| <= |s| && r == s[..|r|]
    ensures r == [] || r[|r| - 1] != 0
    ensures forall k | |r| <= k < |s| :: s[k] == 0
  {
    if s != [] && s[|s| - 1] == 0 then TrimRightNul(s[..|s| - 1]) else s
  }

  // The client compares the URL with the first bytes of the same, possibly
  // patched, slot.
  function ResolveManagerUrl(slot: seq<Byte>): seq<Byte>
    requires |slot| == SLOT_SIZE
  {
    var url := TrimRightNul(slot);
    if url == slot[..TEXT_SIZE] || url == [] then [] else url
  }

  lemma TrimRightNulIs(s: seq<Byte>, n: nat)
    requires n <= |s| && (n == 0 || s[n - 1] != 0) && forall k | n <= k < |s| :: s[k] == 0
    ensures TrimRightNul(s) == s[..n]
  {
  }

  // The URL survives the round trip exactly when it has no trailing null byte
  // and is not as long as the sentinel text.
  lemma RoundTrip(url: seq<Byte>)
    requires |url| < SLOT_SIZE
    ensures ResolveManagerUrl(Slot(url)) == url
       <==> url == [] || (url[|url| - 1] != 0 && |url| != TEXT_SIZE)
  {
    var slot := Slot(url);
    var trimmed := TrimRightNul(slot);
    assert slot[..|url|] == url;
    if url == [] || url[|url| - 1] != 0 {
      TrimRightNulIs(slot, |url|);
      assert trimmed == url;
      assert |url| == TEXT_SIZE ==> slot[..TEXT_SIZE] == url;
    }
  }

  // The URL that the download handler patches in.
  function ManagerUrl(secure: bool, host: seq<Byte>): seq<Byte> {
    (if secure then [119, 115, 115] else [119, 115])
    + [58, 47, 47] + host + [47, 119, 115, 47, 119, 111, 114, 107, 101, 114]
  }

  lemma ManagerUrlIs(host: seq<Byte>)
    ensures var url, n := ManagerUrl(true, host), |host|;
      && |url| == 16 + n && Spells(url[..6], "wss://") && url[6..6 + n] == host
      && Spells(url[6 + n..], "/ws/worker")
    ensures var url, n := ManagerUrl(false, host), |host|;
      && |url| == 15 + n && Spells(url[..5], "ws://") && url[5..5 + n] == host
      && Spells(url[5 + n..], "/ws/worker")
  {
  }

  lemma ManagerUrlRoundTrip(secure: bool, host: seq<Byte>)
    requires |ManagerUrl(secure, host)| < SLOT_SIZE
    ensures ResolveManagerUrl(Slot(ManagerUrl(secure, host))) == ManagerUrl(secure, host)
       <==> |host| != if secure then 8 else 9
  {
    RoundTrip(ManagerUrl(secure, host));
  }

  // ws://localhost/ws/worker is 24 bytes long: the client takes it for the
  // unpatched sentinel.
  lemma LocalhostIsLost(url: seq<Byte>)
    requires Spells(url, "ws://localhost/ws/worker")
    ensures |url| < SLOT_SIZE && ResolveManagerUrl(Slot(url)) == []
  {
    assert |url| == TEXT_SIZE && url[23] == 'r' as int;
    TrimRightNulIs(Slot(url), |url|);
    assert Slot(url)[..|url|] == url;
  }

  lemma WrittenPadding(b: seq<Byte>, idx: nat, url: seq<Byte>, p: nat)
    requires |url| < SLOT_SIZE && idx + SLOT_SIZE <= |b| && idx + |url| <= p < idx + SLOT_SIZE
    ensures Written(b, idx, url)[p] == 0 && 0 !in TEXT
  {
  }

  lemma OccurrenceAfterSlot(b: seq<Byte>, idx: nat, url: seq<Byte>, i: nat)
    requires |url| < SLOT_SIZE && idx + SLOT_SIZE <= |b| && idx + SLOT_SIZE <= i
    requires OccursAt(Written(b, idx, url), TEXT, i)
    ensures OccursAt(b[idx + SLOT_SIZE..], TEXT, i - idx - SLOT_SIZE)
  {
    var w := Written(b, idx, url);
    var tail := b[idx + SLOT_SIZE..];
    var j := i - idx - SLOT_SIZE;
    assert w[i..i + TEXT_SIZE] == tail[j..j + TEXT_SIZE];
    OccurrenceShifts(w, tail, TEXT, i, j);
  }

  lemma OccurrenceBeforeUrlEnd(b: seq<Byte>, url: seq<Byte>, i: int)
    requires Patchable(b, url) && OccursAt(Written(b, FirstIndex(b, TEXT), url), TEXT, i)
    ensures i + TEXT_SIZE <= FirstIndex(b, TEXT) + |url|
  {
    var idx := FirstIndex(b, TEXT);
    var n := idx + |url|;
    if i >= idx + SLOT_SIZE {
      OccurrenceAfterSlot(b, idx, url, i);
    } else if i + TEXT_SIZE > n {
      var p := if i < n then n else i;
      WrittenPadding(b, idx, url, p);
      InsideOccurrence(Written(b, idx, url), TEXT, i, p);
    }
  }

  // After writing, the sentinel text is where it can be seen in the bytes up to
  // the end of the URL, and nowhere else.
  lemma SentinelLeftBehind(b: seq<Byte>, url: seq<Byte>)
    requires Patchable(b, url)
    ensures var idx := FirstIndex(b, TEXT);
            Contains(Written(b, idx, url), TEXT) <==> Contains(b[..idx] + url, TEXT)
  {
    var idx := FirstIndex(b, TEXT);
    var w := Written(b, idx, url);
    var head := b[..idx] + url;
    assert w[..|head|] == head;
    forall i | OccursAt(w, TEXT, i)
      ensures OccursAt(head, TEXT, i)
    {
      OccurrenceBeforeUrlEnd(b, url, i);
      assert w[i..i + TEXT_SIZE] == w[..|head|][i..i + TEXT_SIZE];
    }
    forall i | OccursAt(head, TEXT, i)
      ensures OccursAt(w, TEXT, i)
    {
      assert w[i..i + TEXT_SIZE] == w[..|head|][i..i + TEXT_SIZE];
    }
  }

  lemma OccurrenceInUrl(b: seq<Byte>, url: seq<Byte>, i: int)
    requires FirstIndex(b, TEXT) >= 0 && url != [] && url[0] !in TEXT
    requires OccursAt(b[..FirstIndex(b, TEXT)] + url, TEXT, i)
    ensures OccursAt(url, TEXT, i - FirstIndex(b, TEXT))
  {
    var idx := FirstIndex(b, TEXT);
    var head := b[..idx] + url;
    if i + TEXT_SIZE <= idx {
      assert head[i..i + TEXT_SIZE] == b[i..i + TEXT_SIZE];
      OccurrenceShifts(head, b, TEXT, i, i);
    } else if i < idx {
      InsideOccurrence(head, TEXT, i, idx);
    } else {
      assert head[i..i + TEXT_SIZE] == url[i - idx..i - idx + TEXT_SIZE];
    }
  }

  lemma OnlyTheUrlCanHoldTheSentinel(b: seq<Byte>, url: seq<Byte>)
    requires Patchable(b, url) && url != [] && url[0] !in TEXT
    ensures Contains(Written(b, FirstIndex(b, TEXT), url), TEXT) <==> Contains(url, TEXT)
  {
    SentinelLeftBehind(b, url);
    var idx := FirstIndex(b, TEXT);
    var head := b[..idx] + url;
    forall i | OccursAt(head, TEXT, i)
      ensures OccursAt(url, TEXT, i - idx)
    {
      OccurrenceInUrl(b, url, i);
    }
    forall i | OccursAt(url, TEXT, i)
      ensures OccursAt(head, TEXT, idx + i)
    {
      assert head[idx + i..idx + i + TEXT_SIZE] == url[i..i + TEXT_SIZE];
    }
  }

  lemma SlotReadsBack(b: seq<Byte>, idx: nat, image: seq<Byte>, secure: bool, host: seq<Byte>)
    requires |ManagerUrl(secure, host)| < SLOT_SIZE && idx + SLOT_SIZE <= |b| == |image|
    requires image[idx..idx + SLOT_SIZE] == Written(b, idx, ManagerUrl(secure, host))[idx..idx + SLOT_SIZE]
    ensures ResolveManagerUrl(image[idx..idx + SLOT_SIZE]) == ManagerUrl(secure, host)
       <==> |host| != if secure then 8 else 9
  {
    var url := ManagerUrl(secure, host);
    assert Written(b, idx, url)[idx..idx + SLOT_SIZE] == Slot(url);
    ManagerUrlRoundTrip(secure, host);
  }

  lemma OnlySlotsKeepRange(d: Directory, w: seq<Byte>, image: seq<Byte>, from: nat, to: nat)
    requires OnlySlots(d, w, image) && from <= to <= |w|
    requires forall k | from <= k < to :: !InSomeSlot(d, k)
    ensures |image| == |w| && image[from..to] == w[from..to]
  {
  }

  lemma ResignedKeepsRange(w: seq<Byte>, image: seq<Byte>, sha: seq<Byte> -> Digest, from: nat, to: nat)
    requires Resigned(w, image, sha, true) && from <= to <= |w|
    requires forall k | from <= k < to :: !InHashSlot(w, k)
    ensures |image| == |w| && image[from..to] == w[from..to]
  {
    if Locate(w).Found? {
      var d := Locate(w).value;
      assert forall k | from <= k < to :: InSomeSlot(d, k) ==> InHashSlot(w, k);
      OnlySlotsKeepRange(d, w, image, from, to);
    }
  }

  // The client that runs the patched image reads the URL back, unless the URL is
  // as long as the sentinel text. Wherever the slot is: a patchable image has it at
  // FirstIndex(b, TEXT).
  lemma PatchedClientResolves(
    b: seq<Byte>, idx: nat, w: seq<Byte>, image: seq<Byte>, secure: bool, host: seq<Byte>, sha: seq<Byte> -> Digest)
    requires |ManagerUrl(secure, host)| < SLOT_SIZE && idx + SLOT_SIZE <= |b|
    requires w == Written(b, idx, ManagerUrl(secure, host)) && Resigned(w, image, sha, true)
    requires forall k | idx <= k < idx + SLOT_SIZE :: !InHashSlot(w, k)
    ensures |image| == |b|
    ensures ResolveManagerUrl(image[idx..idx + SLOT_SIZE]) == ManagerUrl(secure, host)
       <==> |host| != if secure then 8 else 9
  {
    ResignedKeepsRange(w, image, sha, idx, idx + SLOT_SIZE);
    SlotReadsBack(b, idx, image, secure, host);
  }

  lemma WrittenKeeps(b: seq<Byte>, idx: nat, url: seq<Byte>, k: nat)
    requires |url| < SLOT_SIZE && idx + SLOT_SIZE <= |b| && k < |b| && !(idx <= k < idx + SLOT_SIZE)
    ensures Written(b, idx, url)[k] == b[k]
  {
  }

  // Patching keeps every byte that is neither in the URL slot nor in a hash slot.
  lemma PatchedBytesKept(
    b: seq<Byte>, w: seq<Byte>, image: seq<Byte>, url: seq<Byte>, sha: seq<Byte> -> Digest, k: nat)
    requires Patchable(b, url) && w == Written(b, FirstIndex(b, TEXT), url) && Resigned(w, image, sha, true)
    requires k < |b| && !(FirstIndex(b, TEXT) <= k < FirstIndex(b, TEXT) + SLOT_SIZE) && !InHashSlot(w, k)
    ensures |image| == |b| && image[k] == b[k]
  {
    WrittenKeeps(b, FirstIndex(b, TEXT), url, k);
    ResignedKeeps(w, image, sha, true, k);
  }

  lemma WrittenBeforeAndAfter(b: seq<Byte>, idx: nat, url: seq<Byte>, from: nat)
    requires |url| < SLOT_SIZE && idx + SLOT_SIZE <= from <= |b|
    ensures Written(b, idx, url)[..idx] == b[..idx] && Written(b, idx, url)[from..] == b[from..]
  {
  }

  // Writing into code behind the load commands leaves the description alone.
  lemma WrittenDescribed(
    b: seq<Byte>, idx: nat, url: seq<Byte>, offs: seq<UInt32>, j: nat, k: nat, d: Directory)
    requires |url| < SLOT_SIZE && Describes(b, offs, j, k, d) && idx + SLOT_SIZE <= d.csOff
    requires forall i | 0 <= i < |offs| :: offs[i] + 16 <= idx
    ensures Describes(Written(b, idx, url), offs, j, k, d)
  {
    var w := Written(b, idx, url);
    WrittenBeforeAndAfter(b, idx, url, d.csOff);
    HeaderSurvives(b, w, idx, offs, j, d);
    assert w[d.csOff..d.csOff + d.csSize] == w[d.csOff..][..d.csSize];
    assert b[d.csOff..d.csOff + d.csSize] == b[d.csOff..][..d.csSize];
  }

  // A described image whose URL slot lies between its load commands and its signature:
  // patching panics exactly if the last page would end at 2^32 or beyond, and the image
  // that it returns verifies under the same directory.
  lemma PatchedImageVerifies(
    b: seq<Byte>, url: seq<Byte>, w: seq<Byte>, offs: seq<UInt32>, j: nat, k: nat, d: Directory,
    sha: seq<Byte> -> Digest)
    requires Patchable(b, url) && w == Written(b, FirstIndex(b, TEXT), url)
    requires Describes(b, offs, j, k, d) && SlotsLast(offs, k, d) && InBounds(d, |b|)
    requires FirstIndex(b, TEXT) + SLOT_SIZE <= d.csOff
    requires forall i | 0 <= i < |offs| :: offs[i] + 16 <= FirstIndex(b, TEXT)
    ensures ResigningPanics(w) <==> d.nCode * d.pageSize >= TWO_32
    ensures forall image | Resigned(w, image, sha, true) :: Locate(image) == Found(d) && Verifies(image, sha)
  {
    WrittenDescribed(b, FirstIndex(b, TEXT), url, offs, j, k, d);
    DescribedPanicsIff(w, offs, j, k, d);
    forall image | Resigned(w, image, sha, true) ensures Locate(image) == Found(d) && Verifies(image, sha) {
      DescribedVerifies(w, image, offs, j, k, d, sha);
    }
  }
}
