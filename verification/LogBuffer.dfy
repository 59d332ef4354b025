// The log ring and its lossy subscribers (internal/logbuffer/logbuffer.go:12-79).
module LogBuffer {
  import opened Basics

  type Line = seq<char>

  const CAPACITY := 256

  function Trimmed(p: Line): (r: Line)
    ensures r <= p && (r != [] ==> r[|r| - 1] != '\n')
    ensures forall i :: |r| <= i < |p| ==> p[i] == '\n'
  {
    if p != [] && p[|p| - 1] == '\n' then Trimmed(p[..|p| - 1]) else p
  }

  // The lines of a sequence of writes: trimmed, and the empty ones left out.
  function LinesOf(writes: seq<Line>): seq<Line> {
    if writes == [] then []
    else
      LinesOf(writes[..|writes| - 1])
      + if Trimmed(writes[|writes| - 1]) == [] then [] else [Trimmed(writes[|writes| - 1])]
  }

  lemma LinesSnoc(writes: seq<Line>, p: Line)
    ensures LinesOf(writes + [p]) == if Trimmed(p) == [] then LinesOf(writes) else LinesOf(writes) + [Trimmed(p)]
  {
    assert (writes + [p])[..|writes|] == writes;
  }

  // a is what is left of b when some elements are dropped.
  ghost predicate Subsequence<T>(a: seq<T>, b: seq<T>) {
    if a == [] then true
    else
      && b != []
      && (|| Subsequence(a, b[..|b| - 1])
          || (a[|a| - 1] == b[|b| - 1] && Subsequence(a[..|a| - 1], b[..|b| - 1])))
  }

  lemma DropLast<T>(a: seq<T>, b: seq<T>, x: T)
    requires Subsequence(a, b)
    ensures Subsequence(a, b + [x])
  {
    assert (b + [x])[..|b|] == b;
  }

  lemma KeepLast<T>(a: seq<T>, b: seq<T>, x: T)
    requires Subsequence(a, b)
    ensures Subsequence(a + [x], b + [x])
  {
    assert (b + [x])[..|b|] == b && (a + [x])[..|a|] == a;
  }

  /* Channels. */

  // What a channel of 256 lets through of the lines offered to it, when this many lines
  // were buffered at each of them.
  function Kept(offered: seq<Line>, lengths: seq<nat>): seq<Line>
    requires |offered| == |lengths|
  {
    if offered == [] then []
    else
      var n := |offered| - 1;
      Kept(offered[..n], lengths[..n]) + if lengths[n] < 256 then [offered[n]] else []
  }

  lemma KeptSnoc(offered: seq<Line>, lengths: seq<nat>, entry: Line, length: nat)
    requires |offered| == |lengths|
    ensures Kept(offered + [entry], lengths + [length])
         == Kept(offered, lengths) + if length < 256 then [entry] else []
  {
    assert (offered + [entry])[..|offered|] == offered && (lengths + [length])[..|lengths|] == lengths;
  }

  lemma {:induction false} KeptInOrder(offered: seq<Line>, lengths: seq<nat>)
    requires |offered| == |lengths|
    ensures Subsequence(Kept(offered, lengths), offered)
  {
    if offered != [] {
      var n := |offered| - 1;
      var before, entry := offered[..n], offered[n];
      KeptInOrder(before, lengths[..n]);
      assert offered == before + [entry];
      if lengths[n] < 256 {
        KeepLast(Kept(before, lengths[..n]), before, entry);
      } else {
        DropLast(Kept(before, lengths[..n]), before, entry);
        assert Kept(before, lengths[..n]) + [] == Kept(before, lengths[..n]);
      }
    }
  }

  // Everything is let through exactly if the channel was never full.
  lemma {:induction false} KeptAllIff(offered: seq<Line>, lengths: seq<nat>)
    requires |offered| == |lengths|
    ensures |Kept(offered, lengths)| <= |offered|
    ensures Kept(offered, lengths) == offered <==> forall k :: 0 <= k < |lengths| ==> lengths[k] < 256
  {
    if offered != [] {
      var n := |offered| - 1;
      KeptAllIff(offered[..n], lengths[..n]);
      assert offered == offered[..n] + [offered[n]];
      if lengths[n] < 256 {
        SameUpTo(Kept(offered[..n], lengths[..n]), offered[..n], offered[n]);
      }
    }
  }

  lemma SameUpTo<T>(a: seq<T>, b: seq<T>, x: T)
    ensures a + [x] == b + [x] <==> a == b
  {
    if a + [x] == b + [x] {
      assert a == (a + [x])[..|a + [x]| - 1] && b == (b + [x])[..|b + [x]| - 1];
    }
  }

  // taken is what the subscriber has received, offered every line that the buffer has
  // tried to send, lengths how many lines were buffered at each of these tries.
  datatype Flow = Flow(
    buffer: seq<Line>, closed: bool, taken: seq<Line>, offered: seq<Line>, lengths: seq<nat>)

  ghost predicate Ok(t: Flow) {
    |t.buffer| <= CAPACITY && |t.lengths| == |t.offered| && t.taken + t.buffer == Kept(t.offered, t.lengths)
  }

  // An open channel that has been offered exactly the lines from start on.
  ghost predicate Attached(t: Flow, start: nat, lines: seq<Line>) {
    Ok(t) && !t.closed && start <= |lines| && t.offered == lines[start..]
  }

  // A send that gives up on a full channel keeps that.
  lemma OfferKeepsAttached(t: Flow, u: Flow, start: nat, lines: seq<Line>, entry: Line)
    requires Attached(t, start, lines) && u.closed == t.closed && u.taken == t.taken
    requires u.offered == t.offered + [entry] && u.lengths == t.lengths + [|t.buffer|]
    requires u.buffer == if |t.buffer| < 256 then t.buffer + [entry] else t.buffer
    ensures Attached(u, start, lines + [entry])
  {
    KeptSnoc(t.offered, t.lengths, entry, |t.buffer|);
    assert t.taken + (t.buffer + [entry]) == t.taken + t.buffer + [entry];
    assert t.taken + t.buffer + [] == t.taken + t.buffer;
    assert (lines + [entry])[start..] == lines[start..] + [entry];
  }

  lemma NewIsAttached(t: Flow, lines: seq<Line>)
    requires t == Flow([], false, [], [], [])
    ensures Attached(t, |lines|, lines)
  {
    assert lines[|lines|..] == [] && Kept([], []) == [];
  }

  class Channel {
    var buffer: seq<Line>
    var closed: bool

    ghost var taken: seq<Line>
    ghost var offered: seq<Line>
    ghost var lengths: seq<nat>
    ghost const start: nat         // how many lines were written before it

    ghost function Traffic(): Flow
      reads this
    {
      Flow(buffer, closed, taken, offered, lengths)
    }

    constructor (ghost start: nat)
      ensures Traffic() == Flow([], false, [], [], []) && this.start == start
    {
      buffer, closed, taken, offered, lengths := [], false, [], [], [];
      this.start := start;
    }

    // A send on a closed channel panics; one on a full channel is given up.
    method Offer(entry: Line)
      requires !closed
      modifies this
      ensures |old(buffer)| < 256 ==> buffer == old(buffer) + [entry]
      ensures |old(buffer)| >= 256 ==> buffer == old(buffer)
      ensures offered == old(offered) + [entry] && lengths == old(lengths) + [|old(buffer)|]
      ensures closed == old(closed) && taken == old(taken)
    {
      offered, lengths := offered + [entry], lengths + [|buffer|];
      if |buffer| < CAPACITY {
        buffer := buffer + [entry];
      }
    }

    // The subscriber's receive, when something is buffered.
    method Receive() returns (entry: Line)
      requires Ok(Traffic()) && buffer != []
      modifies `buffer, `taken
      ensures Ok(Traffic()) && taken == old(taken) + [entry] && [entry] + buffer == old(buffer)
      ensures taken + buffer == old(taken + buffer)
    {
      entry := buffer[0];
      assert taken + buffer == taken + [entry] + buffer[1..];
      taken, buffer := taken + [entry], buffer[1..];
    }

    method Close()
      requires !closed
      modifies `closed
      ensures Traffic() == old(Traffic()).(closed := true)
    {
      closed := true;
    }
  }

  /* The buffer. */

  class Buffer {
    const maxSize: nat
    var entries: seq<Line>
    var subs: map<nat, Channel>
    var nextID: nat

    ghost var writes: seq<Line>    // the argument of every write

    ghost predicate Valid()
      reads this, subs.Values
    {
      RingOk() && Distinct() && AllAttached(LinesOf(writes))
    }

    ghost predicate RingOk()
      reads `entries, `writes
    {
      entries == LastOnes(LinesOf(writes), maxSize)
    }

    // Every subscriber's channel is open and has been offered exactly the lines
    // since it subscribed.
    ghost predicate AllAttached(lines: seq<Line>)
      reads `subs, `nextID, subs.Values
    {
      forall id :: id in subs ==> id < nextID && Attached(subs[id].Traffic(), subs[id].start, lines)
    }

    ghost predicate Distinct()
      reads `subs
    {
      forall i, j :: i in subs && j in subs && i != j ==> subs[i] != subs[j]
    }

    constructor (maxSize: nat)
      ensures Valid() && this.maxSize == maxSize && writes == [] && subs == map[]
    {
      this.maxSize := maxSize;
      entries, subs, nextID, writes := [], map[], 0, [];
    }

    // The send loop.
    method OfferAll(line: Line)
      requires Distinct() && forall id :: id in subs ==> !subs[id].closed
      modifies subs.Values
      ensures forall id :: id in subs ==>
        subs[id].buffer
        == if |old(subs[id].buffer)| < 256 then old(subs[id].buffer) + [line] else old(subs[id].buffer)
      ensures forall id :: id in subs ==> subs[id].offered == old(subs[id].offered) + [line]
      ensures forall id :: id in subs ==> subs[id].lengths == old(subs[id].lengths) + [|old(subs[id].buffer)|]
      ensures forall id :: id in subs ==> subs[id].closed == old(subs[id].closed) && subs[id].taken == old(subs[id].taken)
    {
      var todo := subs.Keys;
      while todo != {}
        invariant todo <= subs.Keys
        invariant forall id :: id in todo ==> unchanged(subs[id])
        invariant forall id :: id in subs && id !in todo ==>
          subs[id].buffer
          == if |old(subs[id].buffer)| < 256 then old(subs[id].buffer) + [line] else old(subs[id].buffer)
        invariant forall id :: id in subs && id !in todo ==> subs[id].offered == old(subs[id].offered) + [line]
        invariant forall id :: id in subs && id !in todo ==>
          subs[id].lengths == old(subs[id].lengths) + [|old(subs[id].buffer)|]
        invariant forall id :: id in subs && id !in todo ==>
          subs[id].closed == old(subs[id].closed) && subs[id].taken == old(subs[id].taken)
        decreases todo
      {
        var id :| id in todo;
        subs[id].Offer(line);
        todo := todo - {id};
      }
    }

    method Deliver(line: Line, ghost lines: seq<Line>)
      requires Distinct() && AllAttached(lines)
      modifies subs.Values
      ensures AllAttached(lines + [line])
      ensures forall id :: id in subs ==>
        subs[id].buffer
        == if |old(subs[id].buffer)| < 256 then old(subs[id].buffer) + [line] else old(subs[id].buffer)
      ensures forall id :: id in subs ==> subs[id].lengths == old(subs[id].lengths) + [|old(subs[id].buffer)|]
    {
      OfferAll(line);
      forall id | id in subs ensures Attached(subs[id].Traffic(), subs[id].start, lines + [line]) {
        OfferKeepsAttached(old(subs[id].Traffic()), subs[id].Traffic(), subs[id].start, lines, line);
      }
    }

    // Write as far as the ring goes.
    method Append(p: Line) returns (line: Line)
      requires RingOk()
      modifies `entries, `writes
      ensures RingOk() && line == Trimmed(p) && writes == old(writes) + [p]
      ensures LinesOf(writes) == if line == [] then LinesOf(old(writes)) else LinesOf(old(writes)) + [line]
    {
      line := Trimmed(p);
      LinesSnoc(writes, p);
      LastOnesSnoc(LinesOf(writes), maxSize, line);
      writes := writes + [p];
      if |line| == 0 {
        return;
      }
      Push(line);
    }

    method Push(line: Line)
      modifies `entries
      ensures entries == LastOnes(old(entries) + [line], maxSize)
    {
      entries := entries + [line];
      if |entries| > maxSize {
        entries := entries[|entries| - maxSize..];
      }
    }

    method Write(p: Line) returns (n: nat)
      requires Valid()
      modifies this`entries, this`writes, subs.Values
      ensures Valid() && writes == old(writes) + [p] && n == |p|
      ensures Trimmed(p) == [] ==> forall id :: id in subs ==> unchanged(subs[id])
      ensures Trimmed(p) != [] ==>
        forall id :: id in subs ==>
          subs[id].buffer
          == if |old(subs[id].buffer)| < 256 then old(subs[id].buffer) + [Trimmed(p)] else old(subs[id].buffer)
      ensures Trimmed(p) != [] ==>
        forall id :: id in subs ==> subs[id].lengths == old(subs[id].lengths) + [|old(subs[id].buffer)|]
    {
      ghost var lines := LinesOf(writes);
      var line := Append(p);
      n := |p|;
      assert forall id :: id in subs ==> unchanged(subs[id]);
      assert AllAttached(lines);
      if |line| == 0 {
        return;
      }
      Deliver(line, lines);
    }

    // A snapshot of the last maxSize non-empty lines, oldest first.
    method GetAll() returns (result: seq<Line>)
      requires Valid()
      ensures result == LastOnes(LinesOf(writes), maxSize)
    {
      result := entries;
    }

    method Subscribe() returns (id: nat, ch: Channel)
      requires Valid()
      modifies `subs, `nextID
      ensures Valid() && fresh(ch) && id !in old(subs) && subs == old(subs)[id := ch]
      ensures ch.start == |LinesOf(writes)| && ch.offered == [] && ch.buffer == [] && ch.lengths == []
    {
      ghost var lines := LinesOf(writes);
      ch := new Channel(|lines|);
      NewIsAttached(ch.Traffic(), lines);
      id := nextID;
      Attach(id, ch, lines);
    }

    method Attach(id: nat, ch: Channel, ghost lines: seq<Line>)
      requires Distinct() && AllAttached(lines) && id == nextID && ch !in subs.Values
      requires Attached(ch.Traffic(), ch.start, lines)
      modifies `subs, `nextID
      ensures Distinct() && AllAttached(lines) && subs == old(subs)[id := ch] && id !in old(subs)
    {
      nextID := nextID + 1;
      subs := subs[id := ch];
    }

    method Detach(id: nat) returns (ch: Channel)
      requires Valid() && id in subs
      modifies `subs
      ensures Valid() && subs == old(subs) - {id} && ch == old(subs)[id] && !ch.closed && ch !in subs.Values
    {
      ch := subs[id];
      subs := subs - {id};
    }

    // An unknown id is ignored. The closed channel is never offered anything again,
    // since it is no longer a subscriber's.
    method Unsubscribe(id: nat)
      requires Valid()
      modifies `subs, subs.Values
      ensures Valid() && subs == old(subs) - {id}
      ensures id in old(subs) ==> old(subs[id]).Traffic() == old(subs[id].Traffic()).(closed := true)
      ensures id in old(subs) ==> old(subs[id]) !in subs.Values
      ensures forall i :: i in subs ==> unchanged(subs[i])
    {
      if id in subs {
        var ch := Detach(id);
        ch.Close();
      }
    }
  }

  // A receive by one subscriber leaves the buffer valid.
  method Consume(b: Buffer, id: nat) returns (entry: Line)
    requires b.Valid() && id in b.subs && b.subs[id].buffer != []
    modifies b.subs[id]
    ensures b.Valid() && b.subs[id].taken == old(b.subs[id].taken) + [entry]
    ensures [entry] + b.subs[id].buffer == old(b.subs[id].buffer)
  {
    entry := b.subs[id].Receive();
  }

  // What a subscriber has or can still get: of the lines written since it subscribed,
  // in order, exactly those at whose write fewer than 256 lines were buffered.
  lemma DeliveredLines(b: Buffer, id: nat)
    requires b.Valid() && id in b.subs
    ensures var ch, lines := b.subs[id], LinesOf(b.writes);
      && ch.start <= |lines| && |ch.lengths| == |lines| - ch.start
      && ch.taken + ch.buffer == Kept(lines[ch.start..], ch.lengths)
      && Subsequence(ch.taken + ch.buffer, lines[ch.start..])
      && (ch.taken + ch.buffer == lines[ch.start..] <==> forall k :: 0 <= k < |ch.lengths| ==> ch.lengths[k] < 256)
  {
    KeptInOrder(b.subs[id].offered, b.subs[id].lengths);
    KeptAllIff(b.subs[id].offered, b.subs[id].lengths);
  }
}
