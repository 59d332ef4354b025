// The methods of the queue as steps of the dispatch protocol: what DispatchProtocol.dfy
// interleaves is what Queue.dfy does (internal/manager/queue/queue.go:31-88).
module QueueProtocol {
  import opened Basics
  import opened Queue
  import P = DispatchProtocol

  function ResultReply(r: Result): P.Reply {
    P.Reply.Result(r.id, r.processingMs)
  }

  function ErrorAsReply(e: ErrorReply): P.Reply {
    P.Reply.Error(e.id, e.message)
  }

  function ResultReplies(results: seq<Result>): seq<P.Reply> {
    seq(|results|, i requires 0 <= i < |results| => ResultReply(results[i]))
  }

  function ErrorReplies(errors: seq<ErrorReply>): seq<P.Reply> {
    seq(|errors|, i requires 0 <= i < |errors| => ErrorAsReply(errors[i]))
  }

  // The slots that were registered, by unit, and what is buffered in them.
  type Slots = map<nat, PendingUnit>

  datatype Buffered = Buffered(results: seq<Result>, errors: seq<ErrorReply>)

  ghost function Buffers(slots: Slots): map<nat, Buffered>
    reads set n | n in slots :: slots[n].resultCh, set n | n in slots :: slots[n].errorCh
  {
    map n | n in slots :: Buffered(slots[n].resultCh.buffered, slots[n].errorCh.buffered)
  }

  // The slot of an identifier, if it is pending, holds this now.
  ghost function After(
    buffers: map<nat, Buffered>, units: map<string, nat>, id: string, now: Buffered): map<nat, Buffered>
  {
    if id in units then buffers[units[id] := now] else buffers
  }

  ghost predicate Separate(slots: Slots) {
    forall m, n :: m in slots && n in slots && m != n ==>
      slots[m].resultCh != slots[n].resultCh && slots[m].errorCh != slots[n].errorCh
  }

  ghost predicate Linked(pending: map<string, PendingUnit>, slots: Slots, units: map<string, nat>) {
    && pending.Keys == units.Keys
    && forall id :: id in units ==> units[id] in slots && pending[id] == slots[units[id]]
  }

  ghost predicate Holds(buffers: map<nat, Buffered>, units: map<nat, P.Unit>) {
    forall n :: n in buffers ==>
      && n in units
      && units[n].results == ResultReplies(buffers[n].results)
      && units[n].errors == ErrorReplies(buffers[n].errors)
  }

  // The queue is the one of the protocol's state.
  ghost predicate Shows(q: UnitQueue, slots: Slots, s: P.State)
    reads q, set n | n in slots :: slots[n].resultCh, set n | n in slots :: slots[n].errorCh
  {
    Separate(slots) && Linked(q.pending, slots, s.pending) && Holds(Buffers(slots), s.units)
  }

  function TakenAndSent(s: P.State, loop: nat, reply: P.Reply): P.State {
    P.Step(P.Step(s, P.Take(loop, reply)), P.Send(loop))
  }

  // A new identifier, until the counter wraps around.
  method NextIDIsStep(q: UnitQueue, ghost slots: Slots, ghost s: P.State, nowMs: nat, ghost isBatch: bool)
    returns (id: string, ghost t: P.State)
    requires q.Valid() && Shows(q, slots, s) && q.counter == s.counter < 0xffff_ffff_ffff_ffff
    requires s.counter + 1 !in slots
    modifies q`counter
    ensures q.Valid() && Shows(q, slots, t) && q.counter == t.counter
    ensures t == P.Step(s, P.NextID(nowMs, isBatch))
    ensures t.counter in t.units && t.units[t.counter] == P.Unit(id, isBatch, P.Issued, [], [], [], false, None)
  {
    t := P.Step(s, P.NextID(nowMs, isBatch));
    id := q.NextID(nowMs);
  }

  // What the two steps of a reply do to a slot with empty channels.
  lemma ReplyReaches(s: P.State, loop: nat, reply: P.Reply, t: P.State)
    requires loop !in s.inFlight && t == TakenAndSent(s, loop, reply)
    requires reply.id in s.pending ==>
      && s.pending[reply.id] in s.units
      && s.units[s.pending[reply.id]].results == [] && s.units[s.pending[reply.id]].errors == []
    ensures t.pending == s.pending - {reply.id}
    ensures t.units == if reply.id !in s.pending then s.units
      else s.units[s.pending[reply.id] := P.Delivered(s.units[s.pending[reply.id]], reply)]
  {
  }

  lemma ResultHolds(buffers: map<nat, Buffered>, units: map<nat, P.Unit>, n: nat, r: Result)
    requires Holds(buffers, units) && n in buffers && buffers[n] == Buffered([], [])
    ensures Holds(buffers[n := Buffered([r], [])], units[n := P.Delivered(units[n], ResultReply(r))])
  {
  }

  lemma ErrorHolds(buffers: map<nat, Buffered>, units: map<nat, P.Unit>, n: nat, e: ErrorReply)
    requires Holds(buffers, units) && n in buffers && buffers[n] == Buffered([], [])
    ensures Holds(buffers[n := Buffered([], [e])], units[n := P.Delivered(units[n], ErrorAsReply(e))])
  {
  }

  lemma PendingIsEmpty(q: UnitQueue, slots: Slots, s: P.State, id: string)
    requires q.Valid() && Shows(q, slots, s) && id in s.pending
    ensures var n := s.pending[id];
      n in slots && q.pending[id] == slots[n] && Buffers(slots)[n] == Buffered([], [])
      && n in s.units && s.units[n].results == [] && s.units[n].errors == []
  {
    var n := s.pending[id];
    assert n in Buffers(slots);
  }

  method ResolveSlots(q: UnitQueue, ghost slots: Slots, ghost units: map<string, nat>, result: Result)
    returns (delivered: bool)
    requires q.Valid() && Separate(slots) && Linked(q.pending, slots, units)
    modifies q`pending
    modifies if result.id in q.pending then {q.pending[result.id].resultCh} else {}
    ensures q.Valid() && Linked(q.pending, slots, units - {result.id}) && delivered == (result.id in units)
    ensures forall m :: m in slots ==> slots[m].errorCh.buffered == old(slots[m].errorCh.buffered)
    ensures forall m :: m in slots ==>
      slots[m].resultCh.buffered
      == if result.id in units && m == units[result.id] then [result] else old(slots[m].resultCh.buffered)
  {
    delivered := q.Resolve(result.id, result);
  }

  method ResolveBuffers(q: UnitQueue, ghost slots: Slots, ghost units: map<string, nat>, result: Result)
    returns (delivered: bool)
    requires q.Valid() && Separate(slots) && Linked(q.pending, slots, units)
    modifies q`pending
    modifies if result.id in q.pending then {q.pending[result.id].resultCh} else {}
    ensures q.Valid() && Linked(q.pending, slots, units - {result.id}) && delivered == (result.id in units)
    ensures Buffers(slots) == After(old(Buffers(slots)), units, result.id, Buffered([result], []))
  {
    delivered := ResolveSlots(q, slots, units, result);
  }

  lemma ResolveReaches(q: UnitQueue, slots: Slots, s: P.State, loop: nat, result: Result) returns (t: P.State)
    requires q.Valid() && Shows(q, slots, s) && loop !in s.inFlight
    ensures t == TakenAndSent(s, loop, ResultReply(result)) && t.pending == s.pending - {result.id}
    ensures Holds(After(Buffers(slots), s.pending, result.id, Buffered([result], [])), t.units)
  {
    t := TakenAndSent(s, loop, ResultReply(result));
    if result.id in s.pending {
      PendingIsEmpty(q, slots, s, result.id);
      ResultHolds(Buffers(slots), s.units, s.pending[result.id], result);
    }
    ReplyReaches(s, loop, ResultReply(result), t);
  }

  // Resolve is the removal of the slot and the send, one after the other.
  method ResolveIsTakeAndSend(q: UnitQueue, ghost slots: Slots, ghost s: P.State, ghost loop: nat, result: Result)
    returns (delivered: bool, ghost t: P.State)
    requires q.Valid() && Shows(q, slots, s) && loop !in s.inFlight
    modifies q`pending
    modifies if result.id in q.pending then {q.pending[result.id].resultCh} else {}
    ensures q.Valid() && Shows(q, slots, t) && delivered == (result.id in s.pending)
    ensures t == TakenAndSent(s, loop, ResultReply(result))
  {
    t := ResolveReaches(q, slots, s, loop, result);
    delivered := ResolveBuffers(q, slots, s.pending, result);
  }

  method RejectSlots(q: UnitQueue, ghost slots: Slots, ghost units: map<string, nat>, err: ErrorReply)
    returns (delivered: bool)
    requires q.Valid() && Separate(slots) && Linked(q.pending, slots, units)
    modifies q`pending
    modifies if err.id in q.pending then {q.pending[err.id].errorCh} else {}
    ensures q.Valid() && Linked(q.pending, slots, units - {err.id}) && delivered == (err.id in units)
    ensures forall m :: m in slots ==> slots[m].resultCh.buffered == old(slots[m].resultCh.buffered)
    ensures forall m :: m in slots ==>
      slots[m].errorCh.buffered
      == if err.id in units && m == units[err.id] then [err] else old(slots[m].errorCh.buffered)
  {
    delivered := q.Reject(err.id, err);
  }

  method RejectBuffers(q: UnitQueue, ghost slots: Slots, ghost units: map<string, nat>, err: ErrorReply)
    returns (delivered: bool)
    requires q.Valid() && Separate(slots) && Linked(q.pending, slots, units)
    modifies q`pending
    modifies if err.id in q.pending then {q.pending[err.id].errorCh} else {}
    ensures q.Valid() && Linked(q.pending, slots, units - {err.id}) && delivered == (err.id in units)
    ensures Buffers(slots) == After(old(Buffers(slots)), units, err.id, Buffered([], [err]))
  {
    delivered := RejectSlots(q, slots, units, err);
  }

  lemma RejectReaches(q: UnitQueue, slots: Slots, s: P.State, loop: nat, err: ErrorReply) returns (t: P.State)
    requires q.Valid() && Shows(q, slots, s) && loop !in s.inFlight
    ensures t == TakenAndSent(s, loop, ErrorAsReply(err)) && t.pending == s.pending - {err.id}
    ensures Holds(After(Buffers(slots), s.pending, err.id, Buffered([], [err])), t.units)
  {
    t := TakenAndSent(s, loop, ErrorAsReply(err));
    if err.id in s.pending {
      PendingIsEmpty(q, slots, s, err.id);
      ErrorHolds(Buffers(slots), s.units, s.pending[err.id], err);
    }
    ReplyReaches(s, loop, ErrorAsReply(err), t);
  }

  // Reject is the same for an error.
  method RejectIsTakeAndSend(q: UnitQueue, ghost slots: Slots, ghost s: P.State, ghost loop: nat, err: ErrorReply)
    returns (delivered: bool, ghost t: P.State)
    requires q.Valid() && Shows(q, slots, s) && loop !in s.inFlight
    modifies q`pending
    modifies if err.id in q.pending then {q.pending[err.id].errorCh} else {}
    ensures q.Valid() && Shows(q, slots, t) && delivered == (err.id in s.pending)
    ensures t == TakenAndSent(s, loop, ErrorAsReply(err))
  {
    t := RejectReaches(q, slots, s, loop, err);
    delivered := RejectBuffers(q, slots, s.pending, err);
  }

  lemma RegisterReaches(s: P.State, buffers: map<nat, Buffered>, n: nat) returns (t: P.State)
    requires n in s.units && s.units[n].phase.Issued? && s.units[n].results == [] && s.units[n].errors == []
    requires Holds(buffers, s.units)
    ensures t == P.Step(s, P.Register(n)) && t.pending == s.pending[s.units[n].id := n]
    ensures Holds(buffers[n := Buffered([], [])], t.units)
  {
    t := P.Step(s, P.Register(n));
  }

  lemma LinkedToo(
    pending: map<string, PendingUnit>, slots: Slots, units: map<string, nat>, id: string, n: nat, unit: PendingUnit)
    requires Linked(pending, slots, units) && n !in slots
    ensures Linked(pending[id := unit], slots[n := unit], units[id := n])
  {
  }

  method RegisterBuffers(q: UnitQueue, ghost slots: Slots, ghost units: map<string, nat>, ghost n: nat, id: string)
    returns (unit: PendingUnit)
    requires q.Valid() && Separate(slots) && Linked(q.pending, slots, units) && n !in slots
    modifies q`pending
    ensures q.Valid() && Separate(slots[n := unit]) && Linked(q.pending, slots[n := unit], units[id := n])
    ensures Buffers(slots[n := unit]) == old(Buffers(slots))[n := Buffered([], [])]
  {
    ghost var pending := q.pending;
    unit := q.Register(id);
    LinkedToo(pending, slots, units, id, n, unit);
  }

  // A new slot for a unit that has an identifier and no slot.
  method RegisterIsStep(q: UnitQueue, ghost slots: Slots, ghost s: P.State, ghost n: nat, id: string)
    returns (unit: PendingUnit, ghost t: P.State)
    requires q.Valid() && Shows(q, slots, s)
    requires n in s.units && n !in slots && s.units[n].phase.Issued? && s.units[n].id == id
    requires s.units[n].results == [] && s.units[n].errors == []
    modifies q`pending
    ensures q.Valid() && Shows(q, slots[n := unit], t) && t == P.Step(s, P.Register(n))
  {
    t := RegisterReaches(s, Buffers(slots), n);
    unit := RegisterBuffers(q, slots, s.pending, n, id);
  }

  lemma CancelReaches(s: P.State, n: nat, t: P.State)
    requires t == P.Step(s, P.Cancel(n)) && n in s.units && P.CancelNext(s.units[n].phase)
    ensures t.pending == s.pending - {s.units[n].id}
    ensures t.units.Keys == s.units.Keys
    ensures forall m :: m in s.units ==>
      t.units[m].results == s.units[m].results && t.units[m].errors == s.units[m].errors
  {
  }

  method CancelIsStep(q: UnitQueue, ghost slots: Slots, ghost s: P.State, ghost n: nat, id: string)
    returns (ghost t: P.State)
    requires q.Valid() && Shows(q, slots, s)
    requires n in s.units && P.CancelNext(s.units[n].phase) && s.units[n].id == id
    modifies q`pending
    ensures q.Valid() && Shows(q, slots, t) && t == P.Step(s, P.Cancel(n))
  {
    t := P.Step(s, P.Cancel(n));
    CancelReaches(s, n, t);
    q.Cancel(id);
  }
}
