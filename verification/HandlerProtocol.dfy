// The waiting handlers as steps of the dispatch protocol: what one of them does without
// interference is a run of DispatchProtocol.dfy that ends in the branch of its outcome
// (internal/manager/api/completions.go:82-165, internal/manager/api/batch.go:325-398).
module HandlerProtocol {
  import opened Basics
  import opened Queue
  import H = Handlers
  import P = DispatchProtocol
  import opened QueueProtocol

  lemma {:induction false} RunThen(s: P.State, first: seq<P.Action>, rest: seq<P.Action>)
    ensures P.Run(s, first + rest) == P.Run(P.Run(s, first), rest)
    decreases |first|
  {
    if first == [] {
      assert first + rest == rest;
    } else {
      assert (first + rest)[0] == first[0] && (first + rest)[1..] == first[1..] + rest;
      RunThen(P.Step(s, first[0]), first[1..], rest);
    }
  }

  lemma RunOne(s: P.State, a: P.Action)
    ensures P.Run(s, [a]) == P.Step(s, a)
  {
    assert [a][1..] == [];
  }

  lemma RunTwo(s: P.State, a: P.Action, b: P.Action)
    ensures P.Run(s, [a, b]) == P.Step(P.Step(s, a), b)
  {
    assert [a, b] == [a] + [b];
    RunThen(s, [a], [b]);
    RunOne(s, a);
    RunOne(P.Step(s, a), b);
  }

  lemma RunThree(s: P.State, a: P.Action, b: P.Action, c: P.Action)
    ensures P.Run(s, [a, b, c]) == P.Step(P.Step(P.Step(s, a), b), c)
  {
    assert [a, b, c] == [a] + [b, c];
    RunThen(s, [a], [b, c]);
    RunOne(s, a);
    RunTwo(P.Step(s, a), b, c);
  }

  /* The actions. */

  function Opening(n: nat, dispatched: bool): seq<P.Action> {
    [P.Register(n), P.Handle(n, P.Dispatch(dispatched)), if dispatched then P.Handle(n, P.Record) else P.Cancel(n)]
  }

  function Delivery(loop: nat, arrival: H.Arrival): seq<P.Action> {
    match arrival
    case NoReply => []
    case ResultArrives(result) => [P.Take(loop, ResultReply(result)), P.Send(loop)]
    case ErrorArrives(error) => [P.Take(loop, ErrorAsReply(error)), P.Send(loop)]
  }

  function Ending(n: nat, loop: nat, outcome: H.Outcome, late: H.Arrival): seq<P.Action> {
    match outcome
    case NotDispatched => []
    case Answered(_) => [P.Handle(n, P.ReceiveResult), P.Handle(n, P.UpdateRow)]
    case Erred(_) => [P.Handle(n, P.ReceiveError), P.Handle(n, P.UpdateRow)]
    case Timeout => [P.Handle(n, P.Timeout)] + Delivery(loop, late) + [P.Cancel(n), P.Handle(n, P.UpdateRow)]
    case Stop => [P.Handle(n, P.Stop)] + Delivery(loop, late) + [P.Cancel(n)]
  }

  function Actions(
    n: nat, loop: nat, dispatched: bool, early: H.Arrival, outcome: H.Outcome, late: H.Arrival): seq<P.Action>
  {
    Opening(n, dispatched) + if dispatched then Delivery(loop, early) + Ending(n, loop, outcome, late) else []
  }

  /* What they reach. */

  // t is s but for the unit n and the pending map.
  ghost predicate Beside(s: P.State, t: P.State, n: nat) {
    && t.counter == s.counter && t.inFlight == s.inFlight && t.units.Keys == s.units.Keys
    && forall m :: m in s.units && m != n ==> t.units[m] == s.units[m]
  }

  // An issued unit whose identifier is not in use.
  ghost predicate Ready(s: P.State, n: nat, id: string) {
    n in s.units && s.units[n] == P.Unit(id, s.units[n].isBatch, P.Issued, [], [], [], false, None) && id !in s.pending
  }

  lemma OpenedAndClosed(pending: map<string, nat>, id: string, n: nat)
    requires id !in pending
    ensures pending[id := n] - {id} == pending
  {
  }

  lemma Opens(s: P.State, n: nat, id: string)
    requires Ready(s, n, id)
    ensures var t := P.Run(s, Opening(n, true));
      && Beside(s, t, n) && t.pending == s.pending[id := n]
      && t.units[n] == s.units[n].(phase := P.Waiting, row := Some(P.RowDispatched))
  {
    RunThree(s, P.Register(n), P.Handle(n, P.Dispatch(true)), P.Handle(n, P.Record));
  }

  lemma IsRefused(s: P.State, n: nat, id: string)
    requires Ready(s, n, id)
    ensures var t := P.Run(s, Opening(n, false));
      && Beside(s, t, n) && t.pending == s.pending
      && t.units[n].phase == P.Returned(P.NotDispatched) && t.units[n].row == None
  {
    RunThree(s, P.Register(n), P.Handle(n, P.Dispatch(false)), P.Cancel(n));
    OpenedAndClosed(s.pending, id, n);
  }

  ghost predicate Names(arrival: H.Arrival, id: string) {
    (arrival.ResultArrives? ==> arrival.result.id == id) && (arrival.ErrorArrives? ==> arrival.error.id == id)
  }

  // A reply reaches the unit if its slot is there, and nothing otherwise.
  lemma Delivers(s: P.State, n: nat, loop: nat, id: string, arrival: H.Arrival)
    requires n in s.units && loop !in s.inFlight && Names(arrival, id) && s.units[n].id == id
    requires id in s.pending ==> s.pending[id] == n && s.units[n].results == [] && s.units[n].errors == []
    ensures var t, u := P.Run(s, Delivery(loop, arrival)), s.units[n];
      && Beside(s, t, n) && t.pending == (if arrival.NoReply? then s.pending else s.pending - {id})
      && t.units[n] == u.(results := t.units[n].results, errors := t.units[n].errors)
      && (id in s.pending && arrival.ResultArrives? ==>
            t.units[n].results == [ResultReply(arrival.result)] && t.units[n].errors == [])
      && (id in s.pending && arrival.ErrorArrives? ==>
            t.units[n].errors == [ErrorAsReply(arrival.error)] && t.units[n].results == [])
  {
    match arrival
    case NoReply =>
    case ResultArrives(result) => Replies(s, loop, ResultReply(result));
    case ErrorArrives(error) => Replies(s, loop, ErrorAsReply(error));
  }

  lemma Replies(s: P.State, loop: nat, reply: P.Reply)
    requires loop !in s.inFlight
    requires reply.id in s.pending ==>
      && s.pending[reply.id] in s.units
      && s.units[s.pending[reply.id]].results == [] && s.units[s.pending[reply.id]].errors == []
    ensures var t := P.Run(s, [P.Take(loop, reply), P.Send(loop)]);
      && t == TakenAndSent(s, loop, reply) && t.inFlight == s.inFlight && t.counter == s.counter
      && t.pending == s.pending - {reply.id}
      && t.units == if reply.id !in s.pending then s.units
           else s.units[s.pending[reply.id] := P.Delivered(s.units[s.pending[reply.id]], reply)]
  {
    RunTwo(s, P.Take(loop, reply), P.Send(loop));
    ReplyReaches(s, loop, reply, TakenAndSent(s, loop, reply));
  }
  lemma Answers(s: P.State, n: nat, result: Result)
    requires n in s.units && s.units[n].phase.Waiting? && s.units[n].results == [ResultReply(result)]
    ensures var t := P.Run(s, [P.Handle(n, P.ReceiveResult), P.Handle(n, P.UpdateRow)]);
      && Beside(s, t, n) && t.pending == s.pending
      && t.units[n].phase == P.Returned(P.Answered(P.Reply.Result(result.id, result.processingMs)))
      && t.units[n].row == Some(P.RowCompleted(result.processingMs))
  {
    RunTwo(s, P.Handle(n, P.ReceiveResult), P.Handle(n, P.UpdateRow));
  }

  lemma Errs(s: P.State, n: nat, error: ErrorReply)
    requires n in s.units && s.units[n].phase.Waiting? && s.units[n].errors == [ErrorAsReply(error)]
    ensures var t := P.Run(s, [P.Handle(n, P.ReceiveError), P.Handle(n, P.UpdateRow)]);
      && Beside(s, t, n) && t.pending == s.pending
      && t.units[n].phase == P.Returned(P.Answered(P.Reply.Error(error.id, error.message)))
      && t.units[n].row == Some(P.RowFailed(error.message))
  {
    RunTwo(s, P.Handle(n, P.ReceiveError), P.Handle(n, P.UpdateRow));
  }

  // A waiting unit, whose slot is there unless a reply has taken it.
  ghost predicate Waits(s: P.State, n: nat, id: string) {
    && n in s.units && s.units[n].phase.Waiting? && s.units[n].id == id && s.units[n].row == Some(P.RowDispatched)
    && (id in s.pending ==> s.pending[id] == n && s.units[n].results == [] && s.units[n].errors == [])
  }

  lemma BesideTwice(s: P.State, t: P.State, u: P.State, n: nat)
    requires Beside(s, t, n) && Beside(t, u, n)
    ensures Beside(s, u, n)
  {
  }

  lemma Gives(s: P.State, n: nat, id: string, e: P.Event)
    requires Waits(s, n, id) && (e == P.Timeout || (e == P.Stop && s.units[n].isBatch))
    ensures var t := P.Step(s, P.Handle(n, e));
      && Beside(s, t, n) && t.pending == s.pending
      && t.units[n] == s.units[n].(phase := if e == P.Timeout then P.TimedOut else P.Stopped)
  {
  }

  lemma Cancels(s: P.State, n: nat, id: string)
    requires n in s.units && s.units[n].id == id && (s.units[n].phase.TimedOut? || s.units[n].phase.Stopped?)
    ensures var t := P.Step(s, P.Cancel(n));
      && Beside(s, t, n) && t.pending == s.pending - {id} && t.units[n].row == s.units[n].row
      && t.units[n].phase == if s.units[n].phase.TimedOut? then P.Abandoned else P.Returned(P.StopBranch)
  {
  }

  lemma RunGivesUp(s: P.State, n: nat, loop: nat, e: P.Event, late: H.Arrival)
    ensures P.Run(s, [P.Handle(n, e)] + Delivery(loop, late) + [P.Cancel(n)])
         == P.Step(P.Run(P.Step(s, P.Handle(n, e)), Delivery(loop, late)), P.Cancel(n))
  {
    var t := P.Step(s, P.Handle(n, e));
    RunOne(s, P.Handle(n, e));
    RunThen(s, [P.Handle(n, e)], Delivery(loop, late));
    RunThen(s, [P.Handle(n, e)] + Delivery(loop, late), [P.Cancel(n)]);
    RunOne(P.Run(t, Delivery(loop, late)), P.Cancel(n));
  }

  lemma DroppedTwice(pending: map<string, nat>, id: string)
    ensures pending - {id} - {id} == pending - {id}
  {
  }

  // The wait is given up, a late reply comes, and the slot is cancelled.
  lemma GivesUp(s: P.State, n: nat, loop: nat, id: string, e: P.Event, late: H.Arrival)
    requires Waits(s, n, id) && loop !in s.inFlight && Names(late, id)
    requires e == P.Timeout || (e == P.Stop && s.units[n].isBatch)
    ensures var t := P.Run(s, [P.Handle(n, e)] + Delivery(loop, late) + [P.Cancel(n)]);
      && Beside(s, t, n) && t.pending == s.pending - {id}
      && t.units[n].phase == (if e == P.Timeout then P.Abandoned else P.Returned(P.StopBranch))
      && t.units[n].row == Some(P.RowDispatched)
  {
    var t := P.Step(s, P.Handle(n, e));
    Gives(s, n, id, e);
    Delivers(t, n, loop, id, late);
    var u := P.Run(t, Delivery(loop, late));
    Cancels(u, n, id);
    DroppedTwice(s.pending, id);
    RunGivesUp(s, n, loop, e, late);
    BesideTwice(s, t, u, n);
    BesideTwice(s, u, P.Step(u, P.Cancel(n)), n);
  }

  lemma WritesTimeout(s: P.State, n: nat)
    requires n in s.units && s.units[n].phase == P.Abandoned
    ensures var t := P.Run(s, [P.Handle(n, P.UpdateRow)]);
      && Beside(s, t, n) && t.pending == s.pending
      && t.units[n].phase == P.Returned(P.TimeoutBranch) && t.units[n].row == Some(P.RowTimeout)
  {
    RunOne(s, P.Handle(n, P.UpdateRow));
    UpdatesTimeout(s, n);
  }

  lemma UpdatesTimeout(s: P.State, n: nat)
    requires n in s.units && s.units[n].phase == P.Abandoned
    ensures var t := P.HandleStep(s, n, P.UpdateRow);
      && Beside(s, t, n) && t.pending == s.pending
      && t.units[n].phase == P.Returned(P.TimeoutBranch) && t.units[n].row == Some(P.RowTimeout)
  {
  }

  lemma TimesOut(s: P.State, n: nat, loop: nat, id: string, late: H.Arrival)
    requires Waits(s, n, id) && loop !in s.inFlight && Names(late, id)
    ensures var t := P.Run(s, Ending(n, loop, H.Timeout, late));
      && Beside(s, t, n) && t.pending == s.pending - {id}
      && t.units[n].phase == P.Returned(P.TimeoutBranch) && t.units[n].row == Some(P.RowTimeout)
  {
    var first := [P.Handle(n, P.Timeout)] + Delivery(loop, late);
    GivesUp(s, n, loop, id, P.Timeout, late);
    var t := P.Run(s, first + [P.Cancel(n)]);
    assert Ending(n, loop, H.Timeout, late) == (first + [P.Cancel(n)]) + [P.Handle(n, P.UpdateRow)];
    RunThen(s, first + [P.Cancel(n)], [P.Handle(n, P.UpdateRow)]);
    WritesTimeout(t, n);
    BesideTwice(s, t, P.Run(t, [P.Handle(n, P.UpdateRow)]), n);
  }

  // The outcome is one that the replies allow.
  ghost predicate Possible(dispatched: bool, isBatch: bool, early: H.Arrival, outcome: H.Outcome) {
    match outcome
    case NotDispatched => !dispatched
    case Answered(result) => dispatched && early == H.ResultArrives(result)
    case Erred(error) => dispatched && early == H.ErrorArrives(error)
    case Timeout => dispatched
    case Stop => dispatched && isBatch
  }

  // The unit n of t has returned as the outcome says, and left no slot.
  ghost predicate Ended(s: P.State, t: P.State, n: nat, outcome: H.Outcome) {
    && Beside(s, t, n) && n in s.units && t.pending == s.pending
    && t.units[n].phase == P.Returned(match outcome
         case NotDispatched => P.NotDispatched
         case Answered(result) => P.Branch.Answered(P.Reply.Result(result.id, result.processingMs))
         case Erred(error) => P.Branch.Answered(P.Reply.Error(error.id, error.message))
         case Timeout => P.TimeoutBranch
         case Stop => P.StopBranch)
    && t.units[n].row == match outcome
         case NotDispatched => None
         case Answered(result) => Some(P.RowCompleted(result.processingMs))
         case Erred(error) => Some(P.RowFailed(error.message))
         case Timeout => Some(P.RowTimeout)
         case Stop => Some(P.RowDispatched)
  }

  lemma SlotGone(pending: map<string, nat>, id: string, n: nat)
    requires id !in pending
    ensures pending[id := n] - {id} == pending && pending[id := n] - {id} - {id} == pending
  {
  }

  // From the wait on, with the reply, if any, delivered.
  lemma Ends(s: P.State, t: P.State, n: nat, loop: nat, id: string, early: H.Arrival, outcome: H.Outcome, late: H.Arrival)
    requires n in s.units && Beside(s, t, n) && Waits(t, n, id) && loop !in t.inFlight && id !in s.pending
    requires t.pending == if early.NoReply? then s.pending[id := n] else s.pending
    requires early.ResultArrives? ==> t.units[n].results == [ResultReply(early.result)]
    requires early.ErrorArrives? ==> t.units[n].errors == [ErrorAsReply(early.error)]
    requires Names(late, id) && Possible(true, t.units[n].isBatch, early, outcome)
    ensures Ended(s, P.Run(t, Ending(n, loop, outcome, late)), n, outcome)
  {
    SlotGone(s.pending, id, n);
    assert id !in s.pending ==> s.pending - {id} == s.pending;
    var u := P.Run(t, Ending(n, loop, outcome, late));
    match outcome
    case Answered(result) =>
      Answers(t, n, result);
      BesideTwice(s, t, u, n);
    case Erred(error) =>
      Errs(t, n, error);
      BesideTwice(s, t, u, n);
    case Timeout =>
      TimesOut(t, n, loop, id, late);
      BesideTwice(s, t, u, n);
    case Stop =>
      GivesUp(t, n, loop, id, P.Stop, late);
      BesideTwice(s, t, u, n);
  }

  // The whole handler: whatever its outcome, the run of its own actions ends in the
  // branch and the row of that outcome.
  lemma HandlerRuns(
    s: P.State, n: nat, loop: nat, id: string, dispatched: bool, early: H.Arrival, outcome: H.Outcome, late: H.Arrival)
    requires Ready(s, n, id) && loop !in s.inFlight && Names(early, id) && Names(late, id)
    requires Possible(dispatched, s.units[n].isBatch, early, outcome)
    ensures Ended(s, P.Run(s, Actions(n, loop, dispatched, early, outcome, late)), n, outcome)
  {
    if dispatched {
      var t := P.Run(s, Opening(n, true));
      Opens(s, n, id);
      Delivers(t, n, loop, id, early);
      var u := P.Run(t, Delivery(loop, early));
      SlotGone(s.pending, id, n);
      BesideTwice(s, t, u, n);
      RunThen(s, Opening(n, true), Delivery(loop, early) + Ending(n, loop, outcome, late));
      RunThen(t, Delivery(loop, early), Ending(n, loop, outcome, late));
      Ends(s, u, n, loop, id, early, outcome, late);
    } else {
      IsRefused(s, n, id);
      assert Actions(n, loop, false, early, outcome, late) == Opening(n, false);
    }
  }

  function Shown(row: H.WorkRow): P.Row {
    match row
    case Dispatched => P.RowDispatched
    case Completed(ms) => P.RowCompleted(ms)
    case Failed(message) => P.RowFailed(message)
    case TimedOut => P.RowTimeout
  }

  lemma RunEnds(
    s: P.State, n: nat, loop: nat, id: string, dispatched: bool, early: H.Arrival, outcome: H.Outcome, late: H.Arrival)
    returns (t: P.State)
    requires Ready(s, n, id) && loop !in s.inFlight && Names(early, id) && Names(late, id)
    requires Possible(dispatched, s.units[n].isBatch, early, outcome)
    ensures t == P.Run(s, Actions(n, loop, dispatched, early, outcome, late)) && Ended(s, t, n, outcome)
  {
    t := P.Run(s, Actions(n, loop, dispatched, early, outcome, late));
    HandlerRuns(s, n, loop, id, dispatched, early, outcome, late);
  }

  lemma HoldsBeside(buffers: map<nat, Buffered>, s: P.State, t: P.State, n: nat)
    requires Holds(buffers, s.units) && n !in buffers && Beside(s, t, n)
    ensures Holds(buffers, t.units)
  {
  }

  // The table with the row of the outcome.
  ghost predicate Left(before: map<string, H.WorkRow>, after: map<string, H.WorkRow>, id: string, outcome: H.Outcome) {
    after == match outcome
      case NotDispatched => before
      case Answered(result) => before[id := H.Completed(result.processingMs)]
      case Erred(error) => before[id := H.Failed(error.message)]
      case Timeout => before[id := H.TimedOut]
      case Stop => before[id := H.Dispatched]
  }

  method ServeSlots(
    q: UnitQueue, table: H.WorkUnitTable, ghost slots: Slots, ghost units: map<string, nat>,
    id: string, dispatched: bool, early: H.Arrival, signals: H.Signals, late: H.Arrival)
    returns (outcome: H.Outcome)
    requires q.Valid() && Linked(q.pending, slots, units) && id !in units
    requires !early.NoReply? || signals.fired || signals.stops
    modifies q`pending, table
    ensures q.Valid() && Linked(q.pending, slots, units) && Buffers(slots) == old(Buffers(slots))
    ensures Possible(dispatched, signals.stops, early, outcome) && Left(old(table.rows), table.rows, id, outcome)
  {
    outcome := H.Serve(q, table, id, dispatched, early, signals, late);
  }

  lemma RowsAgree(
    s: P.State, t: P.State, n: nat, before: map<string, H.WorkRow>, after: map<string, H.WorkRow>, id: string,
    outcome: H.Outcome)
    requires Ended(s, t, n, outcome) && Left(before, after, id, outcome)
    ensures n in t.units
    ensures if outcome.NotDispatched? then after == before
      else id in after && t.units[n].row == Some(Shown(after[id]))
  {
  }

  lemma ShownAfter(q: UnitQueue, slots: Slots, s: P.State, t: P.State, n: nat, outcome: H.Outcome)
    requires Separate(slots) && Linked(q.pending, slots, s.pending) && Holds(Buffers(slots), s.units)
    requires n !in slots && Ended(s, t, n, outcome)
    ensures Shows(q, slots, t)
  {
    HoldsBeside(Buffers(slots), s, t, n);
  }

  // The method leaves in the queue and in the table what that run leaves.
  method ServeIsRun(
    q: UnitQueue, table: H.WorkUnitTable, ghost slots: Slots, ghost s: P.State, ghost n: nat, ghost loop: nat,
    id: string, dispatched: bool, early: H.Arrival, signals: H.Signals, late: H.Arrival)
    returns (outcome: H.Outcome, ghost t: P.State)
    requires q.Valid() && Shows(q, slots, s) && n !in slots && Ready(s, n, id)
    requires loop !in s.inFlight && Names(early, id) && Names(late, id)
    requires (!early.NoReply? || signals.fired || signals.stops) && (signals.stops ==> s.units[n].isBatch)
    modifies q`pending, table
    ensures q.Valid() && Shows(q, slots, t)
    ensures t == P.Run(s, Actions(n, loop, dispatched, early, outcome, late)) && Ended(s, t, n, outcome)
    ensures n in t.units && dispatched == !outcome.NotDispatched?
    ensures if dispatched then id in table.rows && t.units[n].row == Some(Shown(table.rows[id]))
      else table.rows == old(table.rows)
  {
    ghost var before := table.rows;
    outcome := ServeSlots(q, table, slots, s.pending, id, dispatched, early, signals, late);
    t := RunEnds(s, n, loop, id, dispatched, early, outcome, late);
    ShownAfter(q, slots, s, t, n, outcome);
    RowsAgree(s, t, n, before, table.rows, id, outcome);
  }
}
