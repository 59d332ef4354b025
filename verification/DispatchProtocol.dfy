// All interleavings of the two waiting handlers (completions.go:82-165 and
// batch.go:325-398), the queue and the read loops that deliver replies.
//
// One action is one atomic step: a critical section of the queue's lock, a
// channel operation, or one database statement. A run is any sequence of
// actions; an action that is not enabled changes nothing. Read loops may bring
// any reply for any identifier at any time.
module DispatchProtocol {
  import opened Basics
  import opened UnitIds

  // A reply names the unit it answers.
  datatype Reply = Result(id: string, processingMs: nat) | Error(id: string, message: string)

  datatype Branch = NotDispatched | Answered(reply: Reply) | TimeoutBranch | StopBranch

  datatype Phase =
    | Issued                  // NextID returned
    | Registered              // the slot exists, Dispatch is next
    | DispatchFailed          // Cancel is next
    | Dispatched              // RecordWorkUnit is next
    | Waiting                 // in the select
    | Received(reply: Reply)  // the row update is next
    | TimedOut                // Cancel is next
    | Abandoned               // cancelled after the timeout, the row update is next
    | Stopped                 // Cancel is next
    | Returned(branch: Branch)

  datatype Row = RowDispatched | RowCompleted(processingMs: nat) | RowFailed(message: string) | RowTimeout

  // One call of a waiting handler, with its slot's channels and its row.
  datatype Unit = Unit(
    id: string,
    isBatch: bool,
    phase: Phase,
    results: seq<Reply>,   // buffered in ResultCh
    errors: seq<Reply>,    // buffered in ErrorCh
    received: seq<Reply>,  // taken out of the channels by the handler
    cancelled: bool,       // Cancel found the slot and removed it
    row: Option<Row>)

  // Units are numbered by the counter value in their identifier.
  datatype State = State(
    counter: nat,
    units: map<nat, Unit>,
    pending: map<string, nat>,
    inFlight: map<nat, (nat, Reply)>)  // per read loop, between unlock and send

  // What a handler does on its own, between its calls into the queue.
  datatype Event =
    | Dispatch(ok: bool)
    | Record
    | ReceiveResult
    | ReceiveError
    | Timeout
    | Stop
    | UpdateRow

  datatype Action =
    | NextID(nowMs: nat, isBatch: bool)
    | Register(unit: nat)
    | Cancel(unit: nat)
    | Handle(unit: nat, event: Event)
    | Take(loop: nat, reply: Reply)
    | Send(loop: nat)

  const INIT := State(0, map[], map[], map[])

  function RowFor(reply: Reply): Row {
    match reply
    case Result(_, ms) => RowCompleted(ms)
    case Error(_, message) => RowFailed(message)
  }

  function Handled(u: Unit, e: Event): (r: Unit)
    ensures r.id == u.id
  {
    match (e, u.phase)
    case (Dispatch(ok), Registered) => u.(phase := if ok then Dispatched else DispatchFailed)
    case (Record, Dispatched) => u.(phase := Waiting, row := Some(RowDispatched))
    case (ReceiveResult, Waiting) =>
      if u.results == [] then u
      else u.(phase := Received(u.results[0]), results := u.results[1..], received := u.received + [u.results[0]])
    case (ReceiveError, Waiting) =>
      if u.errors == [] then u
      else u.(phase := Received(u.errors[0]), errors := u.errors[1..], received := u.received + [u.errors[0]])
    case (Timeout, Waiting) => u.(phase := TimedOut)
    case (Stop, Waiting) => if u.isBatch then u.(phase := Stopped) else u
    case (UpdateRow, Received(reply)) => u.(phase := Returned(Answered(reply)), row := Some(RowFor(reply)))
    case (UpdateRow, Abandoned) => u.(phase := Returned(TimeoutBranch), row := Some(RowTimeout))
    case _ => u
  }

  function AfterCancel(p: Phase): Phase {
    match p
    case DispatchFailed => Returned(NotDispatched)
    case TimedOut => Abandoned
    case Stopped => Returned(StopBranch)
    case _ => p
  }

  predicate CancelNext(p: Phase) {
    p.DispatchFailed? || p.TimedOut? || p.Stopped?
  }

  // A channel holds one value; a send to a full one would block.
  predicate SendReady(s: State, loop: nat) {
    && loop in s.inFlight && s.inFlight[loop].0 in s.units
    && var u := s.units[s.inFlight[loop].0];
       if s.inFlight[loop].1.Result? then u.results == [] else u.errors == []
  }

  function Delivered(u: Unit, reply: Reply): Unit {
    if reply.Result? then u.(results := u.results + [reply]) else u.(errors := u.errors + [reply])
  }

  function NextIDStep(s: State, nowMs: nat, isBatch: bool): State {
    var n := s.counter + 1;
    s.(counter := n, units := s.units[n := Unit(UnitId(nowMs, n), isBatch, Issued, [], [], [], false, None)])
  }

  function RegisterStep(s: State, n: nat): State {
    if n in s.units && s.units[n].phase.Issued? then
      s.(units := s.units[n := s.units[n].(phase := Registered)], pending := s.pending[s.units[n].id := n])
    else s
  }

  function CancelStep(s: State, n: nat): State {
    if n in s.units && CancelNext(s.units[n].phase) then
      var u := s.units[n];
      s.(units := s.units[n := u.(phase := AfterCancel(u.phase), cancelled := u.id in s.pending)],
         pending := s.pending - {u.id})
    else s
  }

  function HandleStep(s: State, n: nat, e: Event): State {
    if n in s.units then s.(units := s.units[n := Handled(s.units[n], e)]) else s
  }

  function TakeStep(s: State, loop: nat, reply: Reply): State {
    if loop !in s.inFlight && reply.id in s.pending then
      s.(pending := s.pending - {reply.id}, inFlight := s.inFlight[loop := (s.pending[reply.id], reply)])
    else s
  }

  function SendStep(s: State, loop: nat): State {
    if SendReady(s, loop) then
      var (n, reply) := s.inFlight[loop];
      s.(inFlight := s.inFlight - {loop}, units := s.units[n := Delivered(s.units[n], reply)])
    else s
  }

  function Step(s: State, a: Action): State {
    match a
    case NextID(nowMs, isBatch) => NextIDStep(s, nowMs, isBatch)
    case Register(n) => RegisterStep(s, n)
    case Cancel(n) => CancelStep(s, n)
    case Handle(n, e) => HandleStep(s, n, e)
    case Take(loop, reply) => TakeStep(s, loop, reply)
    case Send(loop) => SendStep(s, loop)
  }

  function Run(s: State, actions: seq<Action>): State
    decreases |actions|
  {
    if actions == [] then s else Run(Step(s, actions[0]), actions[1..])
  }

  /* Where the one token of a unit is. */

  ghost predicate InFlight(s: State, n: nat) {
    exists loop | loop in s.inFlight :: s.inFlight[loop].0 == n
  }

  function One(b: bool): nat {
    if b then 1 else 0
  }

  // In the pending map, between unlock and send, in a channel, consumed, cancelled.
  function Tokens(u: Unit, inMap: bool, inFlight: bool): nat {
    One(inMap) + One(inFlight) + |u.results| + |u.errors| + |u.received| + One(u.cancelled)
  }

  predicate Recorded(p: Phase) {
    !(p.Issued? || p.Registered? || p.DispatchFailed? || p.Dispatched? || p == Returned(NotDispatched))
  }

  function RowOf(p: Phase): Row {
    match p
    case Returned(Answered(reply)) => RowFor(reply)
    case Returned(TimeoutBranch) => RowTimeout
    case _ => RowDispatched
  }

  function ReceivedBy(p: Phase): seq<Reply> {
    match p
    case Received(reply) => [reply]
    case Returned(Answered(reply)) => [reply]
    case _ => []
  }

  predicate Own(u: Unit, replies: seq<Reply>) {
    replies != [] ==> replies[0].id == u.id
  }

  // One token per registered unit; a handler that has returned or given up has
  // no slot; the reply received and the row agree with the branch taken.
  predicate UnitOk(u: Unit, inMap: bool, inFlight: bool) {
    && Tokens(u, inMap, inFlight) == (if u.phase.Issued? then 0 else 1)
    && (u.phase.Abandoned? || u.phase.Returned? ==> !inMap)
    && (u.cancelled ==> u.phase.Abandoned? || u.phase.Returned?)
    && u.received == ReceivedBy(u.phase)
    && Own(u, u.results) && Own(u, u.errors) && Own(u, u.received)
    && u.row == if Recorded(u.phase) then Some(RowOf(u.phase)) else None
  }

  ghost predicate Numbered(id: string, n: nat) {
    exists ms: nat :: id == UnitId(ms, n)
  }

  ghost predicate Shape(s: State) {
    && (forall n :: n in s.units <==> 1 <= n <= s.counter)
    && (forall n | n in s.units :: Numbered(s.units[n].id, n))
    && (forall id | id in s.pending :: s.pending[id] in s.units && s.units[s.pending[id]].id == id)
    && (forall l | l in s.inFlight ::
          s.inFlight[l].0 in s.units && s.units[s.inFlight[l].0].id == s.inFlight[l].1.id)
    && forall l, l' | l in s.inFlight && l' in s.inFlight && s.inFlight[l].0 == s.inFlight[l'].0 :: l == l'
  }

  ghost predicate Ok(s: State, n: nat) {
    n in s.units ==> UnitOk(s.units[n], s.units[n].id in s.pending, InFlight(s, n))
  }

  ghost predicate Inv(s: State) {
    Shape(s) && forall n :: Ok(s, n)
  }

  lemma IdsDiffer(s: State, n: nat, m: nat)
    requires Shape(s) && n in s.units && m in s.units && s.units[n].id == s.units[m].id
    ensures n == m
  {
    var t: nat :| s.units[n].id == UnitId(t, n);
    var t': nat :| s.units[m].id == UnitId(t', m);
    UnitIdDetermines(t, n, t', m);
  }

  lemma NextIDKeepsShape(s: State, nowMs: nat, isBatch: bool)
    requires Shape(s)
    ensures Shape(NextIDStep(s, nowMs, isBatch))
  {
    var t := NextIDStep(s, nowMs, isBatch);
    assert Numbered(UnitId(nowMs, t.counter), t.counter);
    assert forall m | m in s.units :: t.units[m] == s.units[m];
  }

  lemma NextIDKeepsOk(s: State, nowMs: nat, isBatch: bool, n: nat)
    requires Inv(s)
    ensures Ok(NextIDStep(s, nowMs, isBatch), n)
  {
    var t := NextIDStep(s, nowMs, isBatch);
    NextIDKeepsShape(s, nowMs, isBatch);
    assert Ok(s, n);
    assert InFlight(t, n) <==> InFlight(s, n);
    if n == t.counter && t.units[n].id in t.pending {
      IdsDiffer(t, n, t.pending[t.units[n].id]);
    }
  }

  lemma RegisterKeepsShape(s: State, n: nat)
    requires Shape(s)
    ensures Shape(RegisterStep(s, n))
  {
    assert forall m | m in s.units :: RegisterStep(s, n).units[m].id == s.units[m].id;
  }

  lemma RegisterKeepsOk(s: State, m: nat, n: nat)
    requires Inv(s)
    ensures Ok(RegisterStep(s, m), n)
  {
    assert Ok(s, n);
    assert InFlight(RegisterStep(s, m), n) <==> InFlight(s, n);
    if n in s.units && m in s.units && s.units[n].id == s.units[m].id {
      IdsDiffer(s, n, m);
    }
  }

  // Fewer slots, fewer replies on their way, and the same identifiers.
  lemma ShrinkKeepsShape(s: State, t: State)
    requires Shape(s) && t.counter == s.counter
    requires t.units.Keys == s.units.Keys && forall n | n in s.units :: t.units[n].id == s.units[n].id
    requires forall id | id in t.pending :: id in s.pending && t.pending[id] == s.pending[id]
    requires forall l | l in t.inFlight :: l in s.inFlight && t.inFlight[l] == s.inFlight[l]
    ensures Shape(t)
  {
  }

  lemma CancelKeepsUnitOk(u: Unit, inMap: bool, inFlight: bool)
    requires UnitOk(u, inMap, inFlight) && CancelNext(u.phase)
    ensures UnitOk(u.(phase := AfterCancel(u.phase), cancelled := inMap), false, inFlight)
  {
  }

  lemma CancelKeepsShape(s: State, m: nat)
    requires Shape(s)
    ensures Shape(CancelStep(s, m))
  {
    ShrinkKeepsShape(s, CancelStep(s, m));
  }

  lemma CancelKeepsOk(s: State, m: nat, n: nat)
    requires Inv(s)
    ensures Ok(CancelStep(s, m), n)
  {
    assert Ok(s, n);
    assert InFlight(CancelStep(s, m), n) <==> InFlight(s, n);
    if n in s.units && m in s.units && CancelNext(s.units[m].phase) {
      if n == m {
        CancelKeepsUnitOk(s.units[n], s.units[n].id in s.pending, InFlight(s, n));
      } else if s.units[n].id == s.units[m].id {
        IdsDiffer(s, n, m);
      }
    }
  }

  lemma ReceiveKeepsUnitOk(u: Unit, e: Event, inMap: bool, inFlight: bool)
    requires UnitOk(u, inMap, inFlight) && (e.ReceiveResult? || e.ReceiveError?)
    ensures UnitOk(Handled(u, e), inMap, inFlight)
  {
    if u.phase.Waiting? {
      assert u.received == [];
      assert |u.results| + |u.errors| <= 1;
    }
  }

  lemma HandledKeepsUnitOk(u: Unit, e: Event, inMap: bool, inFlight: bool)
    requires UnitOk(u, inMap, inFlight)
    ensures UnitOk(Handled(u, e), inMap, inFlight)
  {
    if e.ReceiveResult? || e.ReceiveError? {
      ReceiveKeepsUnitOk(u, e, inMap, inFlight);
    } else {
      var u' := Handled(u, e);
      assert u' == u.(phase := u'.phase, row := u'.row);
      assert ReceivedBy(u'.phase) == ReceivedBy(u.phase);
    }
  }

  // One unit changes, and keeps its identifier and its token.
  lemma UpdateKeepsOk(s: State, m: nat, u: Unit, n: nat)
    requires Inv(s) && m in s.units && u.id == s.units[m].id
    requires UnitOk(u, u.id in s.pending, InFlight(s, m))
    ensures Ok(s.(units := s.units[m := u]), n)
  {
    assert Ok(s, n);
    assert InFlight(s.(units := s.units[m := u]), n) <==> InFlight(s, n);
  }

  lemma HandleKeepsOk(s: State, m: nat, e: Event, n: nat)
    requires Inv(s)
    ensures Ok(HandleStep(s, m, e), n)
  {
    if m in s.units {
      assert Ok(s, m);
      HandledKeepsUnitOk(s.units[m], e, s.units[m].id in s.pending, InFlight(s, m));
      UpdateKeepsOk(s, m, Handled(s.units[m], e), n);
    } else {
      assert Ok(s, n);
    }
  }

  lemma HandleKeepsShape(s: State, m: nat, e: Event)
    requires Shape(s)
    ensures Shape(HandleStep(s, m, e))
  {
    if m in s.units {
      ShrinkKeepsShape(s, s.(units := s.units[m := Handled(s.units[m], e)]));
    }
  }

  lemma PendingIsNotInFlight(s: State, id: string)
    requires Inv(s) && id in s.pending
    ensures !InFlight(s, s.pending[id])
  {
    assert Ok(s, s.pending[id]);
  }

  lemma TakeKeepsShape(s: State, loop: nat, reply: Reply)
    requires Inv(s)
    ensures Shape(TakeStep(s, loop, reply))
  {
    if reply.id in s.pending {
      PendingIsNotInFlight(s, reply.id);
    }
  }

  lemma TakeKeepsOk(s: State, loop: nat, reply: Reply, n: nat)
    requires Inv(s)
    ensures Ok(TakeStep(s, loop, reply), n)
  {
    var t := TakeStep(s, loop, reply);
    assert Ok(s, n);
    if t != s {
      var w := s.pending[reply.id];
      PendingIsNotInFlight(s, reply.id);
      assert t.inFlight[loop].0 == w;
      assert forall l | l in s.inFlight :: t.inFlight[l] == s.inFlight[l];
      assert InFlight(t, n) <==> InFlight(s, n) || n == w;
      if n in s.units && s.units[n].id == reply.id {
        IdsDiffer(s, n, w);
      }
    }
  }

  // A reply on its way finds both channels of its unit empty: the send of the
  // read loop never blocks.
  lemma SendIsReady(s: State, loop: nat)
    requires Inv(s) && loop in s.inFlight
    ensures SendReady(s, loop)
    ensures var u := s.units[s.inFlight[loop].0]; u.results == [] && u.errors == []
  {
    assert InFlight(s, s.inFlight[loop].0);
    assert Ok(s, s.inFlight[loop].0);
  }

  lemma SendKeepsOk(s: State, loop: nat, n: nat)
    requires Inv(s)
    ensures Ok(SendStep(s, loop), n)
  {
    var t := SendStep(s, loop);
    assert Ok(s, n);
    if loop in s.inFlight {
      SendIsReady(s, loop);
      var w := s.inFlight[loop].0;
      assert forall l | l in s.inFlight && l != loop :: t.inFlight[l] == s.inFlight[l];
      assert InFlight(s, n) <==> InFlight(t, n) || n == w;
      assert !InFlight(t, w);
    }
  }

  lemma SendKeepsShape(s: State, loop: nat)
    requires Shape(s)
    ensures Shape(SendStep(s, loop))
  {
    ShrinkKeepsShape(s, SendStep(s, loop));
  }

  lemma StepKeepsShape(s: State, a: Action)
    requires Inv(s)
    ensures Shape(Step(s, a))
  {
    match a
    case NextID(nowMs, isBatch) => NextIDKeepsShape(s, nowMs, isBatch);
    case Register(m) => RegisterKeepsShape(s, m);
    case Cancel(m) => CancelKeepsShape(s, m);
    case Handle(m, e) => HandleKeepsShape(s, m, e);
    case Take(loop, reply) => TakeKeepsShape(s, loop, reply);
    case Send(loop) => SendKeepsShape(s, loop);
  }

  lemma StepKeepsOk(s: State, a: Action, n: nat)
    requires Inv(s)
    ensures Ok(Step(s, a), n)
  {
    match a
    case NextID(nowMs, isBatch) => NextIDKeepsOk(s, nowMs, isBatch, n);
    case Register(m) => RegisterKeepsOk(s, m, n);
    case Cancel(m) => CancelKeepsOk(s, m, n);
    case Handle(m, e) => HandleKeepsOk(s, m, e, n);
    case Take(loop, reply) => TakeKeepsOk(s, loop, reply, n);
    case Send(loop) => SendKeepsOk(s, loop, n);
  }

  lemma StepKeepsInv(s: State, a: Action)
    requires Inv(s)
    ensures Inv(Step(s, a))
  {
    StepKeepsShape(s, a);
    forall n
      ensures Ok(Step(s, a), n)
    {
      StepKeepsOk(s, a, n);
    }
  }

  lemma {:induction false} RunKeepsInv(s: State, actions: seq<Action>)
    requires Inv(s)
    ensures Inv(Run(s, actions))
    decreases |actions|
  {
    if actions != [] {
      StepKeepsInv(s, actions[0]);
      RunKeepsInv(Step(s, actions[0]), actions[1..]);
    }
  }

  /* Main results, for every run of any number of handlers and read loops. */

  // Every registered unit has exactly one token.
  lemma TokenConservation(actions: seq<Action>, n: nat)
    requires n in Run(INIT, actions).units
    ensures var s := Run(INIT, actions);
            var u := s.units[n];
            Tokens(u, u.id in s.pending, InFlight(s, n)) == if u.phase.Issued? then 0 else 1
  {
    RunKeepsInv(INIT, actions);
    assert Ok(Run(INIT, actions), n);
  }

  lemma ReadLoopNeverBlocks(actions: seq<Action>, loop: nat)
    ensures var s := Run(INIT, actions);
      loop in s.inFlight ==>
        && SendReady(s, loop) && s.inFlight[loop].0 in s.units
        && s.units[s.inFlight[loop].0].results == [] && s.units[s.inFlight[loop].0].errors == []
  {
    RunKeepsInv(INIT, actions);
    if loop in Run(INIT, actions).inFlight {
      SendIsReady(Run(INIT, actions), loop);
    }
  }

  // No leaked slot and one outcome: a handler that has returned left nothing in
  // the pending map, took at most one reply, one that names its own unit, and its
  // row says what it returned.
  lemma ReturnedHandler(actions: seq<Action>, n: nat, branch: Branch)
    requires n in Run(INIT, actions).units && Run(INIT, actions).units[n].phase == Returned(branch)
    ensures var s := Run(INIT, actions);
            var u := s.units[n];
            && u.id !in s.pending
            && u.received == (if branch.Answered? then [branch.reply] else [])
            && (branch.Answered? ==> branch.reply.id == u.id)
            && u.row == match branch
                        case NotDispatched => None
                        case Answered(Result(_, ms)) => Some(RowCompleted(ms))
                        case Answered(Error(_, message)) => Some(RowFailed(message))
                        case TimeoutBranch => Some(RowTimeout)
                        case StopBranch => Some(RowDispatched)
  {
    RunKeepsInv(INIT, actions);
    assert Ok(Run(INIT, actions), n);
  }

  // A row is created as dispatched, changes at most once, and never disappears.
  predicate RowMove(row: Option<Row>, row': Option<Row>) {
    && (row == None ==> row' in {None, Some(RowDispatched)})
    && (row != None && row != Some(RowDispatched) ==> row' == row)
    && (row != None ==> row' != None)
  }

  lemma HandledMovesRow(u: Unit, e: Event, inMap: bool, inFlight: bool)
    requires UnitOk(u, inMap, inFlight)
    ensures RowMove(u.row, Handled(u, e).row)
  {
  }

  lemma RowsAreWrittenOnce(actions: seq<Action>, a: Action, n: nat)
    requires n in Run(INIT, actions).units
    ensures var s := Run(INIT, actions); n in Step(s, a).units && RowMove(s.units[n].row, Step(s, a).units[n].row)
  {
    RunKeepsInv(INIT, actions);
    var s := Run(INIT, actions);
    assert Ok(s, n);
    if a.Handle? && a.unit == n {
      HandledMovesRow(s.units[n], a.event, s.units[n].id in s.pending, InFlight(s, n));
    } else {
      assert Step(s, a).units[n].row == s.units[n].row;
    }
  }
}
