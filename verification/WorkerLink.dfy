// A worker and the manager over a lossless FIFO link, with consent held:
// internal/client/worker/worker.go:230-406 and
// internal/manager/gateway/websocket.go:403-431, 486-496.
//
// The worker processes one unit at a time. Its other goroutines (the tray, model
// updates, the connection set-up) may set the pause flag and send any status but
// "processing" between any two of its steps. An action that is not enabled
// changes nothing.
module WorkerLink {
  import opened Store

  datatype Trigger = NoTrigger | PauseTrigger | PanicTrigger | ErrorTrigger
  datatype WorkUnit = WorkUnit(id: string, trigger: Trigger)
  datatype LlmOutcome = Completed | Failed(error: string) | Crashed(panic: string)

  datatype Reason = PausedByUser | ConsentRevoked | GpuContention | TestPanic | TestError | LlmError(error: string) | Panic(panic: string)

  datatype Message = Status(state: string) | Result(id: string) | Error(id: string, error: Reason)

  const PAUSED := "paused"

  // The next thing process does.
  datatype Stage =
    | Idle
    | CheckPaused
    | CheckConsent
    | CheckGpu
    | Reject(error: Reason)
    | MarkTracker
    | MarkMonitor
    | SayProcessing
    | Work
    | ReadPause
    | WritePause(pause: bool)
    | SayPause(pause: bool)
    | AnswerPause
    | Answer
    | Fail(error: Reason)
    | CoolDown
    | ClearTracker(thenSay: bool)
    | ClearMonitor(thenSay: bool)
    | SayAvailable

  datatype State = State(
    queue: seq<WorkUnit>,
    unit: WorkUnit,
    stage: Stage,
    tracker: bool,       // processing.SetProcessing
    monitor: bool,       // monitor.SetProcessing
    paused: bool,
    consent: bool,
    gpuBusy: bool,
    link: seq<Message>,
    status: string,      // the worker's row at the manager
    said: seq<string>,   // every status sent, by any goroutine
    taken: seq<WorkUnit>,    // every unit that process was called for
    answers: seq<Message>)   // every result and error sent

  datatype Action =
    | Arrive(unit: WorkUnit)
    | Advance(outcome: LlmOutcome)
    | OtherStatus(state: string)
    | SetPaused(pause: bool)
    | SetConsent(accepted: bool)
    | SetGpu(busy: bool)
    | Deliver

  function Send(s: State, m: Message): State {
    s.(link := s.link + [m],
       said := if m.Status? then s.said + [m.state] else s.said,
       answers := if m.Status? then s.answers else s.answers + [m])
  }

  function AfterWork(trigger: Trigger, outcome: LlmOutcome): Stage {
    match trigger
    case PauseTrigger => ReadPause
    case PanicTrigger => Fail(TestPanic)
    case ErrorTrigger => Fail(TestError)
    case NoTrigger =>
      match outcome
      case Completed => Answer
      case Failed(error) => Fail(LlmError(error))
      case Crashed(panic) => Fail(Panic(panic))
  }

  function StatusFor(pause: bool): string {
    if pause then PAUSED else AVAILABLE
  }

  // What process looks at: the unit, the flags, and how the inference will end.
  datatype View = View(unit: WorkUnit, paused: bool, consent: bool, gpuBusy: bool, outcome: LlmOutcome)

  // The control of process: the stage after this one.
  function Next(p: Stage, v: View): Stage {
    match p
    case Idle => CheckPaused
    case CheckPaused => if v.paused && !v.unit.trigger.PauseTrigger? then Reject(PausedByUser) else CheckConsent
    case CheckConsent => if v.consent then CheckGpu else Reject(ConsentRevoked)
    case CheckGpu => if v.gpuBusy then Reject(GpuContention) else MarkTracker
    case Reject(_) => Idle
    case MarkTracker => MarkMonitor
    case MarkMonitor => SayProcessing
    case SayProcessing => Work
    case Work => AfterWork(v.unit.trigger, v.outcome)
    case ReadPause => WritePause(!v.paused)
    case WritePause(pause) => SayPause(pause)
    case SayPause(_) => AnswerPause
    case AnswerPause => ClearTracker(false)
    case Answer => CoolDown
    case Fail(_) => ClearTracker(true)
    case CoolDown => ClearTracker(true)
    case ClearTracker(thenSay) => ClearMonitor(thenSay)
    case ClearMonitor(thenSay) => if thenSay then SayAvailable else Idle
    case SayAvailable => Idle
  }

  // What leaving a stage sends.
  function Output(p: Stage, id: string): seq<Message> {
    match p
    case Reject(error) => [Error(id, error)]
    case SayProcessing => [Status(PROCESSING)]
    case SayPause(pause) => [Status(StatusFor(pause))]
    case AnswerPause => [Result(id)]
    case Answer => [Result(id)]
    case Fail(error) => [Error(id, error)]
    case SayAvailable => [Status(AVAILABLE)]
    case _ => []
  }

  function ViewOf(s: State, outcome: LlmOutcome): View {
    View(s.unit, s.paused, s.consent, s.gpuBusy, outcome)
  }

  // Nothing happens to an idle worker without a unit.
  function Process(s: State, outcome: LlmOutcome): State {
    if s.stage == Idle then
      if s.queue == [] then s
      else s.(queue := s.queue[1..], unit := s.queue[0], stage := CheckPaused, taken := s.taken + [s.queue[0]])
    else
      var output := Output(s.stage, s.unit.id);
      var sent := if output == [] then s else Send(s, output[0]);
      sent.(stage := Next(s.stage, ViewOf(s, outcome)),
            tracker := s.stage.MarkTracker? || (s.tracker && !s.stage.ClearTracker?),
            monitor := s.stage.MarkMonitor? || (s.monitor && !s.stage.ClearMonitor?),
            paused := if s.stage.WritePause? then s.stage.pause else s.paused)
  }

  // The manager's read loop, for a worker whose consent is held.
  function Apply(status: string, m: Message): string {
    match m
    case Status(state) => if status == WITHDRAWN then status else state
    case Result(_) => if status == PROCESSING then AVAILABLE else status
    case Error(_, _) => if status == PROCESSING then AVAILABLE else status
  }

  function Step(s: State, a: Action): State {
    match a
    case Arrive(unit) => s.(queue := s.queue + [unit])
    case Advance(outcome) => Process(s, outcome)
    case OtherStatus(state) => if state == PROCESSING || state == WITHDRAWN then s else Send(s, Status(state))
    case SetPaused(pause) => s.(paused := pause)
    case SetConsent(accepted) => s.(consent := accepted)
    case SetGpu(busy) => s.(gpuBusy := busy)
    case Deliver => if s.link == [] then s else s.(link := s.link[1..], status := Apply(s.status, s.link[0]))
  }

  function Run(s: State, actions: seq<Action>): State
    decreases |actions|
  {
    if actions == [] then s else Run(Step(s, actions[0]), actions[1..])
  }

  // The status the manager will show once the link is empty.
  function Drained(status: string, link: seq<Message>): string
    decreases |link|
  {
    if link == [] then status else Drained(Apply(status, link[0]), link[1..])
  }

  // A connected worker that has just sent its first status.
  ghost predicate Initial(s: State) {
    && s.queue == [] && s.stage == Idle && !s.tracker && !s.monitor && s.link == []
    && s.said == [s.status] && s.status != PROCESSING && s.status != WITHDRAWN
    && s.taken == [] && s.answers == []
  }

  predicate TrackerSet(p: Stage) {
    match p
    case Idle => false
    case CheckPaused => false
    case CheckConsent => false
    case CheckGpu => false
    case Reject(_) => false
    case MarkTracker => false
    case ClearMonitor(_) => false
    case SayAvailable => false
    case _ => true
  }

  predicate MonitorSet(p: Stage) {
    (TrackerSet(p) && !p.MarkMonitor?) || p.ClearMonitor?
  }

  // The worker has said "processing" and will say something else.
  predicate StatusOwed(p: Stage) {
    match p
    case Work => true
    case ReadPause => true
    case WritePause(_) => true
    case SayPause(_) => true
    case Answer => true
    case Fail(_) => true
    case CoolDown => true
    case ClearTracker(thenSay) => thenSay
    case ClearMonitor(thenSay) => thenSay
    case SayAvailable => true
    case _ => false
  }

  // The worker has said "processing" and neither answered nor said anything else.
  predicate AnswerOwed(p: Stage) {
    p.Work? || p.ReadPause? || p.WritePause? || p.SayPause? || p.Answer? || p.Fail?
  }

  function Last(said: seq<string>): string {
    if said == [] then "" else said[|said| - 1]
  }

  ghost predicate FlagsOk(s: State) {
    s.tracker == TrackerSet(s.stage) && s.monitor == MonitorSet(s.stage)
  }

  // The drained status is the last one said, unless an answer has since made an
  // "available" of it.
  ghost predicate StatusOk(s: State) {
    var drained := Drained(s.status, s.link);
    && s.said != [] && Last(s.said) != WITHDRAWN
    && (drained == Last(s.said) || (Last(s.said) == PROCESSING && drained == AVAILABLE))
    && (Last(s.said) == PROCESSING ==> StatusOwed(s.stage))
    && (drained == PROCESSING ==> AnswerOwed(s.stage))
  }

  ghost predicate Inv(s: State) {
    FlagsOk(s) && StatusOk(s)
  }

  lemma {:induction false} DrainedSnoc(status: string, link: seq<Message>, m: Message)
    ensures Drained(status, link + [m]) == Apply(Drained(status, link), m)
    decreases |link|
  {
    if link == [] {
      assert link + [m] == [m] && [m][1..] == [];
    } else {
      assert (link + [m])[1..] == link[1..] + [m];
      DrainedSnoc(Apply(status, link[0]), link[1..], m);
    }
  }

  // Sending a message is delivering it, as far as the drained status goes.
  lemma SendDrains(s: State, m: Message)
    ensures Drained(Send(s, m).status, Send(s, m).link) == Apply(Drained(s.status, s.link), m)
    ensures Last(Send(s, m).said) == if m.Status? then m.state else Last(s.said)
  {
    DrainedSnoc(s.status, s.link, m);
  }

  lemma NextKeepsFlags(p: Stage, v: View)
    requires p != Idle
    ensures var q := Next(p, v);
            && TrackerSet(q) == (p.MarkTracker? || (TrackerSet(p) && !p.ClearTracker?))
            && MonitorSet(q) == (p.MarkMonitor? || (MonitorSet(p) && !p.ClearMonitor?))
  {
  }

  // A silent stage passes its debts on.
  lemma SilenceKeepsDebts(p: Stage, v: View)
    requires p != Idle && Output(p, v.unit.id) == []
    ensures var q := Next(p, v);
            (StatusOwed(p) ==> StatusOwed(q)) && (AnswerOwed(p) ==> AnswerOwed(q))
  {
  }

  lemma ProcessKeepsInv(s: State, outcome: LlmOutcome)
    requires Inv(s)
    ensures Inv(Process(s, outcome))
  {
    if s.stage != Idle {
      NextKeepsFlags(s.stage, ViewOf(s, outcome));
      var output := Output(s.stage, s.unit.id);
      if output == [] {
        SilenceKeepsDebts(s.stage, ViewOf(s, outcome));
      } else {
        SendDrains(s, output[0]);
      }
    }
  }

  lemma StepKeepsInv(s: State, a: Action)
    requires Inv(s)
    ensures Inv(Step(s, a))
  {
    match a
    case Advance(outcome) => ProcessKeepsInv(s, outcome);
    case OtherStatus(state) => SendDrains(s, Status(state));
    case _ =>
  }

  lemma {:induction false} RunKeepsInv(s: State, actions: seq<Action>)
    requires Inv(s)
    ensures Inv(Run(s, actions))
    decreases |actions|
  {
    if actions != [] {
      StepKeepsInv(s, actions[0]);
      RunKeepsInv(Step(s, actions[0]), actions[1..]);
    }
  }

  /* Main results. */

  // Once the worker is idle and the link drained, both flags are down and the
  // manager shows the last status that any goroutine sent, which is never
  // "processing".
  lemma IdleShowsLastStatus(s: State, actions: seq<Action>)
    requires Initial(s) && Run(s, actions).stage == Idle && Run(s, actions).link == []
    ensures var t := Run(s, actions);
            !t.tracker && !t.monitor && t.status == Last(t.said) && t.status != PROCESSING
  {
    RunKeepsInv(s, actions);
  }

  // Only a worker that owes an answer can be shown as processing, in any state.
  lemma ProcessingMeansAnswerOwed(s: State, actions: seq<Action>)
    requires Initial(s) && Run(s, actions).link == [] && Run(s, actions).status == PROCESSING
    ensures AnswerOwed(Run(s, actions).stage) && Run(s, actions).tracker && Run(s, actions).monitor
  {
    RunKeepsInv(s, actions);
  }

  // In every state, the drained link shows the last status sent unless that was
  // "processing": so the "paused" of the toggle is not overwritten by the result
  // that follows it.
  lemma AnswersDoNotOverwrite(s: State, actions: seq<Action>)
    requires Initial(s) && Last(Run(s, actions).said) != PROCESSING
    ensures Drained(Run(s, actions).status, Run(s, actions).link) == Last(Run(s, actions).said)
  {
    RunKeepsInv(s, actions);
  }

  /* Every unit is answered once. */

  // The unit in process has not been answered.
  predicate Unanswered(p: Stage) {
    match p
    case Idle => false
    case CoolDown => false
    case ClearTracker(_) => false
    case ClearMonitor(_) => false
    case SayAvailable => false
    case _ => true
  }

  ghost predicate Accounted(s: State) {
    && |s.taken| == |s.answers| + (if Unanswered(s.stage) then 1 else 0)
    && (s.stage != Idle ==> s.taken != [] && s.taken[|s.taken| - 1] == s.unit)
    && forall i :: 0 <= i < |s.answers| ==> !s.answers[i].Status? && s.answers[i].id == s.taken[i].id
  }

  lemma StageAnswers(p: Stage, v: View)
    requires p != Idle
    ensures Unanswered(p) <==> Unanswered(Next(p, v)) || (Output(p, v.unit.id) != [] && !Output(p, v.unit.id)[0].Status?)
    ensures Unanswered(Next(p, v)) ==> Output(p, v.unit.id) == [] || Output(p, v.unit.id)[0].Status?
    ensures Output(p, v.unit.id) != [] && !Output(p, v.unit.id)[0].Status? ==> Output(p, v.unit.id)[0].id == v.unit.id
  {
  }

  lemma AdvanceKeepsAccounts(s: State, outcome: LlmOutcome)
    requires Accounted(s) && s.stage != Idle
    ensures Accounted(Process(s, outcome))
  {
    StageAnswers(s.stage, ViewOf(s, outcome));
  }

  lemma TakeKeepsAccounts(s: State, outcome: LlmOutcome)
    requires Accounted(s) && s.stage == Idle
    ensures Accounted(Process(s, outcome))
  {
  }

  // Only the process goroutine touches the stage and the accounts.
  lemma OthersKeepAccounts(s: State, a: Action)
    requires !a.Advance?
    ensures var t := Step(s, a);
            t.stage == s.stage && t.unit == s.unit && t.taken == s.taken && t.answers == s.answers
  {
  }

  lemma StepKeepsAccounts(s: State, a: Action)
    requires Accounted(s)
    ensures Accounted(Step(s, a))
  {
    if !a.Advance? {
      OthersKeepAccounts(s, a);
    } else if s.stage == Idle {
      TakeKeepsAccounts(s, a.outcome);
    } else {
      AdvanceKeepsAccounts(s, a.outcome);
    }
  }

  lemma {:induction false} RunKeepsAccounts(s: State, actions: seq<Action>)
    requires Accounted(s)
    ensures Accounted(Run(s, actions))
    decreases |actions|
  {
    if actions != [] {
      StepKeepsAccounts(s, actions[0]);
      RunKeepsAccounts(Step(s, actions[0]), actions[1..]);
    }
  }

  function Arrival(a: Action): seq<WorkUnit> {
    if a.Arrive? then [a.unit] else []
  }

  function Arrivals(actions: seq<Action>): seq<WorkUnit>
    decreases |actions|
  {
    if actions == [] then [] else Arrival(actions[0]) + Arrivals(actions[1..])
  }

  function Received(s: State): seq<WorkUnit> {
    s.taken + s.queue
  }

  lemma StepReceives(s: State, a: Action)
    ensures Received(Step(s, a)) == Received(s) + Arrival(a)
  {
    if a.Advance? && s.stage == Idle && s.queue != [] {
      assert s.taken + s.queue == s.taken + [s.queue[0]] + s.queue[1..];
    }
  }

  lemma Regroup(a: seq<WorkUnit>, b: seq<WorkUnit>, c: seq<WorkUnit>)
    ensures a + b + c == a + (b + c)
  {
  }

  lemma {:induction false} RunReceives(s: State, actions: seq<Action>)
    ensures Received(Run(s, actions)) == Received(s) + Arrivals(actions)
    decreases |actions|
  {
    if actions != [] {
      StepReceives(s, actions[0]);
      RunReceives(Step(s, actions[0]), actions[1..]);
      Regroup(Received(s), Arrival(actions[0]), Arrivals(actions[1..]));
    }
  }

  // In every run each unit that has arrived is waiting, in process and unanswered, or
  // answered exactly once, and answers go out in the order of arrival, each under the
  // identifier of its unit.
  lemma OneAnswerPerUnit(s: State, actions: seq<Action>)
    requires Initial(s)
    ensures var t, arrived := Run(s, actions), Arrivals(actions);
      && |arrived| == |t.answers| + (if Unanswered(t.stage) then 1 else 0) + |t.queue|
      && forall i :: 0 <= i < |t.answers| ==> !t.answers[i].Status? && t.answers[i].id == arrived[i].id
  {
    RunKeepsAccounts(s, actions);
    RunReceives(s, actions);
    var t := Run(s, actions);
    assert Received(t) == Arrivals(actions);
    assert forall i :: 0 <= i < |t.taken| ==> t.taken[i] == Received(t)[i];
  }

  lemma AnswerIsSent(t: State, later: LlmOutcome)
    requires t.stage == Answer
    ensures Process(t, later).answers == t.answers + [Result(t.unit.id)]
  {
  }

  lemma FailureIsSent(t: State, later: LlmOutcome)
    requires t.stage.Fail?
    ensures Process(t, later).answers == t.answers + [Error(t.unit.id, t.stage.error)]
  {
  }

  // What the inference ends with decides the answer, whatever happens between it and
  // the message.
  lemma WorkDecides(s: State, outcome: LlmOutcome, t: State, later: LlmOutcome)
    requires s.stage == Work && !s.unit.trigger.PauseTrigger?
    requires t.stage == Process(s, outcome).stage && t.unit == s.unit
    ensures Process(t, later).answers == t.answers + [
      match s.unit.trigger
      case PanicTrigger => Error(s.unit.id, TestPanic)
      case ErrorTrigger => Error(s.unit.id, TestError)
      case _ =>
        match outcome
        case Completed => Result(s.unit.id)
        case Failed(error) => Error(s.unit.id, LlmError(error))
        case Crashed(panic) => Error(s.unit.id, Panic(panic))]
  {
    ProcessSends(s, outcome);
    if t.stage == Answer { AnswerIsSent(t, later); } else { FailureIsSent(t, later); }
  }

  /* The same worker in the form of the source. */

  // What process sends for one unit when no other goroutine interferes.
  function Script(v: View): seq<Message> {
    if v.paused && !v.unit.trigger.PauseTrigger? then [Error(v.unit.id, PausedByUser)]
    else if !v.consent then [Error(v.unit.id, ConsentRevoked)]
    else if v.gpuBusy then [Error(v.unit.id, GpuContention)]
    else if v.unit.trigger.PauseTrigger? then
      [Status(PROCESSING), Status(if v.paused then AVAILABLE else PAUSED), Result(v.unit.id)]
    else [Status(PROCESSING), Reply(v.unit, v.outcome), Status(AVAILABLE)]
  }

  function Reply(unit: WorkUnit, outcome: LlmOutcome): Message {
    match unit.trigger
    case PanicTrigger => Error(unit.id, TestPanic)
    case ErrorTrigger => Error(unit.id, TestError)
    case _ =>
      match outcome
      case Completed => Result(unit.id)
      case Failed(error) => Error(unit.id, LlmError(error))
      case Crashed(panic) => Error(unit.id, Panic(panic))
  }

  class Worker {
    var tracker: bool
    var monitor: bool
    var paused: bool
    var outbox: seq<Message>

    constructor ()
      ensures !tracker && !monitor && !paused && outbox == []
    {
      tracker, monitor, paused, outbox := false, false, false, [];
    }

    method Send(m: Message)
      modifies this`outbox
      ensures outbox == old(outbox) + [m]
    {
      outbox := outbox + [m];
    }

    // A panic inside the inference is recovered at the end of the method. Whatever
    // happens, the unit gets one answer, and which one says how it went.
    method Process(unit: WorkUnit, consent: bool, gpuBusy: bool, outcome: LlmOutcome)
      returns (ghost sent: seq<Message>)
      requires !tracker && !monitor
      modifies this
      ensures outbox == old(outbox) + sent && sent == Script(View(unit, old(paused), consent, gpuBusy, outcome))
      ensures paused == (old(paused) != (unit.trigger.PauseTrigger? && consent && !gpuBusy))
      ensures !tracker && !monitor
      ensures exists k :: IsOnlyAnswer(sent, k, unit.id)
      ensures Error(unit.id, PausedByUser) in sent <==> old(paused) && !unit.trigger.PauseTrigger?
      ensures (old(paused) ==> unit.trigger.PauseTrigger?) && !consent ==> Error(unit.id, ConsentRevoked) in sent
      ensures (old(paused) ==> unit.trigger.PauseTrigger?) && consent && gpuBusy ==> Error(unit.id, GpuContention) in sent
      ensures (old(paused) ==> unit.trigger.PauseTrigger?) && consent && !gpuBusy ==>
        && (Result(unit.id) in sent <==> unit.trigger.PauseTrigger? || (unit.trigger.NoTrigger? && outcome.Completed?))
        && (Error(unit.id, TestPanic) in sent <==> unit.trigger.PanicTrigger?)
        && (Error(unit.id, TestError) in sent <==> unit.trigger.ErrorTrigger?)
        && (forall e :: Error(unit.id, LlmError(e)) in sent <==> unit.trigger.NoTrigger? && outcome == Failed(e))
        && (forall p :: Error(unit.id, Panic(p)) in sent <==> unit.trigger.NoTrigger? && outcome == Crashed(p))
    {
      ghost var v := View(unit, paused, consent, gpuBusy, outcome);
      ProcessUnit(unit, consent, gpuBusy, outcome);
      sent := Script(v);
      ScriptAnswersOnce(v);
      ScriptSays(v);
    }

    method ProcessUnit(unit: WorkUnit, consent: bool, gpuBusy: bool, outcome: LlmOutcome)
      requires !tracker && !monitor
      modifies this
      ensures outbox == old(outbox) + Script(View(unit, old(paused), consent, gpuBusy, outcome))
      ensures paused == (old(paused) != (unit.trigger.PauseTrigger? && consent && !gpuBusy))
      ensures !tracker && !monitor
    {
      if paused && !unit.trigger.PauseTrigger? {
        Send(Error(unit.id, PausedByUser));
        return;
      }
      if !consent {
        Send(Error(unit.id, ConsentRevoked));
        return;
      }
      if gpuBusy {
        Send(Error(unit.id, GpuContention));
        return;
      }
      tracker, monitor := true, true;
      Send(Status(PROCESSING));
      match unit.trigger {
        case PauseTrigger =>
          paused := !paused;
          Send(Status(if paused then PAUSED else AVAILABLE));
          Send(Result(unit.id));
          tracker, monitor := false, false;
          return;
        case PanicTrigger => Send(Error(unit.id, TestPanic));
        case ErrorTrigger => Send(Error(unit.id, TestError));
        case NoTrigger =>
          match outcome {
            case Completed => Send(Result(unit.id));
            case Failed(error) => Send(Error(unit.id, LlmError(error)));
            case Crashed(panic) => Send(Error(unit.id, Panic(panic)));
          }
      }
      tracker, monitor := false, false;
      Send(Status(AVAILABLE));
    }
  }

  // The k-th message is the one result or error of this unit, the others are statuses.
  ghost predicate IsOnlyAnswer(sent: seq<Message>, k: int, id: string) {
    && 0 <= k < |sent| && !sent[k].Status? && sent[k].id == id
    && forall i :: 0 <= i < |sent| && i != k ==> sent[i].Status?
  }

  lemma ScriptAnswersOnce(v: View)
    ensures exists k :: IsOnlyAnswer(Script(v), k, v.unit.id)
  {
    var k := if |Script(v)| == 1 then 0 else if v.unit.trigger.PauseTrigger? then 2 else 1;
    assert IsOnlyAnswer(Script(v), k, v.unit.id);
  }

  predicate Accepted(v: View) {
    (v.paused ==> v.unit.trigger.PauseTrigger?) && v.consent && !v.gpuBusy
  }

  // Which answer it is, from the unit, the flags and the outcome.
  lemma ScriptSays(v: View)
    ensures Error(v.unit.id, PausedByUser) in Script(v) <==> v.paused && !v.unit.trigger.PauseTrigger?
    ensures Accepted(v) ==>
      && (Result(v.unit.id) in Script(v) <==>
          v.unit.trigger.PauseTrigger? || (v.unit.trigger.NoTrigger? && v.outcome.Completed?))
      && (Error(v.unit.id, TestPanic) in Script(v) <==> v.unit.trigger.PanicTrigger?)
      && (Error(v.unit.id, TestError) in Script(v) <==> v.unit.trigger.ErrorTrigger?)
      && (forall e :: Error(v.unit.id, LlmError(e)) in Script(v) <==> v.unit.trigger.NoTrigger? && v.outcome == Failed(e))
      && (forall p :: Error(v.unit.id, Panic(p)) in Script(v) <==> v.unit.trigger.NoTrigger? && v.outcome == Crashed(p))
    ensures Accepted(v) && v.unit.trigger.PauseTrigger? ==>
      Script(v)[..2] == [Status("processing"), Status(if v.paused then "available" else "paused")]
    ensures Accepted(v) && !v.unit.trigger.PauseTrigger? ==>
      |Script(v)| == 3 && Script(v)[0] == Status("processing") && Script(v)[2] == Status("available")
    ensures !Accepted(v) ==> Script(v) == [Error(v.unit.id,
      if v.paused && !v.unit.trigger.PauseTrigger? then PausedByUser else if v.consent then GpuContention else ConsentRevoked)]
  {
    var sent := Script(v);
    if |sent| == 3 {
      assert sent == [sent[0], sent[1], sent[2]];
    } else {
      assert sent == [sent[0]];
    }
  }

  function StagesLeft(p: Stage): nat {
    match p
    case Idle => 0
    case CheckPaused => 15
    case CheckConsent => 14
    case CheckGpu => 13
    case Reject(_) => 1
    case MarkTracker => 12
    case MarkMonitor => 11
    case SayProcessing => 10
    case Work => 9
    case ReadPause => 8
    case WritePause(_) => 7
    case SayPause(_) => 6
    case AnswerPause => 5
    case Answer => 5
    case Fail(_) => 4
    case CoolDown => 4
    case ClearTracker(_) => 3
    case ClearMonitor(_) => 2
    case SayAvailable => 1
  }

  function NextView(p: Stage, v: View): View {
    if p.WritePause? then v.(paused := p.pause) else v
  }

  // What the stages from p on send when no other goroutine interferes.
  function Emits(p: Stage, v: View): seq<Message>
    decreases StagesLeft(p)
  {
    if p == Idle then []
    else Output(p, v.unit.id) + Emits(Next(p, v), NextView(p, v))
  }

  // One stage at a time.
  lemma EmitsThen(p: Stage, v: View, q: Stage)
    requires p != Idle && !p.WritePause? && Next(p, v) == q
    ensures Emits(p, v) == Output(p, v.unit.id) + Emits(q, v)
  {
  }

  lemma ClearMonitorEmits(v: View, thenSay: bool)
    ensures Emits(ClearMonitor(thenSay), v) == if thenSay then [Status(AVAILABLE)] else []
  {
    if thenSay {
      EmitsThen(ClearMonitor(true), v, SayAvailable);
      EmitsThen(SayAvailable, v, Idle);
    } else {
      EmitsThen(ClearMonitor(false), v, Idle);
    }
  }

  lemma ClearTrackerEmits(v: View, thenSay: bool)
    ensures Emits(ClearTracker(thenSay), v) == if thenSay then [Status(AVAILABLE)] else []
  {
    EmitsThen(ClearTracker(thenSay), v, ClearMonitor(thenSay));
    ClearMonitorEmits(v, thenSay);
  }

  lemma RejectEmits(v: View, error: Reason)
    ensures Emits(Reject(error), v) == [Error(v.unit.id, error)]
  {
    EmitsThen(Reject(error), v, Idle);
  }

  lemma FailEmits(v: View, error: Reason)
    ensures Emits(Fail(error), v) == [Error(v.unit.id, error), Status(AVAILABLE)]
  {
    EmitsThen(Fail(error), v, ClearTracker(true));
    ClearTrackerEmits(v, true);
  }

  lemma CoolDownEmits(v: View)
    ensures Emits(CoolDown, v) == [Status(AVAILABLE)]
  {
    EmitsThen(CoolDown, v, ClearTracker(true));
    ClearTrackerEmits(v, true);
  }

  lemma AnswerEmits(v: View)
    ensures Emits(Answer, v) == [Result(v.unit.id), Status(AVAILABLE)]
  {
    EmitsThen(Answer, v, CoolDown);
    CoolDownEmits(v);
  }

  lemma AnswerPauseEmits(v: View)
    ensures Emits(AnswerPause, v) == [Result(v.unit.id)]
  {
    EmitsThen(AnswerPause, v, ClearTracker(false));
    ClearTrackerEmits(v, false);
  }

  lemma SayPauseEmits(v: View, pause: bool)
    ensures Emits(SayPause(pause), v) == [Status(StatusFor(pause)), Result(v.unit.id)]
  {
    EmitsThen(SayPause(pause), v, AnswerPause);
    AnswerPauseEmits(v);
  }

  lemma WritePauseEmits(v: View, pause: bool)
    ensures Emits(WritePause(pause), v) == [Status(StatusFor(pause)), Result(v.unit.id)]
  {
    var u := v.(paused := pause);
    SayPauseEmits(u, pause);
    EmitsUnfold(WritePause(pause), v, SayPause(pause), u);
  }

  lemma ReadPauseEmits(v: View)
    ensures Emits(ReadPause, v) == [Status(StatusFor(!v.paused)), Result(v.unit.id)]
  {
    EmitsThen(ReadPause, v, WritePause(!v.paused));
    WritePauseEmits(v, !v.paused);
  }

  // What the stages after the inference, or the trigger, send.
  function Answers(v: View): seq<Message> {
    match AfterWork(v.unit.trigger, v.outcome)
    case ReadPause => [Status(StatusFor(!v.paused)), Result(v.unit.id)]
    case Answer => [Result(v.unit.id), Status(AVAILABLE)]
    case Fail(error) => [Error(v.unit.id, error), Status(AVAILABLE)]
    case _ => []
  }

  lemma WorkEmits(v: View)
    ensures Emits(Work, v) == Answers(v)
  {
    var p := AfterWork(v.unit.trigger, v.outcome);
    EmitsThen(Work, v, p);
    match p
    case ReadPause => ReadPauseEmits(v);
    case Answer => AnswerEmits(v);
    case Fail(error) => FailEmits(v, error);
  }

  lemma MarkTrackerEmits(v: View)
    ensures Emits(MarkTracker, v) == [Status(PROCESSING)] + Answers(v)
  {
    EmitsThen(MarkTracker, v, MarkMonitor);
    EmitsThen(MarkMonitor, v, SayProcessing);
    EmitsThen(SayProcessing, v, Work);
    WorkEmits(v);
  }

  lemma CheckGpuEmits(v: View)
    ensures Emits(CheckGpu, v)
         == if v.gpuBusy then [Error(v.unit.id, GpuContention)] else [Status(PROCESSING)] + Answers(v)
  {
    if v.gpuBusy {
      EmitsThen(CheckGpu, v, Reject(GpuContention));
      RejectEmits(v, GpuContention);
    } else {
      EmitsThen(CheckGpu, v, MarkTracker);
      MarkTrackerEmits(v);
    }
  }

  lemma CheckConsentEmits(v: View)
    ensures Emits(CheckConsent, v)
         == if !v.consent then [Error(v.unit.id, ConsentRevoked)]
            else if v.gpuBusy then [Error(v.unit.id, GpuContention)]
            else [Status(PROCESSING)] + Answers(v)
  {
    if v.consent {
      EmitsThen(CheckConsent, v, CheckGpu);
      CheckGpuEmits(v);
    } else {
      EmitsThen(CheckConsent, v, Reject(ConsentRevoked));
      RejectEmits(v, ConsentRevoked);
    }
  }

  lemma ScriptAnswers(v: View)
    requires v.consent && !v.gpuBusy && (v.paused ==> v.unit.trigger.PauseTrigger?)
    ensures Script(v) == [Status(PROCESSING)] + Answers(v)
  {
  }

  // Left alone, the stages send what the method sends.
  lemma StagesFollowMethod(v: View)
    ensures Emits(CheckPaused, v) == Script(v)
  {
    if v.paused && !v.unit.trigger.PauseTrigger? {
      EmitsThen(CheckPaused, v, Reject(PausedByUser));
      RejectEmits(v, PausedByUser);
    } else {
      EmitsThen(CheckPaused, v, CheckConsent);
      CheckConsentEmits(v);
      if v.consent && !v.gpuBusy { ScriptAnswers(v); }
    }
  }

  /* The worker left alone. */

  // How many stages process still goes through, and the pause flag after them.
  function Steps(p: Stage, v: View): nat
    decreases StagesLeft(p)
  {
    if p == Idle then 0 else 1 + Steps(Next(p, v), NextView(p, v))
  }

  function PausedAfter(p: Stage, v: View): bool
    decreases StagesLeft(p)
  {
    if p == Idle then v.paused else PausedAfter(Next(p, v), NextView(p, v))
  }

  function Advances(n: nat, outcome: LlmOutcome): seq<Action> {
    if n == 0 then [] else [Advance(outcome)] + Advances(n - 1, outcome)
  }

  function Deliveries(n: nat): seq<Action> {
    if n == 0 then [] else [Deliver] + Deliveries(n - 1)
  }

  function Statuses(messages: seq<Message>): seq<string> {
    if messages == [] then []
    else (if messages[0].Status? then [messages[0].state] else []) + Statuses(messages[1..])
  }

  lemma {:induction false} StatusesConcat(a: seq<Message>, b: seq<Message>)
    ensures Statuses(a + b) == Statuses(a) + Statuses(b)
  {
    if a == [] {
      assert a + b == b;
    } else {
      assert (a + b)[1..] == a[1..] + b;
      StatusesConcat(a[1..], b);
    }
  }

  lemma OutputSent(s: State, output: seq<Message>)
    requires |output| <= 1
    ensures var t := if output == [] then s else Send(s, output[0]);
      t.link == s.link + output && t.said == s.said + Statuses(output)
  {
    if output != [] {
      assert output == [output[0]] && output[1..] == [] && Statuses([]) == [];
    } else {
      assert s.link + [] == s.link && s.said + [] == s.said;
    }
  }

  lemma ProcessSends(s: State, outcome: LlmOutcome)
    requires s.stage != Idle
    ensures Process(s, outcome).link == s.link + Output(s.stage, s.unit.id)
    ensures Process(s, outcome).said == s.said + Statuses(Output(s.stage, s.unit.id))
    ensures Process(s, outcome).status == s.status && Process(s, outcome).stage == Next(s.stage, ViewOf(s, outcome))
    ensures ViewOf(Process(s, outcome), outcome) == NextView(s.stage, ViewOf(s, outcome))
  {
    OutputSent(s, Output(s.stage, s.unit.id));
  }

  lemma EmitsUnfold(p: Stage, v: View, q: Stage, u: View)
    requires p != Idle && q == Next(p, v) && u == NextView(p, v)
    ensures Emits(p, v) == Output(p, v.unit.id) + Emits(q, u)
  {
  }

  lemma StepsUnfold(p: Stage, v: View, q: Stage, u: View)
    requires p != Idle && q == Next(p, v) && u == NextView(p, v)
    ensures Steps(p, v) == 1 + Steps(q, u)
  {
  }

  lemma StagesRunOut(p: Stage, v: View)
    requires p != Idle
    ensures StagesLeft(Next(p, v)) < StagesLeft(p)
  {
  }

  lemma PausedUnfold(p: Stage, v: View, q: Stage, u: View)
    requires p != Idle && q == Next(p, v) && u == NextView(p, v)
    ensures PausedAfter(p, v) == PausedAfter(q, u)
  {
  }

  lemma Chain(link: seq<Message>, said: seq<string>, output: seq<Message>, later: seq<Message>)
    ensures link + output + later == link + (output + later)
    ensures said + Statuses(output) + Statuses(later) == said + Statuses(output + later)
  {
    StatusesConcat(output, later);
  }

  // t is what s becomes when the stage p emits all there is to emit.
  ghost predicate Emitted(s: State, t: State, p: Stage, v: View) {
    && t.stage == Idle && t.link == s.link + Emits(p, v) && t.said == s.said + Statuses(Emits(p, v))
    && t.status == s.status && t.paused == PausedAfter(p, v)
  }

  lemma EmittedThrough(s: State, m: State, t: State, p: Stage, v: View, q: Stage, u: View)
    requires p != Idle && q == Next(p, v) && u == NextView(p, v) && Emitted(m, t, q, u) && m.status == s.status
    requires m.link == s.link + Output(p, v.unit.id) && m.said == s.said + Statuses(Output(p, v.unit.id))
    ensures Emitted(s, t, p, v)
  {
    EmitsUnfold(p, v, q, u);
    PausedUnfold(p, v, q, u);
    Chain(s.link, s.said, Output(p, v.unit.id), Emits(q, u));
  }

  lemma RunAdvances(s: State, n: nat, outcome: LlmOutcome)
    ensures Run(s, Advances(n + 1, outcome)) == Run(Process(s, outcome), Advances(n, outcome))
  {
    assert Advances(n + 1, outcome)[1..] == Advances(n, outcome);
  }

  lemma IdleEmits(s: State, outcome: LlmOutcome)
    requires s.stage == Idle
    ensures Steps(Idle, ViewOf(s, outcome)) == 0 && Run(s, Advances(0, outcome)) == s
    ensures Emitted(s, s, Idle, ViewOf(s, outcome))
  {
    assert s.link + [] == s.link && s.said + [] == s.said;
  }

  // The step system, left alone until the worker is idle, appends to the link what the
  // stages emit.
  lemma {:induction false} AdvancesEmit(s: State, p: Stage, v: View, outcome: LlmOutcome)
    requires s.stage == p && ViewOf(s, outcome) == v
    ensures Emitted(s, Run(s, Advances(Steps(p, v), outcome)), p, v)
    decreases StagesLeft(p)
  {
    if p == Idle {
      IdleEmits(s, outcome);
    } else {
      var m, q, u := Process(s, outcome), Next(p, v), NextView(p, v);
      ProcessSends(s, outcome);
      StepsUnfold(p, v, q, u);
      StagesRunOut(p, v);
      AdvancesEmit(m, q, u, outcome);
      RunAdvances(s, Steps(q, u), outcome);
      EmittedThrough(s, m, Run(s, Advances(Steps(p, v), outcome)), p, v, q, u);
    }
  }

  // So a worker that takes a unit and is left alone puts on the link exactly what the
  // method sends for it.
  lemma SoloRunSendsScript(s: State, outcome: LlmOutcome)
    requires s.stage == CheckPaused
    ensures var v := ViewOf(s, outcome);
      var t := Run(s, Advances(Steps(CheckPaused, v), outcome));
      t.stage == Idle && t.link == s.link + Script(v) && t.status == s.status
  {
    AdvancesEmit(s, CheckPaused, ViewOf(s, outcome), outcome);
    StagesFollowMethod(ViewOf(s, outcome));
  }

  lemma {:induction false} DeliveriesDrain(s: State)
    ensures Run(s, Deliveries(|s.link|)) == s.(link := [], status := Drained(s.status, s.link))
    decreases |s.link|
  {
    if s.link != [] {
      var n := |s.link|;
      assert Deliveries(n)[1..] == Deliveries(n - 1);
      DeliveriesDrain(Step(s, Deliver));
    }
  }

  // The worker advances until it is idle, then the link is drained.
  function LeftAlone(s: State, outcome: LlmOutcome): State {
    var t := Run(s, Advances(Steps(s.stage, ViewOf(s, outcome)), outcome));
    Run(t, Deliveries(|t.link|))
  }

  // The user pauses: the tray sets the flag and sends the status.
  function PauseByUser(s: State): State {
    Step(Step(s, SetPaused(true)), OtherStatus(PAUSED))
  }

  // Which stages let a pause stand that is set while process is in them.
  predicate KeepsPause(p: Stage, v: View) {
    match p
    case Idle => true
    case CheckPaused => !v.unit.trigger.PauseTrigger? || !v.consent || v.gpuBusy
    case CheckConsent => !v.consent || v.gpuBusy
    case CheckGpu => v.gpuBusy
    case Reject(_) => true
    case WritePause(pause) => pause
    case SayPause(pause) => pause
    case AnswerPause => true
    case ClearTracker(thenSay) => !thenSay
    case ClearMonitor(thenSay) => !thenSay
    case _ => false
  }

  // What the manager shows of a pause once these statuses have followed it.
  function ShownAfterPause(statuses: seq<string>): string {
    if statuses == [] then PAUSED else Last(statuses)
  }

  lemma ShownOne(a: Message, state: string)
    requires !a.Status?
    ensures Statuses([a]) == [] && Statuses([]) == []
    ensures Statuses([a, Status(state)]) == [state] && Statuses([Status(state)]) == [state]
    ensures Statuses([Status(state), a]) == [state]
  {
    assert [a][1..] == [] && [a, Status(state)][1..] == [Status(state)] && [Status(state)][1..] == [];
    assert [Status(state), a][1..] == [a];
  }

  lemma AnswersEndPause(v: View)
    requires v.paused
    ensures Statuses(Answers(v)) == [AVAILABLE]
  {
    var p := AfterWork(v.unit.trigger, v.outcome);
    ShownOne(Result(v.unit.id), AVAILABLE);
    if p.Fail? {
      ShownOne(Error(v.unit.id, p.error), AVAILABLE);
    }
  }

  lemma ProcessingEndsPause(v: View)
    requires v.paused
    ensures ShownAfterPause(Statuses([Status(PROCESSING)] + Answers(v))) == AVAILABLE
  {
    AnswersEndPause(v);
    StatusesConcat([Status(PROCESSING)], Answers(v));
  }

  lemma AnswerStages(p: Stage, v: View)
    requires v.paused && (p.Answer? || p.Fail?)
    ensures ShownAfterPause(Statuses(Emits(p, v))) == AVAILABLE
  {
    match p
    case Answer =>
      AnswerEmits(v);
      ShownOne(Result(v.unit.id), AVAILABLE);
    case Fail(error) =>
      FailEmits(v, error);
      ShownOne(Error(v.unit.id, error), AVAILABLE);
  }

  lemma ShownIf(emits: seq<Message>, say: bool)
    requires emits == if say then [Status(AVAILABLE)] else []
    ensures ShownAfterPause(Statuses(emits)) == if say then AVAILABLE else PAUSED
  {
    ShownOne(Result(""), AVAILABLE);
  }

  lemma CoolDownStage(v: View)
    ensures ShownAfterPause(Statuses(Emits(CoolDown, v))) == AVAILABLE
  {
    CoolDownEmits(v);
    ShownIf(Emits(CoolDown, v), true);
  }

  lemma ClearTrackerStage(v: View, thenSay: bool)
    ensures ShownAfterPause(Statuses(Emits(ClearTracker(thenSay), v))) == if thenSay then AVAILABLE else PAUSED
  {
    ClearTrackerEmits(v, thenSay);
    ShownIf(Emits(ClearTracker(thenSay), v), thenSay);
  }

  lemma ClearMonitorStage(v: View, thenSay: bool)
    ensures ShownAfterPause(Statuses(Emits(ClearMonitor(thenSay), v))) == if thenSay then AVAILABLE else PAUSED
  {
    ClearMonitorEmits(v, thenSay);
    ShownIf(Emits(ClearMonitor(thenSay), v), thenSay);
  }

  lemma SayAvailableStage(v: View)
    ensures ShownAfterPause(Statuses(Emits(SayAvailable, v))) == AVAILABLE
  {
    EmitsThen(SayAvailable, v, Idle);
    ShownIf(Emits(SayAvailable, v), true);
  }

  lemma ClearStages(p: Stage, v: View)
    requires v.paused && (p.CoolDown? || p.ClearTracker? || p.ClearMonitor? || p.SayAvailable?)
    ensures ShownAfterPause(Statuses(Emits(p, v))) == if KeepsPause(p, v) then PAUSED else AVAILABLE
  {
    match p
    case CoolDown => CoolDownStage(v);
    case ClearTracker(thenSay) => ClearTrackerStage(v, thenSay);
    case ClearMonitor(thenSay) => ClearMonitorStage(v, thenSay);
    case SayAvailable => SayAvailableStage(v);
  }

  lemma SayPauseStage(v: View, pause: bool)
    requires v.paused
    ensures ShownAfterPause(Statuses(Emits(SayPause(pause), v))) == if pause then PAUSED else AVAILABLE
  {
    SayPauseEmits(v, pause);
    ShownOne(Result(v.unit.id), StatusFor(pause));
  }

  lemma WritePauseStage(v: View, pause: bool)
    requires v.paused
    ensures ShownAfterPause(Statuses(Emits(WritePause(pause), v))) == if pause then PAUSED else AVAILABLE
  {
    WritePauseEmits(v, pause);
    ShownOne(Result(v.unit.id), StatusFor(pause));
  }

  lemma PauseStages(p: Stage, v: View)
    requires v.paused && (p.ReadPause? || p.WritePause? || p.SayPause? || p.AnswerPause?)
    ensures ShownAfterPause(Statuses(Emits(p, v))) == if KeepsPause(p, v) then PAUSED else AVAILABLE
  {
    match p
    case ReadPause =>
      ReadPauseEmits(v);
      ShownOne(Result(v.unit.id), AVAILABLE);
    case WritePause(pause) => WritePauseStage(v, pause);
    case SayPause(pause) => SayPauseStage(v, pause);
    case AnswerPause =>
      EmitsThen(AnswerPause, v, ClearTracker(false));
      ClearTrackerEmits(v, false);
      ShownOne(Result(v.unit.id), AVAILABLE);
  }

  lemma WorkStages(p: Stage, v: View)
    requires v.paused && (p.MarkTracker? || p.MarkMonitor? || p.SayProcessing? || p.Work?)
    ensures ShownAfterPause(Statuses(Emits(p, v))) == AVAILABLE
  {
    if p.Work? {
      WorkEmits(v);
      AnswersEndPause(v);
    } else {
      ProcessingEmits(p, v);
      ProcessingEndsPause(v);
    }
  }

  lemma SayProcessingEmits(v: View)
    ensures Emits(SayProcessing, v) == [Status(PROCESSING)] + Answers(v)
  {
    EmitsThen(SayProcessing, v, Work);
    WorkEmits(v);
  }

  lemma ProcessingEmits(p: Stage, v: View)
    requires p.MarkTracker? || p.MarkMonitor? || p.SayProcessing?
    ensures Emits(p, v) == [Status(PROCESSING)] + Answers(v)
  {
    if p.MarkTracker? {
      MarkTrackerEmits(v);
    } else {
      SayProcessingEmits(v);
      if p.MarkMonitor? {
        EmitsThen(MarkMonitor, v, SayProcessing);
        assert [] + Emits(SayProcessing, v) == Emits(SayProcessing, v);
      }
    }
  }

  lemma ShownOfRejection(v: View, error: Reason)
    ensures ShownAfterPause(Statuses([Error(v.unit.id, error)])) == PAUSED
  {
    ShownOne(Error(v.unit.id, error), AVAILABLE);
  }

  lemma CheckGpuShown(v: View)
    requires v.paused
    ensures ShownAfterPause(Statuses(Emits(CheckGpu, v))) == if v.gpuBusy then PAUSED else AVAILABLE
  {
    CheckGpuEmits(v);
    if v.gpuBusy {
      ShownOfRejection(v, GpuContention);
    } else {
      ProcessingEndsPause(v);
    }
  }

  lemma CheckConsentShown(v: View)
    requires v.paused
    ensures ShownAfterPause(Statuses(Emits(CheckConsent, v))) == if !v.consent || v.gpuBusy then PAUSED else AVAILABLE
  {
    if v.consent {
      EmitsThen(CheckConsent, v, CheckGpu);
      assert [] + Emits(CheckGpu, v) == Emits(CheckGpu, v);
      CheckGpuShown(v);
    } else {
      CheckConsentEmits(v);
      ShownOfRejection(v, ConsentRevoked);
    }
  }

  lemma PausedUnitShown(v: View)
    requires v.paused && !v.unit.trigger.PauseTrigger?
    ensures ShownAfterPause(Statuses(Emits(CheckPaused, v))) == PAUSED
  {
    EmitsThen(CheckPaused, v, Reject(PausedByUser));
    assert [] + Emits(Reject(PausedByUser), v) == Emits(Reject(PausedByUser), v);
    RejectEmits(v, PausedByUser);
    ShownOfRejection(v, PausedByUser);
  }

  lemma PausedToggleEmits(v: View)
    requires v.paused && v.unit.trigger.PauseTrigger?
    ensures Emits(CheckPaused, v) == Emits(CheckConsent, v)
  {
    EmitsThen(CheckPaused, v, CheckConsent);
    assert [] + Emits(CheckConsent, v) == Emits(CheckConsent, v);
  }

  lemma CheckPausedShown(v: View)
    requires v.paused
    ensures ShownAfterPause(Statuses(Emits(CheckPaused, v))) == if KeepsPause(CheckPaused, v) then PAUSED else AVAILABLE
  {
    if v.unit.trigger.PauseTrigger? {
      PausedToggleEmits(v);
      CheckConsentShown(v);
    } else {
      PausedUnitShown(v);
    }
  }

  lemma CheckStages(p: Stage, v: View)
    requires v.paused && (p.CheckPaused? || p.CheckConsent? || p.CheckGpu? || p.Reject?)
    ensures ShownAfterPause(Statuses(Emits(p, v))) == if KeepsPause(p, v) then PAUSED else AVAILABLE
  {
    match p
    case CheckPaused => CheckPausedShown(v);
    case CheckConsent => CheckConsentShown(v);
    case CheckGpu => CheckGpuShown(v);
    case Reject(error) =>
      RejectEmits(v, error);
      ShownOfRejection(v, error);
  }

  lemma ShownOfStage(p: Stage, v: View)
    requires v.paused
    ensures ShownAfterPause(Statuses(Emits(p, v))) == if KeepsPause(p, v) then PAUSED else AVAILABLE
  {
    if p.CheckPaused? || p.CheckConsent? || p.CheckGpu? || p.Reject? {
      CheckStages(p, v);
    } else if p.MarkTracker? || p.MarkMonitor? || p.SayProcessing? || p.Work? {
      WorkStages(p, v);
    } else if p.ReadPause? || p.WritePause? || p.SayPause? || p.AnswerPause? {
      PauseStages(p, v);
    } else if p.Answer? || p.Fail? {
      AnswerStages(p, v);
    } else if p != Idle {
      ClearStages(p, v);
    }
  }

  // A pause that the user sets in any state of any run, the worker then being left
  // alone: the manager ends up showing it exactly if the stage keeps it, and
  // "available" otherwise.
  lemma PauseSurvivesIff(s: State, actions: seq<Action>, outcome: LlmOutcome)
    requires Initial(s)
    ensures var p := PauseByUser(Run(s, actions));
      var t := LeftAlone(p, outcome);
      && t.stage == Idle && t.link == []
      && t.status == if KeepsPause(p.stage, ViewOf(p, outcome)) then PAUSED else AVAILABLE
  {
    RunKeepsInv(s, actions);
    var r := Run(s, actions);
    var p := PauseByUser(r);
    StepKeepsInv(r, SetPaused(true));
    StepKeepsInv(Step(r, SetPaused(true)), OtherStatus(PAUSED));
    PauseShown(p, outcome);
  }

  lemma PauseShown(p: State, outcome: LlmOutcome)
    requires Inv(p) && p.paused && Last(p.said) == PAUSED
    ensures var t := LeftAlone(p, outcome);
      && t.stage == Idle && t.link == [] && t.paused == PausedAfter(p.stage, ViewOf(p, outcome))
      && t.status == if KeepsPause(p.stage, ViewOf(p, outcome)) then PAUSED else AVAILABLE
  {
    var v := ViewOf(p, outcome);
    var advances := Advances(Steps(p.stage, v), outcome);
    var t := Run(p, advances);
    AdvancesEmit(p, p.stage, v, outcome);
    RunKeepsInv(p, advances);
    DeliveriesDrain(t);
    ShownOfStage(p.stage, v);
    LastConcat(p.said, Statuses(Emits(p.stage, v)));
  }

  lemma LastConcat(a: seq<string>, b: seq<string>)
    ensures Last(a + b) == if b == [] then Last(a) else Last(b)
  {
    if b == [] { assert a + b == a; }
  }

  /* The input of an overwritten pause. */

  lemma {:induction false} NoToggleKeepsFlag(p: Stage, v: View)
    requires !v.unit.trigger.PauseTrigger? && !p.ReadPause? && !p.WritePause?
    ensures PausedAfter(p, v) == v.paused
    decreases StagesLeft(p)
  {
    if p != Idle { NoToggleKeepsFlag(Next(p, v), v); }
  }

  // Arrival and seven stages: the unit is being worked on.
  function ToWork(s: State, unit: WorkUnit): State {
    Run(s, [Arrive(unit)] + Advances(7, Completed))
  }

  predicate Idling(s: State, unit: WorkUnit) {
    s.stage == Idle && s.queue == [unit] && s.consent && !s.gpuBusy && !s.paused
  }

  lemma ChecksPass(s: State, unit: WorkUnit)
    requires Idling(s, unit)
    ensures var t := Process(Process(Process(Process(s, Completed), Completed), Completed), Completed);
      t.stage == MarkTracker && t.unit == unit
  {
  }

  lemma FourAdvances(s: State, n: nat)
    ensures Run(s, Advances(n + 4, Completed))
         == Run(Process(Process(Process(Process(s, Completed), Completed), Completed), Completed), Advances(n, Completed))
  {
    var s1 := Process(s, Completed);
    var s2 := Process(s1, Completed);
    var s3 := Process(s2, Completed);
    RunAdvances(s, n + 3, Completed);
    RunAdvances(s1, n + 2, Completed);
    RunAdvances(s2, n + 1, Completed);
    RunAdvances(s3, n, Completed);
  }

  lemma WorkIsReached(s: State, unit: WorkUnit)
    requires Initial(s) && s.consent && !s.gpuBusy && !s.paused
    ensures ToWork(s, unit).stage == Work && ToWork(s, unit).unit == unit
  {
    var t := Step(s, Arrive(unit));
    assert ([Arrive(unit)] + Advances(7, Completed))[1..] == Advances(7, Completed);
    assert Idling(t, unit);
    FourAdvances(t, 3);
    ChecksPass(t, unit);
    LastThree(Process(Process(Process(Process(t, Completed), Completed), Completed), Completed));
  }

  lemma LastThree(s: State)
    requires s.stage == MarkTracker
    ensures Run(s, Advances(3, Completed)).stage == Work && Run(s, Advances(3, Completed)).unit == s.unit
  {
    var s1 := Process(s, Completed);
    var s2 := Process(s1, Completed);
    RunAdvances(s, 2, Completed);
    RunAdvances(s1, 1, Completed);
    RunAdvances(s2, 0, Completed);
  }

  // A pause set during the inference: the flag stays up, the manager shows the worker
  // as available.
  lemma PauseDuringUnitIsOverwritten(s: State, unit: WorkUnit)
    requires Initial(s) && s.consent && !s.gpuBusy && !s.paused && unit.trigger.NoTrigger?
    ensures var t := LeftAlone(PauseByUser(ToWork(s, unit)), Completed);
      t.stage == Idle && t.link == [] && t.paused && t.status == AVAILABLE
  {
    WorkIsReached(s, unit);
    RunKeepsInv(s, [Arrive(unit)] + Advances(7, Completed));
    var r := ToWork(s, unit);
    var p := PauseByUser(r);
    StepKeepsInv(r, SetPaused(true));
    StepKeepsInv(Step(r, SetPaused(true)), OtherStatus(PAUSED));
    PauseShown(p, Completed);
    NoToggleKeepsFlag(p.stage, ViewOf(p, Completed));
  }
}
