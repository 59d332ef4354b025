// The GPU monitor's event channel and the only goroutine that drains it
// (internal/client/gpu/monitor.go:85-98, 200-303, internal/client/worker/worker.go:202-226,
// 274, 385-401).
//
// A check that changes the state sends an event while it holds the monitor's lock. The
// channel holds 5; the sixth send waits, and keeps the lock. The worker's main loop
// receives events only between two things it does, and two of these things need the
// lock: reading the state before a unit, and waiting for the baseline after one.
module EventChannel {
  const CAPACITY: nat := 5

  // Where the main loop is: at its select, in an update, or in process - about to read
  // the state, past that, in the inference, waiting for the baseline.
  datatype Loop = Selecting | Updating | AtState | Accepted | Working | Cooling

  datatype State = State(
    loop: Loop,
    processing: bool,   // checks change nothing then
    undrained: nat,
    blocked: bool)      // a check holds the lock and waits for room

  datatype Action =
    | Check(change: bool)
    | Receive
    | BeginUpdate
    | EndUpdate
    | TakeUnit
    | ReadState(busy: bool)
    | Mark
    | Finish(ok: bool)
    | Cool

  function CheckStep(s: State, change: bool): State {
    if s.blocked || s.processing || !change then s
    else if s.undrained < CAPACITY then s.(undrained := s.undrained + 1)
    else s.(blocked := true)
  }

  // The waiting event takes the place of the received one.
  function ReceiveStep(s: State): State {
    if s.loop != Selecting || s.undrained == 0 then s
    else if s.blocked then s.(blocked := false)
    else s.(undrained := s.undrained - 1)
  }

  function LoopStep(s: State, a: Action): State {
    match (a, s.loop)
    case (BeginUpdate, Selecting) => s.(loop := Updating)
    case (EndUpdate, Updating) => s.(loop := Selecting)
    case (TakeUnit, Selecting) => s.(loop := AtState)
    case (ReadState(busy), AtState) => if s.blocked then s else s.(loop := if busy then Selecting else Accepted)
    case (Mark, Accepted) => s.(loop := Working, processing := true)
    case (Finish(ok), Working) =>
      if ok then s.(loop := Cooling) else s.(loop := Selecting, processing := false)
    case (Cool, Cooling) => if s.blocked then s else s.(loop := Selecting, processing := false)
    case _ => s
  }

  function Step(s: State, a: Action): State {
    match a
    case Check(change) => CheckStep(s, change)
    case Receive => ReceiveStep(s)
    case _ => LoopStep(s, a)
  }

  function Run(s: State, actions: seq<Action>): State
    decreases |actions|
  {
    if actions == [] then s else Run(Step(s, actions[0]), actions[1..])
  }

  const INIT := State(Selecting, false, 0, false)

  ghost predicate Inv(s: State) {
    && s.processing == (s.loop.Working? || s.loop.Cooling?)
    && s.undrained <= CAPACITY && (s.blocked ==> s.undrained == CAPACITY)
  }

  lemma {:induction false} RunKeepsInv(s: State, actions: seq<Action>)
    requires Inv(s)
    ensures Inv(Run(s, actions))
    decreases |actions|
  {
    if actions != [] { RunKeepsInv(Step(s, actions[0]), actions[1..]); }
  }

  // The check waits for the loop, and the loop for the lock that the check holds.
  predicate Deadlock(s: State) {
    s.blocked && (s.loop == AtState || s.loop == Cooling)
  }

  lemma {:induction false} RunThen(s: State, first: seq<Action>, rest: seq<Action>)
    ensures Run(s, first + rest) == Run(Run(s, first), rest)
    decreases |first|
  {
    if first == [] {
      assert first + rest == rest;
    } else {
      assert (first + rest)[1..] == first[1..] + rest;
      RunThen(Step(s, first[0]), first[1..], rest);
    }
  }

  lemma RunOne(s: State, a: Action)
    ensures Run(s, [a]) == Step(s, a)
  {
    assert [a][1..] == [];
  }

  lemma RunThree(s: State, a: Action, b: Action, c: Action)
    ensures Run(s, [a, b]) == Step(Step(s, a), b)
    ensures Run(s, [a, b, c]) == Step(Step(Step(s, a), b), c)
  {
    RunOne(s, a);
    RunOne(Step(s, a), b);
    RunOne(Step(Step(s, a), b), c);
    assert [a] + [b] == [a, b] && [a, b] + [c] == [a, b, c];
    RunThen(s, [a], [b]);
    RunThen(s, [a, b], [c]);
  }

  /* Main results. */

  // A deadlock is for good: nothing that any goroutine does changes anything.
  lemma {:induction false} DeadlockIsForever(s: State, actions: seq<Action>)
    requires Deadlock(s)
    ensures Run(s, actions) == s
    decreases |actions|
  {
    if actions != [] {
      assert Step(s, actions[0]) == s;
      DeadlockIsForever(s, actions[1..]);
    }
  }

  // How a blocked check gets through when there is no deadlock.
  function Release(loop: Loop): seq<Action> {
    match loop
    case Selecting => [Receive]
    case Updating => [EndUpdate, Receive]
    case Accepted => [Mark, Finish(false), Receive]
    case _ => [Finish(false), Receive]
  }

  // A blocked check never gets through if and only if the loop waits for its lock.
  lemma DeadlockIff(s: State)
    requires Inv(s) && s.blocked
    ensures Deadlock(s) <==> forall actions :: Run(s, actions).blocked
  {
    if Deadlock(s) {
      forall actions ensures Run(s, actions).blocked { DeadlockIsForever(s, actions); }
    } else {
      var release := Release(s.loop);
      RunOne(s, Receive);
      RunThree(s, EndUpdate, Receive, Receive);
      RunThree(s, Mark, Finish(false), Receive);
      RunThree(s, Finish(false), Receive, Receive);
      assert !Run(s, release).blocked;
    }
  }

  predicate NoChecks(actions: seq<Action>) {
    forall a :: a in actions ==> !a.Check?
  }

  lemma {:induction false} OnlyChecksBlock(s: State, actions: seq<Action>)
    requires !s.blocked && NoChecks(actions)
    ensures !Run(s, actions).blocked
    decreases |actions|
  {
    if actions != [] {
      assert actions[0] in actions;
      OnlyChecksBlock(Step(s, actions[0]), actions[1..]);
    }
  }

  // How the loop runs into the lock of a blocked check.
  function RunInto(loop: Loop): seq<Action> {
    match loop
    case Selecting => [TakeUnit]
    case Updating => [EndUpdate, TakeUnit]
    case Accepted => [Mark, Finish(true)]
    case _ => []
  }

  lemma RunsInto(s: State)
    requires Inv(s) && s.blocked && !s.processing
    ensures Deadlock(Run(s, RunInto(s.loop))) && NoChecks(RunInto(s.loop))
  {
    RunOne(s, TakeUnit);
    RunThree(s, EndUpdate, TakeUnit, TakeUnit);
    RunThree(s, Mark, Finish(true), TakeUnit);
  }

  // Outside processing, one more state change can lead to a deadlock if and only if
  // five events are undrained.
  lemma ChangeCanDeadlockIff(s: State)
    requires Inv(s) && !s.blocked && !s.processing
    ensures (exists rest :: NoChecks(rest) && Deadlock(Run(Step(s, Check(true)), rest)))
       <==> s.undrained == CAPACITY
  {
    var t := Step(s, Check(true));
    if s.undrained == CAPACITY {
      RunsInto(t);
    } else {
      forall rest | NoChecks(rest) ensures !Deadlock(Run(t, rest)) { OnlyChecksBlock(t, rest); }
    }
  }

  // The input: six state changes during one update, and then a work unit.
  lemma DeadlockIsReached()
    ensures Deadlock(Run(INIT, [BeginUpdate] + Changes(6) + [EndUpdate, TakeUnit]))
  {
    var t := Step(INIT, BeginUpdate);
    var u := t.(undrained := CAPACITY, blocked := true);
    RunOne(INIT, BeginUpdate);
    RunThen(INIT, [BeginUpdate], Changes(6));
    ChangesFill(t, 6);
    RunThen(INIT, [BeginUpdate] + Changes(6), [EndUpdate, TakeUnit]);
    RunThree(u, EndUpdate, TakeUnit, TakeUnit);
  }

  function Changes(n: nat): seq<Action> {
    if n == 0 then [] else [Check(true)] + Changes(n - 1)
  }

  lemma {:induction false} ChangesFill(s: State, n: nat)
    requires !s.processing && !s.blocked && s.undrained + n == CAPACITY + 1 && n > 0
    ensures Run(s, Changes(n)) == s.(undrained := CAPACITY, blocked := true)
    decreases n
  {
    assert Changes(n)[1..] == Changes(n - 1);
    if n == 1 {
      assert Changes(0) == [];
    } else {
      ChangesFill(Step(s, Check(true)), n - 1);
    }
  }
}
