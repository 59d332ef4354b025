// The life of a batch request: the polling loop that claims, dispatches and
// finishes rows, and the handlers that cancel them
// (internal/manager/api/batch.go:195-214, 278-398,
// internal/manager/store/store.go:639-695).
module Batch {
  datatype Status = Pending | Processing | Completed | Failed

  // The moves a reader of the rows may rely on.
  predicate Legal(from: Status, to: Status) {
    || from == to
    || (from == Pending && (to == Processing || to == Failed))
    || (from == Processing && (to == Completed || to == Failed))
  }

  // Rows in the order of their creation; a row's position is its identity.
  type Rows = seq<Status>

  function FirstPending(rows: Rows, from: nat := 0): (r: nat)
    requires from <= |rows|
    ensures from <= r <= |rows| && (r < |rows| ==> rows[r] == Pending)
    ensures forall i :: from <= i < r ==> rows[i] != Pending
    decreases |rows| - from
  {
    if from < |rows| && rows[from] != Pending then FirstPending(rows, from + 1) else from
  }

  // Among equals, older rows are only passed over once they are no longer pending.
  ghost predicate Grows(before: Rows, after: Rows) {
    |before| <= |after| && forall i :: 0 <= i < |before| ==> Legal(before[i], after[i])
  }

  /* The loop and the handlers as single statements. */

  datatype Loop = Idle | Found(row: nat) | Running(row: nat) | Stopped(row: nat)

  datatype Outcome = Answer | Failure | Stop

  datatype State = State(rows: Rows, loop: Loop, cancels: map<nat, nat>)   // rows to cancel, by handler

  datatype Action =
    | Create
    | Find
    | Claim
    | Finish(outcome: Outcome)
    | CancelRead(handler: nat, row: nat)
    | CancelWrite(handler: nat)

  function Set(rows: Rows, row: nat, status: Status): Rows {
    if row < |rows| then rows[row := status] else rows
  }

  // A claim of a row that is no longer pending changes no row and is no error.
  function ClaimRow(s: State): State {
    if !s.loop.Found? then s
    else
      var pending := s.loop.row < |s.rows| && s.rows[s.loop.row] == Pending;
      s.(rows := if pending then s.rows[s.loop.row := Processing] else s.rows, loop := Running(s.loop.row))
  }

  function FinishRow(s: State, outcome: Outcome): State {
    if !s.loop.Running? then s
    else
      match outcome
      case Answer => s.(rows := Set(s.rows, s.loop.row, Completed), loop := Idle)
      case Failure => s.(rows := Set(s.rows, s.loop.row, Failed), loop := Idle)
      case Stop => s.(loop := Stopped(s.loop.row))
  }

  function Step(s: State, a: Action): State {
    match a
    case Create => s.(rows := s.rows + [Pending])
    case Find =>
      if s.loop == Idle && FirstPending(s.rows) < |s.rows| then s.(loop := Found(FirstPending(s.rows))) else s
    case Claim => ClaimRow(s)
    case Finish(outcome) => FinishRow(s, outcome)
    case CancelRead(handler, row) =>
      if handler !in s.cancels && row < |s.rows| && s.rows[row] == Pending
      then s.(cancels := s.cancels[handler := row]) else s
    case CancelWrite(handler) =>
      if handler !in s.cancels then s
      else s.(rows := Set(s.rows, s.cancels[handler], Failed), cancels := s.cancels - {handler})
  }

  function Run(s: State, actions: seq<Action>): State
    decreases |actions|
  {
    if actions == [] then s else Run(Step(s, actions[0]), actions[1..])
  }

  ghost predicate Initial(s: State) {
    s.loop == Idle && s.cancels == map[] && forall i :: 0 <= i < |s.rows| ==> s.rows[i] != Processing
  }

  // Every step of a run moves rows only as allowed.
  ghost predicate LegalRun(s: State, actions: seq<Action>)
    decreases |actions|
  {
    actions != [] ==> Grows(s.rows, Step(s, actions[0]).rows) && LegalRun(Step(s, actions[0]), actions[1..])
  }

  // The row is still pending and no handler is about to cancel it.
  ghost predicate SafeToClaim(s: State) {
    s.loop.Found? ==>
      && s.loop.row < |s.rows| && s.rows[s.loop.row] == Pending
      && forall h :: h in s.cancels ==> s.cancels[h] != s.loop.row
  }

  ghost predicate SafeClaims(s: State, actions: seq<Action>)
    decreases |actions|
  {
    actions != [] ==>
      && (actions[0] == Claim ==> SafeToClaim(s))
      && SafeClaims(Step(s, actions[0]), actions[1..])
  }

  // What safe claims keep: only the loop's own row is being processed, and handlers
  // are about to cancel only rows that are pending or already cancelled.
  ghost predicate Inv(s: State) {
    && (forall i :: 0 <= i < |s.rows| && s.rows[i] == Processing ==>
          (s.loop.Running? || s.loop.Stopped?) && s.loop.row == i)
    && (s.loop.Running? ==> s.loop.row < |s.rows| && s.rows[s.loop.row] == Processing)
    && (s.loop.Found? ==>
          s.loop.row < |s.rows| && (s.rows[s.loop.row] == Pending || s.rows[s.loop.row] == Failed))
    && (forall h :: h in s.cancels ==>
          s.cancels[h] < |s.rows| && (s.rows[s.cancels[h]] == Pending || s.rows[s.cancels[h]] == Failed))
  }

  lemma CreateKeepsInv(s: State)
    requires Inv(s)
    ensures Inv(Step(s, Create)) && Grows(s.rows, Step(s, Create).rows)
  {
    var t := Step(s, Create);
    assert forall i :: 0 <= i < |s.rows| ==> t.rows[i] == s.rows[i];
  }

  lemma FindKeepsInv(s: State)
    requires Inv(s)
    ensures Inv(Step(s, Find)) && Grows(s.rows, Step(s, Find).rows)
  {
  }

  lemma ClaimKeepsInv(s: State)
    requires Inv(s) && SafeToClaim(s)
    ensures Inv(Step(s, Claim)) && Grows(s.rows, Step(s, Claim).rows)
  {
  }

  lemma FinishKeepsInv(s: State, outcome: Outcome)
    requires Inv(s)
    ensures Inv(Step(s, Finish(outcome))) && Grows(s.rows, Step(s, Finish(outcome)).rows)
  {
  }

  lemma CancelKeepsInv(s: State, a: Action)
    requires Inv(s) && (a.CancelRead? || a.CancelWrite?)
    ensures Inv(Step(s, a)) && Grows(s.rows, Step(s, a).rows)
  {
  }

  lemma StepKeepsInv(s: State, a: Action)
    requires Inv(s) && (a == Claim ==> SafeToClaim(s))
    ensures Inv(Step(s, a)) && Grows(s.rows, Step(s, a).rows)
  {
    match a
    case Create => CreateKeepsInv(s);
    case CancelRead(_, _) => CancelKeepsInv(s, a);
    case CancelWrite(_) => CancelKeepsInv(s, a);
    case Find => FindKeepsInv(s);
    case Claim => ClaimKeepsInv(s);
    case Finish(outcome) => FinishKeepsInv(s, outcome);
  }

  lemma {:induction false} RunKeepsInv(s: State, actions: seq<Action>)
    requires Inv(s) && SafeClaims(s, actions)
    ensures Inv(Run(s, actions)) && LegalRun(s, actions)
    decreases |actions|
  {
    if actions != [] {
      StepKeepsInv(s, actions[0]);
      RunKeepsInv(Step(s, actions[0]), actions[1..]);
    }
  }

  /* Main results. */

  // With safe claims, in every state of every run: each step moves rows only as
  // allowed, and the loop never has two of its rows processing.
  lemma SafeClaimsAreLegal(s: State, actions: seq<Action>)
    requires Initial(s) && SafeClaims(s, actions)
    ensures LegalRun(s, actions)
    ensures var t := Run(s, actions);
      forall i, j :: 0 <= i < |t.rows| && 0 <= j < |t.rows| && t.rows[i] == t.rows[j] == Processing ==> i == j
  {
    RunKeepsInv(s, actions);
  }

  /* Claims and cancellations as single steps. */

  datatype Block = Submit | ClaimOldest | End(outcome: Outcome) | Cancel(handler: nat, row: nat)

  function Actions(b: Block): seq<Action> {
    match b
    case Submit => [Create]
    case ClaimOldest => [Find, Claim]
    case End(outcome) => [Finish(outcome)]
    case Cancel(handler, row) => [CancelRead(handler, row), CancelWrite(handler)]
  }

  function Flatten(blocks: seq<Block>): seq<Action> {
    if blocks == [] then [] else Actions(blocks[0]) + Flatten(blocks[1..])
  }

  ghost predicate BetweenBlocks(s: State) {
    Inv(s) && s.cancels == map[] && !s.loop.Found?
  }

  lemma RunPair(s: State, a: Action, b: Action)
    ensures Run(s, [a, b]) == Step(Step(s, a), b)
    ensures SafeClaims(s, [a, b]) <==> (a == Claim ==> SafeToClaim(s)) && (b == Claim ==> SafeToClaim(Step(s, a)))
  {
    assert [a, b][1..] == [b] && [b][1..] == [];
    assert Run(Step(s, a), [b]) == Run(Step(Step(s, a), b), []);
    assert SafeClaims(Step(Step(s, a), b), []);
    assert SafeClaims(Step(s, a), [b]) == (b == Claim ==> SafeToClaim(Step(s, a)));
  }

  lemma BlockIsSafe(s: State, b: Block)
    requires BetweenBlocks(s)
    ensures SafeClaims(s, Actions(b)) && BetweenBlocks(Run(s, Actions(b)))
  {
    match b
    case Submit =>
      assert [Create][1..] == [] && Run(s, [Create]) == Step(s, Create);
      RunKeepsInv(s, [Create]);
    case ClaimOldest =>
      RunPair(s, Find, Claim);
      RunKeepsInv(s, [Find, Claim]);
    case End(outcome) =>
      assert [Finish(outcome)][1..] == [] && Run(s, [Finish(outcome)]) == Step(s, Finish(outcome));
      RunKeepsInv(s, [Finish(outcome)]);
    case Cancel(handler, row) =>
      RunPair(s, CancelRead(handler, row), CancelWrite(handler));
      RunKeepsInv(s, [CancelRead(handler, row), CancelWrite(handler)]);
  }

  lemma {:induction false} SafeThrough(s: State, first: seq<Action>, rest: seq<Action>)
    requires SafeClaims(s, first) && SafeClaims(Run(s, first), rest)
    ensures SafeClaims(s, first + rest)
    decreases |first|
  {
    if first == [] {
      assert first + rest == rest;
    } else {
      assert (first + rest)[1..] == first[1..] + rest;
      SafeThrough(Step(s, first[0]), first[1..], rest);
    }
  }

  lemma {:induction false} BlocksAreSafe(s: State, blocks: seq<Block>)
    requires BetweenBlocks(s)
    ensures SafeClaims(s, Flatten(blocks))
    decreases |blocks|
  {
    if blocks != [] {
      BlockIsSafe(s, blocks[0]);
      BlocksAreSafe(Run(s, Actions(blocks[0])), blocks[1..]);
      SafeThrough(s, Actions(blocks[0]), Flatten(blocks[1..]));
    }
  }

  // If claiming the oldest row and cancelling a row were single steps, rows would
  // move only as allowed in every run.
  lemma AtomicRunsAreLegal(s: State, blocks: seq<Block>)
    requires Initial(s)
    ensures LegalRun(s, Flatten(blocks))
  {
    BlocksAreSafe(s, blocks);
    RunKeepsInv(s, Flatten(blocks));
  }

  // A row that is done stays as it is, whatever happens later.
  lemma {:induction false} DoneIsFinal(s: State, actions: seq<Action>, i: nat)
    requires LegalRun(s, actions) && i < |s.rows| && (s.rows[i] == Completed || s.rows[i] == Failed)
    ensures i < |Run(s, actions).rows| && Run(s, actions).rows[i] == s.rows[i]
    decreases |actions|
  {
    if actions != [] {
      assert Legal(s.rows[i], Step(s, actions[0]).rows[i]);
      DoneIsFinal(Step(s, actions[0]), actions[1..], i);
    }
  }

  ghost predicate NonePendingBefore(rows: Rows, n: nat) {
    n <= |rows| && forall i :: 0 <= i < n ==> rows[i] != Pending
  }

  // The loop finds the oldest pending row,
  lemma FoundIsOldest(s: State)
    requires s.loop == Idle && Step(s, Find).loop.Found?
    ensures var row := Step(s, Find).loop.row;
      row < |s.rows| && s.rows[row] == Pending && NonePendingBefore(s.rows, row)
  {
  }

  lemma NothingBecomesPending(s: State, a: Action, n: nat)
    requires NonePendingBefore(s.rows, n)
    ensures NonePendingBefore(Step(s, a).rows, n)
  {
  }

  // and until the claim, however late that is, no older row becomes pending.
  lemma {:induction false} ClaimedIsOldest(s: State, actions: seq<Action>)
    requires s.loop.Found? && Claim !in actions && NonePendingBefore(s.rows, s.loop.row)
    ensures Run(s, actions).loop == s.loop && NonePendingBefore(Run(s, actions).rows, s.loop.row)
    decreases |actions|
  {
    if actions != [] {
      assert actions[0] != Claim;
      NothingBecomesPending(s, actions[0], s.loop.row);
      ClaimedIsOldest(Step(s, actions[0]), actions[1..]);
    }
  }

  lemma {:induction false} LegalSuffix(s: State, first: seq<Action>, rest: seq<Action>)
    requires LegalRun(s, first + rest)
    ensures LegalRun(Run(s, first), rest)
    decreases |first|
  {
    if first == [] {
      assert first + rest == rest;
    } else {
      assert (first + rest)[0] == first[0] && (first + rest)[1..] == first[1..] + rest;
      LegalSuffix(Step(s, first[0]), first[1..], rest);
    }
  }

  lemma {:induction false} RunConcat(s: State, first: seq<Action>, rest: seq<Action>)
    ensures Run(s, first + rest) == Run(Run(s, first), rest)
    decreases |first|
  {
    if first == [] {
      assert first + rest == rest;
    } else {
      assert (first + rest)[0] == first[0] && (first + rest)[1..] == first[1..] + rest;
      RunConcat(Step(s, first[0]), first[1..], rest);
    }
  }

  // A request whose cancellation is accepted while the loop is about to claim it.
  function CancelledAtClaim(row: nat): seq<Action> {
    [Create, Find] + [CancelRead(0, row), CancelWrite(0)] + [Claim]
  }

  lemma CancelledIsClaimed(s: State)
    requires Initial(s) && Pending !in s.rows
    ensures Run(s, CancelledAtClaim(|s.rows|)) == State(s.rows + [Failed], Running(|s.rows|), map[])
  {
    var row := |s.rows|;
    var first, second := [Create, Find], [CancelRead(0, row), CancelWrite(0)];
    var t, u := Run(s, first), Run(Run(s, first), second);
    RunPair(s, Create, Find);
    assert t == State(s.rows + [Pending], Found(row), map[]);
    RunPair(t, CancelRead(0, row), CancelWrite(0));
    assert Step(t, CancelRead(0, row)).cancels == map[0 := row];
    assert u == State(s.rows + [Failed], Found(row), map[]);
    RunConcat(s, first, second);
    RunConcat(s, first + second, [Claim]);
    assert [Claim][1..] == [] && Run(u, [Claim]) == Run(Step(u, Claim), []);
  }

  // The cancelled request ends as completed.
  lemma CancelledIsCompleted(s: State)
    requires Initial(s) && Pending !in s.rows
    ensures Run(s, CancelledAtClaim(|s.rows|)).rows == s.rows + [Failed]
    ensures Run(s, CancelledAtClaim(|s.rows|) + [Finish(Answer)]).rows == s.rows + [Completed]
    ensures !LegalRun(s, CancelledAtClaim(|s.rows|) + [Finish(Answer)])
  {
    var actions, row := CancelledAtClaim(|s.rows|), |s.rows|;
    var t := Run(s, actions);
    CancelledIsClaimed(s);
    RunConcat(s, actions, [Finish(Answer)]);
    assert [Finish(Answer)][1..] == [] && Run(t, [Finish(Answer)]) == Run(Step(t, Finish(Answer)), []);
    assert Step(t, Finish(Answer)).rows == s.rows + [Completed];
    assert t.rows[row] == Failed && Step(t, Finish(Answer)).rows[row] == Completed;
    assert !LegalRun(t, [Finish(Answer)]);
    if LegalRun(s, actions + [Finish(Answer)]) { LegalSuffix(s, actions, [Finish(Answer)]); }
  }

  // An unsafe claim can end in an illegal move: the cancelled row is completed.
  lemma UnsafeClaimBreaks(s: State) returns (actions: seq<Action>)
    requires Inv(s) && s.loop.Found? && !SafeToClaim(s)
    ensures SafeClaims(Step(s, Claim), actions) && !LegalRun(s, [Claim] + actions)
  {
    var row := s.loop.row;
    var t := Step(s, Claim);
    assert ([Claim] + [Finish(Answer)])[1..] == [Finish(Answer)];
    if s.rows[row] == Failed {
      actions := [Finish(Answer)];
      assert t.rows[row] == Failed && Step(t, Finish(Answer)).rows[row] == Completed;
      assert !Grows(t.rows, Step(t, Finish(Answer)).rows);
      assert actions[1..] == [] && SafeClaims(Step(t, Finish(Answer)), []);
    } else {
      var h :| h in s.cancels && s.cancels[h] == row;
      actions := [CancelWrite(h), Finish(Answer)];
      var u := Step(t, CancelWrite(h));
      assert u.rows[row] == Failed && Step(u, Finish(Answer)).rows[row] == Completed;
      assert !Grows(u.rows, Step(u, Finish(Answer)).rows);
      assert actions[1..] == [Finish(Answer)] && actions[1..][1..] == [];
      assert !LegalRun(u, [Finish(Answer)]);
      assert SafeClaims(u, [Finish(Answer)]) && SafeClaims(t, actions);
      assert ([Claim] + actions)[1..] == actions;
      assert !LegalRun(t, actions);
    }
  }

  // Exactly the safe claims keep every later move legal.
  lemma LegalIffSafe(s: State)
    requires Inv(s) && s.loop.Found?
    ensures SafeToClaim(s)
       <==> forall actions :: SafeClaims(Step(s, Claim), actions) ==> LegalRun(s, [Claim] + actions)
  {
    if SafeToClaim(s) {
      forall actions | SafeClaims(Step(s, Claim), actions) ensures LegalRun(s, [Claim] + actions) {
        assert ([Claim] + actions)[1..] == actions;
        RunKeepsInv(s, [Claim] + actions);
      }
    } else {
      var actions := UnsafeClaimBreaks(s);
    }
  }

  /* Which step changes a row. */

  // For every step in every state: a row becomes processing by a claim, completed by an
  // answer, and failed by a failure or a cancellation, and by nothing else.
  lemma RowChangesOnlyThere(s: State, a: Action, i: nat)
    requires i < |s.rows|
    ensures i < |Step(s, a).rows|
    ensures Step(s, a).rows[i] == Processing <==>
      (s.rows[i] == Processing && !Ends(s, a, i)) || (s.rows[i] == Pending && a == Claim && s.loop == Found(i))
    ensures Step(s, a).rows[i] == Completed <==>
      (a == Finish(Answer) && s.loop == Running(i)) || (s.rows[i] == Completed && !Ends(s, a, i))
    ensures Step(s, a).rows[i] == Failed <==>
      || (a == Finish(Failure) && s.loop == Running(i))
      || (a.CancelWrite? && a.handler in s.cancels && s.cancels[a.handler] == i)
      || (s.rows[i] == Failed && !Ends(s, a, i))
    ensures Step(s, a).rows[i] == Pending <==>
      s.rows[i] == Pending && !Ends(s, a, i) && !(a == Claim && s.loop == Found(i))
  {
  }

  // The loop finishes the row, or a handler cancels it.
  predicate Ends(s: State, a: Action, i: nat) {
    || ((a == Finish(Answer) || a == Finish(Failure)) && s.loop == Running(i))
    || (a.CancelWrite? && a.handler in s.cancels && s.cancels[a.handler] == i)
  }

  /* The loop and the handlers in the form of the source, without interference. */

  // How the attempt to process a claimed row ends.
  datatype Attempt = InvalidPayload | DispatchFailed | Answered | Erred | TimedOut | LoopStopped

  function OutcomeOf(attempt: Attempt): Outcome {
    match attempt
    case Answered => Answer
    case LoopStopped => Stop
    case _ => Failure
  }

  // One turn of the loop as three steps.
  lemma {:induction false} TurnSteps(rows: Rows, attempt: Attempt)
    requires FirstPending(rows) < |rows|
    ensures Run(State(rows, Idle, map[]), [Find, Claim, Finish(OutcomeOf(attempt))]).rows
         == rows[FirstPending(rows) := match attempt
              case Answered => Completed
              case LoopStopped => Processing
              case _ => Failed]
  {
    var s, a := State(rows, Idle, map[]), Finish(OutcomeOf(attempt));
    RunPair(s, Find, Claim);
    RunConcat(s, [Find, Claim], [a]);
    assert [Find, Claim] + [a] == [Find, Claim, a] && [a][1..] == [];
    var t := Step(Step(s, Find), Claim);
    assert Run(t, [a]) == Run(Step(t, a), []);
  }

  class BatchStore {
    var rows: Rows

    constructor ()
      ensures rows == []
    {
      rows := [];
    }

    method Create() returns (row: nat)
      modifies this
      ensures rows == old(rows) + [Pending] && row == |old(rows)|
    {
      row := |rows|;
      rows := rows + [Pending];
    }

    // The oldest pending row, or the number of rows if there is none.
    method GetPending() returns (row: nat)
      ensures row == FirstPending(rows)
    {
      row := 0;
      while row < |rows| && rows[row] != Pending
        invariant row <= |rows| && FirstPending(rows) == FirstPending(rows, row)
      {
        row := row + 1;
      }
    }

    method SetProcessing(row: nat)
      requires row < |rows|
      modifies this
      ensures rows == if old(rows)[row] == Pending then old(rows)[row := Processing] else old(rows)
    {
      if rows[row] == Pending {
        rows := rows[row := Processing];
      }
    }

    // The writes of the end of an attempt, whatever the status of the row is.
    method Complete(row: nat)
      requires row < |rows|
      modifies this
      ensures rows == old(rows)[row := Completed]
    {
      rows := rows[row := Completed];
    }

    method Fail(row: nat)
      requires row < |rows|
      modifies this
      ensures rows == old(rows)[row := Failed]
    {
      rows := rows[row := Failed];
    }

    method Cancel(row: nat) returns (ok: bool)
      modifies this
      ensures ok == (row < |old(rows)| && old(rows)[row] == Pending)
      ensures rows == if ok then old(rows)[row := Failed] else old(rows)
      ensures Grows(old(rows), rows)
    {
      if row >= |rows| || rows[row] != Pending {
        return false;
      }
      Fail(row);
      return true;
    }

    // Only the oldest pending row moves, to where the attempt takes it.
    method ProcessNext(available: bool, attempt: Attempt)
      modifies this
      ensures !available || FirstPending(old(rows)) == |old(rows)| ==> rows == old(rows)
      ensures available && FirstPending(old(rows)) < |old(rows)| ==>
        rows == old(rows)[FirstPending(old(rows)) := match attempt
          case Answered => Completed
          case LoopStopped => Processing
          case _ => Failed]
      ensures available && FirstPending(old(rows)) < |old(rows)| ==>
        rows == Run(State(old(rows), Idle, map[]), [Find, Claim, Finish(OutcomeOf(attempt))]).rows
    {
      if !available {
        return;
      }
      var row := GetPending();
      if row == |rows| {
        return;
      }
      TurnSteps(rows, attempt);
      SetProcessing(row);
      match attempt
      case InvalidPayload => Fail(row);
      case DispatchFailed => Fail(row);
      case Answered => Complete(row);
      case Erred => Fail(row);
      case TimedOut => Fail(row);
      case LoopStopped =>
    }
  }
}
