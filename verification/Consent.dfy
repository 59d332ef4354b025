// Consent withdrawal against everything else that writes a worker's status:
// internal/manager/api/consent.go:149-163, the read loop's status, result, error
// and exit paths, the connection set-up, and the two reads of Dispatch
// (internal/manager/gateway/websocket.go:198-279, 345-357, 403-431, 486-496).
//
// One action is one SQL statement or one write to a socket. Requests and handlers are
// numbered goroutines; any number of them, of the same worker too, may be between
// their two statements. An action that is not enabled changes nothing.
module Consent {
  import opened Basics
  import opened Store

  datatype Stage = SawConsent(forced: bool) | SawAvailable

  datatype State = State(
    workers: Workers,
    consents: map<string, bool>,
    requests: map<nat, (string, bool)>,       // consent requests between their two writes
    statusWrites: map<nat, (string, string)>, // status handlers past their consent check
    dispatchers: map<nat, (string, Stage)>,   // dispatchers past their consent check
    sent: multiset<string>)                   // how many units each worker was sent

  // Single statements of the read loop, the connection set-up and the goodbye API.
  datatype RowWrite = ResultOrError | Upsert | MarkOnline | Disconnect | Goodbye | SyncStatus(syncStatus: string)

  datatype DispatchStep = ReadsConsent(fp: string, forced: bool) | ReadsStatus | Writes

  datatype Action =
    | ConsentRequest(request: nat, fp: string, accepted: bool)
    | ConsentStatus(request: nat)
    | StatusMessage(handler: nat, fp: string, status: string)
    | StatusWrite(handler: nat)
    | Row(fp: string, write: RowWrite)
    | Dispatcher(dispatcher: nat, step: DispatchStep)

  // The status write of setConsent, for a request that withdraws or accepts.
  function AfterConsent(workers: Workers, fp: string, accepted: bool): Workers {
    if accepted then Update(workers, fp, IS_WITHDRAWN, AVAILABLE) else Update(workers, fp, ANY, WITHDRAWN)
  }

  function RequestConsent(s: State, r: nat, fp: string, accepted: bool): State {
    if r in s.requests then s
    else s.(consents := s.consents[fp := accepted], requests := s.requests[r := (fp, accepted)])
  }

  function WriteConsentStatus(s: State, r: nat): State {
    if r !in s.requests then s
    else
      var (fp, accepted) := s.requests[r];
      s.(workers := AfterConsent(s.workers, fp, accepted), requests := s.requests - {r})
  }

  // A status message that announces availability is dropped without consent.
  function ReadStatusMessage(s: State, h: nat, fp: string, status: string): State {
    if h in s.statusWrites || (status in {AVAILABLE, ONLINE} && !Consented(s.consents, fp)) then s
    else s.(statusWrites := s.statusWrites[h := (fp, status)])
  }

  function WriteStatus(s: State, h: nat): State {
    if h !in s.statusWrites then s
    else
      var (fp, status) := s.statusWrites[h];
      s.(workers := Update(s.workers, fp, NOT_WITHDRAWN, status), statusWrites := s.statusWrites - {h})
  }

  function WriteRow(workers: Workers, fp: string, write: RowWrite): Workers {
    match write
    case ResultOrError => Update(workers, fp, IS_PROCESSING, AVAILABLE)
    case Upsert => Upserted(workers, fp)
    case MarkOnline => Update(workers, fp, NOT_WITHDRAWN, ONLINE)
    case Disconnect => Update(workers, fp, NOT_DELETED, OFFLINE)
    case Goodbye => Update(workers, fp, ANY, DELETED)
    case SyncStatus(sync) => if fp in workers then workers[fp := workers[fp].(syncStatus := sync)] else workers
  }

  function Dispatch(s: State, d: nat, step: DispatchStep): State {
    match step
    case ReadsConsent(fp, forced) =>
      if Consented(s.consents, fp) then s.(dispatchers := s.dispatchers[d := (fp, SawConsent(forced))])
      else s.(dispatchers := s.dispatchers - {d})
    case ReadsStatus =>
      if d !in s.dispatchers || s.dispatchers[d].1 != SawConsent(false) then s
      else if Available(s.workers, s.dispatchers[d].0) then
        s.(dispatchers := s.dispatchers[d := (s.dispatchers[d].0, SawAvailable)])
      else s.(dispatchers := s.dispatchers - {d})
    case Writes =>
      if d !in s.dispatchers || s.dispatchers[d].1 == SawConsent(false) then s
      else s.(sent := s.sent + multiset{s.dispatchers[d].0}, dispatchers := s.dispatchers - {d})
  }

  function Step(s: State, a: Action): State {
    match a
    case ConsentRequest(r, fp, accepted) => RequestConsent(s, r, fp, accepted)
    case ConsentStatus(r) => WriteConsentStatus(s, r)
    case StatusMessage(h, fp, status) => ReadStatusMessage(s, h, fp, status)
    case StatusWrite(h) => WriteStatus(s, h)
    case Row(fp, write) => s.(workers := WriteRow(s.workers, fp, write))
    case Dispatcher(d, step) => Dispatch(s, d, step)
  }

  function Run(s: State, actions: seq<Action>): State
    decreases |actions|
  {
    if actions == [] then s else Run(Step(s, actions[0]), actions[1..])
  }

  predicate Withdrawn(workers: Workers, fp: string) {
    fp in workers && workers[fp].status == WITHDRAWN
  }

  predicate IsWithdrawn(s: State, fp: string) {
    Withdrawn(s.workers, fp)
  }

  // A request of the worker has written the consent row but not the status.
  ghost predicate Open(s: State, fp: string) {
    exists r :: r in s.requests && s.requests[r].0 == fp
  }

  /* The withdrawal sticks. */

  // The second write of a request of this worker with this answer.
  predicate WritesStatus(s: State, a: Action, fp: string, accepted: bool) {
    a.ConsentStatus? && a.request in s.requests && s.requests[a.request] == (fp, accepted)
  }

  // The only writes that end a withdrawal: re-acceptance, disconnect, goodbye.
  predicate EndsWithdrawal(s: State, a: Action, fp: string) {
    WritesStatus(s, a, fp, true) || a == Row(fp, Disconnect) || a == Row(fp, Goodbye)
  }

  // The only writes that start one: the second write of a withdrawal, and a
  // status message that says so itself.
  predicate StartsWithdrawal(s: State, a: Action, fp: string) {
    && fp in s.workers
    && (|| WritesStatus(s, a, fp, false)
        || (a.StatusWrite? && a.handler in s.statusWrites && s.statusWrites[a.handler] == (fp, WITHDRAWN)))
  }

  lemma RowWriteKeepsWithdrawn(workers: Workers, at: string, write: RowWrite, fp: string)
    requires Withdrawn(workers, fp) && at == fp ==> !write.Disconnect? && !write.Goodbye?
    ensures Withdrawn(WriteRow(workers, at, write), fp) <==> Withdrawn(workers, fp)
  {
  }

  lemma UpdateChangesWithdrawn(workers: Workers, at: string, guard: string -> bool, status: string, fp: string)
    ensures Withdrawn(Update(workers, at, guard, status), fp)
       <==> fp in workers && (if at == fp && guard(workers[fp].status) then status else workers[fp].status) == WITHDRAWN
  {
  }

  lemma ConsentStatusChangesWithdrawn(s: State, r: nat, fp: string)
    ensures IsWithdrawn(WriteConsentStatus(s, r), fp)
       <==> StartsWithdrawal(s, ConsentStatus(r), fp) || (IsWithdrawn(s, fp) && !EndsWithdrawal(s, ConsentStatus(r), fp))
  {
    if r in s.requests {
      UpdateChangesWithdrawn(s.workers, s.requests[r].0, IS_WITHDRAWN, AVAILABLE, fp);
      UpdateChangesWithdrawn(s.workers, s.requests[r].0, ANY, WITHDRAWN, fp);
    }
  }

  lemma DispatchTouches(s: State, d: nat, step: DispatchStep)
    ensures Dispatch(s, d, step)
         == s.(dispatchers := Dispatch(s, d, step).dispatchers, sent := Dispatch(s, d, step).sent)
  {
  }

  lemma WithdrawnChangesOnlyThere(s: State, a: Action, fp: string)
    ensures IsWithdrawn(Step(s, a), fp)
       <==> StartsWithdrawal(s, a, fp) || (IsWithdrawn(s, fp) && !EndsWithdrawal(s, a, fp))
  {
    match a
    case ConsentRequest(_, _, _) =>
    case ConsentStatus(r) => ConsentStatusChangesWithdrawn(s, r, fp);
    case StatusMessage(_, _, _) =>
    case StatusWrite(h) =>
      if h in s.statusWrites {
        UpdateChangesWithdrawn(s.workers, s.statusWrites[h].0, NOT_WITHDRAWN, s.statusWrites[h].1, fp);
      }
    case Row(at, write) =>
      if !(IsWithdrawn(s, fp) && EndsWithdrawal(s, a, fp)) {
        RowWriteKeepsWithdrawn(s.workers, at, write, fp);
      }
    case Dispatcher(d, step) => DispatchTouches(s, d, step);
  }

  predicate Harmless(a: Action, fp: string) {
    && !(a.ConsentRequest? && a.fp == fp && a.accepted)
    && a != Row(fp, Disconnect) && a != Row(fp, Goodbye)
  }

  // In every interleaving, of overlapping requests too, a withdrawn status stays
  // until the worker accepts again, disconnects or says goodbye; in-flight handlers
  // cannot undo it.
  lemma {:induction false} WithdrawalSticks(s: State, actions: seq<Action>, fp: string)
    requires IsWithdrawn(s, fp) && forall r :: r in s.requests ==> s.requests[r] != (fp, true)
    requires forall a | a in actions :: Harmless(a, fp)
    ensures IsWithdrawn(Run(s, actions), fp)
    decreases |actions|
  {
    if actions != [] {
      assert actions[0] in actions;
      WithdrawnChangesOnlyThere(s, actions[0], fp);
      WithdrawalSticks(Step(s, actions[0]), actions[1..], fp);
    }
  }

  // Whatever ran between its two writes, a withdrawal ends withdrawn exactly when
  // the worker has a row by its second write.
  lemma WithdrawalTakesEffect(s: State, r: nat, fp: string)
    requires r in s.requests && s.requests[r] == (fp, false)
    ensures IsWithdrawn(Step(s, ConsentStatus(r)), fp) <==> fp in s.workers
  {
  }

  /* Whether status and consent agree. */

  // The status is withdrawn exactly when the consent is.
  predicate Agree(s: State, fp: string) {
    IsWithdrawn(s, fp) <==> !Consented(s.consents, fp)
  }

  // The second write of a request leaves status and consent in agreement exactly
  // when the consent row still holds that request's answer.
  lemma StatusWriteAgreesIff(s: State, r: nat, fp: string)
    requires r in s.requests && s.requests[r].0 == fp && fp in s.workers
    ensures Agree(Step(s, ConsentStatus(r)), fp) <==> s.requests[r].1 == Consented(s.consents, fp)
  {
    ConsentStatusChangesWithdrawn(s, r, fp);
  }

  // Nothing but consent requests touches the withdrawal of this worker.
  predicate Quiet(a: Action, fp: string) {
    && a != Row(fp, Disconnect) && a != Row(fp, Goodbye)
    && !(a.StatusMessage? && a.fp == fp && a.status == WITHDRAWN)
  }

  ghost predicate QuietState(s: State, fp: string) {
    fp in s.workers && forall h :: h in s.statusWrites ==> s.statusWrites[h] != (fp, WITHDRAWN)
  }

  lemma StepKeepsQuiet(s: State, a: Action, fp: string)
    requires QuietState(s, fp) && Quiet(a, fp)
    ensures QuietState(Step(s, a), fp)
  {
    if a.Dispatcher? { DispatchTouches(s, a.dispatcher, a.step); }
  }

  // What the last second write of a request of the worker met: whether the consent
  // row still held its own answer.
  function LastGuard(s: State, actions: seq<Action>, fp: string): Option<bool>
    decreases |actions|
  {
    if actions == [] then None
    else
      var later := LastGuard(Step(s, actions[0]), actions[1..], fp);
      if later.Some? then later
      else if WritesStatus(s, actions[0], fp, true) then Some(Consented(s.consents, fp))
      else if WritesStatus(s, actions[0], fp, false) then Some(!Consented(s.consents, fp))
      else None
  }

  lemma RequestStays(s: State, a: Action, r: nat)
    requires r in s.requests && a != ConsentStatus(r)
    ensures r in Step(s, a).requests && Step(s, a).requests[r] == s.requests[r]
  {
    if a.Dispatcher? { DispatchTouches(s, a.dispatcher, a.step); }
  }

  lemma OpenStays(s: State, a: Action, fp: string)
    requires Open(s, fp) && !WritesStatus(s, a, fp, true) && !WritesStatus(s, a, fp, false)
    ensures Open(Step(s, a), fp)
  {
    var r :| r in s.requests && s.requests[r].0 == fp;
    assert s.requests[r] == (fp, if s.requests[r].1 then true else false);
    assert a != ConsentStatus(r);
    RequestStays(s, a, r);
  }

  lemma ConsentChangeOpens(s: State, a: Action, fp: string)
    ensures Consented(Step(s, a).consents, fp) == Consented(s.consents, fp) || Open(Step(s, a), fp)
  {
    if a.ConsentRequest? && a.request !in s.requests && a.fp == fp {
      assert Step(s, a).requests[a.request].0 == fp;
    }
    if a.Dispatcher? { DispatchTouches(s, a.dispatcher, a.step); }
  }

  lemma StepWithoutWrite(s: State, a: Action, fp: string)
    requires QuietState(s, fp) && Quiet(a, fp)
    requires !WritesStatus(s, a, fp, true) && !WritesStatus(s, a, fp, false)
    ensures IsWithdrawn(Step(s, a), fp) == IsWithdrawn(s, fp)
    ensures Open(s, fp) ==> Open(Step(s, a), fp)
    ensures Consented(Step(s, a).consents, fp) == Consented(s.consents, fp) || Open(Step(s, a), fp)
  {
    WithdrawnChangesOnlyThere(s, a, fp);
    if Open(s, fp) { OpenStays(s, a, fp); }
    ConsentChangeOpens(s, a, fp);
  }

  // Without a second write, a run that ends with no open request has had no first
  // write either.
  lemma {:induction false} NothingWritten(s: State, actions: seq<Action>, fp: string)
    requires QuietState(s, fp) && (forall a | a in actions :: Quiet(a, fp))
    requires LastGuard(s, actions, fp).None? && !Open(Run(s, actions), fp)
    ensures !Open(s, fp) && IsWithdrawn(Run(s, actions), fp) == IsWithdrawn(s, fp)
    ensures Consented(Run(s, actions).consents, fp) == Consented(s.consents, fp)
    decreases |actions|
  {
    if actions != [] {
      assert actions[0] in actions;
      StepKeepsQuiet(s, actions[0], fp);
      NothingWritten(Step(s, actions[0]), actions[1..], fp);
      StepWithoutWrite(s, actions[0], fp);
    }
  }

  // Overlapping requests: once none is open, status and consent agree exactly when
  // the request that wrote the status last met its own answer in the consent row.
  lemma {:induction false} AgreementIff(s: State, actions: seq<Action>, fp: string)
    requires QuietState(s, fp) && (forall a | a in actions :: Quiet(a, fp))
    requires !Open(Run(s, actions), fp) && LastGuard(s, actions, fp).Some?
    ensures Agree(Run(s, actions), fp) <==> LastGuard(s, actions, fp).value
    decreases |actions|
  {
    assert actions[0] in actions;
    var t, rest := Step(s, actions[0]), actions[1..];
    StepKeepsQuiet(s, actions[0], fp);
    if LastGuard(t, rest, fp).Some? {
      AgreementIff(t, rest, fp);
    } else {
      NothingWritten(t, rest, fp);
      StatusWriteAgreesIff(s, actions[0].request, fp);
    }
  }

  // Serialised: a request of the worker starts only when none is open.
  ghost predicate Serialised(s: State, actions: seq<Action>, fp: string)
    decreases |actions|
  {
    actions != [] ==>
      && (actions[0].ConsentRequest? && actions[0].fp == fp ==> !Open(s, fp))
      && Serialised(Step(s, actions[0]), actions[1..], fp)
  }

  ghost predicate OpenHoldsConsent(s: State, fp: string) {
    forall r :: r in s.requests && s.requests[r].0 == fp ==> s.requests[r].1 == Consented(s.consents, fp)
  }

  lemma StepKeepsOpenHolds(s: State, a: Action, fp: string)
    requires OpenHoldsConsent(s, fp) && (a.ConsentRequest? && a.fp == fp ==> !Open(s, fp))
    ensures OpenHoldsConsent(Step(s, a), fp)
  {
    if a.Dispatcher? { DispatchTouches(s, a.dispatcher, a.step); }
  }

  lemma {:induction false} SerialisedMeetOwnAnswer(s: State, actions: seq<Action>, fp: string)
    requires OpenHoldsConsent(s, fp) && Serialised(s, actions, fp) && LastGuard(s, actions, fp).Some?
    ensures LastGuard(s, actions, fp).value
    decreases |actions|
  {
    StepKeepsOpenHolds(s, actions[0], fp);
    if LastGuard(Step(s, actions[0]), actions[1..], fp).Some? {
      SerialisedMeetOwnAnswer(Step(s, actions[0]), actions[1..], fp);
    }
  }

  // Serialised requests always end in agreement.
  lemma SerialisedRequestsAgree(s: State, actions: seq<Action>, fp: string)
    requires QuietState(s, fp) && (forall a | a in actions :: Quiet(a, fp))
    requires !Open(s, fp) && Serialised(s, actions, fp)
    requires !Open(Run(s, actions), fp) && LastGuard(s, actions, fp).Some?
    ensures Agree(Run(s, actions), fp)
  {
    SerialisedMeetOwnAnswer(s, actions, fp);
    AgreementIff(s, actions, fp);
  }

  /* Dispatch. */

  // Every dispatcher that reads the worker's consent in this run finds none.
  predicate NeverSeenConsenting(s: State, actions: seq<Action>, fp: string)
    decreases |actions|
  {
    actions != [] ==>
      && (actions[0].Dispatcher? && actions[0].step.ReadsConsent? && actions[0].step.fp == fp
          ==> !Consented(s.consents, fp))
      && NeverSeenConsenting(Step(s, actions[0]), actions[1..], fp)
  }

  // No dispatcher has seen the worker's consent and not yet written.
  ghost predicate Unselected(s: State, fp: string) {
    forall d | d in s.dispatchers :: s.dispatchers[d].0 != fp
  }

  lemma DispatchKeepsUnselected(s: State, d: nat, step: DispatchStep, fp: string)
    requires Unselected(s, fp)
    requires step.ReadsConsent? && step.fp == fp ==> !Consented(s.consents, fp)
    ensures Unselected(Dispatch(s, d, step), fp) && Dispatch(s, d, step).sent[fp] == s.sent[fp]
  {
  }

  // No unit, forced or not, reaches a worker whose consent was missing whenever a
  // dispatcher read it, whatever it was in between.
  lemma {:induction false} NoDispatchWithoutConsent(s: State, actions: seq<Action>, fp: string)
    requires Unselected(s, fp) && NeverSeenConsenting(s, actions, fp)
    ensures Run(s, actions).sent[fp] == s.sent[fp]
    decreases |actions|
  {
    if actions != [] {
      if actions[0].Dispatcher? {
        DispatchKeepsUnselected(s, actions[0].dispatcher, actions[0].step, fp);
      }
      NoDispatchWithoutConsent(Step(s, actions[0]), actions[1..], fp);
    }
  }

  // Consent was neither there at the start nor given in the run.
  predicate NeverAccepted(actions: seq<Action>, fp: string) {
    forall a :: a in actions && a.ConsentRequest? ==> !(a.fp == fp && a.accepted)
  }

  lemma StaysWithoutConsent(s: State, a: Action, fp: string)
    requires !(fp in s.consents && s.consents[fp] == true)
    requires a.ConsentRequest? ==> !(a.fp == fp && a.accepted)
    ensures !(fp in Step(s, a).consents && Step(s, a).consents[fp] == true)
  {
    if a.Dispatcher? { DispatchTouches(s, a.dispatcher, a.step); }
  }

  lemma {:induction false} NeverSeenWithoutConsent(s: State, actions: seq<Action>, fp: string)
    requires !(fp in s.consents && s.consents[fp] == true) && NeverAccepted(actions, fp)
    ensures NeverSeenConsenting(s, actions, fp)
    decreases |actions|
  {
    if actions != [] {
      assert actions[0] in actions;
      StaysWithoutConsent(s, actions[0], fp);
      NeverSeenWithoutConsent(Step(s, actions[0]), actions[1..], fp);
    }
  }

  // No unit, forced or not, reaches a worker that has no consent row, or a withdrawn
  // one, before it accepts.
  lemma NoDispatchBeforeConsent(s: State, actions: seq<Action>, fp: string)
    requires fp !in s.consents || s.consents[fp] == false
    requires Unselected(s, fp) && NeverAccepted(actions, fp)
    ensures Run(s, actions).sent[fp] == s.sent[fp]
  {
    NeverSeenWithoutConsent(s, actions, fp);
    NoDispatchWithoutConsent(s, actions, fp);
  }

  // A dispatcher that finds consent, and unless it is forced an available and synced
  // worker, sends one unit.
  lemma DispatcherSends(s: State, d: nat, fp: string, forced: bool)
    requires fp in s.consents && s.consents[fp] == true
    requires !forced ==>
      fp in s.workers && s.workers[fp].syncStatus == "synced" && s.workers[fp].status in {"available", "online"}
    ensures var t := Dispatch(s, d, ReadsConsent(fp, forced));
      var u := if forced then t else Dispatch(t, d, ReadsStatus);
      Dispatch(u, d, Writes).sent == s.sent + multiset{fp}
  {
  }

  predicate ReadsStatusOf(s: State, d: nat, step: DispatchStep, fp: string) {
    step.ReadsStatus? && d in s.dispatchers && s.dispatchers[d].0 == fp
  }

  // Every dispatcher that reads the worker's status in this run finds it unavailable
  // or out of sync, and none is forced.
  predicate NeverSeenAvailable(s: State, actions: seq<Action>, fp: string)
    decreases |actions|
  {
    actions != [] ==>
      && (actions[0].Dispatcher? ==>
            && actions[0].step != ReadsConsent(fp, true)
            && (ReadsStatusOf(s, actions[0].dispatcher, actions[0].step, fp) ==> !Available(s.workers, fp)))
      && NeverSeenAvailable(Step(s, actions[0]), actions[1..], fp)
  }

  // No dispatcher is ready to write to the worker.
  ghost predicate Unseen(s: State, fp: string) {
    forall d | d in s.dispatchers && s.dispatchers[d].0 == fp :: s.dispatchers[d].1 == SawConsent(false)
  }

  lemma DispatchKeepsUnseen(s: State, d: nat, step: DispatchStep, fp: string)
    requires Unseen(s, fp) && step != ReadsConsent(fp, true)
    requires ReadsStatusOf(s, d, step, fp) ==> !Available(s.workers, fp)
    ensures Unseen(Dispatch(s, d, step), fp) && Dispatch(s, d, step).sent[fp] == s.sent[fp]
  {
  }

  // Unless it is forced, a dispatcher also needs to have found the worker available
  // and synced at its own second read.
  lemma {:induction false} NoDispatchWhileUnavailable(s: State, actions: seq<Action>, fp: string)
    requires Unseen(s, fp) && NeverSeenAvailable(s, actions, fp)
    ensures Run(s, actions).sent[fp] == s.sent[fp]
    decreases |actions|
  {
    if actions != [] {
      if actions[0].Dispatcher? {
        DispatchKeepsUnseen(s, actions[0].dispatcher, actions[0].step, fp);
      }
      NoDispatchWhileUnavailable(Step(s, actions[0]), actions[1..], fp);
    }
  }

  /* What the code does not promise. */

  lemma RunFour(s: State, a: Action, b: Action, c: Action, d: Action)
    ensures Run(s, [a, b, c, d]) == Step(Step(Step(Step(s, a), b), c), d)
  {
    var s1, s2, s3 := Step(s, a), Step(Step(s, a), b), Step(Step(Step(s, a), b), c);
    assert [a, b, c, d][1..] == [b, c, d] && [b, c, d][1..] == [c, d] && [c, d][1..] == [d] && [d][1..] == [];
    assert Run(s3, [d]) == Run(Step(s3, d), []);
    assert Run(s2, [c, d]) == Run(s3, [d]);
    assert Run(s1, [b, c, d]) == Run(s2, [c, d]);
  }

  lemma BothOpen(s: State, fp: string)
    requires s.requests == map[]
    ensures var t := Step(Step(s, ConsentRequest(0, fp, true)), ConsentRequest(1, fp, false));
      && t.requests == map[0 := (fp, true), 1 := (fp, false)]
      && t.workers == s.workers && !Consented(t.consents, fp)
  {
  }

  lemma BothWritten(t: State, fp: string)
    requires fp in t.workers && t.requests == map[0 := (fp, true), 1 := (fp, false)]
    ensures var u := Step(Step(t, ConsentStatus(1)), ConsentStatus(0));
      && u.requests == map[] && u.consents == t.consents
      && fp in u.workers && u.workers[fp].status == AVAILABLE
  {
  }

  // Overlapping requests can lose a withdrawal: an acceptance writes consent, a
  // withdrawal makes both of its writes, the acceptance writes the status. No request
  // is open then, consent is withdrawn, and the worker is available.
  lemma OverlappingRequestsLoseWithdrawal(s: State, fp: string)
    requires fp in s.workers && s.requests == map[]
    ensures var t := Run(s, [ConsentRequest(0, fp, true), ConsentRequest(1, fp, false),
                             ConsentStatus(1), ConsentStatus(0)]);
      && t.requests == map[] && !Consented(t.consents, fp)
      && fp in t.workers && t.workers[fp].status == AVAILABLE
  {
    RunFour(s, ConsentRequest(0, fp, true), ConsentRequest(1, fp, false), ConsentStatus(1), ConsentStatus(0));
    BothOpen(s, fp);
    BothWritten(Step(Step(s, ConsentRequest(0, fp, true)), ConsentRequest(1, fp, false)), fp);
  }

  // A reconnect clears the withdrawn status. The worker then counts as available
  // again, although Dispatch still refuses it.
  lemma ReconnectClearsWithdrawal(s: State, fp: string)
    requires IsWithdrawn(s, fp) && s.workers[fp].syncStatus == SYNCED && !Consented(s.consents, fp)
    ensures var t := Run(s, [Row(fp, Disconnect), Row(fp, Upsert), Row(fp, MarkOnline)]);
            Available(t.workers, fp) && !Consented(t.consents, fp)
  {
    var actions := [Row(fp, Disconnect), Row(fp, Upsert), Row(fp, MarkOnline)];
    var s1 := Step(s, actions[0]);
    var s2 := Step(s1, actions[1]);
    var s3 := Step(s2, actions[2]);
    assert actions[1..] == [actions[1], actions[2]] && actions[1..][1..] == [actions[2]];
    assert Run(s2, [actions[2]]) == Run(s3, []) == s3;
    assert Run(s1, actions[1..]) == Run(s2, [actions[2]]);
  }

  /* The handlers in the form of the source, without interference. */

  method SetConsent(store: Store, fp: string, accepted: bool)
    modifies store`workers, store`consents
    ensures store.consents == old(store.consents)[fp := accepted]
    ensures store.workers == AfterConsent(old(store.workers), fp, accepted)
    ensures accepted ==> !Withdrawn(store.workers, fp)
    ensures !accepted ==> (Withdrawn(store.workers, fp) <==> fp in store.workers) && !Consented(store.consents, fp)
  {
    store.SetConsent(fp, accepted);
    if !accepted {
      store.SetWorkerStatus(fp, WITHDRAWN);
    } else {
      store.SetWorkerAvailableIfWithdrawn(fp);
    }
  }

  // The status case of the read loop.
  method HandleStatus(store: Store, fp: string, status: string)
    modifies store`workers
    ensures store.workers
         == if status in {AVAILABLE, ONLINE} && !Consented(store.consents, fp) then old(store.workers)
            else Update(old(store.workers), fp, NOT_WITHDRAWN, status)
    ensures Withdrawn(old(store.workers), fp) ==> store.workers == old(store.workers)
    ensures (status == "available" || status == "online") && !(fp in store.consents && store.consents[fp] == true) ==>
      store.workers == old(store.workers)
    ensures status !in {"available", "online"} || (fp in store.consents && store.consents[fp] == true) ==>
      fp in old(store.workers) && old(store.workers)[fp].status != "withdrawn" ==>
        store.workers == old(store.workers)[fp := old(store.workers)[fp].(status := status)]
  {
    if status == AVAILABLE || status == ONLINE {
      var consented := store.HasConsent(fp);
      if !consented {
        return;
      }
    }
    store.SetWorkerStatusIfNotWithdrawn(fp, status);
  }

  // Each single statement of the step system is the store's.
  method WriteRowInStore(store: Store, fp: string, write: RowWrite)
    modifies store`workers
    ensures store.workers == WriteRow(old(store.workers), fp, write)
  {
    match write
    case ResultOrError => store.SetWorkerAvailableIfProcessing(fp);
    case Upsert => store.UpsertWorker(fp);
    case MarkOnline => store.SetWorkerOnlineIfAllowed(fp);
    case Disconnect => store.SetWorkerOffline(fp);
    case Goodbye => store.SetWorkerStatus(fp, DELETED);
    case SyncStatus(sync) =>
      if fp in store.workers {
        store.workers := store.workers[fp := store.workers[fp].(syncStatus := sync)];
      }
  }

  // The two steps of a status message that nothing interrupts, written out.
  lemma StatusStepsFollowMethod(s: State, h: nat, fp: string, status: string)
    requires h !in s.statusWrites
    ensures Step(Step(s, StatusMessage(h, fp, status)), StatusWrite(h))
         == if status in {"available", "online"} && !(fp in s.consents && s.consents[fp] == true) then s
            else s.(workers :=
              if fp in s.workers && s.workers[fp].status != "withdrawn"
              then s.workers[fp := s.workers[fp].(status := status)] else s.workers)
  {
    assert s.statusWrites[h := (fp, status)] - {h} == s.statusWrites;
  }

  // The two steps of a request that nothing interrupts are the method.
  lemma StepsFollowMethod(s: State, r: nat, fp: string, accepted: bool)
    requires r !in s.requests
    ensures Step(Step(s, ConsentRequest(r, fp, accepted)), ConsentStatus(r))
         == s.(workers := AfterConsent(s.workers, fp, accepted), consents := s.consents[fp := accepted])
  {
    assert s.requests[r := (fp, accepted)] - {r} == s.requests;
  }
}
