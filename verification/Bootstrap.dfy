// The bootstrap of a client: one successful backend update and one verified model
// update, which run in two goroutines and drive the same backend manager
// (internal/client/worker/worker.go:511-548, 675-717,
// internal/client/backend/manager.go:127-129, 220-303).
//
// One action is one critical section of the manager, one extraction boundary or one
// access to the remembered model. A server process does not exit by itself here.
module Bootstrap {
  import opened Basics

  datatype LlamaParams = LlamaParams(
    contextSize: int, parallelSlots: int, gpuLayers: int, endpointType: string, flashAttention: bool)

  datatype Launch = Launch(port: string, model: string, params: LlamaParams)

  // A file exists at the binary's path from the start of an extraction on.
  datatype Disk = Missing | Partial | Installed

  datatype Server = Server(
    disk: Disk,
    live: map<nat, Launch>,   // the server processes of the machine, by process id
    nextPid: nat,
    handle: Option<nat>,
    last: Launch)             // the last successful start; empty strings at first

  ghost predicate Valid(s: Server) {
    match s.handle
    case None => s.live == map[]
    case Some(pid) => pid < s.nextPid && s.live == map[pid := s.last]
  }

  predicate Ready(l: Launch) {
    l.port != "" && l.model != ""
  }

  // Whether executing what is on the disk works: what half an extraction does is
  // left to luck.
  predicate Executable(disk: Disk, luck: bool) {
    disk == Installed || (disk == Partial && luck)
  }

  function Stopped(s: Server): Server {
    if s.handle == None then s else s.(live := s.live - {s.handle.value}, handle := None)
  }

  function Started(s: Server, l: Launch, luck: bool): Server {
    var idle := Stopped(s);
    if !Executable(s.disk, luck) then idle
    else idle.(live := idle.live[s.nextPid := l], nextPid := s.nextPid + 1, handle := Some(s.nextPid), last := l)
  }

  // Exactly one server process runs, and it is the launch l.
  ghost predicate Running(s: Server, l: Launch) {
    s.handle.Some? && s.live == map[s.handle.value := l] && s.last == l
  }

  /* The manager in the form of the source. */

  class BackendManager {
    var disk: Disk
    var live: map<nat, Launch>
    var nextPid: nat
    var handle: Option<nat>
    var last: Launch

    ghost function Contents(): Server
      reads this
    {
      Server(disk, live, nextPid, handle, last)
    }

    constructor (disk: Disk)
      ensures Contents() == Server(disk, map[], 0, None, Launch("", "", LlamaParams(0, 0, 0, "", false)))
      ensures Valid(Contents())
    {
      this.disk := disk;
      live, nextPid, handle := map[], 0, None;
      last := Launch("", "", LlamaParams(0, 0, 0, "", false));
    }

    method StopLocked()
      requires Valid(Contents())
      modifies this
      ensures Contents() == Stopped(old(Contents())) && Valid(Contents())
      ensures handle == None && live == map[]
    {
      if handle == None {
        return;
      }
      live := live - {handle.value};
      handle := None;
    }

    method Stop()
      requires Valid(Contents())
      modifies this
      ensures Contents() == Stopped(old(Contents())) && Valid(Contents())
      ensures handle == None && live == map[]
    {
      StopLocked();
    }

    // A failed start has stopped the running server and forgotten nothing.
    method Start(l: Launch, luck: bool) returns (ok: bool)
      requires Valid(Contents())
      modifies this
      ensures Contents() == Started(old(Contents()), l, luck) && Valid(Contents())
      ensures ok <==> old(disk) == Installed || (old(disk) == Partial && luck)
      ensures if ok then Running(Contents(), l) else live == map[] && last == old(last)
    {
      StopLocked();
      if disk == Missing {
        return false;
      }
      if disk == Partial && !luck {
        return false;
      }
      live := live[nextPid := l];
      handle := Some(nextPid);
      nextPid := nextPid + 1;
      last := l;
      return true;
    }

    // Without a concurrent start between the read of last and the start.
    method Restart(luck: bool) returns (ok: bool)
      requires Valid(Contents())
      modifies this
      ensures Valid(Contents()) && last == old(last)
      ensures Contents()
           == if Ready(old(last)) then Started(old(Contents()), old(last), luck) else old(Contents())
      ensures ok <==>
        && old(last).port != "" && old(last).model != ""
        && (old(disk) == Installed || (old(disk) == Partial && luck))
      ensures ok ==> Running(Contents(), old(last))
    {
      var l := last;
      if l.port == "" || l.model == "" {
        return false;
      }
      ok := Start(l, luck);
    }

    method IsRunning() returns (running: bool)
      requires Valid(Contents())
      ensures running <==> live != map[]
    {
      running := handle != None;
      if running {
        assert handle.value in live;
      }
    }
  }

  // How the installation of a backend update ends. A failed extraction, or a wrong
  // hash after it, leaves something on the disk.
  datatype Installation = SameVersion | DownloadFails | ExtractionFails(left: Disk) | Installs

  // A backend update with nothing beside it. If it is installed, the server that was
  // last started runs again, else the remembered model runs, else nothing does. A
  // failed extraction leaves the server stopped; every other failure leaves it alone.
  method HandleBackendUpdate(manager: BackendManager, cached: Launch, installation: Installation)
    requires Valid(manager.Contents())
    modifies manager
    ensures Valid(manager.Contents())
    ensures installation.SameVersion? || installation.DownloadFails? ==>
      manager.Contents() == old(manager.Contents())
    ensures installation.ExtractionFails? ==> manager.live == map[] && manager.last == old(manager.last)
    ensures installation.Installs? ==>
      if old(manager.last).port != "" && old(manager.last).model != ""
      then Running(manager.Contents(), old(manager.last))
      else if cached.model != "" then Running(manager.Contents(), cached)
      else manager.live == map[] && manager.last == old(manager.last)
  {
    if installation.SameVersion? || installation.DownloadFails? {
      return;
    }
    var running := manager.IsRunning();
    if running {
      manager.Stop();
    }
    if installation.ExtractionFails? {
      manager.disk := installation.left;
      return;
    }
    manager.disk := Installed;
    var restarted := manager.Restart(true);
    if !restarted && cached.model != "" {
      var _ := manager.Start(cached, true);
    }
  }

  /* Both updates, interleaved. */

  // What is left of the backend update, from the check before the extraction on.
  datatype BackendStage =
    | CheckRunning
    | StopRunning
    | BeginExtract
    | EndExtract
    | ReadLast
    | Restarting(launch: Launch)
    | CheckCached
    | ReadCached
    | StartCached(launch: Launch)
    | BackendDone

  // What is left of the model update, from the write of the remembered model on.
  datatype ModelStage = Remember | StartModel | ModelDone

  datatype State = State(server: Server, cached: Launch, backend: BackendStage, model: ModelStage)

  datatype Action = Backend(luck: bool) | Model(luck: bool)

  function StepBackend(s: State, luck: bool): State {
    match s.backend
    case CheckRunning => s.(backend := if s.server.handle == None then BeginExtract else StopRunning)
    case StopRunning => s.(server := Stopped(s.server), backend := BeginExtract)
    case BeginExtract => s.(server := s.server.(disk := Partial), backend := EndExtract)
    case EndExtract => s.(server := s.server.(disk := Installed), backend := ReadLast)
    case ReadLast => s.(backend := if Ready(s.server.last) then Restarting(s.server.last) else CheckCached)
    case Restarting(launch) =>
      s.(server := Started(s.server, launch, luck),
         backend := if Executable(s.server.disk, luck) then BackendDone else CheckCached)
    case CheckCached => s.(backend := if s.cached.model != "" then ReadCached else BackendDone)
    case ReadCached => s.(backend := StartCached(s.cached))
    case StartCached(launch) => s.(server := Started(s.server, launch, luck), backend := BackendDone)
    case BackendDone => s
  }

  function StepModel(s: State, target: Launch, luck: bool): State {
    match s.model
    case Remember => s.(cached := target, model := StartModel)
    case StartModel => s.(server := Started(s.server, target, luck), model := ModelDone)
    case ModelDone => s
  }

  function Step(s: State, target: Launch, a: Action): State {
    match a
    case Backend(luck) => StepBackend(s, luck)
    case Model(luck) => StepModel(s, target, luck)
  }

  function Run(s: State, target: Launch, actions: seq<Action>): State
    decreases |actions|
  {
    if actions == [] then s else Run(Step(s, target, actions[0]), target, actions[1..])
  }

  // The backend update is about to start a launch that it read before the model
  // update, which has been through its own start, replaced it.
  predicate StartsStale(s: State, target: Launch, a: Action) {
    && a.Backend? && s.model == ModelDone
    && (s.backend.Restarting? || s.backend.StartCached?) && s.backend.launch != target
  }

  predicate StaleStart(s: State, target: Launch, actions: seq<Action>)
    decreases |actions|
  {
    && actions != []
    && (StartsStale(s, target, actions[0]) || StaleStart(Step(s, target, actions[0]), target, actions[1..]))
  }

  // Both updates are about to begin, whatever ran before them.
  ghost predicate Begins(s: State) {
    Valid(s.server) && s.backend == CheckRunning && s.model == Remember
  }

  // No model was ever started or remembered.
  ghost predicate Fresh(s: State) {
    Begins(s) && !Ready(s.server.last) && s.cached.model == ""
  }

  ghost predicate Finished(s: State) {
    s.backend == BackendDone && s.model == ModelDone
  }

  predicate Extracted(b: BackendStage) {
    match b
    case CheckRunning => false
    case StopRunning => false
    case BeginExtract => false
    case EndExtract => false
    case _ => true
  }

  // What every state of every run has, given whether a stale start has happened.
  ghost predicate Inv(s: State, target: Launch, stale: bool) {
    && Valid(s.server)
    && (Extracted(s.backend) ==> s.server.disk == Installed)
    && (s.model != Remember ==> s.cached == target)
    && (stale ==> Finished(s))
    && (Finished(s) ==> (Running(s.server, target) <==> !stale))
  }

  lemma StartedIsRunning(s: Server, l: Launch, luck: bool)
    requires Valid(s)
    ensures Valid(Started(s, l, luck))
    ensures Executable(s.disk, luck) ==> Running(Started(s, l, luck), l)
    ensures !Executable(s.disk, luck) ==> Started(s, l, luck).live == map[] && Started(s, l, luck).last == s.last
  {
    assert Valid(Stopped(s)) && Stopped(s).live == map[];
  }

  lemma RunningIsUnique(s: Server, l: Launch, k: Launch)
    requires Running(s, l)
    ensures Running(s, k) <==> k == l
  {
  }

  lemma BackendKeepsInv(s: State, target: Launch, stale: bool, luck: bool)
    requires target.model != "" && Inv(s, target, stale)
    ensures Inv(StepBackend(s, luck), target, stale || StartsStale(s, target, Backend(luck)))
  {
    if s.backend.Restarting? || s.backend.StartCached? {
      StartedIsRunning(s.server, s.backend.launch, luck);
      RunningIsUnique(Started(s.server, s.backend.launch, luck), s.backend.launch, target);
    }
  }

  lemma ModelKeepsInv(s: State, target: Launch, stale: bool, luck: bool)
    requires Inv(s, target, stale)
    ensures Inv(StepModel(s, target, luck), target, stale)
  {
    if s.model == StartModel {
      StartedIsRunning(s.server, target, luck);
    }
  }

  lemma {:induction false} RunKeepsInv(s: State, target: Launch, actions: seq<Action>, stale: bool)
    requires target.model != "" && Inv(s, target, stale)
    ensures Inv(Run(s, target, actions), target, stale || StaleStart(s, target, actions))
    decreases |actions|
  {
    if actions != [] {
      match actions[0] {
        case Backend(luck) => BackendKeepsInv(s, target, stale, luck);
        case Model(luck) => ModelKeepsInv(s, target, stale, luck);
      }
      RunKeepsInv(Step(s, target, actions[0]), target, actions[1..],
                  stale || StartsStale(s, target, actions[0]));
    }
  }

  // Nothing but the new model was ever started or remembered.
  ghost predicate FreshSoFar(s: State, target: Launch) {
    && (Ready(s.server.last) ==> s.server.last == target)
    && (s.cached.model != "" ==> s.cached == target)
    && (s.backend.ReadCached? ==> s.cached == target)
    && (s.backend.Restarting? || s.backend.StartCached? ==> s.backend.launch == target)
  }

  lemma {:induction false} FreshIsNeverStale(s: State, target: Launch, actions: seq<Action>)
    requires Ready(target) && FreshSoFar(s, target)
    ensures !StaleStart(s, target, actions)
    decreases |actions|
  {
    if actions != [] {
      FreshIsNeverStale(Step(s, target, actions[0]), target, actions[1..]);
    }
  }

  // The new model was already the one last started.
  ghost predicate SettledSoFar(s: State, target: Launch) {
    && s.server.last == target && (Extracted(s.backend) ==> s.server.disk == Installed)
    && !s.backend.CheckCached? && !s.backend.ReadCached? && !s.backend.StartCached?
    && (s.backend.Restarting? ==> s.backend.launch == target)
  }

  lemma {:induction false} SettledIsNeverStale(s: State, target: Launch, actions: seq<Action>)
    requires Ready(target) && SettledSoFar(s, target)
    ensures !StaleStart(s, target, actions)
    decreases |actions|
  {
    if actions != [] {
      SettledIsNeverStale(Step(s, target, actions[0]), target, actions[1..]);
    }
  }

  /* Enough steps of both goroutines finish both updates. */

  function BackendLeft(b: BackendStage): nat {
    match b
    case CheckRunning => 9
    case StopRunning => 8
    case BeginExtract => 7
    case EndExtract => 6
    case ReadLast => 5
    case Restarting(_) => 4
    case CheckCached => 3
    case ReadCached => 2
    case StartCached(_) => 1
    case BackendDone => 0
  }

  function ModelLeft(m: ModelStage): nat {
    match m
    case Remember => 2
    case StartModel => 1
    case ModelDone => 0
  }

  function BackendSteps(actions: seq<Action>): nat
    decreases |actions|
  {
    if actions == [] then 0 else (if actions[0].Backend? then 1 else 0) + BackendSteps(actions[1..])
  }

  function ModelSteps(actions: seq<Action>): nat
    decreases |actions|
  {
    if actions == [] then 0 else (if actions[0].Model? then 1 else 0) + ModelSteps(actions[1..])
  }

  lemma {:induction false} EnoughStepsFinish(s: State, target: Launch, actions: seq<Action>)
    requires BackendSteps(actions) >= BackendLeft(s.backend) && ModelSteps(actions) >= ModelLeft(s.model)
    ensures Finished(Run(s, target, actions))
    decreases |actions|
  {
    if actions != [] {
      EnoughStepsFinish(Step(s, target, actions[0]), target, actions[1..]);
    }
  }

  /* Main results. */

  // While the binary is being replaced no server runs, unless the model update has
  // started one.
  lemma NoServerDuringExtraction(s: State, target: Launch, actions: seq<Action>)
    requires Begins(s)
    ensures var t := Run(s, target, actions);
      (t.backend == BeginExtract || t.backend == EndExtract) && t.model != ModelDone ==> t.server.live == map[]
  {
    KeepsExtractingAlone(s, target, actions);
  }

  lemma {:induction false} KeepsExtractingAlone(s: State, target: Launch, actions: seq<Action>)
    requires Valid(s.server) && ExtractsAlone(s)
    ensures ExtractsAlone(Run(s, target, actions))
    decreases |actions|
  {
    if actions != [] {
      StepKeepsValid(s, target, actions[0]);
      KeepsExtractingAlone(Step(s, target, actions[0]), target, actions[1..]);
    }
  }

  ghost predicate ExtractsAlone(s: State) {
    (s.backend == BeginExtract || s.backend == EndExtract) && s.model != ModelDone ==> s.server.live == map[]
  }

  lemma StepKeepsValid(s: State, target: Launch, a: Action)
    requires Valid(s.server)
    ensures Valid(Step(s, target, a).server)
  {
    if a.Backend? && (s.backend.Restarting? || s.backend.StartCached?) {
      StartedIsRunning(s.server, s.backend.launch, a.luck);
    }
    if a.Model? && s.model == StartModel { StartedIsRunning(s.server, target, a.luck); }
  }

  // In every state of every interleaving at most one server process exists, and a
  // live handle is that process, started with the remembered launch.
  lemma OneProcess(s: State, target: Launch, actions: seq<Action>)
    requires target.model != "" && Begins(s)
    ensures var t := Run(s, target, actions).server;
            |t.live| <= 1 && (t.handle == None <==> t.live == map[])
            && (t.handle != None ==> t.live == map[t.handle.value := t.last])
  {
    RunKeepsInv(s, target, actions, false);
    var t := Run(s, target, actions).server;
    if t.handle != None { assert t.handle.value in t.live; }
  }

  // One run converges exactly if it has no stale start.
  lemma ConvergesIffNeverStale(s: State, target: Launch, actions: seq<Action>)
    requires target.model != "" && Begins(s) && Finished(Run(s, target, actions))
    ensures Running(Run(s, target, actions).server, target) <==> !StaleStart(s, target, actions)
  {
    RunKeepsInv(s, target, actions, false);
  }

  // What was started or remembered before the two updates is the new model, or
  // nothing: the last started model counts if there is one, else the remembered one.
  predicate Compatible(s: State, target: Launch) {
    if Ready(s.server.last) then s.server.last == target else s.cached.model == "" || s.cached == target
  }

  lemma CompatibleIsNeverStale(s: State, target: Launch, actions: seq<Action>)
    requires Ready(target) && Begins(s) && Compatible(s, target)
    ensures !StaleStart(s, target, actions)
  {
    if Ready(s.server.last) {
      SettledIsNeverStale(s, target, actions);
    } else {
      FreshIsNeverStale(s, target, actions);
    }
  }

  // With nothing compatible before, one interleaving always ends with the old model:
  // the model update runs between the read of the old launch and its start.
  lemma OldModelComesBack(s: State, target: Launch) returns (actions: seq<Action>)
    requires target.model != "" && Begins(s) && !Compatible(s, target)
    ensures Finished(Run(s, target, actions))
    ensures Running(Run(s, target, actions).server, if Ready(s.server.last) then s.server.last else s.cached)
  {
    var before, t := ReadOld(s, target);
    var earlier := t.backend.launch;
    actions := before + [Model(true), Model(true), Backend(true)];
    RunThen(s, target, before, [Model(true), Model(true), Backend(true)]);
    RunThree(t, target, Model(true), Model(true), Backend(true));
    StartedIsRunning(t.server, target, true);
    StartedIsRunning(Started(t.server, target, true), earlier, true);
  }

  // In every interleaving the new model ends up running, if and only if what was there
  // before the two updates is compatible with it.
  lemma ConvergesIff(s: State, target: Launch)
    requires Ready(target) && Begins(s)
    ensures (forall actions :: Finished(Run(s, target, actions)) ==> Running(Run(s, target, actions).server, target))
       <==> Compatible(s, target)
  {
    if Compatible(s, target) {
      forall actions | Finished(Run(s, target, actions)) ensures Running(Run(s, target, actions).server, target) {
        CompatibleIsNeverStale(s, target, actions);
        ConvergesIffNeverStale(s, target, actions);
      }
    } else {
      var actions := OldModelComesBack(s, target);
      var last := if Ready(s.server.last) then s.server.last else s.cached;
      RunningIsUnique(Run(s, target, actions).server, last, target);
      assert Finished(Run(s, target, actions)) && !Running(Run(s, target, actions).server, target);
    }
  }

  // In particular a fresh install converges in every interleaving that is long enough.
  lemma FreshInstallConverges(s: State, target: Launch, actions: seq<Action>)
    requires Ready(target) && Fresh(s) && BackendSteps(actions) >= 9 && ModelSteps(actions) >= 2
    ensures Finished(Run(s, target, actions)) && Running(Run(s, target, actions).server, target)
  {
    EnoughStepsFinish(s, target, actions);
    ConvergesIff(s, target);
  }

  /* The steps of the backend update and its method. */

  function Alone(n: nat): seq<Action> {
    if n == 0 then [] else [Backend(true)] + Alone(n - 1)
  }

  lemma AloneOnce(s: State, target: Launch, n: nat)
    ensures Run(s, target, Alone(n + 1)) == Run(StepBackend(s, true), target, Alone(n))
  {
    assert Alone(n + 1)[1..] == Alone(n);
  }

  // From the read of the last launch on.
  lemma AloneFromRead(s: State, target: Launch)
    requires Valid(s.server) && s.server.disk == Installed && s.backend == ReadLast
    ensures var t := Run(s, target, Alone(4)).server;
      if s.server.last.port != "" && s.server.last.model != "" then Running(t, s.server.last)
      else if s.cached.model != "" then Running(t, s.cached)
      else t == s.server
  {
    var s1 := StepBackend(s, true);
    var s2 := StepBackend(s1, true);
    var s3 := StepBackend(s2, true);
    AloneOnce(s, target, 3);
    AloneOnce(s1, target, 2);
    AloneOnce(s2, target, 1);
    AloneOnce(s3, target, 0);
    StartedIsRunning(s.server, s.server.last, true);
    StartedIsRunning(s.server, s.cached, true);
  }

  // Its steps, with nothing beside them, end as the method does when it installs.
  lemma BackendAlone(s: State, target: Launch)
    requires Begins(s)
    ensures var t := Run(s, target, Alone(if s.server.handle == None then 7 else 8)).server;
      && t.disk == Installed
      && if s.server.last.port != "" && s.server.last.model != "" then Running(t, s.server.last)
         else if s.cached.model != "" then Running(t, s.cached)
         else t.live == map[] && t.last == s.server.last
  {
    var s1 := StepBackend(s, true);
    var s2 := StepBackend(s1, true);
    var s3 := StepBackend(s2, true);
    AloneOnce(s, target, if s.server.handle == None then 6 else 7);
    AloneOnce(s1, target, if s.server.handle == None then 5 else 6);
    AloneOnce(s2, target, if s.server.handle == None then 4 else 5);
    if s.server.handle == None {
      AloneFromRead(s3, target);
    } else {
      AloneOnce(s3, target, 4);
      AloneFromRead(StepBackend(s3, true), target);
    }
  }

  /* The interleaving of OldModelComesBack. */

  lemma {:induction false} RunThen(s: State, target: Launch, first: seq<Action>, rest: seq<Action>)
    ensures Run(s, target, first + rest) == Run(Run(s, target, first), target, rest)
    decreases |first|
  {
    if first == [] {
      assert first + rest == rest;
    } else {
      assert (first + rest)[1..] == first[1..] + rest;
      RunThen(Step(s, target, first[0]), target, first[1..], rest);
    }
  }

  lemma RunOne(s: State, target: Launch, a: Action)
    ensures Run(s, target, [a]) == Step(s, target, a)
  {
    assert [a][1..] == [];
  }

  lemma RunThree(s: State, target: Launch, a: Action, b: Action, c: Action)
    ensures Run(s, target, [a, b, c]) == Step(Step(Step(s, target, a), target, b), target, c)
  {
    RunThen(s, target, [a], [b, c]);
    RunThen(Step(s, target, a), target, [b], [c]);
    RunOne(s, target, a);
    RunOne(Step(s, target, a), target, b);
    RunOne(Step(Step(s, target, a), target, b), target, c);
    assert [a] + [b, c] == [a, b, c] && [b] + [c] == [b, c];
  }

  // One more backend step at the end of a run.
  lemma Extend(s: State, target: Launch, actions: seq<Action>) returns (longer: seq<Action>)
    ensures Run(s, target, longer) == StepBackend(Run(s, target, actions), true)
  {
    longer := actions + [Backend(true)];
    RunThen(s, target, actions, [Backend(true)]);
    RunOne(Run(s, target, actions), target, Backend(true));
  }

  lemma ExtractFirst(s: State, target: Launch) returns (actions: seq<Action>, t: State)
    requires Begins(s)
    ensures t == Run(s, target, actions) && t.backend == ReadLast && t.model == Remember
    ensures Valid(t.server) && t.server.disk == Installed && t.server.last == s.server.last && t.cached == s.cached
  {
    actions := Extend(s, target, []);
    if s.server.handle != None {
      actions := Extend(s, target, actions);
    }
    actions := Extend(s, target, actions);
    actions := Extend(s, target, actions);
    t := Run(s, target, actions);
  }

  // The backend update has read the old launch, the model update is about to begin.
  lemma ReadOld(s: State, target: Launch) returns (actions: seq<Action>, t: State)
    requires Begins(s) && (Ready(s.server.last) || s.cached.model != "")
    ensures t == Run(s, target, actions) && t.model == Remember && Valid(t.server) && t.server.disk == Installed
    ensures t.backend
         == if Ready(s.server.last) then Restarting(s.server.last) else StartCached(s.cached)
  {
    actions, t := ExtractFirst(s, target);
    actions := Extend(s, target, actions);
    if !Ready(s.server.last) {
      actions := Extend(s, target, actions);
      actions := Extend(s, target, actions);
    }
    t := Run(s, target, actions);
  }
}
