// Whether the status rows agree with the live registry
// (internal/manager/gateway/websocket.go:184-233, 345-357): connection set-ups and
// read-loop exits of one worker, interleaved.
//
// One action is one critical section of the registry or one SQL statement. An action
// that is not enabled changes nothing.
module Registry {
  import opened Store

  // Where a connection is: in the set-up after it was registered, in its read loop,
  // or in the deferred exit of that.
  datatype Stage = Registered | Recorded | Reading | Evicted | Gone

  datatype Conn = Conn(fingerprint: string, stage: Stage)

  datatype State = State(registry: map<string, nat>, conns: map<nat, Conn>, rows: Workers)

  datatype Action =
    | Connect(c: nat, fp: string)
    | Upsert(c: nat)
    | MarkOnline(c: nat)
    | Evict(c: nat)
    | WriteOffline(c: nat)
    | OtherWrite(fp: string, status: string)   // by anything else, never "offline"

  predicate At(s: State, c: nat, stage: Stage) {
    c in s.conns && s.conns[c].stage == stage
  }

  function Moved(s: State, c: nat, stage: Stage): State
    requires c in s.conns
  {
    s.(conns := s.conns[c := s.conns[c].(stage := stage)])
  }

  function EvictStep(s: State, c: nat): State
    requires c in s.conns
  {
    var fp := s.conns[c].fingerprint;
    Moved(s, c, Evicted).(registry := if fp in s.registry && s.registry[fp] == c then s.registry - {fp} else s.registry)
  }

  function Step(s: State, a: Action): State {
    match a
    case Connect(c, fp) =>
      if c in s.conns then s
      else s.(registry := s.registry[fp := c], conns := s.conns[c := Conn(fp, Registered)])
    case Upsert(c) =>
      if !At(s, c, Registered) then s
      else Moved(s, c, Recorded).(rows := Upserted(s.rows, s.conns[c].fingerprint))
    case MarkOnline(c) =>
      if !At(s, c, Recorded) then s
      else Moved(s, c, Reading).(rows := Update(s.rows, s.conns[c].fingerprint, NOT_WITHDRAWN, ONLINE))
    case Evict(c) =>
      if !At(s, c, Reading) then s else EvictStep(s, c)
    case WriteOffline(c) =>
      if !At(s, c, Evicted) then s
      else Moved(s, c, Gone).(rows := Update(s.rows, s.conns[c].fingerprint, NOT_DELETED, OFFLINE))
    case OtherWrite(fp, status) =>
      if status == OFFLINE then s else s.(rows := Update(s.rows, fp, ANY, status))
  }

  function Run(s: State, actions: seq<Action>): State
    decreases |actions|
  {
    if actions == [] then s else Run(Step(s, actions[0]), actions[1..])
  }

  // The registered connection of fp is in its read loop.
  predicate Serving(s: State, fp: string) {
    fp in s.registry && At(s, s.registry[fp], Reading)
  }

  // The worker is connected and its row says that it is not.
  predicate Hidden(s: State, fp: string) {
    Serving(s, fp) && fp in s.rows && s.rows[fp].status == OFFLINE
  }

  // An exit writes "offline" while another connection of its worker is serving. Who
  // writes can look this up just before.
  predicate Hides(s: State, a: Action) {
    && a.WriteOffline? && At(s, a.c, Evicted)
    && var fp := s.conns[a.c].fingerprint;
       Serving(s, fp) && fp in s.rows && s.rows[fp].status != DELETED
  }

  ghost predicate NeverHidden(s: State, actions: seq<Action>)
    decreases |actions|
  {
    (forall fp :: !Hidden(s, fp)) && (actions == [] || NeverHidden(Step(s, actions[0]), actions[1..]))
  }

  ghost predicate NeverHides(s: State, actions: seq<Action>)
    decreases |actions|
  {
    actions == [] || (!Hides(s, actions[0]) && NeverHides(Step(s, actions[0]), actions[1..]))
  }

  ghost predicate Initial(s: State) {
    s.registry == map[] && s.conns == map[]
  }

  // The registered connections have not left; who has been upserted has a row.
  ghost predicate Shape(s: State) {
    && (forall fp :: fp in s.registry ==>
          && s.registry[fp] in s.conns && s.conns[s.registry[fp]].fingerprint == fp
          && !s.conns[s.registry[fp]].stage.Evicted? && !s.conns[s.registry[fp]].stage.Gone?)
    && (forall c :: c in s.conns && !s.conns[c].stage.Registered? ==> s.conns[c].fingerprint in s.rows)
  }

  lemma StepKeepsShape(s: State, a: Action)
    requires Shape(s)
    ensures Shape(Step(s, a))
  {
  }

  // For every step in every state: which connection of a worker is registered changes
  // only by a new registration, or by the eviction of that very connection.
  lemma RegisteredChangesOnlyThere(s: State, a: Action, fp: string, c: nat)
    requires Shape(s)
    ensures fp in Step(s, a).registry && Step(s, a).registry[fp] == c <==>
      || (a == Connect(c, fp) && c !in s.conns)
      || (&& fp in s.registry && s.registry[fp] == c
          && !(a.Connect? && a.fp == fp && a.c !in s.conns) && !(a == Evict(c) && At(s, c, Reading)))
  {
  }

  lemma HiddenBy(s: State, a: Action, fp: string)
    requires Shape(s) && Hidden(Step(s, a), fp) && !Hidden(s, fp)
    ensures Hides(s, a)
  {
  }

  // A step hides a row exactly when it is such a write.
  lemma HiddenAfter(s: State, a: Action)
    requires Shape(s) && forall fp :: !Hidden(s, fp)
    ensures (exists fp :: Hidden(Step(s, a), fp)) <==> Hides(s, a)
  {
    if Hides(s, a) {
      assert Hidden(Step(s, a), s.conns[a.c].fingerprint);
    }
    forall fp | Hidden(Step(s, a), fp) ensures Hides(s, a) {
      HiddenBy(s, a, fp);
    }
  }

  lemma {:induction false} HiddenIffHides(s: State, actions: seq<Action>)
    requires Shape(s) && forall fp :: !Hidden(s, fp)
    ensures NeverHidden(s, actions) <==> NeverHides(s, actions)
    decreases |actions|
  {
    if actions != [] {
      StepKeepsShape(s, actions[0]);
      HiddenAfter(s, actions[0]);
      if !Hides(s, actions[0]) {
        HiddenIffHides(Step(s, actions[0]), actions[1..]);
      } else {
        assert exists fp :: Hidden(Step(s, actions[0]), fp);
        assert !NeverHidden(Step(s, actions[0]), actions[1..]);
      }
    }
  }

  /* Main results. */

  // In every interleaving: no connected worker is ever shown as offline if and only if
  // no exit writes its status while another connection of the worker is serving.
  lemma AgreementIff(s: State, actions: seq<Action>)
    requires Initial(s)
    ensures NeverHidden(s, actions) <==> NeverHides(s, actions)
  {
    HiddenIffHides(s, actions);
  }

  lemma RunSplit(s: State, first: seq<Action>, rest: seq<Action>)
    ensures Run(s, first + rest) == Run(Run(s, first), rest)
    decreases |first|
  {
    if first == [] {
      assert first + rest == rest;
    } else {
      assert (first + rest)[1..] == first[1..] + rest;
      RunSplit(Step(s, first[0]), first[1..], rest);
    }
  }

  function SetUp(c: nat, fp: string): seq<Action> {
    [Connect(c, fp), Upsert(c), MarkOnline(c)]
  }

  lemma SetUpServes(s: State, c: nat, fp: string)
    requires c !in s.conns
    ensures var t := Run(s, SetUp(c, fp));
      && t.registry == s.registry[fp := c] && t.conns == s.conns[c := Conn(fp, Reading)]
      && t.rows == Update(Upserted(s.rows, fp), fp, NOT_WITHDRAWN, ONLINE)
  {
    var s1 := Step(s, Connect(c, fp));
    var s2 := Step(s1, Upsert(c));
    var s3 := Step(s2, MarkOnline(c));
    var rest := [Upsert(c), MarkOnline(c)];
    assert SetUp(c, fp)[1..] == rest && rest[1..] == [MarkOnline(c)] && [MarkOnline(c)][1..] == [];
    assert Run(s2, [MarkOnline(c)]) == Run(s3, []);
    assert Run(s1, rest) == Run(s2, [MarkOnline(c)]);
    assert s3.conns == s.conns[c := Conn(fp, Reading)];
  }

  lemma ExitHides(s: State, c: nat)
    requires At(s, c, Reading) && Serving(s, s.conns[c].fingerprint) && s.registry[s.conns[c].fingerprint] != c
    requires s.conns[c].fingerprint in s.rows && s.rows[s.conns[c].fingerprint].status != DELETED
    ensures Hidden(Run(s, [Evict(c), WriteOffline(c)]), s.conns[c].fingerprint)
  {
    var t := Step(s, Evict(c));
    assert [Evict(c), WriteOffline(c)][1..] == [WriteOffline(c)] && [WriteOffline(c)][1..] == [];
    assert Run(t, [WriteOffline(c)]) == Run(Step(t, WriteOffline(c)), []);
  }

  // The input: a reconnect whose old read loop exits last, whatever the row was.
  lemma ReconnectHidesWorker(s: State, fp: string)
    requires Initial(s)
    ensures Hidden(Run(s, SetUp(0, fp) + (SetUp(1, fp) + [Evict(0), WriteOffline(0)])), fp)
  {
    var exit := [Evict(0), WriteOffline(0)];
    RunSplit(s, SetUp(0, fp), SetUp(1, fp) + exit);
    SetUpServes(s, 0, fp);
    var t := Run(s, SetUp(0, fp));
    RunSplit(t, SetUp(1, fp), exit);
    SetUpServes(t, 1, fp);
    ExitHides(Run(t, SetUp(1, fp)), 0);
  }
}
