// The GPU monitor: a rolling window, its statistics, and the contention state
// machine (internal/client/gpu/monitor.go:88-131, 174-190, 244-358).
module GpuMonitor {
  import opened Basics
  import opened Sorting
  import EventChannel

  datatype GpuState = Available | Busy
  datatype StateChange = StateChange(from: GpuState, to: GpuState)

  // A check that was not skipped.
  datatype Sample = Sample(utilization: int, contended: bool, at: int)

  datatype GpuStats = GpuStats(mean: int, baselineMean: int, min: int, max: int, sampleCount: int)

  const WINDOW := 180

  function Max(a: int, b: int): int {
    if a < b then b else a
  }

  function Min(a: int, b: int): int {
    if a < b then a else b
  }

  /* The state machine as a function of the checks so far. */

  datatype Machine = Machine(state: GpuState, since: int)

  function After(m: Machine, x: Sample, delay: int): Machine {
    if x.contended then Machine(Busy, x.at)
    else if m.state == Busy && x.at - m.since >= delay then m.(state := Available)
    else m
  }

  // After the first n checks.
  function MachineAfter(history: seq<Sample>, n: nat, delay: int): Machine
    requires n <= |history|
  {
    if n == 0 then Machine(Available, 0) else After(MachineAfter(history, n - 1, delay), history[n - 1], delay)
  }

  function Change(from: GpuState, to: GpuState): seq<StateChange> {
    if from == to then [] else [StateChange(from, to)]
  }

  // Every state change sent by the first n checks.
  function EventsAfter(history: seq<Sample>, n: nat, delay: int): seq<StateChange>
    requires n <= |history|
  {
    if n == 0 then []
    else
      EventsAfter(history, n - 1, delay)
      + Change(MachineAfter(history, n - 1, delay).state, MachineAfter(history, n, delay).state)
  }

  // None of the first n checks after the i-th was contended or came delay or more after
  // it.
  ghost predicate QuietSince(history: seq<Sample>, n: nat, i: nat, delay: int)
    requires i < n <= |history|
  {
    forall j :: i < j < n ==> !history[j].contended && history[j].at - history[i].at < delay
  }

  ghost predicate LastContention(history: seq<Sample>, n: nat, i: nat, delay: int)
    requires n <= |history|
  {
    i < n && history[i].contended && QuietSince(history, n, i, delay)
  }

  lemma {:induction false} BusySince(history: seq<Sample>, n: nat, delay: int) returns (i: nat)
    requires n <= |history| && MachineAfter(history, n, delay).state == Busy
    ensures LastContention(history, n, i, delay) && MachineAfter(history, n, delay).since == history[i].at
    decreases n
  {
    if history[n - 1].contended {
      i := n - 1;
    } else {
      i := BusySince(history, n - 1, delay);
    }
  }

  lemma {:induction false} ContentionIsBusy(history: seq<Sample>, n: nat, i: nat, delay: int)
    requires n <= |history| && LastContention(history, n, i, delay)
    ensures MachineAfter(history, n, delay) == Machine(Busy, history[i].at)
    decreases n
  {
    if i < n - 1 {
      ContentionIsBusy(history, n - 1, i, delay);
    }
  }

  // Busy exactly when the last contention has not yet been followed by a check that
  // came delay or more after it. Nothing is asked of the clock.
  lemma BusyIff(history: seq<Sample>, delay: int)
    ensures MachineAfter(history, |history|, delay).state == Busy
       <==> exists i: nat :: LastContention(history, |history|, i, delay)
  {
    if MachineAfter(history, |history|, delay).state == Busy {
      var i := BusySince(history, |history|, delay);
    }
    if i: nat :| LastContention(history, |history|, i, delay) {
      ContentionIsBusy(history, |history|, i, delay);
    }
  }

  function StateOfParity(n: nat): GpuState {
    if n % 2 == 0 then Available else Busy
  }

  // The events alternate, starting from "available", and end in the current state.
  lemma {:induction false} EventsAlternate(history: seq<Sample>, n: nat, delay: int)
    requires n <= |history|
    ensures var events := EventsAfter(history, n, delay);
            && MachineAfter(history, n, delay).state == StateOfParity(|events|)
            && forall k :: 0 <= k < |events| ==> events[k] == StateChange(StateOfParity(k), StateOfParity(k + 1))
    decreases n
  {
    if n > 0 {
      EventsAlternate(history, n - 1, delay);
    }
  }

  /* Statistics. */

  function Sum(s: seq<int>): int {
    if s == [] then 0 else Sum(s[..|s| - 1]) + s[|s| - 1]
  }

  lemma {:induction false} SumConcat(s: seq<int>, t: seq<int>)
    ensures Sum(s + t) == Sum(s) + Sum(t)
    decreases |t|
  {
    if t == [] {
      assert s + t == s;
    } else {
      assert (s + t)[..|s + t| - 1] == s + t[..|t| - 1];
      SumConcat(s, t[..|t| - 1]);
    }
  }

  lemma InsertedSum(s: seq<int>, x: int)
    requires Ascending(s)
    ensures Sum(Inserted(s, x)) == Sum(s) + x
  {
    var low, high := s[..Place(s, x)], s[Place(s, x)..];
    assert s == low + high;
    SumConcat(low, high);
    SumConcat(low, [x]);
    SumConcat(low + [x], high);
    assert Sum([x]) == x;
  }

  lemma {:induction false} SortedSum(s: seq<int>)
    ensures Sum(Sorted(s)) == Sum(s)
  {
    if s != [] {
      SortedSum(s[..|s| - 1]);
      InsertedSum(Sorted(s[..|s| - 1]), s[|s| - 1]);
    }
  }

  lemma {:induction false} SumAtLeast(s: seq<int>, low: int)
    requires forall i :: 0 <= i < |s| ==> low <= s[i]
    ensures low * |s| <= Sum(s)
  {
    if s != [] {
      var n := |s| - 1;
      SumAtLeast(s[..n], low);
      assert low * |s| == low * n + low;
    }
  }

  lemma {:induction false} SumAtMost(s: seq<int>, high: int)
    requires forall i :: 0 <= i < |s| ==> s[i] <= high
    ensures Sum(s) <= high * |s|
  {
    if s != [] {
      var n := |s| - 1;
      SumAtMost(s[..n], high);
      assert high * |s| == high * n + high;
    }
  }

  lemma CrossMultiply(low: int, high: int, pivot: int, c: nat, m: nat)
    requires low <= pivot * c && pivot * m <= high
    ensures low * (c + m) <= (low + high) * c
  {
    MulMonotone(low, pivot * c, m);
    MulMonotone(pivot * m, high, c);
    assert pivot * c * m == pivot * m * c;
    assert low * (c + m) == low * c + low * m;
    assert (low + high) * c == low * c + high * c;
  }

  lemma PartsMean(low: seq<int>, high: seq<int>, pivot: int, n: nat, total: int)
    requires forall i :: 0 <= i < |low| ==> low[i] <= pivot
    requires forall i :: 0 <= i < |high| ==> pivot <= high[i]
    requires n == |low| + |high| && total == Sum(low) + Sum(high)
    ensures Sum(low) * n <= total * |low|
  {
    SumAtMost(low, pivot);
    SumAtLeast(high, pivot);
    CrossMultiply(Sum(low), Sum(high), pivot, |low|, |high|);
  }

  // The mean of the lowest c of a sorted sequence is at most the mean of all.
  lemma LowestMean(s: seq<int>, c: nat)
    requires Ascending(s) && 0 < c <= |s|
    ensures Sum(s[..c]) * |s| <= Sum(s) * c
  {
    SumConcat(s[..c], s[c..]);
    assert s == s[..c] + s[c..];
    PartsMean(s[..c], s[c..], s[c - 1], |s|, Sum(s));
  }

  lemma Cancel(x: int, y: int, b: int)
    requires b > 0 && x * b <= y * b
    ensures x <= y
  {
    assert (y - x) * b == y * b - x * b;
  }

  lemma StrictCancel(x: int, y: int, b: int)
    requires b > 0 && x * b < y * b
    ensures x < y
  {
    assert (y - x) * b == y * b - x * b;
  }

  lemma FloorMonotone(a: nat, b: int, c: nat, d: int)
    requires b > 0 && d > 0 && a * d <= c * b
    ensures a / b <= c / d
  {
    var q := a / b;
    MulMonotone(q * b, a, d);
    assert q * b * d == q * d * b;
    Cancel(q * d, c, b);
    FloorAtLeast(q, c, d);
  }

  lemma FloorAtLeast(q: int, c: int, d: int)
    requires d > 0 && q * d <= c
    ensures q <= c / d
  {
    assert (c / d + 1) * d == c / d * d + d;
    StrictCancel(q, c / d + 1, d);
  }

  lemma SignsAgree(a: int, b: int, c: int, d: int)
    requires a >= 0 > c && b > 0 && d > 0
    ensures a * d > c * b
  {
    MulMonotone(0, a, d);
    MulMonotone(c, -1, b);
  }

  // Truncating division keeps the order of fractions.
  lemma QuotientMonotone(a: int, b: int, c: int, d: int)
    requires b > 0 && d > 0 && a * d <= c * b
    ensures Quotient(a, b) <= Quotient(c, d)
  {
    if a >= 0 {
      if c < 0 {
        SignsAgree(a, b, c, d);
      } else {
        FloorMonotone(a, b, c, d);
      }
    } else if c < 0 {
      Negations(a, b, c, d);
      FloorMonotone(-c, d, -a, b);
    } else {
      FloorMonotone(0, b, -a, b);
      FloorMonotone(0, d, c, d);
    }
  }

  lemma Negations(a: int, b: int, c: int, d: int)
    ensures (-a) * d == -(a * d) && (-c) * b == -(c * b)
  {
  }

  ghost predicate Extremes(s: seq<int>, low: int, high: int) {
    low in s && high in s && forall x :: x in s ==> low <= x <= high
  }

  function BaselineCount(n: nat): nat {
    Max(n * 85 / 100, 1)
  }

  // All but the highest 15 percent, but at least one.
  lemma BaselineCountIs(n: nat)
    requires n > 0
    ensures 100 * BaselineCount(n) <= 85 * n < 100 * BaselineCount(n) + 100 || (n == 1 && BaselineCount(n) == 1)
  {
  }

  ghost predicate StatsOf(s: seq<int>, r: GpuStats) {
    if s == [] then r == GpuStats(0, 0, 0, 0, 0)
    else
      && r.sampleCount == |s| && Extremes(s, r.min, r.max)
      && r.mean == Quotient(Sum(s), |s|)
      && BaselineCount(|s|) <= |s|
      && r.baselineMean == Quotient(Sum(Sorted(s)[..BaselineCount(|s|)]), BaselineCount(|s|))
  }

  lemma PermutationWithin(s: seq<int>, t: seq<int>, low: int)
    requires multiset(s) == multiset(t) && forall x :: x in s ==> low <= x
    ensures forall i :: 0 <= i < |t| ==> low <= t[i]
  {
    forall i | 0 <= i < |t| ensures low <= t[i] {
      assert t[i] in multiset(t);
      assert t[i] in multiset(s);
      assert t[i] in s;
    }
  }

  lemma MeansAreOrdered(s: seq<int>, t: seq<int>, c: nat, low: int, high: int)
    requires Ascending(t) && multiset(t) == multiset(s) && |t| == |s| && Sum(t) == Sum(s) && 0 < c <= |t|
    requires Extremes(s, low, high)
    ensures low <= Quotient(Sum(t[..c]), c) <= Quotient(Sum(s), |s|) <= high
  {
    assert low * c <= Sum(t[..c]) by {
      PermutationWithin(s, t, low);
      SumAtLeast(t[..c], low);
    }
    assert Sum(t[..c]) * |s| <= Sum(s) * c by { LowestMean(t, c); }
    assert Sum(s) <= high * |s| by {
      assert forall i :: 0 <= i < |s| ==> s[i] in s;
      SumAtMost(s, high);
    }
    QuotientsAreOrdered(low, Sum(t[..c]), c, Sum(s), |s|, high);
  }

  // For every window, negative readings included.
  lemma StatsAreOrdered(s: seq<int>, r: GpuStats)
    requires StatsOf(s, r)
    ensures r.min <= r.baselineMean <= r.mean <= r.max
  {
    if s != [] {
      SortedPermutes(s);
      SortedSum(s);
      MeansAreOrdered(s, Sorted(s), BaselineCount(|s|), r.min, r.max);
    }
  }

  lemma QuotientsAreOrdered(low: int, part: int, c: nat, total: int, n: nat, high: int)
    requires c > 0 && n > 0 && low * c <= part && part * n <= total * c && total <= high * n
    ensures low <= Quotient(part, c) <= Quotient(total, n) <= high
  {
    QuotientOfOne(low);
    QuotientOfOne(high);
    QuotientMonotone(low, 1, part, c);
    QuotientMonotone(part, c, total, n);
    QuotientMonotone(total, n, high, 1);
  }

  lemma QuotientOfOne(x: int)
    ensures Quotient(x, 1) == x
  {
  }

  /* The monitor in the form of the source. */

  function Utilizations(history: seq<Sample>, n: nat): (r: seq<int>)
    requires n <= |history|
    ensures |r| == n
  {
    if n == 0 then [] else Utilizations(history, n - 1) + [history[n - 1].utilization]
  }

  // The last WINDOW readings, oldest first.
  function Window(history: seq<Sample>): seq<int> {
    LastOnes(Utilizations(history, |history|), WINDOW)
  }

  lemma {:induction false} SamePrefix(history: seq<Sample>, x: Sample, n: nat, delay: int)
    requires n <= |history|
    ensures MachineAfter(history + [x], n, delay) == MachineAfter(history, n, delay)
    ensures EventsAfter(history + [x], n, delay) == EventsAfter(history, n, delay)
    ensures Utilizations(history + [x], n) == Utilizations(history, n)
    decreases n
  {
    if n > 0 { SamePrefix(history, x, n - 1, delay); }
  }

  // What the first checks make of the window, the machine and the events.
  ghost predicate Tells(
    history: seq<Sample>, delay: int, window: seq<int>, machine: Machine, events: seq<StateChange>)
  {
    && window == Window(history) && machine == MachineAfter(history, |history|, delay)
    && events == EventsAfter(history, |history|, delay)
  }

  // The window has the last 180 readings.
  lemma WindowIs(history: seq<Sample>)
    ensures |Window(history)| == if |history| < 180 then |history| else 180
    ensures Utilizations(history, |history|)
         == Utilizations(history, |history|)[..|history| - |Window(history)|] + Window(history)
  {
    LastOnesEnd(Utilizations(history, |history|), WINDOW);
  }

  lemma {:induction false} UtilizationAt(history: seq<Sample>, n: nat, i: nat)
    requires i < n <= |history|
    ensures Utilizations(history, n)[i] == history[i].utilization
    decreases n
  {
    if i < n - 1 { UtilizationAt(history, n - 1, i); }
  }

  lemma TellsOneMore(
    history: seq<Sample>, delay: int, window: seq<int>, machine: Machine, events: seq<StateChange>, x: Sample)
    requires Tells(history, delay, window, machine, events)
    ensures Tells(history + [x], delay, Slid(window, x.utilization), After(machine, x, delay),
                  events + Change(machine.state, After(machine, x, delay).state))
  {
    SamePrefix(history, x, |history|, delay);
    WindowSnoc(history, x);
  }

  // A ring buffer laid out oldest first.
  function Ring(buf: seq<int>, head: nat, full: bool): seq<int>
    requires head < |buf|
  {
    if full then buf[head..] + buf[..head] else buf[..head]
  }

  // A window after one more reading.
  function Slid(window: seq<int>, x: int): seq<int> {
    (if |window| < WINDOW then window else window[1..]) + [x]
  }

  lemma WindowSnoc(history: seq<Sample>, x: Sample)
    ensures Window(history + [x]) == Slid(Window(history), x.utilization)
  {
    var readings := Utilizations(history, |history|);
    SamePrefix(history, x, |history|, 0);
    assert Utilizations(history + [x], |history| + 1) == readings + [x.utilization];
    if |history| >= WINDOW {
      assert (readings + [x.utilization])[|readings| + 1 - WINDOW..]
          == readings[|readings| - WINDOW..][1..] + [x.utilization];
    }
  }

  lemma RingPushInside(buf: seq<int>, head: nat, full: bool, x: int)
    requires head + 1 < |buf|
    ensures Ring(buf[head := x], head + 1, full)
         == (if full then Ring(buf, head, full)[1..] else Ring(buf, head, full)) + [x]
  {
    var after := buf[head := x];
    assert after[..head + 1] == buf[..head] + [x];
    if full {
      var low, high := buf[..head], buf[head + 1..];
      assert after[head + 1..] == high;
      assert buf[head..] == [buf[head]] + high;
      assert ([buf[head]] + high + low)[1..] == high + low;
    }
  }

  lemma RingPushAtEnd(buf: seq<int>, head: nat, full: bool, x: int)
    requires head + 1 == |buf|
    ensures Ring(buf[head := x], 0, true)
         == (if full then Ring(buf, head, full)[1..] else Ring(buf, head, full)) + [x]
  {
    var after, low := buf[head := x], buf[..head];
    assert after == low + [x];
    assert after[0..] + after[..0] == after;
    if full {
      assert buf[head..] == [buf[head]];
      assert ([buf[head]] + low)[1..] == low;
    }
  }

  // The ring holds the window.
  ghost predicate RingHolds(buf: seq<int>, head: nat, full: bool, window: seq<int>) {
    |buf| == WINDOW && head < WINDOW && Ring(buf, head, full) == window
  }

  lemma NextHead(head: nat)
    requires head < WINDOW
    ensures (head + 1) % WINDOW == if head + 1 < WINDOW then head + 1 else 0
  {
  }

  lemma RingRecords(buf: seq<int>, head: nat, full: bool, window: seq<int>, x: int)
    requires RingHolds(buf, head, full, window)
    ensures |window| == if full then WINDOW else head
    ensures RingHolds(buf[head := x], (head + 1) % WINDOW, full || (head + 1) % WINDOW == 0, Slid(window, x))
  {
    NextHead(head);
    if head + 1 < WINDOW {
      RingPushInside(buf, head, full, x);
    } else {
      RingPushAtEnd(buf, head, full, x);
    }
  }

  // The two copies of Stats.
  method LayOut(buf: array<int>, head: nat, full: bool) returns (samples: array<int>)
    requires head < buf.Length
    ensures fresh(samples) && samples[..] == Ring(buf[..], head, full)
  {
    samples := new int[if full then buf.Length else head];
    if full {
      CopyInto(samples, 0, buf[head..]);
      CopyInto(samples, buf.Length - head, buf[..head]);
    } else {
      CopyInto(samples, 0, buf[..head]);
    }
  }

  class Monitor {
    const thresh: int
    const delay: int

    var state: GpuState
    var lastUtilization: int
    var contentionSince: int
    var baseline: int
    var processing: bool

    const buf: array<int>
    var head: nat
    var full: bool

    // The event channel: what is buffered in it, and an event whose send waits for
    // room while the lock is held.
    var buffered: seq<StateChange>
    var waiting: Option<StateChange>
    ghost var drained: seq<StateChange>

    ghost var history: seq<Sample>
    ghost var window: seq<int>

    ghost predicate RingOk()
      reads `head, `full, `history, `window, buf
    {
      buf.Length == WINDOW && RingHolds(buf[..], head, full, window)
    }

    ghost predicate ChannelOk()
      reads `buffered, `waiting
    {
      |buffered| <= EventChannel.CAPACITY && (waiting.Some? ==> |buffered| == EventChannel.CAPACITY)
    }

    ghost function Undrained(): seq<StateChange>
      reads `buffered, `waiting
    {
      buffered + if waiting.Some? then [waiting.value] else []
    }

    // The monitor's part of the step system, with the main loop at the given place.
    ghost function Shared(loop: EventChannel.Loop): EventChannel.State
      reads `processing, `buffered, `waiting
    {
      EventChannel.State(loop, processing, |buffered|, waiting.Some?)
    }

    // While a send waits, nobody else can take the lock.
    predicate LockFree()
      reads `waiting
    {
      waiting.None?
    }

    ghost predicate Valid()
      reads `head, `full, `history, `window, buf, `state, `contentionSince, `buffered, `waiting, `drained
    {
      RingOk() && ChannelOk() && Tells(history, delay, window, Machine(state, contentionSince), drained + Undrained())
    }

    constructor (thresh: int, delay: int)
      ensures Valid() && LockFree() && history == [] && fresh(buf)
      ensures this.thresh == thresh && this.delay == delay && baseline == 0 && !processing
    {
      this.thresh, this.delay := thresh, delay;
      state, lastUtilization, contentionSince, baseline, processing := Available, 0, 0, 0, false;
      buf := new int[WINDOW];
      head, full, history, window := 0, false, [], [];
      buffered, waiting, drained := [], None, [];
    }

    // Above the threshold once the baseline is taken off.
    predicate Contended(utilization: int)
      reads this`baseline
      ensures thresh >= 0 ==> (Contended(utilization) <==> utilization > baseline + thresh)
      ensures thresh < 0 ==> Contended(utilization)
    {
      Max(utilization - baseline, 0) > thresh
    }

    method SetBaseline(pct: int)
      requires Valid() && LockFree()
      modifies this`baseline
      ensures Valid() && baseline == pct
    {
      baseline := pct;
    }

    method SetProcessing(v: bool)
      requires Valid()
      modifies this`processing
      ensures Valid() && processing == v
    {
      processing := v;
    }

    // The largest of the successful readings and 0, plus the headroom, at most 100.
    method CalibrateBaseline(readings: seq<Option<int>>, headroom: int)
      requires Valid() && LockFree()
      modifies this`baseline
      ensures Valid()
      ensures exists top ::
        && baseline == (if top + headroom < 100 then top + headroom else 100)
        && (top == 0 || Some(top) in readings)
        && top >= 0 && forall r :: r in readings && r.Some? ==> r.value <= top
    {
      var maxUtil := 0;
      for i := 0 to |readings|
        invariant maxUtil >= 0 && (maxUtil == 0 || Some(maxUtil) in readings)
        invariant forall j :: 0 <= j < i && readings[j].Some? ==> readings[j].value <= maxUtil
      {
        if readings[i].None? { continue; }
        if readings[i].value > maxUtil {
          maxUtil := readings[i].value;
        }
      }
      baseline := Min(maxUtil + headroom, 100);
      assert forall r :: r in readings && r.Some? ==> r.value <= maxUtil;
    }

    method Record(utilization: int, ghost contended: bool, ghost now: int)
      requires RingOk()
      modifies `head, `full, `history, `window, buf
      ensures RingOk() && window == Slid(old(window), utilization)
      ensures history == old(history) + [Sample(utilization, contended, now)]
    {
      ghost var before := buf[..];
      RingRecords(before, head, full, window, utilization);
      window := Slid(window, utilization);
      buf[head] := utilization;
      assert buf[..] == before[head := utilization];
      head := (head + 1) % WINDOW;
      if head == 0 {
        full := true;
      }
      history := history + [Sample(utilization, contended, now)];
    }

    // A send on the channel, which waits if the channel is full.
    method Send(event: StateChange)
      requires ChannelOk() && LockFree()
      modifies `buffered, `waiting
      ensures ChannelOk() && Undrained() == old(Undrained()) + [event]
      ensures LockFree() <==> |old(buffered)| < EventChannel.CAPACITY
    {
      if |buffered| < EventChannel.CAPACITY {
        buffered := buffered + [event];
      } else {
        waiting := Some(event);
      }
    }

    // The worker's main loop takes the oldest event; a waiting one moves up.
    method Receive() returns (event: StateChange)
      requires Valid() && buffered != []
      modifies `buffered, `waiting, `drained
      ensures Valid() && LockFree() && drained == old(drained) + [event]
      ensures [event] + Undrained() == old(Undrained())
      ensures Shared(EventChannel.Selecting)
           == EventChannel.Step(old(Shared(EventChannel.Selecting)), EventChannel.Receive)
    {
      event := buffered[0];
      assert drained + Undrained() == drained + [event] + Undrained()[1..];
      drained := drained + [event];
      buffered := buffered[1..];
      if waiting.Some? {
        buffered := buffered + [waiting.value];
        waiting := None;
      }
    }

    method Advance(contention: bool, now: int)
      requires ChannelOk() && LockFree()
      modifies this`state, this`contentionSince, `buffered, `waiting
      ensures ChannelOk()
      ensures Machine(state, contentionSince)
           == After(old(Machine(state, contentionSince)), Sample(lastUtilization, contention, now), delay)
      ensures Undrained() == old(Undrained()) + Change(old(state), state)
      ensures LockFree() <==> state == old(state) || |old(buffered)| < EventChannel.CAPACITY
    {
      match state
      case Available =>
        if contention {
          state := Busy;
          contentionSince := now;
          Send(StateChange(Available, Busy));
        }
      case Busy =>
        if contention {
          contentionSince := now;
        } else if now - contentionSince >= delay {
          state := Available;
          Send(StateChange(Busy, Available));
        }
    }

    // A check without a reading changes nothing; one during processing only the last
    // reading; every other one adds a sample, which by Valid determines the rest. It
    // ends with the lock still held exactly if it has changed the state and found the
    // channel full.
    method Check(reading: Option<int>, now: int)
      requires Valid() && LockFree()
      modifies `lastUtilization, `head, `full, `history, `window, buf, `state, `contentionSince, `buffered, `waiting
      ensures Valid() && baseline == old(baseline) && processing == old(processing) && drained == old(drained)
      ensures lastUtilization == if reading.Some? then reading.value else old(lastUtilization)
      ensures reading.Some? && !processing ==>
        history == old(history) + [Sample(reading.value, old(Contended(reading.value)), now)]
      ensures reading.None? || processing ==>
        && unchanged(buf) && unchanged(`head, `full, `history, `state, `contentionSince, `buffered, `waiting)
      ensures LockFree() <==> state == old(state) || |old(buffered)| < EventChannel.CAPACITY
      ensures forall loop ::
        Shared(loop) == EventChannel.Step(old(Shared(loop)), EventChannel.Check(state != old(state)))
    {
      if reading.None? {
        return;
      }
      if processing {
        lastUtilization := reading.value;
        return;
      }
      Evaluate(reading.value, now);
    }

    // A check's writes, without what they mean for the history.
    method Apply(utilization: int, now: int, ghost x: Sample)
      requires RingOk() && ChannelOk() && LockFree() && x == Sample(utilization, Contended(utilization), now)
      modifies `lastUtilization, `head, `full, `history, `window, buf, `state, `contentionSince, `buffered, `waiting
      ensures RingOk() && ChannelOk() && lastUtilization == utilization
      ensures history == old(history) + [x] && window == Slid(old(window), utilization)
      ensures Machine(state, contentionSince) == After(old(Machine(state, contentionSince)), x, delay)
      ensures Undrained() == old(Undrained()) + Change(old(state), state)
      ensures LockFree() <==> state == old(state) || |old(buffered)| < EventChannel.CAPACITY
    {
      lastUtilization := utilization;
      var contention := Contended(utilization);
      Record(utilization, contention, now);
      Advance(contention, now);
    }

    method Evaluate(utilization: int, now: int)
      requires Valid() && LockFree()
      modifies `lastUtilization, `head, `full, `history, `window, buf, `state, `contentionSince, `buffered, `waiting
      ensures Valid() && lastUtilization == utilization
      ensures history == old(history) + [Sample(utilization, Contended(utilization), now)]
      ensures Undrained() == old(Undrained()) + Change(old(state), state)
      ensures LockFree() <==> state == old(state) || |old(buffered)| < EventChannel.CAPACITY
    {
      ghost var x := Sample(utilization, Contended(utilization), now);
      ghost var events := Undrained();
      TellsOneMore(history, delay, window, Machine(state, contentionSince), drained + events, x);
      Apply(utilization, now, x);
      assert drained + (events + Change(old(state), state)) == drained + events + Change(old(state), state);
    }

    method Stats() returns (r: GpuStats)
      requires Valid() && LockFree()
      ensures StatsOf(Window(history), r)
      ensures r.min <= r.baselineMean <= r.mean <= r.max
    {
      var samples := LayOut(buf, head, full);
      var size := samples.Length;
      if size == 0 {
        return GpuStats(0, 0, 0, 0, 0);
      }
      var mn, mx, total := Summary(samples[..]);
      var sorted := Sorted(samples[..]);
      var cutoff := Max(size * 85 / 100, 1);
      var baseTotal := LowestSum(sorted, cutoff);
      r := GpuStats(Quotient(total, size), Quotient(baseTotal, cutoff), mn, mx, size);
      StatsAreOrdered(Window(history), r);
    }
  }

  method LowestSum(sorted: seq<int>, cutoff: nat) returns (total: int)
    requires cutoff <= |sorted|
    ensures total == Sum(sorted[..cutoff])
  {
    total := 0;
    for i := 0 to cutoff
      invariant total == Sum(sorted[..i])
    {
      assert sorted[..i + 1][..i] == sorted[..i];
      total := total + sorted[i];
    }
  }

  method Summary(samples: seq<int>) returns (mn: int, mx: int, total: int)
    requires samples != []
    ensures Extremes(samples, mn, mx) && total == Sum(samples)
  {
    mn, mx, total := samples[0], samples[0], 0;
    for i := 0 to |samples|
      invariant total == Sum(samples[..i])
      invariant mn in samples && mx in samples
      invariant forall j :: 0 <= j < i ==> mn <= samples[j] <= mx
    {
      var v := samples[i];
      assert samples[..i + 1][..i] == samples[..i];
      total := total + v;
      if v < mn { mn := v; }
      if v > mx { mx := v; }
    }
    assert samples[..|samples|] == samples;
  }
}
