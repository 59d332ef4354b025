// The waiting handlers in the form of the source, without interference:
// internal/manager/api/completions.go:82-165, internal/manager/api/batch.go:325-398
// and the work-unit rows of internal/manager/store/store.go:157-200. What other
// goroutines can do in between is the subject of DispatchProtocol.dfy.
module Handlers {
  import Batch
  import opened Queue
  import opened UnitIds

  datatype WorkRow = Dispatched | Completed(processingMs: nat) | Failed(message: string) | TimedOut

  class WorkUnitTable {
    var rows: map<string, WorkRow>

    constructor ()
      ensures rows == map[]
    {
      rows := map[];
    }

    method Record(id: string)
      modifies this
      ensures rows == old(rows)[id := Dispatched]
    {
      rows := rows[id := Dispatched];
    }

    // Each update is for any status the row has, and does nothing without a row.
    method Set(id: string, row: WorkRow)
      modifies this
      ensures rows == Changed(old(rows), id, row)
    {
      if id in rows {
        rows := rows[id := row];
      }
    }
  }

  // A reply that the read loop delivers at some moment, if any.
  datatype Arrival = NoReply | ResultArrives(result: Result) | ErrorArrives(error: ErrorReply)

  datatype Outcome = NotDispatched | Answered(result: Result) | Erred(error: ErrorReply) | Timeout | Stop

  // What ends the wait: the timer, the stop of the batch loop, or neither.
  datatype Signals = Signals(fired: bool, stops: bool)

  // An update of the row, if there is one.
  function Changed(rows: map<string, WorkRow>, id: string, row: WorkRow): map<string, WorkRow> {
    if id in rows then rows[id := row] else rows
  }

  function Results(arrival: Arrival): seq<Result> {
    if arrival.ResultArrives? then [arrival.result] else []
  }

  function Errors(arrival: Arrival): seq<ErrorReply> {
    if arrival.ErrorArrives? then [arrival.error] else []
  }

  // The read loop's side: a reply goes to the unit that waits under this identifier.
  method Deliver(q: UnitQueue, id: string, arrival: Arrival)
    requires q.Valid()
    modifies q`pending
    modifies if id in q.pending then {q.pending[id].resultCh} else {}
    modifies if id in q.pending then {q.pending[id].errorCh} else {}
    ensures q.Valid()
    ensures q.pending == if arrival.NoReply? then old(q.pending) else old(q.pending) - {id}
    ensures id in old(q.pending) ==>
      && old(q.pending[id].resultCh).buffered == Results(arrival)
      && old(q.pending[id].errorCh).buffered == Errors(arrival)
  {
    match arrival
    case NoReply =>
    case ResultArrives(result) =>
      var _ := q.Resolve(id, result);
    case ErrorArrives(error) =>
      var _ := q.Reject(id, error);
  }

  // A late reply, and the cancellation.
  method GiveUp(q: UnitQueue, id: string, late: Arrival)
    requires q.Valid()
    modifies q`pending
    modifies if id in q.pending then {q.pending[id].resultCh} else {}
    modifies if id in q.pending then {q.pending[id].errorCh} else {}
    ensures q.Valid() && q.pending == old(q.pending) - {id}
  {
    Deliver(q, id, late);
    q.Cancel(id);
  }

  // The select, for any choice that Go makes among the ready cases. A late reply comes
  // between that choice and the cancellation.
  method Await(q: UnitQueue, table: WorkUnitTable, id: string, unit: PendingUnit, signals: Signals, late: Arrival)
    returns (outcome: Outcome)
    requires q.Valid() && (id in q.pending ==> q.pending[id] == unit)
    requires forall i :: i in q.pending && i != id ==>
      q.pending[i].resultCh != unit.resultCh && q.pending[i].errorCh != unit.errorCh
    requires unit.resultCh.buffered != [] || unit.errorCh.buffered != [] || signals.fired || signals.stops
    modifies q`pending, table, unit.resultCh, unit.errorCh
    ensures q.Valid() && q.pending == old(q.pending) - {id}
    ensures match outcome
      case NotDispatched => false
      case Answered(result) => old(unit.resultCh.buffered) != [] && result == old(unit.resultCh.buffered)[0]
      case Erred(error) => old(unit.errorCh.buffered) != [] && error == old(unit.errorCh.buffered)[0]
      case Timeout => signals.fired
      case Stop => signals.stops
    ensures table.rows == match outcome
      case NotDispatched => old(table.rows)
      case Answered(result) => Changed(old(table.rows), id, Completed(result.processingMs))
      case Erred(error) => Changed(old(table.rows), id, Failed(error.message))
      case Timeout => Changed(old(table.rows), id, TimedOut)
      case Stop => old(table.rows)
  {
    if {
      case unit.resultCh.buffered != [] =>
        var result := unit.resultCh.Receive();
        table.Set(id, Completed(result.processingMs));
        return Answered(result);
      case unit.errorCh.buffered != [] =>
        var error := unit.errorCh.Receive();
        table.Set(id, Failed(error.message));
        return Erred(error);
      case signals.fired =>
        GiveUp(q, id, late);
        table.Set(id, TimedOut);
        return Timeout;
      case signals.stops =>
        GiveUp(q, id, late);
        return Stop;
    }
  }

  method DeliverAndAwait(
    q: UnitQueue, table: WorkUnitTable, id: string, unit: PendingUnit, early: Arrival, signals: Signals, late: Arrival)
    returns (outcome: Outcome)
    requires q.Valid() && id in q.pending && q.pending[id] == unit
    requires !early.NoReply? || signals.fired || signals.stops
    modifies q`pending, table, unit.resultCh, unit.errorCh
    ensures q.Valid() && q.pending == old(q.pending) - {id}
    ensures match outcome
      case NotDispatched => false
      case Answered(result) => early == ResultArrives(result)
      case Erred(error) => early == ErrorArrives(error)
      case Timeout => signals.fired
      case Stop => signals.stops
    ensures table.rows == match outcome
      case NotDispatched => old(table.rows)
      case Answered(result) => Changed(old(table.rows), id, Completed(result.processingMs))
      case Erred(error) => Changed(old(table.rows), id, Failed(error.message))
      case Timeout => Changed(old(table.rows), id, TimedOut)
      case Stop => old(table.rows)
  {
    Deliver(q, id, early);
    outcome := Await(q, table, id, unit, signals, late);
  }

  lemma OpenedAndClosed<K, V>(m: map<K, V>, k: K, v: V)
    ensures m[k := v] - {k} == m - {k}
  {
  }

  lemma LastRow(rows: map<string, WorkRow>, id: string, row: WorkRow)
    ensures Changed(rows[id := Dispatched], id, row) == rows[id := row]
  {
  }

  // One unit from its slot to the end of the select, with a reply before the select,
  // one between its choice and the cancellation, or none: no slot is left behind, and
  // the row, if there is one, says how the handler returned.
  method Serve(
    q: UnitQueue, table: WorkUnitTable, id: string, dispatched: bool, early: Arrival, signals: Signals, late: Arrival)
    returns (outcome: Outcome)
    requires q.Valid() && (!early.NoReply? || signals.fired || signals.stops)
    modifies q`pending, table
    ensures q.Valid() && q.pending == old(q.pending) - {id}
    ensures match outcome
      case NotDispatched => !dispatched
      case Answered(result) => dispatched && early == ResultArrives(result)
      case Erred(error) => dispatched && early == ErrorArrives(error)
      case Timeout => dispatched && signals.fired
      case Stop => dispatched && signals.stops
    ensures table.rows == match outcome
      case NotDispatched => old(table.rows)
      case Answered(result) => old(table.rows)[id := Completed(result.processingMs)]
      case Erred(error) => old(table.rows)[id := Failed(error.message)]
      case Timeout => old(table.rows)[id := TimedOut]
      case Stop => old(table.rows)[id := Dispatched]
  {
    ghost var before := table.rows;
    var unit := q.Register(id);
    OpenedAndClosed(old(q.pending), id, unit);
    if !dispatched {
      q.Cancel(id);
      return NotDispatched;
    }
    table.Record(id);
    outcome := DeliverAndAwait(q, table, id, unit, early, signals, late);
    LastRow(before, id, TimedOut);
    if outcome.Answered? { LastRow(before, id, Completed(outcome.result.processingMs)); }
    if outcome.Erred? { LastRow(before, id, Failed(outcome.error.message)); }
  }

  // The completions handler: nothing stops its wait but a reply or the timer.
  method Complete(
    q: UnitQueue, table: WorkUnitTable, nowMs: nat, dispatched: bool, early: Arrival, fired: bool, late: Arrival)
    returns (id: string, outcome: Outcome)
    requires q.Valid() && (!early.NoReply? || fired)
    modifies q, table
    ensures q.Valid() && id == UnitId(nowMs, q.counter) && q.pending == old(q.pending) - {id}
    ensures match outcome
      case NotDispatched => !dispatched
      case Answered(result) => dispatched && early == ResultArrives(result)
      case Erred(error) => dispatched && early == ErrorArrives(error)
      case Timeout => dispatched && fired
      case Stop => false
    ensures table.rows == match outcome
      case NotDispatched => old(table.rows)
      case Answered(result) => old(table.rows)[id := Completed(result.processingMs)]
      case Erred(error) => old(table.rows)[id := Failed(error.message)]
      case Timeout => old(table.rows)[id := TimedOut]
      case Stop => old(table.rows)
  {
    id := q.NextID(nowMs);
    outcome := Serve(q, table, id, dispatched, early, Signals(fired, false), late);
  }

  // The batch loop, for the row it has claimed: the work-unit row first, then the
  // batch row, both by the same outcome.
  method ServeBatch(
    q: UnitQueue, table: WorkUnitTable, batch: Batch.BatchStore, row: nat, nowMs: nat, dispatched: bool,
    early: Arrival, signals: Signals, late: Arrival)
    returns (id: string, outcome: Outcome)
    requires q.Valid() && (!early.NoReply? || signals.fired || signals.stops)
    requires row < |batch.rows| && batch.rows[row] == Batch.Status.Processing
    modifies q, table, batch
    ensures q.Valid() && id == UnitId(nowMs, q.counter) && q.pending == old(q.pending) - {id}
    ensures match outcome
      case NotDispatched => !dispatched
      case Answered(result) => dispatched && early == ResultArrives(result)
      case Erred(error) => dispatched && early == ErrorArrives(error)
      case Timeout => dispatched && signals.fired
      case Stop => dispatched && signals.stops
    ensures table.rows == match outcome
      case NotDispatched => old(table.rows)
      case Answered(result) => old(table.rows)[id := Completed(result.processingMs)]
      case Erred(error) => old(table.rows)[id := Failed(error.message)]
      case Timeout => old(table.rows)[id := TimedOut]
      case Stop => old(table.rows)[id := Dispatched]
    ensures batch.rows == old(batch.rows)[row := match outcome
      case Answered(_) => Batch.Status.Completed
      case Stop => Batch.Status.Processing
      case _ => Batch.Status.Failed]
    ensures Batch.Grows(old(batch.rows), batch.rows)
  {
    id := q.NextID(nowMs);
    outcome := Serve(q, table, id, dispatched, early, signals, late);
    match outcome
    case Answered(_) => batch.Complete(row);
    case Stop =>
    case _ => batch.Fail(row);
  }
}
