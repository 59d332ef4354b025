// The in-memory work-unit queue: internal/manager/queue/queue.go.
//
// Every method body runs under the queue's lock, except the final send of
// Resolve and Reject. What the separation of the two allows other goroutines to
// do in between is the subject of DispatchProtocol.dfy.
module Queue {
  import opened UnitIds

  datatype Result = Result(id: string, processingMs: nat)
  datatype ErrorReply = ErrorReply(id: string, message: string)

  const COUNTER_LIMIT: int := 0x1_0000_0000_0000_0000

  // A buffered Go channel. Sending on a full one blocks, so there Send has no
  // caller.
  class Channel<T> {
    const capacity: nat
    var buffered: seq<T>

    constructor (capacity: nat)
      ensures this.capacity == capacity && buffered == []
    {
      this.capacity := capacity;
      buffered := [];
    }

    method Send(v: T)
      requires |buffered| < capacity
      modifies this
      ensures buffered == old(buffered) + [v]
    {
      buffered := buffered + [v];
    }

    method Receive() returns (v: T)
      requires buffered != []
      modifies this
      ensures [v] + buffered == old(buffered)
    {
      v := buffered[0];
      buffered := buffered[1..];
    }
  }

  class PendingUnit {
    const resultCh: Channel<Result>
    const errorCh: Channel<ErrorReply>

    constructor ()
      ensures fresh(resultCh) && fresh(errorCh)
      ensures resultCh.capacity == 1 && resultCh.buffered == []
      ensures errorCh.capacity == 1 && errorCh.buffered == []
    {
      resultCh := new Channel(1);
      errorCh := new Channel(1);
    }
  }

  class UnitQueue {
    var pending: map<string, PendingUnit>
    var counter: nat

    // Nothing has been sent to a unit that is still pending, and no two pending
    // units share a channel.
    ghost predicate Valid()
      reads this
      reads set id | id in pending :: pending[id].resultCh
      reads set id | id in pending :: pending[id].errorCh
    {
      && counter < COUNTER_LIMIT
      && (forall id | id in pending ::
            && pending[id].resultCh.capacity == 1 && pending[id].resultCh.buffered == []
            && pending[id].errorCh.capacity == 1 && pending[id].errorCh.buffered == [])
      && forall id, id' | id in pending && id' in pending && id != id' ::
           pending[id].resultCh != pending[id'].resultCh && pending[id].errorCh != pending[id'].errorCh
    }

    constructor ()
      ensures Valid() && pending == map[] && counter == 0
    {
      pending := map[];
      counter := 0;
    }

    method NextID(nowMs: nat) returns (id: string)
      requires Valid()
      modifies this`counter
      ensures Valid() && counter == if old(counter) == 0xffff_ffff_ffff_ffff then 0 else old(counter) + 1
      ensures id == UnitId(nowMs, counter)
    {
      counter := (counter + 1) % COUNTER_LIMIT;
      id := UnitId(nowMs, counter);
    }

    method Register(id: string) returns (unit: PendingUnit)
      requires Valid()
      modifies this`pending
      ensures Valid() && pending == old(pending)[id := unit]
      ensures fresh(unit) && fresh(unit.resultCh) && fresh(unit.errorCh)
      ensures unit.resultCh.buffered == [] && unit.errorCh.buffered == []
    {
      unit := new PendingUnit();
      pending := pending[id := unit];
    }

    method Resolve(id: string, result: Result) returns (delivered: bool)
      requires Valid()
      modifies this`pending
      modifies if id in pending then {pending[id].resultCh} else {}
      ensures Valid() && pending == old(pending) - {id}
      ensures delivered == (id in old(pending))
      ensures delivered ==> old(pending[id].resultCh).buffered == [result]
    {
      if id !in pending {
        return false;
      }
      var unit := pending[id];
      pending := pending - {id};
      unit.resultCh.Send(result);
      return true;
    }

    method Reject(id: string, err: ErrorReply) returns (delivered: bool)
      requires Valid()
      modifies this`pending
      modifies if id in pending then {pending[id].errorCh} else {}
      ensures Valid() && pending == old(pending) - {id}
      ensures delivered == (id in old(pending))
      ensures delivered ==> old(pending[id].errorCh).buffered == [err]
    {
      if id !in pending {
        return false;
      }
      var unit := pending[id];
      pending := pending - {id};
      unit.errorCh.Send(err);
      return true;
    }

    method Cancel(id: string)
      requires Valid()
      modifies this`pending
      ensures Valid() && pending == old(pending) - {id}
    {
      pending := pending - {id};
    }
  }
}
