// The connection registry and the dispatcher:
// internal/manager/gateway/websocket.go.
//
// Each method is one critical section of the gateway's lock, so Valid and the
// methods' contracts hold in every run of connects, reconnects and exits.
module Gateway {
  import opened Basics
  import opened Store

  class Conn {
    const fingerprint: string
    var closed: bool
    var written: seq<string>  // the units sent, in order

    constructor (fingerprint: string)
      ensures this.fingerprint == fingerprint && !closed && written == []
    {
      this.fingerprint := fingerprint;
      closed, written := false, [];
    }
  }

  // The connection of fp that was registered last.
  ghost function Latest(registered: seq<Conn>, fp: string): Option<Conn> {
    if registered == [] then None
    else
      var last := registered[|registered| - 1];
      if last.fingerprint == fp then Some(last) else Latest(registered[..|registered| - 1], fp)
  }

  lemma LatestIsRegistered(registered: seq<Conn>, fp: string)
    ensures var c := Latest(registered, fp); c.Some? ==> c.value in registered && c.value.fingerprint == fp
    ensures Latest(registered, fp).None? ==> forall c | c in registered :: c.fingerprint != fp
  {
  }

  class Gateway {
    var workers: map<string, Conn>
    var knownKeys: map<string, string>
    const store: Store

    // What happened so far: registrations in order, and finished read loops.
    ghost var registered: seq<Conn>
    ghost var exited: set<Conn>

    // workers[fp] is the connection of fp registered last, if its read loop has
    // not finished; every other connection ever registered is closed.
    ghost predicate Valid()
      reads this, registered
    {
      && (forall fp ::
            (fp in workers <==> Latest(registered, fp).Some? && Latest(registered, fp).value !in exited))
      && (forall fp | fp in workers :: Latest(registered, fp) == Some(workers[fp]))
      && (forall c | c in registered && Some(c) != Latest(registered, c.fingerprint) :: c.closed)
      && (forall c | c in exited :: c in registered && c.closed)
    }

    constructor (store: Store)
      ensures Valid() && workers == map[] && knownKeys == map[] && registered == [] && this.store == store
    {
      workers, knownKeys, registered, exited := map[], map[], [], {};
      this.store := store;
    }

    // A fingerprint is bound to the first key it shows, for good.
    method VerifyOrRegisterKey(fp: string, key: string) returns (ok: bool)
      modifies this`knownKeys
      ensures ok <==> fp in knownKeys && knownKeys[fp] == key
      ensures fp in knownKeys && forall f | f in old(knownKeys) :: f in knownKeys && knownKeys[f] == old(knownKeys)[f]
      ensures forall f | f in knownKeys && f != fp :: f in old(knownKeys)
    {
      if fp !in knownKeys {
        knownKeys := knownKeys[fp := key];
        return true;
      }
      return knownKeys[fp] == key;
    }

    method Register(wc: Conn)
      requires Valid() && wc !in registered
      modifies this`workers, this`registered
      modifies if wc.fingerprint in workers then {workers[wc.fingerprint]} else {}
      ensures Valid() && registered == old(registered) + [wc]
      ensures workers == old(workers)[wc.fingerprint := wc]
      ensures wc.fingerprint in old(workers) ==> old(workers)[wc.fingerprint].closed
    {
      var fp := wc.fingerprint;
      LatestIsRegistered(registered, fp);
      if fp in workers {
        workers[fp].closed := true;
      }
      workers := workers[fp := wc];
      ghost var before := registered;
      registered := registered + [wc];
      assert registered[..|registered| - 1] == before;
      forall f | f != fp
        ensures Latest(registered, f) == Latest(before, f)
      {
      }
      assert Latest(registered, fp) == Some(wc);
    }

    // The worker is connected, and its row says that it is not.
    ghost predicate ShownOffline(fp: string)
      reads `workers, store
    {
      fp in workers && fp in store.workers && store.workers[fp].status == OFFLINE
    }

    // The registry's part of an exit.
    method Evict(wc: Conn)
      requires Valid() && wc in registered && wc !in exited
      modifies this`workers, this`exited, wc`closed
      ensures Valid() && exited == old(exited) + {wc}
      ensures workers == if Latest(registered, wc.fingerprint) == Some(wc) then old(workers) - {wc.fingerprint} else old(workers)
    {
      forall fp
        ensures Latest(registered, fp) == Some(wc) ==> fp == wc.fingerprint
      {
        LatestIsRegistered(registered, fp);
      }
      if wc.fingerprint in workers && workers[wc.fingerprint] == wc {
        workers := workers - {wc.fingerprint};
      }
      wc.closed := true;
      exited := exited + {wc};
    }

    // The deferred exit of a read loop. The status write is unconditional: the
    // exit of a superseded connection also marks its worker offline.
    method ExitReadLoop(wc: Conn)
      requires Valid() && wc in registered && wc !in exited
      modifies this`workers, this`exited, wc`closed, store`workers
      ensures Valid() && exited == old(exited) + {wc}
      ensures workers == if Latest(registered, wc.fingerprint) == Some(wc) then old(workers) - {wc.fingerprint} else old(workers)
      ensures store.workers == Update(old(store.workers), wc.fingerprint, NOT_DELETED, OFFLINE)
      ensures wc.fingerprint in old(store.workers) && old(store.workers)[wc.fingerprint].status != DELETED ==>
                (ShownOffline(wc.fingerprint) <==>
                  wc.fingerprint in old(workers) && old(workers)[wc.fingerprint] != wc)
    {
      Evict(wc);
      store.SetWorkerOffline(wc.fingerprint);
    }

    // What a worker has to be for a unit to be written to it.
    ghost predicate Eligible(fp: string, forced: bool, unreachable: set<Conn>)
      reads this, store
    {
      && fp in workers && workers[fp] !in unreachable
      && Consented(store.consents, fp)
      && (forced || Available(store.workers, fp))
    }

    // Dispatch, and DispatchForced when forced is set. The order in which Go
    // visits the map is arbitrary; writes to the connections in unreachable fail.
    method Dispatch(unit: string, forced: bool, unreachable: set<Conn>) returns (to: Option<string>)
      requires Valid()
      modifies set fp | fp in workers :: workers[fp]`written
      ensures to.None? <==> forall fp :: !Eligible(fp, forced, unreachable)
      ensures to.Some? ==>
                && Eligible(to.value, forced, unreachable)
                && workers[to.value].written == old(workers[to.value].written) + [unit]
                && to.value in store.consents && store.consents[to.value] == true
      ensures to.Some? && !forced ==>
                && to.value in store.workers && store.workers[to.value].syncStatus == "synced"
                && store.workers[to.value].status in {"available", "online"}
      ensures to.None? ==> forall fp ::
                (fp in workers && workers[fp] !in unreachable && fp in store.consents && store.consents[fp] == true) ==>
                !forced && (fp in store.workers ==>
                  store.workers[fp].status !in {"available", "online"} || store.workers[fp].syncStatus != "synced")
      ensures forall fp | fp in workers && to != Some(fp) :: workers[fp].written == old(workers[fp].written)
      ensures Valid()
    {
      var left := workers.Keys;
      while left != {}
        invariant left <= workers.Keys
        invariant forall fp | fp in workers && fp !in left :: !Eligible(fp, forced, unreachable)
        invariant forall fp | fp in workers :: workers[fp].written == old(workers[fp].written)
      {
        var fp :| fp in left;
        left := left - {fp};
        var consented := store.HasConsent(fp);
        if !consented {
          continue;
        }
        if !forced {
          var available := store.IsWorkerAvailable(fp);
          if !available {
            continue;
          }
        }
        if workers[fp] in unreachable {
          continue;
        }
        LatestIsRegistered(registered, fp);
        workers[fp].written := workers[fp].written + [unit];
        forall other | other in workers && other != fp
          ensures workers[other] != workers[fp]
        {
          LatestIsRegistered(registered, other);
        }
        assert Eligible(fp, forced, unreachable);
        return Some(fp);
      }
      return None;
    }
  }
}
