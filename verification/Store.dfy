// The worker and consent tables: internal/manager/store/store.go.
//
// A table is a map from fingerprint to row, and one method is one SQL statement,
// so it is atomic; what several of them do together is in Consent.dfy.
module Store {
  datatype Worker = Worker(status: string, syncStatus: string, llmHash: string)
  datatype RoleModel = RoleModel(role: string, fileHash: string)

  type Workers = map<string, Worker>

  const ONLINE := "online"
  const OFFLINE := "offline"
  const AVAILABLE := "available"
  const PROCESSING := "processing"
  const WITHDRAWN := "withdrawn"
  const DELETED := "deleted"
  const SYNCED := "synced"
  const OUT_OF_SYNC := "out-of-sync"

  // UPDATE workers SET status = ... WHERE fingerprint = ... AND <guard>
  function Update(workers: Workers, fp: string, guard: string -> bool, status: string): Workers {
    if fp in workers && guard(workers[fp].status) then workers[fp := workers[fp].(status := status)] else workers
  }

  const ANY: string -> bool := _ => true
  const NOT_WITHDRAWN: string -> bool := st => st != WITHDRAWN
  const NOT_DELETED: string -> bool := st => st != DELETED
  const IS_PROCESSING: string -> bool := st => st == PROCESSING
  const IS_WITHDRAWN: string -> bool := st => st == WITHDRAWN

  // A new row starts online and out of sync; an existing one keeps its status.
  function Upserted(workers: Workers, fp: string): Workers {
    if fp in workers then workers else workers[fp := Worker(ONLINE, OUT_OF_SYNC, "")]
  }

  predicate Available(workers: Workers, fp: string) {
    fp in workers && workers[fp].status in {AVAILABLE, ONLINE} && workers[fp].syncStatus == SYNCED
  }

  predicate Consented(consents: map<string, bool>, fp: string) {
    fp in consents && consents[fp]
  }

  datatype SyncResult = Synced | OutOfSync | Panicked

  // A worker is in sync when its role enforces no model, or when its hash is the
  // one of any role that has a model.
  ghost predicate InSync(role: string, llmHash: string, models: seq<RoleModel>, hash: (string, string) -> string) {
    || (exists m | m in models :: m.role == role && m.fileHash == "")
    || (llmHash != "" && exists m | m in models :: m.fileHash != "" && llmHash == hash(m.role, m.fileHash))
  }

  // The debug message about a worker out of sync cuts its fingerprint to 8 and its
  // hash to 16 characters.
  ghost predicate SyncPanics(
    fp: string, role: string, llmHash: string, models: seq<RoleModel>, hash: (string, string) -> string)
  {
    !InSync(role, llmHash, models, hash) && llmHash != "" && (|fp| < 8 || |llmHash| < 16)
  }

  // The input: a hash of three characters, from any worker that it leaves out of sync.
  lemma ShortHashPanics(
    fp: string, role: string, models: seq<RoleModel>, hash: (string, string) -> string)
    requires forall m :: m in models ==> (m.role == role ==> m.fileHash != "") && hash(m.role, m.fileHash) != "abc"
    ensures SyncPanics(fp, role, "abc", models, hash)
  {
  }

  function Role(preferredRole: map<string, string>, fp: string): string {
    if fp in preferredRole && preferredRole[fp] != "" then preferredRole[fp] else "inference"
  }

  // No two rows of the role table have the same role.
  ghost predicate UniqueRoles(models: seq<RoleModel>) {
    forall i, j | 0 <= i < |models| && 0 <= j < |models| && models[i].role == models[j].role :: i == j
  }

  class Store {
    var workers: Workers
    var consents: map<string, bool>
    var preferredRole: map<string, string>
    var roleModels: seq<RoleModel>

    constructor ()
      ensures workers == map[] && consents == map[]
    {
      workers, consents, preferredRole, roleModels := map[], map[], map[], [];
    }

    method UpsertWorker(fp: string)
      modifies this`workers
      ensures workers == Upserted(old(workers), fp)
      ensures fp in old(workers) ==> workers == old(workers)
      ensures fp !in old(workers) ==> workers == old(workers)[fp := Worker("online", "out-of-sync", "")]
    {
      if fp !in workers {
        workers := workers[fp := Worker(ONLINE, OUT_OF_SYNC, "")];
      }
    }

    method SetWorkerOnlineIfAllowed(fp: string)
      modifies this`workers
      ensures workers == Update(old(workers), fp, NOT_WITHDRAWN, ONLINE)
      ensures workers == if fp in old(workers) && old(workers)[fp].status != "withdrawn"
        then old(workers)[fp := old(workers)[fp].(status := "online")] else old(workers)
    {
      if fp in workers && workers[fp].status != WITHDRAWN {
        workers := workers[fp := workers[fp].(status := ONLINE)];
      }
    }

    method SetWorkerOffline(fp: string)
      modifies this`workers
      ensures workers == Update(old(workers), fp, NOT_DELETED, OFFLINE)
      ensures workers == if fp in old(workers) && old(workers)[fp].status != "deleted"
        then old(workers)[fp := old(workers)[fp].(status := "offline")] else old(workers)
    {
      if fp in workers && workers[fp].status != DELETED {
        workers := workers[fp := workers[fp].(status := OFFLINE)];
      }
    }

    method SetWorkerStatus(fp: string, status: string)
      modifies this`workers
      ensures workers == Update(old(workers), fp, ANY, status)
      ensures workers == if fp in old(workers)
        then old(workers)[fp := old(workers)[fp].(status := status)] else old(workers)
    {
      if fp in workers {
        workers := workers[fp := workers[fp].(status := status)];
      }
    }

    method SetWorkerAvailableIfProcessing(fp: string)
      modifies this`workers
      ensures workers == Update(old(workers), fp, IS_PROCESSING, AVAILABLE)
      ensures workers == if fp in old(workers) && old(workers)[fp].status == "processing"
        then old(workers)[fp := old(workers)[fp].(status := "available")] else old(workers)
    {
      if fp in workers && workers[fp].status == PROCESSING {
        workers := workers[fp := workers[fp].(status := AVAILABLE)];
      }
    }

    method SetWorkerAvailableIfWithdrawn(fp: string)
      modifies this`workers
      ensures workers == Update(old(workers), fp, IS_WITHDRAWN, AVAILABLE)
      ensures workers == if fp in old(workers) && old(workers)[fp].status == "withdrawn"
        then old(workers)[fp := old(workers)[fp].(status := "available")] else old(workers)
    {
      if fp in workers && workers[fp].status == WITHDRAWN {
        workers := workers[fp := workers[fp].(status := AVAILABLE)];
      }
    }

    method SetWorkerStatusIfNotWithdrawn(fp: string, status: string)
      modifies this`workers
      ensures workers == Update(old(workers), fp, NOT_WITHDRAWN, status)
      ensures workers == if fp in old(workers) && old(workers)[fp].status != "withdrawn"
        then old(workers)[fp := old(workers)[fp].(status := status)] else old(workers)
    {
      if fp in workers && workers[fp].status != WITHDRAWN {
        workers := workers[fp := workers[fp].(status := status)];
      }
    }

    method SetConsent(fp: string, accepted: bool)
      modifies this`consents
      ensures consents == old(consents)[fp := accepted]
    {
      consents := consents[fp := accepted];
    }

    method HasConsent(fp: string) returns (r: bool)
      ensures r == Consented(consents, fp)
      ensures r <==> fp in consents && consents[fp] == true
    {
      r := fp in consents && consents[fp];
    }

    method IsWorkerAvailable(fp: string) returns (r: bool)
      ensures r == Available(workers, fp)
      ensures r <==>
        fp in workers && workers[fp].syncStatus == "synced" && workers[fp].status in {"available", "online"}
    {
      r := fp in workers && workers[fp].status in {AVAILABLE, ONLINE} && workers[fp].syncStatus == SYNCED;
    }

    // The preferred role is tried first, then every role. The debug message of
    // the failing case slices both strings, which panics when they are short; the
    // row is then not updated.
    method UpdateWorkerSyncStatus(fp: string, hash: (string, string) -> string) returns (r: SyncResult)
      requires UniqueRoles(roleModels)
      modifies this`workers
      ensures r == Synced <==>
              fp in old(workers) && InSync(Role(old(preferredRole), fp), old(workers)[fp].llmHash, roleModels, hash)
      ensures Role(preferredRole, fp)
        == if fp in preferredRole && preferredRole[fp] != "" then preferredRole[fp] else "inference"
      ensures r == Panicked <==>
              fp in old(workers)
              && SyncPanics(fp, Role(old(preferredRole), fp), old(workers)[fp].llmHash, roleModels, hash)
      ensures r == Panicked ==> |fp| < 8 || 0 < |old(workers)[fp].llmHash| < 16
      ensures fp in old(workers) && r == OutOfSync ==>
        old(workers)[fp].llmHash == "" || (|fp| >= 8 && |old(workers)[fp].llmHash| >= 16)
      ensures workers == if fp in old(workers) && r != Panicked
                         then old(workers)[fp := old(workers)[fp].(syncStatus := if r == Synced then SYNCED else OUT_OF_SYNC)]
                         else old(workers)
    {
      if fp !in workers {
        return OutOfSync;
      }
      var role := "inference";
      if fp in preferredRole && preferredRole[fp] != "" {
        role := preferredRole[fp];
      }
      var roleHash := "";
      var roleFound := false;
      for i := 0 to |roleModels|
        invariant roleFound ==> RoleModel(role, roleHash) in roleModels
        invariant !roleFound ==> roleHash == "" && forall k | 0 <= k < i :: roleModels[k].role != role
      {
        if !roleFound && roleModels[i].role == role {
          roleHash, roleFound := roleModels[i].fileHash, true;
        }
      }
      assert forall m | m in roleModels && m.role == role :: roleFound && m.fileHash == roleHash;
      if roleFound && roleHash == "" {
        workers := workers[fp := workers[fp].(syncStatus := SYNCED)];
        return Synced;
      }
      var llmHash := workers[fp].llmHash;
      if llmHash == "" {
        workers := workers[fp := workers[fp].(syncStatus := OUT_OF_SYNC)];
        return OutOfSync;
      }
      if roleHash != "" && llmHash == hash(role, roleHash) {
        workers := workers[fp := workers[fp].(syncStatus := SYNCED)];
        return Synced;
      }
      for i := 0 to |roleModels|
        invariant workers == old(workers)
        invariant forall k | 0 <= k < i ::
                    roleModels[k].fileHash == "" || llmHash != hash(roleModels[k].role, roleModels[k].fileHash)
      {
        var m := roleModels[i];
        if m.fileHash != "" && llmHash == hash(m.role, m.fileHash) {
          workers := workers[fp := workers[fp].(syncStatus := SYNCED)];
          return Synced;
        }
      }
      if |fp| < 8 || |llmHash| < 16 {
        return Panicked;
      }
      workers := workers[fp := workers[fp].(syncStatus := OUT_OF_SYNC)];
      return OutOfSync;
    }
  }
}
