/** The recorded results of a sync operation, and the one way they are written: setResourceResult. */
module SyncState {
  import opened Tasks
  import opened TaskArrays
  import opened RunSpec

  // A recorded result and its place in the order of recording
  datatype SyncResult = SyncResult(result: Result, order: nat)

  function Strip(syncRes: map<ResultKey, SyncResult>): (res: Results)
    ensures res.Keys == syncRes.Keys
  {
    map k | k in syncRes :: syncRes[k].result
  }

  // The orders of n results are the numbers from 1 to n, each used once.
  ghost predicate Numbered(syncRes: map<ResultKey, SyncResult>) {
    && (forall k :: k in syncRes ==> 1 <= syncRes[k].order <= |syncRes|)
    && (forall j, k :: j in syncRes && k in syncRes && j != k ==> syncRes[j].order != syncRes[k].order)
  }

  lemma PutExisting(syncRes: map<ResultKey, SyncResult>, key: ResultKey, r: Result)
    requires key in syncRes
    ensures var next := syncRes[key := syncRes[key].(result := r)];
            Strip(next) == Strip(syncRes)[key := r] && (Numbered(syncRes) ==> Numbered(next))
  {
  }

  lemma PutNew(syncRes: map<ResultKey, SyncResult>, key: ResultKey, r: Result)
    requires key !in syncRes
    ensures var next := syncRes[key := SyncResult(r, |syncRes| + 1)];
            Strip(next) == Strip(syncRes)[key := r] && (Numbered(syncRes) ==> Numbered(next))
  {
  }

  // A task object carries the status recorded for it.
  predicate Tracks(t: SyncTask, res: Results)
    reads t
  {
    Result(t.syncStatus, t.operationState) == ResultOf(t.Info(), res)
  }

  predicate TracksAll(tasks: seq<SyncTask>, res: Results)
    reads tasks
  {
    forall t :: t in tasks ==> Tracks(t, res)
  }

  class SyncContext {
    const cfg: Config
    var phase: OpPhase
    var syncRes: map<ResultKey, SyncResult>
    ghost var sent: seq<Request>      // the requests sent to the cluster so far

    constructor (cfg: Config, phase: OpPhase)
      ensures this.cfg == cfg && this.phase == phase && syncRes == map[] && sent == []
    {
      this.cfg := cfg;
      this.phase := phase;
      syncRes := map[];
      sent := [];
    }

    method SetResourceResult(t: SyncTask, status: ResultCode, op: OpPhase)
      modifies this`syncRes, t`syncStatus, t`operationState
      ensures t.syncStatus == status && t.operationState == op
      ensures Strip(syncRes) == Strip(old(syncRes))[t.Info().RKey() := Result(status, op)]
      ensures old(Numbered(syncRes)) ==> Numbered(syncRes)
      ensures forall k :: k in old(syncRes) ==> k in syncRes && syncRes[k].order == old(syncRes)[k].order
    {
      hide Strip;
      hide Numbered;
      t.syncStatus := status;
      t.operationState := op;
      var key := t.Info().RKey();
      if key in syncRes {
        PutExisting(syncRes, key, Result(status, op));
        var existing := syncRes[key];
        if existing.result.status != status || existing.result.op != op {
          existing := existing.(result := Result(status, op));
        }
        syncRes := syncRes[key := existing];
      } else {
        PutNew(syncRes, key, Result(status, op));
        syncRes := syncRes[key := SyncResult(Result(status, op), |syncRes| + 1)];
      }
    }
  }

}
