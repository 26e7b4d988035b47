/** The manager's objects, proved against the registry value. Each method is one critical section. */
module Manager {
  import opened Wrappers
  import R = Registry

  class Job {
    const id: string
    const projectKey: string
    const startedAt: int
    var state: R.JobState
    var processed: nat
    var total: nat
    var errMsg: string
    var finishedAt: int

    constructor (id: string, projectKey: string, startedAt: int)
      ensures this.id == id && Record() == R.NewJob(projectKey, startedAt)
    {
      this.id := id;
      this.projectKey := projectKey;
      this.startedAt := startedAt;
      this.state := R.Running;
      this.processed := 0;
      this.total := 0;
      this.errMsg := "";
      this.finishedAt := 0;
    }

    /** The snapshot of the job. */
    function Record(): R.JobRecord
      reads this
    {
      R.JobRecord(projectKey, state, processed, total, errMsg, startedAt, finishedAt)
    }
  }

  class Manager {
    var byID: map<string, Job>
    var byKey: map<string, Job>

    /** The maps share their job objects: byKey holds running jobs of byID under their own keys. */
    ghost predicate Valid()
      reads this, byID.Values, byKey.Values
    {
      && (forall id :: id in byID ==> byID[id].id == id)
      && (forall k :: k in byKey ==>
            && byKey[k].id in byID && byID[byKey[k].id] == byKey[k]
            && byKey[k].projectKey == k && byKey[k].state == R.Running)
    }

    /** The registry these objects stand for. */
    ghost function Contents(): R.Jobs
      reads this, byID.Values
    {
      R.Jobs(map id | id in byID :: byID[id].Record(), map k | k in byKey :: byKey[k].id)
    }

    /** The object of one job. */
    ghost function JobOf(id: string): set<Job>
      reads this
    {
      if id in byID then {byID[id]} else {}
    }

    constructor ()
      ensures Valid() && Contents() == R.Jobs(map[], map[])
    {
      byID := map[];
      byKey := map[];
    }

    method EvictExpiredLocked(now: int)
      requires Valid()
      modifies this`byID
      ensures Valid() && Contents() == R.Evict(old(Contents()), now)
      ensures forall id :: id in byID ==> id in old(byID) && byID[id] == old(byID)[id]
    {
      var rest := byID.Keys;
      ghost var before := byID;
      while rest != {}
        invariant rest <= byID.Keys
        invariant forall id :: id in byID <==>
          id in before && (id in rest || !R.Expired(before[id].Record(), now))
        invariant forall id :: id in byID ==> byID[id] == before[id]
        decreases rest
      {
        var syncID :| syncID in rest;
        rest := rest - {syncID};
        var candidate := byID[syncID];
        if candidate.state == R.Running {
          continue;
        }
        if now - candidate.finishedAt >= R.JOB_TTL {
          byID := byID - {syncID};
        }
      }
    }

    /** `freshID` is the new uuid, should one be needed. */
    method Start(projectKey: string, now: int, freshID: string) returns (r: R.StartResult)
      requires Valid() && freshID !in byID
      modifies this
      ensures Valid()
      ensures Contents() == R.Start(old(Contents()), projectKey, now, freshID)
      ensures r == R.StartResultOf(old(Contents()), projectKey, freshID)
      ensures forall id :: id in byID && id in old(byID) ==> byID[id] == old(byID)[id]
    {
      EvictExpiredLocked(now);
      if projectKey in byKey {
        return R.StartResult(byKey[projectKey].id, false);
      }
      label evicted:
      var newJob := new Job(freshID, projectKey, now);
      byID := byID[newJob.id := newJob];
      byKey := byKey[projectKey := newJob];
      JobAdded@evicted(newJob);
      ContentsAdded@evicted(newJob);
      return R.StartResult(newJob.id, true);
    }

    twostate lemma OthersKept()
      requires forall id :: id in old(byID) ==> id in byID && byID[id] == old(byID)[id]
      requires forall j: Job :: j in old(byID.Values) ==> unchanged(j)
      ensures forall id :: id in old(byID) ==> byID[id].Record() == old(byID[id].Record())
      ensures forall id :: id in old(byID) ==> byID[id].state == old(byID[id].state)
    {
      forall id | id in old(byID)
        ensures byID[id].Record() == old(byID[id].Record())
        ensures byID[id].state == old(byID[id].state)
      {
        assert old(byID)[id] in old(byID.Values);
      }
    }

    twostate lemma JobAdded(new added: Job)
      requires old(Valid()) && added.id !in old(byID) && added.projectKey !in old(byKey) && added.state == R.Running
      requires byID == old(byID)[added.id := added] && byKey == old(byKey)[added.projectKey := added]
      requires forall j: Job :: j in old(byID.Values) ==> unchanged(j)
      ensures Valid()
    {
      OthersKept();
    }

    twostate lemma ContentsAdded(new added: Job)
      requires added.id !in old(byID) && added.projectKey !in old(byKey)
      requires byID == old(byID)[added.id := added] && byKey == old(byKey)[added.projectKey := added]
      requires forall j: Job :: j in old(byID.Values) ==> unchanged(j)
      ensures Contents().byID == old(Contents()).byID[added.id := added.Record()]
      ensures Contents().byKey == old(Contents()).byKey[added.projectKey := added.id]
    {
      OthersKept();
    }

    method Status(syncID: string) returns (r: Option<R.JobRecord>)
      requires Valid()
      ensures r == R.Status(Contents(), syncID)
    {
      if syncID !in byID {
        return None;
      }
      return Some(byID[syncID].Record());
    }

    method SetTotal(syncID: string, total: int)
      requires Valid()
      modifies JobOf(syncID)
      ensures Valid() && Contents() == R.SetTotal(old(Contents()), syncID, total)
    {
      if syncID in byID {
        byID[syncID].total := total % R.UINT64;
      }
    }

    method IncrProcessed(syncID: string)
      requires Valid()
      modifies JobOf(syncID)
      ensures Valid() && Contents() == R.IncrProcessed(old(Contents()), syncID)
    {
      if syncID in byID {
        byID[syncID].processed := (byID[syncID].processed + 1) % R.UINT64;
      }
    }

    method Complete(syncID: string, now: int)
      requires Valid()
      modifies this`byKey, JobOf(syncID)
      ensures Valid() && Contents() == R.Complete(old(Contents()), syncID, now)
    {
      if syncID !in byID {
        return;
      }
      var found := byID[syncID];
      found.state := R.Completed;
      found.finishedAt := now;
      byKey := byKey - {found.projectKey};
      JobFinished(found);
      ContentsFinished(found);
    }

    method Fail(syncID: string, errMsg: string, now: int)
      requires Valid()
      modifies this`byKey, JobOf(syncID)
      ensures Valid() && Contents() == R.Fail(old(Contents()), syncID, errMsg, now)
    {
      if syncID !in byID {
        return;
      }
      var found := byID[syncID];
      found.state := R.Failed;
      found.errMsg := errMsg;
      found.finishedAt := now;
      byKey := byKey - {found.projectKey};
      JobFinished(found);
      ContentsFinished(found);
    }

    /** Changing one job's fields and dropping its key changes nothing else. */
    twostate lemma JobFinished(found: Job)
      requires old(Valid()) && old(found.id in byID && byID[found.id] == found)
      requires byID == old(byID) && byKey == old(byKey) - {found.projectKey}
      requires forall j: Job :: j in old(byID.Values) && j != found ==> unchanged(j)
      ensures Valid()
    {
      forall k | k in byKey
        ensures byKey[k].state == old(byKey[k].state)
      {
        assert byKey[k] in byID.Values;
      }
    }

    twostate lemma ContentsFinished(found: Job)
      requires old(Valid()) && old(found.id in byID && byID[found.id] == found)
      requires byID == old(byID) && byKey == old(byKey) - {found.projectKey}
      requires forall j: Job :: j in old(byID.Values) && j != found ==> unchanged(j)
      ensures Contents().byID == old(Contents()).byID[found.id := found.Record()]
      ensures Contents().byKey == old(Contents()).byKey - {found.projectKey}
    {
      forall id | id in byID && id != found.id
        ensures byID[id].Record() == old(byID[id].Record())
      {
        assert byID[id] in byID.Values;
      }
    }
  }
}
