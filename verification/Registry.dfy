/** The job registry as a value: what each operation of the manager does
    (internal/service/sync/manager.go). Times are nanoseconds. */
module Registry {
  import opened Wrappers

  const JOB_TTL: int := 600_000_000_000
  const UINT64: int := 0x1_0000_0000_0000_0000

  datatype JobState = Running | Completed | Failed

  datatype JobRecord = JobRecord(
    projectKey: string, state: JobState, processed: nat, total: nat, errMsg: string,
    startedAt: int, finishedAt: int)

  /** byKey maps a project key to the id of its running job. */
  datatype Jobs = Jobs(byID: map<string, JobRecord>, byKey: map<string, string>)

  datatype StartResult = StartResult(syncID: string, started: bool)

  function Status(r: Jobs, id: string): Option<JobRecord> {
    if id in r.byID then Some(r.byID[id]) else None
  }

  predicate Expired(j: JobRecord, now: int) {
    !j.state.Running? && now - j.finishedAt >= JOB_TTL
  }

  function Evict(r: Jobs, now: int): Jobs {
    r.(byID := map id | id in r.byID && !Expired(r.byID[id], now) :: r.byID[id])
  }

  function NewJob(key: string, now: int): JobRecord {
    JobRecord(key, Running, 0, 0, "", now, 0)
  }

  function StartResultOf(r: Jobs, key: string, freshID: string): StartResult {
    if key in r.byKey then StartResult(r.byKey[key], false) else StartResult(freshID, true)
  }

  function Start(r: Jobs, key: string, now: int, freshID: string): Jobs {
    var kept := Evict(r, now);
    if key in r.byKey then
      kept
    else
      Jobs(kept.byID[freshID := NewJob(key, now)], kept.byKey[key := freshID])
  }

  function Update(r: Jobs, id: string, j: JobRecord): Jobs {
    r.(byID := r.byID[id := j])
  }

  /** The conversion to uint64 wraps a negative total. */
  function SetTotal(r: Jobs, id: string, total: int): Jobs {
    if id in r.byID then Update(r, id, r.byID[id].(total := total % UINT64)) else r
  }

  function IncrProcessed(r: Jobs, id: string): Jobs {
    if id in r.byID then Update(r, id, r.byID[id].(processed := (r.byID[id].processed + 1) % UINT64)) else r
  }

  /** The entry of the job's key is deleted, whichever job it points to. */
  function Complete(r: Jobs, id: string, now: int): Jobs {
    if id in r.byID then
      var j := r.byID[id];
      Jobs(r.byID[id := j.(state := Completed, finishedAt := now)], r.byKey - {j.projectKey})
    else
      r
  }

  function Fail(r: Jobs, id: string, errMsg: string, now: int): Jobs {
    if id in r.byID then
      var j := r.byID[id];
      Jobs(r.byID[id := j.(state := Failed, errMsg := errMsg, finishedAt := now)], r.byKey - {j.projectKey})
    else
      r
  }

  /** Starting evicts exactly the jobs that finished ten minutes ago or earlier, leaves every other job as it
      is, and, if no job of the key runs, adds one that runs and has counted nothing. */
  lemma StartExact(r: Jobs, key: string, now: int, freshID: string)
    requires freshID !in r.byID
    ensures var s := Start(r, key, now, freshID);
      && (forall id :: id in r.byID ==>
            (id in s.byID <==> r.byID[id].state.Running? || now - r.byID[id].finishedAt < 600_000_000_000))
      && (forall id :: id in r.byID && id in s.byID ==> s.byID[id] == r.byID[id])
      && (key in r.byKey ==> s.byKey == r.byKey && freshID !in s.byID)
      && (key !in r.byKey ==>
            && freshID in s.byID && s.byID[freshID] == JobRecord(key, Running, 0, 0, "", now, 0)
            && s.byKey == r.byKey[key := freshID])
      && (forall id :: id in s.byID ==> id in r.byID || id == freshID)
  {
  }

  /** The total is stored modulo 2^64. */
  lemma SetTotalExact(r: Jobs, id: string, total: int)
    requires id in r.byID
    ensures var s := SetTotal(r, id, total);
      && id in s.byID && 0 <= s.byID[id].total < 0x1_0000_0000_0000_0000
      && (s.byID[id].total - total) % 0x1_0000_0000_0000_0000 == 0
      && s.byID[id] == r.byID[id].(total := s.byID[id].total) && s.byKey == r.byKey
      && forall other :: other != id ==> (other in s.byID <==> other in r.byID) && Status(s, other) == Status(r, other)
  {
  }

  /** n increments in a row. */
  function IncrBy(r: Jobs, id: string, n: nat): Jobs {
    if n == 0 then r else IncrProcessed(IncrBy(r, id, n - 1), id)
  }

  lemma IncrUpdated(r: Jobs, id: string, j: JobRecord, n: nat)
    requires id in r.byID
    ensures IncrProcessed(Update(r, id, j.(processed := n % UINT64)), id) ==
            Update(r, id, j.(processed := (n + 1) % UINT64))
  {
    var updated := Update(r, id, j.(processed := n % UINT64));
    assert updated.byID[id].(processed := (n + 1) % UINT64) == j.(processed := (n + 1) % UINT64);
  }

  /** n increments add n to the job's counter, modulo 2^64, and touch nothing else. */
  lemma {:induction false} IncrByAdds(r: Jobs, id: string, n: nat)
    requires id in r.byID && r.byID[id].processed < UINT64
    ensures IncrBy(r, id, n) ==
            Update(r, id, r.byID[id].(processed := (r.byID[id].processed + n) % 0x1_0000_0000_0000_0000))
  {
    if n == 0 {
      assert r.byID == r.byID[id := r.byID[id]];
    } else {
      IncrByAdds(r, id, n - 1);
      IncrUpdated(r, id, r.byID[id], r.byID[id].processed + (n - 1));
    }
  }

  lemma {:induction false} IncrByConcat(r: Jobs, id: string, m: nat, n: nat)
    ensures IncrBy(IncrBy(r, id, m), id, n) == IncrBy(r, id, m + n)
  {
    if n > 0 {
      IncrByConcat(r, id, m, n - 1);
    }
  }
}
