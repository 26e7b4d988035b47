/** SyncProject and the goroutine it starts (internal/service/sync/sync.go): the only callers of the
    registry's Start, Complete and Fail. */
module SyncService {
  import opened Wrappers
  import opened Jira
  import opened Mapper
  import opened RawStore
  import opened Postgres
  import opened RunSpec
  import R = Registry
  import M = Manager
  import S = SyncRun
  import L = RunLaws
  import Y = SyncSystem

  datatype ServiceError = ProjectsFailed | ProjectNotFound | InsertProjectFailed

  /** `AlreadyRunning` and `Started` stand for the answers "already_running" and "running". */
  datatype Answer = AlreadyRunning(syncID: string, projectID: int) | Started(syncID: string, projectID: int)

  /** The counters of the sync jobs (internal/metrics/metrics.go). */
  class JobMetrics {
    var started: nat
    var completed: nat
    var failed: nat
    var active: int

    constructor ()
      ensures started == completed == failed == 0 && active == 0
    {
      started, completed, failed, active := 0, 0, 0, 0;
    }

    method SyncJobStarted()
      modifies this
      ensures started == old(started) + 1 && active == old(active) + 1
      ensures completed == old(completed) && failed == old(failed)
    {
      started, active := started + 1, active + 1;
    }

    method SyncJobFinished(jobFailed: bool)
      modifies this
      ensures active == old(active) - 1 && started == old(started)
      ensures failed == old(failed) + (if jobFailed then 1 else 0)
      ensures completed == old(completed) + (if jobFailed then 0 else 1)
    {
      active := active - 1;
      if jobFailed {
        failed := failed + 1;
      } else {
        completed := completed + 1;
      }
    }
  }

  /** proj is the first project of the list with this key. */
  predicate FirstWithKey(projects: seq<Project>, key: string, proj: Project) {
    exists i :: 0 <= i < |projects| && projects[i] == proj && proj.key == key &&
      forall j :: 0 <= j < i ==> projects[j].key != key
  }

  /** The id is that of the first project with the key. A title already stored stays; a new row carries the
      project's name. */
  predicate Ensured(ps: Parsers, projects: seq<Project>, key: string, proj: Project, id: int, t: Tables, t': Tables) {
    && FirstWithKey(projects, key, proj) && id == ps.parseInt(proj.id).value
    && t' == if id in t.projects then t else t.(projects := t.projects[id := proj.name])
  }

  ghost predicate EnsuredBySome(ps: Parsers, projects: seq<Project>, key: string, id: int, t: Tables, t': Tables) {
    exists proj :: Ensured(ps, projects, key, proj, id, t, t')
  }

  /** The id of the project does not fit its column. */
  ghost predicate Oversized(ps: Parsers, projects: seq<Project>, key: string) {
    exists proj :: FirstWithKey(projects, key, proj) && !Int4(ps.parseInt(proj.id).value)
  }

  /** Looks the key up in the first answer of the project search and makes sure the project has its row. */
  method EnsureProject(ps: Parsers, repo: PostgresRepository, listed: Option<seq<Project>>, projectKey: string)
    returns (r: Result<int, ServiceError>)
    requires !repo.isTx
    modifies repo`work, repo`aborted, repo.db`tables, repo.db`faults
    ensures r == Err(ProjectNotFound) <==> listed.Some? && forall p :: p in listed.value ==> p.key != projectKey
    ensures r == Err(ProjectsFailed) <==> listed == None
    ensures r == Err(InsertProjectFailed) ==>
      repo.db.faults > old(repo.db.faults) || Oversized(ps, listed.value, projectKey)
    ensures r.Err? ==> repo.db.tables == old(repo.db.tables)
    ensures r.Ok? ==> listed.Some?
    ensures r.Ok? ==> EnsuredBySome(ps, listed.value, projectKey, r.value, old(repo.db.tables), repo.db.tables)
    ensures r.Ok? ==> r.value in repo.db.tables.projects
  {
    if listed == None {
      return Err(ProjectsFailed);
    }
    var projects := listed.value;
    for i := 0 to |projects|
      invariant repo.db.tables == old(repo.db.tables)
      invariant forall j :: 0 <= j < i ==> projects[j].key != projectKey
    {
      var proj := projects[i];
      if proj.key == projectKey {
        var rawProject := MapProjectToRaw(ps, proj);
        var insertErr := repo.InsertProject(rawProject);
        assert FirstWithKey(projects, projectKey, proj);
        if insertErr.Err? && insertErr.error != AlreadyExists {
          assert repo.db.faults > old(repo.db.faults) || Oversized(ps, projects, projectKey);
          return Err(InsertProjectFailed);
        }
        assert Ensured(ps, projects, projectKey, proj, rawProject.id, old(repo.db.tables), repo.db.tables);
        return Ok(rawProject.id);
      }
    }
    return Err(ProjectNotFound);
  }

  /** Registers a job for the project unless one is running. A job that is started is handed to a goroutine
      of its own, and the answer does not wait for it. */
  method SyncProject(ps: Parsers, repo: PostgresRepository, mgr: M.Manager, mtr: JobMetrics,
                     listed: Option<seq<Project>>, projectKey: string, now: int, freshID: string)
    returns (r: Result<Answer, ServiceError>)
    requires !repo.isTx && mgr.Valid() && freshID !in mgr.byID
    modifies repo`work, repo`aborted, repo.db`tables, repo.db`faults, mgr, mtr
    ensures mgr.Valid()
    ensures r.Err? ==> mgr.Contents() == old(mgr.Contents()) && mtr.started == old(mtr.started)
    ensures r.Ok? ==> mgr.Contents() == R.Start(old(mgr.Contents()), projectKey, now, freshID)
    ensures r.Ok? ==> r.value.projectID in repo.db.tables.projects
    ensures r.Ok? ==> (r.value.Started? <==> projectKey !in old(mgr.Contents()).byKey)
    ensures r.Ok? && r.value.Started? ==> r.value.syncID == freshID
    ensures r.Ok? && r.value.AlreadyRunning? ==>
      projectKey in old(mgr.Contents()).byKey && r.value.syncID == old(mgr.Contents()).byKey[projectKey]
    ensures r.Ok? ==> mtr.started == old(mtr.started) + (if r.value.Started? then 1 else 0)
    ensures mtr.completed == old(mtr.completed) && mtr.failed == old(mtr.failed)
    ensures mtr.active - mtr.started == old(mtr.active - mtr.started)
  {
    var projectID := EnsureProject(ps, repo, listed, projectKey);
    if projectID.Err? {
      return Err(projectID.error);
    }
    var res := StartJob(mgr, mtr, projectKey, now, freshID);
    if !res.started {
      return Ok(AlreadyRunning(res.syncID, projectID.value));
    }
    return Ok(Started(res.syncID, projectID.value));
  }

  /** Registers the job, and counts it if it is new. */
  method StartJob(mgr: M.Manager, mtr: JobMetrics, projectKey: string, now: int, freshID: string)
    returns (res: R.StartResult)
    requires mgr.Valid() && freshID !in mgr.byID
    modifies mgr, mtr
    ensures mgr.Valid() && mgr.Contents() == R.Start(old(mgr.Contents()), projectKey, now, freshID)
    ensures res == R.StartResultOf(old(mgr.Contents()), projectKey, freshID)
    ensures mtr.started == old(mtr.started) + (if res.started then 1 else 0)
    ensures mtr.active == old(mtr.active) + (if res.started then 1 else 0)
    ensures mtr.completed == old(mtr.completed) && mtr.failed == old(mtr.failed)
  {
    res := mgr.Start(projectKey, now, freshID);
    ghost var contents := mgr.Contents();
    if res.started {
      mtr.SyncJobStarted();
    }
    assert mgr.Contents() == contents;
  }

  /** The terminal call of a job. */
  function Finish(jobs: R.Jobs, syncID: string, failed: bool, errMsg: string, now: int): R.Jobs {
    if failed then R.Fail(jobs, syncID, errMsg, now) else R.Complete(jobs, syncID, now)
  }

  /** The goroutine of a started job: the run, and then one terminal call and one count of the finish.
      `errMsg` gives the text of an error, `now` is the time of the terminal call; `end` is how the run
      ended. */
  method OwnJob(w: World, repo: PostgresRepository, mgr: M.Manager, mtr: JobMetrics, syncID: string,
                projectID: int, budget: nat, mayCancel: bool, errMsg: S.SyncError -> string, now: int)
    returns (ghost run: Run, ghost jobs: R.Jobs, ghost end: Result<(), S.SyncError>)
    requires !repo.isTx && mgr.Valid()
    modifies repo.db`tables, repo.db`faults, mgr`byKey, mgr.JobOf(syncID), mtr
    ensures mgr.Valid()
    ensures Accounts(w, projectID, syncID, run, end.Ok?,
                     old(repo.db.tables), repo.db.tables, old(mgr.Contents()), jobs)
    ensures end.Err? ==>
      S.Explains(w, end.error, run, budget, mayCancel, repo.db.faults > old(repo.db.faults), repo.db.tables)
    ensures end.Err? ==> mgr.Contents() == R.Fail(jobs, syncID, errMsg(end.error), now)
    ensures end.Ok? ==> mgr.Contents() == R.Complete(jobs, syncID, now)
    ensures mtr.active == old(mtr.active) - 1 && mtr.started == old(mtr.started)
    ensures mtr.failed == old(mtr.failed) + (if end.Err? then 1 else 0)
    ensures mtr.completed == old(mtr.completed) + (if end.Err? then 0 else 1)
  {
    var syncErr;
    syncErr, run := S.RunSync(w, repo, mgr, syncID, projectID, budget, mayCancel);
    jobs, end := mgr.Contents(), syncErr;
    ReportEnd(mgr, mtr, syncID, syncErr.Err?, if syncErr.Err? then errMsg(syncErr.error) else "", now);
  }

  /** The end of a job, reported to the registry and counted. */
  method ReportEnd(mgr: M.Manager, mtr: JobMetrics, syncID: string, jobFailed: bool, errMsg: string, now: int)
    requires mgr.Valid()
    modifies mgr`byKey, mgr.JobOf(syncID), mtr
    ensures mgr.Valid() && mgr.Contents() == Finish(old(mgr.Contents()), syncID, jobFailed, errMsg, now)
    ensures mtr.active == old(mtr.active) - 1 && mtr.started == old(mtr.started)
    ensures mtr.failed == old(mtr.failed) + (if jobFailed then 1 else 0)
    ensures mtr.completed == old(mtr.completed) + (if jobFailed then 0 else 1)
  {
    if jobFailed {
      mgr.Fail(syncID, errMsg, now);
    } else {
      mgr.Complete(syncID, now);
    }
    ghost var contents := mgr.Contents();
    mtr.SyncJobFinished(jobFailed);
    assert mgr.Contents() == contents;
  }

  // ---------- what a poller finds when the job is over ----------

  /** Announcing and counting leave the job's state and key, and the keys, alone. */
  lemma ProgressKeepsJob(jobs: R.Jobs, id: string, total: Option<int>, n: nat)
    requires id in jobs.byID && jobs.byID[id].processed == 0
    ensures var jobs' := Progress(jobs, id, total, n);
      && id in jobs'.byID && jobs'.byID[id].state == jobs.byID[id].state
      && jobs'.byID[id].projectKey == jobs.byID[id].projectKey && jobs'.byKey == jobs.byKey
  {
    R.IncrByAdds(if total.Some? then R.SetTotal(jobs, id, total.value) else jobs, id, n);
  }

  /** The tables when a job over a snapshot is over: a completed one has listed the whole list, one that
      failed a prefix of it, and the tables reflect exactly what was listed. */
  lemma JobTables(w: World, projectID: int, syncID: string, run: Run, failed: bool,
                  t: Tables, t': Tables, jobs: R.Jobs, jobs': R.Jobs, all: seq<string>)
    requires Accounts(w, projectID, syncID, run, !failed, t, t', jobs, jobs')
    requires L.Snapshot(w, all)
    requires L.OneIssuePerID(w, projectID, L.Listed(run.log))
    ensures L.Reflects(w, projectID, L.Listed(run.log), t, t')
    ensures if failed then L.Listed(run.log) <= all else L.Listed(run.log) == all
  {
    if failed {
      L.PrefixDurable(w, projectID, syncID, run, t, t', jobs, jobs', all);
    } else {
      L.CompletedListsAll(w, projectID, run.log, all);
      L.EndToEnd(w, projectID, syncID, run, t, t', jobs, jobs', all);
    }
  }

  /** The status that shows the outcome of a job. */
  predicate Settles(jobs: R.Jobs, id: string, failed: bool, msg: string, now: int) {
    && id in jobs.byID && jobs.byID[id].finishedAt == now
    && jobs.byID[id].state == (if failed then R.Failed else R.Completed)
    && (failed ==> jobs.byID[id].errMsg == msg)
    && jobs.byID[id].projectKey !in jobs.byKey
  }

  /** The status when a job over a snapshot is over: its state tells how the run ended, the project is free
      for a new job, and a completed job shows the list's length as its total and has processed every
      issue that can be fetched. */
  lemma JobStatus(w: World, projectID: int, syncID: string, run: Run, failed: bool, msg: string, now: int,
                  jobs: R.Jobs, jobs': R.Jobs, all: seq<string>)
    requires Possible(w, projectID, run, !failed) && L.Snapshot(w, all) && |all| < R.UINT64
    requires jobs' == Progress(jobs, syncID, run.total, Committed(run.log) + run.extra)
    requires syncID in jobs.byID && jobs.byID[syncID].processed == 0
    ensures Settles(Finish(jobs', syncID, failed, msg, now), syncID, failed, msg, now)
    ensures !failed ==>
      var j := Finish(jobs', syncID, failed, msg, now).byID[syncID];
      j.total == |all| && j.processed == |all| - L.Unfetchable(w, all)
  {
    ProgressKeepsJob(jobs, syncID, run.total, Committed(run.log) + run.extra);
    if !failed {
      L.ProgressAccounting(w, projectID, run, true, syncID, jobs, jobs', all);
    }
  }

  /** A job whose context nobody cancels, over a database without a fault and a snapshot whose issues can all
      be stored, with a worker and enough searches before the deadline, ends Completed. */
  lemma JobCompletes(w: World, projectID: int, syncID: string, run: Run, end: Result<(), S.SyncError>, budget: nat,
                     t: Tables, t': Tables, jobs: R.Jobs, jobs': R.Jobs, all: seq<string>)
    requires Accounts(w, projectID, syncID, run, end.Ok?, t, t', jobs, jobs')
    requires end.Err? ==> S.Explains(w, end.error, run, budget, false, false, t')
    requires L.Snapshot(w, all) && L.AllStorable(w, projectID, t, all)
    requires w.workers >= 1 && budget >= 1 && budget >= |all|
    ensures end.Ok?
  {
    if end.Err? {
      S.ExplainsHinders(w, end.error, run, budget, false, false, t');
    }
    L.RunCompletes(w, projectID, syncID, run, end.Ok?, budget, t, t', jobs, jobs', all);
  }

  // ---------- the goroutine as a client of the registry ----------

  lemma Then(now: nat, actions: seq<Y.Action>, a: Y.Action) returns (more: seq<Y.Action>)
    requires Y.Exec(now, actions).Some? && Y.Can(Y.Exec(now, actions).value, a)
    ensures Y.Exec(now, more) == Some(Y.Do(Y.Exec(now, actions).value, a))
  {
    more := actions + [a];
    assert more[..|actions|] == actions;
  }

  /** Counting n issues as steps of the system. */
  lemma {:induction false} CountingIsARun(now: nat, actions: seq<Y.Action>, id: string, n: nat)
    returns (more: seq<Y.Action>)
    requires Y.Exec(now, actions).Some? && Y.In(Y.Exec(now, actions).value, id, Y.Working)
    ensures var s := Y.Exec(now, actions).value;
      Y.Exec(now, more) == Some(s.(jobs := R.IncrBy(s.jobs, id, n), increments := s.increments + n))
  {
    more := actions;
    if n > 0 {
      more := CountingIsARun(now, actions, id, n - 1);
      more := Then(now, more, Y.CallIncrProcessed(id));
    }
  }

  /** Whatever a run makes of the registry, together with the goroutine's terminal call, is a run of the
      system of SyncSystem, in which each job has one owner that makes one terminal call. */
  lemma OwnerIsAClient(now: nat, actions: seq<Y.Action>, id: string, total: Option<int>, n: nat, failed: bool, msg: string)
    returns (more: seq<Y.Action>)
    requires Y.Exec(now, actions).Some? && Y.In(Y.Exec(now, actions).value, id, Y.Working)
    ensures var s := Y.Exec(now, actions).value;
      && Y.Exec(now, more).Some?
      && Y.Exec(now, more).value.jobs == Finish(Progress(s.jobs, id, total, n), id, failed, msg, s.now)
      && Y.Exec(now, more).value.owners == s.owners[id := Y.Reported(failed)]
  {
    more := actions;
    if total.Some? {
      more := Then(now, more, Y.CallSetTotal(id, total.value));
    }
    more := CountingIsARun(now, more, id, n);
    more := Then(now, more, if failed then Y.CallFail(id, msg) else Y.CallComplete(id));
    more := Then(now, more, Y.CountFinish(id));
  }
}
