/** What a client that polls the registry can see, over whole runs (internal/service/sync/manager.go,
    cmd/internal/app/app.go). */
module StatusHistory {
  import opened Wrappers
  import opened Registry
  import opened SyncSystem

  // ---------- traces ----------

  ghost predicate StepTo(s: System, s': System) {
    exists a :: Can(s, a) && s' == Do(s, a)
  }

  /** The states of a run, one after the other. */
  ghost predicate Trace(trace: seq<System>) {
    && trace != []
    && trace[0] == Init(trace[0].now)
    && forall i :: 0 <= i < |trace| - 1 ==> StepTo(trace[i], trace[i + 1])
  }

  lemma {:induction false} TraceInv(trace: seq<System>, i: nat)
    requires Trace(trace) && i < |trace|
    ensures Inv(trace[i]) && trace[i].increments <= i
    ensures trace[0].now <= trace[i].now
  {
    if i == 0 {
      InitInv(trace[0].now);
    } else {
      TraceInv(trace, i - 1);
      assert StepTo(trace[i - 1], trace[i]);
      var a :| Can(trace[i - 1], a) && trace[i] == Do(trace[i - 1], a);
      InvStep(trace[i - 1], a);
    }
  }

  lemma TraceStep(trace: seq<System>, i: nat)
    requires Trace(trace) && i + 1 < |trace|
    ensures Inv(trace[i]) && StepTo(trace[i], trace[i + 1])
  {
    TraceInv(trace, i);
  }

  /** 0 before the job is started, 1 while it runs, 2 while its outcome is kept, 3 after its eviction. */
  function Stage(s: System, id: string): nat {
    if id !in s.owners then 0
    else if RunningJob(s, id) then 1
    else if id in s.jobs.byID then 2
    else 3
  }

  /** What one step can change about one job. */
  lemma StageStep(s: System, a: Action, id: string)
    requires Inv(s) && Can(s, a)
    ensures var s' := Do(s, a);
      && s.now <= s'.now
      && Stage(s, id) <= Stage(s', id)
      && (Stage(s, id) == 1 ==> Stage(s', id) <= 2)
      && (Stage(s, id) == 0 ==> Stage(s', id) <= 1)
      && (Stage(s, id) == 2 && Stage(s', id) == 2 ==> s'.jobs.byID[id] == s.jobs.byID[id])
      && (Stage(s, id) == 1 && Stage(s', id) == 2 ==> s'.jobs.byID[id].finishedAt == s'.now)
      && (Stage(s, id) == 2 && Stage(s', id) == 3 ==> s.now - s.jobs.byID[id].finishedAt >= JOB_TTL)
  {
  }

  /** Below 2^64 increments, the counter of a known job only grows. */
  lemma ProcessedStep(s: System, a: Action, id: string)
    requires Owned(s) && Can(s, a) && s.increments < UINT64 - 1
    requires id in s.jobs.byID && id in Do(s, a).jobs.byID
    ensures s.jobs.byID[id].processed <= Do(s, a).jobs.byID[id].processed
  {
    match a
    case Tick(_) =>
    case CallStart(_, _) =>
    case CountStart(_) =>
    case CallSetTotal(_, _) =>
    case CallIncrProcessed(_) =>
    case CallComplete(_) =>
    case CallFail(_, _) =>
    case CountFinish(_) =>
  }

  lemma {:induction false} StagesGrow(trace: seq<System>, i: nat, j: nat, id: string)
    requires Trace(trace) && i <= j < |trace|
    ensures Stage(trace[i], id) <= Stage(trace[j], id)
    ensures Stage(trace[i], id) == 2 && Stage(trace[j], id) == 2 ==> trace[i].jobs.byID[id] == trace[j].jobs.byID[id]
    ensures trace[i].now <= trace[j].now
    decreases j
  {
    if i < j {
      StagesGrow(trace, i, j - 1, id);
      TraceInv(trace, j - 1);
      assert StepTo(trace[j - 1], trace[j]);
      var a :| Can(trace[j - 1], a) && trace[j] == Do(trace[j - 1], a);
      StageStep(trace[j - 1], a, id);
    }
  }

  /** A job known at two moments is known at every moment between. */
  lemma KnownBetween(trace: seq<System>, i: nat, m: nat, j: nat, id: string)
    requires Trace(trace) && i <= m <= j < |trace|
    requires id in trace[i].jobs.byID && id in trace[j].jobs.byID
    ensures id in trace[m].jobs.byID
  {
    TraceInv(trace, i);
    TraceInv(trace, j);
    StagesGrow(trace, i, m, id);
    StagesGrow(trace, m, j, id);
  }

  lemma {:induction false} ProcessedGrows(trace: seq<System>, i: nat, j: nat, id: string)
    requires Trace(trace) && i <= j < |trace| < UINT64
    requires id in trace[i].jobs.byID && id in trace[j].jobs.byID
    ensures trace[i].jobs.byID[id].processed <= trace[j].jobs.byID[id].processed
    decreases j
  {
    if i < j {
      KnownBetween(trace, i, j - 1, j, id);
      ProcessedGrows(trace, i, j - 1, id);
      TraceInv(trace, j - 1);
      assert StepTo(trace[j - 1], trace[j]);
      var a :| Can(trace[j - 1], a) && trace[j] == Do(trace[j - 1], a);
      ProcessedStep(trace[j - 1], a, id);
    }
  }

  // ---------- the shape of a status history ----------

  /** The answers to a sequence of polls. */
  function Answers(trace: seq<System>, polls: seq<nat>, id: string): (r: seq<Option<JobRecord>>)
    requires forall k :: 0 <= k < |polls| ==> polls[k] < |trace|
    ensures |r| == |polls|
    ensures forall k :: 0 <= k < |polls| ==> r[k] == Status(trace[polls[k]].jobs, id)
  {
    seq(|polls|, k requires 0 <= k < |polls| => Status(trace[polls[k]].jobs, id))
  }

  predicate IsRunning(answer: Option<JobRecord>) {
    answer.Some? && answer.value.state.Running?
  }

  predicate IsTerminal(answer: Option<JobRecord>) {
    answer.Some? && !answer.value.state.Running?
  }

  /** Unknown* Running* Terminal* Unknown*, cut at a, b and c; one fixed terminal record, with its state,
      error message and finish time; Processed never decreases. */
  ghost predicate Shaped(answers: seq<Option<JobRecord>>, a: nat, b: nat, c: nat) {
    && a <= b <= c <= |answers|
    && (forall k :: 0 <= k < a ==> answers[k].None?)
    && (forall k :: a <= k < b ==> IsRunning(answers[k]))
    && (forall k :: b <= k < c ==> IsTerminal(answers[k]) && answers[k] == answers[b])
    && (forall k :: c <= k < |answers| ==> answers[k].None?)
    && (forall k, l :: a <= k <= l < c ==> answers[k].value.processed <= answers[l].value.processed)
  }

  /** The number of leading polls that find the job before stage n. */
  function Cut(trace: seq<System>, polls: seq<nat>, id: string, n: nat): nat
    requires forall k :: 0 <= k < |polls| ==> polls[k] < |trace|
  {
    if polls == [] then 0
    else
      var m := |polls| - 1;
      if Stage(trace[polls[m]], id) < n then |polls| else Cut(trace, polls[..m], id, n)
  }

  ghost predicate PollsForward(trace: seq<System>, polls: seq<nat>) {
    && (forall k :: 0 <= k < |polls| ==> polls[k] < |trace|)
    && (forall k, l :: 0 <= k <= l < |polls| ==> polls[k] <= polls[l])
  }

  lemma {:induction false} CutExact(trace: seq<System>, polls: seq<nat>, id: string, n: nat)
    requires Trace(trace) && PollsForward(trace, polls)
    ensures Cut(trace, polls, id, n) <= |polls|
    ensures forall k :: 0 <= k < |polls| ==> (Stage(trace[polls[k]], id) < n <==> k < Cut(trace, polls, id, n))
  {
    if polls != [] {
      var m := |polls| - 1;
      if Stage(trace[polls[m]], id) < n {
        forall k | 0 <= k < |polls|
          ensures Stage(trace[polls[k]], id) < n
        {
          StagesGrow(trace, polls[k], polls[m], id);
        }
      } else {
        CutExact(trace, polls[..m], id, n);
      }
    }
  }

  /** Every status history has that shape, however seldom or often the client polls. */
  lemma HistoryShaped(trace: seq<System>, polls: seq<nat>, id: string) returns (a: nat, b: nat, c: nat)
    requires Trace(trace) && |trace| < UINT64 && PollsForward(trace, polls)
    ensures Shaped(Answers(trace, polls, id), a, b, c)
  {
    a, b, c := Cut(trace, polls, id, 1), Cut(trace, polls, id, 2), Cut(trace, polls, id, 3);
    CutExact(trace, polls, id, 1);
    CutExact(trace, polls, id, 2);
    CutExact(trace, polls, id, 3);
    CutsOrdered(trace, polls, id, 1, 2);
    CutsOrdered(trace, polls, id, 2, 3);
    var answers := Answers(trace, polls, id);
    forall k | 0 <= k < |polls|
      ensures k < a ==> answers[k].None?
      ensures a <= k < b ==> IsRunning(answers[k])
      ensures b <= k < c ==> IsTerminal(answers[k])
      ensures c <= k ==> answers[k].None?
    {
      StageAnswers(trace, polls[k], id);
    }
    forall k | b <= k < c
      ensures answers[k] == answers[b]
    {
      StagesGrow(trace, polls[b], polls[k], id);
    }
    forall k, l | a <= k <= l < c
      ensures answers[k].value.processed <= answers[l].value.processed
    {
      ProcessedGrows(trace, polls[k], polls[l], id);
    }
  }

  lemma {:induction false} CutsOrdered(trace: seq<System>, polls: seq<nat>, id: string, m: nat, n: nat)
    requires forall k :: 0 <= k < |polls| ==> polls[k] < |trace|
    requires m <= n
    ensures Cut(trace, polls, id, m) <= Cut(trace, polls, id, n) <= |polls|
  {
    if polls != [] {
      CutsOrdered(trace, polls[..|polls| - 1], id, m, n);
    }
  }

  /** What Status answers at each stage. */
  lemma StageAnswers(trace: seq<System>, i: nat, id: string)
    requires Trace(trace) && i < |trace|
    ensures var answer := Status(trace[i].jobs, id);
      && (IsRunning(answer) <==> Stage(trace[i], id) == 1)
      && (IsTerminal(answer) <==> Stage(trace[i], id) == 2)
      && (answer.None? <==> Stage(trace[i], id) == 0 || Stage(trace[i], id) == 3)
  {
    TraceInv(trace, i);
  }

  // ---------- no missed outcome ----------

  /** The job is known, and if it has ended, that was not before `since`. */
  predicate KnownSince(s: System, id: string, since: nat) {
    id in s.jobs.byID && (RunningJob(s, id) || since <= s.jobs.byID[id].finishedAt)
  }

  lemma KnownStep(s: System, a: Action, id: string, since: nat)
    requires Owned(s) && Can(s, a)
    requires KnownSince(s, id, since) && since <= s.now < since + JOB_TTL
    ensures KnownSince(Do(s, a), id, since)
  {
    match a
    case Tick(_) =>
    case CallStart(_, _) =>
    case CountStart(_) =>
    case CallSetTotal(_, _) =>
    case CallIncrProcessed(_) =>
    case CallComplete(_) =>
    case CallFail(_, _) =>
    case CountFinish(_) =>
  }

  lemma KnownTraceStep(trace: seq<System>, i: nat, id: string, since: nat)
    requires Trace(trace) && i + 1 < |trace|
    requires KnownSince(trace[i], id, since) && since <= trace[i].now < since + JOB_TTL
    ensures KnownSince(trace[i + 1], id, since)
  {
    TraceStep(trace, i);
    var a :| Can(trace[i], a) && trace[i + 1] == Do(trace[i], a);
    KnownStep(trace[i], a, id, since);
  }

  lemma ClockForward(trace: seq<System>, i: nat, j: nat)
    requires Trace(trace) && i <= j < |trace|
    ensures trace[i].now <= trace[j].now
  {
    StagesGrow(trace, i, j, "");
  }

  /** No missed outcome: a job seen running stays known until the TTL of ten minutes has passed, so a client that comes
      back sooner sees it running or sees its outcome. */
  lemma {:induction false} KnownForTTL(trace: seq<System>, i: nat, j: nat, id: string)
    requires Trace(trace) && i <= j < |trace|
    requires RunningJob(trace[i], id)
    requires trace[j].now - trace[i].now < 600_000_000_000
    ensures KnownSince(trace[j], id, trace[i].now)
    decreases j
  {
    if i == j {
    } else {
      ClockForward(trace, i, j - 1);
      ClockForward(trace, j - 1, j);
      KnownForTTL(trace, i, j - 1, id);
      KnownTraceStep(trace, j - 1, id, trace[i].now);
    }
  }

  lemma Longer(trace: seq<System>, a: Action) returns (more: seq<System>)
    requires Trace(trace) && Can(trace[|trace| - 1], a)
    ensures Trace(more) && more == trace + [Do(trace[|trace| - 1], a)]
  {
    more := trace + [Do(trace[|trace| - 1], a)];
    assert StepTo(trace[|trace| - 1], Do(trace[|trace| - 1], a));
    forall i | 0 <= i < |more| - 1
      ensures StepTo(more[i], more[i + 1])
    {
      assert i < |trace| - 1 ==> StepTo(trace[i], trace[i + 1]);
    }
  }

  /** The bound is exact: a client that stays away for the TTL may find the job gone without having seen
      its outcome. */
  lemma OutcomeMissedAtTTL() returns (trace: seq<System>)
    ensures Trace(trace) && |trace| == 6
    ensures RunningJob(trace[2], "a") && "a" !in trace[5].jobs.byID && trace[5].now - trace[2].now == 600_000_000_000
  {
    trace := [Init(0)];
    trace := Longer(trace, CallStart("P", "a"));
    trace := Longer(trace, CountStart("a"));
    trace := Longer(trace, CallComplete("a"));
    trace := Longer(trace, Tick(JOB_TTL));
    trace := Longer(trace, CallStart("Q", "b"));
  }

  // ---------- the CLI's wait ----------

  datatype WaitResult = Synced | SyncFailed(errMsg: string) | JobDisappeared | WaitCancelled

  /** Polls at the ticks polls[1], polls[2] and so on, until the job has ended or the client's context is
      done. polls[0] is the moment when SyncProject returned the id of a running job, and the ticks come less
      than the TTL apart. `ctxDone[k]`: the context is done when tick k comes; the select then takes either
      branch. `None`: the ticks given are used up and the job runs on. */
  method WaitForSync(trace: seq<System>, polls: seq<nat>, ctxDone: seq<bool>, syncID: string) returns (r: Option<WaitResult>)
    requires Trace(trace) && PollsForward(trace, polls) && polls != [] && |ctxDone| == |polls|
    requires RunningJob(trace[polls[0]], syncID)
    requires forall k :: 0 < k < |polls| ==> trace[polls[k]].now - trace[polls[k - 1]].now < 600_000_000_000
    ensures r != Some(JobDisappeared)
    ensures r == None ==> forall k :: 0 <= k < |polls| ==> RunningJob(trace[polls[k]], syncID)
    ensures r == Some(WaitCancelled) ==> exists k :: 0 < k < |polls| && ctxDone[k]
    ensures r.Some? && r.value != WaitCancelled ==>
      exists k :: 0 < k < |polls| && Tells(r.value, Status(trace[polls[k]].jobs, syncID))
  {
    for k := 1 to |polls|
      invariant forall l :: 0 <= l < k ==> RunningJob(trace[polls[l]], syncID)
    {
      var takeDone: bool := *;
      if ctxDone[k] && takeDone {
        return Some(WaitCancelled);
      }
      KnownForTTL(trace, polls[k - 1], polls[k], syncID);
      var snap := Status(trace[polls[k]].jobs, syncID);
      if snap == None {
        return Some(JobDisappeared);
      }
      match snap.value.state
      case Running =>
      case Completed => return Some(Synced);
      case Failed => return Some(SyncFailed(snap.value.errMsg));
    }
    return None;
  }

  /** The result says what the registry answered. */
  predicate Tells(r: WaitResult, answer: Option<JobRecord>) {
    match r
    case Synced => answer.Some? && answer.value.state == Completed
    case SyncFailed(m) => answer.Some? && answer.value.state == Failed && answer.value.errMsg == m
    case JobDisappeared => answer == None
    case WaitCancelled => true
  }
}
