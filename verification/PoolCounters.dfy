/** The pool's two counters, told apart: tasks whose processing failed and tasks whose processing did not
    (internal/workerpool/workerpool.go, PoolStats). */
module PoolCounters {
  import opened Wrappers
  import opened PoolProtocol
  import opened PoolInvariant
  import opened PoolRuns

  /** How many of the results are errors. */
  function Errors(results: seq<TaskResult>): nat {
    if results == [] then 0
    else Errors(results[..|results| - 1]) + One(results[|results| - 1].outcome.Failed?)
  }

  predicate HoldsError(w: Worker) {
    w.Sending? && w.result.outcome.Failed?
  }

  /** How many workers have an error to send. */
  function ErrorsHeld(workers: seq<Worker>): nat {
    if workers == [] then 0 else ErrorsHeld(workers[..|workers| - 1]) + One(HoldsError(workers[|workers| - 1]))
  }

  /** Failed counts exactly the errors, wherever they are. */
  predicate Tallied(s: State) {
    s.statFailed == ErrorsHeld(s.workers) + Errors(s.resultCh) + Errors(s.received) + Errors(s.dropped)
  }

  lemma ErrorsSnoc(results: seq<TaskResult>, r: TaskResult)
    ensures Errors(results + [r]) == Errors(results) + One(r.outcome.Failed?)
  {
    assert (results + [r])[..|results|] == results;
  }

  lemma {:induction false} ErrorsFirst(results: seq<TaskResult>)
    requires results != []
    ensures Errors(results) == One(results[0].outcome.Failed?) + Errors(results[1..])
  {
    var n := |results| - 1;
    if n > 0 {
      ErrorsFirst(results[..n]);
      assert results[..n][1..] == results[1..][..n - 1];
    }
  }

  lemma {:induction false} ErrorsUpdate(workers: seq<Worker>, w: nat, y: Worker)
    requires w < |workers|
    ensures ErrorsHeld(workers[w := y]) == ErrorsHeld(workers) - One(HoldsError(workers[w])) + One(HoldsError(y))
  {
    var n := |workers| - 1;
    if w == n {
      assert workers[w := y][..n] == workers[..n];
    } else {
      ErrorsUpdate(workers[..n], w, y);
      assert workers[w := y][..n] == workers[..n][w := y];
    }
  }

  lemma {:induction false} NoErrorsHeld(workers: seq<Worker>)
    requires forall w :: 0 <= w < |workers| ==> workers[w].Waiting?
    ensures ErrorsHeld(workers) == 0
  {
    if workers != [] {
      NoErrorsHeld(workers[..|workers| - 1]);
    }
  }

  lemma TalliedFinish(s: State, w: nat, outcome: Outcome)
    requires Tallied(s) && w < |s.workers| && s.workers[w].Processing?
    ensures Tallied(Finished(s, w, outcome))
  {
    ErrorsUpdate(s.workers, w, Sending(TaskResult(s.workers[w].task, outcome)));
  }

  lemma TalliedSent(s: State, w: nat)
    requires Tallied(s) && w < |s.workers| && s.workers[w].Sending?
    ensures Tallied(ResultSent(s, w))
  {
    ErrorsUpdate(s.workers, w, Waiting);
    ErrorsSnoc(s.resultCh, s.workers[w].result);
  }

  lemma TalliedDropped(s: State, w: nat)
    requires Tallied(s) && w < |s.workers| && s.workers[w].Sending?
    ensures Tallied(ResultDropped(s, w))
  {
    ErrorsUpdate(s.workers, w, Gone);
    ErrorsSnoc(s.dropped, s.workers[w].result);
  }

  lemma TalliedHanded(s: State, w: nat)
    requires Tallied(s) && w < |s.workers| && s.workers[w].Sending?
    ensures Tallied(Take(SetWorker(s, w, Waiting), s.workers[w].result))
  {
    ErrorsUpdate(s.workers, w, Waiting);
    ErrorsSnoc(s.received, s.workers[w].result);
  }

  /** A worker takes a task, or leaves: it holds no result before or after. */
  lemma TalliedWorker(s: State, s': State, w: nat, y: Worker)
    requires Tallied(s) && w < |s.workers| && !s.workers[w].Sending? && !y.Sending? && s'.workers == s.workers[w := y]
    requires s'.resultCh == s.resultCh && s'.received == s.received && s'.dropped == s.dropped
    requires s'.statFailed == s.statFailed
    ensures Tallied(s')
  {
    ErrorsUpdate(s.workers, w, y);
  }

  lemma TalliedCollect(s: State)
    requires Tallied(s) && s.resultCh != []
    ensures Tallied(Take(s.(resultCh := s.resultCh[1..]), s.resultCh[0]))
  {
    ErrorsFirst(s.resultCh);
    ErrorsSnoc(s.received, s.resultCh[0]);
  }

  lemma TalliedSame(s: State, s': State)
    requires Tallied(s) && s'.workers == s.workers && s'.resultCh == s.resultCh
    requires s'.received == s.received && s'.dropped == s.dropped && s'.statFailed == s.statFailed
    ensures Tallied(s')
  {
  }

  /** Steps that touch no result. */
  predicate TouchesNoResult(a: Action) {
    a.Enqueue? || a.HandTask? || a.Receive? || a.SeeTasksClosed? || a.Quit?
  }

  lemma TalliedTasks(c: Config, s: State, a: Action)
    requires Tallied(s) && TouchesNoResult(a) && MoveEnabled(c, s, a)
    ensures Tallied(MoveNext(c, s, a))
  {
    match a
    case Enqueue => TalliedSame(s, MoveNext(c, s, a));
    case HandTask(w) => TalliedWorker(s, TaskHanded(s, w), w, Processing(s.todo[0]));
    case Receive(w) => TalliedWorker(s, TaskReceived(s, w), w, Processing(s.taskCh[0]));
    case SeeTasksClosed(w) => TalliedWorker(s, SetWorker(s, w, Gone), w, Gone);
    case Quit(w) => TalliedWorker(s, SetWorker(s, w, Gone), w, Gone);
  }

  lemma TalliedResults(c: Config, s: State, a: Action)
    requires Tallied(s) && !Quiet(a) && !TouchesNoResult(a) && MoveEnabled(c, s, a)
    ensures Tallied(MoveNext(c, s, a))
  {
    match a
    case Finish(w) => TalliedFinish(s, w, c.process(s.workers[w].task));
    case FinishCancelled(w) => TalliedFinish(s, w, Failed);
    case SendResult(w) => if s.resultClosed { TalliedSame(s, s.(crashed := true)); } else { TalliedSent(s, w); }
    case HandResult(w) => TalliedHanded(s, w);
    case DropResult(w) => TalliedDropped(s, w);
    case Collect => TalliedCollect(s);
  }

  lemma {:induction false} TalliedRun(c: Config, ctxDone: bool, actions: seq<Action>)
    requires Exec(c, ctxDone, actions).Some?
    ensures Tallied(Exec(c, ctxDone, actions).value)
  {
    if actions == [] {
      NoErrorsHeld(Init(c, ctxDone).workers);
    } else {
      var n := |actions| - 1;
      TalliedRun(c, ctxDone, actions[..n]);
      var s, a := Exec(c, ctxDone, actions[..n]).value, actions[n];
      if Quiet(a) {
        if OfProducer(a) {
          ProducerMovesNothing(s, a);
        } else {
          OthersMoveNothing(s, a);
        }
      } else if TouchesNoResult(a) {
        TalliedTasks(c, s, a);
      } else {
        TalliedResults(c, s, a);
      }
    }
  }

  /** In every reachable state Failed counts the errors among the results past Process, wherever they are,
      and Processed counts the others. */
  lemma CountersExact(c: Config, s: State)
    requires Reachable(c, s)
    ensures var past := CountSending(s.workers) + |s.resultCh| + |s.received| + |s.dropped|;
      var errors := ErrorsHeld(s.workers) + Errors(s.resultCh) + Errors(s.received) + Errors(s.dropped);
      s.statFailed == errors && s.statProcessed == past - errors
  {
    PoolConservation(c, s);
    var ctxDone, actions :| Exec(c, ctxDone, actions) == Some(s);
    TalliedRun(c, ctxDone, actions);
  }
}
