/** Whole runs of the page fetch: safety, termination, deadlock freedom and completeness. */
module PoolRuns {
  import opened Wrappers
  import opened Jira
  import opened PoolProtocol
  import opened PoolInvariant

  /** The state after performing `actions` one after the other, if each was enabled when its turn came. */
  function Exec(c: Config, ctxDone: bool, actions: seq<Action>): Option<State> {
    if actions == [] then
      Some(Init(c, ctxDone))
    else
      match Exec(c, ctxDone, actions[..|actions| - 1])
      case None => None
      case Some(s) =>
        var a := actions[|actions| - 1];
        if Enabled(c, s, a) then Some(Next(c, s, a)) else None
  }

  ghost predicate Reachable(c: Config, s: State) {
    exists ctxDone, actions :: Exec(c, ctxDone, actions) == Some(s)
  }

  lemma Starts(c: Config, ctxDone: bool)
    ensures Reachable(c, Init(c, ctxDone))
  {
    assert Exec(c, ctxDone, []) == Some(Init(c, ctxDone));
  }

  lemma Goes(c: Config, s: State, a: Action)
    requires Reachable(c, s) && Enabled(c, s, a)
    ensures Reachable(c, Next(c, s, a))
  {
    var ctxDone, actions :| Exec(c, ctxDone, actions) == Some(s);
    assert (actions + [a])[..|actions|] == actions;
    assert Exec(c, ctxDone, actions + [a]) == Some(Next(c, s, a));
  }

  // ---------- termination ----------

  function WorkerWeight(w: Worker): nat {
    match w
    case Waiting => 1
    case Processing(_) => 5
    case Sending(_) => 4
    case Gone => 0
  }

  function CrewWeight(workers: seq<Worker>): nat {
    if workers == [] then 0 else CrewWeight(workers[..|workers| - 1]) + WorkerWeight(workers[|workers| - 1])
  }

  lemma {:induction false} CrewWeightUpdate(workers: seq<Worker>, w: nat, y: Worker)
    requires w < |workers|
    ensures CrewWeight(workers[w := y]) == CrewWeight(workers) - WorkerWeight(workers[w]) + WorkerWeight(y)
  {
    var n := |workers| - 1;
    if w == n {
      assert workers[w := y][..n] == workers[..n];
    } else {
      CrewWeightUpdate(workers[..n], w, y);
      assert workers[w := y][..n] == workers[..n][w := y];
    }
  }

  lemma {:induction false} CrewWeightWaiting(workers: seq<Worker>)
    requires forall w :: 0 <= w < |workers| ==> workers[w].Waiting?
    ensures CrewWeight(workers) == |workers|
  {
    if workers != [] {
      CrewWeightWaiting(workers[..|workers| - 1]);
    }
  }

  function ProducerWeight(p: Producer): nat {
    match p
    case AtCheck => 4
    case AtSelect => 3
    case AtStore(_) => 2
    case AtClose(_) => 1
    case ProducerDone(_) => 0
  }

  function WatcherWeight(w: Watcher): nat {
    match w
    case Watching => 2
    case FlagStored => 1
    case Closed => 0
  }

  function CollectorWeight(c: Collector): nat {
    match c
    case Ranging => 2
    case Cancelled => 1
    case CollectorDone(_) => 0
  }

  function GoroutineWeight(s: State): nat {
    ProducerWeight(s.producer) + WatcherWeight(s.watcher) + CollectorWeight(s.collector) + One(!s.ctxDone)
  }

  /** Unsubmitted, queued, held and undelivered work, and the goroutines' remaining steps. */
  function Measure(s: State): nat {
    7 * |s.todo| + 5 * |s.taskCh| + CrewWeight(s.workers) + 2 * |s.resultCh| + GoroutineWeight(s)
  }

  lemma InitMeasure(c: Config, ctxDone: bool)
    ensures Measure(Init(c, ctxDone)) <= 7 * |c.page| + c.workers + 9
  {
    CrewWeightWaiting(Init(c, ctxDone).workers);
  }

  /** A worker goes to y, and what it gives up outweighs what the rest takes on. */
  lemma WorkerMoveLowers(s: State, s': State, w: nat, y: Worker)
    requires w < |s.workers| && s'.workers == s.workers[w := y]
    requires 7 * |s'.todo| + 5 * |s'.taskCh| + 2 * |s'.resultCh| + GoroutineWeight(s') + WorkerWeight(y) <
             7 * |s.todo| + 5 * |s.taskCh| + 2 * |s.resultCh| + GoroutineWeight(s) + WorkerWeight(s.workers[w])
    ensures Measure(s') < Measure(s)
  {
    CrewWeightUpdate(s.workers, w, y);
  }

  lemma QueuedLowers(s: State)
    requires s.producer.AtSelect? && s.todo != []
    ensures Measure(Queued(s)) < Measure(s)
  {
  }

  lemma TaskHandedLowers(s: State, w: nat)
    requires s.producer.AtSelect? && s.todo != [] && w < |s.workers| && s.workers[w].Waiting?
    ensures Measure(TaskHanded(s, w)) < Measure(s)
  {
    WorkerMoveLowers(s, TaskHanded(s, w), w, Processing(s.todo[0]));
  }

  lemma TaskReceivedLowers(s: State, w: nat)
    requires s.taskCh != [] && w < |s.workers| && s.workers[w].Waiting?
    ensures Measure(TaskReceived(s, w)) < Measure(s)
  {
    WorkerMoveLowers(s, TaskReceived(s, w), w, Processing(s.taskCh[0]));
  }

  lemma LeaveLowers(s: State, w: nat)
    requires w < |s.workers| && s.workers[w].Waiting?
    ensures Measure(SetWorker(s, w, Gone)) < Measure(s)
  {
    WorkerMoveLowers(s, SetWorker(s, w, Gone), w, Gone);
  }

  lemma ResultSentLowers(s: State, w: nat)
    requires w < |s.workers| && s.workers[w].Sending?
    ensures Measure(ResultSent(s, w)) < Measure(s)
  {
    WorkerMoveLowers(s, ResultSent(s, w), w, Waiting);
  }

  lemma ResultHandedLowers(s: State, w: nat)
    requires w < |s.workers| && s.workers[w].Sending? && s.collector.Ranging?
    ensures Measure(Take(SetWorker(s, w, Waiting), s.workers[w].result)) < Measure(s)
  {
    WorkerMoveLowers(s, Take(SetWorker(s, w, Waiting), s.workers[w].result), w, Waiting);
  }

  lemma ResultDroppedLowers(s: State, w: nat)
    requires w < |s.workers| && s.workers[w].Sending?
    ensures Measure(ResultDropped(s, w)) < Measure(s)
  {
    WorkerMoveLowers(s, ResultDropped(s, w), w, Gone);
  }

  lemma CollectLowers(s: State)
    requires s.resultCh != [] && s.collector.Ranging?
    ensures Measure(Take(s.(resultCh := s.resultCh[1..]), s.resultCh[0])) < Measure(s)
  {
  }

  lemma MeasureMove(c: Config, s: State, a: Action)
    requires Control(c, s) && Crew(c, s) && !Quiet(a) && MoveEnabled(c, s, a)
    ensures Measure(MoveNext(c, s, a)) < Measure(s)
  {
    match a
    case Enqueue => QueuedLowers(s);
    case HandTask(w) => TaskHandedLowers(s, w);
    case Receive(w) => TaskReceivedLowers(s, w);
    case SeeTasksClosed(w) => LeaveLowers(s, w);
    case Quit(w) => LeaveLowers(s, w);
    case Finish(w) => FinishLowers(s, w, c.process(s.workers[w].task));
    case FinishCancelled(w) => FinishLowers(s, w, Failed);
    case SendResult(w) => ResultSentLowers(s, w);
    case HandResult(w) => ResultHandedLowers(s, w);
    case DropResult(w) => ResultDroppedLowers(s, w);
    case Collect => CollectLowers(s);
  }

  lemma FinishLowers(s: State, w: nat, outcome: Outcome)
    requires w < |s.workers| && s.workers[w].Processing?
    ensures Measure(Finished(s, w, outcome)) < Measure(s)
  {
    WorkerMoveLowers(s, Finished(s, w, outcome), w, Sending(TaskResult(s.workers[w].task, outcome)));
  }

  lemma ProducerLowers(s: State, a: Action)
    requires OfProducer(a) && QuietEnabled(s, a)
    ensures GoroutineWeight(ProducerNext(s, a)) < GoroutineWeight(s)
  {
  }

  lemma OthersLower(s: State, a: Action)
    requires Quiet(a) && !OfProducer(a) && QuietEnabled(s, a)
    ensures GoroutineWeight(OtherNext(s, a)) < GoroutineWeight(s)
  {
  }

  lemma MeasureQuiet(s: State, a: Action)
    requires Quiet(a) && QuietEnabled(s, a)
    ensures Measure(QuietNext(s, a)) < Measure(s)
  {
    if OfProducer(a) {
      ProducerMovesNothing(s, a);
      ProducerLowers(s, a);
    } else {
      OthersMoveNothing(s, a);
      OthersLower(s, a);
    }
  }

  /** Every step, also a cancellation, lowers the measure. */
  lemma MeasureStep(c: Config, s: State, a: Action)
    requires Inv(c, s) && Enabled(c, s, a)
    ensures Measure(Next(c, s, a)) < Measure(s)
  {
    if Quiet(a) {
      MeasureQuiet(s, a);
    } else {
      MeasureMove(c, s, a);
    }
  }

  /** Every run keeps the invariant, and no run is longer than seven steps a task and one a worker, and
      nine more. */
  lemma {:induction false} EveryRun(c: Config, ctxDone: bool, actions: seq<Action>)
    requires Exec(c, ctxDone, actions).Some?
    ensures Inv(c, Exec(c, ctxDone, actions).value)
    ensures |actions| + Measure(Exec(c, ctxDone, actions).value) <= 7 * |c.page| + c.workers + 9
  {
    if actions == [] {
      InitInv(c, ctxDone);
      InitMeasure(c, ctxDone);
    } else {
      var n := |actions| - 1;
      EveryRun(c, ctxDone, actions[..n]);
      var s := Exec(c, ctxDone, actions[..n]).value;
      InvStep(c, s, actions[n]);
      MeasureStep(c, s, actions[n]);
    }
  }

  /** Conservation, in every reachable state: the tasks whose Submit returned nil are a prefix of the page,
      and each of them is in exactly one place: queued, in a worker's hands, delivered, received, or
      dropped, which takes a cancellation. The counters count exactly the tasks past Process, all of
      whose results are true to the processor. */
  lemma PoolConservation(c: Config, s: State)
    requires Reachable(c, s)
    ensures TodoIsTail(c, s)
    ensures forall x :: CountTask(Submitted(c, s), x) ==
              CountTask(s.taskCh, x) + CountHeld(s.workers, x) + CountResult(s.resultCh, x) +
              CountResult(s.received, x) + CountResult(s.dropped, x)
    ensures s.dropped != [] ==> s.ctxDone
    ensures s.statProcessed + s.statFailed == CountSending(s.workers) + |s.resultCh| + |s.received| + |s.dropped|
    ensures AllTrue(c, s.ctxDone, s.resultCh + s.received) && s.collected == ItemsOf(s.received)
  {
    var ctxDone, actions :| Exec(c, ctxDone, actions) == Some(s);
    EveryRun(c, ctxDone, actions);
  }

  // ---------- deadlock freedom ----------

  /** Something other than a cancellation from outside can happen. */
  ghost predicate CanMove(c: Config, s: State) {
    exists a :: Enabled(c, s, a) && !a.CancelContext?
  }

  lemma WorkerCanMove(c: Config, s: State, w: nat)
    requires Inv(c, s) && w < |s.workers| && !s.workers[w].Gone?
    requires (s.producer.AtSelect? && |s.taskCh| >= c.queueSize) || s.producer.ProducerDone?
    requires s.collector.Ranging?
    ensures CanMove(c, s)
  {
    match s.workers[w]
    case Processing(_) => assert Enabled(c, s, Finish(w));
    case Sending(_) =>
      if |s.resultCh| < c.queueSize { assert Enabled(c, s, SendResult(w)); }
      else if s.resultCh == [] { assert Enabled(c, s, HandResult(w)); }
      else { assert Enabled(c, s, Collect); }
    case Waiting =>
      if s.taskCh != [] { assert Enabled(c, s, Receive(w)); }
      else if s.producer.AtSelect? { assert Enabled(c, s, HandTask(w)); }
      else { assert Enabled(c, s, SeeTasksClosed(w)); }
  }

  lemma ProducerCanMove(c: Config, s: State)
    requires Inv(c, s) && !s.producer.ProducerDone?
    requires c.workers >= 1 || |c.page| <= c.queueSize || s.ctxDone
    ensures CanMove(c, s)
  {
    assert c.workers >= 1 && AllGone(s.workers) ==> s.workers[0].Gone?;
    match s.producer
    case AtCheck => assert Enabled(c, s, CheckFlag);
    case AtStore(_) => assert Enabled(c, s, StoreFlag);
    case AtClose(_) => assert Enabled(c, s, CloseTasks);
    case AtSelect =>
      if GroupDone(s) { assert Enabled(c, s, SubmitCancelled); }
      else if |s.taskCh| < c.queueSize { assert Enabled(c, s, Enqueue); }
      else if w :| 0 <= w < |s.workers| && !s.workers[w].Gone? {
        WorkerCanMove(c, s, w);
      }
  }

  /** Until the fetch returns, some goroutine can take a step, provided there is a worker, or the queue
      takes the whole page, or the context is done. */
  lemma NoDeadlock(c: Config, s: State)
    requires Inv(c, s) && !Returned(s)
    requires c.workers >= 1 || |c.page| <= c.queueSize || s.ctxDone
    ensures CanMove(c, s)
  {
    if !s.producer.ProducerDone? {
      ProducerCanMove(c, s);
    } else if s.collector.Cancelled? {
      assert Enabled(c, s, CollectorReturns);
    } else if s.resultCh != [] {
      assert Enabled(c, s, Collect);
    } else if w :| 0 <= w < |s.workers| && !s.workers[w].Gone? {
      WorkerCanMove(c, s, w);
    } else {
      match s.watcher
      case Watching => assert Enabled(c, s, WatcherStore);
      case FlagStored => assert Enabled(c, s, WatcherClose);
      case Closed => assert Enabled(c, s, SeeResultsClosed);
    }
  }

  /** Stuck for good, short of a cancellation. */
  ghost predicate Deadlock(c: Config, s: State) {
    Reachable(c, s) && !Returned(s) && !CanMove(c, s)
  }

  /** k tasks submitted and queued, nothing else done. */
  function Filled(c: Config, k: nat): State
    requires k <= |c.page|
  {
    Init(c, false).(todo := c.page[k..], taskCh := c.page[..k])
  }

  lemma {:induction false} FillQueue(c: Config, k: nat)
    requires k <= |c.page| && k <= c.queueSize
    ensures Reachable(c, Filled(c, k))
  {
    if k == 0 {
      Starts(c, false);
      assert Filled(c, 0) == Init(c, false);
    } else {
      FillQueue(c, k - 1);
      var s := Filled(c, k - 1);
      Goes(c, s, CheckFlag);
      s := Next(c, s, CheckFlag);
      assert c.page[k - 1..][1..] == c.page[k..] && c.page[..k - 1] + [c.page[k - 1]] == c.page[..k];
      Goes(c, s, Enqueue);
    }
  }

  /** The queue is full, the producer blocked, and everybody else has left. */
  function Stuck(c: Config): State
    requires |c.page| > c.queueSize
  {
    Filled(c, c.queueSize).(producer := AtSelect, stopped := true, watcher := Closed, resultClosed := true,
                            collector := CollectorDone(false))
  }

  lemma StuckCannotMove(c: Config)
    requires c.workers == 0 && |c.page| > c.queueSize
    ensures !CanMove(c, Stuck(c)) && !Returned(Stuck(c))
  {
    forall a | Enabled(c, Stuck(c), a)
      ensures a.CancelContext?
    {}
  }

  /** With no worker and a page that overfills the queue, the producer blocks for good once the watcher
      has let the collector go. */
  lemma NoWorkersDeadlock(c: Config) returns (s: State)
    requires c.workers == 0 && |c.page| > c.queueSize
    ensures Deadlock(c, s)
  {
    FillQueue(c, c.queueSize);
    s := Filled(c, c.queueSize);
    Goes(c, s, CheckFlag);
    s := Next(c, s, CheckFlag);
    Goes(c, s, WatcherStore);
    s := Next(c, s, WatcherStore);
    Goes(c, s, WatcherClose);
    s := Next(c, s, WatcherClose);
    Goes(c, s, SeeResultsClosed);
    s := Next(c, s, SeeResultsClosed);
    assert s == Stuck(c);
    StuckCannotMove(c);
  }

  /** The exact condition: a page fetch cannot deadlock if and only if there is a worker, or the queue
      takes the whole page. */
  lemma DeadlockFreeIff(c: Config)
    ensures (forall s :: !Deadlock(c, s)) <==> c.workers >= 1 || |c.page| <= c.queueSize
  {
    if c.workers >= 1 || |c.page| <= c.queueSize {
      forall s | Reachable(c, s) && !Returned(s)
        ensures CanMove(c, s)
      {
        var ctxDone, actions :| Exec(c, ctxDone, actions) == Some(s);
        EveryRun(c, ctxDone, actions);
        NoDeadlock(c, s);
      }
    } else {
      var s := NoWorkersDeadlock(c);
    }
  }
}
