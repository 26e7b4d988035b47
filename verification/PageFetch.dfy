/** The contract of `fetchPageIssues`, for every schedule. */
module PageFetch {
  import opened Wrappers
  import opened Jira
  import opened PoolProtocol
  import opened PoolInvariant
  import opened PoolRuns

  // ---------- results against tasks ----------

  /** The items the processor returns for the tasks, in order. */
  function Successes(c: Config, tasks: seq<Task>): seq<ProcessedIssue> {
    if tasks == [] then
      []
    else
      var rest := Successes(c, tasks[..|tasks| - 1]);
      match c.process(tasks[|tasks| - 1])
      case Item(item) => rest + [item]
      case _ => rest
  }

  /** The successes are the items of the successful tasks: each once, in the order of the tasks, and none
      left out. `from` lists their positions. */
  lemma {:induction false} SuccessesExact(c: Config, tasks: seq<Task>) returns (from: seq<nat>)
    ensures |from| == |Successes(c, tasks)|
    ensures forall i, j :: 0 <= i < j < |from| ==> from[i] < from[j]
    ensures forall j :: 0 <= j < |from| ==> from[j] < |tasks| && c.process(tasks[from[j]]) == Item(Successes(c, tasks)[j])
    ensures forall i :: 0 <= i < |tasks| && c.process(tasks[i]).Item? ==> i in from
  {
    from := [];
    if tasks != [] {
      var n := |tasks| - 1;
      from := SuccessesExact(c, tasks[..n]);
      if c.process(tasks[n]).Item? {
        from := from + [n];
      }
    }
  }

  lemma {:induction false} SuccessesConcat(c: Config, a: seq<Task>, b: seq<Task>)
    ensures Successes(c, a + b) == Successes(c, a) + Successes(c, b)
    decreases |b|
  {
    if b == [] {
      assert a + b == a;
    } else {
      var n := |b| - 1;
      assert (a + b)[..|a + b| - 1] == a + b[..n];
      SuccessesConcat(c, a, b[..n]);
    }
  }

  lemma {:induction false} CountTaskConcat(a: seq<Task>, b: seq<Task>, x: Task)
    ensures CountTask(a + b, x) == CountTask(a, x) + CountTask(b, x)
    decreases |b|
  {
    if b == [] {
      assert a + b == a;
    } else {
      var n := |b| - 1;
      assert (a + b)[..|a + b| - 1] == a + b[..n];
      CountTaskConcat(a, b[..n], x);
    }
  }

  lemma {:induction false} CountedTaskOccurs(tasks: seq<Task>, x: Task)
    requires CountTask(tasks, x) > 0
    ensures x in tasks
  {
    if tasks[|tasks| - 1] != x {
      CountedTaskOccurs(tasks[..|tasks| - 1], x);
    }
  }

  /** Takes one occurrence of t out of the tasks. */
  lemma TakeOut(c: Config, tasks: seq<Task>, t: Task) returns (rest: seq<Task>)
    requires t in tasks
    ensures forall x :: CountTask(tasks, x) == CountTask(rest, x) + One(t == x)
    ensures multiset(Successes(c, tasks)) == multiset(Successes(c, rest)) + multiset(Successes(c, [t]))
  {
    var i :| 0 <= i < |tasks| && tasks[i] == t;
    var a, b := tasks[..i], tasks[i + 1..];
    rest := a + b;
    assert tasks == a + ([t] + b);
    SuccessesConcat(c, a, [t] + b);
    SuccessesConcat(c, [t], b);
    SuccessesConcat(c, a, b);
    forall x
      ensures CountTask(tasks, x) == CountTask(rest, x) + One(t == x)
    {
      CountTaskConcat(a, [t] + b, x);
      CountTaskConcat([t], b, x);
      CountTaskConcat(a, b, x);
      assert [t][..0] == [];
    }
  }

  /** Truthful results for some of the tasks carry some of their items; truthful results for all of the
      tasks, without a cancellation, carry exactly their items. */
  lemma {:induction false} ItemsMatch(c: Config, ctxDone: bool, results: seq<TaskResult>, tasks: seq<Task>)
    requires AllTrue(c, ctxDone, results)
    requires forall x :: CountResult(results, x) <= CountTask(tasks, x)
    ensures multiset(ItemsOf(results)) <= multiset(Successes(c, tasks))
    ensures !ctxDone && (forall x :: CountResult(results, x) == CountTask(tasks, x)) ==>
              multiset(ItemsOf(results)) == multiset(Successes(c, tasks))
    decreases |results|
  {
    if results == [] {
      if tasks != [] {
        var t := tasks[|tasks| - 1];
        assert CountTask(tasks, t) > 0;
      }
    } else {
      var n := |results| - 1;
      var r := results[n];
      assert CountResult(results, r.task) > 0;
      CountedTaskOccurs(tasks, r.task);
      var rest := TakeOut(c, tasks, r.task);
      forall x
        ensures CountResult(results, x) == CountResult(results[..n], x) + One(r.task == x)
      {}
      ItemsMatch(c, ctxDone, results[..n], rest);
      assert True(c, ctxDone, r);
      assert [r.task][..0] == [];
    }
  }

  // ---------- what a finished fetch has collected ----------

  /** Results, whatever happened, carry only items of the page's tasks, none twice. */
  lemma CollectedFromPage(c: Config, s: State)
    requires Inv(c, s)
    ensures multiset(s.collected) <= multiset(Successes(c, c.page))
  {
    forall x
      ensures CountResult(s.received, x) <= CountTask(c.page, x)
    {
      assert c.page == Submitted(c, s) + s.todo;
      CountTaskConcat(Submitted(c, s), s.todo, x);
    }
    ItemsMatch(c, s.ctxDone, s.received, c.page);
  }

  /** The processor never returns a value of an unexpected type. */
  ghost predicate WellTyped(c: Config) {
    forall t :: !c.process(t).Odd?
  }

  /** Without a cancellation, a fetch that has returned has taken every task of the page to its result. */
  lemma EverythingReceived(c: Config, s: State)
    requires Inv(c, s) && Returned(s) && !s.ctxDone && c.workers >= 1 && WellTyped(c)
    ensures s.groupErr == None
    ensures s.statProcessed + s.statFailed == |s.received|
    ensures forall x :: CountResult(s.received, x) == CountTask(c.page, x)
  {
    if s.received != [] {
      assert True(c, s.ctxDone, s.received[|s.received| - 1]);
    }
    assert s.resultClosed && AllGone(s.workers) && s.workers[0].Gone?;
    assert s.taskCh == [] && s.todo == [] && s.dropped == [];
    assert Submitted(c, s) == c.page;
    forall x
      ensures CountResult(s.received, x) == CountTask(c.page, x)
    {
      AllGoneHoldNothing(s.workers, x);
      assert CountTask(Submitted(c, s), x) == Located(s, x);
    }
    AllGoneSendNothing(s.workers);
  }

  lemma {:induction false} AllGoneSendNothing(workers: seq<Worker>)
    requires AllGone(workers)
    ensures CountSending(workers) == 0
  {
    if workers != [] {
      AllGoneSendNothing(workers[..|workers| - 1]);
    }
  }

  /** Page completeness: without a cancellation the fetch returns no error and a permutation of the
      successful fetches of the page, for any number of workers from one up, any queue size down to
      zero, and any schedule. */
  lemma PageComplete(c: Config, s: State)
    requires Reachable(c, s) && Returned(s) && !s.ctxDone && c.workers >= 1 && WellTyped(c)
    ensures s.groupErr == None
    ensures multiset(s.collected) == multiset(Successes(c, c.page))
  {
    var ctxDone, actions :| Exec(c, ctxDone, actions) == Some(s);
    EveryRun(c, ctxDone, actions);
    EverythingReceived(c, s);
    ItemsMatch(c, s.ctxDone, s.received, c.page);
  }

  /** No error, and a permutation of the page's successful fetches. */
  ghost predicate Complete(c: Config, s: State) {
    s.groupErr == None && multiset(s.collected) == multiset(Successes(c, c.page))
  }

  lemma EmptyPageComplete(c: Config, s: State)
    requires Inv(c, s) && c.page == []
    ensures Complete(c, s)
  {
    assert Submitted(c, s) == [];
    if s.received != [] {
      var x := s.received[|s.received| - 1].task;
      assert CountTask(Submitted(c, s), x) == Located(s, x);
    }
  }

  /** Without workers a watcher that is quick enough stops the pool before the first Submit. */
  lemma NoWorkersRefuse(c: Config) returns (s: State)
    requires c.workers == 0 && c.page != []
    ensures Reachable(c, s) && Returned(s) && !s.ctxDone && !Complete(c, s)
  {
    s := Init(c, false);
    Starts(c, false);
    Goes(c, s, WatcherStore);
    s := Next(c, s, WatcherStore);
    Goes(c, s, CheckFlag);
    s := Next(c, s, CheckFlag);
    Goes(c, s, StoreFlag);
    s := Next(c, s, StoreFlag);
    Goes(c, s, CloseTasks);
    s := Next(c, s, CloseTasks);
    Goes(c, s, WatcherClose);
    s := Next(c, s, WatcherClose);
    Goes(c, s, SeeResultsClosed);
    s := Next(c, s, SeeResultsClosed);
  }

  /** The exact condition for completeness without a cancellation: there is a worker, or nothing to do. */
  lemma PageCompleteIff(c: Config)
    requires WellTyped(c)
    ensures (forall s :: Reachable(c, s) && Returned(s) && !s.ctxDone ==> Complete(c, s)) <==>
            c.workers >= 1 || c.page == []
  {
    if c.workers >= 1 || c.page == [] {
      forall s | Reachable(c, s) && Returned(s) && !s.ctxDone
        ensures Complete(c, s)
      {
        if c.page == [] {
          var ctxDone, actions :| Exec(c, ctxDone, actions) == Some(s);
          EveryRun(c, ctxDone, actions);
          EmptyPageComplete(c, s);
        } else {
          PageComplete(c, s);
        }
      }
    } else {
      var s := NoWorkersRefuse(c);
    }
  }

  /** What group.Wait() and the collected slice amount to. */
  function Returns(s: State): Result<seq<ProcessedIssue>, GroupError> {
    if s.groupErr.Some? then Err(s.groupErr.value) else Ok(s.collected)
  }

  // ---------- what outlives the fetch ----------

  /** When the fetch of a page returns, cancelled or not, every worker has returned and the result channel
      is closed: nothing of it is left behind. */
  lemma NothingOutlives(c: Config, s: State)
    requires Reachable(c, s) && Returned(s) && WellTyped(c)
    ensures AllGone(s.workers) && s.watcher.Closed? && s.resultClosed && s.taskClosed
  {
    var ctxDone, actions :| Exec(c, ctxDone, actions) == Some(s);
    EveryRun(c, ctxDone, actions);
    if s.received != [] {
      assert True(c, s.ctxDone, s.received[|s.received| - 1]);
    }
  }

  /** Worker w is still there, with a result in hand. */
  ghost predicate LeftBehind(s: State, w: nat) {
    w < |s.workers| && s.workers[w].Sending?
  }

  /** Two tasks, two workers, unbuffered channels, and a processor whose results are of an unexpected type. */
  function OddConfig(t: Task): Config {
    Config([t, t], 2, 0, task => Odd)
  }

  /** Both workers have a task in hand. */
  lemma BothProcessing(t: Task) returns (s: State)
    ensures Reachable(OddConfig(t), s) && s.workers == [Processing(t), Processing(t)]
    ensures s == Init(OddConfig(t), false).(todo := s.todo, workers := s.workers) && s.todo == []
  {
    var c := OddConfig(t);
    s := Init(c, false);
    Starts(c, false);
    Goes(c, s, CheckFlag);
    s := Next(c, s, CheckFlag);
    Goes(c, s, HandTask(0));
    s := Next(c, s, HandTask(0));
    Goes(c, s, CheckFlag);
    s := Next(c, s, CheckFlag);
    Goes(c, s, HandTask(1));
    s := Next(c, s, HandTask(1));
  }

  /** The collector has left with its error, and the second worker has a result in hand. */
  lemma CollectorLeaves(t: Task) returns (s: State)
    ensures Reachable(OddConfig(t), s) && s.workers == [Waiting, Sending(TaskResult(t, Odd))]
    ensures s.producer.AtCheck? && s.todo == [] && s.taskCh == [] && s.resultCh == [] && s.watcher.Watching?
    ensures s.collector == CollectorDone(true) && s.groupErr == Some(UnexpectedResult) && !s.ctxDone && !s.resultClosed
  {
    var c := OddConfig(t);
    s := BothProcessing(t);
    Goes(c, s, Finish(0));
    s := Next(c, s, Finish(0));
    Goes(c, s, Finish(1));
    s := Next(c, s, Finish(1));
    Goes(c, s, HandResult(0));
    s := Next(c, s, HandResult(0));
    Goes(c, s, CollectorReturns);
    s := Next(c, s, CollectorReturns);
  }

  /** Nothing in this state can move before the context is done. */
  lemma StuckBehind(c: Config, s: State)
    requires c.queueSize == 0 && |s.workers| == 2 && s.workers[0].Gone? && LeftBehind(s, 1)
    requires Returned(s) && s.watcher.Watching? && !s.ctxDone && !s.resultClosed
    ensures !CanMove(c, s)
  {
    assert !s.workers[1].Gone?;
  }

  /** It takes a well-typed processor: after a result of an unexpected type the collector leaves, and a
      worker with a result in hand has nobody to send it to until the run's context is done. */
  lemma CollectorErrorLeavesWorker(t: Task) returns (s: State)
    ensures Reachable(OddConfig(t), s) && Returned(s) && s.groupErr == Some(UnexpectedResult)
    ensures LeftBehind(s, 1) && !CanMove(OddConfig(t), s)
  {
    var c := OddConfig(t);
    s := CollectorLeaves(t);
    Goes(c, s, CheckFlag);
    s := Next(c, s, CheckFlag);
    Goes(c, s, StoreFlag);
    s := Next(c, s, StoreFlag);
    Goes(c, s, CloseTasks);
    s := Next(c, s, CloseTasks);
    Goes(c, s, SeeTasksClosed(0));
    s := Next(c, s, SeeTasksClosed(0));
    StuckBehind(c, s);
  }

  /** One task, one worker, one place in each queue. */
  function OneTask(t: Task, item: ProcessedIssue): Config {
    Config([t], 1, 1, task => Item(item))
  }

  /** The task is queued, the producer has returned, and the context is done. */
  lemma QueuedThenCancelled(t: Task, item: ProcessedIssue) returns (s: State)
    ensures Reachable(OneTask(t, item), s) && s.producer == ProducerDone(None) && s.workers == [Waiting]
    ensures s.watcher.Watching? && s.collector.Ranging? && s.ctxDone && s.groupErr == None
    ensures s.resultCh == [] && s.collected == []
  {
    var c := OneTask(t, item);
    s := Init(c, false);
    Starts(c, false);
    Goes(c, s, CheckFlag);
    s := Next(c, s, CheckFlag);
    Goes(c, s, Enqueue);
    s := Next(c, s, Enqueue);
    Goes(c, s, CheckFlag);
    s := Next(c, s, CheckFlag);
    Goes(c, s, StoreFlag);
    s := Next(c, s, StoreFlag);
    Goes(c, s, CloseTasks);
    s := Next(c, s, CloseTasks);
    Goes(c, s, CancelContext);
    s := Next(c, s, CancelContext);
  }

  /** After a cancellation the fetch can return part of the page with no error. */
  lemma PartialPage(t: Task, item: ProcessedIssue) returns (s: State)
    ensures Reachable(OneTask(t, item), s) && Returned(s) && s.ctxDone
    ensures Returns(s) == Ok([]) && Successes(OneTask(t, item), [t]) == [item]
  {
    var c := OneTask(t, item);
    assert [t][..0] == [];
    s := QueuedThenCancelled(t, item);
    Goes(c, s, Quit(0));
    s := Next(c, s, Quit(0));
    Goes(c, s, WatcherStore);
    s := Next(c, s, WatcherStore);
    Goes(c, s, WatcherClose);
    s := Next(c, s, WatcherClose);
    Goes(c, s, SeeResultsClosed);
    s := Next(c, s, SeeResultsClosed);
  }

  /** Channel safety, in every reachable state: nothing has panicked unrecovered, and Submit's recovered
      panic has not happened either; the result channel is closed only when every worker has returned;
      the task channel is closed only by the producer's Stop, after its last Submit. */
  lemma ChannelsSafe(c: Config, s: State)
    requires Reachable(c, s)
    ensures !s.crashed
    ensures LeavingError(s.producer) != Some(PanicRecovered)
    ensures s.groupErr != Some(SubmitFailed(PanicRecovered))
    ensures s.resultClosed ==> AllGone(s.workers)
    ensures s.taskClosed <==> s.producer.ProducerDone?
  {
    var ctxDone, actions :| Exec(c, ctxDone, actions) == Some(s);
    EveryRun(c, ctxDone, actions);
  }

  // ---------- the fetch itself ----------

  /** Every action that can be enabled with this many workers. */
  function Actions(workers: nat): set<Action> {
    {CheckFlag, Enqueue, SubmitCancelled, StoreFlag, CloseTasks, WatcherStore, WatcherClose,
     Collect, SeeResultsClosed, CollectorReturns, CancelContext} +
    (set w | 0 <= w < workers :: HandTask(w)) + (set w | 0 <= w < workers :: Receive(w)) +
    (set w | 0 <= w < workers :: SeeTasksClosed(w)) + (set w | 0 <= w < workers :: Quit(w)) +
    (set w | 0 <= w < workers :: Finish(w)) + (set w | 0 <= w < workers :: FinishCancelled(w)) +
    (set w | 0 <= w < workers :: SendResult(w)) + (set w | 0 <= w < workers :: HandResult(w)) +
    (set w | 0 <= w < workers :: DropResult(w))
  }

  lemma EnabledIsListed(c: Config, s: State, a: Action)
    requires |s.workers| == c.workers && Enabled(c, s, a)
    ensures a in Actions(c.workers)
  {
  }

  /** A step that can come next when nobody cancels the context, unless nothing else can: then the deadline
      passes. */
  predicate Allowable(c: Config, a: Action, mayCancel: bool) {
    a.CancelContext? ==> mayCancel || c.workers == 0
  }

  lemma SomethingListed(c: Config, s: State, mayCancel: bool)
    requires Inv(c, s) && !Returned(s)
    ensures exists a :: a in Actions(c.workers) && Enabled(c, s, a) && Allowable(c, a, mayCancel)
  {
    if s.ctxDone || c.workers >= 1 {
      NoDeadlock(c, s);
      var b :| Enabled(c, s, b) && !b.CancelContext?;
      EnabledIsListed(c, s, b);
    } else {
      assert Enabled(c, s, CancelContext);
    }
  }

  lemma ReturnsWell(c: Config, s: State)
    requires Inv(c, s) && Reachable(c, s) && Returned(s)
    ensures Returns(s).Ok? ==> multiset(Returns(s).value) <= multiset(Successes(c, c.page))
    ensures Returns(s).Ok? && c.workers == 0 ==> Returns(s).value == []
    ensures !s.ctxDone && c.workers >= 1 && WellTyped(c) ==>
              Returns(s).Ok? && multiset(Returns(s).value) == multiset(Successes(c, c.page))
  {
    CollectedFromPage(c, s);
    if !s.ctxDone && c.workers >= 1 && WellTyped(c) {
      PageComplete(c, s);
    }
  }

  lemma ContextAfter(c: Config, s: State, a: Action)
    requires Enabled(c, s, a)
    ensures Next(c, s, a).ctxDone == (s.ctxDone || a.CancelContext?)
  {
    if Quiet(a) {
      match a
      case CheckFlag =>
      case SubmitCancelled =>
      case StoreFlag =>
      case CloseTasks =>
      case WatcherStore =>
      case WatcherClose =>
      case SeeResultsClosed =>
      case CollectorReturns =>
      case CancelContext =>
    } else {
      match a
      case Enqueue =>
      case HandTask(w) =>
      case Receive(w) =>
      case SeeTasksClosed(w) =>
      case Quit(w) =>
      case Finish(w) =>
      case FinishCancelled(w) =>
      case SendResult(w) =>
      case HandResult(w) =>
      case DropResult(w) =>
      case Collect =>
    }
  }

  /** Runs the goroutines under an arbitrary scheduler until the group's Wait returns, in the state `end`. A fetch that blocks
      is released when its context is done, at the latest by the job's deadline. `mayCancel`: the context may
      be done earlier than that. */
  method FetchPageIssues(c: Config, ctxDoneBefore: bool, mayCancel: bool)
    returns (r: Result<seq<ProcessedIssue>, GroupError>, ctxDone: bool, ghost end: State)
    ensures Reachable(c, end) && Returned(end) && end.ctxDone == ctxDone
    ensures r.Err? <==> end.producer.error.Some? || end.collector.failed
    ensures r.Err? ==> end.groupErr == Some(r.error)
    ensures r.Ok? ==> r.value == end.collected
    ensures ctxDoneBefore ==> ctxDone
    ensures ctxDone ==> ctxDoneBefore || mayCancel || c.workers == 0
    ensures r.Ok? ==> multiset(r.value) <= multiset(Successes(c, c.page))
    ensures r.Ok? && c.workers == 0 ==> r.value == []
    ensures !ctxDone && c.workers >= 1 && WellTyped(c) ==>
              r.Ok? && multiset(r.value) == multiset(Successes(c, c.page))
    ensures r.Err? ==> r.error != SubmitFailed(PanicRecovered)
  {
    var s := Init(c, ctxDoneBefore);
    InitInv(c, ctxDoneBefore);
    Starts(c, ctxDoneBefore);
    while !Returned(s)
      invariant Inv(c, s) && Reachable(c, s)
      invariant ctxDoneBefore ==> s.ctxDone
      invariant s.ctxDone ==> ctxDoneBefore || mayCancel || c.workers == 0
      decreases Measure(s)
    {
      SomethingListed(c, s, mayCancel);
      var a :| a in Actions(c.workers) && Enabled(c, s, a) && Allowable(c, a, mayCancel);
      InvStep(c, s, a);
      MeasureStep(c, s, a);
      ContextAfter(c, s, a);
      Goes(c, s, a);
      s := Next(c, s, a);
    }
    ReturnsWell(c, s);
    return Returns(s), s.ctxDone, s;
  }
}
