/** What every interleaving of the page fetch keeps. */
module PoolInvariant {
  import opened Wrappers
  import opened Jira
  import opened PoolProtocol

  // ---------- counting a task's occurrences ----------

  function One(b: bool): nat {
    if b then 1 else 0
  }

  function CountTask(tasks: seq<Task>, x: Task): nat {
    if tasks == [] then 0 else CountTask(tasks[..|tasks| - 1], x) + One(tasks[|tasks| - 1] == x)
  }

  function CountResult(results: seq<TaskResult>, x: Task): nat {
    if results == [] then 0 else CountResult(results[..|results| - 1], x) + One(results[|results| - 1].task == x)
  }

  function Holds(w: Worker, x: Task): bool {
    match w
    case Processing(task) => task == x
    case Sending(result) => result.task == x
    case _ => false
  }

  /** How many workers have task x in hand. */
  function CountHeld(workers: seq<Worker>, x: Task): nat {
    if workers == [] then 0 else CountHeld(workers[..|workers| - 1], x) + One(Holds(workers[|workers| - 1], x))
  }

  /** How many workers have a result to send. */
  function CountSending(workers: seq<Worker>): nat {
    if workers == [] then 0 else CountSending(workers[..|workers| - 1]) + One(workers[|workers| - 1].Sending?)
  }

  lemma {:induction false} CountTaskFirst(tasks: seq<Task>, x: Task)
    requires tasks != []
    ensures CountTask(tasks, x) == One(tasks[0] == x) + CountTask(tasks[1..], x)
  {
    var n := |tasks| - 1;
    if n > 0 {
      CountTaskFirst(tasks[..n], x);
      assert tasks[..n][1..] == tasks[1..][..n - 1];
    }
  }

  lemma {:induction false} CountResultFirst(results: seq<TaskResult>, x: Task)
    requires results != []
    ensures CountResult(results, x) == One(results[0].task == x) + CountResult(results[1..], x)
  {
    var n := |results| - 1;
    if n > 0 {
      CountResultFirst(results[..n], x);
      assert results[..n][1..] == results[1..][..n - 1];
    }
  }

  lemma CountTaskSnoc(tasks: seq<Task>, t: Task, x: Task)
    ensures CountTask(tasks + [t], x) == CountTask(tasks, x) + One(t == x)
  {
    assert (tasks + [t])[..|tasks|] == tasks;
  }

  lemma CountResultSnoc(results: seq<TaskResult>, r: TaskResult, x: Task)
    ensures CountResult(results + [r], x) == CountResult(results, x) + One(r.task == x)
  {
    assert (results + [r])[..|results|] == results;
  }

  lemma {:induction false} WorkerUpdate(workers: seq<Worker>, w: nat, y: Worker, x: Task)
    requires w < |workers|
    ensures CountHeld(workers[w := y], x) == CountHeld(workers, x) - One(Holds(workers[w], x)) + One(Holds(y, x))
    ensures CountSending(workers[w := y]) == CountSending(workers) - One(workers[w].Sending?) + One(y.Sending?)
  {
    var n := |workers| - 1;
    if w == n {
      assert workers[w := y][..n] == workers[..n];
    } else {
      WorkerUpdate(workers[..n], w, y, x);
      assert workers[w := y][..n] == workers[..n][w := y];
    }
  }

  lemma {:induction false} AllGoneHoldNothing(workers: seq<Worker>, x: Task)
    requires AllGone(workers)
    ensures CountHeld(workers, x) == 0
  {
    if workers != [] {
      AllGoneHoldNothing(workers[..|workers| - 1], x);
    }
  }

  lemma {:induction false} AllWaitingHoldNothing(workers: seq<Worker>, x: Task)
    requires forall w :: 0 <= w < |workers| ==> workers[w].Waiting?
    ensures CountHeld(workers, x) == 0 && CountSending(workers) == 0
  {
    if workers != [] {
      AllWaitingHoldNothing(workers[..|workers| - 1], x);
    }
  }

  // ---------- the invariant ----------

  /** Where the occurrences of task x are: queued, in a worker's hands, delivered, received, dropped. */
  function Located(s: State, x: Task): nat {
    CountTask(s.taskCh, x) + CountHeld(s.workers, x) + CountResult(s.resultCh, x) +
    CountResult(s.received, x) + CountResult(s.dropped, x)
  }

  /** The tasks still to be submitted are the tail of the page. */
  predicate TodoIsTail(c: Config, s: State) {
    |s.todo| <= |c.page| && s.todo == c.page[|c.page| - |s.todo|..]
  }

  /** The tasks whose Submit returned nil. */
  function Submitted(c: Config, s: State): seq<Task>
    requires TodoIsTail(c, s)
  {
    c.page[..|c.page| - |s.todo|]
  }

  /** No submitted task is lost or doubled. */
  ghost predicate Conserved(c: Config, s: State) {
    TodoIsTail(c, s) && forall x :: CountTask(Submitted(c, s), x) == Located(s, x)
  }

  /** A result tells what the processor returns for its task, or an error after a cancellation. */
  predicate True(c: Config, ctxDone: bool, r: TaskResult) {
    r.outcome == c.process(r.task) || (ctxDone && r.outcome.Failed?)
  }

  predicate AllTrue(c: Config, ctxDone: bool, results: seq<TaskResult>) {
    forall i :: 0 <= i < |results| ==> True(c, ctxDone, results[i])
  }

  ghost predicate Truthful(c: Config, s: State) {
    && (forall w :: 0 <= w < |s.workers| && s.workers[w].Sending? ==> True(c, s.ctxDone, s.workers[w].result))
    && AllTrue(c, s.ctxDone, s.resultCh)
    && AllTrue(c, s.ctxDone, s.received)
  }

  /** The items among the results, in order. */
  function ItemsOf(results: seq<TaskResult>): seq<ProcessedIssue> {
    if results == [] then
      []
    else
      var rest := ItemsOf(results[..|results| - 1]);
      var last := results[|results| - 1].outcome;
      if last.Item? then rest + [last.item] else rest
  }

  /** The counters count exactly the tasks that are past Process. */
  predicate Counted(s: State) {
    s.statProcessed + s.statFailed == CountSending(s.workers) + |s.resultCh| + |s.received| + |s.dropped|
  }

  /** The error with which the producer is leaving or has left. */
  function LeavingError(p: Producer): Option<SubmitError> {
    match p
    case AtStore(e) => e
    case AtClose(e) => e
    case ProducerDone(e) => e
    case _ => None
  }

  /** The last thing received was of an unexpected type. */
  predicate EndsOdd(received: seq<TaskResult>) {
    received != [] && received[|received| - 1].outcome.Odd?
  }

  /** Where the goroutines are, and what the flags, channels and contexts say about it. */
  ghost predicate Control(c: Config, s: State) {
    && !s.crashed
    && (s.taskClosed <==> s.producer.ProducerDone?)
    && (s.resultClosed <==> s.watcher.Closed?)
    && (s.stopped ==> s.producer.AtClose? || s.producer.ProducerDone? || !s.watcher.Watching?)
    && (s.producer.AtSelect? ==> s.todo != [])
    && (!s.producer.AtCheck? && !s.producer.AtSelect? && LeavingError(s.producer).None? ==> s.todo == [])
    && LeavingError(s.producer) != Some(PanicRecovered)
    && (LeavingError(s.producer).Some? ==> s.todo != [])
    && (LeavingError(s.producer).Some? ==> s.ctxDone || s.pageDone || c.workers == 0)
    && (s.pageDone <==> s.collector.Cancelled? || s.collector == CollectorDone(true))
    && (s.pageDone <==> EndsOdd(s.received))
    && (s.collector == CollectorDone(false) ==> s.resultClosed && s.resultCh == [])
    && (s.groupErr.Some? <==> s.collector == CollectorDone(true) ||
                              (s.producer.ProducerDone? && s.producer.error.Some?))
    && s.groupErr != Some(SubmitFailed(PanicRecovered))
    && s.collected == ItemsOf(s.received)
  }

  /** When workers may have returned. */
  ghost predicate Crew(c: Config, s: State) {
    && |s.workers| == c.workers
    && (!s.watcher.Watching? ==> AllGone(s.workers))
    && (forall w :: 0 <= w < |s.workers| && s.workers[w].Gone? ==> s.ctxDone || (s.taskClosed && s.taskCh == []))
    && (s.dropped != [] ==> s.ctxDone)
    && (c.workers == 0 ==> s.resultCh == [] && s.received == [])
    && |s.todo| + |s.taskCh| <= |c.page|
  }

  ghost predicate Inv(c: Config, s: State) {
    Control(c, s) && Crew(c, s) && Conserved(c, s) && Truthful(c, s) && Counted(s)
  }

  lemma InitLocated(c: Config, ctxDone: bool, x: Task)
    ensures Located(Init(c, ctxDone), x) == 0 && CountSending(Init(c, ctxDone).workers) == 0
  {
    AllWaitingHoldNothing(Init(c, ctxDone).workers, x);
  }

  lemma InitConserved(c: Config, ctxDone: bool)
    ensures Conserved(c, Init(c, ctxDone))
  {
    var s := Init(c, ctxDone);
    assert Submitted(c, s) == [];
    forall x
      ensures CountTask(Submitted(c, s), x) == Located(s, x)
    {
      InitLocated(c, ctxDone, x);
    }
  }

  lemma InitCounted(c: Config, ctxDone: bool)
    ensures Counted(Init(c, ctxDone))
  {
    InitLocated(c, ctxDone, Task("", 0));
  }

  lemma InitControl(c: Config, ctxDone: bool)
    ensures Control(c, Init(c, ctxDone))
  {
  }

  lemma InitCrew(c: Config, ctxDone: bool)
    ensures Crew(c, Init(c, ctxDone))
  {
  }

  lemma InitTruthful(c: Config, ctxDone: bool)
    ensures Truthful(c, Init(c, ctxDone))
  {
  }

  lemma InitInv(c: Config, ctxDone: bool)
    ensures Inv(c, Init(c, ctxDone))
  {
    InitControl(c, ctxDone);
    InitCrew(c, ctxDone);
    InitConserved(c, ctxDone);
    InitTruthful(c, ctxDone);
    InitCounted(c, ctxDone);
  }

  // ---------- preservation, one kind of step at a time ----------

  /** Moving tasks about without submitting any conserves them. */
  lemma MovingConserves(c: Config, s: State, s': State)
    requires Conserved(c, s) && s'.todo == s.todo
    requires forall x :: Located(s', x) == Located(s, x)
    ensures Conserved(c, s')
  {
  }

  lemma QueuedKeeps(c: Config, s: State)
    requires Inv(c, s) && s.producer.AtSelect? && s.todo != [] && !s.taskClosed
    ensures Inv(c, Queued(s))
  {
    assert Submitted(c, Queued(s)) == Submitted(c, s) + [s.todo[0]];
    forall x
      ensures CountTask(Submitted(c, Queued(s)), x) == Located(Queued(s), x)
    {
      CountTaskSnoc(Submitted(c, s), s.todo[0], x);
      CountTaskSnoc(s.taskCh, s.todo[0], x);
    }
  }

  lemma TaskHandedKeeps(c: Config, s: State, w: nat)
    requires Inv(c, s) && s.producer.AtSelect? && s.todo != [] && !s.taskClosed && s.taskCh == []
    requires w < |s.workers| && s.workers[w].Waiting?
    ensures Inv(c, TaskHanded(s, w))
  {
    var t := s.todo[0];
    assert Submitted(c, TaskHanded(s, w)) == Submitted(c, s) + [t];
    forall x
      ensures CountTask(Submitted(c, TaskHanded(s, w)), x) == Located(TaskHanded(s, w), x)
    {
      CountTaskSnoc(Submitted(c, s), t, x);
      WorkerUpdate(s.workers, w, Processing(t), x);
    }
    WorkerUpdate(s.workers, w, Processing(t), t);
  }

  lemma TaskReceivedLocated(s: State, w: nat, x: Task)
    requires s.taskCh != [] && w < |s.workers| && s.workers[w].Waiting?
    ensures Located(TaskReceived(s, w), x) == Located(s, x)
  {
    var t := s.taskCh[0];
    CountTaskFirst(s.taskCh, x);
    WorkerUpdate(s.workers, w, Processing(t), x);
  }

  lemma TaskReceivedKeeps(c: Config, s: State, w: nat)
    requires Inv(c, s) && s.taskCh != [] && w < |s.workers| && s.workers[w].Waiting?
    ensures Inv(c, TaskReceived(s, w))
  {
    assert Conserved(c, TaskReceived(s, w)) by {
      forall x
        ensures Located(TaskReceived(s, w), x) == Located(s, x)
      {
        TaskReceivedLocated(s, w, x);
      }
      MovingConserves(c, s, TaskReceived(s, w));
    }
    WorkerUpdate(s.workers, w, Processing(s.taskCh[0]), s.taskCh[0]);
  }

  lemma LeaveLocated(s: State, w: nat, x: Task)
    requires w < |s.workers| && s.workers[w].Waiting?
    ensures Located(SetWorker(s, w, Gone), x) == Located(s, x)
    ensures CountSending(s.workers[w := Gone]) == CountSending(s.workers)
  {
    WorkerUpdate(s.workers, w, Gone, x);
  }

  lemma LeaveKeeps(c: Config, s: State, w: nat)
    requires Inv(c, s) && w < |s.workers| && s.workers[w].Waiting?
    requires s.ctxDone || (s.taskClosed && s.taskCh == [])
    ensures Inv(c, SetWorker(s, w, Gone))
  {
    assert Conserved(c, SetWorker(s, w, Gone)) by {
      forall x
        ensures Located(SetWorker(s, w, Gone), x) == Located(s, x)
      {
        LeaveLocated(s, w, x);
      }
      MovingConserves(c, s, SetWorker(s, w, Gone));
    }
    LeaveLocated(s, w, Task("", 0));
  }

  lemma FinishedLocated(s: State, w: nat, outcome: Outcome, x: Task)
    requires w < |s.workers| && s.workers[w].Processing?
    ensures Located(Finished(s, w, outcome), x) == Located(s, x)
  {
    var t := s.workers[w].task;
    var y := Sending(TaskResult(t, outcome));
    WorkerUpdate(s.workers, w, y, x);
  }

  lemma FinishedKeeps(c: Config, s: State, w: nat, outcome: Outcome)
    requires Inv(c, s) && w < |s.workers| && s.workers[w].Processing?
    requires outcome == c.process(s.workers[w].task) || (s.ctxDone && outcome.Failed?)
    ensures Inv(c, Finished(s, w, outcome))
  {
    var t := s.workers[w].task;
    var y := Sending(TaskResult(t, outcome));
    forall x
      ensures Located(Finished(s, w, outcome), x) == Located(s, x)
    {
      FinishedLocated(s, w, outcome, x);
    }
    WorkerUpdate(s.workers, w, y, t);
  }

  lemma ResultSentLocated(s: State, w: nat, x: Task)
    requires w < |s.workers| && s.workers[w].Sending?
    ensures Located(ResultSent(s, w), x) == Located(s, x)
  {
    var r := s.workers[w].result;
    WorkerUpdate(s.workers, w, Waiting, x);
    CountResultSnoc(s.resultCh, r, x);
  }

  lemma ResultSentKeeps(c: Config, s: State, w: nat)
    requires Inv(c, s) && w < |s.workers| && s.workers[w].Sending? && !s.resultClosed
    ensures Inv(c, ResultSent(s, w))
  {
    var r := s.workers[w].result;
    forall x
      ensures Located(ResultSent(s, w), x) == Located(s, x)
    {
      ResultSentLocated(s, w, x);
    }
    WorkerUpdate(s.workers, w, Waiting, r.task);
  }

  lemma ResultDroppedLocated(s: State, w: nat, x: Task)
    requires w < |s.workers| && s.workers[w].Sending?
    ensures Located(ResultDropped(s, w), x) == Located(s, x)
  {
    var r := s.workers[w].result;
    WorkerUpdate(s.workers, w, Gone, x);
    CountResultSnoc(s.dropped, r, x);
  }

  lemma ResultDroppedKeeps(c: Config, s: State, w: nat)
    requires Inv(c, s) && w < |s.workers| && s.workers[w].Sending? && s.ctxDone
    ensures Inv(c, ResultDropped(s, w))
  {
    var r := s.workers[w].result;
    forall x
      ensures Located(ResultDropped(s, w), x) == Located(s, x)
    {
      ResultDroppedLocated(s, w, x);
    }
    WorkerUpdate(s.workers, w, Gone, r.task);
  }

  lemma TakeKeepsControl(c: Config, s: State, r: TaskResult)
    requires Control(c, s) && s.collector.Ranging?
    ensures Control(c, Take(s, r))
  {
    assert (s.received + [r])[..|s.received|] == s.received;
  }

  lemma ResultHandedLocated(s: State, w: nat, x: Task)
    requires w < |s.workers| && s.workers[w].Sending?
    ensures Located(Take(SetWorker(s, w, Waiting), s.workers[w].result), x) == Located(s, x)
  {
    WorkerUpdate(s.workers, w, Waiting, x);
    CountResultSnoc(s.received, s.workers[w].result, x);
  }

  /** The collector takes r, which was the result in worker w's hands. */
  lemma ResultHandedConserves(c: Config, s: State, w: nat)
    requires Conserved(c, s) && w < |s.workers| && s.workers[w].Sending?
    ensures Conserved(c, Take(SetWorker(s, w, Waiting), s.workers[w].result))
  {
    var s' := Take(SetWorker(s, w, Waiting), s.workers[w].result);
    forall x
      ensures Located(s', x) == Located(s, x)
    {
      ResultHandedLocated(s, w, x);
    }
    MovingConserves(c, s, s');
  }

  lemma TakeKeepsTruth(c: Config, s: State, r: TaskResult)
    requires Truthful(c, s) && True(c, s.ctxDone, r)
    ensures Truthful(c, Take(s, r))
  {
  }

  lemma ResultHandedTruth(c: Config, s: State, w: nat)
    requires Truthful(c, s) && w < |s.workers| && s.workers[w].Sending?
    ensures Truthful(c, Take(SetWorker(s, w, Waiting), s.workers[w].result))
  {
    assert Truthful(c, SetWorker(s, w, Waiting));
    TakeKeepsTruth(c, SetWorker(s, w, Waiting), s.workers[w].result);
  }

  lemma ResultHandedCrew(c: Config, s: State, w: nat)
    requires Crew(c, s) && w < |s.workers| && s.workers[w].Sending?
    ensures Crew(c, Take(SetWorker(s, w, Waiting), s.workers[w].result))
  {
    assert !s.workers[w].Gone?;
  }

  lemma ResultHandedCounts(s: State, w: nat)
    requires Counted(s) && w < |s.workers| && s.workers[w].Sending?
    ensures Counted(Take(SetWorker(s, w, Waiting), s.workers[w].result))
  {
    WorkerUpdate(s.workers, w, Waiting, s.workers[w].result.task);
  }

  lemma ResultHandedKeeps(c: Config, s: State, w: nat)
    requires Inv(c, s) && w < |s.workers| && s.workers[w].Sending? && s.collector.Ranging?
    ensures Inv(c, Take(SetWorker(s, w, Waiting), s.workers[w].result))
  {
    TakeKeepsControl(c, SetWorker(s, w, Waiting), s.workers[w].result);
    ResultHandedCrew(c, s, w);
    ResultHandedConserves(c, s, w);
    ResultHandedTruth(c, s, w);
    ResultHandedCounts(s, w);
  }

  lemma CollectLocated(s: State, x: Task)
    requires s.resultCh != []
    ensures Located(Take(s.(resultCh := s.resultCh[1..]), s.resultCh[0]), x) == Located(s, x)
  {
    CountResultFirst(s.resultCh, x);
    CountResultSnoc(s.received, s.resultCh[0], x);
  }

  lemma CollectConserves(c: Config, s: State)
    requires Conserved(c, s) && s.resultCh != []
    ensures Conserved(c, Take(s.(resultCh := s.resultCh[1..]), s.resultCh[0]))
  {
    var s' := Take(s.(resultCh := s.resultCh[1..]), s.resultCh[0]);
    forall x
      ensures Located(s', x) == Located(s, x)
    {
      CollectLocated(s, x);
    }
    MovingConserves(c, s, s');
  }

  lemma CollectCrew(c: Config, s: State)
    requires Crew(c, s) && s.resultCh != []
    ensures Crew(c, Take(s.(resultCh := s.resultCh[1..]), s.resultCh[0]))
  {
  }

  lemma CollectTruth(c: Config, s: State)
    requires Truthful(c, s) && s.resultCh != []
    ensures Truthful(c, Take(s.(resultCh := s.resultCh[1..]), s.resultCh[0]))
  {
    TakeKeepsTruth(c, s.(resultCh := s.resultCh[1..]), s.resultCh[0]);
  }

  lemma CollectCounts(s: State)
    requires Counted(s) && s.resultCh != []
    ensures Counted(Take(s.(resultCh := s.resultCh[1..]), s.resultCh[0]))
  {
  }

  lemma CollectKeeps(c: Config, s: State)
    requires Inv(c, s) && s.collector.Ranging? && s.resultCh != []
    ensures Inv(c, Take(s.(resultCh := s.resultCh[1..]), s.resultCh[0]))
  {
    TakeKeepsControl(c, s.(resultCh := s.resultCh[1..]), s.resultCh[0]);
    CollectCrew(c, s);
    CollectConserves(c, s);
    CollectTruth(c, s);
    CollectCounts(s);
  }

  lemma ProducerKeepsControl(c: Config, s: State, a: Action)
    requires Control(c, s) && Crew(c, s) && OfProducer(a) && QuietEnabled(s, a)
    ensures Control(c, ProducerNext(s, a))
  {
    assert c.workers > 0 && AllGone(s.workers) ==> s.workers[0].Gone?;
  }

  lemma OthersKeepControl(c: Config, s: State, a: Action)
    requires Control(c, s) && Crew(c, s) && Quiet(a) && !OfProducer(a) && QuietEnabled(s, a)
    ensures Control(c, OtherNext(s, a))
  {
  }

  /** Tasks, results and workers are as they were. */
  predicate SameTasks(s: State, s': State) {
    && s'.todo == s.todo && s'.taskCh == s.taskCh && s'.workers == s.workers && s'.resultCh == s.resultCh
    && s'.received == s.received && s'.dropped == s.dropped
    && s'.statProcessed == s.statProcessed && s'.statFailed == s.statFailed
  }

  /** Leaving tasks, results and workers alone keeps what is said about them. */
  lemma SameTasksKeep(c: Config, s: State, s': State)
    requires Crew(c, s) && Conserved(c, s) && Truthful(c, s) && Counted(s) && SameTasks(s, s')
    requires (s.ctxDone ==> s'.ctxDone) && (s.taskClosed ==> s'.taskClosed)
    requires s'.watcher.Watching? || !s.watcher.Watching? || AllGone(s.workers)
    ensures Crew(c, s') && Conserved(c, s') && Truthful(c, s') && Counted(s')
  {
    assert Conserved(c, s') by {
      MovingConserves(c, s, s');
    }
  }

  lemma ProducerMovesNothing(s: State, a: Action)
    requires OfProducer(a) && QuietEnabled(s, a)
    ensures var s' := ProducerNext(s, a);
      SameTasks(s, s') && s'.ctxDone == s.ctxDone && (s.taskClosed ==> s'.taskClosed) && s'.watcher == s.watcher
  {
  }

  lemma OthersMoveNothing(s: State, a: Action)
    requires Quiet(a) && !OfProducer(a) && QuietEnabled(s, a)
    ensures var s' := OtherNext(s, a);
      && SameTasks(s, s') && (s.ctxDone ==> s'.ctxDone) && s'.taskClosed == s.taskClosed
      && (s'.watcher.Watching? || !s.watcher.Watching? || AllGone(s.workers))
  {
  }

  lemma QuietKeeps(c: Config, s: State, a: Action)
    requires Inv(c, s) && Quiet(a) && QuietEnabled(s, a)
    ensures Inv(c, QuietNext(s, a))
  {
    if OfProducer(a) {
      ProducerKeepsControl(c, s, a);
      ProducerMovesNothing(s, a);
      SameTasksKeep(c, s, ProducerNext(s, a));
    } else {
      OthersKeepControl(c, s, a);
      OthersMoveNothing(s, a);
      SameTasksKeep(c, s, OtherNext(s, a));
    }
  }

  lemma MoveKeeps(c: Config, s: State, a: Action)
    requires Inv(c, s) && !Quiet(a) && MoveEnabled(c, s, a)
    ensures Inv(c, MoveNext(c, s, a))
  {
    match a
    case Enqueue => QueuedKeeps(c, s);
    case HandTask(w) => TaskHandedKeeps(c, s, w);
    case Receive(w) => TaskReceivedKeeps(c, s, w);
    case SeeTasksClosed(w) => LeaveKeeps(c, s, w);
    case Quit(w) => LeaveKeeps(c, s, w);
    case Finish(w) => FinishedKeeps(c, s, w, c.process(s.workers[w].task));
    case FinishCancelled(w) => FinishedKeeps(c, s, w, Failed);
    case SendResult(w) => ResultSentKeeps(c, s, w);
    case HandResult(w) => ResultHandedKeeps(c, s, w);
    case DropResult(w) => ResultDroppedKeeps(c, s, w);
    case Collect => CollectKeeps(c, s);
  }

  /** Every step of every interleaving keeps the invariant. */
  lemma InvStep(c: Config, s: State, a: Action)
    requires Inv(c, s) && Enabled(c, s, a)
    ensures Inv(c, Next(c, s, a))
  {
    if Quiet(a) {
      QuietKeeps(c, s, a);
    } else {
      MoveKeeps(c, s, a);
    }
  }
}
