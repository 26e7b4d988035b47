/** The page fetch as a concurrent protocol: `fetchPageIssues` of internal/service/sync/sync.go over the
    pool of internal/workerpool/workerpool.go.

    One producer goroutine submits the page's tasks and stops the pool; the workers take tasks from one
    channel and send results to another; the watcher closes the result channel once every worker has
    returned; the collector ranges over it. A state is what all of them share, together with where each
    of them is; an action is one atomic step: a load or store of the flag, one channel operation or
    select branch, or a cancellation. Any enabled action may come next. */
module PoolProtocol {
  import opened Wrappers
  import opened Jira

  datatype Task = Task(id: string, projectID: int)

  /** What the processor returns: an item, a value of an unexpected type, or an error. */
  datatype Outcome = Item(item: ProcessedIssue) | Odd | Failed

  datatype TaskResult = TaskResult(task: Task, outcome: Outcome)

  datatype SubmitError = PoolStopped | ContextDone | PanicRecovered

  datatype GroupError = SubmitFailed(error: SubmitError) | UnexpectedResult

  /** `AtCheck`: at the head of the loop, where Submit loads the flag. `AtSelect`: in Submit's select.
      `AtStore`, `AtClose`: in the deferred Stop, before the store and before the close. */
  datatype Producer =
    | AtCheck
    | AtSelect
    | AtStore(error: Option<SubmitError>)
    | AtClose(error: Option<SubmitError>)
    | ProducerDone(error: Option<SubmitError>)

  datatype Worker = Waiting | Processing(task: Task) | Sending(result: TaskResult) | Gone

  datatype Watcher = Watching | FlagStored | Closed

  /** `Cancelled`: after its cancel() of the page context, before its return. */
  datatype Collector = Ranging | Cancelled | CollectorDone(failed: bool)

  datatype Config = Config(page: seq<Task>, workers: nat, queueSize: nat, process: Task -> Outcome)

  datatype State = State(
    todo: seq<Task>, producer: Producer,
    stopped: bool,
    taskCh: seq<Task>, taskClosed: bool,
    workers: seq<Worker>,
    resultCh: seq<TaskResult>, resultClosed: bool,
    watcher: Watcher,
    collector: Collector,
    received: seq<TaskResult>, collected: seq<ProcessedIssue>,
    dropped: seq<TaskResult>,
    statProcessed: nat, statFailed: nat,
    ctxDone: bool, pageDone: bool,
    groupErr: Option<GroupError>,
    /** An unrecovered panic: a send on, or a close of, a closed channel. */
    crashed: bool)

  function Init(c: Config, ctxDone: bool): State {
    State(c.page, AtCheck, false, [], false, seq(c.workers, i => Waiting), [], false, Watching, Ranging,
          [], [], [], 0, 0, ctxDone, false, None, false)
  }

  /** The errgroup's context is done. */
  predicate GroupDone(s: State) {
    s.ctxDone || s.pageDone || s.groupErr.Some?
  }

  /** group.Wait() returns. */
  predicate Returned(s: State) {
    s.producer.ProducerDone? && s.collector.CollectorDone?
  }

  // ---------- actions ----------

  datatype Action =
    | CheckFlag | Enqueue | HandTask(w: nat) | SubmitCancelled | StoreFlag | CloseTasks
    | Receive(w: nat) | SeeTasksClosed(w: nat) | Quit(w: nat)
    | Finish(w: nat) | FinishCancelled(w: nat)
    | SendResult(w: nat) | HandResult(w: nat) | DropResult(w: nat)
    | WatcherStore | WatcherClose
    | Collect | SeeResultsClosed | CollectorReturns
    | CancelContext

  predicate AllGone(workers: seq<Worker>) {
    forall w :: 0 <= w < |workers| ==> workers[w].Gone?
  }

  /** Steps that move no task: flags, closes, cancellations and returns. */
  predicate Quiet(a: Action) {
    a.CheckFlag? || a.SubmitCancelled? || a.StoreFlag? || a.CloseTasks? || a.WatcherStore? || a.WatcherClose? ||
    a.SeeResultsClosed? || a.CollectorReturns? || a.CancelContext?
  }

  predicate QuietEnabled(s: State, a: Action)
    requires Quiet(a)
  {
    match a
    case CheckFlag => s.producer.AtCheck?
    case SubmitCancelled => s.producer.AtSelect? && GroupDone(s)
    case StoreFlag => s.producer.AtStore?
    case CloseTasks => s.producer.AtClose?
    case WatcherStore => s.watcher.Watching? && AllGone(s.workers)
    case WatcherClose => s.watcher.FlagStored?
    case SeeResultsClosed => s.collector.Ranging? && s.resultCh == [] && s.resultClosed
    case CollectorReturns => s.collector.Cancelled?
    case CancelContext => !s.ctxDone
  }

  /** A send on a closed channel is enabled: it panics. With no room and no receiver, it blocks. */
  predicate MoveEnabled(c: Config, s: State, a: Action)
    requires !Quiet(a)
  {
    match a
    case Enqueue => s.producer.AtSelect? && s.todo != [] && (s.taskClosed || |s.taskCh| < c.queueSize)
    case HandTask(w) => s.producer.AtSelect? && s.todo != [] && !s.taskClosed && s.taskCh == [] &&
                        w < |s.workers| && s.workers[w].Waiting?
    case Receive(w) => w < |s.workers| && s.workers[w].Waiting? && s.taskCh != []
    case SeeTasksClosed(w) => w < |s.workers| && s.workers[w].Waiting? && s.taskCh == [] && s.taskClosed
    case Quit(w) => w < |s.workers| && s.workers[w].Waiting? && s.ctxDone
    case Finish(w) => w < |s.workers| && s.workers[w].Processing?
    case FinishCancelled(w) => w < |s.workers| && s.workers[w].Processing? && s.ctxDone
    case SendResult(w) => w < |s.workers| && s.workers[w].Sending? && (s.resultClosed || |s.resultCh| < c.queueSize)
    case HandResult(w) => w < |s.workers| && s.workers[w].Sending? && !s.resultClosed && s.resultCh == [] &&
                          s.collector.Ranging?
    case DropResult(w) => w < |s.workers| && s.workers[w].Sending? && s.ctxDone
    case Collect => s.collector.Ranging? && s.resultCh != []
  }

  predicate Enabled(c: Config, s: State, a: Action) {
    if Quiet(a) then QuietEnabled(s, a) else MoveEnabled(c, s, a)
  }

  function SetWorker(s: State, w: nat, x: Worker): State
    requires w < |s.workers|
  {
    s.(workers := s.workers[w := x])
  }

  /** A send of the next task succeeds: it is queued, or handed to a waiting worker. */
  function Queued(s: State): State
    requires s.todo != []
  {
    s.(producer := AtCheck, todo := s.todo[1..], taskCh := s.taskCh + [s.todo[0]])
  }

  function TaskHanded(s: State, w: nat): State
    requires s.todo != [] && w < |s.workers|
  {
    SetWorker(s, w, Processing(s.todo[0])).(producer := AtCheck, todo := s.todo[1..])
  }

  function TaskReceived(s: State, w: nat): State
    requires s.taskCh != [] && w < |s.workers|
  {
    SetWorker(s, w, Processing(s.taskCh[0])).(taskCh := s.taskCh[1..])
  }

  /** The worker has returned from Process with `outcome`. */
  function Finished(s: State, w: nat, outcome: Outcome): State
    requires w < |s.workers| && s.workers[w].Processing?
  {
    SetWorker(s, w, Sending(TaskResult(s.workers[w].task, outcome))).(
      statFailed := s.statFailed + (if outcome.Failed? then 1 else 0),
      statProcessed := s.statProcessed + (if outcome.Failed? then 0 else 1))
  }

  function ResultSent(s: State, w: nat): State
    requires w < |s.workers| && s.workers[w].Sending?
  {
    SetWorker(s, w, Waiting).(resultCh := s.resultCh + [s.workers[w].result])
  }

  function ResultDropped(s: State, w: nat): State
    requires w < |s.workers| && s.workers[w].Sending?
  {
    SetWorker(s, w, Gone).(dropped := s.dropped + [s.workers[w].result])
  }

  /** The collector has received r. */
  function Take(s: State, r: TaskResult): State {
    s.(received := s.received + [r],
       collected := if r.outcome.Item? then s.collected + [r.outcome.item] else s.collected,
       pageDone := s.pageDone || r.outcome.Odd?,
       collector := if r.outcome.Odd? then Cancelled else s.collector)
  }

  /** The errgroup keeps the first error. */
  function Record(first: Option<GroupError>, error: GroupError): Option<GroupError> {
    if first.Some? then first else Some(error)
  }

  function RecordSubmit(first: Option<GroupError>, error: Option<SubmitError>): Option<GroupError> {
    if error.Some? then Record(first, SubmitFailed(error.value)) else first
  }

  /** Where the producer goes after its look at the flag. */
  function AfterCheck(todo: seq<Task>, stopped: bool): Producer {
    if todo == [] then AtStore(None) else if stopped then AtStore(Some(PoolStopped)) else AtSelect
  }

  predicate OfProducer(a: Action) {
    a.CheckFlag? || a.SubmitCancelled? || a.StoreFlag? || a.CloseTasks?
  }

  function ProducerNext(s: State, a: Action): State
    requires OfProducer(a) && QuietEnabled(s, a)
  {
    match a
    case CheckFlag => s.(producer := AfterCheck(s.todo, s.stopped))
    case SubmitCancelled => s.(producer := AtStore(Some(ContextDone)))
    case StoreFlag => s.(producer := AtClose(s.producer.error), stopped := true)
    case CloseTasks =>
      s.(producer := ProducerDone(s.producer.error),
         taskClosed := true,
         crashed := s.crashed || s.taskClosed,
         groupErr := RecordSubmit(s.groupErr, s.producer.error))
  }

  /** The watcher, the collector, and a cancellation from outside. */
  function OtherNext(s: State, a: Action): State
    requires Quiet(a) && !OfProducer(a) && QuietEnabled(s, a)
  {
    match a
    case WatcherStore => s.(watcher := FlagStored, stopped := true)
    case WatcherClose => s.(watcher := Closed, resultClosed := true, crashed := s.crashed || s.resultClosed)
    case SeeResultsClosed => s.(collector := CollectorDone(false))
    case CollectorReturns => s.(collector := CollectorDone(true), groupErr := Record(s.groupErr, UnexpectedResult))
    case CancelContext => s.(ctxDone := true)
  }

  function QuietNext(s: State, a: Action): State
    requires Quiet(a) && QuietEnabled(s, a)
  {
    if OfProducer(a) then ProducerNext(s, a) else OtherNext(s, a)
  }

  function MoveNext(c: Config, s: State, a: Action): State
    requires !Quiet(a) && MoveEnabled(c, s, a)
  {
    match a
    case Enqueue => if s.taskClosed then s.(producer := AtStore(Some(PanicRecovered))) else Queued(s)
    case HandTask(w) => TaskHanded(s, w)
    case Receive(w) => TaskReceived(s, w)
    case SeeTasksClosed(w) => SetWorker(s, w, Gone)
    case Quit(w) => SetWorker(s, w, Gone)
    case Finish(w) => Finished(s, w, c.process(s.workers[w].task))
    case FinishCancelled(w) => Finished(s, w, Failed)
    case SendResult(w) => if s.resultClosed then s.(crashed := true) else ResultSent(s, w)
    case HandResult(w) => Take(SetWorker(s, w, Waiting), s.workers[w].result)
    case DropResult(w) => ResultDropped(s, w)
    case Collect => Take(s.(resultCh := s.resultCh[1..]), s.resultCh[0])
  }

  function Next(c: Config, s: State, a: Action): State
    requires Enabled(c, s, a)
  {
    if Quiet(a) then QuietNext(s, a) else MoveNext(c, s, a)
  }
}
