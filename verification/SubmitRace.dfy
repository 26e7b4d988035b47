/** Submit and Stop called from any number of goroutines at once (internal/workerpool/workerpool.go).

    Unlike in the page fetch, nothing orders the calls here. Caller i of Submit brings task i and a context
    of its own; every stopper makes one call of Stop. */
module SubmitRace {
  import opened Wrappers
  import P = PoolProtocol

  /** `Checking`: before the load of the flag. `Selecting`: in the select. */
  datatype Submitter = Checking | Selecting | Back(error: Option<P.SubmitError>)

  /** `Storing`, `Closing`: inside the function that Once runs. */
  datatype Stopper = Outside | Storing | Closing | Through

  /** `Free`: Do not yet called. `Held`: its function is running, and other calls wait. */
  datatype Once = Free | Held | Spent

  datatype State = State(
    submitters: seq<Submitter>, stoppers: seq<Stopper>, queueSize: nat,
    once: Once, stopped: bool, taskCh: seq<nat>, taskClosed: bool,
    /** What the workers have taken from the channel, in order. */
    taken: seq<nat>,
    /** The callers whose contexts are done. */
    done: set<nat>,
    /** The channel was closed twice, which panics where nobody recovers. */
    crashed: bool)

  function Init(submitters: nat, stoppers: nat, queueSize: nat): State {
    State(seq(submitters, i => Checking), seq(stoppers, j => Outside), queueSize, Free, false, [], false, [], {}, false)
  }

  datatype Action =
    | Check(i: nat) | Send(i: nat) | Hand(i: nat) | Panic(i: nat) | GiveUp(i: nat) | Cancel(i: nat)
    | Enter(j: nat) | Skip(j: nat) | Store(j: nat) | Close(j: nat)
    | Take | WatcherStore

  predicate At(s: State, i: nat, p: Submitter) {
    i < |s.submitters| && s.submitters[i] == p
  }

  predicate StopAt(s: State, j: nat, p: Stopper) {
    j < |s.stoppers| && s.stoppers[j] == p
  }

  /** A send on a closed channel is always ready, and panics; Submit recovers from that panic. */
  predicate Can(s: State, a: Action) {
    match a
    case Check(i) => At(s, i, Checking)
    case Send(i) => At(s, i, Selecting) && !s.taskClosed && |s.taskCh| < s.queueSize
    case Hand(i) => At(s, i, Selecting) && !s.taskClosed && s.taskCh == []
    case Panic(i) => At(s, i, Selecting) && s.taskClosed
    case GiveUp(i) => At(s, i, Selecting) && i in s.done
    case Cancel(i) => true
    case Enter(j) => StopAt(s, j, Outside) && s.once.Free?
    case Skip(j) => StopAt(s, j, Outside) && s.once.Spent?
    case Store(j) => StopAt(s, j, Storing)
    case Close(j) => StopAt(s, j, Closing)
    case Take => s.taskCh != []
    case WatcherStore => true
  }

  function Return(s: State, i: nat, error: Option<P.SubmitError>): State
    requires i < |s.submitters|
  {
    s.(submitters := s.submitters[i := Back(error)])
  }

  function StopperTo(s: State, j: nat, p: Stopper): State
    requires j < |s.stoppers|
  {
    s.(stoppers := s.stoppers[j := p])
  }

  function Do(s: State, a: Action): State
    requires Can(s, a)
  {
    match a
    case Check(i) =>
      if s.stopped then Return(s, i, Some(P.PoolStopped)) else s.(submitters := s.submitters[i := Selecting])
    case Send(i) => Return(s, i, None).(taskCh := s.taskCh + [i])
    case Hand(i) => Return(s, i, None).(taken := s.taken + [i])
    case Panic(i) => Return(s, i, Some(P.PanicRecovered))
    case GiveUp(i) => Return(s, i, Some(P.ContextDone))
    case Cancel(i) => s.(done := s.done + {i})
    case Enter(j) => StopperTo(s, j, Storing).(once := Held)
    case Skip(j) => StopperTo(s, j, Through)
    case Store(j) => StopperTo(s, j, Closing).(stopped := true)
    case Close(j) => StopperTo(s, j, Through).(taskClosed := true, crashed := s.crashed || s.taskClosed, once := Spent)
    case Take => s.(taken := s.taken + [s.taskCh[0]], taskCh := s.taskCh[1..])
    case WatcherStore => s.(stopped := true)
  }

  /** The state after the actions, if each was possible when its turn came. */
  function Exec(init: State, actions: seq<Action>): Option<State> {
    if actions == [] then
      Some(init)
    else
      match Exec(init, actions[..|actions| - 1])
      case None => None
      case Some(s) => var a := actions[|actions| - 1]; if Can(s, a) then Some(Do(s, a)) else None
  }

  // ---------- the invariant ----------

  /** How often task i went into the channel or straight to a worker. */
  function Enqueued(s: State, i: nat): nat {
    multiset(s.taskCh)[i] + multiset(s.taken)[i]
  }

  predicate Accepted(s: State, i: nat) {
    At(s, i, Back(None))
  }

  ghost predicate ExactlyOnce(s: State) {
    forall i :: Enqueued(s, i) == if Accepted(s, i) then 1 else 0
  }

  predicate Inside(p: Stopper) {
    p.Storing? || p.Closing?
  }

  ghost predicate OneStop(s: State) {
    && !s.crashed
    && (s.taskClosed <==> s.once.Spent?)
    && (s.taskClosed ==> s.stopped)
    && (forall j :: 0 <= j < |s.stoppers| && Inside(s.stoppers[j]) ==> s.once.Held?)
    && (forall j, k :: 0 <= j < k < |s.stoppers| && Inside(s.stoppers[j]) ==> !Inside(s.stoppers[k]))
    && (forall j :: 0 <= j < |s.stoppers| && s.stoppers[j].Closing? ==> s.stopped)
    && (forall j :: 0 <= j < |s.stoppers| && s.stoppers[j].Through? ==> s.taskClosed)
    && |s.taskCh| <= s.queueSize
  }

  lemma OneStopStep(s: State, a: Action)
    requires OneStop(s) && Can(s, a)
    ensures OneStop(Do(s, a))
  {
  }

  lemma TakeMovesOne(s: State, i: nat)
    requires s.taskCh != []
    ensures Enqueued(Do(s, Take), i) == Enqueued(s, i)
  {
    assert s.taskCh == [s.taskCh[0]] + s.taskCh[1..];
  }

  lemma ExactlyOnceStep(s: State, a: Action)
    requires ExactlyOnce(s) && Can(s, a)
    ensures ExactlyOnce(Do(s, a))
  {
    var s' := Do(s, a);
    forall i
      ensures Enqueued(s', i) == if Accepted(s', i) then 1 else 0
    {
      assert Enqueued(s, i) == if Accepted(s, i) then 1 else 0;
      match a
      case Take => TakeMovesOne(s, i);
      case Send(_) =>
      case Hand(_) =>
      case _ => assert s'.taskCh == s.taskCh && s'.taken == s.taken;
    }
  }

  lemma {:induction false} EveryRun(submitters: nat, stoppers: nat, queueSize: nat, actions: seq<Action>)
    requires Exec(Init(submitters, stoppers, queueSize), actions).Some?
    ensures var s := Exec(Init(submitters, stoppers, queueSize), actions).value; ExactlyOnce(s) && OneStop(s)
  {
    if actions != [] {
      var n := |actions| - 1;
      EveryRun(submitters, stoppers, queueSize, actions[..n]);
      var s := Exec(Init(submitters, stoppers, queueSize), actions[..n]).value;
      OneStopStep(s, actions[n]);
      ExactlyOnceStep(s, actions[n]);
    }
  }

  /** Whatever races with whatever: a Submit that returns nil has enqueued its task exactly once, one that
      returns an error or is still under way has enqueued nothing; the channel is closed at most once,
      and it is closed when any Stop has returned; and a Submit that starts after that is refused. */
  lemma SubmitOrNothing(submitters: nat, stoppers: nat, queueSize: nat, actions: seq<Action>, i: nat, j: nat)
    requires Exec(Init(submitters, stoppers, queueSize), actions).Some?
    ensures var s := Exec(Init(submitters, stoppers, queueSize), actions).value;
      && (At(s, i, Back(None)) ==> Enqueued(s, i) == 1)
      && (!At(s, i, Back(None)) ==> Enqueued(s, i) == 0)
      && !s.crashed
      && (StopAt(s, j, Through) ==> s.taskClosed)
      && (StopAt(s, j, Through) && At(s, i, Checking) ==>
            At(Do(s, Check(i)), i, Back(Some(P.PoolStopped))) && Enqueued(Do(s, Check(i)), i) == 0)
  {
    EveryRun(submitters, stoppers, queueSize, actions);
  }

  lemma Then(init: State, actions: seq<Action>, a: Action) returns (more: seq<Action>)
    requires Exec(init, actions).Some? && Can(Exec(init, actions).value, a)
    ensures Exec(init, more) == Some(Do(Exec(init, actions).value, a))
  {
    more := actions + [a];
    assert more[..|actions|] == actions;
  }

  /** The recovered panic does happen when Stop races with a Submit; only its caller's order of calls keeps
      the page fetch from it. */
  lemma RacingSubmitCanPanic() returns (actions: seq<Action>, end: State)
    ensures Exec(Init(1, 1, 1), actions) == Some(end)
    ensures At(end, 0, Back(Some(P.PanicRecovered))) && Enqueued(end, 0) == 0
  {
    actions := Then(Init(1, 1, 1), [], Check(0));
    actions := Then(Init(1, 1, 1), actions, Enter(0));
    actions := Then(Init(1, 1, 1), actions, Store(0));
    actions := Then(Init(1, 1, 1), actions, Close(0));
    actions := Then(Init(1, 1, 1), actions, Panic(0));
    end := Exec(Init(1, 1, 1), actions).value;
  }
}
