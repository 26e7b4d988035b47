/** The registry together with everyone who calls it: SyncProject's callers, one owner goroutine per
    started job, and a clock that never goes back (internal/service/sync/sync.go, SyncProject). */
module SyncSystem {
  import opened Wrappers
  import opened Registry

  /** How far the goroutine of a started job has got. `Registered`: Start has returned, the job is not
      yet counted. `Working`: counted as started; the goroutine runs. `Ended`: its one call of Complete
      or Fail is made, the finish not yet counted. `Reported`: done. */
  datatype Phase = Registered | Working | Ended(failed: bool) | Reported(failed: bool)

  datatype System = System(
    jobs: Jobs, now: nat, owners: map<string, Phase>,
    started: nat, completed: nat, failed: nat, active: int,
    /** Calls of IncrProcessed so far. */
    increments: nat)

  function Init(now: nat): System {
    System(Jobs(map[], map[]), now, map[], 0, 0, 0, 0, 0)
  }

  datatype Action =
    | Tick(delta: nat)
    | CallStart(key: string, freshID: string)
    | CountStart(id: string)
    | CallSetTotal(id: string, total: int)
    | CallIncrProcessed(id: string)
    | CallComplete(id: string)
    | CallFail(id: string, errMsg: string)
    | CountFinish(id: string)

  predicate In(s: System, id: string, p: Phase) {
    id in s.owners && s.owners[id] == p
  }

  /** A uuid is never issued twice. Only the owner makes the calls that change its job. */
  predicate Can(s: System, a: Action) {
    match a
    case Tick(_) => true
    case CallStart(_, freshID) => freshID !in s.owners
    case CountStart(id) => In(s, id, Registered)
    case CallSetTotal(id, _) => In(s, id, Working)
    case CallIncrProcessed(id) => In(s, id, Working)
    case CallComplete(id) => In(s, id, Working)
    case CallFail(id, _) => In(s, id, Working)
    case CountFinish(id) => id in s.owners && s.owners[id].Ended?
  }

  function Do(s: System, a: Action): System
    requires Can(s, a)
  {
    match a
    case Tick(delta) => s.(now := s.now + delta)
    case CallStart(key, freshID) =>
      s.(jobs := Start(s.jobs, key, s.now, freshID),
         owners := if StartResultOf(s.jobs, key, freshID).started then s.owners[freshID := Registered] else s.owners)
    case CountStart(id) => s.(owners := s.owners[id := Working], started := s.started + 1, active := s.active + 1)
    case CallSetTotal(id, total) => s.(jobs := SetTotal(s.jobs, id, total))
    case CallIncrProcessed(id) => s.(jobs := IncrProcessed(s.jobs, id), increments := s.increments + 1)
    case CallComplete(id) => s.(jobs := Complete(s.jobs, id, s.now), owners := s.owners[id := Ended(false)])
    case CallFail(id, errMsg) => s.(jobs := Fail(s.jobs, id, errMsg, s.now), owners := s.owners[id := Ended(true)])
    case CountFinish(id) =>
      var failed := s.owners[id].failed;
      s.(owners := s.owners[id := Reported(failed)],
         failed := s.failed + (if failed then 1 else 0),
         completed := s.completed + (if failed then 0 else 1),
         active := s.active - 1)
  }

  // ---------- the registry invariant ----------

  predicate RunningJob(s: System, id: string) {
    id in s.jobs.byID && s.jobs.byID[id].state.Running?
  }

  /** The owner has yet to make its one terminal call. */
  predicate OwnerAtWork(s: System, id: string) {
    id in s.owners && (s.owners[id].Registered? || s.owners[id].Working?)
  }

  ghost predicate Keyed(s: System) {
    && (forall k :: k in s.jobs.byKey ==>
          RunningJob(s, s.jobs.byKey[k]) && s.jobs.byID[s.jobs.byKey[k]].projectKey == k)
    && (forall id :: RunningJob(s, id) ==>
          var k := s.jobs.byID[id].projectKey; k in s.jobs.byKey && s.jobs.byKey[k] == id)
  }

  ghost predicate Owned(s: System) {
    && (forall id :: id in s.jobs.byID ==> id in s.owners)
    && (forall id :: RunningJob(s, id) <==> OwnerAtWork(s, id))
    && (forall id :: id in s.jobs.byID && !s.jobs.byID[id].state.Running? ==> s.jobs.byID[id].finishedAt <= s.now)
    && (forall id :: id in s.jobs.byID ==> s.jobs.byID[id].processed <= s.increments)
  }

  /** The ids whose owner is in one of the given phases. */
  function Ids(owners: map<string, Phase>, working: bool, ended: bool, completed: bool, failed: bool): set<string> {
    set id | id in owners &&
      Member(owners[id], working, ended, completed, failed)
  }

  ghost predicate Metered(s: System) {
    && s.started == |Ids(s.owners, true, true, true, true)|
    && s.active == |Ids(s.owners, true, true, false, false)|
    && s.completed == |Ids(s.owners, false, false, true, false)|
    && s.failed == |Ids(s.owners, false, false, false, true)|
  }

  ghost predicate Inv(s: System) {
    Keyed(s) && Owned(s) && Metered(s)
  }

  lemma InitInv(now: nat)
    ensures Inv(Init(now))
  {
  }

  lemma StartKeeps(s: System, key: string, freshID: string)
    requires Keyed(s) && Owned(s) && freshID !in s.owners
    ensures Keyed(Do(s, CallStart(key, freshID))) && Owned(Do(s, CallStart(key, freshID)))
  {
    var s' := Do(s, CallStart(key, freshID));
    forall id
      ensures RunningJob(s', id) <==> RunningJob(s, id) || (id == freshID && key !in s.jobs.byKey)
    {}
    if key in s.jobs.byKey {
      assert s'.jobs.byKey == s.jobs.byKey && s'.owners == s.owners;
    }
  }

  lemma FinishKeeps(s: System, a: Action, id: string)
    requires Keyed(s) && Owned(s) && Can(s, a) && (a == CallComplete(id) || (a.CallFail? && a.id == id))
    ensures Keyed(Do(s, a)) && Owned(Do(s, a))
  {
    assert RunningJob(s, id);
    var key := s.jobs.byID[id].projectKey;
    assert s.jobs.byKey[key] == id;
    assert Do(s, a).jobs.byKey == s.jobs.byKey - {key};
    forall jd
      ensures RunningJob(Do(s, a), jd) <==> RunningJob(s, jd) && jd != id
    {}
  }

  /** Steps that leave every job's key and state alone. */
  lemma ProgressKeeps(s: System, a: Action)
    requires Keyed(s) && Owned(s) && Can(s, a) && (a.CallSetTotal? || a.CallIncrProcessed?)
    ensures Keyed(Do(s, a)) && Owned(Do(s, a))
  {
    forall id
      ensures RunningJob(Do(s, a), id) <==> RunningJob(s, id)
    {}
  }

  /** Steps that leave the registry alone. */
  lemma CountKeeps(s: System, a: Action)
    requires Keyed(s) && Owned(s) && Can(s, a) && (a.Tick? || a.CountStart? || a.CountFinish?)
    ensures Keyed(Do(s, a)) && Owned(Do(s, a))
  {
    forall id
      ensures RunningJob(Do(s, a), id) <==> RunningJob(s, id)
      ensures OwnerAtWork(Do(s, a), id) <==> OwnerAtWork(s, id)
    {}
  }

  function Member(p: Phase, working: bool, ended: bool, completed: bool, failed: bool): bool {
    match p
    case Registered => false
    case Working => working
    case Ended(_) => ended
    case Reported(f) => if f then failed else completed
  }

  lemma MeteredStep(s: System, a: Action)
    requires Metered(s) && Can(s, a)
    ensures Metered(Do(s, a))
  {
    match a
    case CallStart(key, id) => PhaseMoves(s.owners, id, Registered);
    case CountStart(id) => PhaseMoves(s.owners, id, Working);
    case CallComplete(id) => PhaseMoves(s.owners, id, Ended(false));
    case CallFail(id, _) => PhaseMoves(s.owners, id, Ended(true));
    case CountFinish(id) => PhaseMoves(s.owners, id, Reported(s.owners[id].failed));
    case _ =>
  }

  /** How a set's size changes when id moves to phase p. */
  function Shift(owners: map<string, Phase>, id: string, p: Phase, w: bool, e: bool, c: bool, f: bool): int {
    (if Member(p, w, e, c, f) then 1 else 0) -
    (if id in owners && Member(owners[id], w, e, c, f) then 1 else 0)
  }

  lemma IdsUpdate(owners: map<string, Phase>, id: string, p: Phase, w: bool, e: bool, c: bool, f: bool)
    ensures |Ids(owners[id := p], w, e, c, f)| == |Ids(owners, w, e, c, f)| + Shift(owners, id, p, w, e, c, f)
  {
    var before, after := Ids(owners, w, e, c, f), Ids(owners[id := p], w, e, c, f);
    assert after == (before - {id}) + (if Member(p, w, e, c, f) then {id} else {});
  }

  lemma PhaseMoves(owners: map<string, Phase>, id: string, p: Phase)
    ensures forall w, e, c, f ::
      |Ids(owners[id := p], w, e, c, f)| == |Ids(owners, w, e, c, f)| + Shift(owners, id, p, w, e, c, f)
  {
    forall w, e, c, f
      ensures |Ids(owners[id := p], w, e, c, f)| == |Ids(owners, w, e, c, f)| + Shift(owners, id, p, w, e, c, f)
    {
      IdsUpdate(owners, id, p, w, e, c, f);
    }
  }

  lemma InvStep(s: System, a: Action)
    requires Inv(s) && Can(s, a)
    ensures Inv(Do(s, a))
  {
    MeteredStep(s, a);
    match a
    case CallStart(key, freshID) => StartKeeps(s, key, freshID);
    case CallComplete(id) => FinishKeeps(s, a, id);
    case CallFail(id, _) => FinishKeeps(s, a, id);
    case CallSetTotal(_, _) => ProgressKeeps(s, a);
    case CallIncrProcessed(_) => ProgressKeeps(s, a);
    case _ => CountKeeps(s, a);
  }

  // ---------- runs ----------

  /** The system after the actions, if each was possible when its turn came. */
  function Exec(now: nat, actions: seq<Action>): Option<System> {
    if actions == [] then
      Some(Init(now))
    else
      match Exec(now, actions[..|actions| - 1])
      case None => None
      case Some(s) => var a := actions[|actions| - 1]; if Can(s, a) then Some(Do(s, a)) else None
  }

  /** Every reachable state satisfies the invariant. */
  lemma {:induction false} EveryRun(now: nat, actions: seq<Action>)
    requires Exec(now, actions).Some?
    ensures Inv(Exec(now, actions).value)
    ensures Exec(now, actions).value.increments <= |actions|
  {
    if actions == [] {
      InitInv(now);
    } else {
      var n := |actions| - 1;
      EveryRun(now, actions[..n]);
      InvStep(Exec(now, actions[..n]).value, actions[n]);
    }
  }

  /** The registry in every reachable state: byKey lists exactly the running jobs, each under its own key,
      so no key has two; each running job has one owner still to make its terminal call and no ended
      one has; jobs started are those completed, failed and active. */
  lemma RegistryInvariant(now: nat, actions: seq<Action>)
    requires Exec(now, actions).Some?
    ensures var s := Exec(now, actions).value;
      && (forall id :: (exists k :: k in s.jobs.byKey && s.jobs.byKey[k] == id) <==> RunningJob(s, id))
      && (forall k :: k in s.jobs.byKey ==> s.jobs.byKey[k] in s.jobs.byID && s.jobs.byID[s.jobs.byKey[k]].projectKey == k)
      && (forall id, jd | RunningJob(s, id) && RunningJob(s, jd) ::
            s.jobs.byID[id].projectKey == s.jobs.byID[jd].projectKey ==> id == jd)
      && (forall id :: RunningJob(s, id) <==> OwnerAtWork(s, id))
      && s.started == s.completed + s.failed + s.active && s.active >= 0
  {
    EveryRun(now, actions);
    var s := Exec(now, actions).value;
    var all, active := Ids(s.owners, true, true, true, true), Ids(s.owners, true, true, false, false);
    var completed, failed := Ids(s.owners, false, false, true, false), Ids(s.owners, false, false, false, true);
    assert all == active + completed + failed;
    assert |active + completed| == |active| + |completed|;
    forall id
      ensures (exists k :: k in s.jobs.byKey && s.jobs.byKey[k] == id) <==> RunningJob(s, id)
    {
      if RunningJob(s, id) {
        assert s.jobs.byID[id].projectKey in s.jobs.byKey;
      }
    }
  }

  /** The single-owner discipline is needed: a second terminal call on an old job takes away the key of a
      newer one, and the project then runs twice at once. */
  lemma SecondTerminalCallBreaks(now: int)
    ensures var r0 := Jobs(map[], map[]);
      var r1 := Complete(Start(r0, "P", now, "a"), "a", now);
      var r2 := Start(r1, "P", now, "b");
      var r3 := Complete(r2, "a", now);
      var r4 := Start(r3, "P", now, "c");
      && r4.byID["b"].state == Running && r4.byID["c"].state == Running
      && r4.byID["b"].projectKey == r4.byID["c"].projectKey
  {
  }
}
