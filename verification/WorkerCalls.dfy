/** Which task each call to the scheduler is about. */
module WorkerCalls {
  import opened WorkerProtocol
  import opened WorkerInvariant
  import opened WorkerSteps

  function First(hand: seq<TaskId>): set<TaskId> {
    if hand == [] then {} else {hand[0]}
  }

  /** The patches of a worker, of the handler it runs or of the worker loop. */
  predicate Patches(a: Action) {
    a.PatchRunning? || a.PatchOwn? || a.PatchHead? || a.PatchDuplicate?
  }

  /** The tasks whose status an action may change. */
  function Touched(s: State, a: Action): set<TaskId> {
    if Patches(a) then if a.worker < |s.workers| then First(Hand(s.workers[a.worker])) else {}
    else
      match a
      case Submit(t) => {t}
      case Conclude(callback, _, _) => {callback.task}
      case PatchFailed(_) => if s.manager.Failing? then {s.manager.task} else {}
      case Pop(ts, _) => ToSet(ts)
      case PushBack(_) => if s.manager.Pushing? && s.manager.items != [] then {s.manager.items[0]} else {}
      case _ => {}
  }

  /** No status outside `x` differs. */
  ghost predicate OnlyIn(s: State, s': State, x: set<TaskId>) {
    s.status.Keys <= s'.status.Keys && forall t | t in s.status && t !in x :: s'.status[t] == s.status[t]
  }

  /** The status that a worker's patch sets. */
  function PatchedTo(p: Phase, a: Action): Status {
    if a.PatchRunning? then Running
    else if a.PatchOwn? then Failed
    else if p.Reporting? || p.Duplicating? then p.result else Failed
  }

  lemma WorkerSets(c: Config, s: State, i: nat, a: Action)
    requires ByWorker(a) && i == a.worker && WorkerIn(s, i) && WorkerCan(c, s.status, s.workers[i].phase, a)
    ensures !Patches(a) ==> WorkerApply(c, s, i, a).status == s.status
    ensures Patches(a) ==>
      && Hand(s.workers[i]) != []
      && WorkerApply(c, s, i, a).status
         == Patch(s.status, Hand(s.workers[i])[0], PatchedTo(s.workers[i].phase, a), a.call)
  {
  }

  lemma WorkerTouches(c: Config, s: State, i: nat, a: Action)
    requires ByWorker(a) && i == a.worker && WorkerIn(s, i) && WorkerCan(c, s.status, s.workers[i].phase, a)
    ensures OnlyIn(s, WorkerApply(c, s, i, a), Touched(s, a))
  {
    WorkerSets(c, s, i, a);
  }

  lemma ManagerTouches(c: Config, s: State, a: Action)
    requires !ByWorker(a) && !ByOthers(a) && ManagerCan(c, s, a)
    ensures OnlyIn(s, ManagerApply(c, s, a), Touched(s, a))
  {
  }

  lemma OthersTouch(s: State, a: Action)
    requires ByOthers(a) && OthersCan(s, a)
    ensures OnlyIn(s, OthersApply(s, a), Touched(s, a))
  {
  }

  lemma OnlyTouched(c: Config, s: State, a: Action)
    requires Enabled(c, s, a)
    ensures OnlyIn(s, Apply(c, s, a), Touched(s, a))
  {
    if ByWorker(a) { WorkerTouches(c, s, a.worker, a); }
    else if ByOthers(a) { OthersTouch(s, a); }
    else { ManagerTouches(c, s, a); }
  }

  /** A worker patches a dispatched task, or a started one to a terminal status. */
  lemma WorkerPatches(c: Config, s: State, i: nat, a: Action)
    requires Patches(a) && i == a.worker && WorkerIn(s, i) && WorkerCan(c, s.status, s.workers[i].phase, a)
    requires PhaseOk(s, s.workers[i])
    ensures var b := Hand(s.workers[i]);
      && b != [] && Touched(s, a) == {b[0]}
      && if a.PatchRunning? || a.PatchDuplicate? then HasStatus(s, b[0], {Dispatched})
         else HeadStarted(s, b[0]) && Terminal(PatchedTo(s.workers[i].phase, a))
  {
    assert Hand(s.workers[i])[0] in Hand(s.workers[i]);
  }

  lemma WorkerStarts(c: Config, s: State, i: nat, a: Action, t: TaskId)
    requires ByWorker(a) && i == a.worker && WorkerIn(s, i) && WorkerCan(c, s.status, s.workers[i].phase, a)
    requires PhaseOk(s, s.workers[i]) && HeadStarted(s, t)
    ensures HeadStarted(WorkerApply(c, s, i, a), t)
  {
    WorkerSets(c, s, i, a);
    if Patches(a) { WorkerPatches(c, s, i, a); }
  }

  lemma ManagerStarts(c: Config, s: State, a: Action, t: TaskId)
    requires !ByWorker(a) && !ByOthers(a) && ManagerCan(c, s, a) && HeadStarted(s, t)
    requires a.PushBack? ==> AllDispatched(s, ManagerHand(s.manager))
    ensures HeadStarted(ManagerApply(c, s, a), t)
  {
    ManagerTouches(c, s, a);
    if a.PushBack? && s.manager.items != [] { assert s.manager.items[0] in ManagerHand(s.manager); }
    if a.PatchFailed? && t == s.manager.task {
      assert ManagerApply(c, s, a).status == Patch(s.status, t, Failed, a.call);
    }
  }

  /** A task that has been started is never dispatched or queued again. */
  lemma StartedStays(c: Config, s: State, a: Action, t: TaskId)
    requires WorkersOk(s) && AllDispatched(s, ManagerHand(s.manager)) && Enabled(c, s, a) && HeadStarted(s, t)
    requires a.Conclude? ==> Terminal(a.callback.reported)
    ensures HeadStarted(Apply(c, s, a), t)
  {
    if ByWorker(a) { WorkerStarts(c, s, a.worker, a, t); }
    else if !ByOthers(a) { ManagerStarts(c, s, a, t); }
  }

  lemma CallbacksGrow(c: Config, s: State, a: Action)
    requires Enabled(c, s, a)
    ensures Apply(c, s, a).callbacks
         == if a.Receive? then s.callbacks + multiset{Callback(a.task, a.reported)}
            else if a.Conclude? then s.callbacks - multiset{a.callback} else s.callbacks
  {
    if ByWorker(a) { WorkerAlone(c, s, a.worker, a); }
    else if !ByOthers(a) { ManagerCallbacks(c, s, a); }
  }

  lemma ManagerCallbacks(c: Config, s: State, a: Action)
    requires !ByWorker(a) && !ByOthers(a) && ManagerCan(c, s, a)
    ensures ManagerApply(c, s, a).callbacks == s.callbacks
  {
  }

  /** A request that is accepted is about a running task, and those pending stay about started ones. */
  lemma CallbacksStep(c: Config, s: State, a: Action)
    requires WorkersOk(s) && AllDispatched(s, ManagerHand(s.manager)) && CallbacksOk(s) && Enabled(c, s, a)
    ensures CallbacksOk(Apply(c, s, a))
  {
    var s' := Apply(c, s, a);
    CallbacksGrow(c, s, a);
    forall callback | callback in s'.callbacks ensures HeadStarted(s', callback.task) && Terminal(callback.reported) {
      if callback in s.callbacks {
        StartedStays(c, s, a, callback.task);
      } else {
        assert a == Receive(callback.task, callback.reported) && s'.status == s.status;
      }
    }
  }
}
