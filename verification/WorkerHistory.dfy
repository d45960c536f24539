/** What the bookkeeping of the worker protocol records, action by action: which tasks were popped, which were lost to
    the death of a process, and which to a failing call. */
module WorkerHistory {
  import opened WorkerProtocol
  import opened WorkerInvariant
  import opened WorkerTheorems

  /* ---------- popped tasks ---------- */

  /** The scheduler has dispatched the task in this action, whether or not its answer arrived. */
  predicate Pops(a: Action, t: TaskId) {
    a.Pop? && a.call != Refused && t in a.tasks
  }

  lemma WorkerPopsNothing(c: Config, s: State, i: nat, a: Action)
    requires ByWorker(a) && i == a.worker && WorkerIn(s, i) && WorkerCan(c, s.status, s.workers[i].phase, a)
    ensures WorkerApply(c, s, i, a).history.popped == s.history.popped
  {
  }

  lemma ManagerPops(c: Config, s: State, a: Action, t: TaskId)
    requires !ByWorker(a) && !ByOthers(a) && ManagerCan(c, s, a)
    ensures t in ManagerApply(c, s, a).history.popped <==> t in s.history.popped || Pops(a, t)
  {
  }

  lemma {:induction false} PoppedIff(c: Config, s: State, trace: seq<Action>, t: TaskId)
    requires Legal(c, s, trace)
    ensures t in After(c, s, trace).history.popped
       <==> t in s.history.popped || exists k | 0 <= k < |trace| :: Pops(trace[k], t)
    decreases |trace|
  {
    if trace == [] {
    } else {
      var a := trace[0];
      if ByWorker(a) { WorkerPopsNothing(c, s, a.worker, a); } else if !ByOthers(a) { ManagerPops(c, s, a, t); }
      PoppedIff(c, Apply(c, s, a), trace[1..], t);
      PopsSomewhere(trace, t);
    }
  }

  lemma PopsSomewhere(trace: seq<Action>, t: TaskId)
    requires trace != []
    ensures (exists k | 0 <= k < |trace| :: Pops(trace[k], t))
       <==> Pops(trace[0], t) || exists k | 0 <= k < |trace| - 1 :: Pops(trace[1..][k], t)
  {
    if k :| 0 < k < |trace| && Pops(trace[k], t) { assert Pops(trace[1..][k - 1], t); }
    if k :| 0 <= k < |trace| - 1 && Pops(trace[1..][k], t) { assert Pops(trace[k + 1], t); }
  }

  /* ---------- tasks whose worker died ---------- */

  /** The action ends the living process of worker `i` from outside. */
  predicate Kills(s: State, a: Action, i: nat) {
    WorkerIn(s, i) && s.workers[i].Alive() && (a == Die(i) || (a.Kill? && s.manager.Killing? && s.manager.index == i))
  }

  /** Exactly the head of a batch whose worker dies before recording it becomes unrecorded. */
  lemma UnrecordedIff(c: Config, s: State, a: Action, t: TaskId)
    requires Enabled(c, s, a) && t !in s.history.unrecorded
    ensures t in Apply(c, s, a).history.unrecorded
       <==> exists i: nat :: Kills(s, a, i) && s.workers[i].phase.Taken? && s.workers[i].phase.batch[0] == t
  {
    if a.Die? { assert Kills(s, a, a.worker); }
    if a.Kill? && s.manager.index < |s.workers| && s.workers[s.manager.index].Alive() {
      assert Kills(s, a, s.manager.index);
    }
    if ByWorker(a) { UnrecordedByWorker(c, s, a.worker, a, t); }
    else if !ByOthers(a) { UnrecordedByManager(c, s, a, t); }
  }

  lemma UnrecordedByWorker(c: Config, s: State, i: nat, a: Action, t: TaskId)
    requires ByWorker(a) && i == a.worker && WorkerIn(s, i) && WorkerCan(c, s.status, s.workers[i].phase, a)
    requires t !in s.history.unrecorded
    ensures t in WorkerApply(c, s, i, a).history.unrecorded
       <==> a.Die? && s.workers[i].phase.Taken? && s.workers[i].phase.batch[0] == t
  {
  }

  lemma UnrecordedByManager(c: Config, s: State, a: Action, t: TaskId)
    requires !ByWorker(a) && !ByOthers(a) && ManagerCan(c, s, a) && t !in s.history.unrecorded
    ensures t in ManagerApply(c, s, a).history.unrecorded <==>
      && a.Kill? && s.manager.index < |s.workers| && s.workers[s.manager.index].phase.Taken?
      && s.workers[s.manager.index].phase.batch[0] == t
  {
  }

  /* ---------- tasks that a failing call was about ---------- */

  /** The tasks that the call of the action, or the loop it is in, was about. */
  predicate Concerns(s: State, a: Action, t: TaskId) {
    match a
    case PatchRunning(i, _) => WorkerIn(s, i) && s.workers[i].phase.Recorded? && s.workers[i].phase.batch[0] == t
    case Check(i, _) => WorkerIn(s, i) && t in Hand(s.workers[i])
    case PatchHead(i, _) => WorkerIn(s, i) && t in Hand(s.workers[i])
    case Copy(i, _) => WorkerIn(s, i) && t in Hand(s.workers[i])
    case PatchDuplicate(i, _) => WorkerIn(s, i) && t in Hand(s.workers[i])
    case Pop(ts, _) => t in ts
    case PushBack(_) => s.manager.Pushing? && s.manager.items != [] && s.manager.items[0] == t
    case Examine(_) => s.manager.Replacing? && DiedWith(s, s.manager.index, t)
    case PatchFailed(_) => s.manager.Failing? && DiedWith(s, s.manager.index, t)
    case Reap(_) =>
      s.manager.Reaping? && s.manager.index < |s.manager.killed| && DiedWith(s, s.manager.killed[s.manager.index], t)
    case _ => false
  }

  predicate DiedWith(s: State, i: nat, t: TaskId) {
    WorkerIn(s, i) && s.workers[i].phase == Dead(Some(t))
  }

  lemma WorkerAbandons(c: Config, s: State, i: nat, a: Action, t: TaskId)
    requires ByWorker(a) && i == a.worker && WorkerIn(s, i) && WorkerCan(c, s.status, s.workers[i].phase, a)
    requires TasksKnown(s)
    ensures t in WorkerApply(c, s, i, a).history.abandoned
       <==> t in s.history.abandoned || (!Succeeds(a) && Concerns(s, a, t))
  {
  }

  lemma ManagerAbandons(c: Config, s: State, a: Action, t: TaskId)
    requires !ByWorker(a) && !ByOthers(a) && ManagerCan(c, s, a) && TasksKnown(s) && WorkersOk(s) && ManagerOk(s)
    ensures t in ManagerApply(c, s, a).history.abandoned
       <==> t in s.history.abandoned || (!Succeeds(a) && Concerns(s, a, t))
  {
    if a.Examine? {
      if s.manager.index < |s.workers| && s.workers[s.manager.index].phase.Dead? {
        CleanUpAbandons(s, s.manager.index, a.call, Starting(s.manager.index), t);
      }
    } else if a.Reap? && s.manager.index < |s.manager.killed| {
      var i := s.manager.killed[s.manager.index];
      CleanUpAbandons(s, i, a.call, Reaping(s.manager.killed, s.manager.index + 1), t);
    }
  }

  lemma CleanUpAbandons(s: State, i: nat, call: Call, next: Manager, t: TaskId)
    requires TasksKnown(s) && WorkersOk(s) && i < |s.workers| && s.workers[i].phase.Dead?
    ensures t in CleanUp(s, i, call, next).history.abandoned
       <==> t in s.history.abandoned || (call != Done && s.workers[i].phase == Dead(Some(t)))
  {
    assert RecordOk(s, s.workers[i]);
  }

  /** In every reachable state, exactly the tasks that a failing call was about become abandoned. */
  lemma AbandonedIff(c: Config, s: State, a: Action, t: TaskId)
    requires Inv(c, s) && Enabled(c, s, a)
    ensures t in Apply(c, s, a).history.abandoned
       <==> t in s.history.abandoned || (!Succeeds(a) && Concerns(s, a, t))
  {
    InvTasksKnown(c, s);
    if ByWorker(a) { WorkerAbandons(c, s, a.worker, a, t); } else if !ByOthers(a) { ManagerAbandons(c, s, a, t); }
  }

  /* ---------- the first iteration of a process ---------- */

  /** A process has started timing once its patch to RUNNING has succeeded, and a new process has not. */
  lemma TimedIff(c: Config, s: State, a: Action, i: nat)
    requires Enabled(c, s, a) && WorkerIn(s, i)
    ensures WorkerIn(Apply(c, s, a), i)
    ensures Apply(c, s, a).workers[i].timed <==>
      !(a.Start? && s.manager.index == i) && (s.workers[i].timed || a == PatchRunning(i, Done))
  {
    if ByWorker(a) { TimedByWorker(c, s, a.worker, a, i); } else if !ByOthers(a) { TimedByManager(c, s, a, i); }
  }

  lemma TimedByWorker(c: Config, s: State, j: nat, a: Action, i: nat)
    requires ByWorker(a) && j == a.worker && WorkerIn(s, j) && WorkerCan(c, s.status, s.workers[j].phase, a)
    requires WorkerIn(s, i)
    ensures |WorkerApply(c, s, j, a).workers| == |s.workers|
    ensures WorkerApply(c, s, j, a).workers[i].timed <==> s.workers[i].timed || a == PatchRunning(i, Done)
  {
  }

  lemma TimedByManager(c: Config, s: State, a: Action, i: nat)
    requires !ByWorker(a) && !ByOthers(a) && ManagerCan(c, s, a) && WorkerIn(s, i)
    ensures |ManagerApply(c, s, a).workers| == |s.workers|
    ensures ManagerApply(c, s, a).workers[i].timed <==> !(a.Start? && s.manager.index == i) && s.workers[i].timed
  {
  }
}
