/** Final statuses: which actions overwrite COMPLETED or FAILED, exactly when the next one can, and a kind of run in
    which none does. */
module WorkerStatus {
  import opened WorkerProtocol
  import opened WorkerInvariant
  import opened WorkerSteps
  import opened WorkerCalls
  import opened WorkerMainSteps

  /* ---------- pending patches ---------- */

  /** What a worker is about to patch its head to: the worker loop has seen it RUNNING, or the container handler is
      about to give it up. */
  function NextPatch(p: Phase): Option<Status> {
    match p
    case Reporting(_, result, _, _) => Some(result)
    case Quitting(_, ending) => if ending.Patched? then None else Some(Failed)
    case _ => None
  }

  ghost predicate Reports(s: State, i: nat, t: TaskId, result: Status) {
    && i < |s.workers| && NextPatch(s.workers[i].phase) == Some(result)
    && s.workers[i].phase.batch[0] == t
  }

  /** A worker is about to patch its head `t` to `result`. */
  ghost predicate PendingReport(s: State, t: TaskId, result: Status) {
    exists i :: Reports(s, i, t, result)
  }

  /** The main process has seen that `t` is unfinished and is about to patch it to FAILED. */
  ghost predicate PendingFailure(s: State, t: TaskId) {
    s.manager.Failing? && s.manager.task == t
  }

  /** No request of a container about `t` is pending among these. */
  ghost predicate NoCallback(callbacks: multiset<Callback>, t: TaskId) {
    forall callback | callback in callbacks :: callback.task != t
  }

  ghost predicate CanChange(c: Config, s: State, t: TaskId)
    requires t in s.status
  {
    exists a :: Enabled(c, s, a) && t in Apply(c, s, a).status && Apply(c, s, a).status[t] != s.status[t]
  }

  /* ---------- who changes the status of a started task ---------- */

  /** The actions that patch `t` to a final status. */
  ghost predicate Finishes(s: State, a: Action, t: TaskId) {
    || ((a.PatchHead? || a.PatchOwn?) && a.call.TakesEffect() && a.worker < |s.workers|
        && Hand(s.workers[a.worker]) != [] && Hand(s.workers[a.worker])[0] == t)
    || (a.PatchFailed? && a.call.TakesEffect() && PendingFailure(s, t))
    || (a.Conclude? && a.call.TakesEffect() && a.callback.task == t)
  }

  lemma WorkerFinishes(c: Config, s: State, i: nat, a: Action, t: TaskId)
    requires ByWorker(a) && i == a.worker && WorkerIn(s, i) && WorkerCan(c, s.status, s.workers[i].phase, a)
    requires PhaseOk(s, s.workers[i]) && HeadStarted(s, t) && !Finishes(s, a, t)
    ensures t in WorkerApply(c, s, i, a).status && WorkerApply(c, s, i, a).status[t] == s.status[t]
  {
    WorkerSets(c, s, i, a);
    if Patches(a) { WorkerPatches(c, s, i, a); }
  }

  lemma ManagerFinishes(c: Config, s: State, a: Action, t: TaskId)
    requires !ByWorker(a) && !ByOthers(a) && ManagerCan(c, s, a) && AllDispatched(s, ManagerHand(s.manager))
    requires HeadStarted(s, t) && !Finishes(s, a, t)
    ensures t in ManagerApply(c, s, a).status && ManagerApply(c, s, a).status[t] == s.status[t]
  {
    ManagerTouches(c, s, a);
    if a.PushBack? && s.manager.items != [] { assert s.manager.items[0] in ManagerHand(s.manager); }
    if a.PatchFailed? {
      assert ManagerApply(c, s, a).status == Patch(s.status, s.manager.task, Failed, a.call);
    }
  }

  /** The status of a started task differs after an action only if the action patches it to a final status. */
  lemma OnlyFinished(c: Config, s: State, a: Action, t: TaskId)
    requires WorkersOk(s) && AllDispatched(s, ManagerHand(s.manager)) && Enabled(c, s, a)
    requires HeadStarted(s, t) && !Finishes(s, a, t)
    ensures t in Apply(c, s, a).status && Apply(c, s, a).status[t] == s.status[t]
  {
    if ByWorker(a) { WorkerFinishes(c, s, a.worker, a, t); }
    else if !ByOthers(a) { ManagerFinishes(c, s, a, t); }
  }

  /** A worker that patches its head is one whose report is pending. */
  lemma PatchesPending(c: Config, s: State, i: nat, a: Action, t: TaskId)
    requires (a.PatchHead? || a.PatchOwn?) && i == a.worker && Finishes(s, a, t)
    requires WorkerIn(s, i) && WorkerCan(c, s.status, s.workers[i].phase, a)
    ensures Reports(s, i, t, PatchedTo(s.workers[i].phase, a))
    ensures WorkerApply(c, s, i, a).status == s.status[t := PatchedTo(s.workers[i].phase, a)]
  {
    WorkerSets(c, s, i, a);
  }

  /** Only three kinds of patch change a final status: the pending report of a worker, the one that fails the task of a
      dead worker, and the pending one of the output endpoint. */
  lemma WhoChanges(c: Config, s: State, a: Action, t: TaskId)
    requires Inv(c, s) && Enabled(c, s, a) && t in s.status && Terminal(s.status[t])
    requires t in Apply(c, s, a).status && Apply(c, s, a).status[t] != s.status[t]
    ensures var r := Apply(c, s, a).status[t];
      || ((a.PatchHead? || a.PatchOwn?) && Reports(s, a.worker, t, r))
      || (a.PatchFailed? && PendingFailure(s, t) && r == Failed)
      || (a.Conclude? && a.callback in s.callbacks && a.callback.task == t && r in {a.callback.reported, Failed})
  {
    if !Finishes(s, a, t) { OnlyFinished(c, s, a, t); }
    if a.PatchHead? || a.PatchOwn? { PatchesPending(c, s, a.worker, a, t); } else { FinishedTo(c, s, a, t); }
  }

  lemma FinishedTo(c: Config, s: State, a: Action, t: TaskId)
    requires Enabled(c, s, a) && Finishes(s, a, t) && (a.PatchFailed? || a.Conclude?)
    ensures a.Conclude? ==>
      && a.callback in s.callbacks && a.callback.task == t
      && Apply(c, s, a).status == s.status[t := Concluded(a.callback, a.saved)]
    ensures a.PatchFailed? ==> PendingFailure(s, t) && Apply(c, s, a).status == s.status[t := Failed]
  {
    if a.PatchFailed? { assert Apply(c, s, a) == FailingTask(s, a.call); }
    else { assert Apply(c, s, a) == Concluding(s, a.callback, a.saved, a.call); }
  }

  /* ---------- exactly when a final status can be overwritten ---------- */

  /** A request of a container that would set another status than `t` has. */
  ghost predicate PendingCallback(s: State, t: TaskId, callback: Callback)
    requires t in s.status
  {
    callback in s.callbacks && callback.task == t && (callback.reported != s.status[t] || s.status[t] != Failed)
  }

  /** A patch of `t` to another status than it has is pending. */
  ghost predicate Raced(s: State, t: TaskId)
    requires t in s.status
  {
    || (exists r: Status | r != s.status[t] :: PendingReport(s, t, r))
    || (PendingFailure(s, t) && s.status[t] != Failed)
    || (exists callback :: PendingCallback(s, t, callback))
  }

  /** Exactly when the next action can overwrite a terminal status: a patch to another status is pending. */
  lemma NextOverwritesIff(c: Config, s: State, t: TaskId)
    requires Inv(c, s) && t in s.status && Terminal(s.status[t])
    ensures CanChange(c, s, t) <==> Raced(s, t)
  {
    if CanChange(c, s, t) {
      var a :| Enabled(c, s, a) && t in Apply(c, s, a).status && Apply(c, s, a).status[t] != s.status[t];
      ChangedMeansRaced(c, s, a, t);
    }
    if Raced(s, t) { var a := RacedCanChange(c, s, t); }
  }

  lemma RacedCanChange(c: Config, s: State, t: TaskId) returns (a: Action)
    requires ManagerOk(s) && t in s.status && Raced(s, t)
    ensures Enabled(c, s, a) && t in Apply(c, s, a).status && Apply(c, s, a).status[t] != s.status[t]
  {
    if r: Status :| r != s.status[t] && PendingReport(s, t, r) {
      var i :| Reports(s, i, t, r);
      a := HeadPatched(c, s, i, t, r);
    } else if PendingFailure(s, t) && s.status[t] != Failed {
      a := TaskFailed(c, s, t);
    } else {
      var callback :| PendingCallback(s, t, callback);
      a := CallbackConcluded(c, s, t, callback);
    }
  }

  lemma ChangedMeansRaced(c: Config, s: State, a: Action, t: TaskId)
    requires Inv(c, s) && Enabled(c, s, a) && t in s.status && Terminal(s.status[t])
    requires t in Apply(c, s, a).status && Apply(c, s, a).status[t] != s.status[t]
    ensures Raced(s, t)
  {
    WhoChanges(c, s, a, t);
    var r := Apply(c, s, a).status[t];
    if a.PatchHead? || a.PatchOwn? { assert PendingReport(s, t, r); }
    else if a.Conclude? { assert PendingCallback(s, t, a.callback); }
  }

  lemma TaskFailed(c: Config, s: State, t: TaskId) returns (a: Action)
    requires PendingFailure(s, t) && s.manager.index < |s.workers| && t in s.status && s.status[t] != Failed
    ensures Enabled(c, s, a) && t in Apply(c, s, a).status && Apply(c, s, a).status[t] != s.status[t]
  {
    a := PatchFailed(Done);
    assert Enabled(c, s, a) && Apply(c, s, a) == FailingTask(s, Done);
    assert Apply(c, s, a).status[t] == Failed;
  }

  lemma HeadPatched(c: Config, s: State, i: nat, t: TaskId, r: Status) returns (a: Action)
    requires Reports(s, i, t, r) && t in s.status && s.status[t] != r
    ensures Enabled(c, s, a) && t in Apply(c, s, a).status && Apply(c, s, a).status[t] != s.status[t]
  {
    a := if s.workers[i].phase.Reporting? then PatchHead(i, Done) else PatchOwn(i, Done);
    assert Enabled(c, s, a) && Apply(c, s, a) == WorkerApply(c, s, i, a);
    PatchesPending(c, s, i, a, t);
    assert Apply(c, s, a).status[t] == r;
  }

  lemma CallbackConcluded(c: Config, s: State, t: TaskId, callback: Callback) returns (a: Action)
    requires t in s.status && PendingCallback(s, t, callback)
    ensures Enabled(c, s, a) && t in Apply(c, s, a).status && Apply(c, s, a).status[t] != s.status[t]
  {
    a := Conclude(callback, callback.reported != s.status[t], Done);
    assert Enabled(c, s, a) && Apply(c, s, a) == Concluding(s, callback, a.saved, Done);
    assert Apply(c, s, a).status[t] == Concluded(callback, a.saved);
  }

  /* ---------- runs without races ---------- */

  /** No pending patch concerns a finished task. */
  ghost predicate NoRace(s: State) {
    && (forall i, t, r | Reports(s, i, t, r) :: HasStatus(s, t, {Running}))
    && (s.manager.Failing? ==> HasStatus(s, s.manager.task, {Dispatched, Running}))
    && (forall callback | callback in s.callbacks :: HasStatus(s, callback.task, {Running}))
  }

  /** No task is patched to a final status while another such patch of it is pending, and a handler gives up without
      looking only if its task is running. */
  ghost predicate Orderly(s: State, a: Action) {
    match a
    case Conclude(callback, _, call) => call.TakesEffect() ==>
      && !PendingFailure(s, callback.task) && (forall r: Status :: !PendingReport(s, callback.task, r))
      && NoCallback(s.callbacks - multiset{callback}, callback.task)
    case PatchHead(i, call) => call.TakesEffect() && i < |s.workers| && s.workers[i].phase.Reporting? ==>
      NoCallback(s.callbacks, s.workers[i].phase.batch[0])
    case PatchOwn(i, call) => call.TakesEffect() && i < |s.workers| && s.workers[i].phase.Quitting? ==>
      NoCallback(s.callbacks, s.workers[i].phase.batch[0])
    case PatchFailed(call) => call.TakesEffect() && s.manager.Failing? ==> NoCallback(s.callbacks, s.manager.task)
    case FindBroken(i) => i < |s.workers| && s.workers[i].phase.Handling? ==>
      HasStatus(s, s.workers[i].phase.batch[0], {Running})
    case _ => true
  }

  ghost predicate OrderlyRun(c: Config, s: State, trace: seq<Action>)
    requires Legal(c, s, trace)
    decreases |trace|
  {
    trace == [] || (Orderly(s, trace[0]) && OrderlyRun(c, Apply(c, s, trace[0]), trace[1..]))
  }

  lemma FailingHand(s: State, i: nat)
    requires Unique(s) && ManagerOk(s) && s.manager.Failing? && i < |s.workers| && s.workers[i].Alive()
    ensures s.manager.task !in Hand(s.workers[i])
  {
    var k, t := s.manager.index, s.manager.task;
    if s.workers[k].phase == Dead(Some(t)) {
      assert t in Hand(s.workers[k]);
      Elsewhere(s, k, t);
    } else if t in Hand(s.workers[i]) {
      InHeld(s, i, t);
    }
  }

  /** How a worker comes to have a pending patch: it had it before, or it has just seen its head RUNNING, or it gives up
      without looking. */
  lemma ReportsBefore(c: Config, s: State, a: Action, i: nat, t: TaskId, r: Status)
    requires Enabled(c, s, a) && Reports(Apply(c, s, a), i, t, r)
    requires s.manager.Starting? ==> s.manager.index < |s.workers|
    ensures || (Reports(s, i, t, r) && !(ByWorker(a) && a.worker == i))
            || (ByWorker(a) && Apply(c, s, a).status == s.status
                && (HasStatus(s, t, {Running}) || (a.FindBroken? && a.worker == i && s.workers[i].phase.batch[0] == t)))
  {
    if ByWorker(a) { OwnReports(c, s, a.worker, a, i, t, r); }
    else if !ByOthers(a) { ManagerReports(c, s, a, i, t, r); }
  }

  lemma OwnReports(c: Config, s: State, j: nat, a: Action, i: nat, t: TaskId, r: Status)
    requires ByWorker(a) && j == a.worker && WorkerIn(s, j) && WorkerCan(c, s.status, s.workers[j].phase, a)
    requires Reports(WorkerApply(c, s, j, a), i, t, r)
    ensures if i != j then Reports(s, i, t, r) else
      && WorkerApply(c, s, j, a).status == s.status
      && (HasStatus(s, t, {Running}) || (a.FindBroken? && s.workers[i].phase.batch[0] == t))
  {
    if i != j { OthersWait(c, s, j, a, i); }
  }

  lemma OthersWait(c: Config, s: State, j: nat, a: Action, i: nat)
    requires ByWorker(a) && j == a.worker && WorkerIn(s, j) && WorkerCan(c, s.status, s.workers[j].phase, a)
    requires i != j
    ensures |WorkerApply(c, s, j, a).workers| == |s.workers|
    ensures i < |s.workers| ==> WorkerApply(c, s, j, a).workers[i] == s.workers[i]
  {
  }

  lemma ManagerReports(c: Config, s: State, a: Action, i: nat, t: TaskId, r: Status)
    requires !ByWorker(a) && !ByOthers(a) && ManagerCan(c, s, a) && Reports(ManagerApply(c, s, a), i, t, r)
    ensures Reports(s, i, t, r)
  {
  }

  lemma NoRaceWorker(c: Config, s: State, a: Action, i: nat, t: TaskId, r: Status)
    requires Inv(c, s) && Enabled(c, s, a) && NoRace(s) && Orderly(s, a) && Reports(Apply(c, s, a), i, t, r)
    ensures HasStatus(Apply(c, s, a), t, {Running})
  {
    ReportsBefore(c, s, a, i, t, r);
    if Reports(s, i, t, r) && !(ByWorker(a) && a.worker == i) {
      NotFinished(s, a, i, t, r);
      OnlyFinished(c, s, a, t);
    }
  }

  /** Nobody else finishes a task whose report is pending. */
  lemma NotFinished(s: State, a: Action, i: nat, t: TaskId, r: Status)
    requires Unique(s) && ManagerOk(s) && Orderly(s, a) && Reports(s, i, t, r) && !(ByWorker(a) && a.worker == i)
    ensures !Finishes(s, a, t)
  {
    assert t in Hand(s.workers[i]);
    if a.PatchHead? || a.PatchOwn? { Elsewhere(s, i, t); }
    else if a.PatchFailed? && s.manager.Failing? { FailingHand(s, i); }
    else if a.Conclude? { assert PendingReport(s, t, r); }
  }

  lemma NewFailing(c: Config, s: State, a: Action)
    requires Enabled(c, s, a) && Apply(c, s, a).manager.Failing? && !s.manager.Failing?
    ensures HasStatus(Apply(c, s, a), Apply(c, s, a).manager.task, {Dispatched, Running})
  {
    if ByWorker(a) { WorkerAlone(c, s, a.worker, a); }
    else if a.Examine? { assert Apply(c, s, a) == Examining(s, a.call); }
    else if a.Reap? { assert Apply(c, s, a) == ReapingNext(s, a.call); }
  }

  lemma StillFailing(c: Config, s: State, a: Action)
    requires Enabled(c, s, a) && s.manager.Failing? && !a.PatchFailed?
    ensures Apply(c, s, a).manager == s.manager && (ByWorker(a) || ByOthers(a))
  {
    if ByWorker(a) { WorkerAlone(c, s, a.worker, a); }
  }

  lemma FailingKept(c: Config, s: State, a: Action)
    requires Inv(c, s) && Enabled(c, s, a) && NoRace(s) && Orderly(s, a) && s.manager.Failing?
    requires ByWorker(a) || ByOthers(a)
    ensures HasStatus(Apply(c, s, a), s.manager.task, {Dispatched, Running})
  {
    OnlyTouched(c, s, a);
    if Patches(a) {
      WorkerPatches(c, s, a.worker, a);
      FailingHand(s, a.worker);
    } else if a.Conclude? {
      assert a.callback.task == s.manager.task ==> !a.call.TakesEffect();
    }
  }

  lemma NoRaceCallback(c: Config, s: State, a: Action, callback: Callback)
    requires Inv(c, s) && Enabled(c, s, a) && NoRace(s) && Orderly(s, a) && callback in Apply(c, s, a).callbacks
    ensures HasStatus(Apply(c, s, a), callback.task, {Running})
  {
    CallbacksGrow(c, s, a);
    if a.Receive? && callback == Callback(a.task, a.reported) {
      assert Apply(c, s, a).status == s.status;
    } else {
      assert callback in s.callbacks;
      assert a.Conclude? ==> callback in s.callbacks - multiset{a.callback};
      if Finishes(s, a, callback.task) { AloneIfFinished(c, s, a, callback); }
      OnlyFinished(c, s, a, callback.task);
    }
  }

  /** An orderly final patch is not made while a request about the same task is pending. */
  lemma AloneIfFinished(c: Config, s: State, a: Action, callback: Callback)
    requires Enabled(c, s, a) && Orderly(s, a) && Finishes(s, a, callback.task) && callback in s.callbacks
    ensures a.Conclude? && callback !in s.callbacks - multiset{a.callback}
  {
  }

  /** In an orderly step no pending patch comes to concern a finished task. */
  lemma NoRaceStep(c: Config, s: State, a: Action)
    requires Inv(c, s) && Enabled(c, s, a) && NoRace(s) && Orderly(s, a)
    ensures NoRace(Apply(c, s, a))
  {
    var s' := Apply(c, s, a);
    forall i, t, r | Reports(s', i, t, r) ensures HasStatus(s', t, {Running}) { NoRaceWorker(c, s, a, i, t, r); }
    if s'.manager.Failing? { NoRaceFailing(c, s, a); }
    forall callback | callback in s'.callbacks ensures HasStatus(s', callback.task, {Running}) {
      NoRaceCallback(c, s, a, callback);
    }
  }

  lemma NoRaceFailing(c: Config, s: State, a: Action)
    requires Inv(c, s) && Enabled(c, s, a) && NoRace(s) && Orderly(s, a) && Apply(c, s, a).manager.Failing?
    ensures HasStatus(Apply(c, s, a), Apply(c, s, a).manager.task, {Dispatched, Running})
  {
    if !s.manager.Failing? {
      NewFailing(c, s, a);
    } else if !a.PatchFailed? {
      StillFailing(c, s, a);
      FailingKept(c, s, a);
    }
  }

  lemma InitNoRace(c: Config, s: State)
    requires Init(c, s)
    ensures NoRace(s)
  {
  }

  lemma {:induction false} NoRaceRun(c: Config, s: State, trace: seq<Action>)
    requires Inv(c, s) && NoRace(s) && Legal(c, s, trace) && OrderlyRun(c, s, trace)
    ensures NoRace(After(c, s, trace))
    decreases |trace|
  {
    if trace == [] {
    } else {
      NoRaceStep(c, s, trace[0]);
      StepInv(c, s, trace[0]);
      NoRaceRun(c, Apply(c, s, trace[0]), trace[1..]);
    }
  }

  lemma UnfinishedIfPatched(c: Config, s: State, a: Action, t: TaskId)
    requires NoRace(s) && Enabled(c, s, a) && Finishes(s, a, t)
    ensures HasStatus(s, t, {Dispatched, Running})
  {
    if a.PatchHead? || a.PatchOwn? { PatchesPending(c, s, a.worker, a, t); }
  }

  lemma FinalStep(c: Config, s: State, a: Action, t: TaskId)
    requires Inv(c, s) && NoRace(s) && Enabled(c, s, a) && t in s.status && Terminal(s.status[t])
    ensures t in Apply(c, s, a).status && Apply(c, s, a).status[t] == s.status[t]
  {
    if Finishes(s, a, t) { UnfinishedIfPatched(c, s, a, t); } else { OnlyFinished(c, s, a, t); }
  }

  lemma {:induction false} FinalFromHere(c: Config, s: State, trace: seq<Action>, t: TaskId)
    requires Inv(c, s) && NoRace(s) && Legal(c, s, trace) && OrderlyRun(c, s, trace)
    requires t in s.status && Terminal(s.status[t])
    ensures t in After(c, s, trace).status && After(c, s, trace).status[t] == s.status[t]
    decreases |trace|
  {
    if trace == [] {
    } else {
      FinalStep(c, s, trace[0], t);
      NoRaceStep(c, s, trace[0]);
      StepInv(c, s, trace[0]);
      FinalFromHere(c, Apply(c, s, trace[0]), trace[1..], t);
    }
  }

  /** COMPLETED and FAILED are final in every orderly run from the start, stale records, reused pids, late requests of
      containers and failing calls notwithstanding. */
  lemma FinalStatusStays(c: Config, s0: State, trace: seq<Action>, more: seq<Action>, t: TaskId)
    requires Init(c, s0) && Legal(c, s0, trace) && OrderlyRun(c, s0, trace)
    requires Legal(c, After(c, s0, trace), more) && OrderlyRun(c, After(c, s0, trace), more)
    requires HasStatus(After(c, s0, trace), t, {Completed, Failed})
    ensures var s := After(c, s0, trace);
      t in After(c, s, more).status && After(c, s, more).status[t] == s.status[t]
  {
    InitInv(c, s0);
    InitNoRace(c, s0);
    RunInv(c, s0, trace);
    NoRaceRun(c, s0, trace);
    FinalFromHere(c, After(c, s0, trace), more, t);
  }
}
