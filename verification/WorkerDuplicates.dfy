/** The duplicates of a batch, and the bound of the local queue. */
module WorkerDuplicates {
  import opened WorkerProtocol
  import opened WorkerInvariant
  import opened WorkerMainSteps
  import opened WorkerRuns
  import opened WorkerTheorems

  /* ---------- a worker is moved only by itself, until it dies ---------- */

  predicate Own(a: Action, i: nat) {
    (ByWorker(a) || a.Get?) && a.worker == i
  }

  lemma OthersLeave(c: Config, s: State, a: Action, i: nat)
    requires Enabled(c, s, a) && i < |s.workers| && s.workers[i].Alive() && !Own(a, i)
    requires a.Start? ==> s.manager.index < |s.workers| && !s.workers[s.manager.index].Alive()
    requires a.PatchFailed? ==> !s.workers[s.manager.index].Alive()
    ensures |Apply(c, s, a).workers| == |s.workers|
    ensures Apply(c, s, a).workers[i] == s.workers[i] || !Apply(c, s, a).workers[i].Alive()
  {
    if ByWorker(a) { OthersWork(c, s, a.worker, a, i); }
  }

  lemma MainLeaves(c: Config, s: State, a: Action)
    requires Inv(c, s) && Enabled(c, s, a)
    ensures a.Start? ==> s.manager.index < |s.workers| && !s.workers[s.manager.index].Alive()
    ensures a.PatchFailed? ==> !s.workers[s.manager.index].Alive()
  {
  }

  /* ---------- duplicates are completed only when the head's output was stored ---------- */

  /** Worker `i` saw its handler return a value at step `j`, and has not taken another batch since. */
  ghost predicate ReturnedAt(trace: seq<Action>, j: int, i: nat) {
    && 0 <= j < |trace| && trace[j] == Handle(i, Returned(true))
    && forall k | j < k < |trace| :: trace[k] != Get(i)
  }

  ghost predicate HasReturned(trace: seq<Action>, i: nat) {
    exists j :: ReturnedAt(trace, j, i)
  }

  /** ... and then stored the raw files for the duplicates. */
  ghost predicate StoredAfter(trace: seq<Action>, j: int, k: int, i: nat) {
    ReturnedAt(trace, j, i) && j < k < |trace| && trace[k] == Copy(i, Stored)
  }

  ghost predicate HasStored(trace: seq<Action>, i: nat) {
    exists j, k :: StoredAfter(trace, j, k, i)
  }

  /** What the phase of a worker says about its past. */
  predicate Earned(p: Phase, returned: bool, stored: bool) {
    && ((p.Handled? || p.Reporting?) && p.output ==> returned)
    && (p.Copying? ==> returned)
    && (p.Duplicating? && p.result == Completed ==> stored)
  }

  ghost predicate Deserved(trace: seq<Action>, p: Phase, i: nat) {
    Earned(p, HasReturned(trace, i), HasStored(trace, i))
  }

  lemma ReturnedGrows(trace: seq<Action>, a: Action, i: nat)
    requires a != Get(i)
    ensures HasReturned(trace, i) ==> HasReturned(trace + [a], i)
    ensures HasStored(trace, i) ==> HasStored(trace + [a], i)
    ensures HasReturned(trace, i) && a == Copy(i, Stored) ==> HasStored(trace + [a], i)
    ensures a == Handle(i, Returned(true)) ==> HasReturned(trace + [a], i)
  {
    var trace' := trace + [a];
    if HasReturned(trace, i) {
      var j :| ReturnedAt(trace, j, i);
      assert ReturnedAt(trace', j, i);
      if a == Copy(i, Stored) { assert StoredAfter(trace', j, |trace|, i); }
    }
    if HasStored(trace, i) {
      var j, k :| StoredAfter(trace, j, k, i);
      assert StoredAfter(trace', j, k, i);
    }
    if a == Handle(i, Returned(true)) { assert ReturnedAt(trace', |trace|, i); }
  }

  lemma DeservedOwn(c: Config, s: State, i: nat, trace: seq<Action>, a: Action)
    requires ByWorker(a) && i == a.worker && WorkerIn(s, i) && WorkerCan(c, s.status, s.workers[i].phase, a)
    requires Deserved(trace, s.workers[i].phase, i)
    ensures i < |WorkerApply(c, s, i, a).workers|
    ensures Deserved(trace + [a], WorkerApply(c, s, i, a).workers[i].phase, i)
  {
    ReturnedGrows(trace, a, i);
    var returned := HasReturned(trace, i) || a == Handle(i, Returned(true));
    EarnedOwn(c, s, i, a, returned, HasStored(trace, i) || (HasReturned(trace, i) && a == Copy(i, Stored)));
  }

  /** `returned` and `stored` are what holds after the step. */
  lemma EarnedOwn(c: Config, s: State, i: nat, a: Action, returned: bool, stored: bool)
    requires ByWorker(a) && i == a.worker && WorkerIn(s, i) && WorkerCan(c, s.status, s.workers[i].phase, a)
    requires Earned(s.workers[i].phase, returned, stored)
    requires a == Handle(i, Returned(true)) ==> returned
    requires a == Copy(i, Stored) && s.workers[i].phase.Copying? ==> stored
    ensures i < |WorkerApply(c, s, i, a).workers|
    ensures Earned(WorkerApply(c, s, i, a).workers[i].phase, returned, stored)
  {
    if a.Check? || a.PatchHead? {
      EarnedHead(c, s, i, a, returned, stored);
    } else if a.Copy? || a.PatchDuplicate? {
      EarnedRest(c, s, i, a, returned, stored);
    }
  }

  lemma EarnedSettled(c: Config, s: State, i: nat, p: Phase, returned: bool, stored: bool)
    requires WorkerIn(s, i) && (p.Handled? || p.Reporting?) && (p.output ==> returned)
    ensures i < |Settle(c, s, i, p).workers|
    ensures Earned(Settle(c, s, i, p).workers[i].phase, returned, stored)
  {
  }

  lemma EarnedHead(c: Config, s: State, i: nat, a: Action, returned: bool, stored: bool)
    requires (a.Check? || a.PatchHead?) && i == a.worker && WorkerIn(s, i)
    requires WorkerCan(c, s.status, s.workers[i].phase, a) && Earned(s.workers[i].phase, returned, stored)
    ensures i < |WorkerApply(c, s, i, a).workers|
    ensures Earned(WorkerApply(c, s, i, a).workers[i].phase, returned, stored)
  {
    var p := s.workers[i].phase;
    if a.Check? {
      EarnedSettled(c, s, i, p, returned, stored);
    } else {
      EarnedSettled(c, s.(status := Patch(s.status, p.batch[0], p.result, a.call)), i, p, returned, stored);
    }
  }

  lemma EarnedRest(c: Config, s: State, i: nat, a: Action, returned: bool, stored: bool)
    requires (a.Copy? || a.PatchDuplicate?) && i == a.worker && WorkerIn(s, i)
    requires WorkerCan(c, s.status, s.workers[i].phase, a) && Earned(s.workers[i].phase, returned, stored)
    requires a == Copy(i, Stored) ==> stored
    ensures i < |WorkerApply(c, s, i, a).workers|
    ensures Earned(WorkerApply(c, s, i, a).workers[i].phase, returned, stored)
  {
  }

  lemma DeservedStep(c: Config, s: State, trace: seq<Action>, a: Action, i: nat)
    requires Inv(c, s) && Enabled(c, s, a) && i < |s.workers| == |Apply(c, s, a).workers|
    requires Deserved(trace, s.workers[i].phase, i)
    ensures Deserved(trace + [a], Apply(c, s, a).workers[i].phase, i)
  {
    if Own(a, i) {
      if ByWorker(a) { DeservedOwn(c, s, i, trace, a); }
    } else {
      MainLeaves(c, s, a);
      ReturnedGrows(trace, a, i);
      if s.workers[i].Alive() { OthersLeave(c, s, a, i); } else { DeadStay(c, s, a, i); }
    }
  }

  lemma DeadStay(c: Config, s: State, a: Action, i: nat)
    requires Enabled(c, s, a) && i < |s.workers| && !s.workers[i].Alive() && !Own(a, i)
    ensures |Apply(c, s, a).workers| == |s.workers|
    ensures Apply(c, s, a).workers[i].phase.Dead? || Apply(c, s, a).workers[i].phase == Waiting
  {
    if ByWorker(a) { OthersWork(c, s, a.worker, a, i); } else if !ByOthers(a) { DeadStayDead(c, s, a, i); }
  }

  lemma DeadStayDead(c: Config, s: State, a: Action, i: nat)
    requires !ByWorker(a) && !ByOthers(a) && ManagerCan(c, s, a) && i < |s.workers| && !s.workers[i].Alive()
    ensures |ManagerApply(c, s, a).workers| == |s.workers|
    ensures ManagerApply(c, s, a).workers[i].phase.Dead? || ManagerApply(c, s, a).workers[i].phase == Waiting
  {
    if a.Examine? { DeadExamined(s, a.call, i); } else if a.Reap? { DeadReaped(s, a.call, i); }
  }

  lemma DeadExamined(s: State, call: Call, i: nat)
    requires s.manager.Replacing? && i < |s.workers| && !s.workers[i].Alive()
    ensures |Examining(s, call).workers| == |s.workers| && Examining(s, call).workers[i].phase.Dead?
  {
  }

  lemma DeadReaped(s: State, call: Call, i: nat)
    requires CanReap(s) && i < |s.workers| && !s.workers[i].Alive()
    ensures |ReapingNext(s, call).workers| == |s.workers| && ReapingNext(s, call).workers[i].phase.Dead?
  {
  }

  lemma OthersWork(c: Config, s: State, j: nat, a: Action, i: nat)
    requires ByWorker(a) && j == a.worker && WorkerIn(s, j) && WorkerCan(c, s.status, s.workers[j].phase, a)
    requires i < |s.workers| && j != i
    ensures |WorkerApply(c, s, j, a).workers| == |s.workers| && WorkerApply(c, s, j, a).workers[i] == s.workers[i]
  {
  }

  lemma {:induction false} AllDeserved(c: Config, s0: State, trace: seq<Action>, i: nat)
    requires Init(c, s0) && Legal(c, s0, trace) && i < |After(c, s0, trace).workers|
    ensures Deserved(trace, After(c, s0, trace).workers[i].phase, i)
    decreases |trace|
  {
    if trace == [] {
    } else {
      var n := |trace| - 1;
      var before, a := trace[..n], trace[n];
      assert trace == before + [a];
      LegalInit(c, s0, before, a);
      ReachableInv(c, s0, before);
      ReachableInv(c, s0, trace);
      AllDeserved(c, s0, before, i);
      DeservedStep(c, After(c, s0, before), before, a, i);
    }
  }

  /** No duplicate is marked COMPLETED by a worker unless, for that very batch, the handler returned a value and
      copying the raw files returned. */
  lemma CompletionIsEarned(c: Config, s0: State, trace: seq<Action>, i: nat, call: Call)
    requires Init(c, s0) && Legal(c, s0, trace) && Enabled(c, After(c, s0, trace), PatchDuplicate(i, call))
    requires After(c, s0, trace).workers[i].phase.result != Queued
    ensures After(c, s0, trace).workers[i].phase.result == Completed
    ensures exists j, k ::
      (0 <= j < k < |trace| && trace[j] == Handle(i, Returned(true)) && trace[k] == Copy(i, Stored)
       && forall l | j < l < |trace| :: trace[l] != Get(i))
  {
    ReachableInv(c, s0, trace);
    AllDeserved(c, s0, trace, i);
    assert PhaseOk(After(c, s0, trace), After(c, s0, trace).workers[i]);
    var j, k :| StoredAfter(trace, j, k, i);
  }

  /* ---------- otherwise they are queued again ---------- */

  /** The duplicates a worker still has to give back when its handler produced nothing. */
  function ToRequeue(p: Phase): seq<TaskId> {
    match p
    case Handled(b, _, output, _) => if output then [] else b[1..]
    case Reporting(b, _, output, _) => if output then [] else b[1..]
    case Duplicating(rest, result, _) => if result == Queued then rest else []
    case _ => []
  }

  /** In worker `i`'s own successful step a duplicate is still to be given back, or is queued now. */
  lemma RequeueStep(c: Config, s: State, a: Action, t: TaskId)
    requires ByWorker(a) && Enabled(c, s, a) && c.boefjes && Succeeds(a) && !a.Die?
    requires PhaseOk(s, s.workers[a.worker]) && t in ToRequeue(s.workers[a.worker].phase)
    requires a.Check? ==> s.workers[a.worker].phase.batch[0] in s.status
    ensures var s' := Apply(c, s, a);
      && a.worker < |s'.workers|
      && (t in ToRequeue(s'.workers[a.worker].phase) || HasStatus(s', t, {Queued}))
  {
  }

  /** Worker `i` is alive in every state of the run. */
  ghost predicate Survives(c: Config, s: State, trace: seq<Action>, i: nat)
    requires Legal(c, s, trace)
    decreases |trace|
  {
    && i < |s.workers| && s.workers[i].Alive()
    && (trace != [] ==> Survives(c, Apply(c, s, trace[0]), trace[1..], i))
  }

  /** The scheduler has `t` as QUEUED in some state of the run. */
  ghost predicate QueuedDuring(c: Config, s: State, trace: seq<Action>, t: TaskId)
    requires Legal(c, s, trace)
    decreases |trace|
  {
    HasStatus(s, t, {Queued}) || (trace != [] && QueuedDuring(c, Apply(c, s, trace[0]), trace[1..], t))
  }

  /** When the handler raised or returned None, every duplicate gets another chance: in any run, whatever the other
      processes do, in which the worker survives and calls succeed, it is queued again before the worker waits. */
  lemma {:induction false} EveryDuplicateRequeued(c: Config, s: State, trace: seq<Action>, i: nat, t: TaskId)
    requires Inv(c, s) && Legal(c, s, trace) && c.boefjes
    requires forall k | 0 <= k < |trace| :: Succeeds(trace[k])
    requires Survives(c, s, trace, i)
    requires i < |After(c, s, trace).workers| && After(c, s, trace).workers[i].phase.Waiting?
    requires t in ToRequeue(s.workers[i].phase)
    ensures QueuedDuring(c, s, trace, t)
    decreases |trace|
  {
    if trace == [] {
    } else {
      var a := trace[0];
      var s' := Apply(c, s, a);
      StepInv(c, s, a);
      InvTasksKnown(c, s);
      assert PhaseOk(s, s.workers[i]);
      if Own(a, i) {
        RequeueStep(c, s, a, t);
      } else {
        MainLeaves(c, s, a);
        OthersLeave(c, s, a, i);
      }
      if t in ToRequeue(s'.workers[i].phase) { EveryDuplicateRequeued(c, s', trace[1..], i, t); }
    }
  }

  /* ---------- the local queue ---------- */

  /** Every pop in the run yields at most `k` batches. */
  predicate PopsAtMost(c: Config, a: Action, k: nat) {
    a.Pop? ==> |Batches(c, a.tasks)| <= k
  }

  ghost predicate Bounded(c: Config, s: State, k: nat) {
    |s.queue| + (if s.manager.Putting? then |s.manager.batches| else 0) <= c.poolSize + k
  }

  lemma BoundWorker(c: Config, s: State, i: nat, a: Action)
    requires ByWorker(a) && i == a.worker && WorkerIn(s, i) && WorkerCan(c, s.status, s.workers[i].phase, a)
    ensures WorkerApply(c, s, i, a).queue == s.queue && WorkerApply(c, s, i, a).manager == s.manager
  {
  }

  lemma BoundManager(c: Config, s: State, a: Action, k: nat)
    requires !ByWorker(a) && !ByOthers(a) && ManagerCan(c, s, a) && Bounded(c, s, k) && PopsAtMost(c, a, k)
    requires s.manager.Failing? ==> s.manager.next.Starting? || s.manager.next.Reaping?
    ensures Bounded(c, ManagerApply(c, s, a), k)
  {
  }

  lemma BoundStep(c: Config, s: State, a: Action, k: nat)
    requires Bounded(c, s, k) && Enabled(c, s, a) && PopsAtMost(c, a, k)
    requires s.manager.Failing? ==> s.manager.next.Starting? || s.manager.next.Reaping?
    ensures Bounded(c, Apply(c, s, a), k)
  {
    if ByWorker(a) { BoundWorker(c, s, a.worker, a); } else if !ByOthers(a) { BoundManager(c, s, a, k); }
  }

  /** The local queue never exceeds the pool size by more than what one pop yields, and the pool keeps its size. */
  lemma {:induction false} QueueBound(c: Config, s: State, trace: seq<Action>, k: nat)
    requires Inv(c, s) && Bounded(c, s, k) && Legal(c, s, trace)
    requires forall j | 0 <= j < |trace| :: PopsAtMost(c, trace[j], k)
    ensures |After(c, s, trace).queue| <= c.poolSize + k
    ensures |After(c, s, trace).workers| == c.poolSize
    decreases |trace|
  {
    if trace == [] {
    } else {
      BoundStep(c, s, trace[0], k);
      StepInv(c, s, trace[0]);
      QueueBound(c, Apply(c, s, trace[0]), trace[1..], k);
    }
  }
}
