/** What holds in every run of the worker protocol: where each task is, who may touch it, and what is lost. */
module WorkerTheorems {
  import opened WorkerProtocol
  import opened WorkerInvariant
  import opened WorkerMainSteps

  lemma ReachableInv(c: Config, s: State, trace: seq<Action>)
    requires Init(c, s) && Legal(c, s, trace)
    ensures Inv(c, After(c, s, trace))
  {
    InitInv(c, s);
    RunInv(c, s, trace);
  }

  /* ---------- where every popped task is ---------- */

  ghost predicate InQueue(s: State, t: TaskId) {
    exists k | 0 <= k < |s.queue| :: t in s.queue[k]
  }

  ghost predicate InLiveHand(s: State, t: TaskId) {
    exists i | 0 <= i < |s.workers| :: s.workers[i].Alive() && t in Hand(s.workers[i])
  }

  /** Recorded for a dead worker that has not been cleaned up. */
  ghost predicate RecordedForDead(s: State, i: nat, t: TaskId) {
    && i < |s.workers| && s.workers[i].phase == Dead(Some(t))
    && s.workers[i].pid in s.handling && s.handling[s.workers[i].pid] == t
  }

  /** The named exceptions. */
  ghost predicate Excused(s: State, t: TaskId) {
    t in s.history.unrecorded || t in s.history.orphaned || t in s.history.abandoned
  }

  lemma {:induction false} FlattenMember(batches: seq<Batch>, t: TaskId)
    requires t in Flatten(batches)
    ensures exists k | 0 <= k < |batches| :: t in batches[k]
  {
    if t !in batches[0] {
      FlattenMember(batches[1..], t);
      var k :| 0 <= k < |batches[1..]| && t in batches[1..][k];
      assert batches[k + 1] == batches[1..][k];
    }
  }

  lemma HandWhere(s: State, t: TaskId)
    requires WorkersOk(s) && t in Hands(s.workers)
    ensures InLiveHand(s, t) || exists i | 0 <= i < |s.workers| :: RecordedForDead(s, i, t)
  {
    HandsMember(s.workers, t);
    var i :| 0 <= i < |s.workers| && t in Hand(s.workers[i]);
    if !s.workers[i].Alive() {
      assert RecordOk(s, s.workers[i]);
      assert RecordedForDead(s, i, t);
    }
  }

  lemma HeldWhere(s: State, t: TaskId)
    requires WorkersOk(s) && t in Held(s)
    ensures || InQueue(s, t) || InLiveHand(s, t) || t in ManagerHand(s.manager)
            || exists i | 0 <= i < |s.workers| :: RecordedForDead(s, i, t)
  {
    if t in Hands(s.workers) {
      HandWhere(s, t);
    } else if t in Flatten(s.queue) {
      FlattenMember(s.queue, t);
    } else {
      assert t in multiset(ManagerHand(s.manager));
    }
  }

  /** In the queue, with a process, or recorded for a dead worker. */
  ghost predicate Located(s: State, t: TaskId) {
    || InQueue(s, t) || InLiveHand(s, t) || t in ManagerHand(s.manager)
    || exists i | 0 <= i < |s.workers| :: RecordedForDead(s, i, t)
  }

  /** Nowhere, and neither finished nor given back. */
  ghost predicate Lost(s: State, t: TaskId) {
    !Located(s, t) && !HasStatus(s, t, {Completed, Failed, Queued})
  }

  /** Leak characterisation: no popped task is ever anywhere else, whatever fails and whoever dies. */
  lemma EveryTaskAccounted(c: Config, s0: State, trace: seq<Action>, t: TaskId)
    requires Init(c, s0) && Legal(c, s0, trace)
    requires t in After(c, s0, trace).history.popped
    ensures var s := After(c, s0, trace); Lost(s, t) ==> Excused(s, t)
  {
    ReachableInv(c, s0, trace);
    var s := After(c, s0, trace);
    if t in Held(s) { HeldWhere(s, t); } else { assert Settled(s, t); }
  }

  lemma LocatedHeld(s: State, t: TaskId)
    requires Located(s, t)
    ensures t in Held(s)
  {
    if InQueue(s, t) {
      var k :| 0 <= k < |s.queue| && t in s.queue[k];
      BatchInFlatten(s.queue, k, t);
      assert t in multiset(Flatten(s.queue));
    } else if t in ManagerHand(s.manager) {
      assert t in multiset(ManagerHand(s.manager));
    } else if InLiveHand(s, t) {
      var i :| 0 <= i < |s.workers| && s.workers[i].Alive() && t in Hand(s.workers[i]);
      InHeld(s, i, t);
    } else {
      var i :| 0 <= i < |s.workers| && RecordedForDead(s, i, t);
      assert t in Hand(s.workers[i]);
      InHeld(s, i, t);
    }
  }

  lemma {:induction false} BatchInFlatten(batches: seq<Batch>, k: nat, t: TaskId)
    requires k < |batches| && t in batches[k]
    ensures t in Flatten(batches)
  {
    if k == 0 {
    } else {
      assert batches[1..][k - 1] == batches[k];
      BatchInFlatten(batches[1..], k - 1, t);
    }
  }

  /** The unrecorded and the orphaned tasks are lost in every reachable state. */
  lemma LeakedAreLost(c: Config, s: State, t: TaskId)
    requires Inv(c, s) && t in s.history.unrecorded + s.history.orphaned
    ensures Lost(s, t)
  {
    assert Leaked(s, t);
    if Located(s, t) { LocatedHeld(s, t); }
  }

  /** After `exit` nothing is in flight: the only leftovers are the named exceptions and the tasks of workers that
      `exit` found dead. */
  lemma NothingInFlightAfterExit(c: Config, s0: State, trace: seq<Action>, t: TaskId)
    requires Init(c, s0) && Legal(c, s0, trace) && After(c, s0, trace).manager.Exited?
    requires t in After(c, s0, trace).history.popped
    ensures var s := After(c, s0, trace);
      || HasStatus(s, t, {Completed, Failed}) || HasStatus(s, t, {Queued})
      || Excused(s, t)
      || exists i | 0 <= i < |s.workers| :: i !in s.manager.killed && RecordedForDead(s, i, t)
  {
    ReachableInv(c, s0, trace);
    EveryTaskAccounted(c, s0, trace, t);
    var s := After(c, s0, trace);
    var killed := s.manager.killed;
    assert forall i | 0 <= i < |s.workers| && RecordedForDead(s, i, t) :: i !in killed;
  }

  /* ---------- without failing calls ---------- */

  lemma HandlingKnown(c: Config, s: State, p: Pid)
    requires Inv(c, s) && p in s.handling
    ensures s.handling[p] in s.status
  {
    if Current(s, p) {
      var i :| 0 <= i < |s.workers| && s.workers[i].pid == p && RecordedHead(s.workers[i]) == Some(s.handling[p]);
      RecordedInHand(s.workers[i]);
      HandStatus(s, s.workers[i], s.handling[p]);
    } else {
      assert Spent(s, s.handling[p]);
    }
  }

  /** The scheduler knows every task that a call can be about. */
  ghost predicate TasksKnown(s: State) {
    && (forall p | p in s.handling :: s.handling[p] in s.status)
    && forall i | 0 <= i < |s.workers| && s.workers[i].phase.Handled? :: s.workers[i].phase.batch[0] in s.status
  }

  lemma InvTasksKnown(c: Config, s: State)
    requires Inv(c, s)
    ensures TasksKnown(s)
  {
    forall p | p in s.handling ensures s.handling[p] in s.status { HandlingKnown(c, s, p); }
    forall i | 0 <= i < |s.workers| && s.workers[i].phase.Handled? ensures s.workers[i].phase.batch[0] in s.status {
      assert PhaseOk(s, s.workers[i]);
    }
  }

  lemma WorkerAbandonsNothing(c: Config, s: State, i: nat, a: Action)
    requires ByWorker(a) && i == a.worker && WorkerIn(s, i) && WorkerCan(c, s.status, s.workers[i].phase, a)
    requires TasksKnown(s) && Succeeds(a)
    ensures WorkerApply(c, s, i, a).history.abandoned == s.history.abandoned
  {
  }

  lemma ManagerAbandonsNothing(c: Config, s: State, a: Action)
    requires !ByWorker(a) && !ByOthers(a) && ManagerCan(c, s, a) && TasksKnown(s) && Succeeds(a)
    ensures ManagerApply(c, s, a).history.abandoned == s.history.abandoned
  {
  }

  lemma SuccessAbandonsNothing(c: Config, s: State, a: Action)
    requires TasksKnown(s) && Enabled(c, s, a) && Succeeds(a)
    ensures Apply(c, s, a).history.abandoned == s.history.abandoned
  {
    if ByWorker(a) { WorkerAbandonsNothing(c, s, a.worker, a); }
    else if !ByOthers(a) { ManagerAbandonsNothing(c, s, a); }
  }

  ghost predicate Ones(batches: seq<Batch>) {
    forall k | 0 <= k < |batches| :: |batches[k]| == 1
  }

  /** Without deduplication no batch has duplicates, anywhere. */
  ghost predicate AllOnes(s: State) {
    && Ones(s.queue) && (s.manager.Putting? ==> Ones(s.manager.batches))
    && (s.manager.Failing? ==> s.manager.next.Starting? || s.manager.next.Reaping?)
    && forall i | 0 <= i < |s.workers| ::
         !s.workers[i].phase.Copying? && !s.workers[i].phase.Duplicating? && |Hand(s.workers[i])| <= 1
  }

  lemma {:induction false} SingletonsOnes(ts: seq<TaskId>)
    ensures Ones(Singletons(ts))
  {
    if ts == [] {
    } else {
      SingletonsOnes(ts[1..]);
      var rest := Singletons(ts[1..]);
      forall k | 0 <= k < |Singletons(ts)| ensures |Singletons(ts)[k]| == 1 {
        if k > 0 { assert Singletons(ts)[k] == rest[k - 1]; }
      }
    }
  }

  /** No batch has duplicates afterwards either, and none is lost. */
  ghost predicate KeepsOnes(s: State, s': State) {
    AllOnes(s') && s'.history.orphaned == s.history.orphaned
  }

  lemma OnesKilled(s: State, i: nat)
    requires AllOnes(s) && i < |s.workers| && s.workers[i].Alive()
    ensures KeepsOnes(s, Killed(s, i))
  {
    var hand := Hand(s.workers[i]);
    assert |hand| <= 1;
    if hand != [] { assert hand[1..] == []; }
    assert ToSet([]) == {};
  }

  lemma OnesSettle(c: Config, s: State, i: nat, p: Phase)
    requires AllOnes(s) && i < |s.workers| && (p.Handled? || p.Reporting?) && |p.batch| == 1
    ensures KeepsOnes(s, Settle(c, s, i, p))
  {
    assert p.batch[1..] == [] && ToSet(p.batch[1..]) == {};
    assert AfterHead(c, p.batch, p.result, p.output, p.fatal) == Waiting;
  }

  lemma OnesMove(s: State, s': State, i: nat)
    requires AllOnes(s) && i < |s.workers| == |s'.workers| && s'.workers == s.workers[i := s'.workers[i]]
    requires s'.queue == s.queue && s'.manager == s.manager && s'.history.orphaned == s.history.orphaned
    requires !s'.workers[i].phase.Copying? && !s'.workers[i].phase.Duplicating? && |Hand(s'.workers[i])| <= 1
    ensures KeepsOnes(s, s')
  {
  }

  lemma OnesHead(c: Config, s: State, i: nat, a: Action)
    requires AllOnes(s) && (a.Check? || a.PatchHead?) && i == a.worker
    requires WorkerIn(s, i) && WorkerCan(c, s.status, s.workers[i].phase, a)
    ensures KeepsOnes(s, WorkerApply(c, s, i, a))
  {
    var p := s.workers[i].phase;
    assert |Hand(s.workers[i])| <= 1;
    if a.Check? {
      OnesSettle(c, s, i, p);
    } else {
      OnesSettle(c, s.(status := Patch(s.status, p.batch[0], p.result, a.call)), i, p);
    }
  }

  lemma OnesRunning(s: State, i: nat, call: Call)
    requires AllOnes(s) && WorkerIn(s, i) && s.workers[i].phase.Recorded?
    ensures KeepsOnes(s, PatchingRunning(s, i, call))
  {
    var b := s.workers[i].phase.batch;
    assert |Hand(s.workers[i])| <= 1;
    if call != Done && !s.workers[i].timed { OnesKilled(s.(status := Patch(s.status, b[0], Running, call)), i); }
  }

  lemma OnesWorker(c: Config, s: State, i: nat, a: Action)
    requires ByWorker(a) && i == a.worker && WorkerIn(s, i) && WorkerCan(c, s.status, s.workers[i].phase, a)
    requires AllOnes(s)
    ensures KeepsOnes(s, WorkerApply(c, s, i, a))
  {
    assert |Hand(s.workers[i])| <= 1;
    if a.Die? { OnesKilled(s, i); }
    else if a.PatchRunning? { OnesRunning(s, i, a.call); }
    else if a.Check? || a.PatchHead? { OnesHead(c, s, i, a); }
    else { OnesMove(s, WorkerApply(c, s, i, a), i); }
  }

  lemma OnesManager(c: Config, s: State, a: Action)
    requires AllOnes(s) && !c.deduplicate && !ByWorker(a) && !ByOthers(a) && ManagerCan(c, s, a)
    ensures KeepsOnes(s, ManagerApply(c, s, a))
  {
    match a {
      case Pop(ts, call) => SingletonsOnes(ts);
      case Kill => OnesKill(s);
      case Examine(call) => OnesExamine(s, call);
      case Reap(call) => OnesReap(s, call);
      case PatchFailed(call) => OnesFailing(s, call);
      case _ =>
    }
  }

  lemma OnesKill(s: State)
    requires AllOnes(s) && s.manager.Killing?
    ensures KeepsOnes(s, KillingNext(s))
  {
    var i := s.manager.index;
    if i < |s.workers| && s.workers[i].Alive() { OnesKilled(s, i); }
  }

  lemma OnesCleanUp(s: State, i: nat, call: Call, next: Manager)
    requires AllOnes(s) && i < |s.workers| && s.workers[i].phase.Dead? && (next.Starting? || next.Reaping?)
    ensures KeepsOnes(s, CleanUp(s, i, call, next))
  {
  }

  lemma OnesExamine(s: State, call: Call)
    requires AllOnes(s) && s.manager.Replacing?
    ensures KeepsOnes(s, Examining(s, call))
  {
    var i := s.manager.index;
    if i < |s.workers| && !s.workers[i].Alive() { OnesCleanUp(s, i, call, Starting(i)); }
  }

  lemma OnesReap(s: State, call: Call)
    requires AllOnes(s) && CanReap(s)
    ensures KeepsOnes(s, ReapingNext(s, call))
  {
    var m := s.manager;
    if m.index < |m.killed| { OnesCleanUp(s, m.killed[m.index], call, Reaping(m.killed, m.index + 1)); }
  }

  lemma OnesFailing(s: State, call: Call)
    requires AllOnes(s) && s.manager.Failing? && s.manager.index < |s.workers|
    ensures KeepsOnes(s, FailingTask(s, call))
  {
  }

  lemma OnesStep(c: Config, s: State, a: Action)
    requires AllOnes(s) && !c.deduplicate && Enabled(c, s, a)
    ensures KeepsOnes(s, Apply(c, s, a))
  {
    if ByWorker(a) { OnesWorker(c, s, a.worker, a); }
    else if !ByOthers(a) { OnesManager(c, s, a); }
    else if a.Get? { assert |s.queue[0]| == 1; }
  }

  lemma {:induction false} SuccessfulRun(c: Config, s: State, trace: seq<Action>)
    requires Inv(c, s) && Legal(c, s, trace) && forall k | 0 <= k < |trace| :: Succeeds(trace[k])
    ensures After(c, s, trace).history.abandoned == s.history.abandoned
    decreases |trace|
  {
    if trace == [] {
    } else {
      InvTasksKnown(c, s);
      SuccessAbandonsNothing(c, s, trace[0]);
      StepInv(c, s, trace[0]);
      SuccessfulRun(c, Apply(c, s, trace[0]), trace[1..]);
    }
  }

  /** With every call succeeding, exactly these popped tasks are lost: one whose worker died between taking it and
      recording it, and a duplicate whose worker died or whose batch was a normalizer's. */
  lemma LostIff(c: Config, s0: State, trace: seq<Action>, t: TaskId)
    requires Init(c, s0) && Legal(c, s0, trace) && forall k | 0 <= k < |trace| :: Succeeds(trace[k])
    requires t in After(c, s0, trace).history.popped
    ensures var s := After(c, s0, trace); Lost(s, t) <==> t in s.history.unrecorded + s.history.orphaned
  {
    InitInv(c, s0);
    SuccessfulRun(c, s0, trace);
    EveryTaskAccounted(c, s0, trace, t);
    ReachableInv(c, s0, trace);
    var s := After(c, s0, trace);
    if t in s.history.unrecorded + s.history.orphaned { LeakedAreLost(c, s, t); }
  }

  lemma {:induction false} OnesRun(c: Config, s: State, trace: seq<Action>)
    requires AllOnes(s) && !c.deduplicate && Legal(c, s, trace)
    ensures After(c, s, trace).history.orphaned == s.history.orphaned
    decreases |trace|
  {
    if trace == [] {
    } else {
      OnesStep(c, s, trace[0]);
      OnesRun(c, Apply(c, s, trace[0]), trace[1..]);
    }
  }

  /** With deduplication off as well, exactly the tasks of workers that died in that window are lost. */
  lemma OnlyTheWindowLeaks(c: Config, s0: State, trace: seq<Action>, t: TaskId)
    requires Init(c, s0) && Legal(c, s0, trace) && !c.deduplicate
    requires forall k | 0 <= k < |trace| :: Succeeds(trace[k])
    requires t in After(c, s0, trace).history.popped
    ensures var s := After(c, s0, trace); Lost(s, t) <==> t in s.history.unrecorded
  {
    LostIff(c, s0, trace, t);
    OnesRun(c, s0, trace);
  }

  /* ---------- leaks are permanent ---------- */

  lemma LeakStep(c: Config, s: State, a: Action, t: TaskId)
    requires Inv(c, s) && Enabled(c, s, a) && Leaked(s, t) && t in s.history.unrecorded + s.history.orphaned
    ensures Leaked(Apply(c, s, a), t) && t in Apply(c, s, a).history.unrecorded + Apply(c, s, a).history.orphaned
  {
    StepInv(c, s, a);
    LostGrows(c, s, a);
  }

  ghost predicate LosesMore(s: State, s': State) {
    s.history.unrecorded <= s'.history.unrecorded && s.history.orphaned <= s'.history.orphaned
  }

  lemma WorkerLoses(c: Config, s: State, i: nat, a: Action)
    requires ByWorker(a) && i == a.worker && WorkerIn(s, i) && WorkerCan(c, s.status, s.workers[i].phase, a)
    ensures LosesMore(s, WorkerApply(c, s, i, a))
  {
  }

  lemma ManagerLoses(c: Config, s: State, a: Action)
    requires !ByWorker(a) && !ByOthers(a) && ManagerCan(c, s, a)
    ensures LosesMore(s, ManagerApply(c, s, a))
  {
  }

  lemma LostGrows(c: Config, s: State, a: Action)
    requires Enabled(c, s, a)
    ensures LosesMore(s, Apply(c, s, a))
  {
    if ByWorker(a) { WorkerLoses(c, s, a.worker, a); } else if !ByOthers(a) { ManagerLoses(c, s, a); }
  }

  /** A lost task stays DISPATCHED in the scheduler for ever, and no process ever touches it again. */
  lemma {:induction false} LeaksArePermanent(c: Config, s: State, trace: seq<Action>, t: TaskId)
    requires Inv(c, s) && Legal(c, s, trace) && t in s.history.unrecorded + s.history.orphaned
    ensures HasStatus(After(c, s, trace), t, {Dispatched})
    ensures t !in Held(After(c, s, trace)) && t !in After(c, s, trace).handling.Values
    decreases |trace|
  {
    if trace == [] {
      assert Leaked(s, t);
    } else {
      LeakStep(c, s, trace[0], t);
      StepInv(c, s, trace[0]);
      LeaksArePermanent(c, Apply(c, s, trace[0]), trace[1..], t);
    }
  }

  /* ---------- exclusive ownership ---------- */

  /** In every reachable state a task is in at most one place: one hand, or one batch, or the main process. */
  lemma ExclusiveOwnership(c: Config, s0: State, trace: seq<Action>, t: TaskId)
    requires Init(c, s0) && Legal(c, s0, trace)
    ensures var s := After(c, s0, trace);
      && Held(s)[t] <= 1
      && (forall i | 0 <= i < |s.workers| && t in Hand(s.workers[i]) ::
            && t !in Flatten(s.queue) && t !in ManagerHand(s.manager)
            && forall j | 0 <= j < |s.workers| && j != i :: t !in Hand(s.workers[j]))
  {
    ReachableInv(c, s0, trace);
    var s := After(c, s0, trace);
    forall i | 0 <= i < |s.workers| && t in Hand(s.workers[i])
      ensures && t !in Flatten(s.queue) && t !in ManagerHand(s.manager)
              && forall j | 0 <= j < |s.workers| && j != i :: t !in Hand(s.workers[j])
    {
      Elsewhere(s, i, t);
    }
  }
}
