/** Over whole runs: exactly when COMPLETED or FAILED can ever be overwritten. */
module WorkerOverwrites {
  import opened WorkerProtocol
  import opened WorkerInvariant
  import opened WorkerCalls
  import opened WorkerMainSteps
  import opened WorkerRuns
  import opened WorkerStatus

  ghost predicate HandlesHead(s: State, i: nat, t: TaskId) {
    i < |s.workers| && s.workers[i].phase.Handling? && s.workers[i].phase.batch[0] == t
  }

  /** The handler of `t` is a container's and still runs: it may find the container broken and patch `t` to FAILED
      without looking at its status. */
  ghost predicate MayGiveUp(c: Config, s: State, t: TaskId)
    requires t in s.status
  {
    c.boefjes && s.status[t] != Failed && exists i :: HandlesHead(s, i, t)
  }

  ghost predicate AtRisk(c: Config, s: State, t: TaskId)
    requires t in s.status
  {
    Raced(s, t) || MayGiveUp(c, s, t)
  }

  /* ---------- risks do not arise once a task is finished ---------- */

  /** How a worker comes to be handling a batch. */
  lemma HandlesBefore(c: Config, s: State, a: Action, i: nat, t: TaskId)
    requires WorkersOk(s) && Enabled(c, s, a) && HandlesHead(Apply(c, s, a), i, t)
    ensures HandlesHead(s, i, t) || HasStatus(s, t, {Dispatched})
  {
    if ByWorker(a) {
      if a.worker == i { OwnHandles(c, s, i, a, t); } else { OthersWait(c, s, a.worker, a, i); }
    } else if !ByOthers(a) {
      ManagerHandles(c, s, a, i, t);
    }
  }

  lemma OwnHandles(c: Config, s: State, i: nat, a: Action, t: TaskId)
    requires ByWorker(a) && i == a.worker && WorkerIn(s, i) && WorkerCan(c, s.status, s.workers[i].phase, a)
    requires PhaseOk(s, s.workers[i]) && HandlesHead(WorkerApply(c, s, i, a), i, t)
    ensures HasStatus(s, t, {Dispatched})
  {
    PatchRunningStarts(c, s, i, a);
    assert t in s.workers[i].phase.batch;
  }

  /** Only the patch to RUNNING leads a worker to its handler. */
  lemma PatchRunningStarts(c: Config, s: State, i: nat, a: Action)
    requires ByWorker(a) && i == a.worker && WorkerIn(s, i) && WorkerCan(c, s.status, s.workers[i].phase, a)
    requires i < |WorkerApply(c, s, i, a).workers| && WorkerApply(c, s, i, a).workers[i].phase.Handling?
    ensures s.workers[i].phase.Recorded? && WorkerApply(c, s, i, a).workers[i].phase.batch == s.workers[i].phase.batch
  {
  }

  lemma ManagerHandles(c: Config, s: State, a: Action, i: nat, t: TaskId)
    requires !ByWorker(a) && !ByOthers(a) && ManagerCan(c, s, a) && HandlesHead(ManagerApply(c, s, a), i, t)
    ensures HandlesHead(s, i, t)
  {
  }

  lemma GiveUpBefore(c: Config, s: State, a: Action, t: TaskId)
    requires Inv(c, s) && Enabled(c, s, a) && t in s.status && Terminal(s.status[t])
    requires t in Apply(c, s, a).status && Apply(c, s, a).status[t] == s.status[t] && MayGiveUp(c, Apply(c, s, a), t)
    ensures MayGiveUp(c, s, t)
  {
    var i :| HandlesHead(Apply(c, s, a), i, t);
    HandlesBefore(c, s, a, i, t);
  }

  lemma ReportBefore(c: Config, s: State, a: Action, t: TaskId, r: Status)
    requires ManagerOk(s) && Enabled(c, s, a) && t in s.status && Terminal(s.status[t]) && r != s.status[t]
    requires PendingReport(Apply(c, s, a), t, r)
    ensures AtRisk(c, s, t)
  {
    var i :| Reports(Apply(c, s, a), i, t, r);
    ReportsBefore(c, s, a, i, t, r);
    if Reports(s, i, t, r) { StillPending(s, i, t, r); } else { GivenUp(c, s, i, a, t, r); }
  }

  lemma StillPending(s: State, i: nat, t: TaskId, r: Status)
    requires t in s.status && r != s.status[t] && Reports(s, i, t, r)
    ensures Raced(s, t)
  {
    assert PendingReport(s, t, r);
  }

  lemma GivenUp(c: Config, s: State, i: nat, a: Action, t: TaskId, r: Status)
    requires a.FindBroken? && Enabled(c, s, a) && a.worker == i && s.workers[i].phase.batch[0] == t
    requires t in s.status && r != s.status[t] && Reports(Apply(c, s, a), i, t, r)
    ensures MayGiveUp(c, s, t)
  {
    assert HandlesHead(s, i, t) && Apply(c, s, a) == WorkerApply(c, s, i, a);
  }

  lemma FailureBefore(c: Config, s: State, a: Action, t: TaskId)
    requires ManagerOk(s) && Enabled(c, s, a) && t in s.status && Terminal(s.status[t])
    requires t in Apply(c, s, a).status && Apply(c, s, a).status[t] == s.status[t]
    requires PendingFailure(Apply(c, s, a), t)
    ensures PendingFailure(s, t)
  {
    if !s.manager.Failing? { NewFailing(c, s, a); } else if !a.PatchFailed? { StillFailing(c, s, a); }
  }

  lemma CallbackBefore(c: Config, s: State, a: Action, t: TaskId, callback: Callback)
    requires Enabled(c, s, a) && t in s.status && Terminal(s.status[t])
    requires t in Apply(c, s, a).status && Apply(c, s, a).status[t] == s.status[t]
    requires PendingCallback(Apply(c, s, a), t, callback)
    ensures PendingCallback(s, t, callback)
  {
    CallbacksGrow(c, s, a);
  }

  /** A finished task that is at risk after an action was at risk before it, unless the action overwrote its status. */
  lemma RiskBefore(c: Config, s: State, a: Action, t: TaskId)
    requires Inv(c, s) && Enabled(c, s, a) && t in s.status && Terminal(s.status[t])
    requires t in Apply(c, s, a).status && Apply(c, s, a).status[t] == s.status[t] && AtRisk(c, Apply(c, s, a), t)
    ensures AtRisk(c, s, t)
  {
    var s' := Apply(c, s, a);
    if MayGiveUp(c, s', t) {
      GiveUpBefore(c, s, a, t);
    } else if r: Status :| r != s'.status[t] && PendingReport(s', t, r) {
      ReportBefore(c, s, a, t, r);
    } else if PendingFailure(s', t) && s'.status[t] != Failed {
      FailureBefore(c, s, a, t);
    } else {
      var callback :| PendingCallback(s', t, callback);
      CallbackBefore(c, s, a, t, callback);
    }
  }

  lemma SafeStep(c: Config, s: State, a: Action, t: TaskId)
    requires Inv(c, s) && Enabled(c, s, a) && t in s.status && Terminal(s.status[t]) && !AtRisk(c, s, t)
    ensures t in Apply(c, s, a).status && Apply(c, s, a).status[t] == s.status[t] && !AtRisk(c, Apply(c, s, a), t)
  {
    OnlyTouched(c, s, a);
    if Apply(c, s, a).status[t] != s.status[t] {
      ChangedMeansRaced(c, s, a, t);
    } else if AtRisk(c, Apply(c, s, a), t) {
      RiskBefore(c, s, a, t);
    }
  }

  lemma {:induction false} SafeStays(c: Config, s: State, trace: seq<Action>, t: TaskId)
    requires Inv(c, s) && Legal(c, s, trace) && t in s.status && Terminal(s.status[t]) && !AtRisk(c, s, t)
    ensures t in After(c, s, trace).status && After(c, s, trace).status[t] == s.status[t]
    decreases |trace|
  {
    if trace == [] {
    } else {
      SafeStep(c, s, trace[0], t);
      StepInv(c, s, trace[0]);
      SafeStays(c, Apply(c, s, trace[0]), trace[1..], t);
    }
  }

  /* ---------- every risk is a run ---------- */

  lemma RiskyRun(c: Config, s: State, t: TaskId) returns (trace: seq<Action>)
    requires ManagerOk(s) && t in s.status && AtRisk(c, s, t)
    ensures Overwrites(c, s, trace, t)
  {
    if Raced(s, t) {
      var a := RacedCanChange(c, s, t);
      LegalOne(c, s, a);
      trace := [a];
    } else {
      trace := GiveUpRun(c, s, t);
    }
  }

  lemma GiveUpRun(c: Config, s: State, t: TaskId) returns (trace: seq<Action>)
    requires t in s.status && MayGiveUp(c, s, t)
    ensures Overwrites(c, s, trace, t)
  {
    var i: nat :| HandlesHead(s, i, t);
    var s1 := MoveTo(s, i, Quitting(s.workers[i].phase.batch, Unseen));
    var s2 := PatchingOwn(s1, i, Done);
    Stays(c, s);
    ThenWorker(c, s, [], s, i, FindBroken(i));
    assert WorkerApply(c, s, i, FindBroken(i)) == s1;
    trace := [] + [FindBroken(i)];
    ThenWorker(c, s, trace, s1, i, PatchOwn(i, Done));
    assert WorkerApply(c, s1, i, PatchOwn(i, Done)) == s2 && s2.status[t] == Failed;
    trace := trace + [PatchOwn(i, Done)];
    LeadsLegal(c, s, trace, s2);
  }

  /** The run is possible and ends with another status of `t`. */
  ghost predicate Overwrites(c: Config, s: State, trace: seq<Action>, t: TaskId)
    requires t in s.status
  {
    Legal(c, s, trace) && t in After(c, s, trace).status && After(c, s, trace).status[t] != s.status[t]
  }

  /** Exactly when some continuation, however long, overwrites a terminal status: a patch to another status is pending,
      or a container handler still runs for a task that is not FAILED. */
  lemma OverwrittenIffAtRisk(c: Config, s: State, t: TaskId)
    requires Inv(c, s) && t in s.status && Terminal(s.status[t])
    ensures (exists trace :: Overwrites(c, s, trace, t)) <==> AtRisk(c, s, t)
  {
    if AtRisk(c, s, t) {
      var trace := RiskyRun(c, s, t);
    } else {
      forall trace | Legal(c, s, trace) ensures !Overwrites(c, s, trace, t) { SafeStays(c, s, trace, t); }
    }
  }

  ghost predicate Keeps(c: Config, s: State, trace: seq<Action>, t: TaskId)
    requires Legal(c, s, trace) && t in s.status
  {
    t in After(c, s, trace).status && After(c, s, trace).status[t] == s.status[t]
  }

  lemma NotForEver(c: Config, s: State, t: TaskId)
    requires ManagerOk(s) && t in s.status && AtRisk(c, s, t)
    ensures exists more :: Legal(c, s, more) && !Keeps(c, s, more, t)
  {
    var more := RiskyRun(c, s, t);
    assert Legal(c, s, more) && !Keeps(c, s, more, t);
  }

  lemma ForEver(c: Config, s: State, t: TaskId)
    requires Inv(c, s) && t in s.status && Terminal(s.status[t]) && !AtRisk(c, s, t)
    ensures forall more | Legal(c, s, more) :: Keeps(c, s, more, t)
  {
    forall more | Legal(c, s, more) ensures Keeps(c, s, more, t) { SafeStays(c, s, more, t); }
  }

  /** In every run from the start: COMPLETED and FAILED are final from then on, whatever follows, exactly if the task is
      not at risk. */
  lemma FinalForEverIff(c: Config, s0: State, trace: seq<Action>, t: TaskId)
    requires Init(c, s0) && Legal(c, s0, trace) && HasStatus(After(c, s0, trace), t, {Completed, Failed})
    ensures var s := After(c, s0, trace);
      (forall more | Legal(c, s, more) :: Keeps(c, s, more, t)) <==> !AtRisk(c, s, t)
  {
    var s := After(c, s0, trace);
    InitInv(c, s0);
    RunInv(c, s0, trace);
    if AtRisk(c, s, t) { NotForEver(c, s, t); } else { ForEver(c, s, t); }
  }
}
