/** Runs which show that none of the named exceptions of the worker protocol can be dropped. */
module WorkerScenarios {
  import opened WorkerProtocol
  import opened WorkerInvariant
  import opened WorkerProgress
  import opened WorkerRuns
  import opened WorkerStatus
  import opened WorkerTheorems

  const POOL := Config(1, true, true)

  /** A pool of one boefje worker and two queued tasks. */
  const INITIAL :=
    State(map[0 := Queued, 1 := Queued], [], [Worker(7, false, Waiting)], map[], Looping, History({}, {}, {}, {}),
          multiset{})

  function Working(status: map<TaskId, Status>, timed: bool, phase: Phase, handling: map<Pid, TaskId>,
                   history: History): State
  {
    State(status, [], [Worker(7, timed, phase)], handling, Looping, history, multiset{})
  }

  const POPPED := History({0, 1}, {}, {}, {})
  const DISPATCHED := map[0 := Dispatched, 1 := Dispatched]

  /** A run from the start in which every call succeeds leads to `s`. */
  ghost predicate Reaches(trace: seq<Action>, s: State) {
    Leads(POOL, INITIAL, trace, s) && forall k | 0 <= k < |trace| :: Succeeds(trace[k])
  }

  lemma ReachesLegal(trace: seq<Action>, s: State)
    requires Reaches(trace, s)
    ensures Legal(POOL, INITIAL, trace) && After(POOL, INITIAL, trace) == s
  {
    LeadsLegal(POOL, INITIAL, trace, s);
  }

  lemma Manager(trace: seq<Action>, s: State, a: Action, s': State) returns (more: seq<Action>)
    requires Reaches(trace, s) && !ByWorker(a) && !ByOthers(a) && ManagerCan(POOL, s, a) && Succeeds(a)
    requires s' == ManagerApply(POOL, s, a)
    ensures Reaches(more, s') && more == trace + [a]
  {
    more := trace + [a];
    ThenManager(POOL, INITIAL, trace, s, a);
  }

  lemma Process(trace: seq<Action>, s: State, a: Action, s': State) returns (more: seq<Action>)
    requires Reaches(trace, s) && ByWorker(a) && a.worker == 0 && WorkerIn(s, 0) && Succeeds(a)
    requires WorkerCan(POOL, s.status, s.workers[0].phase, a) && s' == WorkerApply(POOL, s, 0, a)
    ensures Reaches(more, s')
  {
    more := trace + [a];
    ThenWorker(POOL, INITIAL, trace, s, 0, a);
  }

  lemma Other(trace: seq<Action>, s: State, a: Action, s': State) returns (more: seq<Action>)
    requires Reaches(trace, s) && ByOthers(a) && OthersCan(s, a) && Succeeds(a) && s' == OthersApply(s, a)
    ensures Reaches(more, s') && more == trace + [a]
  {
    more := trace + [a];
    ThenOther(POOL, INITIAL, trace, s, a);
  }

  /** The first look at the pool finds its worker alive. */
  lemma LookAround() returns (trace: seq<Action>)
    ensures Reaches(trace, INITIAL.(manager := Filling))
  {
    Stays(POOL, INITIAL);
    trace := Manager([], INITIAL, Replace, INITIAL.(manager := Replacing(0)));
    trace := Manager(trace, INITIAL.(manager := Replacing(0)), Examine(Done), INITIAL.(manager := Replacing(1)));
    trace := Manager(trace, INITIAL.(manager := Replacing(1)), Examine(Done), INITIAL.(manager := Filling));
  }

  const PUTTING := INITIAL.(manager := Putting([[0, 1]]), status := DISPATCHED, history := POPPED)

  lemma PopBoth() returns (trace: seq<Action>)
    ensures Reaches(trace, PUTTING)
  {
    trace := LookAround();
    var s := INITIAL.(manager := Filling);
    assert SetAll(s.status, [0, 1], Dispatched) == DISPATCHED && {} + ToSet([0, 1]) == {0, 1};
    trace := Manager(trace, s, Pop([0, 1], Done), PUTTING);
  }

  /** From the start to the moment where the worker has taken a batch of both tasks. */
  lemma TakeBoth() returns (trace: seq<Action>)
    ensures Reaches(trace, Working(DISPATCHED, false, Taken([0, 1]), map[], POPPED))
  {
    trace := PopBoth();
    trace := Manager(trace, PUTTING, Put, PUTTING.(manager := Looping, queue := [[0, 1]]));
    trace := Other(trace, PUTTING.(manager := Looping, queue := [[0, 1]]), Get(0),
                   Working(DISPATCHED, false, Taken([0, 1]), map[], POPPED));
  }

  const HANDLING := Working(DISPATCHED[0 := Running], true, Handling([0, 1]), map[7 := 0], POPPED)

  /** ... and, from there, to the moment where its handler runs. */
  lemma HandleBoth() returns (trace: seq<Action>)
    ensures Reaches(trace, HANDLING)
  {
    trace := TakeBoth();
    var s := Working(DISPATCHED, false, Recorded([0, 1]), map[7 := 0], POPPED);
    trace := Process(trace, Working(DISPATCHED, false, Taken([0, 1]), map[], POPPED), Record(0), s);
    trace := Process(trace, s, PatchRunning(0, Done), HANDLING);
  }

  lemma InitialIsInit()
    ensures Init(POOL, INITIAL)
  {
  }

  /** The window: every call succeeds, the worker dies after taking its batch, and both tasks stay DISPATCHED. */
  lemma WindowLeak() returns (trace: seq<Action>)
    ensures Legal(POOL, INITIAL, trace)
    ensures forall k | 0 <= k < |trace| :: Succeeds(trace[k])
    ensures 0 in After(POOL, INITIAL, trace).history.unrecorded && 1 in After(POOL, INITIAL, trace).history.orphaned
    ensures forall more | Legal(POOL, After(POOL, INITIAL, trace), more) ::
      var s := After(POOL, After(POOL, INITIAL, trace), more);
      HasStatus(s, 0, {Dispatched}) && HasStatus(s, 1, {Dispatched})
  {
    trace := TakeBoth();
    var s := Killed(Working(DISPATCHED, false, Taken([0, 1]), map[], POPPED), 0);
    trace := Process(trace, Working(DISPATCHED, false, Taken([0, 1]), map[], POPPED), Die(0), s);
    assert 1 in ToSet([0, 1][1..]);
    ReachesLegal(trace, s);
    InitialIsInit();
    ReachableInv(POOL, INITIAL, trace);
    forall more | Legal(POOL, s, more)
      ensures HasStatus(After(POOL, s, more), 0, {Dispatched}) && HasStatus(After(POOL, s, more), 1, {Dispatched})
    {
      LeaksArePermanent(POOL, s, more, 0);
      LeaksArePermanent(POOL, s, more, 1);
    }
  }

  const RAISED := HANDLING.(workers := [Worker(7, true, Handled([0, 1], Failed, false, false))])

  /** Without the successful calls: when the `get_task` after the handler fails, the head is lost and stays RUNNING. */
  lemma LostWhileRunning() returns (trace: seq<Action>)
    ensures Legal(POOL, INITIAL, trace) && Lost(After(POOL, INITIAL, trace), 0)
    ensures HasStatus(After(POOL, INITIAL, trace), 0, {Running}) && 0 in After(POOL, INITIAL, trace).history.abandoned
  {
    trace := HandleBoth();
    trace := Process(trace, HANDLING, Handle(0, Raised(false)), RAISED);
    var s := Checking(POOL, RAISED, 0, Unanswered);
    ThenWorker(POOL, INITIAL, trace, RAISED, 0, Check(0, Unanswered));
    trace := trace + [Check(0, Unanswered)];
    LeadsLegal(POOL, INITIAL, trace, s);
    assert s.workers == [Worker(7, true, Waiting)];
  }

  /* ---------- races for a final status ---------- */

  /** What the container of task 0 asks for. */
  const REPORT := Callback(0, Completed)
  const ACCEPTED := HANDLING.(callbacks := multiset{REPORT})

  /** ... and to the moment where, besides, the output endpoint has accepted the container's request. */
  lemma AcceptReport() returns (trace: seq<Action>)
    ensures Reaches(trace, ACCEPTED)
  {
    trace := HandleBoth();
    trace := Other(trace, HANDLING, Receive(0, Completed), ACCEPTED);
  }

  /** The race: the container reports COMPLETED between the worker's `get_task` and its `patch_task`, and the final
      status becomes FAILED after all. */
  lemma CompletedThenFailed() returns (trace: seq<Action>)
    ensures Legal(POOL, INITIAL, trace) && Enabled(POOL, After(POOL, INITIAL, trace), PatchHead(0, Done))
    ensures forall k | 0 <= k < |trace| :: Succeeds(trace[k])
    ensures HasStatus(After(POOL, INITIAL, trace), 0, {Completed})
    ensures HasStatus(Apply(POOL, After(POOL, INITIAL, trace), PatchHead(0, Done)), 0, {Failed})
  {
    trace := AcceptReport();
    var s1 := ACCEPTED.(workers := [Worker(7, true, Handled([0, 1], Failed, false, false))]);
    trace := Process(trace, ACCEPTED, Handle(0, Raised(false)), s1);
    var s2 := s1.(workers := [Worker(7, true, Reporting([0, 1], Failed, false, false))]);
    trace := Process(trace, s1, Check(0, Done), s2);
    var s3 := Concluding(s2, REPORT, true, Done);
    trace := Other(trace, s2, Conclude(REPORT, true, Done), s3);
    ReachesLegal(trace, s3);
    HeadOverwritten(s3);
  }

  lemma HeadOverwritten(s: State)
    requires |s.workers| == 1 && s.workers[0].phase == Reporting([0, 1], Failed, false, false)
    ensures Enabled(POOL, s, PatchHead(0, Done))
    ensures HasStatus(Apply(POOL, s, PatchHead(0, Done)), 0, {Failed})
  {
    assert Apply(POOL, s, PatchHead(0, Done)) == PatchingHead(POOL, s, 0, Done);
  }

  /** The main process' first look at the pool after its only worker has died: it fails the recorded task. */
  lemma FailTheDead(trace: seq<Action>, s: State) returns (more: seq<Action>)
    requires Reaches(trace, s) && s.manager == Looping && s.workers == [Worker(7, true, Dead(Some(0)))]
    requires s.handling == map[7 := 0] && HasStatus(s, 0, {Running})
    ensures Reaches(more,
      s.(manager := Starting(0), workers := [Worker(7, true, Dead(None))], status := s.status[0 := Failed]))
  {
    more := Manager(trace, s, Replace, s.(manager := Replacing(0)));
    more := Manager(more, s.(manager := Replacing(0)), Examine(Done), s.(manager := Failing(0, 0, Starting(0))));
    more := Manager(more, s.(manager := Failing(0, 0, Starting(0))), PatchFailed(Done),
      s.(manager := Starting(0), workers := [Worker(7, true, Dead(None))], status := s.status[0 := Failed]));
  }

  /** The late request: the output endpoint has seen the task RUNNING, the worker dies and its task is failed, and the
      endpoint then makes it COMPLETED. */
  lemma FailedThenCompleted() returns (trace: seq<Action>)
    ensures Legal(POOL, INITIAL, trace) && Enabled(POOL, After(POOL, INITIAL, trace), Conclude(REPORT, true, Done))
    ensures forall k | 0 <= k < |trace| :: Succeeds(trace[k])
    ensures HasStatus(After(POOL, INITIAL, trace), 0, {Failed})
    ensures HasStatus(Apply(POOL, After(POOL, INITIAL, trace), Conclude(REPORT, true, Done)), 0, {Completed})
  {
    trace := AcceptReport();
    var s := Killed(ACCEPTED, 0);
    trace := Process(trace, ACCEPTED, Die(0), s);
    assert s.workers == [Worker(7, true, Dead(Some(0)))];
    trace := FailTheDead(trace, s);
    var s' := s.(manager := Starting(0), workers := [Worker(7, true, Dead(None))], status := s.status[0 := Failed]);
    ReachesLegal(trace, s');
    assert Apply(POOL, s', Conclude(REPORT, true, Done)) == Concluding(s', REPORT, true, Done);
  }

  /** The late breakdown: the container reports COMPLETED, the endpoint has patched it and nothing is pending; then the
      container breaks without stored output, and its handler makes the task FAILED. */
  lemma CompletedThenGivenUp() returns (trace: seq<Action>, s: State)
    ensures Legal(POOL, INITIAL, trace) && After(POOL, INITIAL, trace) == s
    ensures HasStatus(s, 0, {Completed}) && s.callbacks == multiset{} && !CanChange(POOL, s, 0)
    ensures Legal(POOL, s, [FindBroken(0), PatchOwn(0, Done)])
    ensures HasStatus(After(POOL, s, [FindBroken(0), PatchOwn(0, Done)]), 0, {Failed})
    ensures forall k | 0 <= k < |trace| :: Succeeds(trace[k])
  {
    trace := AcceptReport();
    s := Concluding(ACCEPTED, REPORT, true, Done);
    trace := Other(trace, ACCEPTED, Conclude(REPORT, true, Done), s);
    ReachesLegal(trace, s);
    InitialIsInit();
    ReachableInv(POOL, INITIAL, trace);
    NothingPending(s);
    GivesUp(s);
  }

  lemma NothingPending(s: State)
    requires Inv(POOL, s) && HasStatus(s, 0, {Completed})
    requires s.callbacks == multiset{} && s.workers == HANDLING.workers && s.manager == Looping
    ensures !CanChange(POOL, s, 0)
  {
    NextOverwritesIff(POOL, s, 0);
  }

  lemma GivesUp(s: State)
    requires s.workers == HANDLING.workers
    ensures Legal(POOL, s, [FindBroken(0), PatchOwn(0, Done)])
    ensures HasStatus(After(POOL, s, [FindBroken(0), PatchOwn(0, Done)]), 0, {Failed})
  {
    var s1 := GivesUpUnseen(s);
    var s2 := PatchingOwn(s1, 0, Done);
    ThenWorker(POOL, s, [FindBroken(0)], s1, 0, PatchOwn(0, Done));
    assert [FindBroken(0)] + [PatchOwn(0, Done)] == [FindBroken(0), PatchOwn(0, Done)];
    LeadsLegal(POOL, s, [FindBroken(0), PatchOwn(0, Done)], s2);
  }

  lemma GivesUpUnseen(s: State) returns (s': State)
    requires s.workers == HANDLING.workers
    ensures Leads(POOL, s, [FindBroken(0)], s') && s'.workers == [Worker(7, true, Quitting([0, 1], Unseen))]
  {
    s' := WorkerApply(POOL, s, 0, FindBroken(0));
    Stays(POOL, s);
    ThenWorker(POOL, s, [], s, 0, FindBroken(0));
    assert [] + [FindBroken(0)] == [FindBroken(0)];
  }

  /** A duplicate may end COMPLETED although the head, which it copies, ended FAILED: a container that breaks, whose
      handler fails the task itself and returns a value. */
  lemma DuplicateOutdoesHead() returns (trace: seq<Action>)
    ensures Legal(POOL, INITIAL, trace) && forall k | 0 <= k < |trace| :: Succeeds(trace[k])
    ensures After(POOL, INITIAL, trace).status == map[0 := Failed, 1 := Completed]
    ensures After(POOL, INITIAL, trace).workers == [Worker(7, true, Waiting)]
  {
    trace := BreakContainer();
    var status := DISPATCHED[0 := Failed];
    var s1 := Working(status, true, Copying([1], Completed), map[7 := 0], POPPED);
    SettlesBroken();
    trace := Process(trace, BROKEN, Check(0, Done), s1);
    var s2 := Working(status, true, Duplicating([1], Completed, false), map[7 := 0], POPPED);
    trace := Process(trace, s1, Copy(0, Stored), s2);
    var s3 := Working(status[1 := Completed], true, Waiting, map[7 := 0], POPPED);
    trace := Process(trace, s2, PatchDuplicate(0, Done), s3);
    ReachesLegal(trace, s3);
  }

  const BROKEN := Working(DISPATCHED[0 := Failed], true, Handled([0, 1], Completed, true, false), map[7 := 0], POPPED)

  lemma SettlesBroken()
    ensures Checking(POOL, BROKEN, 0, Done)
         == Working(DISPATCHED[0 := Failed], true, Copying([1], Completed), map[7 := 0], POPPED)
  {
    assert POPPED.orphaned + Dropped(POOL, [0, 1]) == POPPED.orphaned;
    assert [0, 1][1..] == [1];
  }

  lemma BreakContainer() returns (trace: seq<Action>)
    ensures Reaches(trace, BROKEN)
  {
    trace := HandleBoth();
    var s1 := HANDLING.(workers := [Worker(7, true, Quitting([0, 1], Unseen))]);
    trace := Process(trace, HANDLING, FindBroken(0), s1);
    var s2 := Working(DISPATCHED[0 := Failed], true, Quitting([0, 1], Patched(false)), map[7 := 0], POPPED);
    trace := Process(trace, s1, PatchOwn(0, Done), s2);
    trace := Process(trace, s2, Handle(0, Returned(true)), BROKEN);
  }

  /* ---------- leaving ---------- */

  /** `exit` without anything in the queue and with the only worker dead. */
  lemma ExitRuns(trace: seq<Action>, s: State) returns (more: seq<Action>)
    requires Reaches(trace, s) && s.manager == Pushing([]) && |s.workers| == 1 && s.workers[0].phase.Dead?
    ensures Reaches(more, s.(manager := Exited([])))
  {
    more := Manager(trace, s, PushBack(Done), s.(manager := Killing(0, [])));
    more := Manager(more, s.(manager := Killing(0, [])), Kill, s.(manager := Killing(1, [])));
    more := NothingToReap(more, s.(manager := Killing(1, [])));
  }

  lemma NothingToReap(trace: seq<Action>, s: State) returns (more: seq<Action>)
    requires Reaches(trace, s) && s.manager == Killing(1, []) && |s.workers| == 1
    ensures Reaches(more, s.(manager := Exited([])))
  {
    more := Manager(trace, s, Kill, s.(manager := Reaping([], 0)));
    more := Manager(more, s.(manager := Reaping([], 0)), Reap(Done), s.(manager := Exited([])));
  }

  /** `exit` cleans up only the workers that it killed itself: the task of one that was already dead stays RUNNING. */
  lemma ExitSkipsTheDead() returns (trace: seq<Action>)
    ensures Legal(POOL, INITIAL, trace) && forall k | 0 <= k < |trace| :: Succeeds(trace[k])
    ensures After(POOL, INITIAL, trace).manager == Exited([])
    ensures HasStatus(After(POOL, INITIAL, trace), 0, {Running}) && RecordedForDead(After(POOL, INITIAL, trace), 0, 0)
  {
    trace := HandleBoth();
    var s := Killed(HANDLING, 0);
    trace := Process(trace, HANDLING, Die(0), s);
    trace := Manager(trace, s, BeginExit, s.(manager := Draining(0, [])));
    trace := Manager(trace, s.(manager := Draining(0, [])), Drain, s.(manager := Pushing([])));
    trace := ExitRuns(trace, s.(manager := Pushing([])));
    ReachesLegal(trace, s.(manager := Exited([])));
  }

  /* ---------- an exit that hangs ---------- */

  const QUEUED := PUTTING.(manager := Looping, queue := [[0, 1]])

  /** `exit` has counted one batch, the worker takes it, and `exit` waits for it for ever. */
  lemma ExitHangs() returns (trace: seq<Action>)
    ensures Legal(POOL, INITIAL, trace) && forall k | 0 <= k < |trace| :: Succeeds(trace[k])
    ensures BeginExit in trace && Hangs(After(POOL, INITIAL, trace))
    ensures forall more | Legal(POOL, After(POOL, INITIAL, trace), more) ::
      After(POOL, After(POOL, INITIAL, trace), more).manager.Draining?
  {
    trace := PopBoth();
    trace := Manager(trace, PUTTING, Put, QUEUED);
    ghost var before := trace;
    trace := Manager(trace, QUEUED, BeginExit, QUEUED.(manager := Draining(1, [])));
    assert trace == before + [BeginExit] && trace[|before|] == BeginExit;
    var s := Working(DISPATCHED, false, Taken([0, 1]), map[], POPPED).(manager := Draining(1, []));
    trace := Other(trace, QUEUED.(manager := Draining(1, [])), Get(0), s);
    ReachesLegal(trace, s);
    forall more | Legal(POOL, s, more) ensures After(POOL, s, more).manager.Draining? {
      ExitNeverEnds(POOL, s, more);
    }
  }
}
