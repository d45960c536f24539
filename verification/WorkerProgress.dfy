/** When the processes of the worker protocol can go on: always, but for an `exit` that a worker takes a batch from. */
module WorkerProgress {
  import opened WorkerProtocol
  import opened WorkerInvariant

  /* ---------- what each process can do next ---------- */

  /** Some action of the main process is possible. */
  ghost predicate ManagerMoves(c: Config, s: State) {
    exists a: Action :: !ByWorker(a) && !ByOthers(a) && ManagerCan(c, s, a)
  }

  /** Waiting for a batch that is not there. */
  predicate Hangs(s: State) {
    s.manager.Draining? && s.queue == [] && s.manager.left > 0
  }

  predicate Fresh(workers: seq<Worker>, pid: Pid) {
    forall j | 0 <= j < |workers| :: workers[j].pid != pid
  }

  lemma {:induction false} FreshPid(workers: seq<Worker>) returns (bound: Pid)
    ensures forall j | 0 <= j < |workers| :: workers[j].pid < bound
    ensures Fresh(workers, bound)
  {
    if workers == [] {
      bound := 0;
    } else {
      var rest := FreshPid(workers[1..]);
      bound := if workers[0].pid < rest then rest else workers[0].pid + 1;
      assert forall j | 1 <= j < |workers| :: workers[j] == workers[1..][j - 1];
    }
  }

  /** An action with which the main process can go on. */
  lemma NextAction(c: Config, s: State) returns (a: Action)
    requires Inv(c, s) && !s.manager.Exited? && !Hangs(s)
    ensures !ByWorker(a) && !ByOthers(a) && ManagerCan(c, s, a)
  {
    var pid := FreshPid(s.workers);
    a := match s.manager
      case Looping => Replace
      case Replacing(_) => Examine(Done)
      case Starting(_) => Start(pid)
      case Failing(_, _, _) => PatchFailed(Done)
      case Filling => if |s.queue| > c.poolSize then Rest else Pop([], Done)
      case Putting(_) => Put
      case Draining(_, _) => Drain
      case Pushing(_) => PushBack(Done)
      case Killing(_, _) => Kill
      case Reaping(_, _) => Reap(Done)
      case Exited(_) => Rest;
  }

  /** In every reachable state the main process can go on, unless it has exited or `exit` waits for a batch that a
      worker has taken. */
  lemma ManagerMovesIff(c: Config, s: State)
    requires Inv(c, s)
    ensures ManagerMoves(c, s) <==> !s.manager.Exited? && !Hangs(s)
  {
    if !s.manager.Exited? && !Hangs(s) { var a := NextAction(c, s); }
  }

  /** Between two iterations it asks for tasks exactly if the queue has at most one batch for each worker. */
  lemma AsksIff(c: Config, s: State)
    requires s.manager.Filling?
    ensures ManagerCan(c, s, Rest) <==> |s.queue| > c.poolSize
    ensures ManagerCan(c, s, Pop([], Done)) <==> |s.queue| <= c.poolSize
  {
  }

  /** Some action of worker `i` itself is possible. */
  ghost predicate WorkerMoves(c: Config, s: State, i: nat)
    requires WorkerIn(s, i)
  {
    || OthersCan(s, Get(i))
    || exists a: Action :: ByWorker(a) && !a.Die? && a.worker == i && WorkerCan(c, s.status, s.workers[i].phase, a)
  }

  lemma NextOfWorker(c: Config, s: State, i: nat) returns (a: Action)
    requires WorkerIn(s, i) && PhaseOk(s, s.workers[i]) && s.workers[i].Alive() && !s.workers[i].phase.Waiting?
    ensures ByWorker(a) && !a.Die? && a.worker == i && WorkerCan(c, s.status, s.workers[i].phase, a)
  {
    a := match s.workers[i].phase
      case Taken(_) => Record(i)
      case Recorded(_) => PatchRunning(i, Done)
      case Handling(_) => Handle(i, Returned(true))
      case Quitting(_, Patched(raises)) => Handle(i, if raises then Raised(false) else Returned(true))
      case Quitting(_, _) => PatchOwn(i, Done)
      case Handled(_, _, _, _) => Check(i, Done)
      case Reporting(_, _, _, _) => PatchHead(i, Done)
      case Copying(_, _) => Copy(i, Stored)
      case _ => PatchDuplicate(i, Done);
  }

  /** In every reachable state a living worker can go on, unless it waits and the queue is empty. */
  lemma WorkerMovesIff(c: Config, s: State, i: nat)
    requires Inv(c, s) && WorkerIn(s, i) && s.workers[i].Alive()
    ensures WorkerMoves(c, s, i) <==> !(s.workers[i].phase.Waiting? && s.queue == [])
  {
    if !s.workers[i].phase.Waiting? {
      assert PhaseOk(s, s.workers[i]);
      var a := NextOfWorker(c, s, i);
    }
  }

  /* ---------- an exit that never ends ---------- */

  /** How many batches fewer there are than `exit` still wants to take. */
  function Missing(s: State): int
    requires s.manager.Draining?
  {
    s.manager.left - |s.queue|
  }

  /** While `exit` empties the queue, exactly a worker that takes a batch makes one go missing; with one missing `exit`
      does not get past this. */
  lemma MissingGrowsIff(c: Config, s: State, a: Action)
    requires s.manager.Draining? && Enabled(c, s, a)
    ensures Missing(s) > 0 ==> Apply(c, s, a).manager.Draining?
    ensures Apply(c, s, a).manager.Draining? ==> Missing(Apply(c, s, a)) == Missing(s) + if a.Get? then 1 else 0
  {
    if ByWorker(a) { WorkerLeavesDraining(c, s, a.worker, a); } else if !ByOthers(a) { assert a.Drain?; }
  }

  lemma WorkerLeavesDraining(c: Config, s: State, i: nat, a: Action)
    requires ByWorker(a) && i == a.worker && WorkerIn(s, i) && WorkerCan(c, s.status, s.workers[i].phase, a)
    ensures WorkerApply(c, s, i, a).manager == s.manager && WorkerApply(c, s, i, a).queue == s.queue
  {
  }

  /** Once a batch is missing, `exit` never ends, whatever happens. */
  lemma {:induction false} ExitNeverEnds(c: Config, s: State, trace: seq<Action>)
    requires s.manager.Draining? && Missing(s) > 0 && Legal(c, s, trace)
    ensures After(c, s, trace).manager.Draining?
    decreases |trace|
  {
    if trace == [] {
    } else {
      MissingGrowsIff(c, s, trace[0]);
      ExitNeverEnds(c, Apply(c, s, trace[0]), trace[1..]);
    }
  }

  /** The main process empties the queue in one go. */
  function Drains(n: nat): seq<Action> {
    if n == 0 then [Drain] else [Drain] + Drains(n - 1)
  }

  /** As long as none is missing, `exit` can still end: taking the rest of the queue leads on. */
  lemma {:induction false} ExitCanGoOn(c: Config, s: State)
    requires s.manager.Draining? && Missing(s) == 0
    ensures Legal(c, s, Drains(s.manager.left)) && After(c, s, Drains(s.manager.left)).manager.Pushing?
    decreases |s.queue|
  {
    var n, s' := s.manager.left, Apply(c, s, Drain);
    assert Drains(n)[0] == Drain && Drains(n)[1..] == if n == 0 then [] else Drains(n - 1);
    if n == 0 {
      assert Legal(c, s', []) && After(c, s', []) == s';
    } else {
      ExitCanGoOn(c, s');
    }
  }

  /** So while it empties the queue, `exit` can get past this exactly if no batch is missing. */
  lemma ExitGoesOnIff(c: Config, s: State)
    requires Inv(c, s) && s.manager.Draining?
    ensures (exists trace :: Legal(c, s, trace) && !After(c, s, trace).manager.Draining?) <==> Missing(s) == 0
  {
    if Missing(s) == 0 { ExitCanGoOn(c, s); }
    if trace :| Legal(c, s, trace) && !After(c, s, trace).manager.Draining? {
      if Missing(s) > 0 { ExitNeverEnds(c, s, trace); }
    }
  }
}
