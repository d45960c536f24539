/** One iteration of the worker loop as a whole, whatever the calls answer, and exactly which steps end a process. */
module WorkerIteration {
  import opened WorkerProtocol

  /** What the environment answers in one iteration: to the patch to RUNNING, to the `get_task` of the finally block, to
      the patch of the head, to the copying of raw files and to the patch of each duplicate. */
  datatype Answers = Answers(running: Call, look: Call, report: Call, copied: Copied, duplicate: TaskId -> Call)

  /** `ended` tells that the process ends instead of waiting for the next batch. */
  datatype Effect = Effect(status: map<TaskId, Status>, ended: bool)

  predicate Fails(tasks: seq<TaskId>, answer: TaskId -> Call) {
    exists t | t in tasks :: answer(t) != Done
  }

  /** The tasks are patched one after the other; the first error ends the loop. */
  function PatchUntil(status: map<TaskId, Status>, tasks: seq<TaskId>, to: Status, answer: TaskId -> Call)
    : map<TaskId, Status>
    decreases |tasks|
  {
    if tasks == [] then status
    else
      var next := Patch(status, tasks[0], to, answer(tasks[0]));
      if answer(tasks[0]) == Done then PatchUntil(next, tasks[1..], to, answer) else next
  }

  /** Lines 239-295 of boefjes/boefjes/worker/manager.py for one batch. */
  function Iteration(c: Config, status: map<TaskId, Status>, timed: bool, batch: Batch, outcome: Outcome,
                     answers: Answers): Effect
  {
    var started := Patch(status, batch[0], Running, answers.running);
    if answers.running != Done && !timed then Effect(started, true)
    else Finishing(c, started, batch, if answers.running == Done then outcome else Raised(false), answers)
  }

  /** The finally block, lines 258-293, after the handler has ended like this. */
  function Finishing(c: Config, status: map<TaskId, Status>, batch: Batch, outcome: Outcome, answers: Answers): Effect {
    var head, fatal := batch[0], outcome == Raised(true);
    if answers.look != Done || head !in status then Effect(status, fatal)
    else if status[head] != Running then Sharing(c, status, batch, outcome, answers)
    else
      var reported := Patch(status, head, if outcome.Returned? then Completed else Failed, answers.report);
      if answers.report != Done then Effect(reported, fatal) else Sharing(c, reported, batch, outcome, answers)
  }

  /** Lines 267-291: the duplicates. */
  function Sharing(c: Config, status: map<TaskId, Status>, batch: Batch, outcome: Outcome, answers: Answers): Effect {
    var rest := batch[1..];
    if !c.boefjes || rest == [] then Effect(status, false)
    else if outcome != Returned(true) then
      Effect(PatchUntil(status, rest, Queued, answers.duplicate),
             outcome == Raised(true) && Fails(rest, answers.duplicate))
    else
      match answers.copied
      case Stored => Effect(PatchUntil(status, rest, Completed, answers.duplicate), false)
      case HttpError => Effect(status, false)
      case OtherError => Effect(status, true)
  }

  /** A worker's own action, other than being killed, takes it from alive to dead exactly if it is a copy that raises
      something else than an HTTPError, a failing patch to RUNNING in the first iteration of its process, or a failing
      call of the finally block while a fatal exception is pending. */
  lemma EndsIff(c: Config, s: State, i: nat, a: Action)
    requires ByWorker(a) && !a.Die? && i == a.worker && WorkerIn(s, i)
    requires WorkerCan(c, s.status, s.workers[i].phase, a)
    ensures i < |WorkerApply(c, s, i, a).workers|
    ensures var p := s.workers[i].phase;
      WorkerApply(c, s, i, a).workers[i].phase.Dead? <==>
        || (a.Copy? && a.copied == OtherError)
        || (a.PatchRunning? && a.call != Done && !s.workers[i].timed)
        || (a.Check? && (a.call != Done || p.batch[0] !in s.status) && p.fatal)
        || ((a.PatchHead? || a.PatchDuplicate?) && a.call != Done && p.fatal)
  {
    if a.Check? || a.PatchHead? { HeadKeepsAlive(c, s.workers[i].phase); }
  }

  lemma HeadKeepsAlive(c: Config, p: Phase)
    requires p.Handled? || p.Reporting?
    ensures !AfterHead(c, p.batch, p.result, p.output, p.fatal).Dead?
  {
  }

  /** A process that a failing copy leaves alive waits for the next batch. */
  lemma CopyErrorWaits(c: Config, s: State, i: nat)
    requires WorkerIn(s, i) && WorkerCan(c, s.status, s.workers[i].phase, Copy(i, HttpError))
    ensures WorkerApply(c, s, i, Copy(i, HttpError)).workers == s.workers[i := s.workers[i].(phase := Waiting)]
    ensures WorkerApply(c, s, i, Copy(i, HttpError)).status == s.status
  {
  }
}
