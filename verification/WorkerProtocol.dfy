/**
 The protocol between the scheduler, the worker manager of boefjes/boefjes/worker/manager.py, its pool of worker
 processes with their container handlers, and the endpoint to which containers report, as a transition system.

 One action is one indivisible event: a queue operation, a write to the shared
 `handling_tasks` record, one call to the scheduler, the return of a handler, the death of a
 process. Everything between two such events is local to one process.
 */
module WorkerProtocol {

  type TaskId = nat
  type Pid = nat

  datatype Option<+T> = None | Some(value: T)

  datatype Status = Pending | Queued | Dispatched | Running | Completed | Failed | Cancelled

  /** One element of the local task queue: the first task is handled, the others are its duplicates. */
  type Batch = b: seq<TaskId> | |b| > 0 witness [0]

  /** What a caller of the scheduler's API observes. An unanswered call took effect, but raised HTTPError. */
  datatype Call = Done | Refused | Unanswered {
    predicate TakesEffect() { this != Refused }
  }

  /** How `handler.handle` ends; `output` tells whether the returned value differs from None. A fatal exception
      is not a subclass of Exception. */
  datatype Outcome = Returned(output: bool) | Raised(fatal: bool)

  /** How `handler.copy_raw_files` ends. */
  datatype Copied = Stored | HttpError | OtherError

  /** Where a container handler is that patches its task to FAILED itself: it has seen that the task is RUNNING, or
      has not looked; and afterwards it raises, or returns False. */
  datatype Ending = SawRunning | Unseen | Patched(raises: bool)

  datatype Phase =
    | Waiting
    | Taken(batch: Batch)
    | Recorded(batch: Batch)
    | Handling(batch: Batch)
    | Quitting(batch: Batch, ending: Ending)
    | Handled(batch: Batch, result: Status, output: bool, fatal: bool)
    | Reporting(batch: Batch, result: Status, output: bool, fatal: bool)
    | Copying(rest: seq<TaskId>, result: Status)
    | Duplicating(rest: seq<TaskId>, result: Status, fatal: bool)
    | Dead(record: Option<TaskId>)

  /** `timed` tells whether the local variable `start_time` has been assigned in this process. */
  datatype Worker = Worker(pid: Pid, timed: bool, phase: Phase) {
    predicate Alive() { !phase.Dead? }
  }

  /** Where the main process is. `Failing` is the cleanup between `get_task` and `patch_task`. */
  datatype Manager =
    | Looping
    | Replacing(index: nat)
    | Starting(index: nat)
    | Failing(index: nat, task: TaskId, next: Manager)
    | Filling
    | Putting(batches: seq<Batch>)
    | Draining(left: nat, drained: seq<Batch>)
    | Pushing(items: seq<TaskId>)
    | Killing(index: nat, killed: seq<nat>)
    | Reaping(killed: seq<nat>, index: nat)
    | Exited(killed: seq<nat>)

  /** Bookkeeping for the proofs. A popped task is unrecorded when its worker died between taking it and writing
      `handling_tasks`; orphaned when it was a duplicate whose worker died, or a duplicate in a normalizer's batch;
      abandoned when a call about it raised an error. */
  datatype History = History(
    popped: set<TaskId>,
    unrecorded: set<TaskId>,
    orphaned: set<TaskId>,
    abandoned: set<TaskId>
  )

  /** A request to the output endpoint that has seen its task RUNNING and has not patched it yet. */
  datatype Callback = Callback(task: TaskId, reported: Status)

  datatype State = State(
    status: map<TaskId, Status>,
    queue: seq<Batch>,
    workers: seq<Worker>,
    handling: map<Pid, TaskId>,
    manager: Manager,
    history: History,
    callbacks: multiset<Callback>
  )

  datatype Config = Config(poolSize: nat, deduplicate: bool, boefjes: bool)

  datatype Action =
    | Submit(task: TaskId)
    | Receive(task: TaskId, reported: Status)
    | Conclude(callback: Callback, saved: bool, call: Call)
    | Get(worker: nat)
    | Record(worker: nat)
    | PatchRunning(worker: nat, call: Call)
    | Handle(worker: nat, outcome: Outcome)
    | SeeRunning(worker: nat)
    | FindBroken(worker: nat)
    | PatchOwn(worker: nat, call: Call)
    | Check(worker: nat, call: Call)
    | PatchHead(worker: nat, call: Call)
    | Copy(worker: nat, copied: Copied)
    | PatchDuplicate(worker: nat, call: Call)
    | Die(worker: nat)
    | Replace
    | Examine(call: Call)
    | PatchFailed(call: Call)
    | Start(pid: Pid)
    | Rest
    | Pop(tasks: seq<TaskId>, call: Call)
    | Put
    | BeginExit
    | Drain
    | PushBack(call: Call)
    | Kill
    | Reap(call: Call)

  predicate Terminal(status: Status) {
    status.Completed? || status.Failed?
  }

  predicate Unfinished(status: Status) {
    status.Dispatched? || status.Running?
  }

  function Flatten(batches: seq<Batch>): seq<TaskId> {
    if batches == [] then [] else batches[0] + Flatten(batches[1..])
  }

  function Singletons(tasks: seq<TaskId>): seq<Batch> {
    if tasks == [] then [] else [[tasks[0]]] + Singletons(tasks[1..])
  }

  /** The batches put for one answer of the scheduler: one with deduplication, else one for each task. */
  function Batches(c: Config, tasks: seq<TaskId>): seq<Batch> {
    if tasks == [] then [] else if c.deduplicate then [tasks] else Singletons(tasks)
  }

  predicate NoDuplicates(tasks: seq<TaskId>) {
    forall i, j | 0 <= i < j < |tasks| :: tasks[i] != tasks[j]
  }

  function ToSet(tasks: seq<TaskId>): set<TaskId> {
    set t | t in tasks
  }

  function SetAll(status: map<TaskId, Status>, tasks: seq<TaskId>, to: Status): map<TaskId, Status> {
    map t | t in status.Keys + ToSet(tasks) :: if t in tasks then to else status[t]
  }

  function Patch(status: map<TaskId, Status>, task: TaskId, to: Status, call: Call): map<TaskId, Status> {
    if call.TakesEffect() then status[task := to] else status
  }

  /* ---------- the worker loop, lines 239-295 ---------- */

  /** The phase after the head of the batch is settled, lines 267-284. */
  function AfterHead(c: Config, batch: Batch, result: Status, output: bool, fatal: bool): Phase {
    if !c.boefjes || |batch| == 1 then Waiting
    else if !output then Duplicating(batch[1..], Queued, fatal)
    else Copying(batch[1..], result)
  }

  /** A normalizer's duplicates are dropped after the head is settled, line 267. */
  function Dropped(c: Config, batch: Batch): set<TaskId> {
    if c.boefjes then {} else ToSet(batch[1..])
  }

  /** An HTTPError inside the finally block is logged; a pending fatal exception then ends the process. */
  function AfterError(fatal: bool): Phase {
    if fatal then Dead(None) else Waiting
  }

  /** The tasks a worker has taken and not yet settled. */
  function Hand(w: Worker): seq<TaskId> {
    match w.phase
    case Waiting => []
    case Taken(b) => b
    case Recorded(b) => b
    case Handling(b) => b
    case Quitting(b, _) => b
    case Handled(b, _, _, _) => b
    case Reporting(b, _, _, _) => b
    case Copying(rest, _) => rest
    case Duplicating(rest, _, _) => rest
    case Dead(record) => if record.Some? then [record.value] else []
  }

  /** The task a worker has written to `handling_tasks` and not yet settled. */
  function RecordedHead(w: Worker): Option<TaskId> {
    match w.phase
    case Recorded(b) => Some(b[0])
    case Handling(b) => Some(b[0])
    case Quitting(b, _) => Some(b[0])
    case Handled(b, _, _, _) => Some(b[0])
    case Reporting(b, _, _, _) => Some(b[0])
    case Dead(record) => record
    case _ => None
  }

  /** The dead worker keeps only what `handling_tasks` says about it; the rest of its hand is lost. */
  function Killed(s: State, i: nat): State
    requires i < |s.workers| && s.workers[i].Alive()
  {
    var w := s.workers[i];
    var h := s.history;
    var record := RecordedHead(w);
    var history :=
      if w.phase.Taken? then
        h.(unrecorded := h.unrecorded + {w.phase.batch[0]}, orphaned := h.orphaned + ToSet(w.phase.batch[1..]))
      else if record.Some? then h.(orphaned := h.orphaned + ToSet(Hand(w)[1..]))
      else h.(orphaned := h.orphaned + ToSet(Hand(w)));
    s.(workers := s.workers[i := w.(phase := Dead(record))], history := history)
  }

  function MoveTo(s: State, i: nat, phase: Phase): State
    requires i < |s.workers|
  {
    s.(workers := s.workers[i := s.workers[i].(phase := phase)])
  }

  function Abandon(s: State, tasks: set<TaskId>): State {
    s.(history := s.history.(abandoned := s.history.abandoned + tasks))
  }

  predicate WorkerIn(s: State, i: nat) {
    i < |s.workers|
  }

  /* ---------- cleaning up after a dead worker, lines 164-181 ---------- */

  /** `get_task` for the task recorded under the dead worker's pid; `next` is where the manager continues. */
  function CleanUp(s: State, i: nat, call: Call, next: Manager): State
    requires i < |s.workers| && s.workers[i].phase.Dead?
  {
    var w := s.workers[i];
    var record := ToSet(Hand(w));
    if w.pid !in s.handling then MoveTo(s, i, Dead(None)).(manager := next)
    else if call != Done || s.handling[w.pid] !in s.status then
      Abandon(MoveTo(s, i, Dead(None)), record).(manager := next)
    else if Unfinished(s.status[s.handling[w.pid]]) then s.(manager := Failing(i, s.handling[w.pid], next))
    else MoveTo(s, i, Dead(None)).(manager := next)
  }

  /* ---------- containers: boefjes/boefjes/api.py, 75-113, and boefjes/boefjes/job_handler.py, 49-117 ---------- */

  /** The endpoint patches what the container reported, or FAILED if its output could not be saved. */
  function Concluded(callback: Callback, saved: bool): Status {
    if saved then callback.reported else Failed
  }

  function Concluding(s: State, callback: Callback, saved: bool, call: Call): State {
    s.(status := Patch(s.status, callback.task, Concluded(callback, saved), call),
       callbacks := s.callbacks - multiset{callback})
  }

  /** How a handler may end: saving the output can raise before its own patch, and the patch decides what follows. */
  predicate CanEnd(phase: Phase, outcome: Outcome) {
    || phase.Handling?
    || (phase.Quitting? && phase.ending.Patched?
        && outcome == if phase.ending.raises then Raised(false) else Returned(true))
    || (phase.Quitting? && !phase.ending.Patched? && outcome.Raised?)
  }

  /** The handler's own patch: it raises after one for a container that did not report, and after a failing one. */
  function PatchingOwn(s: State, i: nat, call: Call): State
    requires WorkerIn(s, i) && s.workers[i].phase.Quitting?
  {
    var p := s.workers[i].phase;
    MoveTo(s, i, Quitting(p.batch, Patched(p.ending == SawRunning || call != Done)))
      .(status := Patch(s.status, p.batch[0], Failed, call))
  }

  /* ---------- actions ---------- */

  /** The actions of a container handler on its own task. */
  predicate ByHandler(a: Action) {
    a.SeeRunning? || a.FindBroken? || a.PatchOwn?
  }

  /** The actions of a worker after it has taken a batch. */
  predicate ByWorker(a: Action) {
    || a.Record? || a.PatchRunning? || a.Handle? || a.Check? || a.PatchHead? || a.Copy? || a.PatchDuplicate? || a.Die?
    || ByHandler(a)
  }

  /** The actions of the scheduler's users, of the output endpoint, and of a worker that takes a batch. */
  predicate ByOthers(a: Action) {
    a.Submit? || a.Receive? || a.Conclude? || a.Get?
  }

  predicate Enabled(c: Config, s: State, a: Action) {
    if ByWorker(a) then WorkerIn(s, a.worker) && WorkerCan(c, s.status, s.workers[a.worker].phase, a)
    else if ByOthers(a) then OthersCan(s, a)
    else ManagerCan(c, s, a)
  }

  predicate OthersCan(s: State, a: Action)
    requires ByOthers(a)
  {
    match a
    case Submit(t) => t !in s.status
    case Receive(t, r) => t in s.status && s.status[t] == Running && Terminal(r)
    case Conclude(callback, _, _) => callback in s.callbacks
    case Get(i) => WorkerIn(s, i) && s.workers[i].phase.Waiting? && s.queue != []
  }

  predicate WorkerCan(c: Config, status: map<TaskId, Status>, p: Phase, a: Action)
    requires ByWorker(a)
  {
    match a
    case Record(_) => p.Taken?
    case PatchRunning(_, _) => p.Recorded?
    case Handle(_, outcome) => CanEnd(p, outcome)
    case SeeRunning(_) => c.boefjes && p.Handling? && p.batch[0] in status && status[p.batch[0]] == Running
    case FindBroken(_) => c.boefjes && p.Handling?
    case PatchOwn(_, _) => p.Quitting? && !p.ending.Patched?
    case Check(_, _) => p.Handled?
    case PatchHead(_, _) => p.Reporting?
    case Copy(_, _) => p.Copying?
    case PatchDuplicate(_, _) => p.Duplicating? && p.rest != []
    case Die(_) => !p.Dead?
  }

  predicate ManagerCan(c: Config, s: State, a: Action)
    requires !ByWorker(a) && !ByOthers(a)
  {
    match a
    case Replace => s.manager.Looping?
    case Examine(_) => s.manager.Replacing?
    case PatchFailed(_) => s.manager.Failing? && s.manager.index < |s.workers|
    case Start(pid) => CanStart(s, pid)
    case Rest => s.manager.Filling? && |s.queue| > c.poolSize
    case Pop(ts, _) => s.manager.Filling? && |s.queue| <= c.poolSize && CanPop(s, ts)
    case Put => s.manager.Putting? && s.manager.batches != []
    case BeginExit => s.manager.Looping?
    case Drain => CanDrain(s)
    case PushBack(_) => s.manager.Pushing?
    case Kill => s.manager.Killing?
    case Reap(_) => CanReap(s)
  }

  /** A new process has a pid that no process in the pool has. */
  predicate CanStart(s: State, pid: Pid) {
    && s.manager.Starting? && s.manager.index < |s.workers|
    && forall j | 0 <= j < |s.workers| && j != s.manager.index :: s.workers[j].pid != pid
  }

  predicate CanPop(s: State, ts: seq<TaskId>) {
    NoDuplicates(ts) && forall t | t in ts :: t in s.status && s.status[t] == Queued
  }

  predicate CanDrain(s: State) {
    s.manager.Draining? && (s.manager.left > 0 ==> s.queue != [])
  }

  predicate CanReap(s: State) {
    s.manager.Reaping? && (s.manager.index < |s.manager.killed| ==>
      var i := s.manager.killed[s.manager.index]; WorkerIn(s, i) && s.workers[i].phase.Dead?)
  }

  function Apply(c: Config, s: State, a: Action): State
    requires Enabled(c, s, a)
  {
    if ByWorker(a) then WorkerApply(c, s, a.worker, a)
    else if ByOthers(a) then OthersApply(s, a)
    else ManagerApply(c, s, a)
  }

  function OthersApply(s: State, a: Action): State
    requires ByOthers(a) && OthersCan(s, a)
  {
    match a
    case Submit(t) => s.(status := s.status[t := Queued])
    case Receive(t, r) => s.(callbacks := s.callbacks + multiset{Callback(t, r)})
    case Conclude(callback, saved, call) => Concluding(s, callback, saved, call)
    case Get(i) => MoveTo(s, i, Taken(s.queue[0])).(queue := s.queue[1..])
  }

  function WorkerApply(c: Config, s: State, i: nat, a: Action): State
    requires ByWorker(a) && i == a.worker && WorkerIn(s, i) && WorkerCan(c, s.status, s.workers[i].phase, a)
  {
    match a
    case Record(_) => Recording(s, i)
    case PatchRunning(_, call) => PatchingRunning(s, i, call)
    case Handle(_, Returned(output)) => MoveTo(s, i, Handled(s.workers[i].phase.batch, Completed, output, false))
    case Handle(_, Raised(fatal)) => MoveTo(s, i, Handled(s.workers[i].phase.batch, Failed, false, fatal))
    case SeeRunning(_) => MoveTo(s, i, Quitting(s.workers[i].phase.batch, SawRunning))
    case FindBroken(_) => MoveTo(s, i, Quitting(s.workers[i].phase.batch, Unseen))
    case PatchOwn(_, call) => PatchingOwn(s, i, call)
    case Check(_, call) => Checking(c, s, i, call)
    case PatchHead(_, call) => PatchingHead(c, s, i, call)
    case Copy(_, copied) => CopyingFiles(s, i, copied)
    case PatchDuplicate(_, call) => PatchingDuplicate(s, i, call)
    case Die(_) => Killed(s, i)
  }

  function ManagerApply(c: Config, s: State, a: Action): State
    requires !ByWorker(a) && !ByOthers(a) && ManagerCan(c, s, a)
  {
    match a
    case Replace => s.(manager := Replacing(0))
    case Examine(call) => Examining(s, call)
    case PatchFailed(call) => FailingTask(s, call)
    case Start(pid) => Started(s, pid)
    case Rest => s.(manager := Looping)
    case Pop(ts, call) => Popping(c, s, ts, call)
    case Put => PuttingNext(s)
    case BeginExit => s.(manager := Draining(|s.queue|, []))
    case Drain => DrainingNext(s)
    case PushBack(call) => PushingBack(s, call)
    case Kill => KillingNext(s)
    case Reap(call) => ReapingNext(s, call)
  }

  function Recording(s: State, i: nat): State
    requires WorkerIn(s, i) && s.workers[i].phase.Taken?
  {
    var b := s.workers[i].phase.batch;
    MoveTo(s, i, Recorded(b)).(handling := s.handling[s.workers[i].pid := b[0]])
  }

  /** Line 279. */
  function CopyingFiles(s: State, i: nat, copied: Copied): State
    requires WorkerIn(s, i) && s.workers[i].phase.Copying?
  {
    var p := s.workers[i].phase;
    match copied
    case Stored => MoveTo(s, i, if p.rest == [] then Waiting else Duplicating(p.rest, p.result, false))
    case HttpError => Abandon(MoveTo(s, i, Waiting), ToSet(p.rest))
    case OtherError => Abandon(MoveTo(s, i, Dead(None)), ToSet(p.rest))
  }

  /** Lines 127-162: a dead process is cleaned up and replaced. */
  function Examining(s: State, call: Call): State
    requires s.manager.Replacing?
  {
    var i := s.manager.index;
    if i >= |s.workers| then s.(manager := Filling)
    else if s.workers[i].Alive() then s.(manager := Replacing(i + 1))
    else CleanUp(s, i, call, Starting(i))
  }

  function Started(s: State, pid: Pid): State
    requires s.manager.Starting? && s.manager.index < |s.workers|
  {
    var i := s.manager.index;
    s.(workers := s.workers[i := Worker(pid, false, Waiting)], manager := Replacing(i + 1))
  }

  function PuttingNext(s: State): State
    requires s.manager.Putting? && s.manager.batches != []
  {
    var rest := s.manager.batches[1..];
    s.(queue := s.queue + [s.manager.batches[0]], manager := if rest == [] then Looping else Putting(rest))
  }

  /** Line 192. */
  function DrainingNext(s: State): State
    requires CanDrain(s)
  {
    var m := s.manager;
    if m.left == 0 then s.(manager := Pushing(Flatten(m.drained)))
    else s.(queue := s.queue[1..], manager := Draining(m.left - 1, m.drained + [s.queue[0]]))
  }

  function KillingNext(s: State): State
    requires s.manager.Killing?
  {
    var m := s.manager;
    if m.index >= |s.workers| then s.(manager := Reaping(m.killed, 0))
    else if s.workers[m.index].Alive() then Killed(s, m.index).(manager := Killing(m.index + 1, m.killed + [m.index]))
    else s.(manager := Killing(m.index + 1, m.killed))
  }

  function ReapingNext(s: State, call: Call): State
    requires CanReap(s)
  {
    var m := s.manager;
    if m.index >= |m.killed| then s.(manager := Exited(m.killed))
    else CleanUp(s, m.killed[m.index], call, Reaping(m.killed, m.index + 1))
  }

  /** Lines 247-249 and 258: on the first iteration of a process the failing call leaves `start_time` unbound,
      and the finally block ends the process. */
  function PatchingRunning(s: State, i: nat, call: Call): State
    requires WorkerIn(s, i) && s.workers[i].phase.Recorded?
  {
    var w := s.workers[i];
    var b := w.phase.batch;
    var s1 := s.(status := Patch(s.status, b[0], Running, call));
    if call == Done then s1.(workers := s.workers[i := w.(timed := true, phase := Handling(b))])
    else if w.timed then Abandon(MoveTo(s1, i, Handled(b, Failed, false, false)), {b[0]})
    else Abandon(Killed(s1, i), {b[0]})
  }

  /** Line 260. */
  function Checking(c: Config, s: State, i: nat, call: Call): State
    requires WorkerIn(s, i) && s.workers[i].phase.Handled?
  {
    var p := s.workers[i].phase;
    if call != Done || p.batch[0] !in s.status then
      Abandon(MoveTo(s, i, AfterError(p.fatal)), ToSet(p.batch))
    else if s.status[p.batch[0]] == Running then
      MoveTo(s, i, Reporting(p.batch, p.result, p.output, p.fatal))
    else Settle(c, s, i, p)
  }

  /** Line 262. */
  function PatchingHead(c: Config, s: State, i: nat, call: Call): State
    requires WorkerIn(s, i) && s.workers[i].phase.Reporting?
  {
    var p := s.workers[i].phase;
    var s1 := s.(status := Patch(s.status, p.batch[0], p.result, call));
    if call == Done then Settle(c, s1, i, p)
    else Abandon(MoveTo(s1, i, AfterError(p.fatal)), ToSet(p.batch))
  }

  function Settle(c: Config, s: State, i: nat, p: Phase): State
    requires WorkerIn(s, i) && (p.Handled? || p.Reporting?)
  {
    var h := s.history;
    MoveTo(s, i, AfterHead(c, p.batch, p.result, p.output, p.fatal))
      .(history := h.(orphaned := h.orphaned + Dropped(c, p.batch)))
  }

  /** Lines 274-276 and 284-285. */
  function PatchingDuplicate(s: State, i: nat, call: Call): State
    requires WorkerIn(s, i) && s.workers[i].phase.Duplicating? && s.workers[i].phase.rest != []
  {
    var p := s.workers[i].phase;
    var s1 := s.(status := Patch(s.status, p.rest[0], p.result, call));
    if call != Done then Abandon(MoveTo(s1, i, AfterError(p.fatal)), ToSet(p.rest))
    else MoveTo(s1, i, if |p.rest| == 1 then Waiting else Duplicating(p.rest[1..], p.result, p.fatal))
  }

  /** Lines 175-179. */
  function FailingTask(s: State, call: Call): State
    requires s.manager.Failing? && s.manager.index < |s.workers|
  {
    var m := s.manager;
    var s1 := MoveTo(s, m.index, Dead(None)).(manager := m.next, status := Patch(s.status, m.task, Failed, call));
    if call == Done then s1 else Abandon(s1, ToSet(Hand(s.workers[m.index])))
  }

  /** Lines 87-106 up to the first `put`. A pop that raises may have dispatched tasks all the same. */
  function Popping(c: Config, s: State, ts: seq<TaskId>, call: Call): State {
    var h := s.history.(popped := s.history.popped + if call.TakesEffect() then ToSet(ts) else {});
    var s1 := if call.TakesEffect() then s.(status := SetAll(s.status, ts, Dispatched), history := h) else s;
    if call == Done && ts != [] then s1.(manager := Putting(Batches(c, ts)))
    else if call == Done then s1.(manager := Looping)
    else Abandon(s1, ToSet(ts)).(manager := Looping)
  }

  /** Lines 194-199. */
  function PushingBack(s: State, call: Call): State
    requires s.manager.Pushing?
  {
    var items := s.manager.items;
    if items == [] then s.(manager := Killing(0, []))
    else
      var s1 := s.(manager := Pushing(items[1..]), status := Patch(s.status, items[0], Queued, call));
      if call == Done then s1 else Abandon(s1, {items[0]})
  }

  /* ---------- runs ---------- */

  ghost predicate Init(c: Config, s: State) {
    && |s.workers| == c.poolSize
    && (forall i | 0 <= i < |s.workers| :: s.workers[i].phase == Waiting && !s.workers[i].timed)
    && (forall i, j | 0 <= i < j < |s.workers| :: s.workers[i].pid != s.workers[j].pid)
    && s.queue == [] && s.handling == map[] && s.manager == Looping
    && s.history == History({}, {}, {}, {}) && s.callbacks == multiset{}
  }

  ghost predicate Legal(c: Config, s: State, trace: seq<Action>)
    decreases |trace|
  {
    trace == [] || (Enabled(c, s, trace[0]) && Legal(c, Apply(c, s, trace[0]), trace[1..]))
  }

  ghost function After(c: Config, s: State, trace: seq<Action>): State
    requires Legal(c, s, trace)
    decreases |trace|
  {
    if trace == [] then s else After(c, Apply(c, s, trace[0]), trace[1..])
  }

  /** Every call to the scheduler in the action succeeds, and so does the copying of raw files. */
  predicate Succeeds(a: Action) {
    match a
    case PatchRunning(_, call) => call == Done
    case Conclude(_, _, call) => call == Done
    case PatchOwn(_, call) => call == Done
    case Check(_, call) => call == Done
    case PatchHead(_, call) => call == Done
    case PatchDuplicate(_, call) => call == Done
    case Copy(_, copied) => copied == Stored
    case Examine(call) => call == Done
    case PatchFailed(call) => call == Done
    case Pop(_, call) => call == Done
    case PushBack(call) => call == Done
    case Reap(call) => call == Done
    case _ => true
  }
}
