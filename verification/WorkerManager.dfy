/**
 The methods of `SchedulerWorkerManager`, the loop of `_start_working` and the container handler, in the program's own
 form: they update the fields in place, and each is proved to execute a run of the protocol. A method is run here
 without interference; the protocol itself interleaves the same events of all processes.
 */
module WorkerManager {
  import opened WorkerProtocol
  import opened WorkerInvariant
  import opened WorkerIteration
  import opened WorkerProgress
  import opened WorkerRuns

  class SchedulerWorkerManager {
    const config: Config
    var workers: seq<Worker>
    var taskQueue: seq<Batch>
    var handlingTasks: map<Pid, TaskId>
    var exited: bool
    /** What the scheduler behind the client has stored. */
    var status: map<TaskId, Status>
    ghost var position: Manager
    ghost var history: History
    ghost var callbacks: multiset<Callback>

    ghost function View(): State
      reads this
    {
      State(status, taskQueue, workers, handlingTasks, position, history, callbacks)
    }

    /** `run` before its first iteration, lines 46-51. */
    constructor (config: Config, pids: seq<Pid>, status: map<TaskId, Status>)
      requires |pids| == config.poolSize && forall i, j | 0 <= i < j < |pids| :: pids[i] != pids[j]
      ensures this.config == config && this.status == status && !exited
      ensures Init(config, View())
    {
      this.config := config;
      this.workers := seq(|pids|, i requires 0 <= i < |pids| => Worker(pids[i], false, Waiting));
      this.taskQueue := [];
      this.handlingTasks := map[];
      this.exited := false;
      this.status := status;
      this.position := Looping;
      this.history := History({}, {}, {}, {});
      this.callbacks := multiset{};
    }

    /** The real fields have made a step to `s'` by the action `a`; the bookkeeping follows. */
    ghost method Follow(start: State, trace: seq<Action>, s': State, a: Action) returns (trace': seq<Action>)
      requires Leads(config, start, trace + [a], s')
      requires status == s'.status && taskQueue == s'.queue && workers == s'.workers && handlingTasks == s'.handling
      requires callbacks == s'.callbacks
      modifies this`position, this`history
      ensures View() == s' && Leads(config, start, trace', View()) && trace' == trace + [a]
    {
      position, history := s'.manager, s'.history;
      trace' := trace + [a];
    }

    ghost method FollowManager(start: State, trace: seq<Action>, s: State, a: Action) returns (trace': seq<Action>)
      requires Leads(config, start, trace, s) && !ByWorker(a) && !ByOthers(a) && ManagerCan(config, s, a)
      requires var s' := ManagerApply(config, s, a);
        && status == s'.status && taskQueue == s'.queue && workers == s'.workers && handlingTasks == s'.handling
        && callbacks == s'.callbacks
      modifies this`position, this`history
      ensures View() == ManagerApply(config, s, a) && Leads(config, start, trace', View()) && trace' == trace + [a]
    {
      ThenManager(config, start, trace, s, a);
      trace' := Follow(start, trace, ManagerApply(config, s, a), a);
    }

    ghost method FollowWorker(start: State, trace: seq<Action>, s: State, i: nat, a: Action)
      returns (trace': seq<Action>)
      requires Leads(config, start, trace, s) && ByWorker(a) && i == a.worker
      requires WorkerIn(s, i) && WorkerCan(config, s.status, s.workers[i].phase, a)
      requires var s' := WorkerApply(config, s, i, a);
        && status == s'.status && taskQueue == s'.queue && workers == s'.workers && handlingTasks == s'.handling
        && callbacks == s'.callbacks
      modifies this`position, this`history
      ensures View() == WorkerApply(config, s, i, a) && Leads(config, start, trace', View()) && trace' == trace + [a]
    {
      ThenWorker(config, start, trace, s, i, a);
      trace' := Follow(start, trace, WorkerApply(config, s, i, a), a);
    }

    /** A call to `patch_task`. */
    method PatchTask(task: TaskId, to: Status) returns (call: Call)
      modifies this`status
      ensures status == Patch(old(status), task, to, call)
    {
      call := *;
      if call.TakesEffect() { status := status[task := to]; }
    }

    /** Lines 164-181. */
    method CleanupPendingWorkerTask(i: nat, ghost start: State, ghost trace0: seq<Action>, ghost next: Manager)
      returns (ghost trace: seq<Action>)
      requires i < |workers| && workers[i].phase.Dead? && Leads(config, start, trace0, View())
      requires CleansUp(position, i, next)
      modifies this
      ensures Leads(config, start, trace, View()) && position == next
      ensures workers == old(workers)[i := old(workers)[i].(phase := Dead(None))]
      ensures taskQueue == old(taskQueue) && handlingTasks == old(handlingTasks) && exited == old(exited)
      ensures old(history).abandoned <= history.abandoned
      ensures var pid := old(workers)[i].pid;
        || status == old(status)
        || (pid in handlingTasks && handlingTasks[pid] in old(status) && Unfinished(old(status)[handlingTasks[pid]])
            && status == old(status)[handlingTasks[pid] := Failed])
    {
      ghost var s := View();
      var worker := workers[i];
      var call := Done;
      if worker.pid in handlingTasks { call := *; }
      ghost var a := ThenCleaned(config, start, trace0, s, i, call, next);
      if worker.pid in handlingTasks && call == Done && handlingTasks[worker.pid] in status
         && Unfinished(status[handlingTasks[worker.pid]]) {
        trace := Follow(start, trace0, CleanUp(s, i, call, next), a);
        trace := PatchTaskFailed(i, handlingTasks[worker.pid], start, trace, next);
      } else {
        workers := workers[i := worker.(phase := Dead(None))];
        trace := Follow(start, trace0, CleanUp(s, i, call, next), a);
      }
    }

    /** Lines 175-179. */
    method PatchTaskFailed(i: nat, task: TaskId, ghost start: State, ghost trace0: seq<Action>, ghost next: Manager)
      returns (ghost trace: seq<Action>)
      requires i < |workers| && position == Failing(i, task, next) && Leads(config, start, trace0, View())
      modifies this
      ensures Leads(config, start, trace, View()) && position == next
      ensures workers == old(workers)[i := old(workers)[i].(phase := Dead(None))]
      ensures taskQueue == old(taskQueue) && handlingTasks == old(handlingTasks) && exited == old(exited)
      ensures old(history).abandoned <= history.abandoned
      ensures status == old(status) || status == old(status)[task := Failed]
    {
      ghost var s := View();
      var call := PatchTask(task, Failed);
      workers := workers[i := workers[i].(phase := Dead(None))];
      trace := FollowManager(start, trace0, s, PatchFailed(call));
    }

    /** Lines 142-160, for a worker that is not alive: the new process has a pid of its own. */
    method ReplaceWorker(i: nat, ghost start: State, ghost trace0: seq<Action>) returns (ghost trace: seq<Action>)
      requires i < |workers| && workers[i].phase.Dead? && position == Replacing(i)
      requires Leads(config, start, trace0, View())
      modifies this
      ensures Leads(config, start, trace, View()) && position == Replacing(i + 1)
      ensures |workers| == |old(workers)| && workers == old(workers)[i := workers[i]]
      ensures workers[i].phase == Waiting && !workers[i].timed
      ensures taskQueue == old(taskQueue) && handlingTasks == old(handlingTasks) && exited == old(exited)
    {
      trace := CleanupPendingWorkerTask(i, start, trace0, Starting(i));
      ghost var s := View();
      ghost var bound := FreshPid(workers);
      var pid: Pid :| Fresh(workers, pid);
      assert Fresh(s.workers, pid);
      workers := workers[i := Worker(pid, false, Waiting)];
      trace := FollowManager(start, trace, s, Start(pid));
    }

    /** Lines 127-162: afterwards every worker is alive: the living ones have been left alone, and the others are new
        processes, which have not started an iteration. */
    method ReplaceBrokenWorkers() returns (ghost trace: seq<Action>)
      requires position == Looping
      modifies this
      ensures Leads(config, old(View()), trace, View()) && position == Filling
      ensures |workers| == |old(workers)|
      ensures forall i | 0 <= i < |workers| :: workers[i].Alive() && Renewed(old(workers)[i], workers[i])
      ensures taskQueue == old(taskQueue) && handlingTasks == old(handlingTasks) && exited == old(exited)
    {
      ghost var start := View();
      Stays(config, start);
      trace := FollowManager(start, [], View(), Replace);
      trace := ReplaceAll(start, trace);
      trace := FollowManager(start, trace, View(), Examine(Done));
    }

    /** The loop of lines 132-160. */
    method ReplaceAll(ghost start: State, ghost trace0: seq<Action>) returns (ghost trace: seq<Action>)
      requires position == Replacing(0) && Leads(config, start, trace0, View())
      modifies this
      ensures Leads(config, start, trace, View()) && position == Replacing(|workers|)
      ensures RenewedUpTo(old(workers), workers, |workers|)
      ensures taskQueue == old(taskQueue) && handlingTasks == old(handlingTasks) && exited == old(exited)
    {
      trace := trace0;
      var i := 0;
      while i < |workers|
        invariant RenewedUpTo(old(workers), workers, i) && position == Replacing(i)
        invariant Leads(config, start, trace, View())
        invariant taskQueue == old(taskQueue) && handlingTasks == old(handlingTasks) && exited == old(exited)
      {
        ghost var before := workers;
        trace := ReplaceIfBroken(i, start, trace);
        RenewedNext(old(workers), before, workers, i);
        i := i + 1;
      }
    }

    /** One iteration. */
    method ReplaceIfBroken(i: nat, ghost start: State, ghost trace0: seq<Action>) returns (ghost trace: seq<Action>)
      requires i < |workers| && position == Replacing(i) && Leads(config, start, trace0, View())
      modifies this
      ensures Leads(config, start, trace, View()) && position == Replacing(i + 1)
      ensures |workers| == |old(workers)| && workers == old(workers)[i := workers[i]]
      ensures Renewed(old(workers)[i], workers[i])
      ensures taskQueue == old(taskQueue) && handlingTasks == old(handlingTasks) && exited == old(exited)
    {
      if workers[i].Alive() {
        trace := FollowManager(start, trace0, View(), Examine(Done));
      } else {
        trace := ReplaceWorker(i, start, trace0);
      }
    }

    /** One iteration of `run`, lines 56-66: dead workers are replaced, and the scheduler is asked for tasks exactly if
        there is at most one batch for each worker in the queue. With deduplication the tasks form one batch, and
        otherwise each is a batch of its own. */
    method RunOnce() returns (ghost trace: seq<Action>, items: seq<TaskId>)
      requires position == Looping
      modifies this
      ensures Leads(config, old(View()), trace, View()) && position == Looping
      ensures |workers| == |old(workers)|
      ensures forall i | 0 <= i < |workers| :: workers[i].Alive() && Renewed(old(workers)[i], workers[i])
      ensures |old(taskQueue)| > config.poolSize ==> items == []
      ensures items == [] ==> taskQueue == old(taskQueue)
      ensures items != [] && config.deduplicate ==> taskQueue == old(taskQueue) + [items]
      ensures items != [] && !config.deduplicate ==> EachAlone(old(taskQueue), taskQueue, items)
      ensures forall t | t in items :: t in status && status[t] == Dispatched
      ensures handlingTasks == old(handlingTasks) && exited == old(exited)
    {
      ghost var start := View();
      trace := ReplaceBrokenWorkers();
      items := [];
      if |taskQueue| > config.poolSize {
        trace := FollowManager(start, trace, View(), Rest);
      } else {
        ghost var more;
        ghost var middle := View();
        more, items := FillQueue();
        ThenAll(config, start, trace, middle, more, View());
        trace := trace + more;
        BatchesMean(config, items);
      }
    }

    /** Lines 82-125, with a queue that is not full: the popped tasks are appended, in order. */
    method FillQueue() returns (ghost trace: seq<Action>, items: seq<TaskId>)
      requires position == Filling && |taskQueue| <= config.poolSize
      modifies this
      ensures Leads(config, old(View()), trace, View()) && position == Looping
      ensures taskQueue == old(taskQueue) + Batches(config, items)
      ensures Flatten(taskQueue) == Flatten(old(taskQueue)) + items
      ensures forall t | t in items ::
        t in old(status) && old(status)[t] == Queued && t in status && status[t] == Dispatched
      ensures workers == old(workers) && handlingTasks == old(handlingTasks) && exited == old(exited)
    {
      ghost var start := View();
      Stays(config, start);
      trace, items := PopItems(start, []);
      FlattenBatches(config, items);
      FlattenConcat(taskQueue, Batches(config, items));
      if items != [] { trace := PutAll(Batches(config, items), start, trace); }
    }

    /** Lines 87-99: what a failing call has dispatched all the same is not seen. */
    method PopItems(ghost start: State, ghost trace0: seq<Action>)
      returns (ghost trace: seq<Action>, items: seq<TaskId>)
      requires position == Filling && |taskQueue| <= config.poolSize && Leads(config, start, trace0, View())
      modifies this
      ensures Leads(config, start, trace, View())
      ensures position == if items == [] then Looping else Putting(Batches(config, items))
      ensures forall t | t in items ::
        t in old(status) && old(status)[t] == Queued && t in status && status[t] == Dispatched
      ensures taskQueue == old(taskQueue)
      ensures workers == old(workers) && handlingTasks == old(handlingTasks) && exited == old(exited)
    {
      ghost var s := View();
      var popped: seq<TaskId> :|
        NoDuplicates(popped) && forall t | t in popped :: t in status && status[t] == Queued by {
        assert NoDuplicates([]);
      }
      var call: Call := *;
      if call.TakesEffect() { status := SetAll(status, popped, Dispatched); }
      trace := FollowManager(start, trace0, s, Pop(popped, call));
      items := if call == Done then popped else [];
    }

    /** Lines 101-106. */
    method PutAll(batches: seq<Batch>, ghost start: State, ghost trace0: seq<Action>) returns (ghost trace: seq<Action>)
      requires batches != [] && position == Putting(batches) && Leads(config, start, trace0, View())
      modifies this
      ensures Leads(config, start, trace, View()) && position == Looping
      ensures taskQueue == old(taskQueue) + batches
      ensures workers == old(workers) && handlingTasks == old(handlingTasks) && exited == old(exited)
      ensures status == old(status)
    {
      trace := trace0;
      var i := 0;
      while i < |batches|
        invariant 0 <= i <= |batches|
        invariant position == if i < |batches| then Putting(batches[i..]) else Looping
        invariant taskQueue == old(taskQueue) + batches[..i] && Leads(config, start, trace, View())
        invariant workers == old(workers) && handlingTasks == old(handlingTasks) && exited == old(exited)
        invariant status == old(status)
      {
        ghost var s := View();
        assert batches[i..][1..] == batches[i + 1..] && batches[..i] + [batches[i]] == batches[..i + 1];
        taskQueue := taskQueue + [batches[i]];
        trace := FollowManager(start, trace, s, Put);
        i := i + 1;
      }
    }

    /** Lines 191-199: the queue is emptied, and each of its tasks is pushed back; `failed` are those not taken. */
    method GiveBack(ghost start: State, ghost trace0: seq<Action>)
      returns (ghost trace: seq<Action>, failed: set<TaskId>)
      requires position == Draining(|taskQueue|, []) && Leads(config, start, trace0, View())
      modifies this
      ensures Leads(config, start, trace, View()) && position == Killing(0, []) && taskQueue == []
      ensures QueuedBut(status, Flatten(old(taskQueue)), failed)
      ensures failed <= history.abandoned && forall t | t in failed :: t in Flatten(old(taskQueue))
      ensures workers == old(workers) && handlingTasks == old(handlingTasks) && exited == old(exited)
    {
      trace := trace0;
      var items: seq<Batch> := [];
      while taskQueue != []
        invariant position == Draining(|taskQueue|, items) && items + taskQueue == old(taskQueue)
        invariant Leads(config, start, trace, View())
        invariant workers == old(workers) && handlingTasks == old(handlingTasks) && exited == old(exited)
        decreases |taskQueue|
      {
        ghost var s := View();
        items := items + [taskQueue[0]];
        taskQueue := taskQueue[1..];
        trace := FollowManager(start, trace, s, Drain);
      }
      trace := FollowManager(start, trace, View(), Drain);
      assert items == old(taskQueue);
      trace, failed := PushAll(Flatten(items), start, trace);
    }

    method PushAll(items: seq<TaskId>, ghost start: State, ghost trace0: seq<Action>)
      returns (ghost trace: seq<Action>, failed: set<TaskId>)
      requires position == Pushing(items) && Leads(config, start, trace0, View()) && taskQueue == []
      modifies this
      ensures Leads(config, start, trace, View()) && position == Killing(0, []) && taskQueue == []
      ensures QueuedBut(status, items, failed)
      ensures failed <= history.abandoned && forall t | t in failed :: t in items
      ensures workers == old(workers) && handlingTasks == old(handlingTasks) && exited == old(exited)
    {
      trace, failed := trace0, {};
      var i := 0;
      while i < |items|
        invariant 0 <= i <= |items| && position == Pushing(items[i..]) && taskQueue == []
        invariant Leads(config, start, trace, View())
        invariant forall k | 0 <= k < i && items[k] !in failed :: items[k] in status && status[items[k]] == Queued
        invariant failed <= history.abandoned && forall t | t in failed :: t in items
        invariant workers == old(workers) && handlingTasks == old(handlingTasks) && exited == old(exited)
      {
        ghost var s := View();
        assert items[i..][1..] == items[i + 1..];
        var call := PatchTask(items[i], Queued);
        if call != Done { failed := failed + {items[i]}; }
        trace := FollowManager(start, trace, s, PushBack(call));
        i := i + 1;
      }
      trace := FollowManager(start, trace, View(), PushBack(Done));
    }

    /** Lines 201-209: every living worker is killed. */
    method KillAll(ghost start: State, ghost trace0: seq<Action>)
      returns (ghost trace: seq<Action>, killed: seq<nat>)
      requires position == Killing(0, []) && Leads(config, start, trace0, View())
      modifies this
      ensures Leads(config, start, trace, View()) && position == Reaping(killed, 0)
      ensures |workers| == |old(workers)| && forall i | 0 <= i < |workers| :: workers[i].phase.Dead?
      ensures forall i | 0 <= i < |workers| ::
        if old(workers)[i].Alive() then i in killed else workers[i] == old(workers)[i]
      ensures forall i | i in killed :: i < |workers| && old(workers)[i].Alive()
      ensures taskQueue == old(taskQueue) && handlingTasks == old(handlingTasks) && exited == old(exited)
      ensures status == old(status) && history.abandoned == old(history).abandoned
    {
      trace, killed := trace0, [];
      var i := 0;
      while i < |workers|
        invariant 0 <= i <= |workers| == |old(workers)| && position == Killing(i, killed)
        invariant Leads(config, start, trace, View())
        invariant forall k | 0 <= k < i :: workers[k].phase.Dead?
        invariant forall k | 0 <= k < i ::
          if old(workers)[k].Alive() then k in killed else workers[k] == old(workers)[k]
        invariant forall k | k in killed :: k < i && old(workers)[k].Alive()
        invariant forall k | i <= k < |workers| :: workers[k] == old(workers)[k]
        invariant taskQueue == old(taskQueue) && handlingTasks == old(handlingTasks) && exited == old(exited)
        invariant status == old(status) && history.abandoned == old(history).abandoned
      {
        trace, killed := KillIfAlive(i, killed, start, trace);
        i := i + 1;
      }
      trace := FollowManager(start, trace, View(), Kill);
    }

    /** Lines 203-207. */
    method KillIfAlive(i: nat, before: seq<nat>, ghost start: State, ghost trace0: seq<Action>)
      returns (ghost trace: seq<Action>, killed: seq<nat>)
      requires i < |workers| && position == Killing(i, before) && Leads(config, start, trace0, View())
      modifies this
      ensures Leads(config, start, trace, View()) && position == Killing(i + 1, killed)
      ensures |workers| == |old(workers)| && workers == old(workers)[i := workers[i]] && workers[i].phase.Dead?
      ensures if old(workers)[i].Alive() then killed == before + [i] else killed == before && workers == old(workers)
      ensures taskQueue == old(taskQueue) && handlingTasks == old(handlingTasks) && exited == old(exited)
      ensures status == old(status) && history.abandoned == old(history).abandoned
    {
      ghost var s := View();
      killed := before;
      if workers[i].Alive() {
        workers := workers[i := workers[i].(phase := Dead(RecordedHead(workers[i])))];
        killed := killed + [i];
      }
      trace := FollowManager(start, trace0, s, Kill);
    }

    /** Lines 186-216, up to leaving the process: what was in the queue is QUEUED again unless its push failed. */
    method Exit() returns (ghost trace: seq<Action>, failed: set<TaskId>)
      requires position == Looping
      modifies this
      ensures Leads(config, old(View()), trace, View()) && position.Exited? && exited && taskQueue == []
      ensures |workers| == |old(workers)|
      ensures forall i | 0 <= i < |workers| ::
        workers[i].phase == if old(workers)[i].Alive() then Dead(None) else old(workers)[i].phase
      ensures QueuedBut(status, Flatten(old(taskQueue)), failed)
      ensures failed <= history.abandoned && forall t | t in failed :: t in Flatten(old(taskQueue))
    {
      ghost var start := View();
      Stays(config, start);
      trace := FollowManager(start, [], start, BeginExit);
      trace, failed := GiveBack(start, trace);
      ghost var pushed := status;
      trace := EndAll(start, trace);
      StillQueued(pushed, status, Flatten(start.queue), failed);
      exited := true;
    }

    /** Lines 201-214. */
    method EndAll(ghost start: State, ghost trace0: seq<Action>) returns (ghost trace: seq<Action>)
      requires position == Killing(0, []) && Leads(config, start, trace0, View())
      modifies this
      ensures Leads(config, start, trace, View()) && position.Exited? && taskQueue == old(taskQueue)
      ensures |workers| == |old(workers)|
      ensures forall i | 0 <= i < |workers| ::
        workers[i].phase == if old(workers)[i].Alive() then Dead(None) else old(workers)[i].phase
      ensures KeepsFinished(old(status), status) && old(history).abandoned <= history.abandoned
    {
      var killed: seq<nat>;
      trace, killed := KillAll(start, trace0);
      assert forall k | 0 <= k < |killed| :: killed[k] in killed;
      assert forall i | 0 <= i < |workers| :: i in killed <==> old(workers)[i].Alive();
      trace := ReapAll(killed, start, trace);
    }

    /** Lines 211-214. */
    method ReapAll(killed: seq<nat>, ghost start: State, ghost trace0: seq<Action>) returns (ghost trace: seq<Action>)
      requires position == Reaping(killed, 0) && Leads(config, start, trace0, View())
      requires forall i | 0 <= i < |workers| :: workers[i].phase.Dead?
      requires forall k | 0 <= k < |killed| :: killed[k] < |workers|
      modifies this
      ensures Leads(config, start, trace, View()) && position == Exited(killed)
      ensures |workers| == |old(workers)|
      ensures forall i | 0 <= i < |workers| ::
        workers[i].phase == if i in killed then Dead(None) else old(workers)[i].phase
      ensures KeepsFinished(old(status), status) && old(history).abandoned <= history.abandoned
      ensures taskQueue == old(taskQueue) && handlingTasks == old(handlingTasks) && exited == old(exited)
    {
      trace := trace0;
      var i := 0;
      while i < |killed|
        invariant 0 <= i <= |killed| && position == Reaping(killed, i)
        invariant Leads(config, start, trace, View()) && |workers| == |old(workers)|
        invariant KeepsFinished(old(status), status) && old(history).abandoned <= history.abandoned
        invariant forall k | 0 <= k < |workers| :: workers[k].phase.Dead?
        invariant forall k | 0 <= k < |workers| && k in killed[..i] :: workers[k].phase == Dead(None)
        invariant forall k | 0 <= k < |workers| && k !in killed :: workers[k] == old(workers)[k]
        invariant taskQueue == old(taskQueue) && handlingTasks == old(handlingTasks) && exited == old(exited)
      {
        trace := CleanupPendingWorkerTask(killed[i], start, trace, Reaping(killed, i + 1));
        assert killed[..i + 1] == killed[..i] + [killed[i]];
        i := i + 1;
      }
      assert killed[..i] == killed;
      trace := FollowManager(start, trace, View(), Reap(Done));
    }

    /* ---------- one iteration of the worker loop, lines 240-295 ---------- */

    method Move(i: nat, phase: Phase)
      requires i < |workers|
      modifies this`workers
      ensures workers == old(workers)[i := old(workers)[i].(phase := phase)]
    {
      workers := workers[i := workers[i].(phase := phase)];
    }

    /** Lines 240-245. */
    method TakeAndRecord(i: nat) returns (ghost trace: seq<Action>, items: Batch)
      requires i < |workers| && workers[i].phase.Waiting? && taskQueue != []
      modifies this
      ensures Leads(config, old(View()), trace, View()) && items == old(taskQueue)[0] && position == old(position)
      ensures Settles(old(workers), workers, i, Recorded(items))
      ensures taskQueue == old(taskQueue)[1..] && status == old(status)
      ensures handlingTasks == old(handlingTasks)[old(workers)[i].pid := items[0]]
    {
      ghost var start := View();
      Stays(config, start);
      items := taskQueue[0];
      taskQueue := taskQueue[1..];
      Move(i, Taken(items));
      ThenOther(config, start, [], start, Get(i));
      trace := Follow(start, [], OthersApply(start, Get(i)), Get(i));
      ghost var s := View();
      handlingTasks := handlingTasks[workers[i].pid := items[0]];
      Move(i, Recorded(items));
      trace := FollowWorker(start, trace, s, i, Record(i));
    }

    /** Lines 240-249, with a call that succeeds. */
    method TakeAndStart(i: nat) returns (ghost trace: seq<Action>, items: Batch)
      requires i < |workers| && workers[i].phase.Waiting? && taskQueue != []
      modifies this
      ensures Leads(config, old(View()), trace, View()) && items == old(taskQueue)[0] && position == old(position)
      ensures workers == old(workers)[i := old(workers)[i].(timed := true, phase := Handling(items))]
      ensures taskQueue == old(taskQueue)[1..] && status == old(status)[items[0] := Running]
      ensures handlingTasks == old(handlingTasks)[old(workers)[i].pid := items[0]]
    {
      ghost var start := View();
      trace, items := TakeAndRecord(i);
      ghost var s := View();
      status := status[items[0] := Running];
      workers := workers[i := workers[i].(timed := true, phase := Handling(items))];
      trace := FollowWorker(start, trace, s, i, PatchRunning(i, Done));
    }

    /** Lines 250-265, with calls that succeed: the head gets the outcome's status unless its container gave it one. */
    method HandleAndReport(i: nat, items: Batch, outcome: Outcome, ghost start: State, ghost trace0: seq<Action>)
      returns (ghost trace: seq<Action>, result: Status, output: bool)
      requires i < |workers| && workers[i].phase == Handling(items) && items[0] in status
      requires Leads(config, start, trace0, View())
      modifies this
      ensures Leads(config, start, trace, View()) && position == old(position)
      ensures result == if outcome.Returned? then Completed else Failed
      ensures output == (outcome.Returned? && outcome.output)
      ensures status == if old(status)[items[0]] == Running then old(status)[items[0] := result] else old(status)
      ensures exists fatal :: Settles(old(workers), workers, i, AfterHead(config, items, result, output, fatal))
      ensures taskQueue == old(taskQueue) && handlingTasks == old(handlingTasks)
    {
      result := if outcome.Returned? then Completed else Failed;
      output := outcome.Returned? && outcome.output;
      var fatal := outcome.Raised? && outcome.fatal;
      ghost var s := View();
      Move(i, Handled(items, result, output, fatal));
      trace := FollowWorker(start, trace0, s, i, Handle(i, outcome));
      trace := ReportHead(i, start, trace);
      assert Settles(old(workers), workers, i, AfterHead(config, items, result, output, fatal));
    }

    /** `DockerBoefjeHandler.handle`, lines 49-117 of boefjes/boefjes/job_handler.py. The container ran to its end or
        broke, and in the latter case may have stored its own output; `look` and `patch` are the calls to the scheduler,
        and `stored` tells whether saving to Bytes returns. The handler gives the task up exactly if the container ended
        without finishing it, or broke without output. */
    method RunContainer(i: nat, items: Batch, ended: bool, saved: bool, look: Call, stored: bool, patch: Call,
                        ghost start: State, ghost trace0: seq<Action>)
      returns (ghost trace: seq<Action>, outcome: Outcome)
      requires config.boefjes && i < |workers| && workers[i].phase == Handling(items)
      requires Leads(config, start, trace0, View())
      modifies this
      ensures Leads(config, start, trace, View()) && position == old(position)
      ensures taskQueue == old(taskQueue) && handlingTasks == old(handlingTasks) && |workers| == |old(workers)|
      ensures Settles(old(workers), workers, i, workers[i].phase) && CanEnd(workers[i].phase, outcome)
      ensures var sees := look == Done && items[0] in old(status);
        var givesUp := if ended then sees && old(status)[items[0]] == Running else !saved;
        && status == (if givesUp && stored then Patch(old(status), items[0], Failed, patch) else old(status))
        && (outcome == Raised(false) <==> (ended && !sees) || (givesUp && (ended || !stored || patch != Done)))
        && (outcome == Raised(false) || outcome == Returned(true))
    {
      trace, outcome := trace0, Returned(true);
      ghost var s := View();
      if ended && (look != Done || items[0] !in status) {
        outcome := Raised(false);
      } else if ended && status[items[0]] == Running {
        Move(i, Quitting(items, SawRunning));
        trace := FollowWorker(start, trace, s, i, SeeRunning(i));
        trace, outcome := GiveUp(i, items, stored, patch, start, trace);
      } else if !ended && !saved {
        Move(i, Quitting(items, Unseen));
        trace := FollowWorker(start, trace, s, i, FindBroken(i));
        trace, outcome := GiveUp(i, items, stored, patch, start, trace);
      }
    }

    /** Lines 87-93, 106-109, 112 and 115 of boefjes/boefjes/job_handler.py: unless saving to Bytes raises, the task is
        patched to FAILED. */
    method GiveUp(i: nat, items: Batch, stored: bool, patch: Call, ghost start: State, ghost trace0: seq<Action>)
      returns (ghost trace: seq<Action>, outcome: Outcome)
      requires i < |workers| && workers[i].phase in {Quitting(items, SawRunning), Quitting(items, Unseen)}
      requires Leads(config, start, trace0, View())
      modifies this
      ensures Leads(config, start, trace, View()) && position == old(position)
      ensures taskQueue == old(taskQueue) && handlingTasks == old(handlingTasks) && |workers| == |old(workers)|
      ensures Settles(old(workers), workers, i, workers[i].phase) && CanEnd(workers[i].phase, outcome)
      ensures status == if stored then Patch(old(status), items[0], Failed, patch) else old(status)
      ensures var raises := old(workers)[i].phase.ending.SawRunning? || !stored || patch != Done;
        outcome == if raises then Raised(false) else Returned(true)
    {
      trace, outcome := trace0, Raised(false);
      if stored {
        ghost var s := View();
        status := Patch(status, items[0], Failed, patch);
        var raises := workers[i].phase.ending == SawRunning || patch != Done;
        Move(i, Quitting(items, Patched(raises)));
        trace := FollowWorker(start, trace, s, i, PatchOwn(i, patch));
        if !raises { outcome := Returned(true); }
      }
    }

    /** Lines 260-265, with calls that succeed. */
    method ReportHead(i: nat, ghost start: State, ghost trace0: seq<Action>) returns (ghost trace: seq<Action>)
      requires i < |workers| && workers[i].phase.Handled? && workers[i].phase.batch[0] in status
      requires Leads(config, start, trace0, View())
      modifies this
      ensures Leads(config, start, trace, View()) && position == old(position)
      ensures var p := old(workers)[i].phase;
        && Settles(old(workers), workers, i, AfterHead(config, p.batch, p.result, p.output, p.fatal))
        && status == if old(status)[p.batch[0]] == Running then old(status)[p.batch[0] := p.result] else old(status)
      ensures taskQueue == old(taskQueue) && handlingTasks == old(handlingTasks)
    {
      ghost var s := View();
      var p := workers[i].phase;
      if status[p.batch[0]] == Running {
        Move(i, Reporting(p.batch, p.result, p.output, p.fatal));
        trace := FollowWorker(start, trace0, s, i, Check(i, Done));
        s := View();
        status := status[p.batch[0] := p.result];
        Move(i, AfterHead(config, p.batch, p.result, p.output, p.fatal));
        trace := FollowWorker(start, trace, s, i, PatchHead(i, Done));
      } else {
        Move(i, AfterHead(config, p.batch, p.result, p.output, p.fatal));
        trace := FollowWorker(start, trace0, s, i, Check(i, Done));
      }
    }

    /** One turn of the loops of lines 274-276 and 284-285, with a call that succeeds. */
    method PatchOne(i: nat, ghost start: State, ghost trace0: seq<Action>) returns (ghost trace: seq<Action>)
      requires i < |workers| && workers[i].phase.Duplicating? && workers[i].phase.rest != []
      requires Leads(config, start, trace0, View())
      modifies this
      ensures Leads(config, start, trace, View()) && position == old(position)
      ensures var p := old(workers)[i].phase;
        && status == old(status)[p.rest[0] := p.result]
        && Settles(old(workers), workers, i,
                   if |p.rest| > 1 then Duplicating(p.rest[1..], p.result, p.fatal) else Waiting)
      ensures taskQueue == old(taskQueue) && handlingTasks == old(handlingTasks)
    {
      ghost var s := View();
      var p := workers[i].phase;
      status := status[p.rest[0] := p.result];
      Move(i, if |p.rest| > 1 then Duplicating(p.rest[1..], p.result, p.fatal) else Waiting);
      trace := FollowWorker(start, trace0, s, i, PatchDuplicate(i, Done));
    }

    method PatchDuplicates(i: nat, ghost start: State, ghost trace0: seq<Action>) returns (ghost trace: seq<Action>)
      requires i < |workers| && workers[i].phase.Duplicating? && workers[i].phase.rest != []
      requires Leads(config, start, trace0, View())
      modifies this
      ensures Leads(config, start, trace, View()) && position == old(position)
      ensures Settles(old(workers), workers, i, Waiting)
      ensures status == SetAll(old(status), old(workers)[i].phase.rest, old(workers)[i].phase.result)
      ensures taskQueue == old(taskQueue) && handlingTasks == old(handlingTasks)
    {
      trace := trace0;
      var duplicates, to, fatal := workers[i].phase.rest, workers[i].phase.result, workers[i].phase.fatal;
      var k := 0;
      assert SetAll(status, [], to) == status;
      while k < |duplicates|
        invariant 0 <= k <= |duplicates| && Leads(config, start, trace, View()) && position == old(position)
        invariant Settles(old(workers), workers, i,
          if k < |duplicates| then Duplicating(duplicates[k..], to, fatal) else Waiting)
        invariant status == SetAll(old(status), duplicates[..k], to)
        invariant taskQueue == old(taskQueue) && handlingTasks == old(handlingTasks)
      {
        assert duplicates[k..][1..] == duplicates[k + 1..] && duplicates[k..][0] == duplicates[k];
        SetAllMore(old(status), duplicates[..k], duplicates[k], to);
        assert duplicates[..k + 1] == duplicates[..k] + [duplicates[k]];
        trace := PatchOne(i, start, trace);
        k := k + 1;
      }
      assert duplicates[..k] == duplicates;
    }

    /** Lines 282-285. */
    method ShareOutput(i: nat, items: seq<TaskId>, ghost start: State, ghost trace0: seq<Action>)
      returns (ghost trace: seq<Action>)
      requires i < |workers| && workers[i].phase == Copying(items, Completed) && items != []
      requires Leads(config, start, trace0, View())
      modifies this
      ensures Leads(config, start, trace, View()) && position == old(position)
      ensures Settles(old(workers), workers, i, Waiting) && status == SetAll(old(status), items, Completed)
      ensures taskQueue == old(taskQueue) && handlingTasks == old(handlingTasks)
    {
      ghost var s := View();
      Move(i, Duplicating(items, Completed, false));
      trace := FollowWorker(start, trace0, s, i, Copy(i, Stored));
      trace := PatchDuplicates(i, start, trace);
    }

    /** Lines 267-285, with calls that succeed. */
    method SettleDuplicates(i: nat, items: Batch, result: Status, output: bool, ghost start: State,
                            ghost trace0: seq<Action>)
      returns (ghost trace: seq<Action>)
      requires i < |workers| && Leads(config, start, trace0, View()) && (output ==> result == Completed)
      requires exists fatal :: workers[i].phase == AfterHead(config, items, result, output, fatal)
      modifies this
      ensures Leads(config, start, trace, View()) && position == old(position)
      ensures Settles(old(workers), workers, i, Waiting)
      ensures status ==
        if config.boefjes then SetAll(old(status), items[1..], if output then Completed else Queued) else old(status)
      ensures taskQueue == old(taskQueue) && handlingTasks == old(handlingTasks)
    {
      trace := trace0;
      if !config.boefjes || |items| == 1 {
        assert |items| == 1 ==> items[1..] == [];
        assert SetAll(status, [], Completed) == status == SetAll(status, [], Queued);
      } else if output {
        trace := ShareOutput(i, items[1..], start, trace);
      } else {
        trace := PatchDuplicates(i, start, trace);
      }
    }

    /** One whole iteration without a failing call. The duplicates of a boefje share the head's completion if there is
        output, and are queued again otherwise; those of a normalizer are left alone. */
    method HandleNext(i: nat, outcome: Outcome) returns (ghost trace: seq<Action>)
      requires i < |workers| && workers[i].phase.Waiting? && taskQueue != []
      modifies this
      ensures Leads(config, old(View()), trace, View()) && position == old(position)
      ensures taskQueue == old(taskQueue)[1..]
      ensures workers == old(workers)[i := old(workers)[i].(timed := true, phase := Waiting)]
      ensures var batch := old(taskQueue)[0];
        var finished := old(status)[batch[0] := if outcome.Returned? then Completed else Failed];
        status == if config.boefjes
                  then SetAll(finished, batch[1..], if outcome.Returned? && outcome.output then Completed else Queued)
                  else finished
    {
      ghost var start := View();
      var items;
      trace, items := TakeAndStart(i);
      var result, output;
      trace, result, output := HandleAndReport(i, items, outcome, start, trace);
      assert status == old(status)[items[0] := result];
      assert workers[..i] == old(workers)[..i] && workers[i + 1..] == old(workers)[i + 1..];
      trace := SettleDuplicates(i, items, result, output, start, trace);
    }

    /* ---------- the same iteration when calls may fail ---------- */

    /** Lines 239-295 whatever the calls answer: the effect is that of `Iteration`. The worker waits again or its
        process has ended, and only its batch can have got other statuses. */
    method HandleNextAnyway(i: nat, outcome: Outcome, answers: Answers) returns (ghost trace: seq<Action>)
      requires i < |workers| && workers[i].phase.Waiting? && taskQueue != []
      modifies this
      ensures Leads(config, old(View()), trace, View()) && position == old(position)
      ensures taskQueue == old(taskQueue)[1..]
      ensures Ends(old(workers), workers, i)
      ensures Effect(status, workers[i].phase.Dead?)
           == Iteration(config, old(status), old(workers)[i].timed, old(taskQueue)[0], outcome, answers)
      ensures ChangesOnly(old(status), status, old(taskQueue)[0])
      ensures !config.boefjes ==> ChangesOnly(old(status), status, [old(taskQueue)[0][0]])
      ensures outcome != Returned(true) ==> CompletesOnly(old(status), status, [old(taskQueue)[0][0]])
    {
      ghost var start := View();
      var items;
      trace, items := TakeAnyway(i, answers.running);
      if workers[i].phase.Dead? { return; }
      if workers[i].phase.Handling? {
        ghost var s := View();
        Move(i, if outcome.Returned? then Handled(items, Completed, outcome.output, false)
                else Handled(items, Failed, false, outcome.fatal));
        trace := FollowWorker(start, trace, s, i, Handle(i, outcome));
      }
      trace := Finally(i, if answers.running == Done then outcome else Raised(false), answers, start, trace);
    }

    /** Lines 240-249: when the patch to RUNNING fails, a process in its first iteration ends. */
    method TakeAnyway(i: nat, call: Call) returns (ghost trace: seq<Action>, items: Batch)
      requires i < |workers| && workers[i].phase.Waiting? && taskQueue != []
      modifies this
      ensures Leads(config, old(View()), trace, View()) && position == old(position)
      ensures items == old(taskQueue)[0] && taskQueue == old(taskQueue)[1..]
      ensures handlingTasks == old(handlingTasks)[old(workers)[i].pid := items[0]]
      ensures status == Patch(old(status), items[0], Running, call)
      ensures exists timed, phase :: workers == old(workers)[i := old(workers)[i].(timed := timed, phase := phase)]
      ensures workers[i].phase ==
        if call == Done then Handling(items)
        else if old(workers)[i].timed then Handled(items, Failed, false, false)
        else Dead(Some(items[0]))
    {
      ghost var start := View();
      trace, items := TakeAndRecord(i);
      ghost var s := View();
      status := Patch(status, items[0], Running, call);
      var timed := call == Done || workers[i].timed;
      var phase :=
        if call == Done then Handling(items)
        else if timed then Handled(items, Failed, false, false)
        else Dead(Some(items[0]));
      workers := workers[i := workers[i].(timed := timed, phase := phase)];
      trace := FollowWorker(start, trace, s, i, PatchRunning(i, call));
      assert workers == old(workers)[i := old(workers)[i].(timed := timed, phase := phase)];
    }

    /** The finally block, lines 258-293, when the handler has ended like this. */
    method Finally(i: nat, outcome: Outcome, answers: Answers, ghost start: State, ghost trace0: seq<Action>)
      returns (ghost trace: seq<Action>)
      requires i < |workers| && workers[i].phase.Handled? && Leads(config, start, trace0, View())
      requires EndedWith(workers[i].phase, outcome)
      modifies this
      ensures Leads(config, start, trace, View()) && position == old(position) && taskQueue == old(taskQueue)
      ensures Ends(old(workers), workers, i)
      ensures var batch := old(workers)[i].phase.batch;
        && Effect(status, workers[i].phase.Dead?) == Finishing(config, old(status), batch, outcome, answers)
        && ChangesOnly(old(status), status, batch)
        && (!config.boefjes ==> ChangesOnly(old(status), status, [batch[0]]))
        && (outcome != Returned(true) ==> CompletesOnly(old(status), status, [batch[0]]))
    {
      ghost var p := workers[i].phase;
      trace := ReportAnyway(i, answers.look, answers.report, start, trace0);
      trace := FinishDuplicates(i, answers.copied, answers.duplicate, start, trace);
    }

    /** Lines 260-265. */
    method ReportAnyway(i: nat, look: Call, report: Call, ghost start: State, ghost trace0: seq<Action>)
      returns (ghost trace: seq<Action>)
      requires i < |workers| && workers[i].phase.Handled? && Leads(config, start, trace0, View())
      modifies this
      ensures Leads(config, start, trace, View()) && position == old(position) && taskQueue == old(taskQueue)
      ensures var p := old(workers)[i].phase;
        var seen := look == Done && p.batch[0] in old(status);
        var reports := seen && old(status)[p.batch[0]] == Running;
        && status == (if reports then Patch(old(status), p.batch[0], p.result, report) else old(status))
        && Settles(old(workers), workers, i,
             if seen && (reports ==> report == Done) then AfterHead(config, p.batch, p.result, p.output, p.fatal)
             else AfterError(p.fatal))
    {
      ghost var s := View();
      var p := workers[i].phase;
      if look != Done || p.batch[0] !in status {
        Move(i, AfterError(p.fatal));
        trace := FollowWorker(start, trace0, s, i, Check(i, look));
      } else if status[p.batch[0]] == Running {
        Move(i, Reporting(p.batch, p.result, p.output, p.fatal));
        trace := FollowWorker(start, trace0, s, i, Check(i, Done));
        trace := PatchHeadAnyway(i, report, start, trace);
      } else {
        Move(i, AfterHead(config, p.batch, p.result, p.output, p.fatal));
        trace := FollowWorker(start, trace0, s, i, Check(i, Done));
      }
    }

    /** Line 262. */
    method PatchHeadAnyway(i: nat, call: Call, ghost start: State, ghost trace0: seq<Action>)
      returns (ghost trace: seq<Action>)
      requires i < |workers| && workers[i].phase.Reporting? && Leads(config, start, trace0, View())
      modifies this
      ensures Leads(config, start, trace, View()) && position == old(position) && taskQueue == old(taskQueue)
      ensures var p := old(workers)[i].phase;
        && status == Patch(old(status), p.batch[0], p.result, call)
        && Settles(old(workers), workers, i,
             if call == Done then AfterHead(config, p.batch, p.result, p.output, p.fatal) else AfterError(p.fatal))
    {
      ghost var s := View();
      var p := workers[i].phase;
      status := Patch(status, p.batch[0], p.result, call);
      Move(i, if call == Done then AfterHead(config, p.batch, p.result, p.output, p.fatal) else AfterError(p.fatal));
      trace := FollowWorker(start, trace0, s, i, PatchHead(i, call));
    }

    /** Lines 271-293: an error ends the loop over the duplicates. An HTTPError of the copy is logged, any other ends
        the process. */
    method FinishDuplicates(i: nat, copied: Copied, answer: TaskId -> Call, ghost start: State,
                            ghost trace0: seq<Action>)
      returns (ghost trace: seq<Action>)
      requires i < |workers| && Leads(config, start, trace0, View())
      requires var p := workers[i].phase;
        p.Waiting? || p.Dead? || ((p.Copying? || p.Duplicating?) && p.rest != [])
      modifies this
      ensures Leads(config, start, trace, View()) && position == old(position) && taskQueue == old(taskQueue)
      ensures Ends(old(workers), workers, i)
      ensures var p := old(workers)[i].phase;
        && (workers[i].phase.Dead? <==>
              || p.Dead? || (p.Copying? && copied == OtherError)
              || (p.Duplicating? && p.fatal && Fails(p.rest, answer)))
        && status == (if p.Duplicating? || (p.Copying? && copied == Stored)
                      then PatchUntil(old(status), p.rest, p.result, answer) else old(status))
        && ChangesOnly(old(status), status, if p.Copying? || p.Duplicating? then p.rest else [])
        && (p.Duplicating? && p.result == Queued ==> CompletesOnly(old(status), status, []))
    {
      trace := trace0;
      if workers[i].phase.Copying? {
        ghost var s := View();
        var p := workers[i].phase;
        Move(i, match copied
                case Stored => Duplicating(p.rest, p.result, false)
                case HttpError => Waiting
                case OtherError => Dead(None));
        trace := FollowWorker(start, trace, s, i, Copy(i, copied));
      }
      if workers[i].phase.Duplicating? { trace := PatchAll(i, answer, start, trace); }
    }

    /** Lines 274-276 and 284-285. */
    method PatchAll(i: nat, answer: TaskId -> Call, ghost start: State, ghost trace0: seq<Action>)
      returns (ghost trace: seq<Action>)
      requires i < |workers| && workers[i].phase.Duplicating? && workers[i].phase.rest != []
      requires Leads(config, start, trace0, View())
      modifies this
      ensures Leads(config, start, trace, View()) && position == old(position) && taskQueue == old(taskQueue)
      ensures Ends(old(workers), workers, i)
      ensures var p := old(workers)[i].phase;
        && (workers[i].phase.Dead? <==> p.fatal && Fails(p.rest, answer))
        && status == PatchUntil(old(status), p.rest, p.result, answer)
        && ChangesOnly(old(status), status, p.rest)
        && (p.result == Queued ==> CompletesOnly(old(status), status, []))
    {
      trace := trace0;
      ghost var first := workers[i].phase;
      while workers[i].phase.Duplicating?
        invariant Leads(config, start, trace, View()) && position == old(position) && taskQueue == old(taskQueue)
        invariant |workers| == |old(workers)| && Settles(old(workers), workers, i, workers[i].phase)
        invariant Remains(workers[i].phase, first, answer)
        invariant PatchUntil(old(status), first.rest, first.result, answer)
               == if workers[i].phase.Duplicating? then PatchUntil(status, workers[i].phase.rest, first.result, answer)
                  else status
        invariant ChangesOnly(old(status), status, first.rest)
        invariant first.result == Queued ==> CompletesOnly(old(status), status, [])
        decreases if workers[i].phase.Duplicating? then |workers[i].phase.rest| else 0
      {
        ghost var rest := workers[i].phase.rest;
        FailsFirst(rest, answer);
        assert |rest| == 1 ==> rest[1..] == [];
        trace := PatchAnyway(i, answer(workers[i].phase.rest[0]), start, trace);
      }
    }

    /** One turn of these loops. */
    method PatchAnyway(i: nat, call: Call, ghost start: State, ghost trace0: seq<Action>)
      returns (ghost trace: seq<Action>)
      requires i < |workers| && workers[i].phase.Duplicating? && workers[i].phase.rest != []
      requires Leads(config, start, trace0, View())
      modifies this
      ensures Leads(config, start, trace, View()) && position == old(position) && taskQueue == old(taskQueue)
      ensures |workers| == |old(workers)| && Settles(old(workers), workers, i, workers[i].phase)
      ensures var p := old(workers)[i].phase;
        && status == Patch(old(status), p.rest[0], p.result, call)
        && workers[i].phase ==
             if call != Done then AfterError(p.fatal)
             else if |p.rest| > 1 then Duplicating(p.rest[1..], p.result, p.fatal) else Waiting
    {
      ghost var s := View();
      var p := workers[i].phase;
      status := Patch(status, p.rest[0], p.result, call);
      Move(i, if call != Done then AfterError(p.fatal)
              else if |p.rest| > 1 then Duplicating(p.rest[1..], p.result, p.fatal) else Waiting);
      trace := FollowWorker(start, trace0, s, i, PatchDuplicate(i, call));
    }
  }

  predicate Renewed(before: Worker, after: Worker) {
    if before.Alive() then after == before else after.phase == Waiting && !after.timed
  }

  /** The first `i` workers have been looked at. */
  ghost predicate RenewedUpTo(before: seq<Worker>, after: seq<Worker>, i: nat) {
    && i <= |after| == |before| && (forall k | 0 <= k < i :: Renewed(before[k], after[k]))
    && forall k | i <= k < |after| :: after[k] == before[k]
  }

  lemma RenewedNext(before: seq<Worker>, middle: seq<Worker>, after: seq<Worker>, i: nat)
    requires RenewedUpTo(before, middle, i) && i < |middle| == |after|
    requires after == middle[i := after[i]] && Renewed(middle[i], after[i])
    ensures RenewedUpTo(before, after, i + 1)
  {
  }

  /** The phase after a handler that ended like this. */
  predicate EndedWith(p: Phase, outcome: Outcome)
    requires p.Handled?
  {
    && p.result == (if outcome.Returned? then Completed else Failed)
    && p.output == (outcome == Returned(true)) && p.fatal == (outcome == Raised(true))
  }

  lemma FailsFirst(tasks: seq<TaskId>, answer: TaskId -> Call)
    requires tasks != []
    ensures Fails(tasks, answer) <==> answer(tasks[0]) != Done || Fails(tasks[1..], answer)
  {
    assert tasks == [tasks[0]] + tasks[1..];
  }

  /** From which positions the main process cleans up after worker `i`, and where it goes on. */
  ghost predicate CleansUp(position: Manager, i: nat, next: Manager) {
    || (position == Replacing(i) && next == Starting(i))
    || (position.Reaping? && position.index < |position.killed| && position.killed[position.index] == i
        && next == Reaping(position.killed, position.index + 1))
  }

  lemma ThenCleaned(c: Config, start: State, trace: seq<Action>, s: State, i: nat, call: Call, next: Manager)
    returns (a: Action)
    requires Leads(c, start, trace, s) && CleansUp(s.manager, i, next) && i < |s.workers| && s.workers[i].phase.Dead?
    ensures Leads(c, start, trace + [a], CleanUp(s, i, call, next))
  {
    if s.manager.Replacing? {
      a := Examine(call);
      ThenManager(c, start, trace, s, a);
    } else {
      a := Reap(call);
      ThenManager(c, start, trace, s, a);
    }
  }

  /** What the loop over the duplicates makes of its first phase. */
  ghost predicate Remains(phase: Phase, first: Phase, answer: TaskId -> Call)
    requires first.Duplicating?
  {
    match phase
    case Waiting => !(first.fatal && Fails(first.rest, answer))
    case Dead(_) => first.fatal && Fails(first.rest, answer)
    case Duplicating(rest, result, fatal) =>
      && rest != [] && result == first.result && fatal == first.fatal
      && (Fails(first.rest, answer) <==> Fails(rest, answer))
      && forall t | t in rest :: t in first.rest
    case _ => false
  }

  /** Worker `i` alone has changed; it waits, or its process has ended. */
  predicate Ends(before: seq<Worker>, after: seq<Worker>, i: nat) {
    && i < |before| == |after| && after == before[i := after[i]] && after[i].pid == before[i].pid
    && (after[i].phase.Waiting? || after[i].phase.Dead?)
  }

  /** All of these tasks are QUEUED, but for the excepted ones. */
  ghost predicate QueuedBut(status: map<TaskId, Status>, tasks: seq<TaskId>, except: set<TaskId>) {
    forall t | t in tasks && t !in except :: t in status && status[t] == Queued
  }

  lemma StillQueued(before: map<TaskId, Status>, after: map<TaskId, Status>, tasks: seq<TaskId>, except: set<TaskId>)
    requires QueuedBut(before, tasks, except) && KeepsFinished(before, after)
    ensures QueuedBut(after, tasks, except)
  {
  }

  /** Only unfinished tasks have another status. */
  ghost predicate KeepsFinished(before: map<TaskId, Status>, after: map<TaskId, Status>) {
    forall t | t in before && !Unfinished(before[t]) :: t in after && after[t] == before[t]
  }

  /** Only the given tasks have another status. */
  ghost predicate ChangesOnly(before: map<TaskId, Status>, after: map<TaskId, Status>, tasks: seq<TaskId>) {
    && before.Keys <= after.Keys
    && forall t | t in after && t !in tasks :: t in before && after[t] == before[t]
  }

  /** No other task has become COMPLETED. */
  ghost predicate CompletesOnly(before: map<TaskId, Status>, after: map<TaskId, Status>, tasks: seq<TaskId>) {
    forall t | t in after && after[t] == Completed && t !in tasks :: t in before && before[t] == Completed
  }

  /** Only worker `i` has changed, and only its phase. */
  predicate Settles(before: seq<Worker>, after: seq<Worker>, i: nat, phase: Phase) {
    i < |before| && after == before[i := before[i].(phase := phase)]
  }

  /** The queue has got a batch for each of the tasks alone, in their order. */
  ghost predicate EachAlone(before: seq<Batch>, after: seq<Batch>, tasks: seq<TaskId>) {
    && |after| == |before| + |tasks| && after[..|before|] == before
    && forall k | 0 <= k < |tasks| :: after[|before| + k] == [tasks[k]]
  }

  lemma BatchesMean(c: Config, tasks: seq<TaskId>)
    ensures tasks == [] ==> Batches(c, tasks) == []
    ensures tasks != [] && c.deduplicate ==> Batches(c, tasks) == [tasks]
    ensures !c.deduplicate ==> |Batches(c, tasks)| == |tasks|
    ensures !c.deduplicate ==> forall k | 0 <= k < |tasks| :: Batches(c, tasks)[k] == [tasks[k]]
  {
    SingletonsAre(tasks);
  }

  lemma {:induction false} SingletonsAre(tasks: seq<TaskId>)
    ensures |Singletons(tasks)| == |tasks| && forall k | 0 <= k < |tasks| :: Singletons(tasks)[k] == [tasks[k]]
  {
    if tasks == [] {
    } else {
      SingletonsAre(tasks[1..]);
      assert forall k | 1 <= k < |tasks| :: Singletons(tasks)[k] == Singletons(tasks[1..])[k - 1];
    }
  }

  lemma SetAllMore(status: map<TaskId, Status>, ts: seq<TaskId>, t: TaskId, to: Status)
    ensures SetAll(status, ts + [t], to) == SetAll(status, ts, to)[t := to]
  {
  }
}
