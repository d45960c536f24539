/** The actions of the main process keep the invariant of the worker protocol. */
module WorkerMainSteps {
  import opened WorkerProtocol
  import opened WorkerInvariant
  import opened WorkerSteps
  import opened WorkerCalls

  /* ---------- cleaning up ---------- */

  /** Only the position of the main process differs, and it holds nothing before and after. */
  lemma Repositioned(s: State, s': State)
    requires Core(s) && s' == s.(manager := s'.manager)
    requires ManagerHand(s'.manager) == ManagerHand(s.manager)
    ensures Core(s') && Held(s') == Held(s)
  {
    assert Held(s') == Held(s);
    AccountsEvent(s, s');
    RecordsMoved(s, s');
    WorkersSame(s, s');
  }

  lemma WorkersSame(s: State, s': State)
    requires WorkersOk(s) && s'.workers == s.workers && s'.status == s.status
    requires s'.handling == s.handling && s'.history == s.history
    ensures WorkersOk(s')
  {
    forall j | 0 <= j < |s.workers| ensures PhaseOk(s', s'.workers[j]) && RecordOk(s', s'.workers[j]) {
      PhaseFrame(s, s', s.workers[j]);
      assert RecordOk(s, s.workers[j]);
    }
  }

  /** What a finished cleanup leaves. */
  ghost predicate CleanedUp(s: State, s': State, i: nat) {
    && i < |s.workers| && s' == Abandon(MoveTo(s, i, Dead(None)), s'.history.abandoned).(manager := s'.manager)
    && s.history.abandoned <= s'.history.abandoned
    && ManagerHand(s'.manager) == ManagerHand(s.manager)
    && (s.workers[i].phase.Dead? && (s.workers[i].phase.record.Some? ==>
          var h := s.workers[i].phase.record.value;
          HasStatus(s, h, {Dispatched, Running, Completed, Failed})
          && (h in s'.history.abandoned || Terminal(s.status[h]))))
  }

  lemma CleanedUpMoves(s: State, s': State, i: nat)
    requires CleanedUp(s, s', i)
    ensures LocalMove(s, s', i) && StatusInHand(s, s', i)
  {
    assert Hand(s'.workers[i]) == [];
    var w := s.workers[i];
    assert Hand(w) == if w.phase.record.Some? then [w.phase.record.value] else [];
    assert multiset(Hand(s'.workers[i])) == multiset{};
  }

  lemma CleanUpMoves(s: State, i: nat, call: Call, next: Manager)
    requires i < |s.workers| && PhaseOk(s, s.workers[i]) && RecordOk(s, s.workers[i]) && s.workers[i].phase.Dead?
    requires ManagerHand(s.manager) == [] && ManagerHand(next) == []
    requires !CleanUp(s, i, call, next).manager.Failing?
    ensures CleanedUp(s, CleanUp(s, i, call, next), i)
    ensures CleanUp(s, i, call, next).workers[i].phase == Dead(None)
    ensures CleanUp(s, i, call, next).manager == next
  {
    var s' := CleanUp(s, i, call, next);
    var p := s.workers[i].phase;
    assert s' == Abandon(MoveTo(s, i, Dead(None)), s'.history.abandoned).(manager := next);
    if p.record.Some? { CleanUpRecord(s, i, call, next, p.record.value); }
  }

  lemma CleanUpRecord(s: State, i: nat, call: Call, next: Manager, h: TaskId)
    requires i < |s.workers| && PhaseOk(s, s.workers[i]) && RecordOk(s, s.workers[i])
    requires s.workers[i].phase == Dead(Some(h)) && !CleanUp(s, i, call, next).manager.Failing?
    ensures HasStatus(s, h, {Dispatched, Running, Completed, Failed})
    ensures h in CleanUp(s, i, call, next).history.abandoned || Terminal(s.status[h])
  {
    var w := s.workers[i];
    assert Hand(w) == [h] && w.pid in s.handling && s.handling[w.pid] == h;
  }

  lemma CleanUpFinds(c: Config, s: State, i: nat, call: Call, next: Manager)
    requires ProcessInv(c, s) && i < |s.workers| && s.workers[i].phase.Dead? && !next.Failing?
    requires CleanUp(s, i, call, next).manager.Failing?
    requires ManagerHand(s.manager) == [] && (next == Starting(i) || ReapedNext(s, i, next))
    ensures ProcessInv(c, CleanUp(s, i, call, next))
  {
    var s' := CleanUp(s, i, call, next);
    assert s' == s.(manager := Failing(i, s.handling[s.workers[i].pid], next));
    Repositioned(s, s');
    FoundOk(s, s', i);
    if next.Reaping? { ReapedStays(s, s', i, next); }
  }

  lemma ReapedStays(s: State, s': State, i: nat, next: Manager)
    requires s' == s.(manager := s'.manager) && ReapedNext(s, i, next)
    ensures ReapedNext(s', i, next)
  {
  }

  /** The record of a dead worker is its own head or names a spent task. */
  lemma FoundOk(s: State, s': State, i: nat)
    requires Core(s) && i < |s.workers| && s.workers[i].phase.Dead? && s.workers[i].pid in s.handling
    requires s' == s.(manager := s'.manager) && Held(s') == Held(s)
    requires s.handling[s.workers[i].pid] in s.status && Unfinished(s.status[s.handling[s.workers[i].pid]])
    ensures FailingOk(s', i, s.handling[s.workers[i].pid])
  {
    var w := s.workers[i];
    assert PhaseOk(s, w) && RecordOk(s, w);
    if w.phase.record.None? {
      assert Current(s, w.pid) || Spent(s, s.handling[w.pid]);
    }
  }

  lemma ExamineStep(c: Config, s: State, call: Call)
    requires ProcessInv(c, s) && s.manager.Replacing?
    ensures ProcessInv(c, Examining(s, call))
  {
    var i := s.manager.index;
    var s' := Examining(s, call);
    if i >= |s.workers| || s.workers[i].Alive() {
      Repositioned(s, s');
    } else if s'.manager.Failing? {
      CleanUpFinds(c, s, i, call, Starting(i));
    } else {
      WorkerFacts(c, s, i);
      CleanUpMoves(s, i, call, Starting(i));
      CleanedUpMoves(s, s', i);
      WorkerMoves(s, s', i);
    }
  }

  lemma ReapStep(c: Config, s: State, call: Call)
    requires ProcessInv(c, s) && CanReap(s)
    ensures ProcessInv(c, ReapingNext(s, call))
  {
    var m := s.manager;
    if m.index >= |m.killed| {
      Repositioned(s, ReapingNext(s, call));
    } else {
      ReapOne(c, s, m.killed[m.index], call, Reaping(m.killed, m.index + 1));
    }
  }

  /** The main process is about to clean up after the killed worker `i`. */
  ghost predicate Reaps(s: State, i: nat) {
    && s.manager.Reaping? && s.manager.index < |s.manager.killed| && i == s.manager.killed[s.manager.index]
    && i < |s.workers| && s.workers[i].phase.Dead?
  }

  lemma ReapOne(c: Config, s: State, i: nat, call: Call, next: Manager)
    requires ProcessInv(c, s) && Reaps(s, i) && next == Reaping(s.manager.killed, s.manager.index + 1)
    ensures ProcessInv(c, CleanUp(s, i, call, next))
  {
    if CleanUp(s, i, call, next).manager.Failing? {
      CleanUpFinds(c, s, i, call, next);
    } else {
      ReapClean(c, s, i, call, next);
    }
  }

  lemma ReapClean(c: Config, s: State, i: nat, call: Call, next: Manager)
    requires ProcessInv(c, s) && Reaps(s, i) && next == Reaping(s.manager.killed, s.manager.index + 1)
    requires !CleanUp(s, i, call, next).manager.Failing?
    ensures ProcessInv(c, CleanUp(s, i, call, next))
  {
    WorkerFacts(c, s, i);
    CleanUpMoves(s, i, call, next);
    ReapedOne(c, s, CleanUp(s, i, call, next), i);
  }

  lemma ReapedOne(c: Config, s: State, s': State, i: nat)
    requires ProcessInv(c, s) && Reaps(s, i) && CleanedUp(s, s', i) && s'.workers[i].phase == Dead(None)
    requires s'.manager == Reaping(s.manager.killed, s.manager.index + 1)
    ensures ProcessInv(c, s')
  {
    CleanedUpMoves(s, s', i);
    WorkerMoves(s, s', i);
    Reaped(s, s', s.manager.killed, s.manager.index);
  }

  /** One more killed worker has been cleaned up. */
  lemma Reaped(s: State, s': State, killed: seq<nat>, j: nat)
    requires ReapingOk(s, killed, j) && j < |killed| && s'.queue == s.queue
    requires killed[j] < |s.workers|
    requires |s'.workers| == |s.workers| && s'.workers == s.workers[killed[j] := s'.workers[killed[j]]]
    requires s'.workers[killed[j]].phase == Dead(None)
    ensures ReapingOk(s', killed, j + 1)
  {
  }

  lemma PatchFailedMoves(s: State, call: Call)
    requires s.manager.Failing? && FailingOk(s, s.manager.index, s.manager.task) && Facts(s, s.manager.index)
    requires ManagerHand(s.manager.next) == []
    ensures Moves(s, FailingTask(s, call), s.manager.index)
  {
    var i := s.manager.index;
    PatchFailedStatus(s, call);
    PatchFailedLocal(s, call);
  }

  lemma PatchFailedStatus(s: State, call: Call)
    requires s.manager.Failing? && FailingOk(s, s.manager.index, s.manager.task)
    ensures StatusMove(s, FailingTask(s, call), s.manager.index)
  {
    var i, t := s.manager.index, s.manager.task;
    assert FailingTask(s, call).status == Patch(s.status, t, Failed, call);
    if s.workers[i].phase == Dead(Some(t)) { assert t in Hand(s.workers[i]); } else { assert t in s.handling.Values; }
  }

  lemma PatchFailedLocal(s: State, call: Call)
    requires s.manager.Failing? && FailingOk(s, s.manager.index, s.manager.task) && Facts(s, s.manager.index)
    requires ManagerHand(s.manager.next) == []
    ensures LocalMove(s, FailingTask(s, call), s.manager.index)
  {
    var i, t := s.manager.index, s.manager.task;
    var s' := FailingTask(s, call);
    assert Hand(s.workers[i]) == if s.workers[i].phase.record.Some? then [t] else [];
    assert Hand(s'.workers[i]) == [] && RecordedHead(s'.workers[i]) == None;
    assert multiset(Hand(s'.workers[i])) == multiset{};
  }

  lemma FailedNext(s: State, call: Call)
    requires ManagerOk(s) && s.manager.Failing?
    ensures ManagerOk(FailingTask(s, call))
  {
    var m := s.manager;
    if m.next.Reaping? { Reaped(s, FailingTask(s, call), m.next.killed, m.next.index - 1); }
  }

  lemma PatchFailedStep(c: Config, s: State, call: Call)
    requires ProcessInv(c, s) && s.manager.Failing?
    ensures ProcessInv(c, FailingTask(s, call))
  {
    WorkerFacts(c, s, s.manager.index);
    PatchFailedMoves(s, call);
    WorkerMoves(s, FailingTask(s, call), s.manager.index);
    FailedNext(s, call);
  }

  /* ---------- replacing ---------- */

  lemma StartHeld(s: State, s': State, i: nat)
    requires i < |s.workers| == |s'.workers|
    requires s.workers[i].phase == Dead(None) && s'.workers[i].phase == Waiting
    requires s'.workers == s.workers[i := s'.workers[i]] && s'.queue == s.queue
    requires ManagerHand(s'.manager) == ManagerHand(s.manager)
    ensures Held(s') == Held(s)
  {
    assert Hand(s.workers[i]) == [] && Hand(s'.workers[i]) == [];
    HandsUpdate(s.workers, i, s'.workers[i]);
  }

  lemma StartRecords(s: State, s': State, i: nat)
    requires RecordsOk(s) && Held(s') == Held(s) && i < |s.workers| && s.workers[i].phase == Dead(None)
    requires |s'.workers| == |s.workers| && s'.workers == s.workers[i := s'.workers[i]]
    requires s'.handling == s.handling && s'.history == s.history && s'.status == s.status
    ensures RecordsOk(s')
  {
    forall p | p in s.handling ensures Current(s', p) || Spent(s', s.handling[p]) {
      if Current(s, p) {
        var j :| 0 <= j < |s.workers| && s.workers[j].pid == p && RecordedHead(s.workers[j]) == Some(s.handling[p]);
        assert s'.workers[j] == s.workers[j];
      } else {
        assert Spent(s, s.handling[p]);
      }
    }
  }

  lemma StartWorkers(s: State, s': State, i: nat)
    requires WorkersOk(s) && i < |s.workers| == |s'.workers| && s'.workers[i].phase == Waiting
    requires s'.workers == s.workers[i := s'.workers[i]]
    requires s'.handling == s.handling && s'.history == s.history && s'.status == s.status
    ensures WorkersOk(s')
  {
    forall j | 0 <= j < |s.workers| ensures PhaseOk(s', s'.workers[j]) && RecordOk(s', s'.workers[j]) {
      PhaseFrame(s, s', s.workers[j]);
      assert RecordOk(s, s.workers[j]);
    }
  }

  lemma StartStep(c: Config, s: State, pid: Pid)
    requires ProcessInv(c, s) && CanStart(s, pid)
    ensures ProcessInv(c, Started(s, pid))
  {
    var i := s.manager.index;
    var s' := Started(s, pid);
    StartHeld(s, s', i);
    AccountsEvent(s, s');
    StartRecords(s, s', i);
    StartWorkers(s, s', i);
  }

  /* ---------- filling the queue ---------- */

  lemma PutStep(c: Config, s: State)
    requires ProcessInv(c, s) && s.manager.Putting? && s.manager.batches != []
    ensures ProcessInv(c, PuttingNext(s))
  {
    var s' := PuttingNext(s);
    var b := s.manager.batches[0];
    FlattenConcat(s.queue, [b]);
    FlattenOne(b);
    FirstBatch(s.manager.batches);
    assert ManagerHand(s'.manager) == Flatten(s.manager.batches[1..]);
    Passed(s, s');
  }

  /** Tasks pass between the queue and the main process; the workers and the statuses are untouched. */
  lemma Passed(s: State, s': State)
    requires Core(s) && s' == s.(queue := s'.queue, manager := s'.manager)
    requires multiset(Flatten(s'.queue)) + multiset(ManagerHand(s'.manager))
          == multiset(Flatten(s.queue)) + multiset(ManagerHand(s.manager))
    ensures Core(s')
  {
    var hands := Hands(s.workers);
    assert Held(s') == multiset(Flatten(s'.queue)) + multiset(ManagerHand(s'.manager)) + hands;
    assert Held(s) == multiset(Flatten(s.queue)) + multiset(ManagerHand(s.manager)) + hands;
    AccountsEvent(s, s');
    RecordsMoved(s, s');
    WorkersSame(s, s');
    forall t | t in Flatten(s'.queue) || t in ManagerHand(s'.manager) ensures HasStatus(s', t, {Dispatched}) {
      assert t in multiset(Flatten(s'.queue)) + multiset(ManagerHand(s'.manager));
      assert t in multiset(Flatten(s.queue)) || t in multiset(ManagerHand(s.manager));
      assert t in Flatten(s.queue) || t in ManagerHand(s.manager);
    }
  }

  lemma DrainStep(c: Config, s: State)
    requires ProcessInv(c, s) && CanDrain(s)
    ensures ProcessInv(c, DrainingNext(s))
  {
    var s' := DrainingNext(s);
    var m := s.manager;
    if m.left > 0 {
      FlattenConcat(m.drained, [s.queue[0]]);
      FlattenOne(s.queue[0]);
      FirstBatch(s.queue);
    }
    Passed(s, s');
  }

  /* ---------- popping and pushing back ---------- */

  lemma HandStatus(s: State, w: Worker, t: TaskId)
    requires PhaseOk(s, w) && t in Hand(w)
    ensures HasStatus(s, t, {Dispatched, Running, Completed, Failed})
  {
    if w.phase.Handling? || w.phase.Quitting? || w.phase.Handled? || w.phase.Reporting? {
      var b := w.phase.batch;
      assert b == [b[0]] + b[1..];
      assert t == b[0] || t in b[1..];
    }
  }

  /** A held task is never queued in the scheduler, so it cannot be popped again. */
  lemma HeldStatus(s: State, t: TaskId)
    requires Core(s) && t in Held(s)
    ensures HasStatus(s, t, {Dispatched, Running, Completed, Failed})
  {
    if t in Hands(s.workers) {
      HandsMember(s.workers, t);
      var i :| 0 <= i < |s.workers| && t in Hand(s.workers[i]);
      HandStatus(s, s.workers[i], t);
    } else {
      assert t in Flatten(s.queue) || t in ManagerHand(s.manager);
    }
  }

  /** The scheduler changes statuses of tasks in `x` that no process and no record depends on. */
  ghost predicate Outside(s: State, s': State, x: set<TaskId>) {
    && s'.workers == s.workers && s'.queue == s.queue && s'.handling == s.handling
    && s.status.Keys <= s'.status.Keys
    && (forall t | t in s.status && t !in x :: s'.status[t] == s.status[t])
    && (forall t | t in x :: t !in Hands(s.workers) && t !in Flatten(s.queue) && !Spent(s, t) && !Leaked(s, t))
    && (forall t | t !in x :: Held(s')[t] == Held(s)[t])
    && s.history.abandoned <= s'.history.abandoned
    && s'.history.unrecorded == s.history.unrecorded && s'.history.orphaned == s.history.orphaned
  }

  lemma OutsideWorkers(s: State, s': State, x: set<TaskId>)
    requires Core(s) && Outside(s, s', x)
    ensures WorkersOk(s') && AllDispatched(s', Flatten(s'.queue))
  {
    forall j | 0 <= j < |s.workers| ensures PhaseOk(s', s'.workers[j]) && RecordOk(s', s'.workers[j]) {
      forall t | t in Hand(s.workers[j]) ensures t !in x { HandInHands(s.workers, j, t); }
      assert RecordOk(s, s.workers[j]);
      PhaseFrame(s, s', s.workers[j]);
    }
  }

  lemma OutsideRecords(s: State, s': State, x: set<TaskId>)
    requires Core(s) && Outside(s, s', x)
    ensures RecordsOk(s') && LostAreLeaked(s')
  {
    forall p | p in s.handling ensures Current(s', p) || Spent(s', s.handling[p]) {
      if Current(s, p) { SameCurrent(s, s', p); } else { assert Spent(s, s.handling[p]); }
    }
    forall t | t in s.history.unrecorded + s.history.orphaned ensures Leaked(s', t) { assert Leaked(s, t); }
  }

  lemma PopStep(c: Config, s: State, ts: seq<TaskId>, call: Call)
    requires ProcessInv(c, s) && s.manager.Filling? && CanPop(s, ts)
    ensures ProcessInv(c, Popping(c, s, ts, call))
  {
    var s' := Popping(c, s, ts, call);
    PopHeld(c, s, ts, call);
    PopOutside(c, s, ts, call);
    OutsideWorkers(s, s', ToSet(ts));
    OutsideRecords(s, s', ToSet(ts));
    PopAccounts(c, s, ts, call);
  }

  lemma PopAccounts(c: Config, s: State, ts: seq<TaskId>, call: Call)
    requires AllAccounted(s) && CanPop(s, ts)
    requires Held(Popping(c, s, ts, call)) == Held(s) + if call == Done then multiset(ts) else multiset{}
    ensures AllAccounted(Popping(c, s, ts, call))
  {
    var s' := Popping(c, s, ts, call);
    forall t | t in s'.history.popped ensures t in Held(s') || Settled(s', t) {
      if t in ts { NewAccounted(c, s, ts, call, t); } else { OldAccounted(c, s, ts, call, t); }
    }
  }

  lemma NewAccounted(c: Config, s: State, ts: seq<TaskId>, call: Call, t: TaskId)
    requires CanPop(s, ts) && t in ts
    ensures t in multiset(ts)
    ensures call != Done ==> Settled(Popping(c, s, ts, call), t)
  {
    if call != Done { assert t in Popping(c, s, ts, call).history.abandoned; }
  }

  lemma OldAccounted(c: Config, s: State, ts: seq<TaskId>, call: Call, t: TaskId)
    requires AllAccounted(s) && t !in ts && t in Popping(c, s, ts, call).history.popped
    ensures t in Held(s) || Settled(Popping(c, s, ts, call), t)
  {
    var s' := Popping(c, s, ts, call);
    assert t in s.history.popped;
    if t !in Held(s) {
      assert Settled(s, t);
      PopStatus(c, s, ts, call);
      assert t in s.status ==> s'.status[t] == s.status[t];
    }
  }

  lemma QueuedNotHeld(s: State, ts: seq<TaskId>)
    requires Core(s) && CanPop(s, ts)
    ensures forall t | t in ts :: t !in Held(s)
  {
    forall t | t in ts ensures t !in Held(s) {
      if t in Held(s) { HeldStatus(s, t); }
    }
  }

  lemma PopHeld(c: Config, s: State, ts: seq<TaskId>, call: Call)
    requires Core(s) && s.manager.Filling? && CanPop(s, ts)
    ensures forall t | t in ts :: t !in Held(s)
    ensures Held(Popping(c, s, ts, call)) == Held(s) + if call == Done then multiset(ts) else multiset{}
    ensures Unique(Popping(c, s, ts, call))
    ensures AllDispatched(Popping(c, s, ts, call), ManagerHand(Popping(c, s, ts, call).manager))
  {
    QueuedNotHeld(s, ts);
    PoppedHand(c, s, ts, call);
    NoDuplicatesOnce(ts);
    PopAdds(c, s, ts, call);
    UniqueAdds(Held(s), if call == Done then multiset(ts) else multiset{});
  }

  lemma PopAdds(c: Config, s: State, ts: seq<TaskId>, call: Call)
    requires s.manager.Filling?
    ensures Held(Popping(c, s, ts, call)) == Held(s) + if call == Done then multiset(ts) else multiset{}
  {
    PoppedHand(c, s, ts, call);
    HeldAdds(s, Popping(c, s, ts, call));
  }

  lemma PoppedHand(c: Config, s: State, ts: seq<TaskId>, call: Call)
    ensures ManagerHand(Popping(c, s, ts, call).manager) == if call == Done then ts else []
    ensures call == Done ==> AllDispatched(Popping(c, s, ts, call), ts)
  {
    FlattenBatches(c, ts);
  }

  lemma HeldAdds(s: State, s': State)
    requires s'.workers == s.workers && s'.queue == s.queue && ManagerHand(s.manager) == []
    ensures Held(s') == Held(s) + multiset(ManagerHand(s'.manager))
  {
  }

  lemma UniqueAdds(held: multiset<TaskId>, more: multiset<TaskId>)
    requires forall t :: held[t] <= 1
    requires forall t :: more[t] <= 1
    requires forall t | t in more :: t !in held
    ensures forall t :: (held + more)[t] <= 1
  {
    forall t ensures (held + more)[t] <= 1 {
      if t in more { assert held[t] == 0; } else { assert more[t] == 0; }
    }
  }

  lemma {:induction false} NoDuplicatesOnce(ts: seq<TaskId>)
    requires NoDuplicates(ts)
    ensures forall t :: multiset(ts)[t] <= 1
    ensures forall t | t in multiset(ts) :: t in ts
  {
    if ts == [] {
    } else {
      assert ts == [ts[0]] + ts[1..];
      NoDuplicatesOnce(ts[1..]);
      assert ts[0] !in ts[1..];
    }
  }

  lemma QueuedIsFree(s: State, t: TaskId)
    requires HasStatus(s, t, {Queued}) && t !in Held(s)
    ensures t !in Hands(s.workers) && t !in Flatten(s.queue) && !Spent(s, t) && !Leaked(s, t)
  {
    assert t in Flatten(s.queue) ==> t in multiset(Flatten(s.queue));
  }

  lemma PopOutside(c: Config, s: State, ts: seq<TaskId>, call: Call)
    requires s.manager.Filling? && CanPop(s, ts) && forall t | t in ts :: t !in Held(s)
    ensures Outside(s, Popping(c, s, ts, call), ToSet(ts))
  {
    var s' := Popping(c, s, ts, call);
    PopFree(s, ts);
    PopAdds(c, s, ts, call);
    SameElsewhere(Held(s), Held(s'), ts);
    PopStatus(c, s, ts, call);
  }

  lemma PopFree(s: State, ts: seq<TaskId>)
    requires CanPop(s, ts) && forall t | t in ts :: t !in Held(s)
    ensures forall t | t in ToSet(ts) ::
      t !in Hands(s.workers) && t !in Flatten(s.queue) && !Spent(s, t) && !Leaked(s, t)
  {
    forall t | t in ToSet(ts)
      ensures t !in Hands(s.workers) && t !in Flatten(s.queue) && !Spent(s, t) && !Leaked(s, t)
    {
      QueuedIsFree(s, t);
    }
  }

  lemma SameElsewhere(held: multiset<TaskId>, held': multiset<TaskId>, ts: seq<TaskId>)
    requires held' == held || held' == held + multiset(ts)
    ensures forall t | t !in ToSet(ts) :: held'[t] == held[t]
  {
    forall t | t !in ToSet(ts) ensures held'[t] == held[t] { assert t !in multiset(ts); }
  }

  lemma PopStatus(c: Config, s: State, ts: seq<TaskId>, call: Call)
    ensures var status := Popping(c, s, ts, call).status;
      s.status.Keys <= status.Keys && forall t | t in s.status && t !in ToSet(ts) :: status[t] == s.status[t]
  {
  }

  lemma PushBackStep(c: Config, s: State, call: Call)
    requires ProcessInv(c, s) && s.manager.Pushing?
    ensures ProcessInv(c, PushingBack(s, call))
  {
    if s.manager.items == [] {
      Repositioned(s, PushingBack(s, call));
    } else {
      PushOne(s, call);
    }
  }

  lemma PushOne(s: State, call: Call)
    requires Core(s) && s.manager.Pushing? && s.manager.items != []
    ensures Core(PushingBack(s, call)) && PushingBack(s, call).queue == s.queue
    ensures PushingBack(s, call).manager == Pushing(s.manager.items[1..])
    ensures PushingBack(s, call).workers == s.workers
  {
    PushHeld(s, call);
    PushOutside(s, call);
    OutsideWorkers(s, PushingBack(s, call), {s.manager.items[0]});
    OutsideRecords(s, PushingBack(s, call), {s.manager.items[0]});
    PushAccounts(s, call);
  }

  lemma PushHeld(s: State, call: Call)
    requires Unique(s) && s.manager.Pushing? && s.manager.items != []
    ensures Held(s) == Held(PushingBack(s, call)) + multiset{s.manager.items[0]}
    ensures s.manager.items[0] !in Held(PushingBack(s, call))
    ensures Unique(PushingBack(s, call))
  {
    var items := s.manager.items;
    var t := items[0];
    assert items == [t] + items[1..];
    assert multiset(items) == multiset{t} + multiset(items[1..]);
    var s' := PushingBack(s, call);
    assert ManagerHand(s'.manager) == items[1..];
    assert Held(s)[t] <= 1;
    forall u ensures Held(s')[u] <= 1 { assert Held(s)[u] <= 1; }
  }

  lemma PushOutside(s: State, call: Call)
    requires s.manager.Pushing? && s.manager.items != [] && AllDispatched(s, s.manager.items)
    requires Held(s) == Held(PushingBack(s, call)) + multiset{s.manager.items[0]}
    requires s.manager.items[0] !in Held(PushingBack(s, call))
    ensures Outside(s, PushingBack(s, call), {s.manager.items[0]})
    ensures AllDispatched(PushingBack(s, call), s.manager.items[1..]) && s.manager.items[0] in s.status
  {
    var t := s.manager.items[0];
    assert t in s.manager.items && HasStatus(s, t, {Dispatched});
    assert t in Held(s);
    PushFree(s, PushingBack(s, call), t);
    RestDispatched(s, call);
  }

  lemma PushFree(s: State, s': State, t: TaskId)
    requires s'.queue == s.queue && s'.workers == s.workers && t !in Held(s')
    ensures t !in Hands(s.workers) && t !in Flatten(s.queue)
  {
    assert t in Flatten(s.queue) ==> t in multiset(Flatten(s'.queue));
  }

  lemma RestDispatched(s: State, call: Call)
    requires s.manager.Pushing? && s.manager.items != [] && AllDispatched(s, s.manager.items)
    requires s.manager.items[0] !in Held(PushingBack(s, call))
    ensures AllDispatched(PushingBack(s, call), s.manager.items[1..])
  {
    var items, s' := s.manager.items, PushingBack(s, call);
    forall u | u in items[1..] ensures HasStatus(s', u, {Dispatched}) {
      assert u in multiset(ManagerHand(s'.manager)) && u in items;
    }
  }

  lemma PushAccounts(s: State, call: Call)
    requires AllAccounted(s) && s.manager.Pushing? && s.manager.items != []
    requires s.manager.items[0] in s.status
    requires Held(s) == Held(PushingBack(s, call)) + multiset{s.manager.items[0]}
    ensures AllAccounted(PushingBack(s, call))
  {
    var s' := PushingBack(s, call);
    forall u | u in s'.history.popped ensures u in Held(s') || Settled(s', u) {
      if u != s.manager.items[0] { assert u in Held(s) || Settled(s, u); }
    }
  }

  /* ---------- exit ---------- */

  lemma KillStep(c: Config, s: State)
    requires ProcessInv(c, s) && s.manager.Killing?
    ensures ProcessInv(c, KillingNext(s))
  {
    var i := s.manager.index;
    if i < |s.workers| && s.workers[i].Alive() {
      KillOne(c, s, i);
      KillingStays(s, KillingNext(s), i);
    } else {
      Repositioned(s, KillingNext(s));
      KillingSkips(s);
    }
  }

  lemma KillingSkips(s: State)
    requires s.manager.Killing? && ManagerOk(s)
    requires s.manager.index < |s.workers| ==> !s.workers[s.manager.index].Alive()
    ensures ManagerOk(KillingNext(s))
  {
  }

  lemma KillOne(c: Config, s: State, i: nat)
    requires ProcessInv(c, s) && s.manager.Killing? && i == s.manager.index < |s.workers| && s.workers[i].Alive()
    ensures Core(KillingNext(s))
  {
    WorkerFacts(c, s, i);
    KilledMoves(s, i);
    KillMoves(s, KillingNext(s), i);
    WorkerMoves(s, KillingNext(s), i);
  }

  lemma KillingStays(s: State, s': State, i: nat)
    requires s.manager.Killing? && KillingOk(s, s.manager.killed, i) && i < |s.workers| && s'.queue == s.queue == []
    requires |s'.workers| == |s.workers| && s'.workers == s.workers[i := s'.workers[i]]
    requires s'.workers[i].phase.Dead? && s'.manager == Killing(i + 1, s.manager.killed + [i])
    ensures ManagerOk(s')
  {
  }

  lemma KillMoves(s: State, s': State, i: nat)
    requires i < |s.workers| && s.workers[i].Alive() && LocalMove(s, Killed(s, i), i)
    requires s' == Killed(s, i).(manager := s'.manager) && ManagerHand(s'.manager) == ManagerHand(s.manager)
    ensures LocalMove(s, s', i) && StatusInHand(s, s', i)
  {
    var k := Killed(s, i);
    assert PhaseOk(k, k.workers[i]) ==> PhaseOk(s', s'.workers[i]);
    assert forall t | Settled(k, t) :: Settled(s', t);
  }

  /* ---------- every action, every run ---------- */

  lemma ConcludeStep(c: Config, s: State, callback: Callback, saved: bool, call: Call)
    requires Inv(c, s) && callback in s.callbacks
    ensures ProcessInv(c, Concluding(s, callback, saved, call))
  {
    var s' := Concluding(s, callback, saved, call);
    if call.TakesEffect() {
      StatusEvent(c, s, callback.task, Concluded(callback, saved));
      SameProcesses(c, s.(status := s'.status), s');
    } else {
      SameProcesses(c, s, s');
    }
  }

  /** The invariant of the processes does not look at the callbacks. */
  lemma SameProcesses(c: Config, s: State, s': State)
    requires ProcessInv(c, s) && s' == s.(callbacks := s'.callbacks)
    ensures ProcessInv(c, s')
  {
    SameCore(s, s');
    SamePosition(s, s');
  }

  lemma SameCore(s: State, s': State)
    requires Core(s) && s' == s.(callbacks := s'.callbacks)
    ensures Core(s') && Held(s') == Held(s)
  {
    assert Held(s') == Held(s);
    AccountsEvent(s, s');
    RecordsMoved(s, s');
    WorkersSame(s, s');
  }

  lemma SamePosition(s: State, s': State)
    requires ManagerOk(s) && s' == s.(callbacks := s'.callbacks) && Held(s') == Held(s)
    ensures ManagerOk(s')
  {
  }

  lemma OthersStep(c: Config, s: State, a: Action)
    requires Inv(c, s) && ByOthers(a) && OthersCan(s, a)
    ensures ProcessInv(c, OthersApply(s, a))
  {
    match a {
      case Submit(t) => StatusEvent(c, s, t, Queued);
      case Receive(_, _) => SameProcesses(c, s, OthersApply(s, a));
      case Conclude(callback, saved, call) => ConcludeStep(c, s, callback, saved, call);
      case Get(i) => GetStep(c, s, i);
    }
  }

  lemma ManagerStep(c: Config, s: State, a: Action)
    requires ProcessInv(c, s) && !ByWorker(a) && !ByOthers(a) && ManagerCan(c, s, a)
    ensures ProcessInv(c, ManagerApply(c, s, a))
  {
    match a {
      case Examine(call) => ExamineStep(c, s, call);
      case PatchFailed(call) => PatchFailedStep(c, s, call);
      case Start(pid) => StartStep(c, s, pid);
      case Pop(ts, call) => PopStep(c, s, ts, call);
      case Put => PutStep(c, s);
      case Drain => DrainStep(c, s);
      case PushBack(call) => PushBackStep(c, s, call);
      case Kill => KillStep(c, s);
      case Reap(call) => ReapStep(c, s, call);
      case Replace => Repositioned(s, ManagerApply(c, s, a));
      case Rest => Repositioned(s, ManagerApply(c, s, a));
      case BeginExit => Repositioned(s, ManagerApply(c, s, a));
    }
  }

  lemma ProcessStep(c: Config, s: State, a: Action)
    requires Inv(c, s) && Enabled(c, s, a)
    ensures ProcessInv(c, Apply(c, s, a))
  {
    if ByWorker(a) { ByWorkerStep(c, s, a.worker, a); }
    else if ByOthers(a) { OthersStep(c, s, a); }
    else { ManagerStep(c, s, a); }
  }

  lemma StepInv(c: Config, s: State, a: Action)
    requires Inv(c, s) && Enabled(c, s, a)
    ensures Inv(c, Apply(c, s, a))
  {
    ProcessStep(c, s, a);
    CallbacksStep(c, s, a);
  }

  lemma {:induction false} RunInv(c: Config, s: State, trace: seq<Action>)
    requires Inv(c, s) && Legal(c, s, trace)
    ensures Inv(c, After(c, s, trace))
    decreases |trace|
  {
    if trace == [] {
    } else {
      StepInv(c, s, trace[0]);
      RunInv(c, Apply(c, s, trace[0]), trace[1..]);
    }
  }
}
