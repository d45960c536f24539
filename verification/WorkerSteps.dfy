/** The scheduler's own events and the actions of a worker keep the invariant of the worker protocol. */
module WorkerSteps {
  import opened WorkerProtocol
  import opened WorkerInvariant

  /* ---------- the scheduler's own events ---------- */

  /** A status change of a task that nobody holds, or of a started one to a terminal status. */
  lemma StatusEvent(c: Config, s: State, t: TaskId, to: Status)
    requires ProcessInv(c, s) && Fits(s, t, to)
    ensures ProcessInv(c, s.(status := s.status[t := to]))
  {
    var s' := s.(status := s.status[t := to]);
    assert Held(s') == Held(s);
    WorkersEvent(s, t, to);
    RecordsEvent(s, s');
    AccountsEvent(s, s');
    ManagerEvent(s, s');
  }

  lemma ManagerEvent(s: State, s': State)
    requires ManagerOk(s) && Advances(s, s') && Held(s') == Held(s) && s' == s.(status := s'.status)
    ensures ManagerOk(s')
  {
  }

  lemma WorkersEvent(s: State, t: TaskId, to: Status)
    requires WorkersOk(s) && Fits(s, t, to)
    ensures WorkersOk(s.(status := s.status[t := to]))
  {
    var s' := s.(status := s.status[t := to]);
    forall i | 0 <= i < |s.workers| ensures PhaseOk(s', s.workers[i]) && RecordOk(s', s.workers[i]) {
      PhaseEvent(s, s.workers[i], t, to);
      assert RecordOk(s, s.workers[i]);
    }
  }

  ghost predicate Fits(s: State, t: TaskId, to: Status) {
    (t !in s.status && to == Queued) || (HeadStarted(s, t) && Terminal(to))
  }

  /** Statuses only grow towards terminal ones. */
  ghost predicate Advances(s: State, s': State) {
    && s.status.Keys <= s'.status.Keys
    && forall t | t in s.status :: s'.status[t] == s.status[t] || (HeadStarted(s, t) && Terminal(s'.status[t]))
  }

  lemma PhaseEvent(s: State, w: Worker, t: TaskId, to: Status)
    requires PhaseOk(s, w) && Fits(s, t, to)
    ensures PhaseOk(s.(status := s.status[t := to]), w)
  {
    var s' := s.(status := s.status[t := to]);
    assert forall u | HasStatus(s, u, {Dispatched}) :: HasStatus(s', u, {Dispatched});
    assert forall u | HeadStarted(s, u) :: HeadStarted(s', u);
  }

  lemma RecordsEvent(s: State, s': State)
    requires RecordsOk(s) && Advances(s, s') && Held(s') == Held(s)
    requires s'.workers == s.workers && s'.handling == s.handling && s'.history == s.history
    ensures RecordsOk(s')
  {
    forall p | p in s.handling ensures Current(s', p) || Spent(s', s.handling[p]) {
      if Current(s, p) { SameCurrent(s, s', p); } else { assert Spent(s, s.handling[p]); }
    }
  }

  lemma AccountsEvent(s: State, s': State)
    requires AllAccounted(s) && LostAreLeaked(s) && Advances(s, s') && Held(s') == Held(s)
    requires s'.handling == s.handling && s'.history == s.history
    ensures AllAccounted(s') && LostAreLeaked(s')
  {
    forall u | u in s.history.popped ensures u in Held(s') || Settled(s', u) {
      assert u in Held(s) || Settled(s, u);
    }
    forall u | u in s.history.unrecorded + s.history.orphaned ensures Leaked(s', u) { assert Leaked(s, u); }
  }

  lemma SameCurrent(s: State, s': State, p: Pid)
    requires Current(s, p) && p in s'.handling && s'.handling[p] == s.handling[p]
    requires |s'.workers| == |s.workers|
    requires forall i | 0 <= i < |s.workers| ::
      s'.workers[i].pid == s.workers[i].pid
      && (RecordedHead(s.workers[i]).Some? ==> RecordedHead(s'.workers[i]) == RecordedHead(s.workers[i]))
    ensures Current(s', p)
  {
    var i :| 0 <= i < |s.workers| && s.workers[i].pid == p && RecordedHead(s.workers[i]) == Some(s.handling[p]);
    assert s'.workers[i].pid == p && RecordedHead(s'.workers[i]) == Some(s'.handling[p]);
  }

  /* ---------- workers ---------- */

  /** Taking a batch moves its tasks from the queue to a hand. */
  lemma GetStep(c: Config, s: State, i: nat)
    requires ProcessInv(c, s) && CanGet(s, i)
    ensures ProcessInv(c, OthersApply(s, Get(i)))
  {
    var s' := OthersApply(s, Get(i));
    GetHeld(s, i);
    AccountsEvent(s, s');
    RecordsMoved(s, s');
    forall j | 0 <= j < |s.workers| ensures PhaseOk(s', s'.workers[j]) && RecordOk(s', s'.workers[j]) {
      assert PhaseOk(s, s.workers[j]) && RecordOk(s, s.workers[j]);
      if j != i { PhaseFrame(s, s', s.workers[j]); }
    }
    GetManager(s, i);
  }

  predicate CanGet(s: State, i: nat) {
    WorkerIn(s, i) && s.workers[i].phase.Waiting? && s.queue != []
  }

  lemma GetHeld(s: State, i: nat)
    requires CanGet(s, i) && AllDispatched(s, Flatten(s.queue))
    ensures Held(OthersApply(s, Get(i))) == Held(s)
    ensures AllDispatched(s, s.queue[0]) && AllDispatched(s, Flatten(s.queue[1..]))
  {
    var w' := s.workers[i].(phase := Taken(s.queue[0]));
    assert Hand(s.workers[i]) == [] && Hand(w') == s.queue[0];
    HandsUpdate(s.workers, i, w');
    FirstBatch(s.queue);
    GotHeld(s, OthersApply(s, Get(i)), i, w');
  }

  lemma GotHeld(s: State, s': State, i: nat, w': Worker)
    requires i < |s.workers| && s.queue != [] && s'.manager == s.manager
    requires s'.workers == s.workers[i := w'] && s'.queue == s.queue[1..]
    requires multiset(Flatten(s.queue)) == multiset(s.queue[0]) + multiset(Flatten(s'.queue))
    requires Hands(s'.workers) == Hands(s.workers) + multiset(s.queue[0])
    ensures Held(s') == Held(s)
  {
  }

  lemma FirstBatch(queue: seq<Batch>)
    requires queue != []
    ensures multiset(Flatten(queue)) == multiset(queue[0]) + multiset(Flatten(queue[1..]))
    ensures forall t | t in queue[0] || t in Flatten(queue[1..]) :: t in Flatten(queue)
  {
    assert Flatten(queue) == queue[0] + Flatten(queue[1..]);
  }

  lemma GetManager(s: State, i: nat)
    requires ManagerOk(s) && CanGet(s, i) && Held(OthersApply(s, Get(i))) == Held(s)
    ensures ManagerOk(OthersApply(s, Get(i)))
  {
  }

  lemma RecordsMoved(s: State, s': State)
    requires RecordsOk(s) && Held(s') == Held(s) && |s'.workers| == |s.workers|
    requires s'.handling == s.handling && s'.history == s.history && s'.status == s.status
    requires forall i | 0 <= i < |s.workers| ::
      s'.workers[i].pid == s.workers[i].pid
      && (RecordedHead(s.workers[i]).Some? ==> RecordedHead(s'.workers[i]) == RecordedHead(s.workers[i]))
    ensures RecordsOk(s')
  {
    forall p | p in s.handling ensures Current(s', p) || Spent(s', s.handling[p]) {
      if Current(s, p) { SameCurrent(s, s', p); } else { assert Spent(s, s.handling[p]); }
    }
  }

  lemma WorkerStep(c: Config, s: State, s': State, i: nat)
    requires ProcessInv(c, s) && LocalMove(s, s', i) && StatusInHand(s, s', i)
    requires s'.manager == s.manager && s.workers[i].Alive()
    ensures ProcessInv(c, s')
  {
    WorkerMoves(s, s', i);
    ManagerStays(s, s', i);
  }

  /** What a worker knows about its own hand. */
  ghost predicate Facts(s: State, i: nat) {
    && i < |s.workers| && PhaseOk(s, s.workers[i]) && RecordOk(s, s.workers[i])
    && (Hand(s.workers[i]) != [] ==> Hand(s.workers[i])[0] !in Hand(s.workers[i])[1..])
  }

  lemma WorkerFacts(c: Config, s: State, i: nat)
    requires ProcessInv(c, s) && i < |s.workers|
    ensures Facts(s, i)
  {
    if Hand(s.workers[i]) != [] { HeadOnce(s, i); }
  }

  /** The tail of a hand. */
  lemma Tail(hand: seq<TaskId>)
    requires hand != [] && hand[0] !in hand[1..]
    ensures forall t | t in hand :: t == hand[0] || t in hand[1..]
    ensures forall t | t in hand[1..] :: t in hand && t != hand[0]
    ensures multiset(hand[1..]) <= multiset(hand) && multiset([hand[0]]) <= multiset(hand)
  {
    assert hand == [hand[0]] + hand[1..];
  }

  lemma RecordMoves(s: State, i: nat)
    requires Facts(s, i) && s.workers[i].phase.Taken?
    ensures LocalMove(s, Recording(s, i), i)
  {
    assert Hand(s.workers[i]) == s.workers[i].phase.batch;
  }

  /** The handler goes on or ends; the worker keeps its batch. */
  lemma HandleMoves(s: State, i: nat, phase: Phase)
    requires Facts(s, i) && (s.workers[i].phase.Handling? || s.workers[i].phase.Quitting?)
    requires (phase.Quitting? || phase.Handled?) && phase.batch == s.workers[i].phase.batch
    requires phase.Handled? ==> Terminal(phase.result) && (phase.output ==> phase.result == Completed)
    ensures LocalMove(s, MoveTo(s, i, phase), i)
  {
    assert Hand(s.workers[i]) == s.workers[i].phase.batch;
  }

  /** A handler that patches its own task. */
  lemma PatchOwnMoves(s: State, i: nat, call: Call)
    requires Facts(s, i) && s.workers[i].phase.Quitting?
    ensures LocalMove(s, PatchingOwn(s, i, call), i) && StatusInHand(s, PatchingOwn(s, i, call), i)
  {
    var b: seq<TaskId> := s.workers[i].phase.batch;
    var s' := PatchingOwn(s, i, call);
    assert Hand(s.workers[i]) == b && Hand(s'.workers[i]) == b;
    Tail(b);
    assert b[0] in b && AllDispatched(s', b[1..]);
  }

  /** Death with a recorded head: the duplicates are lost. */
  lemma KilledWithHead(s: State, i: nat)
    requires Facts(s, i) && s.workers[i].Alive() && RecordedHead(s.workers[i]).Some?
    ensures LocalMove(s, Killed(s, i), i)
  {
    var w := s.workers[i];
    var hand: seq<TaskId> := w.phase.batch;
    assert Hand(w) == hand && RecordedHead(w) == Some(hand[0]);
    Tail(hand);
    assert HasStatus(s, hand[0], {Dispatched, Running, Completed, Failed}) by {
      assert hand[0] in hand;
    }
    assert AllDispatched(s, hand[1..]);
  }

  /** Death without a recorded head: the whole hand is lost. */
  lemma KilledWithout(s: State, i: nat)
    requires Facts(s, i) && s.workers[i].Alive() && RecordedHead(s.workers[i]).None?
    ensures LocalMove(s, Killed(s, i), i)
  {
    var w, s' := s.workers[i], Killed(s, i);
    var hand := Hand(w);
    if w.phase.Taken? { Tail(hand); }
    assert AllDispatched(s, hand);
    assert Hand(s'.workers[i]) == [];
    forall t | t in hand ensures Settled(s', t) {
      assert t in (if w.phase.Taken? then {hand[0]} + ToSet(hand[1..]) else ToSet(hand));
    }
    forall t | t in s'.history.unrecorded + s'.history.orphaned && t !in s.history.unrecorded + s.history.orphaned
      ensures t in hand && HasStatus(s', t, {Dispatched})
    {
      assert t in (if w.phase.Taken? then {hand[0]} + ToSet(hand[1..]) else ToSet(hand));
    }
  }

  lemma KilledMoves(s: State, i: nat)
    requires Facts(s, i) && s.workers[i].Alive()
    ensures LocalMove(s, Killed(s, i), i)
  {
    if RecordedHead(s.workers[i]).Some? { KilledWithHead(s, i); } else { KilledWithout(s, i); }
  }

  lemma PatchRunningDone(s: State, i: nat)
    requires Facts(s, i) && WorkerIn(s, i) && s.workers[i].phase.Recorded?
    ensures LocalMove(s, PatchingRunning(s, i, Done), i) && StatusInHand(s, PatchingRunning(s, i, Done), i)
  {
    var b := s.workers[i].phase.batch;
    assert Hand(s.workers[i]) == b;
    Tail(b);
    assert b[0] in b && HasStatus(s, b[0], {Dispatched});
  }

  /** The head stays in the hand, or under the dead worker's record. */
  lemma PatchRunningFails(s: State, i: nat, call: Call)
    requires Facts(s, i) && WorkerIn(s, i) && s.workers[i].phase.Recorded? && call != Done
    ensures LocalMove(s, PatchingRunning(s, i, call), i) && StatusInHand(s, PatchingRunning(s, i, call), i)
  {
    var w := s.workers[i];
    var b: seq<TaskId> := w.phase.batch;
    assert Hand(w) == b && RecordedHead(w) == Some(b[0]);
    Tail(b);
    assert b[0] in b && HasStatus(s, b[0], {Dispatched}) && AllDispatched(s, b[1..]);
    if w.timed { PatchRunningKeeps(s, i, call); } else { PatchRunningKills(s, i, call); }
  }

  lemma PatchRunningKeeps(s: State, i: nat, call: Call)
    requires Facts(s, i) && s.workers[i].phase.Recorded? && call != Done && s.workers[i].timed
    requires var b := s.workers[i].phase.batch; HasStatus(s, b[0], {Dispatched}) && AllDispatched(s, b[1..])
    ensures LocalMove(s, PatchingRunning(s, i, call), i)
  {
    var b: seq<TaskId> := s.workers[i].phase.batch;
    var s' := PatchingRunning(s, i, call);
    assert s'.workers[i].phase == Handled(b, Failed, false, false);
    assert Hand(s'.workers[i]) == b;
    assert AllDispatched(s', b[1..]);
  }

  lemma PatchRunningKills(s: State, i: nat, call: Call)
    requires Facts(s, i) && s.workers[i].phase.Recorded? && call != Done && !s.workers[i].timed
    requires var b := s.workers[i].phase.batch; HasStatus(s, b[0], {Dispatched}) && AllDispatched(s, b[1..])
    ensures LocalMove(s, PatchingRunning(s, i, call), i)
  {
    var b: seq<TaskId> := s.workers[i].phase.batch;
    var s' := PatchingRunning(s, i, call);
    Tail(b);
    assert s'.workers[i].phase == Dead(Some(b[0]));
    assert Hand(s'.workers[i]) == [b[0]];
    assert AllDispatched(s', b[1..]);
  }

  /** A worker that gives up its whole hand after an error. */
  ghost predicate WalksAway(s: State, s': State, i: nat) {
    && i < |s.workers| == |s'.workers| && s'.workers == s.workers[i := s'.workers[i]]
    && s'.workers[i].pid == s.workers[i].pid && s'.workers[i].phase in {Waiting, Dead(None)}
    && s.workers[i].Alive() && s'.queue == s.queue && s'.manager == s.manager && s'.handling == s.handling
    && s'.history == s.history.(abandoned := s.history.abandoned + ToSet(Hand(s.workers[i])))
    && (RecordedHead(s.workers[i]).Some? ==>
          HasStatus(s', RecordedHead(s.workers[i]).value, {Dispatched, Running, Completed, Failed}))
  }

  lemma WalkAway(s: State, s': State, i: nat)
    requires Facts(s, i) && WalksAway(s, s', i)
    ensures LocalMove(s, s', i)
  {
    assert Hand(s'.workers[i]) == [] && RecordedHead(s'.workers[i]) == None;
    RecordedInHand(s.workers[i]);
  }

  /** A worker whose head is settled goes on with the duplicates. */
  ghost predicate HeadSettled(s: State, s1: State, i: nat) {
    && i < |s.workers| && (s.workers[i].phase.Handled? || s.workers[i].phase.Reporting?)
    && s1 == s.(status := s1.status)
    && (s1.status == s.status || s1.status == s.status[s.workers[i].phase.batch[0] := s.workers[i].phase.result])
    && var t := s.workers[i].phase.batch[0];
       t in s1.status && (Terminal(s1.status[t]) || (s1.status[t] == Dispatched && t in s.history.abandoned))
  }

  lemma SettleMoves(c: Config, s: State, s1: State, i: nat)
    requires Facts(s, i) && HeadSettled(s, s1, i)
    ensures LocalMove(s, Settle(c, s1, i, s.workers[i].phase), i)
    ensures StatusInHand(s, Settle(c, s1, i, s.workers[i].phase), i)
  {
    var s' := Settle(c, s1, i, s.workers[i].phase);
    SettleStatus(s, s', i);
    SettleLeaves(c, s, s1, i);
    if c.boefjes { KeepRest(s, s', i); } else { DropRest(s, s', i); }
  }

  lemma SettleLeaves(c: Config, s: State, s1: State, i: nat)
    requires Facts(s, i) && HeadSettled(s, s1, i)
    ensures var p, s' := s.workers[i].phase, Settle(c, s1, i, s.workers[i].phase);
      && HeadLeft(s, s', i) && Hand(s'.workers[i]) == (if c.boefjes then p.batch[1..] else [])
      && s'.history.orphaned == s.history.orphaned + (if c.boefjes then {} else ToSet(p.batch[1..]))
  {
    var p := s.workers[i].phase;
    var s' := Settle(c, s1, i, p);
    Tail(p.batch);
    assert AllDispatched(s, p.batch[1..]) && AllDispatched(s', p.batch[1..]);
    AfterHeadOk(c, s', s'.workers[i], p);
  }

  lemma AfterHeadOk(c: Config, s: State, w: Worker, p: Phase)
    requires (p.Handled? || p.Reporting?) && AllDispatched(s, p.batch[1..]) && (p.output ==> p.result == Completed)
    requires w.phase == AfterHead(c, p.batch, p.result, p.output, p.fatal)
    ensures PhaseOk(s, w) && RecordedHead(w) == None
    ensures Hand(w) == if c.boefjes then p.batch[1..] else []
  {
  }

  lemma SettleStatus(s: State, s': State, i: nat)
    requires Facts(s, i) && HeadSettled(s, s.(status := s'.status), i)
    ensures StatusInHand(s, s', i)
  {
    assert s.workers[i].phase.batch[0] in Hand(s.workers[i]);
  }

  /** The head is settled, and nothing but worker `i` and the lost tasks differ. */
  ghost predicate HeadLeft(s: State, s': State, i: nat) {
    && i < |s.workers| == |s'.workers| && (s.workers[i].phase.Handled? || s.workers[i].phase.Reporting?)
    && s' == s.(status := s'.status, workers := s.workers[i := s'.workers[i]],
                history := s.history.(orphaned := s'.history.orphaned))
    && s'.workers[i].pid == s.workers[i].pid && RecordedHead(s'.workers[i]) == None && PhaseOk(s', s'.workers[i])
    && AllDispatched(s', s.workers[i].phase.batch[1..])
    && var t := s.workers[i].phase.batch[0];
       && t !in s.workers[i].phase.batch[1..] && t in s'.status
       && (Terminal(s'.status[t]) || (s'.status[t] == Dispatched && t in s.history.abandoned))
  }

  lemma KeepRest(s: State, s': State, i: nat)
    requires HeadLeft(s, s', i) && s'.history == s.history && Hand(s'.workers[i]) == s.workers[i].phase.batch[1..]
    ensures LocalMove(s, s', i)
  {
    var hand := Hand(s.workers[i]);
    assert hand == [hand[0]] + hand[1..];
  }

  lemma DropRest(s: State, s': State, i: nat)
    requires HeadLeft(s, s', i) && Hand(s'.workers[i]) == []
    requires s'.history.orphaned == s.history.orphaned + ToSet(s.workers[i].phase.batch[1..])
    ensures LocalMove(s, s', i)
  {
    var hand := Hand(s.workers[i]);
    assert hand == [hand[0]] + hand[1..];
  }

  lemma CheckMoves(c: Config, s: State, i: nat, call: Call)
    requires Facts(s, i) && WorkerIn(s, i) && s.workers[i].phase.Handled?
    ensures LocalMove(s, Checking(c, s, i, call), i) && StatusInHand(s, Checking(c, s, i, call), i)
  {
    var s' := Checking(c, s, i, call);
    var b := s.workers[i].phase.batch;
    assert Hand(s.workers[i]) == b && RecordedHead(s.workers[i]) == Some(b[0]);
    if call != Done {
      WalkAway(s, s', i);
    } else if s.status[b[0]] != Running {
      SettleMoves(c, s, s, i);
    }
  }

  lemma PatchHeadMoves(c: Config, s: State, i: nat, call: Call)
    requires Facts(s, i) && WorkerIn(s, i) && s.workers[i].phase.Reporting?
    ensures LocalMove(s, PatchingHead(c, s, i, call), i) && StatusInHand(s, PatchingHead(c, s, i, call), i)
  {
    var p := s.workers[i].phase;
    assert Hand(s.workers[i]) == p.batch && RecordedHead(s.workers[i]) == Some(p.batch[0]);
    if call == Done {
      SettleMoves(c, s, s.(status := Patch(s.status, p.batch[0], p.result, call)), i);
    } else {
      WalkAway(s, PatchingHead(c, s, i, call), i);
    }
  }

  lemma CopyMoves(s: State, i: nat, copied: Copied)
    requires Facts(s, i) && s.workers[i].phase.Copying?
    ensures LocalMove(s, CopyingFiles(s, i, copied), i)
  {
    assert Hand(s.workers[i]) == s.workers[i].phase.rest;
    if copied != Stored { WalkAway(s, CopyingFiles(s, i, copied), i); }
  }

  lemma PatchDuplicateMoves(s: State, i: nat, call: Call)
    requires Facts(s, i) && WorkerIn(s, i) && s.workers[i].phase.Duplicating? && s.workers[i].phase.rest != []
    ensures LocalMove(s, PatchingDuplicate(s, i, call), i) && StatusInHand(s, PatchingDuplicate(s, i, call), i)
  {
    var rest := s.workers[i].phase.rest;
    Tail(rest);
    assert HasStatus(s, rest[0], {Dispatched}) by { assert rest[0] in rest; }
    assert Hand(s.workers[i]) == rest;
    if call == Done { DuplicatePatched(s, i); } else { WalkAway(s, PatchingDuplicate(s, i, call), i); }
  }

  lemma DuplicatePatched(s: State, i: nat)
    requires Facts(s, i) && WorkerIn(s, i) && s.workers[i].phase.Duplicating? && s.workers[i].phase.rest != []
    ensures LocalMove(s, PatchingDuplicate(s, i, Done), i)
  {
    var rest := s.workers[i].phase.rest;
    var s' := PatchingDuplicate(s, i, Done);
    Tail(rest);
    assert Hand(s'.workers[i]) == rest[1..] && RecordedHead(s'.workers[i]) == None;
    assert s'.status == s.status[rest[0] := s.workers[i].phase.result];
    assert AllDispatched(s', rest[1..]);
  }

  lemma HandlerMoves(c: Config, s: State, i: nat, a: Action)
    requires (a.Handle? || ByHandler(a)) && i == a.worker && Facts(s, i)
    requires WorkerCan(c, s.status, s.workers[i].phase, a)
    ensures LocalMove(s, WorkerApply(c, s, i, a), i) && StatusInHand(s, WorkerApply(c, s, i, a), i)
  {
    if a.PatchOwn? {
      PatchOwnMoves(s, i, a.call);
    } else {
      HandleMoves(s, i, WorkerApply(c, s, i, a).workers[i].phase);
    }
  }

  lemma HeadMoves(c: Config, s: State, i: nat, a: Action)
    requires (a.Record? || a.PatchRunning? || a.Check? || a.PatchHead?) && i == a.worker && Facts(s, i)
    requires WorkerCan(c, s.status, s.workers[i].phase, a)
    ensures LocalMove(s, WorkerApply(c, s, i, a), i) && StatusInHand(s, WorkerApply(c, s, i, a), i)
  {
    if a.Record? { RecordMoves(s, i); }
    else if a.Check? { CheckMoves(c, s, i, a.call); }
    else if a.PatchHead? { PatchHeadMoves(c, s, i, a.call); }
    else if a.call == Done { PatchRunningDone(s, i); }
    else { PatchRunningFails(s, i, a.call); }
  }

  lemma RestMoves(c: Config, s: State, i: nat, a: Action)
    requires (a.Copy? || a.PatchDuplicate? || a.Die?) && i == a.worker && Facts(s, i)
    requires WorkerCan(c, s.status, s.workers[i].phase, a)
    ensures LocalMove(s, WorkerApply(c, s, i, a), i) && StatusInHand(s, WorkerApply(c, s, i, a), i)
  {
    if a.Copy? { CopyMoves(s, i, a.copied); }
    else if a.PatchDuplicate? { PatchDuplicateMoves(s, i, a.call); }
    else { KilledMoves(s, i); }
  }

  lemma ByWorkerMoves(c: Config, s: State, i: nat, a: Action)
    requires ByWorker(a) && i == a.worker && Facts(s, i) && WorkerCan(c, s.status, s.workers[i].phase, a)
    ensures LocalMove(s, WorkerApply(c, s, i, a), i) && StatusInHand(s, WorkerApply(c, s, i, a), i)
  {
    if a.Handle? || ByHandler(a) { HandlerMoves(c, s, i, a); }
    else if a.Record? || a.PatchRunning? || a.Check? || a.PatchHead? { HeadMoves(c, s, i, a); }
    else { RestMoves(c, s, i, a); }
  }

  lemma WorkerAlone(c: Config, s: State, i: nat, a: Action)
    requires ByWorker(a) && i == a.worker && WorkerIn(s, i) && WorkerCan(c, s.status, s.workers[i].phase, a)
    ensures s.workers[i].Alive()
    ensures WorkerApply(c, s, i, a).manager == s.manager && WorkerApply(c, s, i, a).callbacks == s.callbacks
  {
  }

  lemma ByWorkerStep(c: Config, s: State, i: nat, a: Action)
    requires ProcessInv(c, s) && ByWorker(a) && i == a.worker
    requires WorkerIn(s, i) && WorkerCan(c, s.status, s.workers[i].phase, a)
    ensures ProcessInv(c, WorkerApply(c, s, i, a))
  {
    WorkerFacts(c, s, i);
    ByWorkerMoves(c, s, i, a);
    WorkerAlone(c, s, i, a);
    WorkerStep(c, s, WorkerApply(c, s, i, a), i);
  }
}
