/** The inductive invariant of the worker protocol, and the proof that every action keeps it. */
module WorkerInvariant {
  import opened WorkerProtocol

  /* ---------- where tasks are held ---------- */

  ghost function Hands(ws: seq<Worker>): multiset<TaskId> {
    if ws == [] then multiset{} else multiset(Hand(ws[0])) + Hands(ws[1..])
  }

  /** What the main process holds: popped but not yet put, or drained but not yet pushed back. */
  function ManagerHand(m: Manager): seq<TaskId> {
    match m
    case Putting(batches) => Flatten(batches)
    case Draining(_, drained) => Flatten(drained)
    case Pushing(items) => items
    case _ => []
  }

  /** All tasks held anywhere, with multiplicity. */
  ghost function Held(s: State): multiset<TaskId> {
    multiset(Flatten(s.queue)) + Hands(s.workers) + multiset(ManagerHand(s.manager))
  }

  lemma {:induction false} FlattenConcat(a: seq<Batch>, b: seq<Batch>)
    ensures Flatten(a + b) == Flatten(a) + Flatten(b)
  {
    if a == [] {
      assert a + b == b;
    } else {
      assert (a + b)[1..] == a[1..] + b;
      FlattenConcat(a[1..], b);
    }
  }

  lemma FlattenOne(b: Batch)
    ensures Flatten([b]) == b
  {
    assert Flatten([b]) == b + Flatten([]);
  }

  lemma {:induction false} FlattenSingletons(ts: seq<TaskId>)
    ensures Flatten(Singletons(ts)) == ts
  {
    if ts == [] {
    } else {
      FlattenSingletons(ts[1..]);
      assert Singletons(ts)[1..] == Singletons(ts[1..]);
      assert ts == [ts[0]] + ts[1..];
    }
  }

  lemma FlattenBatches(c: Config, ts: seq<TaskId>)
    ensures Flatten(Batches(c, ts)) == ts
  {
    if ts != [] {
      if c.deduplicate { FlattenOne(ts); } else { FlattenSingletons(ts); }
    }
  }

  lemma {:induction false} HandsUpdate(ws: seq<Worker>, i: nat, w: Worker)
    requires i < |ws|
    ensures multiset(Hand(ws[i])) <= Hands(ws)
    ensures Hands(ws[i := w]) == Hands(ws) - multiset(Hand(ws[i])) + multiset(Hand(w))
  {
    var ws' := ws[i := w];
    if i == 0 {
      assert ws'[1..] == ws[1..];
    } else {
      HandsUpdate(ws[1..], i - 1, w);
      assert ws'[1..] == ws[1..][i - 1 := w];
    }
  }

  lemma {:induction false} HandsMember(ws: seq<Worker>, t: TaskId)
    requires t in Hands(ws)
    ensures exists i | 0 <= i < |ws| :: t in Hand(ws[i])
  {
    if t in Hand(ws[0]) {
    } else {
      HandsMember(ws[1..], t);
      var j :| 0 <= j < |ws[1..]| && t in Hand(ws[1..][j]);
      assert ws[1..][j] == ws[j + 1];
    }
  }

  lemma HandInHands(ws: seq<Worker>, i: nat, t: TaskId)
    requires i < |ws| && t in Hand(ws[i])
    ensures t in Hands(ws)
  {
    HandsUpdate(ws, i, ws[i]);
    assert t in multiset(Hand(ws[i]));
  }

  /** Two workers' hands add up within the total. */
  lemma TwoHands(ws: seq<Worker>, i: nat, j: nat, t: TaskId)
    requires i < |ws| && j < |ws| && i != j
    requires t in Hand(ws[i]) && t in Hand(ws[j])
    ensures Hands(ws)[t] >= 2
  {
    var w := ws[i].(phase := Waiting);
    HandsUpdate(ws, i, w);
    HandInHands(ws[i := w], j, t);
    assert t in multiset(Hand(ws[i]));
  }

  /* ---------- the invariant ---------- */

  ghost predicate Unique(s: State) {
    forall t :: Held(s)[t] <= 1
  }

  ghost predicate DistinctPids(s: State) {
    forall i, j | 0 <= i < j < |s.workers| :: s.workers[i].pid != s.workers[j].pid
  }

  ghost predicate HasStatus(s: State, t: TaskId, allowed: set<Status>) {
    t in s.status && s.status[t] in allowed
  }

  ghost predicate AllDispatched(s: State, ts: seq<TaskId>) {
    forall t | t in ts :: HasStatus(s, t, {Dispatched})
  }

  /** The head of a batch being handled: running, or finished by its container. */
  ghost predicate HeadStarted(s: State, t: TaskId) {
    HasStatus(s, t, {Running, Completed, Failed})
  }

  /** The statuses of the tasks in a worker's hand, by what the worker is doing. */
  ghost predicate PhaseOk(s: State, w: Worker) {
    match w.phase
    case Waiting => true
    case Taken(b) => AllDispatched(s, b)
    case Recorded(b) => AllDispatched(s, b)
    case Handling(b) => HeadStarted(s, b[0]) && AllDispatched(s, b[1..])
    case Quitting(b, _) => HeadStarted(s, b[0]) && AllDispatched(s, b[1..])
    case Handled(b, result, output, fatal) =>
      && (HeadStarted(s, b[0]) || (HasStatus(s, b[0], {Dispatched}) && b[0] in s.history.abandoned && !output))
      && AllDispatched(s, b[1..]) && Terminal(result) && (output ==> result == Completed)
    case Reporting(b, result, output, fatal) =>
      && HeadStarted(s, b[0]) && AllDispatched(s, b[1..]) && Terminal(result) && (output ==> result == Completed)
    case Copying(rest, result) => AllDispatched(s, rest) && rest != [] && result == Completed
    case Duplicating(rest, result, fatal) => AllDispatched(s, rest) && rest != [] && result in {Queued, Completed}
    case Dead(record) => record.Some? ==> HasStatus(s, record.value, {Dispatched, Running, Completed, Failed})
  }

  ghost predicate RecordOk(s: State, w: Worker) {
    RecordedHead(w).Some? ==> w.pid in s.handling && s.handling[w.pid] == RecordedHead(w).value
  }

  ghost predicate WorkersOk(s: State) {
    forall i | 0 <= i < |s.workers| :: PhaseOk(s, s.workers[i]) && RecordOk(s, s.workers[i])
  }

  /** A task that no worker will patch again, whatever `handling_tasks` still says. */
  ghost predicate Spent(s: State, t: TaskId) {
    && t in s.status && t !in Held(s)
    && (Terminal(s.status[t]) || (Unfinished(s.status[t]) && t in s.history.abandoned))
  }

  ghost predicate Current(s: State, p: Pid) {
    p in s.handling
    && exists i | 0 <= i < |s.workers| :: s.workers[i].pid == p && RecordedHead(s.workers[i]) == Some(s.handling[p])
  }

  /** Every entry of `handling_tasks` is current or stale, and stale entries name spent tasks. */
  ghost predicate RecordsOk(s: State) {
    forall p | p in s.handling :: Current(s, p) || Spent(s, s.handling[p])
  }

  ghost predicate Settled(s: State, t: TaskId) {
    || HasStatus(s, t, {Completed, Failed, Queued})
    || t in s.history.unrecorded || t in s.history.orphaned || t in s.history.abandoned
  }

  ghost predicate AllAccounted(s: State) {
    forall t | t in s.history.popped :: t in Held(s) || Settled(s, t)
  }

  /** A task that has been dispatched and that neither a process nor the shared record remembers. */
  ghost predicate Leaked(s: State, t: TaskId) {
    HasStatus(s, t, {Dispatched}) && t !in Held(s) && t !in s.handling.Values
  }

  ghost predicate LostAreLeaked(s: State) {
    forall t | t in s.history.unrecorded + s.history.orphaned :: Leaked(s, t)
  }

  ghost predicate ManagerOk(s: State) {
    match s.manager
    case Replacing(i) => i <= |s.workers|
    case Starting(i) => i < |s.workers| && s.workers[i].phase == Dead(None)
    case Failing(i, t, next) => FailingOk(s, i, t) && (next == Starting(i) || ReapedNext(s, i, next))
    case Putting(batches) => batches != []
    case Draining(left, drained) => |s.queue| <= left
    case Pushing(items) => s.queue == []
    case Killing(i, killed) => s.queue == [] && KillingOk(s, killed, i)
    case Reaping(killed, j) => ReapingOk(s, killed, j)
    case Exited(killed) => ReapingOk(s, killed, |killed|)
    case _ => true
  }

  /** The task about to be failed is the dead worker's own, or one that is spent. */
  ghost predicate FailingOk(s: State, i: nat, t: TaskId) {
    && i < |s.workers|
    && s.workers[i].pid in s.handling && s.handling[s.workers[i].pid] == t
    && (s.workers[i].phase == Dead(Some(t)) || (s.workers[i].phase == Dead(None) && Spent(s, t)))
    && HasStatus(s, t, {Dispatched, Running, Completed, Failed})
  }

  ghost predicate ReapedNext(s: State, i: nat, next: Manager) {
    && next.Reaping? && 0 < next.index <= |next.killed| && next.killed[next.index - 1] == i
    && ReapingOk(s, next.killed, next.index - 1)
  }

  ghost predicate KillingOk(s: State, killed: seq<nat>, i: nat) {
    && i <= |s.workers|
    && (forall k | 0 <= k < i :: s.workers[k].phase.Dead?)
    && (forall k | 0 <= k < |killed| :: killed[k] < i)
    && (forall k, l | 0 <= k < l < |killed| :: killed[k] < killed[l])
  }

  /** All processes have ended, and the first `j` killed ones have been cleaned up. */
  ghost predicate ReapingOk(s: State, killed: seq<nat>, j: int) {
    && s.queue == [] && KillingOk(s, killed, |s.workers|) && 0 <= j <= |killed|
    && forall k | 0 <= k < j :: s.workers[killed[k]].phase == Dead(None)
  }

  /** The part of the invariant that does not look at what the main process is doing. */
  ghost predicate Core(s: State) {
    && Unique(s) && DistinctPids(s)
    && AllDispatched(s, Flatten(s.queue)) && AllDispatched(s, ManagerHand(s.manager))
    && WorkersOk(s) && RecordsOk(s) && AllAccounted(s) && LostAreLeaked(s)
  }

  ghost predicate ProcessInv(c: Config, s: State) {
    |s.workers| == c.poolSize && Core(s) && ManagerOk(s)
  }

  /** Every pending callback is about a task that has been started. */
  ghost predicate CallbacksOk(s: State) {
    forall callback | callback in s.callbacks :: HeadStarted(s, callback.task) && Terminal(callback.reported)
  }

  ghost predicate Inv(c: Config, s: State) {
    ProcessInv(c, s) && CallbacksOk(s)
  }

  lemma InitInv(c: Config, s: State)
    requires Init(c, s)
    ensures Inv(c, s)
  {
    NoHands(s.workers);
  }

  lemma {:induction false} NoHands(ws: seq<Worker>)
    requires forall i | 0 <= i < |ws| :: Hand(ws[i]) == []
    ensures Hands(ws) == multiset{}
  {
    if ws == [] {
    } else {
      NoHands(ws[1..]);
    }
  }

  /* ---------- one worker moves ---------- */

  lemma HeldAfterMove(s: State, s': State, i: nat)
    requires i < |s.workers| == |s'.workers| && s'.workers == s.workers[i := s'.workers[i]]
    requires s'.queue == s.queue && ManagerHand(s'.manager) == ManagerHand(s.manager)
    ensures multiset(Hand(s.workers[i])) <= Held(s)
    ensures Held(s') == Held(s) - multiset(Hand(s.workers[i])) + multiset(Hand(s'.workers[i]))
  {
    HandsUpdate(s.workers, i, s'.workers[i]);
  }

  /** What a worker holds is held nowhere else, and once. */
  lemma Elsewhere(s: State, i: nat, t: TaskId)
    requires Unique(s) && i < |s.workers| && t in Hand(s.workers[i])
    ensures forall j | 0 <= j < |s.workers| && j != i :: t !in Hand(s.workers[j])
    ensures t !in Flatten(s.queue) && t !in ManagerHand(s.manager)
    ensures multiset(Hand(s.workers[i]))[t] == 1
  {
    HandsUpdate(s.workers, i, s.workers[i]);
    assert t in multiset(Hand(s.workers[i]));
    assert Held(s)[t] <= 1;
    forall j | 0 <= j < |s.workers| && j != i ensures t !in Hand(s.workers[j]) {
      if t in Hand(s.workers[j]) { TwoHands(s.workers, i, j, t); }
    }
    assert t in Flatten(s.queue) ==> t in multiset(Flatten(s.queue));
    assert t in ManagerHand(s.manager) ==> t in multiset(ManagerHand(s.manager));
  }

  lemma HeadOnce(s: State, i: nat)
    requires Unique(s) && i < |s.workers| && Hand(s.workers[i]) != []
    ensures Hand(s.workers[i])[0] !in Hand(s.workers[i])[1..]
  {
    var hand := Hand(s.workers[i]);
    Elsewhere(s, i, hand[0]);
    assert hand == [hand[0]] + hand[1..];
    assert multiset(hand)[hand[0]] == 1 + multiset(hand[1..])[hand[0]];
    assert hand[0] in hand[1..] <==> hand[0] in multiset(hand[1..]);
  }

  lemma InHeld(s: State, i: nat, t: TaskId)
    requires i < |s.workers| && t in Hand(s.workers[i])
    ensures t in Held(s)
  {
    HandInHands(s.workers, i, t);
  }

  /** The statuses that a step of worker `i` may change: those in its hand, or a spent one to FAILED. */
  ghost predicate StatusMove(s: State, s': State, i: nat)
    requires i < |s.workers|
  {
    && s.status.Keys <= s'.status.Keys
    && (forall t | t in s.status && Terminal(s.status[t]) :: Terminal(s'.status[t]))
    && forall t | t in s.status ::
         s'.status[t] == s.status[t] || t in Hand(s.workers[i])
         || (t in s.handling.Values && Spent(s, t) && s'.status[t] == Failed)
  }

  /** The statuses that a living worker may change: those in its hand. */
  ghost predicate StatusInHand(s: State, s': State, i: nat)
    requires i < |s.workers|
  {
    && s.status.Keys <= s'.status.Keys
    && (forall t | t in s.status && Terminal(s.status[t]) :: Terminal(s'.status[t]))
    && forall t | t in s.status :: s'.status[t] == s.status[t] || t in Hand(s.workers[i])
  }

  ghost predicate HistoryMove(s: State, s': State, i: nat)
    requires i < |s.workers| == |s'.workers|
  {
    var lost := s.history.unrecorded + s.history.orphaned;
    && s'.history.popped == s.history.popped
    && s.history.abandoned <= s'.history.abandoned
    && s.history.unrecorded <= s'.history.unrecorded && s.history.orphaned <= s'.history.orphaned
    && forall t | t in s'.history.unrecorded + s'.history.orphaned && t !in lost ::
         && t in Hand(s.workers[i]) && t !in Hand(s'.workers[i]) && HasStatus(s', t, {Dispatched})
         && RecordedHead(s.workers[i]) != Some(t)
  }

  ghost predicate HeadMove(s: State, s': State, i: nat)
    requires i < |s.workers| == |s'.workers|
  {
    RecordedHead(s.workers[i]).Some? ==>
      var head := RecordedHead(s.workers[i]).value;
      || RecordedHead(s'.workers[i]) == Some(head)
      || (&& head !in Hand(s'.workers[i]) && head in s'.status
          && (Terminal(s'.status[head]) || (Unfinished(s'.status[head]) && head in s'.history.abandoned)))
  }

  ghost predicate HandlingMove(s: State, s': State, i: nat)
    requires i < |s.workers| == |s'.workers|
  {
    || s'.handling == s.handling
    || (&& RecordedHead(s.workers[i]) == None && RecordedHead(s'.workers[i]).Some?
        && s'.handling == s.handling[s.workers[i].pid := RecordedHead(s'.workers[i]).value])
  }

  ghost predicate Moves(s: State, s': State, i: nat) {
    LocalMove(s, s', i) && StatusMove(s, s', i)
  }

  /** What a step of worker `i` may do to everything but the statuses. */
  ghost predicate LocalMove(s: State, s': State, i: nat) {
    && i < |s.workers| == |s'.workers| && s'.workers == s.workers[i := s'.workers[i]]
    && s'.workers[i].pid == s.workers[i].pid
    && s'.queue == s.queue && ManagerHand(s'.manager) == ManagerHand(s.manager)
    && HistoryMove(s, s', i) && HandlingMove(s, s', i) && HeadMove(s, s', i)
    && (forall t | t in Hand(s'.workers[i]) :: t in Hand(s.workers[i]))
    && multiset(Hand(s'.workers[i])) <= multiset(Hand(s.workers[i]))
    && PhaseOk(s', s'.workers[i]) && RecordOk(s', s'.workers[i])
    && (forall t | t in Hand(s.workers[i]) && t !in Hand(s'.workers[i]) :: Settled(s', t))
  }

  lemma SameStatus(s: State, s': State, i: nat, t: TaskId)
    requires Core(s) && Moves(s, s', i) && t in Held(s) && t !in Hand(s.workers[i]) && t in s.status
    ensures s'.status[t] == s.status[t]
  {
  }

  lemma PhaseFrame(s: State, s': State, w: Worker)
    requires PhaseOk(s, w) && s.history.abandoned <= s'.history.abandoned
    requires forall t | t in Hand(w) && t in s.status :: t in s'.status && s'.status[t] == s.status[t]
    ensures PhaseOk(s', w)
  {
    if w.phase.Handling? || w.phase.Quitting? || w.phase.Handled? || w.phase.Reporting? {
      var b := w.phase.batch;
      assert Hand(w) == b;
      assert forall t | t in b[1..] :: t in b;
      assert HeadStarted(s, b[0]) ==> HeadStarted(s', b[0]);
      assert AllDispatched(s', b[1..]);
    }
  }

  lemma OthersOk(s: State, s': State, i: nat, j: nat)
    requires Core(s) && Moves(s, s', i) && j < |s.workers| && j != i
    ensures PhaseOk(s', s.workers[j]) && RecordOk(s', s.workers[j])
  {
    var w := s.workers[j];
    assert PhaseOk(s, w) && RecordOk(s, w);
    forall t | t in Hand(w) && t in s.status ensures t in s'.status && s'.status[t] == s.status[t] {
      Elsewhere(s, j, t);
      InHeld(s, j, t);
      SameStatus(s, s', i, t);
    }
    PhaseFrame(s, s', w);
    assert s.workers[i].pid != w.pid;
  }

  lemma SharedOk(s: State, s': State, i: nat)
    requires Core(s) && Moves(s, s', i)
    ensures AllDispatched(s', Flatten(s'.queue)) && AllDispatched(s', ManagerHand(s'.manager))
  {
    forall t | t in Flatten(s.queue) || t in ManagerHand(s.manager) ensures HasStatus(s', t, {Dispatched}) {
      if t in Hand(s.workers[i]) { Elsewhere(s, i, t); }
      assert t in multiset(Flatten(s.queue)) || t in multiset(ManagerHand(s.manager));
      SameStatus(s, s', i, t);
    }
  }

  lemma HeldShrinks(s: State, s': State, i: nat, t: TaskId)
    requires Core(s) && Moves(s, s', i)
    ensures Held(s')[t] <= Held(s)[t]
    ensures t in Held(s) && t !in Held(s') ==> t in Hand(s.workers[i]) && t !in Hand(s'.workers[i])
    ensures t in Hand(s.workers[i]) && t !in Hand(s'.workers[i]) ==> t !in Held(s')
  {
    HeldAfterMove(s, s', i);
    if t in Hand(s.workers[i]) {
      Elsewhere(s, i, t);
      assert Held(s)[t] <= 1;
      assert t in Hand(s'.workers[i]) <==> t in multiset(Hand(s'.workers[i]));
    } else {
      assert t !in multiset(Hand(s.workers[i]));
    }
  }

  lemma SpentStays(s: State, s': State, i: nat, t: TaskId)
    requires Core(s) && Moves(s, s', i) && Spent(s, t)
    ensures Spent(s', t)
  {
    HeldShrinks(s, s', i, t);
    if t in Hand(s.workers[i]) { InHeld(s, i, t); }
  }

  lemma RecordsStay(s: State, s': State, i: nat, p: Pid)
    requires Core(s) && Moves(s, s', i) && p in s'.handling
    ensures Current(s', p) || Spent(s', s'.handling[p])
  {
    var w, w' := s.workers[i], s'.workers[i];
    if p == w.pid && RecordedHead(w').Some? {
      assert s'.workers[i].pid == p;
    } else {
      assert p in s.handling && s'.handling[p] == s.handling[p];
      var t := s.handling[p];
      if Spent(s, t) {
        SpentStays(s, s', i, t);
      } else {
        var j :| 0 <= j < |s.workers| && s.workers[j].pid == p && RecordedHead(s.workers[j]) == Some(t);
        if j == i {
          assert t in Hand(w);
          HeldShrinks(s, s', i, t);
        } else {
          assert s'.workers[j] == s.workers[j];
        }
      }
    }
  }

  lemma AccountsStay(s: State, s': State, i: nat, t: TaskId)
    requires Core(s) && Moves(s, s', i) && t in s.history.popped
    ensures t in Held(s') || Settled(s', t)
  {
    HeldShrinks(s, s', i, t);
    if t !in Held(s) {
      assert Settled(s, t);
      if t in s.status && t in Hand(s.workers[i]) { InHeld(s, i, t); }
    }
  }

  lemma LeaksStay(s: State, s': State, i: nat, t: TaskId)
    requires Core(s) && Moves(s, s', i) && Leaked(s, t)
    ensures Leaked(s', t)
  {
    HeldShrinks(s, s', i, t);
    if t in Hand(s.workers[i]) { InHeld(s, i, t); }
    if s'.handling != s.handling {
      var head := RecordedHead(s'.workers[i]).value;
      assert head in Hand(s'.workers[i]);
      InHeld(s', i, head);
    }
    assert forall p | p in s'.handling && s'.handling[p] == t :: p in s.handling && s.handling[p] == t;
  }

  lemma NewlyLost(s: State, s': State, i: nat, t: TaskId)
    requires Core(s) && Moves(s, s', i)
    requires t in s'.history.unrecorded + s'.history.orphaned && t !in s.history.unrecorded + s.history.orphaned
    ensures Leaked(s', t)
  {
    assert t in Hand(s.workers[i]) && t !in Hand(s'.workers[i]) && HasStatus(s', t, {Dispatched});
    HeldShrinks(s, s', i, t);
    InHeld(s, i, t);
    forall p | p in s'.handling ensures s'.handling[p] != t { LostNotRecorded(s, s', i, t, p); }
  }

  lemma LostNotRecorded(s: State, s': State, i: nat, t: TaskId, p: Pid)
    requires Unique(s) && RecordsOk(s) && p in s'.handling
    requires i < |s.workers| == |s'.workers| && HandlingMove(s, s', i) && StatusMove(s, s', i)
    requires t in Hand(s.workers[i]) && t !in Hand(s'.workers[i]) && HasStatus(s', t, {Dispatched})
    requires RecordedHead(s.workers[i]) != Some(t)
    ensures s'.handling[p] != t
  {
    InHeld(s, i, t);
    Elsewhere(s, i, t);
    if s'.handling == s.handling || p != s.workers[i].pid {
      var q := s.handling[p];
      if Spent(s, q) {
        assert Terminal(s.status[q]) ==> Terminal(s'.status[q]);
      } else {
        var j :| 0 <= j < |s.workers| && s.workers[j].pid == p && RecordedHead(s.workers[j]) == Some(q);
        RecordedInHand(s.workers[j]);
      }
    } else {
      RecordedInHand(s'.workers[i]);
    }
  }

  lemma RecordedInHand(w: Worker)
    ensures RecordedHead(w).Some? ==> RecordedHead(w).value in Hand(w)
  {
  }

  /** A move of one worker keeps everything but the position of the main process. */
  lemma WorkerMoves(s: State, s': State, i: nat)
    requires Core(s) && Moves(s, s', i)
    ensures Core(s')
  {
    forall t ensures Held(s')[t] <= 1 { HeldShrinks(s, s', i, t); }
    SharedOk(s, s', i);
    forall j | 0 <= j < |s'.workers| ensures PhaseOk(s', s'.workers[j]) && RecordOk(s', s'.workers[j]) {
      if j != i { OthersOk(s, s', i, j); }
    }
    forall p | p in s'.handling ensures Current(s', p) || Spent(s', s'.handling[p]) { RecordsStay(s, s', i, p); }
    forall t | t in s'.history.popped ensures t in Held(s') || Settled(s', t) { AccountsStay(s, s', i, t); }
    forall t | t in s'.history.unrecorded + s'.history.orphaned ensures Leaked(s', t) {
      if t in s.history.unrecorded + s.history.orphaned { LeaksStay(s, s', i, t); } else { NewlyLost(s, s', i, t); }
    }
  }

  /** The main process' position survives the moves of the workers. */
  lemma ManagerStays(s: State, s': State, i: nat)
    requires Core(s) && Moves(s, s', i) && ManagerOk(s) && s'.manager == s.manager && s.workers[i].Alive()
    ensures ManagerOk(s')
  {
    match s.manager {
      case Failing(k, t, next) =>
        FailingStays(s, s', i, k, t);
      case _ =>
    }
  }

  lemma FailingStays(s: State, s': State, i: nat, k: nat, t: TaskId)
    requires Core(s) && Moves(s, s', i) && FailingOk(s, k, t) && s.workers[i].Alive()
    ensures FailingOk(s', k, t)
  {
    if s.workers[k].phase == Dead(Some(t)) {
      DeadHeadStays(s, s', i, k, t);
    } else {
      SpentStays(s, s', i, t);
    }
    HandlingStays(s, s', i, k);
  }

  lemma HandlingStays(s: State, s': State, i: nat, k: nat)
    requires DistinctPids(s) && LocalMove(s, s', i) && k < |s.workers| && k != i && s.workers[k].pid in s.handling
    ensures s.workers[k].pid in s'.handling && s'.handling[s.workers[k].pid] == s.handling[s.workers[k].pid]
    ensures s'.workers[k] == s.workers[k]
  {
    assert s.workers[k].pid != s.workers[i].pid;
  }

  lemma DeadHeadStays(s: State, s': State, i: nat, k: nat, t: TaskId)
    requires Core(s) && Moves(s, s', i) && s.workers[i].Alive() && t in s.status
    requires k < |s.workers| && s.workers[k].phase == Dead(Some(t))
    ensures t in s'.status && s'.status[t] == s.status[t]
  {
    Elsewhere(s, k, t);
    InHeld(s, k, t);
    SameStatus(s, s', i, t);
  }
}
