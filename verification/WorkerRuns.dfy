/** Runs of the worker protocol: how they are extended at their end, and the states they pass. */
module WorkerRuns {
  import opened WorkerProtocol

  lemma LegalOne(c: Config, s: State, a: Action)
    requires Enabled(c, s, a)
    ensures Legal(c, s, [a]) && After(c, s, [a]) == Apply(c, s, a)
  {
    var s' := Apply(c, s, a);
    assert [a][0] == a && [a][1..] == [];
    assert Legal(c, s', []) && After(c, s', []) == s';
  }

  lemma {:induction false} LegalInit(c: Config, s: State, trace: seq<Action>, a: Action)
    requires Legal(c, s, trace + [a])
    ensures Legal(c, s, trace) && Enabled(c, After(c, s, trace), a)
    ensures After(c, s, trace + [a]) == Apply(c, After(c, s, trace), a)
    decreases |trace|
  {
    if trace == [] {
      assert trace + [a] == [a];
      assert [a][1..] == [];
    } else {
      assert (trace + [a])[0] == trace[0] && (trace + [a])[1..] == trace[1..] + [a];
      LegalInit(c, Apply(c, s, trace[0]), trace[1..], a);
    }
  }

  /* ---------- runs by the states they pass ---------- */

  ghost predicate StepAt(c: Config, states: seq<State>, trace: seq<Action>, k: int) {
    && 0 <= k < |trace| && |states| == |trace| + 1
    && Enabled(c, states[k], trace[k]) && states[k + 1] == Apply(c, states[k], trace[k])
  }

  ghost predicate Passes(c: Config, states: seq<State>, trace: seq<Action>) {
    |states| == |trace| + 1 && forall k | 0 <= k < |trace| :: StepAt(c, states, trace, k)
  }

  /** A run of `trace` leads from `s0` to `s`. */
  ghost predicate Leads(c: Config, s0: State, trace: seq<Action>, s: State) {
    exists states :: Passes(c, states, trace) && states[0] == s0 && states[|trace|] == s
  }

  lemma Stays(c: Config, s: State)
    ensures Leads(c, s, [], s)
  {
    assert Passes(c, [s], []);
  }

  lemma Then(c: Config, s0: State, trace: seq<Action>, s: State, a: Action)
    requires Leads(c, s0, trace, s) && Enabled(c, s, a)
    ensures Leads(c, s0, trace + [a], Apply(c, s, a))
  {
    var states :| Passes(c, states, trace) && states[0] == s0 && states[|trace|] == s;
    PassesOn(c, states, trace, a);
  }

  lemma PassesOn(c: Config, states: seq<State>, trace: seq<Action>, a: Action)
    requires Passes(c, states, trace) && Enabled(c, states[|trace|], a)
    ensures Passes(c, states + [Apply(c, states[|trace|], a)], trace + [a])
  {
    var states' := states + [Apply(c, states[|trace|], a)];
    forall k | 0 <= k < |trace + [a]| ensures StepAt(c, states', trace + [a], k) {
      if k < |trace| { assert StepAt(c, states, trace, k); }
    }
  }

  /** One run after another. */
  lemma ThenAll(c: Config, s0: State, trace: seq<Action>, s: State, more: seq<Action>, s': State)
    requires Leads(c, s0, trace, s) && Leads(c, s, more, s')
    ensures Leads(c, s0, trace + more, s')
  {
    var states :| Passes(c, states, trace) && states[0] == s0 && states[|trace|] == s;
    var states' :| Passes(c, states', more) && states'[0] == s && states'[|more|] == s';
    var all := states + states'[1..];
    forall k | 0 <= k < |trace + more| ensures StepAt(c, all, trace + more, k) {
      StepOfBoth(c, states, trace, states', more, k);
    }
    assert Passes(c, all, trace + more) && all[0] == s0 && all[|trace + more|] == s';
  }

  lemma StepOfBoth(c: Config, states: seq<State>, trace: seq<Action>, states': seq<State>, more: seq<Action>, k: nat)
    requires Passes(c, states, trace) && Passes(c, states', more) && states[|trace|] == states'[0]
    requires k < |trace + more|
    ensures StepAt(c, states + states'[1..], trace + more, k)
  {
    var all := states + states'[1..];
    if k < |trace| {
      assert StepAt(c, states, trace, k);
      assert all[k] == states[k] && all[k + 1] == states[k + 1];
      SameStep(c, states, trace, k, all, trace + more, k);
    } else {
      var j := k - |trace|;
      assert StepAt(c, states', more, j);
      assert all[k] == states'[j] && all[k + 1] == states'[j + 1];
      SameStep(c, states', more, j, all, trace + more, k);
    }
  }

  lemma SameStep(c: Config, states: seq<State>, trace: seq<Action>, j: nat, states': seq<State>, trace': seq<Action>,
                 k: nat)
    requires StepAt(c, states, trace, j) && k < |trace'| && |states'| == |trace'| + 1
    requires states'[k] == states[j] && states'[k + 1] == states[j + 1] && trace'[k] == trace[j]
    ensures StepAt(c, states', trace', k)
  {
  }

  lemma LeadsLegal(c: Config, s0: State, trace: seq<Action>, s: State)
    requires Leads(c, s0, trace, s)
    ensures Legal(c, s0, trace) && After(c, s0, trace) == s
  {
    var states :| Passes(c, states, trace) && states[0] == s0 && states[|trace|] == s;
    PassesLegal(c, states, trace);
  }

  lemma {:induction false} PassesLegal(c: Config, states: seq<State>, trace: seq<Action>)
    requires Passes(c, states, trace)
    ensures Legal(c, states[0], trace) && After(c, states[0], trace) == states[|trace|]
    decreases |trace|
  {
    if trace == [] {
    } else {
      assert StepAt(c, states, trace, 0);
      forall k | 0 <= k < |trace| - 1 ensures StepAt(c, states[1..], trace[1..], k) {
        assert StepAt(c, states, trace, k + 1);
      }
      PassesLegal(c, states[1..], trace[1..]);
    }
  }

  /* ---------- one more step, by who takes it ---------- */

  lemma ThenWorker(c: Config, s0: State, trace: seq<Action>, s: State, i: nat, a: Action)
    requires Leads(c, s0, trace, s) && ByWorker(a) && i == a.worker
    requires WorkerIn(s, i) && WorkerCan(c, s.status, s.workers[i].phase, a)
    ensures Leads(c, s0, trace + [a], WorkerApply(c, s, i, a))
  {
    Then(c, s0, trace, s, a);
  }

  lemma ThenManager(c: Config, s0: State, trace: seq<Action>, s: State, a: Action)
    requires Leads(c, s0, trace, s) && !ByWorker(a) && !ByOthers(a) && ManagerCan(c, s, a)
    ensures Leads(c, s0, trace + [a], ManagerApply(c, s, a))
  {
    Then(c, s0, trace, s, a);
  }

  lemma ThenOther(c: Config, s0: State, trace: seq<Action>, s: State, a: Action)
    requires Leads(c, s0, trace, s) && ByOthers(a) && OthersCan(s, a)
    ensures Leads(c, s0, trace + [a], OthersApply(s, a))
  {
    Then(c, s0, trace, s, a);
  }
}
