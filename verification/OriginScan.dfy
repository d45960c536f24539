/**
 The script that finds the origins to migrate, `migrate_organisation` of boefjes/tools/upgrade_v1_17_0.py: a paged
 scan of the origins, a source method for each where one is found, and a single bulk migration at the end.
 */
module OriginScan {

  import opened OriginMigration

  const PAGE_SIZE := 200

  /** What Bytes answers when asked for the normalizer meta of one origin. `Unreachable` is every exception that is
      not an HTTP status error. */
  datatype Answer = Found(boefje: string) | NotFound | OtherStatus | Unreachable

  datatype Verdict = Skip | Assign(boefje: string) | Unknown | Failure | Crash

  /** The boefjes whose output each normalizer consumes. */
  type Consumed = map<string, seq<string>>

  /** What the script makes of one origin. */
  function Judge(o: Origin, consumed: Consumed, answer: Answer): Verdict {
    if o.sourceMethod != None || o.originType == Inference then Skip
    else if o.normalizer in consumed && |consumed[o.normalizer]| == 1 then Assign(consumed[o.normalizer][0])
    else match answer
      case Found(boefje) => Assign(boefje)
      case NotFound => Unknown
      case OtherStatus => Failure
      case Unreachable => Crash
  }

  /** The origins handed over among the first `n`, each with its source method. */
  function Selected(listing: seq<Origin>, consumed: Consumed, answers: seq<Answer>, n: nat): seq<Origin>
    requires n <= |listing| == |answers|
  {
    if n == 0 then []
    else
      var verdict := Judge(listing[n - 1], consumed, answers[n - 1]);
      Selected(listing, consumed, answers, n - 1) + SelectedOne(listing[n - 1], verdict)
  }

  /** What Bytes answers matters: the origin can have a source method, has none, and no single boefje decides. */
  predicate NeedsAnswer(o: Origin, consumed: Consumed) {
    && o.sourceMethod.None? && !o.originType.Inference?
    && (o.normalizer in consumed ==> |consumed[o.normalizer]| != 1)
  }

  /** The positions of the origins counted as failed. */
  function FailedAt(listing: seq<Origin>, consumed: Consumed, answers: seq<Answer>, n: nat): set<nat>
    requires n <= |listing| == |answers|
  {
    set i: nat | i < n && NeedsAnswer(listing[i], consumed) && answers[i].OtherStatus?
  }

  function Failures(listing: seq<Origin>, consumed: Consumed, answers: seq<Answer>, n: nat): nat
    requires n <= |listing| == |answers|
  {
    |FailedAt(listing, consumed, answers, n)|
  }

  ghost predicate NoCrash(listing: seq<Origin>, consumed: Consumed, answers: seq<Answer>, n: nat)
    requires n <= |listing| == |answers|
  {
    forall i | 0 <= i < n && NeedsAnswer(listing[i], consumed) :: !answers[i].Unreachable?
  }

  lemma FailuresNext(listing: seq<Origin>, consumed: Consumed, answers: seq<Answer>, n: nat)
    requires n < |listing| == |answers|
    ensures Failures(listing, consumed, answers, n + 1) == Failures(listing, consumed, answers, n)
      + if NeedsAnswer(listing[n], consumed) && answers[n].OtherStatus? then 1 else 0
  {
    FailedNext(listing, consumed, answers, n);
  }

  lemma FailedNext(listing: seq<Origin>, consumed: Consumed, answers: seq<Answer>, n: nat)
    requires n < |listing| == |answers|
    ensures FailedAt(listing, consumed, answers, n + 1) == FailedAt(listing, consumed, answers, n)
      + if NeedsAnswer(listing[n], consumed) && answers[n].OtherStatus? then {n} else {}
    ensures n !in FailedAt(listing, consumed, answers, n)
  {
  }

  /** Each verdict is given exactly when it is due. */
  lemma VerdictIff(o: Origin, consumed: Consumed, answer: Answer)
    ensures var verdict := Judge(o, consumed, answer);
      && (verdict.Skip? <==> o.sourceMethod.Some? || o.originType.Inference?)
      && (verdict.Unknown? <==> NeedsAnswer(o, consumed) && answer.NotFound?)
      && (verdict.Failure? <==> NeedsAnswer(o, consumed) && answer.OtherStatus?)
      && (verdict.Crash? <==> NeedsAnswer(o, consumed) && answer.Unreachable?)
  {
  }

  function SelectedOne(o: Origin, verdict: Verdict): seq<Origin> {
    if verdict.Assign? then [o.(sourceMethod := Some(verdict.boefje))] else []
  }

  /** What one more origin adds to a selection that started with `base`. */
  lemma Judged(listing: seq<Origin>, consumed: Consumed, answers: seq<Answer>, n: nat, base: seq<Origin>,
               values: seq<Origin>)
    requires n < |listing| == |answers| && base + values == Selected(listing, consumed, answers, n)
    ensures var verdict := Judge(listing[n], consumed, answers[n]);
      && base + (values + SelectedOne(listing[n], verdict)) == Selected(listing, consumed, answers, n + 1)
      && Failures(listing, consumed, answers, n + 1)
         == Failures(listing, consumed, answers, n) + (if verdict == Failure then 1 else 0)
      && (NoCrash(listing, consumed, answers, n + 1) <==> NoCrash(listing, consumed, answers, n) && verdict != Crash)
  {
    Associate(base, values, SelectedOne(listing[n], Judge(listing[n], consumed, answers[n])));
    VerdictIff(listing[n], consumed, answers[n]);
    FailuresNext(listing, consumed, answers, n);
  }

  lemma Associate(a: seq<Origin>, b: seq<Origin>, c: seq<Origin>)
    ensures a + (b + c) == a + b + c
  {
  }

  lemma CrashesLater(listing: seq<Origin>, consumed: Consumed, answers: seq<Answer>, n: nat, m: nat)
    requires n <= m <= |listing| == |answers| && !NoCrash(listing, consumed, answers, n)
    ensures !NoCrash(listing, consumed, answers, m)
  {
  }

  datatype Outcome = Finished(failed: nat, processed: nat) | Crashed

  function Min(a: nat, b: nat): nat { if a <= b then a else b }

  ghost predicate NoneTwice(records: seq<OriginRecord>) {
    forall i, j | 0 <= i < j < |records| :: records[i] != records[j]
  }

  /** One page of the origin API, parsed into new objects. */
  method ListOrigins(listing: seq<Origin>, offset: nat, limit: nat) returns (page: seq<OriginRecord>)
    ensures |page| == Min(offset + limit, |listing|) - Min(offset, |listing|)
    ensures forall i | 0 <= i < |page| :: fresh(page[i]) && page[i].Value() == listing[offset + i]
    ensures NoneTwice(page)
  {
    page := [];
    while |page| < limit && offset + |page| < |listing|
      invariant |page| <= limit && |page| <= Min(offset + limit, |listing|) - Min(offset, |listing|)
      invariant forall i | 0 <= i < |page| :: fresh(page[i]) && page[i].Value() == listing[offset + i]
      invariant forall i, j | 0 <= i < j < |page| :: page[i] != page[j]
    {
      var record := new OriginRecord(listing[offset + |page|]);
      page := page + [record];
    }
  }

  /** One iteration of the inner loop, lines 110-148: the origin gets its source method in place. */
  method JudgeRecord(origin: OriginRecord, consumed: Consumed, answer: Answer) returns (verdict: Verdict)
    modifies origin
    ensures verdict == Judge(old(origin.Value()), consumed, answer)
    ensures verdict.Unknown? <==> NeedsAnswer(old(origin.Value()), consumed) && answer.NotFound?
    ensures verdict.Failure? <==> NeedsAnswer(old(origin.Value()), consumed) && answer.OtherStatus?
    ensures verdict.Crash? <==> NeedsAnswer(old(origin.Value()), consumed) && answer.Unreachable?
    ensures origin.Value() ==
      if verdict.Assign? then old(origin.Value()).(sourceMethod := Some(verdict.boefje)) else old(origin.Value())
  {
    if origin.sourceMethod != None || origin.originType == Inference {
      return Skip;
    }
    if origin.normalizer in consumed && |consumed[origin.normalizer]| == 1 {
      origin.sourceMethod := Some(consumed[origin.normalizer][0]);
      return Assign(consumed[origin.normalizer][0]);
    }
    match answer {
      case Found(boefje) =>
        origin.sourceMethod := Some(boefje);
        return Assign(boefje);
      case NotFound =>
        return Unknown;
      case OtherStatus =>
        return Failure;
      case Unreachable =>
        return Crash;
    }
  }

  /** The chosen records are those at the given positions of the page, in order. */
  ghost predicate Picks(page: seq<OriginRecord>, chosen: seq<OriginRecord>, positions: seq<nat>, k: nat) {
    && |positions| == |chosen| && k <= |page|
    && (forall i | 0 <= i < |positions| :: positions[i] < k && chosen[i] == page[positions[i]])
    && (forall i, j | 0 <= i < j < |positions| :: positions[i] < positions[j])
  }

  lemma PicksWithin(page: seq<OriginRecord>, chosen: seq<OriginRecord>, positions: seq<nat>, k: nat)
    requires Picks(page, chosen, positions, k)
    ensures Picks(page, chosen, positions, |page|)
  {
  }

  lemma NotPicked(page: seq<OriginRecord>, chosen: seq<OriginRecord>, positions: seq<nat>, k: nat)
    requires NoneTwice(page) && Picks(page, chosen, positions, k) && k < |page|
    ensures forall i | 0 <= i < |chosen| :: chosen[i] != page[k]
    ensures forall i | k < i < |page| :: page[i] != page[k]
  {
  }

  /** One iteration of the inner loop: the origin is listed if it got a source method. */
  method JudgeAt(page: seq<OriginRecord>, k: nat, consumed: Consumed, answer: Answer, updated: seq<OriginRecord>,
                 ghost values: seq<Origin>, ghost positions: seq<nat>)
    returns (updated': seq<OriginRecord>, ghost positions': seq<nat>, verdict: Verdict)
    requires k < |page| && NoneTwice(page) && Picks(page, updated, positions, k) && Holds(updated, values)
    modifies page[k]
    ensures verdict == Judge(old(page[k].Value()), consumed, answer)
    ensures Picks(page, updated', positions', k + 1)
    ensures Holds(updated', values + SelectedOne(old(page[k].Value()), verdict))
    ensures forall i | k < i < |page| :: page[i].Value() == old(page[i].Value())
  {
    NotPicked(page, updated, positions, k);
    verdict := JudgeRecord(page[k], consumed, answer);
    updated', positions' := updated, positions;
    if verdict.Assign? { updated', positions' := updated + [page[k]], positions + [k]; }
  }

  /** The state of the inner loop before origin `k` of the page. */
  ghost predicate Judging(page: seq<OriginRecord>, k: nat, offset: nat, listing: seq<Origin>, consumed: Consumed,
                          answers: seq<Answer>, updated: seq<OriginRecord>, values: seq<Origin>, positions: seq<nat>,
                          failed: nat)
    requires offset + |page| <= |listing| == |answers|
    reads page
  {
    && k <= |page| && Picks(page, updated, positions, k) && Holds(updated, values)
    && (forall i | k <= i < |page| :: page[i].Value() == listing[offset + i])
    && NoCrash(listing, consumed, answers, offset + k)
    && Selected(listing, consumed, answers, offset) + values == Selected(listing, consumed, answers, offset + k)
    && Failures(listing, consumed, answers, offset) + failed == Failures(listing, consumed, answers, offset + k)
  }

  /** ... and its effect. */
  method JudgeOne(page: seq<OriginRecord>, k: nat, offset: nat, ghost listing: seq<Origin>, consumed: Consumed,
                  answers: seq<Answer>, updated: seq<OriginRecord>, ghost values: seq<Origin>,
                  ghost positions: seq<nat>, failed: nat)
    returns (updated': seq<OriginRecord>, ghost values': seq<Origin>, ghost positions': seq<nat>, failed': nat,
             crashed: bool)
    requires offset + |page| <= |listing| == |answers| && k < |page| && NoneTwice(page)
    requires Judging(page, k, offset, listing, consumed, answers, updated, values, positions, failed)
    modifies page[k]
    ensures Picks(page, updated', positions', k + 1) && Holds(updated', values')
    ensures crashed ==> !NoCrash(listing, consumed, answers, offset + k + 1)
    ensures !crashed ==>
      Judging(page, k + 1, offset, listing, consumed, answers, updated', values', positions', failed')
  {
    Judged(listing, consumed, answers, offset + k, Selected(listing, consumed, answers, offset), values);
    var verdict;
    updated', positions', verdict := JudgeAt(page, k, consumed, answers[offset + k], updated, values, positions);
    values' := values + SelectedOne(listing[offset + k], verdict);
    failed' := if verdict.Failure? then failed + 1 else failed;
    crashed := verdict.Crash?;
  }

  /** The inner loop over one page. */
  method JudgePage(page: seq<OriginRecord>, offset: nat, ghost listing: seq<Origin>, consumed: Consumed,
                   answers: seq<Answer>)
    returns (updated: seq<OriginRecord>, ghost values: seq<Origin>, ghost positions: seq<nat>, failed: nat,
             crashed: bool)
    requires offset + |page| <= |listing| == |answers|
    requires NoneTwice(page) && forall i | 0 <= i < |page| :: page[i].Value() == listing[offset + i]
    requires NoCrash(listing, consumed, answers, offset)
    modifies page
    ensures Picks(page, updated, positions, |page|) && Holds(updated, values)
    ensures crashed <==> !NoCrash(listing, consumed, answers, offset + |page|)
    ensures !crashed ==>
      && Selected(listing, consumed, answers, offset) + values == Selected(listing, consumed, answers, offset + |page|)
      && Failures(listing, consumed, answers, offset) + failed == Failures(listing, consumed, answers, offset + |page|)
  {
    updated, values, positions, failed := [], [], [], 0;
    var k := 0;
    while k < |page|
      invariant Judging(page, k, offset, listing, consumed, answers, updated, values, positions, failed)
    {
      updated, values, positions, failed, crashed :=
        JudgeOne(page, k, offset, listing, consumed, answers, updated, values, positions, failed);
      k := k + 1;
      if crashed {
        CrashesLater(listing, consumed, answers, offset + k, offset + |page|);
        PicksWithin(page, updated, positions, k);
        return;
      }
    }
    crashed := false;
  }

  /** One page, from its parsing to the selection from it. */
  method ScanPage(listing: seq<Origin>, consumed: Consumed, answers: seq<Answer>, offset: nat)
    returns (updated: seq<OriginRecord>, ghost values: seq<Origin>, size: nat, failed: nat, crashed: bool)
    requires offset <= |listing| == |answers| && NoCrash(listing, consumed, answers, offset)
    ensures size == Min(PAGE_SIZE, |listing| - offset)
    ensures (forall i | 0 <= i < |updated| :: fresh(updated[i])) && NoneTwice(updated) && Holds(updated, values)
    ensures crashed <==> !NoCrash(listing, consumed, answers, offset + size)
    ensures !crashed ==>
      && Selected(listing, consumed, answers, offset) + values == Selected(listing, consumed, answers, offset + size)
      && Failures(listing, consumed, answers, offset) + failed == Failures(listing, consumed, answers, offset + size)
  {
    var page := ListOrigins(listing, offset, PAGE_SIZE);
    ghost var positions;
    updated, values, positions, failed, crashed := JudgePage(page, offset, listing, consumed, answers);
    size := |page|;
    assert NoneTwice(updated) by {
      forall i, j | 0 <= i < j < |updated| ensures updated[i] != updated[j] {
        assert updated[i] == page[positions[i]] && updated[j] == page[positions[j]];
      }
    }
  }

  /** The loop over the pages. */
  method ScanOrigins(listing: seq<Origin>, consumed: Consumed, answers: seq<Answer>)
    returns (updated: seq<OriginRecord>, failed: nat, crashed: bool)
    requires |answers| == |listing|
    ensures crashed <==> !NoCrash(listing, consumed, answers, |listing|)
    ensures (forall i | 0 <= i < |updated| :: fresh(updated[i])) && NoneTwice(updated)
    ensures !crashed ==> Holds(updated, Selected(listing, consumed, answers, |listing|))
    ensures !crashed ==> failed == Failures(listing, consumed, answers, |listing|)
  {
    var offset := 0;
    updated, failed := [], 0;
    while true
      invariant offset <= |listing|
      invariant (forall i | 0 <= i < |updated| :: fresh(updated[i])) && NoneTwice(updated)
      invariant NoCrash(listing, consumed, answers, offset)
      invariant Holds(updated, Selected(listing, consumed, answers, offset))
      invariant failed == Failures(listing, consumed, answers, offset)
      decreases |listing| - offset
    {
      var more, size, failures;
      ghost var values;
      more, values, size, failures, crashed := ScanPage(listing, consumed, answers, offset);
      if crashed { return; }
      BothHold(updated, Selected(listing, consumed, answers, offset), more, values);
      updated, failed := updated + more, failed + failures;
      if size < PAGE_SIZE { break; }
      offset := offset + PAGE_SIZE;
    }
  }

  lemma BothHold(a: seq<OriginRecord>, valuesA: seq<Origin>, b: seq<OriginRecord>, valuesB: seq<Origin>)
    requires Holds(a, valuesA) && Holds(b, valuesB) && NoneTwice(a) && NoneTwice(b)
    requires forall i, j | 0 <= i < |a| && 0 <= j < |b| :: a[i] != b[j]
    ensures Holds(a + b, valuesA + valuesB) && NoneTwice(a + b)
  {
  }

  /** The whole scan: it visits every listed origin once, whatever the number of pages, and migrates exactly the
      selected ones; an exception on the way leaves the store as it was. */
  method MigrateOrganisation(listing: seq<Origin>, consumed: Consumed, answers: seq<Answer>, session: Session)
    returns (outcome: Outcome)
    requires |answers| == |listing| && session.operations == []
    modifies session
    ensures outcome.Crashed? <==>
      exists i | 0 <= i < |listing| :: NeedsAnswer(listing[i], consumed) && answers[i].Unreachable?
    ensures outcome.Crashed? ==> session.store == old(session.store)
    ensures outcome.Finished? ==>
      && outcome.failed == |FailedAt(listing, consumed, answers, |listing|)|
      && outcome.processed == |Selected(listing, consumed, answers, |listing|)|
      && session.store == Run(old(session.store), Log(Selected(listing, consumed, answers, |listing|)))
  {
    var updated, failed, crashed := ScanOrigins(listing, consumed, answers);
    if crashed { return Crashed; }
    AllHaveSourceMethods(listing, consumed, answers, |listing|);
    var accepted := MigrateOrigins(updated, Selected(listing, consumed, answers, |listing|), session);
    outcome := Finished(failed, |updated|);
  }

  lemma {:induction false} AllHaveSourceMethods(listing: seq<Origin>, consumed: Consumed, answers: seq<Answer>, n: nat)
    requires n <= |listing| == |answers|
    ensures HasSourceMethods(Selected(listing, consumed, answers, n))
  {
    if n == 0 {
    } else {
      AllHaveSourceMethods(listing, consumed, answers, n - 1);
    }
  }

  /* ---------- what is selected ---------- */

  /** A source method is found for the origin at position `i`. */
  predicate Migrates(listing: seq<Origin>, consumed: Consumed, answers: seq<Answer>, i: nat)
    requires i < |listing| == |answers|
  {
    var o := listing[i];
    && o.sourceMethod == None && o.originType != Inference
    && ((o.normalizer in consumed && |consumed[o.normalizer]| == 1) || answers[i].Found?)
  }

  /** A normalizer with a single boefje decides by itself; otherwise Bytes does. */
  function SourceMethodFor(o: Origin, consumed: Consumed, answer: Answer): string
    requires (o.normalizer in consumed && |consumed[o.normalizer]| == 1) || answer.Found?
  {
    if o.normalizer in consumed && |consumed[o.normalizer]| == 1 then consumed[o.normalizer][0] else answer.boefje
  }

  ghost predicate Increasing(positions: seq<nat>) {
    forall a, b | 0 <= a < b < |positions| :: positions[a] < positions[b]
  }

  /** The positions, in order, of the migrating origins. */
  ghost predicate ArePositions(listing: seq<Origin>, consumed: Consumed, answers: seq<Answer>, n: nat,
                               positions: seq<nat>)
    requires n <= |listing| == |answers|
  {
    && Increasing(positions)
    && (forall a | 0 <= a < |positions| :: positions[a] < n && Migrates(listing, consumed, answers, positions[a]))
    && (forall i | 0 <= i < n && Migrates(listing, consumed, answers, i) :: i in positions)
  }

  function Positions(listing: seq<Origin>, consumed: Consumed, answers: seq<Answer>, n: nat): seq<nat>
    requires n <= |listing| == |answers|
  {
    if n == 0 then []
    else
      Positions(listing, consumed, answers, n - 1)
      + if Migrates(listing, consumed, answers, n - 1) then [n - 1] else []
  }

  lemma {:induction false} PositionsMember(listing: seq<Origin>, consumed: Consumed, answers: seq<Answer>, n: nat,
                                           i: nat)
    requires n <= |listing| == |answers|
    ensures i in Positions(listing, consumed, answers, n) <==> i < n && Migrates(listing, consumed, answers, i)
  {
    if n == 0 {
    } else {
      PositionsMember(listing, consumed, answers, n - 1, i);
    }
  }

  lemma {:induction false} PositionsIncrease(listing: seq<Origin>, consumed: Consumed, answers: seq<Answer>, n: nat)
    requires n <= |listing| == |answers|
    ensures Increasing(Positions(listing, consumed, answers, n))
  {
    if n == 0 {
    } else {
      PositionsIncrease(listing, consumed, answers, n - 1);
      var before := Positions(listing, consumed, answers, n - 1);
      forall a | 0 <= a < |before| ensures before[a] < n - 1 {
        PositionsMember(listing, consumed, answers, n - 1, before[a]);
      }
    }
  }

  lemma PositionsAreRight(listing: seq<Origin>, consumed: Consumed, answers: seq<Answer>, n: nat)
    requires n <= |listing| == |answers|
    ensures ArePositions(listing, consumed, answers, n, Positions(listing, consumed, answers, n))
  {
    var positions := Positions(listing, consumed, answers, n);
    PositionsIncrease(listing, consumed, answers, n);
    forall i: nat ensures i in positions <==> i < n && Migrates(listing, consumed, answers, i) {
      PositionsMember(listing, consumed, answers, n, i);
    }
    assert forall a | 0 <= a < |positions| :: positions[a] in positions;
  }

  /** A migrating origin with the source method found for it. */
  function Assigned(listing: seq<Origin>, consumed: Consumed, answers: seq<Answer>, i: nat): Origin
    requires i < |listing| == |answers| && Migrates(listing, consumed, answers, i)
  {
    listing[i].(sourceMethod := Some(SourceMethodFor(listing[i], consumed, answers[i])))
  }

  lemma {:induction false} SelectedAt(listing: seq<Origin>, consumed: Consumed, answers: seq<Answer>, n: nat)
    requires n <= |listing| == |answers|
    ensures |Selected(listing, consumed, answers, n)| == |Positions(listing, consumed, answers, n)|
    ensures forall a | 0 <= a < |Positions(listing, consumed, answers, n)| ::
      var i := Positions(listing, consumed, answers, n)[a];
      && i < n && Migrates(listing, consumed, answers, i)
      && Selected(listing, consumed, answers, n)[a] == Assigned(listing, consumed, answers, i)
  {
    if n == 0 {
    } else {
      SelectedAt(listing, consumed, answers, n - 1);
      assert Judge(listing[n - 1], consumed, answers[n - 1]).Assign? <==> Migrates(listing, consumed, answers, n - 1);
    }
  }

  /** The selection is, in listing order and once each, every origin a source method is found for, changed in that
      field alone. */
  lemma SelectedExactly(listing: seq<Origin>, consumed: Consumed, answers: seq<Answer>) returns (positions: seq<nat>)
    requires |listing| == |answers|
    ensures ArePositions(listing, consumed, answers, |listing|, positions)
    ensures |Selected(listing, consumed, answers, |listing|)| == |positions|
    ensures forall a | 0 <= a < |positions| ::
      Selected(listing, consumed, answers, |listing|)[a] == Assigned(listing, consumed, answers, positions[a])
  {
    positions := Positions(listing, consumed, answers, |listing|);
    PositionsAreRight(listing, consumed, answers, |listing|);
    SelectedAt(listing, consumed, answers, |listing|);
  }

  /** The listing of a store: all origins that pass the filter on normalizers, once each. An empty filter is no
      filter. */
  ghost predicate ListingOf(store: Store, consumed: Consumed, listing: seq<Origin>) {
    && (forall i | 0 <= i < |listing| :: Id(listing[i]) in store && store[Id(listing[i])] == listing[i])
    && (forall i, j | 0 <= i < j < |listing| :: Id(listing[i]) != Id(listing[j]))
    && (forall i | 0 <= i < |listing| :: consumed == map[] || listing[i].normalizer in consumed)
    && (forall id | id in store && (consumed == map[] || store[id].normalizer in consumed) :: store[id] in listing)
  }

  lemma SelectedIsListed(store: Store, listing: seq<Origin>, consumed: Consumed, answers: seq<Answer>)
    requires |listing| == |answers| && ListingOf(store, consumed, listing)
    ensures Listed(store, Selected(listing, consumed, answers, |listing|))
  {
    var selected := Selected(listing, consumed, answers, |listing|);
    var positions := SelectedExactly(listing, consumed, answers);
    AllHaveSourceMethods(listing, consumed, answers, |listing|);
    forall a | 0 <= a < |selected|
      ensures OldId(selected[a]) in store && Results(store[OldId(selected[a])]) == Results(selected[a])
    {
      assert OldId(selected[a]) == Id(listing[positions[a]]);
    }
    forall a, b | 0 <= a < b < |selected| ensures OldId(selected[a]) != OldId(selected[b]) {
      assert OldId(selected[a]) == Id(listing[positions[a]]) && OldId(selected[b]) == Id(listing[positions[b]]);
    }
  }

  /** Whatever Bytes answers the second time, a second run selects no origin that the first one migrated: each of
      its selected origins was left alone by the first run. */
  lemma SecondRunSkipsTheMigrated(store: Store, first: seq<Origin>, consumed: Consumed, answers: seq<Answer>,
                                  second: seq<Origin>, later: seq<Answer>, i: nat)
    requires |first| == |answers| && ListingOf(store, consumed, first)
    requires var after := Run(store, Log(Selected(first, consumed, answers, |first|)));
      |second| == |later| && ListingOf(after, consumed, second)
    requires i < |second| && Migrates(second, consumed, later, i)
    ensures !IsOld(Selected(first, consumed, answers, |first|), Id(second[i]))
    ensures Id(second[i]) in store && store[Id(second[i])] == second[i]
  {
    var selected := Selected(first, consumed, answers, |first|);
    SelectedIsListed(store, first, consumed, answers);
    LogMoves(store, selected);
    OldIsNotTarget(selected, Id(second[i]));
  }

  /** Bytes gives the same answer for an origin each time it is asked. */
  ghost predicate Steady(listing: seq<Origin>, answers: seq<Answer>, bytes: Origin -> Answer)
    requires |listing| == |answers|
  {
    forall i | 0 <= i < |listing| :: answers[i] == bytes(listing[i])
  }

  lemma MigratingIsMoved(listing: seq<Origin>, consumed: Consumed, answers: seq<Answer>, j: nat)
    requires |listing| == |answers| && j < |listing| && Migrates(listing, consumed, answers, j)
    ensures IsOld(Selected(listing, consumed, answers, |listing|), Id(listing[j]))
  {
    var positions := SelectedExactly(listing, consumed, answers);
    var a :| 0 <= a < |positions| && positions[a] == j;
    assert OldId(Selected(listing, consumed, answers, |listing|)[a]) == Id(listing[j]);
  }

  /** The script is idempotent as long as Bytes gives the same answers: a second run selects nothing. */
  lemma SecondRunSelectsNothing(store: Store, first: seq<Origin>, consumed: Consumed, answers: seq<Answer>,
                                second: seq<Origin>, later: seq<Answer>, bytes: Origin -> Answer)
    requires |first| == |answers| && ListingOf(store, consumed, first) && Steady(first, answers, bytes)
    requires var after := Run(store, Log(Selected(first, consumed, answers, |first|)));
      |second| == |later| && ListingOf(after, consumed, second) && Steady(second, later, bytes)
    ensures Selected(second, consumed, later, |second|) == []
  {
    var positions := SelectedExactly(second, consumed, later);
    if positions != [] {
      var i := positions[0];
      SecondRunSkipsTheMigrated(store, first, consumed, answers, second, later, i);
      var j :| 0 <= j < |first| && first[j] == second[i];
      MigratingIsMoved(first, consumed, answers, j);
    }
  }
}
