/**
 The migration of origins to ids with a source method: the bulk endpoint `migrate_origins` of
 octopoes/octopoes/api/router.py, and what its operation log does to the store of origins.
 */
module OriginMigration {

  datatype Option<+T> = None | Some(value: T)

  type Reference = string

  datatype OriginType = Declaration | Observation | Inference | Affirmation

  datatype Origin = Origin(
    originType: OriginType,
    normalizer: string,
    source: Reference,
    sourceMethod: Option<string>,
    result: seq<Reference>,
    taskId: Option<nat>
  )

  /** The parts that the `id` property joins; the source method is left out when it is None. */
  datatype OriginId =
    OriginId(originType: OriginType, normalizer: string, sourceMethod: Option<string>, source: Reference)

  function Id(o: Origin): OriginId {
    OriginId(o.originType, o.normalizer, o.sourceMethod, o.source)
  }

  /** Two origins have the same id exactly if all the parts are the same; results and task do not matter. */
  lemma SameIdIff(a: Origin, b: Origin)
    ensures Id(a) == Id(b) <==>
      && a.originType == b.originType && a.normalizer == b.normalizer
      && a.sourceMethod == b.sourceMethod && a.source == b.source
  {
  }

  /** The id before the migration, router.py line 602. */
  function OldId(o: Origin): OriginId {
    Id(o.(sourceMethod := None))
  }

  function Results(o: Origin): set<Reference> {
    set x | x in o.result
  }

  function Distinct(references: seq<Reference>): seq<Reference> {
    if references == [] then []
    else
      var before := Distinct(references[..|references| - 1]);
      if references[|references| - 1] in before then before else before + [references[|references| - 1]]
  }

  /** The stored document: each result once, in order of appearance. */
  function Serialize(o: Origin): Origin {
    o.(result := Distinct(o.result))
  }

  lemma {:induction false} DistinctKeeps(references: seq<Reference>)
    ensures forall x :: x in Distinct(references) <==> x in references
  {
    if references == [] {
    } else {
      var n := |references| - 1;
      DistinctKeeps(references[..n]);
      assert references == references[..n] + [references[n]];
    }
  }

  /** These are the references at the given positions, each its first, in the order of the list. */
  ghost predicate AreFirst(references: seq<Reference>, at: seq<nat>, firsts: seq<Reference>) {
    && |at| == |firsts|
    && (forall a, b | 0 <= a < b < |at| :: at[a] < at[b])
    && (forall a | 0 <= a < |at| :: IsFirst(references, at[a], firsts[a]))
  }

  ghost predicate IsFirst(references: seq<Reference>, k: nat, x: Reference) {
    k < |references| && references[k] == x && forall i | 0 <= i < k :: references[i] != x
  }

  lemma {:induction false} DistinctIsFirst(references: seq<Reference>) returns (at: seq<nat>)
    ensures AreFirst(references, at, Distinct(references))
  {
    at := [];
    if references == [] {
    } else {
      var n := |references| - 1;
      var before := Distinct(references[..n]);
      at := DistinctIsFirst(references[..n]);
      FirstInMore(references, at, before);
      DistinctKeeps(references[..n]);
      if references[n] !in before {
        assert forall i | 0 <= i < n :: references[..n][i] == references[i] && references[i] != references[n];
        at := at + [n];
      }
    }
  }

  lemma FirstInMore(references: seq<Reference>, at: seq<nat>, firsts: seq<Reference>)
    requires references != [] && AreFirst(references[..|references| - 1], at, firsts)
    ensures AreFirst(references, at, firsts) && forall a | 0 <= a < |at| :: at[a] < |references| - 1
  {
    var front := references[..|references| - 1];
    forall a | 0 <= a < |at| ensures IsFirst(references, at[a], firsts[a]) {
      assert IsFirst(front, at[a], firsts[a]);
      forall i | 0 <= i < at[a] ensures references[i] != firsts[a] { assert front[i] == references[i]; }
    }
  }

  /** Storing drops the repetitions among the results, keeps their order, and changes nothing else. */
  lemma SerializedInOrder(o: Origin) returns (at: seq<nat>)
    ensures Serialize(o) == o.(result := Serialize(o).result)
    ensures AreFirst(o.result, at, Serialize(o).result) && Results(Serialize(o)) == Results(o)
  {
    DistinctKeeps(o.result);
    at := DistinctIsFirst(o.result);
  }

  lemma SerializeKeeps(o: Origin)
    ensures Id(Serialize(o)) == Id(o) && Results(Serialize(o)) == Results(o)
  {
    DistinctKeeps(o.result);
  }

  /* ---------- the store and its operations ---------- */

  type Store = map<OriginId, Origin>

  datatype Operation = Put(document: Origin) | Delete(id: OriginId)

  function Apply(store: Store, op: Operation): Store {
    match op
    case Put(document) => store[Id(document) := document]
    case Delete(id) => store - {id}
  }

  function Run(store: Store, ops: seq<Operation>): Store {
    if ops == [] then store else Apply(Run(store, ops[..|ops| - 1]), ops[|ops| - 1])
  }

  /** Some origin has the reference among its results: garbage collection leaves it alone. */
  ghost predicate Supported(store: Store, x: Reference) {
    exists id | id in store :: x in store[id].result
  }

  /** The log for a list of origins, lines 594-603. */
  function Log(origins: seq<Origin>): seq<Operation> {
    if origins == [] then []
    else
      var n := |origins| - 1;
      Log(origins[..n]) + [Put(Serialize(origins[n])), Delete(OldId(origins[n]))]
  }

  /* ---------- the endpoint ---------- */

  class OriginRecord {
    const originType: OriginType
    const normalizer: string
    const source: Reference
    var sourceMethod: Option<string>
    const result: seq<Reference>
    const taskId: Option<nat>

    constructor (o: Origin)
      ensures Value() == o
    {
      originType, normalizer, source := o.originType, o.normalizer, o.source;
      sourceMethod, result, taskId := o.sourceMethod, o.result, o.taskId;
    }

    function Value(): Origin
      reads this
    {
      Origin(originType, normalizer, source, sourceMethod, result, taskId)
    }
  }

  /** The records have these values, in order. */
  ghost predicate Holds(records: seq<OriginRecord>, values: seq<Origin>)
    reads records
  {
    |records| == |values| && forall i | 0 <= i < |records| :: records[i].Value() == values[i]
  }

  class Session {
    var store: Store
    var operations: seq<Operation>

    constructor (store: Store)
      ensures this.store == store && operations == []
    {
      this.store, operations := store, [];
    }

    method Add(op: Operation)
      modifies this`operations
      ensures operations == old(operations) + [op]
    {
      operations := operations + [op];
    }

    method Commit()
      modifies this
      ensures store == Run(old(store), old(operations)) && operations == []
    {
      var i := 0;
      while i < |operations|
        invariant 0 <= i <= |operations| && operations == old(operations)
        invariant store == Run(old(store), operations[..i])
      {
        assert operations[..i + 1][..i] == operations[..i];
        store := Apply(store, operations[i]);
        i := i + 1;
      }
      assert operations[..i] == operations;
      operations := [];
    }
  }

  predicate HasSourceMethods(origins: seq<Origin>) {
    forall i | 0 <= i < |origins| :: origins[i].sourceMethod.Some?
  }

  lemma LogSnoc(origins: seq<Origin>, n: nat)
    requires n < |origins|
    ensures Log(origins[..n + 1]) == Log(origins[..n]) + [Put(Serialize(origins[n]))] + [Delete(OldId(origins[n]))]
  {
    assert origins[..n + 1][..n] == origins[..n];
  }

  /** Lines 600-603: the origin is written with its source method, and deleted as what it was. */
  method LogOrigin(origin: OriginRecord, session: Session)
    requires origin.sourceMethod.Some?
    modifies session`operations, origin
    ensures session.operations
         == old(session.operations) + [Put(Serialize(old(origin.Value())))] + [Delete(OldId(old(origin.Value())))]
    ensures origin.sourceMethod == None
  {
    session.Add(Put(Serialize(origin.Value())));
    origin.sourceMethod := None;
    session.Add(Delete(Id(origin.Value())));
  }

  /** Lines 589-605: either every origin has a source method and the whole log is committed, or nothing is. */
  method MigrateOrigins(origins: seq<OriginRecord>, ghost values: seq<Origin>, session: Session)
    returns (accepted: bool)
    requires session.operations == [] && Holds(origins, values)
    requires forall i, j | 0 <= i < j < |origins| :: origins[i] != origins[j]
    modifies session, origins
    ensures accepted <==> HasSourceMethods(values)
    ensures session.store == if accepted then Run(old(session.store), Log(values)) else old(session.store)
    ensures accepted ==> forall i | 0 <= i < |origins| :: origins[i].sourceMethod == None
  {
    var i := 0;
    while i < |origins|
      invariant 0 <= i <= |origins| && session.store == old(session.store)
      invariant session.operations == Log(values[..i]) && forall j | 0 <= j < i :: values[j].sourceMethod.Some?
      invariant forall j | 0 <= j < i :: origins[j].sourceMethod == None
      invariant forall j | i <= j < |origins| :: origins[j].Value() == values[j]
    {
      var origin := origins[i];
      if origin.sourceMethod == None {
        assert values[i].sourceMethod == None;
        return false;
      }
      LogSnoc(values, i);
      LogOrigin(origin, session);
      i := i + 1;
    }
    assert values[..i] == values;
    session.Commit();
    accepted := true;
  }

  /* ---------- what the log does ---------- */

  /** The origins to migrate are those of the store, listed once each, with a source method added. */
  ghost predicate Listed(store: Store, origins: seq<Origin>) {
    && HasSourceMethods(origins)
    && (forall i | 0 <= i < |origins| ::
          OldId(origins[i]) in store && Results(store[OldId(origins[i])]) == Results(origins[i]))
    && (forall i, j | 0 <= i < j < |origins| :: OldId(origins[i]) != OldId(origins[j]))
  }

  ghost predicate IsTarget(origins: seq<Origin>, id: OriginId) {
    exists i | 0 <= i < |origins| :: Id(origins[i]) == id
  }

  ghost predicate IsOld(origins: seq<Origin>, id: OriginId) {
    exists i | 0 <= i < |origins| :: OldId(origins[i]) == id
  }

  ghost predicate DomainMoved(store: Store, origins: seq<Origin>, after: Store) {
    forall id :: id in after <==> IsTarget(origins, id) || (id in store && !IsOld(origins, id))
  }

  ghost predicate TargetsHold(origins: seq<Origin>, after: Store) {
    forall i | 0 <= i < |origins| :: Id(origins[i]) in after && after[Id(origins[i])] == Serialize(origins[i])
  }

  ghost predicate RestKept(store: Store, origins: seq<Origin>, after: Store) {
    forall id | id in store && !IsTarget(origins, id) && !IsOld(origins, id) :: id in after && after[id] == store[id]
  }

  /** `after` is `store` with exactly the given origins moved to their new ids. */
  ghost predicate Moved(store: Store, origins: seq<Origin>, after: Store) {
    DomainMoved(store, origins, after) && TargetsHold(origins, after) && RestKept(store, origins, after)
  }

  lemma {:induction false} RunConcat(store: Store, a: seq<Operation>, b: seq<Operation>)
    ensures Run(store, a + b) == Run(Run(store, a), b)
  {
    if b == [] {
      assert a + b == a;
    } else {
      var n := |b| - 1;
      assert (a + b)[..|a + b| - 1] == a + b[..n];
      RunConcat(store, a, b[..n]);
    }
  }

  lemma RunPair(store: Store, put: Operation, delete: Operation)
    ensures Run(store, [put]) == Apply(store, put)
    ensures Run(store, [put, delete]) == Apply(Apply(store, put), delete)
  {
    assert [put][..0] == [] && [put, delete][..1] == [put];
  }

  lemma ListedPrefix(store: Store, origins: seq<Origin>, n: nat)
    requires Listed(store, origins) && n <= |origins|
    ensures Listed(store, origins[..n])
  {
  }

  /** The whole log moves exactly the given origins, whether or not their new ids were taken. */
  lemma {:induction false} LogMoves(store: Store, origins: seq<Origin>)
    requires Listed(store, origins)
    ensures Moved(store, origins, Run(store, Log(origins)))
  {
    if origins == [] {
    } else {
      var n := |origins| - 1;
      var before := origins[..n];
      ListedPrefix(store, origins, n);
      LogMoves(store, before);
      RunConcat(store, Log(before), [Put(Serialize(origins[n])), Delete(OldId(origins[n]))]);
      RunPair(Run(store, Log(before)), Put(Serialize(origins[n])), Delete(OldId(origins[n])));
      SerializeKeeps(origins[n]);
      MoveOne(store, origins, Run(store, Log(before)));
    }
  }

  lemma MoveOne(store: Store, origins: seq<Origin>, middle: Store)
    requires Listed(store, origins) && origins != [] && Moved(store, origins[..|origins| - 1], middle)
    ensures var last := origins[|origins| - 1];
      Moved(store, origins, middle[Id(last) := Serialize(last)] - {OldId(last)})
  {
    var n := |origins| - 1;
    var before, last := origins[..n], origins[n];
    var after := middle[Id(last) := Serialize(last)] - {OldId(last)};
    forall id ensures id in after <==> IsTarget(origins, id) || (id in store && !IsOld(origins, id)) {
      MoveOneDomain(store, origins, middle, id);
    }
    forall i | 0 <= i < |origins| ensures Id(origins[i]) in after && after[Id(origins[i])] == Serialize(origins[i]) {
      MoveOneTarget(store, origins, middle, i);
    }
    forall id | id in store && !IsTarget(origins, id) && !IsOld(origins, id)
      ensures id in after && after[id] == store[id]
    {
      MoveOneRest(store, origins, middle, id);
    }
  }

  lemma MoveOneTarget(store: Store, origins: seq<Origin>, middle: Store, i: nat)
    requires Listed(store, origins) && i < |origins| && TargetsHold(origins[..|origins| - 1], middle)
    ensures var last := origins[|origins| - 1];
      var after := middle[Id(last) := Serialize(last)] - {OldId(last)};
      Id(origins[i]) in after && after[Id(origins[i])] == Serialize(origins[i])
  {
    if i < |origins| - 1 {
      DistinctMoves(store, origins, i);
      assert origins[..|origins| - 1][i] == origins[i];
    }
  }

  lemma MoveOneRest(store: Store, origins: seq<Origin>, middle: Store, id: OriginId)
    requires origins != [] && RestKept(store, origins[..|origins| - 1], middle)
    requires id in store && !IsTarget(origins, id) && !IsOld(origins, id)
    ensures var last := origins[|origins| - 1];
      var after := middle[Id(last) := Serialize(last)] - {OldId(last)};
      id in after && after[id] == store[id]
  {
    TargetSnoc(origins, id);
    OldSnoc(origins, id);
  }

  lemma DistinctMoves(store: Store, origins: seq<Origin>, i: nat)
    requires Listed(store, origins) && i < |origins| - 1
    ensures var last := origins[|origins| - 1];
      Id(origins[i]) != Id(last) && OldId(origins[i]) != OldId(last) && Id(origins[i]) != OldId(last)
  {
    assert OldId(origins[i]) != OldId(origins[|origins| - 1]);
  }

  lemma MoveOneDomain(store: Store, origins: seq<Origin>, middle: Store, id: OriginId)
    requires Listed(store, origins) && origins != [] && DomainMoved(store, origins[..|origins| - 1], middle)
    ensures var last := origins[|origins| - 1];
      var after := middle[Id(last) := Serialize(last)] - {OldId(last)};
      id in after <==> IsTarget(origins, id) || (id in store && !IsOld(origins, id))
  {
    var last := origins[|origins| - 1];
    TargetSnoc(origins, id);
    OldSnoc(origins, id);
    if id == OldId(last) { OldIsNotTarget(origins, id); }
    if id == Id(last) { assert Id(last) != OldId(last); }
  }

  lemma TargetSnoc(origins: seq<Origin>, id: OriginId)
    requires origins != []
    ensures IsTarget(origins, id) <==> IsTarget(origins[..|origins| - 1], id) || id == Id(origins[|origins| - 1])
  {
    var before := origins[..|origins| - 1];
    if IsTarget(before, id) {
      var i :| 0 <= i < |before| && Id(before[i]) == id;
      assert Id(origins[i]) == id;
    }
    if IsTarget(origins, id) {
      var i :| 0 <= i < |origins| && Id(origins[i]) == id;
      if i < |before| { assert Id(before[i]) == id; }
    }
  }

  lemma OldSnoc(origins: seq<Origin>, id: OriginId)
    requires origins != []
    ensures IsOld(origins, id) <==> IsOld(origins[..|origins| - 1], id) || id == OldId(origins[|origins| - 1])
  {
    var before := origins[..|origins| - 1];
    if IsOld(before, id) {
      var i :| 0 <= i < |before| && OldId(before[i]) == id;
      assert OldId(origins[i]) == id;
    }
    if IsOld(origins, id) {
      var i :| 0 <= i < |origins| && OldId(origins[i]) == id;
      if i < |before| { assert OldId(before[i]) == id; }
    }
  }

  /** Where the migration takes the origin with a given id. */
  ghost function NewHome(origins: seq<Origin>, id: OriginId): OriginId {
    if IsOld(origins, id) then
      var i :| 0 <= i < |origins| && OldId(origins[i]) == id;
      Id(origins[i])
    else id
  }

  /** With fresh ids the new store is the old one with its ids renamed: every origin keeps its results, no two
      origins are merged, and nothing is added. */
  lemma RenamesExactly(store: Store, origins: seq<Origin>)
    requires Listed(store, origins) && forall id | id in store :: !IsTarget(origins, id)
    ensures var after := Run(store, Log(origins));
      && (forall id | id in store ::
            NewHome(origins, id) in after && Results(after[NewHome(origins, id)]) == Results(store[id]))
      && (forall a, b | a in store && b in store && a != b :: NewHome(origins, a) != NewHome(origins, b))
      && (forall home | home in after :: exists id | id in store :: NewHome(origins, id) == home)
  {
    LogMoves(store, origins);
    var after := Run(store, Log(origins));
    forall id | id in store
      ensures NewHome(origins, id) in after && Results(after[NewHome(origins, id)]) == Results(store[id])
    {
      HomeKeepsResults(store, origins, after, id);
    }
    forall a, b | a in store && b in store && a != b ensures NewHome(origins, a) != NewHome(origins, b) {
      HomesDiffer(store, origins, a, b);
    }
    forall home | home in after ensures exists id | id in store :: NewHome(origins, id) == home {
      if IsTarget(origins, home) {
        var i :| 0 <= i < |origins| && Id(origins[i]) == home;
        assert IsOld(origins, OldId(origins[i]));
        assert NewHome(origins, OldId(origins[i])) == home;
      } else {
        assert NewHome(origins, home) == home;
      }
    }
  }

  lemma HomeKeepsResults(store: Store, origins: seq<Origin>, after: Store, id: OriginId)
    requires Listed(store, origins) && Moved(store, origins, after)
    requires id in store && !IsTarget(origins, id)
    ensures NewHome(origins, id) in after && Results(after[NewHome(origins, id)]) == Results(store[id])
  {
    if IsOld(origins, id) {
      var i :| 0 <= i < |origins| && OldId(origins[i]) == id && NewHome(origins, id) == Id(origins[i]);
      SerializeKeeps(origins[i]);
    }
  }

  lemma HomesDiffer(store: Store, origins: seq<Origin>, a: OriginId, b: OriginId)
    requires Listed(store, origins) && a in store && b in store && a != b
    requires !IsTarget(origins, a) && !IsTarget(origins, b)
    ensures NewHome(origins, a) != NewHome(origins, b)
  {
    if IsOld(origins, a) && !IsOld(origins, b) {
      assert IsTarget(origins, NewHome(origins, a));
    }
    if IsOld(origins, b) && !IsOld(origins, a) {
      assert IsTarget(origins, NewHome(origins, b));
    }
  }

  /* ---------- garbage collection during the migration ---------- */

  /** The reference has a supporter that the migration does not overwrite. */
  ghost predicate SafelySupported(store: Store, origins: seq<Origin>, x: Reference) {
    exists id | id in store :: !IsTarget(origins, id) && x in store[id].result
  }

  ghost predicate AlwaysSupported(store: Store, ops: seq<Operation>, x: Reference) {
    forall n | 0 <= n <= |ops| :: Supported(Run(store, ops[..n]), x)
  }

  lemma {:induction false} LogLength(origins: seq<Origin>, k: nat)
    requires k <= |origins|
    ensures |Log(origins)| == 2 * |origins|
    ensures Log(origins)[..2 * k] == Log(origins[..k])
    ensures k < |origins| ==>
      Log(origins)[..2 * k + 1] == Log(origins[..k]) + [Put(Serialize(origins[k]))]
  {
    if origins == [] {
      assert origins[..k] == [];
    } else {
      var n := |origins| - 1;
      LogLength(origins[..n], if k <= n then k else n);
      assert origins[..n + 1] == origins;
      LogSnoc(origins, n);
      if k > n {
        assert origins[..k] == origins;
      } else {
        assert origins[..n][..k] == origins[..k];
        LogPrefix(Log(origins[..n]), Put(Serialize(origins[n])), Delete(OldId(origins[n])), k, n);
      }
    }
  }

  lemma LogPrefix(log: seq<Operation>, put: Operation, delete: Operation, k: nat, n: nat)
    requires |log| == 2 * n && k <= n
    ensures (log + [put] + [delete])[..2 * k] == log[..2 * k]
    ensures k < n ==> (log + [put] + [delete])[..2 * k + 1] == log[..2 * k + 1]
    ensures k == n ==> (log + [put] + [delete])[..2 * k + 1] == log + [put]
  {
  }

  /** When all of the first `k` origins have been moved, and the next has been written but not yet deleted. */
  lemma PrefixSupported(store: Store, origins: seq<Origin>, k: nat, x: Reference)
    requires Listed(store, origins) && k <= |origins| && SafelySupported(store, origins, x)
    ensures Supported(Run(store, Log(origins[..k])), x)
    ensures k < |origins| ==> Supported(Run(store, Log(origins[..k]) + [Put(Serialize(origins[k]))]), x)
  {
    var before := origins[..k];
    ListedPrefix(store, origins, k);
    LogMoves(store, before);
    var middle := Run(store, Log(before));
    var id :| id in store && !IsTarget(origins, id) && x in store[id].result;
    var kept := WhereNow(store, origins, k, middle, id, x);
    assert Supported(middle, x);
    if k < |origins| {
      var put := Put(Serialize(origins[k]));
      RunConcat(store, Log(before), [put]);
      RunPair(middle, put, put);
      SerializeKeeps(origins[k]);
      NewTarget(store, origins, k, kept);
      assert kept in Apply(middle, put);
    }
  }

  /** Where a safely supported reference finds its supporter after the first `k` moves. */
  lemma WhereNow(store: Store, origins: seq<Origin>, k: nat, middle: Store, id: OriginId, x: Reference)
    returns (kept: OriginId)
    requires Listed(store, origins) && k <= |origins| && Moved(store, origins[..k], middle)
    requires id in store && !IsTarget(origins, id) && x in store[id].result
    ensures kept in middle && x in middle[kept].result
    ensures kept == id || (IsTarget(origins[..k], kept))
  {
    var before := origins[..k];
    if IsOld(before, id) {
      var i :| 0 <= i < k && OldId(before[i]) == id;
      kept := Id(before[i]);
      SerializeKeeps(before[i]);
      assert before[i] == origins[i] && x in Results(store[OldId(origins[i])]);
    } else {
      forall i | 0 <= i < k ensures Id(before[i]) != id { assert before[i] == origins[i]; }
      kept := id;
    }
  }

  lemma NewTarget(store: Store, origins: seq<Origin>, k: nat, kept: OriginId)
    requires Listed(store, origins) && k < |origins|
    requires !IsTarget(origins, kept) || IsTarget(origins[..k], kept)
    ensures Id(origins[k]) != kept
  {
    if IsTarget(origins[..k], kept) {
      var i :| 0 <= i < k && Id(origins[..k][i]) == kept;
      assert OldId(origins[i]) != OldId(origins[k]);
    }
  }

  lemma SafeEverywhere(store: Store, origins: seq<Origin>, x: Reference, n: nat)
    requires Listed(store, origins) && SafelySupported(store, origins, x)
    requires n <= |Log(origins)|
    ensures Supported(Run(store, Log(origins)[..n]), x)
  {
    LogLength(origins, |origins|);
    var k := n / 2;
    assert n == 2 * k || (n == 2 * k + 1 && k < |origins|);
    LogLength(origins, k);
    PrefixSupported(store, origins, k, x);
  }

  lemma SupportedAfterwards(store: Store, origins: seq<Origin>, after: Store, x: Reference)
    requires Listed(store, origins) && Moved(store, origins, after) && Supported(after, x)
    ensures SafelySupported(store, origins, x)
  {
    var id :| id in after && x in after[id].result;
    if IsTarget(origins, id) {
      var i :| 0 <= i < |origins| && Id(origins[i]) == id;
      SerializeKeeps(origins[i]);
      assert x in Results(store[OldId(origins[i])]);
      OldIsNotTarget(origins, OldId(origins[i]));
    } else {
      assert !IsOld(origins, id) && after[id] == store[id];
    }
  }

  /** The migration keeps a reference supported through every prefix of its log exactly if some origin supports it
      whose id is not one that the migration writes to. */
  lemma SafeIffNotOverwritten(store: Store, origins: seq<Origin>, x: Reference)
    requires Listed(store, origins)
    ensures AlwaysSupported(store, Log(origins), x) <==> SafelySupported(store, origins, x)
  {
    if SafelySupported(store, origins, x) {
      forall n | 0 <= n <= |Log(origins)| ensures Supported(Run(store, Log(origins)[..n]), x) {
        SafeEverywhere(store, origins, x, n);
      }
    }
    if AlwaysSupported(store, Log(origins), x) {
      assert Log(origins)[..|Log(origins)|] == Log(origins);
      LogMoves(store, origins);
      SupportedAfterwards(store, origins, Run(store, Log(origins)), x);
    }
  }

  lemma OldIsNotTarget(origins: seq<Origin>, id: OriginId)
    requires HasSourceMethods(origins) && id.sourceMethod == None
    ensures !IsTarget(origins, id)
  {
  }

  /** With fresh ids nothing that was supported is ever unsupported. */
  lemma FreshIdsAreSafe(store: Store, origins: seq<Origin>, x: Reference)
    requires Listed(store, origins) && forall id | id in store :: !IsTarget(origins, id)
    requires Supported(store, x)
    ensures AlwaysSupported(store, Log(origins), x)
  {
    SafeIffNotOverwritten(store, origins, x);
  }

  /* ---------- the order matters ---------- */

  /** The log with each deletion before its put. */
  function DeleteFirst(origins: seq<Origin>): seq<Operation> {
    if origins == [] then []
    else
      var n := |origins| - 1;
      DeleteFirst(origins[..n]) + [Delete(OldId(origins[n])), Put(Serialize(origins[n]))]
  }

  lemma Swap(store: Store, id: OriginId, former: OriginId, document: Origin)
    requires id != former
    ensures store[id := document] - {former} == (store - {former})[id := document]
  {
  }

  lemma {:induction false} DeleteFirstMoves(store: Store, origins: seq<Origin>)
    requires Listed(store, origins)
    ensures Moved(store, origins, Run(store, DeleteFirst(origins)))
  {
    if origins == [] {
    } else {
      var n := |origins| - 1;
      var before, last := origins[..n], origins[n];
      ListedPrefix(store, origins, n);
      DeleteFirstMoves(store, before);
      var middle := Run(store, DeleteFirst(before));
      RunConcat(store, DeleteFirst(before), [Delete(OldId(last)), Put(Serialize(last))]);
      RunPair(middle, Delete(OldId(last)), Put(Serialize(last)));
      SerializeKeeps(last);
      MoveOne(store, origins, middle);
      Swap(middle, Id(last), OldId(last), Serialize(last));
    }
  }

  lemma NotAmongTheMoved(store: Store, origins: seq<Origin>, middle: Store, id: OriginId, x: Reference)
    requires Listed(store, origins) && origins != [] && Moved(store, origins[..|origins| - 1], middle)
    requires forall other | other in store && other != OldId(origins[|origins| - 1]) :: x !in store[other].result
    requires id in middle && id != OldId(origins[|origins| - 1])
    ensures x !in middle[id].result
  {
    var before := origins[..|origins| - 1];
    if IsTarget(before, id) {
      var i :| 0 <= i < |before| && Id(before[i]) == id;
      SerializeKeeps(before[i]);
      DistinctMoves(store, origins, i);
      assert before[i] == origins[i] && x !in Results(store[OldId(origins[i])]);
      assert x !in Results(middle[id]);
    }
  }

  /** Deleting first would leave every reference whose only supporter is being migrated unsupported for a while. */
  lemma {:induction false} DeletingFirstIsUnsafe(store: Store, origins: seq<Origin>, x: Reference)
    requires Listed(store, origins) && origins != []
    requires var last := origins[|origins| - 1];
      x in last.result && forall id | id in store && id != OldId(last) :: x !in store[id].result
    ensures !AlwaysSupported(store, DeleteFirst(origins), x)
  {
    var n := |origins| - 1;
    var before, last := origins[..n], origins[n];
    ListedPrefix(store, origins, n);
    DeleteFirstMoves(store, before);
    var middle := Run(store, DeleteFirst(before));
    var ops := DeleteFirst(origins);
    var prefix := DeleteFirst(before) + [Delete(OldId(last))];
    assert ops[..|prefix|] == prefix;
    RunConcat(store, DeleteFirst(before), [Delete(OldId(last))]);
    RunPair(middle, Delete(OldId(last)), Delete(OldId(last)));
    var during := middle - {OldId(last)};
    forall id | id in during ensures x !in during[id].result {
      NotAmongTheMoved(store, origins, middle, id, x);
    }
    assert !Supported(Run(store, ops[..|prefix|]), x);
  }
}
