/**
 Trees of references and their pruning: `ReferenceNode` of octopoes/octopoes/models/tree.py, as values.
 */
module ReferenceTrees {

  type Reference = string

  datatype Tree = Node(reference: Reference, children: seq<Relation>)

  /** One entry of the `children` dictionary. */
  datatype Relation = Relation(name: string, nodes: seq<Tree>)

  type Filter = Tree -> bool

  function Bare(t: Tree): Tree {
    Node(t.reference, [])
  }

  /* ---------- pruning ---------- */

  /** What `filter_children` returns. The callback is only ever called on a node that has lost all its children. */
  predicate Keeps(t: Tree, f: Filter) {
    KeepsSome(t.children, f) || f(Bare(t))
  }

  predicate KeepsSome(relations: seq<Relation>, f: Filter) {
    relations != [] && (KeepsAny(relations[0].nodes, f) || KeepsSome(relations[1..], f))
  }

  predicate KeepsAny(nodes: seq<Tree>, f: Filter) {
    nodes != [] && (Keeps(nodes[0], f) || KeepsAny(nodes[1..], f))
  }

  /** What `filter_children` leaves of a tree. */
  function Prune(t: Tree, f: Filter): Tree {
    Node(t.reference, PruneRelations(t.children, f))
  }

  function PruneRelations(relations: seq<Relation>, f: Filter): seq<Relation> {
    if relations == [] then []
    else
      var nodes := PruneNodes(relations[0].nodes, f);
      (if nodes == [] then [] else [Relation(relations[0].name, nodes)]) + PruneRelations(relations[1..], f)
  }

  function PruneNodes(nodes: seq<Tree>, f: Filter): seq<Tree> {
    if nodes == [] then []
    else (if Keeps(nodes[0], f) then [Prune(nodes[0], f)] else []) + PruneNodes(nodes[1..], f)
  }

  /* ---------- nodes below a node ---------- */

  /** The nodes strictly below a node, in preorder. */
  function Below(t: Tree): seq<Tree> {
    BelowRelations(t.children)
  }

  function BelowRelations(relations: seq<Relation>): seq<Tree> {
    if relations == [] then [] else BelowNodes(relations[0].nodes) + BelowRelations(relations[1..])
  }

  function BelowNodes(nodes: seq<Tree>): seq<Tree> {
    if nodes == [] then [] else [nodes[0]] + Below(nodes[0]) + BelowNodes(nodes[1..])
  }

  /** The callback accepts the node or some node below it. */
  predicate HasMatch(t: Tree, f: Filter) {
    f(Bare(t)) || AnyMatches(Below(t), f)
  }

  predicate AnyMatches(nodes: seq<Tree>, f: Filter) {
    exists n | n in nodes :: f(Bare(n))
  }

  lemma AnyMatchesConcat(a: seq<Tree>, b: seq<Tree>, f: Filter)
    ensures AnyMatches(a + b, f) <==> AnyMatches(a, f) || AnyMatches(b, f)
  {
    if AnyMatches(a, f) {
      var n :| n in a && f(Bare(n));
      assert n in a + b;
    }
    if AnyMatches(b, f) {
      var n :| n in b && f(Bare(n));
      assert n in a + b;
    }
  }

  lemma {:induction false} KeepsIffMatch(t: Tree, f: Filter)
    ensures Keeps(t, f) <==> HasMatch(t, f)
    decreases t
  {
    KeepsSomeIffMatch(t.children, f);
  }

  lemma {:induction false} KeepsSomeIffMatch(relations: seq<Relation>, f: Filter)
    ensures KeepsSome(relations, f) <==> AnyMatches(BelowRelations(relations), f)
    decreases relations
  {
    if relations == [] {
    } else {
      KeepsAnyIffMatch(relations[0].nodes, f);
      KeepsSomeIffMatch(relations[1..], f);
      AnyMatchesConcat(BelowNodes(relations[0].nodes), BelowRelations(relations[1..]), f);
    }
  }

  lemma {:induction false} KeepsAnyIffMatch(nodes: seq<Tree>, f: Filter)
    ensures KeepsAny(nodes, f) <==> AnyMatches(BelowNodes(nodes), f)
    decreases nodes
  {
    if nodes == [] {
    } else {
      KeepsIffMatch(nodes[0], f);
      KeepsAnyIffMatch(nodes[1..], f);
      AnyMatchesConcat([nodes[0]] + Below(nodes[0]), BelowNodes(nodes[1..]), f);
      AnyMatchesConcat([nodes[0]], Below(nodes[0]), f);
      assert f(Bare(nodes[0])) <==> AnyMatches([nodes[0]], f);
    }
  }

  function References(nodes: seq<Tree>): seq<Reference> {
    if nodes == [] then [] else [nodes[0].reference] + References(nodes[1..])
  }

  /** The references of the nodes with a match at or below them. */
  function Matched(nodes: seq<Tree>, f: Filter): seq<Reference> {
    if nodes == [] then []
    else (if HasMatch(nodes[0], f) then [nodes[0].reference] else []) + Matched(nodes[1..], f)
  }

  lemma Associate(a: seq<Reference>, b: seq<Reference>, c: seq<Reference>)
    ensures a + (b + c) == a + b + c
  {
  }

  lemma {:induction false} ReferencesConcat(a: seq<Tree>, b: seq<Tree>)
    ensures References(a + b) == References(a) + References(b)
  {
    if a == [] {
      assert a + b == b;
    } else {
      ReferencesConcat(a[1..], b);
      assert (a + b)[1..] == a[1..] + b;
      Associate([a[0].reference], References(a[1..]), References(b));
    }
  }

  lemma {:induction false} MatchedConcat(a: seq<Tree>, b: seq<Tree>, f: Filter)
    ensures Matched(a + b, f) == Matched(a, f) + Matched(b, f)
  {
    if a == [] {
      assert a + b == b;
    } else {
      MatchedConcat(a[1..], b, f);
      assert (a + b)[1..] == a[1..] + b;
      Associate(if HasMatch(a[0], f) then [a[0].reference] else [], Matched(a[1..], f), Matched(b, f));
    }
  }

  lemma {:induction false} NothingMatched(nodes: seq<Tree>, f: Filter)
    requires forall n | n in nodes :: !HasMatch(n, f)
    ensures Matched(nodes, f) == []
  {
    if nodes == [] {
    } else {
      NothingMatched(nodes[1..], f);
    }
  }

  /** What is below a node below is below. */
  lemma {:induction false} BelowBelow(t: Tree, n: Tree, m: Tree)
    requires n in Below(t) && m in Below(n)
    ensures m in Below(t)
    decreases t
  {
    BelowBelowRelations(t.children, n, m);
  }

  lemma {:induction false} BelowBelowRelations(relations: seq<Relation>, n: Tree, m: Tree)
    requires n in BelowRelations(relations) && m in Below(n)
    ensures m in BelowRelations(relations)
    decreases relations
  {
    if n in BelowNodes(relations[0].nodes) {
      BelowBelowNodes(relations[0].nodes, n, m);
    } else {
      BelowBelowRelations(relations[1..], n, m);
    }
  }

  lemma {:induction false} BelowBelowNodes(nodes: seq<Tree>, n: Tree, m: Tree)
    requires n in BelowNodes(nodes) && m in Below(n)
    ensures m in BelowNodes(nodes)
    decreases nodes
  {
    if n in Below(nodes[0]) {
      BelowBelow(nodes[0], n, m);
    } else if n in BelowNodes(nodes[1..]) {
      BelowBelowNodes(nodes[1..], n, m);
    }
  }

  /** No node below a node without a match has one. */
  lemma MatchesGoUp(t: Tree, f: Filter)
    requires !HasMatch(t, f)
    ensures Matched(Below(t), f) == []
  {
    forall n | n in Below(t) ensures !HasMatch(n, f) {
      forall m | m in Below(n) ensures !f(Bare(m)) { BelowBelow(t, n, m); }
    }
    NothingMatched(Below(t), f);
  }

  /* ---------- what survives ---------- */

  /** Below the root exactly the nodes with a match at or below them survive, in their order. */
  lemma {:induction false} SurvivorsAreMatched(t: Tree, f: Filter)
    ensures References(Below(Prune(t, f))) == Matched(Below(t), f)
    decreases t
  {
    RelationSurvivors(t.children, f);
  }

  lemma {:induction false} RelationSurvivors(relations: seq<Relation>, f: Filter)
    ensures References(BelowRelations(PruneRelations(relations, f))) == Matched(BelowRelations(relations), f)
    decreases relations
  {
    if relations == [] {
    } else {
      var nodes, rest := PruneNodes(relations[0].nodes, f), PruneRelations(relations[1..], f);
      NodeSurvivors(relations[0].nodes, f);
      RelationSurvivors(relations[1..], f);
      MatchedConcat(BelowNodes(relations[0].nodes), BelowRelations(relations[1..]), f);
      ReferencesConcat(BelowNodes(nodes), BelowRelations(rest));
      if nodes == [] {
        assert PruneRelations(relations, f) == rest;
      } else {
        var first := Relation(relations[0].name, nodes);
        assert ([first] + rest)[1..] == rest;
      }
    }
  }

  lemma {:induction false} NodeSurvivors(nodes: seq<Tree>, f: Filter)
    ensures References(BelowNodes(PruneNodes(nodes, f))) == Matched(BelowNodes(nodes), f)
    decreases nodes
  {
    if nodes == [] {
    } else {
      var first, rest := nodes[0], PruneNodes(nodes[1..], f);
      NodeSurvivors(nodes[1..], f);
      MatchedConcat([first] + Below(first), BelowNodes(nodes[1..]), f);
      MatchedConcat([first], Below(first), f);
      KeepsIffMatch(first, f);
      if Keeps(first, f) {
        SurvivorsAreMatched(first, f);
        var pruned := Prune(first, f);
        ReferencesConcat([pruned] + Below(pruned), BelowNodes(rest));
        ReferencesConcat([pruned], Below(pruned));
        assert ([pruned] + rest)[1..] == rest;
      } else {
        MatchesGoUp(first, f);
        assert Matched([first], f) == [];
        assert PruneNodes(nodes, f) == rest;
      }
    }
  }

  /* ---------- collecting ---------- */

  /** `collect_references`. */
  function Collect(t: Tree): set<Reference> {
    {t.reference} + CollectRelations(t.children)
  }

  function CollectRelations(relations: seq<Relation>): set<Reference> {
    if relations == [] then {} else CollectNodes(relations[0].nodes) + CollectRelations(relations[1..])
  }

  function CollectNodes(nodes: seq<Tree>): set<Reference> {
    if nodes == [] then {} else Collect(nodes[0]) + CollectNodes(nodes[1..])
  }

  function ToSet(references: seq<Reference>): set<Reference> {
    set r | r in references
  }

  lemma {:induction false} CollectIsBelow(t: Tree)
    ensures Collect(t) == {t.reference} + ToSet(References(Below(t)))
    decreases t
  {
    CollectRelationsIsBelow(t.children);
  }

  lemma {:induction false} CollectRelationsIsBelow(relations: seq<Relation>)
    ensures CollectRelations(relations) == ToSet(References(BelowRelations(relations)))
    decreases relations
  {
    if relations == [] {
    } else {
      CollectNodesIsBelow(relations[0].nodes);
      CollectRelationsIsBelow(relations[1..]);
      ReferencesConcat(BelowNodes(relations[0].nodes), BelowRelations(relations[1..]));
    }
  }

  lemma {:induction false} CollectNodesIsBelow(nodes: seq<Tree>)
    ensures CollectNodes(nodes) == ToSet(References(BelowNodes(nodes)))
    decreases nodes
  {
    if nodes == [] {
    } else {
      CollectIsBelow(nodes[0]);
      CollectNodesIsBelow(nodes[1..]);
      ReferencesConcat([nodes[0]] + Below(nodes[0]), BelowNodes(nodes[1..]));
      ReferencesConcat([nodes[0]], Below(nodes[0]));
    }
  }

  lemma {:induction false} MatchedMembers(nodes: seq<Tree>, f: Filter, r: Reference)
    ensures r in Matched(nodes, f) <==> exists n | n in nodes :: HasMatch(n, f) && n.reference == r
  {
    if nodes == [] {
    } else {
      MatchedMembers(nodes[1..], f, r);
      assert nodes[0] in nodes && forall n :: n in nodes <==> n == nodes[0] || n in nodes[1..];
    }
  }

  /** Collecting after pruning gives the root and the references on the way from it to a match. */
  lemma CollectAfterPrune(t: Tree, f: Filter)
    ensures Collect(Prune(t, f)) == {t.reference} + set n | n in Below(t) && HasMatch(n, f) :: n.reference
  {
    CollectIsBelow(Prune(t, f));
    SurvivorsAreMatched(t, f);
    forall r ensures r in Matched(Below(t), f) <==> exists n | n in Below(t) :: HasMatch(n, f) && n.reference == r {
      MatchedMembers(Below(t), f, r);
    }
  }
}
