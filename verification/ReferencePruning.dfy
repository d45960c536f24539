/**
 Pruning gives the largest tree with the same root in which every leaf below the root is accepted by the callback
 (octopoes/octopoes/models/tree.py, lines 15-26).
 */
module ReferencePruning {

  import opened ReferenceTrees

  /** Every leaf at or below the node is accepted, and no relation is empty. */
  predicate Witnessed(t: Tree, f: Filter) {
    if t.children == [] then f(t) else WitnessedRelations(t.children, f)
  }

  predicate WitnessedRelations(relations: seq<Relation>, f: Filter) {
    relations == [] ||
    (relations[0].nodes != [] && WitnessedNodes(relations[0].nodes, f) && WitnessedRelations(relations[1..], f))
  }

  predicate WitnessedNodes(nodes: seq<Tree>, f: Filter) {
    nodes == [] || (Witnessed(nodes[0], f) && WitnessedNodes(nodes[1..], f))
  }

  /** Every leaf below the root is accepted, and no relation is empty. */
  predicate Justified(t: Tree, f: Filter) {
    WitnessedRelations(t.children, f)
  }

  /** `s` is what is left of `t` after taking away some of the nodes and relations below its root. */
  predicate Part(s: Tree, t: Tree)
    decreases t
  {
    s.reference == t.reference && PartRelations(s.children, t.children)
  }

  predicate PartRelations(some: seq<Relation>, all: seq<Relation>)
    decreases all
  {
    some == [] ||
    (all != [] &&
     ((some[0].name == all[0].name && PartNodes(some[0].nodes, all[0].nodes) && PartRelations(some[1..], all[1..])) ||
      PartRelations(some, all[1..])))
  }

  predicate PartNodes(some: seq<Tree>, all: seq<Tree>)
    decreases all
  {
    some == [] ||
    (all != [] && ((Part(some[0], all[0]) && PartNodes(some[1..], all[1..])) || PartNodes(some, all[1..])))
  }

  /* ---------- pruning gives a justified part ---------- */

  lemma {:induction false} NothingLeftIff(relations: seq<Relation>, f: Filter)
    ensures PruneRelations(relations, f) == [] <==> !KeepsSome(relations, f)
  {
    if relations == [] {
    } else {
      NoneLeftIff(relations[0].nodes, f);
      NothingLeftIff(relations[1..], f);
    }
  }

  lemma {:induction false} NoneLeftIff(nodes: seq<Tree>, f: Filter)
    ensures PruneNodes(nodes, f) == [] <==> !KeepsAny(nodes, f)
  {
    if nodes == [] {
    } else {
      NoneLeftIff(nodes[1..], f);
    }
  }

  lemma {:induction false} PruneJustifies(t: Tree, f: Filter)
    ensures Justified(Prune(t, f), f)
    ensures Keeps(t, f) ==> Witnessed(Prune(t, f), f)
    decreases t
  {
    PruneJustifiesRelations(t.children, f);
    NothingLeftIff(t.children, f);
  }

  lemma {:induction false} PruneJustifiesRelations(relations: seq<Relation>, f: Filter)
    ensures WitnessedRelations(PruneRelations(relations, f), f)
    decreases relations
  {
    if relations == [] {
    } else {
      var nodes, rest := PruneNodes(relations[0].nodes, f), PruneRelations(relations[1..], f);
      PruneJustifiesNodes(relations[0].nodes, f);
      PruneJustifiesRelations(relations[1..], f);
      assert nodes != [] ==> ([Relation(relations[0].name, nodes)] + rest)[1..] == rest;
      assert nodes == [] ==> PruneRelations(relations, f) == rest;
    }
  }

  lemma {:induction false} PruneJustifiesNodes(nodes: seq<Tree>, f: Filter)
    ensures WitnessedNodes(PruneNodes(nodes, f), f)
    decreases nodes
  {
    if nodes == [] {
    } else {
      var rest := PruneNodes(nodes[1..], f);
      PruneJustifies(nodes[0], f);
      PruneJustifiesNodes(nodes[1..], f);
      assert ([Prune(nodes[0], f)] + rest)[1..] == rest;
      assert !Keeps(nodes[0], f) ==> PruneNodes(nodes, f) == rest;
    }
  }

  lemma {:induction false} PruneIsPart(t: Tree, f: Filter)
    ensures Part(Prune(t, f), t)
    decreases t
  {
    PruneRelationsIsPart(t.children, f);
  }

  lemma {:induction false} PruneRelationsIsPart(relations: seq<Relation>, f: Filter)
    ensures PartRelations(PruneRelations(relations, f), relations)
    decreases relations
  {
    if relations == [] {
    } else {
      var nodes, rest := PruneNodes(relations[0].nodes, f), PruneRelations(relations[1..], f);
      PruneNodesIsPart(relations[0].nodes, f);
      PruneRelationsIsPart(relations[1..], f);
      assert nodes != [] ==> ([Relation(relations[0].name, nodes)] + rest)[1..] == rest;
      assert nodes == [] ==> PruneRelations(relations, f) == rest;
    }
  }

  lemma {:induction false} PruneNodesIsPart(nodes: seq<Tree>, f: Filter)
    ensures PartNodes(PruneNodes(nodes, f), nodes)
    decreases nodes
  {
    if nodes == [] {
    } else {
      var rest := PruneNodes(nodes[1..], f);
      PruneIsPart(nodes[0], f);
      PruneNodesIsPart(nodes[1..], f);
      assert ([Prune(nodes[0], f)] + rest)[1..] == rest;
      assert !Keeps(nodes[0], f) ==> PruneNodes(nodes, f) == rest;
    }
  }

  /* ---------- and the largest one ---------- */

  lemma {:induction false} PartOfPruned(s: Tree, t: Tree, f: Filter)
    requires Part(s, t) && Justified(s, f)
    ensures Part(s, Prune(t, f))
    ensures Witnessed(s, f) ==> Keeps(t, f)
    decreases t
  {
    PartOfPrunedRelations(s.children, t.children, f);
    if s.children == [] { assert Bare(s) == s; }
  }

  lemma {:induction false} PartOfPrunedRelations(some: seq<Relation>, all: seq<Relation>, f: Filter)
    requires PartRelations(some, all) && WitnessedRelations(some, f)
    ensures PartRelations(some, PruneRelations(all, f))
    ensures some != [] ==> KeepsSome(all, f)
    decreases all
  {
    if some == [] {
    } else {
      var nodes, rest := PruneNodes(all[0].nodes, f), PruneRelations(all[1..], f);
      assert nodes != [] ==> ([Relation(all[0].name, nodes)] + rest)[1..] == rest;
      assert nodes == [] ==> PruneRelations(all, f) == rest;
      if PartRelations(some, all[1..]) {
        PartOfPrunedRelations(some, all[1..], f);
      } else {
        PartOfPrunedNodes(some[0].nodes, all[0].nodes, f);
        NoneLeftIff(all[0].nodes, f);
        PartOfPrunedRelations(some[1..], all[1..], f);
      }
    }
  }

  lemma {:induction false} PartOfPrunedNodes(some: seq<Tree>, all: seq<Tree>, f: Filter)
    requires PartNodes(some, all) && WitnessedNodes(some, f)
    ensures PartNodes(some, PruneNodes(all, f))
    ensures some != [] ==> KeepsAny(all, f)
    decreases all
  {
    if some == [] {
    } else {
      var rest := PruneNodes(all[1..], f);
      assert ([Prune(all[0], f)] + rest)[1..] == rest;
      assert !Keeps(all[0], f) ==> PruneNodes(all, f) == rest;
      if PartNodes(some, all[1..]) {
        PartOfPrunedNodes(some, all[1..], f);
      } else {
        PartOfPruned(some[0], all[0], f);
        PartOfPrunedNodes(some[1..], all[1..], f);
      }
    }
  }

  /** The pruned tree is a justified part of the tree, and every justified part of the tree is a part of it. */
  lemma PruneIsLargest(t: Tree, f: Filter)
    ensures Part(Prune(t, f), t) && Justified(Prune(t, f), f)
    ensures forall s | Part(s, t) && Justified(s, f) :: Part(s, Prune(t, f))
  {
    PruneIsPart(t, f);
    PruneJustifies(t, f);
    forall s | Part(s, t) && Justified(s, f) ensures Part(s, Prune(t, f)) { PartOfPruned(s, t, f); }
  }

  /* ---------- what pruning leaves alone ---------- */

  lemma {:induction false} WitnessedStays(t: Tree, f: Filter)
    requires Justified(t, f)
    ensures Prune(t, f) == t
    ensures Witnessed(t, f) ==> Keeps(t, f)
    decreases t
  {
    WitnessedRelationsStay(t.children, f);
    if t.children == [] { assert Bare(t) == t; }
  }

  lemma {:induction false} WitnessedRelationsStay(relations: seq<Relation>, f: Filter)
    requires WitnessedRelations(relations, f)
    ensures PruneRelations(relations, f) == relations
    ensures relations != [] ==> KeepsSome(relations, f)
    decreases relations
  {
    if relations == [] {
    } else {
      WitnessedNodesStay(relations[0].nodes, f);
      WitnessedRelationsStay(relations[1..], f);
      assert [relations[0]] + relations[1..] == relations;
    }
  }

  lemma {:induction false} WitnessedNodesStay(nodes: seq<Tree>, f: Filter)
    requires WitnessedNodes(nodes, f)
    ensures PruneNodes(nodes, f) == nodes
    ensures nodes != [] ==> KeepsAny(nodes, f)
    decreases nodes
  {
    if nodes == [] {
    } else {
      WitnessedStays(nodes[0], f);
      WitnessedNodesStay(nodes[1..], f);
      assert [nodes[0]] + nodes[1..] == nodes;
    }
  }

  /** Pruning leaves a tree as it is exactly if every leaf below its root is accepted and no relation is empty. */
  lemma FixedIffJustified(t: Tree, f: Filter)
    ensures Prune(t, f) == t <==> Justified(t, f)
  {
    PruneJustifies(t, f);
    if Justified(t, f) { WitnessedStays(t, f); }
  }

  /** Pruning twice is pruning once, and the answer stays the same. */
  lemma PruneIdempotent(t: Tree, f: Filter)
    ensures Prune(Prune(t, f), f) == Prune(t, f)
    ensures Keeps(Prune(t, f), f) == Keeps(t, f)
  {
    PruneJustifies(t, f);
    WitnessedStays(Prune(t, f), f);
    NothingLeftIff(t.children, f);
    NothingLeftIff(Prune(t, f).children, f);
  }
}
