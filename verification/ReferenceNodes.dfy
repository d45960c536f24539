/**
 `ReferenceNode` of octopoes/octopoes/models/tree.py as the mutable tree it is: `filter_children` reassigns the children
 of every node, and does to them what `Prune` does to their values.
 */
module ReferenceNodes {

  import opened ReferenceTrees
  import opened ReferencePruning

  /** One entry of the `children` dictionary. */
  datatype Entry = Entry(name: string, nodes: seq<ReferenceNode>)

  class ReferenceNode {
    const reference: Reference
    var children: seq<Entry>

    /** The value of the tree below this node, and the nodes that make it up or once did. */
    ghost var tree: Tree
    ghost const repr: set<ReferenceNode>

    constructor (reference: Reference, children: seq<Entry>, ghost relations: seq<Relation>)
      requires EntriesValid(children, relations)
      ensures Valid() && tree == Node(reference, relations)
      ensures repr == {this} + AreaOfAll(children)
    {
      AreasAllocated(children);
      this.reference, this.children := reference, children;
      tree, repr := Node(reference, relations), {this} + AreaOfAll(children);
    }

    ghost predicate Valid()
      reads this, repr
      decreases repr, 0, 0
    {
      && this in repr && tree.reference == reference
      && AreaOfAll(children) <= repr - {this} && EntriesValid(children, tree.children)
    }

    /** Lines 15-26. */
    method FilterChildren(f: Filter) returns (keep: bool)
      requires Valid()
      modifies repr
      decreases tree
      ensures Valid() && tree == Prune(old(tree), f) && keep == Keeps(old(tree), f)
    {
      ghost var relations := tree.children;
      var filtered := FilterEntries(children, f, relations);
      DropEmpty(filtered, PruneEach(relations, f));
      EachThenDrop(relations, f);
      children := filtered;
      children := NonEmpty(children);
      tree := Prune(tree, f);
      NothingLeftIff(relations, f);
      SameLengths(children, tree.children);
      if children != [] { return true; }
      keep := f(Node(reference, []));
    }

    /** Lines 28-36. */
    method CollectReferences() returns (references: set<Reference>)
      requires Valid()
      decreases tree
      ensures references == Collect(tree)
    {
      var childReferences: set<Reference> := {};
      SameLengths(children, tree.children);
      for i := 0 to |children|
        invariant |children| == |tree.children| && EntriesValid(children[i..], tree.children[i..])
        invariant childReferences + CollectRelations(tree.children[i..]) == CollectRelations(tree.children)
      {
        EntriesHead(children, tree.children, i);
        AreasAllocated(children[i + 1..]);
        var merged := CollectAll(children[i].nodes, tree.children[i].nodes);
        assert EntriesValid(children[i + 1..], tree.children[i + 1..]);
        childReferences := childReferences + merged;
      }
      references := {reference} + childReferences;
    }
  }

  /* ---------- footprints ---------- */

  ghost function Area(nodes: seq<ReferenceNode>): set<ReferenceNode> {
    if nodes == [] then {} else nodes[0].repr + Area(nodes[1..])
  }

  ghost function AreaOfAll(entries: seq<Entry>): set<ReferenceNode> {
    if entries == [] then {} else Area(entries[0].nodes) + AreaOfAll(entries[1..])
  }

  lemma {:induction false} AreaAllocated(nodes: seq<ReferenceNode>)
    ensures allocated(Area(nodes))
  {
    if nodes == [] {
    } else {
      AreaAllocated(nodes[1..]);
    }
  }

  lemma {:induction false} AreasAllocated(entries: seq<Entry>)
    ensures allocated(AreaOfAll(entries))
  {
    if entries == [] {
    } else {
      AreaAllocated(entries[0].nodes);
      AreasAllocated(entries[1..]);
    }
  }

  /** The nodes hold the given trees and share nothing. */
  ghost predicate NodesValid(nodes: seq<ReferenceNode>, trees: seq<Tree>)
    reads Area(nodes)
    decreases Area(nodes), 1, |nodes|
  {
    if nodes == [] then trees == []
    else
      && trees != [] && nodes[0] in nodes[0].repr && nodes[0].tree == trees[0] && nodes[0].Valid()
      && nodes[0].repr !! Area(nodes[1..]) && NodesValid(nodes[1..], trees[1..])
  }

  ghost predicate EntriesValid(entries: seq<Entry>, relations: seq<Relation>)
    reads AreaOfAll(entries)
    decreases AreaOfAll(entries), 2, |entries|
  {
    if entries == [] then relations == []
    else
      && relations != [] && entries[0].name == relations[0].name
      && NodesValid(entries[0].nodes, relations[0].nodes)
      && Area(entries[0].nodes) !! AreaOfAll(entries[1..]) && EntriesValid(entries[1..], relations[1..])
  }

  lemma EntriesHead(entries: seq<Entry>, relations: seq<Relation>, i: nat)
    requires i < |entries| && i < |relations| && EntriesValid(entries[i..], relations[i..])
    ensures entries[i].name == relations[i].name && NodesValid(entries[i].nodes, relations[i].nodes)
    ensures Area(entries[i].nodes) !! AreaOfAll(entries[i + 1..]) && EntriesValid(entries[i + 1..], relations[i + 1..])
    ensures AreaOfAll(entries[i..]) == Area(entries[i].nodes) + AreaOfAll(entries[i + 1..])
  {
    assert entries[i..][1..] == entries[i + 1..] && relations[i..][1..] == relations[i + 1..];
  }

  lemma NodesHead(nodes: seq<ReferenceNode>, trees: seq<Tree>, j: nat)
    requires j < |nodes| && j < |trees| && NodesValid(nodes[j..], trees[j..])
    ensures nodes[j] in nodes[j].repr && nodes[j].tree == trees[j] && nodes[j].Valid()
    ensures nodes[j].repr !! Area(nodes[j + 1..]) && NodesValid(nodes[j + 1..], trees[j + 1..])
    ensures Area(nodes[j..]) == nodes[j].repr + Area(nodes[j + 1..])
  {
    assert nodes[j..][1..] == nodes[j + 1..] && trees[j..][1..] == trees[j + 1..];
  }

  lemma {:induction false} SameLengths(entries: seq<Entry>, relations: seq<Relation>)
    requires EntriesValid(entries, relations)
    ensures |entries| == |relations|
  {
    if entries == [] {
    } else {
      SameLengths(entries[1..], relations[1..]);
    }
  }

  lemma {:induction false} SameLength(nodes: seq<ReferenceNode>, trees: seq<Tree>)
    requires NodesValid(nodes, trees)
    ensures |nodes| == |trees|
  {
    if nodes == [] {
    } else {
      SameLength(nodes[1..], trees[1..]);
    }
  }

  /* ---------- the two comprehensions ---------- */

  function NonEmpty(entries: seq<Entry>): seq<Entry> {
    if entries == [] then []
    else (if entries[0].nodes != [] then [entries[0]] else []) + NonEmpty(entries[1..])
  }

  ghost function NonEmptyRelations(relations: seq<Relation>): seq<Relation> {
    if relations == [] then []
    else (if relations[0].nodes != [] then [relations[0]] else []) + NonEmptyRelations(relations[1..])
  }

  ghost function PruneEach(relations: seq<Relation>, f: Filter): seq<Relation> {
    if relations == [] then []
    else [Relation(relations[0].name, PruneNodes(relations[0].nodes, f))] + PruneEach(relations[1..], f)
  }

  lemma {:induction false} EachThenDrop(relations: seq<Relation>, f: Filter)
    ensures NonEmptyRelations(PruneEach(relations, f)) == PruneRelations(relations, f)
  {
    if relations == [] {
    } else {
      EachThenDrop(relations[1..], f);
    }
  }

  /** Dropping the empty entries keeps the others, and their nodes apart. */
  lemma {:induction false} DropEmpty(entries: seq<Entry>, relations: seq<Relation>)
    requires EntriesValid(entries, relations)
    ensures EntriesValid(NonEmpty(entries), NonEmptyRelations(relations))
    ensures AreaOfAll(NonEmpty(entries)) <= AreaOfAll(entries)
    decreases |entries|
  {
    if entries == [] {
    } else {
      var rest, others := NonEmpty(entries[1..]), NonEmptyRelations(relations[1..]);
      DropEmpty(entries[1..], relations[1..]);
      SameLength(entries[0].nodes, relations[0].nodes);
      if entries[0].nodes != [] {
        assert ([entries[0]] + rest)[1..] == rest && ([relations[0]] + others)[1..] == others;
      } else {
        assert NonEmpty(entries) == rest && NonEmptyRelations(relations) == others;
      }
    }
  }

  lemma {:induction false} EntriesSnoc(entries: seq<Entry>, relations: seq<Relation>, e: Entry, r: Relation)
    requires EntriesValid(entries, relations) && e.name == r.name && NodesValid(e.nodes, r.nodes)
    requires AreaOfAll(entries) !! Area(e.nodes)
    ensures EntriesValid(entries + [e], relations + [r])
    ensures AreaOfAll(entries + [e]) == AreaOfAll(entries) + Area(e.nodes)
    decreases |entries|
  {
    if entries != [] {
      EntriesSnoc(entries[1..], relations[1..], e, r);
      assert (entries + [e])[1..] == entries[1..] + [e] && (relations + [r])[1..] == relations[1..] + [r];
    } else {
      assert [e][1..] == [] && [r][1..] == [] && entries + [e] == [e] && relations + [r] == [r];
    }
  }

  lemma {:induction false} NodesSnoc(nodes: seq<ReferenceNode>, trees: seq<Tree>, n: ReferenceNode)
    requires NodesValid(nodes, trees) && n.Valid() && Area(nodes) !! n.repr
    ensures NodesValid(nodes + [n], trees + [n.tree])
    ensures Area(nodes + [n]) == Area(nodes) + n.repr
    decreases |nodes|
  {
    if nodes != [] {
      NodesSnoc(nodes[1..], trees[1..], n);
      assert (nodes + [n])[1..] == nodes[1..] + [n] && (trees + [n.tree])[1..] == trees[1..] + [n.tree];
    } else {
      assert [n][1..] == [] && [n.tree][1..] == [] && nodes + [n] == [n] && trees + [n.tree] == [n.tree];
    }
  }

  lemma {:induction false} PruneNodesSnoc(trees: seq<Tree>, j: nat, f: Filter)
    requires j < |trees|
    ensures PruneNodes(trees[..j + 1], f)
         == PruneNodes(trees[..j], f) + if Keeps(trees[j], f) then [Prune(trees[j], f)] else []
  {
    if j == 0 {
    } else {
      PruneNodesSnoc(trees[1..], j - 1, f);
      assert trees[..j + 1][1..] == trees[1..][..j] && trees[..j][1..] == trees[1..][..j - 1];
    }
  }

  lemma {:induction false} PruneEachSnoc(relations: seq<Relation>, i: nat, f: Filter)
    requires i < |relations|
    ensures PruneEach(relations[..i + 1], f)
         == PruneEach(relations[..i], f) + [Relation(relations[i].name, PruneNodes(relations[i].nodes, f))]
  {
    if i == 0 {
    } else {
      PruneEachSnoc(relations[1..], i - 1, f);
      assert relations[..i + 1][1..] == relations[1..][..i] && relations[..i][1..] == relations[1..][..i - 1];
    }
  }

  /* ---------- the loops ---------- */

  method FilterEntries(entries: seq<Entry>, f: Filter, ghost relations: seq<Relation>) returns (filtered: seq<Entry>)
    requires EntriesValid(entries, relations)
    modifies AreaOfAll(entries)
    decreases relations
    ensures EntriesValid(filtered, PruneEach(relations, f))
    ensures AreaOfAll(filtered) <= AreaOfAll(entries)
  {
    filtered := [];
    SameLengths(entries, relations);
    for i := 0 to |entries|
      invariant EntriesValid(filtered, PruneEach(relations[..i], f))
      invariant EntriesValid(entries[i..], relations[i..])
      invariant AreaOfAll(filtered) + AreaOfAll(entries[i..]) <= AreaOfAll(entries)
      invariant AreaOfAll(filtered) !! AreaOfAll(entries[i..])
    {
      EntriesHead(entries, relations, i);
      AreasAllocated(entries[i + 1..]);
      AreasAllocated(filtered);
      var nodes := FilterNodes(entries[i].nodes, f, relations[i].nodes);
      assert EntriesValid(entries[i + 1..], relations[i + 1..]);
      assert EntriesValid(filtered, PruneEach(relations[..i], f));
      PruneEachSnoc(relations, i, f);
      EntriesSnoc(filtered, PruneEach(relations[..i], f), Entry(entries[i].name, nodes),
                  Relation(relations[i].name, PruneNodes(relations[i].nodes, f)));
      filtered := filtered + [Entry(entries[i].name, nodes)];
    }
    assert relations[..|relations|] == relations;
  }

  method FilterNodes(nodes: seq<ReferenceNode>, f: Filter, ghost trees: seq<Tree>) returns (kept: seq<ReferenceNode>)
    requires NodesValid(nodes, trees)
    modifies Area(nodes)
    decreases trees
    ensures NodesValid(kept, PruneNodes(trees, f))
    ensures Area(kept) <= Area(nodes)
  {
    kept := [];
    SameLength(nodes, trees);
    for j := 0 to |nodes|
      invariant NodesValid(kept, PruneNodes(trees[..j], f))
      invariant NodesValid(nodes[j..], trees[j..])
      invariant Area(kept) + Area(nodes[j..]) <= Area(nodes) && Area(kept) !! Area(nodes[j..])
    {
      NodesHead(nodes, trees, j);
      AreaAllocated(nodes[j + 1..]);
      AreaAllocated(kept);
      var keep := nodes[j].FilterChildren(f);
      assert NodesValid(nodes[j + 1..], trees[j + 1..]);
      assert NodesValid(kept, PruneNodes(trees[..j], f));
      PruneNodesSnoc(trees, j, f);
      if keep {
        NodesSnoc(kept, PruneNodes(trees[..j], f), nodes[j]);
        kept := kept + [nodes[j]];
      } else {
        assert PruneNodes(trees[..j + 1], f) == PruneNodes(trees[..j], f);
      }
    }
    assert trees[..|trees|] == trees;
  }

  method CollectAll(nodes: seq<ReferenceNode>, ghost trees: seq<Tree>) returns (merged: set<Reference>)
    requires NodesValid(nodes, trees)
    decreases trees
    ensures merged == CollectNodes(trees)
  {
    merged := {};
    SameLength(nodes, trees);
    for j := 0 to |nodes|
      invariant NodesValid(nodes[j..], trees[j..])
      invariant merged + CollectNodes(trees[j..]) == CollectNodes(trees)
    {
      NodesHead(nodes, trees, j);
      AreaAllocated(nodes[j + 1..]);
      var references := nodes[j].CollectReferences();
      assert NodesValid(nodes[j + 1..], trees[j + 1..]);
      merged := merged + references;
    }
  }
}
