/**
 `filter_ooi_tree` and `filter_ooi_tree_item` of rocky/tools/ooi_helpers.py on the mutable nodes they work on: the
 `children` of each node are rewritten in place, and a node that is filtered out hands its children to its parent.
 */
module OoiNodes {

  import opened OoiTrees

  /** The value of the `children` key. */
  datatype NodeChildren = Missing | Listed(nodes: seq<OoiNode>)

  class OoiNode {
    const id: string
    const ooiType: string
    var children: NodeChildren

    /** The value of the tree below this node, and the nodes that make it up or once did. */
    ghost var tree: Ooi
    ghost const repr: set<OoiNode>

    constructor (id: string, ooiType: string, children: NodeChildren, ghost trees: seq<Ooi>)
      requires children.Listed? ==> NodesValid(children.nodes, trees)
      ensures Valid()
      ensures tree == Ooi(id, ooiType, if children.Missing? then Absent else Present(trees))
    {
      if children.Listed? { AreaAllocated(children.nodes); }
      this.id, this.ooiType, this.children := id, ooiType, children;
      tree := Ooi(id, ooiType, if children.Missing? then Absent else Present(trees));
      repr := {this} + if children.Missing? then {} else Area(children.nodes);
    }

    ghost predicate Valid()
      reads this, repr
      decreases repr, 0, 0
    {
      && this in repr && tree.id == id && tree.ooiType == ooiType
      && (children.Missing? <==> tree.children.Absent?)
      && (children.Listed? ==>
            Area(children.nodes) <= repr - {this} && NodesValid(children.nodes, tree.children.nodes))
    }

    /** `filter_ooi_tree_item`. */
    method FilterItem(f: Filter, selfExcluded: bool) returns (nodes: seq<OoiNode>)
      requires Valid()
      modifies repr
      decreases tree
      ensures selfExcluded ==> nodes == [this]
      ensures NodesValid(nodes, if selfExcluded then [Rebuilt(old(tree), f)] else Item(old(tree), f))
      ensures Area(nodes) <= repr
    {
      ghost var whole := tree;
      nodes := [];
      if children.Listed? {
        var found := FilterAll(children.nodes, f, tree.children.nodes);
        ghost var trees := Items(whole.children.nodes, f);
        var kept := DedupeNodes(found, id, trees);
        AreaAllocated(kept);
        AreaAllocated(found);
        children := Listed(kept);
        tree := Rebuilt(whole, f);
        assert NodesValid(kept, tree.children.nodes);
        assert NodesValid(found, trees);
        nodes := found;
      }
      if !selfExcluded && !f.Includes(ooiType) { return; }
      assert [this][1..] == [] && [tree][1..] == [];
      return [this];
    }
  }

  /* ---------- footprints ---------- */

  ghost function Area(nodes: seq<OoiNode>): set<OoiNode> {
    if nodes == [] then {} else nodes[0].repr + Area(nodes[1..])
  }

  lemma {:induction false} AreaAllocated(nodes: seq<OoiNode>)
    ensures allocated(Area(nodes))
  {
    if nodes == [] {
    } else {
      AreaAllocated(nodes[1..]);
    }
  }

  /** The nodes hold the given trees and share nothing. */
  ghost predicate NodesValid(nodes: seq<OoiNode>, trees: seq<Ooi>)
    reads Area(nodes)
    decreases Area(nodes), 1, |nodes|
  {
    if nodes == [] then trees == []
    else
      && trees != [] && nodes[0] in nodes[0].repr && nodes[0].tree == trees[0] && nodes[0].Valid()
      && nodes[0].repr !! Area(nodes[1..]) && NodesValid(nodes[1..], trees[1..])
  }

  lemma NodesHead(nodes: seq<OoiNode>, trees: seq<Ooi>, j: nat)
    requires j < |nodes| && j < |trees| && NodesValid(nodes[j..], trees[j..])
    ensures nodes[j] in nodes[j].repr && nodes[j].tree == trees[j] && nodes[j].Valid()
    ensures nodes[j].repr !! Area(nodes[j + 1..]) && NodesValid(nodes[j + 1..], trees[j + 1..])
    ensures Area(nodes[j..]) == nodes[j].repr + Area(nodes[j + 1..])
  {
    assert nodes[j..][1..] == nodes[j + 1..] && trees[j..][1..] == trees[j + 1..];
  }

  lemma {:induction false} SameLength(nodes: seq<OoiNode>, trees: seq<Ooi>)
    requires NodesValid(nodes, trees)
    ensures |nodes| == |trees|
  {
    if nodes == [] {
    } else {
      SameLength(nodes[1..], trees[1..]);
    }
  }

  lemma {:induction false} NodesConcat(a: seq<OoiNode>, trees: seq<Ooi>, b: seq<OoiNode>, others: seq<Ooi>)
    requires NodesValid(a, trees) && NodesValid(b, others) && Area(a) !! Area(b)
    ensures NodesValid(a + b, trees + others)
    ensures Area(a + b) == Area(a) + Area(b)
    decreases |a|
  {
    if a != [] {
      NodesConcat(a[1..], trees[1..], b, others);
      assert (a + b)[1..] == a[1..] + b && (trees + others)[1..] == trees[1..] + others;
    } else {
      assert a + b == b && trees + others == others;
    }
  }

  /* ---------- the loops ---------- */

  lemma {:induction false} ItemsSnoc(trees: seq<Ooi>, j: nat, f: Filter)
    requires j < |trees|
    ensures Items(trees[..j + 1], f) == Items(trees[..j], f) + Item(trees[j], f)
  {
    if j == 0 {
    } else {
      ItemsSnoc(trees[1..], j - 1, f);
      assert trees[..j + 1][1..] == trees[1..][..j] && trees[..j][1..] == trees[1..][..j - 1];
    }
  }

  method FilterAll(nodes: seq<OoiNode>, f: Filter, ghost trees: seq<Ooi>) returns (found: seq<OoiNode>)
    requires NodesValid(nodes, trees)
    modifies Area(nodes)
    decreases trees
    ensures NodesValid(found, Items(trees, f))
    ensures Area(found) <= Area(nodes)
  {
    found := [];
    SameLength(nodes, trees);
    for j := 0 to |nodes|
      invariant NodesValid(found, Items(trees[..j], f))
      invariant NodesValid(nodes[j..], trees[j..])
      invariant Area(found) + Area(nodes[j..]) <= Area(nodes) && Area(found) !! Area(nodes[j..])
    {
      NodesHead(nodes, trees, j);
      AreaAllocated(nodes[j + 1..]);
      AreaAllocated(found);
      var more := nodes[j].FilterItem(f, false);
      assert NodesValid(nodes[j + 1..], trees[j + 1..]);
      assert NodesValid(found, Items(trees[..j], f));
      ItemsSnoc(trees, j, f);
      NodesConcat(found, Items(trees[..j], f), more, Item(trees[j], f));
      found := found + more;
    }
    assert trees[..|trees|] == trees;
  }

  lemma NodesSnoc(nodes: seq<OoiNode>, trees: seq<Ooi>, n: OoiNode)
    requires NodesValid(nodes, trees) && n.Valid() && Area(nodes) !! n.repr
    ensures NodesValid(nodes + [n], trees + [n.tree])
    ensures Area(nodes + [n]) == Area(nodes) + n.repr
  {
    assert [n][1..] == [] && [n.tree][1..] == [];
    NodesConcat(nodes, trees, [n], [n.tree]);
  }

  lemma DedupeStep(done: seq<Ooi>, trees: seq<Ooi>, j: nat, seen: set<string>)
    requires j < |trees|
    ensures done + Dedupe(trees[j..], seen) ==
      if trees[j].id in seen then done + Dedupe(trees[j + 1..], seen)
      else done + [trees[j]] + Dedupe(trees[j + 1..], seen + {trees[j].id})
  {
    assert trees[j..][1..] == trees[j + 1..];
  }

  /** The loop that leaves out duplicates and the node itself. */
  method DedupeNodes(nodes: seq<OoiNode>, id: string, ghost trees: seq<Ooi>) returns (kept: seq<OoiNode>)
    requires NodesValid(nodes, trees)
    ensures NodesValid(kept, Dedupe(trees, {id}))
    ensures Area(kept) <= Area(nodes)
  {
    var childIds: set<string> := {};
    kept := [];
    ghost var done: seq<Ooi>, seen := [], {id};
    SameLength(nodes, trees);
    assert trees[0..] == trees;
    for j := 0 to |nodes|
      invariant seen == {id} + childIds
      invariant NodesValid(kept, done) && NodesValid(nodes[j..], trees[j..])
      invariant Area(kept) + Area(nodes[j..]) <= Area(nodes) && Area(kept) !! Area(nodes[j..])
      invariant Dedupe(trees, {id}) == done + Dedupe(trees[j..], seen)
    {
      NodesHead(nodes, trees, j);
      DedupeStep(done, trees, j, seen);
      var child := nodes[j];
      assert child.id in seen <==> child.id in childIds || child.id == id;
      if child.id !in childIds && child.id != id {
        NodesSnoc(kept, done, child);
        childIds, seen := childIds + {child.id}, seen + {child.id};
        kept, done := kept + [child], done + [child.tree];
      }
    }
    assert done + [] == done;
  }

  /** `filter_ooi_tree`: what comes back is the given root, with the tree below it filtered. */
  method FilterOoiTree(root: OoiNode, f: Filter) returns (res: OoiNode)
    requires root.Valid()
    modifies root.repr
    ensures res == root && res.Valid() && res.tree == FilterTree(old(root.tree), f)
  {
    if f.showTypes == [] && f.hideTypes == [] { return root; }
    var nodes := root.FilterItem(f, true);
    res := nodes[0];
  }
}
