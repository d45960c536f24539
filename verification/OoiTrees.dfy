/**
 Filtering a tree of objects by type: `filter_ooi_tree` and `filter_ooi_tree_item` of rocky/tools/ooi_helpers.py, as
 values. A node that is filtered out is replaced by its children.
 */
module OoiTrees {

  /** A node; its `children` key may be missing. */
  datatype Ooi = Ooi(id: string, ooiType: string, children: Children)

  datatype Children = Absent | Present(nodes: seq<Ooi>)

  datatype Filter = Filter(showTypes: seq<string>, hideTypes: seq<string>) {

    /** `include_type`: hiding takes precedence over showing. */
    predicate Includes(ooiType: string) {
      if hideTypes != [] && ooiType in hideTypes then false
      else if showTypes != [] then ooiType in showTypes
      else true
    }
  }

  function Kids(t: Ooi): seq<Ooi> {
    match t.children
    case Absent => []
    case Present(nodes) => nodes
  }

  /** The first of the nodes of each id, without those whose id is in `seen`. */
  function Dedupe(nodes: seq<Ooi>, seen: set<string>): seq<Ooi> {
    if nodes == [] then []
    else if nodes[0].id in seen then Dedupe(nodes[1..], seen)
    else [nodes[0]] + Dedupe(nodes[1..], seen + {nodes[0].id})
  }

  /** What `filter_ooi_tree_item` makes of the node itself. */
  function Rebuilt(t: Ooi, f: Filter): Ooi
    decreases t, 0
  {
    match t.children
    case Absent => t
    case Present(nodes) => t.(children := Present(Dedupe(Items(nodes, f), {t.id})))
  }

  /** What `filter_ooi_tree_item` returns for a node that is not exempt: itself, or its filtered children with their
      duplicates. */
  function Item(t: Ooi, f: Filter): seq<Ooi>
    decreases t, 1
  {
    if f.Includes(t.ooiType) then [Rebuilt(t, f)] else
    match t.children
    case Absent => []
    case Present(nodes) => Items(nodes, f)
  }

  function Items(nodes: seq<Ooi>, f: Filter): seq<Ooi>
    decreases nodes, 2
  {
    if nodes == [] then [] else Item(nodes[0], f) + Items(nodes[1..], f)
  }

  /** `filter_ooi_tree`: the root is exempt, and an empty filter does nothing at all. */
  function FilterTree(t: Ooi, f: Filter): Ooi {
    if f.showTypes == [] && f.hideTypes == [] then t else Rebuilt(t, f)
  }

  /* ---------- what is left ---------- */

  predicate SiblingIdsDistinct(nodes: seq<Ooi>, seen: set<string>) {
    nodes == [] || (nodes[0].id !in seen && SiblingIdsDistinct(nodes[1..], seen + {nodes[0].id}))
  }

  /** Below the node every node is of an included type, and the children of each have ids that differ from each other
      and from its own. */
  predicate Clean(t: Ooi, f: Filter) {
    match t.children
    case Absent => true
    case Present(nodes) => SiblingIdsDistinct(nodes, {t.id}) && AllClean(nodes, f)
  }

  predicate AllClean(nodes: seq<Ooi>, f: Filter) {
    nodes == [] || (f.Includes(nodes[0].ooiType) && Clean(nodes[0], f) && AllClean(nodes[1..], f))
  }

  lemma {:induction false} DistinctMeans(nodes: seq<Ooi>, seen: set<string>)
    ensures SiblingIdsDistinct(nodes, seen) <==>
      && (forall i | 0 <= i < |nodes| :: nodes[i].id !in seen)
      && (forall i, j | 0 <= i < j < |nodes| :: nodes[i].id != nodes[j].id)
  {
    if nodes == [] {
    } else {
      DistinctMeans(nodes[1..], seen + {nodes[0].id});
      assert nodes == [nodes[0]] + nodes[1..];
    }
  }

  lemma {:induction false} DedupeIsDistinct(nodes: seq<Ooi>, seen: set<string>)
    ensures SiblingIdsDistinct(Dedupe(nodes, seen), seen)
  {
    if nodes == [] {
    } else {
      if nodes[0].id in seen {
        DedupeIsDistinct(nodes[1..], seen);
      } else {
        var rest := Dedupe(nodes[1..], seen + {nodes[0].id});
        DedupeIsDistinct(nodes[1..], seen + {nodes[0].id});
        assert ([nodes[0]] + rest)[1..] == rest;
      }
    }
  }

  lemma {:induction false} DedupeStaysClean(nodes: seq<Ooi>, seen: set<string>, f: Filter)
    requires AllClean(nodes, f)
    ensures AllClean(Dedupe(nodes, seen), f)
  {
    if nodes == [] {
    } else {
      if nodes[0].id in seen {
        DedupeStaysClean(nodes[1..], seen, f);
      } else {
        var rest := Dedupe(nodes[1..], seen + {nodes[0].id});
        DedupeStaysClean(nodes[1..], seen + {nodes[0].id}, f);
        assert ([nodes[0]] + rest)[1..] == rest;
      }
    }
  }

  lemma {:induction false} CleanConcat(a: seq<Ooi>, b: seq<Ooi>, f: Filter)
    ensures AllClean(a + b, f) <==> AllClean(a, f) && AllClean(b, f)
  {
    if a == [] {
      assert a + b == b;
    } else {
      CleanConcat(a[1..], b, f);
      assert (a + b)[1..] == a[1..] + b;
    }
  }

  lemma {:induction false} RebuiltIsClean(t: Ooi, f: Filter)
    ensures Clean(Rebuilt(t, f), f)
    decreases t, 0
  {
    if t.children.Present? {
      ItemsAreClean(t.children.nodes, f);
      DedupeIsDistinct(Items(t.children.nodes, f), {t.id});
      DedupeStaysClean(Items(t.children.nodes, f), {t.id}, f);
    }
  }

  lemma {:induction false} ItemIsClean(t: Ooi, f: Filter)
    ensures AllClean(Item(t, f), f)
    decreases t, 1
  {
    if f.Includes(t.ooiType) {
      RebuiltIsClean(t, f);
    } else if t.children.Present? {
      ItemsAreClean(t.children.nodes, f);
    }
  }

  lemma {:induction false} ItemsAreClean(nodes: seq<Ooi>, f: Filter)
    ensures AllClean(Items(nodes, f), f)
    decreases nodes, 2
  {
    if nodes == [] {
    } else {
      ItemIsClean(nodes[0], f);
      ItemsAreClean(nodes[1..], f);
      CleanConcat(Item(nodes[0], f), Items(nodes[1..], f), f);
    }
  }

  /* ---------- what stays the same ---------- */

  lemma {:induction false} DistinctStays(nodes: seq<Ooi>, seen: set<string>)
    ensures Dedupe(nodes, seen) == nodes <==> SiblingIdsDistinct(nodes, seen)
  {
    if nodes == [] {
    } else {
      if nodes[0].id in seen {
        DedupeIsNoLonger(nodes[1..], seen);
      } else {
        var rest := Dedupe(nodes[1..], seen + {nodes[0].id});
        DistinctStays(nodes[1..], seen + {nodes[0].id});
        assert ([nodes[0]] + rest)[1..] == rest && [nodes[0]] + nodes[1..] == nodes;
      }
    }
  }

  lemma {:induction false} DedupeIsNoLonger(nodes: seq<Ooi>, seen: set<string>)
    ensures |Dedupe(nodes, seen)| <= |nodes|
  {
    if nodes == [] {
    } else {
      if nodes[0].id in seen { DedupeIsNoLonger(nodes[1..], seen); }
      else { DedupeIsNoLonger(nodes[1..], seen + {nodes[0].id}); }
    }
  }

  lemma {:induction false} CleanStays(t: Ooi, f: Filter)
    requires Clean(t, f)
    ensures Rebuilt(t, f) == t
    decreases t
  {
    if t.children.Present? {
      AllCleanStay(t.children.nodes, f);
      DistinctStays(t.children.nodes, {t.id});
    }
  }

  lemma {:induction false} AllCleanStay(nodes: seq<Ooi>, f: Filter)
    requires AllClean(nodes, f)
    ensures Items(nodes, f) == nodes
    decreases nodes
  {
    if nodes == [] {
    } else {
      CleanStays(nodes[0], f);
      AllCleanStay(nodes[1..], f);
      assert [nodes[0]] + nodes[1..] == nodes;
    }
  }

  /** The nodes strictly below a node, in preorder. */
  function Below(t: Ooi): seq<Ooi> {
    match t.children
    case Absent => []
    case Present(nodes) => AllOf(nodes)
  }

  function AllOf(nodes: seq<Ooi>): seq<Ooi> {
    if nodes == [] then [] else [nodes[0]] + Below(nodes[0]) + AllOf(nodes[1..])
  }

  /** Hiding takes precedence, and without types to show all the others are shown. */
  lemma IncludesIff(f: Filter, ooiType: string)
    ensures f.Includes(ooiType) <==> ooiType !in f.hideTypes && (f.showTypes == [] || ooiType in f.showTypes)
  {
  }

  lemma {:induction false} CleanBelow(t: Ooi, f: Filter)
    requires Clean(t, f)
    ensures forall x | x in Below(t) :: f.Includes(x.ooiType)
    decreases t
  {
    if t.children.Present? { AllCleanBelow(t.children.nodes, f); }
  }

  lemma {:induction false} AllCleanBelow(nodes: seq<Ooi>, f: Filter)
    requires AllClean(nodes, f)
    ensures forall x | x in AllOf(nodes) :: f.Includes(x.ooiType)
    decreases nodes
  {
    if nodes == [] {
    } else {
      CleanBelow(nodes[0], f);
      AllCleanBelow(nodes[1..], f);
    }
  }

  /** Below the root no node of a hidden type remains, and if there are types to show only nodes of those. */
  lemma OnlyWantedRemain(t: Ooi, f: Filter, x: Ooi)
    requires x in Below(FilterTree(t, f))
    ensures x.ooiType !in f.hideTypes && (f.showTypes == [] || x.ooiType in f.showTypes)
  {
    if f.showTypes != [] || f.hideTypes != [] {
      RebuiltIsClean(t, f);
      CleanBelow(Rebuilt(t, f), f);
      IncludesIff(f, x.ooiType);
    }
  }

  /** A given filter leaves a tree as it is exactly if it is clean, and makes every tree clean. */
  lemma FixedIffClean(t: Ooi, f: Filter)
    requires f.showTypes != [] || f.hideTypes != []
    ensures Clean(FilterTree(t, f), f)
    ensures FilterTree(t, f) == t <==> Clean(t, f)
  {
    RebuiltIsClean(t, f);
    if Clean(t, f) { CleanStays(t, f); }
  }

  lemma FilterIdempotent(t: Ooi, f: Filter)
    ensures FilterTree(FilterTree(t, f), f) == FilterTree(t, f)
  {
    if f.showTypes != [] || f.hideTypes != [] {
      FixedIffClean(t, f);
      FixedIffClean(FilterTree(t, f), f);
    }
  }
}
