/**
 Building the object tree of a page from a reference tree: `create_object_tree_item_from_ref` of
 rocky/tools/ooi_helpers.py, and the location strings it gives to the nodes.
 */
module OoiLocations {

  import opened ReferenceTrees

  datatype Option<+T> = None | Some(value: T)

  datatype Item = Item(reference: Reference, depth: nat, location: string, children: seq<Item>)

  /** `str(n)`. */
  function Decimal(n: nat): string {
    if n < 10 then [Digit(n)] else Decimal(n / 10) + [Digit(n % 10)]
  }

  function Digit(n: nat): char
    requires n < 10
  {
    ('0' as int + n) as char
  }

  /** What a build needs to know about references: which are in the store, and which types can be traversed. */
  datatype Context = Context(store: set<Reference>, traversable: set<Reference>) {
    predicate Shows(child: Reference, parent: Reference) {
      child in traversable && child != parent
    }
  }

  /* ---------- the tree that is built ---------- */

  function BuildItem(t: Tree, c: Context, depth: nat, position: nat, location: string): Item
    decreases t, 0
  {
    var here := location + "-" + Decimal(position);
    Item(t.reference, depth + 1, here, BuildRelations(t.children, t.reference, c, depth + 1, 1, here))
  }

  function BuildRelations(relations: seq<Relation>, parent: Reference, c: Context, depth: nat, next: nat,
                          location: string): seq<Item>
    decreases relations, 2
  {
    if relations == [] then []
    else
      var first := BuildNodes(relations[0].nodes, parent, c, depth, next, location);
      first + BuildRelations(relations[1..], parent, c, depth, next + |first|, location)
  }

  function BuildNodes(nodes: seq<Tree>, parent: Reference, c: Context, depth: nat, next: nat,
                      location: string): seq<Item>
    decreases nodes, 1
  {
    if nodes == [] then []
    else if !c.Shows(nodes[0].reference, parent) then BuildNodes(nodes[1..], parent, c, depth, next, location)
    else [BuildItem(nodes[0], c, depth, next, location)] + BuildNodes(nodes[1..], parent, c, depth, next + 1, location)
  }

  /** The store has every object that the build looks up. */
  predicate Stored(t: Tree, c: Context)
    decreases t, 0
  {
    t.reference in c.store && StoredRelations(t.children, t.reference, c)
  }

  predicate StoredRelations(relations: seq<Relation>, parent: Reference, c: Context)
    decreases relations, 2
  {
    relations == [] || (StoredNodes(relations[0].nodes, parent, c) && StoredRelations(relations[1..], parent, c))
  }

  predicate StoredNodes(nodes: seq<Tree>, parent: Reference, c: Context)
    decreases nodes, 1
  {
    nodes == [] ||
    ((c.Shows(nodes[0].reference, parent) ==> Stored(nodes[0], c)) && StoredNodes(nodes[1..], parent, c))
  }

  /* ---------- which nodes the tree has ---------- */

  /** The nodes of all relations, in the order of the relations. */
  function AllNodes(relations: seq<Relation>): seq<Tree> {
    if relations == [] then [] else relations[0].nodes + AllNodes(relations[1..])
  }

  /** The positions, in order, of exactly the nodes that can be traversed and do not repeat the parent. */
  ghost predicate AreShown(nodes: seq<Tree>, parent: Reference, c: Context, at: seq<nat>) {
    && Increasing(at) && (forall a | 0 <= a < |at| :: at[a] < |nodes|)
    && (forall k: nat | k < |nodes| :: k in at <==> nodes[k].reference in c.traversable && nodes[k].reference != parent)
  }

  /** The item is that of the node, and its children are those of the shown nodes, in order. */
  ghost predicate Depicts(item: Item, t: Tree, c: Context) {
    && item.reference == t.reference
    && exists at :: AreShown(AllNodes(t.children), t.reference, c, at)
                    && AllDepict(item.children, AllNodes(t.children), at, c)
  }

  ghost predicate AllDepict(items: seq<Item>, nodes: seq<Tree>, at: seq<nat>, c: Context) {
    |items| == |at| && forall k | 0 <= k < |items| :: at[k] < |nodes| && Depicts(items[k], nodes[at[k]], c)
  }

  function Shifted(at: seq<nat>, offset: nat): seq<nat> {
    seq(|at|, k requires 0 <= k < |at| => at[k] + offset)
  }

  lemma DepictConcat(items: seq<Item>, nodes: seq<Tree>, at: seq<nat>, more: seq<Item>, others: seq<Tree>,
                     at': seq<nat>, c: Context)
    requires AllDepict(items, nodes, at, c) && AllDepict(more, others, at', c)
    ensures AllDepict(items + more, nodes + others, at + Shifted(at', |nodes|), c)
  {
  }

  lemma ShownConcat(nodes: seq<Tree>, at: seq<nat>, others: seq<Tree>, at': seq<nat>, parent: Reference, c: Context)
    requires AreShown(nodes, parent, c, at) && AreShown(others, parent, c, at')
    ensures AreShown(nodes + others, parent, c, at + Shifted(at', |nodes|))
  {
    var all, positions := nodes + others, at + Shifted(at', |nodes|);
    forall k: nat | k < |all|
      ensures k in positions <==> all[k].reference in c.traversable && all[k].reference != parent
    {
      if k < |nodes| {
        InFirst(at, Shifted(at', |nodes|), k);
      } else {
        InShifted(at', |nodes|, k);
        assert forall a | 0 <= a < |at| :: at[a] != k;
      }
    }
  }

  lemma InFirst(at: seq<nat>, more: seq<nat>, k: nat)
    requires forall a | 0 <= a < |more| :: more[a] != k
    ensures k in at + more <==> k in at
  {
  }

  lemma InShifted(at: seq<nat>, offset: nat, k: nat)
    requires k >= offset
    ensures k in Shifted(at, offset) <==> k - offset in at
  {
    if k - offset in at {
      var a :| 0 <= a < |at| && at[a] == k - offset;
      assert Shifted(at, offset)[a] == k;
    }
  }

  lemma {:induction false} ItemDepicts(t: Tree, c: Context, depth: nat, position: nat, location: string)
    ensures Depicts(BuildItem(t, c, depth, position, location), t, c)
    decreases t, 0
  {
    var at := RelationsDepict(t.children, t.reference, c, depth + 1, 1, location + "-" + Decimal(position));
  }

  lemma {:induction false} RelationsDepict(relations: seq<Relation>, parent: Reference, c: Context, depth: nat,
                                           next: nat, location: string)
    returns (at: seq<nat>)
    ensures AreShown(AllNodes(relations), parent, c, at)
    ensures AllDepict(BuildRelations(relations, parent, c, depth, next, location), AllNodes(relations), at, c)
    decreases relations, 2
  {
    at := [];
    if relations == [] {
    } else {
      var nodes := relations[0].nodes;
      var first := BuildNodes(nodes, parent, c, depth, next, location);
      var more := BuildRelations(relations[1..], parent, c, depth, next + |first|, location);
      at := NodesDepict(nodes, parent, c, depth, next, location);
      var rest := RelationsDepict(relations[1..], parent, c, depth, next + |first|, location);
      ShownConcat(nodes, at, AllNodes(relations[1..]), rest, parent, c);
      DepictConcat(first, nodes, at, more, AllNodes(relations[1..]), rest, c);
      at := at + Shifted(rest, |nodes|);
    }
  }

  lemma {:induction false} NodesDepict(nodes: seq<Tree>, parent: Reference, c: Context, depth: nat, next: nat,
                                       location: string)
    returns (at: seq<nat>)
    ensures AreShown(nodes, parent, c, at)
    ensures AllDepict(BuildNodes(nodes, parent, c, depth, next, location), nodes, at, c)
    decreases nodes, 1
  {
    at := [];
    if nodes == [] {
    } else {
      var shown := c.Shows(nodes[0].reference, parent);
      var rest := NodesDepict(nodes[1..], parent, c, depth, if shown then next + 1 else next, location);
      var more := BuildNodes(nodes[1..], parent, c, depth, if shown then next + 1 else next, location);
      at := if shown then [0] else [];
      var first := if shown then [BuildItem(nodes[0], c, depth, next, location)] else [];
      if shown { ItemDepicts(nodes[0], c, depth, next, location); }
      ShownConcat([nodes[0]], at, nodes[1..], rest, parent, c);
      DepictConcat(first, [nodes[0]], at, more, nodes[1..], rest, c);
      assert [nodes[0]] + nodes[1..] == nodes && first + more == BuildNodes(nodes, parent, c, depth, next, location);
      at := at + Shifted(rest, 1);
    }
  }

  /** The references of an item and of all below it. */
  function Seen(item: Item): set<Reference> {
    {item.reference} + SeenIn(item.children)
  }

  function SeenIn(items: seq<Item>): set<Reference> {
    if items == [] then {} else Seen(items[0]) + SeenIn(items[1..])
  }

  lemma {:induction false} SeenConcat(a: seq<Item>, b: seq<Item>)
    ensures SeenIn(a + b) == SeenIn(a) + SeenIn(b)
  {
    if a == [] {
      assert a + b == b;
    } else {
      SeenConcat(a[1..], b);
      assert (a + b)[1..] == a[1..] + b;
    }
  }

  /** The store has every object of the tree that is built, and no other is looked up. */
  lemma {:induction false} StoredIff(t: Tree, c: Context, depth: nat, position: nat, location: string)
    ensures Stored(t, c) <==> Seen(BuildItem(t, c, depth, position, location)) <= c.store
    decreases t, 0
  {
    RelationsStored(t.children, t.reference, c, depth + 1, 1, location + "-" + Decimal(position));
  }

  lemma {:induction false} RelationsStored(relations: seq<Relation>, parent: Reference, c: Context, depth: nat,
                                           next: nat, location: string)
    ensures StoredRelations(relations, parent, c)
       <==> SeenIn(BuildRelations(relations, parent, c, depth, next, location)) <= c.store
    decreases relations, 2
  {
    if relations == [] {
    } else {
      var first := BuildNodes(relations[0].nodes, parent, c, depth, next, location);
      NodesStored(relations[0].nodes, parent, c, depth, next, location);
      RelationsStored(relations[1..], parent, c, depth, next + |first|, location);
      SeenConcat(first, BuildRelations(relations[1..], parent, c, depth, next + |first|, location));
    }
  }

  lemma {:induction false} NodesStored(nodes: seq<Tree>, parent: Reference, c: Context, depth: nat, next: nat,
                                       location: string)
    ensures StoredNodes(nodes, parent, c)
       <==> SeenIn(BuildNodes(nodes, parent, c, depth, next, location)) <= c.store
    decreases nodes, 1
  {
    if nodes == [] {
    } else {
      if c.Shows(nodes[0].reference, parent) {
        StoredIff(nodes[0], c, depth, next, location);
        NodesStored(nodes[1..], parent, c, depth, next + 1, location);
        SeenConcat([BuildItem(nodes[0], c, depth, next, location)],
                   BuildNodes(nodes[1..], parent, c, depth, next + 1, location));
      } else {
        NodesStored(nodes[1..], parent, c, depth, next, location);
      }
    }
  }

  /** Lines 134-165; `None` is the KeyError for an object that is not in the store. */
  method CreateItem(t: Tree, c: Context, depth: nat, position: nat, location: string) returns (result: Option<Item>)
    decreases t
    ensures result == if Stored(t, c) then Some(BuildItem(t, c, depth, position, location)) else None
  {
    var here := location + "-" + Decimal(position);
    if t.reference !in c.store { return None; }
    var children, childPosition := [], 0;
    for i := 0 to |t.children|
      invariant childPosition == |children|
      invariant StoredRelations(t.children, t.reference, c) == StoredRelations(t.children[i..], t.reference, c)
      invariant children + BuildRelations(t.children[i..], t.reference, c, depth + 1, childPosition + 1, here)
             == BuildRelations(t.children, t.reference, c, depth + 1, 1, here)
    {
      RelationStep(t.children, i, t.reference, c, depth + 1, childPosition + 1, here);
      var items := CreateItems(t.children[i].nodes, t.reference, c, depth + 1, childPosition, here);
      if items.None? { return None; }
      childPosition := childPosition + |items.value|;
      children := children + items.value;
    }
    assert children + [] == children;
    result := Some(Item(t.reference, depth + 1, here, children));
  }

  /** The inner loop over the children of one relation, numbered from `childPosition` + 1 on. */
  method CreateItems(nodes: seq<Tree>, parent: Reference, c: Context, depth: nat, childPosition: nat, location: string)
    returns (result: Option<seq<Item>>)
    decreases nodes
    ensures result ==
      if StoredNodes(nodes, parent, c)
      then Some(BuildNodes(nodes, parent, c, depth, childPosition + 1, location))
      else None
  {
    var children := [];
    for j := 0 to |nodes|
      invariant StoredNodes(nodes, parent, c) == StoredNodes(nodes[j..], parent, c)
      invariant children + BuildNodes(nodes[j..], parent, c, depth, childPosition + |children| + 1, location)
             == BuildNodes(nodes, parent, c, depth, childPosition + 1, location)
    {
      var child := nodes[j];
      NodeStep(nodes, j, parent, c, depth, childPosition + |children| + 1, location);
      if !c.Shows(child.reference, parent) { continue; }
      var next := childPosition + |children| + 1;
      var item := CreateItem(child, c, depth, next, location);
      if item.None? { return None; }
      Appended(children, item.value, BuildNodes(nodes[j + 1..], parent, c, depth, next + 1, location));
      children := children + [item.value];
    }
    assert children + [] == children;
    result := Some(children);
  }

  lemma Appended(children: seq<Item>, item: Item, rest: seq<Item>)
    ensures children + ([item] + rest) == children + [item] + rest
  {
  }

  lemma NodeStep(nodes: seq<Tree>, j: nat, parent: Reference, c: Context, depth: nat, next: nat, location: string)
    requires j < |nodes|
    ensures var shown := c.Shows(nodes[j].reference, parent);
      && (StoredNodes(nodes[j..], parent, c)
          <==> (shown ==> Stored(nodes[j], c)) && StoredNodes(nodes[j + 1..], parent, c))
      && BuildNodes(nodes[j..], parent, c, depth, next, location) ==
           if shown
           then [BuildItem(nodes[j], c, depth, next, location)]
                + BuildNodes(nodes[j + 1..], parent, c, depth, next + 1, location)
           else BuildNodes(nodes[j + 1..], parent, c, depth, next, location)
  {
    assert nodes[j..][1..] == nodes[j + 1..];
  }

  lemma RelationStep(relations: seq<Relation>, i: nat, parent: Reference, c: Context, depth: nat, next: nat,
                     location: string)
    requires i < |relations|
    ensures StoredRelations(relations[i..], parent, c)
        <==> StoredNodes(relations[i].nodes, parent, c) && StoredRelations(relations[i + 1..], parent, c)
    ensures var first := BuildNodes(relations[i].nodes, parent, c, depth, next, location);
      BuildRelations(relations[i..], parent, c, depth, next, location)
      == first + BuildRelations(relations[i + 1..], parent, c, depth, next + |first|, location)
  {
    assert relations[i..][1..] == relations[i + 1..];
  }

  /* ---------- locations ---------- */

  /** The number of parts that follow the first one. */
  function Parts(location: string): nat {
    if location == "" then 0 else Parts(location[1..]) + if location[0] == '-' then 1 else 0
  }

  /** The location without its last part. */
  function Parent(location: string): string {
    if location == "" then ""
    else if location[|location| - 1] == '-' then location[..|location| - 1]
    else Parent(location[..|location| - 1])
  }

  /** The children of a node are numbered from 1 on, and each node is as deep as its location has numbers. */
  predicate WellPlaced(item: Item) {
    item.depth == Parts(item.location) && ChildrenPlaced(item.children, item.location, 1)
  }

  predicate ChildrenPlaced(children: seq<Item>, location: string, next: nat) {
    children == [] ||
    (children[0].location == location + "-" + Decimal(next) && WellPlaced(children[0])
     && ChildrenPlaced(children[1..], location, next + 1))
  }

  lemma {:induction false} PartsConcat(a: string, b: string)
    ensures Parts(a + b) == Parts(a) + Parts(b)
  {
    if a == "" {
      assert a + b == b;
    } else {
      PartsConcat(a[1..], b);
      assert (a + b)[1..] == a[1..] + b;
    }
  }

  lemma {:induction false} NoDashNoPart(s: string)
    requires '-' !in s
    ensures Parts(s) == 0
  {
    if s != "" { NoDashNoPart(s[1..]); }
  }

  lemma {:induction false} DecimalHasNoDash(n: nat)
    ensures '-' !in Decimal(n) && Decimal(n) != ""
  {
    if n >= 10 { DecimalHasNoDash(n / 10); }
  }

  /** The number that a decimal string denotes. */
  function Value(s: string): int {
    if s == "" then 0 else Value(s[..|s| - 1]) * 10 + (s[|s| - 1] as int - '0' as int)
  }

  lemma {:induction false} DecimalValue(n: nat)
    ensures Value(Decimal(n)) == n
  {
    if n >= 10 {
      DecimalValue(n / 10);
      assert Decimal(n)[..|Decimal(n)| - 1] == Decimal(n / 10);
    } else {
      assert Decimal(n)[..0] == "";
    }
  }

  lemma DecimalInjective(m: nat, n: nat)
    requires Decimal(m) == Decimal(n)
    ensures m == n
  {
    DecimalValue(m);
    DecimalValue(n);
  }

  lemma OneMorePart(location: string, n: nat)
    ensures Parts(location + "-" + Decimal(n)) == Parts(location) + 1
  {
    DecimalHasNoDash(n);
    NoDashNoPart(Decimal(n));
    PartsConcat(location + "-", Decimal(n));
    PartsConcat(location, "-");
  }

  lemma {:induction false} ParentOf(location: string, number: string)
    requires '-' !in number
    ensures Parent(location + "-" + number) == location
  {
    var s := location + "-" + number;
    if number != "" {
      assert s[..|s| - 1] == location + "-" + number[..|number| - 1];
      ParentOf(location, number[..|number| - 1]);
    }
  }

  lemma {:induction false} BuildPlaces(t: Tree, c: Context, depth: nat, position: nat, location: string)
    requires depth == Parts(location)
    ensures WellPlaced(BuildItem(t, c, depth, position, location))
    decreases t, 0
  {
    OneMorePart(location, position);
    RelationsPlaced(t.children, t.reference, c, depth + 1, 1, location + "-" + Decimal(position));
  }

  lemma {:induction false} RelationsPlaced(relations: seq<Relation>, parent: Reference, c: Context, depth: nat,
                                           next: nat, location: string)
    requires depth == Parts(location)
    ensures ChildrenPlaced(BuildRelations(relations, parent, c, depth, next, location), location, next)
    decreases relations, 2
  {
    if relations == [] {
    } else {
      var first := BuildNodes(relations[0].nodes, parent, c, depth, next, location);
      NodesPlaced(relations[0].nodes, parent, c, depth, next, location);
      RelationsPlaced(relations[1..], parent, c, depth, next + |first|, location);
      PlacedConcat(first, BuildRelations(relations[1..], parent, c, depth, next + |first|, location), location, next);
    }
  }

  lemma {:induction false} NodesPlaced(nodes: seq<Tree>, parent: Reference, c: Context, depth: nat, next: nat,
                                       location: string)
    requires depth == Parts(location)
    ensures ChildrenPlaced(BuildNodes(nodes, parent, c, depth, next, location), location, next)
    decreases nodes, 1
  {
    if nodes == [] {
    } else {
      if c.Shows(nodes[0].reference, parent) {
        BuildPlaces(nodes[0], c, depth, next, location);
        NodesPlaced(nodes[1..], parent, c, depth, next + 1, location);
        var rest := BuildNodes(nodes[1..], parent, c, depth, next + 1, location);
        assert ([BuildItem(nodes[0], c, depth, next, location)] + rest)[1..] == rest;
      } else {
        NodesPlaced(nodes[1..], parent, c, depth, next, location);
      }
    }
  }

  lemma {:induction false} PlacedConcat(a: seq<Item>, b: seq<Item>, location: string, next: nat)
    requires ChildrenPlaced(a, location, next) && ChildrenPlaced(b, location, next + |a|)
    ensures ChildrenPlaced(a + b, location, next)
  {
    if a == [] {
      assert a + b == b;
    } else {
      PlacedConcat(a[1..], b, location, next + 1);
      assert (a + b)[1..] == a[1..] + b;
    }
  }

  /* ---------- different nodes, different locations ---------- */

  /** The locations of all nodes of a tree, in preorder. */
  function Locations(item: Item): seq<string> {
    [item.location] + LocationsOf(item.children)
  }

  function LocationsOf(items: seq<Item>): seq<string> {
    if items == [] then [] else Locations(items[0]) + LocationsOf(items[1..])
  }

  ghost predicate NoRepeats(s: seq<string>) {
    forall i, j | 0 <= i < j < |s| :: s[i] != s[j]
  }

  /** `s` is `location`, or continues it with another part. */
  predicate AtOrUnder(s: string, location: string) {
    |location| <= |s| && s[..|location|] == location && (|s| > |location| ==> s[|location|] == '-')
  }

  /** `s` is at or under some child numbered at least `next`. */
  ghost predicate UnderFrom(s: string, location: string, next: nat) {
    exists n: nat :: next <= n && AtOrUnder(s, location + "-" + Decimal(n))
  }

  lemma UnderTwice(s: string, location: string, n: nat)
    requires AtOrUnder(s, location + "-" + Decimal(n))
    ensures AtOrUnder(s, location) && s != location
  {
    var here := location + "-" + Decimal(n);
    assert here[..|location|] == location && here[|location|] == '-';
    assert s[..|here|][..|location|] == s[..|location|];
    assert s[|location|] == here[|location|];
  }

  lemma {:induction false} LocationsAreUnder(item: Item)
    requires WellPlaced(item)
    ensures forall s | s in Locations(item) :: AtOrUnder(s, item.location)
    decreases item
  {
    ChildLocationsAreUnder(item.children, item.location, 1);
    forall s | s in LocationsOf(item.children) ensures AtOrUnder(s, item.location) {
      var n: nat :| 1 <= n && AtOrUnder(s, item.location + "-" + Decimal(n));
      UnderTwice(s, item.location, n);
    }
  }

  lemma {:induction false} ChildLocationsAreUnder(items: seq<Item>, location: string, next: nat)
    requires ChildrenPlaced(items, location, next)
    ensures forall s | s in LocationsOf(items) :: UnderFrom(s, location, next)
    decreases items
  {
    if items == [] {
    } else {
      LocationsAreUnder(items[0]);
      ChildLocationsAreUnder(items[1..], location, next + 1);
    }
  }

  /** The parts of a location are told apart by the dashes between them. */
  lemma OneChildOnly(s: string, location: string, m: nat, n: nat)
    requires AtOrUnder(s, location + "-" + Decimal(m)) && AtOrUnder(s, location + "-" + Decimal(n))
    ensures m == n
  {
    var a, b := Decimal(m), Decimal(n);
    var rest := s[|location| + 1..];
    DecimalHasNoDash(m);
    DecimalHasNoDash(n);
    PartStarts(s, location, a);
    PartStarts(s, location, b);
    assert forall i | 0 <= i < |a| :: rest[i] == a[i] && a[i] in a;
    assert forall i | 0 <= i < |b| :: rest[i] == b[i] && b[i] in b;
    assert a == rest[..|a|] && b == rest[..|b|];
    DecimalInjective(m, n);
  }

  lemma PartStarts(s: string, location: string, number: string)
    requires AtOrUnder(s, location + "-" + number)
    ensures |s| >= |location| + 1 && AtOrUnder(s[|location| + 1..], number)
  {
    var here, rest := location + "-" + number, s[|location| + 1..];
    forall i | 0 <= i < |number| ensures rest[i] == number[i] {
      assert s[..|here|][|location| + 1 + i] == here[|location| + 1 + i];
    }
  }

  lemma NoRepeatsConcat(a: seq<string>, b: seq<string>)
    requires NoRepeats(a) && NoRepeats(b) && forall x | x in a :: x !in b
    ensures NoRepeats(a + b)
  {
    forall i, j | 0 <= i < j < |a + b| ensures (a + b)[i] != (a + b)[j] {
      if i < |a| <= j { assert a[i] in a && b[j - |a|] in b; }
    }
  }

  lemma {:induction false} LocationsDiffer(item: Item)
    requires WellPlaced(item)
    ensures NoRepeats(Locations(item))
    decreases item
  {
    ChildLocationsDiffer(item.children, item.location, 1);
    ChildLocationsAreUnder(item.children, item.location, 1);
    forall s | s in LocationsOf(item.children) ensures s != item.location {
      var n: nat :| 1 <= n && AtOrUnder(s, item.location + "-" + Decimal(n));
      UnderTwice(s, item.location, n);
    }
    NoRepeatsConcat([item.location], LocationsOf(item.children));
  }

  lemma {:induction false} ChildLocationsDiffer(items: seq<Item>, location: string, next: nat)
    requires ChildrenPlaced(items, location, next)
    ensures NoRepeats(LocationsOf(items))
    decreases items
  {
    if items == [] {
    } else {
      LocationsDiffer(items[0]);
      ChildLocationsDiffer(items[1..], location, next + 1);
      LocationsAreUnder(items[0]);
      ChildLocationsAreUnder(items[1..], location, next + 1);
      forall s | s in Locations(items[0]) ensures s !in LocationsOf(items[1..]) {
        if UnderFrom(s, location, next + 1) {
          var n: nat :| next + 1 <= n && AtOrUnder(s, location + "-" + Decimal(n));
          OneChildOnly(s, location, next, n);
        }
      }
      NoRepeatsConcat(Locations(items[0]), LocationsOf(items[1..]));
    }
  }

  /** Different nodes of a built tree have different location strings; the depth of each is the number of numbers in
      its location, and taking the last of them away gives the location of its parent. */
  lemma LocationsAreFaithful(t: Tree, c: Context)
    ensures var item := BuildItem(t, c, 0, 1, "loc");
      item.location == "loc-1" && WellPlaced(item) && NoRepeats(Locations(item))
  {
    NoDashNoPart("loc");
    BuildPlaces(t, c, 0, 1, "loc");
    LocationsDiffer(BuildItem(t, c, 0, 1, "loc"));
  }

  lemma {:induction false} ParentIsAbove(children: seq<Item>, location: string, next: nat, k: nat)
    requires ChildrenPlaced(children, location, next) && k < |children|
    ensures Parent(children[k].location) == location && children[k].depth == Parts(location) + 1
    ensures children[k].location == location + "-" + Decimal(next + k) && WellPlaced(children[k])
  {
    if k == 0 {
      DecimalHasNoDash(next);
      ParentOf(location, Decimal(next));
      OneMorePart(location, next);
    } else {
      ParentIsAbove(children[1..], location, next + 1, k - 1);
    }
  }

  /* ---------- the whole builder ---------- */

  ghost predicate Increasing(at: seq<nat>) {
    forall i, j | 0 <= i < j < |at| :: at[i] < at[j]
  }

  function Members(at: seq<nat>): set<nat> {
    set k | k in at
  }

  lemma MembersFront(at: seq<nat>)
    requires at != [] && Increasing(at)
    ensures Members(at[..|at| - 1]) == Members(at) - {at[|at| - 1]}
    ensures at[|at| - 1] in Members(at) && forall k | k in Members(at) :: k <= at[|at| - 1]
  {
  }

  lemma NoMembers(at: seq<nat>)
    ensures Members(at) == {} <==> at == []
  {
    if at != [] { assert at[0] in Members(at); }
  }

  lemma {:induction false} SameIncreasing(a: seq<nat>, b: seq<nat>)
    requires Increasing(a) && Increasing(b) && Members(a) == Members(b)
    ensures a == b
  {
    NoMembers(a);
    NoMembers(b);
    if a == [] {
    } else {
      MembersFront(a);
      MembersFront(b);
      SameIncreasing(a[..|a| - 1], b[..|b| - 1]);
      assert a == a[..|a| - 1] + [a[|a| - 1]] && b == b[..|b| - 1] + [b[|b| - 1]];
    }
  }

  lemma ShownOnce(nodes: seq<Tree>, parent: Reference, c: Context, at: seq<nat>, at': seq<nat>)
    requires AreShown(nodes, parent, c, at) && AreShown(nodes, parent, c, at')
    ensures at == at'
  {
    var shown := set k: nat | k < |nodes| && nodes[k].reference in c.traversable && nodes[k].reference != parent;
    MembersShown(nodes, parent, c, at, shown);
    MembersShown(nodes, parent, c, at', shown);
    SameIncreasing(at, at');
  }

  lemma MembersShown(nodes: seq<Tree>, parent: Reference, c: Context, at: seq<nat>, shown: set<nat>)
    requires AreShown(nodes, parent, c, at)
    requires forall k: nat :: k in shown <==>
      k < |nodes| && nodes[k].reference in c.traversable && nodes[k].reference != parent
    ensures Members(at) == shown
  {
    forall k | k in Members(at) ensures k < |nodes| && k in shown {
      var a :| 0 <= a < |at| && at[a] == k;
    }
  }

  /** A node is depicted in one way only, up to depths and locations. */
  lemma {:induction false} DepictedOnce(a: Item, b: Item, t: Tree, c: Context)
    requires Depicts(a, t, c) && Depicts(b, t, c)
    ensures Seen(a) == Seen(b)
    decreases a
  {
    var nodes := AllNodes(t.children);
    var at :| AreShown(nodes, t.reference, c, at) && AllDepict(a.children, nodes, at, c);
    var at' :| AreShown(nodes, t.reference, c, at') && AllDepict(b.children, nodes, at', c);
    ShownOnce(nodes, t.reference, c, at, at');
    AllDepictedOnce(a.children, b.children, nodes, at, c);
  }

  lemma {:induction false} AllDepictedOnce(a: seq<Item>, b: seq<Item>, nodes: seq<Tree>, at: seq<nat>, c: Context)
    requires AllDepict(a, nodes, at, c) && AllDepict(b, nodes, at, c)
    ensures SeenIn(a) == SeenIn(b)
    decreases a
  {
    if a == [] {
    } else {
      DepictedOnce(a[0], b[0], nodes[at[0]], c);
      AllDepictedOnce(a[1..], b[1..], nodes, at[1..], c);
    }
  }

  /** The builder with its defaults. It fails exactly if the store lacks an object of the depicted tree; otherwise the
      nodes of the tree are the shown ones, in order, and each can be told by its location. */
  method CreateObjectTree(t: Tree, c: Context) returns (result: Option<Item>)
    ensures result.Some? ==> Depicts(result.value, t, c) && Seen(result.value) <= c.store
    ensures result.Some? ==>
      result.value.location == "loc-1" && WellPlaced(result.value) && NoRepeats(Locations(result.value))
    ensures result.None? ==> forall item | Depicts(item, t, c) :: !(Seen(item) <= c.store)
  {
    result := CreateItem(t, c, 0, 1, "loc");
    ghost var item := BuildItem(t, c, 0, 1, "loc");
    ItemDepicts(t, c, 0, 1, "loc");
    StoredIff(t, c, 0, 1, "loc");
    LocationsAreFaithful(t, c);
    forall other | Depicts(other, t, c) ensures Seen(other) == Seen(item) { DepictedOnce(other, item, t, c); }
  }
}
