/**
 What filtering does to the structure of a tree: exactly when all nodes of included types stay, in preorder, each under
 the nearest node above it that stays (rocky/tools/ooi_helpers.py, lines 181-218).
 */
module OoiHoisting {

  import opened OoiTrees

  /** A node of a tree under its parent. */
  datatype Row = Row(parent: string, id: string, ooiType: string)

  /** The nodes of a tree in preorder, each with the id of its parent. */
  function Rows(t: Ooi, parent: string): seq<Row>
    decreases t, 0
  {
    [Row(parent, t.id, t.ooiType)] + match t.children case Absent => [] case Present(nodes) => RowsOf(nodes, t.id)
  }

  function RowsOf(nodes: seq<Ooi>, parent: string): seq<Row>
    decreases nodes, 1
  {
    if nodes == [] then [] else Rows(nodes[0], parent) + RowsOf(nodes[1..], parent)
  }

  /** The nodes of included types in preorder, each with the id of the nearest such node above it, or else `anchor`. */
  function Hoisted(t: Ooi, anchor: string, f: Filter): seq<Row>
    decreases t, 0
  {
    var here := f.Includes(t.ooiType);
    (if here then [Row(anchor, t.id, t.ooiType)] else [])
    + match t.children case Absent => [] case Present(nodes) => HoistedOf(nodes, if here then t.id else anchor, f)
  }

  function HoistedOf(nodes: seq<Ooi>, anchor: string, f: Filter): seq<Row>
    decreases nodes, 1
  {
    if nodes == [] then [] else Hoisted(nodes[0], anchor, f) + HoistedOf(nodes[1..], anchor, f)
  }

  /* ---------- when no node is lost ---------- */

  /** The ids of the nodes of included types that have no such node above them, in preorder. */
  function Nearest(t: Ooi, f: Filter): seq<string>
    decreases t, 0
  {
    if f.Includes(t.ooiType) then [t.id]
    else match t.children case Absent => [] case Present(nodes) => NearestOf(nodes, f)
  }

  function NearestOf(nodes: seq<Ooi>, f: Filter): seq<string>
    decreases nodes, 1
  {
    if nodes == [] then [] else Nearest(nodes[0], f) + NearestOf(nodes[1..], f)
  }

  predicate Distinct(ids: seq<string>, other: string) {
    && (forall i | 0 <= i < |ids| :: ids[i] != other)
    && (forall i, j | 0 <= i < j < |ids| :: ids[i] != ids[j])
  }

  /** For every node that stays, the nodes that come to hang under it have ids that differ from each other and from its
      own. The root stays, whatever its type. */
  predicate Apart(t: Ooi, f: Filter, stays: bool)
    decreases t, 0
  {
    match t.children
    case Absent => true
    case Present(nodes) => (stays ==> Distinct(NearestOf(nodes, f), t.id)) && AllApart(nodes, f)
  }

  predicate AllApart(nodes: seq<Ooi>, f: Filter)
    decreases nodes, 1
  {
    nodes == [] || (Apart(nodes[0], f, f.Includes(nodes[0].ooiType)) && AllApart(nodes[1..], f))
  }

  /* ---------- the ids that meet under a node ---------- */

  function IdsInPlace(nodes: seq<Ooi>): seq<string> {
    seq(|nodes|, i requires 0 <= i < |nodes| => nodes[i].id)
  }

  lemma {:induction false} ItemIds(t: Ooi, f: Filter)
    ensures IdsInPlace(Item(t, f)) == Nearest(t, f)
    decreases t, 0
  {
    if f.Includes(t.ooiType) {
    } else if t.children.Present? {
      ItemsIds(t.children.nodes, f);
    }
  }

  lemma {:induction false} ItemsIds(nodes: seq<Ooi>, f: Filter)
    ensures IdsInPlace(Items(nodes, f)) == NearestOf(nodes, f)
    decreases nodes, 1
  {
    if nodes == [] {
    } else {
      ItemIds(nodes[0], f);
      ItemsIds(nodes[1..], f);
      IdsConcat(Item(nodes[0], f), Items(nodes[1..], f));
    }
  }

  lemma IdsConcat(a: seq<Ooi>, b: seq<Ooi>)
    ensures IdsInPlace(a + b) == IdsInPlace(a) + IdsInPlace(b)
  {
  }

  lemma MeetApart(nodes: seq<Ooi>, f: Filter, id: string)
    ensures SiblingIdsDistinct(Items(nodes, f), {id}) <==> Distinct(NearestOf(nodes, f), id)
  {
    var items := Items(nodes, f);
    DistinctMeans(items, {id});
    ItemsIds(nodes, f);
    assert forall i | 0 <= i < |items| :: NearestOf(nodes, f)[i] == items[i].id;
  }

  /* ---------- rows ---------- */

  lemma RowsAssociate(a: seq<Row>, b: seq<Row>, c: seq<Row>)
    ensures a + (b + c) == a + b + c
  {
  }

  lemma RowsCons(a: seq<Ooi>, b: seq<Ooi>, parent: string)
    requires a != []
    ensures RowsOf(a + b, parent) == Rows(a[0], parent) + RowsOf(a[1..] + b, parent)
    ensures RowsOf(a, parent) == Rows(a[0], parent) + RowsOf(a[1..], parent)
  {
    assert (a + b)[1..] == a[1..] + b;
  }

  lemma {:induction false} RowsConcat(a: seq<Ooi>, b: seq<Ooi>, parent: string)
    ensures RowsOf(a + b, parent) == RowsOf(a, parent) + RowsOf(b, parent)
  {
    if a == [] {
      assert a + b == b;
    } else {
      RowsConcat(a[1..], b, parent);
      RowsCons(a, b, parent);
      RowsAssociate(Rows(a[0], parent), RowsOf(a[1..], parent), RowsOf(b, parent));
    }
  }

  /* ---------- a node that is dropped is missed ---------- */

  /** Deduplication drops rows, and none only if it drops no node. */
  lemma {:induction false} DedupeRows(nodes: seq<Ooi>, seen: set<string>, parent: string)
    ensures |RowsOf(Dedupe(nodes, seen), parent)| <= |RowsOf(nodes, parent)|
    ensures |RowsOf(Dedupe(nodes, seen), parent)| == |RowsOf(nodes, parent)| <==> SiblingIdsDistinct(nodes, seen)
  {
    if nodes == [] {
    } else if nodes[0].id in seen {
      DedupeRows(nodes[1..], seen, parent);
      assert |Rows(nodes[0], parent)| > 0;
    } else {
      DedupeRows(nodes[1..], seen + {nodes[0].id}, parent);
      RowsCons([nodes[0]], Dedupe(nodes[1..], seen + {nodes[0].id}), parent);
    }
  }

  /** The node itself, when it stays, has all its rows exactly if those below are all there and apart. */
  lemma RebuiltCount(t: Ooi, parent: string, f: Filter)
    requires t.children.Present?
    requires |RowsOf(Items(t.children.nodes, f), t.id)| <= |HoistedOf(t.children.nodes, t.id, f)|
    requires |RowsOf(Items(t.children.nodes, f), t.id)| == |HoistedOf(t.children.nodes, t.id, f)|
         <==> AllApart(t.children.nodes, f)
    ensures |Rows(Rebuilt(t, f), parent)| <= 1 + |HoistedOf(t.children.nodes, t.id, f)|
    ensures |Rows(Rebuilt(t, f), parent)| == 1 + |HoistedOf(t.children.nodes, t.id, f)| <==> Apart(t, f, true)
  {
    DedupeRows(Items(t.children.nodes, f), {t.id}, t.id);
    MeetApart(t.children.nodes, f, t.id);
  }

  lemma RowsOfOne(t: Ooi, parent: string)
    ensures RowsOf([t], parent) == Rows(t, parent)
  {
    assert [t][1..] == [];
  }

  lemma {:induction false} ItemCount(t: Ooi, anchor: string, f: Filter)
    ensures |RowsOf(Item(t, f), anchor)| <= |Hoisted(t, anchor, f)|
    ensures |RowsOf(Item(t, f), anchor)| == |Hoisted(t, anchor, f)| <==> Apart(t, f, f.Includes(t.ooiType))
    decreases t, 0
  {
    if f.Includes(t.ooiType) {
      RowsOfOne(Rebuilt(t, f), anchor);
      if t.children.Present? {
        ItemsCount(t.children.nodes, t.id, f);
        RebuiltCount(t, anchor, f);
      }
    } else if t.children.Present? {
      ItemsCount(t.children.nodes, anchor, f);
    }
  }

  lemma {:induction false} ItemsCount(nodes: seq<Ooi>, anchor: string, f: Filter)
    ensures |RowsOf(Items(nodes, f), anchor)| <= |HoistedOf(nodes, anchor, f)|
    ensures |RowsOf(Items(nodes, f), anchor)| == |HoistedOf(nodes, anchor, f)| <==> AllApart(nodes, f)
    decreases nodes, 1
  {
    if nodes == [] {
    } else {
      ItemCount(nodes[0], anchor, f);
      ItemsCount(nodes[1..], anchor, f);
      RowsConcat(Item(nodes[0], f), Items(nodes[1..], f), anchor);
    }
  }

  /* ---------- otherwise every node is where it belongs ---------- */

  lemma NothingDeduped(t: Ooi, f: Filter)
    requires t.children.Present? && Distinct(NearestOf(t.children.nodes, f), t.id)
    ensures Rebuilt(t, f) == t.(children := Present(Items(t.children.nodes, f)))
  {
    MeetApart(t.children.nodes, f, t.id);
    DistinctStays(Items(t.children.nodes, f), {t.id});
  }

  lemma {:induction false} ItemRows(t: Ooi, anchor: string, f: Filter)
    requires Apart(t, f, f.Includes(t.ooiType))
    ensures RowsOf(Item(t, f), anchor) == Hoisted(t, anchor, f)
    decreases t, 0
  {
    if t.children.Present? { ItemsRows(t.children.nodes, if f.Includes(t.ooiType) then t.id else anchor, f); }
    if f.Includes(t.ooiType) {
      RowsOfOne(Rebuilt(t, f), anchor);
      if t.children.Present? { NothingDeduped(t, f); }
    }
  }

  lemma {:induction false} ItemsRows(nodes: seq<Ooi>, anchor: string, f: Filter)
    requires AllApart(nodes, f)
    ensures RowsOf(Items(nodes, f), anchor) == HoistedOf(nodes, anchor, f)
    decreases nodes, 1
  {
    if nodes == [] {
    } else {
      ItemRows(nodes[0], anchor, f);
      ItemsRows(nodes[1..], anchor, f);
      RowsConcat(Item(nodes[0], f), Items(nodes[1..], f), anchor);
    }
  }

  /** Under a given filter the tree keeps all rows exactly if the ids that meet under its nodes differ. */
  lemma KeptIff(t: Ooi, f: Filter)
    ensures |RowsOf(Kids(Rebuilt(t, f)), t.id)| == |HoistedOf(Kids(t), t.id, f)| <==> Apart(t, f, true)
    ensures Apart(t, f, true) ==> RowsOf(Kids(Rebuilt(t, f)), t.id) == HoistedOf(Kids(t), t.id, f)
  {
    if t.children.Present? {
      var nodes := t.children.nodes;
      ItemsCount(nodes, t.id, f);
      DedupeRows(Items(nodes, f), {t.id}, t.id);
      MeetApart(nodes, f, t.id);
      if Apart(t, f, true) {
        NothingDeduped(t, f);
        ItemsRows(nodes, t.id, f);
      }
    }
  }

  lemma {:induction false} EverythingHoisted(nodes: seq<Ooi>, anchor: string, f: Filter)
    requires f.showTypes == [] && f.hideTypes == []
    ensures HoistedOf(nodes, anchor, f) == RowsOf(nodes, anchor)
    decreases nodes
  {
    if nodes == [] {
    } else {
      if nodes[0].children.Present? { EverythingHoisted(nodes[0].children.nodes, nodes[0].id, f); }
      EverythingHoisted(nodes[1..], anchor, f);
    }
  }

  /** No node is lost, and each hangs under the nearest node above it that stays, in the order they had, exactly if
      there is no filter or the ids that meet under each remaining node differ. */
  lemma HoistsIff(t: Ooi, f: Filter)
    ensures RowsOf(Kids(FilterTree(t, f)), t.id) == HoistedOf(Kids(t), t.id, f)
       <==> (f.showTypes == [] && f.hideTypes == []) || Apart(t, f, true)
    ensures FilterTree(t, f).id == t.id && FilterTree(t, f).ooiType == t.ooiType
  {
    if f.showTypes == [] && f.hideTypes == [] { EverythingHoisted(Kids(t), t.id, f); } else { KeptIff(t, f); }
  }

  /* ---------- distinct ids ---------- */

  function Ids(t: Ooi): multiset<string>
    decreases t, 0
  {
    multiset{t.id} + match t.children case Absent => multiset{} case Present(nodes) => IdsOf(nodes)
  }

  function IdsOf(nodes: seq<Ooi>): multiset<string>
    decreases nodes, 1
  {
    if nodes == [] then multiset{} else Ids(nodes[0]) + IdsOf(nodes[1..])
  }

  ghost predicate NoRepeats(ids: multiset<string>) {
    forall x :: ids[x] <= 1
  }

  lemma {:induction false} NearestIds(t: Ooi, f: Filter)
    ensures multiset(Nearest(t, f)) <= Ids(t)
    decreases t, 0
  {
    if !f.Includes(t.ooiType) && t.children.Present? { NearestIdsOf(t.children.nodes, f); }
  }

  lemma {:induction false} NearestIdsOf(nodes: seq<Ooi>, f: Filter)
    ensures multiset(NearestOf(nodes, f)) <= IdsOf(nodes)
    decreases nodes, 1
  {
    if nodes == [] {
    } else {
      NearestIds(nodes[0], f);
      NearestIdsOf(nodes[1..], f);
      assert multiset(NearestOf(nodes, f)) == multiset(Nearest(nodes[0], f)) + multiset(NearestOf(nodes[1..], f));
    }
  }

  lemma Once(ids: seq<string>, i: nat, j: nat)
    requires i < j < |ids| && ids[i] == ids[j]
    ensures multiset(ids)[ids[i]] >= 2
  {
    assert ids == ids[..j] + [ids[j]] + ids[j + 1..];
    assert ids[i] in ids[..j] && ids[i] in multiset(ids[..j]);
  }

  lemma DistinctWithin(ids: seq<string>, other: string, all: multiset<string>)
    requires multiset(ids) <= all && NoRepeats(multiset{other} + all)
    ensures Distinct(ids, other)
  {
    forall i | 0 <= i < |ids| ensures ids[i] != other {
      assert ids[i] in multiset(ids) && (multiset{other} + all)[ids[i]] <= 1;
    }
    forall x ensures multiset(ids)[x] <= 1 { assert (multiset{other} + all)[x] <= 1; }
    forall i, j | 0 <= i < j < |ids| ensures ids[i] != ids[j] {
      if ids[i] == ids[j] { Once(ids, i, j); }
    }
  }

  lemma {:induction false} NoRepeatsApart(t: Ooi, f: Filter, stays: bool)
    requires NoRepeats(Ids(t))
    ensures Apart(t, f, stays)
    decreases t, 0
  {
    if t.children.Present? {
      var nodes := t.children.nodes;
      NearestIdsOf(nodes, f);
      DistinctWithin(NearestOf(nodes, f), t.id, IdsOf(nodes));
      forall x ensures IdsOf(nodes)[x] <= 1 { assert Ids(t)[x] <= 1; }
      AllNoRepeatsApart(nodes, f);
    }
  }

  lemma {:induction false} AllNoRepeatsApart(nodes: seq<Ooi>, f: Filter)
    requires NoRepeats(IdsOf(nodes))
    ensures AllApart(nodes, f)
    decreases nodes, 1
  {
    if nodes == [] {
    } else {
      assert IdsOf(nodes) == Ids(nodes[0]) + IdsOf(nodes[1..]);
      forall x ensures Ids(nodes[0])[x] <= 1 && IdsOf(nodes[1..])[x] <= 1 { assert IdsOf(nodes)[x] <= 1; }
      NoRepeatsApart(nodes[0], f, f.Includes(nodes[0].ooiType));
      AllNoRepeatsApart(nodes[1..], f);
    }
  }

  /** In particular no node is lost when no id occurs twice in the tree. */
  lemma FilterHoists(t: Ooi, f: Filter)
    requires NoRepeats(Ids(t))
    ensures RowsOf(Kids(FilterTree(t, f)), t.id) == HoistedOf(Kids(t), t.id, f)
  {
    NoRepeatsApart(t, f, true);
    HoistsIff(t, f);
  }

  /* ---------- preorder ---------- */

  /** The ids of the rows of included types. */
  function Restricted(rows: seq<Row>, f: Filter): seq<string> {
    if rows == [] then []
    else (if f.Includes(rows[0].ooiType) then [rows[0].id] else []) + Restricted(rows[1..], f)
  }

  function IdsInOrder(rows: seq<Row>): seq<string> {
    seq(|rows|, i requires 0 <= i < |rows| => rows[i].id)
  }

  lemma {:induction false} RestrictedConcat(a: seq<Row>, b: seq<Row>, f: Filter)
    ensures Restricted(a + b, f) == Restricted(a, f) + Restricted(b, f)
  {
    if a == [] {
      assert a + b == b;
    } else {
      RestrictedConcat(a[1..], b, f);
      assert (a + b)[1..] == a[1..] + b;
    }
  }

  lemma {:induction false} HoistedIsRestricted(t: Ooi, anchor: string, parent: string, f: Filter)
    ensures IdsInOrder(Hoisted(t, anchor, f)) == Restricted(Rows(t, parent), f)
    decreases t, 0
  {
    var row := Row(parent, t.id, t.ooiType);
    assert Restricted([row], f) == if f.Includes(t.ooiType) then [t.id] else [];
    if t.children.Present? {
      HoistedOfIsRestricted(t.children.nodes, if f.Includes(t.ooiType) then t.id else anchor, t.id, f);
      RestrictedConcat([row], RowsOf(t.children.nodes, t.id), f);
    } else {
      assert Rows(t, parent) == [row];
    }
  }

  lemma {:induction false} HoistedOfIsRestricted(nodes: seq<Ooi>, anchor: string, parent: string, f: Filter)
    ensures IdsInOrder(HoistedOf(nodes, anchor, f)) == Restricted(RowsOf(nodes, parent), f)
    decreases nodes, 1
  {
    if nodes == [] {
    } else {
      HoistedIsRestricted(nodes[0], anchor, parent, f);
      HoistedOfIsRestricted(nodes[1..], anchor, parent, f);
      RestrictedConcat(Rows(nodes[0], parent), RowsOf(nodes[1..], parent), f);
    }
  }

  lemma KeptLength(t: Ooi, f: Filter)
    requires IdsInOrder(RowsOf(Kids(FilterTree(t, f)), t.id)) == Restricted(RowsOf(Kids(t), t.id), f)
    ensures |RowsOf(Kids(FilterTree(t, f)), t.id)| == |HoistedOf(Kids(t), t.id, f)|
  {
    HoistedOfIsRestricted(Kids(t), t.id, t.id, f);
    assert |IdsInOrder(RowsOf(Kids(FilterTree(t, f)), t.id))| == |IdsInOrder(HoistedOf(Kids(t), t.id, f))|;
  }

  /** Under the same condition, and no other, the preorder of the filtered tree is the preorder of the tree restricted
      to the included types. */
  lemma PreorderIff(t: Ooi, f: Filter)
    ensures IdsInOrder(RowsOf(Kids(FilterTree(t, f)), t.id)) == Restricted(RowsOf(Kids(t), t.id), f)
       <==> (f.showTypes == [] && f.hideTypes == []) || Apart(t, f, true)
  {
    HoistsIff(t, f);
    HoistedOfIsRestricted(Kids(t), t.id, t.id, f);
    if IdsInOrder(RowsOf(Kids(FilterTree(t, f)), t.id)) == Restricted(RowsOf(Kids(t), t.id), f) {
      KeptLength(t, f);
      KeptIff(t, f);
    }
  }

  /* ---------- repeated ids ---------- */

  /** Without distinct ids an included node can be lost: only the children of the first of two siblings with the same
      id are kept. */
  lemma RepeatedIdLosesAChild()
    ensures var f := Filter([], ["Network"]);
      var child := Ooi("c", "Hostname", Absent);
      var t := Ooi("r", "URL", Present([Ooi("a", "Hostname", Absent), Ooi("a", "Hostname", Present([child]))]));
      f.Includes(child.ooiType) && FilterTree(t, f) == Ooi("r", "URL", Present([Ooi("a", "Hostname", Absent)]))
  {
    var f := Filter([], ["Network"]);
    var child := Ooi("c", "Hostname", Absent);
    var first, second := Ooi("a", "Hostname", Absent), Ooi("a", "Hostname", Present([child]));
    ItemsOfOne(child, f);
    assert Rebuilt(second, f) == second by { assert Dedupe([child], {"a"}) == [child]; }
    ItemsOfOne(first, f);
    ItemsOfOne(second, f);
    assert [first, second][1..] == [second];
    assert Items([first, second], f) == [first, second];
    assert {"r"} + {"a"} == {"r", "a"};
    assert Dedupe([first, second], {"r"}) == [first] + Dedupe([second], {"r", "a"});
    assert Dedupe([second], {"r", "a"}) == [];
  }

  lemma ItemsOfOne(t: Ooi, f: Filter)
    ensures Items([t], f) == Item(t, f)
  {
    assert [t][1..] == [];
  }
}
