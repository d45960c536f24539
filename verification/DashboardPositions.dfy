/**
 The positions of the items on a dashboard, rocky/crisis_room/models.py: the signal handlers that number new items and
 close the gap after a deletion, and the move that swaps two neighbours.
 */
module DashboardPositions {

  const MAX_POSITION := 16

  type ItemId = nat
  type DashboardId = nat

  datatype Placement = Placement(dashboard: DashboardId, position: int)

  /** The rows of the table of items. */
  type Rows = map<ItemId, Placement>

  datatype Option<+T> = None | Some(value: T)

  /** What the database enforces when a transaction commits: no two items share a position on their dashboard, and no
      position is negative. */
  predicate Accepted(rows: Rows) {
    && (forall a, b | a in rows && b in rows && a != b :: rows[a] != rows[b])
    && (forall a | a in rows :: rows[a].position >= 0)
  }

  predicate Occupied(rows: Rows, d: DashboardId, position: int) {
    exists a | a in rows :: rows[a] == Placement(d, position)
  }

  ghost function ItemAt(rows: Rows, d: DashboardId, position: int): Option<ItemId> {
    if Occupied(rows, d, position) then
      var a :| a in rows && rows[a] == Placement(d, position);
      Some(a)
    else None
  }

  ghost predicate IsMax(rows: Rows, d: DashboardId, max: int) {
    if forall a | a in rows :: rows[a].dashboard != d then max == 0
    else
      && Occupied(rows, d, max)
      && (forall a | a in rows && rows[a].dashboard == d :: rows[a].position <= max)
  }

  lemma {:induction false} MaxExists(rows: Rows, d: DashboardId)
    ensures exists max :: IsMax(rows, d, max)
    decreases |rows|
  {
    if rows == map[] {
      assert IsMax(rows, d, 0);
    } else {
      var a :| a in rows;
      var rest := rows - {a};
      MaxExists(rest, d);
      var max :| IsMax(rest, d, max);
      MaxGrows(rows, d, a, max);
    }
  }

  lemma MaxGrows(rows: Rows, d: DashboardId, a: ItemId, max: int)
    requires a in rows && IsMax(rows - {a}, d, max)
    ensures exists m :: IsMax(rows, d, m)
  {
    var rest := rows - {a};
    assert forall b | b in rows && b != a :: b in rest && rest[b] == rows[b];
    if rows[a].dashboard == d && (rows[a].position > max || forall b | b in rest :: rest[b].dashboard != d) {
      assert rows[a] == Placement(d, rows[a].position);
      assert IsMax(rows, d, rows[a].position);
    } else {
      if b :| b in rest && rest[b] == Placement(d, max) { assert rows[b] == Placement(d, max); }
      assert IsMax(rows, d, max);
    }
  }

  /** The highest position on a dashboard, 0 if it has no items. */
  ghost function Highest(rows: Rows, d: DashboardId): (max: int)
    ensures IsMax(rows, d, max)
  {
    MaxExists(rows, d);
    var max :| IsMax(rows, d, max);
    max
  }

  lemma MaxIsUnique(rows: Rows, d: DashboardId, a: int, b: int)
    requires IsMax(rows, d, a) && IsMax(rows, d, b)
    ensures a == b
  {
  }

  /** The rows after saving a new item. */
  ghost function AfterAdd(rows: Rows, id: ItemId, d: DashboardId): Rows {
    if Highest(rows, d) < MAX_POSITION then rows[id := Placement(d, Highest(rows, d) + 1)] else rows
  }

  /** The rows after a move of an item that was at `position` when it was loaded. */
  ghost function AfterMove(rows: Rows, id: ItemId, position: int, up: bool): Rows
    requires id in rows
  {
    var d, target := rows[id].dashboard, position + if up then -1 else 1;
    if !(1 <= target <= MAX_POSITION) || ItemAt(rows, d, position) == None then rows
    else match ItemAt(rows, d, target)
      case None => rows
      case Some(other) =>
        var moved := rows[other := Placement(d, position)][id := Placement(d, target)];
        if Accepted(moved) then moved else rows
  }

  function Shifted(rows: Rows, other: ItemId, d: DashboardId, position: int): Placement
    requires other in rows
  {
    var p := rows[other];
    if p.dashboard == d && p.position >= position then p.(position := p.position - 1) else p
  }

  function Without(rows: Rows, id: ItemId, position: int): Rows
    requires id in rows
  {
    map other | other in rows && other != id :: Shifted(rows, other, rows[id].dashboard, position)
  }

  /** The rows after deleting an item that was at `position` when it was loaded. */
  function AfterDelete(rows: Rows, id: ItemId, position: int): Rows
    requires id in rows
  {
    var left := Without(rows, id, position);
    if Accepted(left) then left else rows
  }

  class DashboardItems {
    var rows: Rows

    constructor ()
      ensures rows == map[]
    {
      rows := map[];
    }

    /** `get_dashboard_item_positions`, and the maximum of what it gives. */
    method MaxPosition(d: DashboardId) returns (max: int)
      ensures IsMax(rows, d, max)
    {
      max := 0;
      var left, found := rows.Keys, false;
      while left != {}
        invariant left <= rows.Keys
        invariant !found ==> max == 0 && forall a | a in rows && a !in left :: rows[a].dashboard != d
        invariant found ==> Occupied(rows, d, max)
        invariant found ==> forall a | a in rows && a !in left && rows[a].dashboard == d :: rows[a].position <= max
        decreases |left|
      {
        var a :| a in left;
        left := left - {a};
        if rows[a].dashboard == d && (!found || rows[a].position > max) {
          assert rows[a] == Placement(d, rows[a].position);
          max, found := rows[a].position, true;
        }
      }
    }

    /** Saving a new item, lines 163-171. */
    method Add(id: ItemId, d: DashboardId) returns (added: bool)
      requires id !in rows
      modifies this
      ensures added == (Highest(old(rows), d) < MAX_POSITION) && rows == AfterAdd(old(rows), id, d)
    {
      var highest := MaxPosition(d);
      MaxIsUnique(rows, d, highest, Highest(rows, d));
      var position := highest + 1;
      added := position <= MAX_POSITION;
      if added { rows := rows[id := Placement(d, position)]; }
    }

    /** `update_position` on an instance that has the given position, lines 129-154. */
    method UpdatePosition(id: ItemId, position: int, up: bool)
      requires id in rows && Accepted(rows)
      modifies this
      ensures rows == AfterMove(old(rows), id, position, up) && Accepted(rows)
    {
      var d, newPosition := rows[id].dashboard, position + if up then -1 else 1;
      if 1 <= newPosition <= MAX_POSITION {
        if !Occupied(rows, d, position) { return; }
        if !Occupied(rows, d, newPosition) { return; }
        var newItem :| newItem in rows && rows[newItem] == Placement(d, newPosition);
        var before := rows;
        rows := rows[newItem := Placement(d, position)];
        rows := rows[id := Placement(d, newPosition)];
        if !Accepted(rows) { rows := before; }
      }
    }

    /** Deleting an instance that has the given position, lines 174-186. */
    method Delete(id: ItemId, position: int)
      requires id in rows && Accepted(rows)
      modifies this
      ensures rows == AfterDelete(old(rows), id, position) && Accepted(rows)
    {
      var d, before := rows[id].dashboard, rows;
      rows := rows - {id};
      rows := map other | other in rows :: Shifted(rows, other, d, position);
      assert rows == Without(before, id, position);
      if !Accepted(rows) { rows := before; }
    }
  }

  /* ---------- the abstract sequence ---------- */

  /** The items of the dashboard are those of `order`, numbered from 1 on. */
  ghost predicate Represents(rows: Rows, d: DashboardId, order: seq<ItemId>) {
    && |order| <= MAX_POSITION
    && (forall i | 0 <= i < |order| :: order[i] in rows && rows[order[i]] == Placement(d, i + 1))
    && (forall a | a in rows && rows[a].dashboard == d :: a in order)
  }

  lemma IndexOf(rows: Rows, d: DashboardId, order: seq<ItemId>, a: ItemId) returns (i: nat)
    requires Represents(rows, d, order) && a in rows && rows[a].dashboard == d
    ensures i < |order| && order[i] == a && rows[a] == Placement(d, i + 1)
  {
    i :| 0 <= i < |order| && order[i] == a;
  }

  /** The positions on the dashboard are exactly 1 to n. */
  lemma PositionsAreExact(rows: Rows, d: DashboardId, order: seq<ItemId>)
    requires Represents(rows, d, order)
    ensures forall p :: Occupied(rows, d, p) <==> 1 <= p <= |order|
    ensures forall a, b | a in rows && b in rows && rows[a].dashboard == rows[b].dashboard == d && a != b ::
      rows[a] != rows[b]
    ensures forall p | 1 <= p <= |order| :: ItemAt(rows, d, p) == Some(order[p - 1])
    ensures forall p | p < 1 || p > |order| :: ItemAt(rows, d, p) == None
  {
    forall a, p | a in rows && rows[a] == Placement(d, p) ensures 1 <= p <= |order| && order[p - 1] == a {
      var i := IndexOf(rows, d, order, a);
    }
    forall p | 1 <= p <= |order| ensures Occupied(rows, d, p) {
      assert rows[order[p - 1]] == Placement(d, p);
    }
  }

  lemma HighestIsCount(rows: Rows, d: DashboardId, order: seq<ItemId>)
    requires Represents(rows, d, order)
    ensures Highest(rows, d) == |order|
  {
    PositionsAreExact(rows, d, order);
    if order != [] {
      assert rows[order[|order| - 1]] == Placement(d, |order|);
    }
    MaxIsUnique(rows, d, |order|, Highest(rows, d));
  }

  /** Adding appends, and is refused exactly on a full dashboard. */
  lemma AddAppends(rows: Rows, d: DashboardId, order: seq<ItemId>, id: ItemId)
    requires Represents(rows, d, order) && id !in rows
    ensures AfterAdd(rows, id, d) == rows <==> |order| == 16
    ensures |order| < 16 ==> Represents(AfterAdd(rows, id, d), d, order + [id])
  {
    HighestIsCount(rows, d, order);
    if |order| < MAX_POSITION {
      var after := AfterAdd(rows, id, d);
      assert after == rows[id := Placement(d, |order| + 1)];
      forall a | a in after && after[a].dashboard == d ensures a in order + [id] {
        if a != id { assert a in order; }
      }
    }
  }

  function Swapped(order: seq<ItemId>, i: nat, j: nat): seq<ItemId>
    requires i < |order| && j < |order|
  {
    order[i := order[j]][j := order[i]]
  }

  /** The item at index `i` changes places with its neighbour, if it has one. */
  function MoveIn(order: seq<ItemId>, i: nat, up: bool): seq<ItemId>
    requires i < |order|
  {
    if up then if i == 0 then order else Swapped(order, i, i - 1)
    else if i + 1 == |order| then order else Swapped(order, i, i + 1)
  }

  lemma SwapRepresents(rows: Rows, d: DashboardId, order: seq<ItemId>, i: nat, j: nat)
    requires Represents(rows, d, order) && Accepted(rows) && i < |order| && j < |order| && i != j
    ensures var moved := rows[order[j] := Placement(d, i + 1)][order[i] := Placement(d, j + 1)];
      Represents(moved, d, Swapped(order, i, j)) && Accepted(moved)
  {
    var moved := rows[order[j] := Placement(d, i + 1)][order[i] := Placement(d, j + 1)];
    var after := Swapped(order, i, j);
    assert order[i] != order[j];
    forall a | a in moved && moved[a].dashboard == d ensures a in after {
      var k: nat :| k < |order| && order[k] == a;
      assert a == after[if k == i then j else if k == j then i else k];
    }
    forall k | 0 <= k < |after| ensures after[k] in moved && moved[after[k]] == Placement(d, k + 1) {
      if k != i && k != j { assert rows[order[k]] == Placement(d, k + 1); }
    }
    forall a, b | a in moved && b in moved && a != b ensures moved[a] != moved[b] {
      SwapKeepsApart(rows, d, order, i, j, a, b);
    }
  }

  lemma SwapKeepsApart(rows: Rows, d: DashboardId, order: seq<ItemId>, i: nat, j: nat, a: ItemId, b: ItemId)
    requires Represents(rows, d, order) && Accepted(rows) && i < |order| && j < |order| && i != j
    requires a in rows && b in rows && a != b
    ensures var moved := rows[order[j] := Placement(d, i + 1)][order[i] := Placement(d, j + 1)]; moved[a] != moved[b]
  {
    assert rows[order[i]] == Placement(d, i + 1) && rows[order[j]] == Placement(d, j + 1);
    assert a != order[i] ==> rows[a] != rows[order[i]];
    assert a != order[j] ==> rows[a] != rows[order[j]];
    assert b != order[i] ==> rows[b] != rows[order[i]];
    assert b != order[j] ==> rows[b] != rows[order[j]];
  }

  /** A move from another item's position leaves that item and the swapped one at the same place. */
  lemma StaleMoveClashes(rows: Rows, d: DashboardId, order: seq<ItemId>, i: nat, position: int, target: int)
    requires Represents(rows, d, order) && i < |order|
    requires 1 <= position <= |order| && 1 <= target <= |order| && position != target
    requires position != i + 1 && target != i + 1
    ensures !Accepted(rows[order[target - 1] := Placement(d, position)][order[i] := Placement(d, target)])
  {
    var moved := rows[order[target - 1] := Placement(d, position)][order[i] := Placement(d, target)];
    var bystander, other := order[position - 1], order[target - 1];
    assert rows[bystander] == Placement(d, position) && rows[other] == Placement(d, target);
    assert rows[order[i]] == Placement(d, i + 1);
    assert moved[bystander] == moved[other];
  }

  /** Whatever is in the table, no item moves out of the positions 1 to 16, and none moves without a neighbour. */
  lemma MoveStaysInRange(rows: Rows, id: ItemId, position: int, up: bool)
    requires id in rows
    ensures var target := position + if up then -1 else 1;
      AfterMove(rows, id, position, up) != rows ==>
        && 1 <= target <= 16
        && Occupied(rows, rows[id].dashboard, position) && Occupied(rows, rows[id].dashboard, target)
  {
  }

  lemma MoveBetween(rows: Rows, d: DashboardId, order: seq<ItemId>, i: nat, position: int, up: bool)
    requires Represents(rows, d, order) && i < |order|
    ensures var target := position + if up then -1 else 1;
      AfterMove(rows, order[i], position, up) ==
      if 1 <= target <= |order| && 1 <= position <= |order| then
        var moved := rows[order[target - 1] := Placement(d, position)][order[i] := Placement(d, target)];
        if Accepted(moved) then moved else rows
      else rows
  {
    PositionsAreExact(rows, d, order);
  }

  lemma StaleMoveDoesNothing(rows: Rows, d: DashboardId, order: seq<ItemId>, i: nat, position: int, up: bool)
    requires Represents(rows, d, order) && i < |order| && position != i + 1
    ensures AfterMove(rows, order[i], position, up) == rows
  {
    var target := position + if up then -1 else 1;
    MoveBetween(rows, d, order, i, position, up);
    if 1 <= target <= |order| && 1 <= position <= |order| {
      if target != i + 1 {
        StaleMoveClashes(rows, d, order, i, position, target);
      } else {
        assert rows[order[i]] == Placement(d, target);
        assert rows[order[i] := Placement(d, position)][order[i] := Placement(d, target)] == rows;
      }
    }
  }

  /** A move swaps neighbours or does nothing; an instance whose position is out of date never moves anything. */
  lemma MoveSwaps(rows: Rows, d: DashboardId, order: seq<ItemId>, i: nat, position: int, up: bool)
    requires Represents(rows, d, order) && Accepted(rows) && i < |order|
    ensures position == i + 1 ==> Represents(AfterMove(rows, order[i], position, up), d, MoveIn(order, i, up))
    ensures position != i + 1 ==> AfterMove(rows, order[i], position, up) == rows
  {
    if position == i + 1 {
      MoveBetween(rows, d, order, i, i + 1, up);
      var j := if up then i - 1 else i + 1;
      if 0 <= j < |order| { SwapRepresents(rows, d, order, i, j); }
    } else {
      StaleMoveDoesNothing(rows, d, order, i, position, up);
    }
  }

  /* ---------- deleting ---------- */

  function Removed(order: seq<ItemId>, i: nat): seq<ItemId>
    requires i < |order|
  {
    order[..i] + order[i + 1..]
  }

  /** The position that the instance had when it was loaded closes the gap that the deletion leaves. */
  predicate ClosesTheGap(position: int, actual: int, count: int) {
    || position == actual || position == actual + 1
    || (actual == 1 && position < actual) || (actual == count && position > actual)
  }

  lemma WithoutAt(rows: Rows, d: DashboardId, order: seq<ItemId>, i: nat, position: int, k: nat)
    requires Represents(rows, d, order) && i < |order| && k < |order| && k != i
    ensures order[k] in Without(rows, order[i], position)
    ensures Without(rows, order[i], position)[order[k]] == Placement(d, if k + 1 >= position then k else k + 1)
  {
    assert rows[order[i]] == Placement(d, i + 1) && rows[order[k]] == Placement(d, k + 1);
  }

  lemma WithoutRepresents(rows: Rows, d: DashboardId, order: seq<ItemId>, i: nat, position: int)
    requires Represents(rows, d, order) && i < |order| && ClosesTheGap(position, i + 1, |order|)
    ensures Represents(Without(rows, order[i], position), d, Removed(order, i))
  {
    var left, after := Without(rows, order[i], position), Removed(order, i);
    assert rows[order[i]] == Placement(d, i + 1);
    forall k | 0 <= k < |after| ensures after[k] in left && left[after[k]] == Placement(d, k + 1) {
      var j := if k < i then k else k + 1;
      assert after[k] == order[j];
      WithoutAt(rows, d, order, i, position, j);
    }
    forall a | a in left && left[a].dashboard == d ensures a in after {
      var j := IndexOf(rows, d, order, a);
      assert after[if j < i then j else j - 1] == order[j];
    }
  }

  lemma WithoutAccepted(rows: Rows, d: DashboardId, order: seq<ItemId>, i: nat, position: int)
    requires Represents(rows, d, order) && Accepted(rows) && i < |order| && ClosesTheGap(position, i + 1, |order|)
    ensures Accepted(Without(rows, order[i], position))
  {
    var left, after := Without(rows, order[i], position), Removed(order, i);
    assert rows[order[i]] == Placement(d, i + 1);
    WithoutRepresents(rows, d, order, i, position);
    PositionsAreExact(left, d, after);
    forall a | a in left ensures left[a].position >= 0 {
      if left[a].dashboard == d { var k := IndexOf(left, d, after, a); }
    }
  }

  /** Deleting an item with its current position keeps the order of the others. */
  lemma DeleteRemoves(rows: Rows, d: DashboardId, order: seq<ItemId>, i: nat, position: int)
    requires Represents(rows, d, order) && Accepted(rows) && i < |order| && ClosesTheGap(position, i + 1, |order|)
    ensures Represents(AfterDelete(rows, order[i], position), d, Removed(order, i))
  {
    WithoutRepresents(rows, d, order, i, position);
    WithoutAccepted(rows, d, order, i, position);
  }

  /** The items at two successive positions collide when only the second of them is shifted, and the deletion is
      rolled back. */
  lemma CollidingDelete(rows: Rows, d: DashboardId, order: seq<ItemId>, i: nat, position: int)
    requires Represents(rows, d, order) && i < |order|
    requires 2 <= position <= i || i + 2 < position <= |order|
    ensures AfterDelete(rows, order[i], position) == rows
  {
    var left := Without(rows, order[i], position);
    WithoutAt(rows, d, order, i, position, position - 1);
    WithoutAt(rows, d, order, i, position, position - 2);
    assert rows[order[position - 1]] == Placement(d, position);
    assert rows[order[position - 2]] == Placement(d, position - 1);
    assert left[order[position - 1]] == left[order[position - 2]];
  }

  ghost predicate InOrder(rows: Rows, d: DashboardId) {
    exists order :: Represents(rows, d, order)
  }

  /** A position up to 1 shifts all of the others, one beyond the last shifts none. */
  predicate ShiftsAllOrNone(position: int, actual: int, count: int) {
    (position <= 1 && actual > 1) || (position > count && actual < count)
  }

  lemma AllOrNoneAccepted(rows: Rows, d: DashboardId, order: seq<ItemId>, i: nat, position: int)
    requires Represents(rows, d, order) && Accepted(rows) && i < |order|
    requires ShiftsAllOrNone(position, i + 1, |order|)
    ensures Accepted(Without(rows, order[i], position))
  {
    var left := Without(rows, order[i], position);
    assert rows[order[i]] == Placement(d, i + 1);
    forall a | a in left
      ensures left[a] == if rows[a].dashboard == d && position <= 1 then Placement(d, rows[a].position - 1) else rows[a]
      ensures left[a].position >= 0
    {
      if rows[a].dashboard == d { var k := IndexOf(rows, d, order, a); }
    }
    forall a, b | a in left && b in left && a != b ensures left[a] != left[b] {
      assert rows[a] != rows[b];
    }
  }

  lemma AllOrNoneDisorders(rows: Rows, d: DashboardId, order: seq<ItemId>, i: nat, position: int)
    requires Represents(rows, d, order) && i < |order| && ShiftsAllOrNone(position, i + 1, |order|)
    ensures !InOrder(Without(rows, order[i], position), d)
  {
    var left := Without(rows, order[i], position);
    if position <= 1 {
      WithoutAt(rows, d, order, i, position, 0);
      assert Occupied(left, d, 0);
      forall r | Represents(left, d, r) ensures false { PositionsAreExact(left, d, r); }
    } else {
      WithoutAt(rows, d, order, i, position, i + 1);
      assert Occupied(left, d, i + 2);
      forall a | a in left ensures left[a] != Placement(d, i + 1) {
        if left[a].dashboard == d {
          var j := IndexOf(rows, d, order, a);
          WithoutAt(rows, d, order, i, position, j);
        }
      }
      assert !Occupied(left, d, i + 1);
      forall r | Represents(left, d, r) ensures false { PositionsAreExact(left, d, r); }
    }
  }

  /** Whatever position the deleted instance was loaded with, the dashboard stays in order exactly if that position
      does not shift all of the other items or none of them. */
  lemma DeleteKeepsOrderIff(rows: Rows, d: DashboardId, order: seq<ItemId>, i: nat, position: int)
    requires Represents(rows, d, order) && Accepted(rows) && i < |order|
    ensures InOrder(AfterDelete(rows, order[i], position), d) <==> !ShiftsAllOrNone(position, i + 1, |order|)
  {
    if ShiftsAllOrNone(position, i + 1, |order|) {
      AllOrNoneAccepted(rows, d, order, i, position);
      AllOrNoneDisorders(rows, d, order, i, position);
    } else if ClosesTheGap(position, i + 1, |order|) {
      DeleteRemoves(rows, d, order, i, position);
    } else {
      CollidingDelete(rows, d, order, i, position);
    }
  }

  /* ---------- every run ---------- */

  /** Saving a new item, deleting an instance that was loaded with the given position, or moving one. */
  datatype Operation =
    | Add(id: ItemId, dashboard: DashboardId)
    | Delete(id: ItemId, position: int)
    | Move(id: ItemId, position: int, up: bool)

  ghost function Step(rows: Rows, op: Operation): Rows {
    match op
    case Add(id, d) => if id in rows then rows else AfterAdd(rows, id, d)
    case Delete(id, position) => if id in rows then AfterDelete(rows, id, position) else rows
    case Move(id, position, up) => if id in rows then AfterMove(rows, id, position, up) else rows
  }

  /** The dashboard that an operation is about. */
  function Target(rows: Rows, op: Operation): Option<DashboardId> {
    if op.Add? then Some(op.dashboard) else if op.id in rows then Some(rows[op.id].dashboard) else None
  }

  /** The other dashboards do not change, whatever the operation. */
  lemma OthersUntouched(rows: Rows, d: DashboardId, order: seq<ItemId>, op: Operation)
    requires Represents(rows, d, order) && Target(rows, op) != Some(d)
    ensures Represents(Step(rows, op), d, order)
  {
    match op {
      case Add(id, e) =>
      case Delete(id, position) => if id in rows { DeleteElsewhere(rows, d, order, id, position); }
      case Move(id, position, up) => if id in rows { MoveElsewhere(rows, d, order, id, position, up); }
    }
  }

  lemma DeleteElsewhere(rows: Rows, d: DashboardId, order: seq<ItemId>, id: ItemId, position: int)
    requires Represents(rows, d, order) && id in rows && rows[id].dashboard != d
    ensures Represents(AfterDelete(rows, id, position), d, order)
  {
    var left := Without(rows, id, position);
    forall a | a in left && left[a].dashboard == d ensures a in order { assert rows[a].dashboard == d; }
  }

  lemma MoveElsewhere(rows: Rows, d: DashboardId, order: seq<ItemId>, id: ItemId, position: int, up: bool)
    requires Represents(rows, d, order) && id in rows && rows[id].dashboard != d
    ensures Represents(AfterMove(rows, id, position, up), d, order)
  {
    var e, target := rows[id].dashboard, position + if up then -1 else 1;
    if ItemAt(rows, e, target).Some? {
      var other := ItemAt(rows, e, target).value;
      var moved := rows[other := Placement(e, position)][id := Placement(e, target)];
      assert Represents(moved, d, order);
    }
  }

  /** The database accepts the table, and every dashboard is numbered from 1 on. */
  ghost predicate AllInOrder(rows: Rows) {
    Accepted(rows) && forall d :: InOrder(rows, d)
  }

  /** A deletion does not shift all or none of the others. One with the current position never does. */
  ghost predicate Harmless(rows: Rows, op: Operation) {
    op.Delete? && op.id in rows ==>
      !ShiftsAllOrNone(op.position, rows[op.id].position, Highest(rows, rows[op.id].dashboard))
  }

  lemma StepAccepted(rows: Rows, op: Operation)
    requires AllInOrder(rows)
    ensures Accepted(Step(rows, op))
  {
    if op.Add? && op.id !in rows {
      var d := op.dashboard;
      assert InOrder(rows, d);
      var order :| Represents(rows, d, order);
      HighestIsCount(rows, d, order);
      PositionsAreExact(rows, d, order);
      assert forall a | a in rows :: rows[a] != Placement(d, |order| + 1);
    }
  }

  lemma TargetInOrder(rows: Rows, op: Operation, d: DashboardId)
    requires AllInOrder(rows) && Target(rows, op) == Some(d)
    ensures InOrder(Step(rows, op), d) <==> Harmless(rows, op)
  {
    assert InOrder(rows, d);
    var order :| Represents(rows, d, order);
    match op {
      case Add(id, _) =>
        if id !in rows { AddAppends(rows, d, order, id); }
      case Delete(id, position) =>
        var i := IndexOf(rows, d, order, id);
        HighestIsCount(rows, d, order);
        DeleteKeepsOrderIff(rows, d, order, i, position);
      case Move(id, position, up) =>
        var i := IndexOf(rows, d, order, id);
        MoveSwaps(rows, d, order, i, position, up);
    }
  }

  /** One operation, with whatever position its instance was loaded, keeps all dashboards in order exactly if it is
      harmless. */
  lemma StepKeepsOrderIff(rows: Rows, op: Operation)
    requires AllInOrder(rows)
    ensures AllInOrder(Step(rows, op)) <==> Harmless(rows, op)
  {
    StepAccepted(rows, op);
    forall d: DashboardId | Target(rows, op) != Some(d) ensures InOrder(Step(rows, op), d) {
      assert InOrder(rows, d);
      var order :| Represents(rows, d, order);
      OthersUntouched(rows, d, order, op);
    }
    if Target(rows, op).Some? { TargetInOrder(rows, op, Target(rows, op).value); }
  }

  ghost function Run(rows: Rows, ops: seq<Operation>): Rows
    decreases |ops|
  {
    if ops == [] then rows else Run(Step(rows, ops[0]), ops[1..])
  }

  /** Every operation of the run is harmless when its turn comes. */
  ghost predicate HarmlessRun(rows: Rows, ops: seq<Operation>)
    decreases |ops|
  {
    ops == [] || (Harmless(rows, ops[0]) && HarmlessRun(Step(rows, ops[0]), ops[1..]))
  }

  /** After every operation of the run all dashboards are in order. */
  ghost predicate AlwaysInOrder(rows: Rows, ops: seq<Operation>)
    decreases |ops|
  {
    AllInOrder(rows) && (ops != [] ==> AlwaysInOrder(Step(rows, ops[0]), ops[1..]))
  }

  /** Over every run of additions, deletions and moves the positions on every dashboard are exactly 1 to n, with n up to
      16, exactly if every deletion is harmless. */
  lemma {:induction false} RunKeepsOrderIff(rows: Rows, ops: seq<Operation>)
    requires AllInOrder(rows)
    ensures AlwaysInOrder(rows, ops) <==> HarmlessRun(rows, ops)
    decreases |ops|
  {
    if ops == [] {
    } else {
      var after := Step(rows, ops[0]);
      StepKeepsOrderIff(rows, ops[0]);
      if AllInOrder(after) { RunKeepsOrderIff(after, ops[1..]); }
      else { assert !AlwaysInOrder(after, ops[1..]); }
    }
  }

  /** In particular always, when every deleted instance has the position that it has in the table. */
  lemma {:induction false} FreshRunInOrder(rows: Rows, ops: seq<Operation>)
    requires AllInOrder(rows) && FreshDeletes(rows, ops)
    ensures AlwaysInOrder(rows, ops)
    decreases |ops|
  {
    if ops == [] {
    } else {
      FreshIsHarmless(rows, ops[0]);
      StepKeepsOrderIff(rows, ops[0]);
      FreshRunInOrder(Step(rows, ops[0]), ops[1..]);
    }
  }

  lemma EmptyInOrder()
    ensures AllInOrder(map[])
  {
    forall d: DashboardId ensures InOrder(map[], d) { assert Represents(map[], d, []); }
  }

  /** ... and so in every such run from the empty table on. */
  lemma FreshFromEmpty(ops: seq<Operation>)
    requires FreshDeletes(map[], ops)
    ensures AlwaysInOrder(map[], ops)
  {
    EmptyInOrder();
    FreshRunInOrder(map[], ops);
  }

  ghost predicate FreshDeletes(rows: Rows, ops: seq<Operation>)
    decreases |ops|
  {
    ops == [] || ((ops[0].Delete? && ops[0].id in rows ==> rows[ops[0].id].position == ops[0].position)
                  && FreshDeletes(Step(rows, ops[0]), ops[1..]))
  }

  lemma FreshIsHarmless(rows: Rows, op: Operation)
    requires op.Delete? && op.id in rows ==> rows[op.id].position == op.position
    ensures Harmless(rows, op)
  {
  }

  /* ---------- the sequence follows ---------- */

  function Find(order: seq<ItemId>, item: ItemId): (i: nat)
    requires item in order
    ensures i < |order| && order[i] == item
  {
    if order[0] == item then 0 else 1 + Find(order[1..], item)
  }

  /** What an operation makes of the sequence of dashboard `d`. */
  function OnOrder(order: seq<ItemId>, d: DashboardId, op: Operation): seq<ItemId> {
    match op
    case Add(id, e) => if e == d && |order| < MAX_POSITION then order + [id] else order
    case Delete(id, position) =>
      if id in order && ClosesTheGap(position, Find(order, id) + 1, |order|) then Removed(order, Find(order, id))
      else order
    case Move(id, position, up) =>
      if id in order && position == Find(order, id) + 1 then MoveIn(order, Find(order, id), up) else order
  }

  /** A new item has an id of its own, and a deletion is harmless. */
  ghost predicate Regular(rows: Rows, op: Operation) {
    (op.Add? ==> op.id !in rows) && Harmless(rows, op)
  }

  lemma StepFollows(rows: Rows, d: DashboardId, order: seq<ItemId>, op: Operation)
    requires AllInOrder(rows) && Represents(rows, d, order) && Regular(rows, op)
    ensures Represents(Step(rows, op), d, OnOrder(order, d, op))
  {
    assert op.id in order ==> op.id in rows && rows[op.id].dashboard == d;
    if Target(rows, op) != Some(d) { OthersUntouched(rows, d, order, op); } else { TargetFollows(rows, d, order, op); }
  }

  lemma TargetFollows(rows: Rows, d: DashboardId, order: seq<ItemId>, op: Operation)
    requires AllInOrder(rows) && Represents(rows, d, order) && Regular(rows, op) && Target(rows, op) == Some(d)
    ensures Represents(Step(rows, op), d, OnOrder(order, d, op))
  {
    match op {
      case Add(id, _) => AddAppends(rows, d, order, id);
      case Delete(id, position) => DeleteFollows(rows, d, order, Find(order, id), position);
      case Move(id, position, up) =>
        assert rows[order[Find(order, id)]] == Placement(d, Find(order, id) + 1);
        MoveSwaps(rows, d, order, Find(order, id), position, up);
    }
  }

  lemma DeleteFollows(rows: Rows, d: DashboardId, order: seq<ItemId>, i: nat, position: int)
    requires Represents(rows, d, order) && Accepted(rows) && i < |order| && Harmless(rows, Delete(order[i], position))
    ensures Represents(AfterDelete(rows, order[i], position), d,
      if ClosesTheGap(position, i + 1, |order|) then Removed(order, i) else order)
  {
    assert rows[order[i]] == Placement(d, i + 1);
    HighestIsCount(rows, d, order);
    if ClosesTheGap(position, i + 1, |order|) {
      DeleteRemoves(rows, d, order, i, position);
    } else {
      CollidingDelete(rows, d, order, i, position);
    }
  }

  ghost predicate RegularRun(rows: Rows, ops: seq<Operation>)
    decreases |ops|
  {
    ops == [] || (Regular(rows, ops[0]) && RegularRun(Step(rows, ops[0]), ops[1..]))
  }

  function RunOrder(order: seq<ItemId>, d: DashboardId, ops: seq<Operation>): seq<ItemId>
    decreases |ops|
  {
    if ops == [] then order else RunOrder(OnOrder(order, d, ops[0]), d, ops[1..])
  }

  /** Over every such run of additions, deletions and moves the table follows the sequence of each dashboard. */
  lemma {:induction false} TableFollows(rows: Rows, d: DashboardId, order: seq<ItemId>, ops: seq<Operation>)
    requires AllInOrder(rows) && Represents(rows, d, order) && RegularRun(rows, ops)
    ensures Represents(Run(rows, ops), d, RunOrder(order, d, ops))
    decreases |ops|
  {
    if ops == [] {
    } else {
      StepFollows(rows, d, order, ops[0]);
      StepKeepsOrderIff(rows, ops[0]);
      TableFollows(Step(rows, ops[0]), d, OnOrder(order, d, ops[0]), ops[1..]);
    }
  }

  /* ---------- every order can be reached ---------- */

  ghost predicate NoRepeats(order: seq<ItemId>) {
    forall i, j | 0 <= i < j < |order| :: order[i] != order[j]
  }

  predicate OnlyMoves(ops: seq<Operation>) {
    forall k | 0 <= k < |ops| :: ops[k].Move?
  }

  lemma RunFirst(order: seq<ItemId>, d: DashboardId, ops: seq<Operation>)
    requires ops != []
    ensures RunOrder(order, d, ops) == RunOrder(OnOrder(order, d, ops[0]), d, ops[1..])
  {
  }

  lemma {:induction false} RunConcat(order: seq<ItemId>, d: DashboardId, a: seq<Operation>, b: seq<Operation>)
    ensures RunOrder(order, d, a + b) == RunOrder(RunOrder(order, d, a), d, b)
    decreases |a|
  {
    if a == [] {
      assert a + b == b;
    } else {
      var next := OnOrder(order, d, a[0]);
      assert (a + b)[0] == a[0] && (a + b)[1..] == a[1..] + b;
      calc {
        RunOrder(order, d, a + b);
        { RunFirst(order, d, a + b); }
        RunOrder(next, d, a[1..] + b);
        { RunConcat(next, d, a[1..], b); }
        RunOrder(RunOrder(next, d, a[1..]), d, b);
        { RunFirst(order, d, a); }
        RunOrder(RunOrder(order, d, a), d, b);
      }
    }
  }

  /** The item at index `j` taken to index `k` before it. */
  function Pulled(order: seq<ItemId>, j: nat, k: nat): seq<ItemId>
    requires k <= j < |order|
  {
    order[..k] + [order[j]] + order[k..j] + order[j + 1..]
  }

  lemma PulledSame(order: seq<ItemId>, j: nat, k: nat)
    requires k <= j < |order|
    ensures multiset(Pulled(order, j, k)) == multiset(order) && |Pulled(order, j, k)| == |order|
    ensures Pulled(order, j, k)[..k + 1] == order[..k] + [order[j]]
  {
    assert order == order[..k] + order[k..j] + [order[j]] + order[j + 1..];
  }

  lemma PulledInSteps(order: seq<ItemId>, j: nat, k: nat)
    requires k < j < |order|
    ensures Pulled(Swapped(order, j, j - 1), j - 1, k) == Pulled(order, j, k)
  {
    var next := Swapped(order, j, j - 1);
    assert next[..k] == order[..k] && next[j - 1] == order[j];
    assert next[k..j - 1] + next[j..] == order[k..j] + order[j + 1..];
  }

  lemma {:induction false} FindIsIndex(order: seq<ItemId>, j: nat)
    requires NoRepeats(order) && j < |order|
    ensures Find(order, order[j]) == j
    decreases j
  {
    if j == 0 {
    } else {
      assert order[0] != order[j] && order[1..][j - 1] == order[j];
      FindIsIndex(order[1..], j - 1);
    }
  }

  /** Moving up as often as needed takes the item at index `j` to index `k`. */
  lemma {:induction false} MoveUpTo(order: seq<ItemId>, d: DashboardId, j: nat, k: nat) returns (moves: seq<Operation>)
    requires NoRepeats(order) && k <= j < |order|
    ensures RunOrder(order, d, moves) == Pulled(order, j, k) && OnlyMoves(moves)
    decreases j
  {
    if j == k {
      moves := [];
      assert order == Pulled(order, j, k);
    } else {
      var next, first := Swapped(order, j, j - 1), Move(order[j], j + 1, true);
      FindIsIndex(order, j);
      assert OnOrder(order, d, first) == next;
      var rest := MoveUpTo(next, d, j - 1, k);
      moves := [first] + rest;
      assert moves[0] == first && moves[1..] == rest;
      PulledInSteps(order, j, k);
    }
  }

  lemma Placed(order: seq<ItemId>, goal: seq<ItemId>, k: nat) returns (j: nat)
    requires NoRepeats(order) && NoRepeats(goal) && multiset(order) == multiset(goal) && k < |goal|
    requires |order| == |goal| && order[..k] == goal[..k]
    ensures k <= j < |order| && order[j] == goal[k]
  {
    assert goal[k] in multiset(goal) && goal[k] in order;
    forall l | 0 <= l < k ensures order[l] != goal[k] {
      assert order[l] == order[..k][l] == goal[..k][l] == goal[l];
    }
    j :| 0 <= j < |order| && order[j] == goal[k];
  }

  lemma {:induction false} ReachFrom(order: seq<ItemId>, d: DashboardId, goal: seq<ItemId>, k: nat)
    returns (moves: seq<Operation>)
    requires NoRepeats(order) && NoRepeats(goal) && multiset(order) == multiset(goal) && |order| == |goal|
    requires k <= |goal| && order[..k] == goal[..k]
    ensures RunOrder(order, d, moves) == goal && OnlyMoves(moves)
    decreases |goal| - k
  {
    if k == |goal| {
      moves := [];
      assert order == order[..k] == goal[..k] == goal;
    } else {
      var j := Placed(order, goal, k);
      var first := MoveUpTo(order, d, j, k);
      var next := Pulled(order, j, k);
      PulledSame(order, j, k);
      SameItemsNoRepeats(next, goal);
      assert goal[..k + 1] == goal[..k] + [goal[k]];
      var rest := ReachFrom(next, d, goal, k + 1);
      moves := first + rest;
      RunConcat(order, d, first, rest);
    }
  }

  lemma {:induction false} CountsOne(order: seq<ItemId>)
    ensures NoRepeats(order) <==> forall x :: multiset(order)[x] <= 1
  {
    if order == [] {
    } else {
      var n := |order| - 1;
      CountsOne(order[..n]);
      assert order == order[..n] + [order[n]];
      assert order[n] in multiset(order[..n]) <==> order[n] in order[..n];
      if forall x :: multiset(order)[x] <= 1 {
        forall x ensures multiset(order[..n])[x] <= 1 { assert multiset(order)[x] <= 1; }
        assert multiset(order)[order[n]] <= 1;
      }
    }
  }

  lemma SameItemsNoRepeats(order: seq<ItemId>, goal: seq<ItemId>)
    requires multiset(order) == multiset(goal) && NoRepeats(goal)
    ensures NoRepeats(order)
  {
    CountsOne(order);
    CountsOne(goal);
  }

  lemma {:induction false} MovesAreRegular(rows: Rows, moves: seq<Operation>)
    requires OnlyMoves(moves)
    ensures RegularRun(rows, moves)
    decreases |moves|
  {
    if moves == [] {
    } else {
      assert moves[0].Move?;
      MovesAreRegular(Step(rows, moves[0]), moves[1..]);
    }
  }

  lemma OrderHasNoRepeats(rows: Rows, d: DashboardId, order: seq<ItemId>)
    requires Represents(rows, d, order)
    ensures NoRepeats(order)
  {
    forall i, j | 0 <= i < j < |order| ensures order[i] != order[j] {
      assert rows[order[i]] == Placement(d, i + 1) && rows[order[j]] == Placement(d, j + 1);
    }
  }

  /** Moves can bring the items of a dashboard into any order. */
  lemma EveryOrderIsReachable(rows: Rows, d: DashboardId, order: seq<ItemId>, goal: seq<ItemId>)
    returns (moves: seq<Operation>)
    requires AllInOrder(rows) && Represents(rows, d, order) && multiset(goal) == multiset(order)
    ensures OnlyMoves(moves) && Represents(Run(rows, moves), d, goal)
  {
    OrderHasNoRepeats(rows, d, order);
    SameItemsNoRepeats(goal, order);
    assert |order| == |multiset(order)| == |multiset(goal)| == |goal|;
    moves := ReachFrom(order, d, goal, 0);
    MovesAreRegular(rows, moves);
    TableFollows(rows, d, order, moves);
  }
}
