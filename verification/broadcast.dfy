/** `createColumnParsedDataset` of src/Json/Parser.php: a column's Structure
    laid out along the template shape of the deepest column, one value per
    row of the template. Missing elements become `null`; a column that ends
    above the template's depth repeats its last value (`$previousItem`). */
module Broadcast {
  import opened Wrappers
  import opened Values
  import opened Structures
  import opened Shapes

  /** `$s->value ?? null`: a leaf's value; `null` for a list or no structure. */
  function ValueOf(col: Option<Structure>): Value {
    match col
    case Some(Leaf(v)) => v
    case _ => Null
  }

  /** `n` copies of `v`. */
  function Repeat(v: Value, n: nat): (r: seq<Value>)
    ensures |r| == n && forall i :: 0 <= i < n ==> r[i] == v
  {
    seq(n, _ => v)
  }

  /** Cell `i` of the integer level: the list's `i`-th leaf, `null` past
      its end or on a nested list, the leaf itself for a leaf column, the
      carried value when there is no structure. */
  function CountCell(col: Option<Structure>, i: nat, prev: Value): Value {
    match col
    case None => prev
    case Some(Leaf(v)) => v
    case Some(Nodes(items)) => if i < |items| && items[i].Leaf? then items[i].value else Null
  }

  /** The layout of `col` along template `t`, carrying `prev` for levels the
      column does not have. */
  function Broadcast(col: Option<Structure>, t: Shape, prev: Value): (r: seq<Value>)
    ensures |r| == Rows(t)
    decreases t
  {
    match t
    case NoAxis => [ValueOf(col)]
    case Count(n) => seq(n, i requires 0 <= i < n => CountCell(col, i, prev))
    case Axes(ts) => BroadcastAxes(col, ts, 0, prev)
  }

  /** The list level, from element `k` on: each element of the template
      lays out the matching element of the column, and the carried value is
      updated on the way, from the column itself when it is a leaf, and from
      its `k`-th element when that is a leaf. */
  function BroadcastAxes(col: Option<Structure>, ts: seq<Shape>, k: nat, prev: Value): (r: seq<Value>)
    requires k <= |ts|
    ensures |r| == RowsOf(ts[k..])
    decreases ts, |ts| - k
  {
    if k == |ts| then []
    else
      var prev1 := if col.Some? && col.value.Leaf? then col.value.value else prev;
      var child := if col.Some? && col.value.Nodes? && k < |col.value.items| then Some(col.value.items[k]) else None;
      var prev2 := if child.Some? && child.value.Leaf? then child.value.value else prev1;
      assert ts[k..][1..] == ts[k + 1..];
      Broadcast(child, ts[k], prev2) + BroadcastAxes(col, ts, k + 1, prev2)
  }

  /** A leaf column under a template with an axis at every level fills
      every row with its value. */
  lemma {:induction false} ReplayLeaf(v: Value, t: Shape, prev: Value)
    requires t.NoAxis? || AxisComplete(t)
    ensures Broadcast(Some(Leaf(v)), t, prev) == Repeat(v, Rows(t))
  {
    if t.Axes? {
      ReplayLeafAxes(v, t.items, 0, prev);
    }
  }

  lemma {:induction false} ReplayLeafAxes(v: Value, ts: seq<Shape>, k: nat, prev: Value)
    requires k <= |ts|
    requires forall i :: 0 <= i < |ts| ==> AxisComplete(ts[i])
    ensures BroadcastAxes(Some(Leaf(v)), ts, k, prev) == Repeat(v, RowsOf(ts[k..]))
    decreases |ts| - k
  {
    if k < |ts| {
      ReplayMissing(ts[k], v);
      ReplayLeafAxes(v, ts, k + 1, v);
    }
  }

  /** Where the column has no structure, an axis-complete template repeats
      the carried value. */
  lemma {:induction false} ReplayMissing(t: Shape, prev: Value)
    requires AxisComplete(t)
    ensures Broadcast(None, t, prev) == Repeat(prev, Rows(t))
    decreases t
  {
    if t.Axes? {
      ReplayMissingAxes(t.items, 0, prev);
    }
  }

  lemma {:induction false} ReplayMissingAxes(ts: seq<Shape>, k: nat, prev: Value)
    requires k <= |ts|
    requires forall i :: 0 <= i < |ts| ==> AxisComplete(ts[i])
    ensures BroadcastAxes(None, ts, k, prev) == Repeat(prev, RowsOf(ts[k..]))
    decreases ts, |ts| - k
  {
    if k < |ts| {
      ReplayMissing(ts[k], prev);
      ReplayMissingAxes(ts, k + 1, prev);
    }
  }

  /** Laid out along its own shape, a uniform column yields exactly its
      leaves, in order: the template column loses nothing. */
  lemma {:induction false} SelfBroadcast(s: Structure, prev: Value)
    requires Uniform(s)
    ensures Broadcast(Some(s), ShapeOf(s), prev) == Leaves(s)
    decreases s
  {
    match s
    case Leaf(_) =>
    case Nodes(items) =>
      if items != [] && items[0].Leaf? {
        LeafList(items, prev);
      } else {
        SelfBroadcastAxes(items, ShapeOf(s).items, 0, prev);
        assert items[0..] == items;
      }
  }

  lemma {:induction false} SelfBroadcastAxes(items: seq<Structure>, ts: seq<Shape>, k: nat, prev: Value)
    requires k <= |items| == |ts|
    requires forall i :: 0 <= i < |items| ==> Uniform(items[i]) && ts[i] == ShapeOf(items[i])
    ensures BroadcastAxes(Some(Nodes(items)), ts, k, prev) == LeavesOf(items[k..])
    decreases items, |items| - k
  {
    if k < |items| {
      var prev2 := if items[k].Leaf? then items[k].value else prev;
      SelfBroadcast(items[k], prev2);
      SelfBroadcastAxes(items, ts, k + 1, prev2);
      assert items[k..][1..] == items[k + 1..];
    }
  }

  /** Each leaf's value repeated over the rows of the template element
      matching it, element after element. */
  function Spread(items: seq<Structure>, ts: seq<Shape>, k: nat): seq<Value>
    requires k <= |ts| <= |items| && AllLeaves(items)
    decreases |ts| - k
  {
    if k == |ts| then [] else Repeat(items[k].value, Rows(ts[k])) + Spread(items, ts, k + 1)
  }

  /** A list of leaves under a deeper template: every leaf is carried down
      over all the rows of its own element. */
  lemma {:induction false} LeafListAlongAxes(items: seq<Structure>, ts: seq<Shape>, k: nat, prev: Value)
    requires k <= |ts| <= |items| && AllLeaves(items)
    requires forall i :: 0 <= i < |ts| ==> AxisComplete(ts[i])
    ensures BroadcastAxes(Some(Nodes(items)), ts, k, prev) == Spread(items, ts, k)
    decreases |ts| - k
  {
    if k < |ts| {
      var v := items[k].value;
      assert items[k] == Leaf(v);
      ReplayLeaf(v, ts[k], v);
      LeafListAlongAxes(items, ts, k + 1, v);
    }
  }

  /** A list of leaves laid out along its count is the list of their values. */
  lemma LeafList(items: seq<Structure>, prev: Value)
    requires AllLeaves(items)
    ensures Broadcast(Some(Nodes(items)), Count(|items|), prev) == LeavesOf(items)
  {
    LeafValues(items);
  }
}
