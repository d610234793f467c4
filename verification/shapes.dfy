/** Axis shapes, the "iterators" of src/Json/Column.php: `null` for a column
    without an axis, an `int` count for a list of leaves, or a list of
    shapes. */
module Shapes {
  import opened Values
  import opened Structures

  datatype Shape = NoAxis | Count(n: nat) | Axes(items: seq<Shape>)

  /** `setColumnIterators`. A list counts as a list of leaves as soon as its
      FIRST element is a leaf; the other elements are not inspected. */
  function ShapeOf(s: Structure): (r: Shape)
    ensures s.Leaf? <==> r.NoAxis?
    ensures s.Nodes? ==> Width(r) == |s.items|
    ensures r.Count? <==> s.Nodes? && s.items != [] && s.items[0].Leaf?
  {
    match s
    case Leaf(_) => NoAxis
    case Nodes(items) =>
      if items != [] && items[0].Leaf? then Count(|items|)
      else Axes(seq(|items|, i requires 0 <= i < |items| => ShapeOf(items[i])))
  }

  /** Number of elements at the top level of a shape: `count` of the list, or
      the integer itself. */
  function Width(t: Shape): nat {
    match t
    case NoAxis => 0
    case Count(n) => n
    case Axes(items) => |items|
  }

  /** Rows the shape spans when it serves as the broadcast template. */
  function Rows(t: Shape): nat {
    match t
    case NoAxis => 1
    case Count(n) => n
    case Axes(items) => RowsOf(items)
  }

  function RowsOf(ts: seq<Shape>): nat {
    if ts == [] then 0 else Rows(ts[0]) + RowsOf(ts[1..])
  }

  /** No `null` anywhere: every level of the shape is an axis. */
  predicate AxisComplete(t: Shape) {
    match t
    case NoAxis => false
    case Count(_) => true
    case Axes(items) => forall i :: 0 <= i < |items| ==> AxisComplete(items[i])
  }

  /** `path` is a walk through nested lists of `t`. */
  predicate Follows(t: Shape, path: seq<nat>) {
    path == [] || (t.Axes? && path[0] < |t.items| && Follows(t.items[path[0]], path[1..]))
  }

  /** The sub-shape reached by a walk. */
  function At(t: Shape, path: seq<nat>): Shape
    requires Follows(t, path)
  {
    if path == [] then t else At(t.items[path[0]], path[1..])
  }

  lemma {:induction false} RowsOfConcat(a: seq<Shape>, b: seq<Shape>)
    ensures RowsOf(a + b) == RowsOf(a) + RowsOf(b)
  {
    if a == [] {
      assert a + b == b;
    } else {
      assert (a + b)[0] == a[0];
      assert (a + b)[1..] == a[1..] + b;
      RowsOfConcat(a[1..], b);
    }
  }

  lemma {:induction false} LeavesOfConcat(a: seq<Structure>, b: seq<Structure>)
    ensures LeavesOf(a + b) == LeavesOf(a) + LeavesOf(b)
  {
    if a == [] {
      assert a + b == b;
    } else {
      assert (a + b)[0] == a[0];
      assert (a + b)[1..] == a[1..] + b;
      LeavesOfConcat(a[1..], b);
    }
  }

  /** The shape of a uniform structure has an axis at every level below its
      top, and spans exactly as many rows as the structure has leaves. */
  lemma {:induction false} UniformShape(s: Structure)
    requires Uniform(s)
    ensures s.Nodes? ==> AxisComplete(ShapeOf(s))
    ensures Rows(ShapeOf(s)) == |Leaves(s)|
  {
    match s
    case Leaf(_) =>
    case Nodes(items) =>
      if items != [] && items[0].Leaf? {
        LeafListLeaves(items);
      } else {
        var ts := ShapeOf(s).items;
        forall i | 0 <= i < |items|
          ensures AxisComplete(ts[i]) && Rows(ts[i]) == |Leaves(items[i])|
        {
          UniformShape(items[i]);
        }
        RowsOfLeaves(items, ts);
      }
  }

  lemma {:induction false} LeafListLeaves(items: seq<Structure>)
    requires forall i :: 0 <= i < |items| ==> items[i].Leaf?
    ensures |LeavesOf(items)| == |items|
  {
    if items != [] {
      LeafListLeaves(items[1..]);
    }
  }

  lemma {:induction false} RowsOfLeaves(items: seq<Structure>, ts: seq<Shape>)
    requires |ts| == |items|
    requires forall i :: 0 <= i < |items| ==> Rows(ts[i]) == |Leaves(items[i])|
    ensures RowsOf(ts) == |LeavesOf(items)|
  {
    if items != [] {
      RowsOfLeaves(items[1..], ts[1..]);
    }
  }

  /** The quirk of the first-element test: a list whose first element is a
      leaf counts as a list of leaves even when a later element is a list,
      so the deeper axis is lost. */
  lemma FirstElementDecides()
    ensures ShapeOf(Nodes([Leaf(Int(1)), Nodes([Leaf(Int(2)), Leaf(Int(3))])])) == Count(2)
  {
  }
}
