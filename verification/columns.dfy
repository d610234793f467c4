/** The column record and `Column::compare` of src/Json/Column.php: the
    comparison of two columns' shapes, turned into an exception message
    naming the exact axis where the element counts diverge. */
module Columns {
  import opened Wrappers
  import opened Text
  import opened Markers
  import opened Structures
  import opened Shapes
  import opened ComparisonRecord
  import Comparator

  /** A mapped column: its name, its path as written in the mapping, the
      Structure resolved for it and the shape (`iterators`) set on it. */
  datatype Column = Column(name: string, path: string, structure: Structure, iterators: Shape)

  /** PHP string conversion of a count; an unset count converts to `''`. */
  function CountText(c: Option<nat>): string {
    match c
    case Some(n) => NatToString(n)
    case None => ""
  }

  /** The text of the exception thrown on a mismatch. */
  function MismatchMessage(p1: string, c1: Option<nat>, p2: string, c2: Option<nat>): string {
    "Incorrect JSON. Number of elements in " + p1 + " (" + CountText(c1) + ") and "
      + p2 + " (" + CountText(c2) + ") do not match."
  }

  /** `$this->compare($other)`: the comparator's boolean, or the exception
      whose message rebuilds both original paths from the record's levels. */
  function Compare(self: Column, other: Column): (r: Result<bool>)
    ensures Comparator.Compare(self.iterators, other.iterators).Verdict? ==>
      r == Success(Comparator.Compare(self.iterators, other.iterators).dominates)
    ensures Comparator.Compare(self.iterators, other.iterators).Mismatch? ==> r.Failure?
  {
    match Comparator.Compare(self.iterators, other.iterators)
    case Verdict(b) => Success(b)
    case Mismatch(rec) =>
      Failure(MismatchMessage(
        Reconstruct(self.path, rec.levels), rec.firstValues,
        Reconstruct(other.path, rec.levels), rec.secondValues))
  }

  /** Number of nested axes of a shape. */
  function Depth(t: Shape): nat {
    match t
    case NoAxis => 0
    case Count(_) => 1
    case Axes(items) => 1 + MaxDepth(items)
  }

  function MaxDepth(ts: seq<Shape>): (d: nat)
    ensures forall i :: 0 <= i < |ts| ==> Depth(ts[i]) <= d
  {
    if ts == [] then 0
    else
      var rest := MaxDepth(ts[1..]);
      assert forall i :: 1 <= i < |ts| ==> ts[i] == ts[1..][i - 1];
      if Depth(ts[0]) > rest then Depth(ts[0]) else rest
  }

  /** A walk ending at an axis is shorter than the shape is deep. */
  lemma {:induction false} WalkWithinDepth(t: Shape, path: seq<nat>)
    requires Follows(t, path) && !At(t, path).NoAxis?
    ensures |path| < Depth(t)
  {
    if path != [] {
      WalkWithinDepth(t.items[path[0]], path[1..]);
    }
  }

  /** A reconstructed path that stops right after its only wildcard. */
  predicate EndsAtAxis(p: string) {
    FirstMarker(p).Some? && FirstMarker(p).value + MarkerLen(p, FirstMarker(p).value) == |p|
  }

  /** When each path has no line feed and holds at least as many wildcard
      markers as its shape has axes, a failed comparison reports two
      different counts, and both paths in the message are cut right after
      the offending wildcard, with every earlier wildcard pinned to its
      index. */
  lemma ErrorNamesOffendingAxis(self: Column, other: Column)
    requires Compare(self, other).Failure?
    requires MarkerCount(self.path) >= Depth(self.iterators)
    requires MarkerCount(other.path) >= Depth(other.iterators)
    requires '\n' !in self.path && '\n' !in other.path
    ensures var rec := Comparator.Compare(self.iterators, other.iterators).record;
      && rec.firstValues.Some? && rec.secondValues.Some?
      && rec.firstValues != rec.secondValues
      && EndsAtAxis(Reconstruct(self.path, rec.levels))
      && EndsAtAxis(Reconstruct(other.path, rec.levels))
  {
    var a, b := self.iterators, other.iterators;
    Comparator.MismatchFromCompare(a, b);
    var rec := Comparator.Compare(a, b).record;
    var path :| Comparator.MismatchAt(a, b, [], path, rec);
    assert [] + path == path;
    WalkWithinDepth(a, path);
    WalkWithinDepth(b, path);
    ReconstructEndsAtOffendingAxis(self.path, path);
    ReconstructEndsAtOffendingAxis(other.path, path);
  }
}
