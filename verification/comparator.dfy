/** `Column::compareIterators` in src/Json/Column.php: decides which of two
    axis shapes dominates, or reports where their element counts disagree. */
module Comparator {
  import opened Wrappers
  import opened Markers
  import opened Shapes
  import opened ComparisonRecord

  /** A boolean verdict (`true`: the first shape dominates), or the mismatch
      record returned instead of a boolean. */
  datatype Outcome = Verdict(dominates: bool) | Mismatch(record: IteratorsComparison)

  /** The record holding the accumulated levels and the two counts. */
  function Report(levels: seq<Option<nat>>, first: nat, second: nat): IteratorsComparison {
    SetSecondValues(SetFirstValues(SetLevels(New(), levels), first), second)
  }

  /** `compareIterators($a, $b)` with the record's levels equal to `levels`. */
  function CompareIterators(a: Shape, b: Shape, levels: seq<Option<nat>>): Outcome
    requires |levels| > 0
    decreases a
  {
    if !a.NoAxis? && b.NoAxis? then Verdict(true)
    else match (a, b)
      case (Count(m), Count(n)) =>
        if m != n then Mismatch(Report(levels, m, n)) else Verdict(false)
      case (Count(m), Axes(l)) =>
        if |l| != m then Mismatch(Report(levels, m, |l|)) else Verdict(false)
      case (Axes(l), Count(n)) =>
        if |l| != n then Mismatch(Report(levels, |l|, n)) else Verdict(true)
      case (Axes(l1), Axes(l2)) =>
        if |l1| != |l2| then Mismatch(Report(levels, |l1|, |l2|))
        else CompareElements(l1, l2, 0, levels)
      case _ => Verdict(false)
  }

  /** The levels of the element at index `k`: the last level becomes `k`
      and a fresh `null` is appended. */
  function ChildLevels(levels: seq<Option<nat>>, k: nat): seq<Option<nat>>
    requires |levels| > 0
  {
    levels[..|levels| - 1] + [Some(k), None]
  }

  /** The `foreach` over equally long lists, from index `k`: the first `true`
      or the first mismatch ends the loop; otherwise `false`. */
  function CompareElements(l1: seq<Shape>, l2: seq<Shape>, k: nat, levels: seq<Option<nat>>): Outcome
    requires |l1| == |l2| && k <= |l1| && |levels| > 0
    decreases l1, |l1| - k
  {
    if k == |l1| then Verdict(false)
    else match CompareIterators(l1[k], l2[k], ChildLevels(levels, k))
      case Verdict(true) => Verdict(true)
      case Mismatch(c) => Mismatch(c)
      case Verdict(false) => CompareElements(l1, l2, k + 1, levels)
  }

  /** A comparison as `Column::compare` starts it: with a fresh record. */
  function Compare(a: Shape, b: Shape): Outcome {
    CompareIterators(a, b, New().levels)
  }

  // ---------------------------------------------------------------------
  // Properties

  /** A shape with an axis beats `null`; `null` never beats anything. */
  lemma NullCases(a: Shape, levels: seq<Option<nat>>)
    requires |levels| > 0
    ensures !a.NoAxis? ==> CompareIterators(a, NoAxis, levels) == Verdict(true)
    ensures CompareIterators(NoAxis, a, levels) == Verdict(false)
  {
  }

  /** Comparing a shape with itself never reports a mismatch: the answer is
      `false`. */
  lemma {:induction false} CompareSelf(t: Shape, levels: seq<Option<nat>>)
    requires |levels| > 0
    ensures CompareIterators(t, t, levels) == Verdict(false)
    decreases t, 1
  {
    if t.Axes? {
      CompareSelfElements(t.items, 0, levels);
    }
  }

  lemma {:induction false} CompareSelfElements(l: seq<Shape>, k: nat, levels: seq<Option<nat>>)
    requires k <= |l| && |levels| > 0
    ensures CompareElements(l, l, k, levels) == Verdict(false)
    decreases l, |l| - k
  {
    if k < |l| {
      CompareSelf(l[k], ChildLevels(levels, k));
      CompareSelfElements(l, k + 1, levels);
    }
  }

  /** Two shapes agree when their element counts are equal at every depth
      where both have an axis; `null` agrees with everything. */
  predicate Agree(a: Shape, b: Shape) {
    match (a, b)
    case (NoAxis, _) => true
    case (_, NoAxis) => true
    case (Count(m), Count(n)) => m == n
    case (Count(m), Axes(l)) => m == |l|
    case (Axes(l), Count(n)) => |l| == n
    case (Axes(l1), Axes(l2)) =>
      |l1| == |l2| && forall i :: 0 <= i < |l1| ==> Agree(l1[i], l2[i])
  }

  /** Agreeing shapes are never reported as a mismatch. */
  lemma {:induction false} AgreeNoMismatch(a: Shape, b: Shape, levels: seq<Option<nat>>)
    requires |levels| > 0 && Agree(a, b)
    ensures CompareIterators(a, b, levels).Verdict?
    decreases a, 1
  {
    if a.Axes? && b.Axes? {
      AgreeNoMismatchElements(a.items, b.items, 0, levels);
    }
  }

  lemma {:induction false} AgreeNoMismatchElements(l1: seq<Shape>, l2: seq<Shape>, k: nat, levels: seq<Option<nat>>)
    requires |l1| == |l2| && k <= |l1| && |levels| > 0
    requires forall i :: 0 <= i < |l1| ==> Agree(l1[i], l2[i])
    ensures CompareElements(l1, l2, k, levels).Verdict?
    decreases l1, |l1| - k
  {
    if k < |l1| {
      AgreeNoMismatch(l1[k], l2[k], ChildLevels(levels, k));
      AgreeNoMismatchElements(l1, l2, k + 1, levels);
    }
  }

  /** `rec` reports the disagreement reached by walking `path` below the
      element addressed by `prefix`: both shapes have an axis there, the
      counts recorded are theirs, and they differ. */
  predicate MismatchAt(a: Shape, b: Shape, prefix: seq<nat>, path: seq<nat>, rec: IteratorsComparison) {
    && Follows(a, path) && Follows(b, path)
    && !At(a, path).NoAxis? && !At(b, path).NoAxis?
    && rec.levels == Lift(prefix + path) + [None]
    && rec.firstValues == Some(Width(At(a, path)))
    && rec.secondValues == Some(Width(At(b, path)))
    && Width(At(a, path)) != Width(At(b, path))
  }

  lemma ChildLevelsLift(prefix: seq<nat>, k: nat)
    ensures ChildLevels(Lift(prefix) + [None], k) == Lift(prefix + [k]) + [None]
  {
    assert (Lift(prefix) + [None])[..|prefix|] == Lift(prefix);
  }

  /** Soundness of a mismatch: the record's levels are the element indexes
      leading to the offending depth followed by `null`, and the counts are
      the differing element counts of the two shapes there. */
  lemma {:induction false} MismatchPinpoints(a: Shape, b: Shape, prefix: seq<nat>)
    ensures var r := CompareIterators(a, b, Lift(prefix) + [None]);
      r.Mismatch? ==> exists path :: MismatchAt(a, b, prefix, path, r.record)
    decreases a, 1
  {
    var levels := Lift(prefix) + [None];
    var r := CompareIterators(a, b, levels);
    if r.Mismatch? {
      if a.Axes? && b.Axes? && |a.items| == |b.items| {
        MismatchPinpointsElements(a.items, b.items, 0, prefix);
      } else {
        assert prefix + [] == prefix;
        assert MismatchAt(a, b, prefix, [], r.record);
      }
    }
  }

  lemma {:induction false} MismatchPinpointsElements(l1: seq<Shape>, l2: seq<Shape>, k: nat, prefix: seq<nat>)
    requires |l1| == |l2| && k <= |l1|
    ensures var r := CompareElements(l1, l2, k, Lift(prefix) + [None]);
      r.Mismatch? ==> exists path :: MismatchAt(Axes(l1), Axes(l2), prefix, path, r.record)
    decreases l1, |l1| - k
  {
    var levels := Lift(prefix) + [None];
    var r := CompareElements(l1, l2, k, levels);
    if r.Mismatch? && k < |l1| {
      ChildLevelsLift(prefix, k);
      var c := CompareIterators(l1[k], l2[k], ChildLevels(levels, k));
      if c.Mismatch? {
        MismatchPinpoints(l1[k], l2[k], prefix + [k]);
        var path :| MismatchAt(l1[k], l2[k], prefix + [k], path, c.record);
        var full := [k] + path;
        assert full[1..] == path;
        assert prefix + [k] + path == prefix + full;
        assert MismatchAt(Axes(l1), Axes(l2), prefix, full, r.record);
      } else {
        MismatchPinpointsElements(l1, l2, k + 1, prefix);
      }
    }
  }

  /** The top-level form: a mismatch reported by `compare` names a walk
      through both shapes, ending in `null`, to two differing counts. */
  lemma MismatchFromCompare(a: Shape, b: Shape)
    requires Compare(a, b).Mismatch?
    ensures exists path :: MismatchAt(a, b, [], path, Compare(a, b).record)
  {
    assert Lift([]) + [None] == New().levels;
    MismatchPinpoints(a, b, []);
  }

  /** The early `true` inside the element loop makes the comparison depend
      on argument order. Two columns `x[*].y[*].z[*]` and `x[*].w[*]`: the
      first dominates the second, yet compared the other way round they
      mismatch at `x[1]`. */
  lemma CompareOrderDependent()
    ensures var a := Axes([Axes([Count(1)]), Axes([Count(1), Count(1)])]);
      var b := Axes([Count(1), Count(3)]);
      && Compare(a, b) == Verdict(true)
      && Compare(b, a) == Mismatch(IteratorsComparison([Some(1), None], Some(3), Some(2)))
  {
    var a := Axes([Axes([Count(1)]), Axes([Count(1), Count(1)])]);
    var b := Axes([Count(1), Count(3)]);
    assert CompareIterators(a.items[0], b.items[0], [Some(0), None]) == Verdict(true);
    assert CompareIterators(b.items[0], a.items[0], [Some(0), None]) == Verdict(false);
    assert CompareIterators(b.items[1], a.items[1], [Some(1), None])
      == Mismatch(IteratorsComparison([Some(1), None], Some(3), Some(2)));
    assert CompareElements(b.items, a.items, 2, [None]) == Verdict(false);
  }
}
