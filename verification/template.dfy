/** `getDeepestColStruct` of src/Json/Parser.php: the column whose shape
    becomes the template every other column is laid out along. */
module Template {
  import opened Wrappers
  import opened Shapes
  import opened Columns
  import opened ComparisonRecord
  import Comparator

  /** The scan from column `k` on, with the current candidate `cand`: the
      first column becomes the candidate, a column without an axis is
      skipped, and a column that compares as dominating the candidate
      replaces it. A comparison that fails aborts the scan. */
  function DeepestFrom(cols: seq<Column>, k: nat, cand: Option<Column>): (r: Result<Option<Column>>)
    requires k <= |cols|
    requires cand.Some? <==> k > 0
    requires cand.Some? ==> cand.value in cols[..k]
    requires cand.Some? ==> cand.value == cols[0] || !cand.value.iterators.NoAxis?
    ensures r.Success? ==> (r.value.Some? <==> |cols| > 0)
    ensures r.Success? && r.value.Some? ==> r.value.value in cols
    ensures r.Success? && r.value.Some? ==> r.value.value == cols[0] || !r.value.value.iterators.NoAxis?
    ensures r.Failure? ==> exists i, j :: 0 <= i < |cols| && 0 <= j < |cols| && Compare(cols[i], cols[j]) == Failure(r.error)
    decreases |cols| - k
  {
    if k == |cols| then Success(cand)
    else
      var cur := if cand.None? then cols[k] else cand.value;
      assert cur in cols[..k + 1];
      if cols[k].iterators.NoAxis? then DeepestFrom(cols, k + 1, Some(cur))
      else match Compare(cols[k], cur)
        case Failure(e) =>
          assert exists j :: 0 <= j <= k && cols[j] == cur;
          Failure(e)
        case Success(dominates) =>
          assert cols[k] in cols[..k + 1];
          DeepestFrom(cols, k + 1, Some(if dominates then cols[k] else cur))
  }

  /** The template column, or `None` for an empty mapping. */
  function Deepest(cols: seq<Column>): Result<Option<Column>> {
    DeepestFrom(cols, 0, None)
  }

  /** Some column has an axis. */
  predicate AnyAxis(cols: seq<Column>) {
    exists i :: 0 <= i < |cols| && !cols[i].iterators.NoAxis?
  }

  /** The template has an axis whenever any column has one: a candidate
      without an axis is displaced by the first column that has one. */
  lemma {:induction false} DeepestHasAxis(cols: seq<Column>, k: nat, cand: Option<Column>)
    requires k <= |cols|
    requires cand.Some? <==> k > 0
    requires cand.Some? ==> cand.value in cols[..k]
    requires cand.Some? ==> cand.value == cols[0] || !cand.value.iterators.NoAxis?
    requires AnyAxis(cols[..k]) ==> cand.Some? && !cand.value.iterators.NoAxis?
    requires DeepestFrom(cols, k, cand).Success? && AnyAxis(cols)
    ensures !DeepestFrom(cols, k, cand).value.value.iterators.NoAxis?
    decreases |cols| - k
  {
    if k < |cols| {
      var cur := if cand.None? then cols[k] else cand.value;
      if cols[k].iterators.NoAxis? {
        assert AnyAxis(cols[..k + 1]) ==> AnyAxis(cols[..k]) by {
          assert cols[..k + 1][..k] == cols[..k];
          assert cols[..k + 1][k] == cols[k];
        }
        DeepestHasAxis(cols, k + 1, Some(cur));
      } else {
        assert Compare(cols[k], cur).Success?;
        var next := if Compare(cols[k], cur).value then cols[k] else cur;
        assert !next.iterators.NoAxis? by {
          Comparator.NullCases(cols[k].iterators, New().levels);
        }
        DeepestHasAxis(cols, k + 1, Some(next));
      }
    } else {
      assert cols[..k] == cols;
    }
  }

  /** An empty mapping has no template; otherwise, when no column has an
      axis, the first column is the template. */
  lemma {:induction false} DeepestWithoutAxes(cols: seq<Column>, k: nat, cand: Option<Column>)
    requires k <= |cols|
    requires cand.Some? <==> k > 0
    requires cand.Some? ==> cand.value in cols[..k] && cand.value == cols[0]
    requires forall i :: 0 <= i < |cols| ==> cols[i].iterators.NoAxis?
    ensures DeepestFrom(cols, k, cand) == Success(if cols == [] then None else Some(cols[0]))
    decreases |cols| - k
  {
    if k < |cols| {
      var cur := if cand.None? then cols[k] else cand.value;
      DeepestWithoutAxes(cols, k + 1, Some(cur));
    }
  }

  lemma AgreeingPair(a: Column, b: Column)
    requires Comparator.Agree(a.iterators, b.iterators)
    ensures Compare(a, b).Success?
  {
    Comparator.AgreeNoMismatch(a.iterators, b.iterators, New().levels);
  }

  /** Shapes that agree pairwise never make the scan fail. */
  lemma {:induction false} AgreeingColumnsSucceed(cols: seq<Column>, k: nat, cand: Option<Column>)
    requires k <= |cols|
    requires cand.Some? <==> k > 0
    requires cand.Some? ==> cand.value in cols[..k]
    requires cand.Some? ==> cand.value == cols[0] || !cand.value.iterators.NoAxis?
    requires forall i, j :: 0 <= i < |cols| && 0 <= j < |cols| ==>
      Comparator.Agree(cols[i].iterators, cols[j].iterators)
    ensures DeepestFrom(cols, k, cand).Success?
    decreases |cols| - k
  {
    if k < |cols| {
      var cur := if cand.None? then cols[k] else cand.value;
      assert cur in cols[..k + 1];
      assert cols[..k + 1][k] == cols[k];
      if !cols[k].iterators.NoAxis? {
        var j :| 0 <= j <= k && cols[j] == cur;
        AgreeingPair(cols[k], cols[j]);
        assert cols[k] in cols[..k + 1];
        var dominates := Compare(cols[k], cur).value;
        AgreeingColumnsSucceed(cols, k + 1, Some(if dominates then cols[k] else cur));
      } else {
        AgreeingColumnsSucceed(cols, k + 1, Some(cur));
      }
    }
  }
}
