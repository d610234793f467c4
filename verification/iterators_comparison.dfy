/** The mismatch record of src/Json/IteratorsComparison.php: the nesting
    levels walked so far (element indexes, then `null` for the offending
    depth) and the two element counts found there. */
module ComparisonRecord {
  import opened Wrappers

  /** `firstValues`/`secondValues` stay unset (`None`) until a mismatch is
      recorded. */
  datatype IteratorsComparison = IteratorsComparison(
    levels: seq<Option<nat>>,
    firstValues: Option<nat>,
    secondValues: Option<nat>)

  /** `new IteratorsComparison()`: levels start as `[null]`. */
  function New(): (c: IteratorsComparison)
    ensures c.levels == [None]
    ensures c.firstValues.None? && c.secondValues.None?
  {
    IteratorsComparison([None], None, None)
  }

  /** `setLevels`; `getLevels` then returns exactly the list given. */
  function SetLevels(c: IteratorsComparison, levels: seq<Option<nat>>): (r: IteratorsComparison)
    ensures r.levels == levels
    ensures r.firstValues == c.firstValues && r.secondValues == c.secondValues
  {
    c.(levels := levels)
  }

  /** `setFirstValues`; the other two properties are left alone. */
  function SetFirstValues(c: IteratorsComparison, n: nat): (r: IteratorsComparison)
    ensures r.firstValues == Some(n)
    ensures r.levels == c.levels && r.secondValues == c.secondValues
  {
    c.(firstValues := Some(n))
  }

  /** `setSecondValues`; the other two properties are left alone. */
  function SetSecondValues(c: IteratorsComparison, n: nat): (r: IteratorsComparison)
    ensures r.secondValues == Some(n)
    ensures r.levels == c.levels && r.firstValues == c.firstValues
  {
    c.(secondValues := Some(n))
  }
}
