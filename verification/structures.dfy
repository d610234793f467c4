/** The per-column Structure built by `createStructure` in
    src/Json/Parser.php: a leaf object `{value}` or a list of Structures. */
module Structures {
  import opened Values

  datatype Structure = Leaf(value: Value) | Nodes(items: seq<Structure>)

  /** Every list holds only leaves or only lists. A structure that is not
      uniform can fool the shape extractor, which inspects the first element
      only. */
  predicate Uniform(s: Structure) {
    match s
    case Leaf(_) => true
    case Nodes(items) =>
      && (forall i :: 0 <= i < |items| ==> Uniform(items[i]))
      && (forall i, j :: 0 <= i < |items| && 0 <= j < |items| ==> items[i].Leaf? == items[j].Leaf?)
  }

  /** Every string leaf is free of surrounding whitespace. */
  predicate LeavesTrimmed(s: Structure) {
    match s
    case Leaf(v) => IsTrimmed(v)
    case Nodes(items) => forall i :: 0 <= i < |items| ==> LeavesTrimmed(items[i])
  }

  /** The leaf values of a structure, left to right: the reference the
      reductions of the parser are measured against. */
  function Leaves(s: Structure): seq<Value> {
    match s
    case Leaf(v) => [v]
    case Nodes(items) => LeavesOf(items)
  }

  function LeavesOf(items: seq<Structure>): seq<Value> {
    if items == [] then [] else Leaves(items[0]) + LeavesOf(items[1..])
  }

  /** Every element is a leaf. */
  predicate AllLeaves(xs: seq<Structure>) {
    forall i :: 0 <= i < |xs| ==> xs[i].Leaf?
  }

  /** The leaves of a list of leaves are their values, element by element. */
  lemma {:induction false} LeafValues(xs: seq<Structure>)
    requires AllLeaves(xs)
    ensures LeavesOf(xs) == seq(|xs|, i requires 0 <= i < |xs| => xs[i].value)
  {
    if xs != [] {
      LeafValues(xs[1..]);
    }
  }
}
