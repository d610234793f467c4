/** The "individual values" mode of src/Json/Parser.php: each column on its
    own, its Structure flattened to one list (`createColumnParsedIndividualValues`)
    and the leaf objects unwrapped (`extractValues`). */
module Individual {
  import opened Values
  import opened Structures

  /** `createColumnParsedIndividualValues`: a leaf is kept, a list becomes
      one flat list of leaves, nested lists merged in. */
  function Flatten(s: Structure): (r: Structure)
    ensures s.Leaf? ==> r == s
    ensures s.Nodes? ==> r.Nodes? && AllLeaves(r.items)
    ensures Leaves(r) == Leaves(s)
    decreases s
  {
    match s
    case Leaf(_) => s
    case Nodes(items) => Nodes(FlattenList(items))
  }

  function FlattenList(items: seq<Structure>): (r: seq<Structure>)
    ensures AllLeaves(r)
    ensures LeavesOf(r) == LeavesOf(items)
    decreases items
  {
    if items == [] then []
    else
      var head := match Flatten(items[0])
        case Leaf(v) => [Leaf(v)]
        case Nodes(xs) => xs;
      assert LeavesOf(head) == Leaves(items[0]) by {
        if items[0].Leaf? {
          assert head[1..] == [];
        }
      }
      var rest := FlattenList(items[1..]);
      LeavesOfAppend(head, rest);
      head + rest
  }

  lemma {:induction false} LeavesOfAppend(a: seq<Structure>, b: seq<Structure>)
    ensures LeavesOf(a + b) == LeavesOf(a) + LeavesOf(b)
    ensures AllLeaves(a) && AllLeaves(b) ==> AllLeaves(a + b)
  {
    if a == [] {
      assert a + b == b;
    } else {
      assert (a + b)[0] == a[0];
      assert (a + b)[1..] == a[1..] + b;
      LeavesOfAppend(a[1..], b);
    }
  }

  /** `extractValues`: leaf objects unwrapped, lists element by element. */
  function Extract(s: Structure): (r: Value)
    ensures s.Leaf? ==> r == s.value
    ensures s.Nodes? ==> r.Seq? && |r.items| == |s.items|
    decreases s
  {
    match s
    case Leaf(v) => v
    case Nodes(items) => Seq(seq(|items|, i requires 0 <= i < |items| => Extract(items[i])))
  }

  /** The value one column contributes in individual mode. */
  function IndividualValues(s: Structure): Value {
    Extract(Flatten(s))
  }

  /** Individual mode gives a leaf column's value unchanged and any list
      column as the flat list of its leaf values, in order. */
  lemma IndividualIsLeaves(s: Structure)
    ensures IndividualValues(s) == if s.Leaf? then s.value else Seq(Leaves(s))
  {
    if s.Nodes? {
      var xs := Flatten(s).items;
      LeafValues(xs);
    }
  }
}
