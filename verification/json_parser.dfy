/** `parse` of src/Json/Parser.php: each mapped path resolved into a
    column, then either laid out as a dataset along the deepest column's
    shape, or flattened column by column into individual values. */
module JsonParser {
  import opened Wrappers
  import opened Markers
  import opened Values
  import opened Structures
  import opened Resolver
  import opened Shapes
  import opened Columns
  import opened Template
  import opened Broadcast
  import opened Individual

  /** Output column names with their paths, in mapping order. */
  type Mapping = seq<(string, string)>

  /** The column for one mapping entry: the path is resolved with its root
      markers `$` and `.` trimmed, and the column's shape is taken from the
      resolved structure. */
  function MakeColumn(name: string, path: string, doc: Value): (c: Column)
    ensures c.name == name && c.path == path
    ensures c.iterators == ShapeOf(c.structure)
    ensures Uniform(c.structure) && LeavesTrimmed(c.structure)
    ensures c.structure.Leaf? <==> !HasMarker(StripRoot(path))
  {
    var s := Resolve(StripRoot(path), doc);
    ResolveWellFormed(StripRoot(path), doc);
    ResolveLeafIffNoMarker(StripRoot(path), doc);
    Column(name, path, s, ShapeOf(s))
  }

  function MakeColumns(mapping: Mapping, doc: Value): (cols: seq<Column>)
    ensures |cols| == |mapping|
    ensures forall i :: 0 <= i < |cols| ==> cols[i] == MakeColumn(mapping[i].0, mapping[i].1, doc)
  {
    seq(|mapping|, i requires 0 <= i < |mapping| => MakeColumn(mapping[i].0, mapping[i].1, doc))
  }

  /** `$deepestColumn?->getIterators()`. */
  function TemplateShape(template: Option<Column>): Shape {
    if template.Some? then template.value.iterators else NoAxis
  }

  /** `convertToDataset`: every column laid out along the template, with
      nothing carried in. */
  function ConvertToDataset(cols: seq<Column>, template: Option<Column>): (r: seq<(string, seq<Value>)>)
    ensures |r| == |cols|
    ensures forall i :: 0 <= i < |r| ==> r[i].0 == cols[i].name && |r[i].1| == Rows(TemplateShape(template))
  {
    seq(|cols|, i requires 0 <= i < |cols| =>
      (cols[i].name, Broadcast.Broadcast(Some(cols[i].structure), TemplateShape(template), Null)))
  }

  const ParseError := "Could not parse the json content."

  /** `parse(ReturnType::DATASET)` on a document the JSON library produced
      (`None` when it produced nothing). */
  function ParseDataset(mapping: Mapping, doc: Option<Value>): (r: Result<seq<(string, seq<Value>)>>)
    ensures doc.None? ==> r == Failure(ParseError)
    ensures r.Success? ==> |r.value| == |mapping|
    ensures r.Success? ==> forall i :: 0 <= i < |mapping| ==> r.value[i].0 == mapping[i].0
    ensures r.Success? ==> forall i, j :: 0 <= i < |mapping| && 0 <= j < |mapping| ==> |r.value[i].1| == |r.value[j].1|
    ensures doc.Some? && r.Failure? ==>
      exists i, j :: 0 <= i < |mapping| && 0 <= j < |mapping| &&
        Compare(MakeColumns(mapping, doc.value)[i], MakeColumns(mapping, doc.value)[j]) == Failure(r.error)
  {
    if doc.None? then Failure(ParseError)
    else
      var cols := MakeColumns(mapping, doc.value);
      var template :- Deepest(cols);
      Success(ConvertToDataset(cols, template))
  }

  /** `parse(ReturnType::INDIVIDUAL_VALUES)`. */
  function ParseIndividual(mapping: Mapping, doc: Option<Value>): (r: Result<seq<(string, Value)>>)
    ensures doc.None? <==> r == Failure(ParseError)
    ensures r.Success? ==> |r.value| == |mapping|
    ensures r.Success? ==> forall i :: 0 <= i < |mapping| ==> r.value[i].0 == mapping[i].0
  {
    if doc.None? then Failure(ParseError)
    else
      var cols := MakeColumns(mapping, doc.value);
      Success(seq(|cols|, i requires 0 <= i < |cols| => (cols[i].name, IndividualValues(cols[i].structure))))
  }

  // ---------------------------------------------------------------------
  // Properties

  /** The template column comes out of the dataset whole: its values are
      exactly its leaves, in document order, and the dataset has as many
      rows as it has leaves. */
  lemma TemplateColumnComplete(mapping: Mapping, doc: Value, i: nat)
    requires i < |mapping|
    requires ParseDataset(mapping, Some(doc)).Success?
    requires Deepest(MakeColumns(mapping, doc)).value == Some(MakeColumns(mapping, doc)[i])
    ensures ParseDataset(mapping, Some(doc)).value[i].1 == Leaves(MakeColumns(mapping, doc)[i].structure)
  {
    var c := MakeColumns(mapping, doc)[i];
    SelfBroadcast(c.structure, Null);
  }

  /** Every dataset column is as long as the template column has leaves
      (one row for a mapping without list columns). */
  lemma RowsAreTemplateLeaves(mapping: Mapping, doc: Value)
    requires ParseDataset(mapping, Some(doc)).Success?
    requires mapping != []
    ensures var template := Deepest(MakeColumns(mapping, doc)).value.value;
      forall i :: 0 <= i < |mapping| ==> |ParseDataset(mapping, Some(doc)).value[i].1| == |Leaves(template.structure)|
  {
    var cols := MakeColumns(mapping, doc);
    var template := Deepest(cols).value.value;
    var j :| 0 <= j < |cols| && cols[j] == template;
    UniformShape(template.structure);
  }

  /** A path without a wildcard gives one value, repeated on every row of
      the dataset. */
  lemma ScalarColumnRepeats(mapping: Mapping, doc: Value, i: nat)
    requires i < |mapping|
    requires ParseDataset(mapping, Some(doc)).Success?
    requires !HasMarker(StripRoot(mapping[i].1))
    ensures var r := ParseDataset(mapping, Some(doc)).value[i].1;
      var v := Resolve(StripRoot(mapping[i].1), doc).value;
      r == Repeat(v, |r|)
  {
    var cols := MakeColumns(mapping, doc);
    var template := Deepest(cols).value;
    var t := TemplateShape(template);
    if template.Some? {
      var j :| 0 <= j < |cols| && cols[j] == template.value;
      UniformShape(template.value.structure);
    }
    ReplayLeaf(cols[i].structure.value, t, Null);
  }

  /** Individual mode gives the single value of a path without wildcard,
      and the flat list of leaves of a path with one. */
  lemma IndividualByPath(mapping: Mapping, doc: Value, i: nat)
    requires i < |mapping|
    ensures var s := Resolve(StripRoot(mapping[i].1), doc);
      ParseIndividual(mapping, Some(doc)).value[i].1
        == if HasMarker(StripRoot(mapping[i].1)) then Seq(Leaves(s)) else s.value
  {
    var cols := MakeColumns(mapping, doc);
    IndividualIsLeaves(cols[i].structure);
  }
}
