# costinmrr/parser: a Dafny model of its path-mapping parsers

The library turns a JSON, CSV or XML document into named columns. A
*mapping* names each output column and gives it a path into the document.

- **JSON.** Paths look like `$.prices[*].currencies[*]`. Each path is
  resolved into a nested structure, and that structure has a nesting
  *shape* (its "iterators").
  - The column with the deepest compatible shape becomes the *template*.
  - Every column is laid out along the template, so all output columns have
    the same length.
  - Shapes that disagree raise `Incorrect JSON. Number of elements in … do
    not match.`
  - The individual-values mode returns each column's flattened values instead.
- **CSV.** Mapping references are `$[name]` or `$[n]`. If the first row names
  every mapped column, columns are read by header; otherwise they are read by
  position.
- **XML.** The element tree is folded into nested objects and then handed to
  the JSON parser:
  - attributes become `@name` keys;
  - non-blank text becomes `&text`;
  - a repeated child name becomes a list.

## Modules

| Module | File | What it models |
|---|---|---|
| `Text` | `text.dfy` | PHP's `trim`, `ctype_digit`, the `(int)` cast, integer-to-string conversion, `str_replace`, `str_contains` |
| `Markers` | `markers.dfy` | The `[]` / `[*]` wildcard markers and the two `preg_replace` rewrites `Column::compare` applies to paths (`Reconstruct`) |
| `Values` | `values.dfy` | The decoded document, PHP's `isset` lookup and `Arr::isAssoc` |
| `Structures` | `structures.dfy` | The per-column structure (`Leaf` value objects and lists) |
| `Resolver` | `resolver.dfy` | `createStructure` |
| `Shapes` | `shapes.dfy` | `setColumnIterators` |
| `ComparisonRecord` | `iterators_comparison.dfy` | `IteratorsComparison` |
| `Comparator` | `comparator.dfy` | `Column::compareIterators` |
| `Columns` | `columns.dfy` | `Column::compare` and its error message |
| `Template` | `template.dfy` | `getDeepestColStruct` |
| `Broadcast` | `broadcast.dfy` | `createColumnParsedDataset` |
| `Individual` | `individual.dfy` | `createColumnParsedIndividualValues` and `extractValues` |
| `JsonParser` | `json_parser.dfy` | `Json\Parser::parse` in both return modes |
| `CsvParser` | `csv_parser.dfy` | The CSV constructor (`trimMappingReferences`, `setHasHeaderRow`, `setColumnIndexes`) and `parse` |
| `XmlParser` | `xml_parser.dfy` | `xmlToObject` and `Xml\Parser::parse` |

`column_examples.dfy`, `json_examples.dfy`, `csv_examples.dfy` and
`xml_examples.dfy` restate the repository's unit-test data sets as lemmas
about the model. `json_document.dfy` (module `JsonDocument`) holds the JSON
test's document and resolves each of its mapped paths against it.

### Where the code and its stated design part ways (the model follows the code)

- **`compareIterators` is not a symmetric agreement check.**
  - A `true` returned by an element's comparison ends the loop over the
    remaining elements.
  - As a result, the same two shapes can compare as `true` one way round and
    as a mismatch the other way round (`Comparator.CompareOrderDependent`).
  - The template scan therefore depends on mapping order.
- **`setColumnIterators` decides "list of values" from the first element
  alone.**
  - `[1, [2, 3]]` counts as a list of two values (`Shapes.FirstElementDecides`).
  - Structures built by `createStructure` never mix leaves and lists
    (`Resolver.ResolveWellFormed`), so the quirk cannot fire on resolved
    columns.
- **A path segment `0` is false to PHP's `?:`.**
  - A `0` before the first dot makes the whole path the key
    (src/Json/Parser.php:64), so `a.0.x` over a list does not select its
    element 0: the list is asked for the key `0.x`, and the leaf is null
    (`Resolver.ZeroSegmentNotAPosition`).
  - A tail `0` ends the path (src/Json/Parser.php:67), so `a[*].0` lists the
    elements themselves (`Resolver.ZeroTailAfterWildcard`).
- **The two regular expressions follow PCRE's line-feed rules.** Neither
  pattern has the `s` or `D` modifier, so `.` stops at a line feed and `$`
  also matches just before a final one.
  - `^(.*)\[(.*)\]$` (src/Json/Parser.php:101) fails on a key with a line feed
    before its end and ignores a final line feed (`Text.LineEnd`,
    `Resolver.BracketSplit`).
  - `(\[[\*]{0,1}\])(.*$)` (src/Json/Column.php:86) skips a marker whose
    rest holds a line feed before its end, and keeps a final line feed
    (`Markers.TruncateAfterMarker`).
- **The `array_key_exists` failure branch of `compareIterators` is dead.**
  - The branch sits at src/Json/Column.php lines 159-163.
  - Lists compared there have equal lengths and keys `0..n-1`, so the key
    always exists. The model has no such branch.
- **The CSV column-not-found exception cannot be raised after the header
  check.**
  - Once detection passes, every reference has an index
    (`CsvParser.SetupFailsIff`).

## Model

| member | source | states |
|---|---|---|
| Text.Trim | src/Csv/Parser.php:78 | The trimmed string is an infix of the input: everything cut from either end is whitespace, and its ends are not whitespace. |
| Text.TrimIdempotent | src/Json/Parser.php:88 | Trimming a trimmed string changes nothing. |
| Text.NatToString | src/Json/Column.php:90 | The decimal text of a level index is canonical, with no leading zero. |
| Text.DecimalOfNatToString | src/Csv/Parser.php:179 | Reading a written number back with `(int)` gives the number. |
| Text.NatToStringOfDecimal | src/Csv/Parser.php:179 | A canonical numeral read by `(int)` and written again is unchanged. |
| Text.RemoveAbsent | src/Json/Parser.php:71 | `str_replace` leaves a string without the pattern unchanged. |
| Markers.FirstMarker | src/Json/Column.php:90 | The leftmost `[]`/`[*]` the replacement regex matches: none exactly when the path has no marker, otherwise no marker before it. |
| Markers.ContainsIffMarker | src/Json/Parser.php:69 | The `str_contains` test for `[]` or `[*]` agrees with the regex's notion of a marker. |
| Markers.SplitAtMarker | src/Json/Column.php:86-91 | For a path `a + marker + b` with a marker-free `a`: the first marker sits right after `a`; replacing puts `[k]` in its place; truncating keeps `a + marker`, followed by `b`'s final line feed when `.*$` can consume `b` and by the truncation of `b` otherwise, so exactly `a + marker` when `b` has no line feed. |
| Markers.TruncateBeforeLineFeed | src/Json/Column.php:86-87 | A line feed before the end of a marker-free tail stops the only match, so the path is left unchanged. |
| Markers.TruncateKeepsFinalLineFeed | src/Json/Column.php:86-87 | A final line feed after an otherwise line-feed-free tail is not part of the match and stays: `a + marker + b + "\n"` becomes `a + marker + "\n"`. |
| Markers.ReconstructStep | src/Json/Column.php:82-92 | Each index level replaces the leftmost marker of what is left of the original path, never a marker inside an already written `[k]`. |
| Markers.ReconstructConcat | src/Json/Column.php:82-92 | Reconstruction never rewrites an already-rewritten prefix. |
| Markers.ReconstructEndsAtOffendingAxis | src/Json/Column.php:82-92 | For a path without line feeds and with more markers than index levels, the reconstructed path ends right after its one remaining marker. |
| Values.Lookup | src/Json/Parser.php:72-73 | `isset`-guarded access: a present key gives its value; only arrays yield a non-null result. |
| Values.LookupPosition | src/Json/Parser.php:108-109 | A list element is found under the decimal spelling of its position. |
| Values.LookupNonCanonical | src/Json/Parser.php:108-109 | A non-canonical index such as `01` finds nothing in a list. |
| Values.Elements | src/Json/Parser.php:79-83 | A non-empty mapping is wrapped into a one-element list, a list is iterated as is, and anything else gives no elements. |
| Values.TrimValueTrimmed | src/Json/Parser.php:88 | Leaf strings are stored without surrounding whitespace. |
| Structures.LeafValues | src/Json/Parser.php:126-128 | The leaves of a list of value objects are their values in order. |
| Resolver.SplitPathParts | src/Json/Parser.php:64-68 | The key is the whole path or a text before its first dot that PHP does not take as false; the tail, when kept, ends the path, is neither `""` nor `"0"` and does not start with a dot; a dotless path is its own key with no tail. |
| Resolver.BracketSplit | src/Json/Parser.php:101-105 | The `^(.*)\[(.*)\]$` match succeeds exactly when no line feed comes before a possible final one and the key, without that final line feed, ends in `]` with a `[` before it; that text is then `base + "[" + index + "]"`, with no `[` in the index and no line feed in either part. |
| Resolver.BracketSplitRoundTrip | src/Json/Parser.php:101-105 | A key written as `base[index]`, with or without one final line feed, splits back into the same base and index, for line-feed-free parts and an index without `[`. |
| Resolver.LineFeedBeforeBrackets | src/Json/Parser.php:101-105 | `.` does not cross a line feed, so `a\nb[0]` does not match and is used as a plain key. |
| Resolver.FinalLineFeedAfterBrackets | src/Json/Parser.php:101-105 | `$` also matches before a final line feed, so `a[0]\n` splits into base `a` and index `0`. |
| Resolver.SplitPathMarkers | src/Json/Parser.php:64-69 | A path has a marker iff its first key or its tail does. |
| Resolver.ZeroKeyIsWholePath | src/Json/Parser.php:64-67 | A text `0` before the first dot is false to PHP, so the whole path `0.rest` becomes the key, and `rest` is still the tail. |
| Resolver.ZeroSegmentNotAPosition | src/Json/Parser.php:64-67 | Hence in `key.0.last` over a list the `0` never picks element 0: the list is asked for the key `0.last`, and `last` is resolved from nothing. |
| Resolver.ZeroTailEndsPath | src/Json/Parser.php:65-67 | A tail `0` is false to PHP, so `key.0` ends at `key`. |
| Resolver.ZeroTailAfterWildcard | src/Json/Parser.php:67-90 | Hence `name[*].0` lists the trimmed elements under `name` and does not look inside them. |
| Resolver.ResolveField | src/Json/Parser.php:112-122 | `field.rest` resolves `rest` inside the value of `field`. |
| Resolver.ResolveFieldLast | src/Json/Parser.php:112-128 | A last plain segment gives the trimmed value of the field, `null` when absent. |
| Resolver.ResolveEach | src/Json/Parser.php:69-85 | `name[*].rest` is the list of `rest` resolved inside each element under `name`, in order, one per element. |
| Resolver.ResolveEachLast | src/Json/Parser.php:69-90 | A last `name[*]` is the list of the trimmed elements under `name`, in order. |
| Resolver.StripRootPrefix | src/Json/Parser.php:38 | `trim('$.' + p, '$.')` gives `p` back when `p` neither starts nor ends with `$` or `.`. |
| Resolver.ResolveLeafIffNoMarker | src/Json/Parser.php:62-129 | `createStructure` returns a value object iff the path holds no `[]`/`[*]`. |
| Resolver.ResolveAbsent | src/Json/Parser.php:93-97 | On a missing node, a path with a wildcard gives an empty list and one without gives a null leaf. |
| Resolver.ResolveWellFormed | src/Json/Parser.php:62-129 | Every list holds only leaves or only lists, and every string leaf is trimmed. |
| Resolver.WildcardOverMapping | src/Json/Parser.php:79-81 | A wildcard over a bare mapping treats it as a one-element list, which compensates for the XML single-child case. |
| Resolver.WildcardOverMissing | src/Json/Parser.php:69-97 | A wildcard over a missing key iterates nothing. |
| Shapes.ShapeOf | src/Json/Parser.php:134-153 | A leaf has no axis; a list's shape has its length as width; the count form arises exactly for a non-empty list whose first element is a leaf. |
| Shapes.UniformShape | src/Json/Parser.php:134-153 | A uniform structure's shape has an axis at every level, and spans as many rows as the structure has leaves. |
| Shapes.FirstElementDecides | src/Json/Parser.php:143-144 | Only the first element decides whether a list counts as a list of values. |
| ComparisonRecord.New | src/Json/IteratorsComparison.php:14 | A new record has levels `[null]` and unset counts. |
| ComparisonRecord.SetLevels | src/Json/IteratorsComparison.php:19-22 | Sets the levels and leaves both counts alone. |
| ComparisonRecord.SetFirstValues | src/Json/IteratorsComparison.php:24-27 | Sets the first count and leaves the rest alone. |
| ComparisonRecord.SetSecondValues | src/Json/IteratorsComparison.php:29-32 | Sets the second count and leaves the rest alone. |
| Comparator.NullCases | src/Json/Column.php:107-178 | A shape with an axis beats `null`; `null` never beats anything. |
| Comparator.CompareSelf | src/Json/Column.php:102-179 | A shape compared with itself is never a mismatch and never dominates. |
| Comparator.AgreeNoMismatch | src/Json/Column.php:115-176 | Shapes whose counts agree at every depth never produce a mismatch. |
| Comparator.MismatchPinpoints | src/Json/Column.php:142-172 | A reported mismatch names a walk through both shapes: the levels are its element indexes followed by `null`, and the two counts are the differing widths found there. |
| Comparator.MismatchFromCompare | src/Json/Column.php:74-179 | The top-level form of the previous property, starting from a fresh record. |
| Comparator.CompareOrderDependent | src/Json/Column.php:166-168 | The early `true` makes the result depend on argument order: the same pair is `true` one way and a mismatch the other. |
| Columns.Compare | src/Json/Column.php:72-96 | A verdict is returned as is; a mismatch becomes a failure. |
| Columns.WalkWithinDepth | src/Json/Column.php:142-172 | A walk that ends at an axis is shorter than the shape is deep. |
| Columns.ErrorNamesOffendingAxis | src/Json/Column.php:79-95 | When each path has no line feed and a marker per shape level, the error names two different counts and both paths end at the marker of the offending axis. |
| ColumnExamples.DataSet1 | tests/Unit/Json/ColumnTest.php:40-47 | Counts 2 and 3 give the message naming both paths as written, with both counts. |
| ColumnExamples.DataSet2 | tests/Unit/Json/ColumnTest.php:49-56 | A count against a list of three: the top-level counts are named, and the second path is cut after its first marker. |
| ColumnExamples.DataSet3 | tests/Unit/Json/ColumnTest.php:58-65 | A list of two against a count: the first path is cut after its first marker. |
| ColumnExamples.DataSet4 | tests/Unit/Json/ColumnTest.php:67-74 | Shapes of different depth diverge inside element 0: both paths name `[0]` and the inner counts. |
| ColumnExamples.DataSet5 | tests/Unit/Json/ColumnTest.php:76-83 | Equal first elements and a differing second one: both paths name `[1]`. |
| ColumnExamples.DataSet6 | tests/Unit/Json/ColumnTest.php:85-92 | An empty middle element compares equal; the difference in element 2, item 1 is named as `[2]` … `[1]` in both paths. |
| Template.DeepestFrom | src/Json/Parser.php:158-176 | The scan yields no template iff there are no columns; the template is one of the columns, either the first or one with an axis; a failure is the error of some column comparison. |
| Template.DeepestHasAxis | src/Json/Parser.php:161-172 | If any column has an axis, so does the template. |
| Template.DeepestWithoutAxes | src/Json/Parser.php:160-175 | When no column has an axis, the first column is the template. |
| Template.AgreeingColumnsSucceed | src/Json/Parser.php:158-176 | Columns whose shapes agree pairwise never make the scan fail. |
| Broadcast.Broadcast | src/Json/Parser.php:201-244 | A column laid out along a template has as many values as the template spans rows. |
| Broadcast.ReplayLeaf | src/Json/Parser.php:206-232 | A single-value column is repeated on every row of the template. |
| Broadcast.ReplayMissing | src/Json/Parser.php:220-240 | Where a column has no structure, the last value seen is repeated. |
| Broadcast.SelfBroadcast | src/Json/Parser.php:201-244 | A uniform column laid out along its own shape yields exactly its leaves, in order. |
| Broadcast.LeafList | src/Json/Parser.php:211-224 | A list of values laid out along its own count is the list of its values. |
| Broadcast.LeafListAlongAxes | src/Json/Parser.php:226-243 | A list of scalar values laid out along a deeper template gives each value once per row spanned by its own element, in element order. |
| Individual.Flatten | src/Json/Parser.php:271-296 | Flattening keeps a leaf, turns a list into a flat list of leaves, and keeps every leaf in order. |
| Individual.IndividualIsLeaves | src/Json/Parser.php:255-320 | In individual mode, a leaf column gives its value and a list column gives the list of all its leaves. |
| JsonParser.MakeColumn | src/Json/Parser.php:34-44 | A column carries its name and path; its shape is that of its structure; the structure is uniform and trimmed, and is a leaf iff the root-stripped path has no marker. |
| JsonParser.ConvertToDataset | src/Json/Parser.php:182-194 | One output column per mapped column, in order, each as long as the template spans rows. |
| JsonParser.ParseDataset | src/Json/Parser.php:23-50 | An unparsable document is the parse error; on success there is one equally long column per mapping entry; a failure is some column comparison's error. |
| JsonParser.ParseIndividual | src/Json/Parser.php:23-52 | Fails exactly on an unparsable document, and otherwise gives one entry per mapping entry, in order. |
| JsonParser.TemplateColumnComplete | src/Json/Parser.php:186-190 | The template column comes out as exactly its own leaves. |
| JsonParser.RowsAreTemplateLeaves | src/Json/Parser.php:49-194 | Every dataset column is as long as the template has leaves. |
| JsonParser.ScalarColumnRepeats | src/Json/Parser.php:206-232 | A path without a wildcard gives its one value on every row. |
| JsonParser.IndividualByPath | src/Json/Parser.php:255-265 | Individual mode gives the value of a path without a wildcard, and the flat list of leaves of one with a wildcard. |
| JsonDocument.NameResolves | tests/Unit/Json/ParserTest.php:41 | Over the test document, `$.product.name` resolves to the one leaf `chocolate`. |
| JsonDocument.PriceResolves | tests/Unit/Json/ParserTest.php:42 | `$.prices[*].price` resolves to one leaf per price object, `null` for the one without a price. |
| JsonDocument.CurrencyResolves | tests/Unit/Json/ParserTest.php:43 | `$.prices[*].currencies[*]` resolves to three lists of three, three and two currencies, in document order. |
| JsonDocument.DateResolves | tests/Unit/Json/ParserTest.php:44 | `$.info.dates[*].date` resolves to the three dates in order. |
| JsonDocument.SalesResolves | tests/Unit/Json/ParserTest.php:45 | `$.info.dates[*].sales[*]` resolves to three lists of three, three and two sales figures. |
| JsonExamples.TestColumns | tests/Unit/Json/ParserTest.php:40-47 | The test's mapping over the test's document gives exactly the five columns, structures and shapes included. |
| JsonExamples.TestTemplate | tests/Unit/Json/ParserTest.php:40-47 | Of the columns resolved from the document, the currency column is the template. |
| JsonExamples.TestName | tests/Unit/Json/ParserTest.php:50 | Dataset mode succeeds and repeats the name on all eight rows. |
| JsonExamples.TestPrice | tests/Unit/Json/ParserTest.php:51 | Dataset mode repeats each price along its currencies, the missing price as null. |
| JsonExamples.TestCurrency | tests/Unit/Json/ParserTest.php:52 | Dataset mode gives the currencies in document order. |
| JsonExamples.TestDate | tests/Unit/Json/ParserTest.php:53 | Dataset mode repeats each date along its currencies. |
| JsonExamples.TestSales | tests/Unit/Json/ParserTest.php:54 | Dataset mode gives the sales figures in document order. |
| JsonExamples.TestDataset | tests/Unit/Json/ParserTest.php:24-28 | `parse` in dataset mode on the test's mapping and document is exactly the expected dataset. |
| JsonExamples.TestIndividualName | tests/Unit/Json/ParserTest.php:58 | Individual mode gives the bare name. |
| JsonExamples.TestIndividualPrice | tests/Unit/Json/ParserTest.php:59 | Individual mode gives the three prices, one of them null. |
| JsonExamples.TestIndividualCurrency | tests/Unit/Json/ParserTest.php:60 | Individual mode flattens the currencies into one list. |
| JsonExamples.TestIndividualDate | tests/Unit/Json/ParserTest.php:61 | Individual mode gives the three dates. |
| JsonExamples.TestIndividualSales | tests/Unit/Json/ParserTest.php:62 | Individual mode flattens the sales figures into one list. |
| JsonExamples.TestIndividual | tests/Unit/Json/ParserTest.php:24-29 | `parse` in individual mode on the test's mapping and document is exactly the expected values. |
| CsvParser.ReferenceRoundTrip | src/Csv/Parser.php:74-89 | A reference written `$[name]` is read back as `name`. |
| CsvParser.BareReferenceKept | src/Csv/Parser.php:78-85 | A bare name with no surrounding whitespace, no `$[` prefix and no trailing `]` is kept. |
| CsvParser.TrimMapping | src/Csv/Parser.php:76-88 | Every reference is trimmed and names keep their order. |
| CsvParser.NamesMember | src/Csv/Parser.php:140-142 | A name is among a row's string cells iff the row holds it. |
| CsvParser.RemoveFirstCounts | src/Csv/Parser.php:141-146 | Striking out a cell removes exactly one occurrence of it from the multiset of references, or none when absent. |
| CsvParser.UnmatchedCounts | src/Csv/Parser.php:139-147 | What is left is the multiset of references minus the multiset of the row's cells. |
| CsvParser.HeaderIffCovered | src/Csv/Parser.php:125-148 | The first row is a header iff the mapping and the input are non-empty and the row's cells cover the references as a multiset. |
| CsvParser.Search | src/Csv/Parser.php:183 | Strict `array_search`: none iff absent, otherwise the first position holding the reference. |
| CsvParser.FirstMissing | src/Csv/Parser.php:191-195 | None iff every column has an index; otherwise a column without one. |
| CsvParser.Detect | src/Csv/Parser.php:125-196 | A successful configuration keeps the mapping, records header detection and gives one index per column. |
| CsvParser.IndexesComplete | src/Csv/Parser.php:176-195 | A detected header or all-numeric references give every column an index. |
| CsvParser.SetupFailsIff | src/Csv/Parser.php:125-196 | The constructor fails iff there are mapping and rows, no header and a non-numeric reference; the error is then the header error. |
| CsvParser.DetectReadsFirstRow | src/Csv/Parser.php:131-171 | The configuration depends on the first row only. |
| CsvParser.ReadColumns | src/Csv/Parser.php:53-57 | Each column holds, per data row, the cell at its index, or null past the end. |
| CsvParser.Parse | src/Csv/Parser.php:43-64 | One column per mapping entry, named in mapping order. |
| CsvParser.ParseRowCount | src/Csv/Parser.php:50-57 | Every column has one value per row, less the header row. |
| CsvParser.ParseByHeader | src/Csv/Parser.php:50-57 | With a header, each value is the cell under the first header cell equal to the reference. |
| CsvParser.ParseByPosition | src/Csv/Parser.php:53-57 | Without a header, the reference is numeric and each value is the cell at that position. |
| CsvExamples.HeaderEmptyMapping | tests/Unit/Csv/ParserTest.php:80-85 | An empty mapping detects no header. |
| CsvExamples.HeaderEmptyContent | tests/Unit/Csv/ParserTest.php:86-91 | Empty content detects no header and gives no index. |
| CsvExamples.HeaderHappyPath | tests/Unit/Csv/ParserTest.php:92-97 | A first row naming both columns is a header. |
| CsvExamples.HeaderWiderRow | tests/Unit/Csv/ParserTest.php:98-103 | A header may hold more columns than the mapping. |
| CsvExamples.HeaderMissingName | tests/Unit/Csv/ParserTest.php:104-110 | A header missing a name, with non-numeric references, is the header error. |
| CsvExamples.DetectFromStart | tests/Unit/Csv/ParserTest.php:135-140 | Header names at positions 0, 1, 2 give those indexes. |
| CsvExamples.DetectFromMiddle | tests/Unit/Csv/ParserTest.php:141-146 | Header names starting at position 1 give indexes 1, 2, 3. |
| CsvExamples.DetectByPosition | tests/Unit/Csv/ParserTest.php:147-152 | Numeric references without a header are taken as positions. |
| CsvExamples.DetectPastEnd | tests/Unit/Csv/ParserTest.php:153-158 | A position past the row's end is accepted. |
| CsvExamples.ParseWithoutHeader | tests/Unit/Csv/ParserTest.php:180-191 | Without a header every row is data. |
| CsvExamples.GridColumns | tests/Unit/Csv/ParserTest.php:186-190 | The values of that data set, column by column. |
| CsvExamples.ParseWithHeader | tests/Unit/Csv/ParserTest.php:192-204 | With a header the first row is skipped. |
| CsvExamples.FigureColumns | tests/Unit/Csv/ParserTest.php:199-203 | The values of that data set, column by column. |
| XmlParser.AttributeEntries | src/Xml/Parser.php:43-47 | Every attribute is stored under `@name` as its string, and nothing else is. |
| XmlParser.Document | src/Xml/Parser.php:27-28 | The root element is the single key of the top-level object. |
| XmlParser.ParseDataset | src/Xml/Parser.php:21-31 | Unreadable XML is the XML error; otherwise the result is the JSON parser's on the folded tree. |
| XmlParser.ParseIndividual | src/Xml/Parser.php:21-31 | The same, in individual mode. |
| XmlParser.InsertAt | src/Xml/Parser.php:58-69 | Storing a child changes only the entry of its name, by gathering one more object into it. |
| XmlParser.FoldAt | src/Xml/Parser.php:54-56 | After all children are visited, each name's entry is the old entry with that name's children gathered into it in document order. |
| XmlParser.GatherFresh | src/Xml/Parser.php:58-69 | A fresh name holds nothing, the only object, or the list of all the objects. |
| XmlParser.NodeAttribute | src/Xml/Parser.php:43-47 | An element's object holds each attribute under `@name`. |
| XmlParser.NodeText | src/Xml/Parser.php:50-52 | The `&text` key is present iff the trimmed text is non-empty, and then holds it. |
| XmlParser.NodeChildren | src/Xml/Parser.php:54-69 | A child name is absent, one object, or a list of k >= 2 objects in document order, according to how often it occurs. |
| XmlParser.NodeRepeated | src/Xml/Parser.php:62-68 | Two or more same-named children are stored as the list of all of them. |
| XmlParser.NodeKeys | src/Xml/Parser.php:38-70 | Every key of an element's object is an attribute key, `&text` or a child's name. |
| XmlExamples.CurrencyText | tests/Unit/Xml/ParserTest.php:61 | A currency element's text is stored under `&text`. |
| XmlExamples.ValueAttribute | tests/Unit/Xml/ParserTest.php:60 | The `value` attribute is stored as `@value`. |
| XmlExamples.NoText | tests/Unit/Xml/ParserTest.php:60-64 | Whitespace around child elements adds no `&text`. |
| XmlExamples.CurrencyList | tests/Unit/Xml/ParserTest.php:60-64 | Three currencies become a list of three, in order. |
| XmlExamples.SinglePrice | src/Xml/Parser.php:58-60 | A lone child stays a bare object. |
| XmlExamples.PriceList | tests/Unit/Xml/ParserTest.php:59-74 | Repeated prices become a list, in order. |

## Left out

- Parsing JSON text. The `JsonObject` library's `getJsonObjects('$')` and
  its `[0]->getValue()` unwrap (src/Json/Parser.php:25-31) are replaced by a
  decoded `Value`. `None` stands for `getJsonObjects('$')` returning null
  (src/Json/Parser.php:26-27), which raises the `Could not parse the json
  content.` error. Text the library cannot read at all makes the
  `JsonObject` constructor throw `InvalidJsonException` (src/Json/Parser.php:21,
  raised inside the library); that exception is not modelled.
- `simplexml_load_string` and the `json_encode` round trip
  (src/Xml/Parser.php:23-29). The element tree is abstract: a name, the
  attributes, the element's direct text and its children.
- `Node`: an attribute key or `&text` never collides with a child name,
  because XML element names cannot start with `@` or contain `&`. The lemmas
  about nodes assume this (`ChildrenNamed`, `ElementName`).
- Floating-point numbers and integer overflow: values are unbounded `int`s.
  `(int)` of a numeral longer than PHP's integer width is not modelled.
- `Lookup`: casting a scalar to an array on the way down (`(array)$item`) is
  not modelled; a scalar has no keys. The `TypeError` the source raises when
  it looks into a scalar with a non-null `isset` is not modelled either.
- `Values.IsAssoc`: decoded objects with numeric-looking keys are treated as
  mappings, not as lists.
- Duplicate column names: a PHP mapping is an associative array, so names are
  unique. The model's mappings are sequences and do not rule duplicates out.
- CSV tokenising. `fgetcsv`, the `php://temp` stream, the static handle shared
  between instances, and reading again after `fclose` are not modelled. Rows
  are given already split, with a blank line as one null cell.
- CsvParser.HasHeaderRow: a first row `[]` counts as a row that strikes out
  nothing, where PHP's `empty($headerRow)` (src/Csv/Parser.php:133-135) would
  return early. `fgetcsv` never yields `[]` (a blank line is one null cell),
  so split CSV text cannot produce this case.
- CSV references given as PHP integers (`is_int($path)`, src/Csv/Parser.php:153):
  references are strings.
- `ParserFactory`, `ParserInterface`, `ContentFormat`, the `validate()` stubs
  and the "Unhandled return type" exception: these are plumbing only.
- `testPainJson` (tests/Unit/Json/ParserTest.php:90): it reads a fixture file
  that is not part of this model.
- JsonDocument: the test document is written as the decoded `Value`; the
  JSON text (tests/Unit/Json/ParserTest.php:70-87) is not parsed.
- ColumnExamples: the expected messages are written as `MismatchMessage`
  applied to the paths and counts of the test, not as one string literal.
- Markers.ReconstructEndsAtOffendingAxis: stated only for paths without a
  line feed. With one, the truncation can keep the tail or a final line feed
  (`Markers.TruncateBeforeLineFeed`, `Markers.TruncateKeepsFinalLineFeed`),
  so the path need not end at the marker.
- Columns.ErrorNamesOffendingAxis: states only where the paths end, and only
  for paths without a line feed, for the reason given for
  `Markers.ReconstructEndsAtOffendingAxis`. It also assumes each path has at
  least as many markers as its shape is deep. That holds for the usual
  resolved columns but is not proved, and a `0` segment breaks it: `0.a[*]`
  takes `0.a[*]` whole as its first key (src/Json/Parser.php:64) and resolves
  `a[*]` again inside, so one marker can yield two levels. Paths with fewer
  markers, where PHP's regex leaves `[k]` text in place, are not
  characterised.
