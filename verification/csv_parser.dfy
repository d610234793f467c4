/** src/Csv/Parser.php: mapped columns read out of CSV rows, either by
    header name (`$[name]`) when the first row names every mapped column,
    or by position (`$[2]`) otherwise. The rows are taken as `fgetcsv`
    returns them: cells are strings, and a blank line is one `null` cell. */
module CsvParser {
  import opened Wrappers
  import opened Text

  /** One CSV line; `None` is a `null` cell. */
  type Row = seq<Option<string>>

  /** Output column names with their references, in mapping order. */
  type Mapping = seq<(string, string)>

  // ---------------------------------------------------------------------
  // References

  /** `trimMappingReferences` on one reference: surrounding whitespace
      removed, then a leading `$[` and a trailing `]`, each when present. */
  function TrimReference(path: string): (r: string)
    ensures |r| <= |path|
  {
    var p := Trim(path, Whitespace);
    var p1 := if |p| >= 2 && p[..2] == "$[" then p[2..] else p;
    if |p1| >= 1 && p1[|p1| - 1] == ']' then p1[..|p1| - 1] else p1
  }

  /** A reference written `$[name]` is read back as `name`, whatever the name. */
  lemma ReferenceRoundTrip(name: string)
    ensures TrimReference("$[" + name + "]") == name
  {
    var s := "$[" + name + "]";
    assert s[0] == '$' && s[|s| - 1] == ']';
    TrimKeeps(s, Whitespace);
    assert s[..2] == "$[";
    var p1 := s[2..];
    assert p1 == name + "]";
    assert p1[..|p1| - 1] == name;
  }

  /** A bare name without surrounding whitespace and not ending in `]` is
      kept as it is. */
  lemma BareReferenceKept(name: string)
    requires name != [] && name[0] !in Whitespace && name[|name| - 1] !in Whitespace
    requires name[|name| - 1] != ']'
    requires |name| < 2 || name[..2] != "$["
    ensures TrimReference(name) == name
  {
    TrimKeeps(name, Whitespace);
  }

  function TrimMapping(m: Mapping): (r: Mapping)
    ensures |r| == |m|
    ensures forall j :: 0 <= j < |m| ==> r[j] == (m[j].0, TrimReference(m[j].1))
  {
    seq(|m|, j requires 0 <= j < |m| => (m[j].0, TrimReference(m[j].1)))
  }

  // ---------------------------------------------------------------------
  // Header detection

  function Paths(m: Mapping): (r: seq<string>)
    ensures |r| == |m| && forall j :: 0 <= j < |m| ==> r[j] == m[j].1
  {
    seq(|m|, j requires 0 <= j < |m| => m[j].1)
  }

  /** The string cells of a row, as a multiset. */
  function Names(h: Row): multiset<string> {
    if h == [] then multiset{}
    else (if h[0].Some? then multiset{h[0].value} else multiset{}) + Names(h[1..])
  }

  lemma {:induction false} NamesMember(h: Row, p: string)
    ensures p in Names(h) <==> Some(p) in h
  {
    if h != [] {
      NamesMember(h[1..], p);
      assert h == [h[0]] + h[1..];
    }
  }

  function CellNames(v: Option<string>): multiset<string> {
    if v.Some? then multiset{v.value} else multiset{}
  }

  /** The mapping with its first entry whose reference equals the cell
      removed (`unset($mapping[$col]); break;`). */
  function RemoveFirst(m: Mapping, v: Option<string>): Mapping {
    if m == [] then []
    else if Some(m[0].1) == v then m[1..]
    else [m[0]] + RemoveFirst(m[1..], v)
  }

  lemma PathsCons(e: (string, string), rest: Mapping)
    ensures Paths([e] + rest) == [e.1] + Paths(rest)
  {
    var a, b := Paths([e] + rest), [e.1] + Paths(rest);
    assert |a| == |b|;
    forall j | 0 <= j < |a| ensures a[j] == b[j] {
      if j > 0 { assert ([e] + rest)[j] == rest[j - 1]; }
    }
  }

  lemma AddThenRemove(x: string, t: multiset<string>)
    ensures (multiset{x} + t) - multiset{x} == t
  {
  }

  lemma RemoveOther(x: string, t: multiset<string>, c: multiset<string>)
    requires x !in c
    ensures multiset{x} + (t - c) == (multiset{x} + t) - c
  {
  }

  /** Striking out a cell takes exactly one occurrence of it out of the
      references, or nothing when it is not among them. */
  lemma {:induction false} RemoveFirstCounts(m: Mapping, v: Option<string>)
    ensures multiset(Paths(RemoveFirst(m, v))) == multiset(Paths(m)) - CellNames(v)
  {
    if m != [] {
      var head, tail := multiset{m[0].1}, multiset(Paths(m[1..]));
      assert Paths(m) == [m[0].1] + Paths(m[1..]);
      assert multiset(Paths(m)) == head + tail;
      if Some(m[0].1) == v {
        assert RemoveFirst(m, v) == m[1..];
        assert CellNames(v) == head;
        AddThenRemove(m[0].1, tail);
      } else {
        var rest := RemoveFirst(m[1..], v);
        assert RemoveFirst(m, v) == [m[0]] + rest;
        RemoveFirstCounts(m[1..], v);
        PathsCons(m[0], rest);
        assert multiset(Paths([m[0]] + rest)) == head + multiset(Paths(rest));
        assert m[0].1 !in CellNames(v);
        RemoveOther(m[0].1, tail, CellNames(v));
      }
    }
  }

  /** The mapping entries left once every cell of the header candidate has
      struck out one matching entry. */
  function Unmatched(m: Mapping, h: Row): Mapping
    decreases |h|
  {
    if h == [] then m else Unmatched(RemoveFirst(m, h[0]), h[1..])
  }

  /** What is left is the references less the cells of the row, counted
      as multisets. */
  lemma {:induction false} UnmatchedCounts(m: Mapping, h: Row)
    ensures multiset(Paths(Unmatched(m, h))) == multiset(Paths(m)) - Names(h)
    decreases |h|
  {
    if h != [] {
      RemoveFirstCounts(m, h[0]);
      UnmatchedCounts(RemoveFirst(m, h[0]), h[1..]);
      assert Names(h) == CellNames(h[0]) + Names(h[1..]);
    }
  }

  /** `setHasHeaderRow`: the mapping is not empty, there is a first row,
      and it strikes out every entry of the mapping. */
  predicate HasHeaderRow(m: Mapping, rows: seq<Row>) {
    |m| > 0 && |rows| > 0 && Unmatched(m, rows[0]) == []
  }

  /** The first row is a header exactly when it holds every reference of
      the mapping, each as often as the mapping repeats it. */
  lemma HeaderIffCovered(m: Mapping, rows: seq<Row>)
    ensures HasHeaderRow(m, rows) <==> |m| > 0 && |rows| > 0 && multiset(Paths(m)) <= Names(rows[0])
  {
    if |m| > 0 && |rows| > 0 {
      var r := Unmatched(m, rows[0]);
      UnmatchedCounts(m, rows[0]);
      var a, b := multiset(Paths(m)), Names(rows[0]);
      if r == [] {
        assert Paths(r) == [];
        forall x | x in a
          ensures a[x] <= b[x]
        {
          assert (a - b)[x] == 0;
        }
      }
      if a <= b {
        assert a - b == multiset{};
        assert |multiset(Paths(r))| == |Paths(r)| == |r|;
      }
    }
  }

  // ---------------------------------------------------------------------
  // Column indexes

  /** Every reference is a non-empty run of decimal digits (`ctype_digit`). */
  predicate AllDigitPaths(m: Mapping) {
    forall j :: 0 <= j < |m| ==> AllDigits(m[j].1)
  }

  /** `array_search($path, $headerRow, true)`: the first cell equal to the
      reference. */
  function Search(h: Row, p: string): (r: Option<nat>)
    ensures r.None? <==> Some(p) !in h
    ensures r.Some? ==> r.value < |h| && h[r.value] == Some(p) && Some(p) !in h[..r.value]
  {
    if h == [] then None
    else if h[0] == Some(p) then Some(0)
    else match Search(h[1..], p)
      case None => None
      case Some(i) =>
        assert h[..i + 1] == [h[0]] + h[1..][..i];
        Some(i + 1)
  }

  /** `setColumnIndexes`: nothing for an empty mapping or empty input; the
      reference read as a number without a header; its first position in
      the header otherwise. */
  function ColumnIndexes(m: Mapping, rows: seq<Row>, header: bool): (r: seq<Option<nat>>)
    requires |m| > 0 && |rows| > 0 && !header ==> AllDigitPaths(m)
    ensures |r| == |m|
  {
    seq(|m|, j requires 0 <= j < |m| =>
      if |rows| == 0 then None
      else if !header then Some(DecimalValue(m[j].1))
      else Search(rows[0], m[j].1))
  }

  /** The first column left without an index. */
  function FirstMissing(idx: seq<Option<nat>>): (r: Option<nat>)
    ensures r.None? <==> forall j :: 0 <= j < |idx| ==> idx[j].Some?
    ensures r.Some? ==> r.value < |idx| && idx[r.value].None?
  {
    if idx == [] then None
    else if idx[0].None? then Some(0)
    else match FirstMissing(idx[1..])
      case None => None
      case Some(j) => Some(j + 1)
  }

  /** What the constructor settles before any row is read out: the trimmed
      mapping, whether the first row is a header, and the column indexes. */
  datatype Config = Config(mapping: Mapping, hasHeader: bool, indexes: seq<Option<nat>>)

  const HeaderError := "Header row does not contain all columns in mapping"

  function MissingColumnError(column: string): string {
    "Column '" + column + "' is not found in the CSV file."
  }

  /** The constructor: references trimmed, then the header and indexes
      settled. */
  function Setup(mapping: Mapping, rows: seq<Row>): (r: Result<Config>)
    ensures r.Success? ==> r.value.mapping == TrimMapping(mapping)
    ensures r.Success? ==> r.value.hasHeader == HasHeaderRow(TrimMapping(mapping), rows)
    ensures r.Success? ==> |r.value.indexes| == |mapping|
  {
    Detect(TrimMapping(mapping), rows)
  }

  /** Header detection, failing when there is no header and a reference is
      not a number, then the indexes, failing for a column without one. */
  function Detect(m: Mapping, rows: seq<Row>): (r: Result<Config>)
    ensures r.Success? ==> r.value.mapping == m && |r.value.indexes| == |m|
    ensures r.Success? ==> r.value.hasHeader == HasHeaderRow(m, rows)
  {
    var header := HasHeaderRow(m, rows);
    if |m| > 0 && |rows| > 0 && !header && !AllDigitPaths(m) then Failure(HeaderError)
    else
      var idx := ColumnIndexes(m, rows, header);
      var missing := FirstMissing(idx);
      if |m| > 0 && |rows| > 0 && missing.Some? then Failure(MissingColumnError(m[missing.value].0))
      else Success(Config(m, header, idx))
  }

  /** Every column finds an index: a detected header holds every
      reference, and without one every reference is a number. */
  lemma IndexesComplete(m: Mapping, rows: seq<Row>)
    requires |m| > 0 && |rows| > 0
    requires HasHeaderRow(m, rows) || AllDigitPaths(m)
    ensures FirstMissing(ColumnIndexes(m, rows, HasHeaderRow(m, rows))).None?
  {
    var header := HasHeaderRow(m, rows);
    var idx := ColumnIndexes(m, rows, header);
    forall j | 0 <= j < |m|
      ensures idx[j].Some?
    {
      if header {
        HeaderIffCovered(m, rows);
        assert m[j].1 in multiset(Paths(m));
        NamesMember(rows[0], m[j].1);
      }
    }
  }

  /** The constructor fails exactly when there are a mapping and rows, the
      first row is not a header, and some reference is not a number; and
      then with the header exception: the column-not-found exception can
      never be raised. */
  lemma SetupFailsIff(mapping: Mapping, rows: seq<Row>)
    ensures var m := TrimMapping(mapping);
      Setup(mapping, rows).Failure? <==>
        |m| > 0 && |rows| > 0 && !HasHeaderRow(m, rows) && !AllDigitPaths(m)
    ensures Setup(mapping, rows).Failure? ==> Setup(mapping, rows).error == HeaderError
  {
    var m := TrimMapping(mapping);
    if |m| > 0 && |rows| > 0 && (HasHeaderRow(m, rows) || AllDigitPaths(m)) {
      IndexesComplete(m, rows);
    }
  }

  /** The constructor reads nothing past the first row: the same first row
      gives the same configuration whatever rows follow it. */
  lemma DetectReadsFirstRow(m: Mapping, rows: seq<Row>, more: seq<Row>)
    requires |rows| > 0
    ensures Detect(m, rows + more) == Detect(m, rows[..1])
  {
    var all := rows + more;
    assert all[0] == rows[..1][0];
    assert HasHeaderRow(m, all) == HasHeaderRow(m, rows[..1]);
    var header := HasHeaderRow(m, all);
    if !(|m| > 0 && !header && !AllDigitPaths(m)) {
      assert ColumnIndexes(m, all, header) == ColumnIndexes(m, rows[..1], header);
    }
  }

  // ---------------------------------------------------------------------
  // Reading the rows

  /** `$line[$index] ?? null`. */
  function CellAt(line: Row, idx: Option<nat>): Option<string> {
    if idx.Some? && idx.value < |line| then line[idx.value] else None
  }

  /** The values of every column, one per data row. */
  function ReadColumns(mapping: Mapping, indexes: seq<Option<nat>>, data: seq<Row>): (r: seq<(string, seq<Option<string>>)>)
    requires |indexes| == |mapping|
    ensures |r| == |mapping|
    ensures forall j :: 0 <= j < |mapping| ==> r[j].0 == mapping[j].0 && |r[j].1| == |data|
    ensures forall j, i :: 0 <= j < |mapping| && 0 <= i < |data| ==> r[j].1[i] == CellAt(data[i], indexes[j])
  {
    seq(|mapping|, j requires 0 <= j < |mapping| =>
      (mapping[j].0, seq(|data|, i requires 0 <= i < |data| => CellAt(data[i], indexes[j]))))
  }

  /** `parse`: the header row skipped, then one value per remaining row for
      every column, in mapping order. */
  function Parse(mapping: Mapping, rows: seq<Row>): (r: Result<seq<(string, seq<Option<string>>)>>)
    ensures r.Success? ==> |r.value| == |mapping|
    ensures r.Success? ==> forall j :: 0 <= j < |mapping| ==> r.value[j].0 == mapping[j].0
  {
    ParseTrimmed(TrimMapping(mapping), rows)
  }

  /** `parse` once the references are trimmed. */
  function ParseTrimmed(m: Mapping, rows: seq<Row>): (r: Result<seq<(string, seq<Option<string>>)>>)
    ensures r.Success? ==> |r.value| == |m|
    ensures r.Success? ==> forall j :: 0 <= j < |m| ==> r.value[j].0 == m[j].0
  {
    var cfg :- Detect(m, rows);
    Success(ReadColumns(m, cfg.indexes, if cfg.hasHeader then rows[1..] else rows))
  }

  /** Every column has one value per data row: all rows but a header. */
  lemma ParseRowCount(mapping: Mapping, rows: seq<Row>, j: nat)
    requires Parse(mapping, rows).Success? && j < |mapping|
    ensures |Parse(mapping, rows).value[j].1|
      == if HasHeaderRow(TrimMapping(mapping), rows) then |rows| - 1 else |rows|
  {
  }

  /** With a header, a column holds, row after row, the cell under the
      first header cell equal to its reference. */
  lemma ParseByHeader(mapping: Mapping, rows: seq<Row>, j: nat, i: nat)
    requires Parse(mapping, rows).Success? && j < |mapping|
    requires HasHeaderRow(TrimMapping(mapping), rows) && i + 1 < |rows|
    ensures var p := TrimReference(mapping[j].1);
      exists k :: 0 <= k < |rows[0]| && rows[0][k] == Some(p) && Some(p) !in rows[0][..k]
        && Parse(mapping, rows).value[j].1[i] == CellAt(rows[i + 1], Some(k))
  {
    var m := TrimMapping(mapping);
    HeaderIffCovered(m, rows);
    assert m[j].1 in multiset(Paths(m));
    NamesMember(rows[0], m[j].1);
    var idx := ColumnIndexes(m, rows, true);
    assert Setup(mapping, rows) == Success(Config(m, true, idx));
    var k := Search(rows[0], m[j].1).value;
    assert idx[j] == Some(k);
    assert Parse(mapping, rows).value == ReadColumns(m, idx, rows[1..]);
    assert rows[1..][i] == rows[i + 1];
  }

  /** Without a header, a column holds the cell at the position its
      reference spells, `null` where a row is shorter. */
  lemma ParseByPosition(mapping: Mapping, rows: seq<Row>, j: nat, i: nat)
    requires Parse(mapping, rows).Success? && j < |mapping|
    requires !HasHeaderRow(TrimMapping(mapping), rows) && i < |rows|
    ensures var p := TrimReference(mapping[j].1);
      && AllDigits(p)
      && Parse(mapping, rows).value[j].1[i] == CellAt(rows[i], Some(DecimalValue(p)))
  {
    SetupFailsIff(mapping, rows);
  }
}
