/** The CSV parser's unit tests, on the rows `fgetcsv` yields for each
    test's content and on the references as trimming leaves them
    (`$[a]` becomes `a`, see `CsvParser.ReferenceRoundTrip`). Each step on
    literal data is a lemma of its own. */
module CsvExamples {
  import opened Wrappers
  import opened Text
  import opened CsvParser

  lemma RemoveA() ensures RemoveFirst([("col1", "a"), ("col2", "b")], Some("a")) == [("col2", "b")] {}
  lemma RemoveB() ensures RemoveFirst([("col2", "b")], Some("b")) == [] {}

  lemma StruckAB()
    ensures Unmatched([("col1", "a"), ("col2", "b")], [Some("a"), Some("b")]) == []
  {
    RemoveA();
    RemoveB();
  }

  lemma StruckABC()
    ensures Unmatched([("col1", "a"), ("col2", "b")], [Some("a"), Some("b"), Some("c")]) == []
  {
    RemoveA();
    RemoveB();
    assert Unmatched([], [Some("c")]) == [];
  }

  /** An empty mapping never has a header. */
  lemma HeaderEmptyMapping()
    ensures Detect([], [[Some("a"), Some("b"), Some("c")]]) == Success(Config([], false, []))
  {
  }

  /** Empty content has no header and no error. */
  lemma HeaderEmptyContent()
    ensures Detect([("col1", "0")], []) == Success(Config([("col1", "0")], false, [None]))
  {
    assert ColumnIndexes([("col1", "0")], [], false) == [None];
  }

  /** The first row names both mapped columns. */
  lemma HeaderHappyPath()
    ensures HasHeaderRow([("col1", "a"), ("col2", "b")], [[Some("a"), Some("b")], [Some("c"), Some("d")]])
  {
    StruckAB();
  }

  /** The first row may hold more columns than the mapping names. */
  lemma HeaderWiderRow()
    ensures HasHeaderRow([("col1", "a"), ("col2", "b")],
      [[Some("a"), Some("b"), Some("c")], [Some("d"), Some("e"), Some("f")]])
  {
    StruckABC();
  }

  lemma StruckPartly()
    ensures Unmatched([("col1", "a"), ("col2", "b"), ("col3", "c")], [Some("a"), Some("b")]) == [("col3", "c")]
  {
    assert RemoveFirst([("col1", "a"), ("col2", "b"), ("col3", "c")], Some("a")) == [("col2", "b"), ("col3", "c")];
    assert RemoveFirst([("col2", "b"), ("col3", "c")], Some("b")) == [("col3", "c")];
  }

  /** A mapped name missing from the first row, with names that are not
      numbers, is an error. */
  lemma HeaderMissingName()
    ensures Detect([("col1", "a"), ("col2", "b"), ("col3", "c")], [[Some("a"), Some("b")], [Some("c"), Some("d")]])
      == Failure(HeaderError)
  {
    StruckPartly();
    var m := [("col1", "a"), ("col2", "b"), ("col3", "c")];
    assert !IsDigit(m[0].1[0]);
  }

  // Column indexes.

  lemma RemovePrice() ensures RemoveFirst([("price", "a"), ("quantity", "b"), ("total", "c")], Some("a")) == [("quantity", "b"), ("total", "c")] {}
  lemma RemoveQuantity() ensures RemoveFirst([("quantity", "b"), ("total", "c")], Some("b")) == [("total", "c")] {}
  lemma RemoveTotal() ensures RemoveFirst([("total", "c")], Some("c")) == [] {}
  lemma RemoveNoneLeft() ensures RemoveFirst([], Some("d")) == [] {}
  lemma KeepTotal() ensures RemoveFirst([("total", "c")], Some("x")) == [("total", "c")] {}
  lemma KeepQuantity() ensures RemoveFirst([("quantity", "b"), ("total", "c")], Some("x")) == [("quantity", "b"), ("total", "c")] { KeepTotal(); }
  lemma KeepPrice() ensures RemoveFirst([("price", "a"), ("quantity", "b"), ("total", "c")], Some("x")) == [("price", "a"), ("quantity", "b"), ("total", "c")] { KeepQuantity(); }

  lemma StruckFromStart()
    ensures Unmatched([("price", "a"), ("quantity", "b"), ("total", "c")], [Some("a"), Some("b"), Some("c")]) == []
  {
    RemovePrice();
    RemoveQuantity();
    RemoveTotal();
  }

  lemma StruckFromMiddle()
    ensures Unmatched([("price", "a"), ("quantity", "b"), ("total", "c")],
                      [Some("x"), Some("a"), Some("b"), Some("c"), Some("d")]) == []
  {
    RemoveNoneLeft();
    assert Unmatched([], [Some("d")]) == [];
    RemoveTotal();
    assert Unmatched([("total", "c")], [Some("c"), Some("d")]) == [];
    RemoveQuantity();
    assert Unmatched([("quantity", "b"), ("total", "c")], [Some("b"), Some("c"), Some("d")]) == [];
    RemovePrice();
    assert Unmatched(Priced, [Some("a"), Some("b"), Some("c"), Some("d")]) == [];
    KeepPrice();
  }

  lemma SearchFromStart()
    ensures var h := [Some("a"), Some("b"), Some("c")];
      Search(h, "a") == Some(0) && Search(h, "b") == Some(1) && Search(h, "c") == Some(2)
  {
  }

  const Middle: Row := [Some("x"), Some("a"), Some("b"), Some("c"), Some("d")]

  lemma SearchMiddleA() ensures Search(Middle, "a") == Some(1) { assert Search(Middle[1..], "a") == Some(0); }
  lemma SearchMiddleB() ensures Search(Middle, "b") == Some(2) { assert Search(Middle[2..], "b") == Some(0); }
  lemma SearchMiddleC() ensures Search(Middle, "c") == Some(3) { assert Search(Middle[3..], "c") == Some(0); }

  const Priced: Mapping := [("price", "a"), ("quantity", "b"), ("total", "c")]
  const FromStart: seq<Row> := [[Some("a"), Some("b"), Some("c")]]
  const FromMiddle: seq<Row> := [Middle]

  lemma HeaderFromStart() ensures HasHeaderRow(Priced, FromStart) { StruckFromStart(); }
  lemma HeaderFromMiddle() ensures HasHeaderRow(Priced, FromMiddle) { StruckFromMiddle(); }

  /** A header row starting at the first column. */
  lemma IndexesFromStart()
    ensures ColumnIndexes(Priced, FromStart, true) == [Some(0), Some(1), Some(2)]
  {
    HeaderIndexesOfThree(Priced, FromStart);
    SearchFromStart();
  }

  /** The header indexes of a three-column mapping, one search each. */
  lemma HeaderIndexesOfThree(m: Mapping, rows: seq<Row>)
    requires |m| == 3 && |rows| > 0
    ensures ColumnIndexes(m, rows, true) == [Search(rows[0], m[0].1), Search(rows[0], m[1].1), Search(rows[0], m[2].1)]
  {
    var idx := ColumnIndexes(m, rows, true);
    assert idx == [idx[0], idx[1], idx[2]];
  }

  /** A header row whose names start in the middle. */
  lemma IndexesFromMiddle(m: Mapping, rows: seq<Row>)
    requires m == Priced && rows == FromMiddle
    ensures ColumnIndexes(m, rows, true) == [Some(1), Some(2), Some(3)]
  {
    HeaderIndexesOfThree(m, rows);
    assert rows[0] == Middle && m[0].1 == "a" && m[1].1 == "b" && m[2].1 == "c";
    SearchMiddleA();
    SearchMiddleB();
    SearchMiddleC();
  }

  lemma DetectFromStart()
    ensures Detect(Priced, FromStart) == Success(Config(Priced, true, [Some(0), Some(1), Some(2)]))
  {
    HeaderFromStart();
    IndexesFromStart();
    IndexesComplete(Priced, FromStart);
  }

  lemma DetectFromMiddle()
    ensures Detect(Priced, FromMiddle) == Success(Config(Priced, true, [Some(1), Some(2), Some(3)]))
  {
    HeaderFromMiddle();
    IndexesFromMiddle(Priced, FromMiddle);
    IndexesComplete(Priced, FromMiddle);
  }

  const Positional: Mapping := [("price", "0"), ("quantity", "2"), ("total", "4")]
  const PastEnd: Mapping := [("price", "0"), ("quantity", "2"), ("total", "5")]
  const Letters: seq<Row> := [[Some("a"), Some("b"), Some("c"), Some("d"), Some("e")]]

  lemma DigitsZero() ensures AllDigits("0") && DecimalValue("0") == 0 {}
  lemma DigitsTwo() ensures AllDigits("2") && DecimalValue("2") == 2 {}
  lemma DigitsFour() ensures AllDigits("4") && DecimalValue("4") == 4 {}
  lemma DigitsFive() ensures AllDigits("5") && DecimalValue("5") == 5 {}

  /** A first row that does not hold the reference "0" is no header. */
  lemma NoZero() ensures Some("0") !in Letters[0]
  {
    var h := Letters[0];
    assert h[0] != Some("0") && h[1] != Some("0") && h[2] != Some("0") && h[3] != Some("0") && h[4] != Some("0");
  }

  lemma NoHeader(m: Mapping)
    requires |m| > 0 && m[0].1 == "0"
    ensures !HasHeaderRow(m, Letters)
  {
    HeaderIffCovered(m, Letters);
    NamesMember(Letters[0], "0");
    NoZero();
    assert "0" == Paths(m)[0];
    assert "0" in multiset(Paths(m));
  }

  lemma PositionalDigits() ensures AllDigitPaths(Positional) { DigitsZero(); DigitsTwo(); DigitsFour(); }
  lemma PastEndDigits() ensures AllDigitPaths(PastEnd) { DigitsZero(); DigitsTwo(); DigitsFive(); }

  /** Without a header the references are the positions themselves. */
  lemma IndexesByPosition()
    ensures ColumnIndexes(Positional, Letters, false) == [Some(0), Some(2), Some(4)]
  {
    PositionalDigits();
    DigitsZero(); DigitsTwo(); DigitsFour();
    var idx := ColumnIndexes(Positional, Letters, false);
    assert idx[0] == Some(0) && idx[1] == Some(2) && idx[2] == Some(4);
  }

  /** A position past the end of the row is accepted all the same. */
  lemma IndexesPastEnd()
    ensures ColumnIndexes(PastEnd, Letters, false) == [Some(0), Some(2), Some(5)]
  {
    PastEndDigits();
    DigitsZero(); DigitsTwo(); DigitsFive();
    var idx := ColumnIndexes(PastEnd, Letters, false);
    assert idx[0] == Some(0) && idx[1] == Some(2) && idx[2] == Some(5);
  }

  lemma DetectByPosition()
    ensures Detect(Positional, Letters) == Success(Config(Positional, false, [Some(0), Some(2), Some(4)]))
  {
    NoHeader(Positional);
    PositionalDigits();
    IndexesByPosition();
  }

  lemma DetectPastEnd()
    ensures Detect(PastEnd, Letters) == Success(Config(PastEnd, false, [Some(0), Some(2), Some(5)]))
  {
    NoHeader(PastEnd);
    PastEndDigits();
    IndexesPastEnd();
  }

  // Parsing.

  const Grid: seq<Row> := Letters + [[Some("f"), Some("g"), Some("h"), Some("i"), Some("j")],
                                     [Some("k"), Some("l"), Some("m"), Some("n"), Some("o")]]

  /** Rows after the first change nothing about the positional columns. */
  lemma DetectAfterLetters(first: seq<Row>, more: seq<Row>)
    requires first == Letters
    ensures Detect(Positional, first + more) == Success(Config(Positional, false, [Some(0), Some(2), Some(4)]))
  {
    DetectReadsFirstRow(Positional, first, more);
    assert first[..1] == first;
    DetectByPosition();
  }

  /** Without a header every row is data, read at the numbered positions. */
  lemma ParseWithoutHeader()
    ensures ParseTrimmed(Positional, Grid) == Success(ReadColumns(Positional, [Some(0), Some(2), Some(4)], Grid))
  {
    DetectAfterLetters(Letters, Grid[1..]);
    assert Letters + Grid[1..] == Grid;
  }

  lemma GridColumns()
    ensures var cols := ReadColumns(Positional, [Some(0), Some(2), Some(4)], Grid);
      && cols[0] == ("price", [Some("a"), Some("f"), Some("k")])
      && cols[1] == ("quantity", [Some("c"), Some("h"), Some("m")])
      && cols[2] == ("total", [Some("e"), Some("j"), Some("o")])
  {
    var cols := ReadColumns(Positional, [Some(0), Some(2), Some(4)], Grid);
    assert |Grid| == 3 && Positional[0].0 == "price" && Positional[1].0 == "quantity" && Positional[2].0 == "total";
    assert cols[0].1[0] == Some("a") && cols[0].1[1] == Some("f") && cols[0].1[2] == Some("k");
    assert cols[0].1 == [Some("a"), Some("f"), Some("k")];
    assert cols[1].1[0] == Some("c") && cols[1].1[1] == Some("h") && cols[1].1[2] == Some("m");
    assert cols[1].1 == [Some("c"), Some("h"), Some("m")];
    assert cols[2].1[0] == Some("e") && cols[2].1[1] == Some("j") && cols[2].1[2] == Some("o");
    assert cols[2].1 == [Some("e"), Some("j"), Some("o")];
  }

  const Totals: Mapping := [("price", "a"), ("quantity", "b"), ("total", "d")]
  const Titles: seq<Row> := [[Some("a"), Some("b"), Some("c"), Some("d")]]
  const Figures: seq<Row> := [[Some("1"), Some("2"), Some("3"), Some("4")],
                              [Some("5"), Some("6"), Some("7"), Some("8")],
                              [Some("9"), Some("10"), Some("11"), Some("12")]]

  lemma RemoveTotalsA() ensures RemoveFirst(Totals, Some("a")) == [("quantity", "b"), ("total", "d")] {}
  lemma RemoveTotalsB() ensures RemoveFirst([("quantity", "b"), ("total", "d")], Some("b")) == [("total", "d")] {}
  lemma KeepTotalsC() ensures RemoveFirst([("total", "d")], Some("c")) == [("total", "d")] {}
  lemma RemoveTotalsD() ensures RemoveFirst([("total", "d")], Some("d")) == [] {}

  lemma HeaderTitles() ensures HasHeaderRow(Totals, Titles)
  {
    RemoveTotalsA();
    RemoveTotalsB();
    KeepTotalsC();
    RemoveTotalsD();
  }

  lemma SearchTitles()
    ensures Search(Titles[0], "a") == Some(0) && Search(Titles[0], "b") == Some(1) && Search(Titles[0], "d") == Some(3)
  {
  }

  lemma IndexesTitles() ensures ColumnIndexes(Totals, Titles, true) == [Some(0), Some(1), Some(3)]
  {
    HeaderIndexesOfThree(Totals, Titles);
    SearchTitles();
  }

  lemma DetectTitles() ensures Detect(Totals, Titles) == Success(Config(Totals, true, [Some(0), Some(1), Some(3)]))
  {
    HeaderTitles();
    IndexesTitles();
    IndexesComplete(Totals, Titles);
  }

  /** Rows after the header change nothing about the columns. */
  lemma DetectAfterTitles(first: seq<Row>, more: seq<Row>)
    requires first == Titles
    ensures Detect(Totals, first + more) == Success(Config(Totals, true, [Some(0), Some(1), Some(3)]))
  {
    DetectReadsFirstRow(Totals, first, more);
    assert first[..1] == first;
    DetectTitles();
  }

  /** With a header the first row is skipped and each column is read under
      its name. */
  lemma ParseWithHeader()
    ensures ParseTrimmed(Totals, Titles + Figures) == Success(ReadColumns(Totals, [Some(0), Some(1), Some(3)], Figures))
  {
    DetectAfterTitles(Titles, Figures);
    assert (Titles + Figures)[1..] == Figures;
  }

  lemma FigureColumns()
    ensures var cols := ReadColumns(Totals, [Some(0), Some(1), Some(3)], Figures);
      && cols[0] == ("price", [Some("1"), Some("5"), Some("9")])
      && cols[1] == ("quantity", [Some("2"), Some("6"), Some("10")])
      && cols[2] == ("total", [Some("4"), Some("8"), Some("12")])
  {
    var cols := ReadColumns(Totals, [Some(0), Some(1), Some(3)], Figures);
    assert |Figures| == 3 && Totals[0].0 == "price" && Totals[1].0 == "quantity" && Totals[2].0 == "total";
    assert cols[0].1[0] == Some("1") && cols[0].1[1] == Some("5") && cols[0].1[2] == Some("9");
    assert cols[0].1 == [Some("1"), Some("5"), Some("9")];
    assert cols[1].1[0] == Some("2") && cols[1].1[1] == Some("6") && cols[1].1[2] == Some("10");
    assert cols[1].1 == [Some("2"), Some("6"), Some("10")];
    assert cols[2].1[0] == Some("4") && cols[2].1[1] == Some("8") && cols[2].1[2] == Some("12");
    assert cols[2].1 == [Some("4"), Some("8"), Some("12")];
  }
}
