/** The six mismatch cases of the column comparison's unit tests, each
    worked through to the paths and counts of its exception message. Every
    fact about a string literal is its own small lemma, so that the solver
    meets each literal in isolation. A helper's name spells the path it is
    about: `Root` for `$.`, `Dollar` for a bare `$`, `Each` for `[]`, `All`
    for `[*]`, `AtK` for `[K]`; `Parts…` splits a path at `Then`, `Cut…`
    truncates after the first marker, `Pin…ToK` pins the first marker to
    `[K]`, and `Rebuild…` reconstructs a path from its levels. */
module ColumnExamples {
  import opened Wrappers
  import opened Text
  import opened Markers
  import opened Structures
  import opened Shapes
  import opened ComparisonRecord
  import opened Columns
  import Comparator

  lemma Index0() ensures IndexText(0) == "[0]" {}
  lemma Index1() ensures IndexText(1) == "[1]" {}
  lemma Index2() ensures IndexText(2) == "[2]" {}

  lemma PartsRootFooBarThenEachThenEnd() ensures "$.foo.bar" + "[]" + "" == "$.foo.bar[]" {}
  lemma NoMarkerInRootFooBar() ensures NoMarker("$.foo.bar") { assert FirstMarker("$.foo.bar") == None; }
  lemma CutRootFooBarEach()
    ensures TruncateAfterMarker("$.foo.bar[]") == "$.foo.bar[]"
  {
    PartsRootFooBarThenEachThenEnd(); NoMarkerInRootFooBar();
    SplitAtMarker("$.foo.bar", "[]", "", 0);
  }

  lemma RebuildRootFooBarEach()
    ensures Reconstruct("$.foo.bar[]", [None]) == "$.foo.bar[]"
  {
    CutRootFooBarEach();
  }

  lemma PartsDollarFooBazThenAllThenEnd() ensures "$foo.baz" + "[*]" + "" == "$foo.baz[*]" {}
  lemma NoMarkerInDollarFooBaz() ensures NoMarker("$foo.baz") { assert FirstMarker("$foo.baz") == None; }
  lemma CutDollarFooBazAll()
    ensures TruncateAfterMarker("$foo.baz[*]") == "$foo.baz[*]"
  {
    PartsDollarFooBazThenAllThenEnd(); NoMarkerInDollarFooBaz();
    SplitAtMarker("$foo.baz", "[*]", "", 0);
  }

  lemma RebuildDollarFooBazAll()
    ensures Reconstruct("$foo.baz[*]", [None]) == "$foo.baz[*]"
  {
    CutDollarFooBazAll();
  }

  lemma PartsDollarFooBazThenAllThenQuxAll() ensures "$foo.baz" + "[*]" + ".qux[*]" == "$foo.baz[*].qux[*]" {}
  lemma PartsDollarFooBazThenAll() ensures "$foo.baz" + "[*]" == "$foo.baz[*]" {}
  lemma NoLineFeedInQuxAll() ensures '\n' !in ".qux[*]" {}
  lemma CutDollarFooBazAllQuxAll()
    ensures TruncateAfterMarker("$foo.baz[*].qux[*]") == "$foo.baz[*]"
  {
    PartsDollarFooBazThenAllThenQuxAll(); NoMarkerInDollarFooBaz(); PartsDollarFooBazThenAll(); NoLineFeedInQuxAll();
    SplitAtMarker("$foo.baz", "[*]", ".qux[*]", 0);
  }

  lemma RebuildDollarFooBazAllQuxAll()
    ensures Reconstruct("$foo.baz[*].qux[*]", [None]) == "$foo.baz[*]"
  {
    CutDollarFooBazAllQuxAll();
  }

  lemma PartsRootFooBarThenEachThenBazAll() ensures "$.foo.bar" + "[]" + ".baz[*]" == "$.foo.bar[].baz[*]" {}
  lemma PartsRootFooBarThenEach() ensures "$.foo.bar" + "[]" == "$.foo.bar[]" {}
  lemma NoLineFeedInBazAll() ensures '\n' !in ".baz[*]" {}
  lemma CutRootFooBarEachBazAll()
    ensures TruncateAfterMarker("$.foo.bar[].baz[*]") == "$.foo.bar[]"
  {
    PartsRootFooBarThenEachThenBazAll(); NoMarkerInRootFooBar(); PartsRootFooBarThenEach(); NoLineFeedInBazAll();
    SplitAtMarker("$.foo.bar", "[]", ".baz[*]", 0);
  }

  lemma RebuildRootFooBarEachBazAll()
    ensures Reconstruct("$.foo.bar[].baz[*]", [None]) == "$.foo.bar[]"
  {
    CutRootFooBarEachBazAll();
  }

  lemma PartsRootFooQuxThenEachThenEnd() ensures "$.foo.qux" + "[]" + "" == "$.foo.qux[]" {}
  lemma NoMarkerInRootFooQux() ensures NoMarker("$.foo.qux") { assert FirstMarker("$.foo.qux") == None; }
  lemma CutRootFooQuxEach()
    ensures TruncateAfterMarker("$.foo.qux[]") == "$.foo.qux[]"
  {
    PartsRootFooQuxThenEachThenEnd(); NoMarkerInRootFooQux();
    SplitAtMarker("$.foo.qux", "[]", "", 0);
  }

  lemma RebuildRootFooQuxEach()
    ensures Reconstruct("$.foo.qux[]", [None]) == "$.foo.qux[]"
  {
    CutRootFooQuxEach();
  }

  lemma PartsRootFooBarThenAt0ThenBazAll() ensures "$.foo.bar" + "[0]" + ".baz[*]" == "$.foo.bar[0].baz[*]" {}
  lemma PinRootFooBarEachBazAllTo0()
    ensures ReplaceFirstMarker("$.foo.bar[].baz[*]", 0) == "$.foo.bar[0].baz[*]"
  {
    PartsRootFooBarThenEachThenBazAll(); NoMarkerInRootFooBar(); Index0(); PartsRootFooBarThenAt0ThenBazAll();
    SplitAtMarker("$.foo.bar", "[]", ".baz[*]", 0);
  }

  lemma PartsRootFooBarAt0BazThenAllThenEnd() ensures "$.foo.bar[0].baz" + "[*]" + "" == "$.foo.bar[0].baz[*]" {}
  lemma NoMarkerInRootFooBarAt0Baz() ensures NoMarker("$.foo.bar[0].baz") { assert FirstMarker("$.foo.bar[0].baz") == None; }
  lemma CutRootFooBarAt0BazAll()
    ensures TruncateAfterMarker("$.foo.bar[0].baz[*]") == "$.foo.bar[0].baz[*]"
  {
    PartsRootFooBarAt0BazThenAllThenEnd(); NoMarkerInRootFooBarAt0Baz();
    SplitAtMarker("$.foo.bar[0].baz", "[*]", "", 0);
  }

  lemma RebuildRootFooBarEachBazAllAt0()
    ensures Reconstruct("$.foo.bar[].baz[*]", [Some(0), None]) == "$.foo.bar[0].baz[*]"
  {
    PinRootFooBarEachBazAllTo0(); CutRootFooBarAt0BazAll();
  }

  lemma PartsRootFooQuxThenEachThenQuuxAll() ensures "$.foo.qux" + "[]" + ".quux[*]" == "$.foo.qux[].quux[*]" {}
  lemma PartsRootFooQuxThenAt0ThenQuuxAll() ensures "$.foo.qux" + "[0]" + ".quux[*]" == "$.foo.qux[0].quux[*]" {}
  lemma PinRootFooQuxEachQuuxAllTo0()
    ensures ReplaceFirstMarker("$.foo.qux[].quux[*]", 0) == "$.foo.qux[0].quux[*]"
  {
    PartsRootFooQuxThenEachThenQuuxAll(); NoMarkerInRootFooQux(); Index0(); PartsRootFooQuxThenAt0ThenQuuxAll();
    SplitAtMarker("$.foo.qux", "[]", ".quux[*]", 0);
  }

  lemma PartsRootFooQuxAt0QuuxThenAllThenEnd() ensures "$.foo.qux[0].quux" + "[*]" + "" == "$.foo.qux[0].quux[*]" {}
  lemma NoMarkerInRootFooQuxAt0Quux() ensures NoMarker("$.foo.qux[0].quux") { assert FirstMarker("$.foo.qux[0].quux") == None; }
  lemma CutRootFooQuxAt0QuuxAll()
    ensures TruncateAfterMarker("$.foo.qux[0].quux[*]") == "$.foo.qux[0].quux[*]"
  {
    PartsRootFooQuxAt0QuuxThenAllThenEnd(); NoMarkerInRootFooQuxAt0Quux();
    SplitAtMarker("$.foo.qux[0].quux", "[*]", "", 0);
  }

  lemma RebuildRootFooQuxEachQuuxAllAt0()
    ensures Reconstruct("$.foo.qux[].quux[*]", [Some(0), None]) == "$.foo.qux[0].quux[*]"
  {
    PinRootFooQuxEachQuuxAllTo0(); CutRootFooQuxAt0QuuxAll();
  }

  lemma PartsRootFooBarThenAt1ThenBazAll() ensures "$.foo.bar" + "[1]" + ".baz[*]" == "$.foo.bar[1].baz[*]" {}
  lemma PinRootFooBarEachBazAllTo1()
    ensures ReplaceFirstMarker("$.foo.bar[].baz[*]", 1) == "$.foo.bar[1].baz[*]"
  {
    PartsRootFooBarThenEachThenBazAll(); NoMarkerInRootFooBar(); Index1(); PartsRootFooBarThenAt1ThenBazAll();
    SplitAtMarker("$.foo.bar", "[]", ".baz[*]", 1);
  }

  lemma PartsRootFooBarAt1BazThenAllThenEnd() ensures "$.foo.bar[1].baz" + "[*]" + "" == "$.foo.bar[1].baz[*]" {}
  lemma NoMarkerInRootFooBarAt1Baz() ensures NoMarker("$.foo.bar[1].baz") { assert FirstMarker("$.foo.bar[1].baz") == None; }
  lemma CutRootFooBarAt1BazAll()
    ensures TruncateAfterMarker("$.foo.bar[1].baz[*]") == "$.foo.bar[1].baz[*]"
  {
    PartsRootFooBarAt1BazThenAllThenEnd(); NoMarkerInRootFooBarAt1Baz();
    SplitAtMarker("$.foo.bar[1].baz", "[*]", "", 0);
  }

  lemma RebuildRootFooBarEachBazAllAt1()
    ensures Reconstruct("$.foo.bar[].baz[*]", [Some(1), None]) == "$.foo.bar[1].baz[*]"
  {
    PinRootFooBarEachBazAllTo1(); CutRootFooBarAt1BazAll();
  }

  lemma PartsRootFooQuxThenAt1ThenQuuxAll() ensures "$.foo.qux" + "[1]" + ".quux[*]" == "$.foo.qux[1].quux[*]" {}
  lemma PinRootFooQuxEachQuuxAllTo1()
    ensures ReplaceFirstMarker("$.foo.qux[].quux[*]", 1) == "$.foo.qux[1].quux[*]"
  {
    PartsRootFooQuxThenEachThenQuuxAll(); NoMarkerInRootFooQux(); Index1(); PartsRootFooQuxThenAt1ThenQuuxAll();
    SplitAtMarker("$.foo.qux", "[]", ".quux[*]", 1);
  }

  lemma PartsRootFooQuxAt1QuuxThenAllThenEnd() ensures "$.foo.qux[1].quux" + "[*]" + "" == "$.foo.qux[1].quux[*]" {}
  lemma NoMarkerInRootFooQuxAt1Quux() ensures NoMarker("$.foo.qux[1].quux") { assert FirstMarker("$.foo.qux[1].quux") == None; }
  lemma CutRootFooQuxAt1QuuxAll()
    ensures TruncateAfterMarker("$.foo.qux[1].quux[*]") == "$.foo.qux[1].quux[*]"
  {
    PartsRootFooQuxAt1QuuxThenAllThenEnd(); NoMarkerInRootFooQuxAt1Quux();
    SplitAtMarker("$.foo.qux[1].quux", "[*]", "", 0);
  }

  lemma RebuildRootFooQuxEachQuuxAllAt1()
    ensures Reconstruct("$.foo.qux[].quux[*]", [Some(1), None]) == "$.foo.qux[1].quux[*]"
  {
    PinRootFooQuxEachQuuxAllTo1(); CutRootFooQuxAt1QuuxAll();
  }

  lemma PartsRootFooBarThenEachThenBazEachQuxEach() ensures "$.foo.bar" + "[]" + ".baz[].qux[]" == "$.foo.bar[].baz[].qux[]" {}
  lemma PartsRootFooBarThenAt2ThenBazEachQuxEach() ensures "$.foo.bar" + "[2]" + ".baz[].qux[]" == "$.foo.bar[2].baz[].qux[]" {}
  lemma PinRootFooBarEachBazEachQuxEachTo2()
    ensures ReplaceFirstMarker("$.foo.bar[].baz[].qux[]", 2) == "$.foo.bar[2].baz[].qux[]"
  {
    PartsRootFooBarThenEachThenBazEachQuxEach(); NoMarkerInRootFooBar(); Index2(); PartsRootFooBarThenAt2ThenBazEachQuxEach();
    SplitAtMarker("$.foo.bar", "[]", ".baz[].qux[]", 2);
  }

  lemma PartsRootFooBarAt2BazThenEachThenQuxEach() ensures "$.foo.bar[2].baz" + "[]" + ".qux[]" == "$.foo.bar[2].baz[].qux[]" {}
  lemma NoMarkerInRootFooBarAt2Baz() ensures NoMarker("$.foo.bar[2].baz") { assert FirstMarker("$.foo.bar[2].baz") == None; }
  lemma PartsRootFooBarAt2BazThenAt1ThenQuxEach() ensures "$.foo.bar[2].baz" + "[1]" + ".qux[]" == "$.foo.bar[2].baz[1].qux[]" {}
  lemma PinRootFooBarAt2BazEachQuxEachTo1()
    ensures ReplaceFirstMarker("$.foo.bar[2].baz[].qux[]", 1) == "$.foo.bar[2].baz[1].qux[]"
  {
    PartsRootFooBarAt2BazThenEachThenQuxEach(); NoMarkerInRootFooBarAt2Baz(); Index1(); PartsRootFooBarAt2BazThenAt1ThenQuxEach();
    SplitAtMarker("$.foo.bar[2].baz", "[]", ".qux[]", 1);
  }

  lemma PartsRootFooBarAt2BazAt1QuxThenEachThenEnd() ensures "$.foo.bar[2].baz[1].qux" + "[]" + "" == "$.foo.bar[2].baz[1].qux[]" {}
  lemma NoMarkerInRootFooBarAt2BazAt1Qux() ensures NoMarker("$.foo.bar[2].baz[1].qux") { assert FirstMarker("$.foo.bar[2].baz[1].qux") == None; }
  lemma CutRootFooBarAt2BazAt1QuxEach()
    ensures TruncateAfterMarker("$.foo.bar[2].baz[1].qux[]") == "$.foo.bar[2].baz[1].qux[]"
  {
    PartsRootFooBarAt2BazAt1QuxThenEachThenEnd(); NoMarkerInRootFooBarAt2BazAt1Qux();
    SplitAtMarker("$.foo.bar[2].baz[1].qux", "[]", "", 0);
  }

  lemma RebuildRootFooBarEachBazEachQuxEachAt2At1()
    ensures Reconstruct("$.foo.bar[].baz[].qux[]", [Some(2), Some(1), None]) == "$.foo.bar[2].baz[1].qux[]"
  {
    PinRootFooBarEachBazEachQuxEachTo2(); PinRootFooBarAt2BazEachQuxEachTo1(); CutRootFooBarAt2BazAt1QuxEach();
  }

  lemma PartsRootFooQuuxThenAllThenQuuzAllQuuuxAll() ensures "$.foo.quux" + "[*]" + ".quuz[*].quuux[*]" == "$.foo.quux[*].quuz[*].quuux[*]" {}
  lemma NoMarkerInRootFooQuux() ensures NoMarker("$.foo.quux") { assert FirstMarker("$.foo.quux") == None; }
  lemma PartsRootFooQuuxThenAt2ThenQuuzAllQuuuxAll() ensures "$.foo.quux" + "[2]" + ".quuz[*].quuux[*]" == "$.foo.quux[2].quuz[*].quuux[*]" {}
  lemma PinRootFooQuuxAllQuuzAllQuuuxAllTo2()
    ensures ReplaceFirstMarker("$.foo.quux[*].quuz[*].quuux[*]", 2) == "$.foo.quux[2].quuz[*].quuux[*]"
  {
    PartsRootFooQuuxThenAllThenQuuzAllQuuuxAll(); NoMarkerInRootFooQuux(); Index2(); PartsRootFooQuuxThenAt2ThenQuuzAllQuuuxAll();
    SplitAtMarker("$.foo.quux", "[*]", ".quuz[*].quuux[*]", 2);
  }

  lemma PartsRootFooQuuxAt2QuuzThenAllThenQuuuxAll() ensures "$.foo.quux[2].quuz" + "[*]" + ".quuux[*]" == "$.foo.quux[2].quuz[*].quuux[*]" {}
  lemma NoMarkerInRootFooQuuxAt2Quuz() ensures NoMarker("$.foo.quux[2].quuz") { assert FirstMarker("$.foo.quux[2].quuz") == None; }
  lemma PartsRootFooQuuxAt2QuuzThenAt1ThenQuuuxAll() ensures "$.foo.quux[2].quuz" + "[1]" + ".quuux[*]" == "$.foo.quux[2].quuz[1].quuux[*]" {}
  lemma PinRootFooQuuxAt2QuuzAllQuuuxAllTo1()
    ensures ReplaceFirstMarker("$.foo.quux[2].quuz[*].quuux[*]", 1) == "$.foo.quux[2].quuz[1].quuux[*]"
  {
    PartsRootFooQuuxAt2QuuzThenAllThenQuuuxAll(); NoMarkerInRootFooQuuxAt2Quuz(); Index1(); PartsRootFooQuuxAt2QuuzThenAt1ThenQuuuxAll();
    SplitAtMarker("$.foo.quux[2].quuz", "[*]", ".quuux[*]", 1);
  }

  lemma PartsRootFooQuuxAt2QuuzAt1QuuuxThenAllThenEnd() ensures "$.foo.quux[2].quuz[1].quuux" + "[*]" + "" == "$.foo.quux[2].quuz[1].quuux[*]" {}
  lemma NoMarkerInRootFooQuuxAt2QuuzAt1Quuux() ensures NoMarker("$.foo.quux[2].quuz[1].quuux") { assert FirstMarker("$.foo.quux[2].quuz[1].quuux") == None; }
  lemma CutRootFooQuuxAt2QuuzAt1QuuuxAll()
    ensures TruncateAfterMarker("$.foo.quux[2].quuz[1].quuux[*]") == "$.foo.quux[2].quuz[1].quuux[*]"
  {
    PartsRootFooQuuxAt2QuuzAt1QuuuxThenAllThenEnd(); NoMarkerInRootFooQuuxAt2QuuzAt1Quuux();
    SplitAtMarker("$.foo.quux[2].quuz[1].quuux", "[*]", "", 0);
  }

  lemma RebuildRootFooQuuxAllQuuzAllQuuuxAllAt2At1()
    ensures Reconstruct("$.foo.quux[*].quuz[*].quuux[*]", [Some(2), Some(1), None]) == "$.foo.quux[2].quuz[1].quuux[*]"
  {
    PinRootFooQuuxAllQuuzAllQuuuxAllTo2(); PinRootFooQuuxAt2QuuzAllQuuuxAllTo1(); CutRootFooQuuxAt2QuuzAt1QuuuxAll();
  }

  // Data set 1: two counts.
  lemma DataSet1()
    ensures Compare(Column("", "$.foo.bar[]", Nodes([]), Count(2)),
                    Column("", "$foo.baz[*]", Nodes([]), Count(3)))
      == Failure(MismatchMessage("$.foo.bar[]", Some(2), "$foo.baz[*]", Some(3)))
  {
    assert Comparator.Compare(Count(2), Count(3))
      == Comparator.Mismatch(IteratorsComparison([None], Some(2), Some(3)));
    RebuildRootFooBarEach();
    RebuildDollarFooBazAll();
  }

  // Data set 2: a count against a list of counts.
  lemma DataSet2()
    ensures Compare(Column("", "$.foo.bar[]", Nodes([]), Count(2)),
                    Column("", "$foo.baz[*].qux[*]", Nodes([]), Axes([Count(3), Count(4), Count(5)])))
      == Failure(MismatchMessage("$.foo.bar[]", Some(2), "$foo.baz[*]", Some(3)))
  {
    assert Comparator.Compare(Count(2), Axes([Count(3), Count(4), Count(5)]))
      == Comparator.Mismatch(IteratorsComparison([None], Some(2), Some(3)));
    RebuildRootFooBarEach();
    RebuildDollarFooBazAllQuxAll();
  }

  // Data set 3: a list of counts against a count.
  lemma DataSet3()
    ensures Compare(Column("", "$.foo.bar[].baz[*]", Nodes([]), Axes([Count(2), Count(3)])),
                    Column("", "$.foo.qux[]", Nodes([]), Count(3)))
      == Failure(MismatchMessage("$.foo.bar[]", Some(2), "$.foo.qux[]", Some(3)))
  {
    assert Comparator.Compare(Axes([Count(2), Count(3)]), Count(3))
      == Comparator.Mismatch(IteratorsComparison([None], Some(2), Some(3)));
    RebuildRootFooBarEachBazAll();
    RebuildRootFooQuxEach();
  }

  // Data set 4: shapes of different depth diverge inside the first element.
  lemma DataSet4()
    ensures Compare(Column("", "$.foo.bar[].baz[*]", Nodes([]), Axes([Count(3)])),
                    Column("", "$.foo.qux[].quux[*]", Nodes([]), Axes([Axes([Count(2), Count(3)])])))
      == Failure(MismatchMessage("$.foo.bar[0].baz[*]", Some(3), "$.foo.qux[0].quux[*]", Some(2)))
  {
    var rec := IteratorsComparison([Some(0), None], Some(3), Some(2));
    assert Comparator.CompareIterators(Count(3), Axes([Count(2), Count(3)]), [Some(0), None])
      == Comparator.Mismatch(rec);
    assert Comparator.Compare(Axes([Count(3)]), Axes([Axes([Count(2), Count(3)])]))
      == Comparator.Mismatch(rec);
    RebuildRootFooBarEachBazAllAt0();
    RebuildRootFooQuxEachQuuxAllAt0();
  }

  // Data set 5: equal first elements, the second element differs.
  lemma DataSet5()
    ensures Compare(Column("", "$.foo.bar[].baz[*]", Nodes([]), Axes([Count(2), Count(3)])),
                    Column("", "$.foo.qux[].quux[*]", Nodes([]), Axes([Count(2), Count(4)])))
      == Failure(MismatchMessage("$.foo.bar[1].baz[*]", Some(3), "$.foo.qux[1].quux[*]", Some(4)))
  {
    var rec := IteratorsComparison([Some(1), None], Some(3), Some(4));
    assert Comparator.CompareIterators(Count(2), Count(2), [Some(0), None]) == Comparator.Verdict(false);
    assert Comparator.CompareIterators(Count(3), Count(4), [Some(1), None]) == Comparator.Mismatch(rec);
    assert Comparator.Compare(Axes([Count(2), Count(3)]), Axes([Count(2), Count(4)]))
      == Comparator.Mismatch(rec);
    RebuildRootFooBarEachBazAllAt1();
    RebuildRootFooQuxEachQuuxAllAt1();
  }

  // Data set 6: the third element's second count differs; the empty middle
  // element compares equal.
  lemma DataSet6()
    ensures Compare(Column("", "$.foo.bar[].baz[].qux[]", Nodes([]),
                           Axes([Axes([Count(1), Count(2)]), Axes([]), Axes([Count(2), Count(10)])])),
                    Column("", "$.foo.quux[*].quuz[*].quuux[*]", Nodes([]),
                           Axes([Axes([Count(1), Count(2)]), Axes([]), Axes([Count(2), Count(11)])])))
      == Failure(MismatchMessage("$.foo.bar[2].baz[1].qux[]", Some(10), "$.foo.quux[2].quuz[1].quuux[*]", Some(11)))
  {
    var rec := IteratorsComparison([Some(2), Some(1), None], Some(10), Some(11));
    var a := Axes([Axes([Count(1), Count(2)]), Axes([]), Axes([Count(2), Count(10)])]);
    var b := Axes([Axes([Count(1), Count(2)]), Axes([]), Axes([Count(2), Count(11)])]);
    assert Comparator.CompareIterators(a.items[0], b.items[0], [Some(0), None]) == Comparator.Verdict(false) by {
      assert Comparator.CompareIterators(Count(1), Count(1), [Some(0), Some(0), None]) == Comparator.Verdict(false);
      assert Comparator.CompareIterators(Count(2), Count(2), [Some(0), Some(1), None]) == Comparator.Verdict(false);
    }
    assert Comparator.CompareIterators(a.items[1], b.items[1], [Some(1), None]) == Comparator.Verdict(false);
    assert Comparator.CompareIterators(a.items[2], b.items[2], [Some(2), None]) == Comparator.Mismatch(rec) by {
      assert Comparator.CompareIterators(Count(2), Count(2), [Some(2), Some(0), None]) == Comparator.Verdict(false);
      assert Comparator.CompareIterators(Count(10), Count(11), [Some(2), Some(1), None]) == Comparator.Mismatch(rec);
    }
    assert Comparator.Compare(a, b) == Comparator.Mismatch(rec);
    RebuildRootFooBarEachBazEachQuxEachAt2At1();
    RebuildRootFooQuuxAllQuuzAllQuuuxAllAt2At1();
  }
}
