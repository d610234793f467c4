/** The JSON parser's unit test: the test's mapping over the test's
    document resolves to the five columns below, the currency column is
    their template, and `parse` gives the test's dataset and individual
    values. */
module JsonExamples {
  import opened Wrappers
  import opened Values
  import opened Structures
  import opened Shapes
  import opened Columns
  import opened Template
  import opened Resolver
  import opened JsonParser
  import opened JsonDocument

  function Col(name: string, path: string, s: Structure): Column {
    Column(name, path, s, ShapeOf(s))
  }

  const NameCol := Col("name", NamePath, Leaf(Str("chocolate")))
  const PriceCol := Col("price", PricePath, Nodes([Leaf(Int(10)), Leaf(Null), Leaf(Int(14))]))
  const CurrencyCol := Col("currency", CurrencyPath, Nodes([
    Nodes([Leaf(Str("EUR")), Leaf(Str("USD")), Leaf(Str("AUD"))]),
    Nodes([Leaf(Str("EUR")), Leaf(Str("USD")), Leaf(Str("AUD"))]),
    Nodes([Leaf(Str("EUR")), Leaf(Str("AUD"))])]))
  const DateCol := Col("date", DatePath,
    Nodes([Leaf(Str("2000-01-01")), Leaf(Str("2010-01-01")), Leaf(Str("2011-01-01"))]))
  const SalesCol := Col("sales", SalesPath, Nodes([
    Nodes([Leaf(Int(10)), Leaf(Int(30)), Leaf(Int(30))]),
    Nodes([Leaf(Int(50)), Leaf(Int(20)), Leaf(Int(100))]),
    Nodes([Leaf(Int(45)), Leaf(Int(60))])]))

  const NameRows := [Str("chocolate"), Str("chocolate"), Str("chocolate"), Str("chocolate"),
                     Str("chocolate"), Str("chocolate"), Str("chocolate"), Str("chocolate")]
  const PriceRows := [Int(10), Int(10), Int(10), Null, Null, Null, Int(14), Int(14)]
  const CurrencyRows := [Str("EUR"), Str("USD"), Str("AUD"), Str("EUR"), Str("USD"), Str("AUD"), Str("EUR"), Str("AUD")]
  const DateRows := [Str("2000-01-01"), Str("2000-01-01"), Str("2000-01-01"), Str("2010-01-01"),
                     Str("2010-01-01"), Str("2010-01-01"), Str("2011-01-01"), Str("2011-01-01")]
  const SalesRows := [Int(10), Int(30), Int(30), Int(50), Int(20), Int(100), Int(45), Int(60)]

  const Cols := [NameCol, PriceCol, CurrencyCol, DateCol, SalesCol]

  /** The test's mapping, in its order. */
  const TestMapping: Mapping := [("name", NamePath), ("price", PricePath), ("currency", CurrencyPath),
                                 ("date", DatePath), ("sales", SalesPath)]
  const Layout := Axes([Count(3), Count(3), Count(2)])

  lemma NameShape() ensures NameCol.iterators == NoAxis {}
  lemma PriceShape() ensures PriceCol.iterators == Count(3) {}
  lemma DateShape() ensures DateCol.iterators == Count(3) {}
  lemma CurrencyShape() ensures CurrencyCol.iterators == Layout {}
  lemma SalesShape() ensures SalesCol.iterators == Layout {}

  lemma PriceOverName() ensures Compare(PriceCol, NameCol) == Success(true) { PriceShape(); NameShape(); }
  lemma CurrencyOverPrice() ensures Compare(CurrencyCol, PriceCol) == Success(true) { CurrencyShape(); PriceShape(); }
  lemma DateUnderCurrency() ensures Compare(DateCol, CurrencyCol) == Success(false) { DateShape(); CurrencyShape(); }
  lemma SalesUnderCurrency() ensures Compare(SalesCol, CurrencyCol) == Success(false) { SalesShape(); CurrencyShape(); }

  lemma FromSales() ensures CurrencyCol in Cols[..4] && (!CurrencyCol.iterators.NoAxis?) &&
    DeepestFrom(Cols, 4, Some(CurrencyCol)) == Success(Some(CurrencyCol))
  {
    SalesShape();
    SalesUnderCurrency();
    assert Cols[4] == SalesCol && Cols[..5][2] == CurrencyCol;
    assert DeepestFrom(Cols, 5, Some(CurrencyCol)) == Success(Some(CurrencyCol));
  }

  lemma FromDate() ensures CurrencyCol in Cols[..3] && (!CurrencyCol.iterators.NoAxis?) &&
    DeepestFrom(Cols, 3, Some(CurrencyCol)) == Success(Some(CurrencyCol))
  {
    DateShape();
    DateUnderCurrency();
    assert Cols[3] == DateCol && Cols[..4][2] == CurrencyCol;
    FromSales();
  }

  lemma FromCurrency() ensures PriceCol in Cols[..2] && (!PriceCol.iterators.NoAxis?) &&
    DeepestFrom(Cols, 2, Some(PriceCol)) == Success(Some(CurrencyCol))
  {
    CurrencyShape();
    CurrencyOverPrice();
    assert Cols[2] == CurrencyCol && Cols[..3][2] == CurrencyCol && Cols[..2][1] == PriceCol;
    FromDate();
  }

  lemma FromPrice() ensures NameCol in Cols[..1] && (Cols[0] == NameCol) &&
    DeepestFrom(Cols, 1, Some(NameCol)) == Success(Some(CurrencyCol))
  {
    PriceShape();
    PriceOverName();
    assert Cols[1] == PriceCol && Cols[..2][1] == PriceCol && Cols[..1][0] == NameCol;
    FromCurrency();
  }

  lemma DeepestOfCols()
    ensures Deepest(Cols) == Success(Some(CurrencyCol))
  {
    NameShape();
    assert Cols[0] == NameCol && Cols[..1][0] == NameCol;
    FromPrice();
  }

  // Shape-generic facts the literal tests below reduce to.

  lemma ThreeLeaves(x: Value, y: Value, z: Value)
    ensures LeavesOf([Leaf(x), Leaf(y), Leaf(z)]) == [x, y, z]
  {
    var i0, i1 := [Leaf(x), Leaf(y), Leaf(z)], [Leaf(y), Leaf(z)];
    assert i0[1..] == i1;
    TwoLeaves(y, z);
    assert LeavesOf(i0) == [x] + LeavesOf(i1);
  }

  lemma TwoLeaves(x: Value, y: Value)
    ensures LeavesOf([Leaf(x), Leaf(y)]) == [x, y]
  {
    var i0, i1 := [Leaf(x), Leaf(y)], [Leaf(y)];
    assert i0[1..] == i1 && i1[1..] == [];
    assert LeavesOf(i1) == [y] + LeavesOf([]);
    assert LeavesOf(i0) == [x] + LeavesOf(i1);
  }

  lemma CountThree(x: Value, y: Value, z: Value, prev: Value)
    ensures Broadcast.Broadcast(Some(Nodes([Leaf(x), Leaf(y), Leaf(z)])), Count(3), prev) == [x, y, z]
  {
  }

  lemma CountTwo(x: Value, y: Value, prev: Value)
    ensures Broadcast.Broadcast(Some(Nodes([Leaf(x), Leaf(y)])), Count(2), prev) == [x, y]
  {
  }

  /** Lists of three, three and two leaves along the test's layout. */
  lemma ListsAlongLayout(a1: Value, a2: Value, a3: Value, b1: Value, b2: Value, b3: Value,
                         c1: Value, c2: Value, prev: Value, ts: seq<Shape>)
    requires ts == [Count(3), Count(3), Count(2)]
    ensures Broadcast.BroadcastAxes(Some(Nodes([Nodes([Leaf(a1), Leaf(a2), Leaf(a3)]),
                                                Nodes([Leaf(b1), Leaf(b2), Leaf(b3)]),
                                                Nodes([Leaf(c1), Leaf(c2)])])), ts, 0, prev)
      == [a1, a2, a3, b1, b2, b3, c1, c2]
  {
    var items := [Nodes([Leaf(a1), Leaf(a2), Leaf(a3)]), Nodes([Leaf(b1), Leaf(b2), Leaf(b3)]), Nodes([Leaf(c1), Leaf(c2)])];
    NodesStep(items, ts, 0, prev);
    NodesStep(items, ts, 1, prev);
    NodesStep(items, ts, 2, prev);
    assert Broadcast.BroadcastAxes(Some(Nodes(items)), ts, 3, prev) == [];
    CountThree(a1, a2, a3, prev);
    CountThree(b1, b2, b3, prev);
    CountTwo(c1, c2, prev);
    JoinThreeThreeTwo(a1, a2, a3, b1, b2, b3, c1, c2);
  }

  lemma JoinThreeThreeTwo(a1: Value, a2: Value, a3: Value, b1: Value, b2: Value, b3: Value, c1: Value, c2: Value)
    ensures [a1, a2, a3] + ([b1, b2, b3] + ([c1, c2] + [])) == [a1, a2, a3, b1, b2, b3, c1, c2]
  {
  }

  /** One list element of a list column along the matching template element. */
  lemma NodesStep(items: seq<Structure>, ts: seq<Shape>, k: nat, prev: Value)
    requires k < |ts| && k < |items| && items[k].Nodes?
    ensures Broadcast.BroadcastAxes(Some(Nodes(items)), ts, k, prev)
      == Broadcast.Broadcast(Some(items[k]), ts[k], prev) + Broadcast.BroadcastAxes(Some(Nodes(items)), ts, k + 1, prev)
  {
  }

  /** The leaves of lists of three, three and two leaves, in order. */
  lemma ListsLeaves(a1: Value, a2: Value, a3: Value, b1: Value, b2: Value, b3: Value, c1: Value, c2: Value)
    ensures Leaves(Nodes([Nodes([Leaf(a1), Leaf(a2), Leaf(a3)]),
                          Nodes([Leaf(b1), Leaf(b2), Leaf(b3)]),
                          Nodes([Leaf(c1), Leaf(c2)])])) == [a1, a2, a3, b1, b2, b3, c1, c2]
  {
    var a, b, c := [Leaf(a1), Leaf(a2), Leaf(a3)], [Leaf(b1), Leaf(b2), Leaf(b3)], [Leaf(c1), Leaf(c2)];
    var i0, i1, i2 := [Nodes(a), Nodes(b), Nodes(c)], [Nodes(b), Nodes(c)], [Nodes(c)];
    assert i0[1..] == i1 && i1[1..] == i2 && i2[1..] == [];
    ThreeLeaves(a1, a2, a3);
    ThreeLeaves(b1, b2, b3);
    TwoLeaves(c1, c2);
    assert LeavesOf(i2) == [c1, c2] + [];
    assert LeavesOf(i1) == [b1, b2, b3] + ([c1, c2] + []);
    assert LeavesOf(i0) == [a1, a2, a3] + ([b1, b2, b3] + ([c1, c2] + []));
    JoinThreeThreeTwo(a1, a2, a3, b1, b2, b3, c1, c2);
  }

  /** Three leaves along the test's layout: each fills its element's rows. */
  lemma LeavesAlongLayout(x: Value, y: Value, z: Value, prev: Value, ts: seq<Shape>)
    requires ts == [Count(3), Count(3), Count(2)]
    ensures Broadcast.BroadcastAxes(Some(Nodes([Leaf(x), Leaf(y), Leaf(z)])), ts, 0, prev) == [x, x, x, y, y, y, z, z]
  {
    var items := [Leaf(x), Leaf(y), Leaf(z)];
    assert AllLeaves(items);
    Broadcast.LeafListAlongAxes(items, ts, 0, prev);
    RepeatThree(x);
    RepeatThree(y);
    RepeatTwo(z);
    assert Broadcast.Spread(items, ts, 3) == [];
    assert Broadcast.Spread(items, ts, 2) == [z, z] + [];
    assert Broadcast.Spread(items, ts, 1) == [y, y, y] + ([z, z] + []);
    assert Broadcast.Spread(items, ts, 0) == [x, x, x] + ([y, y, y] + ([z, z] + []));
    JoinThreeThreeTwo(x, x, x, y, y, y, z, z);
  }

  lemma RepeatThree(v: Value) ensures Broadcast.Repeat(v, 3) == [v, v, v] {}
  lemma RepeatTwo(v: Value) ensures Broadcast.Repeat(v, 2) == [v, v] {}

  lemma RepeatEight(v: Value)
    ensures Broadcast.Repeat(v, 8) == [v, v, v, v, v, v, v, v]
  {
  }

  // The test's columns.

  lemma NameAlongLayout()
    ensures Broadcast.Broadcast(Some(NameCol.structure), Layout, Null)
      == NameRows
  {
    Broadcast.ReplayLeaf(Str("chocolate"), Layout, Null);
    assert Rows(Layout) == 8;
    RepeatEight(Str("chocolate"));
  }

  /** Each price is repeated along its currencies; the missing price is
      `null` on its rows. */
  lemma PriceAlongLayout()
    ensures Broadcast.Broadcast(Some(PriceCol.structure), Layout, Null)
      == PriceRows
  {
    LeavesAlongLayout(Int(10), Null, Int(14), Null, Layout.items);
  }

  lemma DateAlongLayout()
    ensures Broadcast.Broadcast(Some(DateCol.structure), Layout, Null)
      == DateRows
  {
    LeavesAlongLayout(Str("2000-01-01"), Str("2010-01-01"), Str("2011-01-01"), Null, Layout.items);
  }

  /** The template column comes out as its own leaves. */
  lemma CurrencyAlongLayout()
    ensures Broadcast.Broadcast(Some(CurrencyCol.structure), Layout, Null)
      == CurrencyRows
  {
    ListsAlongLayout(Str("EUR"), Str("USD"), Str("AUD"), Str("EUR"), Str("USD"), Str("AUD"), Str("EUR"), Str("AUD"), Null, Layout.items);
  }

  /** The sales column, of the template's shape, comes out as its leaves. */
  lemma SalesAlongLayout()
    ensures Broadcast.Broadcast(Some(SalesCol.structure), Layout, Null)
      == SalesRows
  {
    ListsAlongLayout(Int(10), Int(30), Int(30), Int(50), Int(20), Int(100), Int(45), Int(60), Null, Layout.items);
  }

  /** Each column of the dataset is laid out along the currency column. */
  lemma DatasetEntry(i: nat)
    requires i < |Cols|
    ensures ConvertToDataset(Cols, Some(CurrencyCol))[i]
      == (Cols[i].name, Broadcast.Broadcast(Some(Cols[i].structure), Layout, Null))
  {
    assert CurrencyCol.iterators == Layout;
  }

  lemma DatasetName() ensures ConvertToDataset(Cols, Some(CurrencyCol))[0] == (NameCol.name, NameRows)
  {
    DatasetEntry(0);
    assert Cols[0] == NameCol;
    NameAlongLayout();
  }

  lemma DatasetPrice() ensures ConvertToDataset(Cols, Some(CurrencyCol))[1] == (PriceCol.name, PriceRows)
  {
    DatasetEntry(1);
    assert Cols[1] == PriceCol;
    PriceAlongLayout();
  }

  lemma DatasetCurrency() ensures ConvertToDataset(Cols, Some(CurrencyCol))[2] == (CurrencyCol.name, CurrencyRows)
  {
    DatasetEntry(2);
    assert Cols[2] == CurrencyCol;
    CurrencyAlongLayout();
  }

  lemma DatasetDate() ensures ConvertToDataset(Cols, Some(CurrencyCol))[3] == (DateCol.name, DateRows)
  {
    DatasetEntry(3);
    assert Cols[3] == DateCol;
    DateAlongLayout();
  }

  lemma DatasetSales() ensures ConvertToDataset(Cols, Some(CurrencyCol))[4] == (SalesCol.name, SalesRows)
  {
    DatasetEntry(4);
    assert Cols[4] == SalesCol;
    SalesAlongLayout();
  }

  lemma CurrencyLeaves()
    ensures Leaves(CurrencyCol.structure) == CurrencyRows
  {
    ListsLeaves(Str("EUR"), Str("USD"), Str("AUD"), Str("EUR"), Str("USD"), Str("AUD"), Str("EUR"), Str("AUD"));
  }

  lemma SalesLeaves()
    ensures Leaves(SalesCol.structure) == SalesRows
  {
    ListsLeaves(Int(10), Int(30), Int(30), Int(50), Int(20), Int(100), Int(45), Int(60));
  }

  // From the mapping and the document to the columns.

  /** A mapping entry whose path resolves to `s` gives the column of `s`. */
  lemma ColumnOf(name: string, path: string, doc: Value, s: Structure)
    requires Resolve(StripRoot(path), doc) == s
    ensures MakeColumn(name, path, doc) == Col(name, path, s)
  {
  }

  lemma SameColumns(m: Mapping, doc: Value, cols: seq<Column>)
    requires |m| == |cols|
    requires forall i :: 0 <= i < |m| ==> MakeColumn(m[i].0, m[i].1, doc) == cols[i]
    ensures MakeColumns(m, doc) == cols
  {
  }

  lemma NameColumn()
    ensures MakeColumn("name", NamePath, Doc) == NameCol
  {
    NameResolves();
    ColumnOf("name", NamePath, Doc, NameCol.structure);
  }

  lemma PriceColumn()
    ensures MakeColumn("price", PricePath, Doc) == PriceCol
  {
    PriceResolves();
    ColumnOf("price", PricePath, Doc, PriceCol.structure);
  }

  lemma CurrencyColumn()
    ensures MakeColumn("currency", CurrencyPath, Doc) == CurrencyCol
  {
    CurrencyResolves();
    ColumnOf("currency", CurrencyPath, Doc, CurrencyCol.structure);
  }

  lemma DateColumn()
    ensures MakeColumn("date", DatePath, Doc) == DateCol
  {
    DateResolves();
    ColumnOf("date", DatePath, Doc, DateCol.structure);
  }

  lemma SalesColumn()
    ensures MakeColumn("sales", SalesPath, Doc) == SalesCol
  {
    SalesResolves();
    ColumnOf("sales", SalesPath, Doc, SalesCol.structure);
  }

  lemma Entries()
    ensures TestMapping[0] == ("name", NamePath) && TestMapping[1] == ("price", PricePath)
    ensures TestMapping[2] == ("currency", CurrencyPath) && TestMapping[3] == ("date", DatePath)
    ensures TestMapping[4] == ("sales", SalesPath)
    ensures Cols[0] == NameCol && Cols[1] == PriceCol && Cols[2] == CurrencyCol && Cols[3] == DateCol && Cols[4] == SalesCol
  {
  }

  /** The column of one entry of the test's mapping. */
  lemma TestColumn(i: nat)
    requires i < 5
    ensures MakeColumn(TestMapping[i].0, TestMapping[i].1, Doc) == Cols[i]
  {
    Entries();
    if i == 0 {
      NameColumn();
    } else if i == 1 {
      PriceColumn();
    } else if i == 2 {
      CurrencyColumn();
    } else if i == 3 {
      DateColumn();
    } else {
      SalesColumn();
    }
  }

  /** The test's mapping over the test's document gives exactly the five
      columns above. */
  lemma TestColumns()
    ensures MakeColumns(TestMapping, Doc) == Cols
  {
    forall i | 0 <= i < |TestMapping|
      ensures MakeColumn(TestMapping[i].0, TestMapping[i].1, Doc) == Cols[i]
    {
      TestColumn(i);
    }
    SameColumns(TestMapping, Doc, Cols);
  }

  /** `parse` in dataset mode once the columns and their template are known. */
  lemma DatasetOf(mapping: Mapping, doc: Value, cols: seq<Column>, template: Column)
    requires MakeColumns(mapping, doc) == cols && Deepest(cols) == Success(Some(template))
    ensures ParseDataset(mapping, Some(doc)) == Success(ConvertToDataset(cols, Some(template)))
  {
  }

  /** `parse` in individual mode once the columns are known. */
  lemma IndividualOf(mapping: Mapping, doc: Value, cols: seq<Column>)
    requires MakeColumns(mapping, doc) == cols
    ensures var r := ParseIndividual(mapping, Some(doc));
      && r.Success? && |r.value| == |cols|
      && forall i :: 0 <= i < |cols| ==> r.value[i] == (cols[i].name, Individual.IndividualValues(cols[i].structure))
  {
  }

  // The test.

  /** The currency column, resolved from the document, is the template: it
      is the first column deeper than the price column, and the sales
      column, of the same shape, does not displace it. */
  lemma TestTemplate()
    ensures Deepest(MakeColumns(TestMapping, Doc)) == Success(Some(CurrencyCol))
    ensures CurrencyCol == MakeColumn("currency", CurrencyPath, Doc)
  {
    TestColumns();
    DeepestOfCols();
    CurrencyColumn();
  }

  lemma ParsedDataset()
    ensures ParseDataset(TestMapping, Some(Doc)) == Success(ConvertToDataset(Cols, Some(CurrencyCol)))
  {
    TestColumns();
    DeepestOfCols();
    DatasetOf(TestMapping, Doc, Cols, CurrencyCol);
  }

  /** Dataset mode: the name is repeated on all eight rows, ... */
  lemma TestName()
    ensures ParseDataset(TestMapping, Some(Doc)).Success?
    ensures ParseDataset(TestMapping, Some(Doc)).value[0] == ("name", NameRows)
  {
    ParsedDataset();
    DatasetName();
  }

  /** ... each price along its currencies, the missing one as `null`, ... */
  lemma TestPrice()
    ensures ParseDataset(TestMapping, Some(Doc)).Success?
    ensures ParseDataset(TestMapping, Some(Doc)).value[1] == ("price", PriceRows)
  {
    ParsedDataset();
    DatasetPrice();
  }

  /** ... the template's currencies in document order, ... */
  lemma TestCurrency()
    ensures ParseDataset(TestMapping, Some(Doc)).Success?
    ensures ParseDataset(TestMapping, Some(Doc)).value[2] == ("currency", CurrencyRows)
  {
    ParsedDataset();
    DatasetCurrency();
  }

  /** ... each date along its currencies, ... */
  lemma TestDate()
    ensures ParseDataset(TestMapping, Some(Doc)).Success?
    ensures ParseDataset(TestMapping, Some(Doc)).value[3] == ("date", DateRows)
  {
    ParsedDataset();
    DatasetDate();
  }

  /** ... and the sales, of the template's shape, as their own leaves. */
  lemma TestSales()
    ensures ParseDataset(TestMapping, Some(Doc)).Success?
    ensures ParseDataset(TestMapping, Some(Doc)).value[4] == ("sales", SalesRows)
  {
    ParsedDataset();
    DatasetSales();
  }

  lemma FivePairs<T>(s: seq<(string, T)>, a: (string, T), b: (string, T), c: (string, T), d: (string, T), e: (string, T))
    requires |s| == 5 && s[0] == a && s[1] == b && s[2] == c && s[3] == d && s[4] == e
    ensures s == [a, b, c, d, e]
  {
  }

  /** The whole dataset the test expects. */
  lemma TestDataset()
    ensures ParseDataset(TestMapping, Some(Doc))
      == Success([("name", NameRows), ("price", PriceRows), ("currency", CurrencyRows), ("date", DateRows), ("sales", SalesRows)])
  {
    TestName();
    TestPrice();
    TestCurrency();
    TestDate();
    TestSales();
    var r := ParseDataset(TestMapping, Some(Doc)).value;
    FivePairs(r, ("name", NameRows), ("price", PriceRows), ("currency", CurrencyRows), ("date", DateRows), ("sales", SalesRows));
  }

  lemma ParsedIndividual(k: nat)
    requires k < 5
    ensures ParseIndividual(TestMapping, Some(Doc)).Success?
    ensures |ParseIndividual(TestMapping, Some(Doc)).value| == 5
    ensures ParseIndividual(TestMapping, Some(Doc)).value[k] == (Cols[k].name, Individual.IndividualValues(Cols[k].structure))
  {
    TestColumns();
    IndividualOf(TestMapping, Doc, Cols);
  }

  lemma PriceValues()
    ensures Individual.IndividualValues(Cols[1].structure) == Seq([Int(10), Null, Int(14)])
  {
    Individual.IndividualIsLeaves(PriceCol.structure);
    ThreeLeaves(Int(10), Null, Int(14));
  }

  lemma CurrencyValues()
    ensures Individual.IndividualValues(Cols[2].structure) == Seq(CurrencyRows)
  {
    Individual.IndividualIsLeaves(CurrencyCol.structure);
    CurrencyLeaves();
  }

  lemma DateValues()
    ensures Individual.IndividualValues(Cols[3].structure) == Seq([Str("2000-01-01"), Str("2010-01-01"), Str("2011-01-01")])
  {
    Individual.IndividualIsLeaves(DateCol.structure);
    ThreeLeaves(Str("2000-01-01"), Str("2010-01-01"), Str("2011-01-01"));
  }

  lemma SalesValues()
    ensures Individual.IndividualValues(Cols[4].structure) == Seq(SalesRows)
  {
    Individual.IndividualIsLeaves(SalesCol.structure);
    SalesLeaves();
  }

  /** Individual mode: the bare name, ... */
  lemma TestIndividualName()
    ensures ParseIndividual(TestMapping, Some(Doc)).Success?
    ensures ParseIndividual(TestMapping, Some(Doc)).value[0] == ("name", Str("chocolate"))
  {
    ParsedIndividual(0);
    assert Cols[0] == NameCol;
  }

  /** ... the three prices, one of them `null`, ... */
  lemma TestIndividualPrice()
    ensures ParseIndividual(TestMapping, Some(Doc)).Success?
    ensures ParseIndividual(TestMapping, Some(Doc)).value[1] == ("price", Seq([Int(10), Null, Int(14)]))
  {
    ParsedIndividual(1);
    PriceValues();
  }

  /** ... the currencies flattened into one list, ... */
  lemma TestIndividualCurrency()
    ensures ParseIndividual(TestMapping, Some(Doc)).Success?
    ensures ParseIndividual(TestMapping, Some(Doc)).value[2] == ("currency", Seq(CurrencyRows))
  {
    ParsedIndividual(2);
    CurrencyValues();
  }

  /** ... the three dates, ... */
  lemma TestIndividualDate()
    ensures ParseIndividual(TestMapping, Some(Doc)).Success?
    ensures ParseIndividual(TestMapping, Some(Doc)).value[3] == ("date", Seq([Str("2000-01-01"), Str("2010-01-01"), Str("2011-01-01")]))
  {
    ParsedIndividual(3);
    DateValues();
  }

  /** ... and the sales flattened into one list. */
  lemma TestIndividualSales()
    ensures ParseIndividual(TestMapping, Some(Doc)).Success?
    ensures ParseIndividual(TestMapping, Some(Doc)).value[4] == ("sales", Seq(SalesRows))
  {
    ParsedIndividual(4);
    SalesValues();
  }

  /** The whole set of individual values the test expects. */
  lemma TestIndividual()
    ensures ParseIndividual(TestMapping, Some(Doc))
      == Success([("name", Str("chocolate")), ("price", Seq([Int(10), Null, Int(14)])), ("currency", Seq(CurrencyRows)),
                  ("date", Seq([Str("2000-01-01"), Str("2010-01-01"), Str("2011-01-01")])), ("sales", Seq(SalesRows))])
  {
    TestIndividualName();
    TestIndividualPrice();
    TestIndividualCurrency();
    TestIndividualDate();
    TestIndividualSales();
    var r := ParseIndividual(TestMapping, Some(Doc)).value;
    FivePairs(r, ("name", Str("chocolate")), ("price", Seq([Int(10), Null, Int(14)])), ("currency", Seq(CurrencyRows)),
              ("date", Seq([Str("2000-01-01"), Str("2010-01-01"), Str("2011-01-01")])), ("sales", Seq(SalesRows)));
  }
}
