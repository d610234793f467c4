/** The document and mapping of data set 1 in tests/Unit/Json/ParserTest.php,
    and the structure path resolution builds for each mapped path. */
module JsonDocument {
  import opened Text
  import opened Values
  import opened Structures
  import opened Resolver

  const Product := Map(map["name" := Str("chocolate")])
  const Price1 := Map(map["price" := Int(10), "currencies" := Seq([Str("EUR"), Str("USD"), Str("AUD")])])
  const Price2 := Map(map["currencies" := Seq([Str("EUR"), Str("USD"), Str("AUD")])])
  const Price3 := Map(map["price" := Int(14), "currencies" := Seq([Str("EUR"), Str("AUD")])])
  const Date1 := Map(map["date" := Str("2000-01-01"), "sales" := Seq([Int(10), Int(30), Int(30)])])
  const Date2 := Map(map["date" := Str("2010-01-01"), "sales" := Seq([Int(50), Int(20), Int(100)])])
  const Date3 := Map(map["date" := Str("2011-01-01"), "sales" := Seq([Int(45), Int(60)])])
  const Info := Map(map["dates" := Seq([Date1, Date2, Date3])])

  /** The decoded test document; the second price has no `price` key. */
  const Doc := Map(map["product" := Product, "prices" := Seq([Price1, Price2, Price3]), "info" := Info])

  const NamePath := "$.product.name"
  const PricePath := "$.prices[*].price"
  const CurrencyPath := "$.prices[*].currencies[*]"
  const DatePath := "$.info.dates[*].date"
  const SalesPath := "$.info.dates[*].sales[*]"

  // Path shapes the test's mapping uses.

  /** A key of the test's paths: a plain key without `$`. */
  predicate Simple(key: string) {
    PlainKey(key) && '$' !in key
  }

  /** Resolution starts after the root markers. */
  lemma Rooted(path: string, p: string, t: Value)
    requires path == "$." + p
    requires p != [] && p[0] != '$' && p[0] != '.' && p[|p| - 1] != '$' && p[|p| - 1] != '.'
    ensures Resolve(StripRoot(path), t) == Resolve(p, t)
  {
    StripRootPrefix(p);
  }

  /** A last field holding a value trimming leaves alone. */
  lemma FieldLeaf(key: string, t: Value, v: Value)
    requires PlainKey(key) && Lookup(t, key) == v && TrimValue(v) == v
    ensures Resolve(key, t) == Leaf(v)
  {
    ResolveFieldLast(key, t);
  }

  /** A string without surrounding whitespace is kept as it is. */
  lemma Kept(s: string)
    requires s != [] && s[0] !in Whitespace && s[|s| - 1] !in Whitespace
    ensures TrimValue(Str(s)) == Str(s)
  {
    TrimKeeps(s, Whitespace);
  }

  lemma ListOfThree(s: seq<Structure>, x: Structure, y: Structure, z: Structure)
    requires |s| == 3 && s[0] == x && s[1] == y && s[2] == z
    ensures s == [x, y, z]
  {
  }

  lemma ListOfTwo(s: seq<Structure>, x: Structure, y: Structure)
    requires |s| == 2 && s[0] == x && s[1] == y
    ensures s == [x, y]
  {
  }

  /** `name[*].rest` over a list of three. */
  lemma EachOfThree(name: string, rest: string, t: Value, a: Value, b: Value, c: Value, x: Structure, y: Structure, z: Structure)
    requires PlainKey(name) && PlainRest(rest) && Lookup(t, name) == Seq([a, b, c])
    requires Resolve(rest, a) == x && Resolve(rest, b) == y && Resolve(rest, c) == z
    ensures Resolve(name + "[*]" + "." + rest, t) == Nodes([x, y, z])
  {
    var r := Resolve(name + "[*]" + "." + rest, t);
    assert r.Nodes? && |r.items| == 3 && r.items[0] == x && r.items[1] == y && r.items[2] == z by {
      ResolveEach(name, rest, t);
      assert Elements(Lookup(t, name)) == [a, b, c];
    }
    ListOfThree(r.items, x, y, z);
  }

  /** A last `name[*]` over a list of three values. */
  lemma LastOfThree(name: string, t: Value, a: Value, b: Value, c: Value)
    requires PlainKey(name) && Lookup(t, name) == Seq([a, b, c])
    requires TrimValue(a) == a && TrimValue(b) == b && TrimValue(c) == c
    ensures Resolve(name + "[*]", t) == Nodes([Leaf(a), Leaf(b), Leaf(c)])
  {
    var r := Resolve(name + "[*]", t);
    assert r.Nodes? && |r.items| == 3 && r.items[0] == Leaf(a) && r.items[1] == Leaf(b) && r.items[2] == Leaf(c) by {
      ResolveEachLast(name, t);
      assert Elements(Lookup(t, name)) == [a, b, c];
    }
    ListOfThree(r.items, Leaf(a), Leaf(b), Leaf(c));
  }

  /** A last `name[*]` over a list of two values. */
  lemma LastOfTwo(name: string, t: Value, a: Value, b: Value)
    requires PlainKey(name) && Lookup(t, name) == Seq([a, b])
    requires TrimValue(a) == a && TrimValue(b) == b
    ensures Resolve(name + "[*]", t) == Nodes([Leaf(a), Leaf(b)])
  {
    var r := Resolve(name + "[*]", t);
    assert r.Nodes? && |r.items| == 2 && r.items[0] == Leaf(a) && r.items[1] == Leaf(b) by {
      ResolveEachLast(name, t);
      assert Elements(Lookup(t, name)) == [a, b];
    }
    ListOfTwo(r.items, Leaf(a), Leaf(b));
  }

  /** `k1.k2` to a value. */
  lemma FieldThenLeaf(path: string, k1: string, k2: string, t: Value, v: Value)
    requires path == "$." + (k1 + "." + k2) && Simple(k1) && Simple(k2)
    requires Lookup(Lookup(t, k1), k2) == v && TrimValue(v) == v
    ensures Resolve(StripRoot(path), t) == Leaf(v)
  {
    var p := k1 + "." + k2;
    assert Resolve(StripRoot(path), t) == Resolve(p, t) by {
      assert p[0] == k1[0] && p[|p| - 1] == k2[|k2| - 1];
      Rooted(path, p, t);
    }
    ResolveField(k1, k2, t);
    FieldLeaf(k2, Lookup(t, k1), v);
  }

  /** `k1[*].k2` over three elements, to one value each. */
  lemma EachThenLeaf(p: string, k1: string, k2: string, t: Value, a: Value, b: Value, c: Value, x: Value, y: Value, z: Value)
    requires p == k1 + "[*]" + "." + k2 && PlainKey(k1) && PlainKey(k2)
    requires Lookup(t, k1) == Seq([a, b, c])
    requires Lookup(a, k2) == x && Lookup(b, k2) == y && Lookup(c, k2) == z
    requires TrimValue(x) == x && TrimValue(y) == y && TrimValue(z) == z
    ensures Resolve(p, t) == Nodes([Leaf(x), Leaf(y), Leaf(z)])
  {
    FieldLeaf(k2, a, x);
    FieldLeaf(k2, b, y);
    FieldLeaf(k2, c, z);
    EachOfThree(k1, k2, t, a, b, c, Leaf(x), Leaf(y), Leaf(z));
  }

  /** `k1[*].k2[*]` over three elements holding three, three and two
      values. */
  lemma EachThenEach(p: string, k1: string, k2: string, t: Value, a: Value, b: Value, c: Value,
                     a1: Value, a2: Value, a3: Value, b1: Value, b2: Value, b3: Value, c1: Value, c2: Value)
    requires p == k1 + "[*]" + "." + (k2 + "[*]") && PlainKey(k1) && PlainKey(k2)
    requires Lookup(t, k1) == Seq([a, b, c])
    requires Lookup(a, k2) == Seq([a1, a2, a3]) && Lookup(b, k2) == Seq([b1, b2, b3]) && Lookup(c, k2) == Seq([c1, c2])
    requires TrimValue(a1) == a1 && TrimValue(a2) == a2 && TrimValue(a3) == a3
    requires TrimValue(b1) == b1 && TrimValue(b2) == b2 && TrimValue(b3) == b3
    requires TrimValue(c1) == c1 && TrimValue(c2) == c2
    ensures Resolve(p, t) == Nodes([Nodes([Leaf(a1), Leaf(a2), Leaf(a3)]),
                                   Nodes([Leaf(b1), Leaf(b2), Leaf(b3)]),
                                   Nodes([Leaf(c1), Leaf(c2)])])
  {
    LastOfThree(k2, a, a1, a2, a3);
    LastOfThree(k2, b, b1, b2, b3);
    LastOfTwo(k2, c, c1, c2);
    assert PlainRest(k2 + "[*]") by {
      assert (k2 + "[*]")[0] == k2[0];
    }
    EachOfThree(k1, k2 + "[*]", t, a, b, c, Nodes([Leaf(a1), Leaf(a2), Leaf(a3)]),
                Nodes([Leaf(b1), Leaf(b2), Leaf(b3)]), Nodes([Leaf(c1), Leaf(c2)]));
  }

  /** `$.k0.rest`: a field of the root, then the rest. */
  lemma RootField(path: string, k0: string, rest: string, t: Value)
    requires path == "$." + (k0 + "." + rest) && Simple(k0)
    requires rest != [] && rest[0] != '$' && rest[0] != '.' && !Falsy(rest)
    requires rest[|rest| - 1] != '$' && rest[|rest| - 1] != '.'
    ensures Resolve(StripRoot(path), t) == Resolve(rest, Lookup(t, k0))
  {
    var p := k0 + "." + rest;
    assert Resolve(StripRoot(path), t) == Resolve(p, t) by {
      assert p[0] == k0[0] && p[|p| - 1] == rest[|rest| - 1];
      Rooted(path, p, t);
    }
    ResolveField(k0, rest, t);
  }

  /** `$.k1[*].k2`. */
  lemma RootEachThenLeaf(path: string, k1: string, k2: string, t: Value, a: Value, b: Value, c: Value, x: Value, y: Value, z: Value)
    requires path == "$." + (k1 + "[*]" + "." + k2) && Simple(k1) && Simple(k2)
    requires Lookup(t, k1) == Seq([a, b, c])
    requires Lookup(a, k2) == x && Lookup(b, k2) == y && Lookup(c, k2) == z
    requires TrimValue(x) == x && TrimValue(y) == y && TrimValue(z) == z
    ensures Resolve(StripRoot(path), t) == Nodes([Leaf(x), Leaf(y), Leaf(z)])
  {
    var p := k1 + "[*]" + "." + k2;
    assert Resolve(StripRoot(path), t) == Resolve(p, t) by {
      assert p[0] == k1[0] && p[|p| - 1] == k2[|k2| - 1];
      Rooted(path, p, t);
    }
    EachThenLeaf(p, k1, k2, t, a, b, c, x, y, z);
  }

  /** `$.k0.k1[*].k2`. */
  lemma RootFieldEachThenLeaf(path: string, k0: string, k1: string, k2: string, t: Value, a: Value, b: Value, c: Value, x: Value, y: Value, z: Value)
    requires path == "$." + (k0 + "." + (k1 + "[*]" + "." + k2)) && Simple(k0) && Simple(k1) && Simple(k2)
    requires Lookup(Lookup(t, k0), k1) == Seq([a, b, c])
    requires Lookup(a, k2) == x && Lookup(b, k2) == y && Lookup(c, k2) == z
    requires TrimValue(x) == x && TrimValue(y) == y && TrimValue(z) == z
    ensures Resolve(StripRoot(path), t) == Nodes([Leaf(x), Leaf(y), Leaf(z)])
  {
    var q := k1 + "[*]" + "." + k2;
    assert q[0] == k1[0] && q[|q| - 1] == k2[|k2| - 1];
    RootField(path, k0, q, t);
    EachThenLeaf(q, k1, k2, Lookup(t, k0), a, b, c, x, y, z);
  }

  /** `$.k1[*].k2[*]`. */
  lemma RootEachThenEach(path: string, k1: string, k2: string, t: Value, a: Value, b: Value, c: Value,
                         a1: Value, a2: Value, a3: Value, b1: Value, b2: Value, b3: Value, c1: Value, c2: Value)
    requires path == "$." + (k1 + "[*]" + "." + (k2 + "[*]")) && Simple(k1) && Simple(k2)
    requires Lookup(t, k1) == Seq([a, b, c])
    requires Lookup(a, k2) == Seq([a1, a2, a3]) && Lookup(b, k2) == Seq([b1, b2, b3]) && Lookup(c, k2) == Seq([c1, c2])
    requires TrimValue(a1) == a1 && TrimValue(a2) == a2 && TrimValue(a3) == a3
    requires TrimValue(b1) == b1 && TrimValue(b2) == b2 && TrimValue(b3) == b3
    requires TrimValue(c1) == c1 && TrimValue(c2) == c2
    ensures Resolve(StripRoot(path), t) == Nodes([Nodes([Leaf(a1), Leaf(a2), Leaf(a3)]),
                                                  Nodes([Leaf(b1), Leaf(b2), Leaf(b3)]),
                                                  Nodes([Leaf(c1), Leaf(c2)])])
  {
    var p := k1 + "[*]" + "." + (k2 + "[*]");
    assert Resolve(StripRoot(path), t) == Resolve(p, t) by {
      assert p[0] == k1[0] && p[|p| - 1] == ']';
      Rooted(path, p, t);
    }
    EachThenEach(p, k1, k2, t, a, b, c, a1, a2, a3, b1, b2, b3, c1, c2);
  }

  /** `$.k0.k1[*].k2[*]`. */
  lemma RootFieldEachThenEach(path: string, k0: string, k1: string, k2: string, t: Value, a: Value, b: Value, c: Value,
                              a1: Value, a2: Value, a3: Value, b1: Value, b2: Value, b3: Value, c1: Value, c2: Value)
    requires path == "$." + (k0 + "." + (k1 + "[*]" + "." + (k2 + "[*]"))) && Simple(k0) && Simple(k1) && Simple(k2)
    requires Lookup(Lookup(t, k0), k1) == Seq([a, b, c])
    requires Lookup(a, k2) == Seq([a1, a2, a3]) && Lookup(b, k2) == Seq([b1, b2, b3]) && Lookup(c, k2) == Seq([c1, c2])
    requires TrimValue(a1) == a1 && TrimValue(a2) == a2 && TrimValue(a3) == a3
    requires TrimValue(b1) == b1 && TrimValue(b2) == b2 && TrimValue(b3) == b3
    requires TrimValue(c1) == c1 && TrimValue(c2) == c2
    ensures Resolve(StripRoot(path), t) == Nodes([Nodes([Leaf(a1), Leaf(a2), Leaf(a3)]),
                                                  Nodes([Leaf(b1), Leaf(b2), Leaf(b3)]),
                                                  Nodes([Leaf(c1), Leaf(c2)])])
  {
    var q := k1 + "[*]" + "." + (k2 + "[*]");
    assert q[0] == k1[0] && q[|q| - 1] == ']';
    RootField(path, k0, q, t);
    EachThenEach(q, k1, k2, Lookup(t, k0), a, b, c, a1, a2, a3, b1, b2, b3, c1, c2);
  }

  // Facts about the literals, stated one by one so that each column's
  // proof only instantiates a path shape.

  lemma ProductKeys() ensures Simple("product") && Simple("name") {}
  lemma PriceKeys() ensures Simple("prices") && Simple("price") && Simple("currencies") {}
  lemma InfoKeys() ensures Simple("info") && Simple("dates") && Simple("date") && Simple("sales") {}

  lemma NamePathParts() ensures NamePath == "$." + ("product" + "." + "name") {}
  lemma PricePathParts() ensures PricePath == "$." + ("prices" + "[*]" + "." + "price") {}
  lemma CurrencyPathParts() ensures CurrencyPath == "$." + ("prices" + "[*]" + "." + ("currencies" + "[*]")) {}
  lemma DatePathParts() ensures DatePath == "$." + ("info" + "." + ("dates" + "[*]" + "." + "date")) {}
  lemma SalesPathParts() ensures SalesPath == "$." + ("info" + "." + ("dates" + "[*]" + "." + ("sales" + "[*]"))) {}

  lemma ProductName() ensures Lookup(Lookup(Doc, "product"), "name") == Str("chocolate") {}
  lemma PricesList() ensures Lookup(Doc, "prices") == Seq([Price1, Price2, Price3]) {}
  lemma DatesList() ensures Lookup(Lookup(Doc, "info"), "dates") == Seq([Date1, Date2, Date3]) {}

  lemma Prices()
    ensures Lookup(Price1, "price") == Int(10) && Lookup(Price2, "price") == Null && Lookup(Price3, "price") == Int(14)
  {
  }

  lemma Currencies()
    ensures Lookup(Price1, "currencies") == Seq([Str("EUR"), Str("USD"), Str("AUD")])
    ensures Lookup(Price2, "currencies") == Seq([Str("EUR"), Str("USD"), Str("AUD")])
    ensures Lookup(Price3, "currencies") == Seq([Str("EUR"), Str("AUD")])
  {
  }

  lemma Dates()
    ensures Lookup(Date1, "date") == Str("2000-01-01") && Lookup(Date2, "date") == Str("2010-01-01")
    ensures Lookup(Date3, "date") == Str("2011-01-01")
  {
  }

  lemma Sales()
    ensures Lookup(Date1, "sales") == Seq([Int(10), Int(30), Int(30)])
    ensures Lookup(Date2, "sales") == Seq([Int(50), Int(20), Int(100)])
    ensures Lookup(Date3, "sales") == Seq([Int(45), Int(60)])
  {
  }

  // What each column's path shape needs of the document.

  lemma NameFacts()
    ensures NamePath == "$." + ("product" + "." + "name") && Simple("product") && Simple("name")
    ensures Lookup(Lookup(Doc, "product"), "name") == Str("chocolate") && TrimValue(Str("chocolate")) == Str("chocolate")
  {
    ProductKeys();
    NamePathParts();
    ProductName();
    Kept("chocolate");
  }

  lemma PriceFacts()
    ensures PricePath == "$." + ("prices" + "[*]" + "." + "price") && Simple("prices") && Simple("price")
    ensures Lookup(Doc, "prices") == Seq([Price1, Price2, Price3])
    ensures Lookup(Price1, "price") == Int(10) && Lookup(Price2, "price") == Null && Lookup(Price3, "price") == Int(14)
  {
    PriceKeys();
    PricePathParts();
    PricesList();
    Prices();
  }

  lemma CurrencyFacts()
    ensures CurrencyPath == "$." + ("prices" + "[*]" + "." + ("currencies" + "[*]")) && Simple("prices") && Simple("currencies")
    ensures Lookup(Doc, "prices") == Seq([Price1, Price2, Price3])
    ensures Lookup(Price1, "currencies") == Seq([Str("EUR"), Str("USD"), Str("AUD")])
    ensures Lookup(Price2, "currencies") == Seq([Str("EUR"), Str("USD"), Str("AUD")])
    ensures Lookup(Price3, "currencies") == Seq([Str("EUR"), Str("AUD")])
  {
    PriceKeys();
    CurrencyPathParts();
    PricesList();
    Currencies();
  }

  lemma CurrenciesKept()
    ensures TrimValue(Str("EUR")) == Str("EUR") && TrimValue(Str("USD")) == Str("USD") && TrimValue(Str("AUD")) == Str("AUD")
  {
    Kept("EUR");
    Kept("USD");
    Kept("AUD");
  }

  lemma DateFacts()
    ensures DatePath == "$." + ("info" + "." + ("dates" + "[*]" + "." + "date")) && Simple("info") && Simple("dates") && Simple("date")
    ensures Lookup(Lookup(Doc, "info"), "dates") == Seq([Date1, Date2, Date3])
    ensures Lookup(Date1, "date") == Str("2000-01-01") && Lookup(Date2, "date") == Str("2010-01-01")
    ensures Lookup(Date3, "date") == Str("2011-01-01")
    ensures TrimValue(Str("2000-01-01")) == Str("2000-01-01") && TrimValue(Str("2010-01-01")) == Str("2010-01-01")
    ensures TrimValue(Str("2011-01-01")) == Str("2011-01-01")
  {
    InfoKeys();
    DatePathParts();
    DatesList();
    Dates();
    Kept("2000-01-01");
    Kept("2010-01-01");
    Kept("2011-01-01");
  }

  lemma SalesFacts()
    ensures SalesPath == "$." + ("info" + "." + ("dates" + "[*]" + "." + ("sales" + "[*]"))) && Simple("info") && Simple("dates") && Simple("sales")
    ensures Lookup(Lookup(Doc, "info"), "dates") == Seq([Date1, Date2, Date3])
    ensures Lookup(Date1, "sales") == Seq([Int(10), Int(30), Int(30)])
    ensures Lookup(Date2, "sales") == Seq([Int(50), Int(20), Int(100)])
    ensures Lookup(Date3, "sales") == Seq([Int(45), Int(60)])
  {
    InfoKeys();
    SalesPathParts();
    DatesList();
    Sales();
  }

  // The five columns.

  /** `$.product.name` is the single, trimmed name. */
  lemma NameResolves()
    ensures Resolve(StripRoot(NamePath), Doc) == Leaf(Str("chocolate"))
  {
    NameFacts();
    FieldThenLeaf(NamePath, "product", "name", Doc, Str("chocolate"));
  }

  /** `$.prices[*].price` has one entry per price object; the second has no
      `price` key and gives `null`. */
  lemma PriceResolves()
    ensures Resolve(StripRoot(PricePath), Doc) == Nodes([Leaf(Int(10)), Leaf(Null), Leaf(Int(14))])
  {
    PriceFacts();
    RootEachThenLeaf(PricePath, "prices", "price", Doc, Price1, Price2, Price3, Int(10), Null, Int(14));
  }

  /** `$.prices[*].currencies[*]` is a list of lists of currencies. */
  lemma CurrencyResolves()
    ensures Resolve(StripRoot(CurrencyPath), Doc) == Nodes([
      Nodes([Leaf(Str("EUR")), Leaf(Str("USD")), Leaf(Str("AUD"))]),
      Nodes([Leaf(Str("EUR")), Leaf(Str("USD")), Leaf(Str("AUD"))]),
      Nodes([Leaf(Str("EUR")), Leaf(Str("AUD"))])])
  {
    CurrencyFacts();
    CurrenciesKept();
    RootEachThenEach(CurrencyPath, "prices", "currencies", Doc, Price1, Price2, Price3,
                     Str("EUR"), Str("USD"), Str("AUD"), Str("EUR"), Str("USD"), Str("AUD"), Str("EUR"), Str("AUD"));
  }

  /** `$.info.dates[*].date` has one date per entry. */
  lemma DateResolves()
    ensures Resolve(StripRoot(DatePath), Doc) == Nodes([Leaf(Str("2000-01-01")), Leaf(Str("2010-01-01")), Leaf(Str("2011-01-01"))])
  {
    DateFacts();
    RootFieldEachThenLeaf(DatePath, "info", "dates", "date", Doc, Date1, Date2, Date3,
                          Str("2000-01-01"), Str("2010-01-01"), Str("2011-01-01"));
  }

  /** `$.info.dates[*].sales[*]` is a list of lists of sales figures. */
  lemma SalesResolves()
    ensures Resolve(StripRoot(SalesPath), Doc) == Nodes([
      Nodes([Leaf(Int(10)), Leaf(Int(30)), Leaf(Int(30))]),
      Nodes([Leaf(Int(50)), Leaf(Int(20)), Leaf(Int(100))]),
      Nodes([Leaf(Int(45)), Leaf(Int(60))])])
  {
    SalesFacts();
    RootFieldEachThenEach(SalesPath, "info", "dates", "sales", Doc, Date1, Date2, Date3,
                          Int(10), Int(30), Int(30), Int(50), Int(20), Int(100), Int(45), Int(60));
  }
}
