/** The price list of tests/Unit/Xml/ParserTest.php folded element by
    element. */
module XmlExamples {
  import opened Wrappers
  import opened Text
  import opened Values
  import opened XmlParser

  const Blank := "\n            "

  lemma CurrencyName() ensures ElementName("currency") {}
  lemma PriceName() ensures ElementName("price") {}
  lemma BlankTrimmed() ensures Trim(Blank, Whitespace) == "" {}
  lemma EurTrimmed() ensures Trim("EUR", Whitespace) == "EUR" {
    TrimKeeps("EUR", Whitespace);
  }

  /** Text inside an element is stored trimmed under the text key. */
  lemma CurrencyText(eur: Element)
    requires eur == Element("currency", map[], "EUR", [])
    ensures TextKey in Node(eur).entries && Node(eur).entries[TextKey] == Str("EUR")
  {
    EurTrimmed();
    NodeText(eur);
  }

  /** The attribute arrives as a string under `@value`. */
  lemma ValueAttribute(price: Element)
    requires price.attributes == map["value" := "10"]
    requires forall i :: 0 <= i < |price.children| ==> price.children[i].name == "currency"
    ensures AttributeKey("value") in Node(price).entries && Node(price).entries[AttributeKey("value")] == Str("10")
  {
    CurrencyName();
    assert ChildrenNamed(price);
    assert "value" in price.attributes && price.attributes["value"] == "10";
    NodeAttribute(price, "value");
  }

  /** Whitespace around the child elements adds no text key. */
  lemma NoText(price: Element)
    requires price.text == Blank
    requires forall i :: 0 <= i < |price.children| ==> price.children[i].name == "currency"
    ensures TextKey !in Node(price).entries
  {
    CurrencyName();
    BlankTrimmed();
    NodeText(price);
  }

  lemma ListOfThree(s: seq<Value>)
    requires |s| == 3
    ensures s == [s[0], s[1], s[2]]
  {
  }

  lemma ListOfTwo(s: seq<Value>)
    requires |s| == 2
    ensures s == [s[0], s[1]]
  {
  }

  lemma NodesThree(cs: seq<Element>)
    requires |cs| == 3
    ensures Nodes(cs) == [Node(cs[0]), Node(cs[1]), Node(cs[2])]
  {
    var ns := Nodes(cs);
    ListOfThree(ns);
    assert ns[0] == Node(cs[0]) && ns[1] == Node(cs[1]) && ns[2] == Node(cs[2]);
  }

  lemma NodesTwo(first: Element, second: Element)
    ensures Nodes([first, second]) == [Node(first), Node(second)]
  {
    var ns := Nodes([first, second]);
    ListOfTwo(ns);
    assert ns[0] == Node(first) && ns[1] == Node(second);
  }

  /** Three currencies under one price become a list of three, in order. */
  lemma CurrencyList(price: Element)
    requires |price.children| == 3
    requires forall i :: 0 <= i < 3 ==> price.children[i].name == "currency"
    ensures var cs := price.children;
      Get(Node(price).entries, "currency") == Some(Seq([Node(cs[0]), Node(cs[1]), Node(cs[2])]))
  {
    CurrencyName();
    NodeRepeated(price, "currency");
    NodesThree(price.children);
  }

  /** A price alone under its parent stays a bare object. */
  lemma SinglePrice(prices: Element, price: Element)
    requires price.name == "price" && prices.children == [price]
    ensures Get(Node(prices).entries, "price") == Some(Node(price))
  {
    PriceName();
    NamedAll([price], "price");
    NodeChildren(prices, "price");
  }

  /** A second price turns the entry into a list of both, in order. */
  lemma PriceList(prices: Element, first: Element, second: Element)
    requires first.name == "price" && second.name == "price" && prices.children == [first, second]
    ensures Get(Node(prices).entries, "price") == Some(Seq([Node(first), Node(second)]))
  {
    PriceName();
    NamedAll([first, second], "price");
    NodeChildren(prices, "price");
    NodesTwo(first, second);
  }
}
