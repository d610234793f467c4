/** `Xml\Parser` in src/Xml/Parser.php: an XML element tree is folded into
    the nested objects the JSON parser walks, then handed to it. The tree is
    abstract: `simplexml_load_string` is not modelled and an element carries
    its name, its attributes, the text directly inside it and its child
    elements in document order. */
module XmlParser {
  import opened Wrappers
  import opened Text
  import opened Values
  import JsonParser

  datatype Element = Element(name: string, attributes: map<string, string>, text: string, children: seq<Element>)

  /** The key under which trimmed, non-blank text is stored. */
  const TextKey := "&text"

  /** The key under which an attribute is stored. */
  function AttributeKey(name: string): (r: string)
    ensures |r| > 0 && r[0] == '@' && r[1..] == name
  {
    "@" + name
  }

  /** XML element names never start with `@` and never hold `&`, so they
      cannot collide with attribute keys or with the text key. */
  predicate ElementName(s: string) {
    s != [] && s[0] != '@' && '&' !in s
  }

  predicate ChildrenNamed(e: Element) {
    forall i :: 0 <= i < |e.children| ==> ElementName(e.children[i].name)
  }

  /** `(string)$attribute` for every attribute, keyed `@name`. */
  function AttributeEntries(attributes: map<string, string>): (r: map<string, Value>)
    ensures forall k :: k in attributes ==> AttributeKey(k) in r && r[AttributeKey(k)] == Str(attributes[k])
    ensures forall key :: key in r ==> exists k :: k in attributes && key == AttributeKey(k)
  {
    map k | k in attributes :: AttributeKey(k) := Str(attributes[k])
  }

  /** The object before any child is visited: the attributes, then the
      trimmed text when it is not blank. */
  function Base(e: Element): map<string, Value> {
    var trimmed := Trim(e.text, Whitespace);
    if trimmed != "" then AttributeEntries(e.attributes)[TextKey := Str(trimmed)]
    else AttributeEntries(e.attributes)
  }

  /** Storing a visited child under its name: the first one as the object
      itself, a second one turns the entry into a list of both, later ones
      are appended to that list. */
  function Insert(obj: map<string, Value>, name: string, node: Value): map<string, Value> {
    if name !in obj then obj[name := node]
    else match obj[name]
      case Seq(items) => obj[name := Seq(items + [node])]
      case other => obj[name := Seq([other, node])]
  }

  /** `xmlToObject` on one element: the object it stores in its parent. */
  function Node(e: Element): (r: Value)
    ensures r.Map?
    decreases e, 1
  {
    Map(Fold(e.children, Base(e)))
  }

  /** The children visited in document order, each stored into `obj`. */
  function Fold(cs: seq<Element>, obj: map<string, Value>): map<string, Value>
    decreases cs, 0
  {
    if cs == [] then obj
    else Fold(cs[1..], Insert(obj, cs[0].name, Node(cs[0])))
  }

  /** `parse` on the XML side: the root becomes the single key of the
      top-level object. */
  function Document(root: Element): (r: Value)
    ensures r.Map? && r.entries.Keys == {root.name} && r.entries[root.name] == Node(root)
  {
    Map(map[root.name := Node(root)])
  }

  const XmlError := "Could not parse the xml content."

  /** `parse(ReturnType::DATASET)`: a document the XML library could not
      read is an error; otherwise the folded tree goes to the JSON parser. */
  function ParseDataset(mapping: JsonParser.Mapping, root: Option<Element>): (r: Result<seq<(string, seq<Value>)>>)
    ensures root.None? <==> r == Failure(XmlError)
    ensures root.Some? ==> r == JsonParser.ParseDataset(mapping, Some(Document(root.value)))
  {
    if root.None? then Failure(XmlError)
    else
      var r := JsonParser.ParseDataset(mapping, Some(Document(root.value)));
      assert r.Failure? ==> r.error != XmlError;
      r
  }

  /** `parse(ReturnType::INDIVIDUAL_VALUES)`. */
  function ParseIndividual(mapping: JsonParser.Mapping, root: Option<Element>): (r: Result<seq<(string, Value)>>)
    ensures root.None? <==> r == Failure(XmlError)
    ensures root.Some? ==> r == JsonParser.ParseIndividual(mapping, Some(Document(root.value)))
  {
    if root.None? then Failure(XmlError)
    else JsonParser.ParseIndividual(mapping, Some(Document(root.value)))
  }

  // ---------------------------------------------------------------------
  // The entry of one name

  /** The children with a given name, in document order. */
  function Named(cs: seq<Element>, name: string): (r: seq<Element>)
    ensures |r| <= |cs|
    ensures forall i :: 0 <= i < |r| ==> r[i].name == name && r[i] in cs
  {
    if cs == [] then []
    else (if cs[0].name == name then [cs[0]] else []) + Named(cs[1..], name)
  }

  function Nodes(cs: seq<Element>): (r: seq<Value>)
    ensures |r| == |cs| && forall i :: 0 <= i < |cs| ==> r[i] == Node(cs[i])
  {
    seq(|cs|, i requires 0 <= i < |cs| => Node(cs[i]))
  }

  /** What a name is stored as after a sequence of nodes was added to a
      possibly existing entry. */
  function Gather(prev: Option<Value>, xs: seq<Value>): Option<Value>
    decreases |xs|
  {
    if xs == [] then prev
    else
      var next := match prev
        case None => xs[0]
        case Some(Seq(items)) => Seq(items + [xs[0]])
        case Some(other) => Seq([other, xs[0]]);
      Gather(Some(next), xs[1..])
  }

  function Get(obj: map<string, Value>, name: string): Option<Value> {
    if name in obj then Some(obj[name]) else None
  }

  /** One insertion changes only the entry of the inserted name, and that
      entry as one more node gathered into it. */
  lemma InsertAt(obj: map<string, Value>, name: string, node: Value, key: string)
    ensures Get(Insert(obj, name, node), key) ==
      if key == name then Gather(Get(obj, key), [node]) else Get(obj, key)
  {
  }

  /** Gathering a first node, then the others. */
  lemma GatherCons(prev: Option<Value>, xs: seq<Value>)
    requires xs != []
    ensures Gather(prev, xs) == Gather(Gather(prev, [xs[0]]), xs[1..])
  {
  }

  /** The nodes of the children carrying a name: the first child's, when it
      carries the name, then those of the rest. */
  lemma NamedNodesCons(cs: seq<Element>, name: string)
    requires cs != []
    ensures Nodes(Named(cs, name)) ==
      (if cs[0].name == name then [Node(cs[0])] else []) + Nodes(Named(cs[1..], name))
  {
    if cs[0].name == name {
      assert Named(cs, name) == [cs[0]] + Named(cs[1..], name);
    } else {
      assert Named(cs, name) == Named(cs[1..], name);
    }
  }

  /** The fold touches each name only through the children carrying it. */
  lemma {:induction false} FoldAt(cs: seq<Element>, obj: map<string, Value>, name: string)
    ensures Get(Fold(cs, obj), name) == Gather(Get(obj, name), Nodes(Named(cs, name)))
  {
    if cs != [] {
      var obj' := Insert(obj, cs[0].name, Node(cs[0]));
      assert Fold(cs, obj) == Fold(cs[1..], obj');
      FoldAt(cs[1..], obj', name);
      InsertAt(obj, cs[0].name, Node(cs[0]), name);
      NamedNodesCons(cs, name);
      var rest := Nodes(Named(cs[1..], name));
      if cs[0].name == name {
        GatherCons(Get(obj, name), [Node(cs[0])] + rest);
        assert ([Node(cs[0])] + rest)[1..] == rest;
      } else {
        assert [] + rest == rest;
      }
    }
  }

  /** No child carries the name: nothing is gathered under it. */
  lemma {:induction false} NamedNone(cs: seq<Element>, name: string)
    requires forall i :: 0 <= i < |cs| ==> cs[i].name != name
    ensures Named(cs, name) == []
  {
    if cs != [] {
      NamedNone(cs[1..], name);
    }
  }

  /** Every child carries the name: all of them are gathered, in order. */
  lemma {:induction false} NamedAll(cs: seq<Element>, name: string)
    requires forall i :: 0 <= i < |cs| ==> cs[i].name == name
    ensures Named(cs, name) == cs
  {
    if cs != [] {
      NamedAll(cs[1..], name);
      assert [cs[0]] + cs[1..] == cs;
    }
  }

  /** Appending to an existing list keeps every node, in order. */
  lemma {:induction false} GatherList(items: seq<Value>, xs: seq<Value>)
    ensures Gather(Some(Seq(items)), xs) == Some(Seq(items + xs))
    decreases |xs|
  {
    if xs != [] {
      assert Gather(Some(Seq(items)), xs) == Gather(Some(Seq(items + [xs[0]])), xs[1..]);
      GatherList(items + [xs[0]], xs[1..]);
      assert items + [xs[0]] + xs[1..] == items + xs;
    } else {
      assert items + xs == items;
    }
  }

  /** A fresh name holds nothing, one object, or the list of all of them. */
  lemma GatherFresh(xs: seq<Value>)
    requires forall i :: 0 <= i < |xs| ==> xs[i].Map?
    ensures Gather(None, xs) ==
      if |xs| == 0 then None else if |xs| == 1 then Some(xs[0]) else Some(Seq(xs))
  {
    if |xs| >= 2 {
      GatherList([xs[0], xs[1]], xs[2..]);
      assert [xs[0], xs[1]] + xs[2..] == xs;
    }
  }

  // ---------------------------------------------------------------------
  // Properties of one node

  lemma FoldKeepsOthers(cs: seq<Element>, obj: map<string, Value>, key: string)
    requires forall i :: 0 <= i < |cs| ==> cs[i].name != key
    ensures Get(Fold(cs, obj), key) == Get(obj, key)
  {
    FoldAt(cs, obj, key);
    NamedNone(cs, key);
  }

  /** Each attribute is stored as its string under `@name`. */
  lemma NodeAttribute(e: Element, k: string)
    requires ChildrenNamed(e) && k in e.attributes
    ensures AttributeKey(k) in Node(e).entries
    ensures Node(e).entries[AttributeKey(k)] == Str(e.attributes[k])
  {
    FoldKeepsOthers(e.children, Base(e), AttributeKey(k));
    assert AttributeKey(k) != TextKey;
  }

  /** The text key is present exactly when the text is not blank, and then
      holds the trimmed text. */
  lemma NodeText(e: Element)
    requires ChildrenNamed(e)
    ensures TextKey in Node(e).entries <==> Trim(e.text, Whitespace) != ""
    ensures TextKey in Node(e).entries ==> Node(e).entries[TextKey] == Str(Trim(e.text, Whitespace))
  {
    forall i | 0 <= i < |e.children|
      ensures e.children[i].name != TextKey
    {
      assert TextKey[0] == '&';
    }
    FoldKeepsOthers(e.children, Base(e), TextKey);
  }

  /** A child name absent from the element is absent from the node; present
      once, it holds that child's object; present k >= 2 times, it holds the
      list of the k objects in document order. */
  lemma NodeChildren(e: Element, name: string)
    requires ElementName(name)
    ensures var same := Named(e.children, name);
      Get(Node(e).entries, name) ==
        if |same| == 0 then None
        else if |same| == 1 then Some(Node(same[0]))
        else Some(Seq(Nodes(same)))
  {
    assert name != TextKey by { assert TextKey[1..] == "text"; assert '&' in TextKey; }
    assert name !in Base(e);
    FoldAt(e.children, Base(e), name);
    GatherFresh(Nodes(Named(e.children, name)));
  }

  /** Children that all share one name, two or more of them, are stored as
      the list of their objects in document order. */
  lemma NodeRepeated(e: Element, name: string)
    requires ElementName(name) && |e.children| >= 2
    requires forall i :: 0 <= i < |e.children| ==> e.children[i].name == name
    ensures Get(Node(e).entries, name) == Some(Seq(Nodes(e.children)))
  {
    NamedAll(e.children, name);
    NodeChildren(e, name);
  }

  /** Nothing else appears: every key of a node is an attribute key, the
      text key or the name of a child. */
  lemma NodeKeys(e: Element, key: string)
    requires key in Node(e).entries
    ensures (exists k :: k in e.attributes && key == AttributeKey(k))
      || key == TextKey
      || (exists i :: 0 <= i < |e.children| && e.children[i].name == key)
  {
    if forall i :: 0 <= i < |e.children| ==> e.children[i].name != key {
      FoldKeepsOthers(e.children, Base(e), key);
      assert key in Base(e);
    }
  }
}
