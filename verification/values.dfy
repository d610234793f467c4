/** The decoded document the JSON parser walks: what `JsonObject::getValue`
    hands to `createStructure` in src/Json/Parser.php. JSON objects arrive as
    PHP associative arrays and JSON arrays as lists. */
module Values {
  import opened Text

  /** A decoded JSON value. `Null` is also the value every failed `isset`
      lookup produces. Floating-point numbers are not modelled. */
  datatype Value =
    | Null
    | Str(s: string)
    | Int(i: int)
    | Bool(b: bool)
    | Seq(items: seq<Value>)
    | Map(entries: map<string, Value>)

  /** `isset($t[$key]) ? $t[$key] : null` on a decoded array. A list is
      indexed by the canonical decimal spelling of a position, as PHP turns
      the string key `"2"` into the integer key `2`. Scalars have no keys. */
  function Lookup(t: Value, key: string): (r: Value)
    ensures t.Map? && key in t.entries ==> r == t.entries[key]
    ensures r != Null ==> t.Map? || t.Seq?
  {
    match t
    case Map(m) => if key in m then m[key] else Null
    case Seq(items) =>
      if Canonical(key) && DecimalValue(key) < |items| then items[DecimalValue(key)] else Null
    case _ => Null
  }

  /** A list element is found under the decimal spelling of its position. */
  lemma LookupPosition(items: seq<Value>, n: nat)
    requires n < |items|
    ensures Lookup(Seq(items), NatToString(n)) == items[n]
  {
    DecimalOfNatToString(n);
  }

  /** Only the canonical spelling of a position finds a list element:
      `"01"` and `""` find nothing. */
  lemma LookupNonCanonical(items: seq<Value>, key: string)
    requires !Canonical(key)
    ensures Lookup(Seq(items), key) == Null
  {
  }

  /** `Arr::isAssoc((array)$v)`: a decoded JSON object with at least one key.
      An empty object decodes to the empty array, which counts as a list. */
  predicate IsAssoc(v: Value) {
    v.Map? && v.entries != map[]
  }

  /** The elements `foreach` visits after `createStructure` wrapped a mapping
      into a one-element list; non-iterable scalars and `null` give none. */
  function Elements(v: Value): (r: seq<Value>)
    ensures IsAssoc(v) ==> r == [v]
    ensures v.Seq? ==> r == v.items
    ensures !IsAssoc(v) && !v.Seq? ==> r == []
  {
    if IsAssoc(v) then [v]
    else if v.Seq? then v.items
    else []
  }

  /** `is_string($v) ? trim($v) : $v`. */
  function TrimValue(v: Value): (r: Value)
    ensures v.Str? <==> r.Str?
    ensures v.Str? ==> r.s == Trim(v.s, Whitespace)
    ensures !v.Str? ==> r == v
  {
    if v.Str? then Str(Trim(v.s, Whitespace)) else v
  }

  /** A string without surrounding whitespace; other values trivially. */
  predicate IsTrimmed(v: Value) {
    v.Str? ==> Trim(v.s, Whitespace) == v.s
  }

  lemma TrimValueTrimmed(v: Value)
    ensures IsTrimmed(TrimValue(v))
  {
    if v.Str? {
      TrimIdempotent(v.s, Whitespace);
    }
  }
}
