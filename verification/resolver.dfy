/** The path resolver, `createStructure` in src/Json/Parser.php: walks a
    dotted path through the decoded document and builds the column's
    Structure. */
module Resolver {
  import opened Wrappers
  import opened Text
  import opened Markers
  import opened Values
  import opened Structures

  /** The first segment of a path and what follows its dot. */
  datatype Segment = Segment(key: string, rest: Option<string>)

  /** The strings PHP's `?:` treats as false. */
  predicate Falsy(s: string) {
    s == "" || s == "0"
  }

  /** `strstr($path, '.', true) ?: $path` and `ltrim(strstr($path, '.'), '.') ?: false`.
      The key is the text before the first dot, unless that text is `""` or
      `"0"`: then the whole path is the key. The rest is what follows the
      dots, unless it is `""` or `"0"`: then the path ends here. */
  function SplitPath(path: string): (seg: Segment)
    ensures seg.rest.Some? ==> |seg.rest.value| < |path|
  {
    match IndexOf(path, '.')
    case None => Segment(path, None)
    case Some(d) =>
      var key := if Falsy(path[..d]) then path else path[..d];
      var rest := TrimLeft(path[d..], {'.'});
      Segment(key, if Falsy(rest) then None else Some(rest))
  }

  /** The key is the whole path or a non-false text before a dot; the rest,
      when there is one, is a non-false tail of the path after its dots. */
  lemma SplitPathParts(path: string)
    ensures var seg := SplitPath(path);
      && (seg.key == path || (seg.key + "." <= path && '.' !in seg.key && !Falsy(seg.key)))
      && (seg.rest.Some? ==> EndsWith(path, seg.rest.value) && !Falsy(seg.rest.value) && seg.rest.value[0] != '.')
      && ('.' !in path ==> seg == Segment(path, None))
  {
    match IndexOf(path, '.')
    case None =>
    case Some(d) =>
      if !Falsy(path[..d]) {
        assert path[..d] + "." == path[..d + 1];
      }
  }

  /** The key names an array to iterate: it contains `[]` or `[*]`. */
  predicate IsWildcard(key: string) {
    Contains(key, "[]") || Contains(key, "[*]")
  }

  /** `str_replace(['[]', '[*]'], '', $key)`. */
  function WildcardName(key: string): string {
    RemoveAll(RemoveAll(key, "[]"), "[*]")
  }

  /** `preg_match('/^(.*)\[(.*)\]$/', $key)`. The greedy first group ends at
      the last `[`, so `a[1][2]` splits into `a[1]` and `2`. PCRE's `.` does
      not match a line feed, and `$` also matches before a final one, so the
      key matches only when it has no line feed except possibly a last one,
      which is not part of the groups. */
  function BracketSplit(key: string): (r: Option<(string, string)>)
    ensures r.Some? ==> BeforeFinalLineFeed(key) == r.value.0 + "[" + r.value.1 + "]"
    ensures r.Some? ==> '[' !in r.value.1 && '\n' !in r.value.0 && '\n' !in r.value.1
    ensures var b := BeforeFinalLineFeed(key);
      r.None? <==> !LineEnd(key) || b == [] || b[|b| - 1] != ']' || '[' !in b[..|b| - 1]
  {
    var b := BeforeFinalLineFeed(key);
    if !LineEnd(key) || b == [] || b[|b| - 1] != ']' then None
    else match LastIndexOf(b[..|b| - 1], '[')
      case None => None
      case Some(j) =>
        BracketParts(b, j);
        Some((b[..j], b[j + 1..|b| - 1]))
  }

  /** Cutting `b` at a `[` with none after it, before a closing `]`. */
  lemma BracketParts(b: string, j: nat)
    requires b != [] && b[|b| - 1] == ']' && '\n' !in b
    requires j < |b| - 1 && b[j] == '[' && '[' !in b[..|b| - 1][j + 1..]
    ensures b == b[..j] + "[" + b[j + 1..|b| - 1] + "]"
    ensures '[' !in b[j + 1..|b| - 1] && '\n' !in b[..j] && '\n' !in b[j + 1..|b| - 1]
  {
    assert b[..|b| - 1][j + 1..] == b[j + 1..|b| - 1];
    assert b == b[..j] + [b[j]] + b[j + 1..|b| - 1] + [b[|b| - 1]];
    assert forall c :: c in b[..j] ==> c in b;
    assert forall c :: c in b[j + 1..|b| - 1] ==> c in b;
  }

  /** Where the last `[` of a matching key is, the key splits. */
  lemma BracketSplitAt(key: string, j: nat)
    requires LineEnd(key)
    requires var b := BeforeFinalLineFeed(key);
      b != [] && b[|b| - 1] == ']' && LastIndexOf(b[..|b| - 1], '[') == Some(j)
    ensures var b := BeforeFinalLineFeed(key);
      BracketSplit(key) == Some((b[..j], b[j + 1..|b| - 1]))
  {
  }

  /** A key built from a base, a bracketed index without `[` and at most a
      final line feed splits back into that base and index. */
  lemma BracketSplitRoundTrip(base: string, index: string, tail: string)
    requires '\n' !in base && '\n' !in index && '[' !in index
    requires tail == [] || tail == "\n"
    ensures BracketSplit(base + "[" + index + "]" + tail) == Some((base, index))
  {
    var b := base + "[" + index + "]";
    BracketedKey(b, tail);
    BracketSlices(base, index);
    LastBracket(base, index);
    BracketSplitAt(b + tail, |base|);
  }

  lemma BracketedKey(b: string, tail: string)
    requires '\n' !in b && b != [] && b[|b| - 1] == ']'
    requires tail == [] || tail == "\n"
    ensures BeforeFinalLineFeed(b + tail) == b && LineEnd(b + tail)
  {
    var key := b + tail;
    assert key[|key| - 1] == if tail == [] then ']' else '\n';
  }

  lemma BracketSlices(base: string, index: string)
    ensures var b := base + "[" + index + "]";
      && b[|b| - 1] == ']' && b[..|b| - 1] == base + "[" + index
      && b[..|base|] == base && b[|base| + 1..|b| - 1] == index
  {
  }

  lemma {:induction false} LastBracket(base: string, index: string)
    requires '[' !in index
    ensures LastIndexOf(base + "[" + index, '[') == Some(|base|)
    decreases |index|
  {
    if index != [] {
      var last := |index| - 1;
      var inner := base + "[" + index;
      assert inner[|inner| - 1] != '[' by {
        assert inner[|inner| - 1] == index[last] && index[last] in index;
      }
      assert inner[..|inner| - 1] == base + "[" + index[..last];
      assert '[' !in index[..last] by {
        assert forall c :: c in index[..last] ==> c in index;
      }
      LastBracket(base, index[..last]);
    }
  }

  /** PCRE's `.` does not cross a line feed: one before the brackets defeats
      the match, and the whole key is looked up. */
  lemma LineFeedBeforeBrackets()
    ensures BracketSplit("a\nb[0]") == None
  {
    var k := "a\nb[0]";
    assert FinalLineFeed(k) == [];
    assert k[1] == '\n' && BeforeFinalLineFeed(k)[1] == '\n';
  }

  /** PCRE's `$` matches before a final line feed, which is left out of
      the index. */
  lemma FinalLineFeedAfterBrackets()
    ensures BracketSplit("a[0]\n") == Some(("a", "0"))
  {
    assert "a" + "[" + "0" + "]" + "\n" == "a[0]\n";
    BracketSplitRoundTrip("a", "0", "\n");
  }

  /** The value a non-wildcard key selects: `$t[$key]`, or `$t[$base][$index]`
      for a bracketed key; `null` when `isset` fails. */
  function Select(t: Value, key: string): Value {
    match BracketSplit(key)
    case Some((base, index)) => Lookup(Lookup(t, base), index)
    case None => Lookup(t, key)
  }

  /** `createStructure($path, $t)`. */
  function Resolve(path: string, t: Value): Structure
    decreases |path|
  {
    var seg := SplitPath(path);
    if IsWildcard(seg.key) then
      var items := Elements(Lookup(t, WildcardName(seg.key)));
      Nodes(seq(|items|, i requires 0 <= i < |items| =>
        if seg.rest.Some? then Resolve(seg.rest.value, items[i]) else Leaf(TrimValue(items[i]))))
    else
      var next := Select(t, seg.key);
      if seg.rest.Some? then Resolve(seg.rest.value, next) else Leaf(TrimValue(next))
  }

  /** `trim($path, '$.')`, applied to every mapped path before resolution. */
  function StripRoot(path: string): string {
    Trim(path, {'$', '.'})
  }

  // ---------------------------------------------------------------------
  // Properties

  /** The markers of a path are the markers of its first segment and of the
      rest: a marker never spans a dot. */
  lemma {:induction false} SplitPathMarkers(path: string)
    ensures var seg := SplitPath(path);
      HasMarker(path) <==> HasMarker(seg.key) || (seg.rest.Some? && HasMarker(seg.rest.value))
  {
    match IndexOf(path, '.')
    case None =>
    case Some(d) =>
      var head, tail := path[..d], path[d..];
      var rest := TrimLeft(tail, {'.'});
      assert HasMarker(path) <==> HasMarker(head) || HasMarker(tail) by {
        assert path == head + tail;
        assert tail[0] == '.';
        HasMarkerConcat(head, tail);
      }
      assert HasMarker(tail) <==> HasMarker(rest) by {
        LeadingDots(tail);
      }
      FalsyHasNoMarker(head);
      FalsyHasNoMarker(rest);
  }

  lemma FalsyHasNoMarker(s: string)
    ensures Falsy(s) ==> !HasMarker(s)
  {
  }

  /** A first key `0` is false to PHP, so the whole path is the key. */
  lemma ZeroKeyIsWholePath(rest: string)
    requires PlainRest(rest)
    ensures SplitPath("0." + rest) == Segment("0." + rest, Some(rest))
  {
    var p := "0." + rest;
    assert p[1] == '.' && p[..1] == "0";
    IndexOfAt(p, '.', 1);
    var tail := p[1..];
    assert tail == "." + rest && tail[1..] == rest && tail[1] == rest[0];
    TrimLeftAt(tail, {'.'}, 1);
  }

  /** Hence a segment `0` never selects the first element of a list:
      `a.0.x` looks up the key `0.x`, which no list has, and goes on with
      `x` from nothing. */
  lemma ZeroSegmentNotAPosition(key: string, last: string, t: Value)
    requires PlainKey(key) && PlainRest(last) && '[' !in last
    requires Lookup(t, key).Seq?
    ensures Resolve(key + "." + ("0." + last), t) == Resolve(last, Null)
  {
    var tail := "0." + last;
    assert PlainRest(tail) && tail[1] == '.';
    ResolveField(key, tail, t);
    ZeroKeyIsWholePath(last);
    assert '[' !in tail;
    PlainSelect(tail, Lookup(t, key));
    assert Lookup(Lookup(t, key), tail) == Null by {
      assert !IsDigit(tail[1]);
    }
    FieldStep(tail, Lookup(t, key));
  }

  /** One field segment followed by more path. */
  lemma FieldStep(path: string, t: Value)
    requires !IsWildcard(SplitPath(path).key) && SplitPath(path).rest.Some?
    ensures Resolve(path, t) == Resolve(SplitPath(path).rest.value, Select(t, SplitPath(path).key))
  {
  }

  /** Dots never take part in a marker. */
  lemma LeadingDots(tail: string)
    ensures HasMarker(tail) <==> HasMarker(TrimLeft(tail, {'.'}))
  {
    var rest := TrimLeft(tail, {'.'});
    var dots := tail[..|tail| - |rest|];
    assert !HasMarker(dots) by {
      forall j | 0 <= j < |dots|
        ensures !MarkerAt(dots, j)
      {
        assert dots[j] == '.';
      }
    }
    assert CleanSeam(dots, rest) by {
      if dots != [] {
        assert dots[|dots| - 1] == '.';
      }
    }
    assert tail == dots + rest;
    HasMarkerConcat(dots, rest);
  }

  /** A path whose text holds no `[]`/`[*]` resolves to a single leaf; one
      holding a marker resolves to a list. */
  lemma {:induction false} ResolveLeafIffNoMarker(path: string, t: Value)
    ensures Resolve(path, t).Leaf? <==> !HasMarker(path)
    decreases |path|
  {
    var seg := SplitPath(path);
    SplitPathMarkers(path);
    ContainsIffMarker(seg.key);
    if !IsWildcard(seg.key) && seg.rest.Some? {
      ResolveLeafIffNoMarker(seg.rest.value, Select(t, seg.key));
    }
  }

  /** A path resolved against a missing node: a wildcard anywhere yields an
      empty list, otherwise an absent (null) leaf; lookups never fail. */
  lemma {:induction false} ResolveAbsent(path: string)
    ensures Resolve(path, Null) == if HasMarker(path) then Nodes([]) else Leaf(Null)
    decreases |path|
  {
    var seg := SplitPath(path);
    StepAbsent(path);
    assert HasMarker(path) <==> IsWildcard(seg.key) || (seg.rest.Some? && HasMarker(seg.rest.value)) by {
      SplitPathMarkers(path);
      ContainsIffMarker(seg.key);
    }
    if !IsWildcard(seg.key) && seg.rest.Some? {
      ResolveAbsent(seg.rest.value);
    }
  }

  /** One step of resolution against a missing node. */
  lemma StepAbsent(path: string)
    ensures var seg := SplitPath(path);
      Resolve(path, Null) == if IsWildcard(seg.key) then Nodes([])
        else if seg.rest.Some? then Resolve(seg.rest.value, Null) else Leaf(Null)
  {
    var seg := SplitPath(path);
    if IsWildcard(seg.key) {
      assert Elements(Lookup(Null, WildcardName(seg.key))) == [];
    } else {
      assert Select(Null, seg.key) == Null;
    }
  }

  /** The structure built for a path is uniform (each list holds only leaves
      or only lists, as every element is resolved against the same rest of
      path) and all its string leaves are trimmed. */
  lemma {:induction false} ResolveWellFormed(path: string, t: Value)
    ensures Uniform(Resolve(path, t))
    ensures LeavesTrimmed(Resolve(path, t))
    decreases |path|
  {
    var seg := SplitPath(path);
    var r := Resolve(path, t);
    if IsWildcard(seg.key) {
      var items := Elements(Lookup(t, WildcardName(seg.key)));
      forall i | 0 <= i < |items|
        ensures Uniform(r.items[i]) && LeavesTrimmed(r.items[i])
        ensures r.items[i].Leaf? == (seg.rest.None? || !HasMarker(seg.rest.value))
      {
        if seg.rest.Some? {
          ResolveWellFormed(seg.rest.value, items[i]);
          ResolveLeafIffNoMarker(seg.rest.value, items[i]);
        } else {
          TrimValueTrimmed(items[i]);
        }
      }
    } else if seg.rest.Some? {
      ResolveWellFormed(seg.rest.value, Select(t, seg.key));
    } else {
      TrimValueTrimmed(Select(t, seg.key));
    }
  }

  /** A key naming one field: not false to PHP, without dots or brackets. */
  predicate PlainKey(key: string) {
    !Falsy(key) && '.' !in key && '[' !in key && ']' !in key
  }

  /** A rest of path that `SplitPath` hands on whole. */
  predicate PlainRest(rest: string) {
    !Falsy(rest) && rest[0] != '.'
  }

  /** A path cut at its first dot. */
  lemma SplitAtDot(key: string, rest: string)
    requires !Falsy(key) && '.' !in key && PlainRest(rest)
    ensures SplitPath(key + "." + rest) == Segment(key, Some(rest))
  {
    var p := key + "." + rest;
    assert p[..|key|] == key && p[|key|] == '.';
    IndexOfAt(p, '.', |key|);
    var tail := p[|key|..];
    assert tail == "." + rest && tail[1] == rest[0];
    TrimLeftAt(tail, {'.'}, 1);
    assert tail[1..] == rest;
  }

  /** A key without brackets is looked up as it is. */
  lemma PlainSelect(key: string, t: Value)
    requires '[' !in key
    ensures !IsWildcard(key)
    ensures Select(t, key) == Lookup(t, key)
  {
    if Contains(key, "[]") {
      ContainsFirst(key, "[]");
    }
    if Contains(key, "[*]") {
      ContainsFirst(key, "[*]");
    }
  }

  /** A field name followed by `[*]` iterates the list under that name. */
  lemma EachKey(name: string)
    requires PlainKey(name)
    ensures IsWildcard(name + "[*]") && WildcardName(name + "[*]") == name
  {
    ContainsSuffix(name, "[*]");
    assert !Contains("[*]", "[]") by {
      var star := "[*]";
      assert star[1..] == "*]" && star[1] != ']';
      if Contains("*]", "[]") {
        ContainsFirst("*]", "[]");
      }
    }
    NotContainsAppend(name, "[*]", "[]");
    RemoveAbsent(name + "[*]", "[]");
    RemoveAllTail(name, "[*]");
  }

  /** `field.rest` resolves `rest` inside the field. */
  lemma ResolveField(key: string, rest: string, t: Value)
    requires PlainKey(key) && PlainRest(rest)
    ensures Resolve(key + "." + rest, t) == Resolve(rest, Lookup(t, key))
  {
    SplitAtDot(key, rest);
    PlainSelect(key, t);
  }

  /** A last segment `field` is the trimmed value of the field. */
  lemma ResolveFieldLast(key: string, t: Value)
    requires PlainKey(key)
    ensures Resolve(key, t) == Leaf(TrimValue(Lookup(t, key)))
  {
    PlainSelect(key, t);
  }

  /** `name[*].rest` resolves `rest` inside every element under `name`, in
      order. */
  lemma ResolveEach(name: string, rest: string, t: Value)
    requires PlainKey(name) && PlainRest(rest)
    ensures var items := Elements(Lookup(t, name));
      var r := Resolve(name + "[*]" + "." + rest, t);
      && r.Nodes? && |r.items| == |items|
      && forall i :: 0 <= i < |items| ==> r.items[i] == Resolve(rest, items[i])
  {
    var key := name + "[*]";
    EachKey(name);
    assert SplitPath(key + "." + rest) == Segment(key, Some(rest)) by {
      assert '.' !in key by {
        assert key[|name|..] == "[*]";
      }
      SplitAtDot(key, rest);
    }
    WildcardStep(key + "." + rest, t);
  }

  /** A last segment `name[*]` is the list of the trimmed elements under
      `name`. */
  lemma ResolveEachLast(name: string, t: Value)
    requires PlainKey(name)
    ensures var items := Elements(Lookup(t, name));
      var r := Resolve(name + "[*]", t);
      && r.Nodes? && |r.items| == |items|
      && forall i :: 0 <= i < |items| ==> r.items[i] == Leaf(TrimValue(items[i]))
  {
    var key := name + "[*]";
    EachKey(name);
    assert SplitPath(key) == Segment(key, None) by {
      assert key[|name|..] == "[*]";
    }
    WildcardStep(key, t);
  }

  /** A tail `0` is false to PHP as well, so `key.0` ends at `key`. */
  lemma ZeroTailEndsPath(key: string)
    requires !Falsy(key) && '.' !in key
    ensures SplitPath(key + ".0") == Segment(key, None)
  {
    var p := key + ".0";
    assert p[..|key|] == key && p[|key|] == '.';
    IndexOfAt(p, '.', |key|);
    var tail := p[|key|..];
    assert tail == ".0" && tail[1] == '0';
    TrimLeftAt(tail, {'.'}, 1);
  }

  /** Hence `name[*].0` does not look into the elements: it lists them as
      trimmed leaves, as `name[*]` does. */
  lemma ZeroTailAfterWildcard(name: string, t: Value)
    requires PlainKey(name)
    ensures var items := Elements(Lookup(t, name));
      var r := Resolve(name + "[*]" + ".0", t);
      && r.Nodes? && |r.items| == |items|
      && forall i :: 0 <= i < |items| ==> r.items[i] == Leaf(TrimValue(items[i]))
  {
    var key := name + "[*]";
    EachKey(name);
    assert SplitPath(key + ".0") == Segment(key, None) by {
      assert '.' !in key by {
        assert key[|name|..] == "[*]";
      }
      ZeroTailEndsPath(key);
    }
    WildcardStep(key + ".0", t);
  }

  /** One wildcard segment: each element resolved against the rest of the
      path, or taken as a trimmed leaf when the path ends. */
  lemma WildcardStep(path: string, t: Value)
    requires IsWildcard(SplitPath(path).key)
    ensures var seg := SplitPath(path);
      var items := Elements(Lookup(t, WildcardName(seg.key)));
      var r := Resolve(path, t);
      && r.Nodes? && |r.items| == |items|
      && forall i :: 0 <= i < |items| ==>
           r.items[i] == if seg.rest.Some? then Resolve(seg.rest.value, items[i]) else Leaf(TrimValue(items[i]))
  {
  }

  /** `trim('$.' . p, '$.')` for a path that neither starts nor ends with
      `$` or `.`. */
  lemma StripRootPrefix(p: string)
    requires p != [] && p[0] != '$' && p[0] != '.' && p[|p| - 1] != '$' && p[|p| - 1] != '.'
    ensures StripRoot("$." + p) == p
  {
    var s := "$." + p;
    assert s[0] == '$' && s[1] == '.' && s[2] == p[0] && s[|s| - 1] == p[|p| - 1];
    TrimAt(s, {'$', '.'}, 2);
    assert s[2..] == p;
  }

  /** The compensating rule: a wildcard whose key holds a bare mapping (an
      XML element that had no same-named sibling) iterates that mapping as
      the only element of a list. */
  lemma WildcardOverMapping(path: string, t: Value)
    requires IsWildcard(SplitPath(path).key)
    requires IsAssoc(Lookup(t, WildcardName(SplitPath(path).key)))
    ensures var seg := SplitPath(path);
      var m := Lookup(t, WildcardName(seg.key));
      Resolve(path, t) == Nodes([if seg.rest.Some? then Resolve(seg.rest.value, m) else Leaf(m)])
  {
  }

  /** A wildcard whose key is missing (or null) iterates nothing. */
  lemma WildcardOverMissing(path: string, t: Value)
    requires IsWildcard(SplitPath(path).key)
    requires Lookup(t, WildcardName(SplitPath(path).key)) == Null
    ensures Resolve(path, t) == Nodes([])
  {
  }
}
