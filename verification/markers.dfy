/** Wildcard markers in path expressions: `[]` and `[*]`, the text matched by
    the regular expression `\[[\*]{0,1}\]` in src/Json/Column.php, and the
    substrings `str_contains` looks for in src/Json/Parser.php. */
module Markers {
  import opened Wrappers
  import opened Text

  /** A marker starts at position `i` of `p`. */
  predicate MarkerAt(p: string, i: nat) {
    && i + 1 < |p|
    && p[i] == '['
    && (p[i + 1] == ']' || (p[i + 1] == '*' && i + 2 < |p| && p[i + 2] == ']'))
  }

  /** Length of the marker at `i`: 2 for `[]`, 3 for `[*]`. */
  function MarkerLen(p: string, i: nat): (n: nat)
    requires MarkerAt(p, i)
    ensures n == 2 || n == 3
    ensures i + n <= |p| && p[i + n - 1] == ']'
  {
    if p[i + 1] == ']' then 2 else 3
  }

  /** No marker starts anywhere in `p`. */
  predicate NoMarker(p: string) {
    forall i :: 0 <= i < |p| ==> !MarkerAt(p, i)
  }

  /** `p` contains `[]` or `[*]`. */
  predicate HasMarker(p: string) {
    exists i :: 0 <= i < |p| && MarkerAt(p, i)
  }

  /** The leftmost marker at or after position `from`, as a regex scan finds it. */
  function FirstMarkerFrom(p: string, from: nat): (r: Option<nat>)
    ensures r.None? ==> forall j :: from <= j < |p| ==> !MarkerAt(p, j)
    ensures r.Some? ==> from <= r.value < |p| && MarkerAt(p, r.value)
    ensures r.Some? ==> forall j :: from <= j < r.value ==> !MarkerAt(p, j)
    decreases |p| - from
  {
    if from >= |p| then None
    else if MarkerAt(p, from) then Some(from)
    else FirstMarkerFrom(p, from + 1)
  }

  function FirstMarker(p: string): (r: Option<nat>)
    ensures r.None? <==> NoMarker(p)
    ensures r.Some? ==> r.value < |p| && MarkerAt(p, r.value)
    ensures r.Some? ==> forall j :: 0 <= j < r.value ==> !MarkerAt(p, j)
  {
    FirstMarkerFrom(p, 0)
  }

  /** A marker with none before it is the first marker. */
  lemma FirstMarkerIs(p: string, i: nat)
    requires MarkerAt(p, i)
    requires forall j :: 0 <= j < i ==> !MarkerAt(p, j)
    ensures FirstMarker(p) == Some(i)
  {
  }

  /** A marker of a prefix is a marker of the whole string. */
  lemma MarkerAtPrefix(p: string, n: nat, j: nat)
    requires n <= |p|
    ensures MarkerAt(p[..n], j) ==> MarkerAt(p, j)
  {
  }

  /** The text before the first marker is marker-free. */
  lemma NoMarkerBeforeFirst(p: string)
    requires FirstMarker(p).Some?
    ensures NoMarker(p[..FirstMarker(p).value])
  {
    var i := FirstMarker(p).value;
    forall j | 0 <= j < i
      ensures !MarkerAt(p[..i], j)
    {
      MarkerAtPrefix(p, i, j);
    }
  }

  /** The two string tests of the source agree: `str_contains(p, '[]') ||
      str_contains(p, '[*]')` holds exactly when a marker starts somewhere. */
  lemma {:induction false} ContainsIffMarker(p: string)
    ensures Contains(p, "[]") || Contains(p, "[*]") <==> HasMarker(p)
    decreases |p|
  {
    if p != [] {
      ContainsIffMarker(p[1..]);
      assert MarkerAt(p, 0) <==> "[]" <= p || "[*]" <= p;
      forall i | 0 < i < |p|
        ensures MarkerAt(p, i) <==> MarkerAt(p[1..], i - 1)
      {
      }
      assert HasMarker(p[1..]) ==> HasMarker(p) by {
        if HasMarker(p[1..]) {
          var i :| 0 <= i < |p[1..]| && MarkerAt(p[1..], i);
          assert MarkerAt(p, i + 1);
        }
      }
      assert HasMarker(p) ==> MarkerAt(p, 0) || HasMarker(p[1..]) by {
        if HasMarker(p) {
          var i :| 0 <= i < |p| && MarkerAt(p, i);
          if i > 0 {
            assert MarkerAt(p[1..], i - 1);
          }
        }
      }
    }
  }

  /** Number of markers a left-to-right scan meets. */
  function MarkerCount(p: string): nat
    decreases |p|
  {
    match FirstMarker(p)
    case None => 0
    case Some(i) => 1 + MarkerCount(p[i + MarkerLen(p, i)..])
  }

  /** The concrete index written in place of a marker: `'[' . k . ']'`. */
  function IndexText(k: nat): string {
    "[" + NatToString(k) + "]"
  }

  /** `preg_replace('/\[[\*]{0,1}\]/', '[' . k . ']', p, 1)`. */
  function ReplaceFirstMarker(p: string, k: nat): string {
    match FirstMarker(p)
    case None => p
    case Some(i) => p[..i] + IndexText(k) + p[i + MarkerLen(p, i)..]
  }

  /** `preg_replace('/(\[[\*]{0,1}\])(.*$)/', "$1", p)`: keep `p` up to and
      including the first marker whose rest `.*$` can consume. PCRE's `.`
      stops at a line feed and `$` also matches before a final one, so a
      marker followed by a line feed that is not the last character does not
      match, and the scan moves on to the next marker. The final line feed,
      which the match leaves out, stays; nothing after a match can match
      again. */
  function TruncateAfterMarker(p: string): string
    decreases |p|
  {
    match FirstMarker(p)
    case None => p
    case Some(i) =>
      var e := i + MarkerLen(p, i);
      var rest := p[e..];
      p[..e] + (if LineEnd(rest) then FinalLineFeed(rest) else TruncateAfterMarker(rest))
  }

  /** Truncation at the first marker `i`: the marker's rest is dropped
      when `.*$` consumes it, and scanned on otherwise. */
  lemma TruncateAt(p: string, i: nat)
    requires FirstMarker(p) == Some(i)
    ensures var e := i + MarkerLen(p, i);
      var rest := p[e..];
      TruncateAfterMarker(p)
        == p[..e] + (if LineEnd(rest) then FinalLineFeed(rest) else TruncateAfterMarker(rest))
  {
    var e := i + MarkerLen(p, i);
    if LineEnd(p[e..]) {
      assert TruncateAfterMarker(p) == p[..e] + FinalLineFeed(p[e..]);
    } else {
      assert TruncateAfterMarker(p) == p[..e] + TruncateAfterMarker(p[e..]);
    }
  }

  /** A line feed before the end of a marker-free tail defeats the match:
      the path is left as it is. */
  lemma TruncateBeforeLineFeed(a: string, m: string, b: string)
    requires NoMarker(a) && NoMarker(b)
    requires m == "[]" || m == "[*]"
    requires '\n' in BeforeFinalLineFeed(b)
    ensures TruncateAfterMarker(a + m + b) == a + m + b
  {
    SplitAtMarker(a, m, b, 0);
  }

  /** A final line feed after a tail without other line feeds is left out
      of the match and stays. */
  lemma TruncateKeepsFinalLineFeed(a: string, m: string, b: string)
    requires NoMarker(a)
    requires m == "[]" || m == "[*]"
    requires '\n' !in b
    ensures TruncateAfterMarker(a + m + b + "\n") == a + m + "\n"
  {
    var tail := b + "\n";
    assert FinalLineFeed(tail) == "\n" && BeforeFinalLineFeed(tail) == b;
    assert a + m + b + "\n" == a + m + tail;
    SplitAtMarker(a, m, tail, 0);
  }

  /** The walk of `Column::compare` over the nesting levels: every index
      replaces the leftmost remaining marker; the `null` level truncates
      after the next marker and stops. */
  function Reconstruct(p: string, levels: seq<Option<nat>>): string
    decreases |levels|
  {
    if levels == [] then p
    else match levels[0]
      case None => TruncateAfterMarker(p)
      case Some(k) => Reconstruct(ReplaceFirstMarker(p, k), levels[1..])
  }

  /** A path written as a marker-free head, a marker and a tail: the
      marker is the first one, replacing it keeps head and tail, and
      truncating keeps the head and the marker, followed by the tail's final
      line feed when the tail has no other, and by the truncated tail when
      it has. */
  lemma SplitAtMarker(a: string, m: string, b: string, k: nat)
    requires NoMarker(a)
    requires m == "[]" || m == "[*]"
    ensures FirstMarker(a + m + b) == Some(|a|)
    ensures ReplaceFirstMarker(a + m + b, k) == a + IndexText(k) + b
    ensures TruncateAfterMarker(a + m + b)
      == a + m + (if LineEnd(b) then FinalLineFeed(b) else TruncateAfterMarker(b))
    ensures '\n' !in b ==> TruncateAfterMarker(a + m + b) == a + m
  {
    var p := a + m + b;
    assert p == a + (m + b);
    assert p[|a|] == m[0] && p[|a| + 1] == m[1];
    assert m == "[*]" ==> p[|a| + 2] == m[2];
    assert MarkerAt(p, |a|);
    assert CleanSeam(a, m + b) by {
      assert (m + b)[0] == '[';
    }
    forall j | 0 <= j < |a|
      ensures !MarkerAt(p, j)
    {
      NoMarkerInPrefixPart(a, m + b, j);
    }
    FirstMarkerIs(p, |a|);
    assert MarkerLen(p, |a|) == |m|;
    assert p[..|a|] == a;
    assert p[|a| + |m|..] == b;
    assert p[..|a| + |m|] == a + m;
    if '\n' !in b {
      NoLineFeed(b);
    }
  }

  // ---------------------------------------------------------------------
  // Markers across a concatenation

  /** No marker can straddle the seam between `a` and `b`. */
  predicate CleanSeam(a: string, b: string) {
    || a == [] || b == []
    || (a[|a| - 1] != '[' && a[|a| - 1] != '*')
    || (b[0] != ']' && b[0] != '*')
  }

  lemma MarkerAtShift(a: string, b: string, i: nat)
    ensures MarkerAt(a + b, |a| + i) <==> MarkerAt(b, i)
  {
    if i + 1 < |b| {
      assert (a + b)[|a| + i] == b[i] && (a + b)[|a| + i + 1] == b[i + 1];
    }
    if i + 2 < |b| {
      assert (a + b)[|a| + i + 2] == b[i + 2];
    }
  }

  lemma NoMarkerInPrefixPart(a: string, b: string, j: nat)
    requires NoMarker(a) && CleanSeam(a, b) && j < |a|
    ensures !MarkerAt(a + b, j)
  {
    var p := a + b;
    assert !MarkerAt(a, j);
    assert p[j] == a[j];
    if j + 2 < |a| {
      assert p[j + 1] == a[j + 1] && p[j + 2] == a[j + 2];
    } else if j + 1 < |a| {
      assert p[j + 1] == a[j + 1];
      if b != [] {
        assert p[j + 2] == b[0];
      }
    } else if b != [] {
      assert p[j + 1] == b[0];
      if |b| > 1 {
        assert p[j + 2] == b[1];
      }
    }
  }

  /** Behind a marker-free `a` with a clean seam, the first marker of `a + b`
      is the first marker of `b`, shifted. */
  lemma FirstMarkerConcat(a: string, b: string)
    requires NoMarker(a) && CleanSeam(a, b)
    ensures FirstMarker(a + b) == match FirstMarker(b)
      case None => None
      case Some(i) => Some(|a| + i)
  {
    var p := a + b;
    forall j | 0 <= j < |a|
      ensures !MarkerAt(p, j)
    {
      NoMarkerInPrefixPart(a, b, j);
    }
    forall i | 0 <= i < |b|
      ensures MarkerAt(p, |a| + i) <==> MarkerAt(b, i)
    {
      MarkerAtShift(a, b, i);
    }
    match FirstMarker(b)
    case None =>
      forall j | 0 <= j < |p|
        ensures !MarkerAt(p, j)
      {
        if j >= |a| {
          MarkerAtShift(a, b, j - |a|);
        }
      }
    case Some(i) =>
      forall j | 0 <= j < |a| + i
        ensures !MarkerAt(p, j)
      {
        if j >= |a| {
          MarkerAtShift(a, b, j - |a|);
        }
      }
      MarkerAtShift(a, b, i);
      FirstMarkerIs(p, |a| + i);
  }

  /** The text written in place of a marker, `[k]`, holds no marker. */
  lemma IndexTextHasNoMarker(k: nat)
    ensures NoMarker(IndexText(k))
  {
    var d := NatToString(k);
    var t := IndexText(k);
    forall j | 0 <= j < |t|
      ensures !MarkerAt(t, j)
    {
      if 0 < j <= |d| {
        assert t[j] == d[j - 1];
      } else if j == 0 {
        assert t[1] == d[0];
      }
    }
  }

  /** After a replacement, everything up to the inserted `[k]` is marker-free. */
  lemma ReplacedPrefixHasNoMarker(pre: string, k: nat)
    requires NoMarker(pre)
    ensures NoMarker(pre + IndexText(k))
  {
    var t := IndexText(k);
    IndexTextHasNoMarker(k);
    forall j | 0 <= j < |pre + t|
      ensures !MarkerAt(pre + t, j)
    {
      if j < |pre| {
        NoMarkerInPrefixPart(pre, t, j);
      } else {
        MarkerAtShift(pre, t, j - |pre|);
      }
    }
  }

  lemma {:induction false} ReplaceConcat(done: string, rest: string, k: nat)
    requires NoMarker(done) && (done == [] || done[|done| - 1] == ']')
    ensures ReplaceFirstMarker(done + rest, k) == done + ReplaceFirstMarker(rest, k)
  {
    FirstMarkerConcat(done, rest);
    if FirstMarker(rest).Some? {
      ReplaceShifted(done, rest, FirstMarker(rest).value, k);
    }
  }

  lemma ReplaceShifted(done: string, rest: string, i: nat, k: nat)
    requires FirstMarker(rest) == Some(i)
    requires FirstMarker(done + rest) == Some(|done| + i)
    ensures ReplaceFirstMarker(done + rest, k) == done + ReplaceFirstMarker(rest, k)
  {
    var p := done + rest;
    var n := MarkerLen(rest, i);
    var t := IndexText(k);
    assert ReplaceFirstMarker(p, k) == p[..|done| + i] + t + p[|done| + i + n..] by {
      ReplaceAt(p, |done| + i, k);
      assert p[|done| + i + 1] == rest[i + 1];
    }
    assert ReplaceFirstMarker(rest, k) == rest[..i] + t + rest[i + n..] by {
      ReplaceAt(rest, i, k);
    }
    SpliceShifted(done, rest, i, n, t);
  }

  /** Where the first marker is, `ReplaceFirstMarker` splices the index in. */
  lemma ReplaceAt(p: string, i: nat, k: nat)
    requires FirstMarker(p) == Some(i)
    ensures i + MarkerLen(p, i) <= |p|
    ensures ReplaceFirstMarker(p, k) == p[..i] + IndexText(k) + p[i + MarkerLen(p, i)..]
  {
  }

  /** Splicing `t` over a stretch of `rest` inside `done + rest` splices it
      in `rest`. */
  lemma SpliceShifted(done: string, rest: string, i: nat, n: nat, t: string)
    requires i + n <= |rest|
    ensures (done + rest)[..|done| + i] + t + (done + rest)[|done| + i + n..]
      == done + (rest[..i] + t + rest[i + n..])
  {
    var pre, post := rest[..i], rest[i + n..];
    assert (done + rest)[..|done| + i] == done + pre;
    assert (done + rest)[|done| + i + n..] == post;
    SeqAssoc(done, pre, t, post);
  }

  lemma SeqAssoc(a: string, b: string, c: string, d: string)
    ensures (a + b) + c + d == a + (b + c + d)
  {
  }

  lemma {:induction false} TruncateConcat(done: string, rest: string)
    requires NoMarker(done) && (done == [] || done[|done| - 1] == ']')
    ensures TruncateAfterMarker(done + rest) == done + TruncateAfterMarker(rest)
  {
    FirstMarkerConcat(done, rest);
    match FirstMarker(rest)
    case None =>
    case Some(i) =>
      var p := done + rest;
      var n := MarkerLen(rest, i);
      assert MarkerLen(p, |done| + i) == n by {
        assert p[|done| + i + 1] == rest[i + 1];
      }
      CutConcat(done, rest, i + n);
      TruncateSameTail(p, |done| + i, rest, i, done);
  }

  /** Two strings that agree after their first markers, and before them up
      to a prefix, truncate alike. */
  lemma TruncateSameTail(p: string, ip: nat, q: string, iq: nat, pre: string)
    requires FirstMarker(p) == Some(ip) && FirstMarker(q) == Some(iq)
    requires p[..ip + MarkerLen(p, ip)] == pre + q[..iq + MarkerLen(q, iq)]
    requires p[ip + MarkerLen(p, ip)..] == q[iq + MarkerLen(q, iq)..]
    ensures TruncateAfterMarker(p) == pre + TruncateAfterMarker(q)
  {
    var ep, eq := ip + MarkerLen(p, ip), iq + MarkerLen(q, iq);
    var t := q[eq..];
    var x := if LineEnd(t) then FinalLineFeed(t) else TruncateAfterMarker(t);
    assert TruncateAfterMarker(p) == p[..ep] + x by {
      TruncateAt(p, ip);
    }
    assert TruncateAfterMarker(q) == q[..eq] + x by {
      TruncateAt(q, iq);
    }
    SeqAssoc3(pre, q[..eq], x);
  }

  lemma SeqAssoc3(a: string, b: string, c: string)
    ensures (a + b) + c == a + (b + c)
  {
  }

  /** Cutting `done + rest` inside `rest` cuts `rest`. */
  lemma CutConcat(done: string, rest: string, e: nat)
    requires e <= |rest|
    ensures (done + rest)[..|done| + e] == done + rest[..e]
    ensures (done + rest)[|done| + e..] == rest[e..]
  {
  }

  /** Reconstruction never looks back: a marker-free prefix ending in `]`
      (such as text already rewritten to `[k]`) passes through untouched. */
  lemma {:induction false} ReconstructConcat(done: string, rest: string, levels: seq<Option<nat>>)
    requires NoMarker(done) && (done == [] || done[|done| - 1] == ']')
    ensures Reconstruct(done + rest, levels) == done + Reconstruct(rest, levels)
    decreases |levels|
  {
    if levels != [] {
      match levels[0]
      case None =>
        TruncateConcat(done, rest);
      case Some(k) =>
        ReplaceConcat(done, rest, k);
        ReconstructConcat(done, ReplaceFirstMarker(rest, k), levels[1..]);
    }
  }

  /** One index level consumes exactly the leftmost marker of the ORIGINAL
      path: the `[k]` it writes is never matched again by later levels. */
  lemma ReconstructStep(p: string, k: nat, levels: seq<Option<nat>>)
    requires FirstMarker(p).Some?
    ensures var i := FirstMarker(p).value;
      Reconstruct(p, [Some(k)] + levels)
        == p[..i] + IndexText(k) + Reconstruct(p[i + MarkerLen(p, i)..], levels)
  {
    var i := FirstMarker(p).value;
    var done := p[..i] + IndexText(k);
    var rest := p[i + MarkerLen(p, i)..];
    NoMarkerBeforeFirst(p);
    ReplacedPrefixHasNoMarker(p[..i], k);
    assert ([Some(k)] + levels)[1..] == levels;
    assert ReplaceFirstMarker(p, k) == done + rest;
    ReconstructConcat(done, rest, levels);
  }

  /** Cutting a string at a clean seam splits its markers between the parts. */
  lemma HasMarkerConcat(a: string, b: string)
    requires CleanSeam(a, b)
    ensures HasMarker(a + b) <==> HasMarker(a) || HasMarker(b)
  {
    if HasMarker(a) {
      var j :| 0 <= j < |a| && MarkerAt(a, j);
      assert (a + b)[..|a|] == a;
      MarkerAtPrefix(a + b, |a|, j);
    } else if HasMarker(b) {
      var j :| 0 <= j < |b| && MarkerAt(b, j);
      MarkerAtShift(a, b, j);
    } else {
      FirstMarkerConcat(a, b);
    }
  }

  function Lift(idx: seq<nat>): (levels: seq<Option<nat>>)
    ensures |levels| == |idx|
    ensures forall i :: 0 <= i < |idx| ==> levels[i] == Some(idx[i])
  {
    seq(|idx|, i requires 0 <= i < |idx| => Some(idx[i]))
  }

  /** Cutting a path without line feeds after its first marker leaves a
      path ending at that marker. */
  lemma CutEndsAtMarker(p: string)
    requires FirstMarker(p).Some? && '\n' !in p
    ensures var r := Reconstruct(p, [None]);
      && FirstMarker(r).Some?
      && FirstMarker(r).value + MarkerLen(r, FirstMarker(r).value) == |r|
  {
    var i := FirstMarker(p).value;
    var n := MarkerLen(p, i);
    var r := p[..i + n];
    assert Reconstruct(p, [None]) == r by {
      assert forall c :: c in p[i + n..] ==> c in p;
      NoLineFeed(p[i + n..]);
    }
    assert r[i] == p[i] && r[i + 1] == p[i + 1] && r[i + n - 1] == p[i + n - 1];
    forall j | 0 <= j < i
      ensures !MarkerAt(r, j)
    {
      MarkerAtPrefix(p, i + n, j);
    }
    FirstMarkerIs(r, i);
  }

  /** A marker-free prefix keeps a path ending at its first marker. */
  lemma PrefixKeepsEndMarker(done: string, r: string)
    requires NoMarker(done) && CleanSeam(done, r)
    requires FirstMarker(r).Some? && FirstMarker(r).value + MarkerLen(r, FirstMarker(r).value) == |r|
    ensures var p := done + r;
      && FirstMarker(p).Some?
      && FirstMarker(p).value + MarkerLen(p, FirstMarker(p).value) == |p|
  {
    FirstMarkerConcat(done, r);
    var j := FirstMarker(r).value;
    assert (done + r)[|done| + j + 1] == r[j + 1];
    assert MarkerLen(done + r, |done| + j) == MarkerLen(r, j);
  }

  /** With enough markers in `p` and no line feed, the path named in the error message ends
      with a wildcard marker, the offending axis, and it is the only one left:
      every earlier axis has been pinned to a concrete index. */
  lemma {:induction false} ReconstructEndsAtOffendingAxis(p: string, idx: seq<nat>)
    requires MarkerCount(p) > |idx| && '\n' !in p
    ensures var r := Reconstruct(p, Lift(idx) + [None]);
      && FirstMarker(r).Some?
      && FirstMarker(r).value + MarkerLen(r, FirstMarker(r).value) == |r|
    decreases |idx|
  {
    if idx == [] {
      assert Lift(idx) + [None] == [None];
      CutEndsAtMarker(p);
    } else {
      var i := FirstMarker(p).value;
      var k := idx[0];
      var rest := p[i + MarkerLen(p, i)..];
      var done := p[..i] + IndexText(k);
      var later := Lift(idx[1..]) + [None];
      assert Reconstruct(p, Lift(idx) + [None]) == done + Reconstruct(rest, later) by {
        assert Lift(idx) + [None] == [Some(k)] + later;
        ReconstructStep(p, k, later);
      }
      assert MarkerCount(rest) > |idx[1..]|;
      assert '\n' !in rest by {
        assert forall c :: c in rest ==> c in p;
      }
      ReconstructEndsAtOffendingAxis(rest, idx[1..]);
      assert NoMarker(done) by {
        NoMarkerBeforeFirst(p);
        ReplacedPrefixHasNoMarker(p[..i], k);
      }
      PrefixKeepsEndMarker(done, Reconstruct(rest, later));
    }
  }
}
