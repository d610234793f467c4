/** String helpers the source borrows from PHP: `trim`, `ctype_digit`, `(int)`
    casts, integer-to-string concatenation and `str_replace`. */
module Text {
  import opened Wrappers

  /** The characters PHP's `trim` strips when no character list is given. */
  const Whitespace: set<char> := {' ', '\t', '\n', '\r', '\0', 11 as char}

  /** `r` is a suffix of `s` whose dropped prefix is made of characters in
      `cs` and whose first character is not. */
  predicate TrimmedLeft(s: string, r: string, cs: set<char>) {
    && |r| <= |s| && r == s[|s| - |r|..]
    && (forall i :: 0 <= i < |s| - |r| ==> s[i] in cs)
    && (r != [] ==> r[0] !in cs)
  }

  /** `r` is a prefix of `s` whose dropped suffix is made of characters in
      `cs` and whose last character is not. */
  predicate TrimmedRight(s: string, r: string, cs: set<char>) {
    && |r| <= |s| && r == s[..|r|]
    && (forall i :: |r| <= i < |s| ==> s[i] in cs)
    && (r != [] ==> r[|r| - 1] !in cs)
  }

  /** `ltrim(s, cs)`: drops the longest prefix made of characters in `cs`. */
  function TrimLeft(s: string, cs: set<char>): (r: string)
    ensures TrimmedLeft(s, r, cs)
    decreases |s|
  {
    if s != [] && s[0] in cs then
      var r := TrimLeft(s[1..], cs);
      assert forall i :: 1 <= i < |s| ==> s[i] == s[1..][i - 1];
      r
    else s
  }

  /** `rtrim(s, cs)`: drops the longest suffix made of characters in `cs`. */
  function TrimRight(s: string, cs: set<char>): (r: string)
    ensures TrimmedRight(s, r, cs)
    decreases |s|
  {
    if s != [] && s[|s| - 1] in cs then TrimRight(s[..|s| - 1], cs) else s
  }

  /** `r` is what is left of `s` after stripping characters of `cs`: it
      starts at `lo`, everything before and after it is in `cs`, and its
      own first and last characters are not. */
  predicate TrimmedInfix(s: string, lo: nat, r: string, cs: set<char>) {
    && lo + |r| <= |s|
    && r == s[lo..lo + |r|]
    && (forall i :: 0 <= i < lo ==> s[i] in cs)
    && (forall i :: lo + |r| <= i < |s| ==> s[i] in cs)
    && (r != [] ==> r[0] !in cs && r[|r| - 1] !in cs)
  }

  /** `trim(s, cs)`: the infix of `s` left after stripping `cs` from both ends. */
  function Trim(s: string, cs: set<char>): (r: string)
    ensures TrimmedInfix(s, |s| - |TrimLeft(s, cs)|, r, cs)
  {
    var l := TrimLeft(s, cs);
    var r := TrimRight(l, cs);
    InfixOfSuffix(s, l, r, cs);
    r
  }

  /** A prefix `r` of a suffix `l` of `s` is an infix of `s`: whatever `l`
      holds after `r` is what `s` holds there, and `r` starts as `l` does. */
  lemma InfixOfSuffix(s: string, l: string, r: string, cs: set<char>)
    requires TrimmedLeft(s, l, cs) && TrimmedRight(l, r, cs)
    ensures TrimmedInfix(s, |s| - |l|, r, cs)
  {
    var lo := |s| - |l|;
    forall i | lo + |r| <= i < |s|
      ensures s[i] in cs
    {
      assert s[i] == l[i - lo];
    }
  }

  /** Trimming a second time changes nothing. */
  lemma TrimIdempotent(s: string, cs: set<char>)
    ensures Trim(Trim(s, cs), cs) == Trim(s, cs)
  {
    var r := Trim(s, cs);
    assert TrimLeft(r, cs) == r;
  }

  /** A string whose ends are outside `cs` is its own trim. */
  lemma TrimKeeps(s: string, cs: set<char>)
    requires s != [] && s[0] !in cs && s[|s| - 1] !in cs
    ensures Trim(s, cs) == s
  {
    assert TrimLeft(s, cs) == s;
    assert TrimRight(s, cs) == s;
  }

  predicate IsDigit(c: char) {
    '0' <= c <= '9'
  }

  /** `ctype_digit(s)`: non-empty and made only of decimal digits. */
  predicate AllDigits(s: string) {
    s != [] && forall i :: 0 <= i < |s| ==> IsDigit(s[i])
  }

  /** The decimal spelling PHP uses for a non-negative integer: no leading zero. */
  predicate Canonical(s: string) {
    AllDigits(s) && (s[0] != '0' || |s| == 1)
  }

  /** The value of a string of decimal digits, as `(int)` computes it. */
  function DecimalValue(s: string): nat
    requires forall i :: 0 <= i < |s| ==> IsDigit(s[i])
  {
    if s == [] then 0
    else
      var last := s[|s| - 1];
      assert IsDigit(last);
      DecimalValue(s[..|s| - 1]) * 10 + (last as int - '0' as int)
  }

  function DigitChar(d: nat): (c: char)
    requires d < 10
    ensures IsDigit(c) && c as int - '0' as int == d
  {
    ('0' as int + d) as char
  }

  /** Integer-to-string conversion, as in `'[' . $level . ']'`. */
  function NatToString(n: nat): (s: string)
    ensures Canonical(s)
  {
    if n < 10 then [DigitChar(n)] else NatToString(n / 10) + [DigitChar(n % 10)]
  }

  /** Reading back a written number gives the number. */
  lemma {:induction false} DecimalOfNatToString(n: nat)
    ensures DecimalValue(NatToString(n)) == n
  {
    if n >= 10 {
      var s := NatToString(n);
      assert s[..|s| - 1] == NatToString(n / 10);
      DecimalOfNatToString(n / 10);
    }
  }

  lemma {:induction false} LeadingDigitPositive(s: string)
    requires AllDigits(s) && s[0] != '0'
    ensures DecimalValue(s) >= 1
  {
    if |s| > 1 {
      LeadingDigitPositive(s[..|s| - 1]);
    }
  }

  /** Writing back a canonical numeral gives the numeral. */
  lemma {:induction false} NatToStringOfDecimal(s: string)
    requires Canonical(s)
    ensures NatToString(DecimalValue(s)) == s
  {
    if |s| > 1 {
      var a := s[..|s| - 1];
      assert s == a + [s[|s| - 1]];
      LeadingDigitPositive(a);
      NatToStringOfDecimal(a);
    }
  }

  /** `str_replace(pat, '', s)`: one left-to-right pass deleting every
      non-overlapping occurrence of `pat`. */
  function RemoveAll(s: string, pat: string): (r: string)
    requires pat != []
    ensures |r| <= |s|
    decreases |s|
  {
    if s == [] then []
    else if pat <= s then RemoveAll(s[|pat|..], pat)
    else [s[0]] + RemoveAll(s[1..], pat)
  }

  /** `str_contains(s, pat)`. */
  predicate Contains(s: string, pat: string)
    decreases |s|
  {
    pat <= s || (s != [] && Contains(s[1..], pat))
  }

  /** Without an occurrence of `pat`, `str_replace` leaves `s` alone. */
  lemma {:induction false} RemoveAbsent(s: string, pat: string)
    requires pat != [] && !Contains(s, pat)
    ensures RemoveAll(s, pat) == s
    decreases |s|
  {
    if s != [] {
      RemoveAbsent(s[1..], pat);
    }
  }

  /** `ltrim` stops at the first character outside `cs`. */
  lemma TrimLeftAt(s: string, cs: set<char>, k: nat)
    requires k <= |s| && (k == |s| || s[k] !in cs)
    requires forall i :: 0 <= i < k ==> s[i] in cs
    ensures TrimLeft(s, cs) == s[k..]
  {
    var r := TrimLeft(s, cs);
    if |s| - |r| != k {
      assert false;
    }
  }

  /** `trim` of a string that ends outside `cs` cuts exactly the leading
      characters in `cs`. */
  lemma TrimAt(s: string, cs: set<char>, k: nat)
    requires k < |s| && s[k] !in cs && s[|s| - 1] !in cs
    requires forall i :: 0 <= i < k ==> s[i] in cs
    ensures Trim(s, cs) == s[k..]
  {
    TrimLeftAt(s, cs, k);
    TrimRightAt(s[k..], cs);
  }

  /** `strpos` finds the first occurrence. */
  lemma IndexOfAt(s: string, c: char, d: nat)
    requires d < |s| && s[d] == c && c !in s[..d]
    ensures IndexOf(s, c) == Some(d)
  {
    assert s[d] in s;
    var r := IndexOf(s, c);
    if r.value != d {
      assert false;
    }
  }

  /** A string whose last character is outside `cs` is its own `rtrim`. */
  lemma TrimRightAt(s: string, cs: set<char>)
    requires s != [] && s[|s| - 1] !in cs
    ensures TrimRight(s, cs) == s
  {
  }

  /** An occurrence of `pat` begins with its first character. */
  lemma {:induction false} ContainsFirst(s: string, pat: string)
    requires pat != [] && Contains(s, pat)
    ensures pat[0] in s
    decreases |s|
  {
    if !(pat <= s) {
      ContainsFirst(s[1..], pat);
    }
  }

  /** A string ending in `pat` contains it. */
  lemma {:induction false} ContainsSuffix(a: string, pat: string)
    ensures Contains(a + pat, pat)
    decreases |a|
  {
    if a != [] {
      assert (a + pat)[1..] == a[1..] + pat;
      ContainsSuffix(a[1..], pat);
    }
  }

  /** A prefix without the first character of `pat` adds no occurrence. */
  lemma {:induction false} NotContainsAppend(a: string, b: string, pat: string)
    requires pat != [] && pat[0] !in a && !Contains(b, pat)
    ensures !Contains(a + b, pat)
    decreases |a|
  {
    if a != [] {
      assert (a + b)[0] == a[0];
      assert (a + b)[1..] == a[1..] + b;
      NotContainsAppend(a[1..], b, pat);
    } else {
      assert a + b == b;
    }
  }

  /** `str_replace` of a trailing `pat` that occurs nowhere else. */
  lemma {:induction false} RemoveAllTail(a: string, pat: string)
    requires pat != [] && pat[0] !in a
    ensures RemoveAll(a + pat, pat) == a
    decreases |a|
  {
    if a == [] {
      assert a + pat == pat && pat[|pat|..] == [];
    } else {
      assert (a + pat)[0] == a[0];
      assert (a + pat)[1..] == a[1..] + pat;
      RemoveAllTail(a[1..], pat);
      assert a == [a[0]] + a[1..];
    }
  }

  /** `strpos(s, c)`: the first position of `c` in `s`. */
  function IndexOf(s: string, c: char): (r: Option<nat>)
    ensures r.None? ==> c !in s
    ensures r.Some? ==> r.value < |s| && s[r.value] == c && c !in s[..r.value]
  {
    if s == [] then None
    else if s[0] == c then Some(0)
    else match IndexOf(s[1..], c)
      case None => None
      case Some(i) =>
        assert s[..i + 1] == [s[0]] + s[1..][..i];
        Some(i + 1)
  }

  /** `strrpos(s, c)`: the last position of `c` in `s`. */
  function LastIndexOf(s: string, c: char): (r: Option<nat>)
    ensures r.None? ==> c !in s
    ensures r.Some? ==> r.value < |s| && s[r.value] == c && c !in s[r.value + 1..]
  {
    if s == [] then None
    else if s[|s| - 1] == c then Some(|s| - 1)
    else match LastIndexOf(s[..|s| - 1], c)
      case None => None
      case Some(i) =>
        assert s[i + 1..] == s[..|s| - 1][i + 1..] + [s[|s| - 1]];
        Some(i)
  }

  /** `str_ends_with(s, suffix)`. */
  predicate EndsWith(s: string, suffix: string) {
    |suffix| <= |s| && s[|s| - |suffix|..] == suffix
  }

  /** The line feed PCRE's `$` may stand before: without the `D` modifier,
      `$` matches at the end of the subject and also just before a final
      `\n`. */
  function FinalLineFeed(s: string): (r: string)
    ensures r == [] || r == "\n"
    ensures EndsWith(s, r)
  {
    if s != [] && s[|s| - 1] == '\n' then "\n" else ""
  }

  /** The subject up to where `$` last matches. */
  function BeforeFinalLineFeed(s: string): (r: string)
    ensures s == r + FinalLineFeed(s)
  {
    s[..|s| - |FinalLineFeed(s)|]
  }

  /** `.*$` can consume `s` up to where `$` matches: without the `s` modifier
      `.` stops at a line feed, so none may come before a final one. */
  predicate LineEnd(s: string) {
    '\n' !in BeforeFinalLineFeed(s)
  }

  /** Text without line feeds is consumed whole. */
  lemma NoLineFeed(s: string)
    requires '\n' !in s
    ensures LineEnd(s) && FinalLineFeed(s) == [] && BeforeFinalLineFeed(s) == s
  {
    if s != [] {
      assert s[|s| - 1] in s;
    }
  }
}
