/**
 * The Python string operations the pipeline relies on (strip, lower, title,
 * split, splitlines, `in`, `<` and str() of an int), written out so that the
 * parsers and the key builders above them can be stated exactly.
 *
 * Case mapping is modelled for the ASCII letters only.
 */
module Text {

  /** A character Python's str.isspace() accepts (what str.strip() removes). */
  predicate IsSpace(c: char) {
    || c == ' ' || ('\t' <= c <= '\r') || ('\U{1c}' <= c <= '\U{1f}')
    || c == '\U{85}' || c == '\U{a0}' || c == '\U{1680}' || ('\U{2000}' <= c <= '\U{200a}')
    || c == '\U{2028}' || c == '\U{2029}' || c == '\U{202f}' || c == '\U{205f}' || c == '\U{3000}'
  }

  /** A character at which Python's str.splitlines() ends a line. */
  predicate IsLineBreak(c: char) {
    || c == '\n' || c == '\r' || c == '\U{b}' || c == '\U{c}' || ('\U{1c}' <= c <= '\U{1e}')
    || c == '\U{85}' || c == '\U{2028}' || c == '\U{2029}'
  }

  /** s with its leading whitespace removed. */
  function StripLeft(s: string): (r: string)
    ensures |r| <= |s| && r == s[|s| - |r|..]
    ensures r == [] || !IsSpace(r[0])
    ensures forall i :: 0 <= i < |s| - |r| ==> IsSpace(s[i])
  {
    if |s| > 0 && IsSpace(s[0]) then
      var r := StripLeft(s[1..]);
      assert s[1..][|s| - 1 - |r|..] == s[|s| - |r|..];
      assert forall i :: 1 <= i < |s| - |r| ==> s[i] == s[1..][i - 1];
      r
    else s
  }

  /** s with its trailing whitespace removed. */
  function StripRight(s: string): (r: string)
    ensures r <= s
    ensures r == [] || !IsSpace(r[|r| - 1])
    ensures forall i :: |r| <= i < |s| ==> IsSpace(s[i])
  {
    if |s| > 0 && IsSpace(s[|s| - 1]) then StripRight(s[..|s| - 1]) else s
  }

  /** r occurs in s starting at index k. */
  predicate SliceAt(s: string, r: string, k: int) {
    0 <= k <= |s| - |r| && s[k..k + |r|] == r
  }

  /** Python's s.strip(): s without its outer runs of whitespace. */
  function Strip(s: string): (r: string)
    ensures |r| <= |s|
    ensures r == [] || (!IsSpace(r[0]) && !IsSpace(r[|r| - 1]))
  {
    var l := StripLeft(s);
    var r := StripRight(l);
    assert r == [] ==> r == l[..|r|];
    assert r != [] ==> r[0] == l[0];
    r
  }

  /** Strip removes whitespace only: the result is a slice of s with only whitespace on either side. */
  lemma StripRemovesBlanksOnly(s: string)
    ensures exists k :: BlankMargins(s, Strip(s), k)
  {
    var l := StripLeft(s);
    var r := StripRight(l);
    assert Strip(s) == r;
    OuterBlanks(s, l, r);
  }

  /** r occurs in s at k with only whitespace before and after it. */
  predicate BlankMargins(s: string, r: string, k: int) {
    && SliceAt(s, r, k)
    && (forall i :: 0 <= i < k ==> IsSpace(s[i]))
    && (forall i :: k + |r| <= i < |s| ==> IsSpace(s[i]))
  }

  lemma OuterBlanks(s: string, l: string, r: string)
    requires |l| <= |s| && l == s[|s| - |l|..] && r <= l
    requires forall i :: 0 <= i < |s| - |l| ==> IsSpace(s[i])
    requires forall i :: |r| <= i < |l| ==> IsSpace(l[i])
    ensures BlankMargins(s, r, |s| - |l|)
  {
    var k := |s| - |l|;
    assert r == l[..|r|];
    forall i | k + |r| <= i < |s| ensures IsSpace(s[i]) {
      assert s[i] == l[i - k];
    }
  }

  function LowerChar(c: char): char {
    if 'A' <= c <= 'Z' then (c as int + 32) as char else c
  }

  function UpperChar(c: char): char {
    if 'a' <= c <= 'z' then (c as int - 32) as char else c
  }

  predicate IsLetter(c: char) {
    'A' <= c <= 'Z' || 'a' <= c <= 'z'
  }

  /** Python's s.lower(). */
  function Lower(s: string): string {
    seq(|s|, i requires 0 <= i < |s| => LowerChar(s[i]))
  }

  /** Lower-casing twice is lower-casing once. */
  lemma LowerIdempotent(s: string)
    ensures Lower(Lower(s)) == Lower(s)
  {
  }

  /** Python's s.title() continued from a state in which the previous character was (or was not) cased. */
  function TitleFrom(s: string, prevCased: bool): string {
    if s == [] then []
    else
      var c := if !IsLetter(s[0]) then s[0] else if prevCased then LowerChar(s[0]) else UpperChar(s[0]);
      [c] + TitleFrom(s[1..], IsLetter(s[0]))
  }

  /** Python's s.title(): a letter is upper-cased after a non-letter and lower-cased after a letter. */
  function Title(s: string): string {
    TitleFrom(s, false)
  }

  lemma {:induction false} LowerTitleFrom(s: string, prevCased: bool)
    ensures Lower(TitleFrom(s, prevCased)) == Lower(s)
  {
    if s != [] {
      LowerTitleFrom(s[1..], IsLetter(s[0]));
      assert Lower(TitleFrom(s, prevCased)) == [LowerChar(s[0])] + Lower(TitleFrom(s[1..], IsLetter(s[0])));
      assert Lower(s) == [LowerChar(s[0])] + Lower(s[1..]);
    }
  }

  /** Title-casing a word does not change its lower-case form. */
  lemma LowerOfTitle(s: string)
    ensures Lower(Title(s)) == Lower(s)
  {
    LowerTitleFrom(s, false);
  }

  /** Python's `sub in s`. */
  predicate Contains(s: string, sub: string)
    decreases |s|
  {
    sub <= s || (|s| > 0 && Contains(s[1..], sub))
  }

  lemma {:induction false} ContainsAt(s: string, sub: string, k: nat)
    requires k + |sub| <= |s| && s[k..k + |sub|] == sub
    ensures Contains(s, sub)
    decreases k
  {
    if k > 0 {
      assert s[1..][k - 1..k - 1 + |sub|] == sub;
      ContainsAt(s[1..], sub, k - 1);
    } else {
      assert sub <= s;
    }
  }

  /** Python's `c in s` for a single character agrees with Contains. */
  lemma {:induction false} ContainsChar(s: string, c: char)
    ensures Contains(s, [c]) <==> c in s
  {
    if s != [] {
      ContainsChar(s[1..], c);
      assert s == [s[0]] + s[1..];
    }
  }

  /** The fields joined with the separator between consecutive ones. */
  function Join(parts: seq<string>, sep: char): string {
    if |parts| == 0 then ""
    else if |parts| == 1 then parts[0]
    else parts[0] + [sep] + Join(parts[1..], sep)
  }

  /** Joining one more field appends the separator and the field. */
  lemma {:induction false} JoinSnoc(f: seq<string>, x: string, sep: char)
    requires |f| >= 1
    ensures Join(f + [x], sep) == Join(f, sep) + [sep] + x
    decreases |f|
  {
    if |f| == 1 {
      assert f + [x] == [f[0], x];
      assert Join([x], sep) == x;
    } else {
      JoinSnoc(f[1..], x, sep);
      assert (f + [x])[1..] == f[1..] + [x];
    }
  }

  /**
   * Python's s.split(sep) for a one-character separator: the maximal runs
   * of s free of sep, in order; joining them back gives s.
   */
  function Split(s: string, sep: char): (r: seq<string>)
    ensures |r| >= 1
    ensures forall i :: 0 <= i < |r| ==> sep !in r[i]
    ensures Join(r, sep) == s
    ensures (|r| == 1) <==> sep !in s
  {
    if s == [] then [""]
    else
      var rest := Split(s[1..], sep);
      if s[0] == sep then
        assert s == [sep] + s[1..];
        [""] + rest
      else
        var r := [[s[0]] + rest[0]] + rest[1..];
        assert s == [s[0]] + s[1..];
        assert |rest| > 1 ==> Join(rest, sep) == rest[0] + [sep] + Join(rest[1..], sep);
        assert |rest| > 1 ==> Join(r, sep) == r[0] + [sep] + Join(r[1..], sep);
        assert r[1..] == rest[1..];
        r
  }

  /** The first field of Split: the text before the first separator, or all of s. */
  lemma {:induction false} SplitHead(s: string, sep: char)
    ensures Split(s, sep)[0] <= s
    ensures |Split(s, sep)[0]| < |s| ==> s[|Split(s, sep)[0]|] == sep
  {
    var r := Split(s, sep);
    if |r| > 1 {
      assert Join(r, sep) == r[0] + [sep] + Join(r[1..], sep);
    }
  }

  /** Split undoes Join when no field holds the separator. */
  lemma {:induction false} SplitJoin(parts: seq<string>, sep: char)
    requires |parts| >= 1
    requires forall i :: 0 <= i < |parts| ==> sep !in parts[i]
    ensures Split(Join(parts, sep), sep) == parts
    decreases |parts|
  {
    if |parts| == 1 {
      SplitOfFree(parts[0], sep);
    } else {
      SplitJoin(parts[1..], sep);
      SplitPrefix(parts[0], Join(parts[1..], sep), sep);
    }
  }

  lemma {:induction false} SplitOfFree(s: string, sep: char)
    requires sep !in s
    ensures Split(s, sep) == [s]
  {
    var r := Split(s, sep);
    assert |r| == 1;
  }

  lemma {:induction false} SplitPrefix(a: string, b: string, sep: char)
    requires sep !in a
    ensures Split(a + [sep] + b, sep) == [a] + Split(b, sep)
    decreases |a|
  {
    var s := a + [sep] + b;
    if a == [] {
      assert s == [sep] + b;
      assert s[1..] == b;
    } else {
      assert s[1..] == a[1..] + [sep] + b;
      SplitPrefix(a[1..], b, sep);
      var rest := Split(s[1..], sep);
      assert rest == [a[1..]] + Split(b, sep);
      assert s[0] == a[0] != sep;
      assert Split(s, sep) == [[s[0]] + rest[0]] + rest[1..];
      assert [a[0]] + a[1..] == a;
    }
  }

  /** Index of the first line break in s, or |s| when there is none. */
  function LineLength(s: string): (n: nat)
    ensures n <= |s|
    ensures n < |s| ==> IsLineBreak(s[n])
    ensures forall i :: 0 <= i < n ==> !IsLineBreak(s[i])
  {
    if s == [] || IsLineBreak(s[0]) then 0 else 1 + LineLength(s[1..])
  }

  /**
   * Python's s.splitlines(): the lines of s without their terminators; a
   * "\r\n" pair ends one line, and a terminator at the very end does not
   * open an empty last line.
   */
  function SplitLines(s: string): (r: seq<string>)
    ensures forall l :: l in r ==> forall i :: 0 <= i < |l| ==> !IsLineBreak(l[i])
    ensures s == [] <==> r == []
    decreases |s|
  {
    if s == [] then []
    else [s[..LineLength(s)]] + SplitLines(s[NextLine(s)..])
  }

  /** Where the second line of s starts: past the first terminator ("\r\n" counts as one), or the end of s. */
  function NextLine(s: string): (k: nat)
    requires s != []
    ensures 0 < k <= |s|
  {
    var n := LineLength(s);
    if n == |s| then n else if s[n] == '\r' && n + 1 < |s| && s[n + 1] == '\n' then n + 2 else n + 1
  }

  /** The lines of a blank text are blank. */
  lemma {:induction false} SplitLinesBlank(s: string)
    requires forall i :: 0 <= i < |s| ==> IsSpace(s[i])
    ensures forall j :: 0 <= j < |SplitLines(s)| ==> forall c :: 0 <= c < |SplitLines(s)[j]| ==> IsSpace(SplitLines(s)[j][c])
    decreases |s|
  {
    if s != [] {
      var t := s[NextLine(s)..];
      SplitLinesBlank(t);
      BlankCons(s[..LineLength(s)], SplitLines(t));
    }
  }

  lemma BlankCons(first: string, rest: seq<string>)
    requires forall c :: 0 <= c < |first| ==> IsSpace(first[c])
    requires forall j :: 0 <= j < |rest| ==> forall c :: 0 <= c < |rest[j]| ==> IsSpace(rest[j][c])
    ensures forall j :: 0 <= j < |[first] + rest| ==> forall c :: 0 <= c < |([first] + rest)[j]| ==> IsSpace(([first] + rest)[j][c])
  {
    var r := [first] + rest;
    forall j | 0 <= j < |r| ensures forall c :: 0 <= c < |r[j]| ==> IsSpace(r[j][c]) {
      if j > 0 {
        assert r[j] == rest[j - 1];
      }
    }
  }

  /** Python's a < b on strings: lexicographic by code point, a proper prefix first. */
  predicate Below(a: string, b: string) {
    |b| > 0 && (|a| == 0 || a[0] < b[0] || (a[0] == b[0] && Below(a[1..], b[1..])))
  }

  lemma {:induction false} BelowIrreflexive(a: string)
    ensures !Below(a, a)
  {
    if |a| > 0 {
      BelowIrreflexive(a[1..]);
    }
  }

  lemma {:induction false} BelowTransitive(a: string, b: string, c: string)
    requires Below(a, b) && Below(b, c)
    ensures Below(a, c)
  {
    if |a| > 0 && a[0] == b[0] && b[0] == c[0] {
      BelowTransitive(a[1..], b[1..], c[1..]);
    }
  }

  lemma {:induction false} BelowTotal(a: string, b: string)
    ensures a == b || Below(a, b) || Below(b, a)
  {
    if |a| > 0 && |b| > 0 && a[0] == b[0] {
      BelowTotal(a[1..], b[1..]);
      assert a == [a[0]] + a[1..] && b == [b[0]] + b[1..];
    }
  }

  /** Every pair of strings is strictly ordered one way exactly, or equal. */
  lemma BelowStrictTotal(a: string, b: string)
    ensures Below(a, b) ==> !Below(b, a) && a != b
    ensures a == b || Below(a, b) || Below(b, a)
  {
    BelowTotal(a, b);
    BelowIrreflexive(a);
    if Below(a, b) && Below(b, a) {
      BelowTransitive(a, b, a);
    }
  }

  function DigitChar(d: int): char
    requires 0 <= d < 10
  {
    "0123456789"[d]
  }

  /** Python's str(n) for a natural number: its decimal digits, most significant first. */
  function NatToString(n: nat): (r: string)
    ensures |r| >= 1
    ensures forall i :: 0 <= i < |r| ==> '0' <= r[i] <= '9'
  {
    if n < 10 then [DigitChar(n)] else NatToString(n / 10) + [DigitChar(n % 10)]
  }

  /** Python's str(i) for an int. */
  function IntToString(i: int): string {
    if i < 0 then "-" + NatToString(-i) else NatToString(i)
  }
}
