/**
 * Stable sorting by a key comparison, the model of Python's `list.sort(key=...)`
 * and `sorted(..., key=...)`. Both are stable: elements whose keys compare
 * equal keep their input order. The order is given as `le`, "key of a <= key
 * of b", which must be a total preorder.
 */
module Sorting {
  import opened Text

  /** Any two elements are comparable, and the comparison chains. */
  ghost predicate TotalPreorder<T(!new)>(le: (T, T) -> bool) {
    && (forall a, b :: le(a, b) || le(b, a))
    && (forall a, b, c :: le(a, b) && le(b, c) ==> le(a, c))
  }

  ghost predicate SortedBy<T>(s: seq<T>, le: (T, T) -> bool) {
    forall i, j :: 0 <= i < j < |s| ==> le(s[i], s[j])
  }

  /** x and k have equal keys. */
  predicate Equivalent<T>(x: T, k: T, le: (T, T) -> bool) {
    le(x, k) && le(k, x)
  }

  /** x placed after every leading element of s whose key does not exceed x's. */
  function InsertBy<T>(x: T, s: seq<T>, le: (T, T) -> bool): (r: seq<T>)
    ensures multiset(r) == multiset(s) + multiset{x}
  {
    if s == [] then [x]
    else if le(s[0], x) then
      assert s == [s[0]] + s[1..];
      [s[0]] + InsertBy(x, s[1..], le)
    else [x] + s
  }

  /** Insertion sort over the input from left to right. */
  function SortBy<T>(s: seq<T>, le: (T, T) -> bool): (r: seq<T>)
    ensures multiset(r) == multiset(s)
    ensures |r| == |s|
  {
    if s == [] then []
    else
      var init, last := s[..|s| - 1], s[|s| - 1];
      var r := InsertBy(last, SortBy(init, le), le);
      assert multiset(s) == multiset(init) + multiset{last} by {
        assert s == init + [last];
      }
      r
  }

  lemma {:induction false} InsertSorted<T(!new)>(x: T, s: seq<T>, le: (T, T) -> bool)
    requires TotalPreorder(le) && SortedBy(s, le)
    ensures SortedBy(InsertBy(x, s, le), le)
  {
    if s != [] && le(s[0], x) {
      InsertSorted(x, s[1..], le);
      var r := InsertBy(x, s, le);
      forall j | 0 < j < |r| ensures le(r[0], r[j]) {
        assert r[j] in multiset(s[1..]) + multiset{x};
        if r[j] == x {
        } else {
          assert r[j] in s[1..];
        }
      }
    }
  }

  /** The result of SortBy is ordered by the key. */
  lemma {:induction false} SortBySorted<T(!new)>(s: seq<T>, le: (T, T) -> bool)
    requires TotalPreorder(le)
    ensures SortedBy(SortBy(s, le), le)
  {
    if s != [] {
      SortBySorted(s[..|s| - 1], le);
      InsertSorted(s[|s| - 1], SortBy(s[..|s| - 1], le), le);
    }
  }

  /** The elements of s whose key equals k's, in their order in s. */
  function Equivalents<T>(s: seq<T>, k: T, le: (T, T) -> bool): seq<T> {
    if s == [] then [] else Kept(s[0], k, le) + Equivalents(s[1..], k, le)
  }

  /** x alone if its key equals k's, nothing otherwise. */
  function Kept<T>(x: T, k: T, le: (T, T) -> bool): seq<T> {
    if Equivalent(x, k, le) then [x] else []
  }

  lemma {:induction false} EquivalentsAppend<T>(a: seq<T>, b: seq<T>, k: T, le: (T, T) -> bool)
    ensures Equivalents(a + b, k, le) == Equivalents(a, k, le) + Equivalents(b, k, le)
  {
    if a == [] {
      assert a + b == b;
    } else {
      var ab := a + b;
      assert ab[0] == a[0];
      assert ab[1..] == a[1..] + b;
      EquivalentsAppend(a[1..], b, k, le);
      assert Equivalents(ab, k, le) == Kept(a[0], k, le) + Equivalents(ab[1..], k, le);
    }
  }

  lemma {:induction false} EquivalentsNone<T>(s: seq<T>, k: T, le: (T, T) -> bool)
    requires forall i :: 0 <= i < |s| ==> !Equivalent(s[i], k, le)
    ensures Equivalents(s, k, le) == []
  {
    if s != [] {
      EquivalentsNone(s[1..], k, le);
    }
  }

  lemma {:induction false} InsertEquivalents<T(!new)>(x: T, s: seq<T>, k: T, le: (T, T) -> bool)
    requires TotalPreorder(le) && SortedBy(s, le)
    ensures Equivalents(InsertBy(x, s, le), k, le)
         == Equivalents(s, k, le) + Kept(x, k, le)
  {
    if s == [] {
      EquivalentsCons(x, [], k, le);
    } else if le(s[0], x) {
      assert SortedBy(s[1..], le);
      InsertEquivalents(x, s[1..], k, le);
      InsertPastHead(x, s, k, le);
    } else {
      InsertFrontEquivalents(x, s, k, le);
    }
  }

  /** Inserting past the head of s leaves the head where it was. */
  lemma InsertPastHead<T>(x: T, s: seq<T>, k: T, le: (T, T) -> bool)
    requires s != [] && le(s[0], x)
    requires Equivalents(InsertBy(x, s[1..], le), k, le) == Equivalents(s[1..], k, le) + Kept(x, k, le)
    ensures Equivalents(InsertBy(x, s, le), k, le) == Equivalents(s, k, le) + Kept(x, k, le)
  {
    assert InsertBy(x, s, le) == [s[0]] + InsertBy(x, s[1..], le);
    assert s == [s[0]] + s[1..];
    ConsEquivalents(s[0], InsertBy(x, s[1..], le), s[1..], Kept(x, k, le), k, le);
  }

  lemma ConsEquivalents<T>(h: T, t: seq<T>, u: seq<T>, e: seq<T>, k: T, le: (T, T) -> bool)
    requires Equivalents(t, k, le) == Equivalents(u, k, le) + e
    ensures Equivalents([h] + t, k, le) == Equivalents([h] + u, k, le) + e
  {
    EquivalentsCons(h, t, k, le);
    EquivalentsCons(h, u, k, le);
    PrefixChain(Equivalents([h] + t, k, le), Equivalents([h] + u, k, le), Kept(h, k, le), Equivalents(t, k, le), Equivalents(u, k, le), e);
  }

  lemma PrefixChain<T>(p: seq<T>, q: seq<T>, a: seq<T>, x: seq<T>, y: seq<T>, e: seq<T>)
    requires p == a + x && q == a + y && x == y + e
    ensures p == q + e
  {
    assert a + (y + e) == (a + y) + e;
  }

  lemma EquivalentsCons<T>(h: T, t: seq<T>, k: T, le: (T, T) -> bool)
    ensures Equivalents([h] + t, k, le) == Kept(h, k, le) + Equivalents(t, k, le)
  {
    assert ([h] + t)[1..] == t;
  }

  /** An element placed before the whole of s keeps its place among its equivalents. */
  lemma InsertFrontEquivalents<T(!new)>(x: T, s: seq<T>, k: T, le: (T, T) -> bool)
    requires TotalPreorder(le) && SortedBy(s, le) && s != [] && !le(s[0], x)
    ensures Equivalents([x] + s, k, le) == Equivalents(s, k, le) + Kept(x, k, le)
  {
    EquivalentsCons(x, s, k, le);
    if Equivalent(x, k, le) {
      BelowHasNoEquivalents(x, s, k, le);
      EquivalentsNone(s, k, le);
    }
  }

  lemma BelowHasNoEquivalents<T(!new)>(x: T, s: seq<T>, k: T, le: (T, T) -> bool)
    requires TotalPreorder(le) && SortedBy(s, le)
    requires s != [] && !le(s[0], x) && Equivalent(x, k, le)
    ensures forall i :: 0 <= i < |s| ==> !Equivalent(s[i], k, le)
  {
    forall i | 0 <= i < |s| ensures !Equivalent(s[i], k, le) {
      assert i == 0 || le(s[0], s[i]);
    }
  }

  /** Stability: among elements with equal keys, SortBy keeps the input order. */
  lemma {:induction false} SortByStable<T(!new)>(s: seq<T>, k: T, le: (T, T) -> bool)
    requires TotalPreorder(le)
    ensures Equivalents(SortBy(s, le), k, le) == Equivalents(s, k, le)
  {
    if s != [] {
      var init, last := s[..|s| - 1], s[|s| - 1];
      var sorted := SortBy(init, le);
      assert SortBy(s, le) == InsertBy(last, sorted, le);
      SortByStable(init, k, le);
      SortBySorted(init, le);
      InsertEquivalents(last, sorted, k, le);
      EquivalentsLast(s, k, le);
    }
  }

  lemma EquivalentsLast<T>(s: seq<T>, k: T, le: (T, T) -> bool)
    requires s != []
    ensures Equivalents(s, k, le) == Equivalents(s[..|s| - 1], k, le) + Kept(s[|s| - 1], k, le)
  {
    var init, x := s[..|s| - 1], s[|s| - 1];
    assert s == init + [x];
    EquivalentsAppend(init, [x], k, le);
    EquivalentsCons(x, [], k, le);
    assert [x] + [] == [x];
  }

  /** x is y with some elements left out, the rest kept in order. */
  predicate IsSubsequence<T(==)>(x: seq<T>, y: seq<T>)
    decreases |y|
  {
    x == [] || (y != [] && (IsSubsequence(x, y[..|y| - 1]) || (x[|x| - 1] == y[|y| - 1] && IsSubsequence(x[..|x| - 1], y[..|y| - 1]))))
  }

  /** Every element is below the next, so none repeats. */
  predicate StrictlySorted(s: seq<string>) {
    forall i, j :: 0 <= i < j < |s| ==> Below(s[i], s[j])
  }

  /** A non-empty set of strings has a least element. */
  lemma {:induction false} MinimumExists(s: set<string>)
    requires s != {}
    ensures exists m :: IsLeast(m, s)
    decreases |s|
  {
    var y :| y in s;
    if s != {y} {
      var rest := s - {y};
      MinimumExists(rest);
      var m :| IsLeast(m, rest);
      LeastOfMore(m, rest, y);
      assert s == rest + {y};
      if !IsLeast(m, s) {
        assert IsLeast(y, s);
      }
    } else {
      assert IsLeast(y, s);
    }
  }

  /** m is in s and below every other element of s. */
  predicate IsLeast(m: string, s: set<string>) {
    m in s && forall x :: x in s && x != m ==> Below(m, x)
  }

  /** Adding y to a set whose least element is m: the least of the two is least. */
  lemma LeastOfMore(m: string, rest: set<string>, y: string)
    requires IsLeast(m, rest) && y !in rest
    ensures IsLeast(m, rest + {y}) || IsLeast(y, rest + {y})
  {
    BelowTotal(y, m);
    if Below(y, m) {
      forall x | x in rest + {y} && x != y ensures Below(y, x) {
        if x != m {
          BelowTransitive(y, m, x);
        }
      }
    }
  }

  /** The least element of a non-empty set of strings. */
  function Least(s: set<string>): (m: string)
    requires s != {}
    ensures IsLeast(m, s)
  {
    MinimumExists(s);
    LeastUnique(s);
    var m :| IsLeast(m, s);
    m
  }

  lemma LeastUnique(s: set<string>)
    ensures forall a, b :: IsLeast(a, s) && IsLeast(b, s) ==> a == b
  {
    forall a, b | IsLeast(a, s) && IsLeast(b, s) ensures a == b {
      if a != b {
        BelowStrictTotal(a, b);
      }
    }
  }

  /** Python's sorted(s) for a set of strings: its elements in ascending order, each once. */
  function SortedSet(s: set<string>): (r: seq<string>)
    ensures StrictlySorted(r)
    ensures forall x :: x in r <==> x in s
    ensures |r| == |s|
    decreases |s|
  {
    if s == {} then []
    else
      var m := Least(s);
      var rest := SortedSet(s - {m});
      LeastFirst(m, s, rest);
      [m] + rest
  }

  /** The least element, then the rest in order: the whole set in order. */
  lemma LeastFirst(m: string, s: set<string>, rest: seq<string>)
    requires IsLeast(m, s) && StrictlySorted(rest)
    requires (forall x :: x in rest <==> x in s - {m}) && |rest| == |s - {m}|
    ensures StrictlySorted([m] + rest)
    ensures (forall x :: x in [m] + rest <==> x in s) && |[m] + rest| == |s|
  {
    var r := [m] + rest;
    forall i, j | 0 <= i < j < |r| ensures Below(r[i], r[j]) {
      assert r[j] == rest[j - 1] && r[j] in s - {m};
      if i > 0 {
        assert r[i] == rest[i - 1];
      }
    }
  }
}
