/**
 * What the views do with query sets once the ORM is stripped away:
 * filter, `order_by`, slicing (`[:n]`) and mapping rows to records.
 * Orderings are by a key of integers compared lexicographically, which is how
 * Python, and a database under a binary collation such as SQLite's default,
 * compare strings (code point by code point, a prefix first) and, with
 * one-element keys, how they compare numbers.
 */
module Seqs {

  function Filter<T(!new)>(s: seq<T>, p: T -> bool): (r: seq<T>)
    ensures |r| <= |s|
    ensures forall x :: x in r <==> x in s && p(x)
    ensures forall i :: 0 <= i < |r| ==> p(r[i])
  {
    if s == [] then [] else (if p(s[0]) then [s[0]] else []) + Filter(s[1..], p)
  }

  /** Filtering keeps every occurrence of a kept value and none of the others. */
  lemma {:induction false} FilterCount<T(!new)>(s: seq<T>, p: T -> bool, x: T)
    ensures multiset(Filter(s, p))[x] == if p(x) then multiset(s)[x] else 0
  {
    if s != [] {
      FilterCount(s[1..], p, x);
      assert s == [s[0]] + s[1..];
    }
  }

  /** Filtering distributes over concatenation. */
  lemma {:induction false} FilterAppend<T(!new)>(a: seq<T>, b: seq<T>, p: T -> bool)
    ensures Filter(a + b, p) == Filter(a, p) + Filter(b, p)
  {
    if a != [] {
      FilterAppend(a[1..], b, p);
      assert (a + b)[1..] == a[1..] + b;
      assert (a + b)[0] == a[0];
      calc {
        Filter(a + b, p);
        (if p(a[0]) then [a[0]] else []) + Filter(a[1..] + b, p);
        (if p(a[0]) then [a[0]] else []) + (Filter(a[1..], p) + Filter(b, p));
      }
    } else {
      assert a + b == b;
    }
  }

  /** Filtering by a test every element passes changes nothing. */
  lemma {:induction false} FilterAll<T(!new)>(s: seq<T>, p: T -> bool)
    requires forall i :: 0 <= i < |s| ==> p(s[i])
    ensures Filter(s, p) == s
  {
    if s != [] {
      FilterAll(s[1..], p);
      assert p(s[0]);
      assert s == [s[0]] + s[1..];
    }
  }

  function Map<T, U>(s: seq<T>, f: T -> U): (r: seq<U>)
    ensures |r| == |s|
    ensures forall i :: 0 <= i < |s| ==> r[i] == f(s[i])
  {
    seq(|s|, i requires 0 <= i < |s| => f(s[i]))
  }

  /** Python slicing `s[:n]`. */
  function Take<T>(s: seq<T>, n: nat): (r: seq<T>)
    ensures |r| == if |s| < n then |s| else n
    ensures r == s[..|r|]
  {
    if |s| < n then s else s[..n]
  }

  /** The first `n` of a sorted sequence are its smallest: whatever is left
      out comes after all of them, and is left out only when `n` were taken. */
  lemma TakeSortedSmallest<T(!new)>(s: seq<T>, key: T -> seq<int>, n: nat, x: T)
    requires SortedBy(s, key) && x in s && x !in Take(s, n)
    ensures |Take(s, n)| == n
    ensures forall y :: y in Take(s, n) ==> LexLe(key(y), key(x))
  {
    var t := Take(s, n);
    var k :| 0 <= k < |s| && s[k] == x;
    assert k >= |t|;
    forall y | y in t ensures LexLe(key(y), key(x)) {
      var i :| 0 <= i < |t| && t[i] == y;
      assert s[i] == y;
    }
  }

  /** Lexicographic order on integer keys: a prefix comes first. */
  predicate LexLe(a: seq<int>, b: seq<int>) {
    |a| == 0 || (|b| > 0 && (a[0] < b[0] || (a[0] == b[0] && LexLe(a[1..], b[1..]))))
  }

  lemma {:induction false} LexLeTotal(a: seq<int>, b: seq<int>)
    ensures LexLe(a, b) || LexLe(b, a)
  {
    if |a| > 0 && |b| > 0 && a[0] == b[0] {
      LexLeTotal(a[1..], b[1..]);
    }
  }

  lemma {:induction false} LexLeTrans(a: seq<int>, b: seq<int>, c: seq<int>)
    requires LexLe(a, b) && LexLe(b, c)
    ensures LexLe(a, c)
  {
    if |a| > 0 && a[0] == b[0] && b[0] == c[0] {
      LexLeTrans(a[1..], b[1..], c[1..]);
    }
  }

  /** The code points of a string, the key strings are ordered by. */
  function StringKey(s: string): (k: seq<int>)
    ensures |k| == |s|
  {
    seq(|s|, i requires 0 <= i < |s| => s[i] as int)
  }

  ghost predicate SortedBy<T>(s: seq<T>, key: T -> seq<int>) {
    forall i, j :: 0 <= i < j < |s| ==> LexLe(key(s[i]), key(s[j]))
  }

  /** A head no greater than any element of a sorted tail keeps it sorted. */
  lemma SortedCons<T(!new)>(h: T, t: seq<T>, key: T -> seq<int>)
    requires SortedBy(t, key)
    requires forall y :: y in t ==> LexLe(key(h), key(y))
    ensures SortedBy([h] + t, key)
  {
    var s := [h] + t;
    forall i, j | 0 <= i < j < |s| ensures LexLe(key(s[i]), key(s[j])) {
      if i > 0 {
        assert s[i] == t[i - 1] && s[j] == t[j - 1];
      } else {
        assert s[j] in t;
      }
    }
  }

  function InsertBy<T(!new)>(x: T, s: seq<T>, key: T -> seq<int>): (r: seq<T>)
    requires SortedBy(s, key)
    ensures multiset(r) == multiset(s) + multiset{x}
    ensures SortedBy(r, key)
  {
    if s == [] then [x]
    else if LexLe(key(x), key(s[0])) then
      assert forall y :: y in s ==> LexLe(key(x), key(y)) by {
        forall y | y in s ensures LexLe(key(x), key(y)) {
          var j :| 0 <= j < |s| && s[j] == y;
          if j > 0 { LexLeTrans(key(x), key(s[0]), key(y)); }
        }
      }
      SortedCons(x, s, key);
      [x] + s
    else
      var t := InsertBy(x, s[1..], key);
      assert forall y :: y in t ==> LexLe(key(s[0]), key(y)) by {
        forall y | y in t ensures LexLe(key(s[0]), key(y)) {
          assert y in multiset(t);
          if y == x {
            LexLeTotal(key(x), key(s[0]));
          } else {
            assert y in multiset(s[1..]);
            var j :| 0 <= j < |s[1..]| && s[1..][j] == y;
            assert s[j + 1] == y;
          }
        }
      }
      SortedCons(s[0], t, key);
      assert s == [s[0]] + s[1..];
      [s[0]] + t
  }

  /** `order_by(key)`: a stable insertion sort. */
  function SortBy<T(!new)>(s: seq<T>, key: T -> seq<int>): (r: seq<T>)
    ensures multiset(r) == multiset(s)
    ensures SortedBy(r, key)
  {
    if s == [] then []
    else
      assert s == [s[0]] + s[1..];
      InsertBy(s[0], SortBy(s[1..], key), key)
  }

  /** Sorting keeps the length and the members. */
  lemma SortByMembers<T(!new)>(s: seq<T>, key: T -> seq<int>)
    ensures |SortBy(s, key)| == |s|
    ensures forall x :: x in SortBy(s, key) <==> x in s
  {
    var r := SortBy(s, key);
    assert |multiset(r)| == |multiset(s)|;
    forall x ensures x in r <==> x in s {
      assert x in r <==> x in multiset(r);
      assert x in s <==> x in multiset(s);
    }
  }

  /** No value occurs twice. */
  predicate Distinct<T(==)>(s: seq<T>) {
    forall i, j :: 0 <= i < j < |s| ==> s[i] != s[j]
  }

  /** The set of a sequence's elements. */
  function SetOf<T(!new)>(s: seq<T>): (r: set<T>)
    ensures forall x :: x in r <==> x in s
  {
    if s == [] then {} else {s[0]} + SetOf(s[1..])
  }

  /** A sequence has at least as many entries as distinct values, and exactly
      as many when no value repeats. */
  lemma {:induction false} DistinctCard<T(!new)>(s: seq<T>)
    ensures |SetOf(s)| <= |s|
    ensures |SetOf(s)| == |s| <==> Distinct(s)
  {
    if s != [] {
      var t := s[1..];
      DistinctCard(t);
      if s[0] in t {
        HeadRepeated(s);
      } else {
        HeadFresh(s);
      }
    }
  }

  /** A head that occurs again adds no value and is a repeat. */
  lemma HeadRepeated<T(!new)>(s: seq<T>)
    requires s != [] && s[0] in s[1..]
    ensures SetOf(s) == SetOf(s[1..]) && !Distinct(s)
  {
    var j :| 0 <= j < |s[1..]| && s[1..][j] == s[0];
    assert s[0] == s[j + 1];
  }

  /** A head that does not occur again adds one value and no repeat. */
  lemma HeadFresh<T(!new)>(s: seq<T>)
    requires s != [] && s[0] !in s[1..]
    ensures |SetOf(s)| == |SetOf(s[1..])| + 1
    ensures Distinct(s) <==> Distinct(s[1..])
  {
    assert SetOf(s) == {s[0]} + SetOf(s[1..]);
    assert s[0] !in SetOf(s[1..]);
    assert s == [s[0]] + s[1..];
    DistinctCons(s[0], s[1..]);
  }

  /** A value in front of a sequence without it: the whole has no repeat
      exactly when the sequence has none. */
  lemma DistinctCons<T>(h: T, t: seq<T>)
    requires h !in t
    ensures Distinct([h] + t) <==> Distinct(t)
  {
    var s := [h] + t;
    if Distinct(t) {
      forall i, j | 0 <= i < j < |s| ensures s[i] != s[j] {
        if i > 0 { assert s[i] == t[i - 1]; }
        assert s[j] == t[j - 1];
      }
    }
    if Distinct(s) {
      forall i, j | 0 <= i < j < |t| ensures t[i] != t[j] {
        assert t[i] == s[i + 1] && t[j] == s[j + 1];
      }
    }
  }

  /** Part of a finite set is the whole set exactly when it is as large. */
  lemma IntersectionCard<T>(a: set<T>, b: set<T>)
    ensures |a * b| <= |a|
    ensures |a * b| == |a| <==> a <= b
  {
    assert a == (a * b) + (a - b);
    assert (a * b) * (a - b) == {};
    assert |a| == |a * b| + |a - b|;
    if !(a <= b) {
      var x :| x in a && x !in b;
      assert x in a - b;
    }
  }
}
