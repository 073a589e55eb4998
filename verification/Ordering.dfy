// Python's ordering of strings, tuples and lists, and what `sorted(...)` of a
// set returns: the one duplicate-free ascending list with the same elements.
module Ordering {

  ghost predicate TotalOrder<T(!new)>(le: (T, T) -> bool) {
    && (forall a :: le(a, a))
    && (forall a, b :: le(a, b) || le(b, a))
    && (forall a, b :: le(a, b) && le(b, a) ==> a == b)
    && (forall a, b, c :: le(a, b) && le(b, c) ==> le(a, c))
  }

  /** Strictly ascending, hence without duplicates. */
  ghost predicate Ascending<T(!new)>(le: (T, T) -> bool, s: seq<T>) {
    forall i, j :: 0 <= i < j < |s| ==> le(s[i], s[j]) && s[i] != s[j]
  }

  /** `r` is what Python's `sorted(s)` returns for the set `s`. */
  ghost predicate IsSorted<T(!new)>(le: (T, T) -> bool, s: set<T>, r: seq<T>) {
    Ascending(le, r) && forall x :: x in r <==> x in s
  }

  /** The least element of a non-empty set. */
  function Least<T(!new)>(le: (T, T) -> bool, s: set<T>): (m: T)
    requires s != {} && TotalOrder(le)
    ensures m in s && forall x :: x in s ==> le(m, x)
  {
    LeastExists(le, s);
    var m :| m in s && forall x :: x in s ==> le(m, x);
    m
  }

  lemma {:induction false} LeastExists<T(!new)>(le: (T, T) -> bool, s: set<T>)
    requires s != {} && TotalOrder(le)
    ensures exists m :: m in s && forall x :: x in s ==> le(m, x)
    decreases |s|
  {
    var y :| y in s;
    if s == {y} {
      assert forall x :: x in s ==> le(y, x);
    } else {
      var rest := s - {y};
      assert s == rest + {y};
      LeastExists(le, rest);
      var m :| m in rest && forall x :: x in rest ==> le(m, x);
      if le(y, m) {
        assert y in s && forall x :: x in s ==> le(y, x);
      } else {
        assert m in s && forall x :: x in s ==> le(m, x);
      }
    }
  }

  /** Python's `sorted` on a set. */
  function Sorted<T(!new)>(le: (T, T) -> bool, s: set<T>): (r: seq<T>)
    requires TotalOrder(le)
    ensures IsSorted(le, s, r)
    decreases |s|
  {
    if s == {} then []
    else
      var m := Least(le, s);
      [m] + Sorted(le, s - {m})
  }

  /** A sorted list is determined by its elements. */
  lemma {:induction false} SortedUnique<T(!new)>(le: (T, T) -> bool, s: set<T>, a: seq<T>, b: seq<T>)
    requires TotalOrder(le) && IsSorted(le, s, a) && IsSorted(le, s, b)
    ensures a == b
    decreases |a|
  {
    if a == [] || b == [] {
      EmptySorted(le, s, a);
      EmptySorted(le, s, b);
    } else {
      assert a[0] in b && b[0] in a;
      assert a[0] == b[0];
      var t := s - {a[0]};
      assert IsSorted(le, t, a[1..]) by { TailSorted(le, s, a); }
      assert IsSorted(le, t, b[1..]) by { TailSorted(le, s, b); }
      SortedUnique(le, t, a[1..], b[1..]);
    }
  }

  lemma EmptySorted<T(!new)>(le: (T, T) -> bool, s: set<T>, a: seq<T>)
    requires IsSorted(le, s, a)
    ensures a == [] <==> s == {}
  {
    if a != [] { assert a[0] in a; }
  }

  lemma TailSorted<T(!new)>(le: (T, T) -> bool, s: set<T>, a: seq<T>)
    requires a != [] && IsSorted(le, s, a)
    ensures IsSorted(le, s - {a[0]}, a[1..])
  {
    forall x ensures x in a[1..] <==> x in s - {a[0]} {
      if x in a[1..] {
        var i :| 0 <= i < |a| - 1 && a[1..][i] == x;
        assert a[i + 1] == x && a[0] != a[i + 1];
      }
      if x in s - {a[0]} {
        var i :| 0 <= i < |a| && a[i] == x;
        assert a[1..][i - 1] == x;
      }
    }
  }

  /** Lexicographic order, shorter prefixes first: Python's order on lists,
      tuples and strings over an ordered element type. */
  predicate Lex<T(==,!new)>(le: (T, T) -> bool, a: seq<T>, b: seq<T>) {
    a == [] || (b != [] && (if a[0] == b[0] then Lex(le, a[1..], b[1..]) else le(a[0], b[0])))
  }

  function LexLe<T(==,!new)>(le: (T, T) -> bool): (seq<T>, seq<T>) -> bool {
    (a, b) => Lex(le, a, b)
  }

  lemma {:induction false} LexAntisymmetric<T(!new)>(le: (T, T) -> bool, a: seq<T>, b: seq<T>)
    requires TotalOrder(le) && Lex(le, a, b) && Lex(le, b, a)
    ensures a == b
  {
    if a != [] && b != [] && a[0] == b[0] { LexAntisymmetric(le, a[1..], b[1..]); }
  }

  lemma {:induction false} LexTotal<T(!new)>(le: (T, T) -> bool, a: seq<T>, b: seq<T>)
    requires TotalOrder(le)
    ensures Lex(le, a, b) || Lex(le, b, a)
  {
    if a != [] && b != [] && a[0] == b[0] { LexTotal(le, a[1..], b[1..]); }
  }

  lemma {:induction false} LexTransitive<T(!new)>(le: (T, T) -> bool, a: seq<T>, b: seq<T>, c: seq<T>)
    requires TotalOrder(le) && Lex(le, a, b) && Lex(le, b, c)
    ensures Lex(le, a, c)
  {
    if a != [] && a[0] == b[0] && b[0] == c[0] { LexTransitive(le, a[1..], b[1..], c[1..]); }
  }

  lemma LexIsTotal<T(!new)>(le: (T, T) -> bool)
    requires TotalOrder(le)
    ensures TotalOrder(LexLe(le))
  {
    var lex := LexLe(le);
    forall a, b ensures lex(a, b) || lex(b, a) { LexTotal(le, a, b); }
    forall a ensures lex(a, a) { LexTotal(le, a, a); }
    forall a, b | lex(a, b) && lex(b, a) ensures a == b { LexAntisymmetric(le, a, b); }
    forall a, b, c | lex(a, b) && lex(b, c) ensures lex(a, c) { LexTransitive(le, a, b, c); }
  }

  const CharLe: (char, char) -> bool := (a, b) => a <= b

  /** Python's order on `str`: by code point. */
  const StrLe: (string, string) -> bool := LexLe(CharLe)

  lemma StrOrder()
    ensures TotalOrder(StrLe)
  {
    assert TotalOrder(CharLe);
    LexIsTotal(CharLe);
  }

  /** Python's order on tuples or lists of strings. */
  const ChainLe: (seq<string>, seq<string>) -> bool := LexLe(StrLe)

  lemma ChainOrder()
    ensures TotalOrder(ChainLe)
  {
    StrOrder();
    LexIsTotal(StrLe);
  }

  // ---------------------------------------------- `sorted(items, key=...)` on a list

  /** Ascending by key, ties in any order. */
  ghost predicate OrderedBy<T, K(!new)>(s: seq<T>, key: T -> K, le: (K, K) -> bool) {
    forall i, j :: 0 <= i < j < |s| ==> le(key(s[i]), key(s[j]))
  }

  function InsertBy<T, K(!new)>(x: T, s: seq<T>, key: T -> K, le: (K, K) -> bool): (r: seq<T>)
    ensures |r| == |s| + 1
  {
    if s == [] || le(key(x), key(s[0])) then [x] + s
    else [s[0]] + InsertBy(x, s[1..], key, le)
  }

  /** Python's stable sort: equal keys keep their order. */
  function SortBy<T, K(!new)>(s: seq<T>, key: T -> K, le: (K, K) -> bool): (r: seq<T>)
    ensures |r| == |s|
  {
    if s == [] then [] else InsertBy(s[0], SortBy(s[1..], key, le), key, le)
  }

  lemma {:induction false} InsertByKeeps<T(!new), K(!new)>(x: T, s: seq<T>, key: T -> K, le: (K, K) -> bool)
    requires TotalOrder(le) && OrderedBy(s, key, le)
    ensures OrderedBy(InsertBy(x, s, key, le), key, le)
    ensures multiset(InsertBy(x, s, key, le)) == multiset(s) + multiset{x}
  {
    if s == [] || le(key(x), key(s[0])) {
      assert multiset([x] + s) == multiset(s) + multiset{x};
      forall i | 0 <= i < |s| ensures le(key(x), key(s[i])) {
        assert i > 0 ==> le(key(s[0]), key(s[i]));
      }
    } else {
      InsertByKeeps(x, s[1..], key, le);
      var t := InsertBy(x, s[1..], key, le);
      assert s == [s[0]] + s[1..];
      forall i | 0 <= i < |t| ensures le(key(s[0]), key(t[i])) {
        assert t[i] in multiset(t);
        if t[i] in s[1..] {
          var k :| 0 <= k < |s| - 1 && s[1..][k] == t[i];
          assert le(key(s[0]), key(s[k + 1]));
        }
      }
    }
  }

  lemma {:induction false} SortByKeeps<T(!new), K(!new)>(s: seq<T>, key: T -> K, le: (K, K) -> bool)
    requires TotalOrder(le)
    ensures OrderedBy(SortBy(s, key, le), key, le)
    ensures multiset(SortBy(s, key, le)) == multiset(s)
  {
    if s != [] {
      SortByKeeps(s[1..], key, le);
      InsertByKeeps(s[0], SortBy(s[1..], key, le), key, le);
      assert s == [s[0]] + s[1..];
    }
  }

  ghost predicate InjectiveOn<T(!new), K(!new)>(m: multiset<T>, key: T -> K) {
    forall x, y :: x in m && y in m && key(x) == key(y) ==> x == y
  }

  /** When the key tells the items apart there is only one sorted arrangement. */
  lemma {:induction false} OrderedUnique<T(!new), K(!new)>(a: seq<T>, b: seq<T>, key: T -> K, le: (K, K) -> bool)
    requires TotalOrder(le) && OrderedBy(a, key, le) && OrderedBy(b, key, le)
    requires multiset(a) == multiset(b) && InjectiveOn(multiset(a), key)
    ensures a == b
    decreases |a|
  {
    assert |a| == |multiset(a)| && |b| == |multiset(b)|;
    if a != [] {
      FirstIsLeast(a, key, le, b[0]);
      FirstIsLeast(b, key, le, a[0]);
      assert a == [a[0]] + a[1..] && b == [b[0]] + b[1..];
      assert multiset(a[1..]) == multiset(a) - multiset{a[0]};
      assert multiset(b[1..]) == multiset(b) - multiset{b[0]};
      OrderedUnique(a[1..], b[1..], key, le);
    }
  }

  lemma FirstIsLeast<T(!new), K(!new)>(s: seq<T>, key: T -> K, le: (K, K) -> bool, x: T)
    requires TotalOrder(le) && OrderedBy(s, key, le) && x in multiset(s)
    ensures s != [] && s[0] in multiset(s) && le(key(s[0]), key(x))
  {
    assert x in s;
    var i :| 0 <= i < |s| && s[i] == x;
    assert s[0] in s;
  }

  /** Sorting forgets the original order of items that the key tells apart. */
  lemma SortForgetsOrder<T(!new), K(!new)>(a: seq<T>, b: seq<T>, key: T -> K, le: (K, K) -> bool)
    requires TotalOrder(le) && multiset(a) == multiset(b) && InjectiveOn(multiset(a), key)
    ensures SortBy(a, key, le) == SortBy(b, key, le)
  {
    SortByKeeps(a, key, le);
    SortByKeeps(b, key, le);
    OrderedUnique(SortBy(a, key, le), SortBy(b, key, le), key, le);
  }
}
