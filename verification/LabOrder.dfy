// The order in which the insertion loop of alred/lab_transform.py leaves the
// generated sections: when they come out as generated.
module LabOrder {
  import opened Ordering
  import opened LabRules
  import opened LabTransform

  ghost predicate Distinct(items: seq<Item>) {
    forall i, j :: 0 <= i < j < |items| ==> items[i] != items[j]
  }

  ghost predicate Precedes(items: seq<Item>, x: Item, y: Item) {
    exists i, j :: 0 <= i < j < |items| && items[i] == x && items[j] == y
  }

  // ------------------------------------------------------- following one section

  lemma {:induction false} InsertAllSplit(items: seq<Item>, a: seq<Item>, b: seq<Item>)
    requires AllNew(a) && AllNew(b)
    ensures InsertAll(items, a + b) == InsertAll(InsertAll(items, a), b)
    ensures |InsertAll(items, a)| == |items| + |a|
    decreases |a|
  {
    if a == [] {
      assert a + b == b;
    } else {
      assert (a + b)[1..] == a[1..] + b;
      InsertAllSplit(InsertOne(items, a[0]), a[1..], b);
    }
  }

  /** Later insertions only move a section back, and not at all when they come behind it. */
  lemma {:induction false} Pushed(items: seq<Item>, todo: seq<Item>, p: nat) returns (q: nat)
    requires AllNew(todo) && p < |items|
    ensures p <= q < |InsertAll(items, todo)| && InsertAll(items, todo)[q] == items[p]
    ensures (forall x :: x in todo ==> x.index > p) ==> q == p
    decreases |todo|
  {
    if todo == [] {
      q := p;
    } else {
      var next := if Min(todo[0].index, |items|) <= p then p + 1 else p;
      assert InsertOne(items, todo[0])[next] == items[p];
      q := Pushed(InsertOne(items, todo[0]), todo[1..], next);
    }
  }

  lemma {:induction false} OrderStays(items: seq<Item>, todo: seq<Item>, p: nat, q: nat)
    requires AllNew(todo) && p < q < |items|
    ensures Precedes(InsertAll(items, todo), items[p], items[q])
    decreases |todo|
  {
    if todo != [] {
      var at, out := Min(todo[0].index, |items|), InsertOne(items, todo[0]);
      var p', q' := if at <= p then p + 1 else p, if at <= q then q + 1 else q;
      assert out[p'] == items[p] && out[q'] == items[q];
      OrderStays(out, todo[1..], p', q');
    }
  }

  lemma CountedTwice(items: seq<Item>, p: nat, q: nat)
    requires p < q < |items| && items[p] == items[q] && items[p].New?
    ensures multiset(News(items))[items[p]] >= 2
  {
    var a, b := items[..q], items[q..];
    assert a[p] == items[p] && b[0] == items[p];
    InNews(a, p);
    InNews(b, 0);
    NewsConcat(a, b);
    assert items == a + b;
  }

  lemma InNews(items: seq<Item>, p: nat)
    requires p < |items| && items[p].New?
    ensures items[p] in multiset(News(items))
  {
    FromOldsOrNews(items);
    assert items[p] in items;
  }

  lemma TwoPlaces(items: seq<Item>, p: nat, q: nat)
    requires p < q < |items| && items[p] == items[q]
    ensures multiset(items)[items[p]] >= 2
  {
    var a, b := items[..q], items[q..];
    assert a[p] == items[p] && b[0] == items[p];
    assert items == a + b;
    assert items[p] in multiset(a) && items[p] in multiset(b);
  }

  lemma {:induction false} CountedOnce(items: seq<Item>, x: Item)
    requires Distinct(items)
    ensures multiset(items)[x] <= 1
  {
    if items != [] {
      CountedOnce(items[1..], x);
      assert items == [items[0]] + items[1..];
      if x == items[0] {
        assert x !in items[1..];
      }
    }
  }

  /** Distinct sections cannot precede each other. */
  lemma OneWay(kept: seq<Section>, todo: seq<Item>, x: Item, y: Item)
    requires AllNew(todo) && Distinct(todo) && x in todo && y in todo
    ensures var items := InsertAll(OldItems(kept), todo); !(Precedes(items, x, y) && Precedes(items, y, x))
  {
    var items := InsertAll(OldItems(kept), todo);
    OldsOfOld(OldItems(kept));
    InsertAllNews(OldItems(kept), todo);
    CountedOnce(todo, x);
    CountedOnce(todo, y);
    if Precedes(items, x, y) && Precedes(items, y, x) {
      var i, j :| 0 <= i < j < |items| && items[i] == x && items[j] == y;
      var k, l :| 0 <= k < l < |items| && items[k] == y && items[l] == x;
      if i < l {
        CountedTwice(items, i, l);
      } else {
        CountedTwice(items, k, j);
      }
      assert false;
    }
  }

  // ----------------------------------------------------------------- two sections

  lemma LaterFirst(before: seq<Item>, x: Item, middle: seq<Item>, y: Item, rest: seq<Item>)
    requires x.New? && AllNew(middle) && y.New? && AllNew(rest)
    requires y.index <= |before| && y.index <= x.index
    ensures Precedes(InsertAll(InsertOne(InsertAll(InsertOne(before, x), middle), y), rest), y, x)
  {
    var with := InsertOne(before, x);
    var later := InsertAll(with, middle);
    var p := Min(x.index, |before|);
    assert with[p] == x;
    var q := Pushed(with, middle, p);
    var out := InsertOne(later, y);
    assert out[y.index] == y && out[q + 1] == x;
    OrderStays(out, rest, y.index, q + 1);
  }

  lemma LaterLast(before: seq<Item>, x: Item, middle: seq<Item>, y: Item, rest: seq<Item>)
    requires x.New? && AllNew(middle) && y.New? && AllNew(rest)
    requires |before| < y.index <= x.index && forall z :: z in middle ==> z.index >= y.index
    ensures Precedes(InsertAll(InsertOne(InsertAll(InsertOne(before, x), middle), y), rest), x, y)
  {
    var with := InsertOne(before, x);
    var later := InsertAll(with, middle);
    var p := |before|;
    assert with[p] == x;
    var q := Pushed(with, middle, p);
    var out, at := InsertOne(later, y), Min(y.index, |later|);
    assert out[p] == x && out[at] == y;
    OrderStays(out, rest, p, at);
  }

  lemma StepInto(items: seq<Item>, x: Item, rest: seq<Item>)
    requires x.New? && AllNew(rest)
    ensures InsertAll(items, [x] + rest) == InsertAll(InsertOne(items, x), rest)
  {
    assert ([x] + rest)[1..] == rest;
  }

  /** The insertions before, between and after two of them. */
  lemma TakenApart(items: seq<Item>, todo: seq<Item>, a: nat, b: nat)
    requires AllNew(todo) && a < b < |todo|
    ensures AllNew(todo[..a]) && AllNew(todo[a + 1..b]) && AllNew(todo[b + 1..]) && todo[a].New? && todo[b].New?
    ensures |InsertAll(items, todo[..a])| == |items| + a
    ensures InsertAll(items, todo) ==
      InsertAll(InsertOne(InsertAll(InsertOne(InsertAll(items, todo[..a]), todo[a]), todo[a + 1..b]), todo[b]), todo[b + 1..])
  {
    var head, middle, tail := todo[..a], todo[a + 1..b], todo[b..];
    assert tail == [todo[b]] + todo[b + 1..];
    assert todo == head + ([todo[a]] + (middle + tail));
    InsertAllSplit(items, head, [todo[a]] + (middle + tail));
    var before := InsertAll(items, head);
    StepInto(before, todo[a], middle + tail);
    var with := InsertOne(before, todo[a]);
    InsertAllSplit(with, middle, tail);
    StepInto(InsertAll(with, middle), todo[b], todo[b + 1..]);
  }

  /** Of two generated sections the one inserted later comes first exactly if its index does not
      exceed the number of sections that were there when the earlier one was inserted. */
  lemma PairOrder(kept: seq<Section>, todo: seq<Item>, a: nat, b: nat)
    requires AllNew(todo) && OrderedBy(todo, Index, Descending) && Distinct(todo) && a < b < |todo|
    ensures todo[b].New?
    ensures Precedes(InsertAll(OldItems(kept), todo), todo[b], todo[a]) <==> todo[b].index <= |kept| + a
  {
    var items, x, y := OldItems(kept), todo[a], todo[b];
    assert Descending(Index(x), Index(y));
    TakenApart(items, todo, a, b);
    var before, middle := InsertAll(items, todo[..a]), todo[a + 1..b];
    if y.index <= |kept| + a {
      LaterFirst(before, x, middle, y, todo[b + 1..]);
    } else {
      forall z | z in middle ensures z.index >= y.index {
        var i :| 0 <= i < |middle| && middle[i] == z;
        assert Descending(Index(todo[a + 1 + i]), Index(y));
      }
      LaterLast(before, x, middle, y, todo[b + 1..]);
      OneWay(kept, todo, x, y);
    }
  }

  // --------------------------------------------------------- the order of insertion

  /** The section generated at `i` is inserted before the one generated at `j`. */
  predicate GoesBefore(g: seq<Item>, i: nat, j: nat)
    requires i < |g| && j < |g|
  {
    Index(g[i]) > Index(g[j]) || (Index(g[i]) == Index(g[j]) && i < j)
  }

  /** How many of the first `n` generated sections are inserted before the one at `j`. */
  function Ahead(g: seq<Item>, j: nat, n: nat): nat
    requires j < |g| && n <= |g|
  {
    if n == 0 then 0 else Ahead(g, j, n - 1) + if GoesBefore(g, n - 1, j) then 1 else 0
  }

  function Above(s: seq<Item>, v: int): nat {
    if s == [] then 0 else Above(s[1..], v) + if Index(s[0]) > v then 1 else 0
  }

  lemma {:induction false} AheadOfFirst(g: seq<Item>, n: nat)
    requires 0 < n <= |g|
    ensures Ahead(g, 0, n) == Above(g[1..n], Index(g[0]))
    decreases n
  {
    if n > 1 {
      AheadOfFirst(g, n - 1);
      AboveConcat(g[1..n - 1], [g[n - 1]], Index(g[0]));
      assert g[1..n] == g[1..n - 1] + [g[n - 1]];
    }
  }

  lemma {:induction false} AboveConcat(a: seq<Item>, b: seq<Item>, v: int)
    ensures Above(a + b, v) == Above(a, v) + Above(b, v)
  {
    if a == [] {
      assert a + b == b;
    } else {
      assert (a + b)[1..] == a[1..] + b;
      AboveConcat(a[1..], b, v);
    }
  }

  lemma {:induction false} AheadOfOther(g: seq<Item>, j: nat, n: nat)
    requires 0 < j < |g| && 0 < n <= |g|
    ensures Ahead(g, j, n) == Ahead(g[1..], j - 1, n - 1) + if Index(g[0]) >= Index(g[j]) then 1 else 0
  {
    if n > 1 {
      AheadOfOther(g, j, n - 1);
      assert GoesBefore(g, n - 1, j) <==> GoesBefore(g[1..], n - 2, j - 1);
    } else {
      assert Ahead(g, j, 1) == Ahead(g, j, 0) + if GoesBefore(g, 0, j) then 1 else 0;
    }
  }

  /** Where the stable sort puts one more item in front. */
  lemma {:induction false} InsertByAt(x: Item, s: seq<Item>)
    requires OrderedBy(s, Index, Descending)
    ensures var q := Above(s, Index(x));
      && q <= |s| && InsertBy(x, s, Index, Descending) == s[..q] + [x] + s[q..]
      && forall i :: 0 <= i < |s| ==> (i < q <==> Index(s[i]) > Index(x))
  {
    if s != [] && !Descending(Index(x), Index(s[0])) {
      InsertByAt(x, s[1..]);
      InsertFurther(x, s, Above(s[1..], Index(x)));
    } else {
      forall i | 0 < i < |s| ensures Index(s[i]) <= Index(x) {
        assert Descending(Index(s[0]), Index(s[i]));
      }
      NoneAbove(s, Index(x));
    }
  }

  lemma InsertFurther(x: Item, s: seq<Item>, q: nat)
    requires s != [] && Index(s[0]) > Index(x) && q <= |s| - 1
    requires InsertBy(x, s[1..], Index, Descending) == s[1..][..q] + [x] + s[1..][q..]
    requires forall i :: 0 <= i < |s| - 1 ==> (i < q <==> Index(s[1..][i]) > Index(x))
    ensures InsertBy(x, s, Index, Descending) == s[..q + 1] + [x] + s[q + 1..]
    ensures forall i :: 0 <= i < |s| ==> (i < q + 1 <==> Index(s[i]) > Index(x))
  {
    assert forall i :: 0 < i < |s| ==> s[i] == s[1..][i - 1];
    assert [s[0]] + s[1..][..q] == s[..q + 1] && s[1..][q..] == s[q + 1..];
  }

  lemma {:induction false} NoneAbove(s: seq<Item>, v: int)
    requires forall i :: 0 <= i < |s| ==> Index(s[i]) <= v
    ensures Above(s, v) == 0
  {
    if s != [] {
      NoneAbove(s[1..], v);
    }
  }

  lemma {:induction false} AboveSorted(g: seq<Item>, v: int)
    ensures Above(SortBy(g, Index, Descending), v) == Above(g, v)
  {
    if g != [] {
      AboveSorted(g[1..], v);
      AboveInserted(g[0], SortBy(g[1..], Index, Descending), v);
    }
  }

  lemma {:induction false} AboveInserted(x: Item, s: seq<Item>, v: int)
    ensures Above(InsertBy(x, s, Index, Descending), v) == Above(s, v) + if Index(x) > v then 1 else 0
  {
    if s == [] || Descending(Index(x), Index(s[0])) {
      assert ([x] + s)[1..] == s;
    } else {
      AboveInserted(x, s[1..], v);
      assert ([s[0]] + InsertBy(x, s[1..], Index, Descending))[1..] == InsertBy(x, s[1..], Index, Descending);
    }
  }

  lemma FirstTurn(g: seq<Item>)
    requires g != []
    ensures Ahead(g, 0, |g|) < |g| && SortBy(g, Index, Descending)[Ahead(g, 0, |g|)] == g[0]
  {
    var rest := SortBy(g[1..], Index, Descending);
    SortByKeeps(g[1..], Index, Descending);
    InsertByAt(g[0], rest);
    AheadOfFirst(g, |g|);
    assert g[1..|g|] == g[1..];
    AboveSorted(g[1..], Index(g[0]));
  }

  lemma NextTurn(x: Item, rest: seq<Item>, at: nat)
    requires OrderedBy(rest, Index, Descending) && at < |rest|
    ensures InsertBy(x, rest, Index, Descending)[at + if Index(x) >= Index(rest[at]) then 1 else 0] == rest[at]
  {
    InsertByAt(x, rest);
  }

  /** The turn of a generated section in the insertion loop. */
  lemma {:induction false} TurnOf(g: seq<Item>, j: nat)
    requires j < |g|
    ensures Ahead(g, j, |g|) < |g| && SortBy(g, Index, Descending)[Ahead(g, j, |g|)] == g[j]
  {
    if j == 0 {
      FirstTurn(g);
    } else {
      TurnOf(g[1..], j - 1);
      AheadOfOther(g, j, |g|);
      SortByKeeps(g[1..], Index, Descending);
      NextTurn(g[0], SortBy(g[1..], Index, Descending), Ahead(g[1..], j - 1, |g| - 1));
    }
  }

  lemma SortedDistinct(g: seq<Item>)
    requires Distinct(g)
    ensures Distinct(SortBy(g, Index, Descending))
  {
    var s := SortBy(g, Index, Descending);
    SortByKeeps(g, Index, Descending);
    forall i, j | 0 <= i < j < |s| ensures s[i] != s[j] {
      if s[i] == s[j] {
        CountedOnce(g, s[i]);
        TwoPlaces(s, i, j);
        assert false;
      }
    }
  }

  /** The same for two generated sections, by what a caller can count in the generated list. */
  lemma GeneratedOrder(kept: seq<Section>, g: seq<Item>, i: nat, j: nat)
    requires AllNew(g) && Distinct(g) && i < |g| && j < |g| && GoesBefore(g, j, i)
    ensures Precedes(Layout(kept, g), g[i], g[j]) <==> g[i].index <= |kept| + Ahead(g, j, |g|)
  {
    var todo := SortBy(g, Index, Descending);
    SortedAllNew(g);
    SortByKeeps(g, Index, Descending);
    SortedDistinct(g);
    TurnOf(g, i);
    TurnOf(g, j);
    AheadGrows(g, j, i, |g|);
    PairOrder(kept, todo, Ahead(g, j, |g|), Ahead(g, i, |g|));
  }

  lemma {:induction false} AheadGrows(g: seq<Item>, j: nat, i: nat, n: nat)
    requires i < |g| && j < |g| && n <= |g| && GoesBefore(g, j, i)
    ensures Ahead(g, j, n) <= Ahead(g, i, n)
    ensures j < n ==> Ahead(g, j, n) < Ahead(g, i, n)
  {
    if n > 0 {
      AheadGrows(g, j, i, n - 1);
      assert GoesBefore(g, n - 1, j) ==> GoesBefore(g, n - 1, i);
    }
  }

  // ------------------------------------------------------------------- one category

  /** The generated list holds the sections of one category from position `o` on. */
  ghost predicate BatchAt(g: seq<Item>, o: nat, c: Category, start: nat, sections: seq<Section>) {
    o + |sections| <= |g| && g[o..o + |sections|] == Batch(c, start, sections)
  }

  /** The sections of a batch come out in the order of generation. */
  ghost predicate InOrder(items: seq<Item>, batch: seq<Item>) {
    forall i, j :: 0 <= i < j < |batch| ==> Precedes(items, batch[i], batch[j])
  }

  lemma BatchPair(kept: seq<Section>, g: seq<Item>, o: nat, c: Category, start: nat, sections: seq<Section>, i: nat, j: nat)
    requires AllNew(g) && Distinct(g) && BatchAt(g, o, c, start, sections) && i < j < |sections|
    ensures Precedes(Layout(kept, g), Batch(c, start, sections)[i], Batch(c, start, sections)[j])
            <==> start + i <= |kept| + Ahead(g, o + j, |g|)
  {
    assert g[o + i] == g[o..o + |sections|][i] == Batch(c, start, sections)[i];
    assert g[o + j] == g[o..o + |sections|][j] == Batch(c, start, sections)[j];
    GeneratedOrder(kept, g, o + i, o + j);
  }

  /** The last section of a category is the first one to be inserted. */
  lemma LastIsFirst(g: seq<Item>, o: nat, c: Category, start: nat, sections: seq<Section>, j: nat)
    requires BatchAt(g, o, c, start, sections) && j < |sections|
    ensures Ahead(g, o + |sections| - 1, |g|) <= Ahead(g, o + j, |g|)
  {
    var last := |sections| - 1;
    if j < last {
      assert g[o + j] == g[o..o + |sections|][j] == Batch(c, start, sections)[j];
      assert g[o + last] == g[o..o + |sections|][last] == Batch(c, start, sections)[last];
      AheadGrows(g, o + last, o + j, |g|);
    }
  }

  /** The sections of one category keep their order exactly if it has at most one, or if the index of the last
      but one does not exceed the number of sections there are when the last one is inserted. */
  lemma BatchOrder(kept: seq<Section>, g: seq<Item>, o: nat, c: Category, start: nat, sections: seq<Section>)
    requires AllNew(g) && Distinct(g) && BatchAt(g, o, c, start, sections)
    ensures var m := |sections|;
      InOrder(Layout(kept, g), Batch(c, start, sections))
      <==> m <= 1 || start + m - 2 <= |kept| + Ahead(g, o + m - 1, |g|)
  {
    var m, items, batch := |sections|, Layout(kept, g), Batch(c, start, sections);
    if m > 1 {
      BatchPair(kept, g, o, c, start, sections, m - 2, m - 1);
      if start + m - 2 <= |kept| + Ahead(g, o + m - 1, |g|) {
        forall i, j | 0 <= i < j < m ensures Precedes(items, batch[i], batch[j]) {
          BatchPair(kept, g, o, c, start, sections, i, j);
          LastIsFirst(g, o, c, start, sections, j);
        }
      } else {
        assert !Precedes(items, batch[m - 2], batch[m - 1]);
      }
    }
  }

  /** A category on its own: at most one section, or room for all but two of them. */
  lemma LoneBatchOrder(kept: seq<Section>, c: Category, start: nat, sections: seq<Section>)
    ensures AllNew(Batch(c, start, sections))
    ensures var batch := Batch(c, start, sections);
      InOrder(Layout(kept, batch), batch) <==> |sections| <= 1 || start + |sections| <= |kept| + 2
  {
    var g, m := Batch(c, start, sections), |sections|;
    assert Distinct(g);
    if m > 0 {
      NoneAhead(g, m - 1, m);
    }
    BatchOrder(kept, g, 0, c, start, sections);
  }

  lemma {:induction false} NoneAhead(g: seq<Item>, j: nat, n: nat)
    requires j < |g| && n <= |g| && forall i :: 0 <= i < n ==> !GoesBefore(g, i, j)
    ensures Ahead(g, j, n) == 0
  {
    if n > 0 {
      NoneAhead(g, j, n - 1);
    }
  }

  /** Sections generated for the end of a file keep their order exactly if there are at most two. */
  lemma TailOrder(kept: seq<Section>, c: Category, sections: seq<Section>)
    ensures AllNew(Batch(c, |kept|, sections))
    ensures InOrder(Layout(kept, Batch(c, |kept|, sections)), Batch(c, |kept|, sections)) <==> |sections| <= 2
  {
    LoneBatchOrder(kept, c, |kept|, sections);
  }

  /** For example, three of them: the second one comes last. */
  lemma TailOfThree(kept: seq<Section>, c: Category, a: Section, b: Section, d: Section)
    ensures AllNew(Batch(c, |kept|, [a, b, d]))
    ensures Sections(Layout(kept, Batch(c, |kept|, [a, b, d]))) == kept + [a, d, b]
  {
    var n := |kept|;
    var x, y, z := New(n, c, a), New(n + 1, c, b), New(n + 2, c, d);
    var batch := Batch(c, n, [a, b, d]);
    assert batch == [x, y, z];
    assert batch[1..] == [y, z] && [y, z][1..] == [z] && [z][1..] == [];
    assert SortBy([z], Index, Descending) == [z];
    assert SortBy([y, z], Index, Descending) == [z, y] by {
      assert InsertBy(y, [], Index, Descending) == [y];
    }
    assert SortBy(batch, Index, Descending) == [z, y, x] by {
      assert [z, y][1..] == [y] && [y][1..] == [];
      assert InsertBy(x, [], Index, Descending) == [x];
      assert InsertBy(x, [y], Index, Descending) == [y, x];
    }
    var items := OldItems(kept);
    assert InsertOne(items, z) == items + [z];
    assert InsertOne(items + [z], y) == items + [z, y];
    assert InsertOne(items + [z, y], x) == items + [x, z, y];
    assert [z, y, x][1..] == [y, x] && [y, x][1..] == [x] && [x][1..] == [];
    assert InsertAll(items, [z, y, x]) == items + [x, z, y] by {
      assert InsertAll(items + [z, y], [x]) == InsertAll(items + [x, z, y], []);
      assert InsertAll(items + [z], [y, x]) == InsertAll(items + [z, y], [x]);
    }
  }

  // -------------------------------------------------------------- the whole transform

  lemma {:induction false} GeneratedDistinct(p: Policy, ntpLines: seq<string>, kept: nat, first: Category -> Option<nat>, n: nat)
    requires n <= |GenerationOrder|
    ensures Distinct(Generated(p, ntpLines, kept, first, n))
    ensures forall x :: x in Generated(p, ntpLines, kept, first, n) ==> x.New? && x.category in GenerationOrder[..n]
  {
    if n > 0 {
      GeneratedDistinct(p, ntpLines, kept, first, n - 1);
      var c, g := GenerationOrder[n - 1], Generated(p, ntpLines, kept, first, n - 1);
      var batch := Batch(c, Start(kept, first, c), Rendered(p, ntpLines, c));
      assert GenerationOrder[..n] == GenerationOrder[..n - 1] + [c];
      assert c !in GenerationOrder[..n - 1];
      forall i, j | 0 <= i < j < |g + batch| ensures (g + batch)[i] != (g + batch)[j] {
        if i < |g| <= j {
          assert g[i] in g;
        }
      }
    }
  }

  lemma {:induction false} BatchFound(p: Policy, ntpLines: seq<string>, kept: nat, first: Category -> Option<nat>, k: nat, n: nat)
    requires k < n <= |GenerationOrder|
    ensures var c := GenerationOrder[k];
      BatchAt(Generated(p, ntpLines, kept, first, n), |Generated(p, ntpLines, kept, first, k)|,
              c, Start(kept, first, c), Rendered(p, ntpLines, c))
  {
    if k < n - 1 {
      BatchFound(p, ntpLines, kept, first, k, n - 1);
      var g, o := Generated(p, ntpLines, kept, first, n - 1), |Generated(p, ntpLines, kept, first, k)|;
      var m := |Rendered(p, ntpLines, GenerationOrder[k])|;
      assert Generated(p, ntpLines, kept, first, n)[o..o + m] == g[o..o + m];
    }
  }

  predicate RoomFor(g: seq<Item>, kept: nat, o: nat, start: nat, m: nat)
    requires o + m <= |g|
  {
    m <= 1 || start + m - 2 <= kept + Ahead(g, o + m - 1, |g|)
  }

  lemma BatchInOrder(kept: seq<Section>, g: seq<Item>, o: nat, c: Category, start: nat, sections: seq<Section>)
    requires AllNew(g) && Distinct(g) && BatchAt(g, o, c, start, sections)
    ensures InOrder(Layout(kept, g), Batch(c, start, sections)) <==> RoomFor(g, |kept|, o, start, |sections|)
  {
    BatchOrder(kept, g, o, c, start, sections);
  }

  /** The condition under which the sections of the `k`-th of `n` categories keep their order. */
  predicate Roomy(p: Policy, ntpLines: seq<string>, kept: nat, first: Category -> Option<nat>, k: nat, n: nat)
    requires k < n <= |GenerationOrder|
  {
    var c, g := GenerationOrder[k], Generated(p, ntpLines, kept, first, n);
    var o, m := |Generated(p, ntpLines, kept, first, k)|, |Rendered(p, ntpLines, c)|;
    BatchFound(p, ntpLines, kept, first, k, n);
    RoomFor(g, kept, o, Start(kept, first, c), m)
  }

  lemma OrderIfRoomy(kept: seq<Section>, p: Policy, ntpLines: seq<string>, first: Category -> Option<nat>, k: nat, n: nat)
    requires k < n <= |GenerationOrder|
    ensures AllNew(Generated(p, ntpLines, |kept|, first, n))
    ensures var c := GenerationOrder[k];
      InOrder(Layout(kept, Generated(p, ntpLines, |kept|, first, n)), Batch(c, Start(|kept|, first, c), Rendered(p, ntpLines, c)))
      <==> Roomy(p, ntpLines, |kept|, first, k, n)
  {
    var c, g, o := GenerationOrder[k], Generated(p, ntpLines, |kept|, first, n), |Generated(p, ntpLines, |kept|, first, k)|;
    BatchFound(p, ntpLines, |kept|, first, k, n);
    GeneratedDistinct(p, ntpLines, |kept|, first, n);
    BatchInOrder(kept, g, o, c, Start(|kept|, first, c), Rendered(p, ntpLines, c));
  }

  /** In a transformed configuration the sections of each category are in the order of their generation exactly
      under that condition, with the sections of the other categories counted in. */
  lemma CategoryOrder(r: Rules, p: Policy, ntpLines: seq<string>, sections: seq<Section>, k: nat)
    requires k < |GenerationOrder|
    ensures var lists, c := SourceAccessLists(r, p, sections), GenerationOrder[k];
      InOrder(Transformed(r, p, ntpLines, sections), Batch(c, StartOf(r, p, sections, c), Rendered(p, ntpLines, c)))
      <==> Roomy(p, ntpLines, |Kept(r, p, lists, sections)|, FirstIndexes(r, p, lists, sections), k, |GenerationOrder|)
  {
    var lists := SourceAccessLists(r, p, sections);
    OrderIfRoomy(Kept(r, p, lists, sections), p, ntpLines, FirstIndexes(r, p, lists, sections), k, |GenerationOrder|);
  }
}
