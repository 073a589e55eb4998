// alred/lab_transform.py: removing the sections of a device configuration that
// must not reach the lab, and inserting the generated ones.
module LabTransform {
  import opened Ordering
  import opened LabRules

  /** What is rendered for the categories that have a policy of their own. */
  function Rendered(p: Policy, ntpLines: seq<string>, c: Category): seq<Section> {
    match c
    case Ntp => Lines(ntpLines)
    case Users => Lines(p.userLines)
    case Logging => RenderedBy(p.logging)
    case Dns => RenderedBy(p.dns)
    case Aaa => RenderedBy(p.aaa)
    case Snmp => RenderedBy(p.snmp)
    case AccessClass => if p.access == Replace then [p.accessList] else []
    case Crypto => []
  }

  function RenderedBy(s: Service): seq<Section> {
    if s.action == Replace then s.sections else []
  }

  function Lines(lines: seq<string>): seq<Section> {
    seq(|lines|, i requires 0 <= i < |lines| => [lines[i]])
  }

  // ------------------------------------------------------------- the removal pass

  function CategoryOf(r: Rules, p: Policy, lists: set<string>, header: string): Option<Category> {
    if r.category(header).Some? then r.category(header)
    else if p.access != Preserve && r.accessListName(header).Some? && r.accessListName(header).value in lists
    then Some(AccessClass)
    else None
  }

  predicate Removes(p: Policy, c: Category) {
    match c
    case Ntp => !p.keepNtp
    case Users => !p.keepSourceUsers
    case Logging => p.logging.action != Preserve
    case Dns => p.dns.action != Preserve
    case Aaa => p.aaa.action != Preserve
    case Snmp => p.snmp.action != Preserve
    case Crypto => true
    case AccessClass => true
  }

  /** The category a section is removed for. */
  function RemovedFor(r: Rules, p: Policy, lists: set<string>, s: Section): Option<Category> {
    if s == [] then None
    else
      var c := CategoryOf(r, p, lists, s[0]);
      if c.Some? && Removes(p, c.value) then c else None
  }

  function WithoutAccessClass(r: Rules, lines: seq<string>): seq<string> {
    if lines == [] then []
    else WithoutAccessClass(r, lines[..|lines| - 1]) +
         if r.accessClass(lines[|lines| - 1]) then [] else [lines[|lines| - 1]]
  }

  /** What remains of a section that is not removed. */
  function Remainder(r: Rules, p: Policy, s: Section): Section
    requires s != []
  {
    if r.lineVty(s[0]) && p.access != Preserve
    then [s[0]] + WithoutAccessClass(r, s[1..]) + if p.access == Replace then [p.attachLine] else []
    else s
  }

  function KeptOf(r: Rules, p: Policy, lists: set<string>, s: Section): seq<Section> {
    if s == [] || RemovedFor(r, p, lists, s).Some? then [] else [Remainder(r, p, s)]
  }

  function Kept(r: Rules, p: Policy, lists: set<string>, sections: seq<Section>): seq<Section> {
    if sections == [] then []
    else Kept(r, p, lists, sections[..|sections| - 1]) + KeptOf(r, p, lists, sections[|sections| - 1])
  }

  /** How many kept sections precede the first one removed for `c`. */
  function FirstIndex(r: Rules, p: Policy, lists: set<string>, sections: seq<Section>, c: Category): Option<nat> {
    if sections == [] then None
    else
      var before := sections[..|sections| - 1];
      if FirstIndex(r, p, lists, before, c).Some? then FirstIndex(r, p, lists, before, c)
      else if RemovedFor(r, p, lists, sections[|sections| - 1]) == Some(c) then Some(|Kept(r, p, lists, before)|)
      else None
  }

  function FirstIndexes(r: Rules, p: Policy, lists: set<string>, sections: seq<Section>): Category -> Option<nat> {
    c => FirstIndex(r, p, lists, sections, c)
  }

  /** The names in access-class lines of `line vty` sections. */
  function SourceAccessLists(r: Rules, p: Policy, sections: seq<Section>): set<string> {
    if p.access == Preserve then {}
    else set s, l | s in sections && s != [] && r.lineVty(s[0]) && l in s[1..] && r.accessClassName(l).Some? ::
           r.accessClassName(l).value
  }

  // ----------------------------------------------------------- the insertion pass

  function OldItems(kept: seq<Section>): seq<Item> {
    seq(|kept|, i requires 0 <= i < |kept| => Old(kept[i]))
  }

  function Batch(c: Category, start: nat, sections: seq<Section>): seq<Item> {
    seq(|sections|, i requires 0 <= i < |sections| => New(start + i, c, sections[i]))
  }

  const GenerationOrder := [Ntp, Users, Logging, Dns, Aaa, Snmp, AccessClass]

  /** Where the sections of a category go: where its first section was removed, or at the end. */
  function Start(kept: nat, first: Category -> Option<nat>, c: Category): nat {
    if first(c).Some? then first(c).value else kept
  }

  /** The generated sections with their insertion indexes, for the first `n` categories. */
  function Generated(p: Policy, ntpLines: seq<string>, kept: nat, first: Category -> Option<nat>, n: nat): seq<Item>
    requires n <= |GenerationOrder|
  {
    if n == 0 then []
    else
      var c := GenerationOrder[n - 1];
      Generated(p, ntpLines, kept, first, n - 1)
      + Batch(c, Start(kept, first, c), Rendered(p, ntpLines, c))
  }

  const Index: Item -> int := (i: Item) => if i.New? then i.index else 0

  const Descending: (int, int) -> bool := (a, b) => a >= b

  function InsertOne(items: seq<Item>, x: Item): seq<Item>
    requires x.New?
  {
    var at := Min(x.index, |items|);
    items[..at] + [x] + items[at..]
  }

  function InsertAll(items: seq<Item>, todo: seq<Item>): seq<Item>
    requires forall x :: x in todo ==> x.New?
    decreases |todo|
  {
    if todo == [] then items else InsertAll(InsertOne(items, todo[0]), todo[1..])
  }

  predicate AllNew(items: seq<Item>) {
    forall x :: x in items ==> x.New?
  }

  /** The output as items: highest index first, each at its index or at the end. */
  function Layout(kept: seq<Section>, generated: seq<Item>): seq<Item>
    requires AllNew(generated)
  {
    SortedAllNew(generated);
    InsertAll(OldItems(kept), SortBy(generated, Index, Descending))
  }

  lemma SortedAllNew(generated: seq<Item>)
    requires AllNew(generated)
    ensures AllNew(SortBy(generated, Index, Descending))
  {
    SortByKeeps(generated, Index, Descending);
    forall x | x in SortBy(generated, Index, Descending) ensures x.New? {
      assert x in multiset(SortBy(generated, Index, Descending));
    }
  }

  // -------------------------------------------------------- where the sections go

  lemma {:induction false} OldsConcat(a: seq<Item>, b: seq<Item>)
    ensures Olds(a + b) == Olds(a) + Olds(b)
    decreases |b|
  {
    if b == [] {
      assert a + b == a;
    } else {
      var n := |b| - 1;
      OldsConcat(a, b[..n]);
      assert (a + b)[..|a| + n] == a + b[..n];
    }
  }

  lemma {:induction false} NewsConcat(a: seq<Item>, b: seq<Item>)
    ensures News(a + b) == News(a) + News(b)
    decreases |b|
  {
    if b == [] {
      assert a + b == a;
    } else {
      var n := |b| - 1;
      NewsConcat(a, b[..n]);
      assert (a + b)[..|a| + n] == a + b[..n];
    }
  }

  lemma {:induction false} OldsOfOld(items: seq<Item>)
    requires forall i :: 0 <= i < |items| ==> items[i].Old?
    ensures Olds(items) == Sections(items) && News(items) == []
  {
    if items != [] {
      OldsOfOld(items[..|items| - 1]);
    }
  }

  /** Kept sections in order, generated ones behind the right number of them, and untouched kept ones up to `bound`. */
  ghost predicate Placed(items: seq<Item>, kept: seq<Section>, bound: nat) {
    && Olds(items) == kept && |kept| <= |items|
    && (forall i :: 0 <= i < Min(bound, |kept|) ==> items[i].Old?)
    && (forall at {:trigger PlacedAt(items, at, |kept|)} :: 0 <= at < |items| ==> PlacedAt(items, at, |kept|))
  }

  ghost predicate PlacedAt(items: seq<Item>, at: int, kept: nat) {
    0 <= at < |items| && (items[at].New? ==> KeptBefore(items, at) == Min(items[at].index, kept))
  }

  /** The first `n` items being kept sections, they are counted before any later position. */
  lemma KeptPrefix(items: seq<Item>, n: nat, at: nat)
    requires n <= at <= |items| && forall i :: 0 <= i < n ==> items[i].Old?
    ensures n <= KeptBefore(items, at) <= |Olds(items)| && (at == n ==> KeptBefore(items, at) == n)
  {
    OldsOfOld(items[..n]);
    assert items[..at] == items[..n] + items[n..at];
    OldsConcat(items[..n], items[n..at]);
    assert items == items[..at] + items[at..];
    OldsConcat(items[..at], items[at..]);
  }

  lemma InsertOneOlds(items: seq<Item>, x: Item)
    requires x.New?
    ensures Olds(InsertOne(items, x)) == Olds(items)
  {
    var p := Min(x.index, |items|);
    assert items == items[..p] + items[p..];
    OldsConcat(items[..p], items[p..]);
    OldsConcat(items[..p] + [x], items[p..]);
    OldsConcat(items[..p], [x]);
  }

  lemma InsertOneBefore(items: seq<Item>, x: Item, at: nat)
    requires x.New? && at <= Min(x.index, |items|)
    ensures at <= |items| < |InsertOne(items, x)| && KeptBefore(InsertOne(items, x), at) == KeptBefore(items, at)
  {
    assert InsertOne(items, x)[..at] == items[..at];
  }

  lemma InsertOneAfter(items: seq<Item>, x: Item, at: nat)
    requires x.New? && Min(x.index, |items|) <= at <= |items|
    ensures at + 1 <= |InsertOne(items, x)| && KeptBefore(InsertOne(items, x), at + 1) == KeptBefore(items, at)
  {
    var p := Min(x.index, |items|);
    var head, mid := items[..p], items[p..at];
    assert InsertOne(items, x)[..at + 1] == head + [x] + mid;
    assert items[..at] == head + mid;
    OldsConcat(head, mid);
    OldsConcat(head + [x], mid);
    OldsConcat(head, [x]);
  }

  lemma InsertOnePlaces(items: seq<Item>, kept: seq<Section>, bound: nat, x: Item)
    requires Placed(items, kept, bound) && x.New? && x.index <= bound
    ensures Placed(InsertOne(items, x), kept, x.index)
  {
    var out, p := InsertOne(items, x), Min(x.index, |items|);
    InsertOneOlds(items, x);
    InsertOneBefore(items, x, p);
    KeptPrefix(items, Min(x.index, |kept|), p);
    forall at | 0 <= at < |out| ensures PlacedAt(out, at, |kept|) {
      if at < p {
        InsertOneBefore(items, x, at);
        assert PlacedAt(items, at, |kept|);
      } else if at > p {
        InsertOneAfter(items, x, at - 1);
        assert PlacedAt(items, at - 1, |kept|);
      }
    }
  }

  lemma {:induction false} InsertAllPlaces(items: seq<Item>, kept: seq<Section>, bound: nat, todo: seq<Item>)
    requires Placed(items, kept, bound) && AllNew(todo) && OrderedBy(todo, Index, Descending)
    requires todo != [] ==> todo[0].index <= bound
    ensures Placed(InsertAll(items, todo), kept, 0)
    decreases |todo|
  {
    if todo != [] {
      InsertOnePlaces(items, kept, bound, todo[0]);
      if |todo| > 1 {
        assert Descending(Index(todo[0]), Index(todo[1]));
      }
      InsertAllPlaces(InsertOne(items, todo[0]), kept, todo[0].index, todo[1..]);
    }
  }

  lemma InsertOneNews(items: seq<Item>, x: Item)
    requires x.New?
    ensures multiset(News(InsertOne(items, x))) == multiset(News(items)) + multiset{x}
  {
    var p := Min(x.index, |items|);
    assert items == items[..p] + items[p..];
    NewsConcat(items[..p], items[p..]);
    NewsConcat(items[..p] + [x], items[p..]);
    NewsConcat(items[..p], [x]);
  }

  lemma {:induction false} InsertAllNews(items: seq<Item>, todo: seq<Item>)
    requires AllNew(todo)
    ensures multiset(News(InsertAll(items, todo))) == multiset(News(items)) + multiset(todo)
    decreases |todo|
  {
    if todo != [] {
      InsertOneNews(items, todo[0]);
      InsertAllNews(InsertOne(items, todo[0]), todo[1..]);
      assert todo == [todo[0]] + todo[1..];
    }
  }

  /** For every policy: kept sections keep their order, every generated section appears exactly
      once, and one with insertion index g has exactly min(g, number kept) kept ones before it. */
  lemma LayoutPlaces(kept: seq<Section>, generated: seq<Item>)
    requires AllNew(generated)
    ensures var items := Layout(kept, generated);
            && Olds(items) == kept
            && multiset(News(items)) == multiset(generated)
            && forall at :: 0 <= at < |items| ==> PlacedAt(items, at, |kept|)
  {
    var items, todo := OldItems(kept), SortBy(generated, Index, Descending);
    SortedAllNew(generated);
    SortByKeeps(generated, Index, Descending);
    OldsOfOld(items);
    assert Sections(items) == kept;
    var bound := if todo == [] then 0 else todo[0].index;
    assert Placed(items, kept, bound);
    InsertAllPlaces(items, kept, bound, todo);
    InsertAllNews(items, todo);
  }

  // ------------------------------------------------------------ the whole transform

  lemma {:induction false} GeneratedAllNew(p: Policy, ntpLines: seq<string>, kept: nat, first: Category -> Option<nat>, n: nat)
    requires n <= |GenerationOrder|
    ensures AllNew(Generated(p, ntpLines, kept, first, n))
  {
    if n > 0 {
      GeneratedAllNew(p, ntpLines, kept, first, n - 1);
    }
  }

  function GeneratedFor(r: Rules, p: Policy, ntpLines: seq<string>, sections: seq<Section>): (g: seq<Item>)
    ensures AllNew(g)
  {
    var lists := SourceAccessLists(r, p, sections);
    var kept, first := |Kept(r, p, lists, sections)|, FirstIndexes(r, p, lists, sections);
    GeneratedAllNew(p, ntpLines, kept, first, |GenerationOrder|);
    Generated(p, ntpLines, kept, first, |GenerationOrder|)
  }

  /** The output of `transform_nxos_lab_config` on sections, with where each one comes from. */
  function Transformed(r: Rules, p: Policy, ntpLines: seq<string>, sections: seq<Section>): seq<Item> {
    Layout(Kept(r, p, SourceAccessLists(r, p, sections), sections), GeneratedFor(r, p, ntpLines, sections))
  }

  // ---------------------------------------------------------------- the second pass

  /** Rendered sections are recognised as what they are rendered for. */
  ghost predicate RenderedFit(r: Rules, p: Policy, ntpLines: seq<string>) {
    forall c, s {:trigger s in Rendered(p, ntpLines, c)} :: s in Rendered(p, ntpLines, c) && c != AccessClass ==>
      Recognised(r, c, s)
  }

  ghost predicate Recognised(r: Rules, c: Category, s: Section) {
    s != [] && r.category(s[0]) == Some(c)
  }

  /** The policies under which a second pass must change nothing. */
  predicate Settling(p: Policy) {
    !p.keepNtp && !p.keepSourceUsers && p.access != Replace
  }

  lemma {:induction false} AccessClassGone(r: Rules, lines: seq<string>)
    ensures forall l :: l in WithoutAccessClass(r, lines) ==> l in lines && !r.accessClass(l)
  {
    if lines != [] {
      AccessClassGone(r, lines[..|lines| - 1]);
    }
  }

  lemma {:induction false} NothingToRemove(r: Rules, lines: seq<string>)
    requires forall l :: l in lines ==> !r.accessClass(l)
    ensures WithoutAccessClass(r, lines) == lines
  {
    if lines != [] {
      var n := |lines| - 1;
      NothingToRemove(r, lines[..n]);
      assert lines == lines[..n] + [lines[n]] && lines[n] in lines;
    }
  }

  /** What the removal pass leaves of a section. */
  ghost predicate Settled(r: Rules, p: Policy, s: Section) {
    && s != []
    && (r.category(s[0]).Some? ==> !Removes(p, r.category(s[0]).value))
    && (r.lineVty(s[0]) && p.access != Preserve ==> forall l :: l in s[1..] ==> !r.accessClass(l))
  }

  lemma {:induction false} KeptSettles(r: Rules, p: Policy, lists: set<string>, sections: seq<Section>)
    requires p.access != Replace
    ensures forall s :: s in Kept(r, p, lists, sections) ==> Settled(r, p, s)
  {
    if sections != [] {
      KeptSettles(r, p, lists, sections[..|sections| - 1]);
      var last := sections[|sections| - 1];
      if KeptOf(r, p, lists, last) != [] {
        AccessClassGone(r, last[1..]);
        assert ([last[0]] + WithoutAccessClass(r, last[1..]))[1..] == WithoutAccessClass(r, last[1..]);
      }
    }
  }

  lemma SettledIsKept(r: Rules, p: Policy, lists: set<string>, s: Section)
    requires Settled(r, p, s) && p.access != Replace && (p.access == Remove ==> lists == {})
    ensures KeptOf(r, p, lists, s) == [s]
  {
    if r.lineVty(s[0]) && p.access != Preserve {
      NothingToRemove(r, s[1..]);
      assert [s[0]] + s[1..] + [] == s;
    }
  }

  /** Items a second removal pass takes apart again: kept sections stay, generated ones go. */
  ghost predicate Separable(r: Rules, p: Policy, lists: set<string>, items: seq<Item>) {
    forall x :: x in items ==>
      if x.Old? then KeptOf(r, p, lists, x.section) == [x.section] else RemovedFor(r, p, lists, x.section) == Some(x.category)
  }

  lemma {:induction false} SecondKept(r: Rules, p: Policy, lists: set<string>, items: seq<Item>)
    requires Separable(r, p, lists, items)
    ensures Kept(r, p, lists, Sections(items)) == Olds(items)
  {
    if items != [] {
      var n := |items| - 1;
      SecondKept(r, p, lists, items[..n]);
      assert Sections(items)[..n] == Sections(items[..n]);
      assert items[n] in items;
    }
  }

  ghost predicate GeneratedAt(items: seq<Item>, c: Category, at: int) {
    0 <= at < |items| && items[at].New? && items[at].category == c
  }

  /** The first removal of a category in the second pass: no later than any of its generated sections ... */
  lemma {:induction false} SecondFirstBounds(r: Rules, p: Policy, lists: set<string>, items: seq<Item>, c: Category, at: nat)
    requires Separable(r, p, lists, items) && GeneratedAt(items, c, at)
    ensures var f := FirstIndex(r, p, lists, Sections(items), c); f.Some? && f.value <= KeptBefore(items, at)
  {
    var n := |items| - 1;
    var before := items[..n];
    assert Sections(items)[..n] == Sections(before);
    SecondKept(r, p, lists, before);
    assert items[n] in items;
    if at < n {
      SecondFirstBounds(r, p, lists, before, c, at);
      assert before[..at] == items[..at];
    } else {
      SecondFirstOccurs(r, p, lists, before, c);
      if FirstIndex(r, p, lists, Sections(before), c).Some? {
        var k :| GeneratedAt(before, c, k) && FirstIndex(r, p, lists, Sections(before), c) == Some(KeptBefore(before, k));
        assert before == before[..k] + before[k..];
        OldsConcat(before[..k], before[k..]);
      }
    }
  }

  /** ... and at one of them. */
  lemma {:induction false} SecondFirstOccurs(r: Rules, p: Policy, lists: set<string>, items: seq<Item>, c: Category)
    requires Separable(r, p, lists, items)
    ensures var f := FirstIndex(r, p, lists, Sections(items), c);
            f.Some? ==> exists at :: GeneratedAt(items, c, at) && f == Some(KeptBefore(items, at))
  {
    if items != [] {
      var n := |items| - 1;
      var before := items[..n];
      assert Sections(items)[..n] == Sections(before);
      SecondFirstOccurs(r, p, lists, before, c);
      if FirstIndex(r, p, lists, Sections(before), c).Some? {
        var k :| GeneratedAt(before, c, k) && FirstIndex(r, p, lists, Sections(before), c) == Some(KeptBefore(before, k));
        assert before[..k] == items[..k];
        assert GeneratedAt(items, c, k);
      } else if FirstIndex(r, p, lists, Sections(items), c).Some? {
        SecondKept(r, p, lists, before);
        assert items[n] in items;
        assert GeneratedAt(items, c, n);
      }
    }
  }

  // ------------------------------------------------------- what is generated and where

  /** Each generated section is one rendered for its category, at the category's start or later. */
  lemma {:induction false} GeneratedFrom(p: Policy, ntpLines: seq<string>, kept: nat, first: Category -> Option<nat>, n: nat, x: Item)
    requires n <= |GenerationOrder| && x in Generated(p, ntpLines, kept, first, n)
    ensures x.New? && x.section in Rendered(p, ntpLines, x.category) && x.index >= Start(kept, first, x.category)
  {
    var c := GenerationOrder[n - 1];
    var batch := Batch(c, Start(kept, first, c), Rendered(p, ntpLines, c));
    if x in batch {
      var i :| 0 <= i < |batch| && batch[i] == x;
    } else {
      GeneratedFrom(p, ntpLines, kept, first, n - 1, x);
    }
  }

  /** A category with rendered sections has one at its start. */
  lemma {:induction false} GeneratedStarts(p: Policy, ntpLines: seq<string>, kept: nat, first: Category -> Option<nat>, n: nat, k: nat)
    requires k < n <= |GenerationOrder| && Rendered(p, ntpLines, GenerationOrder[k]) != []
    ensures var c := GenerationOrder[k];
            New(Start(kept, first, c), c, Rendered(p, ntpLines, c)[0]) in Generated(p, ntpLines, kept, first, n)
  {
    if k < n - 1 {
      GeneratedStarts(p, ntpLines, kept, first, n - 1, k);
    } else {
      var c := GenerationOrder[k];
      var batch := Batch(c, Start(kept, first, c), Rendered(p, ntpLines, c));
      assert batch[0] == New(Start(kept, first, c), c, Rendered(p, ntpLines, c)[0]);
    }
  }

  /** The generated list depends on the starts of categories with rendered sections only. */
  lemma {:induction false} GeneratedSame(p: Policy, ntpLines: seq<string>, kept: nat, f: Category -> Option<nat>,
                                         g: Category -> Option<nat>, n: nat)
    requires n <= |GenerationOrder|
    requires forall k :: 0 <= k < n && Rendered(p, ntpLines, GenerationOrder[k]) != [] ==>
               Start(kept, f, GenerationOrder[k]) == Start(kept, g, GenerationOrder[k])
    ensures Generated(p, ntpLines, kept, f, n) == Generated(p, ntpLines, kept, g, n)
  {
    if n > 0 {
      GeneratedSame(p, ntpLines, kept, f, g, n - 1);
      var c := GenerationOrder[n - 1];
      if Rendered(p, ntpLines, c) == [] {
        assert Batch(c, Start(kept, f, c), []) == Batch(c, Start(kept, g, c), []);
      }
    }
  }

  lemma {:induction false} FirstIndexBounded(r: Rules, p: Policy, lists: set<string>, sections: seq<Section>, c: Category)
    ensures var f := FirstIndex(r, p, lists, sections, c); f.Some? ==> f.value <= |Kept(r, p, lists, sections)|
  {
    if sections != [] {
      FirstIndexBounded(r, p, lists, sections[..|sections| - 1], c);
    }
  }

  /** Every item is a kept section or one of the generated ones. */
  lemma {:induction false} FromOldsOrNews(items: seq<Item>)
    ensures forall x :: x in items ==> if x.Old? then x.section in Olds(items) else x in News(items)
    ensures forall x :: x in News(items) ==> x in items && x.New?
  {
    if items != [] {
      FromOldsOrNews(items[..|items| - 1]);
    }
  }

  // -------------------------------------------------------------- idempotence

  /** An output of the transform, in the terms the second pass needs. */
  lemma ItemsOfTransform(r: Rules, p: Policy, ntpLines: seq<string>, sections: seq<Section>, x: Item)
    requires x in Transformed(r, p, ntpLines, sections)
    ensures var lists := SourceAccessLists(r, p, sections);
            if x.Old? then x.section in Kept(r, p, lists, sections) else x in GeneratedFor(r, p, ntpLines, sections)
  {
    var items, generated := Transformed(r, p, ntpLines, sections), GeneratedFor(r, p, ntpLines, sections);
    LayoutPlaces(Kept(r, p, SourceAccessLists(r, p, sections), sections), generated);
    FromOldsOrNews(items);
    if x.New? {
      assert x in multiset(News(items));
      assert x in multiset(generated);
    }
  }

  lemma GeneratedItem(r: Rules, p: Policy, ntpLines: seq<string>, sections: seq<Section>, x: Item)
    requires x in GeneratedFor(r, p, ntpLines, sections)
    ensures x.New? && x.section in Rendered(p, ntpLines, x.category)
    ensures x.index >= StartOf(r, p, sections, x.category)
  {
    var lists := SourceAccessLists(r, p, sections);
    GeneratedFrom(p, ntpLines, |Kept(r, p, lists, sections)|, FirstIndexes(r, p, lists, sections), |GenerationOrder|, x);
  }

  function StartOf(r: Rules, p: Policy, sections: seq<Section>, c: Category): nat {
    var lists := SourceAccessLists(r, p, sections);
    Start(|Kept(r, p, lists, sections)|, FirstIndexes(r, p, lists, sections), c)
  }

  /** Under a settling policy only removed categories are rendered. */
  lemma RenderedIsRemoved(p: Policy, ntpLines: seq<string>, c: Category)
    requires Settling(p)
    ensures c == AccessClass || !Removes(p, c) ==> Rendered(p, ntpLines, c) == []
  {}

  lemma GeneratedItemGoes(r: Rules, p: Policy, ntpLines: seq<string>, lists: set<string>, sections: seq<Section>, x: Item)
    requires RenderedFit(r, p, ntpLines) && Settling(p) && x in GeneratedFor(r, p, ntpLines, sections)
    ensures x.New? && RemovedFor(r, p, lists, x.section) == Some(x.category)
  {
    GeneratedItem(r, p, ntpLines, sections, x);
    RenderedIsRemoved(p, ntpLines, x.category);
    assert Recognised(r, x.category, x.section);
  }

  lemma GeneratedItemNotVty(r: Rules, p: Policy, ntpLines: seq<string>, sections: seq<Section>, x: Item)
    requires RulesFit(r) && RenderedFit(r, p, ntpLines) && Settling(p) && x in GeneratedFor(r, p, ntpLines, sections)
    ensures x.section != [] && !r.lineVty(x.section[0])
  {
    GeneratedItem(r, p, ntpLines, sections, x);
    RenderedIsRemoved(p, ntpLines, x.category);
    assert Recognised(r, x.category, x.section);
  }

  /** After the first pass no access-class line is left to name a list. */
  lemma NoSourceLists(r: Rules, p: Policy, ntpLines: seq<string>, sections: seq<Section>)
    requires RulesFit(r) && RenderedFit(r, p, ntpLines) && Settling(p)
    ensures SourceAccessLists(r, p, Sections(Transformed(r, p, ntpLines, sections))) == {}
  {
    var items := Transformed(r, p, ntpLines, sections);
    if p.access != Preserve {
      forall s, l | s in Sections(items) && s != [] && r.lineVty(s[0]) && l in s[1..] ensures r.accessClassName(l).None? {
        var at :| 0 <= at < |items| && items[at].section == s;
        var x := items[at];
        ItemsOfTransform(r, p, ntpLines, sections, x);
        if x.New? {
          GeneratedItemNotVty(r, p, ntpLines, sections, x);
        } else {
          KeptSettles(r, p, SourceAccessLists(r, p, sections), sections);
        }
      }
    }
  }

  lemma OutputSeparable(r: Rules, p: Policy, ntpLines: seq<string>, sections: seq<Section>)
    requires RulesFit(r) && RenderedFit(r, p, ntpLines) && Settling(p)
    ensures Separable(r, p, {}, Transformed(r, p, ntpLines, sections))
  {
    var items, lists := Transformed(r, p, ntpLines, sections), SourceAccessLists(r, p, sections);
    forall x | x in items
      ensures if x.Old? then KeptOf(r, p, {}, x.section) == [x.section] else RemovedFor(r, p, {}, x.section) == Some(x.category)
    {
      ItemsOfTransform(r, p, ntpLines, sections, x);
      if x.Old? {
        KeptSettles(r, p, lists, sections);
        SettledIsKept(r, p, {}, x.section);
      } else {
        GeneratedItemGoes(r, p, ntpLines, {}, sections, x);
      }
    }
  }

  /** The second pass finds a category where its generated sections with the least index were put. */
  lemma FoundAtLeastIndex(r: Rules, p: Policy, lists: set<string>, items: seq<Item>, kept: nat, c: Category, v: nat, at: int)
    requires Separable(r, p, lists, items) && v <= kept
    requires forall i {:trigger PlacedAt(items, i, kept)} :: 0 <= i < |items| ==> PlacedAt(items, i, kept)
    requires forall i :: GeneratedAt(items, c, i) ==> items[i].index >= v
    requires GeneratedAt(items, c, at) && items[at].index == v
    ensures FirstIndex(r, p, lists, Sections(items), c) == Some(v)
  {
    assert PlacedAt(items, at, kept);
    SecondFirstBounds(r, p, lists, items, c, at);
    SecondFirstOccurs(r, p, lists, items, c);
    var k :| GeneratedAt(items, c, k) && FirstIndex(r, p, lists, Sections(items), c) == Some(KeptBefore(items, k));
    assert PlacedAt(items, k, kept);
  }

  lemma StartIsThere(r: Rules, p: Policy, ntpLines: seq<string>, sections: seq<Section>, k: nat) returns (at: int)
    requires k < |GenerationOrder| && Rendered(p, ntpLines, GenerationOrder[k]) != []
    ensures var items, c := Transformed(r, p, ntpLines, sections), GenerationOrder[k];
            GeneratedAt(items, c, at) && items[at].index == StartOf(r, p, sections, c)
  {
    var items, lists, c := Transformed(r, p, ntpLines, sections), SourceAccessLists(r, p, sections), GenerationOrder[k];
    var kept, generated := Kept(r, p, lists, sections), GeneratedFor(r, p, ntpLines, sections);
    LayoutPlaces(kept, generated);
    GeneratedStarts(p, ntpLines, |kept|, FirstIndexes(r, p, lists, sections), |GenerationOrder|, k);
    var x := New(StartOf(r, p, sections, c), c, Rendered(p, ntpLines, c)[0]);
    assert x in multiset(generated);
    assert x in multiset(News(items));
    FromOldsOrNews(items);
    assert x in items;
    at :| 0 <= at < |items| && items[at] == x;
  }

  /** The second pass finds the same start for every category with rendered sections. */
  lemma SameStart(r: Rules, p: Policy, ntpLines: seq<string>, sections: seq<Section>, k: nat)
    requires RulesFit(r) && RenderedFit(r, p, ntpLines) && Settling(p)
    requires k < |GenerationOrder| && Rendered(p, ntpLines, GenerationOrder[k]) != []
    ensures FirstIndex(r, p, {}, Sections(Transformed(r, p, ntpLines, sections)), GenerationOrder[k])
            == Some(StartOf(r, p, sections, GenerationOrder[k]))
  {
    var items, lists, c := Transformed(r, p, ntpLines, sections), SourceAccessLists(r, p, sections), GenerationOrder[k];
    var kept := Kept(r, p, lists, sections);
    LayoutPlaces(kept, GeneratedFor(r, p, ntpLines, sections));
    FirstIndexBounded(r, p, lists, sections, c);
    OutputSeparable(r, p, ntpLines, sections);
    var at := StartIsThere(r, p, ntpLines, sections, k);
    forall i | GeneratedAt(items, c, i) ensures items[i].index >= StartOf(r, p, sections, c) {
      ItemsOfTransform(r, p, ntpLines, sections, items[i]);
      GeneratedItem(r, p, ntpLines, sections, items[i]);
    }
    FoundAtLeastIndex(r, p, {}, items, |kept|, c, StartOf(r, p, sections, c), at);
  }

  /** With NTP servers and source users not preserved and the access class removed or preserved, a second transform
      with the same NTP lines changes nothing, whatever the sections and the service policies. */
  lemma Idempotent(r: Rules, p: Policy, ntpLines: seq<string>, sections: seq<Section>)
    requires RulesFit(r) && RenderedFit(r, p, ntpLines) && Settling(p)
    ensures var out := Sections(Transformed(r, p, ntpLines, sections));
            Sections(Transformed(r, p, ntpLines, out)) == out
  {
    var items, lists := Transformed(r, p, ntpLines, sections), SourceAccessLists(r, p, sections);
    var kept, out := Kept(r, p, lists, sections), Sections(items);
    var f, g := FirstIndexes(r, p, lists, sections), FirstIndexes(r, p, {}, out);
    NoSourceLists(r, p, ntpLines, sections);
    OutputSeparable(r, p, ntpLines, sections);
    SecondKept(r, p, {}, items);
    LayoutPlaces(kept, GeneratedFor(r, p, ntpLines, sections));
    forall k | 0 <= k < |GenerationOrder| && Rendered(p, ntpLines, GenerationOrder[k]) != []
      ensures Start(|kept|, f, GenerationOrder[k]) == Start(|kept|, g, GenerationOrder[k])
    {
      SameStart(r, p, ntpLines, sections, k);
    }
    GeneratedSame(p, ntpLines, |kept|, f, g, |GenerationOrder|);
  }

  // -------------------------------------------- the two passes, by the source sections

  lemma GoesIs(r: Rules, p: Policy, sections: seq<Section>, s: Section, c: Category)
    ensures RemovedFor(r, p, SourceAccessLists(r, p, sections), s) == Some(c) <==> GoesAs(r, p, sections, s, c)
  {
    if s != [] && r.category(s[0]).None? && r.accessListName(s[0]).Some? && p.access != Preserve {
      var name := r.accessListName(s[0]).value;
      assert name in SourceAccessLists(r, p, sections) <==> VtyNames(r, sections, name) by {
        if VtyNames(r, sections, name) {
          var t, l :| t in sections && t != [] && r.lineVty(t[0]) && l in t[1..] && r.accessClassName(l) == Some(name);
          assert r.accessClassName(l).value in SourceAccessLists(r, p, sections);
        }
      }
    }
  }

  /** The source indexes of the kept sections. */
  ghost function Places(r: Rules, p: Policy, lists: set<string>, sections: seq<Section>): (ks: seq<nat>)
    ensures |ks| == |Kept(r, p, lists, sections)|
  {
    if sections == [] then []
    else
      var n := |sections| - 1;
      Places(r, p, lists, sections[..n]) + if KeptOf(r, p, lists, sections[n]) == [] then [] else [n]
  }

  lemma {:induction false} PlacesIncrease(r: Rules, p: Policy, lists: set<string>, sections: seq<Section>)
    ensures Increasing(Places(r, p, lists, sections)) && forall k :: k in Places(r, p, lists, sections) ==> k < |sections|
  {
    if sections != [] {
      PlacesIncrease(r, p, lists, sections[..|sections| - 1]);
      var before := Places(r, p, lists, sections[..|sections| - 1]);
      assert forall i :: 0 <= i < |before| ==> before[i] in before;
    }
  }

  lemma {:induction false} PlacesAre(r: Rules, p: Policy, lists: set<string>, sections: seq<Section>, k: nat)
    requires k < |sections|
    ensures k in Places(r, p, lists, sections) <==> KeptOf(r, p, lists, sections[k]) != []
  {
    var n := |sections| - 1;
    if k < n {
      PlacesAre(r, p, lists, sections[..n], k);
    } else {
      PlacesIncrease(r, p, lists, sections[..n]);
    }
  }

  lemma {:induction false} KeptAt(r: Rules, p: Policy, lists: set<string>, sections: seq<Section>, i: nat)
    requires i < |Places(r, p, lists, sections)|
    ensures Places(r, p, lists, sections)[i] < |sections|
    ensures KeptOf(r, p, lists, sections[Places(r, p, lists, sections)[i]]) == [Kept(r, p, lists, sections)[i]]
  {
    var n := |sections| - 1;
    if i < |Places(r, p, lists, sections[..n])| {
      KeptAt(r, p, lists, sections[..n], i);
    } else {
      assert Kept(r, p, lists, sections)[i] == KeptOf(r, p, lists, sections[n])[0];
    }
  }

  /** The lines of a `line vty` section that stay. */
  ghost function LinesAt(r: Rules, lines: seq<string>): (ls: seq<nat>)
    ensures |ls| == |WithoutAccessClass(r, lines)|
  {
    if lines == [] then []
    else LinesAt(r, lines[..|lines| - 1]) + if r.accessClass(lines[|lines| - 1]) then [] else [|lines| - 1]
  }

  lemma {:induction false} LinesIncrease(r: Rules, lines: seq<string>)
    ensures Increasing(LinesAt(r, lines)) && forall k :: k in LinesAt(r, lines) ==> k < |lines|
  {
    if lines != [] {
      LinesIncrease(r, lines[..|lines| - 1]);
      var before := LinesAt(r, lines[..|lines| - 1]);
      assert forall i :: 0 <= i < |before| ==> before[i] in before;
    }
  }

  lemma {:induction false} LinesHave(r: Rules, lines: seq<string>, k: nat)
    requires k < |lines|
    ensures k in LinesAt(r, lines) <==> !r.accessClass(lines[k])
  {
    var n := |lines| - 1;
    if k < n {
      LinesHave(r, lines[..n], k);
    } else {
      LinesIncrease(r, lines[..n]);
    }
  }

  lemma {:induction false} LineAt(r: Rules, lines: seq<string>, i: nat)
    requires i < |LinesAt(r, lines)|
    ensures LinesAt(r, lines)[i] < |lines| && WithoutAccessClass(r, lines)[i] == lines[LinesAt(r, lines)[i]]
  {
    var n := |lines| - 1;
    if i < |LinesAt(r, lines[..n])| {
      LineAt(r, lines[..n], i);
    }
  }

  lemma LinesAre(r: Rules, lines: seq<string>) returns (ls: seq<nat>)
    ensures Increasing(ls) && forall k: nat :: k in ls <==> k < |lines| && !r.accessClass(lines[k])
    ensures |ls| == |WithoutAccessClass(r, lines)|
    ensures forall i :: 0 <= i < |ls| ==> ls[i] < |lines| && WithoutAccessClass(r, lines)[i] == lines[ls[i]]
  {
    ls := LinesAt(r, lines);
    LinesIncrease(r, lines);
    forall k: nat | k < |lines| ensures k in ls <==> !r.accessClass(lines[k]) {
      LinesHave(r, lines, k);
    }
    forall i | 0 <= i < |ls| ensures ls[i] < |lines| && WithoutAccessClass(r, lines)[i] == lines[ls[i]] {
      LineAt(r, lines, i);
    }
  }

  ghost function Shifted(tail: seq<nat>): (ls: seq<nat>)
    ensures |ls| == |tail| + 1 && ls[0] == 0 && forall i :: 0 < i < |ls| ==> ls[i] == tail[i - 1] + 1
  {
    [0] + seq(|tail|, i requires 0 <= i < |tail| => tail[i] + 1)
  }

  lemma ShiftedHas(tail: seq<nat>, k: nat)
    requires k > 0
    ensures k in Shifted(tail) <==> k - 1 in tail
  {
    var before := k - 1;
    if before in tail {
      var i :| 0 <= i < |tail| && tail[i] == before;
      assert Shifted(tail)[i + 1] == k;
    }
    if k in Shifted(tail) {
      var i :| 0 <= i < |Shifted(tail)| && Shifted(tail)[i] == k;
      assert tail[i - 1] == before;
    }
  }

  lemma SectionLines(r: Rules, s: Section) returns (ls: seq<nat>)
    requires s != []
    ensures Increasing(ls) && forall k: nat :: k in ls <==> k < |s| && (k == 0 || !r.accessClass(s[k]))
    ensures |ls| == |WithoutAccessClass(r, s[1..])| + 1 && ls[0] == 0
    ensures forall i :: 0 < i < |ls| ==> 0 < ls[i] < |s| && WithoutAccessClass(r, s[1..])[i - 1] == s[ls[i]]
  {
    var tail := LinesAre(r, s[1..]);
    ls := Shifted(tail);
    forall k: nat ensures k in ls <==> k < |s| && (k == 0 || !r.accessClass(s[k])) {
      if k == 0 {
        assert ls[0] == 0;
      } else {
        var before := k - 1;
        ShiftedHas(tail, k);
        assert before in tail <==> before < |s[1..]| && !r.accessClass(s[1..][before]);
      }
    }
  }

  lemma RemainderIs(r: Rules, p: Policy, s: Section)
    requires s != []
    ensures Leaves(r, p, s, Remainder(r, p, s))
  {
    if r.lineVty(s[0]) && p.access != Preserve {
      var ls := SectionLines(r, s);
      var body, t := [s[0]] + WithoutAccessClass(r, s[1..]), Remainder(r, p, s);
      assert t == body + if p.access == Replace then [p.attachLine] else [];
      forall i | 0 <= i < |ls| ensures ls[i] < |s| && t[i] == s[ls[i]] {
        assert t[i] == body[i] && (i > 0 ==> body[i] == WithoutAccessClass(r, s[1..])[i - 1]);
      }
    }
  }

  lemma KeptAreThose(r: Rules, p: Policy, sections: seq<Section>)
    ensures var lists := SourceAccessLists(r, p, sections);
      KeptAre(r, p, sections, Places(r, p, lists, sections), Kept(r, p, lists, sections))
  {
    var lists := SourceAccessLists(r, p, sections);
    var ks, kept := Places(r, p, lists, sections), Kept(r, p, lists, sections);
    PlacesIncrease(r, p, lists, sections);
    forall k: nat ensures k in ks <==> Stays(r, p, sections, k) {
      if k < |sections| {
        PlacesAre(r, p, lists, sections, k);
        StaysIs(r, p, sections, k);
      }
    }
    forall i | 0 <= i < |ks| ensures ks[i] < |sections| && Leaves(r, p, sections[ks[i]], kept[i]) {
      KeptAt(r, p, lists, sections, i);
      RemainderIs(r, p, sections[ks[i]]);
    }
  }

  lemma StaysIs(r: Rules, p: Policy, sections: seq<Section>, k: nat)
    requires k < |sections|
    ensures Stays(r, p, sections, k) <==>
      sections[k] != [] && RemovedFor(r, p, SourceAccessLists(r, p, sections), sections[k]).None?
  {
    var gone := RemovedFor(r, p, SourceAccessLists(r, p, sections), sections[k]);
    forall c ensures gone == Some(c) <==> GoesAs(r, p, sections, sections[k], c) {
      GoesIs(r, p, sections, sections[k], c);
    }
    if gone.Some? {
      assert GoesAs(r, p, sections, sections[k], gone.value);
    }
  }

  /** The first section removed for `c` is the one with index `k`. */
  ghost predicate FirstRemoved(r: Rules, p: Policy, lists: set<string>, sections: seq<Section>, c: Category, k: int) {
    && 0 <= k < |sections| && RemovedFor(r, p, lists, sections[k]) == Some(c)
    && forall j :: 0 <= j < k ==> RemovedFor(r, p, lists, sections[j]) != Some(c)
  }

  /** The index `f` counts the kept sections in front of section `k`. */
  ghost predicate CountsUpTo(ks: seq<nat>, f: nat, k: nat) {
    f <= |ks| && forall i :: 0 <= i < |ks| ==> (i < f <==> ks[i] < k)
  }

  lemma CountStays(ks: seq<nat>, f: nat, k: nat, n: nat)
    requires CountsUpTo(ks, f, k) && k < n
    ensures CountsUpTo(ks + [n], f, k) && CountsUpTo(ks + [], f, k)
  {
    assert ks + [] == ks;
  }

  lemma FirstIndexHere(r: Rules, p: Policy, lists: set<string>, sections: seq<Section>, c: Category)
    requires sections != [] && FirstRemoved(r, p, lists, sections, c, |sections| - 1)
    ensures FirstIndex(r, p, lists, sections, c) == Some(|Places(r, p, lists, sections)|)
    ensures CountsUpTo(Places(r, p, lists, sections), |Places(r, p, lists, sections)|, |sections| - 1)
  {
    var before := sections[..|sections| - 1];
    NoFirstIndex(r, p, lists, before, c);
    PlacesIncrease(r, p, lists, before);
    var ks := Places(r, p, lists, before);
    assert Places(r, p, lists, sections) == ks + [] == ks;
    assert forall i :: 0 <= i < |ks| ==> ks[i] in ks;
  }

  /** `first_indexes` counts the kept sections in front of it. */
  lemma {:induction false} FirstIndexIs(r: Rules, p: Policy, lists: set<string>, sections: seq<Section>, c: Category, k: nat)
    requires FirstRemoved(r, p, lists, sections, c, k)
    ensures var (f, ks) := (FirstIndex(r, p, lists, sections, c), Places(r, p, lists, sections));
      f.Some? && CountsUpTo(ks, f.value, k)
  {
    var n := |sections| - 1;
    var before := sections[..n];
    if k < n {
      assert FirstRemoved(r, p, lists, before, c, k);
      FirstIndexIs(r, p, lists, before, c, k);
      CountStays(Places(r, p, lists, before), FirstIndex(r, p, lists, before, c).value, k, n);
    } else {
      FirstIndexHere(r, p, lists, sections, c);
    }
  }

  lemma {:induction false} NoFirstIndex(r: Rules, p: Policy, lists: set<string>, sections: seq<Section>, c: Category)
    requires forall j :: 0 <= j < |sections| ==> RemovedFor(r, p, lists, sections[j]) != Some(c)
    ensures FirstIndex(r, p, lists, sections, c).None?
  {
    if sections != [] {
      NoFirstIndex(r, p, lists, sections[..|sections| - 1], c);
    }
  }

  lemma {:induction false} SomeFirstRemoved(r: Rules, p: Policy, lists: set<string>, sections: seq<Section>, c: Category, j: nat)
    requires j < |sections| && RemovedFor(r, p, lists, sections[j]) == Some(c)
    ensures exists k :: FirstRemoved(r, p, lists, sections, c, k)
    decreases j
  {
    if i :| 0 <= i < j && RemovedFor(r, p, lists, sections[i]) == Some(c) {
      SomeFirstRemoved(r, p, lists, sections, c, i);
    } else {
      assert FirstRemoved(r, p, lists, sections, c, j);
    }
  }

  lemma FirstGoneIs(r: Rules, p: Policy, sections: seq<Section>, c: Category, k: int)
    ensures FirstGone(r, p, sections, c, k) <==> FirstRemoved(r, p, SourceAccessLists(r, p, sections), sections, c, k)
  {
    forall j | 0 <= j < |sections|
      ensures RemovedFor(r, p, SourceAccessLists(r, p, sections), sections[j]) == Some(c) <==> GoesAs(r, p, sections, sections[j], c)
    {
      GoesIs(r, p, sections, sections[j], c);
    }
  }

  /** Where a category starts, by the source sections. */
  lemma StartIs(r: Rules, p: Policy, sections: seq<Section>, c: Category, n: nat)
    ensures var ks := Places(r, p, SourceAccessLists(r, p, sections), sections);
      StartsAt(r, p, sections, ks, c, n) <==> n == StartOf(r, p, sections, c)
  {
    var lists := SourceAccessLists(r, p, sections);
    var ks, start := Places(r, p, lists, sections), StartOf(r, p, sections, c);
    forall k ensures FirstGone(r, p, sections, c, k) <==> FirstRemoved(r, p, lists, sections, c, k) {
      FirstGoneIs(r, p, sections, c, k);
    }
    if k :| FirstRemoved(r, p, lists, sections, c, k) {
      FirstIndexIs(r, p, lists, sections, c, k);
      forall m | FirstRemoved(r, p, lists, sections, c, m) ensures m == k {}
      OnlyOneStart(ks, k, start, n);
    } else {
      if j :| 0 <= j < |sections| && RemovedFor(r, p, lists, sections[j]) == Some(c) {
        SomeFirstRemoved(r, p, lists, sections, c, j);
      }
      NoFirstIndex(r, p, lists, sections, c);
    }
  }

  lemma OnlyOneStart(ks: seq<nat>, k: int, m: nat, n: nat)
    requires m <= |ks| && forall i :: 0 <= i < |ks| ==> (i < m <==> ks[i] < k)
    ensures n <= |ks| && (forall i :: 0 <= i < |ks| ==> (i < n <==> ks[i] < k)) <==> n == m
  {
    if n <= |ks| && (forall i :: 0 <= i < |ks| ==> (i < n <==> ks[i] < k)) {
      var least := Min(n, m);
      assert least < |ks| ==> (ks[least] < k <==> least < n);
    }
  }

  lemma RenderedIsAsked(p: Policy, ntpLines: seq<string>, c: Category, j: nat, s: Section)
    ensures Asked(p, ntpLines, c, j, s) <==> j < |Rendered(p, ntpLines, c)| && Rendered(p, ntpLines, c)[j] == s
  {}

  ghost predicate InBatch(c: Category, start: nat, sections: seq<Section>, x: Item) {
    && x.New? && x.category == c && start <= x.index < start + |sections| && x.section == sections[x.index - start]
  }

  lemma BatchIs(c: Category, start: nat, sections: seq<Section>, x: Item)
    ensures x in Batch(c, start, sections) <==> InBatch(c, start, sections, x)
    ensures multiset(Batch(c, start, sections))[x] <= 1
  {
    var batch := Batch(c, start, sections);
    if InBatch(c, start, sections, x) {
      assert batch[x.index - start] == x;
    }
    forall i, j | 0 <= i < j < |batch| ensures batch[i] != batch[j] {
      assert batch[i].index != batch[j].index;
    }
    BatchOnce(batch, x);
  }

  /** What is generated in the turn of a category: each rendered section, at the start or as many places later. */
  ghost predicate InTurn(p: Policy, ntpLines: seq<string>, kept: nat, first: Category -> Option<nat>, k: int, x: Item) {
    0 <= k < |GenerationOrder| &&
    InBatch(GenerationOrder[k], Start(kept, first, GenerationOrder[k]), Rendered(p, ntpLines, GenerationOrder[k]), x)
  }

  lemma TurnsDiffer()
    ensures forall i, j :: 0 <= i < j < |GenerationOrder| ==> GenerationOrder[i] != GenerationOrder[j]
  {}

  lemma {:induction false} GeneratedIs(p: Policy, ntpLines: seq<string>, kept: nat, first: Category -> Option<nat>, n: nat, x: Item)
    requires n <= |GenerationOrder|
    ensures x in Generated(p, ntpLines, kept, first, n) <==> exists k :: k < n && InTurn(p, ntpLines, kept, first, k, x)
    ensures multiset(Generated(p, ntpLines, kept, first, n))[x] <= 1
  {
    if n > 0 {
      GeneratedIs(p, ntpLines, kept, first, n - 1, x);
      var c := GenerationOrder[n - 1];
      TurnsDiffer();
      BatchIs(c, Start(kept, first, c), Rendered(p, ntpLines, c), x);
      OneMoreTurn(Generated(p, ntpLines, kept, first, n - 1), Batch(c, Start(kept, first, c), Rendered(p, ntpLines, c)), x);
      assert x in Batch(c, Start(kept, first, c), Rendered(p, ntpLines, c)) <==> InTurn(p, ntpLines, kept, first, n - 1, x);
    }
  }

  lemma OneMoreTurn(before: seq<Item>, batch: seq<Item>, x: Item)
    requires multiset(before)[x] <= 1 && multiset(batch)[x] <= 1
    ensures x in before + batch <==> x in before || x in batch
    ensures !(x in before && x in batch) ==> multiset(before + batch)[x] <= 1
  {
    assert x in before <==> multiset(before)[x] > 0;
    assert x in batch <==> multiset(batch)[x] > 0;
  }

  lemma {:induction false} BatchOnce(items: seq<Item>, x: Item)
    requires forall i, j :: 0 <= i < j < |items| ==> items[i] != items[j]
    ensures multiset(items)[x] <= 1
  {
    if items != [] {
      var n := |items| - 1;
      BatchOnce(items[..n], x);
      assert items == items[..n] + [items[n]];
      if x == items[n] {
        assert x !in items[..n];
        assert multiset(items[..n])[x] == 0;
      }
    }
  }

  lemma EveryCategoryHasItsTurn(c: Category)
    ensures c != Crypto <==> exists k :: 0 <= k < |GenerationOrder| && GenerationOrder[k] == c
  {
    assert GenerationOrder[0] == Ntp && GenerationOrder[1] == Users && GenerationOrder[2] == Logging && GenerationOrder[3] == Dns
        && GenerationOrder[4] == Aaa && GenerationOrder[5] == Snmp && GenerationOrder[6] == AccessClass;
  }

  lemma InTurnIsWanted(r: Rules, p: Policy, ntpLines: seq<string>, sections: seq<Section>, k: nat, x: Item)
    requires k < |GenerationOrder| && x.New? && x.category == GenerationOrder[k]
    ensures var lists := SourceAccessLists(r, p, sections);
      InTurn(p, ntpLines, |Kept(r, p, lists, sections)|, FirstIndexes(r, p, lists, sections), k, x) <==>
      Wanted(r, p, ntpLines, sections, Places(r, p, lists, sections), x)
  {
    var lists, start := SourceAccessLists(r, p, sections), StartOf(r, p, sections, x.category);
    var ks := Places(r, p, lists, sections);
    if InTurn(p, ntpLines, |Kept(r, p, lists, sections)|, FirstIndexes(r, p, lists, sections), k, x) {
      var j: nat := x.index - start;
      StartIs(r, p, sections, x.category, start);
      RenderedIsAsked(p, ntpLines, x.category, j, x.section);
    }
    if n: nat, j: nat :| StartsAt(r, p, sections, ks, x.category, n) && Asked(p, ntpLines, x.category, j, x.section) && x.index == n + j {
      StartIs(r, p, sections, x.category, n);
      RenderedIsAsked(p, ntpLines, x.category, j, x.section);
    }
  }

  lemma GeneratedIsWanted(r: Rules, p: Policy, ntpLines: seq<string>, sections: seq<Section>, x: Item)
    ensures var ks := Places(r, p, SourceAccessLists(r, p, sections), sections);
      x in GeneratedFor(r, p, ntpLines, sections) <==> Wanted(r, p, ntpLines, sections, ks, x)
    ensures multiset(GeneratedFor(r, p, ntpLines, sections))[x] <= 1
  {
    var lists := SourceAccessLists(r, p, sections);
    var ks, kept, first := Places(r, p, lists, sections), |Kept(r, p, lists, sections)|, FirstIndexes(r, p, lists, sections);
    GeneratedIs(p, ntpLines, kept, first, |GenerationOrder|, x);
    if k :| 0 <= k < |GenerationOrder| && InTurn(p, ntpLines, kept, first, k, x) {
      InTurnIsWanted(r, p, ntpLines, sections, k, x);
    }
    if Wanted(r, p, ntpLines, sections, ks, x) {
      EveryCategoryHasItsTurn(x.category);
      var k :| 0 <= k < |GenerationOrder| && GenerationOrder[k] == x.category;
      InTurnIsWanted(r, p, ntpLines, sections, k, x);
    }
  }

  /** The output is the lab configuration that the source sections and the policy call for. */
  lemma TransformedIsLabConfig(r: Rules, p: Policy, ntpLines: seq<string>, sections: seq<Section>)
    ensures var ks := Places(r, p, SourceAccessLists(r, p, sections), sections);
      IsLabConfig(r, p, ntpLines, sections, ks, Transformed(r, p, ntpLines, sections))
  {
    var lists := SourceAccessLists(r, p, sections);
    var ks, kept, generated := Places(r, p, lists, sections), Kept(r, p, lists, sections), GeneratedFor(r, p, ntpLines, sections);
    var items := Transformed(r, p, ntpLines, sections);
    LayoutPlaces(kept, generated);
    KeptAreThose(r, p, sections);
    forall x ensures x in News(items) <==> Wanted(r, p, ntpLines, sections, ks, x)
             ensures multiset(News(items))[x] <= 1
    {
      assert x in News(items) <==> x in multiset(News(items));
      assert x in generated <==> x in multiset(generated);
      GeneratedIsWanted(r, p, ntpLines, sections, x);
    }
    forall at | 0 <= at < |items| && items[at].New? ensures KeptBefore(items, at) == Min(items[at].index, |ks|) {
      assert PlacedAt(items, at, |kept|);
    }
  }

  // ------------------------------------------------------------------ the code

  /** The lines of a kept section, filtered. */
  method FilterSection(r: Rules, p: Policy, section: Section) returns (kept: Section)
    requires section != []
    ensures kept == Remainder(r, p, section)
  {
    kept := section;
    if r.lineVty(section[0]) && p.access != Preserve {
      var filtered := [];
      for i := 1 to |section|
        invariant filtered == WithoutAccessClass(r, section[1..i])
      {
        assert section[1..i + 1][..i - 1] == section[1..i];
        if !r.accessClass(section[i]) {
          filtered := filtered + [section[i]];
        }
      }
      assert section[1..|section|] == section[1..];
      kept := [section[0]] + filtered;
      if p.access == Replace {
        kept := kept + [p.attachLine];
      }
    }
  }

  /** The first loop: removed sections leave their category's index behind. */
  method RemoveSections(r: Rules, p: Policy, lists: set<string>, sections: seq<Section>)
    returns (output: seq<Section>, first: map<Category, nat>)
    ensures output == Kept(r, p, lists, sections)
    ensures forall c :: FirstIndex(r, p, lists, sections, c) == if c in first then Some(first[c]) else None
  {
    output, first := [], map[];
    for i := 0 to |sections|
      invariant output == Kept(r, p, lists, sections[..i])
      invariant forall c :: FirstIndex(r, p, lists, sections[..i], c) == if c in first then Some(first[c]) else None
    {
      var section := sections[i];
      assert sections[..i + 1][..i] == sections[..i];
      var category := RemovedFor(r, p, lists, section);
      if category.Some? {
        if category.value !in first {
          first := first[category.value := |output|];
        }
      } else if section != [] {
        var kept := FilterSection(r, p, section);
        output := output + [kept];
      }
    }
    assert sections[..|sections|] == sections;
  }

  function InMap(first: map<Category, nat>): Category -> Option<nat> {
    c => if c in first then Some(first[c]) else None
  }

  /** The list of generated sections with their indexes, category by category. */
  method Generate(p: Policy, ntpLines: seq<string>, kept: nat, first: map<Category, nat>) returns (generated: seq<Item>)
    ensures generated ==
            Generated(p, ntpLines, kept, InMap(first), |GenerationOrder|)
  {
    generated := [];
    for k := 0 to |GenerationOrder|
      invariant generated == Generated(p, ntpLines, kept, InMap(first), k)
    {
      var c := GenerationOrder[k];
      var start := if c in first then first[c] else kept;
      generated := generated + Batch(c, start, Rendered(p, ntpLines, c));
    }
  }

  /** The insertion loop, on the output list itself. */
  method InsertGenerated(kept: seq<Section>, generated: seq<Item>) returns (output: seq<Section>)
    requires AllNew(generated)
    ensures output == Sections(Layout(kept, generated))
  {
    SortedAllNew(generated);
    var todo := SortBy(generated, Index, Descending);
    output := kept;
    ghost var items := OldItems(kept);
    assert Sections(items) == kept;
    var i := 0;
    while i < |todo|
      invariant 0 <= i <= |todo| && output == Sections(items) && AllNew(todo)
      invariant InsertAll(items, todo[i..]) == Layout(kept, generated)
    {
      assert todo[i] in todo && todo[i..][1..] == todo[i + 1..] && todo[i..][0] == todo[i];
      var at := Min(todo[i].index, |output|);
      output := output[..at] + [todo[i].section] + output[at..];
      items := InsertOne(items, todo[i]);
      assert output == Sections(items);
      i := i + 1;
    }
    assert todo[i..] == [];
  }

  /** `transform_nxos_lab_config` on sections, from the rendered sections on. */
  method TransformSections(r: Rules, p: Policy, ntpLines: seq<string>, sections: seq<Section>)
    returns (output: seq<Section>, ghost ks: seq<nat>, ghost items: seq<Item>)
    ensures output == Sections(items) && items == Transformed(r, p, ntpLines, sections)
    ensures IsLabConfig(r, p, ntpLines, sections, ks, items)
  {
    ks, items := Places(r, p, SourceAccessLists(r, p, sections), sections), Transformed(r, p, ntpLines, sections);
    TransformedIsLabConfig(r, p, ntpLines, sections);
    var lists := SourceAccessLists(r, p, sections);
    var kept, first := RemoveSections(r, p, lists, sections);
    var generated := Generate(p, ntpLines, |kept|, first);
    SameGenerated(r, p, ntpLines, lists, sections, first);
    output := InsertGenerated(kept, generated);
  }

  lemma SameGenerated(r: Rules, p: Policy, ntpLines: seq<string>, lists: set<string>, sections: seq<Section>,
                      first: map<Category, nat>)
    requires lists == SourceAccessLists(r, p, sections)
    requires forall c :: FirstIndex(r, p, lists, sections, c) == if c in first then Some(first[c]) else None
    ensures Generated(p, ntpLines, |Kept(r, p, lists, sections)|, InMap(first),
                      |GenerationOrder|) == GeneratedFor(r, p, ntpLines, sections)
  {
    GeneratedSame(p, ntpLines, |Kept(r, p, lists, sections)|, InMap(first),
                  FirstIndexes(r, p, lists, sections), |GenerationOrder|);
  }
}
