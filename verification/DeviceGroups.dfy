// alred/device_groups.py: expansion of device groups by a memoised
// depth-first search over the child relation.
module DeviceGroups {
  import opened Ordering

  type Chain = seq<string>
  type HostChains = map<string, seq<Chain>>

  /** One entry of `device_groups`: what the mapping holds, or any other value. */
  datatype Definition = Mapping(devices: seq<string>, groups: seq<string>) | NotMapping

  type Definitions = map<string, Definition>

  datatype Error =
    | UnknownChild(name: string, parent: string)
    | Cycle(chain: Chain)
    | TooDeep(chain: Chain)
    | NotAMapping(name: string)
    | NoDevices(name: string)

  datatype Outcome = Done | Failed(error: Error)

  datatype Resolution = Resolution(groups: map<string, seq<string>>, chains: map<string, HostChains>)

  datatype Result = Ok(value: Resolution) | Err(error: Error)

  // ---------------------------------------------------------------- meaning

  ghost predicate IsChild(defs: Definitions, parent: string, child: string) {
    parent in defs && defs[parent].Mapping? && child in defs[parent].groups
  }

  /** A downward path through the hierarchy. */
  ghost predicate IsWalk(defs: Definitions, p: Chain) {
    p != [] && forall i :: 0 <= i < |p| - 1 ==> IsChild(defs, p[i], p[i + 1])
  }

  /** `p` leads from group `g` to a group that lists `host` directly. */
  ghost predicate IsChain(defs: Definitions, g: string, host: string, p: Chain)
    decreases |p|
  {
    && p != [] && p[0] == g && g in defs && defs[g].Mapping?
    && if |p| == 1 then host in defs[g].devices
       else p[1] in defs[g].groups && IsChain(defs, p[1], host, p[1..])
  }

  ghost predicate AllDefined(defs: Definitions) {
    && (forall g :: g in defs ==> defs[g].Mapping?)
    && (forall g, c :: IsChild(defs, g, c) ==> c in defs)
  }

  /** No group is below itself. */
  ghost predicate Acyclic(defs: Definitions) {
    forall p :: IsWalk(defs, p) && |p| > 1 ==> p[0] != p[|p| - 1]
  }

  ghost predicate Productive(defs: Definitions, g: string) {
    exists h, p :: IsChain(defs, g, h, p)
  }

  ghost predicate WellFormed(defs: Definitions) {
    AllDefined(defs) && Acyclic(defs) && forall g :: g in defs ==> Productive(defs, g)
  }

  ghost predicate NoWalkLongerThan(defs: Definitions, n: int) {
    forall p :: IsWalk(defs, p) && (forall i :: 0 <= i < |p| ==> p[i] in defs) ==> |p| <= n
  }

  /** For every host exactly the chains that lead to it, sorted, without duplicates. */
  ghost predicate ExactChains(defs: Definitions, g: string, m: HostChains) {
    && (forall h, p {:trigger Has(m, h, p)} :: Has(m, h, p) <==> IsChain(defs, g, h, p))
    && (forall h :: h in m ==> m[h] != [] && Ascending(ChainLe, m[h]))
  }

  ghost predicate ExactResolution(defs: Definitions, r: Resolution) {
    && r.groups.Keys == r.chains.Keys == defs.Keys
    && (forall g :: g in defs ==> ExactChains(defs, g, r.chains[g]))
    && (forall g :: g in defs ==> IsSorted(StrLe, r.chains[g].Keys, r.groups[g]))
  }

  /** Every error names a defect the definitions really have. */
  ghost predicate Justified(defs: Definitions, maxDepth: int, e: Error) {
    match e
    case UnknownChild(n, parent) => n !in defs && IsChild(defs, parent, n)
    case Cycle(c) => IsWalk(defs, c) && c[|c| - 1] in c[..|c| - 1]
    case TooDeep(c) =>
      && IsWalk(defs, c) && |c| > maxDepth
      && (forall i :: 0 <= i < |c| ==> c[i] in defs)
      && (forall i, j :: 0 <= i < j < |c| ==> c[i] != c[j])
    case NotAMapping(n) => n in defs && defs[n].NotMapping?
    case NoDevices(n) => n in defs && !Productive(defs, n)
  }

  lemma {:induction false} DistinctFits(s: Chain, names: set<string>)
    requires forall i :: 0 <= i < |s| ==> s[i] in names
    requires forall i, j :: 0 <= i < j < |s| ==> s[i] != s[j]
    ensures |s| <= |names|
  {
    if s != [] {
      DistinctFits(s[1..], names - {s[0]});
    }
  }

  // -------------------------------------------------------- the chains of one group

  ghost predicate Has(m: HostChains, h: string, p: Chain) {
    h in m && p in m[h]
  }

  function Get(m: HostChains, h: string): seq<Chain> {
    if h in m then m[h] else []
  }

  function Elements(chains: seq<Chain>): set<Chain> {
    set p | p in chains
  }

  function Prefixed(name: string, chains: seq<Chain>): (r: seq<Chain>)
    ensures |r| == |chains|
    ensures forall p :: p in r <==> p != [] && p[0] == name && p[1..] in chains
  {
    var r := seq(|chains|, i requires 0 <= i < |chains| => [name] + chains[i]);
    assert forall p :: p in r <==> p != [] && p[0] == name && p[1..] in chains by {
      forall p | p != [] && p[0] == name && p[1..] in chains ensures p in r {
        var i :| 0 <= i < |chains| && chains[i] == p[1..];
        assert r[i] == p;
      }
      forall p | p in r ensures p != [] && p[0] == name && p[1..] in chains {
        var i :| 0 <= i < |r| && r[i] == p;
        assert p[1..] == chains[i];
      }
    }
    r
  }

  ghost predicate NoEmptyLists(m: HostChains) {
    forall h :: h in m ==> m[h] != []
  }

  method DirectChains(name: string, devices: seq<string>) returns (chains: HostChains)
    ensures NoEmptyLists(chains)
    ensures forall h, p {:trigger Has(chains, h, p)} :: Has(chains, h, p) <==> h in devices && p == [name]
  {
    chains := map[];
    for i := 0 to |devices|
      invariant NoEmptyLists(chains)
      invariant forall h, p {:trigger Has(chains, h, p)} :: Has(chains, h, p) <==> h in devices[..i] && p == [name]
    {
      var host := devices[i];
      ghost var before := chains;
      chains := chains[host := Get(chains, host) + [[name]]];
      assert devices[..i + 1] == devices[..i] + [host];
      assert forall h, p {:trigger Has(chains, h, p)} :: Has(chains, h, p) <==> Has(before, h, p) || (h == host && p == [name]);
    }
    assert devices[..|devices|] == devices;
  }

  /** `chains` is `before` plus every chain of `child` with `name` put in front. */
  ghost predicate Extended(name: string, before: HostChains, child: HostChains, chains: HostChains) {
    forall h, p {:trigger Has(chains, h, p)} :: Has(chains, h, p) <==>
      Has(before, h, p) || (p != [] && p[0] == name && Has(child, h, p[1..]))
  }

  method AddChildChains(name: string, before: HostChains, child: HostChains) returns (chains: HostChains)
    requires NoEmptyLists(before) && NoEmptyLists(child)
    ensures NoEmptyLists(chains)
    ensures Extended(name, before, child, chains)
  {
    chains := before;
    var todo := child.Keys;
    while todo != {}
      invariant todo <= child.Keys && NoEmptyLists(chains)
      invariant forall h, p {:trigger Has(chains, h, p)} :: Has(chains, h, p) <==>
        Has(before, h, p) || (h !in todo && p != [] && p[0] == name && Has(child, h, p[1..]))
    {
      var host :| host in todo;
      ghost var last := chains;
      chains := chains[host := Get(chains, host) + Prefixed(name, child[host])];
      assert forall h, p {:trigger Has(chains, h, p)} :: Has(chains, h, p) <==>
        Has(last, h, p) || (h == host && p in Prefixed(name, child[host]));
      todo := todo - {host};
    }
  }

  method Normalize(chains: HostChains) returns (m: HostChains)
    requires NoEmptyLists(chains)
    ensures m.Keys == chains.Keys && NoEmptyLists(m)
    ensures forall h :: h in m ==> Ascending(ChainLe, m[h])
    ensures forall h, p {:trigger Has(m, h, p)} :: Has(m, h, p) <==> Has(chains, h, p)
  {
    ChainOrder();
    m := map h | h in chains :: Sorted(ChainLe, Elements(chains[h]));
    forall h | h in m ensures m[h] != [] {
      assert chains[h][0] in m[h];
    }
  }

  /** The chains of `name` found once its devices and its first `n` children are done. */
  ghost predicate ChainUpTo(defs: Definitions, name: string, n: nat, h: string, p: Chain)
    requires name in defs && defs[name].Mapping? && n <= |defs[name].groups|
  {
    p != [] && p[0] == name &&
    if |p| == 1 then h in defs[name].devices
    else p[1] in defs[name].groups[..n] && IsChain(defs, p[1], h, p[1..])
  }

  ghost predicate Collected(defs: Definitions, name: string, n: nat, chains: HostChains)
    requires name in defs && defs[name].Mapping? && n <= |defs[name].groups|
  {
    forall h, p {:trigger Has(chains, h, p)} :: Has(chains, h, p) <==> ChainUpTo(defs, name, n, h, p)
  }

  lemma NextChild(defs: Definitions, name: string, n: nat, before: HostChains, child: HostChains, after: HostChains)
    requires name in defs && defs[name].Mapping? && n < |defs[name].groups|
    requires Collected(defs, name, n, before)
    requires ExactChains(defs, defs[name].groups[n], child)
    requires Extended(name, before, child, after)
    ensures Collected(defs, name, n + 1, after)
  {
    var c := defs[name].groups[n];
    assert defs[name].groups[..n + 1] == defs[name].groups[..n] + [c];
    forall h, p ensures Has(after, h, p) <==> ChainUpTo(defs, name, n + 1, h, p) {
      assert Has(before, h, p) <==> ChainUpTo(defs, name, n, h, p);
      if p != [] {
        assert Has(child, h, p[1..]) <==> IsChain(defs, c, h, p[1..]);
        if |p| > 1 { assert p[1..][0] == p[1]; }
      }
    }
  }

  lemma AllChildren(defs: Definitions, name: string, chains: HostChains)
    requires name in defs && defs[name].Mapping? && Collected(defs, name, |defs[name].groups|, chains)
    ensures forall h, p {:trigger Has(chains, h, p)} :: Has(chains, h, p) <==> IsChain(defs, name, h, p)
    ensures chains == map[] ==> !Productive(defs, name)
  {
    assert defs[name].groups[..|defs[name].groups|] == defs[name].groups;
    forall h, p ensures Has(chains, h, p) <==> IsChain(defs, name, h, p) {
      assert Has(chains, h, p) <==> ChainUpTo(defs, name, |defs[name].groups|, h, p);
    }
    forall h, p | chains == map[] ensures !IsChain(defs, name, h, p) {
      assert !Has(chains, h, p);
    }
  }

  // ------------------------------------------------------------- the memoised search

  /** What is known of a completed group; `names` are all completed groups. */
  ghost predicate Completed(defs: Definitions, names: set<string>, g: string, devices: seq<string>, chains: HostChains) {
    && g in defs && defs[g].Mapping?
    && (forall c :: c in defs[g].groups ==> c in names)
    && chains != map[] && ExactChains(defs, g, chains)
    && IsSorted(StrLe, chains.Keys, devices)
  }

  ghost predicate MemoValid(defs: Definitions, devices: map<string, seq<string>>, chains: map<string, HostChains>) {
    && devices.Keys == chains.Keys
    && forall g {:trigger Completed(defs, chains.Keys, g, devices[g], chains[g])} ::
         g in chains ==> Completed(defs, chains.Keys, g, devices[g], chains[g])
  }

  lemma MemoChild(defs: Definitions, devices: map<string, seq<string>>, chains: map<string, HostChains>, g: string)
    requires MemoValid(defs, devices, chains) && g in chains
    ensures ExactChains(defs, g, chains[g]) && NoEmptyLists(chains[g])
  {
    assert Completed(defs, chains.Keys, g, devices[g], chains[g]);
  }

  // --------------------------------------------------- the depth at which a group is met

  /** A walk from any group to `g`. */
  ghost predicate IsRoute(defs: Definitions, p: Chain, g: string) {
    IsWalk(defs, p) && p[0] in defs && p[|p| - 1] == g
  }

  /** Where a name is first listed. */
  function Position(s: seq<string>, x: string): (i: nat)
    ensures i <= |s| && (x in s ==> i < |s| && s[i] == x) && forall j :: 0 <= j < i ==> s[j] != x
  {
    if s == [] || s[0] == x then 0 else 1 + Position(s[1..], x)
  }

  /** The routes part at `i`, and the search takes `p` first: roots in order of their names, children as listed. */
  ghost predicate PartAt(defs: Definitions, p: Chain, q: Chain, i: int) {
    && 0 <= i < |p| && i < |q| && p[..i] == q[..i]
    && if i == 0 then p[0] != q[0] && StrLe(p[0], q[0])
       else p[i - 1] in defs && defs[p[i - 1]].Mapping?
            && Position(defs[p[i - 1]].groups, p[i]) < Position(defs[p[i - 1]].groups, q[i])
  }

  ghost predicate Sooner(defs: Definitions, p: Chain, q: Chain) {
    exists i {:trigger PartAt(defs, p, q, i)} :: PartAt(defs, p, q, i)
  }

  /** The route on which an unhindered search would meet `g` for the first time. */
  ghost predicate FirstRoute(defs: Definitions, g: string, p: Chain) {
    IsRoute(defs, p, g) && forall q :: IsRoute(defs, q, g) && q != p ==> Sooner(defs, p, q)
  }

  /** No group is first met deeper than `n`. */
  ghost predicate MetWithin(defs: Definitions, n: int) {
    forall g, p :: FirstRoute(defs, g, p) ==> |p| <= n
  }

  lemma SoonerOneWay(defs: Definitions, p: Chain, q: Chain)
    requires Sooner(defs, p, q)
    ensures !Sooner(defs, q, p)
  {
    StrOrder();
    var i :| PartAt(defs, p, q, i);
    forall j ensures !PartAt(defs, q, p, j) {
      if 0 <= j < i {
        SameBefore(p, q, i, j);
      } else if i < j <= |p| && j <= |q| && p[..j] == q[..j] {
        SameBefore(p, q, j, i);
      }
    }
  }

  lemma SameBefore(p: Chain, q: Chain, n: nat, i: nat)
    requires i < n <= |p| && n <= |q| && p[..n] == q[..n]
    ensures p[i] == q[i]
  {
    assert p[..n][i] == q[..n][i];
  }

  lemma {:induction false} FirstDifference(p: Chain, q: Chain, from: nat) returns (i: nat)
    requires from <= |p| && from <= |q| && p[..from] == q[..from]
    ensures i <= |p| && i <= |q| && p[..i] == q[..i] && (i == |p| || i == |q| || p[i] != q[i])
    decreases |p| - from
  {
    if from == |p| || from == |q| || p[from] != q[from] {
      i := from;
    } else {
      assert p[..from + 1] == p[..from] + [p[from]] && q[..from + 1] == q[..from] + [q[from]];
      i := FirstDifference(p, q, from + 1);
    }
  }

  lemma Comparable(defs: Definitions, p: Chain, q: Chain)
    requires IsWalk(defs, p) && IsWalk(defs, q)
    ensures p <= q || q <= p || Sooner(defs, p, q) || Sooner(defs, q, p)
  {
    StrOrder();
    var i := FirstDifference(p, q, 0);
    if i == |p| {
      assert p[..i] == p;
    } else if i == |q| {
      assert q[..i] == q;
    } else if i == 0 {
      assert PartAt(defs, p, q, 0) || PartAt(defs, q, p, 0);
    } else {
      assert p[i - 1] == p[..i][i - 1] == q[..i][i - 1] == q[i - 1];
      assert IsChild(defs, p[i - 1], p[i]) && IsChild(defs, q[i - 1], q[i]);
      assert PartAt(defs, p, q, i) || PartAt(defs, q, p, i);
    }
  }

  /** Whatever is met sooner than the end of `p` is completed. */
  ghost predicate Behind(defs: Definitions, done: set<string>, p: Chain) {
    forall q {:trigger Sooner(defs, q, p)} :: IsWalk(defs, q) && q[0] in defs && Sooner(defs, q, p) ==> q[|q| - 1] in done
  }

  ghost predicate Closed(defs: Definitions, done: set<string>) {
    forall g, c :: g in done && IsChild(defs, g, c) ==> c in done
  }

  lemma LongerRoute(defs: Definitions, p: Chain, q: Chain)
    requires Acyclic(defs) && IsWalk(defs, q) && p != [] && p < q
    ensures p[|p| - 1] != q[|q| - 1]
  {
    var w := q[|p| - 1..];
    forall i | 0 <= i < |w| - 1 ensures IsChild(defs, w[i], w[i + 1]) {
      assert IsChild(defs, q[|p| - 1 + i], q[|p| + i]);
    }
    assert IsWalk(defs, w);
  }

  /** A group that is not completed yet is met on its first route. */
  lemma MetFirst(defs: Definitions, done: set<string>, p: Chain, g: string)
    requires Acyclic(defs) && IsRoute(defs, p, g) && Behind(defs, done, p) && g !in done
    ensures FirstRoute(defs, g, p)
  {
    forall q | IsRoute(defs, q, g) && q != p ensures Sooner(defs, p, q) {
      Comparable(defs, p, q);
      if p < q {
        LongerRoute(defs, p, q);
      } else if q < p {
        LongerRoute(defs, q, p);
      }
    }
  }

  lemma {:induction false} BelowDone(defs: Definitions, done: set<string>, q: Chain, k: nat)
    requires Closed(defs, done) && IsWalk(defs, q) && k < |q| && q[k] in done
    ensures q[|q| - 1] in done
    decreases |q| - k
  {
    if k < |q| - 1 {
      assert IsChild(defs, q[k], q[k + 1]);
      BelowDone(defs, done, q, k + 1);
    }
  }

  lemma BehindChild(defs: Definitions, done: set<string>, p: Chain, name: string, i: nat)
    requires Closed(defs, done) && Behind(defs, done, p) && p != [] && p[|p| - 1] == name
    requires name in defs && defs[name].Mapping? && i < |defs[name].groups|
    requires forall j :: 0 <= j < i ==> defs[name].groups[j] in done
    ensures Behind(defs, done, p + [defs[name].groups[i]])
  {
    var groups := defs[name].groups;
    var t := p + [groups[i]];
    forall q | IsWalk(defs, q) && q[0] in defs && Sooner(defs, q, t) ensures q[|q| - 1] in done {
      var k :| PartAt(defs, q, t, k);
      if k < |p| {
        assert t[..k] == p[..k];
        assert PartAt(defs, q, p, k);
        assert Sooner(defs, q, p);
      } else {
        assert k == |p|;
        assert q[k - 1] == q[..k][k - 1] == t[..k][k - 1] == p[k - 1];
        assert IsChild(defs, q[k - 1], q[k]);
        assert groups[Position(groups, q[k])] == q[k] && Position(groups, q[k]) < Position(groups, groups[i]) <= i;
        assert q[k] in done;
        BelowDone(defs, done, q, k);
      }
    }
  }

  lemma BehindRoot(defs: Definitions, done: set<string>, names: seq<string>, i: nat)
    requires Closed(defs, done) && i < |names| && IsSorted(StrLe, defs.Keys, names)
    requires forall j :: 0 <= j < i ==> names[j] in done
    ensures Behind(defs, done, [names[i]])
  {
    StrOrder();
    forall q | IsWalk(defs, q) && q[0] in defs && Sooner(defs, q, [names[i]]) ensures q[|q| - 1] in done {
      var k :| PartAt(defs, q, [names[i]], k);
      assert q[0] in names;
      var j :| 0 <= j < |names| && names[j] == q[0];
      BelowDone(defs, done, q, 0);
    }
  }

  ghost predicate Met(defs: Definitions, g: string, n: int) {
    exists p :: FirstRoute(defs, g, p) && |p| <= n
  }

  /** All completed groups were met within the limit. */
  ghost predicate Shallow(defs: Definitions, done: set<string>, n: int) {
    forall g {:trigger Met(defs, g, n)} :: g in done ==> Met(defs, g, n)
  }

  lemma OneFirstRoute(defs: Definitions, g: string, p: Chain, q: Chain)
    requires FirstRoute(defs, g, p) && FirstRoute(defs, g, q)
    ensures p == q
  {
    if p != q {
      SoonerOneWay(defs, p, q);
    }
  }

  lemma RouteEnds(defs: Definitions, p: Chain, g: string)
    requires AllDefined(defs) && IsRoute(defs, p, g)
    ensures g in defs
  {
    if |p| > 1 {
      assert IsChild(defs, p[|p| - 2], p[|p| - 1]);
    }
  }

  lemma AllShallow(defs: Definitions, done: set<string>, n: int)
    requires AllDefined(defs) && Shallow(defs, done, n) && defs.Keys <= done
    ensures MetWithin(defs, n)
  {
    forall g, p | FirstRoute(defs, g, p) ensures |p| <= n {
      RouteEnds(defs, p, g);
      assert Met(defs, g, n);
      var q :| FirstRoute(defs, g, q) && |q| <= n;
      OneFirstRoute(defs, g, p, q);
    }
  }

  class Resolver {
    const defs: Definitions
    const maxDepth: int
    var memoDevices: map<string, seq<string>>
    var memoChains: map<string, HostChains>

    constructor (defs: Definitions, maxDepth: int)
      ensures this.defs == defs && this.maxDepth == maxDepth
      ensures Valid() && memoChains == map[]
    {
      this.defs := defs;
      this.maxDepth := maxDepth;
      memoDevices, memoChains := map[], map[];
    }

    ghost predicate Valid()
      reads this
    {
      MemoValid(defs, memoDevices, memoChains)
    }

    /** The groups being expanded: a downward path without repetition. */
    ghost predicate IsStack(stack: Chain, name: string) {
      && IsWalk(defs, stack + [name])
      && (forall i :: 0 <= i < |stack| ==> stack[i] in defs)
      && (forall i, j :: 0 <= i < j < |stack| ==> stack[i] != stack[j])
    }

    /** On a well-formed hierarchy: what comes before the end of this path is done, and was met within the limit. */
    ghost predicate OnSchedule(path: Chain)
      reads this
    {
      WellFormed(defs) ==> Behind(defs, memoChains.Keys, path) && Shallow(defs, memoChains.Keys, maxDepth)
    }

    /** On a well-formed hierarchy: so far no group was met beyond the limit, or one is and that is the error. */
    ghost predicate Measured(o: Outcome)
      reads this
    {
      WellFormed(defs) ==>
        if o.Done? then Shallow(defs, memoChains.Keys, maxDepth) else !MetWithin(defs, maxDepth)
    }

    lemma MemoClosed()
      requires Valid()
      ensures Closed(defs, memoChains.Keys)
    {
      forall g, c | g in memoChains && IsChild(defs, g, c) ensures c in memoChains {
        assert Completed(defs, memoChains.Keys, g, memoDevices[g], memoChains[g]);
      }
    }

    lemma NextChildOnSchedule(stack: Chain, name: string, i: nat)
      requires Valid() && OnSchedule(stack + [name]) && name in defs && defs[name].Mapping? && i < |defs[name].groups|
      requires forall j :: 0 <= j < i ==> defs[name].groups[j] in memoChains
      ensures OnSchedule(stack + [name] + [defs[name].groups[i]])
    {
      MemoClosed();
      if WellFormed(defs) {
        BehindChild(defs, memoChains.Keys, stack + [name], name, i);
      }
    }

    /** The first meeting of a group. */
    lemma MetHere(stack: Chain, name: string)
      requires IsStack(stack, name) && (stack == [] ==> name in defs) && OnSchedule(stack + [name]) && name !in memoChains
      ensures WellFormed(defs) ==> FirstRoute(defs, name, stack + [name])
    {
      if WellFormed(defs) {
        assert IsRoute(defs, stack + [name], name);
        MetFirst(defs, memoChains.Keys, stack + [name], name);
      }
    }

    method Expand(name: string, stack: Chain) returns (o: Outcome)
      requires Valid() && IsStack(stack, name) && (stack == [] ==> name in defs)
      requires OnSchedule(stack + [name])
      modifies this
      ensures Valid() && old(memoChains.Keys) <= memoChains.Keys
      ensures o.Done? ==> name in memoChains
      ensures o.Failed? ==> Justified(defs, maxDepth, o.error)
      ensures Measured(o)
      decreases |defs| - |stack|, 1
    {
      if name in memoDevices { return Done; }
      MetHere(stack, name);
      o := Check(name, stack);
      if o.Failed? {
        RejectionMeansDefect(defs, maxDepth, o.error);
        return;
      }
      var chains;
      o, chains := ExpandChildren(name, stack);
      if o.Failed? { return; }
      if chains == map[] {
        return Failed(NoDevices(name));
      }
      Complete(name, chains);
    }

    method ExpandChildren(name: string, stack: Chain) returns (o: Outcome, chains: HostChains)
      requires Valid() && IsStack(stack, name)
      requires name in defs && defs[name].Mapping? && name !in stack
      requires OnSchedule(stack + [name])
      modifies this
      ensures Valid() && old(memoChains.Keys) <= memoChains.Keys
      ensures Measured(o)
      ensures o.Done? ==> NoEmptyLists(chains) && (chains == map[] ==> !Productive(defs, name))
      ensures o.Done? ==> forall c :: c in defs[name].groups ==> c in memoChains
      ensures o.Done? ==> forall h, p {:trigger Has(chains, h, p)} :: Has(chains, h, p) <==> IsChain(defs, name, h, p)
      ensures o.Failed? ==> Justified(defs, maxDepth, o.error)
      decreases |defs| - |stack|, 0
    {
      var children := defs[name].groups;
      o := Done;
      chains := DirectChains(name, defs[name].devices);
      for i := 0 to |children|
        invariant Valid() && old(memoChains.Keys) <= memoChains.Keys && NoEmptyLists(chains)
        invariant o.Done?
        invariant forall j :: 0 <= j < i ==> children[j] in memoChains
        invariant Collected(defs, name, i, chains)
        invariant OnSchedule(stack + [name])
      {
        PushedStack(stack, name, children[i]);
        NextChildOnSchedule(stack, name, i);
        o := Expand(children[i], stack + [name]);
        if o.Failed? { return; }
        ghost var before := chains;
        MemoChild(defs, memoDevices, memoChains, children[i]);
        chains := AddChildChains(name, chains, memoChains[children[i]]);
        NextChild(defs, name, i, before, memoChains[children[i]], chains);
      }
      AllChildren(defs, name, chains);
    }

    /** The tests that precede the expansion of one group. */
    method Check(name: string, stack: Chain) returns (o: Outcome)
      requires IsStack(stack, name) && (stack == [] ==> name in defs)
      ensures o.Failed? ==> Justified(defs, maxDepth, o.error)
      ensures o.Failed? && o.error.TooDeep? ==> |stack| >= maxDepth
      ensures o.Done? ==> name in defs && defs[name].Mapping? && name !in stack && |stack| < maxDepth
    {
      var chain := stack + [name];
      if name !in defs {
        assert IsChild(defs, chain[|stack| - 1], chain[|stack|]);
        return Failed(UnknownChild(name, stack[|stack| - 1]));
      }
      if name in stack { return Failed(Cycle(chain)); }
      if |stack| >= maxDepth { return Failed(TooDeep(chain)); }
      if defs[name].NotMapping? { return Failed(NotAMapping(name)); }
      o := Done;
    }

    lemma PushedStack(stack: Chain, name: string, child: string)
      requires IsStack(stack, name) && name in defs && name !in stack && IsChild(defs, name, child)
      ensures IsStack(stack + [name], child) && |stack| < |defs|
    {
      DistinctFits(stack + [name], defs.Keys);
      var s, t := stack + [name], stack + [name] + [child];
      forall i | 0 <= i < |t| - 1 ensures IsChild(defs, t[i], t[i + 1]) {
        if i < |stack| { assert t[i] == s[i] && t[i + 1] == s[i + 1]; }
      }
    }

    method Complete(name: string, chains: HostChains)
      requires Valid() && name in defs && defs[name].Mapping? && chains != map[] && NoEmptyLists(chains)
      requires forall c :: c in defs[name].groups ==> c in memoChains
      requires forall h, p {:trigger Has(chains, h, p)} :: Has(chains, h, p) <==> IsChain(defs, name, h, p)
      modifies this
      ensures Valid() && memoChains.Keys == old(memoChains.Keys) + {name}
    {
      var normalized := Normalize(chains);
      StrOrder();
      var hosts := Sorted(StrLe, normalized.Keys);
      assert ExactChains(defs, name, normalized);
      Recorded(defs, memoDevices, memoChains, name, hosts, normalized);
      memoDevices := memoDevices[name := hosts];
      memoChains := memoChains[name := normalized];
    }
  }

  lemma Recorded(defs: Definitions, devices: map<string, seq<string>>, chains: map<string, HostChains>,
                 name: string, hosts: seq<string>, own: HostChains)
    requires MemoValid(defs, devices, chains)
    requires Completed(defs, chains.Keys, name, hosts, own)
    ensures MemoValid(defs, devices[name := hosts], chains[name := own])
  {
    var d, c := devices[name := hosts], chains[name := own];
    forall g | g in c ensures Completed(defs, c.Keys, g, d[g], c[g]) {
      if g != name {
        assert Completed(defs, chains.Keys, g, devices[g], chains[g]);
      }
    }
  }

  /** A group with a finite exact list of chains cannot lie on a cycle: walking
      round the cycle first would make a longest chain longer. */
  lemma NoCycle(defs: Definitions, g: string, h: string, m: HostChains, cycle: Chain)
    requires ExactChains(defs, g, m) && h in m
    requires IsWalk(defs, cycle) && |cycle| > 1 && cycle[0] == g
    ensures cycle[|cycle| - 1] != g
  {
    if cycle[|cycle| - 1] == g {
      var w := cycle[..|cycle| - 1];
      assert w + [g] == cycle;
      LongerChain(defs, g, h, m, w, Longest(m[h]));
      assert false;
    }
  }

  lemma LongerChain(defs: Definitions, g: string, h: string, m: HostChains, w: Chain, p: Chain)
    requires ExactChains(defs, g, m) && h in m && p in m[h]
    requires IsWalk(defs, w + [g]) && (w + [g])[0] == g
    ensures w + p in m[h]
  {
    assert Has(m, h, p);
    WalkThenChain(defs, w, g, h, p);
    assert Has(m, h, w + p);
  }

  ghost function Longest(chains: seq<Chain>): (p: Chain)
    requires chains != []
    ensures p in chains && forall q :: q in chains ==> |q| <= |p|
  {
    if |chains| == 1 then chains[0]
    else
      var p := Longest(chains[1..]);
      assert forall q :: q in chains ==> q == chains[0] || q in chains[1..];
      if |p| <= |chains[0]| then chains[0] else p
  }

  lemma {:induction false} WalkThenChain(defs: Definitions, w: Chain, g: string, h: string, p: Chain)
    requires IsChain(defs, g, h, p)
    requires IsWalk(defs, w + [g])
    ensures IsChain(defs, (w + [g])[0], h, w + p)
    decreases |w|
  {
    if w == [] {
      assert w + p == p;
    } else {
      var t := w + [g];
      forall i | 0 <= i < |w| - 1 ensures IsChild(defs, (w[1..] + [g])[i], (w[1..] + [g])[i + 1]) {
        assert IsChild(defs, t[i + 1], t[i + 2]);
      }
      WalkThenChain(defs, w[1..], g, h, p);
      assert IsChild(defs, t[0], t[1]);
      assert (w + p)[1..] == w[1..] + p;
      assert t[1] == (w[1..] + [g])[0] == (w + p)[1];
    }
  }

  lemma RejectionMeansDefect(defs: Definitions, maxDepth: int, e: Error)
    requires Justified(defs, maxDepth, e)
    ensures !WellFormed(defs) || e.TooDeep?
    ensures e.TooDeep? ==> !NoWalkLongerThan(defs, maxDepth) && maxDepth < |defs|
  {
    match e
    case UnknownChild(n, parent) =>
    case NotAMapping(n) =>
    case NoDevices(n) =>
    case TooDeep(c) => DistinctFits(c, defs.Keys);
    case Cycle(c) =>
      var i :| 0 <= i < |c| - 1 && c[..|c| - 1][i] == c[|c| - 1];
      var w := c[i..];
      forall k | 0 <= k < |w| - 1 ensures IsChild(defs, w[k], w[k + 1]) {
        assert IsChild(defs, c[i + k], c[i + k + 1]);
      }
      assert IsWalk(defs, w) && |w| > 1 && w[0] == w[|w| - 1];
  }

  lemma AllCompleted(defs: Definitions, devices: map<string, seq<string>>, chains: map<string, HostChains>)
    requires MemoValid(defs, devices, chains) && defs.Keys <= chains.Keys
    ensures ExactResolution(defs, Resolution(devices, chains)) && WellFormed(defs)
  {
    forall g | g in chains
      ensures g in defs && Productive(defs, g) && ExactChains(defs, g, chains[g])
      ensures defs[g].Mapping? && forall c :: c in defs[g].groups ==> c in chains
      ensures IsSorted(StrLe, chains[g].Keys, devices[g])
    {
      MemoEntry(defs, devices, chains, g);
    }
    forall p | IsWalk(defs, p) && |p| > 1 ensures p[0] != p[|p| - 1] {
      assert IsChild(defs, p[0], p[1]);
      MemoEntry(defs, devices, chains, p[0]);
      var h :| h in chains[p[0]];
      NoCycle(defs, p[0], h, chains[p[0]], p);
    }
  }

  lemma MemoEntry(defs: Definitions, devices: map<string, seq<string>>, chains: map<string, HostChains>, g: string)
    requires MemoValid(defs, devices, chains) && g in chains
    ensures Completed(defs, chains.Keys, g, devices[g], chains[g]) && Productive(defs, g)
  {
    assert Completed(defs, chains.Keys, g, devices[g], chains[g]);
    var h :| h in chains[g];
    assert Has(chains[g], h, chains[g][h][0]);
  }

  /** `resolve_device_groups`. The three promises, both ways: an accepted
      hierarchy is well formed and expanded exactly; a rejected one has the
      defect that the error names. */
  method ResolveDeviceGroups(defs: Definitions, maxDepth: int) returns (r: Result)
    ensures r.Ok? ==> WellFormed(defs) && ExactResolution(defs, r.value)
    ensures r.Err? ==> Justified(defs, maxDepth, r.error)
    ensures r.Ok? <==> WellFormed(defs) && MetWithin(defs, maxDepth)
    ensures WellFormed(defs) && NoWalkLongerThan(defs, maxDepth) ==> r.Ok?
    ensures maxDepth >= |defs| ==> (r.Ok? <==> WellFormed(defs))
  {
    StrOrder();
    var resolver := new Resolver(defs, maxDepth);
    var names := Sorted(StrLe, defs.Keys);
    for i := 0 to |names|
      invariant resolver.Valid() && resolver.defs == defs && resolver.maxDepth == maxDepth
      invariant forall j :: 0 <= j < i ==> names[j] in resolver.memoChains
      invariant WellFormed(defs) ==> Shallow(defs, resolver.memoChains.Keys, maxDepth)
    {
      resolver.MemoClosed();
      BehindRoot(defs, resolver.memoChains.Keys, names, i);
      var o := resolver.Expand(names[i], []);
      if o.Failed? {
        RejectionMeansDefect(defs, maxDepth, o.error);
        return Err(o.error);
      }
    }
    AllCompleted(defs, resolver.memoDevices, resolver.memoChains);
    AllShallow(defs, resolver.memoChains.Keys, maxDepth);
    r := Ok(Resolution(resolver.memoDevices, resolver.memoChains));
  }
}
