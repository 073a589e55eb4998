// alred/overlay_conflict.py: conflicts between a ChangeSet and the observed
// state, and what a PASS report promises about the merged state.
module OverlayConflict {
  import opened OverlayModel
  import opened Cidr

  /** `ip_interface(value)`, or None where it raises ValueError. */
  type Parser = string -> Option<Interface>

  ghost predicate ParsesValid(parse: Parser) {
    forall s :: parse(s).Some? ==> parse(s).value.Valid()
  }

  datatype Code =
    | DuplicateDesiredVlan | DuplicateDesiredL2Vni | VlanMappedToOtherL2Vni | L2VniMappedToOtherVlan
    | SviAttributeConflict | DuplicateDesiredVrf | DuplicateDesiredL3Vni | VrfMappedToOtherL3Vni
    | L3VniMappedToOtherVrf | DesiredSviPrefixOverlap | ExistingInterfacePrefixOverlap

  datatype Resource = VlanResource(vlan: int) | L2VniResource(vni: int) | SviResource(vlan: int)
                    | VrfResource(vrf: string) | L3VniResource(vni: int)

  datatype Check = Check(resource: Resource, code: Code)

  // ---------------------------------------------------------------- meaning

  /** Two parseable addresses of one version whose networks have an address in common. */
  ghost predicate Shares(parse: Parser, x: string, y: string)
    requires ParsesValid(parse)
  {
    parse(x).Some? && parse(y).Some? && parse(x).value.version == parse(y).value.version
    && exists z: nat :: Contains(parse(x).value, z) && Contains(parse(y).value, z)
  }

  ghost predicate L2Conflict(l2s: seq<L2>, i: nat, st: State, c: Check)
    requires i < |l2s|
  {
    var l2 := l2s[i];
    match c.code
    case DuplicateDesiredVlan => c.resource == VlanResource(l2.vlan) && exists k :: 0 <= k < i && l2s[k].vlan == l2.vlan
    case DuplicateDesiredL2Vni => c.resource == L2VniResource(l2.vni) && exists k :: 0 <= k < i && l2s[k].vni == l2.vni
    case VlanMappedToOtherL2Vni =>
      c.resource == VlanResource(l2.vlan) && l2.vlan in st.vlans && st.vlans[l2.vlan].vni !in {None, Some(l2.vni)}
    case L2VniMappedToOtherVlan =>
      c.resource == L2VniResource(l2.vni) && exists v :: v in st.vlans && st.vlans[v].vni == Some(l2.vni) && v != l2.vlan
    case SviAttributeConflict =>
      c.resource == SviResource(l2.vlan) && l2.vlan in st.svis && l2.svi.Some?
      && !SviMatches(st.svis[l2.vlan], l2.svi.value, l2.vrf)
    case _ => false
  }

  ghost predicate L3Conflict(l3s: seq<L3>, i: nat, st: State, c: Check)
    requires i < |l3s|
  {
    var l3 := l3s[i];
    match c.code
    case DuplicateDesiredVrf => c.resource == VrfResource(l3.vrf) && exists k :: 0 <= k < i && l3s[k].vrf == l3.vrf
    case DuplicateDesiredL3Vni => c.resource == L3VniResource(l3.vni) && exists k :: 0 <= k < i && l3s[k].vni == l3.vni
    case VrfMappedToOtherL3Vni =>
      c.resource == VrfResource(l3.vrf) && l3.vrf in st.vrfs && st.vrfs[l3.vrf].l3vni !in {None, Some(l3.vni)}
    case L3VniMappedToOtherVrf =>
      c.resource == L3VniResource(l3.vni) && exists v :: v in st.vrfs && st.vrfs[v].l3vni == Some(l3.vni) && v != l3.vrf
    case _ => false
  }

  /** A desired SVI that has a VRF. */
  datatype RoutedSvi = RoutedSvi(vlan: int, vrf: string, svi: Svi)

  predicate Routed(l2: L2) {
    l2.svi.Some? && l2.vrf != ""
  }

  function SviOf(l2: L2): RoutedSvi
    requires Routed(l2)
  {
    RoutedSvi(l2.vlan, l2.vrf, l2.svi.value)
  }

  /** What the SVI of the `i`-th L2VNI may have reported, if it has a VRF. */
  ghost predicate SviConflict(l2s: seq<L2>, i: nat, st: State, parse: Parser, c: Check)
    requires i < |l2s| && ParsesValid(parse)
  {
    Routed(l2s[i]) && c.resource == SviResource(l2s[i].vlan) &&
    match c.code
    case DesiredSviPrefixOverlap => exists j :: i < j < |l2s| && Routed(l2s[j]) && SvisClash(SviOf(l2s[i]), SviOf(l2s[j]), parse)
    case ExistingInterfacePrefixOverlap =>
      exists name :: name in st.interfaces && InterfaceClash(SviOf(l2s[i]), name, st.interfaces[name], parse)
    case _ => false
  }

  ghost predicate SvisClash(a: RoutedSvi, b: RoutedSvi, parse: Parser)
    requires ParsesValid(parse)
  {
    a.vrf == b.vrf && a.vlan != b.vlan && exists x, y :: x in a.svi.ipv4 + a.svi.ipv6 && y in b.svi.ipv4 + b.svi.ipv6 && Shares(parse, x, y)
  }

  ghost predicate InterfaceClash(svi: RoutedSvi, name: InterfaceName, other: InterfaceState, parse: Parser)
    requires ParsesValid(parse)
  {
    name != VlanInterface(svi.vlan) && other.vrf == svi.vrf &&
    exists x, y :: x in svi.svi.ipv4 + svi.svi.ipv6 && y in other.ipv4 + other.ipv6 && Shares(parse, x, y)
  }

  /** Everything the assessment of one host may report. */
  ghost predicate IsConflict(d: Desired, st: State, parse: Parser, c: Check)
    requires ParsesValid(parse)
  {
    || (exists i :: 0 <= i < |d.l2vnis| && L2Conflict(d.l2vnis, i, st, c))
    || (exists i :: 0 <= i < |d.l3vnis| && L3Conflict(d.l3vnis, i, st, c))
    || (exists i :: 0 <= i < |d.l2vnis| && SviConflict(d.l2vnis, i, st, parse, c))
  }

  // ------------------------------------------------------------- the assessment

  method AppendIf(checks: seq<Check>, test: bool, c: Check) returns (r: seq<Check>)
    ensures forall x :: x in r <==> x in checks || (test && x == c)
  {
    r := if test then checks + [c] else checks;
  }

  method PickOne<T>(s: set<T>) returns (x: T)
    requires s != {}
    ensures x in s
  {
    x :| x in s;
  }

  /** One iteration of the loop over L2VNIs; the dicts hold the earlier ones. */
  method CheckL2(l2s: seq<L2>, i: nat, st: State, desiredVlans: map<int, int>, desiredVnis: map<int, int>)
    returns (checks: seq<Check>)
    requires i < |l2s|
    requires forall v :: v in desiredVlans <==> exists k :: 0 <= k < i && l2s[k].vlan == v
    requires forall v :: v in desiredVnis <==> exists k :: 0 <= k < i && l2s[k].vni == v
    ensures forall c :: c in checks <==> L2Conflict(l2s, i, st, c)
  {
    var l2 := l2s[i];
    checks := AppendIf([], l2.vlan in desiredVlans, Check(VlanResource(l2.vlan), DuplicateDesiredVlan));
    checks := AppendIf(checks, l2.vni in desiredVnis, Check(L2VniResource(l2.vni), DuplicateDesiredL2Vni));
    checks := AppendIf(checks, l2.vlan in st.vlans && st.vlans[l2.vlan].vni !in {None, Some(l2.vni)},
                       Check(VlanResource(l2.vlan), VlanMappedToOtherL2Vni));
    ghost var before := checks;
    var todo := st.vlans.Keys;
    while todo != {}
      invariant todo <= st.vlans.Keys
      invariant forall c :: c in checks <==>
        c in before || (c == Check(L2VniResource(l2.vni), L2VniMappedToOtherVlan) &&
          exists v :: v in st.vlans && v !in todo && st.vlans[v].vni == Some(l2.vni) && v != l2.vlan)
    {
      var v := PickOne(todo);
      checks := AppendIf(checks, st.vlans[v].vni == Some(l2.vni) && v != l2.vlan,
                         Check(L2VniResource(l2.vni), L2VniMappedToOtherVlan));
      todo := todo - {v};
    }
    checks := AppendIf(checks, l2.vlan in st.svis && l2.svi.Some? && !SviMatches(st.svis[l2.vlan], l2.svi.value, l2.vrf),
                       Check(SviResource(l2.vlan), SviAttributeConflict));
  }

  /** One iteration of the loop over L3VNIs. */
  method CheckL3(l3s: seq<L3>, i: nat, st: State, desiredVrfs: map<string, int>, desiredVnis: map<int, string>)
    returns (checks: seq<Check>)
    requires i < |l3s|
    requires forall v :: v in desiredVrfs <==> exists k :: 0 <= k < i && l3s[k].vrf == v
    requires forall v :: v in desiredVnis <==> exists k :: 0 <= k < i && l3s[k].vni == v
    ensures forall c :: c in checks <==> L3Conflict(l3s, i, st, c)
  {
    var l3 := l3s[i];
    checks := AppendIf([], l3.vrf in desiredVrfs, Check(VrfResource(l3.vrf), DuplicateDesiredVrf));
    checks := AppendIf(checks, l3.vni in desiredVnis, Check(L3VniResource(l3.vni), DuplicateDesiredL3Vni));
    checks := AppendIf(checks, l3.vrf in st.vrfs && st.vrfs[l3.vrf].l3vni !in {None, Some(l3.vni)},
                       Check(VrfResource(l3.vrf), VrfMappedToOtherL3Vni));
    ghost var before := checks;
    var todo := st.vrfs.Keys;
    while todo != {}
      invariant todo <= st.vrfs.Keys
      invariant forall c :: c in checks <==>
        c in before || (c == Check(L3VniResource(l3.vni), L3VniMappedToOtherVrf) &&
          exists v :: v in st.vrfs && v !in todo && st.vrfs[v].l3vni == Some(l3.vni) && v != l3.vrf)
    {
      var v :| v in todo;
      checks := AppendIf(checks, st.vrfs[v].l3vni == Some(l3.vni) && v != l3.vrf,
                         Check(L3VniResource(l3.vni), L3VniMappedToOtherVrf));
      todo := todo - {v};
    }
  }

  // ------------------------------------------------------------ the routed SVIs

  /** `desired_svis` */
  function RoutedSvis(l2s: seq<L2>): seq<RoutedSvi> {
    if l2s == [] then []
    else
      var l2 := l2s[|l2s| - 1];
      RoutedSvis(l2s[..|l2s| - 1]) + if Routed(l2) then [SviOf(l2)] else []
  }

  /** The `p`-th routed SVI is the one of the `i`-th L2VNI. */
  ghost predicate StandsFor(l2s: seq<L2>, p: int, i: int) {
    && 0 <= i < |l2s| && Routed(l2s[i])
    && p == |RoutedSvis(l2s[..i])| && p < |RoutedSvis(l2s)|
    && RoutedSvis(l2s)[p] == SviOf(l2s[i])
  }

  lemma {:induction false} RoutedAt(l2s: seq<L2>, i: nat) returns (p: nat)
    requires i < |l2s| && Routed(l2s[i])
    ensures StandsFor(l2s, p, i)
  {
    var n := |l2s| - 1;
    if i == n {
      p := |RoutedSvis(l2s[..n])|;
    } else {
      p := RoutedAt(l2s[..n], i);
      assert l2s[..n][..i] == l2s[..i];
    }
  }

  lemma {:induction false} RoutedFrom(l2s: seq<L2>, p: nat) returns (i: nat)
    requires p < |RoutedSvis(l2s)|
    ensures StandsFor(l2s, p, i)
  {
    var n := |l2s| - 1;
    if p == |RoutedSvis(l2s[..n])| {
      i := n;
    } else {
      i := RoutedFrom(l2s[..n], p);
      assert l2s[..n][..i] == l2s[..i];
    }
  }

  lemma {:induction false} RoutedGrows(l2s: seq<L2>, i: nat, j: nat)
    requires i < j <= |l2s| && Routed(l2s[i])
    ensures |RoutedSvis(l2s[..i])| < |RoutedSvis(l2s[..j])|
  {
    assert l2s[..j][..j - 1] == l2s[..j - 1];
    if i < j - 1 {
      RoutedGrows(l2s, i, j - 1);
    }
  }

  lemma SameOrder(l2s: seq<L2>, p: int, i: int, q: int, j: int)
    requires StandsFor(l2s, p, i) && StandsFor(l2s, q, j)
    ensures p < q <==> i < j
    ensures p == q <==> i == j
  {
    if i < j { RoutedGrows(l2s, i, j); }
    if j < i { RoutedGrows(l2s, j, i); }
  }

  /** One of the later routed SVIs, of those before `q`, shares an address with the `p`-th. */
  ghost predicate LaterClash(svis: seq<RoutedSvi>, p: nat, q: nat, parse: Parser)
    requires p < |svis| && ParsesValid(parse)
  {
    exists k :: p < k < q <= |svis| && SvisClash(svis[p], svis[k], parse)
  }

  lemma LaterClashIs(l2s: seq<L2>, p: nat, i: nat, parse: Parser)
    requires ParsesValid(parse) && StandsFor(l2s, p, i)
    ensures LaterClash(RoutedSvis(l2s), p, |RoutedSvis(l2s)|, parse) <==> exists j ::
              i < j < |l2s| && Routed(l2s[j]) && SvisClash(SviOf(l2s[i]), SviOf(l2s[j]), parse)
  {
    var svis := RoutedSvis(l2s);
    if k :| p < k < |svis| && SvisClash(svis[p], svis[k], parse) {
      var j := RoutedFrom(l2s, k);
      SameOrder(l2s, p, i, k, j);
      assert SvisClash(SviOf(l2s[i]), SviOf(l2s[j]), parse);
    }
    if j :| i < j < |l2s| && Routed(l2s[j]) && SvisClash(SviOf(l2s[i]), SviOf(l2s[j]), parse) {
      var k := RoutedAt(l2s, j);
      SameOrder(l2s, p, i, k, j);
      assert SvisClash(svis[p], svis[k], parse);
    }
  }

  /** The two innermost loops over addresses. */
  method FindClash(parse: Parser, a: seq<string>, b: seq<string>) returns (clash: bool)
    requires ParsesValid(parse)
    ensures clash <==> exists x, y :: x in a && y in b && Shares(parse, x, y)
  {
    clash := false;
    for i := 0 to |a|
      invariant clash <==> exists x, y :: x in a[..i] && y in b && Shares(parse, x, y)
    {
      for j := 0 to |b|
        invariant clash <==>
          (exists x, y :: x in a[..i] && y in b && Shares(parse, x, y)) ||
          (exists y :: y in b[..j] && Shares(parse, a[i], y))
      {
        assert b[..j + 1] == b[..j] + [b[j]];
        var shared := NetworksOverlap(parse, a[i], b[j]);
        if shared { clash := true; }
      }
      assert b[..|b|] == b && a[..i + 1] == a[..i] + [a[i]];
    }
    assert a[..|a|] == a;
  }

  method NetworksOverlap(parse: Parser, x: string, y: string) returns (shared: bool)
    requires ParsesValid(parse)
    ensures shared <==> Shares(parse, x, y)
  {
    var left, right := parse(x), parse(y);
    if left.None? || right.None? || left.value.version != right.value.version { return false; }
    OverlapIsSharing(left.value, right.value);
    return Overlaps(left.value, right.value);
  }

  /** One iteration of the loop over routed SVIs. */
  method CheckSvi(l2s: seq<L2>, svis: seq<RoutedSvi>, p: nat, st: State, parse: Parser, ghost i: nat) returns (checks: seq<Check>)
    requires ParsesValid(parse) && svis == RoutedSvis(l2s) && StandsFor(l2s, p, i)
    ensures forall c :: c in checks <==> SviConflict(l2s, i, st, parse, c)
  {
    var svi := svis[p];
    var addresses := svi.svi.ipv4 + svi.svi.ipv6;
    checks := [];
    for q := p + 1 to |svis|
      invariant forall c :: c in checks <==>
        c == Check(SviResource(svi.vlan), DesiredSviPrefixOverlap) && LaterClash(svis, p, q, parse)
    {
      ghost var next := q + 1;
      assert LaterClash(svis, p, next, parse) <==> LaterClash(svis, p, q, parse) || SvisClash(svi, svis[q], parse);
      if svis[q].vrf != svi.vrf || svis[q].vlan == svi.vlan { continue; }
      var clash := FindClash(parse, addresses, svis[q].svi.ipv4 + svis[q].svi.ipv6);
      checks := AppendIf(checks, clash, Check(SviResource(svi.vlan), DesiredSviPrefixOverlap));
    }
    LaterClashIs(l2s, p, i, parse);
    var more := CheckInterfaces(svi, st, parse);
    checks := checks + more;
  }

  /** The loop over interfaces inside it. */
  method CheckInterfaces(svi: RoutedSvi, st: State, parse: Parser) returns (checks: seq<Check>)
    requires ParsesValid(parse)
    ensures forall c :: c in checks <==> (
      && c == Check(SviResource(svi.vlan), ExistingInterfacePrefixOverlap)
      && exists name :: name in st.interfaces && InterfaceClash(svi, name, st.interfaces[name], parse))
  {
    checks := [];
    var todo := st.interfaces.Keys;
    while todo != {}
      invariant todo <= st.interfaces.Keys
      invariant forall c :: c in checks <==> (
        && c == Check(SviResource(svi.vlan), ExistingInterfacePrefixOverlap)
        && exists n :: n in st.interfaces && n !in todo && InterfaceClash(svi, n, st.interfaces[n], parse))
    {
      var name :| name in todo;
      todo := todo - {name};
      if name == VlanInterface(svi.vlan) || st.interfaces[name].vrf != svi.vrf { continue; }
      var clash := FindClash(parse, svi.svi.ipv4 + svi.svi.ipv6, st.interfaces[name].ipv4 + st.interfaces[name].ipv6);
      assert clash <==> InterfaceClash(svi, name, st.interfaces[name], parse);
      checks := AppendIf(checks, clash, Check(SviResource(svi.vlan), ExistingInterfacePrefixOverlap));
    }
  }

  /** The loop over L2VNIs, which also collects the routed SVIs. */
  method CheckL2s(l2s: seq<L2>, st: State) returns (checks: seq<Check>, svis: seq<RoutedSvi>)
    ensures forall c :: c in checks <==> exists i :: 0 <= i < |l2s| && L2Conflict(l2s, i, st, c)
    ensures svis == RoutedSvis(l2s)
  {
    checks := [];
    var desiredVlans, desiredL2Vnis := map[], map[];
    for i := 0 to |l2s|
      invariant forall c :: c in checks <==> exists k :: 0 <= k < i && L2Conflict(l2s, k, st, c)
      invariant forall v :: v in desiredVlans <==> exists k :: 0 <= k < i && l2s[k].vlan == v
      invariant forall v :: v in desiredL2Vnis <==> exists k :: 0 <= k < i && l2s[k].vni == v
    {
      var more := CheckL2(l2s, i, st, desiredVlans, desiredL2Vnis);
      checks := checks + more;
      desiredVlans := desiredVlans[l2s[i].vlan := l2s[i].vni];
      desiredL2Vnis := desiredL2Vnis[l2s[i].vni := l2s[i].vlan];
    }
    svis := CollectSvis(l2s);
  }

  /** `desired_svis`: what the same loop appends. */
  method CollectSvis(l2s: seq<L2>) returns (svis: seq<RoutedSvi>)
    ensures svis == RoutedSvis(l2s)
  {
    svis := [];
    for i := 0 to |l2s|
      invariant svis == RoutedSvis(l2s[..i])
    {
      var l2 := l2s[i];
      assert l2s[..i + 1][..i] == l2s[..i];
      if l2.svi.Some? && l2.vrf != "" {
        svis := svis + [RoutedSvi(l2.vlan, l2.vrf, l2.svi.value)];
      }
    }
    assert l2s[..|l2s|] == l2s;
  }

  /** The body of the loop over hosts, for a host whose state is known. */
  method CheckHost(d: Desired, st: State, parse: Parser) returns (checks: seq<Check>)
    requires ParsesValid(parse)
    ensures forall c :: c in checks <==> IsConflict(d, st, parse, c)
  {
    var svis;
    checks, svis := CheckL2s(d.l2vnis, st);
    var moreL3 := CheckL3s(d.l3vnis, st);
    var moreSvi := CheckSvis(d.l2vnis, svis, st, parse);
    checks := checks + moreL3 + moreSvi;
  }

  method CheckL3s(l3s: seq<L3>, st: State) returns (checks: seq<Check>)
    ensures forall c :: c in checks <==> exists i :: 0 <= i < |l3s| && L3Conflict(l3s, i, st, c)
  {
    checks := [];
    var desiredVrfs, desiredL3Vnis := map[], map[];
    for i := 0 to |l3s|
      invariant forall c :: c in checks <==> exists k :: 0 <= k < i && L3Conflict(l3s, k, st, c)
      invariant forall v :: v in desiredVrfs <==> exists k :: 0 <= k < i && l3s[k].vrf == v
      invariant forall v :: v in desiredL3Vnis <==> exists k :: 0 <= k < i && l3s[k].vni == v
    {
      var more := CheckL3(l3s, i, st, desiredVrfs, desiredL3Vnis);
      checks := checks + more;
      desiredVrfs := desiredVrfs[l3s[i].vrf := l3s[i].vni];
      desiredL3Vnis := desiredL3Vnis[l3s[i].vni := l3s[i].vrf];
    }
  }

  method CheckSvis(l2s: seq<L2>, svis: seq<RoutedSvi>, st: State, parse: Parser) returns (checks: seq<Check>)
    requires ParsesValid(parse) && svis == RoutedSvis(l2s)
    ensures forall c :: c in checks <==> exists i :: 0 <= i < |l2s| && SviConflict(l2s, i, st, parse, c)
  {
    checks := [];
    for p := 0 to |svis|
      invariant forall c :: c in checks <==> exists q, i :: q < p && StandsFor(l2s, q, i) && SviConflict(l2s, i, st, parse, c)
    {
      ghost var i := RoutedFrom(l2s, p);
      var more := CheckSvi(l2s, svis, p, st, parse, i);
      forall q, k | StandsFor(l2s, q, k) && q == p ensures k == i {
        SameOrder(l2s, q, k, p, i);
      }
      checks := checks + more;
    }
    forall i, c | 0 <= i < |l2s| && SviConflict(l2s, i, st, parse, c) ensures c in checks {
      var p := RoutedAt(l2s, i);
      assert p < |svis| && StandsFor(l2s, p, i);
    }
  }

  // ----------------------------------------------------------------- the report

  datatype Verdict = Pass | Conflict | Unknown

  datatype HostCheck = Clean(host: string) | EvidenceMissing(host: string) | Found(host: string, check: Check)

  datatype Report = Report(result: Verdict, checks: seq<HostCheck>)

  ghost predicate HostClean(d: Desired, st: State, parse: Parser)
    requires ParsesValid(parse)
  {
    forall c :: !IsConflict(d, st, parse, c)
  }

  ghost predicate Reported(resolved: map<string, Desired>, states: map<string, State>, parse: Parser, c: HostCheck)
    requires ParsesValid(parse)
  {
    c.host in resolved &&
    match c
    case EvidenceMissing(h) => h !in states
    case Clean(h) => h in states && HostClean(resolved[h], states[h], parse)
    case Found(h, x) => h in states && IsConflict(resolved[h], states[h], parse, x)
  }

  function FoundChecks(host: string, found: seq<Check>): (r: seq<HostCheck>)
    ensures forall c :: c in r <==> c.Found? && c.host == host && c.check in found
  {
    if found == [] then [] else [Found(host, found[0])] + FoundChecks(host, found[1..])
  }

  /** `assess_overlay_conflicts`. */
  method AssessOverlayConflicts(resolved: map<string, Desired>, states: map<string, State>, parse: Parser)
    returns (report: Report)
    requires ParsesValid(parse)
    ensures forall c :: c in report.checks <==> Reported(resolved, states, parse, c)
    ensures report.result == Pass <==> AllClean(resolved, states, parse)
    ensures report.result == Conflict <==>
      exists h :: h in resolved && h in states && !HostClean(resolved[h], states[h], parse)
  {
    var checks: seq<HostCheck> := [];
    var todo := resolved.Keys;
    while todo != {}
      invariant todo <= resolved.Keys
      invariant forall c :: c in checks <==> c.host !in todo && Reported(resolved, states, parse, c)
    {
      var h :| h in todo;
      var more: seq<HostCheck>;
      if h !in states {
        more := [EvidenceMissing(h)];
      } else {
        var found := CheckHost(resolved[h], states[h], parse);
        more := FoundChecks(h, found);
        if found == [] { more := [Clean(h)]; }
        CleanOrFound(resolved[h], states[h], parse, found);
      }
      NextHost(resolved, states, parse, todo, h, checks, more);
      checks := checks + more;
      todo := todo - {h};
    }
    var conflicts := exists c :: c in checks && c.Found?;
    var unknown := exists c :: c in checks && c.EvidenceMissing?;
    Summary(resolved, states, parse, checks);
    report := Report(if conflicts then Conflict else if unknown then Unknown else Pass, checks);
  }

  ghost predicate AllClean(resolved: map<string, Desired>, states: map<string, State>, parse: Parser)
    requires ParsesValid(parse)
  {
    forall h :: h in resolved ==> h in states && HostClean(resolved[h], states[h], parse)
  }

  lemma CleanOrFound(d: Desired, st: State, parse: Parser, found: seq<Check>)
    requires ParsesValid(parse) && forall c :: c in found <==> IsConflict(d, st, parse, c)
    ensures found == [] <==> HostClean(d, st, parse)
  {
    if found != [] { assert found[0] in found; }
  }

  lemma NextHost(resolved: map<string, Desired>, states: map<string, State>, parse: Parser,
                 todo: set<string>, h: string, checks: seq<HostCheck>, more: seq<HostCheck>)
    requires ParsesValid(parse) && h in todo && todo <= resolved.Keys
    requires forall c :: c in checks <==> c.host !in todo && Reported(resolved, states, parse, c)
    requires forall c :: c in more <==> c.host == h && Reported(resolved, states, parse, c)
    ensures forall c :: c in checks + more <==> c.host !in todo - {h} && Reported(resolved, states, parse, c)
  {}

  lemma Summary(resolved: map<string, Desired>, states: map<string, State>, parse: Parser, checks: seq<HostCheck>)
    requires ParsesValid(parse) && forall c :: c in checks <==> Reported(resolved, states, parse, c)
    ensures (exists c :: c in checks && c.Found?) <==>
      exists h :: h in resolved && h in states && !HostClean(resolved[h], states[h], parse)
    ensures (exists c :: c in checks && c.EvidenceMissing?) <==> exists h :: h in resolved && h !in states
  {
    forall h, x | h in resolved && h in states && IsConflict(resolved[h], states[h], parse, x)
      ensures Found(h, x) in checks
    {
      assert Reported(resolved, states, parse, Found(h, x));
    }
    forall h | h in resolved && h !in states ensures EvidenceMissing(h) in checks {
      assert Reported(resolved, states, parse, EvidenceMissing(h));
    }
  }
}
