// What a PASS report of overlay_conflict.py promises: the desired state laid
// over the observed one keeps every observed mapping, and the result is
// consistent.
module OverlayMerge {
  import opened OverlayModel
  import opened OverlayConflict
  import opened Cidr

  ghost predicate Injective<K(!new), V(!new)>(m: map<K, V>) {
    forall a, b :: a in m && b in m && m[a] == m[b] ==> a == b
  }

  /** Assignments laid over a map, later ones winning. */
  function Overlaid<K, V>(m: map<K, V>, pairs: seq<(K, V)>): map<K, V> {
    if pairs == [] then m
    else Overlaid(m, pairs[..|pairs| - 1])[pairs[|pairs| - 1].0 := pairs[|pairs| - 1].1]
  }

  /** Neither the pairs among themselves nor a pair and the map disagree, in either direction. */
  ghost predicate Compatible<K(!new), V(!new)>(m: map<K, V>, pairs: seq<(K, V)>) {
    && (forall i, j :: 0 <= i < j < |pairs| ==> pairs[i].0 != pairs[j].0 && pairs[i].1 != pairs[j].1)
    && (forall i, k :: 0 <= i < |pairs| && k in m ==> (m[k] == pairs[i].1 <==> k == pairs[i].0))
  }

  lemma {:induction false} OverlaidExactly<K(!new), V(!new)>(m: map<K, V>, pairs: seq<(K, V)>)
    requires Compatible(m, pairs)
    ensures forall k :: k in m ==> k in Overlaid(m, pairs) && Overlaid(m, pairs)[k] == m[k]
    ensures forall i :: 0 <= i < |pairs| ==> pairs[i].0 in Overlaid(m, pairs) && Overlaid(m, pairs)[pairs[i].0] == pairs[i].1
    ensures forall k :: k in Overlaid(m, pairs) ==> k in m || exists i :: 0 <= i < |pairs| && pairs[i].0 == k
    ensures Injective(m) ==> Injective(Overlaid(m, pairs))
  {
    if pairs != [] {
      var init, last := pairs[..|pairs| - 1], pairs[|pairs| - 1];
      OverlaidExactly(m, init);
      var before, after := Overlaid(m, init), Overlaid(m, pairs);
      assert last.0 in m ==> m[last.0] == last.1;
      forall k | k in before && k != last.0 ensures before[k] != last.1 {
        if k !in m {
          var i :| 0 <= i < |init| && init[i].0 == k;
          assert pairs[i] == init[i];
        }
      }
    }
  }

  // --------------------------------------------------------- the two mappings

  function ObservedVlans(st: State): map<int, int> {
    map v | v in st.vlans && st.vlans[v].vni.Some? :: st.vlans[v].vni.value
  }

  function ObservedVrfs(st: State): map<string, int> {
    map v | v in st.vrfs && st.vrfs[v].l3vni.Some? :: st.vrfs[v].l3vni.value
  }

  function VlanPairs(d: Desired): seq<(int, int)> {
    seq(|d.l2vnis|, i requires 0 <= i < |d.l2vnis| => (d.l2vnis[i].vlan, d.l2vnis[i].vni))
  }

  function VrfPairs(d: Desired): seq<(string, int)> {
    seq(|d.l3vnis|, i requires 0 <= i < |d.l3vnis| => (d.l3vnis[i].vrf, d.l3vnis[i].vni))
  }

  /** VLAN to L2VNI after the change. */
  function MergedVlans(st: State, d: Desired): map<int, int> {
    Overlaid(ObservedVlans(st), VlanPairs(d))
  }

  /** VRF to L3VNI after the change. */
  function MergedVrfs(st: State, d: Desired): map<string, int> {
    Overlaid(ObservedVrfs(st), VrfPairs(d))
  }

  lemma NoL2Conflict(d: Desired, st: State, parse: Parser, i: nat, c: Check)
    requires ParsesValid(parse) && HostClean(d, st, parse) && i < |d.l2vnis|
    ensures !L2Conflict(d.l2vnis, i, st, c)
  {
    assert !IsConflict(d, st, parse, c);
  }

  lemma NoL3Conflict(d: Desired, st: State, parse: Parser, i: nat, c: Check)
    requires ParsesValid(parse) && HostClean(d, st, parse) && i < |d.l3vnis|
    ensures !L3Conflict(d.l3vnis, i, st, c)
  {
    assert !IsConflict(d, st, parse, c);
  }

  lemma CleanVlans(d: Desired, st: State, parse: Parser)
    requires ParsesValid(parse) && HostClean(d, st, parse)
    ensures Compatible(ObservedVlans(st), VlanPairs(d))
  {
    var pairs, m := VlanPairs(d), ObservedVlans(st);
    forall i, j | 0 <= i < j < |pairs| ensures pairs[i].0 != pairs[j].0 && pairs[i].1 != pairs[j].1 {
      NoL2Conflict(d, st, parse, j, Check(VlanResource(d.l2vnis[j].vlan), DuplicateDesiredVlan));
      NoL2Conflict(d, st, parse, j, Check(L2VniResource(d.l2vnis[j].vni), DuplicateDesiredL2Vni));
    }
    forall i, k | 0 <= i < |pairs| && k in m ensures m[k] == pairs[i].1 <==> k == pairs[i].0 {
      NoL2Conflict(d, st, parse, i, Check(VlanResource(d.l2vnis[i].vlan), VlanMappedToOtherL2Vni));
      NoL2Conflict(d, st, parse, i, Check(L2VniResource(d.l2vnis[i].vni), L2VniMappedToOtherVlan));
    }
  }

  lemma CleanVrfs(d: Desired, st: State, parse: Parser)
    requires ParsesValid(parse) && HostClean(d, st, parse)
    ensures Compatible(ObservedVrfs(st), VrfPairs(d))
  {
    var pairs, m := VrfPairs(d), ObservedVrfs(st);
    forall i, j | 0 <= i < j < |pairs| ensures pairs[i].0 != pairs[j].0 && pairs[i].1 != pairs[j].1 {
      NoL3Conflict(d, st, parse, j, Check(VrfResource(d.l3vnis[j].vrf), DuplicateDesiredVrf));
      NoL3Conflict(d, st, parse, j, Check(L3VniResource(d.l3vnis[j].vni), DuplicateDesiredL3Vni));
    }
    forall i, k | 0 <= i < |pairs| && k in m ensures m[k] == pairs[i].1 <==> k == pairs[i].0 {
      NoL3Conflict(d, st, parse, i, Check(VrfResource(d.l3vnis[i].vrf), VrfMappedToOtherL3Vni));
      NoL3Conflict(d, st, parse, i, Check(L3VniResource(d.l3vnis[i].vni), L3VniMappedToOtherVrf));
    }
  }

  /** PASS: no observed mapping changes, every desired one holds, and injective maps stay injective. */
  lemma PassKeepsMappings(d: Desired, st: State, parse: Parser)
    requires ParsesValid(parse) && HostClean(d, st, parse)
    ensures forall v :: v in ObservedVlans(st) ==> v in MergedVlans(st, d) && MergedVlans(st, d)[v] == ObservedVlans(st)[v]
    ensures forall v :: v in ObservedVrfs(st) ==> v in MergedVrfs(st, d) && MergedVrfs(st, d)[v] == ObservedVrfs(st)[v]
    ensures forall l2 :: l2 in d.l2vnis ==> l2.vlan in MergedVlans(st, d) && MergedVlans(st, d)[l2.vlan] == l2.vni
    ensures forall l3 :: l3 in d.l3vnis ==> l3.vrf in MergedVrfs(st, d) && MergedVrfs(st, d)[l3.vrf] == l3.vni
    ensures Injective(ObservedVlans(st)) ==> Injective(MergedVlans(st, d))
    ensures Injective(ObservedVrfs(st)) ==> Injective(MergedVrfs(st, d))
  {
    CleanVlans(d, st, parse);
    CleanVrfs(d, st, parse);
    OverlaidExactly(ObservedVlans(st), VlanPairs(d));
    OverlaidExactly(ObservedVrfs(st), VrfPairs(d));
    forall l2 | l2 in d.l2vnis ensures l2.vlan in MergedVlans(st, d) && MergedVlans(st, d)[l2.vlan] == l2.vni {
      var i :| 0 <= i < |d.l2vnis| && d.l2vnis[i] == l2;
      assert VlanPairs(d)[i] == (l2.vlan, l2.vni);
    }
    forall l3 | l3 in d.l3vnis ensures l3.vrf in MergedVrfs(st, d) && MergedVrfs(st, d)[l3.vrf] == l3.vni {
      var i :| 0 <= i < |d.l3vnis| && d.l3vnis[i] == l3;
      assert VrfPairs(d)[i] == (l3.vrf, l3.vni);
    }
  }

  // ------------------------------------------------------------- the prefixes

  /** Where both addresses can be read and have one version, no address lies in both networks. */
  ghost predicate Apart(parse: Parser, x: string, y: string)
    requires ParsesValid(parse)
  {
    parse(x).Some? && parse(y).Some? && parse(x).value.version == parse(y).value.version ==>
      forall z: nat :: !(Contains(parse(x).value, z) && Contains(parse(y).value, z))
  }

  /** The SVIs of two L2VNIs of one VRF share no address. */
  ghost predicate SvisApart(parse: Parser, a: L2, b: L2)
    requires ParsesValid(parse)
  {
    a.svi.Some? && b.svi.Some? && a.vrf != "" && a.vrf == b.vrf ==> forall x, y ::
      (x in a.svi.value.ipv4 || x in a.svi.value.ipv6) && (y in b.svi.value.ipv4 || y in b.svi.value.ipv6) ==> Apart(parse, x, y)
  }

  /** The SVI of an L2VNI shares no address with another interface of its VRF. */
  ghost predicate InterfaceApart(parse: Parser, a: L2, name: InterfaceName, other: InterfaceState)
    requires ParsesValid(parse)
  {
    a.svi.Some? && a.vrf != "" && other.vrf == a.vrf && name != VlanInterface(a.vlan) ==> forall x, y ::
      (x in a.svi.value.ipv4 || x in a.svi.value.ipv6) && (y in other.ipv4 || y in other.ipv6) ==> Apart(parse, x, y)
  }

  /** The desired state fits the observed one. */
  ghost predicate Mergeable(d: Desired, st: State, parse: Parser)
    requires ParsesValid(parse)
  {
    && Compatible(ObservedVlans(st), VlanPairs(d)) && Compatible(ObservedVrfs(st), VrfPairs(d))
    && (forall i :: 0 <= i < |d.l2vnis| ==> SviSettled(d.l2vnis[i], st))
    && (forall i, j :: 0 <= i < j < |d.l2vnis| ==> SvisApart(parse, d.l2vnis[i], d.l2vnis[j]))
    && (forall i, name :: 0 <= i < |d.l2vnis| && name in st.interfaces ==>
          InterfaceApart(parse, d.l2vnis[i], name, st.interfaces[name]))
  }

  lemma ClashIsNotApart(parse: Parser, a: L2, b: L2)
    requires ParsesValid(parse) && Routed(a)
    ensures Routed(b) && SvisClash(SviOf(a), SviOf(b), parse) <==> a.vlan != b.vlan && !SvisApart(parse, a, b)
  {
    forall x, y ensures Shares(parse, x, y) <==> !Apart(parse, x, y) {}
  }

  lemma InterfaceClashIsNotApart(parse: Parser, a: L2, name: InterfaceName, other: InterfaceState)
    requires ParsesValid(parse) && Routed(a)
    ensures InterfaceClash(SviOf(a), name, other, parse) <==> !InterfaceApart(parse, a, name, other)
  {
    forall x, y ensures Shares(parse, x, y) <==> !Apart(parse, x, y) {}
  }

  /** Of two L2VNIs with a VLAN each, the first has its overlap with the second reported. */
  lemma OverlapReported(d: Desired, st: State, parse: Parser, vlan: int)
    requires ParsesValid(parse)
    ensures IsConflict(d, st, parse, Check(SviResource(vlan), DesiredSviPrefixOverlap)) <==> exists i, j ::
      0 <= i < j < |d.l2vnis| && d.l2vnis[i].vlan == vlan && d.l2vnis[j].vlan != vlan && !SvisApart(parse, d.l2vnis[i], d.l2vnis[j])
  {
    var c := Check(SviResource(vlan), DesiredSviPrefixOverlap);
    if i :| 0 <= i < |d.l2vnis| && SviConflict(d.l2vnis, i, st, parse, c) {
      var j :| i < j < |d.l2vnis| && Routed(d.l2vnis[j]) && SvisClash(SviOf(d.l2vnis[i]), SviOf(d.l2vnis[j]), parse);
      ClashIsNotApart(parse, d.l2vnis[i], d.l2vnis[j]);
    }
    if i, j :| 0 <= i < j < |d.l2vnis| && d.l2vnis[i].vlan == vlan && d.l2vnis[j].vlan != vlan && !SvisApart(parse, d.l2vnis[i], d.l2vnis[j]) {
      ClashIsNotApart(parse, d.l2vnis[i], d.l2vnis[j]);
      assert SviConflict(d.l2vnis, i, st, parse, c);
    }
  }

  lemma InterfaceOverlapReported(d: Desired, st: State, parse: Parser, vlan: int)
    requires ParsesValid(parse)
    ensures IsConflict(d, st, parse, Check(SviResource(vlan), ExistingInterfacePrefixOverlap)) <==> exists i, name ::
      0 <= i < |d.l2vnis| && d.l2vnis[i].vlan == vlan && name in st.interfaces
      && !InterfaceApart(parse, d.l2vnis[i], name, st.interfaces[name])
  {
    var c := Check(SviResource(vlan), ExistingInterfacePrefixOverlap);
    if i :| 0 <= i < |d.l2vnis| && SviConflict(d.l2vnis, i, st, parse, c) {
      var name :| name in st.interfaces && InterfaceClash(SviOf(d.l2vnis[i]), name, st.interfaces[name], parse);
      InterfaceClashIsNotApart(parse, d.l2vnis[i], name, st.interfaces[name]);
    }
    if i, name :| 0 <= i < |d.l2vnis| && d.l2vnis[i].vlan == vlan && name in st.interfaces
                  && !InterfaceApart(parse, d.l2vnis[i], name, st.interfaces[name]) {
      InterfaceClashIsNotApart(parse, d.l2vnis[i], name, st.interfaces[name]);
      assert SviConflict(d.l2vnis, i, st, parse, c);
    }
  }

  lemma CleanIsMergeable(d: Desired, st: State, parse: Parser)
    requires ParsesValid(parse) && HostClean(d, st, parse)
    ensures Mergeable(d, st, parse)
  {
    CleanVlans(d, st, parse);
    CleanVrfs(d, st, parse);
    forall i | 0 <= i < |d.l2vnis| ensures SviSettled(d.l2vnis[i], st) {
      NoL2Conflict(d, st, parse, i, Check(SviResource(d.l2vnis[i].vlan), SviAttributeConflict));
    }
    forall i, j | 0 <= i < j < |d.l2vnis| ensures SvisApart(parse, d.l2vnis[i], d.l2vnis[j]) {
      OverlapReported(d, st, parse, d.l2vnis[i].vlan);
      assert VlanPairs(d)[i].0 != VlanPairs(d)[j].0;
    }
    forall i, name | 0 <= i < |d.l2vnis| && name in st.interfaces
      ensures InterfaceApart(parse, d.l2vnis[i], name, st.interfaces[name])
    {
      InterfaceOverlapReported(d, st, parse, d.l2vnis[i].vlan);
    }
  }

  lemma MergeableL2(d: Desired, st: State, parse: Parser, i: nat, c: Check)
    requires ParsesValid(parse) && Mergeable(d, st, parse) && i < |d.l2vnis|
    ensures !L2Conflict(d.l2vnis, i, st, c)
  {
    var l2, m, pairs := d.l2vnis[i], ObservedVlans(st), VlanPairs(d);
    assert pairs[i] == (l2.vlan, l2.vni);
    forall k | 0 <= k < i ensures d.l2vnis[k].vlan != l2.vlan && d.l2vnis[k].vni != l2.vni {
      assert pairs[k] == (d.l2vnis[k].vlan, d.l2vnis[k].vni);
      assert pairs[k].0 != pairs[i].0 && pairs[k].1 != pairs[i].1;
    }
    forall v | v in st.vlans && st.vlans[v].vni.Some? ensures st.vlans[v].vni == Some(l2.vni) <==> v == l2.vlan {
      assert v in m && m[v] == st.vlans[v].vni.value;
      assert m[v] == pairs[i].1 <==> v == pairs[i].0;
    }
    assert SviSettled(l2, st);
    if c.code == SviAttributeConflict && l2.vlan in st.svis && l2.svi.Some? {
      assert SviMatches(st.svis[l2.vlan], l2.svi.value, l2.vrf);
    }
  }

  lemma MergeableL3(d: Desired, st: State, parse: Parser, i: nat, c: Check)
    requires ParsesValid(parse) && Mergeable(d, st, parse) && i < |d.l3vnis|
    ensures !L3Conflict(d.l3vnis, i, st, c)
  {
    var l3, m, pairs := d.l3vnis[i], ObservedVrfs(st), VrfPairs(d);
    assert pairs[i] == (l3.vrf, l3.vni);
    forall k | 0 <= k < i ensures d.l3vnis[k].vrf != l3.vrf && d.l3vnis[k].vni != l3.vni {
      assert pairs[k] == (d.l3vnis[k].vrf, d.l3vnis[k].vni);
      assert pairs[k].0 != pairs[i].0 && pairs[k].1 != pairs[i].1;
    }
    forall v | v in st.vrfs && st.vrfs[v].l3vni.Some? ensures st.vrfs[v].l3vni == Some(l3.vni) <==> v == l3.vrf {
      assert v in m && m[v] == st.vrfs[v].l3vni.value;
      assert m[v] == pairs[i].1 <==> v == pairs[i].0;
    }
  }

  lemma MergeableSvi(d: Desired, st: State, parse: Parser, i: nat, c: Check)
    requires ParsesValid(parse) && Mergeable(d, st, parse) && i < |d.l2vnis|
    ensures !SviConflict(d.l2vnis, i, st, parse, c)
  {
    if SviConflict(d.l2vnis, i, st, parse, c) {
      assert IsConflict(d, st, parse, c);
      OverlapReported(d, st, parse, d.l2vnis[i].vlan);
      InterfaceOverlapReported(d, st, parse, d.l2vnis[i].vlan);
    }
  }

  /** A host is found clean exactly if its desired state fits the observed one. */
  lemma CleanIffMergeable(d: Desired, st: State, parse: Parser)
    requires ParsesValid(parse)
    ensures HostClean(d, st, parse) <==> Mergeable(d, st, parse)
  {
    if HostClean(d, st, parse) {
      CleanIsMergeable(d, st, parse);
    }
    if Mergeable(d, st, parse) {
      forall c ensures !IsConflict(d, st, parse, c) {
        forall i | 0 <= i < |d.l2vnis| ensures !L2Conflict(d.l2vnis, i, st, c) && !SviConflict(d.l2vnis, i, st, parse, c) {
          MergeableL2(d, st, parse, i, c);
          MergeableSvi(d, st, parse, i, c);
        }
        forall i | 0 <= i < |d.l3vnis| ensures !L3Conflict(d.l3vnis, i, st, c) {
          MergeableL3(d, st, parse, i, c);
        }
      }
    }
  }

  /** PASS: the addresses of desired SVIs of one VRF lie in disjoint networks ... */
  lemma PassSeparatesSvis(d: Desired, st: State, parse: Parser, a: L2, b: L2, x: string, y: string, z: nat)
    requires ParsesValid(parse) && HostClean(d, st, parse)
    requires a in d.l2vnis && b in d.l2vnis && a != b && a.svi.Some? && b.svi.Some? && a.vrf == b.vrf != ""
    requires x in a.svi.value.ipv4 || x in a.svi.value.ipv6
    requires y in b.svi.value.ipv4 || y in b.svi.value.ipv6
    requires parse(x).Some? && parse(y).Some? && parse(x).value.version == parse(y).value.version
    ensures !(Contains(parse(x).value, z) && Contains(parse(y).value, z))
  {
    CleanIffMergeable(d, st, parse);
    var i :| 0 <= i < |d.l2vnis| && d.l2vnis[i] == a;
    var j :| 0 <= j < |d.l2vnis| && d.l2vnis[j] == b;
    if i < j {
      assert SvisApart(parse, a, b) && Apart(parse, x, y);
    } else {
      assert SvisApart(parse, b, a) && Apart(parse, y, x);
    }
  }

  /** ... and apart from those of any other observed interface of that VRF. */
  lemma PassSeparatesInterfaces(d: Desired, st: State, parse: Parser, a: L2, name: InterfaceName, x: string, y: string, z: nat)
    requires ParsesValid(parse) && HostClean(d, st, parse)
    requires a in d.l2vnis && a.svi.Some? && a.vrf != ""
    requires name in st.interfaces && name != VlanInterface(a.vlan) && st.interfaces[name].vrf == a.vrf
    requires x in a.svi.value.ipv4 || x in a.svi.value.ipv6
    requires y in st.interfaces[name].ipv4 || y in st.interfaces[name].ipv6
    requires parse(x).Some? && parse(y).Some? && parse(x).value.version == parse(y).value.version
    ensures !(Contains(parse(x).value, z) && Contains(parse(y).value, z))
  {
    CleanIffMergeable(d, st, parse);
    var i :| 0 <= i < |d.l2vnis| && d.l2vnis[i] == a;
    assert InterfaceApart(parse, d.l2vnis[i], name, st.interfaces[name]) && Apart(parse, x, y);
  }

  // ------------------------------------------------ what the assessment leaves out

  /** The VLANs of traditional L3VNIs are pairwise distinct and none is the VLAN of an L2VNI. */
  ghost predicate TraditionalApart(d: Desired) {
    && (forall i, j :: 0 <= i < j < |d.l3vnis| && d.l3vnis[i].mode == d.l3vnis[j].mode == TraditionalVlanSvi
          ==> d.l3vnis[i].vlan != d.l3vnis[j].vlan)
    && (forall l3, l2 :: l3 in d.l3vnis && l3.mode == TraditionalVlanSvi && l2 in d.l2vnis ==> l3.vlan != l2.vlan)
  }

  /** Those VLANs are outside the assessment: one ChangeSet may give a VLAN to
      an L2VNI and to an L3VNI and still pass. */
  lemma TraditionalVlansUnchecked(parse: Parser)
    requires ParsesValid(parse)
    ensures var d := Desired([L2(10100, 100, "", None, "")], [L3(50001, "TENANT", TraditionalVlanSvi, 100, 9216, map[])]);
      HostClean(d, State(map[], map[], map[], map[], {}, {}, map[], map[]), parse) && !TraditionalApart(d)
  {
    var l2s := [L2(10100, 100, "", None, "")];
    var d := Desired(l2s, [L3(50001, "TENANT", TraditionalVlanSvi, 100, 9216, map[])]);
    assert d.l3vnis[0] in d.l3vnis && d.l2vnis[0] in d.l2vnis;
  }
}
