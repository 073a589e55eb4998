// What the two configurations of one device do to it, following
// alred/j2/nxos_overlay_forward_config.j2 and nxos_overlay_rollback_config.j2:
// when the rollback restores the device, and why a second render is empty.
module OverlayEffect {
  import opened OverlayModel
  import opened OverlayRender
  import opened OverlayConflict
  import opened OverlayMerge

  // ------------------------------------------------- edits of keyed configuration

  function Get<K, V>(m: map<K, V>, k: K): Option<V> {
    if k in m then Some(m[k]) else None
  }

  function Put<K, V>(m: map<K, V>, k: K, v: Option<V>): map<K, V> {
    match v
    case Some(x) => m[k := x]
    case None => m - {k}
  }

  /** One edit rewrites the entry of one key; None stands for no entry. */
  type Edit<!K, !V> = (K, Option<V> -> Option<V>)

  function EditAll<K, V>(m: map<K, V>, edits: seq<Edit<K, V>>): map<K, V> {
    if edits == [] then m
    else
      var (k, f) := edits[|edits| - 1];
      var before := EditAll(m, edits[..|edits| - 1]);
      Put(before, k, f(Get(before, k)))
  }

  ghost predicate DistinctKeys<K, V>(edits: seq<Edit<K, V>>) {
    forall i, j :: 0 <= i < j < |edits| ==> edits[i].0 != edits[j].0
  }

  lemma {:induction false} EditedAt<K, V>(m: map<K, V>, edits: seq<Edit<K, V>>, k: K)
    requires DistinctKeys(edits)
    ensures (forall i :: 0 <= i < |edits| ==> edits[i].0 != k) ==> Get(EditAll(m, edits), k) == Get(m, k)
    ensures forall i :: 0 <= i < |edits| && edits[i].0 == k ==> Get(EditAll(m, edits), k) == edits[i].1(Get(m, k))
  {
    if edits != [] {
      EditedAt(m, edits[..|edits| - 1], k);
    }
  }

  /** One edit and its undo leave the value at its key as it was. */
  ghost predicate Undone<K, V>(m: map<K, V>, edits: seq<Edit<K, V>>, undo: seq<Edit<K, V>>, i: int) {
    0 <= i < |edits| && i < |undo| && undo[i].1(edits[i].1(Get(m, edits[i].0))) == Get(m, edits[i].0)
  }

  ghost predicate AllUndone<K, V>(m: map<K, V>, edits: seq<Edit<K, V>>, undo: seq<Edit<K, V>>) {
    forall i {:trigger Undone(m, edits, undo, i)} :: 0 <= i < |edits| ==> Undone(m, edits, undo, i)
  }

  /** Editing twice, with the same keys in the same order, restores the map iff every entry is restored. */
  lemma EditsUndone<K, V>(m: map<K, V>, edits: seq<Edit<K, V>>, undo: seq<Edit<K, V>>)
    requires DistinctKeys(edits) && |undo| == |edits| && forall i :: 0 <= i < |edits| ==> undo[i].0 == edits[i].0
    ensures EditAll(EditAll(m, edits), undo) == m <==> AllUndone(m, edits, undo)
  {
    var n := EditAll(EditAll(m, edits), undo);
    forall i | 0 <= i < |edits| ensures Get(n, edits[i].0) == undo[i].1(edits[i].1(Get(m, edits[i].0))) {
      EditedAt(m, edits, edits[i].0);
      EditedAt(EditAll(m, edits), undo, undo[i].0);
    }
    if AllUndone(m, edits, undo) {
      forall i | 0 <= i < |edits| ensures undo[i].1(edits[i].1(Get(m, edits[i].0))) == Get(m, edits[i].0) {
        assert Undone(m, edits, undo, i);
      }
      forall k ensures Get(n, k) == Get(m, k) {
        EditedAt(m, edits, k);
        EditedAt(EditAll(m, edits), undo, k);
      }
      SameEntries(n, m);
    }
  }

  lemma SameEntries<K, V>(a: map<K, V>, b: map<K, V>)
    requires forall k :: Get(a, k) == Get(b, k)
    ensures a == b
  {
    forall k ensures k in a <==> k in b { assert Get(a, k) == Get(b, k); }
    forall k | k in a ensures a[k] == b[k] { assert Get(a, k) == Get(b, k); }
  }

  lemma EditsIdle<K, V>(m: map<K, V>, edits: seq<Edit<K, V>>)
    requires DistinctKeys(edits)
    ensures EditAll(m, edits) == m <==> forall i :: 0 <= i < |edits| ==> edits[i].1(Get(m, edits[i].0)) == Get(m, edits[i].0)
  {
    var n := EditAll(m, edits);
    forall i | 0 <= i < |edits| ensures Get(n, edits[i].0) == edits[i].1(Get(m, edits[i].0)) {
      EditedAt(m, edits, edits[i].0);
    }
    if forall i :: 0 <= i < |edits| ==> edits[i].1(Get(m, edits[i].0)) == Get(m, edits[i].0) {
      forall k ensures Get(n, k) == Get(m, k) { EditedAt(m, edits, k); }
      SameEntries(n, m);
    }
  }

  // ------------------------------------------------- commands by address family

  function Merged(have: Families, want: Families): Families {
    map af | af in have.Keys + want.Keys :: CommandsIn(have, af) + CommandsIn(want, af)
  }

  /** `no <command>` for each of `gone`; the address families stay. */
  function Without(have: Families, gone: Families): Families {
    map af | af in have :: have[af] - CommandsIn(gone, af)
  }

  /** Removing what was missing leaves behind the address families that were not there. */
  lemma MergeUndone(have: Families, want: Families)
    ensures Without(Merged(have, want), Missing(want, have)) == have <==> want.Keys <= have.Keys
  {
    var back := Without(Merged(have, want), Missing(want, have));
    assert back.Keys == have.Keys + want.Keys;
    forall af | af in have ensures back[af] == have[af] {
      CommandsUndone(have, want, af);
    }
  }

  lemma CommandsUndone(have: Families, want: Families, af: string)
    requires af in have
    ensures Without(Merged(have, want), Missing(want, have))[af] == have[af]
  {}

  lemma MergeIdle(have: Families, want: Families)
    requires !AnyCommand(Missing(want, have)) && forall af :: af in want ==> want[af] != {}
    ensures Merged(have, want) == have
  {
    forall af | af in want ensures af in have && want[af] <= have[af] {
      assert af in Missing(want, have) && Missing(want, have)[af] == want[af] - CommandsIn(have, af) == {};
      forall c | c in want[af] ensures c in CommandsIn(have, af) {
        assert c in want[af] - CommandsIn(have, af) <==> c !in CommandsIn(have, af);
      }
      var c :| c in want[af];
      assert c in CommandsIn(have, af);
    }
    assert Merged(have, want).Keys == have.Keys;
    forall af | af in have ensures Merged(have, want)[af] == have[af] {}
  }

  lemma MergedLacksNothing(have: Families, want: Families)
    ensures !AnyCommand(Missing(want, Merged(have, want)))
  {
    forall af | af in want ensures Missing(want, Merged(have, want))[af] == {} {}
  }

  // ------------------------------------------------- the forward configuration

  /** L3VNIs that also configure a VLAN and an SVI. */
  function Traditional(l3s: seq<L3>): (r: seq<L3>)
    ensures forall l3 :: l3 in r <==> l3 in l3s && l3.mode == TraditionalVlanSvi
  {
    if l3s == [] then []
    else (if l3s[0].mode == TraditionalVlanSvi then [l3s[0]] else []) + Traditional(l3s[1..])
  }

  /** `vlan`, `name` (when given) and `vn-segment`. */
  function SetVlan(vni: int, name: string): Option<VlanState> -> Option<VlanState> {
    (was: Option<VlanState>) => Some(VlanState(Some(vni), if name != "" then Some(name) else if was.Some? then was.value.name else None))
  }

  const NoSvi := SviState(None, Some([]), Some([]), false, None, Some(false), None, false, SviExtras(false, None, true, true))

  /** `interface Vlan...` of an L2VNI, when it has an SVI. */
  function SetSvi(l2: L2): Option<SviState> -> Option<SviState> {
    (was: Option<SviState>) =>
      if l2.svi.None? then was
      else
        var svi, base := l2.svi.value, if was.Some? then was.value else NoSvi;
        var plain := base.(mtu := Some(svi.mtu), ipv4 := Some(svi.ipv4), ipv6 := Some(svi.ipv6), anycast := true,
                           vrf := if l2.vrf != "" then Some(l2.vrf) else base.vrf, extras := SetExtras(l2, svi, base.extras));
        Some(if svi.ipv6 == [] then plain
             else plain.(linkLocal := Some(svi.linkLocal), suppressRa := if svi.suppressRa then Some(true) else base.suppressRa))
  }

  /** `no shutdown`, `description` with the name of the VLAN, and the two redirect commands: their address key is there
      exactly if its list is not empty. */
  function SetExtras(l2: L2, svi: Svi, was: SviExtras): SviExtras {
    SviExtras(true, if l2.vlanName != "" then Some(l2.vlanName) else was.description,
              was.ipRedirects && svi.ipv4 == [], was.ipv6Redirects && svi.ipv6 == [])
  }

  function SetTraditionalSvi(l3: L3): Option<SviState> -> Option<SviState> {
    (was: Option<SviState>) =>
      var base := if was.Some? then was.value else NoSvi;
      Some(base.(mtu := Some(l3.mtu), vrf := Some(l3.vrf), ipForward := true, extras := base.extras.(up := true)))
  }

  /** `vrf context`, `vni ... l3`, `rd auto` and the route targets. */
  function SetVrf(l3: L3): Option<VrfState> -> Option<VrfState> {
    (was: Option<VrfState>) =>
      Some(VrfState(Some(l3.vni), Some("auto"), Merged(if was.Some? then was.value.afs else map[], DesiredVrfFamilies(l3))))
  }

  function SetBgpVrf(l3: L3): Option<Families> -> Option<Families> {
    (was: Option<Families>) => Some(Merged(if was.Some? then was.value else map[], DesiredBgpFamilies(l3)))
  }

  const EvpnTargets := {"route-target import auto", "route-target export auto"}

  /** `vni ... l2` under `evpn`. */
  function SetEvpn(was: Option<EvpnVni>): EvpnVni {
    EvpnVni(Some("auto"), (if was.Some? then was.value.targets else {}) + EvpnTargets)
  }

  function EvpnWith(evpn: map<int, EvpnVni>, vnis: set<int>): map<int, EvpnVni> {
    map n | n in evpn.Keys + vnis :: if n in vnis then SetEvpn(Get(evpn, n)) else evpn[n]
  }

  function L2Vnis(d: Desired): set<int> {
    set l2 | l2 in d.l2vnis :: l2.vni
  }

  function VlanEdits(d: Desired): seq<Edit<int, VlanState>> {
    var t := Traditional(d.l3vnis);
    seq(|t|, i requires 0 <= i < |t| => (t[i].vlan, SetVlan(t[i].vni, ""))) +
    seq(|d.l2vnis|, i requires 0 <= i < |d.l2vnis| => (d.l2vnis[i].vlan, SetVlan(d.l2vnis[i].vni, d.l2vnis[i].vlanName)))
  }

  function SviEdits(d: Desired): seq<Edit<int, SviState>> {
    var t := Traditional(d.l3vnis);
    seq(|t|, i requires 0 <= i < |t| => (t[i].vlan, SetTraditionalSvi(t[i]))) +
    seq(|d.l2vnis|, i requires 0 <= i < |d.l2vnis| => (d.l2vnis[i].vlan, SetSvi(d.l2vnis[i])))
  }

  function VrfEdits(d: Desired): seq<Edit<string, VrfState>> {
    seq(|d.l3vnis|, i requires 0 <= i < |d.l3vnis| => (d.l3vnis[i].vrf, SetVrf(d.l3vnis[i])))
  }

  function BgpEdits(d: Desired): seq<Edit<string, Families>> {
    seq(|d.l3vnis|, i requires 0 <= i < |d.l3vnis| => (d.l3vnis[i].vrf, SetBgpVrf(d.l3vnis[i])))
  }

  /** The device after the forward template. Parts of different kinds do not
      interact; the list of interfaces is left to follow `svis`. */
  function Forward(st: State, d: Desired): State {
    State(EditAll(st.vlans, VlanEdits(d)), EditAll(st.svis, SviEdits(d)), EditAll(st.vrfs, VrfEdits(d)), st.interfaces,
          st.nveL2 + L2Vnis(d), st.nveL3 + (set l3 | l3 in d.l3vnis :: l3.vni),
          EvpnWith(st.evpn, L2Vnis(d)),
          EditAll(st.bgpVrfs, BgpEdits(d)))
  }

  // ------------------------------------------------- the rollback configuration

  function UnsetVlan(created: bool, mapped: bool, named: bool): Option<VlanState> -> Option<VlanState> {
    (was: Option<VlanState>) =>
      if created || was.None? then None
      else Some(VlanState(if mapped then None else was.value.vni, if named then None else was.value.name))
  }

  function UnsetSvi(created: bool): Option<SviState> -> Option<SviState> {
    (was: Option<SviState>) => if created then None else was
  }

  /** For an existing VRF the template prints `no vni` whatever the ownership says. */
  function UnsetVrf(o: L3Ownership): Option<VrfState> -> Option<VrfState> {
    (was: Option<VrfState>) =>
      if o.vrfNew || was.None? then None
      else Some(VrfState(None, was.value.rd, Without(was.value.afs, o.vrfAfAdded)))
  }

  function UnsetBgpVrf(o: L3Ownership): Option<Families> -> Option<Families> {
    (was: Option<Families>) => if o.bgpVrfNew || was.None? then None else Some(Without(was.value, o.bgpAdded))
  }

  /** Printed from the ownership flags, which were computed on the state `was`.
      The keys are those of the forward edits; they are distinct, so their order
      does not matter. */
  function VlanUndo(d: Desired, was: State): seq<Edit<int, VlanState>> {
    var t := Traditional(d.l3vnis);
    seq(|t|, i requires 0 <= i < |t| =>
      var o := OwnL3(t[i], was); (t[i].vlan, UnsetVlan(o.vlanNew, o.vlanMappingNew, false))) +
    seq(|d.l2vnis|, i requires 0 <= i < |d.l2vnis| =>
      var o := OwnL2(d.l2vnis[i], was); (d.l2vnis[i].vlan, UnsetVlan(o.vlanNew, o.mappingNew, o.nameNew)))
  }

  function SviUndo(d: Desired, was: State): seq<Edit<int, SviState>> {
    var t := Traditional(d.l3vnis);
    seq(|t|, i requires 0 <= i < |t| => (t[i].vlan, UnsetSvi(OwnL3(t[i], was).sviNew))) +
    seq(|d.l2vnis|, i requires 0 <= i < |d.l2vnis| => (d.l2vnis[i].vlan, UnsetSvi(OwnL2(d.l2vnis[i], was).sviNew)))
  }

  function VrfUndo(d: Desired, was: State): seq<Edit<string, VrfState>> {
    seq(|d.l3vnis|, i requires 0 <= i < |d.l3vnis| => (d.l3vnis[i].vrf, UnsetVrf(OwnL3(d.l3vnis[i], was))))
  }

  function BgpUndo(d: Desired, was: State): seq<Edit<string, Families>> {
    seq(|d.l3vnis|, i requires 0 <= i < |d.l3vnis| => (d.l3vnis[i].vrf, UnsetBgpVrf(OwnL3(d.l3vnis[i], was))))
  }

  function NewEvpnVnis(d: Desired, was: State): set<int> {
    set l2 | l2 in d.l2vnis && OwnL2(l2, was).evpnNew :: l2.vni
  }

  /** The device after the rollback template. */
  function Rollback(st: State, d: Desired, was: State): State {
    State(EditAll(st.vlans, VlanUndo(d, was)), EditAll(st.svis, SviUndo(d, was)), EditAll(st.vrfs, VrfUndo(d, was)),
          st.interfaces,
          st.nveL2 - (set l2 | l2 in d.l2vnis && OwnL2(l2, was).nveNew :: l2.vni),
          st.nveL3 - (set l3 | l3 in d.l3vnis && OwnL3(l3, was).nveNew :: l3.vni),
          st.evpn - NewEvpnVnis(d, was),
          EditAll(st.bgpVrfs, BgpUndo(d, was)))
  }

  // ---------------------------------------------------------- what is sent at all

  /** The device after the configuration that was rendered on it; with `no_change` both texts are empty. */
  ghost function Applied(d: Desired, st: State): State {
    if AllPreserved(d, st) then st else Forward(st, d)
  }

  ghost function RolledBack(st: State, d: Desired, was: State): State {
    if AllPreserved(d, was) then st else Rollback(st, d, was)
  }

  // --------------------------------------------------- forward, then rollback

  /** No VLAN and no VRF is configured by two resources. */
  ghost predicate Separate(d: Desired) {
    DistinctKeys(VlanEdits(d)) && SeparateVrfs(d.l3vnis)
  }

  ghost predicate SeparateVrfs(l3s: seq<L3>) {
    forall i, j :: 0 <= i < j < |l3s| ==> l3s[i].vrf != l3s[j].vrf
  }

  /** An existing SVI has already what the forward template writes into it unrecorded. */
  predicate L2SviKept(st: State, l2: L2) {
    l2.svi.Some? && l2.vlan in st.svis ==>
      var (e, svi) := (st.svis[l2.vlan].extras, l2.svi.value);
      && e.up && (l2.vlanName != "" ==> e.description == Some(l2.vlanName))
      && (svi.ipv4 != [] ==> !e.ipRedirects) && (svi.ipv6 != [] ==> !e.ipv6Redirects)
  }

  predicate L3SviKept(st: State, l3: L3) {
    l3.mode == TraditionalVlanSvi && l3.vlan in st.svis ==> st.svis[l3.vlan].extras.up
  }

  /** An existing VNI under `evpn` has already `rd auto` and both route targets. */
  predicate EvpnKept(st: State, l2: L2) {
    l2.vni in st.evpn ==> st.evpn[l2.vni].rd == Some("auto") && EvpnTargets <= st.evpn[l2.vni].targets
  }

  /** An existing VRF has `rd auto`, all address families and no L3VNI. */
  predicate VrfRestorable(st: State, l3: L3) {
    l3.vrf in st.vrfs ==>
      st.vrfs[l3.vrf].rd == Some("auto") && l3.afs.Keys <= st.vrfs[l3.vrf].afs.Keys && st.vrfs[l3.vrf].l3vni == None
  }

  predicate BgpRestorable(st: State, l3: L3) {
    l3.vrf in st.bgpVrfs ==> l3.afs.Keys <= st.bgpVrfs[l3.vrf].Keys
  }

  /** The SVIs of all resources have what no flag records. */
  ghost predicate SvisKept(d: Desired, st: State) {
    && (forall i :: 0 <= i < |d.l2vnis| ==> L2SviKept(st, d.l2vnis[i]))
    && (forall i :: 0 <= i < |d.l3vnis| ==> L3SviKept(st, d.l3vnis[i]))
  }

  ghost predicate EvpnsKept(d: Desired, st: State) {
    forall l2 :: l2 in d.l2vnis ==> EvpnKept(st, l2)
  }

  ghost predicate VrfsRestorable(d: Desired, st: State) {
    forall i :: 0 <= i < |d.l3vnis| ==> VrfRestorable(st, d.l3vnis[i])
  }

  ghost predicate BgpVrfsRestorable(d: Desired, st: State) {
    forall i :: 0 <= i < |d.l3vnis| ==> BgpRestorable(st, d.l3vnis[i])
  }

  /** What the rollback template does not undo was there before the change. */
  ghost predicate Restorable(d: Desired, st: State) {
    SvisKept(d, st) && EvpnsKept(d, st) && VrfsRestorable(d, st) && BgpVrfsRestorable(d, st)
  }

  lemma VlansRestored(d: Desired, st: State)
    requires Accepted(d, st) && Separate(d)
    ensures EditAll(EditAll(st.vlans, VlanEdits(d)), VlanUndo(d, st)) == st.vlans
  {
    var edits, undo, t := VlanEdits(d), VlanUndo(d, st), Traditional(d.l3vnis);
    forall i | 0 <= i < |edits|
      ensures undo[i].0 == edits[i].0
      ensures undo[i].1(edits[i].1(Get(st.vlans, edits[i].0))) == Get(st.vlans, edits[i].0)
    {
      if i < |t| {
        assert t[i] in t;
        assert !L3Refused(t[i], st, TraditionalVlanConflict);
      } else {
        assert !L2Refused(d.l2vnis[i - |t|], st, VlanHasOtherVni);
        assert !L2Refused(d.l2vnis[i - |t|], st, VlanHasOtherName);
      }
    }
    EditsUndone(st.vlans, edits, undo);
  }

  lemma SviUndone(l2: L2, st: State)
    requires !L2Refused(l2, st, SviPartlyCompatible)
    ensures UnsetSvi(OwnL2(l2, st).sviNew)(SetSvi(l2)(Get(st.svis, l2.vlan))) == Get(st.svis, l2.vlan) <==> L2SviKept(st, l2)
  {}

  lemma TraditionalSviUndone(l3: L3, st: State)
    requires l3.mode == TraditionalVlanSvi && !L3Refused(l3, st, TraditionalSviConflict)
    ensures UnsetSvi(OwnL3(l3, st).sviNew)(SetTraditionalSvi(l3)(Get(st.svis, l3.vlan))) == Get(st.svis, l3.vlan)
            <==> L3SviKept(st, l3)
  {}

  /** The condition of the SVI edit with index `i`. */
  predicate SviKeptAt(d: Desired, st: State, i: nat)
    requires i < |SviEdits(d)|
  {
    var t := Traditional(d.l3vnis);
    if i < |t| then L3SviKept(st, t[i]) else L2SviKept(st, d.l2vnis[i - |t|])
  }

  lemma SvisKeptAt(d: Desired, st: State)
    ensures SvisKept(d, st) <==> forall i :: 0 <= i < |SviEdits(d)| ==> SviKeptAt(d, st, i)
  {
    var t := Traditional(d.l3vnis);
    if SvisKept(d, st) {
      forall i | 0 <= i < |SviEdits(d)| ensures SviKeptAt(d, st, i) {
        if i < |t| {
          assert t[i] in t;
        }
      }
    }
    if forall i :: 0 <= i < |SviEdits(d)| ==> SviKeptAt(d, st, i) {
      forall i | 0 <= i < |d.l2vnis| ensures L2SviKept(st, d.l2vnis[i]) {
        assert SviKeptAt(d, st, |t| + i);
      }
      forall i | 0 <= i < |d.l3vnis| ensures L3SviKept(st, d.l3vnis[i]) {
        if d.l3vnis[i].mode == TraditionalVlanSvi {
          assert d.l3vnis[i] in d.l3vnis;
          var k :| 0 <= k < |t| && t[k] == d.l3vnis[i];
          assert SviKeptAt(d, st, k);
        }
      }
    }
  }

  lemma SvisRestored(d: Desired, st: State)
    requires Accepted(d, st) && Separate(d)
    ensures EditAll(EditAll(st.svis, SviEdits(d)), SviUndo(d, st)) == st.svis <==> SvisKept(d, st)
  {
    var edits, undo, t := SviEdits(d), SviUndo(d, st), Traditional(d.l3vnis);
    SameVlanKeys(d);
    assert forall i :: 0 <= i < |edits| ==> undo[i].0 == edits[i].0;
    forall i | 0 <= i < |edits| ensures Undone(st.svis, edits, undo, i) <==> SviKeptAt(d, st, i) {
      if i < |t| {
        assert t[i] in t;
        assert !L3Refused(t[i], st, TraditionalSviConflict);
        TraditionalSviUndone(t[i], st);
      } else {
        assert !L2Refused(d.l2vnis[i - |t|], st, SviPartlyCompatible);
        SviUndone(d.l2vnis[i - |t|], st);
      }
    }
    EditsUndone(st.svis, edits, undo);
    SvisKeptAt(d, st);
  }

  /** What undoing one VRF edit restores. */
  lemma VrfUndone(l3: L3, st: State)
    ensures UnsetVrf(OwnL3(l3, st))(SetVrf(l3)(Get(st.vrfs, l3.vrf))) == Get(st.vrfs, l3.vrf) <==> VrfRestorable(st, l3)
  {
    MergeUndone(VrfFamilies(st, l3.vrf), DesiredVrfFamilies(l3));
  }

  lemma VrfsRestored(d: Desired, st: State)
    requires SeparateVrfs(d.l3vnis)
    ensures EditAll(EditAll(st.vrfs, VrfEdits(d)), VrfUndo(d, st)) == st.vrfs <==> VrfsRestorable(d, st)
  {
    EditsUndone(st.vrfs, VrfEdits(d), VrfUndo(d, st));
    forall i | 0 <= i < |d.l3vnis|
      ensures Undone(st.vrfs, VrfEdits(d), VrfUndo(d, st), i) <==> VrfRestorable(st, d.l3vnis[i])
    {
      VrfUndone(d.l3vnis[i], st);
    }
  }

  lemma BgpUndone(l3: L3, st: State)
    ensures UnsetBgpVrf(OwnL3(l3, st))(SetBgpVrf(l3)(Get(st.bgpVrfs, l3.vrf))) == Get(st.bgpVrfs, l3.vrf) <==> BgpRestorable(st, l3)
  {
    MergeUndone(BgpFamilies(st, l3.vrf), DesiredBgpFamilies(l3));
  }

  lemma BgpRestored(d: Desired, st: State)
    requires SeparateVrfs(d.l3vnis)
    ensures EditAll(EditAll(st.bgpVrfs, BgpEdits(d)), BgpUndo(d, st)) == st.bgpVrfs <==> BgpVrfsRestorable(d, st)
  {
    EditsUndone(st.bgpVrfs, BgpEdits(d), BgpUndo(d, st));
    forall i | 0 <= i < |d.l3vnis|
      ensures Undone(st.bgpVrfs, BgpEdits(d), BgpUndo(d, st), i) <==> BgpRestorable(st, d.l3vnis[i])
    {
      BgpUndone(d.l3vnis[i], st);
    }
  }

  lemma EvpnWithIdle(d: Desired, st: State)
    ensures (forall n :: n in st.evpn ==> EvpnWith(st.evpn, L2Vnis(d))[n] == st.evpn[n]) <==> EvpnsKept(d, st)
  {
    var after := EvpnWith(st.evpn, L2Vnis(d));
    if forall n :: n in st.evpn ==> after[n] == st.evpn[n] {
      forall l2 | l2 in d.l2vnis && l2.vni in st.evpn ensures EvpnKept(st, l2) {
        assert after[l2.vni] == SetEvpn(Some(st.evpn[l2.vni])) == st.evpn[l2.vni];
      }
    }
    if EvpnsKept(d, st) {
      forall n | n in st.evpn ensures after[n] == st.evpn[n] {
        if n in L2Vnis(d) {
          var l2 :| l2 in d.l2vnis && l2.vni == n;
          assert EvpnKept(st, l2);
        }
      }
    }
  }

  lemma EvpnRestored(d: Desired, st: State)
    ensures EvpnWith(st.evpn, L2Vnis(d)) - NewEvpnVnis(d, st) == st.evpn <==> EvpnsKept(d, st)
  {
    var after, gone := EvpnWith(st.evpn, L2Vnis(d)), NewEvpnVnis(d, st);
    assert gone == L2Vnis(d) - st.evpn.Keys;
    assert (after - gone).Keys == st.evpn.Keys;
    assert forall n :: n in st.evpn ==> (after - gone)[n] == after[n];
    EvpnWithIdle(d, st);
  }

  lemma NveRestored(d: Desired, st: State)
    ensures Rollback(Forward(st, d), d, st).nveL2 == st.nveL2 && Rollback(Forward(st, d), d, st).nveL3 == st.nveL3
  {}

  /** What the rollback template makes of the forward one. */
  lemma TemplateRestores(d: Desired, st: State)
    requires Accepted(d, st) && Separate(d)
    ensures Rollback(Forward(st, d), d, st) == st <==> Restorable(d, st)
  {
    VlansRestored(d, st);
    SvisRestored(d, st);
    VrfsRestored(d, st);
    BgpRestored(d, st);
    EvpnRestored(d, st);
    NveRestored(d, st);
  }

  /** The rollback restores the device exactly when nothing was sent, or nothing that it does not undo was new. */
  lemma RollbackRestores(d: Desired, st: State)
    requires Accepted(d, st) && Separate(d)
    ensures RolledBack(Applied(d, st), d, st) == st <==> AllPreserved(d, st) || Restorable(d, st)
  {
    if !AllPreserved(d, st) {
      TemplateRestores(d, st);
    }
  }

  // ------------------------------------------------------ rendering once more

  lemma ForwardVlan(d: Desired, st: State, i: nat)
    requires Separate(d) && i < |d.l2vnis|
    ensures var (after, l2) := (Forward(st, d), d.l2vnis[i]);
      && Get(after.vlans, l2.vlan) == SetVlan(l2.vni, l2.vlanName)(Get(st.vlans, l2.vlan))
      && Get(after.svis, l2.vlan) == SetSvi(l2)(Get(st.svis, l2.vlan))
      && l2.vni in after.nveL2 && l2.vni in after.evpn
  {
    var l2 := d.l2vnis[i];
    assert l2 in d.l2vnis;
    var k := |Traditional(d.l3vnis)| + i;
    assert VlanEdits(d)[k] == (l2.vlan, SetVlan(l2.vni, l2.vlanName)) && SviEdits(d)[k] == (l2.vlan, SetSvi(l2));
    EditedAt(st.vlans, VlanEdits(d), l2.vlan);
    SameVlanKeys(d);
    EditedAt(st.svis, SviEdits(d), l2.vlan);
  }

  lemma ForwardL2(d: Desired, st: State, i: nat)
    requires Accepted(d, st) && Separate(d) && i < |d.l2vnis|
    ensures !L2Changes(OwnL2(d.l2vnis[i], Forward(st, d)))
    ensures forall e :: !L2Refused(d.l2vnis[i], Forward(st, d), e)
  {
    ForwardVlan(d, st, i);
    SettledL2(d.l2vnis[i], st, Forward(st, d));
  }

  lemma SettledL2(l2: L2, st: State, after: State)
    requires !L2Refused(l2, st, VlanHasOtherName) && !L2Refused(l2, st, SviPartlyCompatible)
    requires Get(after.vlans, l2.vlan) == SetVlan(l2.vni, l2.vlanName)(Get(st.vlans, l2.vlan))
    requires Get(after.svis, l2.vlan) == SetSvi(l2)(Get(st.svis, l2.vlan))
    requires l2.vni in after.nveL2 && l2.vni in after.evpn
    ensures !L2Changes(OwnL2(l2, after)) && forall e :: !L2Refused(l2, after, e)
  {}

  lemma SameVlanKeys(d: Desired)
    requires Separate(d)
    ensures DistinctKeys(SviEdits(d))
  {
    assert forall i :: 0 <= i < |SviEdits(d)| ==> SviEdits(d)[i].0 == VlanEdits(d)[i].0;
  }

  lemma ForwardVrf(d: Desired, st: State, i: nat)
    requires Separate(d) && i < |d.l3vnis|
    ensures var (after, l3) := (Forward(st, d), d.l3vnis[i]);
      && Get(after.vrfs, l3.vrf) == SetVrf(l3)(Get(st.vrfs, l3.vrf))
      && Get(after.bgpVrfs, l3.vrf) == SetBgpVrf(l3)(Get(st.bgpVrfs, l3.vrf))
      && l3.vni in after.nveL3
  {
    var l3 := d.l3vnis[i];
    assert l3 in d.l3vnis;
    assert VrfEdits(d)[i] == (l3.vrf, SetVrf(l3)) && BgpEdits(d)[i] == (l3.vrf, SetBgpVrf(l3));
    EditedAt(st.vrfs, VrfEdits(d), l3.vrf);
    EditedAt(st.bgpVrfs, BgpEdits(d), l3.vrf);
  }

  lemma ForwardTraditional(d: Desired, st: State, l3: L3)
    requires Separate(d) && l3 in d.l3vnis && l3.mode == TraditionalVlanSvi
    ensures var after := Forward(st, d);
      && Get(after.vlans, l3.vlan) == SetVlan(l3.vni, "")(Get(st.vlans, l3.vlan))
      && Get(after.svis, l3.vlan) == SetTraditionalSvi(l3)(Get(st.svis, l3.vlan))
  {
    var t := Traditional(d.l3vnis);
    var k :| 0 <= k < |t| && t[k] == l3;
    assert VlanEdits(d)[k] == (l3.vlan, SetVlan(l3.vni, "")) && SviEdits(d)[k] == (l3.vlan, SetTraditionalSvi(l3));
    EditedAt(st.vlans, VlanEdits(d), l3.vlan);
    SameVlanKeys(d);
    EditedAt(st.svis, SviEdits(d), l3.vlan);
  }

  lemma ForwardL3(d: Desired, st: State, i: nat)
    requires Accepted(d, st) && Separate(d) && i < |d.l3vnis|
    ensures !L3Changes(OwnL3(d.l3vnis[i], Forward(st, d)))
    ensures forall e :: !L3Refused(d.l3vnis[i], Forward(st, d), e)
  {
    var after, l3 := Forward(st, d), d.l3vnis[i];
    assert l3 in d.l3vnis;
    ForwardVrf(d, st, i);
    SettledFamilies(l3, st, after);
    if l3.mode == TraditionalVlanSvi {
      ForwardTraditional(d, st, l3);
    }
    SettledL3(l3, st, after);
  }

  lemma SettledFamilies(l3: L3, st: State, after: State)
    requires !L3Refused(l3, st, BgpCommandsConflict)
    requires Get(after.vrfs, l3.vrf) == SetVrf(l3)(Get(st.vrfs, l3.vrf))
    requires Get(after.bgpVrfs, l3.vrf) == SetBgpVrf(l3)(Get(st.bgpVrfs, l3.vrf))
    ensures !AnyCommand(OwnL3(l3, after).bgpAdded) && !AnyCommand(OwnL3(l3, after).vrfAfAdded)
    ensures !L3Refused(l3, after, BgpCommandsConflict)
  {
    MergedLacksNothing(VrfFamilies(st, l3.vrf), DesiredVrfFamilies(l3));
    MergedLacksNothing(BgpFamilies(st, l3.vrf), DesiredBgpFamilies(l3));
    FamiliesAfter(l3, st, after);
    NoNewConflict(l3, st, after);
  }

  lemma FamiliesAfter(l3: L3, st: State, after: State)
    requires Get(after.vrfs, l3.vrf) == SetVrf(l3)(Get(st.vrfs, l3.vrf))
    requires Get(after.bgpVrfs, l3.vrf) == SetBgpVrf(l3)(Get(st.bgpVrfs, l3.vrf))
    ensures VrfFamilies(after, l3.vrf) == Merged(VrfFamilies(st, l3.vrf), DesiredVrfFamilies(l3))
    ensures BgpFamilies(after, l3.vrf) == Merged(BgpFamilies(st, l3.vrf), DesiredBgpFamilies(l3))
  {}

  /** What is added to the BGP commands does not clash with itself. */
  lemma NoNewConflict(l3: L3, st: State, after: State)
    requires !L3Refused(l3, st, BgpCommandsConflict)
    requires BgpFamilies(after, l3.vrf) == Merged(BgpFamilies(st, l3.vrf), DesiredBgpFamilies(l3))
    ensures !L3Refused(l3, after, BgpCommandsConflict)
  {
    forall af, c | af in l3.afs && c in CommandsIn(BgpFamilies(after, l3.vrf), af) && Exclusive(c) ensures c in BgpCommands(l3.afs[af]) {
      assert c in CommandsIn(BgpFamilies(st, l3.vrf), af) || c in DesiredBgpFamilies(l3)[af];
    }
  }

  lemma SettledL3(l3: L3, st: State, after: State)
    requires forall e :: !L3Refused(l3, st, e)
    requires Get(after.vrfs, l3.vrf) == SetVrf(l3)(Get(st.vrfs, l3.vrf)) && l3.vrf in after.bgpVrfs && l3.vni in after.nveL3
    requires !AnyCommand(OwnL3(l3, after).bgpAdded) && !AnyCommand(OwnL3(l3, after).vrfAfAdded)
    requires !L3Refused(l3, after, BgpCommandsConflict)
    requires l3.mode == TraditionalVlanSvi ==>
      && Get(after.vlans, l3.vlan) == SetVlan(l3.vni, "")(Get(st.vlans, l3.vlan))
      && Get(after.svis, l3.vlan) == SetTraditionalSvi(l3)(Get(st.svis, l3.vlan))
    ensures !L3Changes(OwnL3(l3, after)) && forall e :: !L3Refused(l3, after, e)
  {}

  lemma ForwardL2s(d: Desired, st: State)
    requires Accepted(d, st) && Separate(d)
    ensures forall i :: 0 <= i < |d.l2vnis| ==> !L2Changes(OwnL2(d.l2vnis[i], Forward(st, d)))
    ensures forall i, e :: 0 <= i < |d.l2vnis| ==> !L2Refused(d.l2vnis[i], Forward(st, d), e)
  {
    forall i | 0 <= i < |d.l2vnis|
      ensures !L2Changes(OwnL2(d.l2vnis[i], Forward(st, d)))
      ensures forall e :: !L2Refused(d.l2vnis[i], Forward(st, d), e)
    {
      ForwardL2(d, st, i);
    }
  }

  lemma ForwardL3s(d: Desired, st: State)
    requires Accepted(d, st) && Separate(d)
    ensures forall i :: 0 <= i < |d.l3vnis| ==> !L3Changes(OwnL3(d.l3vnis[i], Forward(st, d)))
    ensures forall i, e :: 0 <= i < |d.l3vnis| ==> !L3Refused(d.l3vnis[i], Forward(st, d), e)
  {
    forall i | 0 <= i < |d.l3vnis|
      ensures !L3Changes(OwnL3(d.l3vnis[i], Forward(st, d)))
      ensures forall e :: !L3Refused(d.l3vnis[i], Forward(st, d), e)
    {
      ForwardL3(d, st, i);
    }
  }

  /** After its configuration a second render is accepted and empty, so applying it again sends nothing. */
  lemma SecondRenderIsEmpty(d: Desired, st: State)
    requires Accepted(d, st) && Separate(d)
    ensures Accepted(d, Applied(d, st)) && AllPreserved(d, Applied(d, st))
    ensures Applied(d, Applied(d, st)) == Applied(d, st)
  {
    if !AllPreserved(d, st) {
      ForwardL2s(d, st);
      ForwardL3s(d, st);
    }
  }

  /** After its configuration everything wanted is there, with one command of each of the three kinds ... */
  lemma ReadyAfterwards(d: Desired, st: State)
    requires Accepted(d, st) && Separate(d)
    ensures Ready(d, Applied(d, st))
  {
    SecondRenderIsEmpty(d, st);
    PreservedIffReady(d, Applied(d, st));
  }

  /** ... and what the forward template writes and the renderer does not read: the L3VNI and `rd auto` of each VRF, ... */
  lemma VrfWritten(d: Desired, st: State, l3: L3)
    requires Separate(d) && l3 in d.l3vnis
    ensures var after := Forward(st, d).vrfs;
      l3.vrf in after && after[l3.vrf].l3vni == Some(l3.vni) && after[l3.vrf].rd == Some("auto")
  {
    var i :| 0 <= i < |d.l3vnis| && d.l3vnis[i] == l3;
    ForwardVrf(d, st, i);
  }

  /** ... `rd auto` and the route targets of each VNI under `evpn`, and an SVI that is up and described. */
  lemma EvpnAndSviWritten(d: Desired, st: State, l2: L2)
    requires Separate(d) && l2 in d.l2vnis
    ensures var after := Forward(st, d).evpn;
      && l2.vni in after && after[l2.vni].rd == Some("auto")
      && "route-target import auto" in after[l2.vni].targets && "route-target export auto" in after[l2.vni].targets
    ensures var after := Forward(st, d).svis;
      l2.svi.Some? ==> (
        && l2.vlan in after && after[l2.vlan].extras.up
        && (l2.vlanName != "" ==> after[l2.vlan].extras.description == Some(l2.vlanName))
        && (l2.svi.value.ipv4 != [] ==> !after[l2.vlan].extras.ipRedirects)
        && (l2.svi.value.ipv6 != [] ==> !after[l2.vlan].extras.ipv6Redirects))
  {
    var i :| 0 <= i < |d.l2vnis| && d.l2vnis[i] == l2;
    ForwardVlan(d, st, i);
    assert l2.vni in L2Vnis(d);
  }

  // ------------------------------------------------- what "preserve" overlooks

  /** An existing VRF has its L3VNI and `rd auto`. */
  predicate VrfInPlace(st: State, l3: L3) {
    l3.vrf in st.vrfs ==> st.vrfs[l3.vrf].l3vni == Some(l3.vni) && st.vrfs[l3.vrf].rd == Some("auto")
  }

  /** Nothing that no flag records is left to configure. */
  ghost predicate InPlace(d: Desired, st: State) {
    && SvisKept(d, st) && EvpnsKept(d, st)
    && (forall i :: 0 <= i < |d.l3vnis| ==> VrfInPlace(st, d.l3vnis[i]))
  }

  /** When every action is "preserve" nothing is sent. The forward template would have changed
      nothing exactly when what no ownership flag records is in place as well. */
  lemma PreserveIsIdle(d: Desired, st: State)
    requires Accepted(d, st) && Separate(d) && AllPreserved(d, st)
    ensures Forward(st, d) == st <==> InPlace(d, st)
  {
    VlansIdle(d, st);
    SvisIdle(d, st);
    VrfsIdle(d, st);
    BgpIdle(d, st);
    NveIdle(d, st);
    EvpnIdle(d, st);
  }

  lemma NveIdle(d: Desired, st: State)
    requires AllPreserved(d, st)
    ensures Forward(st, d).nveL2 == st.nveL2 && Forward(st, d).nveL3 == st.nveL3
  {
    forall i | 0 <= i < |d.l2vnis| ensures d.l2vnis[i].vni in st.nveL2 {
      assert !L2Changes(OwnL2(d.l2vnis[i], st));
    }
    forall i | 0 <= i < |d.l3vnis| ensures d.l3vnis[i].vni in st.nveL3 {
      assert !L3Changes(OwnL3(d.l3vnis[i], st));
    }
  }

  lemma EvpnIdle(d: Desired, st: State)
    requires AllPreserved(d, st)
    ensures EvpnWith(st.evpn, L2Vnis(d)) == st.evpn <==> EvpnsKept(d, st)
  {
    forall i | 0 <= i < |d.l2vnis| ensures d.l2vnis[i].vni in st.evpn {
      assert !L2Changes(OwnL2(d.l2vnis[i], st));
    }
    assert EvpnWith(st.evpn, L2Vnis(d)).Keys == st.evpn.Keys;
    EvpnWithIdle(d, st);
  }

  lemma PreservedTraditional(d: Desired, st: State, l3: L3)
    requires Accepted(d, st) && AllPreserved(d, st) && l3 in Traditional(d.l3vnis)
    ensures !L3Changes(OwnL3(l3, st)) && !L3Refused(l3, st, TraditionalVlanConflict) && !L3Refused(l3, st, TraditionalSviConflict)
  {
    var i :| 0 <= i < |d.l3vnis| && d.l3vnis[i] == l3;
    assert !L3Changes(OwnL3(d.l3vnis[i], st));
  }

  lemma VlansIdle(d: Desired, st: State)
    requires Accepted(d, st) && Separate(d) && AllPreserved(d, st)
    ensures EditAll(st.vlans, VlanEdits(d)) == st.vlans
  {
    var edits, t := VlanEdits(d), Traditional(d.l3vnis);
    forall i | 0 <= i < |edits| ensures edits[i].1(Get(st.vlans, edits[i].0)) == Get(st.vlans, edits[i].0) {
      if i < |t| {
        PreservedTraditional(d, st, t[i]);
      } else {
        assert !L2Changes(OwnL2(d.l2vnis[i - |t|], st));
        assert !L2Refused(d.l2vnis[i - |t|], st, VlanHasOtherVni);
        assert !L2Refused(d.l2vnis[i - |t|], st, VlanHasOtherName);
      }
    }
    EditsIdle(st.vlans, edits);
  }

  lemma SvisIdle(d: Desired, st: State)
    requires Accepted(d, st) && Separate(d) && AllPreserved(d, st)
    ensures EditAll(st.svis, SviEdits(d)) == st.svis <==> SvisKept(d, st)
  {
    var edits, t := SviEdits(d), Traditional(d.l3vnis);
    forall i | 0 <= i < |edits|
      ensures edits[i].1(Get(st.svis, edits[i].0)) == Get(st.svis, edits[i].0) <==> SviKeptAt(d, st, i)
    {
      if i < |t| {
        PreservedTraditional(d, st, t[i]);
        TraditionalSviUndone(t[i], st);
      } else {
        assert !L2Changes(OwnL2(d.l2vnis[i - |t|], st));
        assert !L2Refused(d.l2vnis[i - |t|], st, SviPartlyCompatible);
        SviUndone(d.l2vnis[i - |t|], st);
      }
    }
    SameVlanKeys(d);
    EditsIdle(st.svis, edits);
    SvisKeptAt(d, st);
  }

  lemma VrfsIdle(d: Desired, st: State)
    requires Separate(d) && AllPreserved(d, st)
    ensures EditAll(st.vrfs, VrfEdits(d)) == st.vrfs <==> forall i :: 0 <= i < |d.l3vnis| ==> VrfInPlace(st, d.l3vnis[i])
  {
    var edits := VrfEdits(d);
    forall i | 0 <= i < |edits|
      ensures edits[i].1(Get(st.vrfs, edits[i].0)) == Get(st.vrfs, edits[i].0) <==> VrfInPlace(st, d.l3vnis[i])
    {
      var l3 := d.l3vnis[i];
      assert !L3Changes(OwnL3(l3, st));
      MergeIdle(VrfFamilies(st, l3.vrf), DesiredVrfFamilies(l3));
    }
    EditsIdle(st.vrfs, edits);
  }

  lemma BgpIdle(d: Desired, st: State)
    requires Separate(d) && AllPreserved(d, st)
    ensures EditAll(st.bgpVrfs, BgpEdits(d)) == st.bgpVrfs
  {
    var edits := BgpEdits(d);
    forall i | 0 <= i < |edits| ensures edits[i].1(Get(st.bgpVrfs, edits[i].0)) == Get(st.bgpVrfs, edits[i].0) {
      var l3 := d.l3vnis[i];
      assert !L3Changes(OwnL3(l3, st));
      MergeIdle(BgpFamilies(st, l3.vrf), DesiredBgpFamilies(l3));
    }
    EditsIdle(st.bgpVrfs, edits);
  }

  // ------------------------------------------------- under a PASS conflict report

  ghost predicate VlansDiffer(l3s: seq<L3>) {
    forall i, j :: 0 <= i < j < |l3s| ==> l3s[i].vlan != l3s[j].vlan
  }

  ghost predicate TraditionalVlansDiffer(l3s: seq<L3>) {
    forall i, j :: 0 <= i < j < |l3s| && l3s[i].mode == l3s[j].mode == TraditionalVlanSvi ==> l3s[i].vlan != l3s[j].vlan
  }

  lemma VlansDifferStep(x: L3, more: seq<L3>)
    ensures VlansDiffer([x] + more) <==> VlansDiffer(more) && forall y :: y in more ==> y.vlan != x.vlan
  {
    var t := [x] + more;
    assert forall i :: 0 <= i < |more| ==> more[i] == t[i + 1];
    if VlansDiffer(t) {
      forall y | y in more ensures y.vlan != x.vlan {
        var i :| 0 <= i < |more| && more[i] == y;
        assert t[0].vlan != t[i + 1].vlan;
      }
      forall i, j | 0 <= i < j < |more| ensures more[i].vlan != more[j].vlan {
        assert t[i + 1].vlan != t[j + 1].vlan;
      }
    }
  }

  lemma TraditionalVlansDifferStep(x: L3, rest: seq<L3>)
    ensures TraditionalVlansDiffer([x] + rest) <==>
      && TraditionalVlansDiffer(rest)
      && (x.mode == TraditionalVlanSvi ==> forall y :: y in rest && y.mode == TraditionalVlanSvi ==> y.vlan != x.vlan)
  {
    var t := [x] + rest;
    assert forall i :: 0 <= i < |rest| ==> rest[i] == t[i + 1];
    if TraditionalVlansDiffer(t) {
      forall y | y in rest && y.mode == x.mode == TraditionalVlanSvi ensures y.vlan != x.vlan {
        var i :| 0 <= i < |rest| && rest[i] == y;
        assert t[0].vlan != t[i + 1].vlan;
      }
      forall i, j | 0 <= i < j < |rest| && rest[i].mode == rest[j].mode == TraditionalVlanSvi
        ensures rest[i].vlan != rest[j].vlan
      {
        assert t[i + 1].vlan != t[j + 1].vlan;
      }
    }
  }

  lemma {:induction false} TraditionalDiffer(l3s: seq<L3>)
    ensures VlansDiffer(Traditional(l3s)) <==> TraditionalVlansDiffer(l3s)
  {
    if l3s != [] {
      var x, rest := l3s[0], l3s[1..];
      TraditionalDiffer(rest);
      assert l3s == [x] + rest;
      TraditionalVlansDifferStep(x, rest);
      TraditionalStep(x, rest);
      if x.mode == TraditionalVlanSvi {
        VlansDifferStep(x, Traditional(rest));
      }
    }
  }

  lemma TraditionalStep(x: L3, rest: seq<L3>)
    ensures Traditional([x] + rest) == (if x.mode == TraditionalVlanSvi then [x] else []) + Traditional(rest)
    ensures x.mode != TraditionalVlanSvi ==> Traditional([x] + rest) == Traditional(rest)
  {
    assert ([x] + rest)[1..] == rest;
  }

  /** Where the VLAN edits of the two kinds of resources are. */
  lemma VlanKeys(d: Desired)
    ensures var (t, edits) := (Traditional(d.l3vnis), VlanEdits(d));
      && |edits| == |t| + |d.l2vnis|
      && (forall i :: 0 <= i < |t| ==> edits[i].0 == t[i].vlan)
      && (forall i :: |t| <= i < |edits| ==> edits[i].0 == d.l2vnis[i - |t|].vlan)
  {}

  lemma SeparateIsApart(d: Desired)
    requires DistinctKeys(VlanEdits(d))
    ensures TraditionalApart(d)
  {
    var t, edits := Traditional(d.l3vnis), VlanEdits(d);
    VlanKeys(d);
    TraditionalDiffer(d.l3vnis);
    forall l3, l2 | l3 in d.l3vnis && l3.mode == TraditionalVlanSvi && l2 in d.l2vnis ensures l3.vlan != l2.vlan {
      assert l3 in t;
      var i, k :| 0 <= i < |t| && t[i] == l3 && 0 <= k < |d.l2vnis| && d.l2vnis[k] == l2;
      assert edits[i].0 != edits[|t| + k].0;
    }
    forall i, j | 0 <= i < j < |t| ensures t[i].vlan != t[j].vlan {
      assert edits[i].0 != edits[j].0;
    }
  }

  lemma ApartIsSeparate(d: Desired)
    requires forall i, j :: 0 <= i < j < |d.l2vnis| ==> d.l2vnis[i].vlan != d.l2vnis[j].vlan
    requires TraditionalApart(d)
    ensures DistinctKeys(VlanEdits(d))
  {
    var t, edits := Traditional(d.l3vnis), VlanEdits(d);
    VlanKeys(d);
    TraditionalDiffer(d.l3vnis);
    assert TraditionalVlansDiffer(d.l3vnis);
    forall i, j | 0 <= i < j < |edits| ensures edits[i].0 != edits[j].0 {
      if i < |t| <= j {
        assert t[i] in t && d.l2vnis[j - |t|] in d.l2vnis;
      }
    }
  }

  /** PASS separates the resources exactly when it keeps the VLANs of traditional L3VNIs apart, which it does not check ... */
  lemma PassSeparates(d: Desired, st: State, parse: Parser)
    requires ParsesValid(parse) && HostClean(d, st, parse)
    ensures Separate(d) <==> TraditionalApart(d)
  {
    CleanVlans(d, st, parse);
    CleanVrfs(d, st, parse);
    forall i, j | 0 <= i < j < |d.l2vnis| ensures d.l2vnis[i].vlan != d.l2vnis[j].vlan {
      assert VlanPairs(d)[i].0 != VlanPairs(d)[j].0;
    }
    if Separate(d) {
      SeparateIsApart(d);
    }
    if TraditionalApart(d) {
      ApartIsSeparate(d);
    }
    forall i, j | 0 <= i < j < |d.l3vnis| ensures d.l3vnis[i].vrf != d.l3vnis[j].vrf {
      assert VrfPairs(d)[i].0 != VrfPairs(d)[j].0;
    }
  }

  /** ... and leaves the renderer only these reasons to refuse. */
  lemma PassExcludesRefusals(d: Desired, st: State, parse: Parser)
    requires ParsesValid(parse) && HostClean(d, st, parse)
    ensures forall l2, e :: l2 in d.l2vnis && L2Refused(l2, st, e) ==> e == VlanHasOtherName
    ensures forall l3, e :: l3 in d.l3vnis && L3Refused(l3, st, e) ==>
      e == BgpCommandsConflict || (l3.mode == TraditionalVlanSvi && (e == TraditionalVlanConflict || e == TraditionalSviConflict))
  {
    forall l2, e | l2 in d.l2vnis && L2Refused(l2, st, e) ensures e == VlanHasOtherName {
      var i :| 0 <= i < |d.l2vnis| && d.l2vnis[i] == l2;
      NoL2Conflict(d, st, parse, i, Check(VlanResource(l2.vlan), VlanMappedToOtherL2Vni));
      NoL2Conflict(d, st, parse, i, Check(L2VniResource(l2.vni), L2VniMappedToOtherVlan));
      NoL2Conflict(d, st, parse, i, Check(SviResource(l2.vlan), SviAttributeConflict));
    }
    forall l3, e | l3 in d.l3vnis && L3Refused(l3, st, e)
      ensures e == BgpCommandsConflict || (l3.mode == TraditionalVlanSvi && (e == TraditionalVlanConflict || e == TraditionalSviConflict))
    {
      var i :| 0 <= i < |d.l3vnis| && d.l3vnis[i] == l3;
      NoL3Conflict(d, st, parse, i, Check(VrfResource(l3.vrf), VrfMappedToOtherL3Vni));
    }
  }
}
