// alred/overlay_render.py, render_changeset: refusals, ownership flags and
// actions of one device; and the effect of the two configurations that the
// templates in alred/j2 print from them.
module OverlayRender {
  import opened OverlayModel

  datatype L2Ownership = L2Ownership(vlanNew: bool, mappingNew: bool, nameNew: bool, sviNew: bool, nveNew: bool, evpnNew: bool)

  /** The added commands are listed by address family. */
  datatype L3Ownership = L3Ownership(vrfNew: bool, nveNew: bool, bgpVrfNew: bool,
                                     bgpAdded: Families, vrfAfAdded: Families,
                                     vlanNew: bool, vlanMappingNew: bool, sviNew: bool)

  datatype RenderError =
    | L2VniOnAnotherVlan | VlanHasOtherVni | VlanHasOtherName | SviPartlyCompatible
    | VrfHasOtherL3Vni | BgpCommandsConflict | TraditionalVlanConflict | TraditionalSviConflict

  datatype Action = Create | Preserve

  /** The render model and `no_change`, or the first refusal. */
  datatype Rendered =
    | Rendered(l2Owned: seq<L2Ownership>, l3Owned: seq<L3Ownership>, actions: seq<Action>, noChange: bool)
    | Refused(error: RenderError)

  // ------------------------------------------------------ the commands of an L3VNI

  const DesiredRouteTargets := {"route-target both auto", "route-target both auto evpn"}

  function BgpCommands(af: AddressFamily): set<string> {
    {"advertise l2vpn evpn",
     "redistribute direct route-map " + af.directMap,
     "redistribute static route-map " + af.staticMap,
     "maximum-paths ibgp " + af.maximumPaths}
  }

  /** Commands that exclude another value of the same kind. */
  predicate Exclusive(command: string) {
    "redistribute direct " <= command || "redistribute static " <= command || "maximum-paths ibgp " <= command
  }

  function DesiredVrfFamilies(l3: L3): Families {
    map af | af in l3.afs :: DesiredRouteTargets
  }

  function DesiredBgpFamilies(l3: L3): Families {
    map af | af in l3.afs :: BgpCommands(l3.afs[af])
  }

  function VrfFamilies(st: State, vrf: string): Families {
    if vrf in st.vrfs then st.vrfs[vrf].afs else map[]
  }

  function BgpFamilies(st: State, vrf: string): Families {
    if vrf in st.bgpVrfs then st.bgpVrfs[vrf] else map[]
  }

  /** The wanted commands that are not there, for each wanted address family. */
  function Missing(want: Families, have: Families): Families {
    map af | af in want :: want[af] - CommandsIn(have, af)
  }

  predicate AnyCommand(families: Families) {
    exists af :: af in families && families[af] != {}
  }

  // ------------------------------------------------------------------ one L2VNI

  function OwnL2(l2: L2, st: State): L2Ownership {
    var exists_ := l2.vlan in st.vlans;
    L2Ownership(
      !exists_,
      exists_ && st.vlans[l2.vlan].vni == None,
      exists_ && l2.vlanName != "" && st.vlans[l2.vlan].name == None,
      l2.vlan !in st.svis && l2.svi.Some?,
      l2.vni !in st.nveL2,
      l2.vni !in st.evpn)
  }

  predicate L2Changes(o: L2Ownership) {
    o.vlanNew || o.mappingNew || o.nameNew || o.sviNew || o.nveNew || o.evpnNew
  }

  ghost predicate L2Refused(l2: L2, st: State, e: RenderError) {
    match e
    case L2VniOnAnotherVlan =>
      && (exists v :: v in st.vlans && st.vlans[v].vni == Some(l2.vni))
      && !(l2.vlan in st.vlans && st.vlans[l2.vlan].vni == Some(l2.vni))
    case VlanHasOtherVni => l2.vlan in st.vlans && st.vlans[l2.vlan].vni !in {None, Some(l2.vni)}
    case VlanHasOtherName =>
      l2.vlan in st.vlans && l2.vlanName != "" && st.vlans[l2.vlan].name !in {None, Some(l2.vlanName)}
    case SviPartlyCompatible =>
      l2.vlan in st.svis && l2.svi.Some? && !SviMatches(st.svis[l2.vlan], l2.svi.value, l2.vrf)
    case _ => false
  }

  method RenderL2(l2: L2, st: State) returns (error: Option<RenderError>, own: L2Ownership)
    ensures error.Some? ==> L2Refused(l2, st, error.value)
    ensures error.None? ==> forall e :: !L2Refused(l2, st, e)
    ensures own == OwnL2(l2, st)
  {
    own := OwnL2(l2, st);
    var vniVlans := set v | v in st.vlans && st.vlans[v].vni == Some(l2.vni);
    assert forall v :: v in vniVlans <==> v in st.vlans && st.vlans[v].vni == Some(l2.vni);
    if (exists v :: v in vniVlans) && l2.vlan !in vniVlans {
      return Some(L2VniOnAnotherVlan), own;
    }
    if l2.vlan in st.vlans && st.vlans[l2.vlan].vni !in {None, Some(l2.vni)} {
      return Some(VlanHasOtherVni), own;
    }
    if l2.vlan in st.vlans && l2.vlanName != "" && st.vlans[l2.vlan].name !in {None, Some(l2.vlanName)} {
      return Some(VlanHasOtherName), own;
    }
    if l2.vlan in st.svis && l2.svi.Some? && !SviMatches(st.svis[l2.vlan], l2.svi.value, l2.vrf) {
      return Some(SviPartlyCompatible), own;
    }
    error := None;
  }

  // ------------------------------------------------------------------ one L3VNI

  function OwnL3(l3: L3, st: State): L3Ownership {
    var traditional := l3.mode == TraditionalVlanSvi;
    L3Ownership(
      l3.vrf !in st.vrfs,
      l3.vni !in st.nveL3,
      l3.vrf !in st.bgpVrfs,
      Missing(DesiredBgpFamilies(l3), BgpFamilies(st, l3.vrf)),
      Missing(DesiredVrfFamilies(l3), VrfFamilies(st, l3.vrf)),
      traditional && l3.vlan !in st.vlans,
      traditional && l3.vlan in st.vlans && st.vlans[l3.vlan].vni == None,
      traditional && l3.vlan !in st.svis)
  }

  predicate L3Changes(o: L3Ownership) {
    o.vrfNew || o.nveNew || o.bgpVrfNew || AnyCommand(o.bgpAdded) || AnyCommand(o.vrfAfAdded)
    || o.vlanNew || o.vlanMappingNew || o.sviNew
  }

  predicate TraditionalSviMatches(existing: SviState, l3: L3) {
    existing.ipForward && existing.vrf == Some(l3.vrf) && existing.mtu == Some(l3.mtu)
  }

  ghost predicate L3Refused(l3: L3, st: State, e: RenderError) {
    match e
    case VrfHasOtherL3Vni => l3.vrf in st.vrfs && st.vrfs[l3.vrf].l3vni !in {None, Some(l3.vni)}
    case BgpCommandsConflict =>
      exists af, c :: af in l3.afs && c in CommandsIn(BgpFamilies(st, l3.vrf), af) && Exclusive(c) && c !in BgpCommands(l3.afs[af])
    case TraditionalVlanConflict =>
      l3.mode == TraditionalVlanSvi && l3.vlan in st.vlans && st.vlans[l3.vlan].vni !in {None, Some(l3.vni)}
    case TraditionalSviConflict =>
      l3.mode == TraditionalVlanSvi && l3.vlan in st.svis && !TraditionalSviMatches(st.svis[l3.vlan], l3)
    case _ => false
  }

  method RenderL3(l3: L3, st: State) returns (error: Option<RenderError>, own: L3Ownership)
    ensures error.Some? ==> L3Refused(l3, st, error.value)
    ensures error.None? ==> forall e :: !L3Refused(l3, st, e)
    ensures own == OwnL3(l3, st)
  {
    own := OwnL3(l3, st);
    if l3.vrf in st.vrfs && st.vrfs[l3.vrf].l3vni !in {None, Some(l3.vni)} {
      return Some(VrfHasOtherL3Vni), own;
    }
    var families := BgpFamilies(st, l3.vrf);
    var conflicting := set af, c | af in l3.afs && c in CommandsIn(families, af)
      && Exclusive(c) && c !in BgpCommands(l3.afs[af]) :: (af, c);
    if conflicting != {} {
      ghost var p :| p in conflicting;
      return Some(BgpCommandsConflict), own;
    }
    forall af, c | af in l3.afs && c in CommandsIn(families, af) ensures !Exclusive(c) || c in BgpCommands(l3.afs[af]) {
      assert (af, c) !in conflicting;
    }
    if l3.mode == TraditionalVlanSvi {
      if l3.vlan in st.vlans && st.vlans[l3.vlan].vni !in {None, Some(l3.vni)} {
        return Some(TraditionalVlanConflict), own;
      }
      if l3.vlan in st.svis && !TraditionalSviMatches(st.svis[l3.vlan], l3) {
        return Some(TraditionalSviConflict), own;
      }
    }
    error := None;
  }

  // ------------------------------------------------------------------ one device

  ghost predicate Accepted(d: Desired, st: State) {
    && (forall i, e :: 0 <= i < |d.l2vnis| ==> !L2Refused(d.l2vnis[i], st, e))
    && (forall i, e :: 0 <= i < |d.l3vnis| ==> !L3Refused(d.l3vnis[i], st, e))
  }

  /** Nothing would be created. */
  ghost predicate AllPreserved(d: Desired, st: State) {
    && (forall i :: 0 <= i < |d.l2vnis| ==> !L2Changes(OwnL2(d.l2vnis[i], st)))
    && (forall i :: 0 <= i < |d.l3vnis| ==> !L3Changes(OwnL3(d.l3vnis[i], st)))
  }

  // ------------------------------------------------- what is accepted, and what is there

  /** There is nothing yet, or what is wanted. */
  predicate Free<T(==)>(was: Option<T>, wanted: T) {
    was.None? || was.value == wanted
  }

  /** All commands of this kind are the wanted one. */
  ghost predicate Only(have: set<string>, kind: string, wanted: string) {
    forall c :: c in have && kind <= c ==> c == wanted
  }

  ghost predicate OnlyOneOfEachKind(have: set<string>, af: AddressFamily) {
    && Only(have, "redistribute direct ", "redistribute direct route-map " + af.directMap)
    && Only(have, "redistribute static ", "redistribute static route-map " + af.staticMap)
    && Only(have, "maximum-paths ibgp ", "maximum-paths ibgp " + af.maximumPaths)
  }

  /** The observed state leaves room for the L2VNI: VLAN and name are free or as wanted, the VNI is on no other
      VLAN unless it is on this one too, and an existing SVI has all that is wanted of it. */
  ghost predicate L2Fits(l2: L2, st: State) {
    && (l2.vlan in st.vlans ==>
          Free(st.vlans[l2.vlan].vni, l2.vni) && (l2.vlanName != "" ==> Free(st.vlans[l2.vlan].name, l2.vlanName)))
    && (forall v :: v in st.vlans && st.vlans[v].vni == Some(l2.vni) ==>
          l2.vlan in st.vlans && st.vlans[l2.vlan].vni == Some(l2.vni))
    && SviSettled(l2, st)
  }

  ghost predicate L3Fits(l3: L3, st: State) {
    && (l3.vrf in st.vrfs ==> Free(st.vrfs[l3.vrf].l3vni, l3.vni))
    && (forall af :: af in l3.afs && l3.vrf in st.bgpVrfs && af in st.bgpVrfs[l3.vrf] ==>
          OnlyOneOfEachKind(st.bgpVrfs[l3.vrf][af], l3.afs[af]))
    && (l3.mode == TraditionalVlanSvi ==>
          && (l3.vlan in st.vlans ==> Free(st.vlans[l3.vlan].vni, l3.vni))
          && (l3.vlan in st.svis ==>
                st.svis[l3.vlan].ipForward && st.svis[l3.vlan].vrf == Some(l3.vrf) && st.svis[l3.vlan].mtu == Some(l3.mtu)))
  }

  ghost predicate Fits(d: Desired, st: State) {
    (forall l2 :: l2 in d.l2vnis ==> L2Fits(l2, st)) && forall l3 :: l3 in d.l3vnis ==> L3Fits(l3, st)
  }

  /** All that is wanted and that the renderer can read is there. */
  ghost predicate L2Ready(l2: L2, st: State) {
    && l2.vlan in st.vlans && st.vlans[l2.vlan].vni == Some(l2.vni)
    && (l2.vlanName != "" ==> st.vlans[l2.vlan].name == Some(l2.vlanName))
    && (l2.svi.Some? ==> l2.vlan in st.svis) && SviSettled(l2, st)
    && l2.vni in st.nveL2 && l2.vni in st.evpn
  }

  /** The L3VNI of an existing VRF is not part of it. */
  ghost predicate L3Ready(l3: L3, st: State) {
    && l3.vrf in st.vrfs && Free(st.vrfs[l3.vrf].l3vni, l3.vni) && l3.vni in st.nveL3 && l3.vrf in st.bgpVrfs
    && (forall af :: af in l3.afs ==> FamilyReady(l3.afs[af], af, st.vrfs[l3.vrf].afs, st.bgpVrfs[l3.vrf]))
    && (l3.mode == TraditionalVlanSvi ==>
          && l3.vlan in st.vlans && st.vlans[l3.vlan].vni == Some(l3.vni)
          && l3.vlan in st.svis && st.svis[l3.vlan].ipForward
          && st.svis[l3.vlan].vrf == Some(l3.vrf) && st.svis[l3.vlan].mtu == Some(l3.mtu))
  }

  /** One address family: both route targets, the four BGP commands and no other of the three kinds. */
  ghost predicate FamilyReady(wanted: AddressFamily, af: string, vrf: Families, bgp: Families) {
    && af in vrf && "route-target both auto" in vrf[af] && "route-target both auto evpn" in vrf[af]
    && af in bgp && "advertise l2vpn evpn" in bgp[af]
    && "redistribute direct route-map " + wanted.directMap in bgp[af]
    && "redistribute static route-map " + wanted.staticMap in bgp[af]
    && "maximum-paths ibgp " + wanted.maximumPaths in bgp[af]
    && OnlyOneOfEachKind(bgp[af], wanted)
  }

  ghost predicate Ready(d: Desired, st: State) {
    (forall l2 :: l2 in d.l2vnis ==> L2Ready(l2, st)) && forall l3 :: l3 in d.l3vnis ==> L3Ready(l3, st)
  }

  lemma L2FitsIff(l2: L2, st: State)
    ensures (forall e :: !L2Refused(l2, st, e)) <==> L2Fits(l2, st)
  {
    if forall e :: !L2Refused(l2, st, e) {
      assert !L2Refused(l2, st, L2VniOnAnotherVlan) && !L2Refused(l2, st, VlanHasOtherVni);
      assert !L2Refused(l2, st, VlanHasOtherName) && !L2Refused(l2, st, SviPartlyCompatible);
    }
  }

  lemma L2ReadyIff(l2: L2, st: State)
    ensures L2Fits(l2, st) && !L2Changes(OwnL2(l2, st)) <==> L2Ready(l2, st)
  {}

  /** The three kinds tell the four wanted commands apart. */
  lemma KindsTellApart(a: string, s: string, m: string)
    ensures "redistribute direct " <= "redistribute direct route-map " + a
    ensures "redistribute static " <= "redistribute static route-map " + s
    ensures "maximum-paths ibgp " <= "maximum-paths ibgp " + m
    ensures !("redistribute direct " <= "redistribute static route-map " + s) && !("redistribute direct " <= "maximum-paths ibgp " + m)
    ensures !("redistribute static " <= "redistribute direct route-map " + a) && !("redistribute static " <= "maximum-paths ibgp " + m)
    ensures !("maximum-paths ibgp " <= "redistribute direct route-map " + a) && !("maximum-paths ibgp " <= "redistribute static route-map " + s)
    ensures !("redistribute direct " <= "advertise l2vpn evpn") && !("redistribute static " <= "advertise l2vpn evpn")
    ensures !("maximum-paths ibgp " <= "advertise l2vpn evpn")
  {
    assert "redistribute direct "[13] == 'd' && "redistribute static "[13] == 's' && "maximum-paths ibgp "[0] == 'm';
    assert ("redistribute direct route-map " + a)[13] == 'd' && ("redistribute static route-map " + s)[13] == 's';
    assert ("maximum-paths ibgp " + m)[0] == 'm' && "advertise l2vpn evpn"[0] == 'a';
  }

  lemma NoConflictIff(have: set<string>, af: AddressFamily)
    ensures (forall c :: c in have && Exclusive(c) ==> c in BgpCommands(af)) <==> OnlyOneOfEachKind(have, af)
  {
    KindsTellApart(af.directMap, af.staticMap, af.maximumPaths);
  }

  lemma CommandsFitIff(l3: L3, st: State)
    ensures !L3Refused(l3, st, BgpCommandsConflict) <==> forall af ::
      af in l3.afs && l3.vrf in st.bgpVrfs && af in st.bgpVrfs[l3.vrf] ==> OnlyOneOfEachKind(st.bgpVrfs[l3.vrf][af], l3.afs[af])
  {
    var families := BgpFamilies(st, l3.vrf);
    forall af | af in l3.afs
      ensures (forall c :: c in CommandsIn(families, af) && Exclusive(c) ==> c in BgpCommands(l3.afs[af])) <==>
              OnlyOneOfEachKind(CommandsIn(families, af), l3.afs[af])
    {
      NoConflictIff(CommandsIn(families, af), l3.afs[af]);
    }
    if !L3Refused(l3, st, BgpCommandsConflict) {
      forall af, c | af in l3.afs && c in CommandsIn(families, af) && Exclusive(c) ensures c in BgpCommands(l3.afs[af]) {}
    }
    if forall af :: af in l3.afs ==> OnlyOneOfEachKind(CommandsIn(families, af), l3.afs[af]) {
      assert !L3Refused(l3, st, BgpCommandsConflict);
    }
    assert forall af :: l3.vrf in st.bgpVrfs && af in st.bgpVrfs[l3.vrf] ==> CommandsIn(families, af) == st.bgpVrfs[l3.vrf][af];
    assert forall af :: !(l3.vrf in st.bgpVrfs && af in st.bgpVrfs[l3.vrf]) ==> CommandsIn(families, af) == {};
  }

  lemma FreeIs(was: Option<int>, n: int)
    ensures was in {None, Some(n)} <==> Free(was, n)
  {}

  /** The other three reasons to refuse an L3VNI. */
  lemma MappingsFitIff(l3: L3, st: State)
    ensures !L3Refused(l3, st, VrfHasOtherL3Vni) <==> (l3.vrf in st.vrfs ==> Free(st.vrfs[l3.vrf].l3vni, l3.vni))
    ensures !L3Refused(l3, st, TraditionalVlanConflict) && !L3Refused(l3, st, TraditionalSviConflict) <==>
      (l3.mode == TraditionalVlanSvi ==>
        && (l3.vlan in st.vlans ==> Free(st.vlans[l3.vlan].vni, l3.vni))
        && (l3.vlan in st.svis ==>
              st.svis[l3.vlan].ipForward && st.svis[l3.vlan].vrf == Some(l3.vrf) && st.svis[l3.vlan].mtu == Some(l3.mtu)))
  {
    if l3.vrf in st.vrfs {
      FreeIs(st.vrfs[l3.vrf].l3vni, l3.vni);
    }
    if l3.vlan in st.vlans {
      FreeIs(st.vlans[l3.vlan].vni, l3.vni);
    }
  }

  lemma L3FitsIff(l3: L3, st: State)
    ensures (forall e :: !L3Refused(l3, st, e)) <==> L3Fits(l3, st)
  {
    CommandsFitIff(l3, st);
    MappingsFitIff(l3, st);
    FourReasons(l3, st);
  }

  lemma FourReasons(l3: L3, st: State)
    ensures (forall e :: !L3Refused(l3, st, e)) <==>
      && !L3Refused(l3, st, VrfHasOtherL3Vni) && !L3Refused(l3, st, BgpCommandsConflict)
      && !L3Refused(l3, st, TraditionalVlanConflict) && !L3Refused(l3, st, TraditionalSviConflict)
  {
    forall e ensures L3Refused(l3, st, e) ==>
      e in {VrfHasOtherL3Vni, BgpCommandsConflict, TraditionalVlanConflict, TraditionalSviConflict}
    {}
  }

  lemma FamiliesReadyIff(l3: L3, st: State)
    requires l3.vrf in st.vrfs && l3.vrf in st.bgpVrfs && L3Fits(l3, st)
    ensures !AnyCommand(OwnL3(l3, st).bgpAdded) && !AnyCommand(OwnL3(l3, st).vrfAfAdded) <==>
            forall af :: af in l3.afs ==> FamilyReady(l3.afs[af], af, st.vrfs[l3.vrf].afs, st.bgpVrfs[l3.vrf])
  {
    var o, vrf, bgp := OwnL3(l3, st), st.vrfs[l3.vrf].afs, st.bgpVrfs[l3.vrf];
    forall af | af in l3.afs ensures o.bgpAdded[af] == {} && o.vrfAfAdded[af] == {} <==> FamilyReady(l3.afs[af], af, vrf, bgp) {
      FamilyReadyIff(l3, st, af);
    }
    if !AnyCommand(o.bgpAdded) && !AnyCommand(o.vrfAfAdded) {
      assert forall af :: af in l3.afs ==> o.bgpAdded[af] == {} && o.vrfAfAdded[af] == {};
    }
  }

  lemma FamilyReadyIff(l3: L3, st: State, af: string)
    requires l3.vrf in st.vrfs && l3.vrf in st.bgpVrfs && af in l3.afs && L3Fits(l3, st)
    ensures OwnL3(l3, st).bgpAdded[af] == {} && OwnL3(l3, st).vrfAfAdded[af] == {} <==>
            FamilyReady(l3.afs[af], af, st.vrfs[l3.vrf].afs, st.bgpVrfs[l3.vrf])
  {
    var have, wanted := CommandsIn(st.bgpVrfs[l3.vrf], af), l3.afs[af];
    assert OwnL3(l3, st).bgpAdded[af] == BgpCommands(wanted) - have;
    NothingLeft(BgpCommands(wanted), have);
    assert OwnL3(l3, st).vrfAfAdded[af] == DesiredRouteTargets - CommandsIn(st.vrfs[l3.vrf].afs, af);
    NothingLeft(DesiredRouteTargets, CommandsIn(st.vrfs[l3.vrf].afs, af));
  }

  lemma NothingLeft(want: set<string>, have: set<string>)
    ensures want - have == {} <==> want <= have
  {
    if want - have == {} {
      forall c | c in want ensures c in have {
        assert c in want - have <==> c !in have;
      }
    }
  }

  lemma L3ReadyIff(l3: L3, st: State)
    ensures L3Fits(l3, st) && !L3Changes(OwnL3(l3, st)) <==> L3Ready(l3, st)
  {
    if L3Ready(l3, st) {
      assert L3Fits(l3, st);
    }
    if l3.vrf in st.vrfs && l3.vrf in st.bgpVrfs && L3Fits(l3, st) {
      FamiliesReadyIff(l3, st);
    }
  }

  /** Nothing is refused exactly if everything fits ... */
  lemma AcceptedIffFits(d: Desired, st: State)
    ensures Accepted(d, st) <==> Fits(d, st)
  {
    forall i | 0 <= i < |d.l2vnis| ensures (forall e :: !L2Refused(d.l2vnis[i], st, e)) <==> L2Fits(d.l2vnis[i], st) {
      L2FitsIff(d.l2vnis[i], st);
    }
    forall i | 0 <= i < |d.l3vnis| ensures (forall e :: !L3Refused(d.l3vnis[i], st, e)) <==> L3Fits(d.l3vnis[i], st) {
      L3FitsIff(d.l3vnis[i], st);
    }
    assert Fits(d, st) ==> Accepted(d, st);
    if Accepted(d, st) {
      forall i | 0 <= i < |d.l2vnis| ensures L2Fits(d.l2vnis[i], st) {
        assert forall e :: !L2Refused(d.l2vnis[i], st, e);
      }
      forall i | 0 <= i < |d.l3vnis| ensures L3Fits(d.l3vnis[i], st) {
        assert forall e :: !L3Refused(d.l3vnis[i], st, e);
      }
    }
  }

  /** ... and nothing is left to create exactly if everything is there. */
  lemma PreservedIffReady(d: Desired, st: State)
    ensures Accepted(d, st) && AllPreserved(d, st) <==> Ready(d, st)
  {
    AcceptedIffFits(d, st);
    forall i | 0 <= i < |d.l2vnis|
      ensures L2Fits(d.l2vnis[i], st) && !L2Changes(OwnL2(d.l2vnis[i], st)) <==> L2Ready(d.l2vnis[i], st)
    {
      L2ReadyIff(d.l2vnis[i], st);
    }
    forall i | 0 <= i < |d.l3vnis|
      ensures L3Fits(d.l3vnis[i], st) && !L3Changes(OwnL3(d.l3vnis[i], st)) <==> L3Ready(d.l3vnis[i], st)
    {
      L3ReadyIff(d.l3vnis[i], st);
    }
    if Fits(d, st) && AllPreserved(d, st) {
      assert Ready(d, st);
    }
  }

  /** The loop over L2VNIs. */
  method RenderL2s(l2s: seq<L2>, st: State) returns (error: Option<RenderError>, owned: seq<L2Ownership>, actions: seq<Action>)
    ensures error.Some? ==> exists l2 :: l2 in l2s && L2Refused(l2, st, error.value)
    ensures error.None? ==> |owned| == |actions| == |l2s| && forall k, e :: 0 <= k < |l2s| ==> !L2Refused(l2s[k], st, e)
    ensures error.None? ==> forall k :: 0 <= k < |l2s| ==> owned[k] == OwnL2(l2s[k], st)
    ensures error.None? ==> forall k :: 0 <= k < |l2s| ==> (actions[k] == Create <==> L2Changes(owned[k]))
  {
    error, owned, actions := None, [], [];
    for i := 0 to |l2s|
      invariant error.None? && |owned| == |actions| == i
      invariant forall k :: 0 <= k < i ==> owned[k] == OwnL2(l2s[k], st)
      invariant forall k :: 0 <= k < i ==> (actions[k] == Create <==> L2Changes(owned[k]))
      invariant forall k, e :: 0 <= k < i ==> !L2Refused(l2s[k], st, e)
    {
      var own;
      error, own := RenderL2(l2s[i], st);
      if error.Some? {
        assert l2s[i] in l2s;
        return;
      }
      owned := owned + [own];
      actions := actions + [if L2Changes(own) then Create else Preserve];
    }
  }

  /** The loop over L3VNIs. */
  method RenderL3s(l3s: seq<L3>, st: State) returns (error: Option<RenderError>, owned: seq<L3Ownership>, actions: seq<Action>)
    ensures error.Some? ==> exists l3 :: l3 in l3s && L3Refused(l3, st, error.value)
    ensures error.None? ==> |owned| == |actions| == |l3s| && forall k, e :: 0 <= k < |l3s| ==> !L3Refused(l3s[k], st, e)
    ensures error.None? ==> forall k :: 0 <= k < |l3s| ==> owned[k] == OwnL3(l3s[k], st)
    ensures error.None? ==> forall k :: 0 <= k < |l3s| ==> (actions[k] == Create <==> L3Changes(owned[k]))
  {
    error, owned, actions := None, [], [];
    for i := 0 to |l3s|
      invariant error.None? && |owned| == |actions| == i
      invariant forall k :: 0 <= k < i ==> owned[k] == OwnL3(l3s[k], st)
      invariant forall k :: 0 <= k < i ==> (actions[k] == Create <==> L3Changes(owned[k]))
      invariant forall k, e :: 0 <= k < i ==> !L3Refused(l3s[k], st, e)
    {
      var own;
      error, own := RenderL3(l3s[i], st);
      if error.Some? {
        assert l3s[i] in l3s;
        return;
      }
      owned := owned + [own];
      actions := actions + [if L3Changes(own) then Create else Preserve];
    }
  }

  /** The two loops of one device. */
  method RenderResources(d: Desired, st: State) returns (r: Rendered)
    ensures r.Rendered? <==> Accepted(d, st)
    ensures r.Refused? ==>
      (exists l2 :: l2 in d.l2vnis && L2Refused(l2, st, r.error)) ||
      (exists l3 :: l3 in d.l3vnis && L3Refused(l3, st, r.error))
    ensures r.Rendered? ==> |r.l2Owned| == |d.l2vnis| && |r.l3Owned| == |d.l3vnis|
    ensures r.Rendered? ==> forall i :: 0 <= i < |d.l2vnis| ==> r.l2Owned[i] == OwnL2(d.l2vnis[i], st)
    ensures r.Rendered? ==> forall i :: 0 <= i < |d.l3vnis| ==> r.l3Owned[i] == OwnL3(d.l3vnis[i], st)
    ensures r.Rendered? ==> |r.actions| == |d.l2vnis| + |d.l3vnis|
    ensures r.Rendered? ==> forall i :: 0 <= i < |d.l2vnis| ==> (r.actions[i] == Create <==> L2Changes(r.l2Owned[i]))
    ensures r.Rendered? ==> forall i :: |d.l2vnis| <= i < |r.actions| ==>
      (r.actions[i] == Create <==> L3Changes(r.l3Owned[i - |d.l2vnis|]))
    ensures r.Rendered? ==> (r.noChange <==> AllPreserved(d, st))
  {
    var error, l2Owned, l2Actions := RenderL2s(d.l2vnis, st);
    if error.Some? {
      return Refused(error.value);
    }
    var l3Owned, l3Actions;
    error, l3Owned, l3Actions := RenderL3s(d.l3vnis, st);
    if error.Some? {
      return Refused(error.value);
    }
    var noChange := (forall k :: 0 <= k < |l2Actions| ==> l2Actions[k] == Preserve)
                 && (forall k :: 0 <= k < |l3Actions| ==> l3Actions[k] == Preserve);
    r := Rendered(l2Owned, l3Owned, l2Actions + l3Actions, noChange);
  }

  method RenderDevice(d: Desired, st: State) returns (r: Rendered)
    ensures r.Rendered? <==> Accepted(d, st)
    ensures r.Refused? ==>
      (exists l2 :: l2 in d.l2vnis && L2Refused(l2, st, r.error)) ||
      (exists l3 :: l3 in d.l3vnis && L3Refused(l3, st, r.error))
    ensures r.Rendered? ==> |r.l2Owned| == |d.l2vnis| && |r.l3Owned| == |d.l3vnis|
    ensures r.Rendered? ==> forall i :: 0 <= i < |d.l2vnis| ==> r.l2Owned[i] == OwnL2(d.l2vnis[i], st)
    ensures r.Rendered? ==> forall i :: 0 <= i < |d.l3vnis| ==> r.l3Owned[i] == OwnL3(d.l3vnis[i], st)
    ensures r.Rendered? ==> |r.actions| == |d.l2vnis| + |d.l3vnis|
    ensures r.Rendered? ==> forall i :: 0 <= i < |d.l2vnis| ==> (r.actions[i] == Create <==> L2Changes(r.l2Owned[i]))
    ensures r.Rendered? ==> forall i :: |d.l2vnis| <= i < |r.actions| ==>
      (r.actions[i] == Create <==> L3Changes(r.l3Owned[i - |d.l2vnis|]))
    ensures r.Rendered? ==> (r.noChange <==> AllPreserved(d, st))
    ensures r.Rendered? <==> Fits(d, st)
    ensures r.Rendered? && r.noChange <==> Ready(d, st)
  {
    AcceptedIffFits(d, st);
    PreservedIffReady(d, st);
    r := RenderResources(d, st);
  }
}
