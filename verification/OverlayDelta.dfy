// The `_ownership` flags of alred/overlay_render.py as a delta: the facts about
// a device that its forward configuration adds, and that the rollback may remove.
module OverlayDelta {
  import opened OverlayModel
  import opened OverlayConflict
  import opened OverlayMerge
  import opened OverlayRender
  import opened OverlayEffect

  /** What the renderer can read in a running configuration. */
  datatype Fact =
    | VlanPresent(vlan: int) | VlanMapped(vlan: int, vni: int) | VlanNamed(vlan: int, name: string)
    | SviSeen(vlan: int, svi: SviState)
    | NveL2Member(vni: int) | NveL3Member(vni: int) | EvpnPresent(vni: int)
    | VrfPresent(vrf: string) | VrfMapped(vrf: string, vni: int) | VrfCommand(vrf: string, af: string, command: string)
    | BgpVrfPresent(vrf: string) | BgpCommand(vrf: string, af: string, command: string)

  /** An SVI without the attributes that the renderer does not compare. */
  function Seen(svi: SviState): SviState {
    svi.(extras := NoSvi.extras)
  }

  predicate Holds(st: State, f: Fact) {
    match f
    case VlanPresent(v) => v in st.vlans
    case VlanMapped(v, n) => v in st.vlans && st.vlans[v].vni == Some(n)
    case VlanNamed(v, n) => v in st.vlans && st.vlans[v].name == Some(n)
    case SviSeen(v, s) => v in st.svis && s == Seen(st.svis[v])
    case NveL2Member(n) => n in st.nveL2
    case NveL3Member(n) => n in st.nveL3
    case EvpnPresent(n) => n in st.evpn
    case VrfPresent(v) => v in st.vrfs
    case VrfMapped(v, n) => v in st.vrfs && st.vrfs[v].l3vni == Some(n)
    case VrfCommand(v, af, c) => c in CommandsIn(VrfFamilies(st, v), af)
    case BgpVrfPresent(v) => v in st.bgpVrfs
    case BgpCommand(v, af, c) => c in CommandsIn(BgpFamilies(st, v), af)
  }

  ghost function Facts(st: State): iset<Fact> {
    iset f | Holds(st, f)
  }

  // ------------------------------------------------------------------ the deltas

  /** The flags of an L2VNI claim this fact. */
  predicate L2Owns(l2: L2, o: L2Ownership, f: Fact) {
    match f
    case VlanPresent(v) => v == l2.vlan && o.vlanNew
    case VlanMapped(v, n) => v == l2.vlan && n == l2.vni && (o.vlanNew || o.mappingNew)
    case VlanNamed(v, n) => v == l2.vlan && n == l2.vlanName && n != "" && (o.vlanNew || o.nameNew)
    case SviSeen(v, s) => v == l2.vlan && o.sviNew && SetSvi(l2)(None).Some? && s == Seen(SetSvi(l2)(None).value)
    case NveL2Member(n) => n == l2.vni && o.nveNew
    case EvpnPresent(n) => n == l2.vni && o.evpnNew
    case _ => false
  }

  predicate L3Owns(l3: L3, o: L3Ownership, f: Fact) {
    match f
    case VlanPresent(v) => v == l3.vlan && o.vlanNew
    case VlanMapped(v, n) => v == l3.vlan && n == l3.vni && (o.vlanNew || o.vlanMappingNew)
    case SviSeen(v, s) => v == l3.vlan && o.sviNew && s == Seen(SetTraditionalSvi(l3)(None).value)
    case NveL3Member(n) => n == l3.vni && o.nveNew
    case VrfPresent(v) => v == l3.vrf && o.vrfNew
    case VrfMapped(v, n) => v == l3.vrf && n == l3.vni && o.vrfNew
    case VrfCommand(v, af, c) => v == l3.vrf && c in CommandsIn(o.vrfAfAdded, af)
    case BgpVrfPresent(v) => v == l3.vrf && o.bgpVrfNew
    case BgpCommand(v, af, c) => v == l3.vrf && c in CommandsIn(o.bgpAdded, af)
    case _ => false
  }

  ghost function DeltaL2(l2: L2, o: L2Ownership): iset<Fact> {
    iset f | L2Owns(l2, o, f)
  }

  ghost function DeltaL3(l3: L3, o: L3Ownership): iset<Fact> {
    iset f | L3Owns(l3, o, f)
  }

  ghost predicate Owned(d: Desired, st: State, f: Fact) {
    || (exists l2 :: l2 in d.l2vnis && L2Owns(l2, OwnL2(l2, st), f))
    || (exists l3 :: l3 in d.l3vnis && L3Owns(l3, OwnL3(l3, st), f))
  }

  /** The deltas of all resources together. */
  ghost function Delta(d: Desired, st: State): iset<Fact> {
    iset f | Owned(d, st, f)
  }

  /** The delta of each resource has nothing in common with that of any other. */
  ghost predicate DeltasDisjoint(d: Desired, st: State) {
    && (forall i, j :: 0 <= i < j < |d.l2vnis| ==>
          DeltaL2(d.l2vnis[i], OwnL2(d.l2vnis[i], st)) !! DeltaL2(d.l2vnis[j], OwnL2(d.l2vnis[j], st)))
    && (forall i, j :: 0 <= i < j < |d.l3vnis| ==>
          DeltaL3(d.l3vnis[i], OwnL3(d.l3vnis[i], st)) !! DeltaL3(d.l3vnis[j], OwnL3(d.l3vnis[j], st)))
    && (forall l2, l3 :: l2 in d.l2vnis && l3 in d.l3vnis ==> DeltaL2(l2, OwnL2(l2, st)) !! DeltaL3(l3, OwnL3(l3, st)))
  }

  // ------------------------------------------------------- nothing owned was there

  lemma L2OwnedIsNew(l2: L2, st: State, f: Fact)
    requires L2Owns(l2, OwnL2(l2, st), f)
    ensures !Holds(st, f)
  {}

  lemma L3OwnedIsNew(l3: L3, st: State, f: Fact)
    requires L3Owns(l3, OwnL3(l3, st), f)
    ensures !Holds(st, f)
  {}

  lemma OwnedIsNew(d: Desired, st: State)
    ensures Delta(d, st) !! Facts(st)
  {
    forall l2, f | l2 in d.l2vnis && L2Owns(l2, OwnL2(l2, st), f) ensures !Holds(st, f) {
      L2OwnedIsNew(l2, st, f);
    }
    forall l3, f | l3 in d.l3vnis && L3Owns(l3, OwnL3(l3, st), f) ensures !Holds(st, f) {
      L3OwnedIsNew(l3, st, f);
    }
    assert forall f :: Owned(d, st, f) ==> !Holds(st, f);
  }

  /** PASS and separate VLANs keep the deltas apart. */
  lemma PassDisjoint(d: Desired, st: State, parse: Parser)
    requires ParsesValid(parse) && HostClean(d, st, parse) && TraditionalApart(d)
    ensures DeltasDisjoint(d, st)
  {
    CleanVlans(d, st, parse);
    CleanVrfs(d, st, parse);
    forall i, j | 0 <= i < j < |d.l2vnis|
      ensures DeltaL2(d.l2vnis[i], OwnL2(d.l2vnis[i], st)) !! DeltaL2(d.l2vnis[j], OwnL2(d.l2vnis[j], st))
    {
      assert VlanPairs(d)[i].0 != VlanPairs(d)[j].0 && VlanPairs(d)[i].1 != VlanPairs(d)[j].1;
    }
    forall i, j | 0 <= i < j < |d.l3vnis|
      ensures DeltaL3(d.l3vnis[i], OwnL3(d.l3vnis[i], st)) !! DeltaL3(d.l3vnis[j], OwnL3(d.l3vnis[j], st))
    {
      assert VrfPairs(d)[i].0 != VrfPairs(d)[j].0 && VrfPairs(d)[i].1 != VrfPairs(d)[j].1;
    }
  }

  // --------------------------------------------- the deltas against the templates

  /** The fact is about something that the configuration of this resource names. */
  predicate L2Touches(l2: L2, f: Fact) {
    match f
    case VlanPresent(v) => v == l2.vlan
    case VlanMapped(v, _) => v == l2.vlan
    case VlanNamed(v, _) => v == l2.vlan
    case SviSeen(v, _) => v == l2.vlan
    case NveL2Member(n) => n == l2.vni
    case EvpnPresent(n) => n == l2.vni
    case _ => false
  }

  predicate L3Touches(l3: L3, f: Fact) {
    match f
    case VlanPresent(v) => v == l3.vlan && l3.mode == TraditionalVlanSvi
    case VlanMapped(v, _) => v == l3.vlan && l3.mode == TraditionalVlanSvi
    case VlanNamed(v, _) => v == l3.vlan && l3.mode == TraditionalVlanSvi
    case SviSeen(v, _) => v == l3.vlan && l3.mode == TraditionalVlanSvi
    case NveL3Member(n) => n == l3.vni
    case VrfPresent(v) => v == l3.vrf
    case VrfMapped(v, _) => v == l3.vrf
    case VrfCommand(v, _, _) => v == l3.vrf
    case BgpVrfPresent(v) => v == l3.vrf
    case BgpCommand(v, _, _) => v == l3.vrf
    case _ => false
  }

  lemma L2Adds(d: Desired, st: State, l2: L2, f: Fact)
    requires Accepted(d, st) && Separate(d) && l2 in d.l2vnis && L2Touches(l2, f)
    ensures Holds(Forward(st, d), f) <==> Holds(st, f) || L2Owns(l2, OwnL2(l2, st), f)
  {
    var i :| 0 <= i < |d.l2vnis| && d.l2vnis[i] == l2;
    ForwardVlan(d, st, i);
    L2AddsHere(l2, st, Forward(st, d), f);
  }

  lemma L2AddsHere(l2: L2, st: State, after: State, f: Fact)
    requires forall e :: !L2Refused(l2, st, e)
    requires L2Touches(l2, f)
    requires Get(after.vlans, l2.vlan) == SetVlan(l2.vni, l2.vlanName)(Get(st.vlans, l2.vlan))
    requires Get(after.svis, l2.vlan) == SetSvi(l2)(Get(st.svis, l2.vlan))
    requires l2.vni in after.nveL2 && l2.vni in after.evpn
    ensures Holds(after, f) <==> Holds(st, f) || L2Owns(l2, OwnL2(l2, st), f)
  {
    assert !L2Refused(l2, st, VlanHasOtherVni);
    assert !L2Refused(l2, st, VlanHasOtherName);
    assert !L2Refused(l2, st, SviPartlyCompatible);
  }

  /** A mapping that no flag records: the L3VNI of an existing VRF. */
  predicate Unrecorded(l3: L3, st: State, f: Fact) {
    f == VrfMapped(l3.vrf, l3.vni) && l3.vrf in st.vrfs
  }

  lemma L3Adds(d: Desired, st: State, l3: L3, f: Fact)
    requires Accepted(d, st) && Separate(d) && l3 in d.l3vnis && L3Touches(l3, f)
    ensures Holds(Forward(st, d), f) <==> Holds(st, f) || L3Owns(l3, OwnL3(l3, st), f) || Unrecorded(l3, st, f)
  {
    var i :| 0 <= i < |d.l3vnis| && d.l3vnis[i] == l3;
    ForwardVrf(d, st, i);
    assert forall e :: !L3Refused(l3, st, e);
    if f.VlanPresent? || f.VlanMapped? || f.VlanNamed? || f.SviSeen? {
      ForwardTraditional(d, st, l3);
      TraditionalAddsHere(l3, st, Forward(st, d), f);
    } else {
      FamiliesAfter(l3, st, Forward(st, d));
      VrfAddsHere(l3, st, Forward(st, d), f);
    }
  }

  lemma TraditionalAddsHere(l3: L3, st: State, after: State, f: Fact)
    requires forall e :: !L3Refused(l3, st, e)
    requires L3Touches(l3, f) && (f.VlanPresent? || f.VlanMapped? || f.VlanNamed? || f.SviSeen?)
    requires Get(after.vlans, l3.vlan) == SetVlan(l3.vni, "")(Get(st.vlans, l3.vlan))
    requires Get(after.svis, l3.vlan) == SetTraditionalSvi(l3)(Get(st.svis, l3.vlan))
    ensures Holds(after, f) <==> Holds(st, f) || L3Owns(l3, OwnL3(l3, st), f)
  {
    assert !L3Refused(l3, st, TraditionalVlanConflict);
    assert !L3Refused(l3, st, TraditionalSviConflict);
  }

  lemma VrfAddsHere(l3: L3, st: State, after: State, f: Fact)
    requires !L3Refused(l3, st, VrfHasOtherL3Vni)
    requires L3Touches(l3, f) && !(f.VlanPresent? || f.VlanMapped? || f.VlanNamed? || f.SviSeen?)
    requires Get(after.vrfs, l3.vrf) == SetVrf(l3)(Get(st.vrfs, l3.vrf))
    requires Get(after.bgpVrfs, l3.vrf) == SetBgpVrf(l3)(Get(st.bgpVrfs, l3.vrf)) && l3.vni in after.nveL3
    requires VrfFamilies(after, l3.vrf) == Merged(VrfFamilies(st, l3.vrf), DesiredVrfFamilies(l3))
    requires BgpFamilies(after, l3.vrf) == Merged(BgpFamilies(st, l3.vrf), DesiredBgpFamilies(l3))
    ensures Holds(after, f) <==> Holds(st, f) || L3Owns(l3, OwnL3(l3, st), f) || Unrecorded(l3, st, f)
  {
    if f.VrfCommand? {
      MergedCommands(VrfFamilies(st, l3.vrf), DesiredVrfFamilies(l3), f.af);
    } else if f.BgpCommand? {
      MergedCommands(BgpFamilies(st, l3.vrf), DesiredBgpFamilies(l3), f.af);
    }
  }

  lemma MergedCommands(have: Families, want: Families, af: string)
    ensures CommandsIn(Merged(have, want), af) == CommandsIn(have, af) + CommandsIn(Missing(want, have), af)
  {}

  ghost predicate Touched(d: Desired, f: Fact) {
    || (exists l2 :: l2 in d.l2vnis && L2Touches(l2, f))
    || (exists l3 :: l3 in d.l3vnis && L3Touches(l3, f))
  }

  lemma UntouchedVlan(d: Desired, st: State, v: int)
    requires Separate(d) && !Touched(d, VlanPresent(v))
    ensures Get(Forward(st, d).vlans, v) == Get(st.vlans, v) && Get(Forward(st, d).svis, v) == Get(st.svis, v)
  {
    var t := Traditional(d.l3vnis);
    VlanKeys(d);
    forall i | 0 <= i < |VlanEdits(d)| ensures VlanEdits(d)[i].0 == SviEdits(d)[i].0 != v {
      if i < |t| {
        assert t[i] in t;
        assert !L3Touches(t[i], VlanPresent(v));
      } else {
        assert !L2Touches(d.l2vnis[i - |t|], VlanPresent(v));
      }
    }
    SameVlanKeys(d);
    EditedAt(st.vlans, VlanEdits(d), v);
    EditedAt(st.svis, SviEdits(d), v);
  }

  lemma NoVrf(d: Desired, v: string)
    requires !Touched(d, VrfPresent(v))
    ensures forall i :: 0 <= i < |d.l3vnis| ==> d.l3vnis[i].vrf != v
  {
    forall i | 0 <= i < |d.l3vnis| ensures d.l3vnis[i].vrf != v {
      assert !L3Touches(d.l3vnis[i], VrfPresent(v));
    }
  }

  lemma UntouchedVrf(d: Desired, st: State, v: string)
    requires SeparateVrfs(d.l3vnis) && !Touched(d, VrfPresent(v))
    ensures Get(Forward(st, d).vrfs, v) == Get(st.vrfs, v)
  {
    NoVrf(d, v);
    EditedAt(st.vrfs, VrfEdits(d), v);
  }

  lemma UntouchedBgpVrf(d: Desired, st: State, v: string)
    requires SeparateVrfs(d.l3vnis) && !Touched(d, VrfPresent(v))
    ensures Get(Forward(st, d).bgpVrfs, v) == Get(st.bgpVrfs, v)
  {
    NoVrf(d, v);
    EditedAt(st.bgpVrfs, BgpEdits(d), v);
  }

  lemma UntouchedVni(d: Desired, st: State, f: Fact)
    requires !Touched(d, f) && (f.NveL2Member? || f.NveL3Member? || f.EvpnPresent?)
    ensures Holds(Forward(st, d), f) <==> Holds(st, f)
  {
    assert forall l2 :: l2 in d.l2vnis ==> !L2Touches(l2, f);
    assert forall l3 :: l3 in d.l3vnis ==> !L3Touches(l3, f);
  }

  lemma Untouched(d: Desired, st: State, f: Fact)
    requires Separate(d) && !Touched(d, f)
    ensures Holds(Forward(st, d), f) <==> Holds(st, f)
  {
    match f
    case VlanPresent(v) => UntouchedVlan(d, st, v);
    case VlanMapped(v, _) => SameTouch(d, f, VlanPresent(v)); UntouchedVlan(d, st, v);
    case VlanNamed(v, _) => SameTouch(d, f, VlanPresent(v)); UntouchedVlan(d, st, v);
    case SviSeen(v, _) => SameTouch(d, f, VlanPresent(v)); UntouchedVlan(d, st, v);
    case VrfPresent(v) => UntouchedVrf(d, st, v);
    case VrfMapped(v, _) => SameTouch(d, f, VrfPresent(v)); UntouchedVrf(d, st, v);
    case VrfCommand(v, _, _) => SameTouch(d, f, VrfPresent(v)); UntouchedVrf(d, st, v);
    case BgpVrfPresent(v) => SameTouch(d, f, VrfPresent(v)); UntouchedBgpVrf(d, st, v);
    case BgpCommand(v, _, _) => SameTouch(d, f, VrfPresent(v)); UntouchedBgpVrf(d, st, v);
    case _ => UntouchedVni(d, st, f);
  }

  lemma SameTouch(d: Desired, f: Fact, g: Fact)
    requires !Touched(d, f)
    requires forall l2 :: L2Touches(l2, g) ==> L2Touches(l2, f)
    requires forall l3 :: L3Touches(l3, g) ==> L3Touches(l3, f)
    ensures !Touched(d, g)
  {}

  ghost predicate AnyUnrecorded(d: Desired, st: State, f: Fact) {
    exists l3 :: l3 in d.l3vnis && Unrecorded(l3, st, f)
  }

  /** The forward template adds what the flags claim, and the L3VNIs of existing VRFs. */
  lemma ForwardAdds(d: Desired, st: State, f: Fact)
    requires Accepted(d, st) && Separate(d)
    ensures Holds(Forward(st, d), f) <==> Holds(st, f) || Owned(d, st, f) || AnyUnrecorded(d, st, f)
  {
    forall l2 | l2 in d.l2vnis && L2Touches(l2, f)
      ensures Holds(Forward(st, d), f) <==> Holds(st, f) || L2Owns(l2, OwnL2(l2, st), f)
    {
      L2Adds(d, st, l2, f);
    }
    forall l3 | l3 in d.l3vnis && L3Touches(l3, f)
      ensures Holds(Forward(st, d), f) <==> Holds(st, f) || L3Owns(l3, OwnL3(l3, st), f) || Unrecorded(l3, st, f)
    {
      L3Adds(d, st, l3, f);
    }
    if !Touched(d, f) {
      Untouched(d, st, f);
    }
    SumUp(d, st, f, Holds(Forward(st, d), f));
  }

  lemma SumUp(d: Desired, st: State, f: Fact, after: bool)
    requires forall l2 :: l2 in d.l2vnis && L2Touches(l2, f) ==> (after <==> Holds(st, f) || L2Owns(l2, OwnL2(l2, st), f))
    requires forall l3 :: l3 in d.l3vnis && L3Touches(l3, f) ==>
      (after <==> Holds(st, f) || L3Owns(l3, OwnL3(l3, st), f) || Unrecorded(l3, st, f))
    requires !Touched(d, f) ==> (after <==> Holds(st, f))
    ensures after <==> Holds(st, f) || Owned(d, st, f) || AnyUnrecorded(d, st, f)
  {
    forall l2 | L2Owns(l2, OwnL2(l2, st), f) ensures L2Touches(l2, f) {}
    forall l3 | L3Owns(l3, OwnL3(l3, st), f) || Unrecorded(l3, st, f) ensures L3Touches(l3, f) {}
  }

  /** Every existing VRF of the ChangeSet has its L3VNI already. */
  ghost predicate VrfsMapped(d: Desired, st: State) {
    forall l3 :: l3 in d.l3vnis && l3.vrf in st.vrfs ==> st.vrfs[l3.vrf].l3vni == Some(l3.vni)
  }

  lemma MappedAddsDelta(d: Desired, st: State)
    requires Accepted(d, st) && Separate(d) && VrfsMapped(d, st)
    ensures Facts(Forward(st, d)) == Facts(st) + Delta(d, st)
  {
    forall f ensures Holds(Forward(st, d), f) <==> Holds(st, f) || Owned(d, st, f) {
      ForwardAdds(d, st, f);
      MappedIsRecorded(d, st, f);
    }
    MembersDecide(Facts(Forward(st, d)), Facts(st) + Delta(d, st));
  }

  lemma MembersDecide(a: iset<Fact>, b: iset<Fact>)
    requires forall f :: f in a <==> f in b
    ensures a == b
  {}

  lemma MappedIsRecorded(d: Desired, st: State, f: Fact)
    requires VrfsMapped(d, st)
    ensures AnyUnrecorded(d, st, f) ==> Holds(st, f)
  {}

  /** The L3VNI of an existing VRF that still lacks it is added, and no flag claims it. */
  lemma UnmappedFact(d: Desired, st: State, l3: L3)
    requires Accepted(d, st) && Separate(d) && l3 in d.l3vnis
    requires l3.vrf in st.vrfs && st.vrfs[l3.vrf].l3vni != Some(l3.vni)
    ensures var f := VrfMapped(l3.vrf, l3.vni); Holds(Forward(st, d), f) && !Holds(st, f) && !Owned(d, st, f)
  {
    assert AnyUnrecorded(d, st, VrfMapped(l3.vrf, l3.vni)) by {
      assert Unrecorded(l3, st, VrfMapped(l3.vrf, l3.vni));
    }
    ForwardAdds(d, st, VrfMapped(l3.vrf, l3.vni));
    UnrecordedIsNotOwned(d, st, l3);
  }

  lemma UnrecordedIsNotOwned(d: Desired, st: State, l3: L3)
    requires l3.vrf in st.vrfs
    ensures !Owned(d, st, VrfMapped(l3.vrf, l3.vni))
  {}

  lemma SumOrMore(before: iset<Fact>, delta: iset<Fact>, after: iset<Fact>, f: Fact)
    requires delta !! before
    ensures after == before + delta ==> after - delta == before
    ensures f in after && f !in before && f !in delta ==> after != before + delta && after - delta != before
  {
    if f in after && f !in delta {
      assert f in after - delta;
    }
  }

  lemma ExactIfMapped(d: Desired, st: State)
    requires Accepted(d, st) && Separate(d) && (AllPreserved(d, st) || VrfsMapped(d, st))
    ensures Facts(Applied(d, st)) == Facts(st) + Delta(d, st)
  {
    if AllPreserved(d, st) {
      PreservedOwnsNothing(d, st);
    } else {
      MappedAddsDelta(d, st);
    }
  }

  lemma MoreIfUnmapped(d: Desired, st: State) returns (f: Fact)
    requires Accepted(d, st) && Separate(d) && !AllPreserved(d, st) && !VrfsMapped(d, st)
    ensures f in Facts(Applied(d, st)) && f !in Facts(st) && f !in Delta(d, st)
  {
    var l3 :| l3 in d.l3vnis && l3.vrf in st.vrfs && st.vrfs[l3.vrf].l3vni != Some(l3.vni);
    f := VrfMapped(l3.vrf, l3.vni);
    UnmappedFact(d, st, l3);
  }

  /** The deltas are exactly what a configuration adds, unless an existing VRF still lacks its L3VNI. */
  lemma DeltaIsExact(d: Desired, st: State)
    requires Accepted(d, st) && Separate(d)
    ensures Facts(Applied(d, st)) == Facts(st) + Delta(d, st) <==> AllPreserved(d, st) || VrfsMapped(d, st)
    ensures Facts(Applied(d, st)) - Delta(d, st) == Facts(st) <==> AllPreserved(d, st) || VrfsMapped(d, st)
  {
    OwnedIsNew(d, st);
    var f := VlanPresent(0);
    if AllPreserved(d, st) || VrfsMapped(d, st) {
      ExactIfMapped(d, st);
    } else {
      f := MoreIfUnmapped(d, st);
    }
    SumOrMore(Facts(st), Delta(d, st), Facts(Applied(d, st)), f);
  }

  lemma PreservedOwnsNothing(d: Desired, st: State)
    requires AllPreserved(d, st)
    ensures Delta(d, st) == iset{}
  {
    forall l2, f | l2 in d.l2vnis ensures !L2Owns(l2, OwnL2(l2, st), f) {
      var i :| 0 <= i < |d.l2vnis| && d.l2vnis[i] == l2;
      assert !L2Changes(OwnL2(d.l2vnis[i], st));
    }
    forall l3, f | l3 in d.l3vnis ensures !L3Owns(l3, OwnL3(l3, st), f) {
      var i :| 0 <= i < |d.l3vnis| && d.l3vnis[i] == l3;
      assert !L3Changes(OwnL3(d.l3vnis[i], st));
      UnchangedOwnsNothing(l3, OwnL3(l3, st), f);
    }
    assert forall f :: !Owned(d, st, f);
  }

  lemma UnchangedOwnsNothing(l3: L3, o: L3Ownership, f: Fact)
    requires !L3Changes(o)
    ensures !L3Owns(l3, o, f)
  {}

  // ---------------------------------------------------- the renderer reads no more

  lemma SameVlanFacts(a: State, b: State, v: int)
    requires Facts(a) == Facts(b)
    ensures Get(a.vlans, v) == Get(b.vlans, v)
    ensures v in a.svis <==> v in b.svis
    ensures v in a.svis ==> Seen(a.svis[v]) == Seen(b.svis[v])
  {
    assert VlanPresent(v) in Facts(a) <==> VlanPresent(v) in Facts(b);
    if v in a.vlans && a.vlans[v].vni.Some? { assert VlanMapped(v, a.vlans[v].vni.value) in Facts(b); }
    if v in b.vlans && b.vlans[v].vni.Some? { assert VlanMapped(v, b.vlans[v].vni.value) in Facts(a); }
    if v in a.vlans && a.vlans[v].name.Some? { assert VlanNamed(v, a.vlans[v].name.value) in Facts(b); }
    if v in b.vlans && b.vlans[v].name.Some? { assert VlanNamed(v, b.vlans[v].name.value) in Facts(a); }
    if v in a.svis { assert SviSeen(v, Seen(a.svis[v])) in Facts(b); }
    if v in b.svis { assert SviSeen(v, Seen(b.svis[v])) in Facts(a); }
  }

  lemma SameVrfFacts(a: State, b: State, v: string)
    requires Facts(a) == Facts(b)
    ensures v in a.vrfs <==> v in b.vrfs
    ensures v in a.vrfs ==> a.vrfs[v].l3vni == b.vrfs[v].l3vni
    ensures v in a.bgpVrfs <==> v in b.bgpVrfs
    ensures forall af :: CommandsIn(VrfFamilies(a, v), af) == CommandsIn(VrfFamilies(b, v), af)
    ensures forall af :: CommandsIn(BgpFamilies(a, v), af) == CommandsIn(BgpFamilies(b, v), af)
  {
    assert VrfPresent(v) in Facts(a) <==> VrfPresent(v) in Facts(b);
    assert BgpVrfPresent(v) in Facts(a) <==> BgpVrfPresent(v) in Facts(b);
    if v in a.vrfs && a.vrfs[v].l3vni.Some? { assert VrfMapped(v, a.vrfs[v].l3vni.value) in Facts(b); }
    if v in b.vrfs && b.vrfs[v].l3vni.Some? { assert VrfMapped(v, b.vrfs[v].l3vni.value) in Facts(a); }
    forall af {
      SameCommands(a, b, v, af);
    }
  }

  lemma SameCommands(a: State, b: State, v: string, af: string)
    requires Facts(a) == Facts(b)
    ensures CommandsIn(VrfFamilies(a, v), af) == CommandsIn(VrfFamilies(b, v), af)
    ensures CommandsIn(BgpFamilies(a, v), af) == CommandsIn(BgpFamilies(b, v), af)
  {
    forall c ensures c in CommandsIn(VrfFamilies(a, v), af) <==> c in CommandsIn(VrfFamilies(b, v), af) {
      assert VrfCommand(v, af, c) in Facts(a) <==> VrfCommand(v, af, c) in Facts(b);
    }
    forall c ensures c in CommandsIn(BgpFamilies(a, v), af) <==> c in CommandsIn(BgpFamilies(b, v), af) {
      assert BgpCommand(v, af, c) in Facts(a) <==> BgpCommand(v, af, c) in Facts(b);
    }
  }

  lemma SameL2(l2: L2, a: State, b: State)
    requires Facts(a) == Facts(b)
    ensures OwnL2(l2, a) == OwnL2(l2, b) && forall e :: L2Refused(l2, a, e) <==> L2Refused(l2, b, e)
  {
    forall v ensures Get(a.vlans, v) == Get(b.vlans, v) {
      SameVlanFacts(a, b, v);
    }
    SameEntries(a.vlans, b.vlans);
    SameVlanFacts(a, b, l2.vlan);
    assert NveL2Member(l2.vni) in Facts(a) <==> NveL2Member(l2.vni) in Facts(b);
    assert EvpnPresent(l2.vni) in Facts(a) <==> EvpnPresent(l2.vni) in Facts(b);
    if l2.svi.Some? && l2.vlan in a.svis {
      assert SviMatches(a.svis[l2.vlan], l2.svi.value, l2.vrf) <==> SviMatches(Seen(a.svis[l2.vlan]), l2.svi.value, l2.vrf);
      assert SviMatches(b.svis[l2.vlan], l2.svi.value, l2.vrf) <==> SviMatches(Seen(b.svis[l2.vlan]), l2.svi.value, l2.vrf);
    }
  }

  lemma SameMissing(want: Families, a: Families, b: Families)
    requires forall af :: CommandsIn(a, af) == CommandsIn(b, af)
    ensures Missing(want, a) == Missing(want, b)
  {}

  lemma SameL3(l3: L3, a: State, b: State)
    requires Facts(a) == Facts(b)
    ensures OwnL3(l3, a) == OwnL3(l3, b)
    ensures forall e :: L3Refused(l3, a, e) <==> L3Refused(l3, b, e)
  {
    SameVlanFacts(a, b, l3.vlan);
    SameVrfFacts(a, b, l3.vrf);
    assert NveL3Member(l3.vni) in Facts(a) <==> NveL3Member(l3.vni) in Facts(b);
    SameMissing(DesiredBgpFamilies(l3), BgpFamilies(a, l3.vrf), BgpFamilies(b, l3.vrf));
    SameMissing(DesiredVrfFamilies(l3), VrfFamilies(a, l3.vrf), VrfFamilies(b, l3.vrf));
    forall e ensures L3Refused(l3, a, e) <==> L3Refused(l3, b, e) {
      SameRefusal(l3, a, b, e);
    }
  }

  lemma SameRefusal(l3: L3, a: State, b: State, e: RenderError)
    requires Facts(a) == Facts(b)
    ensures L3Refused(l3, a, e) <==> L3Refused(l3, b, e)
  {
    SameVlanFacts(a, b, l3.vlan);
    SameVrfFacts(a, b, l3.vrf);
    if l3.vlan in a.svis {
      assert TraditionalSviMatches(a.svis[l3.vlan], l3) <==> TraditionalSviMatches(Seen(a.svis[l3.vlan]), l3);
      assert TraditionalSviMatches(b.svis[l3.vlan], l3) <==> TraditionalSviMatches(Seen(b.svis[l3.vlan]), l3);
    }
  }

  /** States with the same facts are rendered alike. */
  lemma SameRender(d: Desired, a: State, b: State)
    requires Facts(a) == Facts(b)
    ensures Accepted(d, a) <==> Accepted(d, b)
    ensures AllPreserved(d, a) <==> AllPreserved(d, b)
  {
    forall i | 0 <= i < |d.l2vnis|
      ensures OwnL2(d.l2vnis[i], a) == OwnL2(d.l2vnis[i], b)
      ensures forall e :: L2Refused(d.l2vnis[i], a, e) <==> L2Refused(d.l2vnis[i], b, e)
    {
      SameL2(d.l2vnis[i], a, b);
    }
    forall i | 0 <= i < |d.l3vnis|
      ensures OwnL3(d.l3vnis[i], a) == OwnL3(d.l3vnis[i], b)
      ensures forall e :: L3Refused(d.l3vnis[i], a, e) <==> L3Refused(d.l3vnis[i], b, e)
    {
      SameL3(d.l3vnis[i], a, b);
    }
  }

  // ------------------------------------------------------------- the whole property

  /** Under PASS, with separate VLANs and VRFs that are absent or mapped already: the deltas of
      the resources are pairwise disjoint and new; adding them gives a device whose render is
      empty, and removing exactly them gives the facts that were there before. */
  lemma PassDelta(d: Desired, st: State, parse: Parser, after: State, back: State)
    requires ParsesValid(parse) && HostClean(d, st, parse) && TraditionalApart(d)
    requires Accepted(d, st) && VrfsMapped(d, st)
    requires Facts(after) == Facts(st) + Delta(d, st) && Facts(back) == Facts(after) - Delta(d, st)
    ensures DeltasDisjoint(d, st) && Delta(d, st) !! Facts(st)
    ensures Facts(after) == Facts(Applied(d, st)) && Facts(back) == Facts(st)
    ensures Accepted(d, after) && AllPreserved(d, after) && Applied(d, after) == after
  {
    PassDisjoint(d, st, parse);
    PassSeparates(d, st, parse);
    OwnedIsNew(d, st);
    DeltaIsExact(d, st);
    SecondRenderIsEmpty(d, st);
    SameRender(d, after, Applied(d, st));
  }
}
