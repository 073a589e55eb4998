// Desired and observed Overlay state of one device, as overlay_conflict.py
// and overlay_render.py read them.
module OverlayModel {

  datatype Option<+T> = None | Some(value: T)

  // ----------------------------------------------------- resolved ChangeSet

  datatype Svi = Svi(mtu: int, ipv4: seq<string>, ipv6: seq<string>, linkLocal: string, suppressRa: bool)

  /** An empty `vlanName` or `vrf` means that the key is absent. */
  datatype L2 = L2(vni: int, vlan: int, vlanName: string, svi: Option<Svi>, vrf: string)

  datatype Mode = NewL3Vni | TraditionalVlanSvi

  datatype AddressFamily = AddressFamily(directMap: string, staticMap: string, maximumPaths: string)

  /** `vlan` and `mtu` matter in the traditional mode only. */
  datatype L3 = L3(vni: int, vrf: string, mode: Mode, vlan: int, mtu: int, afs: map<string, AddressFamily>)

  datatype Desired = Desired(l2vnis: seq<L2>, l3vnis: seq<L3>)

  // ----------------------------------------------------- parsed running config

  datatype VlanState = VlanState(vni: Option<int>, name: Option<string>)

  datatype SviState = SviState(mtu: Option<int>, ipv4: Option<seq<string>>, ipv6: Option<seq<string>>, anycast: bool,
                               linkLocal: Option<string>, suppressRa: Option<bool>, vrf: Option<string>, ipForward: bool,
                               extras: SviExtras)

  /** What the forward configuration writes into an interface and the renderer does not compare. */
  datatype SviExtras = SviExtras(up: bool, description: Option<string>, ipRedirects: bool, ipv6Redirects: bool)

  /** Address families and the commands in each. */
  type Families = map<string, set<string>>

  datatype VrfState = VrfState(l3vni: Option<int>, rd: Option<string>, afs: Families)

  datatype EvpnVni = EvpnVni(rd: Option<string>, targets: set<string>)

  /** Names that read `Vlan<number>` in any case are one SVI. */
  datatype InterfaceName = VlanInterface(vlan: int) | OtherInterface(name: string)

  datatype InterfaceState = InterfaceState(vrf: string, ipv4: seq<string>, ipv6: seq<string>)

  datatype State = State(
    vlans: map<int, VlanState>,
    svis: map<int, SviState>,
    vrfs: map<string, VrfState>,
    interfaces: map<InterfaceName, InterfaceState>,
    nveL2: set<int>,
    nveL3: set<int>,
    evpn: map<int, EvpnVni>,
    bgpVrfs: map<string, Families>)

  function CommandsIn(families: Families, af: string): set<string> {
    if af in families then families[af] else {}
  }

  /** No attribute of the existing SVI differs from the desired ones. */
  predicate SviMatches(existing: SviState, svi: Svi, vrf: string) {
    && existing.mtu == Some(svi.mtu)
    && existing.ipv4 == Some(svi.ipv4)
    && existing.ipv6 == Some(svi.ipv6)
    && existing.anycast
    && (svi.ipv6 != [] ==> existing.linkLocal == Some(svi.linkLocal) && existing.suppressRa == Some(svi.suppressRa))
    && (vrf != "" ==> existing.vrf == Some(vrf))
  }

  /** An existing SVI already has what is desired of it. */
  ghost predicate SviSettled(l2: L2, st: State) {
    l2.svi.Some? && l2.vlan in st.svis ==>
      var has, svi := st.svis[l2.vlan], l2.svi.value;
      && has.mtu == Some(svi.mtu) && has.ipv4 == Some(svi.ipv4) && has.ipv6 == Some(svi.ipv6) && has.anycast
      && (|svi.ipv6| > 0 ==> has.linkLocal == Some(svi.linkLocal) && has.suppressRa == Some(svi.suppressRa))
      && (|l2.vrf| > 0 ==> has.vrf == Some(l2.vrf))
  }
}
