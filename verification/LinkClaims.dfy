// alred/link_diagnostics.py: what link diagnostics must report, said of the
// claimed directions themselves.
module LinkClaims {
  import opened Ordering
  import opened LinkMerge

  datatype Option<+T> = None | Some(value: T)

  datatype Ambiguity = Ambiguity(local: Endpoint, candidates: set<Endpoint>)

  datatype Input = Input(
    lldp: seq<Key>, desc: seq<Key>,                 // the claimed directions
    inventory: set<string>, configCoverage: set<string>, lldpCoverage: set<string>,
    ambiguities: seq<Ambiguity>)

  datatype Code = Ambiguous | MultipleRemotes | DeviceConflict | InterfaceConflict | OneWayLldp | NotReciprocal

  datatype Diagnostic = Diagnostic(code: Code, local: Endpoint, observed: Option<Endpoint>, configured: Option<Endpoint>)

  datatype Source = FromLldp | FromDescription

  datatype Reason = PeerNotInInventory | PeerNotCollected | PeerEvidenceNotFound

  datatype Claim = Claim(source: Source, local: Endpoint, claimed: Endpoint, reason: Reason)

  datatype Result = Conflict | Unknown | Warning | Pass

  datatype Evaluation = NotEvaluated | Partial | Complete

  /** A claim that names both hosts. */
  ghost predicate Says(claims: seq<Key>, local: Endpoint, remote: Endpoint) {
    Key(local, remote) in claims && local.node != "" && remote.node != ""
  }

  ghost predicate Speaks(claims: seq<Key>, local: Endpoint) {
    exists remote :: Says(claims, local, remote)
  }

  ghost predicate HostSpeaks(claims: seq<Key>, node: string) {
    exists local, remote :: Says(claims, local, remote) && local.node == node
  }

  ghost predicate OnePeer(claims: seq<Key>, local: Endpoint) {
    forall a, b :: Says(claims, local, a) && Says(claims, local, b) ==> a == b
  }

  /** The least of several remotes. */
  ghost predicate FirstOfMany(claims: seq<Key>, local: Endpoint, remote: Endpoint) {
    && Says(claims, local, remote) && !OnePeer(claims, local)
    && forall other :: Says(claims, local, other) ==> EndpointLe(remote, other)
  }

  /** A description is answered by the endpoint that it names, or without an interface by any endpoint of the host,
      which may leave out the interface as well. */
  ghost predicate Answered(desc: seq<Key>, local: Endpoint, configured: Endpoint) {
    if configured.iface != "" then Says(desc, configured, local)
    else exists peer, remote :: Says(desc, peer, remote) && peer.node == configured.node
           && remote.node == local.node && (remote.iface == "" || remote.iface == local.iface)
  }

  /** The description names another host than the observed one, or another interface of it. */
  ghost predicate Contradicts(configured: Endpoint, observed: Endpoint) {
    configured.node != observed.node || (configured.iface != "" && configured.iface != observed.iface)
  }

  /** The host is one that the evidence could have shown to answer. */
  ghost predicate CouldAnswer(x: Input, coverage: set<string>, claims: seq<Key>, node: string) {
    node in x.inventory && node in coverage && HostSpeaks(claims, node)
  }

  ghost predicate CannotAnswer(x: Input, coverage: set<string>, claims: seq<Key>, node: string, reason: Reason) {
    match reason
    case PeerNotInInventory => node !in x.inventory
    case PeerNotCollected => node in x.inventory && node !in coverage
    case PeerEvidenceNotFound => node in x.inventory && node in coverage && !HostSpeaks(claims, node)
  }

  /** At least two endpoints fit a description. */
  ghost predicate Unclear(x: Input, local: Endpoint) {
    exists a :: a in x.ambiguities && a.local == local && local.node != "" && |a.candidates| > 1
  }

  /** The diagnostics that the claims call for. */
  ghost predicate CalledFor(x: Input, d: Diagnostic) {
    match d
    case Diagnostic(Ambiguous, l, None, None) => Unclear(x, l)
    case Diagnostic(MultipleRemotes, l, Some(o), None) => FirstOfMany(x.lldp, l, o)
    case Diagnostic(MultipleRemotes, l, None, Some(c)) => FirstOfMany(x.desc, l, c)
    case Diagnostic(DeviceConflict, l, Some(o), Some(c)) => Says(x.lldp, l, o) && Says(x.desc, l, c) && o.node != c.node
    case Diagnostic(InterfaceConflict, l, Some(o), Some(c)) =>
      Says(x.lldp, l, o) && Says(x.desc, l, c) && o.node == c.node && c.iface != "" && o.iface != c.iface
    case Diagnostic(OneWayLldp, l, Some(o), None) =>
      && Says(x.lldp, l, o) && !Says(x.lldp, o, l)
      && l.node in x.lldpCoverage && CouldAnswer(x, x.lldpCoverage, x.lldp, o.node)
    case Diagnostic(NotReciprocal, l, None, Some(c)) =>
      && Says(x.desc, l, c) && !Answered(x.desc, l, c) && !Speaks(x.lldp, l)
      && l.node in x.configCoverage && CouldAnswer(x, x.configCoverage, x.desc, c.node)
    case _ => false
  }

  /** The claims that cannot be judged, and why. */
  ghost predicate LeftOpen(x: Input, c: Claim) {
    match c.source
    case FromLldp =>
      && Says(x.lldp, c.local, c.claimed) && !Says(x.lldp, c.claimed, c.local)
      && CannotAnswer(x, x.lldpCoverage, x.lldp, c.claimed.node, c.reason)
    case FromDescription =>
      && Says(x.desc, c.local, c.claimed) && !Answered(x.desc, c.local, c.claimed) && !Speaks(x.lldp, c.local)
      && CannotAnswer(x, x.configCoverage, x.desc, c.claimed.node, c.reason)
  }

  // ------------------------------------------------------------ what a pass means

  /** Both kinds of evidence were collected from every host in inventory. */
  ghost predicate Covered(x: Input) {
    && (x.configCoverage != {} || x.lldpCoverage != {})
    && x.inventory <= x.configCoverage && x.inventory <= x.lldpCoverage
  }

  /** Nothing is reported and nothing is left open. */
  ghost predicate Silent(x: Input) {
    (forall d :: !CalledFor(x, d)) && forall c :: !LeftOpen(x, c)
  }

  /** A claim without its counterpart that the judgement lets pass: nothing was collected from
      the host that makes it, and the peer is one that could have answered. */
  ghost predicate Excused(x: Input, coverage: set<string>, claims: seq<Key>, local: Endpoint, peer: Endpoint) {
    local.node !in coverage && CouldAnswer(x, coverage, claims, peer.node)
  }

  ghost predicate NeighbourJudged(x: Input, local: Endpoint, peer: Endpoint) {
    Says(x.lldp, peer, local) || Excused(x, x.lldpCoverage, x.lldp, local, peer)
  }

  ghost predicate DescriptionJudged(x: Input, local: Endpoint, configured: Endpoint) {
    if Speaks(x.lldp, local) then forall observed :: Says(x.lldp, local, observed) ==> !Contradicts(configured, observed)
    else Answered(x.desc, local, configured) || Excused(x, x.configCoverage, x.desc, local, configured)
  }

  /** Each endpoint has one LLDP peer that answers it, and one description that agrees with the peer or,
      where there is none, is answered; excused claims apart. */
  ghost predicate JudgedAgreement(x: Input) {
    && (forall l, p :: Says(x.lldp, l, p) ==> OnePeer(x.lldp, l) && NeighbourJudged(x, l, p))
    && (forall l, c :: Says(x.desc, l, c) ==> OnePeer(x.desc, l) && DescriptionJudged(x, l, c))
    && forall l :: !Unclear(x, l)
  }

  ghost predicate LocalsInInventory(x: Input) {
    forall l, p :: Says(x.lldp, l, p) || Says(x.desc, l, p) ==> l.node in x.inventory
  }

  /** Each endpoint has one LLDP peer, whose peer it is. */
  ghost predicate Involution(claims: seq<Key>) {
    forall l, p :: Says(claims, l, p) ==> OnePeer(claims, l) && Says(claims, p, l)
  }

  ghost predicate DescriptionAgrees(x: Input, local: Endpoint, configured: Endpoint) {
    if Speaks(x.lldp, local) then forall observed :: Says(x.lldp, local, observed) ==> !Contradicts(configured, observed)
    else Answered(x.desc, local, configured)
  }

  ghost predicate Agreement(x: Input) {
    && Involution(x.lldp)
    && (forall l, c :: Says(x.desc, l, c) ==> OnePeer(x.desc, l) && DescriptionAgrees(x, l, c))
    && forall l :: !Unclear(x, l)
  }

  lemma EveryPeerCanOrCannot(x: Input, coverage: set<string>, claims: seq<Key>, node: string)
    ensures CouldAnswer(x, coverage, claims, node) || exists reason :: CannotAnswer(x, coverage, claims, node, reason)
  {
    assert CouldAnswer(x, coverage, claims, node)
        || CannotAnswer(x, coverage, claims, node, PeerNotInInventory)
        || CannotAnswer(x, coverage, claims, node, PeerNotCollected)
        || CannotAnswer(x, coverage, claims, node, PeerEvidenceNotFound);
  }

  lemma EndpointOrder(a: Endpoint, b: Endpoint, c: Endpoint)
    ensures EndpointLe(a, a) && (EndpointLe(a, b) || EndpointLe(b, a))
    ensures EndpointLe(a, b) && EndpointLe(b, a) ==> a == b
    ensures EndpointLe(a, b) && EndpointLe(b, c) ==> EndpointLe(a, c)
  {
    ChainOrder();
    var x, y, z := [a.node, a.iface], [b.node, b.iface], [c.node, c.iface];
    assert ChainLe(x, x) && (ChainLe(x, y) || ChainLe(y, x));
    assert ChainLe(x, y) && ChainLe(y, z) ==> ChainLe(x, z);
    if ChainLe(x, y) && ChainLe(y, x) {
      assert x == y && x[0] == y[0] && x[1] == y[1];
    }
  }

  lemma {:induction false} SomeFirst(remotes: set<Endpoint>)
    requires remotes != {}
    ensures exists first :: first in remotes && forall other :: other in remotes ==> EndpointLe(first, other)
    decreases |remotes|
  {
    var some :| some in remotes;
    var rest := remotes - {some};
    EndpointOrder(some, some, some);
    if rest == {} {
      forall other | other in remotes ensures other == some {
        assert other in rest || other == some;
      }
    } else {
      SomeFirst(rest);
      var first :| first in rest && forall other :: other in rest ==> EndpointLe(first, other);
      EndpointOrder(some, first, some);
      var least := if EndpointLe(some, first) then some else first;
      forall other | other in remotes ensures EndpointLe(least, other) {
        EndpointOrder(some, first, other);
      }
      assert least in remotes;
    }
  }

  lemma ManyHaveAFirst(claims: seq<Key>, local: Endpoint)
    requires !OnePeer(claims, local)
    ensures exists remote :: FirstOfMany(claims, local, remote)
  {
    var remotes := set k | k in claims && k.src == local && local.node != "" && k.dst.node != "" :: k.dst;
    forall e ensures e in remotes <==> Says(claims, local, e) {
      if Says(claims, local, e) {
        assert Key(local, e).dst in remotes;
      }
      if e in remotes {
        var k :| k in claims && k.src == local && local.node != "" && k.dst.node != "" && k.dst == e;
        assert k == Key(local, e);
      }
    }
    assert remotes != {};
    SomeFirst(remotes);
    var first :| first in remotes && forall other :: other in remotes ==> EndpointLe(first, other);
    assert FirstOfMany(claims, local, first);
  }

  lemma SilentNeighbour(x: Input, l: Endpoint, p: Endpoint)
    requires Silent(x) && Says(x.lldp, l, p)
    ensures OnePeer(x.lldp, l) && NeighbourJudged(x, l, p)
  {
    if !OnePeer(x.lldp, l) {
      ManyHaveAFirst(x.lldp, l);
      var o :| FirstOfMany(x.lldp, l, o);
      assert CalledFor(x, Diagnostic(MultipleRemotes, l, Some(o), None));
    }
    EveryPeerCanOrCannot(x, x.lldpCoverage, x.lldp, p.node);
    if reason :| CannotAnswer(x, x.lldpCoverage, x.lldp, p.node, reason) {
      assert !LeftOpen(x, Claim(FromLldp, l, p, reason));
    } else {
      assert !CalledFor(x, Diagnostic(OneWayLldp, l, Some(p), None));
    }
  }

  lemma SilentDescription(x: Input, l: Endpoint, c: Endpoint)
    requires Silent(x) && Says(x.desc, l, c)
    ensures OnePeer(x.desc, l) && DescriptionJudged(x, l, c)
  {
    if !OnePeer(x.desc, l) {
      ManyHaveAFirst(x.desc, l);
      var o :| FirstOfMany(x.desc, l, o);
      assert CalledFor(x, Diagnostic(MultipleRemotes, l, None, Some(o)));
    }
    if Speaks(x.lldp, l) {
      forall o | Says(x.lldp, l, o) ensures !Contradicts(c, o) {
        assert !CalledFor(x, Diagnostic(DeviceConflict, l, Some(o), Some(c)));
        assert !CalledFor(x, Diagnostic(InterfaceConflict, l, Some(o), Some(c)));
      }
    } else {
      EveryPeerCanOrCannot(x, x.configCoverage, x.desc, c.node);
      if reason :| CannotAnswer(x, x.configCoverage, x.desc, c.node, reason) {
        assert !LeftOpen(x, Claim(FromDescription, l, c, reason));
      } else {
        assert !CalledFor(x, Diagnostic(NotReciprocal, l, None, Some(c)));
      }
    }
  }

  lemma AgreementIsSilent(x: Input)
    requires JudgedAgreement(x)
    ensures Silent(x)
  {
    forall d ensures !CalledFor(x, d) {
      match d
      case Diagnostic(Ambiguous, l, None, None) => assert !Unclear(x, l);
      case Diagnostic(MultipleRemotes, l, Some(o), None) => assert Says(x.lldp, l, o) ==> OnePeer(x.lldp, l);
      case Diagnostic(MultipleRemotes, l, None, Some(c)) => assert Says(x.desc, l, c) ==> OnePeer(x.desc, l);
      case Diagnostic(OneWayLldp, l, Some(o), None) => assert Says(x.lldp, l, o) ==> NeighbourJudged(x, l, o);
      case Diagnostic(_, l, _, Some(c)) => assert Says(x.desc, l, c) ==> DescriptionJudged(x, l, c);
      case _ =>
    }
    forall c ensures !LeftOpen(x, c) {
      if c.source == FromLldp {
        assert Says(x.lldp, c.local, c.claimed) ==> NeighbourJudged(x, c.local, c.claimed);
      } else {
        assert Says(x.desc, c.local, c.claimed) ==> DescriptionJudged(x, c.local, c.claimed);
      }
    }
  }

  /** Silence means, for every input: each endpoint has one LLDP peer that answers it, each description agrees
      with the LLDP peer beside it or is answered, but for excused claims - and conversely. */
  lemma SilenceMeansJudgedAgreement(x: Input)
    ensures Silent(x) <==> JudgedAgreement(x)
  {
    if Silent(x) {
      forall l, p | Says(x.lldp, l, p) ensures OnePeer(x.lldp, l) && NeighbourJudged(x, l, p) {
        SilentNeighbour(x, l, p);
      }
      forall l, c | Says(x.desc, l, c) ensures OnePeer(x.desc, l) && DescriptionJudged(x, l, c) {
        SilentDescription(x, l, c);
      }
      forall l ensures !Unclear(x, l) {
        assert !CalledFor(x, Diagnostic(Ambiguous, l, None, None));
      }
    }
    if JudgedAgreement(x) {
      AgreementIsSilent(x);
    }
  }

  /** With all local nodes in inventory nothing is excused: silence means that the LLDP peers form an involution, every
      description beside LLDP agrees with it, and every other one is answered - and conversely. */
  lemma SilenceMeansAgreement(x: Input)
    requires LocalsInInventory(x) && Covered(x)
    ensures Silent(x) <==> Agreement(x)
  {
    SilenceMeansJudgedAgreement(x);
  }

  // ------------------------------------------------------------ what it does not mean

  const A1 := Endpoint("a", "1")
  const A2 := Endpoint("a", "2")
  const A3 := Endpoint("a", "3")
  const B1 := Endpoint("b", "1")

  /** Host b, outside the inventory, sees a port of a that sees nothing; two other ports of a see each other. */
  const OutsideNeighbour := Input([Key(B1, A1), Key(A2, A3), Key(A3, A2)], [], {"a"}, {"a"}, {"a"}, [])

  /** Claims of a host outside the inventory are not judged: nothing is reported here, and the result
      is a pass, though one LLDP record is not answered. */
  lemma OutsideInventoryIsNotJudged()
    ensures Covered(OutsideNeighbour) && Silent(OutsideNeighbour)
    ensures !LocalsInInventory(OutsideNeighbour) && !Involution(OutsideNeighbour.lldp)
  {
    var x := OutsideNeighbour;
    forall l, e ensures Says(x.lldp, l, e) <==> (l == B1 && e == A1) || (l == A2 && e == A3) || (l == A3 && e == A2) {
      assert Key(l, e) in x.lldp <==> Key(l, e) == Key(B1, A1) || Key(l, e) == Key(A2, A3) || Key(l, e) == Key(A3, A2);
    }
    assert Says(x.lldp, B1, A1) && Says(x.lldp, A2, A3) && !Says(x.lldp, A1, B1);
    assert HostSpeaks(x.lldp, "a");
    assert JudgedAgreement(x);
    SilenceMeansJudgedAgreement(x);
  }
}
