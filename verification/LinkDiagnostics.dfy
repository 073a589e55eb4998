// alred/link_diagnostics.py: comparing LLDP neighbours with interface descriptions,
// and the verdict over all of them.
module LinkDiagnostics {
  import opened Ordering
  import opened LinkMerge
  import opened LinkClaims

  type Index = map<Endpoint, seq<Endpoint>>

  predicate IsConflict(c: Code) {
    c == MultipleRemotes || c == DeviceConflict || c == InterfaceConflict || c == NotReciprocal
  }

  // --------------------------------------------------------------- the indexes

  const EndpointOrd: (Endpoint, Endpoint) -> bool := (a, b) => EndpointLe(a, b)

  lemma EndpointsAreOrdered()
    ensures TotalOrder(EndpointOrd)
  {
    forall a, b, c: Endpoint
      ensures EndpointLe(a, a) && (EndpointLe(a, b) || EndpointLe(b, a))
      ensures EndpointLe(a, b) && EndpointLe(b, a) ==> a == b
      ensures EndpointLe(a, b) && EndpointLe(b, c) ==> EndpointLe(a, c)
    {
      EndpointOrder(a, b, c);
    }
  }

  function SortedEndpoints(s: set<Endpoint>): (r: seq<Endpoint>)
    ensures forall e :: e in r <==> e in s
    ensures forall i, j :: 0 <= i < j < |r| ==> r[i] != r[j] && EndpointLe(r[i], r[j])
  {
    EndpointsAreOrdered();
    Sorted(EndpointOrd, s)
  }

  predicate Named(k: Key) {
    k.src.node != "" && k.dst.node != ""
  }

  /** The remote endpoints claimed at a local one. */
  function Remotes(claims: seq<Key>, local: Endpoint): set<Endpoint> {
    set k | k in claims && Named(k) && k.src == local :: k.dst
  }

  function Locals(claims: seq<Key>): set<Endpoint> {
    set k | k in claims && Named(k) :: k.src
  }

  /** `lldp_by_local` and `desc_by_local`: each local endpoint with its remotes, sorted, without duplicates. */
  ghost predicate IsIndex(claims: seq<Key>, m: Index) {
    && m.Keys == Locals(claims)
    && forall l :: l in m ==> m[l] == SortedEndpoints(Remotes(claims, l))
  }

  /** Building an index: remotes are appended unless already there. */
  ghost predicate Collected(claims: seq<Key>, m: Index) {
    && (forall l :: l in m <==> l in Locals(claims))
    && (forall l :: l in m ==> forall e :: e in m[l] <==> e in Remotes(claims, l))
  }

  lemma CollectedExtends(claims: seq<Key>, m: Index, k: Key)
    requires Collected(claims, m)
    ensures !Named(k) ==> Collected(claims + [k], m)
    ensures Named(k) ==>
      var before := if k.src in m then m[k.src] else [];
      Collected(claims + [k], m[k.src := if k.dst in before then before else before + [k.dst]])
  {
    assert forall c :: c in claims + [k] <==> c in claims || c == k;
    assert Locals(claims + [k]) == Locals(claims) + if Named(k) then {k.src} else {};
    forall l ensures Remotes(claims + [k], l) == Remotes(claims, l) + if Named(k) && k.src == l then {k.dst} else {} {}
    if Named(k) && k.src !in m {
      forall c | c in claims && Named(c) ensures c.src != k.src {
        assert c.src in Locals(claims);
      }
      assert Remotes(claims, k.src) == {};
    }
  }

  method BuildIndex(claims: seq<Key>) returns (index: Index)
    ensures IsIndex(claims, index)
  {
    var m: Index := map[];
    for i := 0 to |claims|
      invariant Collected(claims[..i], m)
    {
      var k := claims[i];
      CollectedExtends(claims[..i], m, k);
      assert claims[..i + 1] == claims[..i] + [k];
      if Named(k) {
        var values := if k.src in m then m[k.src] else [];
        m := m[k.src := if k.dst in values then values else values + [k.dst]];
      }
    }
    assert claims[..|claims|] == claims;
    index := map l | l in m :: SortedEndpoints(set e | e in m[l]);
    forall l | l in index ensures index[l] == SortedEndpoints(Remotes(claims, l)) {
      assert (set e | e in m[l]) == Remotes(claims, l);
    }
  }

  function At(m: Index, l: Endpoint): seq<Endpoint> {
    if l in m then m[l] else []
  }

  function Nodes(m: Index): set<string> {
    set l | l in m :: l.node
  }

  // ------------------------------------------------------------ what is reported

  /** Why a claim without its counterpart is not judged; None when it is. */
  function ReasonFor(inventory: set<string>, coverage: set<string>, evidence: set<string>, node: string): Option<Reason> {
    if node !in inventory then Some(PeerNotInInventory)
    else if node !in coverage then Some(PeerNotCollected)
    else if node !in evidence then Some(PeerEvidenceNotFound)
    else None
  }

  predicate ConflictCode(observed: Endpoint, configured: Endpoint, c: Code) {
    || (c == DeviceConflict && observed.node != configured.node)
    || (c == InterfaceConflict && observed.node == configured.node && configured.iface != "" && observed.iface != configured.iface)
  }

  /** `_has_reciprocal_description` */
  predicate Reciprocal(desc: Index, local: Endpoint, configured: Endpoint) {
    if configured.iface != "" then local in At(desc, configured)
    else exists l, r :: l in desc && l.node == configured.node && r in desc[l] && r.node == local.node
                        && (r.iface == "" || r.iface == local.iface)
  }

  /** The diagnostics of one observed neighbour. */
  predicate NeighbourReports(x: Input, lldp: Index, desc: Index, local: Endpoint, observed: Endpoint, d: Diagnostic) {
    && d.local == local && d.observed == Some(observed)
    && match d.code
       case DeviceConflict =>
         d.configured.Some? && d.configured.value in At(desc, local) && ConflictCode(observed, d.configured.value, d.code)
       case InterfaceConflict =>
         d.configured.Some? && d.configured.value in At(desc, local) && ConflictCode(observed, d.configured.value, d.code)
       case OneWayLldp =>
         d.configured.None? && local !in At(lldp, observed) && local.node in x.lldpCoverage
         && ReasonFor(x.inventory, x.lldpCoverage, Nodes(lldp), observed.node).None?
       case _ => false
  }

  /** The diagnostics of one description, at an endpoint without LLDP neighbour. */
  predicate DescriptionReports(x: Input, lldp: Index, desc: Index, local: Endpoint, configured: Endpoint, d: Diagnostic) {
    && d == Diagnostic(NotReciprocal, local, None, Some(configured))
    && !Reciprocal(desc, local, configured) && local !in lldp && local.node in x.configCoverage
    && ReasonFor(x.inventory, x.configCoverage, Nodes(desc), configured.node).None?
  }

  predicate LldpReports(x: Input, lldp: Index, desc: Index, d: Diagnostic) {
    d.local in lldp &&
    if d.code == MultipleRemotes
    then |lldp[d.local]| > 1 && d.observed == Some(lldp[d.local][0]) && d.configured == None
    else d.observed.Some? && d.observed.value in lldp[d.local]
         && NeighbourReports(x, lldp, desc, d.local, d.observed.value, d)
  }

  predicate DescReports(x: Input, lldp: Index, desc: Index, d: Diagnostic) {
    d.local in desc &&
    if d.code == MultipleRemotes
    then |desc[d.local]| > 1 && d.configured == Some(desc[d.local][0]) && d.observed == None
    else d.configured.Some? && d.configured.value in desc[d.local]
         && DescriptionReports(x, lldp, desc, d.local, d.configured.value, d)
  }

  predicate AmbiguityReports(x: Input, d: Diagnostic) {
    d.code == Ambiguous && d.observed.None? && d.configured.None?
    && exists a :: a in x.ambiguities && a.local == d.local && Effective(a)
  }

  predicate Effective(a: Ambiguity) {
    a.local.node != "" && |a.candidates| >= 2
  }

  predicate LldpUnjudged(x: Input, lldp: Index, c: Claim) {
    && c.source == FromLldp && c.claimed in At(lldp, c.local) && c.local !in At(lldp, c.claimed)
    && ReasonFor(x.inventory, x.lldpCoverage, Nodes(lldp), c.claimed.node) == Some(c.reason)
  }

  predicate DescUnjudged(x: Input, lldp: Index, desc: Index, c: Claim) {
    && c.source == FromDescription && c.claimed in At(desc, c.local)
    && !Reciprocal(desc, c.local, c.claimed) && c.local !in lldp
    && ReasonFor(x.inventory, x.configCoverage, Nodes(desc), c.claimed.node) == Some(c.reason)
  }

  // ------------------------------------------------------------------ the code

  /** One observed neighbour of one endpoint. */
  method JudgeNeighbour(x: Input, lldp: Index, desc: Index, local: Endpoint, observed: Endpoint)
    returns (diagnostics: seq<Diagnostic>, claims: seq<Claim>)
    requires local in lldp && observed in lldp[local]
    ensures forall d :: d in diagnostics <==> NeighbourReports(x, lldp, desc, local, observed, d)
    ensures forall c :: c in claims <==> LldpUnjudged(x, lldp, c) && c.local == local && c.claimed == observed
  {
    diagnostics, claims := [], [];
    var descriptions := At(desc, local);
    for i := 0 to |descriptions|
      invariant forall d :: d in diagnostics <==>
        d.local == local && d.observed == Some(observed) && d.configured.Some? && d.configured.value in descriptions[..i]
        && ConflictCode(observed, d.configured.value, d.code)
    {
      var configured := descriptions[i];
      assert descriptions[..i + 1] == descriptions[..i] + [configured];
      if observed.node != configured.node {
        diagnostics := diagnostics + [Diagnostic(DeviceConflict, local, Some(observed), Some(configured))];
      } else if configured.iface != "" && observed.iface != configured.iface {
        diagnostics := diagnostics + [Diagnostic(InterfaceConflict, local, Some(observed), Some(configured))];
      }
    }
    assert descriptions[..|descriptions|] == descriptions;
    if local !in At(lldp, observed) {
      var reason := ReasonFor(x.inventory, x.lldpCoverage, Nodes(lldp), observed.node);
      if reason.Some? {
        claims := [Claim(FromLldp, local, observed, reason.value)];
      } else if local.node in x.lldpCoverage {
        diagnostics := diagnostics + [Diagnostic(OneWayLldp, local, Some(observed), None)];
      }
    }
  }

  /** The neighbours of one endpoint. */
  method JudgeLocalLldp(x: Input, lldp: Index, desc: Index, local: Endpoint)
    returns (diagnostics: seq<Diagnostic>, claims: seq<Claim>)
    requires local in lldp
    ensures forall d :: d in diagnostics <==> LldpReports(x, lldp, desc, d) && d.local == local
    ensures forall c :: c in claims <==> LldpUnjudged(x, lldp, c) && c.local == local
  {
    diagnostics, claims := [], [];
    var values := lldp[local];
    if |values| > 1 {
      diagnostics := [Diagnostic(MultipleRemotes, local, Some(values[0]), None)];
    }
    for i := 0 to |values|
      invariant forall d :: d in diagnostics <==>
        LldpReports(x, lldp, desc, d) && d.local == local && (d.code == MultipleRemotes || d.observed.value in values[..i])
      invariant forall c :: c in claims <==> LldpUnjudged(x, lldp, c) && c.local == local && c.claimed in values[..i]
    {
      assert values[..i + 1] == values[..i] + [values[i]];
      var more, unjudged := JudgeNeighbour(x, lldp, desc, local, values[i]);
      diagnostics := diagnostics + more;
      claims := claims + unjudged;
    }
    assert values[..|values|] == values;
  }

  /** The neighbours of the endpoints that are done. */
  ghost predicate LldpDone(x: Input, lldp: Index, desc: Index, done: seq<Endpoint>, diagnostics: seq<Diagnostic>, claims: seq<Claim>) {
    && (forall d :: d in diagnostics <==> d.local in done && LldpReports(x, lldp, desc, d))
    && (forall c :: c in claims <==> c.local in done && LldpUnjudged(x, lldp, c))
  }

  lemma LldpNext(x: Input, lldp: Index, desc: Index, done: seq<Endpoint>, diagnostics: seq<Diagnostic>, claims: seq<Claim>,
                 local: Endpoint, more: seq<Diagnostic>, unjudged: seq<Claim>)
    requires LldpDone(x, lldp, desc, done, diagnostics, claims)
    requires forall d :: d in more <==> LldpReports(x, lldp, desc, d) && d.local == local
    requires forall c :: c in unjudged <==> LldpUnjudged(x, lldp, c) && c.local == local
    ensures LldpDone(x, lldp, desc, done + [local], diagnostics + more, claims + unjudged)
  {}

  lemma LldpAll(x: Input, lldp: Index, desc: Index, done: seq<Endpoint>, diagnostics: seq<Diagnostic>, claims: seq<Claim>)
    requires LldpDone(x, lldp, desc, done, diagnostics, claims) && forall l :: l in lldp ==> l in done
    ensures forall d :: d in diagnostics <==> LldpReports(x, lldp, desc, d)
    ensures forall c :: c in claims <==> LldpUnjudged(x, lldp, c)
  {}

  method JudgeLldp(x: Input, lldp: Index, desc: Index) returns (diagnostics: seq<Diagnostic>, claims: seq<Claim>)
    ensures forall d :: d in diagnostics <==> LldpReports(x, lldp, desc, d)
    ensures forall c :: c in claims <==> LldpUnjudged(x, lldp, c)
  {
    diagnostics, claims := [], [];
    var locals := SortedEndpoints(lldp.Keys);
    for i := 0 to |locals|
      invariant LldpDone(x, lldp, desc, locals[..i], diagnostics, claims)
    {
      var local := locals[i];
      assert local in locals && locals[..i + 1] == locals[..i] + [local];
      var more, unjudged := JudgeLocalLldp(x, lldp, desc, local);
      LldpNext(x, lldp, desc, locals[..i], diagnostics, claims, local, more, unjudged);
      diagnostics := diagnostics + more;
      claims := claims + unjudged;
    }
    assert locals[..|locals|] == locals;
    LldpAll(x, lldp, desc, locals, diagnostics, claims);
  }

  method JudgeLocalDescriptions(x: Input, lldp: Index, desc: Index, local: Endpoint)
    returns (diagnostics: seq<Diagnostic>, claims: seq<Claim>)
    requires local in desc
    ensures forall d :: d in diagnostics <==> DescReports(x, lldp, desc, d) && d.local == local
    ensures forall c :: c in claims <==> DescUnjudged(x, lldp, desc, c) && c.local == local
  {
    diagnostics, claims := [], [];
    var values := desc[local];
    if |values| > 1 {
      diagnostics := [Diagnostic(MultipleRemotes, local, None, Some(values[0]))];
    }
    for i := 0 to |values|
      invariant forall d :: d in diagnostics <==>
        DescReports(x, lldp, desc, d) && d.local == local && (d.code == MultipleRemotes || d.configured.value in values[..i])
      invariant forall c :: c in claims <==> DescUnjudged(x, lldp, desc, c) && c.local == local && c.claimed in values[..i]
    {
      var configured := values[i];
      assert values[..i + 1] == values[..i] + [configured];
      if !Reciprocal(desc, local, configured) && local !in lldp {
        var reason := ReasonFor(x.inventory, x.configCoverage, Nodes(desc), configured.node);
        if reason.Some? {
          claims := claims + [Claim(FromDescription, local, configured, reason.value)];
        } else if local.node in x.configCoverage {
          diagnostics := diagnostics + [Diagnostic(NotReciprocal, local, None, Some(configured))];
        }
      }
    }
    assert values[..|values|] == values;
  }

  /** The descriptions of the endpoints that are done. */
  ghost predicate DescDone(x: Input, lldp: Index, desc: Index, done: seq<Endpoint>, diagnostics: seq<Diagnostic>, claims: seq<Claim>) {
    && (forall d :: d in diagnostics <==> d.local in done && DescReports(x, lldp, desc, d))
    && (forall c :: c in claims <==> c.local in done && DescUnjudged(x, lldp, desc, c))
  }

  lemma DescNext(x: Input, lldp: Index, desc: Index, done: seq<Endpoint>, diagnostics: seq<Diagnostic>, claims: seq<Claim>,
                 local: Endpoint, more: seq<Diagnostic>, unjudged: seq<Claim>)
    requires DescDone(x, lldp, desc, done, diagnostics, claims)
    requires forall d :: d in more <==> DescReports(x, lldp, desc, d) && d.local == local
    requires forall c :: c in unjudged <==> DescUnjudged(x, lldp, desc, c) && c.local == local
    ensures DescDone(x, lldp, desc, done + [local], diagnostics + more, claims + unjudged)
  {}

  lemma DescAll(x: Input, lldp: Index, desc: Index, done: seq<Endpoint>, diagnostics: seq<Diagnostic>, claims: seq<Claim>)
    requires DescDone(x, lldp, desc, done, diagnostics, claims) && forall l :: l in desc ==> l in done
    ensures forall d :: d in diagnostics <==> DescReports(x, lldp, desc, d)
    ensures forall c :: c in claims <==> DescUnjudged(x, lldp, desc, c)
  {}

  method JudgeDescriptions(x: Input, lldp: Index, desc: Index) returns (diagnostics: seq<Diagnostic>, claims: seq<Claim>)
    ensures forall d :: d in diagnostics <==> DescReports(x, lldp, desc, d)
    ensures forall c :: c in claims <==> DescUnjudged(x, lldp, desc, c)
  {
    diagnostics, claims := [], [];
    var locals := SortedEndpoints(desc.Keys);
    for i := 0 to |locals|
      invariant DescDone(x, lldp, desc, locals[..i], diagnostics, claims)
    {
      var local := locals[i];
      assert local in locals && locals[..i + 1] == locals[..i] + [local];
      var more, unjudged := JudgeLocalDescriptions(x, lldp, desc, local);
      DescNext(x, lldp, desc, locals[..i], diagnostics, claims, local, more, unjudged);
      diagnostics := diagnostics + more;
      claims := claims + unjudged;
    }
    assert locals[..|locals|] == locals;
    DescAll(x, lldp, desc, locals, diagnostics, claims);
  }

  method JudgeAmbiguities(x: Input) returns (diagnostics: seq<Diagnostic>)
    ensures forall d :: d in diagnostics <==> AmbiguityReports(x, d)
  {
    diagnostics := [];
    for i := 0 to |x.ambiguities|
      invariant forall d :: d in diagnostics <==>
        d.code == Ambiguous && d.observed.None? && d.configured.None?
        && exists a :: a in x.ambiguities[..i] && a.local == d.local && Effective(a)
    {
      var a := x.ambiguities[i];
      assert x.ambiguities[..i + 1] == x.ambiguities[..i] + [a];
      if Effective(a) {
        diagnostics := diagnostics + [Diagnostic(Ambiguous, a.local, None, None)];
      }
    }
    assert x.ambiguities[..|x.ambiguities|] == x.ambiguities;
  }

  function EvaluationOf(x: Input, claims: seq<Claim>): Evaluation {
    if x.configCoverage == {} && x.lldpCoverage == {} then NotEvaluated
    else if x.inventory <= x.configCoverage && x.inventory <= x.lldpCoverage && claims == [] then Complete
    else Partial
  }

  predicate Reported(x: Input, lldp: Index, desc: Index, d: Diagnostic) {
    AmbiguityReports(x, d) || LldpReports(x, lldp, desc, d) || DescReports(x, lldp, desc, d)
  }

  predicate Unjudged(x: Input, lldp: Index, desc: Index, c: Claim) {
    LldpUnjudged(x, lldp, c) || DescUnjudged(x, lldp, desc, c)
  }

  // ------------------------------------------------- the indexes, by the claims

  lemma IndexSays(claims: seq<Key>, m: Index, l: Endpoint)
    requires IsIndex(claims, m)
    ensures l in m <==> Speaks(claims, l)
    ensures forall e :: e in At(m, l) <==> Says(claims, l, e)
  {
    forall e ensures e in Remotes(claims, l) <==> Says(claims, l, e) {
      if Says(claims, l, e) {
        assert Named(Key(l, e)) && Key(l, e).dst == e;
      }
      if e in Remotes(claims, l) {
        var c :| c in claims && Named(c) && c.src == l && c.dst == e;
        assert c == Key(l, e);
      }
    }
    if e :| Says(claims, l, e) {
      assert Named(Key(l, e)) && Key(l, e).src == l;
    }
    if l in m {
      var c :| c in claims && Named(c) && c.src == l;
      assert c == Key(l, c.dst) && Says(claims, l, c.dst);
    }
  }

  lemma IndexNodes(claims: seq<Key>, m: Index, node: string)
    requires IsIndex(claims, m)
    ensures node in Nodes(m) <==> HostSpeaks(claims, node)
  {
    forall l ensures l in m <==> Speaks(claims, l) {
      IndexSays(claims, m, l);
    }
    if l :| l in m && l.node == node {
      var e :| Says(claims, l, e);
    }
    if l, e :| Says(claims, l, e) && l.node == node {
      assert Speaks(claims, l);
    }
  }

  lemma IndexMany(claims: seq<Key>, m: Index, l: Endpoint)
    requires IsIndex(claims, m) && l in m
    ensures m[l] != [] && (|m[l]| > 1 <==> !OnePeer(claims, l))
    ensures forall e :: FirstOfMany(claims, l, e) <==> |m[l]| > 1 && e == m[l][0]
  {
    IndexSays(claims, m, l);
    var e :| Says(claims, l, e);
    assert e in m[l];
    if |m[l]| > 1 {
      assert m[l][0] in m[l] && m[l][1] in m[l] && m[l][0] != m[l][1];
    }
    forall o | Says(claims, l, o) ensures EndpointLe(m[l][0], o) {
      var i :| 0 <= i < |m[l]| && m[l][i] == o;
      EndpointOrder(o, o, o);
    }
    forall o | FirstOfMany(claims, l, o) ensures o == m[l][0] {
      assert m[l][0] in m[l];
      EndpointOrder(o, m[l][0], o);
    }
  }

  lemma ReasonIs(x: Input, coverage: set<string>, claims: seq<Key>, m: Index, node: string)
    requires IsIndex(claims, m)
    ensures ReasonFor(x.inventory, coverage, Nodes(m), node).None? <==> CouldAnswer(x, coverage, claims, node)
    ensures forall reason :: ReasonFor(x.inventory, coverage, Nodes(m), node) == Some(reason) <==>
      CannotAnswer(x, coverage, claims, node, reason)
  {
    IndexNodes(claims, m, node);
  }

  lemma AnsweredIs(claims: seq<Key>, m: Index, l: Endpoint, c: Endpoint)
    requires IsIndex(claims, m)
    ensures Reciprocal(m, l, c) <==> Answered(claims, l, c)
  {
    IndexSays(claims, m, c);
    if c.iface == "" && Reciprocal(m, l, c) {
      var p, q :| p in m && p.node == c.node && q in m[p] && q.node == l.node && (q.iface == "" || q.iface == l.iface);
      IndexSays(claims, m, p);
      assert q in At(m, p);
    }
    if c.iface == "" && Answered(claims, l, c) {
      AnswerIsIndexed(claims, m, l, c);
    }
  }

  lemma AnswerIsIndexed(claims: seq<Key>, m: Index, l: Endpoint, c: Endpoint)
    requires IsIndex(claims, m) && c.iface == "" && Answered(claims, l, c)
    ensures Reciprocal(m, l, c)
  {
    var p, q :| Says(claims, p, q) && p.node == c.node && q.node == l.node && (q.iface == "" || q.iface == l.iface);
    IndexSays(claims, m, p);
    assert p in m && q in At(m, p);
  }

  lemma SeveralAreCalledFor(claims: seq<Key>, m: Index, l: Endpoint, e: Endpoint)
    requires IsIndex(claims, m)
    ensures l in m && |m[l]| > 1 && e == m[l][0] <==> FirstOfMany(claims, l, e)
  {
    IndexSays(claims, m, l);
    if l in m {
      IndexMany(claims, m, l);
    }
  }

  lemma ConflictIsCalledFor(x: Input, lldp: Index, desc: Index, d: Diagnostic, o: Endpoint)
    requires IsIndex(x.lldp, lldp) && IsIndex(x.desc, desc) && d.observed == Some(o)
    requires d.code == DeviceConflict || d.code == InterfaceConflict
    ensures d.local in lldp && o in lldp[d.local] && NeighbourReports(x, lldp, desc, d.local, o, d) <==> CalledFor(x, d)
  {
    IndexSays(x.lldp, lldp, d.local);
    IndexSays(x.desc, desc, d.local);
    assert d.local in lldp && o in lldp[d.local] <==> Says(x.lldp, d.local, o);
  }

  lemma OneWayIsCalledFor(x: Input, lldp: Index, desc: Index, d: Diagnostic, o: Endpoint)
    requires IsIndex(x.lldp, lldp) && d.observed == Some(o) && d.code == OneWayLldp
    ensures d.local in lldp && o in lldp[d.local] && NeighbourReports(x, lldp, desc, d.local, o, d) <==> CalledFor(x, d)
  {
    IndexSays(x.lldp, lldp, d.local);
    IndexSays(x.lldp, lldp, o);
    ReasonIs(x, x.lldpCoverage, x.lldp, lldp, o.node);
    assert d.local in lldp && o in lldp[d.local] <==> Says(x.lldp, d.local, o);
  }

  lemma NeighbourIsCalledFor(x: Input, lldp: Index, desc: Index, d: Diagnostic, o: Endpoint)
    requires IsIndex(x.lldp, lldp) && IsIndex(x.desc, desc) && d.code != MultipleRemotes && d.observed == Some(o)
    ensures d.local in lldp && o in lldp[d.local] && NeighbourReports(x, lldp, desc, d.local, o, d) <==>
      CalledFor(x, d) && d.code != Ambiguous && d.code != NotReciprocal
  {
    if d.code == DeviceConflict || d.code == InterfaceConflict {
      ConflictIsCalledFor(x, lldp, desc, d, o);
    } else if d.code == OneWayLldp {
      OneWayIsCalledFor(x, lldp, desc, d, o);
    }
  }

  lemma LldpIsCalledFor(x: Input, lldp: Index, desc: Index, d: Diagnostic)
    requires IsIndex(x.lldp, lldp) && IsIndex(x.desc, desc)
    ensures LldpReports(x, lldp, desc, d) <==>
      CalledFor(x, d) && d.code != Ambiguous && d.code != NotReciprocal && d.observed.Some?
  {
    if d.observed.Some? {
      if d.code == MultipleRemotes {
        SeveralAreCalledFor(x.lldp, lldp, d.local, d.observed.value);
      } else {
        NeighbourIsCalledFor(x, lldp, desc, d, d.observed.value);
      }
    }
  }

  lemma DescribedIsCalledFor(x: Input, lldp: Index, desc: Index, d: Diagnostic, c: Endpoint)
    requires IsIndex(x.lldp, lldp) && IsIndex(x.desc, desc) && d.code != MultipleRemotes && d.configured == Some(c)
    ensures d.local in desc && c in desc[d.local] && DescriptionReports(x, lldp, desc, d.local, c, d) <==>
      CalledFor(x, d) && d.code == NotReciprocal
  {
    IndexSays(x.lldp, lldp, d.local);
    IndexSays(x.desc, desc, d.local);
    AnsweredIs(x.desc, desc, d.local, c);
    ReasonIs(x, x.configCoverage, x.desc, desc, c.node);
    assert d.local in desc && c in desc[d.local] <==> Says(x.desc, d.local, c);
  }

  lemma DescriptionIsCalledFor(x: Input, lldp: Index, desc: Index, d: Diagnostic)
    requires IsIndex(x.lldp, lldp) && IsIndex(x.desc, desc)
    ensures DescReports(x, lldp, desc, d) <==>
      CalledFor(x, d) && d.code != Ambiguous && d.observed.None? && d.configured.Some?
  {
    if d.configured.Some? {
      if d.code == MultipleRemotes {
        SeveralAreCalledFor(x.desc, desc, d.local, d.configured.value);
      } else {
        DescribedIsCalledFor(x, lldp, desc, d, d.configured.value);
      }
    }
  }

  lemma ReportedIsCalledFor(x: Input, lldp: Index, desc: Index, d: Diagnostic)
    requires IsIndex(x.lldp, lldp) && IsIndex(x.desc, desc)
    ensures Reported(x, lldp, desc, d) <==> CalledFor(x, d)
  {
    LldpIsCalledFor(x, lldp, desc, d);
    DescriptionIsCalledFor(x, lldp, desc, d);
  }

  lemma UnjudgedIsLeftOpen(x: Input, lldp: Index, desc: Index, c: Claim)
    requires IsIndex(x.lldp, lldp) && IsIndex(x.desc, desc)
    ensures Unjudged(x, lldp, desc, c) <==> LeftOpen(x, c)
  {
    IndexSays(x.lldp, lldp, c.local);
    IndexSays(x.desc, desc, c.local);
    IndexSays(x.lldp, lldp, c.claimed);
    ReasonIs(x, x.lldpCoverage, x.lldp, lldp, c.claimed.node);
    ReasonIs(x, x.configCoverage, x.desc, desc, c.claimed.node);
    AnsweredIs(x.desc, desc, c.local, c.claimed);
  }

  lemma EmptyMeansSilent(x: Input, diagnostics: seq<Diagnostic>, claims: seq<Claim>)
    requires forall d :: d in diagnostics <==> CalledFor(x, d)
    requires forall c :: c in claims <==> LeftOpen(x, c)
    ensures diagnostics == [] && claims == [] <==> Silent(x)
  {
    if diagnostics != [] {
      assert diagnostics[0] in diagnostics;
    }
    if claims != [] {
      assert claims[0] in claims;
    }
  }

  /** The judgement of `build_link_diagnostics`. */
  method BuildLinkDiagnostics(x: Input)
    returns (result: Result, evaluation: Evaluation, diagnostics: seq<Diagnostic>, claims: seq<Claim>)
    ensures forall d :: d in diagnostics <==> CalledFor(x, d)
    ensures forall c :: c in claims <==> LeftOpen(x, c)
    ensures evaluation == NotEvaluated <==> x.configCoverage == {} && x.lldpCoverage == {}
    ensures evaluation == Complete <==> Covered(x) && claims == []
    ensures result == Conflict <==>
      exists d :: d in diagnostics && d.code in {MultipleRemotes, DeviceConflict, InterfaceConflict, NotReciprocal}
    ensures result == Warning <==> evaluation == Complete && diagnostics != [] && forall d :: d in diagnostics ==> d.code == OneWayLldp
    ensures result == Pass <==> evaluation == Complete && diagnostics == []
    ensures result == Pass <==> Covered(x) && JudgedAgreement(x)
    ensures LocalsInInventory(x) ==> (result == Pass <==> Covered(x) && Agreement(x))
  {
    var lldpByLocal := BuildIndex(x.lldp);
    var descByLocal := BuildIndex(x.desc);
    var ambiguous := JudgeAmbiguities(x);
    var fromLldp, unjudgedLldp := JudgeLldp(x, lldpByLocal, descByLocal);
    var fromDesc, unjudgedDesc := JudgeDescriptions(x, lldpByLocal, descByLocal);
    diagnostics := ambiguous + fromLldp + fromDesc;
    claims := unjudgedLldp + unjudgedDesc;
    forall d ensures d in diagnostics <==> CalledFor(x, d) {
      ReportedIsCalledFor(x, lldpByLocal, descByLocal, d);
    }
    forall c ensures c in claims <==> LeftOpen(x, c) {
      UnjudgedIsLeftOpen(x, lldpByLocal, descByLocal, c);
    }
    evaluation := EvaluationOf(x, claims);
    result := ResultOf(evaluation, diagnostics);
    EmptyMeansSilent(x, diagnostics, claims);
    SilenceMeansJudgedAgreement(x);
    if LocalsInInventory(x) && Covered(x) {
      SilenceMeansAgreement(x);
    }
  }

  method ResultOf(evaluation: Evaluation, diagnostics: seq<Diagnostic>) returns (result: Result)
    ensures result == Conflict <==> exists d :: d in diagnostics && IsConflict(d.code)
    ensures result == Warning <==> evaluation == Complete && diagnostics != [] && forall d :: d in diagnostics ==> d.code == OneWayLldp
    ensures result == Pass <==> evaluation == Complete && diagnostics == []
  {
    EveryCodeIsClassified();
    assert |diagnostics| > 0 ==> diagnostics[0] in diagnostics;
    if exists d :: d in diagnostics && IsConflict(d.code) {
      result := Conflict;
    } else if evaluation != Complete || exists d :: d in diagnostics && d.code == Ambiguous {
      result := Unknown;
    } else if exists d :: d in diagnostics && d.code == OneWayLldp {
      result := Warning;
    } else {
      result := Pass;
    }
  }

  lemma EveryCodeIsClassified()
    ensures forall c :: IsConflict(c) || c == Ambiguous || c == OneWayLldp
  {}

  /** Where the LLDP claims form an involution the merge confirms every LLDP record as a link of high confidence. */
  lemma AgreementGivesHighConfidence(claims: seq<Key>, e: Evidence, k: Key)
    requires Involution(claims)
    requires KeysOf(e.lldp) == set r | r in claims
    requires k in claims && k.src.node != "" && k.dst.node != ""
    ensures exists row :: row in MergedRows(e, true) && Link(row.record.key) == Link(k) && row.grade.confidence == "high"
  {
    assert Says(claims, k.src, k.dst);
    assert Reverse(k) in claims;
    OneRowPerLink(e, k);
  }
}
