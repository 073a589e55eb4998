// alred/overlay_service.py, build_overlay_service_model: route leaks between
// overlay services, found by an indexed join over route targets.
module RouteTargets {
  import opened Ordering

  datatype Observation = Observation(direction: string, scope: string, af: string, target: string, node: string)

  datatype Placement = Placement(node: string, nveL3Member: bool, kind: string)

  datatype Service = Service(id: string, afs: set<string>, observations: seq<Observation>, placements: seq<Placement>)

  /** (address family, scope, target), a Python tuple of strings. */
  type Key = seq<string>

  /** Route target key to service id to the nodes that observed it. */
  type Index = map<Key, map<string, set<string>>>

  datatype Leak = Leak(source: string, destination: string, af: string, scope: string, target: string,
                       configured: bool, sourceNodes: set<string>, destinationNodes: set<string>)

  function KeyOf(o: Observation): Key {
    [o.af, o.scope, o.target]
  }

  // ---------------------------------------------------------------- meaning

  /** Service ids are the keys of `service_map`. */
  ghost predicate UniqueIds(services: seq<Service>) {
    forall i, j :: 0 <= i < j < |services| ==> services[i].id != services[j].id
  }

  /** `s` exports (or imports) the target `key` on `node`; the empty target counts as unresolved. */
  ghost predicate Observes(s: Service, exported: bool, key: Key, node: string) {
    exists o :: o in s.observations && o.scope == "evpn" && o.target != ""
      && (o.direction == "export") == exported && KeyOf(o) == key && o.node == node
  }

  function ObservingNodes(s: Service, exported: bool, key: Key): (nodes: set<string>)
    ensures forall n :: n in nodes <==> Observes(s, exported, key, n)
  {
    set o | o in s.observations && o.scope == "evpn" && o.target != ""
      && (o.direction == "export") == exported && KeyOf(o) == key :: o.node
  }

  /** Nodes on which the policy of `s` should be seen. */
  function PlacementNodes(s: Service): set<string> {
    var observed := set o | o in s.observations && o.scope == "evpn" :: o.node;
    var nve := set p | p in s.placements && p.nveL3Member :: p.node;
    var evpn := set p | p in s.placements && p.kind != "service-edge" :: p.node;
    if observed + nve != {} then observed + nve else evpn
  }

  /** The naive all-pairs definition of a leak. */
  ghost predicate LeakBetween(s: Service, d: Service, key: Key) {
    && |key| == 3 && s.id != d.id
    && ObservingNodes(s, true, key) != {} && ObservingNodes(d, false, key) != {}
    && key[0] in d.afs
  }

  function LeakOf(s: Service, d: Service, key: Key): Leak
    requires |key| == 3
  {
    LeakSeen(s, d, key, ObservingNodes(s, true, key), ObservingNodes(d, false, key))
  }

  /** The policy counts as configured when it was observed on every placement of both services. */
  function LeakSeen(s: Service, d: Service, key: Key, sourceNodes: set<string>, destinationNodes: set<string>): Leak
    requires |key| == 3
  {
    Leak(s.id, d.id, key[0], key[1], key[2],
         sourceNodes == PlacementNodes(s) && destinationNodes == PlacementNodes(d), sourceNodes, destinationNodes)
  }

  ghost predicate IsLeak(services: seq<Service>, l: Leak) {
    exists s, d, key :: s in services && d in services && LeakBetween(s, d, key) && l == LeakOf(s, d, key)
  }

  // ------------------------------------------------------- a leak, by the observations

  /** The service exports (or imports) the target on the node. */
  ghost predicate SeenOn(s: Service, exported: bool, af: string, target: string, node: string) {
    exists o :: o in s.observations && o.scope == "evpn" && o.af == af && o.target == target && o.node == node
      && (if exported then o.direction == "export" else o.direction != "export")
  }

  /** The node takes part in the service: some target was observed there, or it is a member of the NVE. */
  ghost predicate TakesPart(s: Service, node: string) {
    || (exists o :: o in s.observations && o.scope == "evpn" && o.node == node)
    || (exists p :: p in s.placements && p.nveL3Member && p.node == node)
  }

  /** The policy belongs on the nodes that take part, or where none does on every one that is not an edge. */
  ghost predicate BelongsOn(s: Service, node: string) {
    if exists n :: TakesPart(s, n) then TakesPart(s, node)
    else exists p :: p in s.placements && p.kind != "service-edge" && p.node == node
  }

  /** The leak from `s` to `d`: a target that one exports and the other imports; it is configured if each
      was observed on every node where it belongs and on no other. */
  ghost predicate LeaksTo(s: Service, d: Service, l: Leak) {
    && l.source == s.id && l.destination == d.id && s.id != d.id
    && l.scope == "evpn" && l.target != "" && l.af in d.afs
    && l.sourceNodes != {} && l.destinationNodes != {}
    && (forall n :: n in l.sourceNodes <==> SeenOn(s, true, l.af, l.target, n))
    && (forall n :: n in l.destinationNodes <==> SeenOn(d, false, l.af, l.target, n))
    && (l.configured <==> forall n ::
          && (SeenOn(s, true, l.af, l.target, n) <==> BelongsOn(s, n))
          && (SeenOn(d, false, l.af, l.target, n) <==> BelongsOn(d, n)))
  }

  ghost predicate Leaks(services: seq<Service>, l: Leak) {
    exists s, d :: s in services && d in services && LeaksTo(s, d, l)
  }

  lemma ObservingIsSeen(s: Service, exported: bool, key: Key)
    requires |key| == 3
    ensures key[1] == "evpn" && key[2] != "" ==>
      forall n :: n in ObservingNodes(s, exported, key) <==> SeenOn(s, exported, key[0], key[2], n)
    ensures ObservingNodes(s, exported, key) != {} ==> key[1] == "evpn" && key[2] != ""
  {
    if n :| n in ObservingNodes(s, exported, key) {
      var o :| o in s.observations && o.scope == "evpn" && o.target != "" && KeyOf(o) == key && o.node == n;
      assert KeyOf(o)[1] == "evpn" && KeyOf(o)[2] == o.target;
    }
    if key[1] == "evpn" && key[2] != "" {
      forall n ensures n in ObservingNodes(s, exported, key) <==> SeenOn(s, exported, key[0], key[2], n) {
        if n in ObservingNodes(s, exported, key) {
          var o :| o in s.observations && o.scope == "evpn" && o.target != ""
            && (o.direction == "export") == exported && KeyOf(o) == key && o.node == n;
          assert KeyOf(o)[0] == o.af && KeyOf(o)[2] == o.target;
        }
        if SeenOn(s, exported, key[0], key[2], n) {
          var o :| o in s.observations && o.scope == "evpn" && o.af == key[0] && o.target == key[2] && o.node == n
            && (if exported then o.direction == "export" else o.direction != "export");
          assert KeyOf(o) == key;
        }
      }
    }
  }

  lemma PlacementIsBelonging(s: Service)
    ensures forall n :: n in PlacementNodes(s) <==> BelongsOn(s, n)
  {
    var observed := set o | o in s.observations && o.scope == "evpn" :: o.node;
    var nve := set p | p in s.placements && p.nveL3Member :: p.node;
    var evpn := set p | p in s.placements && p.kind != "service-edge" :: p.node;
    forall n ensures n in observed + nve <==> TakesPart(s, n) {}
    if n :| TakesPart(s, n) {
      assert n in observed + nve;
      assert PlacementNodes(s) == observed + nve;
    } else {
      assert observed + nve == {};
      assert PlacementNodes(s) == evpn;
    }
  }

  /** The all-pairs definition says the same. */
  lemma LeakBetweenIs(s: Service, d: Service, l: Leak)
    ensures LeaksTo(s, d, l) <==> var key := [l.af, l.scope, l.target]; LeakBetween(s, d, key) && l == LeakOf(s, d, key)
  {
    var key := [l.af, l.scope, l.target];
    ObservingIsSeen(s, true, key);
    ObservingIsSeen(d, false, key);
    PlacementIsBelonging(s);
    PlacementIsBelonging(d);
    var from, to := ObservingNodes(s, true, key), ObservingNodes(d, false, key);
    if l.scope == "evpn" && l.target != "" {
      assert from == PlacementNodes(s) <==> forall n :: SeenOn(s, true, l.af, l.target, n) <==> BelongsOn(s, n);
      assert to == PlacementNodes(d) <==> forall n :: SeenOn(d, false, l.af, l.target, n) <==> BelongsOn(d, n);
      assert (forall n :: n in l.sourceNodes <==> SeenOn(s, true, l.af, l.target, n)) <==> l.sourceNodes == from;
      assert (forall n :: n in l.destinationNodes <==> SeenOn(d, false, l.af, l.target, n)) <==> l.destinationNodes == to;
    }
  }

  lemma IsLeakIs(services: seq<Service>, l: Leak)
    ensures IsLeak(services, l) <==> Leaks(services, l)
  {
    if IsLeak(services, l) {
      var s, d, key :| s in services && d in services && LeakBetween(s, d, key) && l == LeakOf(s, d, key);
      assert key == [l.af, l.scope, l.target];
      LeakBetweenIs(s, d, l);
    }
    if s, d :| s in services && d in services && LeaksTo(s, d, l) {
      LeakBetweenIs(s, d, l);
    }
  }

  // -------------------------------------------------------------- the two indexes

  function Nodes(index: Index, key: Key, id: string): set<string> {
    if key in index && id in index[key] then index[key][id] else {}
  }

  /** No empty entries: membership of the index means an observation. */
  ghost predicate Tidy(index: Index) {
    forall key :: key in index ==> index[key] != map[] && forall id :: id in index[key] ==> index[key][id] != {}
  }

  /** One index holds exactly the observations of its direction of the first `n` services. */
  ghost predicate Indexed(services: seq<Service>, n: nat, exported: bool, index: Index)
    requires n <= |services|
  {
    && Tidy(index)
    && (forall i, key :: 0 <= i < n ==> Nodes(index, key, services[i].id) == ObservingNodes(services[i], exported, key))
    && (forall key, id :: Nodes(index, key, id) != {} ==> exists i :: 0 <= i < n && services[i].id == id)
  }

  function Added(index: Index, key: Key, id: string, node: string): Index {
    var entry := if key in index then index[key] else map[];
    var nodes := if id in entry then entry[id] else {};
    index[key := entry[id := nodes + {node}]]
  }

  lemma AddedNodes(index: Index, key: Key, id: string, node: string)
    requires Tidy(index)
    ensures Tidy(Added(index, key, id, node))
    ensures forall k, i ::
      (Nodes(Added(index, key, id, node), k, i) == Nodes(index, k, i) + if k == key && i == id then {node} else {})
  {
    var after := Added(index, key, id, node);
    assert id in after[key];
  }

  /** The index grew from `before` by the observations of `s`. */
  ghost predicate Grown(before: Index, s: Service, exported: bool, now: Index) {
    && Tidy(now)
    && forall key, id {:trigger Nodes(now, key, id)} :: Nodes(now, key, id) ==
         if id == s.id then ObservingNodes(s, exported, key) else Nodes(before, key, id)
  }

  lemma ObservedToo(s: Service, o: Observation, exported: bool, key: Key)
    ensures ObservingNodes(s.(observations := s.observations + [o]), exported, key) == ObservingNodes(s, exported, key) +
      (if o.scope == "evpn" && o.target != "" && (o.direction == "export") == exported && key == KeyOf(o) then {o.node} else {})
  {}

  lemma AddedGrows(before: Index, s: Service, o: Observation, exported: bool, now: Index)
    requires o.scope == "evpn" && o.target != "" && (o.direction == "export") == exported
    requires Grown(before, s, exported, now)
    ensures Grown(before, s.(observations := s.observations + [o]), exported, Added(now, KeyOf(o), s.id, o.node))
  {
    AddedNodes(now, KeyOf(o), s.id, o.node);
    var after, s' := Added(now, KeyOf(o), s.id, o.node), s.(observations := s.observations + [o]);
    forall key, id ensures Nodes(after, key, id) ==
      if id == s.id then ObservingNodes(s', exported, key) else Nodes(before, key, id)
    {
      ObservedToo(s, o, exported, key);
    }
  }

  lemma SkippedKeeps(before: Index, s: Service, o: Observation, exported: bool, now: Index)
    requires o.scope != "evpn" || o.target == "" || (o.direction == "export") != exported
    requires Grown(before, s, exported, now)
    ensures Grown(before, s.(observations := s.observations + [o]), exported, now)
  {
    var s' := s.(observations := s.observations + [o]);
    forall key, id ensures Nodes(now, key, id) ==
      if id == s.id then ObservingNodes(s', exported, key) else Nodes(before, key, id)
    {
      ObservedToo(s, o, exported, key);
    }
  }

  method IndexService(s: Service, exports0: Index, imports0: Index) returns (exports: Index, imports: Index)
    requires Tidy(exports0) && forall key :: Nodes(exports0, key, s.id) == {}
    requires Tidy(imports0) && forall key :: Nodes(imports0, key, s.id) == {}
    ensures Grown(exports0, s, true, exports) && Grown(imports0, s, false, imports)
  {
    exports, imports := exports0, imports0;
    for i := 0 to |s.observations|
      invariant Grown(exports0, s.(observations := s.observations[..i]), true, exports)
      invariant Grown(imports0, s.(observations := s.observations[..i]), false, imports)
    {
      var o := s.observations[i];
      ghost var done := s.(observations := s.observations[..i]);
      assert s.(observations := s.observations[..i + 1]) == done.(observations := done.observations + [o]);
      if o.scope != "evpn" || o.target == "" {
        SkippedKeeps(exports0, done, o, true, exports);
        SkippedKeeps(imports0, done, o, false, imports);
        continue;
      }
      if o.direction == "export" {
        AddedGrows(exports0, done, o, true, exports);
        SkippedKeeps(imports0, done, o, false, imports);
        exports := Added(exports, KeyOf(o), s.id, o.node);
      } else {
        SkippedKeeps(exports0, done, o, true, exports);
        AddedGrows(imports0, done, o, false, imports);
        imports := Added(imports, KeyOf(o), s.id, o.node);
      }
    }
    assert s.(observations := s.observations[..|s.observations|]) == s;
  }

  lemma NextIndexed(services: seq<Service>, n: nat, exported: bool, before: Index, now: Index)
    requires UniqueIds(services) && n < |services| && Indexed(services, n, exported, before)
    requires Grown(before, services[n], exported, now)
    ensures Indexed(services, n + 1, exported, now)
  {
    forall key, id | Nodes(now, key, id) != {} ensures exists i :: 0 <= i < n + 1 && services[i].id == id {
      if id == services[n].id {
        assert services[n].id == id;
      } else {
        assert Nodes(before, key, id) != {};
      }
    }
  }

  lemma NotIndexedYet(services: seq<Service>, n: nat, exported: bool, index: Index)
    requires UniqueIds(services) && n < |services| && Indexed(services, n, exported, index)
    ensures forall key :: Nodes(index, key, services[n].id) == {}
  {}

  method BuildIndexes(services: seq<Service>) returns (exports: Index, imports: Index)
    requires UniqueIds(services)
    ensures Indexed(services, |services|, true, exports) && Indexed(services, |services|, false, imports)
  {
    exports, imports := map[], map[];
    for i := 0 to |services|
      invariant Indexed(services, i, true, exports) && Indexed(services, i, false, imports)
    {
      NotIndexedYet(services, i, true, exports);
      NotIndexedYet(services, i, false, imports);
      ghost var e, m := exports, imports;
      exports, imports := IndexService(services[i], exports, imports);
      NextIndexed(services, i, true, e, exports);
      NextIndexed(services, i, false, m, imports);
    }
  }

  // ------------------------------------------------------------------- the join

  ghost predicate Distinct(leaks: seq<Leak>) {
    forall i, j :: 0 <= i < j < |leaks| ==> leaks[i] != leaks[j]
  }

  lemma DistinctJoin(a: seq<Leak>, b: seq<Leak>)
    requires Distinct(a) && Distinct(b) && forall l :: l in a ==> l !in b
    ensures Distinct(a + b)
  {
    var c := a + b;
    forall i, j | 0 <= i < j < |c| ensures c[i] != c[j] {
      if i < |a| <= j { assert c[i] in a && c[j] in b; }
    }
  }

  lemma IndexedIds(services: seq<Service>, exported: bool, index: Index, key: Key, id: string)
    requires UniqueIds(services) && Indexed(services, |services|, exported, index)
    ensures key in index && id in index[key] <==>
      exists s :: s in services && s.id == id && ObservingNodes(s, exported, key) != {}
    ensures forall s :: s in services ==> Nodes(index, key, s.id) == ObservingNodes(s, exported, key)
  {
    assert key in index && id in index[key] <==> Nodes(index, key, id) != {};
    if Nodes(index, key, id) != {} {
      var i :| 0 <= i < |services| && services[i].id == id;
      assert services[i] in services && Nodes(index, key, services[i].id) == ObservingNodes(services[i], exported, key);
    }
  }

  ghost predicate ById(services: seq<Service>, byId: map<string, Service>) {
    && (forall s :: s in services ==> s.id in byId && byId[s.id] == s)
    && (forall id :: id in byId ==> byId[id].id == id && byId[id] in services)
  }

  ghost predicate SourceLeak(services: seq<Service>, s: Service, key: Key, l: Leak) {
    exists d :: d in services && LeakBetween(s, d, key) && l == LeakOf(s, d, key)
  }

  ghost predicate KeyLeak(services: seq<Service>, key: Key, l: Leak) {
    exists s, d :: s in services && d in services && LeakBetween(s, d, key) && l == LeakOf(s, d, key)
  }

  /** `l` leaks from `s` under `key` to one of the services named in `ids`. */
  ghost predicate FromSource(services: seq<Service>, s: Service, key: Key, ids: seq<string>, l: Leak) {
    exists d :: d in services && d.id in ids && LeakBetween(s, d, key) && l == LeakOf(s, d, key)
  }

  lemma NextDestination(services: seq<Service>, byId: map<string, Service>, s: Service, key: Key, ids: seq<string>, i: nat)
    requires ById(services, byId) && i < |ids| && ids[i] in byId && |key| == 3
    ensures byId[ids[i]] in services
    ensures forall l :: FromSource(services, s, key, ids[..i + 1], l) <==>
        FromSource(services, s, key, ids[..i], l) || (LeakBetween(s, byId[ids[i]], key) && l == LeakOf(s, byId[ids[i]], key))
  {
    var d := byId[ids[i]];
    assert ids[..i + 1] == ids[..i] + [ids[i]];
    assert d in services && d.id == ids[i];
    forall l | FromSource(services, s, key, ids[..i + 1], l)
      ensures FromSource(services, s, key, ids[..i], l) || (LeakBetween(s, d, key) && l == LeakOf(s, d, key))
    {
      var e :| e in services && e.id in ids[..i + 1] && LeakBetween(s, e, key) && l == LeakOf(s, e, key);
      assert e.id == ids[i] ==> e == d;
    }
    forall l | FromSource(services, s, key, ids[..i], l) || (LeakBetween(s, d, key) && l == LeakOf(s, d, key))
      ensures FromSource(services, s, key, ids[..i + 1], l)
    {
      if FromSource(services, s, key, ids[..i], l) {
        var e :| e in services && e.id in ids[..i] && LeakBetween(s, e, key) && l == LeakOf(s, e, key);
        assert e.id in ids[..i + 1];
      }
    }
  }

  lemma NotYet(services: seq<Service>, s: Service, key: Key, ids: seq<string>, i: nat, d: Service)
    requires i < |ids| && d.id == ids[i] && |key| == 3
    requires forall j, k :: 0 <= j < k < |ids| ==> ids[j] != ids[k]
    ensures !FromSource(services, s, key, ids[..i], LeakOf(s, d, key))
  {}

  /** One destination service of one key out of one source service. */
  method JoinPair(services: seq<Service>, byId: map<string, Service>, imports: Index, key: Key, s: Service,
                  sourceNodes: set<string>, id: string)
    returns (found: seq<Leak>)
    requires UniqueIds(services) && ById(services, byId) && s in services
    requires Indexed(services, |services|, false, imports) && key in imports && |key| == 3 && id in imports[key]
    requires sourceNodes == ObservingNodes(s, true, key) != {}
    ensures id in byId && |found| <= 1
    ensures forall l :: l in found <==> LeakBetween(s, byId[id], key) && l == LeakOf(s, byId[id], key)
  {
    IndexedIds(services, false, imports, key, id);
    found := [];
    var d := byId[id];
    if s.id != d.id && key[0] in d.afs {
      found := [LeakSeen(s, d, key, sourceNodes, imports[key][d.id])];
    }
  }

  /** The innermost loop: all leaks of one key out of one service. */
  method JoinSource(services: seq<Service>, byId: map<string, Service>, imports: Index, key: Key, s: Service,
                    sourceNodes: set<string>)
    returns (leaks: seq<Leak>)
    requires UniqueIds(services) && ById(services, byId) && s in services
    requires Indexed(services, |services|, false, imports) && key in imports && |key| == 3
    requires sourceNodes == ObservingNodes(s, true, key) != {}
    ensures Distinct(leaks)
    ensures forall l :: l in leaks <==> SourceLeak(services, s, key, l)
  {
    StrOrder();
    leaks := [];
    var ids := Sorted(StrLe, imports[key].Keys);
    for i := 0 to |ids|
      invariant Distinct(leaks)
      invariant forall l :: l in leaks <==> FromSource(services, s, key, ids[..i], l)
    {
      var found := JoinPair(services, byId, imports, key, s, sourceNodes, ids[i]);
      NextDestination(services, byId, s, key, ids, i);
      NotYet(services, s, key, ids, i, byId[ids[i]]);
      DistinctJoin(leaks, found);
      leaks := leaks + found;
    }
    AllDestinations(services, imports, key, s, ids);
  }

  lemma AllDestinations(services: seq<Service>, imports: Index, key: Key, s: Service, ids: seq<string>)
    requires UniqueIds(services) && Indexed(services, |services|, false, imports) && key in imports
    requires forall id :: id in ids <==> id in imports[key]
    ensures forall l :: FromSource(services, s, key, ids[..|ids|], l) <==> SourceLeak(services, s, key, l)
  {
    assert ids[..|ids|] == ids;
    forall d | d in services && LeakBetween(s, d, key) ensures d.id in ids {
      IndexedIds(services, false, imports, key, d.id);
    }
  }

  /** `l` leaks under `key` from one of the services named in `ids`. */
  ghost predicate UnderKey(services: seq<Service>, key: Key, ids: seq<string>, l: Leak) {
    exists s, d :: s in services && s.id in ids && d in services && LeakBetween(s, d, key) && l == LeakOf(s, d, key)
  }

  lemma NextSource(services: seq<Service>, byId: map<string, Service>, key: Key, ids: seq<string>, i: nat, found: seq<Leak>)
    requires ById(services, byId) && i < |ids| && ids[i] in byId && |key| == 3
    requires forall j, k :: 0 <= j < k < |ids| ==> ids[j] != ids[k]
    requires forall l :: l in found <==> SourceLeak(services, byId[ids[i]], key, l)
    ensures forall l :: UnderKey(services, key, ids[..i + 1], l) <==> UnderKey(services, key, ids[..i], l) || l in found
    ensures forall l :: l in found ==> !UnderKey(services, key, ids[..i], l)
  {
    assert ids[..i + 1] == ids[..i] + [ids[i]];
    var s := byId[ids[i]];
    forall l | UnderKey(services, key, ids[..i + 1], l)
      ensures UnderKey(services, key, ids[..i], l) || l in found
    {
      var s', d :| s' in services && s'.id in ids[..i + 1] && d in services && LeakBetween(s', d, key) && l == LeakOf(s', d, key);
      assert s'.id == ids[i] ==> s' == s;
    }
    forall l | l in found ensures UnderKey(services, key, ids[..i + 1], l) && !UnderKey(services, key, ids[..i], l) {
      var d :| d in services && LeakBetween(s, d, key) && l == LeakOf(s, d, key);
      assert l.source == ids[i];
    }
  }

  /** The middle loop: all leaks of one key. */
  method JoinKey(services: seq<Service>, byId: map<string, Service>, exports: Index, imports: Index, key: Key)
    returns (leaks: seq<Leak>)
    requires UniqueIds(services) && ById(services, byId)
    requires Indexed(services, |services|, true, exports) && Indexed(services, |services|, false, imports)
    requires key in exports && key in imports && |key| == 3
    ensures Distinct(leaks)
    ensures forall l :: l in leaks <==> KeyLeak(services, key, l)
  {
    StrOrder();
    leaks := [];
    var ids := Sorted(StrLe, exports[key].Keys);
    for i := 0 to |ids|
      invariant Distinct(leaks)
      invariant forall l :: l in leaks <==> UnderKey(services, key, ids[..i], l)
    {
      SourceKnown(services, byId, exports, key, ids[i]);
      var found := JoinSource(services, byId, imports, key, byId[ids[i]], exports[key][ids[i]]);
      NextSource(services, byId, key, ids, i, found);
      DistinctJoin(leaks, found);
      leaks := leaks + found;
    }
    AllSources(services, exports, key, ids);
  }

  lemma SourceKnown(services: seq<Service>, byId: map<string, Service>, exports: Index, key: Key, id: string)
    requires UniqueIds(services) && ById(services, byId) && Indexed(services, |services|, true, exports)
    requires key in exports && id in exports[key]
    ensures id in byId && byId[id] in services && exports[key][id] == ObservingNodes(byId[id], true, key) != {}
  {
    IndexedIds(services, true, exports, key, id);
  }

  lemma AllSources(services: seq<Service>, exports: Index, key: Key, ids: seq<string>)
    requires UniqueIds(services) && Indexed(services, |services|, true, exports) && key in exports
    requires forall id :: id in ids <==> id in exports[key]
    ensures forall l :: UnderKey(services, key, ids[..|ids|], l) <==> KeyLeak(services, key, l)
  {
    assert ids[..|ids|] == ids;
    forall s, d | s in services && LeakBetween(s, d, key) ensures s.id in ids {
      IndexedIds(services, true, exports, key, s.id);
    }
  }

  // ------------------------------------------------------------------ all the leaks

  /** `l` leaks under one of `keys`. */
  ghost predicate UnderKeys(services: seq<Service>, keys: seq<Key>, l: Leak) {
    [l.af, l.scope, l.target] in keys && IsLeak(services, l)
  }

  lemma NextKey(services: seq<Service>, keys: seq<Key>, i: nat, found: seq<Leak>)
    requires i < |keys| && |keys[i]| == 3 && forall j, k :: 0 <= j < k < |keys| ==> keys[j] != keys[k]
    requires forall l :: l in found <==> KeyLeak(services, keys[i], l)
    ensures forall l :: UnderKeys(services, keys[..i + 1], l) <==> UnderKeys(services, keys[..i], l) || l in found
    ensures forall l :: l in found ==> !UnderKeys(services, keys[..i], l)
  {
    assert keys[..i + 1] == keys[..i] + [keys[i]];
    forall l ensures l in found <==> IsLeak(services, l) && [l.af, l.scope, l.target] == keys[i] {
      if l in found {
        var s, d :| s in services && d in services && LeakBetween(s, d, keys[i]) && l == LeakOf(s, d, keys[i]);
        assert [l.af, l.scope, l.target] == keys[i];
      }
      if IsLeak(services, l) && [l.af, l.scope, l.target] == keys[i] {
        var s, d, key :| s in services && d in services && LeakBetween(s, d, key) && l == LeakOf(s, d, key);
        assert key == keys[i];
      }
    }
  }

  function SortKey(l: Leak): seq<string> {
    [l.source, l.destination, l.af, l.target]
  }

  /** A leak is identified by its services, address family and target. */
  lemma SortKeyIdentifies(services: seq<Service>, a: Leak, b: Leak)
    requires UniqueIds(services) && IsLeak(services, a) && IsLeak(services, b) && SortKey(a) == SortKey(b)
    ensures a == b
  {
    var s, d, key :| s in services && d in services && LeakBetween(s, d, key) && a == LeakOf(s, d, key);
    var s', d', key' :| s' in services && d' in services && LeakBetween(s', d', key') && b == LeakOf(s', d', key');
    assert SortKey(a)[0] == SortKey(b)[0] && SortKey(a)[1] == SortKey(b)[1];
    assert SortKey(a)[2] == SortKey(b)[2] && SortKey(a)[3] == SortKey(b)[3];
    EvpnKey(s, key);
    EvpnKey(s', key');
    assert key == key';
  }

  lemma EvpnKey(s: Service, key: Key)
    requires |key| == 3 && ObservingNodes(s, true, key) != {}
    ensures key[1] == "evpn" && key == [key[0], "evpn", key[2]]
  {
    var n :| n in ObservingNodes(s, true, key);
    var o :| o in s.observations && o.scope == "evpn" && KeyOf(o) == key && o.node == n;
    assert KeyOf(o)[1] == "evpn";
  }

  /** The outer loop: all leaks of all common keys. */
  method JoinKeys(services: seq<Service>, byId: map<string, Service>, exports: Index, imports: Index, keys: seq<Key>)
    returns (found: seq<Leak>)
    requires UniqueIds(services) && ById(services, byId)
    requires Indexed(services, |services|, true, exports) && Indexed(services, |services|, false, imports)
    requires forall key :: key in keys <==> key in exports.Keys * imports.Keys
    requires forall i, j :: 0 <= i < j < |keys| ==> keys[i] != keys[j]
    ensures Distinct(found) && forall l :: l in found <==> IsLeak(services, l)
  {
    found := [];
    for i := 0 to |keys|
      invariant Distinct(found)
      invariant forall l :: l in found <==> UnderKeys(services, keys[..i], l)
    {
      assert keys[i] in keys;
      KeyShape(services, exports, keys[i]);
      var more := JoinKey(services, byId, exports, imports, keys[i]);
      NextKey(services, keys, i, more);
      DistinctJoin(found, more);
      found := found + more;
    }
    AllKeys(services, exports, imports, keys);
  }

  /** The indexes, the join over the common keys, and the final sort. The list
      holds every leak of the all-pairs definition exactly once, and nothing else. */
  method RouteLeaks(services: seq<Service>) returns (leaks: seq<Leak>)
    requires UniqueIds(services)
    ensures forall l :: l in leaks <==> IsLeak(services, l)
    ensures forall l :: l in leaks <==> Leaks(services, l)
    ensures forall i, j :: 0 <= i < j < |leaks| ==>
      SortKey(leaks[i]) != SortKey(leaks[j]) && ChainLe(SortKey(leaks[i]), SortKey(leaks[j]))
    ensures forall l :: SortKey(l) == [l.source, l.destination, l.af, l.target]
  {
    var exports, imports := BuildIndexes(services);
    var byId := map s | s in services :: s.id := s;
    ChainOrder();
    var keys := Sorted(ChainLe, exports.Keys * imports.Keys);
    var found := JoinKeys(services, byId, exports, imports, keys);
    leaks := SortBy(found, SortKey, ChainLe);
    SortedLeaks(services, found, leaks);
    TheseAreLeaks(services, leaks);
  }

  lemma TheseAreLeaks(services: seq<Service>, leaks: seq<Leak>)
    requires forall l :: l in leaks <==> IsLeak(services, l)
    ensures forall l :: l in leaks <==> Leaks(services, l)
  {
    forall l ensures l in leaks <==> Leaks(services, l) {
      IsLeakIs(services, l);
    }
  }

  lemma KeyShape(services: seq<Service>, exports: Index, key: Key)
    requires Indexed(services, |services|, true, exports) && key in exports
    ensures |key| == 3
  {
    var id :| id in exports[key];
    assert Nodes(exports, key, id) != {};
    var i :| 0 <= i < |services| && services[i].id == id;
    var n :| n in ObservingNodes(services[i], true, key);
    var o :| o in services[i].observations && KeyOf(o) == key;
  }

  lemma AllKeys(services: seq<Service>, exports: Index, imports: Index, keys: seq<Key>)
    requires UniqueIds(services)
    requires Indexed(services, |services|, true, exports) && Indexed(services, |services|, false, imports)
    requires forall key :: key in keys <==> key in exports.Keys * imports.Keys
    ensures forall l :: UnderKeys(services, keys[..|keys|], l) <==> IsLeak(services, l)
  {
    assert keys[..|keys|] == keys;
    forall l | IsLeak(services, l) ensures [l.af, l.scope, l.target] in keys {
      var s, d, key :| s in services && d in services && LeakBetween(s, d, key) && l == LeakOf(s, d, key);
      IndexedIds(services, true, exports, key, s.id);
      IndexedIds(services, false, imports, key, d.id);
      assert [l.af, l.scope, l.target] == key;
    }
  }

  lemma SortedLeaks(services: seq<Service>, found: seq<Leak>, leaks: seq<Leak>)
    requires UniqueIds(services) && Distinct(found) && forall l :: l in found <==> IsLeak(services, l)
    requires TotalOrder(ChainLe) && leaks == SortBy(found, SortKey, ChainLe)
    ensures forall l :: l in leaks <==> IsLeak(services, l)
    ensures forall i, j :: 0 <= i < j < |leaks| ==>
      SortKey(leaks[i]) != SortKey(leaks[j]) && ChainLe(SortKey(leaks[i]), SortKey(leaks[j]))
  {
    SortByKeeps(found, SortKey, ChainLe);
    forall l ensures l in leaks <==> IsLeak(services, l) {
      assert l in leaks <==> l in multiset(leaks);
      assert l in found <==> l in multiset(found);
    }
    DistinctMultiset(found);
    forall i, j | 0 <= i < j < |leaks|
      ensures SortKey(leaks[i]) != SortKey(leaks[j]) && ChainLe(SortKey(leaks[i]), SortKey(leaks[j]))
    {
      if SortKey(leaks[i]) == SortKey(leaks[j]) {
        assert leaks[i] in leaks && leaks[j] in leaks;
        SortKeyIdentifies(services, leaks[i], leaks[j]);
        TwiceInMultiset(leaks, i, j);
      }
    }
  }

  lemma {:induction false} DistinctMultiset(s: seq<Leak>)
    requires Distinct(s)
    ensures forall l :: multiset(s)[l] <= 1
  {
    if s != [] {
      DistinctMultiset(s[1..]);
      assert s == [s[0]] + s[1..];
      assert s[0] !in s[1..] && s[0] !in multiset(s[1..]);
    }
  }

  lemma TwiceInMultiset(s: seq<Leak>, i: nat, j: nat)
    requires i < j < |s| && s[i] == s[j]
    ensures multiset(s)[s[i]] >= 2
  {
    assert s == s[..j] + s[j..];
    assert s[i] in s[..j] && s[j] in s[j..];
    assert multiset(s) == multiset(s[..j]) + multiset(s[j..]);
  }
}
