// alred/overlay_service.py, overlay_model_to_render_context: layout ranks of
// the visible services, one breadth-first search for each component and a
// second one from its hub.
module ServiceLayout {
  import opened Ordering

  type Graph = map<string, set<string>>

  datatype Leak = Leak(source: string, destination: string)

  // ---------------------------------------------------------------- meaning

  /** Undirected and without edges out of the graph. */
  ghost predicate IsGraph(adj: Graph) {
    forall a, b :: a in adj && b in adj[a] ==> b in adj && a in adj[b]
  }

  ghost predicate Step(adj: Graph, a: string, b: string) {
    a in adj && b in adj[a]
  }

  ghost predicate Walk(adj: Graph, p: seq<string>, u: string, v: string) {
    && p != [] && p[0] == u && p[|p| - 1] == v
    && forall i :: 0 <= i < |p| - 1 ==> Step(adj, p[i], p[i + 1])
  }

  ghost predicate Connected(adj: Graph, u: string, v: string) {
    exists p :: Walk(adj, p, u, v)
  }

  /** `n` edges lead from `u` to `v`, and fewer do not. */
  ghost predicate Distance(adj: Graph, u: string, v: string, n: nat) {
    && (exists p :: Walk(adj, p, u, v) && |p| == n + 1)
    && forall p :: Walk(adj, p, u, v) ==> |p| >= n + 1
  }

  /** The key `(-len(adjacency[node]), node)` of `a` is at most that of `b`. */
  predicate Before(adj: Graph, a: string, b: string)
    requires a in adj && b in adj
  {
    |adj[a]| > |adj[b]| || (|adj[a]| == |adj[b]| && StrLe(a, b))
  }

  ghost predicate IsHub(adj: Graph, hub: string, v: string) {
    && hub in adj && Connected(adj, hub, v)
    && forall w :: w in adj && Connected(adj, hub, w) ==> Before(adj, hub, w)
  }

  ghost predicate Ranked(adj: Graph, v: string, n: nat) {
    exists hub :: IsHub(adj, hub, v) && Distance(adj, hub, v, n)
  }

  ghost predicate Linked(leaks: seq<Leak>, a: string, b: string) {
    Leak(a, b) in leaks || Leak(b, a) in leaks
  }

  // ------------------------------------------------------------------ walks

  lemma Joined(adj: Graph, p: seq<string>, q: seq<string>, u: string, v: string, w: string)
    requires Walk(adj, p, u, v) && Walk(adj, q, v, w)
    ensures Walk(adj, p + q[1..], u, w)
  {
    var r := p + q[1..];
    forall i | 0 <= i < |r| - 1 ensures Step(adj, r[i], r[i + 1]) {
      if i < |p| - 1 {
        assert Step(adj, p[i], p[i + 1]);
      } else {
        assert Step(adj, q[i - |p| + 1], q[i - |p| + 2]);
      }
    }
  }

  lemma Extended(adj: Graph, p: seq<string>, u: string, v: string, w: string)
    requires Walk(adj, p, u, v) && Step(adj, v, w)
    ensures Walk(adj, p + [w], u, w)
  {
    assert Walk(adj, [v, w], v, w);
    Joined(adj, p, [v, w], u, v, w);
  }

  function Reversed(p: seq<string>): (r: seq<string>)
    ensures |r| == |p| && forall i :: 0 <= i < |p| ==> r[i] == p[|p| - 1 - i]
  {
    seq(|p|, i requires 0 <= i < |p| => p[|p| - 1 - i])
  }

  lemma Reverse(adj: Graph, p: seq<string>, u: string, v: string)
    requires IsGraph(adj) && Walk(adj, p, u, v)
    ensures Walk(adj, Reversed(p), v, u)
  {
    var r := Reversed(p);
    forall i | 0 <= i < |r| - 1 ensures Step(adj, r[i], r[i + 1]) {
      assert Step(adj, p[|p| - 2 - i], p[|p| - 2 - i + 1]);
    }
  }

  lemma ConnectedBothWays(adj: Graph, u: string, v: string)
    requires IsGraph(adj) && Connected(adj, u, v)
    ensures Connected(adj, v, u)
  {
    var p :| Walk(adj, p, u, v);
    Reverse(adj, p, u, v);
  }

  lemma ConnectedThrough(adj: Graph, u: string, v: string, w: string)
    requires Connected(adj, u, v) && Connected(adj, v, w)
    ensures Connected(adj, u, w)
  {
    var p :| Walk(adj, p, u, v);
    var q :| Walk(adj, q, v, w);
    Joined(adj, p, q, u, v, w);
  }

  ghost predicate Closed(adj: Graph, c: set<string>) {
    forall a, b :: a in c && Step(adj, a, b) ==> b in c
  }

  lemma {:induction false} WalkStaysInside(adj: Graph, c: set<string>, p: seq<string>, u: string, v: string)
    requires Closed(adj, c) && u in c && Walk(adj, p, u, v)
    ensures v in c
    decreases |p|
  {
    if |p| > 1 {
      assert Step(adj, p[0], p[1]);
      forall i | 0 <= i < |p| - 2 ensures Step(adj, p[1..][i], p[1..][i + 1]) {
        assert Step(adj, p[i + 1], p[i + 2]);
      }
      WalkStaysInside(adj, c, p[1..], p[1], v);
    }
  }

  // ------------------------------------------------------------ the adjacency

  method BuildAdjacency(visible: set<string>, leaks: seq<Leak>) returns (adj: Graph)
    ensures adj.Keys == visible && IsGraph(adj)
    ensures forall a, b :: a in visible && b in visible ==> (b in adj[a] <==> Linked(leaks, a, b))
  {
    var grouped: set<(string, string)> := {};
    for i := 0 to |leaks|
      invariant forall a, b :: (a, b) in grouped <==> a in visible && b in visible && Leak(a, b) in leaks[..i]
    {
      assert leaks[..i + 1] == leaks[..i] + [leaks[i]];
      if leaks[i].source in visible && leaks[i].destination in visible {
        grouped := grouped + {(leaks[i].source, leaks[i].destination)};
      }
    }
    assert leaks[..|leaks|] == leaks;
    adj := map v | v in visible :: {};
    var todo := grouped;
    while todo != {}
      invariant todo <= grouped && adj.Keys == visible
      invariant forall a, b :: a in visible ==>
        (b in adj[a] <==> (a, b) in grouped - todo || (b, a) in grouped - todo)
    {
      var pair :| pair in todo;
      var (s, d) := pair;
      adj := adj[s := adj[s] + {d}];
      adj := adj[d := adj[d] + {s}];
      todo := todo - {pair};
    }
  }

  // ---------------------------------------------------------- the two searches

  /** First search: the component of `seed`. */
  method Component(adj: Graph, seed: string) returns (component: set<string>)
    requires IsGraph(adj) && seed in adj
    ensures component <= adj.Keys && forall v :: v in component <==> Connected(adj, seed, v)
  {
    StrOrder();
    component := {};
    var queue := [seed];
    assert Walk(adj, [seed], seed, seed);
    while queue != []
      invariant component <= adj.Keys && seed in component + Members(queue)
      invariant forall v :: v in component + Members(queue) ==> v in adj && Connected(adj, seed, v)
      invariant forall a, b :: a in component && Step(adj, a, b) ==> b in component + Members(queue)
      decreases adj.Keys - component, |queue|
    {
      var node := queue[0];
      var rest := queue[1..];
      assert Members(queue) == {node} + Members(rest);
      queue := rest;
      if node in component { continue; }
      component := component + {node};
      var unvisited := Sorted(StrLe, adj[node] - component);
      forall v | v in unvisited ensures v in adj && Connected(adj, seed, v) {
        var p :| Walk(adj, p, seed, node);
        Extended(adj, p, seed, node, v);
      }
      assert Members(queue + unvisited) == Members(queue) + Members(unvisited);
      queue := queue + unvisited;
    }
    forall v | Connected(adj, seed, v) ensures v in component {
      var p :| Walk(adj, p, seed, v);
      WalkStaysInside(adj, component, p, seed, v);
    }
  }

  ghost function Members(s: seq<string>): set<string> {
    set v | v in s
  }

  function Hub(adj: Graph, component: set<string>): (hub: string)
    requires component != {} && component <= adj.Keys
    ensures hub in component && forall w :: w in component ==> Before(adj, hub, w)
  {
    HubExists(adj, component);
    var hub :| hub in component && forall w :: w in component ==> Before(adj, hub, w);
    assert TotalOrder(StrLe) by { StrOrder(); }
    hub
  }

  lemma {:induction false} HubExists(adj: Graph, component: set<string>)
    requires component != {} && component <= adj.Keys
    ensures exists hub :: hub in component && forall w :: w in component ==> Before(adj, hub, w)
    ensures TotalOrder(StrLe)
  {
    StrOrder();
    var x :| x in component;
    if component == {x} {
      assert forall w :: w in component ==> Before(adj, x, w);
    } else {
      var rest := component - {x};
      HubExists(adj, rest);
      var hub :| hub in rest && forall w :: w in rest ==> Before(adj, hub, w);
      assert component == rest + {x};
      var best := if Before(adj, x, hub) then x else hub;
      assert best in component && forall w :: w in component ==> Before(adj, best, w);
    }
  }

  /** `n` edges lead from the hub to `v`. */
  ghost predicate Reached(adj: Graph, hub: string, v: string, n: nat) {
    exists p :: Walk(adj, p, hub, v) && |p| == n + 1
  }

  /** Invariant of the second search: `done` was taken from the queue. */
  ghost predicate Frontier(adj: Graph, hub: string, dist: map<string, nat>, queue: seq<string>, done: set<string>) {
    && dist.Keys == done + Members(queue) && dist.Keys <= adj.Keys && done !! Members(queue)
    && (forall i, j :: 0 <= i < j < |queue| ==> queue[i] != queue[j])
    && hub in dist && dist[hub] == 0
    && (forall v :: v in dist ==> Reached(adj, hub, v, dist[v]))
    && InOrder(dist, queue, done)
    && (forall a, b :: a in done && Step(adj, a, b) ==> b in dist && dist[b] <= dist[a] + 1)
  }

  /** The queue holds at most two consecutive distances, in order, none below a finished one. */
  ghost predicate InOrder(dist: map<string, nat>, queue: seq<string>, done: set<string>)
    requires dist.Keys == done + Members(queue)
  {
    && (forall i, j :: 0 <= i <= j < |queue| ==> dist[queue[i]] <= dist[queue[j]] <= dist[queue[0]] + 1)
    && (forall v :: v in done && queue != [] ==> dist[v] <= dist[queue[0]])
  }

  /** Invariant of its inner loop, with `node` taken from the queue and the neighbours in `seen` handled. */
  ghost predicate Exploring(adj: Graph, hub: string, dist: map<string, nat>, node: string, queue: seq<string>,
                            done: set<string>, seen: set<string>)
  {
    && Frontier(adj, hub, dist, [node] + queue, done)
    && forall b :: b in seen ==> b in dist && dist[b] <= dist[node] + 1
  }

  lemma SeenBefore(adj: Graph, hub: string, dist: map<string, nat>, node: string, queue: seq<string>,
                   done: set<string>, seen: set<string>, b: string)
    requires Exploring(adj, hub, dist, node, queue, done, seen) && b in dist
    ensures Exploring(adj, hub, dist, node, queue, done, seen + {b})
  {
    var q := [node] + queue;
    if b in Members(q) {
      var i :| 0 <= i < |q| && q[i] == b;
      assert dist[q[i]] <= dist[q[0]] + 1;
    } else {
      assert dist[b] <= dist[q[0]];
    }
  }

  lemma AppendedInOrder(dist: map<string, nat>, q: seq<string>, done: set<string>, b: string)
    requires q != [] && dist.Keys == done + Members(q) && b !in dist && InOrder(dist, q, done)
    ensures var d := dist[b := dist[q[0]] + 1];
      d.Keys == done + Members(q + [b]) && InOrder(d, q + [b], done)
  {
    var d, q' := dist[b := dist[q[0]] + 1], q + [b];
    assert Members(q') == Members(q) + {b};
    forall i, j | 0 <= i <= j < |q'| ensures d[q'[i]] <= d[q'[j]] <= d[q'[0]] + 1 {
      assert q'[i] == if i < |q| then q[i] else b;
      assert q'[j] == if j < |q| then q[j] else b;
      assert i < |q| ==> dist[q[0]] <= dist[q[i]] <= dist[q[0]] + 1;
    }
  }

  lemma Discovered(adj: Graph, hub: string, dist: map<string, nat>, node: string, queue: seq<string>,
                   done: set<string>, seen: set<string>, b: string)
    requires IsGraph(adj) && Exploring(adj, hub, dist, node, queue, done, seen) && Step(adj, node, b) && b !in dist
    ensures Exploring(adj, hub, dist[b := dist[node] + 1], node, queue + [b], done, seen + {b})
  {
    var q := [node] + queue;
    AppendedInOrder(dist, q, done, b);
    assert [node] + (queue + [b]) == q + [b];
    assert q[0] in Members(q);
    var p :| Walk(adj, p, hub, node) && |p| == dist[node] + 1;
    Extended(adj, p, hub, node, b);
    assert Reached(adj, hub, b, dist[node] + 1);
  }

  lemma TailInOrder(dist: map<string, nat>, node: string, queue: seq<string>, done: set<string>)
    requires var q := [node] + queue; dist.Keys == done + Members(q) && InOrder(dist, q, done)
    requires var q := [node] + queue; forall i, j :: 0 <= i < j < |q| ==> q[i] != q[j]
    ensures dist.Keys == done + {node} + Members(queue) && node !in queue
    ensures InOrder(dist, queue, done + {node})
    ensures forall i, j :: 0 <= i < j < |queue| ==> queue[i] != queue[j]
  {
    var q := [node] + queue;
    assert forall i :: 0 <= i < |queue| ==> queue[i] == q[i + 1];
    assert q[0] == node;
    assert Members(q) == {node} + Members(queue);
    assert queue != [] ==> queue[0] == q[1] && dist[node] <= dist[q[1]] <= dist[node] + 1;
  }

  lemma Explored(adj: Graph, hub: string, dist: map<string, nat>, node: string, queue: seq<string>,
                 done: set<string>, seen: set<string>)
    requires Exploring(adj, hub, dist, node, queue, done, seen) && node in adj && adj[node] <= seen
    ensures Frontier(adj, hub, dist, queue, done + {node})
  {
    TailInOrder(dist, node, queue, done);
    var q := [node] + queue;
    assert q[0] in Members(q);
  }

  /** The inner loop: unseen neighbours of `node` get its distance plus one. */
  method Discover(adj: Graph, hub: string, node: string, dist0: map<string, nat>, queue0: seq<string>,
                  ghost done: set<string>)
    returns (dist: map<string, nat>, queue: seq<string>)
    requires IsGraph(adj) && node in adj && Frontier(adj, hub, dist0, [node] + queue0, done)
    ensures Frontier(adj, hub, dist, queue, done + {node})
  {
    StrOrder();
    var neighbors := Sorted(StrLe, adj[node]);
    dist, queue := dist0, queue0;
    for i := 0 to |neighbors|
      invariant Exploring(adj, hub, dist, node, queue, done, Members(neighbors[..i]))
    {
      var b := neighbors[i];
      assert Step(adj, node, b);
      assert Members(neighbors[..i + 1]) == Members(neighbors[..i]) + {b};
      if b in dist {
        SeenBefore(adj, hub, dist, node, queue, done, Members(neighbors[..i]), b);
        continue;
      }
      Discovered(adj, hub, dist, node, queue, done, Members(neighbors[..i]), b);
      dist, queue := dist[b := dist[node] + 1], queue + [b];
    }
    assert adj[node] <= Members(neighbors[..|neighbors|]);
    Explored(adj, hub, dist, node, queue, done, Members(neighbors[..|neighbors|]));
  }

  /** Along any walk from the hub the recorded distance grows by at most one a step. */
  lemma {:induction false} NoShorterWalk(adj: Graph, dist: map<string, nat>, p: seq<string>, hub: string, v: string)
    requires hub in dist && dist[hub] == 0 && Walk(adj, p, hub, v)
    requires forall a, b :: a in dist && Step(adj, a, b) ==> b in dist && dist[b] <= dist[a] + 1
    ensures v in dist && dist[v] + 1 <= |p|
    decreases |p|
  {
    if |p| > 1 {
      var q, u := p[..|p| - 1], p[|p| - 2];
      forall i | 0 <= i < |q| - 1 ensures Step(adj, q[i], q[i + 1]) {
        assert Step(adj, p[i], p[i + 1]);
      }
      NoShorterWalk(adj, dist, q, hub, u);
      assert Step(adj, p[|p| - 2], p[|p| - 2 + 1]);
    }
  }

  /** Second search: distances from the hub. */
  method Distances(adj: Graph, hub: string) returns (distances: map<string, nat>)
    requires IsGraph(adj) && hub in adj
    ensures forall v :: v in distances <==> Connected(adj, hub, v)
    ensures forall v :: v in distances ==> Distance(adj, hub, v, distances[v])
  {
    StrOrder();
    distances := map[hub := 0];
    var queue := [hub];
    ghost var done: set<string> := {};
    assert Walk(adj, [hub], hub, hub);
    while queue != []
      invariant Frontier(adj, hub, distances, queue, done)
      decreases adj.Keys - done
    {
      var node, rest := queue[0], queue[1..];
      assert queue == [node] + rest && node in queue;
      distances, queue := Discover(adj, hub, node, distances, rest, done);
      done := done + {node};
    }
    DistancesExact(adj, hub, distances, done);
  }

  lemma DistancesExact(adj: Graph, hub: string, dist: map<string, nat>, done: set<string>)
    requires Frontier(adj, hub, dist, [], done)
    ensures forall v :: v in dist <==> Connected(adj, hub, v)
    ensures forall v :: v in dist ==> Distance(adj, hub, v, dist[v])
  {
    assert dist.Keys == done;
    forall v ensures v in dist <==> Connected(adj, hub, v) {
      if v in dist { assert Reached(adj, hub, v, dist[v]); }
      if Connected(adj, hub, v) {
        var p :| Walk(adj, p, hub, v);
        WalkStaysInside(adj, done, p, hub, v);
      }
    }
    forall v | v in dist ensures Distance(adj, hub, v, dist[v]) {
      assert Reached(adj, hub, v, dist[v]);
      forall p | Walk(adj, p, hub, v) ensures |p| >= dist[v] + 1 {
        NoShorterWalk(adj, dist, p, hub, v);
      }
    }
  }

  // ------------------------------------------------------------------ the ranks

  /** The loop over components. */
  method LayoutRanks(visible: set<string>, leaks: seq<Leak>) returns (adj: Graph, ranks: map<string, nat>)
    ensures adj.Keys == visible == ranks.Keys && IsGraph(adj)
    ensures forall a, b :: a in visible && b in visible ==> (b in adj[a] <==> Linked(leaks, a, b))
    ensures RanksExact(adj, ranks)
  {
    adj := BuildAdjacency(visible, leaks);
    StrOrder();
    ranks := map[];
    var remaining := visible;
    while remaining != {}
      invariant remaining <= visible && ranks.Keys == visible - remaining && Closed(adj, remaining)
      invariant RanksExact(adj, ranks)
    {
      var seed := Least(StrLe, remaining);
      var component := Component(adj, seed);
      Peeled(adj, remaining, seed, component);
      remaining := remaining - component;
      var hub := Hub(adj, component);
      var distances := Distances(adj, hub);
      ComponentRanked(adj, ranks, seed, component, hub, distances);
      ranks := ranks + distances;
    }
  }

  /** Every node has the rank that its hub gives it. */
  ghost predicate RanksExact(adj: Graph, ranks: map<string, nat>) {
    forall v {:trigger Ranked(adj, v, ranks[v])} :: v in ranks ==> Ranked(adj, v, ranks[v])
  }

  lemma ComponentRanked(adj: Graph, ranks: map<string, nat>, seed: string, component: set<string>, hub: string,
                        distances: map<string, nat>)
    requires IsGraph(adj) && RanksExact(adj, ranks) && component <= adj.Keys && hub in component
    requires forall v :: v in component <==> Connected(adj, seed, v)
    requires forall w :: w in component ==> Before(adj, hub, w)
    requires forall v :: v in distances <==> Connected(adj, hub, v)
    requires forall v :: v in distances ==> Distance(adj, hub, v, distances[v])
    ensures RanksExact(adj, ranks + distances) && distances.Keys == component
  {
    HubOfComponent(adj, seed, component, hub);
    var all := ranks + distances;
    forall v | v in all ensures Ranked(adj, v, all[v]) {
      if v in distances {
        assert IsHub(adj, hub, v);
      } else {
        assert Ranked(adj, v, ranks[v]);
      }
    }
  }

  lemma Peeled(adj: Graph, remaining: set<string>, seed: string, component: set<string>)
    requires IsGraph(adj) && Closed(adj, remaining) && seed in remaining
    requires forall v :: v in component <==> Connected(adj, seed, v)
    ensures component <= remaining && Closed(adj, remaining - component) && seed in component
  {
    assert Walk(adj, [seed], seed, seed);
    forall v | v in component ensures v in remaining {
      var p :| Walk(adj, p, seed, v);
      WalkStaysInside(adj, remaining, p, seed, v);
    }
    forall a, b | a in remaining - component && Step(adj, a, b) ensures b in remaining - component {
      if b in component {
        var p :| Walk(adj, p, seed, b);
        Extended(adj, p, seed, b, a);
      }
    }
  }

  lemma HubOfComponent(adj: Graph, seed: string, component: set<string>, hub: string)
    requires IsGraph(adj) && component <= adj.Keys && hub in component
    requires forall v :: v in component <==> Connected(adj, seed, v)
    requires forall w :: w in component ==> Before(adj, hub, w)
    ensures forall v :: v in component <==> Connected(adj, hub, v)
    ensures forall v :: v in component ==> IsHub(adj, hub, v)
  {
    ConnectedBothWays(adj, seed, hub);
    forall v ensures v in component <==> Connected(adj, hub, v) {
      if v in component { ConnectedThrough(adj, hub, seed, v); }
      if Connected(adj, hub, v) { ConnectedThrough(adj, seed, hub, v); }
    }
  }

  // --------------------------------------------------------- what ranks promise

  lemma SameHub(adj: Graph, u: string, v: string, hu: string, hv: string)
    requires IsGraph(adj) && IsHub(adj, hu, u) && IsHub(adj, hv, v) && Connected(adj, u, v)
    ensures hu == hv
  {
    StrOrder();
    ConnectedThrough(adj, hu, u, v);
    ConnectedBothWays(adj, hv, v);
    ConnectedThrough(adj, hu, v, hv);
    ConnectedBothWays(adj, hu, hv);
  }

  lemma HubOf(adj: Graph, ranks: map<string, nat>, v: string) returns (hub: string)
    requires RanksExact(adj, ranks) && v in ranks
    ensures IsHub(adj, hub, v) && Distance(adj, hub, v, ranks[v])
  {
    assert Ranked(adj, v, ranks[v]);
    hub :| IsHub(adj, hub, v) && Distance(adj, hub, v, ranks[v]);
  }

  lemma ZeroAtHub(adj: Graph, hub: string, v: string, n: nat)
    requires Distance(adj, hub, v, n)
    ensures n == 0 <==> v == hub
  {
    assert Walk(adj, [hub], hub, hub);
  }

  /** Some service of each component has rank 0: its hub. */
  lemma HubHasRankZero(adj: Graph, ranks: map<string, nat>, v: string)
    requires IsGraph(adj) && ranks.Keys == adj.Keys && RanksExact(adj, ranks) && v in adj
    ensures exists hub :: hub in adj && Connected(adj, hub, v) && ranks[hub] == 0
  {
    var hub := HubOf(adj, ranks, v);
    var h := HubOf(adj, ranks, hub);
    ConnectedBothWays(adj, hub, v);
    SameHub(adj, v, hub, hub, h);
    ZeroAtHub(adj, h, hub, ranks[hub]);
  }

  /** No other service of the component has rank 0, and none has a larger degree. */
  lemma RankZeroIsUniqueHub(adj: Graph, ranks: map<string, nat>, x: string, y: string)
    requires IsGraph(adj) && ranks.Keys == adj.Keys && RanksExact(adj, ranks)
    requires x in adj && y in adj && Connected(adj, x, y) && ranks[x] == 0
    ensures |adj[x]| >= |adj[y]| && (ranks[y] == 0 ==> x == y)
  {
    var hx := HubOf(adj, ranks, x);
    ZeroAtHub(adj, hx, x, ranks[x]);
    var hy := HubOf(adj, ranks, y);
    SameHub(adj, x, y, hx, hy);
    ZeroAtHub(adj, hy, y, ranks[y]);
  }

  lemma OneStepFurther(adj: Graph, hub: string, a: string, b: string, m: nat, n: nat)
    requires Distance(adj, hub, a, m) && Distance(adj, hub, b, n) && Step(adj, a, b)
    ensures n <= m + 1
  {
    var p :| Walk(adj, p, hub, a) && |p| == m + 1;
    Extended(adj, p, hub, a, b);
  }

  /** Linked services are drawn at most one rank apart. */
  lemma NeighboursWithinOne(adj: Graph, ranks: map<string, nat>, a: string, b: string)
    requires IsGraph(adj) && ranks.Keys == adj.Keys && RanksExact(adj, ranks) && Step(adj, a, b)
    ensures ranks[a] <= ranks[b] + 1 && ranks[b] <= ranks[a] + 1
  {
    var ha := HubOf(adj, ranks, a);
    var hb := HubOf(adj, ranks, b);
    assert Walk(adj, [a, b], a, b);
    SameHub(adj, a, b, ha, hb);
    OneStepFurther(adj, ha, a, b, ranks[a], ranks[b]);
    OneStepFurther(adj, ha, b, a, ranks[b], ranks[a]);
  }
}
