// alred/clab_runtime.py: waiting until all lab nodes are ready, by polling. Clock and
// container states are given by oracles over the iterations; time is a real number.
module ClabRuntime {
  import opened Ordering

  datatype Option<+T> = None | Some(value: T)

  datatype State = State(status: string, container: string)

  datatype Attributes = Attributes(kind: string, startupDelay: real)

  type Topology = map<string, Attributes>

  /** What the runtime sees: iterations count from 1, moment 0 is the start. */
  datatype World = World(
    now: nat -> real,
    inspect: nat -> Option<map<string, State>>,           // containerlab inspect
    docker: (nat, string) -> State,                       // docker inspect in place of a missing entry
    dockerOf: (nat, string, string) -> State)             // docker inspect of the container that was named

  datatype Settings = Settings(healthTimeout: real, pollInterval: real, honorDelay: bool)

  datatype Problem =
    | BadSettings | NegativeDelay | NoNodes
    | NodeFailed(node: string, state: State) | TimedOut(node: string, state: State)

  datatype Outcome = Ready(states: map<string, State>) | Raised(problem: Problem)

  // ------------------------------------------------------------ what is waited for

  ghost predicate Awaited(t: Topology, n: string) {
    n in t && t[n].kind == "cisco_n9kv"
  }

  const Settled := {"ready", "failed"}

  /** The state in which a node is seen at an iteration: that of the lab or, where it has none, of its container; if that
      settles nothing, what the container it names says, provided this settles it or the lab said nothing at all. */
  ghost predicate IsSeen(w: World, k: nat, n: string, state: State) {
    match w.inspect(k)
    case None =>
      var first := w.docker(k, n);
      state == if first.status in Settled then first else w.dockerOf(k, n, first.container)
    case Some(states) =>
      var first := if n in states then states[n] else w.docker(k, n);
      var second := w.dockerOf(k, n, first.container);
      state == if first.status !in Settled && second.status in Settled then second else first
  }

  /** How long a node may take. */
  ghost predicate InTime(w: World, t: Topology, s: Settings, k: nat, n: string)
    requires n in t
  {
    w.now(k) < w.now(0) + (if s.honorDelay then t[n].startupDelay else 0.0) + s.healthTimeout
  }

  /** Up to this iteration the node was neither ready nor failed nor out of time. */
  ghost predicate OpenBefore(w: World, t: Topology, s: Settings, k: nat, n: string)
    requires n in t
  {
    forall j: nat, state :: 1 <= j < k && IsSeen(w, j, n, state) ==> state.status !in Settled && InTime(w, t, s, j, n)
  }

  /** The node was seen in this state at iteration `k`, and nothing was settled about it before. */
  ghost predicate SeenFirst(w: World, t: Topology, s: Settings, k: nat, n: string, state: State) {
    k >= 1 && Awaited(t, n) && IsSeen(w, k, n, state) && OpenBefore(w, t, s, k, n)
  }

  // ----------------------------------------------------------------- the machine

  predicate Selected(t: Topology, n: string) {
    n in t && t[n].kind == "cisco_n9kv"
  }

  function Delay(t: Topology, s: Settings, n: string): real
    requires n in t
  {
    if s.honorDelay then t[n].startupDelay else 0.0
  }

  function Deadline(w: World, t: Topology, s: Settings, n: string): real
    requires n in t
  {
    w.now(0) + Delay(t, s, n) + s.healthTimeout
  }

  predicate Decisive(status: string) {
    status == "ready" || status == "failed"
  }

  /** The state of a node at an iteration: containerlab first, then docker if that says more. */
  function Observed(w: World, k: nat, n: string): State {
    var states := w.inspect(k);
    var first := if states.Some? && n in states.value then states.value[n] else w.docker(k, n);
    if Decisive(first.status) then first
    else
      var second := w.dockerOf(k, n, first.container);
      if Decisive(second.status) || states.None? then second else first
  }

  /** An iteration at which nothing is decided about a node. */
  predicate Waits(w: World, t: Topology, s: Settings, k: nat, n: string)
    requires n in t
  {
    !Decisive(Observed(w, k, n).status) && w.now(k) < Deadline(w, t, s, n)
  }

  /** The iteration at which a node is decided. */
  ghost predicate DecidedAt(w: World, t: Topology, s: Settings, k: nat, n: string) {
    n in t && k >= 1 && !Waits(w, t, s, k, n) && forall j {:trigger Waits(w, t, s, j, n)} :: 1 <= j < k ==> Waits(w, t, s, j, n)
  }

  lemma WaitsBefore(w: World, t: Topology, s: Settings, j: nat, k: nat, n: string)
    requires DecidedAt(w, t, s, k, n) && 1 <= j < k
    ensures Waits(w, t, s, j, n)
  {}

  lemma DecidedOnce(w: World, t: Topology, s: Settings, k: nat, l: nat, n: string)
    requires DecidedAt(w, t, s, k, n) && DecidedAt(w, t, s, l, n)
    ensures k == l
  {
    if k < l {
      WaitsBefore(w, t, s, k, l, n);
    } else if l < k {
      WaitsBefore(w, t, s, l, k, n);
    }
  }

  /** Every sleep advances the clock by at least the poll interval. */
  ghost predicate ClockAdvances(w: World, s: Settings) {
    w.now(1) >= w.now(0) && forall k: nat :: k >= 1 ==> Slept(w, s, k)
  }

  /** What the sleep after iteration `k` does to the clock. */
  ghost predicate Slept(w: World, s: Settings, k: nat) {
    w.now(k + 1) >= w.now(k) + s.pollInterval
  }

  lemma OneMore(x: real, p: real)
    ensures (x + 1.0) * p == x * p + p
  {}

  lemma {:induction false} TimePassed(w: World, s: Settings, k: nat)
    requires ClockAdvances(w, s) && k >= 1
    ensures w.now(k) >= w.now(0) + (k - 1) as real * s.pollInterval
  {
    if k > 1 {
      var last: nat, p := k - 1, s.pollInterval;
      TimePassed(w, s, last);
      assert Slept(w, s, last) && last + 1 == k;
      OneMore((last - 1) as real, p);
      assert last as real == (last - 1) as real + 1.0;
      assert last as real * p == (last - 1) as real * p + p;
    } else {
      NoTimes(s.pollInterval);
    }
  }

  lemma NoTimes(p: real)
    ensures 0.0 * p == 0.0
  {}

  function Ceiling(x: real): int {
    -((-x).Floor)
  }

  /** The largest honoured startup delay of the selected nodes. */
  ghost predicate IsLargestDelay(t: Topology, s: Settings, d: real) {
    && (exists n :: Awaited(t, n) && d == if s.honorDelay then t[n].startupDelay else 0.0)
    && forall n :: Awaited(t, n) ==> d >= if s.honorDelay then t[n].startupDelay else 0.0
  }

  /** ceil((largest delay + health timeout) / poll interval) + 1 */
  function Bound(s: Settings, largest: real): int
    requires s.pollInterval > 0.0
  {
    Ceiling((largest + s.healthTimeout) / s.pollInterval) + 1
  }

  /** A node that still waits after `k` iterations leaves room for another one. */
  lemma WaitingIsBounded(w: World, t: Topology, s: Settings, largest: real, k: nat, n: string)
    requires ClockAdvances(w, s) && s.pollInterval > 0.0 && k >= 1
    requires Selected(t, n) && Delay(t, s, n) <= largest && Waits(w, t, s, k, n)
    ensures k + 1 <= Bound(s, largest)
  {
    TimePassed(w, s, k);
    var p, total := s.pollInterval, largest + s.healthTimeout;
    assert (k - 1) as real * p < total;
    Quotient((k - 1) as real, p, total);
    assert (k - 1) as real < total / p <= Ceiling(total / p) as real;
  }

  lemma ScalesUp(x: real, y: real, p: real)
    requires p > 0.0 && x >= y
    ensures x * p >= y * p
  {}

  lemma Quotient(x: real, p: real, total: real)
    requires p > 0.0 && x * p < total
    ensures x < total / p
  {
    var q := total / p;
    assert q * p == total;
    if x >= q {
      ScalesUp(x, q, p);
    }
  }

  // ------------------------------------------------------- what the machine amounts to

  lemma SeenIs(w: World, k: nat, n: string, state: State)
    ensures IsSeen(w, k, n, state) <==> state == Observed(w, k, n)
  {}

  lemma WaitsIs(w: World, t: Topology, s: Settings, k: nat, n: string)
    requires n in t
    ensures Waits(w, t, s, k, n) <==> Observed(w, k, n).status !in Settled && InTime(w, t, s, k, n)
  {}

  lemma DecidedIs(w: World, t: Topology, s: Settings, k: nat, n: string)
    requires Awaited(t, n)
    ensures DecidedAt(w, t, s, k, n) ==> SeenFirst(w, t, s, k, n, Observed(w, k, n))
  {
    if DecidedAt(w, t, s, k, n) {
      SeenIs(w, k, n, Observed(w, k, n));
      forall j: nat, state | 1 <= j < k && IsSeen(w, j, n, state) ensures state.status !in Settled && InTime(w, t, s, j, n) {
        SeenIs(w, j, n, state);
        WaitsIs(w, t, s, j, n);
        WaitsBefore(w, t, s, j, k, n);
      }
    }
  }

  /** A node that is reported ready was seen so before anything else was settled about it. */
  ghost predicate ReadyInTurn(w: World, t: Topology, s: Settings, n: string, state: State) {
    state.status == "ready" && exists k: nat :: SeenFirst(w, t, s, k, n, state)
  }

  /** A node that is reported failed or late was seen so at iteration `k`, and not before. */
  ghost predicate Told(w: World, t: Topology, s: Settings, k: nat, p: Problem) {
    match p
    case NodeFailed(n, state) => state.status == "failed" && SeenFirst(w, t, s, k, n, state)
    case TimedOut(n, state) => state.status !in Settled && SeenFirst(w, t, s, k, n, state) && !InTime(w, t, s, k, n)
    case _ => false
  }

  lemma ReadyIsInTurn(w: World, t: Topology, s: Settings, n: string, state: State)
    requires FoundReady(w, t, s, n, state) && Selected(t, n)
    ensures ReadyInTurn(w, t, s, n, state)
  {
    var k: nat :| DecidedAt(w, t, s, k, n) && state == Observed(w, k, n);
    DecidedIs(w, t, s, k, n);
  }

  lemma JustifiedIsTold(w: World, t: Topology, s: Settings, k: nat, p: Problem)
    requires Justified(w, t, s, k, p)
    ensures Told(w, t, s, k, p)
  {
    DecidedIs(w, t, s, k, p.node);
  }

  /** All awaited nodes were ready in turn, or one was not. */
  ghost predicate IsOutcome(w: World, t: Topology, s: Settings, k: nat, o: Outcome) {
    match o
    case Ready(states) =>
      (forall n :: n in states <==> Awaited(t, n)) && forall n :: n in states ==> ReadyInTurn(w, t, s, n, states[n])
    case Raised(p) => Told(w, t, s, k, p)
  }

  lemma OutcomeIs(w: World, t: Topology, s: Settings, k: nat, o: Outcome)
    requires o.Ready? ==> forall n :: n in o.states <==> Selected(t, n)
    requires o.Ready? ==> forall n :: n in o.states ==> FoundReady(w, t, s, n, o.states[n])
    requires o.Raised? ==> Justified(w, t, s, k, o.problem)
    ensures IsOutcome(w, t, s, k, o)
  {
    if o.Ready? {
      forall n | n in o.states ensures ReadyInTurn(w, t, s, n, o.states[n]) {
        ReadyIsInTurn(w, t, s, n, o.states[n]);
      }
    } else {
      JustifiedIsTold(w, t, s, k, o.problem);
    }
  }

  /** The bound: so many iterations that the pauses between all but the last two of them leave time. */
  lemma BoundMeans(s: Settings, largest: real, k: int)
    requires s.pollInterval > 0.0
    ensures k <= Bound(s, largest) <==> (k - 2) as real * s.pollInterval < largest + s.healthTimeout
  {
    var p, total := s.pollInterval, largest + s.healthTimeout;
    var q := total / p;
    assert q * p == total;
    assert Ceiling(q) as real < q + 1.0 && q <= Ceiling(q) as real;
    if k <= Bound(s, largest) {
      assert (k - 2) as real < q;
      Scales((k - 2) as real, q, p);
    } else {
      assert (k - 2) as real >= q;
      ScalesUp((k - 2) as real, q, p);
    }
  }

  lemma Scales(x: real, y: real, p: real)
    requires p > 0.0 && x < y
    ensures x * p < y * p
  {}

  // ------------------------------------------------------------------ the code

  /** `load_clab_node_deadlines` */
  method LoadDeadlines(w: World, t: Topology, s: Settings) returns (deadlines: map<string, real>, problem: Option<Problem>)
    ensures problem == Some(NegativeDelay) <==> s.honorDelay && exists n :: Awaited(t, n) && t[n].startupDelay < 0.0
    ensures problem == Some(NoNodes) <==> forall n :: !Awaited(t, n)
    ensures problem in {None, Some(NegativeDelay), Some(NoNodes)}
    ensures problem.None? ==> (exists n :: Awaited(t, n)) && forall n :: Selected(t, n) ==> Delay(t, s, n) >= 0.0
    ensures problem.None? ==> deadlines == map n | n in t && Selected(t, n) :: Deadline(w, t, s, n)
  {
    deadlines := map n | n in t && Selected(t, n) :: Deadline(w, t, s, n);
    problem := None;
    SelectedIsAwaited(t, s);
    if exists n :: n in t && Selected(t, n) && Delay(t, s, n) < 0.0 {
      problem := Some(NegativeDelay);
    } else if forall n :: n in t ==> !Selected(t, n) {
      problem := Some(NoNodes);
    }
  }

  /** The state of a node, asked from the runtimes in turn. */
  method ObserveNode(w: World, k: nat, states: Option<map<string, State>>, n: string) returns (state: State)
    requires states == w.inspect(k)
    ensures state == Observed(w, k, n)
  {
    state := if states.Some? && n in states.value then states.value[n] else w.docker(k, n);
    if !Decisive(state.status) {
      var second := w.dockerOf(k, n, state.container);
      if Decisive(second.status) || states.None? {
        state := second;
      }
    }
  }

  function SortedNames(s: set<string>): (r: seq<string>)
    ensures forall n :: n in r <==> n in s
    ensures forall i, j :: 0 <= i < j < |r| ==> r[i] != r[j]
  {
    StrOrder();
    Sorted(StrLe, s)
  }

  /** The nodes so far: pending ones have waited through `k` iterations, the others were found ready. */
  ghost predicate Progress(w: World, t: Topology, s: Settings, k: nat, pending: set<string>, results: map<string, State>) {
    && (forall n :: Selected(t, n) <==> n in pending || n in results)
    && (forall n :: n in pending ==> n !in results)
    && (forall n :: n in pending ==> WaitedThrough(w, t, s, k, n))
    && (forall n :: n in results ==> FoundReady(w, t, s, n, results[n]))
  }

  ghost predicate WaitedThrough(w: World, t: Topology, s: Settings, k: nat, n: string) {
    n in t && forall j {:trigger Waits(w, t, s, j, n)} :: 1 <= j <= k ==> Waits(w, t, s, j, n)
  }

  ghost predicate FoundReady(w: World, t: Topology, s: Settings, n: string, state: State) {
    exists k: nat {:trigger DecidedAt(w, t, s, k, n)} :: DecidedAt(w, t, s, k, n) && state == Observed(w, k, n) && state.status == "ready"
  }

  /** The state within iteration `k`, before the nodes of `rest` have been looked at. */
  ghost predicate PassProgress(w: World, t: Topology, s: Settings, k: nat, pending: set<string>, results: map<string, State>,
                               rest: set<string>)
  {
    && k >= 1 && rest <= pending
    && (forall n :: Selected(t, n) <==> n in pending || n in results)
    && (forall n :: n in pending ==> n !in results)
    && (forall n :: n in pending ==> WaitedThrough(w, t, s, if n in rest then k - 1 else k, n))
    && (forall n :: n in results ==> FoundReady(w, t, s, n, results[n]))
  }

  lemma Decides(w: World, t: Topology, s: Settings, k: nat, n: string)
    requires k >= 1 && WaitedThrough(w, t, s, k - 1, n)
    ensures if Waits(w, t, s, k, n) then WaitedThrough(w, t, s, k, n) else DecidedAt(w, t, s, k, n)
  {}

  /** A problem with a node: the iteration that decided it found it failed or out of time. */
  ghost predicate Justified(w: World, t: Topology, s: Settings, k: nat, p: Problem) {
    match p
    case NodeFailed(n, state) =>
      Selected(t, n) && DecidedAt(w, t, s, k, n) && state == Observed(w, k, n) && state.status == "failed"
    case TimedOut(n, state) =>
      Selected(t, n) && DecidedAt(w, t, s, k, n) && state == Observed(w, k, n) && !Decisive(state.status)
      && w.now(k) >= Deadline(w, t, s, n)
    case _ => false
  }

  /** One pass over the pending nodes. */
  method PollOnce(w: World, t: Topology, s: Settings, k: nat, pending: set<string>, results: map<string, State>,
                  deadlines: map<string, real>)
    returns (pending': set<string>, results': map<string, State>, problem: Option<Problem>)
    requires k >= 1 && Progress(w, t, s, k - 1, pending, results)
    requires deadlines == map n | n in t && Selected(t, n) :: Deadline(w, t, s, n)
    ensures problem.None? ==> Progress(w, t, s, k, pending', results') && pending' <= pending
    ensures problem.Some? ==> Justified(w, t, s, k, problem.value)
  {
    var current := w.now(k);
    var states := w.inspect(k);
    var order := SortedNames(pending);
    pending', results', problem := pending, results, None;
    ghost var rest := pending;
    for i := 0 to |order|
      invariant PassProgress(w, t, s, k, pending', results', rest) && pending' <= pending
      invariant forall n :: n in rest <==> exists j :: i <= j < |order| && order[j] == n
    {
      var n := order[i];
      var state := ObserveNode(w, k, states, n);
      assert n in rest;
      Decides(w, t, s, k, n);
      if state.status == "ready" {
        NodeReady(w, t, s, k, pending', results', rest, n, state);
        results' := results'[n := state];
        pending' := pending' - {n};
      } else if state.status == "failed" {
        problem := Some(NodeFailed(n, state));
        return;
      } else if current >= deadlines[n] {
        problem := Some(TimedOut(n, state));
        return;
      } else {
        NodeWaits(w, t, s, k, pending', results', rest, n);
      }
      rest := rest - {n};
    }
  }

  lemma NodeReady(w: World, t: Topology, s: Settings, k: nat, pending: set<string>, results: map<string, State>,
                  rest: set<string>, n: string, state: State)
    requires PassProgress(w, t, s, k, pending, results, rest) && n in rest
    requires state == Observed(w, k, n) && state.status == "ready"
    ensures PassProgress(w, t, s, k, pending - {n}, results[n := state], rest - {n})
  {
    Decides(w, t, s, k, n);
    assert FoundReady(w, t, s, n, state);
  }

  lemma NodeWaits(w: World, t: Topology, s: Settings, k: nat, pending: set<string>, results: map<string, State>,
                  rest: set<string>, n: string)
    requires PassProgress(w, t, s, k, pending, results, rest) && n in rest && n in t && Waits(w, t, s, k, n)
    ensures PassProgress(w, t, s, k, pending, results, rest - {n})
  {
    Decides(w, t, s, k, n);
  }

  /** The loop of `wait_for_clab_nodes`. */
  method PollAll(w: World, t: Topology, s: Settings, deadlines: map<string, real>, ghost largest: real)
    returns (o: Outcome, ghost iterations: nat)
    requires ClockAdvances(w, s) && s.healthTimeout > 0.0 && s.pollInterval > 0.0 && IsLargestDelay(t, s, largest)
    requires deadlines == map n | n in t && Selected(t, n) :: Deadline(w, t, s, n)
    requires forall n :: Selected(t, n) ==> Delay(t, s, n) >= 0.0
    ensures 0 < iterations <= Bound(s, largest)
    ensures o.Ready? ==> forall n :: n in o.states <==> Selected(t, n)
    ensures o.Ready? ==> forall n :: n in o.states ==> FoundReady(w, t, s, n, o.states[n])
    ensures o.Raised? ==> Justified(w, t, s, iterations, o.problem)
  {
    iterations := 0;
    FirstIsBounded(t, s, largest);
    ghost var first: string :| Selected(t, first);
    assert first in deadlines;
    var pending, results: map<string, State>, k := deadlines.Keys, map[], 0;
    while pending != {}
      invariant k == iterations && Progress(w, t, s, k, pending, results)
      invariant k <= Bound(s, largest) && (k == 0 ==> pending == deadlines.Keys)
      invariant pending <= deadlines.Keys
      decreases Bound(s, largest) - k
    {
      var some: string :| some in pending;
      if k > 0 {
        WaitingIsBounded(w, t, s, largest, k, some);
      }
      k := k + 1;
      iterations := k;
      var found;
      pending, results, found := PollOnce(w, t, s, k, pending, results, deadlines);
      if found.Some? {
        return Raised(found.value), iterations;
      }
    }
    o := Ready(results);
  }

  /** `wait_for_clab_nodes`. `largest` is the largest honoured startup delay, if any node is awaited. */
  method WaitForNodes(w: World, t: Topology, s: Settings, ghost largest: real) returns (o: Outcome, ghost iterations: nat)
    requires ClockAdvances(w, s)
    requires (exists n :: Awaited(t, n)) ==> IsLargestDelay(t, s, largest)
    ensures o == Raised(BadSettings) <==> s.healthTimeout <= 0.0 || s.pollInterval <= 0.0
    ensures o == Raised(NoNodes) <==> s.healthTimeout > 0.0 && s.pollInterval > 0.0 && forall n :: !Awaited(t, n)
    ensures o == Raised(NegativeDelay) <==> (
      && s.healthTimeout > 0.0 && s.pollInterval > 0.0 && s.honorDelay
      && exists n :: Awaited(t, n) && t[n].startupDelay < 0.0)
    ensures iterations > 0 <==> o.Ready? || o.problem.NodeFailed? || o.problem.TimedOut?
    ensures iterations > 0 ==> IsOutcome(w, t, s, iterations, o)
    ensures iterations > 0 ==> iterations <= Bound(s, largest)
  {
    iterations := 0;
    if s.healthTimeout <= 0.0 || s.pollInterval <= 0.0 {
      return Raised(BadSettings), 0;
    }
    var deadlines, problem := LoadDeadlines(w, t, s);
    if problem.Some? {
      return Raised(problem.value), 0;
    }
    o, iterations := PollAll(w, t, s, deadlines, largest);
    OutcomeIs(w, t, s, iterations, o);
  }

  lemma SelectedIsAwaited(t: Topology, s: Settings)
    ensures forall n :: Selected(t, n) <==> Awaited(t, n)
    ensures forall n :: Awaited(t, n) ==> Delay(t, s, n) == if s.honorDelay then t[n].startupDelay else 0.0
  {}

  /** There is always room for the first iteration. */
  lemma FirstIsBounded(t: Topology, s: Settings, largest: real)
    requires s.healthTimeout > 0.0 && s.pollInterval > 0.0 && IsLargestDelay(t, s, largest)
    requires forall n :: Selected(t, n) ==> Delay(t, s, n) >= 0.0
    ensures 1 <= Bound(s, largest) && exists n :: Selected(t, n)
  {
    NoTimes(s.pollInterval);
    var n :| Awaited(t, n) && largest == if s.honorDelay then t[n].startupDelay else 0.0;
    assert Selected(t, n) && Delay(t, s, n) == largest;
    Quotient(0.0, s.pollInterval, largest + s.healthTimeout);
  }

  /** So the result is settled by the nodes alone: all ready exactly when every node is ready at the
      iteration that decides it. */
  lemma ReadyIsSettled(w: World, t: Topology, s: Settings, states: map<string, State>, k: nat, p: Problem)
    requires forall n :: n in states <==> Selected(t, n)
    requires forall n :: n in states ==> FoundReady(w, t, s, n, states[n])
    ensures !Justified(w, t, s, k, p)
  {
    if p.NodeFailed? || p.TimedOut? {
      var n := p.node;
      if n in states {
        var l: nat :| DecidedAt(w, t, s, l, n) && states[n] == Observed(w, l, n);
        if DecidedAt(w, t, s, k, n) {
          DecidedOnce(w, t, s, k, l, n);
        }
      }
    }
  }
}
