// alred/operation.py: what the interrupt guard leaves behind, over every run, and the
// workflow transitions by where they lead.
module OperationGuard {
  import opened OperationRun

  /** The transitions by their target. */
  lemma LeadsTo(w: Workflow, next: Workflow)
    ensures next in WorkflowNext(w) <==>
      match next
      case NoWorkflow => false
      case Planned => w == NoWorkflow
      case BeforeRunning => w == Planned
      case BeforeFailed => w == BeforeRunning
      case BeforeCompleted => w == BeforeRunning
      case PlanReady => w == BeforeCompleted
      case Approved => w == PlanReady
      case ApplyRunning => w == Approved
      case ApplyFailed => w == ApplyRunning
      case DeviceStateUnknown => w == ApplyRunning
      case ApplyCompleted => w == ApplyRunning
      case AfterRunning => w in {ApplyCompleted, RollbackRequired}
      case HealthFailed => w == AfterRunning
      case AfterCompleted => w == AfterRunning
      case SaveRunning => w in {AfterCompleted, RolledBackAndVerified}
      case SaveFailed => w == SaveRunning
      case WorkflowCompleted => w in {AfterCompleted, SaveRunning}
      case RollbackRequired =>
        w in {ApplyFailed, DeviceStateUnknown, HealthFailed, AfterCompleted, SaveFailed, WorkflowCompleted, RollbackRunning}
      case RollbackRunning => w == RollbackRequired
      case RollbackFailed => w == RollbackRunning
      case RolledBack => w == RollbackRunning
      case RollbackHealthFailed => w in {RolledBack, RollbackHealthFailed}
      case RolledBackAndVerified => w in {RolledBack, RollbackHealthFailed}
      case QualificationSaveRunning => w == RolledBackAndVerified
      case QualificationSaveFailed => w == QualificationSaveRunning
      case QualificationCompleted => w == QualificationSaveRunning
  {}

  lemma LifecycleLeadsTo(l: Lifecycle, next: Lifecycle)
    ensures next in LifecycleNext(l) <==>
      match next
      case Created => false
      case Running => l in {Created, WaitingForUser}
      case WaitingForUser => l == Running
      case Completed => l == Running
      case CompletedWithWarnings => l == Running
      case StateUnknown => l == Running
      case Failed => l in {Created, Running, WaitingForUser}
      case Cancelled => l in {Created, Running, WaitingForUser}
  {}

  predicate Edge(w: Workflow, next: Workflow) {
    next in WorkflowNext(w)
  }

  ghost predicate IsWalk(walk: seq<Workflow>, w: Workflow, target: Workflow) {
    && |walk| > 1 && walk[0] == w && walk[|walk| - 1] == target
    && forall i :: 0 <= i < |walk| - 1 ==> Edge(walk[i], walk[i + 1])
  }

  /** `w` leads to `target` by one transition or more. */
  ghost predicate OnTheWay(w: Workflow, target: Workflow) {
    exists walk :: IsWalk(walk, w, target)
  }

  lemma OneEdge(w: Workflow, target: Workflow)
    requires Edge(w, target)
    ensures OnTheWay(w, target)
  {
    var walk := [w, target];
    assert Edge(walk[0], walk[0 + 1]);
    assert IsWalk(walk, w, target);
  }

  lemma EdgeBefore(w: Workflow, next: Workflow, target: Workflow)
    requires Edge(w, next) && OnTheWay(next, target)
    ensures OnTheWay(w, target)
  {
    var walk :| IsWalk(walk, next, target);
    var longer := [w] + walk;
    forall i | 0 <= i < |longer| - 1 ensures Edge(longer[i], longer[i + 1]) {
      if i > 0 {
        assert Edge(walk[i - 1], walk[i - 1 + 1]);
      }
    }
    assert IsWalk(longer, w, target);
  }

  lemma {:induction false} WalkToApply(walk: seq<Workflow>, w: Workflow)
    requires IsWalk(walk, w, ApplyRunning)
    ensures w in PreApply
    decreases |walk|
  {
    assert Edge(walk[0], walk[0 + 1]);
    if |walk| > 2 {
      var rest := walk[1..];
      forall i | 0 <= i < |rest| - 1 ensures Edge(rest[i], rest[i + 1]) {
        assert Edge(walk[i + 1], walk[i + 1 + 1]);
      }
      WalkToApply(rest, rest[0]);
      PreApplyIsNotReentered(w, rest[0]);
    } else {
      LeadsTo(w, ApplyRunning);
    }
  }

  lemma PlanLeadsToApply()
    ensures OnTheWay(Approved, ApplyRunning) && OnTheWay(PlanReady, ApplyRunning) && OnTheWay(BeforeCompleted, ApplyRunning)
  {
    OneEdge(Approved, ApplyRunning);
    EdgeBefore(PlanReady, Approved, ApplyRunning);
    EdgeBefore(BeforeCompleted, PlanReady, ApplyRunning);
  }

  lemma StartLeadsToApply()
    ensures OnTheWay(BeforeRunning, ApplyRunning) && OnTheWay(Planned, ApplyRunning) && OnTheWay(NoWorkflow, ApplyRunning)
  {
    PlanLeadsToApply();
    EdgeBefore(BeforeRunning, BeforeCompleted, ApplyRunning);
    EdgeBefore(Planned, BeforeRunning, ApplyRunning);
    EdgeBefore(NoWorkflow, Planned, ApplyRunning);
  }

  /** The states in which an operation may be closed are those on the way to an apply. */
  lemma PreApplyIsOnTheWay(w: Workflow)
    ensures w in PreApply <==> OnTheWay(w, ApplyRunning)
  {
    PlanLeadsToApply();
    StartLeadsToApply();
    if OnTheWay(w, ApplyRunning) {
      var walk :| IsWalk(walk, w, ApplyRunning);
      WalkToApply(walk, w);
    }
  }

  lemma ClosableCanBeCancelled(l: Lifecycle)
    ensures l in ClosableLifecycles <==> Cancelled in LifecycleNext(l)
  {}

  /** What each command stores, by the state it begins in: planning, approval, apply, evaluation, save or rollback,
      verification, and save or qualification of a verified rollback. */
  lemma StoresBy(p: Proc, present: Workflow, w: Workflow)
    ensures Issues(p, present, ToWorkflow(w)) <==>
      var evaluates, rollsBack := p.kind.Worker? && w in {AfterCompleted, HealthFailed}, p.kind == Mutator(RollbackRunning);
      var reports := p.kind.Worker? && w == RollbackRequired && present == HealthFailed;
      var goesBack := rollsBack && w in {RollbackRunning, RolledBack, RollbackFailed};
      match p.began
      case NoWorkflow => p.kind.Worker? && w in {Planned, BeforeRunning, BeforeCompleted, PlanReady}
      case BeforeCompleted => p.kind.Worker? && w == PlanReady
      case PlanReady => p.kind.Worker? && w == Approved
      case Approved =>
        p.kind == Mutator(ApplyRunning) &&
        (w in {ApplyRunning, ApplyFailed, DeviceStateUnknown, ApplyCompleted}
         || (w == RollbackRequired && (present == ApplyFailed || present == DeviceStateUnknown)))
      case ApplyCompleted => evaluates || reports || (p.kind.Worker? && w == AfterRunning && present == ApplyCompleted)
      case AfterRunning => evaluates || reports || (p.kind.Worker? && w == AfterRunning && present == AfterRunning)
      case RollbackRequired =>
        evaluates || reports || goesBack || (p.kind.Worker? && w == AfterRunning && present == RollbackRequired)
      case AfterCompleted =>
        || goesBack || (rollsBack && w == RollbackRequired && present == AfterCompleted)
        || (p.kind.Worker? && (w == SaveFailed || (w == SaveRunning && present == AfterCompleted)
                               || (w == WorkflowCompleted && present == SaveRunning)))
      case WorkflowCompleted => goesBack || (rollsBack && w == RollbackRequired && present == WorkflowCompleted)
      case RolledBack => p.kind.Worker? && w in {RollbackHealthFailed, RolledBackAndVerified}
      case RollbackHealthFailed => p.kind.Worker? && w in {RollbackHealthFailed, RolledBackAndVerified}
      case RolledBackAndVerified =>
        p.kind.Worker? && (w in {SaveFailed, QualificationSaveRunning, QualificationSaveFailed, QualificationCompleted}
                           || (w == SaveRunning && present == RolledBackAndVerified)
                           || (w == WorkflowCompleted && present == SaveRunning))
      case _ => false
  {}

  /** In every run each step leaves the stored states alone or follows one transition of one of them. */
  lemma StepsFollowTransitions(s: Sys, actions: seq<Action>, a: Action)
    requires Init(s) && Run(s, actions).Some? && Step(Run(s, actions).value, a).Some?
    ensures var (was, now) := (Run(s, actions).value.meta, Step(Run(s, actions).value, a).value.meta);
      || now == was
      || (now == was.(workflow := now.workflow) && now.workflow in WorkflowNext(was.workflow))
      || (now == was.(lifecycle := now.lifecycle) && now.lifecycle in LifecycleNext(was.lifecycle))
      || (now == was.(lifecycle := Running) && was.inspection && was.workflow == NoWorkflow
          && (was.lifecycle == Completed || was.lifecycle == CompletedWithWarnings))
  {
    RunKeepsInv(s, actions);
    var t := Run(s, actions).value;
    assert ProcOk(t, a.pid, t.procs[a.pid]);
  }

  /** So a lifecycle that has ended never changes again, but for that of an inspection. */
  lemma {:induction false} EndedStays(s: Sys, actions: seq<Action>, more: seq<Action>)
    requires Init(s) && Run(s, actions).Some? && Run(Run(s, actions).value, more).Some?
    requires Run(s, actions).value.meta.lifecycle in {Completed, CompletedWithWarnings, Failed, Cancelled, StateUnknown}
    requires !Run(s, actions).value.meta.inspection
    ensures var (was, now) := (Run(s, actions).value.meta, Run(Run(s, actions).value, more).value.meta);
      now.lifecycle == was.lifecycle && !now.inspection
    decreases |more|
  {
    if more != [] {
      var before, a := more[..|more| - 1], more[|more| - 1];
      EndedStays(s, actions, before);
      RunSplit(s, actions, before);
      StepsFollowTransitions(s, actions + before, a);
    }
  }

  // ------------------------------------------------------------- what the handler does

  function AfterAll(m: Metadata, todo: seq<Change>): Metadata
    decreases |todo|
  {
    if todo == [] then m else AfterAll(Changed(m, todo[0]), todo[1..])
  }

  predicate AllAllowed(m: Metadata, todo: seq<Change>)
    decreases |todo|
  {
    todo == [] || (Allowed(m, todo[0]) && AllAllowed(Changed(m, todo[0]), todo[1..]))
  }

  lemma AfterTwo(m: Metadata, c: Change, d: Change)
    ensures AfterAll(m, [c]) == Changed(m, c) && (AllAllowed(m, [c]) <==> Allowed(m, c))
    ensures AfterAll(m, [c, d]) == Changed(Changed(m, c), d)
    ensures AllAllowed(m, [c, d]) <==> Allowed(m, c) && Allowed(Changed(m, c), d)
  {
    assert [c][1..] == [] && [c, d][1..] == [d] && [d][1..] == [];
    assert AfterAll(Changed(m, c), [d]) == Changed(Changed(m, c), d);
    assert AllAllowed(Changed(m, c), [d]) <==> Allowed(Changed(m, c), d);
    assert AllAllowed(m, [c, d]) <==> Allowed(m, c) && AllAllowed(Changed(m, c), [d]);
  }

  /** Before the first command the operation is cancelled and the workflow stays; after it a session that is under way
      leaves the device unknown or the rollback required, and a running operation is in an unknown state. */
  lemma HandlerPlanIs(m: Metadata, started: bool)
    ensures var (todo, code) := HandlerPlan(m, started);
      && AllAllowed(m, todo)
      && (code == DeviceUnknown <==> started)
      && AfterAll(m, todo).workflow == (match (started, m.workflow)
           case (true, ApplyRunning) => DeviceStateUnknown
           case (true, RollbackRunning) => RollbackRequired
           case _ => m.workflow)
      && AfterAll(m, todo).lifecycle == (match (started, m.lifecycle)
           case (true, Running) => StateUnknown
           case (false, Created) => Cancelled
           case (false, Running) => Cancelled
           case (false, WaitingForUser) => Cancelled
           case _ => m.lifecycle)
  {
    var todo := HandlerPlan(m, started).0;
    if |todo| == 1 {
      AfterTwo(m, todo[0], todo[0]);
      assert todo == [todo[0]];
    } else if |todo| == 2 {
      AfterTwo(m, todo[0], todo[1]);
      assert todo == [todo[0], todo[1]];
    }
  }

  /** The stored state no longer says that something is under way. */
  ghost predicate Settled(m: Metadata, code: Code) {
    match code
    case DeviceUnknown => m.workflow != ApplyRunning && m.workflow != RollbackRunning && m.lifecycle != Running
    case CancelledBeforeApply => m.lifecycle != Created && m.lifecycle != Running && m.lifecycle != WaitingForUser
  }

  ghost predicate WillSettle(m: Metadata, todo: seq<Change>, code: Code, started: bool) {
    (code == DeviceUnknown <==> started) && Settled(AfterAll(m, todo), code)
  }

  ghost predicate GuardSettles(s: Sys, p: Proc) {
    && (p.pc.Handling? ==> WillSettle(s.meta, p.pc.todo, p.pc.code, p.started))
    && (p.pc.Loaded? && p.pc.next.GoHandling? ==> WillSettle(Changed(s.meta, p.pc.change), p.pc.next.todo, p.pc.next.code, p.started))
    && (p.pc.Half? && p.pc.next.GoHandling? ==> WillSettle(Changed(s.meta, p.pc.change), p.pc.next.todo, p.pc.next.code, p.started))
    && (p.code.Some? ==> (p.code.value == DeviceUnknown <==> p.started))
    && (p.code.Some? && p.pc.Leaving? ==> Settled(s.meta, p.code.value) && p.code.value in s.exec.errors)
  }

  lemma OwnLoad(s: Sys, a: Action)
    requires Inv(s) && a.pid in s.procs && GuardSettles(s, s.procs[a.pid]) && Step(s, a).Some? && a.Load?
    requires !s.procs[a.pid].pc.Handling?
    ensures GuardSettles(Step(s, a).value, Step(s, a).value.procs[a.pid])
  {
    var p := s.procs[a.pid];
    assert ProcOk(s, a.pid, p);
    assert NextOf(p, s.meta.workflow, a.change).Some? ==> !NextOf(p, s.meta.workflow, a.change).value.GoHandling?;
  }

  lemma HandlerLoad(s: Sys, a: Action)
    requires Inv(s) && a.pid in s.procs && GuardSettles(s, s.procs[a.pid]) && Step(s, a).Some? && a.Load?
    requires s.procs[a.pid].pc.Handling?
    ensures GuardSettles(Step(s, a).value, Step(s, a).value.procs[a.pid])
  {
    var p := s.procs[a.pid];
    assert ProcOk(s, a.pid, p);
    assert NextOf(p, s.meta.workflow, a.change) == Some(GoHandling(p.pc.todo[1..], p.pc.code)) && p.pc.todo[0] == a.change;
  }

  lemma OwnWrite(s: Sys, a: Action)
    requires Inv(s) && a.pid in s.procs && GuardSettles(s, s.procs[a.pid]) && Step(s, a).Some?
    requires a.WriteExecution? || a.WriteMetadata?
    ensures GuardSettles(Step(s, a).value, Step(s, a).value.procs[a.pid])
  {
    assert ProcOk(s, a.pid, s.procs[a.pid]);
  }

  lemma OwnStep(s: Sys, a: Action)
    requires Inv(s) && a.pid in s.procs && GuardSettles(s, s.procs[a.pid]) && Step(s, a).Some?
    requires !a.Load? && !a.WriteExecution? && !a.WriteMetadata?
    ensures GuardSettles(Step(s, a).value, Step(s, a).value.procs[a.pid])
  {
    assert ProcOk(s, a.pid, s.procs[a.pid]);
    if a.Signal? {
      HandlerPlanIs(s.meta, s.procs[a.pid].started);
    }
  }

  /** Whoever changes the files has the lock, so nobody else is handling a signal. */
  lemma ForeignStep(s: Sys, a: Action, q: nat)
    requires Inv(s) && Step(s, a).Some? && q in s.procs && q != a.pid && GuardSettles(s, s.procs[q])
    ensures GuardSettles(Step(s, a).value, Step(s, a).value.procs[q])
  {
    assert ProcOk(s, a.pid, s.procs[a.pid]) && ProcOk(s, q, s.procs[q]);
  }

  lemma {:induction false} RunSettles(s: Sys, actions: seq<Action>, pid: nat)
    requires Init(s) && Run(s, actions).Some? && pid in Run(s, actions).value.procs
    ensures GuardSettles(Run(s, actions).value, Run(s, actions).value.procs[pid])
    decreases |actions|
  {
    if actions != [] {
      var before, a := actions[..|actions| - 1], actions[|actions| - 1];
      var t := Run(s, before).value;
      assert pid in t.procs;
      RunSettles(s, before, pid);
      RunKeepsInv(s, before);
      if pid != a.pid {
        ForeignStep(t, a, pid);
      } else if a.Load? && t.procs[pid].pc.Handling? {
        HandlerLoad(t, a);
      } else if a.Load? {
        OwnLoad(t, a);
      } else if a.WriteExecution? || a.WriteMetadata? {
        OwnWrite(t, a);
      } else {
        OwnStep(t, a);
      }
    }
  }

  /** Over every run: the code that a guard records tells whether its call had been marked as sending, and when it is
      recorded the stored state is settled accordingly, until the lock is released. */
  lemma GuardTellsTheTruth(s: Sys, actions: seq<Action>, pid: nat)
    requires Init(s) && Run(s, actions).Some? && pid in Run(s, actions).value.procs
    requires Run(s, actions).value.procs[pid].code.Some?
    ensures var (t, p) := (Run(s, actions).value, Run(s, actions).value.procs[pid]);
      && (p.code.value == DeviceUnknown <==> p.started)
      && (p.own > 0 && p.guarded ==> p.code.value == DeviceUnknown)
      && (p.pc == Leaving ==> Settled(t.meta, p.code.value) && p.code.value in t.exec.errors && t.lock == Some(pid))
  {
    RunSettles(s, actions, pid);
    RunKeepsInv(s, actions);
    var t := Run(s, actions).value;
    assert ProcOk(t, pid, t.procs[pid]);
  }

  lemma {:induction false} HandlesAll(reach: Sys -> bool, s: Sys, pid: nat, todo: seq<Change>, code: Code) returns (t: Sys)
    requires Onward(reach) && reach(s) && pid in s.procs && s.procs[pid].kind != Closer
    requires s.procs[pid].pc == Handling(todo, code) && AllAllowed(s.meta, todo)
    ensures reach(t) && OnlyChanges(s, t, pid) && t.meta == AfterAll(s.meta, todo) && t.sent == s.sent && t.lock == s.lock
    ensures t.procs[pid].pc == Leaving && t.procs[pid].code == Some(code) && code in t.exec.errors
    decreases |todo|
  {
    if todo == [] {
      t := Then(reach, s, Record(pid));
    } else {
      t := Stores(reach, s, pid, todo[0], GoHandling(todo[1..], code));
      t := HandlesAll(reach, t, pid, todo[1..], code);
    }
  }

  /** From wherever a signal finds a guarded call with the lock, the handler can run to its end: the stored state is
      what its plan comes to, and the code is recorded. */
  lemma SignalIsHandled(reach: Sys -> bool, s: Sys, pid: nat) returns (t: Sys)
    requires Onward(reach) && reach(s) && pid in s.procs && s.procs[pid].guarded && s.procs[pid].kind != Closer
    requires var pc := s.procs[pid].pc; pc.Inside? || pc.Loaded? || pc.Half? || pc.Entered? || pc.Sending? || pc.Handling?
    ensures reach(t) && OnlyChanges(s, t, pid) && t.sent == s.sent && t.lock == s.lock && t.procs[pid].pc == Leaving
    ensures t.procs[pid].code == Some(if s.procs[pid].started then DeviceUnknown else CancelledBeforeApply)
    ensures t.procs[pid].code.value in t.exec.errors && Settled(t.meta, t.procs[pid].code.value)
  {
    var started := s.procs[pid].started;
    var (todo, code) := HandlerPlan(s.meta, started);
    HandlerPlanIs(s.meta, started);
    t := Then(reach, s, Signal(pid));
    t := HandlesAll(reach, t, pid, todo, code);
  }

  /** The lock of a process that crashed stays until somebody clears it; then the others can go on. */
  lemma StaleLockStays(s: Sys, a: Action, pid: nat)
    requires Inv(s) && pid in s.procs && s.procs[pid].pc == Ended && s.lock == Some(pid)
    ensures Step(s, ClearStale(pid)).Some? && Step(s, ClearStale(pid)).value == s.(lock := None)
    ensures Step(s, a).Some? && a != ClearStale(pid) ==> Step(s, a).value.lock == Some(pid) && Step(s, a).value.meta == s.meta
  {
    if a.pid in s.procs {
      assert ProcOk(s, a.pid, s.procs[a.pid]);
    }
  }

  /** Over every run: no two processes are past their acquisition of the lock and not yet past its release. */
  lemma OneHolder(s: Sys, actions: seq<Action>, p: nat, q: nat)
    requires Init(s) && Run(s, actions).Some? && p in Run(s, actions).value.procs && q in Run(s, actions).value.procs
    requires var t := Run(s, actions).value;
      forall pid :: pid == p || pid == q ==>
        var pc := t.procs[pid].pc; pc.Inside? || pc.Loaded? || pc.Half? || pc.Entered? || pc.Sending? || pc.Handling? || pc.Leaving?
    ensures p == q && Run(s, actions).value.lock == Some(p)
  {
    RunKeepsInv(s, actions);
    var t := Run(s, actions).value;
    assert ProcOk(t, p, t.procs[p]) && ProcOk(t, q, t.procs[q]);
  }
}
