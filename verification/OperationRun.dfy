// alred/operation.py and alred/managed_operation.py: the stored state of one
// operation, worked on by processes that lock it, transition it, send
// configuration and may be signalled or crash between any two steps.
module OperationRun {

  datatype Option<+T> = None | Some(value: T)

  datatype Lifecycle = Created | Running | WaitingForUser | Completed | CompletedWithWarnings | Failed | Cancelled | StateUnknown

  datatype Workflow =
    | NoWorkflow | Planned | BeforeRunning | BeforeFailed | BeforeCompleted | PlanReady | Approved
    | ApplyRunning | ApplyFailed | DeviceStateUnknown | ApplyCompleted
    | AfterRunning | HealthFailed | AfterCompleted | SaveRunning | SaveFailed | WorkflowCompleted
    | RollbackRequired | RollbackRunning | RollbackFailed | RolledBack | RollbackHealthFailed | RolledBackAndVerified
    | QualificationSaveRunning | QualificationSaveFailed | QualificationCompleted

  /** OPERATION_TRANSITIONS */
  function LifecycleNext(l: Lifecycle): set<Lifecycle> {
    match l
    case Created => {Running, Cancelled, Failed}
    case Running => {WaitingForUser, Completed, CompletedWithWarnings, Failed, Cancelled, StateUnknown}
    case WaitingForUser => {Running, Failed, Cancelled}
    case _ => {}
  }

  /** WORKFLOW_TRANSITIONS */
  function WorkflowNext(w: Workflow): set<Workflow> {
    match w
    case NoWorkflow => {Planned}
    case Planned => {BeforeRunning}
    case BeforeRunning => {BeforeFailed, BeforeCompleted}
    case BeforeFailed => {}
    case BeforeCompleted => {PlanReady}
    case PlanReady => {Approved}
    case Approved => {ApplyRunning}
    case ApplyRunning => {ApplyFailed, DeviceStateUnknown, ApplyCompleted}
    case ApplyCompleted => {AfterRunning}
    case AfterRunning => {HealthFailed, AfterCompleted}
    case AfterCompleted => {SaveRunning, WorkflowCompleted, RollbackRequired}
    case SaveRunning => {SaveFailed, WorkflowCompleted}
    case ApplyFailed => {RollbackRequired}
    case DeviceStateUnknown => {RollbackRequired}
    case HealthFailed => {RollbackRequired}
    case SaveFailed => {RollbackRequired}
    case RollbackRequired => {AfterRunning, RollbackRunning}
    case RollbackRunning => {RollbackFailed, RollbackRequired, RolledBack}
    case RollbackFailed => {}
    case RolledBack => {RollbackHealthFailed, RolledBackAndVerified}
    case RollbackHealthFailed => {RollbackHealthFailed, RolledBackAndVerified}
    case RolledBackAndVerified => {SaveRunning, QualificationSaveRunning}
    case QualificationSaveRunning => {QualificationSaveFailed, QualificationCompleted}
    case QualificationSaveFailed => {}
    case QualificationCompleted => {}
    case WorkflowCompleted => {RollbackRequired}
  }

  /** PRE_APPLY_CLOSABLE_WORKFLOW_STATES */
  const PreApply := {NoWorkflow, Planned, BeforeRunning, BeforeCompleted, PlanReady, Approved}

  const ClosableLifecycles := {Created, Running, WaitingForUser}

  /** No edge leads back into the states before apply. */
  lemma PreApplyIsNotReentered(w: Workflow, next: Workflow)
    requires next in WorkflowNext(w) && next in PreApply
    ensures w in PreApply
  {}

  // -------------------------------------------------------------- the two files

  /** metadata.yaml */
  datatype Metadata = Metadata(lifecycle: Lifecycle, workflow: Workflow, inspection: bool)

  /** execution.json */
  datatype Execution = Execution(lifecycle: Lifecycle, workflow: Workflow, errors: seq<Code>)

  datatype Code = CancelledBeforeApply | DeviceUnknown

  /** What one transition changes; a phase transition leaves both states alone. */
  datatype Change = ToLifecycle(lifecycle: Lifecycle) | ToWorkflow(workflow: Workflow) | PhaseOnly

  /** An inspection has no workflow; its collection may be run again when it has completed. */
  predicate InspectionRetry(m: Metadata, l: Lifecycle) {
    m.inspection && m.workflow == NoWorkflow && m.lifecycle in {Completed, CompletedWithWarnings} && l == Running
  }

  predicate Allowed(m: Metadata, c: Change) {
    match c
    case ToLifecycle(l) => l in LifecycleNext(m.lifecycle) || InspectionRetry(m, l)
    case ToWorkflow(w) => w in WorkflowNext(m.workflow)
    case PhaseOnly => true
  }

  function Changed(m: Metadata, c: Change): Metadata {
    match c
    case ToLifecycle(l) => m.(lifecycle := l)
    case ToWorkflow(w) => m.(workflow := w)
    case PhaseOnly => m
  }

  function ChangedExecution(x: Execution, c: Change): Execution {
    match c
    case ToLifecycle(l) => x.(lifecycle := l)
    case ToWorkflow(w) => x.(workflow := w)
    case PhaseOnly => x
  }

  // ------------------------------------------------------------------ processes

  datatype Kind =
    | Mutator(entry: Workflow)   // approved apply (apply_running) or rollback (rollback_running)
    | Worker                     // collection, planning, approval, health, save, verification
    | Closer

  /** Where a transition goes on once metadata.yaml is written. */
  datatype Next = GoInside | GoEntered | GoLeaving | GoHandling(todo: seq<Change>, code: Code)

  datatype Pc =
    | Outside
    | Seen(metadata: Metadata)            // close: metadata read and found closable
    | Clear(metadata: Metadata)           // close: no lock file was there
    | Inside                              // lock held
    | Loaded(metadata: Metadata, execution: Execution, change: Change, next: Next)
    | Half(metadata: Metadata, change: Change, next: Next)   // execution.json written, metadata.yaml not
    | Entered                             // apply_running or rollback_running stored, not yet marked
    | Sending
    | Handling(todo: seq<Change>, code: Code)                // inside the signal handler
    | Leaving
    | Ended

  /** The result of a successful close: what was loaded under the lock and how much had been sent. */
  datatype Closed = Closed(loaded: Metadata, sentBefore: nat)

  datatype Proc = Proc(
    kind: Kind,
    guarded: bool,             // runs under an OperationInterruptGuard
    pc: Pc,
    started: bool,             // device_commands_started
    own: nat,                  // configuration commands sent by this call
    code: Option<Code>,        // recorded by the guard
    closed: Option<Closed>,
    readAt: nat,               // lock acquisitions counted when metadata was read
    freeAtRead: bool,
    undisturbed: bool,         // nobody held or took the lock between reading and acquiring
    began: Workflow)           // the workflow state when the lock was taken

  datatype Sys = Sys(
    meta: Metadata,
    exec: Execution,
    lock: Option<nat>,
    procs: map<nat, Proc>,
    sent: nat,                 // configuration commands sent for the operation
    acquisitions: nat)

  predicate HoldsLock(pc: Pc) {
    pc.Inside? || pc.Loaded? || pc.Half? || pc.Entered? || pc.Sending? || pc.Handling? || pc.Leaving?
  }

  // --------------------------------------------------------------------- steps

  datatype Action =
    | Read(pid: nat) | Look(pid: nat) | Acquire(pid: nat)
    | Load(pid: nat, change: Change) | WriteExecution(pid: nat) | WriteMetadata(pid: nat)
    | Mark(pid: nat) | Send(pid: nat)
    | Signal(pid: nat) | Record(pid: nat)
    | Abort(pid: nat) | Release(pid: nat) | Crash(pid: nat) | ClearStale(pid: nat)

  /** `OperationInterruptGuard._handle`: the transitions it will make and the code it will record. */
  function HandlerPlan(m: Metadata, started: bool): (seq<Change>, Code) {
    if started then
      ((if m.workflow == ApplyRunning then [ToWorkflow(DeviceStateUnknown)]
        else if m.workflow == RollbackRunning then [ToWorkflow(RollbackRequired)] else [])
       + (if m.lifecycle == Running then [ToLifecycle(StateUnknown)] else []), DeviceUnknown)
    else
      ([PhaseOnly] + (if m.lifecycle in ClosableLifecycles then [ToLifecycle(Cancelled)] else []), CancelledBeforeApply)
  }

  /** Who makes which workflow transition, by the state the call found when it took the lock (`began`) and the
      present one. Planning goes all the way from nothing, or on from a completed before phase
      (alred/cli.py:13971-14024); approval needs a plan (alred/approval.py:242-246), apply an approval
      (alred/managed_operation.py:453-456), evaluation what an apply left or a rollback is required for
      (alred/cli.py:17114-17195), save a completed after phase or a verified rollback
      (alred/managed_operation.py:649-659, alred/qualification.py:997), rollback a completed after phase, a
      completed operation or a required rollback (alred/managed_operation.py:1119), and verification a rollback
      (alred/managed_operation.py:1261). What such a call stores on its way only the call itself leaves again. */
  predicate Issues(p: Proc, present: Workflow, c: Change) {
    c.ToWorkflow? ==>
      match c.workflow
      case NoWorkflow => false
      case Planned => p.kind.Worker? && p.began == NoWorkflow
      case BeforeRunning => p.kind.Worker? && p.began == NoWorkflow
      case BeforeCompleted => p.kind.Worker? && p.began == NoWorkflow
      case BeforeFailed => false
      case PlanReady => p.kind.Worker? && p.began in {NoWorkflow, BeforeCompleted}
      case Approved => p.kind.Worker? && p.began == PlanReady
      case ApplyRunning => Applies(p)
      case ApplyFailed => Applies(p)
      case DeviceStateUnknown => Applies(p)
      case ApplyCompleted => Applies(p)
      case AfterRunning => Evaluates(p) && present == p.began
      case HealthFailed => Evaluates(p)
      case AfterCompleted => Evaluates(p)
      case SaveRunning => Saves(p) && present == p.began
      case SaveFailed => Saves(p)
      case WorkflowCompleted => Saves(p) && present == SaveRunning
      case RollbackRequired =>
        || (present in {ApplyFailed, DeviceStateUnknown} && Applies(p))
        || (present == HealthFailed && Evaluates(p))
        || (present in {AfterCompleted, WorkflowCompleted} && RollsBack(p) && present == p.began)
      case RollbackRunning => RollsBack(p)
      case RollbackFailed => RollsBack(p)
      case RolledBack => RollsBack(p)
      case RollbackHealthFailed => Verifies(p)
      case RolledBackAndVerified => Verifies(p)
      case QualificationSaveRunning => p.kind.Worker? && p.began == RolledBackAndVerified
      case QualificationSaveFailed => p.kind.Worker? && p.began == RolledBackAndVerified
      case QualificationCompleted => p.kind.Worker? && p.began == RolledBackAndVerified
  }

  predicate Applies(p: Proc) {
    p.kind == Mutator(ApplyRunning) && p.began == Approved
  }

  predicate Evaluates(p: Proc) {
    p.kind.Worker? && p.began in {ApplyCompleted, AfterRunning, RollbackRequired}
  }

  predicate Saves(p: Proc) {
    p.kind.Worker? && p.began in {AfterCompleted, RolledBackAndVerified}
  }

  predicate RollsBack(p: Proc) {
    p.kind == Mutator(RollbackRunning) && p.began in {AfterCompleted, WorkflowCompleted, RollbackRequired}
  }

  predicate Verifies(p: Proc) {
    p.kind.Worker? && p.began in {RolledBack, RollbackHealthFailed}
  }

  /** The transitions the code of a process may start at its present place, and where they lead. */
  function NextOf(p: Proc, present: Workflow, c: Change): Option<Next> {
    match p.pc
    case Inside =>
      if !Issues(p, present, c) then None else
      (match p.kind
       case Closer => if c == ToLifecycle(Cancelled) then Some(GoLeaving) else None
       case Worker => Some(GoInside)
       case Mutator(entry) => Some(if c == ToWorkflow(entry) then GoEntered else GoInside))
    case Entered => if Issues(p, present, c) then Some(GoInside) else None
    case Sending => if Issues(p, present, c) then Some(GoInside) else None
    case Handling(todo, code) => if todo != [] && todo[0] == c then Some(GoHandling(todo[1..], code)) else None
    case _ => None
  }

  function PcOf(n: Next): Pc {
    match n
    case GoInside => Inside
    case GoEntered => Entered
    case GoLeaving => Leaving
    case GoHandling(todo, code) => Handling(todo, code)
  }

  function With(s: Sys, pid: nat, p: Proc): Sys {
    s.(procs := s.procs[pid := p])
  }

  /** One step of one process; None when it is not enabled. */
  function Step(s: Sys, a: Action): Option<Sys> {
    if a.pid !in s.procs then None
    else
      var p := s.procs[a.pid];
      match a
      case Read(pid) =>
        if p.kind == Closer && p.pc == Outside && s.meta.lifecycle in ClosableLifecycles && s.meta.workflow in PreApply
        then Some(With(s, pid, p.(pc := Seen(s.meta), readAt := s.acquisitions, freeAtRead := s.lock == None)))
        else None
      case Look(pid) =>
        if p.pc.Seen? && s.lock == None then Some(With(s, pid, p.(pc := Clear(p.pc.metadata)))) else None
      case Acquire(pid) =>
        if s.lock == None && (p.pc.Clear? || (p.pc == Outside && p.kind != Closer))
        then Some(With(s, pid, p.(pc := Inside, undisturbed := p.freeAtRead && p.readAt == s.acquisitions,
                                   began := s.meta.workflow))
                  .(lock := Some(pid), acquisitions := s.acquisitions + 1))
        else None
      case Load(pid, change) =>
        var next := NextOf(p, s.meta.workflow, change);
        if next.None? then None
        else if Allowed(s.meta, change) then Some(With(s, pid, p.(pc := Loaded(s.meta, s.exec, change, next.value))))
        else Some(With(s, pid, p.(pc := Leaving)))
      case WriteExecution(pid) =>
        if !p.pc.Loaded? then None
        else Some(With(s, pid, p.(pc := Half(p.pc.metadata, p.pc.change, p.pc.next)))
                  .(exec := ChangedExecution(p.pc.execution, p.pc.change)))
      case WriteMetadata(pid) =>
        if !p.pc.Half? then None
        else
          var closed := if p.kind == Closer then Some(Closed(p.pc.metadata, s.sent)) else None;
          Some(With(s, pid, p.(pc := PcOf(p.pc.next), closed := closed)).(meta := Changed(p.pc.metadata, p.pc.change)))
      case Mark(pid) =>
        if p.pc != Entered then None
        else Some(With(s, pid, p.(pc := Sending, started := p.started || p.guarded)))
      case Send(pid) =>
        if p.pc != Sending then None
        else Some(With(s, pid, p.(own := p.own + 1)).(sent := s.sent + 1))
      case Signal(pid) =>
        if p.guarded && HoldsLock(p.pc) && p.pc != Leaving
        then
          var (todo, code) := HandlerPlan(s.meta, p.started);
          Some(With(s, pid, p.(pc := Handling(todo, code))))
        else None
      case Record(pid) =>
        if p.pc.Handling? && p.pc.todo == []
        then Some(With(s, pid, p.(pc := Leaving, code := Some(p.pc.code)))
                  .(exec := s.exec.(errors := s.exec.errors + [p.pc.code])))
        else None
      case Abort(pid) =>
        if HoldsLock(p.pc) then Some(With(s, pid, p.(pc := Leaving))) else None
      case Release(pid) =>
        if p.pc == Leaving && s.lock == Some(pid) then Some(With(s, pid, p.(pc := Ended)).(lock := None)) else None
      case Crash(pid) => Some(With(s, pid, p.(pc := Ended)))
      case ClearStale(pid) =>
        if p.pc == Ended && s.lock == Some(pid) then Some(s.(lock := None)) else None
  }

  /** Any stored state before apply, with any number of processes about to start. */
  ghost predicate Init(s: Sys) {
    && s.meta.workflow in PreApply && s.lock == None && s.sent == 0
    && forall pid :: pid in s.procs ==>
         var p := s.procs[pid];
         && p.pc == Outside && !p.started && p.own == 0 && p.code == None && p.closed == None && !p.undisturbed
         && (p.kind.Mutator? ==> p.kind.entry in {ApplyRunning, RollbackRunning})
         && (p.guarded ==> p.kind != Closer)
  }

  /** The state after a run, if every step of it was enabled. */
  function Run(s: Sys, actions: seq<Action>): Option<Sys>
    decreases |actions|
  {
    if actions == [] then Some(s)
    else
      match Run(s, actions[..|actions| - 1])
      case None => None
      case Some(t) => Step(t, actions[|actions| - 1])
  }

  // ------------------------------------------------------------------ invariant

  /** What holds of one process and the files at every moment. */
  ghost predicate ProcOk(s: Sys, pid: nat, p: Proc) {
    && (HoldsLock(p.pc) ==> s.lock == Some(pid))
    && (p.kind.Mutator? ==> p.kind.entry in {ApplyRunning, RollbackRunning})
    && TransitionOk(s, p) && GuardOk(p) && CloseOk(s, p)
  }

  ghost predicate TransitionOk(s: Sys, p: Proc) {
    && (p.pc.Loaded? ==> p.pc.metadata == s.meta && Allowed(s.meta, p.pc.change) && EntryOk(p.pc.change, p.pc.next))
    && (p.pc.Half? ==> p.pc.metadata == s.meta && Allowed(s.meta, p.pc.change) && EntryOk(p.pc.change, p.pc.next))
    && (p.pc.Entered? || p.pc.Sending? ==> s.meta.workflow !in PreApply)
  }

  ghost predicate EntryOk(c: Change, n: Next) {
    n == GoEntered ==> c.ToWorkflow? && c.workflow !in PreApply
  }

  /** A guarded call is marked before it sends; after CANCELLED_BEFORE_APPLY it cannot send. */
  ghost predicate GuardOk(p: Proc) {
    && (p.guarded && (p.own > 0 || p.pc.Sending?) ==> p.started)
    && (p.pc.Outside? ==> !p.started)
    && (p.pc.Handling? && p.pc.code == CancelledBeforeApply ==> p.own == 0)
    && (p.pc.Loaded? && p.pc.next.GoHandling? && p.pc.next.code == CancelledBeforeApply ==> p.own == 0)
    && (p.pc.Half? && p.pc.next.GoHandling? && p.pc.next.code == CancelledBeforeApply ==> p.own == 0)
    && (p.code.Some? ==> p.pc.Leaving? || p.pc.Ended?)
    && (p.code == Some(CancelledBeforeApply) ==> p.own == 0)
  }

  ghost predicate CloseOk(s: Sys, p: Proc) {
    && (p.kind == Closer ==> !p.guarded && !p.pc.Entered? && !p.pc.Sending? && !p.pc.Handling?)
    && (p.kind == Closer && p.pc.Loaded? ==> p.pc.next == GoLeaving && p.pc.change == ToLifecycle(Cancelled))
    && (p.kind == Closer && p.pc.Half? ==> p.pc.next == GoLeaving && p.pc.change == ToLifecycle(Cancelled))
    && (p.closed.Some? ==> p.kind == Closer && (p.pc.Leaving? || p.pc.Ended?))
    && (p.pc.Seen? || p.pc.Clear? ==> p.kind == Closer && p.pc.metadata.workflow in PreApply && p.readAt <= s.acquisitions)
    && ((p.pc.Seen? || p.pc.Clear?) && p.freeAtRead && p.readAt == s.acquisitions ==> s.meta == p.pc.metadata && s.lock == None)
    && (p.kind == Closer && p.undisturbed && (p.pc.Inside? || p.pc.Loaded? || p.pc.Half?) ==> s.meta.workflow in PreApply)
    && (p.closed.Some? && p.closed.value.loaded.workflow in PreApply ==> p.closed.value.sentBefore == 0)
    && (p.kind == Closer && p.closed.Some? && p.undisturbed ==> p.closed.value.loaded.workflow in PreApply)
    && (p.closed.Some? && p.pc.Leaving? ==> s.meta == p.closed.value.loaded.(lifecycle := Cancelled))
  }

  ghost predicate Inv(s: Sys) {
    && (s.sent > 0 ==> s.meta.workflow !in PreApply)
    && forall pid {:trigger ProcOk(s, pid, s.procs[pid])} :: pid in s.procs ==> ProcOk(s, pid, s.procs[pid])
  }

  /** Steps of one process keep the others in order when they leave files and lock alone. */
  lemma OthersKept(s: Sys, pid: nat, p: Proc, t: Sys)
    requires Inv(s) && pid in s.procs
    requires t == With(s, pid, p).(exec := t.exec, sent := t.sent)
    requires ProcOk(t, pid, p) && (t.sent > 0 ==> t.meta.workflow !in PreApply)
    ensures Inv(t)
  {
    forall q | q in t.procs ensures ProcOk(t, q, t.procs[q]) {
      assert ProcOk(s, q, s.procs[q]);
    }
  }

  lemma LocalProcOk(s: Sys, a: Action)
    requires Inv(s) && Step(s, a).Some?
    requires a.Read? || a.Look? || a.WriteExecution? || a.Crash?
    ensures var t := Step(s, a).value; ProcOk(t, a.pid, t.procs[a.pid])
  {
    assert ProcOk(s, a.pid, s.procs[a.pid]);
  }

  lemma LoadGuardOk(s: Sys, a: Action)
    requires Inv(s) && a.Load? && Step(s, a).Some?
    ensures GuardOk(Step(s, a).value.procs[a.pid])
  {
    assert ProcOk(s, a.pid, s.procs[a.pid]);
  }

  lemma LoadTransitionOk(s: Sys, a: Action)
    requires Inv(s) && a.Load? && Step(s, a).Some?
    ensures var t := Step(s, a).value; TransitionOk(t, t.procs[a.pid])
  {
    assert ProcOk(s, a.pid, s.procs[a.pid]);
  }

  lemma LoadCloseOk(s: Sys, a: Action)
    requires Inv(s) && a.Load? && Step(s, a).Some?
    ensures var t := Step(s, a).value; CloseOk(t, t.procs[a.pid])
  {
    assert ProcOk(s, a.pid, s.procs[a.pid]);
  }

  lemma LoadProcOk(s: Sys, a: Action)
    requires Inv(s) && a.Load? && Step(s, a).Some?
    ensures var t := Step(s, a).value; ProcOk(t, a.pid, t.procs[a.pid])
  {
    assert ProcOk(s, a.pid, s.procs[a.pid]);
    LoadGuardOk(s, a);
    LoadTransitionOk(s, a);
    LoadCloseOk(s, a);
  }

  lemma SendingProcOk(s: Sys, a: Action)
    requires Inv(s) && Step(s, a).Some?
    requires a.Mark? || a.Send? || a.Signal? || a.Record? || a.Abort?
    ensures var t := Step(s, a).value; ProcOk(t, a.pid, t.procs[a.pid]) && (t.sent > 0 ==> t.meta.workflow !in PreApply)
  {
    assert ProcOk(s, a.pid, s.procs[a.pid]);
  }

  lemma LocalStep(s: Sys, a: Action)
    requires Inv(s) && Step(s, a).Some?
    requires a.Read? || a.Look? || a.Load? || a.WriteExecution? || a.Mark? || a.Send? || a.Signal? || a.Record? || a.Abort? || a.Crash?
    ensures Inv(Step(s, a).value)
  {
    if a.Load? {
      LoadProcOk(s, a);
    } else if a.Read? || a.Look? || a.WriteExecution? || a.Crash? {
      LocalProcOk(s, a);
    } else {
      SendingProcOk(s, a);
    }
    var t := Step(s, a).value;
    OthersKept(s, a.pid, t.procs[a.pid], t);
  }

  lemma AcquireStep(s: Sys, a: Action)
    requires Inv(s) && a.Acquire? && Step(s, a).Some?
    ensures Inv(Step(s, a).value)
  {
    var t := Step(s, a).value;
    forall q | q in t.procs ensures ProcOk(t, q, t.procs[q]) {
      assert ProcOk(s, q, s.procs[q]);
    }
  }

  lemma WriteMetadataStep(s: Sys, a: Action)
    requires Inv(s) && a.WriteMetadata? && Step(s, a).Some?
    ensures Inv(Step(s, a).value)
  {
    var t, p := Step(s, a).value, s.procs[a.pid];
    assert ProcOk(s, a.pid, p);
    if p.pc.change.ToWorkflow? && p.pc.change.workflow in PreApply {
      PreApplyIsNotReentered(s.meta.workflow, p.pc.change.workflow);
    }
    forall q | q in t.procs ensures ProcOk(t, q, t.procs[q]) {
      assert ProcOk(s, q, s.procs[q]);
    }
  }

  lemma UnlockStep(s: Sys, a: Action)
    requires Inv(s) && (a.Release? || a.ClearStale?) && Step(s, a).Some?
    ensures Inv(Step(s, a).value)
  {
    var t := Step(s, a).value;
    forall q | q in t.procs ensures ProcOk(t, q, t.procs[q]) {
      assert ProcOk(s, q, s.procs[q]);
    }
  }

  lemma {:induction false} RunKeepsInv(s: Sys, actions: seq<Action>)
    requires Init(s) && Run(s, actions).Some?
    ensures Inv(Run(s, actions).value)
    decreases |actions|
  {
    if actions == [] {
      forall q | q in s.procs ensures ProcOk(s, q, s.procs[q]) {}
    } else {
      var before, a := actions[..|actions| - 1], actions[|actions| - 1];
      RunKeepsInv(s, before);
      var t := Run(s, before).value;
      match a
      case Acquire(_) => AcquireStep(t, a);
      case WriteMetadata(_) => WriteMetadataStep(t, a);
      case Release(_) => UnlockStep(t, a);
      case ClearStale(_) => UnlockStep(t, a);
      case _ => LocalStep(t, a);
    }
  }

  // ------------------------------------------------------------------- promises

  /** Over every run: a close that loaded a pre-apply state under the lock found nothing sent ... */
  lemma CloseMeansNothingSent(s: Sys, actions: seq<Action>, pid: nat)
    requires Init(s) && Run(s, actions).Some?
    requires var t := Run(s, actions).value;
      pid in t.procs && t.procs[pid].closed.Some? && t.procs[pid].closed.value.loaded.workflow in PreApply
    ensures Run(s, actions).value.procs[pid].closed.value.sentBefore == 0
  {
    RunKeepsInv(s, actions);
    var t := Run(s, actions).value;
    assert ProcOk(t, pid, t.procs[pid]);
  }

  /** ... and it did load one whenever nobody held or took the lock between its first
      reading of the metadata and its own acquisition. */
  lemma UndisturbedCloseMeansNothingSent(s: Sys, actions: seq<Action>, pid: nat)
    requires Init(s) && Run(s, actions).Some?
    requires var t := Run(s, actions).value;
      pid in t.procs && t.procs[pid].kind == Closer && t.procs[pid].closed.Some? && t.procs[pid].undisturbed
    ensures Run(s, actions).value.procs[pid].closed.value.sentBefore == 0
  {
    RunKeepsInv(s, actions);
    var t := Run(s, actions).value;
    assert ProcOk(t, pid, t.procs[pid]);
  }

  /** Over every run: a guard that recorded CANCELLED_BEFORE_APPLY guarded a call that sent nothing,
      and that call is over. */
  lemma CancelledMeansNothingSent(s: Sys, actions: seq<Action>, pid: nat)
    requires Init(s) && Run(s, actions).Some?
    requires var t := Run(s, actions).value; pid in t.procs && t.procs[pid].code == Some(CancelledBeforeApply)
    ensures var p := Run(s, actions).value.procs[pid]; p.own == 0 && (p.pc.Leaving? || p.pc.Ended?)
  {
    RunKeepsInv(s, actions);
    var t := Run(s, actions).value;
    assert ProcOk(t, pid, t.procs[pid]);
  }

  /** Over every run: configuration has been sent only once metadata.yaml has left the states before apply. */
  lemma SentMeansPastApproval(s: Sys, actions: seq<Action>)
    requires Init(s) && Run(s, actions).Some? && Run(s, actions).value.sent > 0
    ensures Run(s, actions).value.meta.workflow !in PreApply
  {
    RunKeepsInv(s, actions);
  }

  // --------------------------------------------------- what close does not promise

  /** An approved operation, one close (0) and one guarded apply (1). */
  const ApprovedPlan := Sys(Metadata(Running, Approved, false), Execution(Running, Approved, []), None,
                            map[0 := Proc(Closer, false, Outside, false, 0, None, None, 0, false, false, NoWorkflow),
                                1 := Proc(Mutator(ApplyRunning), true, Outside, false, 0, None, None, 0, false, false, NoWorkflow)], 0, 0)

  /** `t` can be reached from `s`. */
  ghost predicate Reaches(s: Sys, t: Sys) {
    exists run :: Run(s, run) == Some(t)
  }

  /** What holds of a state holds after every step. */
  ghost predicate Onward(reach: Sys -> bool) {
    forall s, a {:trigger Step(s, a)} :: reach(s) && Step(s, a).Some? ==> reach(Step(s, a).value)
  }

  ghost function ReachedFrom(from: Sys): Sys -> bool {
    s => Reaches(from, s)
  }

  lemma ReachedOnward(from: Sys)
    ensures Onward(ReachedFrom(from)) && Reaches(from, from)
  {
    assert Run(from, []) == Some(from);
    forall s, a | Reaches(from, s) && Step(s, a).Some? ensures Reaches(from, Step(s, a).value) {
      var run :| Run(from, run) == Some(s);
      assert (run + [a])[..|run|] == run;
      assert Run(from, run + [a]) == Some(Step(s, a).value);
    }
  }

  lemma Then(reach: Sys -> bool, s: Sys, a: Action) returns (t: Sys)
    requires Onward(reach) && reach(s) && Step(s, a).Some?
    ensures Step(s, a) == Some(t) && reach(t)
  {
    t := Step(s, a).value;
  }

  const FreshApply := Proc(Mutator(ApplyRunning), true, Outside, false, 0, None, None, 0, false, false, NoWorkflow)

  /** The same processes but for one. */
  ghost predicate OnlyChanges(s: Sys, t: Sys, pid: nat) {
    t.procs.Keys == s.procs.Keys && forall q :: q in s.procs && q != pid ==> t.procs[q] == s.procs[q]
  }

  lemma TakesLock(reach: Sys -> bool, s: Sys, pid: nat) returns (t: Sys)
    requires Onward(reach) && reach(s) && s.lock == None && pid in s.procs && s.procs[pid].pc == Outside && s.procs[pid].kind != Closer
    ensures reach(t) && OnlyChanges(s, t, pid) && t.meta == s.meta && t.sent == s.sent && t.lock == Some(pid)
    ensures t.procs[pid].kind == s.procs[pid].kind && t.procs[pid].pc == Inside && t.procs[pid].began == s.meta.workflow
  {
    t := Then(reach, s, Acquire(pid));
  }

  /** A transition from `NextOf` to its new place. */
  lemma Stores(reach: Sys -> bool, s: Sys, pid: nat, c: Change, n: Next) returns (t: Sys)
    requires Onward(reach) && reach(s) && pid in s.procs && s.procs[pid].kind != Closer
    requires NextOf(s.procs[pid], s.meta.workflow, c) == Some(n) && Allowed(s.meta, c)
    ensures reach(t) && OnlyChanges(s, t, pid) && t.meta == Changed(s.meta, c) && t.sent == s.sent && t.lock == s.lock
    ensures t.procs[pid] == s.procs[pid].(pc := PcOf(n), closed := None)
  {
    t := Then(reach, s, Load(pid, c));
    t := Then(reach, t, WriteExecution(pid));
    t := Then(reach, t, WriteMetadata(pid));
  }

  lemma Leaves(reach: Sys -> bool, s: Sys, pid: nat) returns (t: Sys)
    requires Onward(reach) && reach(s) && s.lock == Some(pid) && pid in s.procs && HoldsLock(s.procs[pid].pc)
    ensures reach(t) && OnlyChanges(s, t, pid) && t.meta == s.meta && t.sent == s.sent && t.lock == None
  {
    t := Then(reach, s, Abort(pid));
    t := Then(reach, t, Release(pid));
  }

  lemma SendsOne(reach: Sys -> bool, s: Sys, pid: nat) returns (t: Sys)
    requires Onward(reach) && reach(s) && pid in s.procs && s.procs[pid].pc == Entered
    ensures reach(t) && OnlyChanges(s, t, pid) && t.meta == s.meta && t.sent == s.sent + 1 && t.lock == s.lock
    ensures t.procs[pid].pc == Sending
  {
    t := Then(reach, s, Mark(pid));
    t := Then(reach, t, Send(pid));
  }

  /** A process of this kind that has not begun yet. */
  predicate Idle(s: Sys, pid: nat, kind: Kind) {
    pid in s.procs && s.procs[pid].kind == kind && s.procs[pid].pc == Outside
  }

  /** A session stores its running state and sends one command. */
  lemma SessionSends(reach: Sys -> bool, s: Sys, pid: nat, entry: Workflow) returns (t: Sys)
    requires Onward(reach) && reach(s) && pid in s.procs && s.procs[pid].kind == Mutator(entry) && s.procs[pid].pc == Inside
    requires Issues(s.procs[pid], s.meta.workflow, ToWorkflow(entry)) && entry in WorkflowNext(s.meta.workflow)
    ensures reach(t) && OnlyChanges(s, t, pid) && t.lock == s.lock
    ensures t.procs[pid].pc == Sending && t.sent == s.sent + 1 && t.meta == s.meta.(workflow := entry)
  {
    t := Stores(reach, s, pid, ToWorkflow(entry), GoEntered);
    t := SendsOne(reach, t, pid);
  }

  /** An apply or a rollback takes a free lock, stores its running state and sends one command. */
  lemma EntersAndSends(reach: Sys -> bool, s: Sys, pid: nat, entry: Workflow) returns (t: Sys)
    requires Onward(reach) && reach(s) && s.lock == None && Idle(s, pid, Mutator(entry))
    requires (entry == ApplyRunning && s.meta.workflow == Approved) || (entry == RollbackRunning && s.meta.workflow == RollbackRequired)
    ensures reach(t) && OnlyChanges(s, t, pid) && t.lock == Some(pid)
    ensures t.procs[pid].pc == Sending && t.sent == s.sent + 1 && t.meta == s.meta.(workflow := entry)
  {
    t := TakesLock(reach, s, pid);
    t := SessionSends(reach, t, pid, entry);
  }

  lemma CloseStarts(reach: Sys -> bool, s: Sys) returns (t: Sys)
    requires Onward(reach) && reach(s) && s.lock == None && s.meta.lifecycle == Running
    requires 0 in s.procs && s.procs[0].kind == Closer && s.procs[0].pc.Clear?
    ensures reach(t) && 0 in t.procs && (1 in s.procs ==> 1 in t.procs && t.procs[1] == s.procs[1])
    ensures t.procs[0].kind == Closer && t.procs[0].pc == Half(s.meta, ToLifecycle(Cancelled), GoLeaving)
    ensures t.lock == Some(0) && t.sent == s.sent && t.meta == s.meta
  {
    t := Then(reach, s, Acquire(0));
    t := Then(reach, t, Load(0, ToLifecycle(Cancelled)));
    t := Then(reach, t, WriteExecution(0));
  }

  /** A close that found no lock takes it and stores the cancelled lifecycle. */
  lemma CloseFinishes(reach: Sys -> bool, s: Sys) returns (t: Sys)
    requires Onward(reach) && reach(s) && s.lock == None && s.meta.lifecycle == Running
    requires 0 in s.procs && s.procs[0].kind == Closer && s.procs[0].pc.Clear?
    ensures reach(t) && 0 in t.procs && (1 in s.procs ==> 1 in t.procs && t.procs[1] == s.procs[1])
    ensures t.procs[0].closed == Some(Closed(s.meta, s.sent)) && t.procs[0].pc == Leaving && t.lock == Some(0)
    ensures t.sent == s.sent && t.meta == s.meta.(lifecycle := Cancelled)
  {
    t := CloseStarts(reach, s);
    t := Then(reach, t, WriteMetadata(0));
  }

  lemma CloseLooks() returns (s: Sys)
    ensures Reaches(ApprovedPlan, s)
    ensures 0 in s.procs && s.procs[0].kind == Closer && s.procs[0].pc.Clear? && 1 in s.procs && s.procs[1] == FreshApply
    ensures s.lock == None && s.meta == Metadata(Running, Approved, false) && s.sent == 0
  {
    ReachedOnward(ApprovedPlan);
    s := Then(ReachedFrom(ApprovedPlan), ApprovedPlan, Read(0));
    s := Then(ReachedFrom(ApprovedPlan), s, Look(0));
  }

  lemma WholeApply(reach: Sys -> bool, s: Sys) returns (t: Sys)
    requires Onward(reach) && reach(s) && 0 in s.procs
    requires s.lock == None && s.meta.workflow == Approved && 1 in s.procs && s.procs[1] == FreshApply
    ensures reach(t) && t.lock == None && 0 in t.procs && t.procs[0] == s.procs[0]
    ensures t.sent == s.sent + 1 && t.meta == s.meta.(workflow := ApplyRunning)
  {
    t := EntersAndSends(reach, s, 1, ApplyRunning);
    t := Leaves(reach, t, 1);
  }

  lemma ApplyInBetween(reach: Sys -> bool, s: Sys) returns (t: Sys)
    requires Onward(reach) && reach(s) && s.lock == None && s.meta == Metadata(Running, Approved, false) && s.sent == 0
    requires 0 in s.procs && s.procs[0].kind == Closer && s.procs[0].pc.Clear? && 1 in s.procs && s.procs[1] == FreshApply
    ensures reach(t)
    ensures 0 in t.procs && t.procs[0].closed == Some(Closed(Metadata(Running, ApplyRunning, false), 1))
  {
    t := WholeApply(reach, s);
    t := CloseFinishes(reach, t);
  }

  /** Close checks the workflow state before it takes the lock and not again: an apply
      in between has sent configuration, and the close succeeds all the same. */
  lemma CloseRacesWithApply() returns (t: Sys)
    ensures Init(ApprovedPlan) && Reaches(ApprovedPlan, t)
    ensures 0 in t.procs && t.procs[0].closed == Some(Closed(Metadata(Running, ApplyRunning, false), 1))
  {
    ReachedOnward(ApprovedPlan);
    t := CloseLooks();
    t := ApplyInBetween(ReachedFrom(ApprovedPlan), t);
  }

  /** Nor does it hold afterwards: apply looks at the workflow state only, so a closed
      operation with an approved plan can still be applied. */
  lemma ClosedOperationStillApplies() returns (t: Sys)
    ensures Init(ApprovedPlan) && Reaches(ApprovedPlan, t)
    ensures 0 in t.procs && t.procs[0].closed == Some(Closed(Metadata(Running, Approved, false), 0))
    ensures t.meta.lifecycle == Cancelled && t.sent == 1
  {
    ReachedOnward(ApprovedPlan);
    t := CloseLooks();
    t := WholeClose(ReachedFrom(ApprovedPlan), t);
    t := EntersAndSends(ReachedFrom(ApprovedPlan), t, 1, ApplyRunning);
  }

  lemma WholeClose(reach: Sys -> bool, s: Sys) returns (t: Sys)
    requires Onward(reach) && reach(s) && s.lock == None && s.meta == Metadata(Running, Approved, false) && s.sent == 0
    requires 0 in s.procs && s.procs[0].kind == Closer && s.procs[0].pc.Clear? && 1 in s.procs && s.procs[1] == FreshApply
    ensures reach(t) && t.lock == None && t.meta == Metadata(Cancelled, Approved, false) && t.sent == 0
    ensures 0 in t.procs && t.procs[0].closed == Some(Closed(Metadata(Running, Approved, false), 0))
    ensures 1 in t.procs && t.procs[1] == FreshApply
  {
    t := CloseFinishes(reach, s);
    t := Then(reach, t, Release(0));
  }

  // ------------------------------------------- when a close is right about the past

  function Sends(actions: seq<Action>): nat {
    if actions == [] then 0
    else Sends(actions[..|actions| - 1]) + if actions[|actions| - 1].Send? then 1 else 0
  }

  lemma {:induction false} SendsConcat(a: seq<Action>, b: seq<Action>)
    ensures Sends(a + b) == Sends(a) + Sends(b)
    decreases |b|
  {
    if b == [] {
      assert a + b == a;
    } else {
      assert (a + b)[..|a + b| - 1] == a + b[..|b| - 1];
      SendsConcat(a, b[..|b| - 1]);
    }
  }

  lemma {:induction false} NoSends(actions: seq<Action>)
    ensures Sends(actions) == 0 <==> forall i :: 0 <= i < |actions| ==> !actions[i].Send?
  {
    if actions != [] {
      NoSends(actions[..|actions| - 1]);
    }
  }

  /** Where a process reads the metadata, before anything is sent, and where it takes the lock. */
  ghost predicate ReadAt(actions: seq<Action>, pid: nat, r: int) {
    0 <= r < |actions| && actions[r] == Read(pid) && Sends(actions[..r]) == 0
  }

  ghost predicate Window(actions: seq<Action>, pid: nat, r: int, a: int) {
    ReadAt(actions, pid, r) && r < a < |actions| && actions[a] == Acquire(pid)
  }

  ghost predicate WindowOpen(actions: seq<Action>, pid: nat) {
    exists r :: ReadAt(actions, pid, r)
  }

  /** Up to its acquisition of the lock `n` commands have been sent. */
  ghost predicate WindowHolds(actions: seq<Action>, pid: nat, n: nat) {
    exists r, a :: Window(actions, pid, r, a) && Sends(actions[..a]) == n
  }

  ghost predicate TraceOk(actions: seq<Action>, pid: nat, p: Proc) {
    && (p.kind == Closer && (p.pc.Seen? || p.pc.Clear?) ==> WindowOpen(actions, pid))
    && (p.kind == Closer && (p.pc.Inside? || p.pc.Loaded? || p.pc.Half?) ==> WindowHolds(actions, pid, Sends(actions)))
    && (p.closed.Some? ==> WindowHolds(actions, pid, p.closed.value.sentBefore))
  }

  lemma WindowStays(actions: seq<Action>, x: Action, pid: nat, n: nat)
    ensures WindowOpen(actions, pid) ==> WindowOpen(actions + [x], pid)
    ensures WindowHolds(actions, pid, n) ==> WindowHolds(actions + [x], pid, n)
  {
    var more := actions + [x];
    if WindowOpen(actions, pid) {
      var r :| ReadAt(actions, pid, r);
      assert more[..r] == actions[..r];
      assert ReadAt(more, pid, r);
    }
    if WindowHolds(actions, pid, n) {
      var r, a :| Window(actions, pid, r, a) && Sends(actions[..a]) == n;
      assert more[..r] == actions[..r] && more[..a] == actions[..a];
      assert Window(more, pid, r, a);
    }
  }

  /** One more step, seen from the process that takes it ... */
  lemma TraceOwnStep(actions: seq<Action>, t: Sys, x: Action)
    requires Inv(t) && Step(t, x).Some? && t.sent == Sends(actions) && TraceOk(actions, x.pid, t.procs[x.pid])
    ensures TraceOk(actions + [x], x.pid, Step(t, x).value.procs[x.pid])
  {
    var p := t.procs[x.pid];
    assert ProcOk(t, x.pid, p);
    assert (actions + [x])[..|actions|] == actions;
    WindowStays(actions, x, x.pid, Sends(actions));
    if p.closed.Some? {
      WindowStays(actions, x, x.pid, p.closed.value.sentBefore);
    }
    if x.Read? {
      assert ReadAt(actions + [x], x.pid, |actions|);
    } else if x.Acquire? {
      if p.kind == Closer {
        WindowCloses(actions, x.pid);
      }
    } else if x.Load? || x.WriteExecution? || x.WriteMetadata? {
      TraceStores(actions, t, x);
    }
  }

  lemma TraceStores(actions: seq<Action>, t: Sys, x: Action)
    requires Inv(t) && Step(t, x).Some? && t.sent == Sends(actions) && TraceOk(actions, x.pid, t.procs[x.pid])
    requires x.Load? || x.WriteExecution? || x.WriteMetadata?
    ensures TraceOk(actions + [x], x.pid, Step(t, x).value.procs[x.pid])
  {
    var p := t.procs[x.pid];
    assert ProcOk(t, x.pid, p);
    assert (actions + [x])[..|actions|] == actions;
    WindowStays(actions, x, x.pid, Sends(actions));
  }

  lemma WindowCloses(actions: seq<Action>, pid: nat)
    requires WindowOpen(actions, pid)
    ensures WindowHolds(actions + [Acquire(pid)], pid, Sends(actions + [Acquire(pid)]))
  {
    var more := actions + [Acquire(pid)];
    var r :| ReadAt(actions, pid, r);
    assert more[..r] == actions[..r] && more[..|actions|] == actions;
    assert Window(more, pid, r, |actions|);
  }

  /** ... and from another one: while a close holds the lock nobody sends. */
  lemma TraceOtherStep(actions: seq<Action>, t: Sys, x: Action, pid: nat)
    requires Inv(t) && Step(t, x).Some? && pid in t.procs && pid != x.pid && TraceOk(actions, pid, t.procs[pid])
    ensures TraceOk(actions + [x], pid, t.procs[pid])
  {
    var more, p := actions + [x], t.procs[pid];
    assert ProcOk(t, pid, p) && ProcOk(t, x.pid, t.procs[x.pid]);
    assert more[..|actions|] == actions;
    WindowStays(actions, x, pid, Sends(actions));
    if p.closed.Some? {
      WindowStays(actions, x, pid, p.closed.value.sentBefore);
    }
  }

  lemma {:induction false} RunKeepsTrace(s: Sys, actions: seq<Action>)
    requires Init(s) && Run(s, actions).Some?
    ensures var t := Run(s, actions).value;
      t.sent == Sends(actions) && forall pid :: pid in t.procs ==> TraceOk(actions, pid, t.procs[pid])
    decreases |actions|
  {
    if actions != [] {
      var before, x := actions[..|actions| - 1], actions[|actions| - 1];
      RunKeepsTrace(s, before);
      RunKeepsInv(s, before);
      var t := Run(s, before).value;
      assert before + [x] == actions;
      forall pid | pid in Step(t, x).value.procs ensures TraceOk(actions, pid, Step(t, x).value.procs[pid]) {
        if pid == x.pid {
          TraceOwnStep(before, t, x);
        } else {
          TraceOtherStep(before, t, x, pid);
        }
      }
    }
  }

  /** Over every run: what had been sent when a close succeeded was sent between its own reading of the metadata
      and its acquisition of the lock; so it is right about "before apply" exactly if nobody sent anything then. */
  lemma CloseCountsItsWindow(s: Sys, actions: seq<Action>, pid: nat) returns (r: nat, a: nat)
    requires Init(s) && Run(s, actions).Some?
    requires pid in Run(s, actions).value.procs && Run(s, actions).value.procs[pid].closed.Some?
    ensures r < a < |actions| && actions[r] == Read(pid) && actions[a] == Acquire(pid)
    ensures Run(s, actions).value.procs[pid].closed.value.sentBefore == Sends(actions[r..a])
    ensures Run(s, actions).value.procs[pid].closed.value.sentBefore == 0 <==> forall i :: r <= i < a ==> !actions[i].Send?
  {
    RunKeepsTrace(s, actions);
    var n := Run(s, actions).value.procs[pid].closed.value.sentBefore;
    assert TraceOk(actions, pid, Run(s, actions).value.procs[pid]);
    r, a := SendsInWindow(actions, pid, n);
  }

  lemma SendsInWindow(actions: seq<Action>, pid: nat, n: nat) returns (r: nat, a: nat)
    requires WindowHolds(actions, pid, n)
    ensures r < a < |actions| && actions[r] == Read(pid) && actions[a] == Acquire(pid)
    ensures n == Sends(actions[r..a]) && (n == 0 <==> forall i :: r <= i < a ==> !actions[i].Send?)
  {
    var r', a' :| Window(actions, pid, r', a') && Sends(actions[..a']) == n;
    r, a := r', a';
    assert actions[..a] == actions[..r] + actions[r..a];
    SendsConcat(actions[..r], actions[r..a]);
    var between := actions[r..a];
    NoSends(between);
    assert forall k :: 0 <= k < |between| ==> between[k] == actions[r + k];
    forall i | r <= i < a ensures actions[i] == between[i - r] {}
  }

  // ---------------------------------------- when a close is right about the future

  /** Workflow states that only the call that stored them leaves, and those without any way on: once that
      call is over, no command of the program leads to a configuration session any more. */
  const DeadEnds := {Planned, BeforeRunning, BeforeFailed, ApplyRunning, ApplyFailed, DeviceStateUnknown,
                     HealthFailed, SaveRunning, SaveFailed, RollbackRunning, RollbackFailed,
                     QualificationSaveRunning, QualificationSaveFailed, QualificationCompleted}

  predicate MovesOn(c: Change) {
    c.ToWorkflow? && c.workflow !in DeadEnds
  }

  predicate NoMoves(todo: seq<Change>) {
    forall c :: c in todo ==> !MovesOn(c)
  }

  /** Nothing is under way that could leave the dead ends. */
  ghost predicate Stuck(s: Sys) {
    && s.meta.workflow in DeadEnds
    && forall pid {:trigger StuckProc(s.procs[pid])} :: pid in s.procs ==> StuckProc(s.procs[pid])
  }

  ghost predicate StuckProc(p: Proc) {
    && !p.pc.Entered? && !p.pc.Sending?
    && (HoldsLock(p.pc) && p.kind != Closer ==> p.began in DeadEnds && !p.started)
    && (p.pc.Loaded? ==> !MovesOn(p.pc.change) && StuckNext(p.pc.next) && p.pc.metadata.workflow in DeadEnds)
    && (p.pc.Half? ==> !MovesOn(p.pc.change) && StuckNext(p.pc.next) && p.pc.metadata.workflow in DeadEnds)
    && (p.pc.Handling? ==> NoMoves(p.pc.todo))
  }

  ghost predicate StuckNext(n: Next) {
    !n.GoEntered? && (n.GoHandling? ==> NoMoves(n.todo))
  }

  lemma StuckIssues(p: Proc, m: Metadata, c: Change)
    requires m.workflow in DeadEnds && p.began in DeadEnds && Allowed(m, c) && Issues(p, m.workflow, c)
    ensures !MovesOn(c) && (p.kind.Mutator? && p.kind.entry in {ApplyRunning, RollbackRunning} ==> c != ToWorkflow(p.kind.entry))
  {}

  lemma StuckLoad(s: Sys, a: Action)
    requires Inv(s) && Stuck(s) && a.Load? && Step(s, a).Some?
    ensures StuckProc(Step(s, a).value.procs[a.pid])
  {
    var p := s.procs[a.pid];
    assert ProcOk(s, a.pid, p) && StuckProc(p);
    if p.pc.Inside? && p.kind != Closer && Allowed(s.meta, a.change) && Issues(p, s.meta.workflow, a.change) {
      StuckIssues(p, s.meta, a.change);
    }
  }

  lemma StuckOwnStep(s: Sys, a: Action)
    requires Inv(s) && Stuck(s) && !a.Load? && Step(s, a).Some?
    ensures var t := Step(s, a).value; StuckProc(t.procs[a.pid]) && t.meta.workflow in DeadEnds && t.sent == s.sent
  {
    assert ProcOk(s, a.pid, s.procs[a.pid]) && StuckProc(s.procs[a.pid]);
  }

  lemma StuckStep(s: Sys, a: Action)
    requires Inv(s) && Stuck(s) && Step(s, a).Some?
    ensures Stuck(Step(s, a).value) && Step(s, a).value.sent == s.sent
  {
    if a.Load? {
      StuckLoad(s, a);
    } else {
      StuckOwnStep(s, a);
    }
    var t := Step(s, a).value;
    forall q | q in t.procs ensures StuckProc(t.procs[q]) {
      if q != a.pid {
        assert StuckProc(s.procs[q]);
      }
    }
  }

  lemma RunSplit(s: Sys, a: seq<Action>, b: seq<Action>)
    requires Run(s, a).Some?
    ensures Run(s, a + b) == Run(Run(s, a).value, b)
    decreases |b|
  {
    if b == [] {
      assert a + b == a;
    } else {
      assert (a + b)[..|a + b| - 1] == a + b[..|b| - 1];
      RunSplit(s, a, b[..|b| - 1]);
    }
  }

  lemma {:induction false} StuckStays(s: Sys, actions: seq<Action>, more: seq<Action>)
    requires Init(s) && Run(s, actions).Some? && Stuck(Run(s, actions).value)
    requires Run(Run(s, actions).value, more).Some?
    ensures var u := Run(Run(s, actions).value, more).value; Stuck(u) && u.sent == Run(s, actions).value.sent
    decreases |more|
  {
    if more != [] {
      var before := more[..|more| - 1];
      StuckStays(s, actions, before);
      RunSplit(s, actions, before);
      RunKeepsInv(s, actions + before);
      StuckStep(Run(Run(s, actions).value, before).value, more[|more| - 1]);
    }
  }

  /** The close of this process has just succeeded; it still has the lock. */
  ghost predicate JustClosed(s: Sys, actions: seq<Action>, pid: nat) {
    && Run(s, actions).Some? && pid in Run(s, actions).value.procs
    && Run(s, actions).value.procs[pid].closed.Some? && Run(s, actions).value.procs[pid].pc == Leaving
  }

  /** A close that left the workflow in a dead end is final: whatever runs afterwards, nothing more is sent. */
  lemma DeadEndIsFinal(s: Sys, actions: seq<Action>, pid: nat, more: seq<Action>)
    requires Init(s) && JustClosed(s, actions, pid)
    requires Run(s, actions).value.procs[pid].closed.value.loaded.workflow in DeadEnds
    requires Run(Run(s, actions).value, more).Some?
    ensures Run(Run(s, actions).value, more).value.sent == Run(s, actions).value.sent
  {
    RunKeepsInv(s, actions);
    var t := Run(s, actions).value;
    assert ProcOk(t, pid, t.procs[pid]);
    forall q | q in t.procs ensures StuckProc(t.procs[q]) {
      assert ProcOk(t, q, t.procs[q]);
    }
    StuckStays(s, actions, more);
  }

  lemma Moves(reach: Sys -> bool, s: Sys, pid: nat, w: Workflow) returns (t: Sys)
    requires Onward(reach) && reach(s) && s.lock == Some(pid) && pid in s.procs && s.procs[pid].pc == Inside
    requires s.procs[pid].kind == Worker && w in WorkflowNext(s.meta.workflow)
    requires Issues(s.procs[pid], s.meta.workflow, ToWorkflow(w))
    ensures reach(t) && OnlyChanges(s, t, pid) && t.meta.workflow == w && t.sent == s.sent && t.lock == Some(pid)
    ensures t.procs[pid].kind == Worker && t.procs[pid].pc == Inside && t.procs[pid].began == s.procs[pid].began
  {
    t := Stores(reach, s, pid, ToWorkflow(w), GoInside);
  }

  /** Planning, from nothing or from a completed before phase. */
  lemma Plans(reach: Sys -> bool, s: Sys, pid: nat) returns (t: Sys)
    requires Onward(reach) && reach(s) && s.lock == None && Idle(s, pid, Worker) && s.meta.workflow in {NoWorkflow, BeforeCompleted}
    ensures reach(t) && OnlyChanges(s, t, pid) && t.sent == s.sent && t.lock == None && t.meta.workflow == PlanReady
  {
    t := TakesLock(reach, s, pid);
    if s.meta.workflow == NoWorkflow {
      t := Moves(reach, t, pid, Planned);
      t := Moves(reach, t, pid, BeforeRunning);
      t := Moves(reach, t, pid, BeforeCompleted);
    }
    t := Moves(reach, t, pid, PlanReady);
    t := Leaves(reach, t, pid);
  }

  lemma Approves(reach: Sys -> bool, s: Sys, pid: nat) returns (t: Sys)
    requires Onward(reach) && reach(s) && s.lock == None && Idle(s, pid, Worker) && s.meta.workflow == PlanReady
    ensures reach(t) && OnlyChanges(s, t, pid) && t.sent == s.sent && t.lock == None && t.meta.workflow == Approved
  {
    t := TakesLock(reach, s, pid);
    t := Moves(reach, t, pid, Approved);
    t := Leaves(reach, t, pid);
  }

  /** Evaluation of an apply, to the good end. */
  lemma EvaluatesWell(reach: Sys -> bool, s: Sys, pid: nat) returns (t: Sys)
    requires Onward(reach) && reach(s) && s.lock == None && Idle(s, pid, Worker) && s.meta.workflow in {ApplyCompleted, AfterRunning}
    ensures reach(t) && OnlyChanges(s, t, pid) && t.sent == s.sent && t.lock == None && t.meta.workflow == AfterCompleted
  {
    t := TakesLock(reach, s, pid);
    if s.meta.workflow == ApplyCompleted {
      t := Moves(reach, t, pid, AfterRunning);
    }
    t := Moves(reach, t, pid, AfterCompleted);
    t := Leaves(reach, t, pid);
  }

  lemma VerifiesRollback(reach: Sys -> bool, s: Sys, pid: nat) returns (t: Sys)
    requires Onward(reach) && reach(s) && s.lock == None && Idle(s, pid, Worker) && s.meta.workflow in {RolledBack, RollbackHealthFailed}
    ensures reach(t) && OnlyChanges(s, t, pid) && t.sent == s.sent && t.lock == None
    ensures t.meta.workflow == RolledBackAndVerified
  {
    t := TakesLock(reach, s, pid);
    t := Moves(reach, t, pid, RolledBackAndVerified);
    t := Leaves(reach, t, pid);
  }

  lemma SavesRollback(reach: Sys -> bool, s: Sys, pid: nat) returns (t: Sys)
    requires Onward(reach) && reach(s) && s.lock == None && Idle(s, pid, Worker) && s.meta.workflow == RolledBackAndVerified
    ensures reach(t) && OnlyChanges(s, t, pid) && t.sent == s.sent && t.lock == None && t.meta.workflow == WorkflowCompleted
  {
    t := TakesLock(reach, s, pid);
    t := Moves(reach, t, pid, SaveRunning);
    t := Moves(reach, t, pid, WorkflowCompleted);
    t := Leaves(reach, t, pid);
  }

  /** A rollback asks for itself where nobody has yet. */
  lemma RequiresRollback(reach: Sys -> bool, s: Sys, pid: nat) returns (t: Sys)
    requires Onward(reach) && reach(s) && pid in s.procs && s.procs[pid].pc == Inside && RollsBack(s.procs[pid])
    requires s.meta.workflow == s.procs[pid].began
    ensures reach(t) && OnlyChanges(s, t, pid) && t.sent == s.sent && t.lock == s.lock
    ensures t.meta.workflow == RollbackRequired && t.procs[pid].pc == Inside && RollsBack(t.procs[pid])
  {
    t := s;
    if s.meta.workflow != RollbackRequired {
      t := Stores(reach, s, pid, ToWorkflow(RollbackRequired), GoInside);
    }
  }

  /** A rollback sends, from each of the states it may begin in. */
  lemma RollbackSends(reach: Sys -> bool, s: Sys, pid: nat) returns (t: Sys)
    requires Onward(reach) && reach(s) && s.lock == None && Idle(s, pid, Mutator(RollbackRunning))
    requires s.meta.workflow in {AfterCompleted, WorkflowCompleted, RollbackRequired}
    ensures reach(t) && t.sent > s.sent
  {
    t := TakesLock(reach, s, pid);
    t := RequiresRollback(reach, t, pid);
    t := SessionSends(reach, t, pid, RollbackRunning);
  }

  /** Two commands that send nothing (planning and approval, verification and save), an apply and a rollback. */
  ghost predicate Staffed(s: Sys, first: nat, second: nat, apply: nat, rollback: nat) {
    && first != second && Idle(s, first, Worker) && Idle(s, second, Worker)
    && Idle(s, apply, Mutator(ApplyRunning)) && Idle(s, rollback, Mutator(RollbackRunning))
  }

  lemma AppliesYet(reach: Sys -> bool, s: Sys, first: nat, second: nat, apply: nat) returns (t: Sys)
    requires Onward(reach) && reach(s) && s.lock == None && first != second && Idle(s, first, Worker) && Idle(s, second, Worker)
    requires Idle(s, apply, Mutator(ApplyRunning)) && s.meta.workflow in PreApply && s.meta.workflow !in DeadEnds
    ensures reach(t) && t.sent > s.sent
  {
    t := s;
    if t.meta.workflow in {NoWorkflow, BeforeCompleted} {
      t := Plans(reach, t, first);
    }
    if t.meta.workflow == PlanReady {
      t := Approves(reach, t, second);
    }
    t := EntersAndSends(reach, t, apply, ApplyRunning);
  }

  lemma RollsBackYet(reach: Sys -> bool, s: Sys, first: nat, second: nat, rollback: nat) returns (t: Sys)
    requires Onward(reach) && reach(s) && s.lock == None && first != second && Idle(s, first, Worker) && Idle(s, second, Worker)
    requires Idle(s, rollback, Mutator(RollbackRunning)) && s.meta.workflow !in PreApply && s.meta.workflow !in DeadEnds
    ensures reach(t) && t.sent > s.sent
  {
    t := s;
    if t.meta.workflow in {ApplyCompleted, AfterRunning} {
      t := EvaluatesWell(reach, t, first);
    } else if t.meta.workflow in {RolledBack, RollbackHealthFailed} {
      t := VerifiesRollback(reach, t, first);
    }
    if t.meta.workflow == RolledBackAndVerified {
      t := SavesRollback(reach, t, second);
    }
    t := RollbackSends(reach, t, rollback);
  }

  lemma GoesOn(reach: Sys -> bool, s: Sys, first: nat, second: nat, apply: nat, rollback: nat) returns (t: Sys)
    requires Onward(reach) && reach(s) && s.lock == None && Staffed(s, first, second, apply, rollback)
    requires s.meta.workflow !in DeadEnds
    ensures reach(t) && t.sent > s.sent
  {
    if s.meta.workflow in PreApply {
      t := AppliesYet(reach, s, first, second, apply);
    } else {
      t := RollsBackYet(reach, s, first, second, rollback);
    }
  }

  /** Over every run: after a successful close something can still be sent exactly if the workflow
      state that it left behind is not a dead end; the lifecycle it stored stops nobody. */
  lemma ClosedButNotFinal(s: Sys, actions: seq<Action>, pid: nat, first: nat, second: nat, apply: nat, rollback: nat)
    requires Init(s) && JustClosed(s, actions, pid) && Staffed(Run(s, actions).value, first, second, apply, rollback)
    ensures var t := Run(s, actions).value;
      (exists u :: Reaches(t, u) && u.sent > t.sent) <==> t.procs[pid].closed.value.loaded.workflow !in DeadEnds
  {
    RunKeepsInv(s, actions);
    var t := Run(s, actions).value;
    assert ProcOk(t, pid, t.procs[pid]);
    if t.procs[pid].closed.value.loaded.workflow in DeadEnds {
      forall u | Reaches(t, u) ensures u.sent == t.sent {
        var more :| Run(t, more) == Some(u);
        DeadEndIsFinal(s, actions, pid, more);
      }
    } else {
      ReachedOnward(t);
      var u := Then(ReachedFrom(t), t, Release(pid));
      u := GoesOn(ReachedFrom(t), u, first, second, apply, rollback);
    }
  }
}
