// alred/managed_config.py and the drivers of managed_operation.py: sending
// configuration to one device, to the devices one after the other, and the
// workflow state an approved apply ends in. Devices are arbitrary; what
// reaches them is recorded as a trace.
module ManagedConfig {
  import opened OperationRun

  datatype Status = Success | Warn | IgnoredError | Failed_ | Unknown_ | NotStarted | NoChange

  predicate IsFailure(s: Status) {
    s == Failed_ || s == Unknown_
  }

  /** What `send_config_set` does: a response, or an exception. */
  datatype Reply = Response(text: string) | Exception(message: string)

  datatype CommandRecord = CommandRecord(index: nat, command: string, status: Status, response: string, error: Option<string>,
                                         allowRule: Option<string>)

  datatype Session = Session(status: Status, records: seq<CommandRecord>, firstFailure: Option<nat>)

  /** Keyword arguments of `execute_config_session`, with the regular expressions as functions. */
  datatype Options = Options(
    cliError: string -> Option<string>,
    allowRule: (string, string) -> Option<string>,
    detectCliErrors: bool,
    raiseTransportErrors: bool,
    ignoreAllCliErrors: bool)

  datatype Event =
    | Connected(host: string) | ConnectFailed(host: string) | Prechecked(host: string) | Announced(host: string)
    | Sent(host: string, command: string) | LeftConfigMode(host: string) | Disconnected(host: string)
    | Moved(workflow: Workflow)

  // ---------------------------------------------------------- one command, by its reply

  function Classify(o: Options, command: string, reply: Reply): Status {
    match reply
    case Exception(_) => Unknown_
    case Response(text) =>
      if !o.detectCliErrors || o.cliError(text).None? then Success
      else if o.allowRule(command, text).Some? then Warn
      else if o.ignoreAllCliErrors then IgnoredError
      else Failed_
  }

  /** A record tells the truth about a command and its reply. */
  ghost predicate Records(o: Options, r: CommandRecord, index: nat, command: string, reply: Reply) {
    && r.index == index && r.command == command && r.status == Classify(o, command, reply)
    && r.response == (if reply.Response? then reply.text else "")
    && r.error == (if reply.Exception? then Some(reply.message) else if Rejected(o, reply) then o.cliError(reply.text) else None)
    && r.allowRule == (if Rejected(o, reply) then o.allowRule(command, reply.text) else None)
  }

  /** The device answered with a CLI error. */
  predicate Rejected(o: Options, reply: Reply) {
    reply.Response? && o.detectCliErrors && o.cliError(reply.text).Some?
  }

  /** An exception, or a CLI error that neither a rule nor the option to ignore them all excuses. */
  predicate Stops(o: Options, command: string, reply: Reply) {
    || reply.Exception?
    || (Rejected(o, reply) && o.allowRule(command, reply.text).None? && !o.ignoreAllCliErrors)
  }

  /** None of the first `n` replies from moment `base` on stops a session. */
  ghost predicate RunsOn(o: Options, reply: nat -> Reply, base: nat, commands: seq<string>, n: int) {
    n <= |commands| && forall i :: 0 <= i < n ==> !Stops(o, commands[i], reply(base + i))
  }

  /** What a session amounts to, by the replies to the commands it sent. */
  ghost predicate Verdict(o: Options, commands: seq<string>, replies: seq<Reply>, s: Session) {
    var n := |replies|;
    && n <= |commands|
    && (forall i :: 0 <= i < n - 1 ==> !Stops(o, commands[i], replies[i]))
    && s.firstFailure == (if n > 0 && Stops(o, commands[n - 1], replies[n - 1]) then Some(n) else None)
    && (s.firstFailure == None ==> n == |commands|)
    && (s.status == Unknown_ <==> n > 0 && replies[n - 1].Exception?)
    && (s.status == Failed_ <==> n > 0 && replies[n - 1].Response? && Stops(o, commands[n - 1], replies[n - 1]))
    && (s.status == Success <==> forall i :: 0 <= i < n ==> replies[i].Response? && !Rejected(o, replies[i]))
    && (s.status == IgnoredError <==>
          && s.firstFailure == None
          && exists i :: 0 <= i < n && Rejected(o, replies[i]) && o.allowRule(commands[i], replies[i].text).None?)
    && (s.status == Warn <==>
          && s.firstFailure == None
          && (exists i :: 0 <= i < n && Rejected(o, replies[i]))
          && forall i :: 0 <= i < n && Rejected(o, replies[i]) ==> o.allowRule(commands[i], replies[i].text).Some?)
  }

  function Severity(s: Status): nat {
    match s
    case Warn => 1
    case IgnoredError => 2
    case Failed_ => 3
    case Unknown_ => 3
    case _ => 0
  }

  /** The status of a session after commands of these statuses. */
  function Join(statuses: seq<CommandRecord>): Status {
    if statuses == [] then Success
    else
      var before, last := Join(statuses[..|statuses| - 1]), statuses[|statuses| - 1].status;
      if Severity(last) > Severity(before) then last else before
  }

  function SentEvents(host: string, commands: seq<string>): seq<Event> {
    seq(|commands|, i requires 0 <= i < |commands| => Sent(host, commands[i]))
  }

  /** A finished session in which the first `n` commands were sent. */
  ghost predicate SessionShape(o: Options, commands: seq<string>, replies: seq<Reply>, s: Session) {
    var n := |replies|;
    && n <= |commands| == |s.records|
    && (forall i :: 0 <= i < n ==> Records(o, s.records[i], i + 1, commands[i], replies[i]))
    && (forall i :: 0 <= i < n - 1 ==> !IsFailure(s.records[i].status))
    && (forall i :: n <= i < |commands| ==>
         s.records[i].index == i + 1 && s.records[i].command == commands[i] && s.records[i].status == NotStarted)
    && (n < |commands| ==> n > 0 && IsFailure(s.records[n - 1].status))
    && s.status == Join(s.records[..n])
    && (s.firstFailure.Some? <==> IsFailure(s.status))
    && (s.firstFailure.Some? ==> s.firstFailure.value == n > 0 && IsFailure(s.records[n - 1].status))
  }

  // ------------------------------------------------------------------ the trace

  /** The connection that is open, whether commands were announced on it, and whether the workflow is in the entry state. */
  datatype Phase = Idle(running: bool) | Opened(host: string, running: bool) | Ready(host: string) | Broken

  /**
   * The order a run keeps: one connection at a time, each left by exactly one disconnect;
   * commands only on a connection on which they were announced, and announced only after
   * the workflow moved to `entry`.
   */
  function Step(entry: Workflow, p: Phase, e: Event): Phase {
    match e
    case Connected(h) => if p.Idle? then Opened(h, p.running) else Broken
    case ConnectFailed(_) => if p.Idle? then p else Broken
    case Prechecked(h) => if p.Opened? && p.host == h then p else Broken
    case Moved(w) =>
      if p.Idle? then Idle(w == entry) else if p.Opened? && w == entry && !p.running then p.(running := true) else Broken
    case Announced(h) => if p.Opened? && p.host == h && p.running then Ready(h) else Broken
    case Sent(h, _) => if p.Ready? && p.host == h then p else Broken
    case LeftConfigMode(h) => if p.Ready? && p.host == h then p else Broken
    case Disconnected(h) =>
      if p.Opened? && p.host == h then Idle(p.running) else if p.Ready? && p.host == h then Idle(true) else Broken
  }

  function PhaseAfter(entry: Workflow, events: seq<Event>): Phase {
    if events == [] then Idle(false)
    else Step(entry, PhaseAfter(entry, events[..|events| - 1]), events[|events| - 1])
  }

  /** Commands that reached one device. */
  function SentTo(events: seq<Event>, host: string): seq<string> {
    if events == [] then []
    else
      var last := events[|events| - 1];
      SentTo(events[..|events| - 1], host) + if last.Sent? && last.host == host then [last.command] else []
  }

  lemma {:induction false} PhaseAfterSent(entry: Workflow, events: seq<Event>, host: string, commands: seq<string>)
    requires PhaseAfter(entry, events) == Ready(host)
    ensures PhaseAfter(entry, events + SentEvents(host, commands)) == Ready(host)
    decreases |commands|
  {
    var e := events + SentEvents(host, commands);
    if commands == [] {
      assert e == events;
    } else {
      PhaseAfterSent(entry, events, host, commands[..|commands| - 1]);
      assert e[..|e| - 1] == events + SentEvents(host, commands[..|commands| - 1]);
    }
  }

  lemma {:induction false} SentToSent(events: seq<Event>, host: string, commands: seq<string>, other: string)
    ensures SentTo(events + SentEvents(host, commands), other) ==
            SentTo(events, other) + if other == host then commands else []
    decreases |commands|
  {
    var e := events + SentEvents(host, commands);
    if commands == [] {
      assert e == events;
    } else {
      var n := |commands| - 1;
      SentToSent(events, host, commands[..n], other);
      assert e[..|e| - 1] == events + SentEvents(host, commands[..n]);
      assert e[|e| - 1] == Sent(host, commands[n]);
      if other == host {
        assert commands[..n] + [commands[n]] == commands;
      }
    }
  }

  /** Between two moments, exactly `commands` reached `host`. */
  ghost predicate Received(before: seq<Event>, after: seq<Event>, host: string, commands: seq<string>) {
    SentTo(after, host) == SentTo(before, host) + commands
  }

  /** Between two moments, nothing reached any device. */
  ghost predicate Quiet(before: seq<Event>, after: seq<Event>) {
    && before <= after
    && forall h :: Received(before, after, h, [])
  }

  /** Between two moments, exactly `commands` reached `host`, and nothing reached another device. */
  ghost predicate SentOnly(before: seq<Event>, after: seq<Event>, host: string, commands: seq<string>) {
    && before <= after
    && Received(before, after, host, commands)
    && forall h :: h != host ==> Received(before, after, h, [])
  }

  /** Appending one event: what it does to the phase and to the commands sent. */
  lemma Appended(entry: Workflow, events: seq<Event>, e: Event)
    ensures PhaseAfter(entry, events + [e]) == Step(entry, PhaseAfter(entry, events), e)
    ensures !e.Sent? ==> Quiet(events, events + [e])
  {
    assert (events + [e])[..|events|] == events;
  }

  lemma QuietThenQuiet(a: seq<Event>, b: seq<Event>, c: seq<Event>)
    requires Quiet(a, b) && Quiet(b, c)
    ensures Quiet(a, c)
  {
    forall h ensures Received(a, c, h, []) {
      assert Received(a, b, h, []) && Received(b, c, h, []);
    }
  }

  lemma QuietThenSent(a: seq<Event>, b: seq<Event>, c: seq<Event>, host: string, commands: seq<string>)
    requires Quiet(a, b) && SentOnly(b, c, host, commands)
    ensures SentOnly(a, c, host, commands)
  {
    assert Received(a, b, host, []);
    forall h | h != host ensures Received(a, c, h, []) {
      assert Received(a, b, h, []) && Received(b, c, h, []);
    }
  }

  lemma SentThenQuiet(a: seq<Event>, b: seq<Event>, c: seq<Event>, host: string, commands: seq<string>)
    requires SentOnly(a, b, host, commands) && Quiet(b, c)
    ensures SentOnly(a, c, host, commands)
  {
    assert Received(b, c, host, []);
    forall h | h != host ensures Received(a, c, h, []) {
      assert Received(a, b, h, []) && Received(b, c, h, []);
    }
  }

  /** What the order means for the connections: every one that was opened is disconnected exactly once, except one still open. */
  function Opens(events: seq<Event>, host: string): nat {
    if events == [] then 0 else
      Opens(events[..|events| - 1], host) + if events[|events| - 1] == Connected(host) then 1 else 0
  }

  function Closes(events: seq<Event>, host: string): nat {
    if events == [] then 0 else
      Closes(events[..|events| - 1], host) + if events[|events| - 1] == Disconnected(host) then 1 else 0
  }

  lemma {:induction false} DisconnectedOnce(entry: Workflow, events: seq<Event>, host: string)
    requires PhaseAfter(entry, events) != Broken
    ensures var p := PhaseAfter(entry, events);
            Opens(events, host) == Closes(events, host) + if (p.Opened? || p.Ready?) && p.host == host then 1 else 0
  {
    if events != [] {
      DisconnectedOnce(entry, events[..|events| - 1], host);
    }
  }

  predicate InEntryState(p: Phase) {
    p.Ready? || (p.Idle? && p.running) || (p.Opened? && p.running)
  }

  lemma {:induction false} EntryWasReached(entry: Workflow, events: seq<Event>)
    requires InEntryState(PhaseAfter(entry, events))
    ensures Moved(entry) in events
  {
    var n := |events| - 1;
    if events[n] != Moved(entry) {
      EntryWasReached(entry, events[..n]);
    }
  }

  /** What the order means for the commands: none is sent before the workflow moved to the entry state. */
  lemma {:induction false} CommandsFollowEntry(entry: Workflow, events: seq<Event>, i: nat)
    requires PhaseAfter(entry, events) != Broken && i < |events| && events[i].Sent?
    ensures Moved(entry) in events[..i]
  {
    var n := |events| - 1;
    if i == n {
      EntryWasReached(entry, events[..n]);
    } else {
      CommandsFollowEntry(entry, events[..n], i);
      assert events[..n][..i] == events[..i];
    }
  }

  // ------------------------------------------------------- the result for one device

  datatype DeviceResult = DeviceResult(status: Status, records: seq<CommandRecord>)

  /** The defaults under which `execute_serial_devices` opens its sessions. */
  function SerialOptions(cliError: string -> Option<string>): Options {
    Options(cliError, (_, _) => None, true, false, false)
  }

  /** The replies the device gave from moment `base` on. */
  function RepliesFrom(reply: nat -> Reply, base: nat, n: nat): seq<Reply> {
    seq(n, i requires 0 <= i < n => reply(base + i))
  }

  /** A finished session and what its replies make of it. */
  ghost predicate SessionTold(o: Options, reply: nat -> Reply, base: nat, commands: seq<string>, n: nat, s: Session) {
    && SessionShape(o, commands, RepliesFrom(reply, base, n), s)
    && Verdict(o, commands, RepliesFrom(reply, base, n), s)
  }

  /** The result of a device that ran a session, in which its first `n` commands were sent from moment `base` on. */
  ghost predicate RanAt(b: Bench, events: seq<Event>, base: nat, host: string, commands: seq<string>, n: nat, d: DeviceResult) {
    && n <= |commands| && base + n <= |events|
    && events[base..base + n] == SentEvents(host, commands[..n])
    && exists failure :: SessionShape(SerialOptions(b.cliError), commands, RepliesFrom(b.reply, base, n),
                                      Session(d.status, d.records, failure))
  }

  ghost predicate Ran(b: Bench, events: seq<Event>, host: string, commands: seq<string>, n: nat, d: DeviceResult) {
    exists base :: RanAt(b, events, base, host, commands, n, d)
  }

  // ------------------------------------------- how a run went, by what the devices did

  /** What the device did at this moment of a serial run was in order. */
  ghost predicate FineAt(b: Bench, events: seq<Event>, i: nat)
    requires i < |events|
  {
    match events[i]
    case ConnectFailed(_) => false
    case Connected(_) => b.connects(i)
    case Prechecked(_) => b.precheck(i) == Passed
    case Sent(_, _) => b.reply(i).Response? && b.cliError(b.reply(i).text).None?
    case _ => true
  }

  /** What the device did at this moment leaves its state unknown. */
  ghost predicate UnsureAt(b: Bench, events: seq<Event>, i: nat)
    requires i < |events|
  {
    match events[i]
    case Prechecked(_) => b.precheck(i) == PrecheckException || b.precheck(i) == Refused(Unknown_)
    case Sent(_, _) => b.reply(i).Exception?
    case _ => false
  }

  ghost predicate FineFrom(b: Bench, events: seq<Event>, from: nat) {
    forall i {:trigger FineAt(b, events, i)} :: from <= i < |events| ==> FineAt(b, events, i)
  }

  ghost predicate UnsureFrom(b: Bench, events: seq<Event>, from: nat) {
    exists i {:trigger UnsureAt(b, events, i)} :: from <= i < |events| && UnsureAt(b, events, i)
  }

  /** The status that a stretch of the run calls for. */
  ghost predicate Deserved(b: Bench, events: seq<Event>, from: nat, s: Status) {
    && (s == Success <==> FineFrom(b, events, from))
    && (s == Unknown_ <==> UnsureFrom(b, events, from))
    && s in {Success, Failed_, Unknown_}
  }

  lemma FineThenFine(b: Bench, before: seq<Event>, after: seq<Event>, from: nat)
    requires before <= after && from <= |before|
    ensures FineFrom(b, after, from) <==> FineFrom(b, before, from) && FineFrom(b, after, |before|)
    ensures UnsureFrom(b, after, from) <==> UnsureFrom(b, before, from) || UnsureFrom(b, after, |before|)
  {
    forall i | 0 <= i < |before|
      ensures FineAt(b, after, i) == FineAt(b, before, i) && UnsureAt(b, after, i) == UnsureAt(b, before, i)
    {
      assert after[i] == before[i];
    }
  }

  /** Two stretches, at most one of which was not in order. */
  lemma DeservedBoth(b: Bench, before: seq<Event>, after: seq<Event>, from: nat, first: Status, second: Status)
    requires before <= after && from <= |before|
    requires Deserved(b, before, from, first) && Deserved(b, after, |before|, second) && (first == Success || second == Success)
    ensures Deserved(b, after, from, if first == Success then second else first)
  {
    FineThenFine(b, before, after, from);
  }

  lemma NothingDeserved(b: Bench, events: seq<Event>)
    ensures Deserved(b, events, |events|, Success)
  {}

  lemma OneMoment(b: Bench, events: seq<Event>, e: Event)
    ensures FineFrom(b, events + [e], |events|) <==> FineAt(b, events + [e], |events|)
    ensures UnsureFrom(b, events + [e], |events|) <==> UnsureAt(b, events + [e], |events|)
  {}

  /** Events that tell nothing about a device. */
  lemma PlainEvent(b: Bench, events: seq<Event>, e: Event)
    requires e.Moved? || e.Announced? || e.Disconnected? || e.LeftConfigMode?
    ensures Deserved(b, events + [e], |events|, Success)
  {}

  /** The moments of a session, by its replies. */
  lemma SessionMoments(b: Bench, events: seq<Event>, host: string, commands: seq<string>, n: nat)
    requires n <= |commands|
    ensures var (after, replies) := (events + SentEvents(host, commands[..n]) + [LeftConfigMode(host)], RepliesFrom(b.reply, |events|, n));
      && (FineFrom(b, after, |events|) <==>
            forall i :: 0 <= i < n ==> replies[i].Response? && !Rejected(SerialOptions(b.cliError), replies[i]))
      && (UnsureFrom(b, after, |events|) <==> exists i :: 0 <= i < n && replies[i].Exception?)
  {
    var after, replies := events + SentEvents(host, commands[..n]) + [LeftConfigMode(host)], RepliesFrom(b.reply, |events|, n);
    var base := |events|;
    forall k: nat | base <= k < base + n
      ensures FineAt(b, after, k) <==> replies[k - base].Response? && !Rejected(SerialOptions(b.cliError), replies[k - base])
      ensures UnsureAt(b, after, k) <==> replies[k - base].Exception?
    {
      assert after[k] == Sent(host, commands[k - base]) && replies[k - base] == b.reply(k);
    }
    assert after[base + n] == LeftConfigMode(host);
    if FineFrom(b, after, base) {
      forall i | 0 <= i < n ensures replies[i].Response? && !Rejected(SerialOptions(b.cliError), replies[i]) {
        assert FineAt(b, after, base + i);
      }
    }
    if i :| 0 <= i < n && replies[i].Exception? {
      assert UnsureAt(b, after, base + i);
    }
  }

  lemma SessionDeserved(b: Bench, events: seq<Event>, host: string, commands: seq<string>, n: nat, s: Session)
    requires n <= |commands| && SessionTold(SerialOptions(b.cliError), b.reply, |events|, commands, n, s)
    ensures Deserved(b, events + SentEvents(host, commands[..n]) + [LeftConfigMode(host)], |events|, s.status)
  {
    SessionMoments(b, events, host, commands, n);
    SerialVerdict(b, commands, RepliesFrom(b.reply, |events|, n), s);
  }

  /** The first failure of a session, under any options: the first reply that is an exception, or an error that is looked
      for and that neither an allow rule nor the option to ignore all errors excuses. */
  lemma FailsFirst(o: Options, commands: seq<string>, replies: seq<Reply>, s: Session, k: nat)
    requires SessionShape(o, commands, replies, s)
    ensures s.firstFailure == Some(k) <==> (
      && 0 < k <= |replies| <= |commands|
      && (match replies[k - 1]
          case Exception(_) => true
          case Response(text) =>
            o.detectCliErrors && o.cliError(text).Some? && o.allowRule(commands[k - 1], text).None? && !o.ignoreAllCliErrors)
      && (forall i :: 0 <= i < k - 1 ==> replies[i].Response?)
      && (forall i :: 0 <= i < k - 1 && o.detectCliErrors && o.cliError(replies[i].text).Some? ==>
            o.ignoreAllCliErrors || o.allowRule(commands[i], replies[i].text).Some?))
    ensures s.firstFailure.None? ==> |replies| == |commands|
  {
    SessionTells(o, commands, replies, s);
    forall i | 0 <= i < |replies|
      ensures Stops(o, commands[i], replies[i]) <==> (
        || replies[i].Exception?
        || (o.detectCliErrors && o.cliError(replies[i].text).Some?
            && o.allowRule(commands[i], replies[i].text).None? && !o.ignoreAllCliErrors))
    {}
  }

  /** Under the serial defaults only an exception or a CLI error ends a session, and at once. */
  lemma SerialVerdict(b: Bench, commands: seq<string>, replies: seq<Reply>, s: Session)
    requires SessionShape(SerialOptions(b.cliError), commands, replies, s) && Verdict(SerialOptions(b.cliError), commands, replies, s)
    ensures s.status in {Success, Failed_, Unknown_}
    ensures forall i :: 0 <= i < |replies| - 1 ==> replies[i].Response? && b.cliError(replies[i].text).None?
    ensures s.status == Success <==>
      |replies| == |commands| && forall i :: 0 <= i < |replies| ==> replies[i].Response? && b.cliError(replies[i].text).None?
    ensures s.status == Unknown_ <==> |replies| > 0 && replies[|replies| - 1].Exception?
    ensures s.status == Failed_ <==>
      |replies| > 0 && replies[|replies| - 1].Response? && b.cliError(replies[|replies| - 1].text).Some?
  {
    SerialStatus(SerialOptions(b.cliError), commands, replies, s);
    forall i | 0 <= i < |replies| - 1 ensures replies[i].Response? && b.cliError(replies[i].text).None? {
      assert !Stops(SerialOptions(b.cliError), commands[i], replies[i]);
    }
  }

  lemma RanStays(b: Bench, before: seq<Event>, after: seq<Event>, host: string, commands: seq<string>, n: nat, d: DeviceResult)
    requires Ran(b, before, host, commands, n, d) && before <= after
    ensures Ran(b, after, host, commands, n, d)
  {
    var base: nat :| RanAt(b, before, base, host, commands, n, d);
    assert after[base..base + n] == before[base..base + n];
    assert RanAt(b, after, base, host, commands, n, d);
  }

  /** The statuses of one command, by its reply. */
  lemma StatusOfReply(o: Options, command: string, reply: Reply)
    ensures var s := Classify(o, command, reply);
      && (IsFailure(s) <==> Stops(o, command, reply))
      && (s == Unknown_ <==> reply.Exception?)
      && (s == Success <==> reply.Response? && !Rejected(o, reply))
      && (s == Warn <==> Rejected(o, reply) && o.allowRule(command, reply.text).Some?)
      && s != NotStarted && s != NoChange
  {}

  /** A finished session is what its replies make of it. */
  lemma SessionTells(o: Options, commands: seq<string>, replies: seq<Reply>, s: Session)
    requires SessionShape(o, commands, replies, s)
    ensures Verdict(o, commands, replies, s)
  {
    var n, sent := |replies|, s.records[..|replies|];
    JoinSeverity(sent);
    forall i | 0 <= i < n
      ensures sent[i].status == Classify(o, commands[i], replies[i])
      ensures IsFailure(sent[i].status) <==> Stops(o, commands[i], replies[i])
      ensures sent[i].status == Unknown_ <==> replies[i].Exception?
      ensures sent[i].status == Success <==> replies[i].Response? && !Rejected(o, replies[i])
      ensures sent[i].status == Warn <==> Rejected(o, replies[i]) && o.allowRule(commands[i], replies[i].text).Some?
      ensures sent[i].status != NotStarted && sent[i].status != NoChange
    {
      StatusOfReply(o, commands[i], replies[i]);
    }
  }

  /** In a serial session every command succeeded, or the last one sent failed. */
  lemma SerialStatus(o: Options, commands: seq<string>, replies: seq<Reply>, s: Session)
    requires SessionShape(o, commands, replies, s)
    requires o == SerialOptions(o.cliError)
    ensures s.status == Success || IsFailure(s.status)
    ensures s.status == Success ==> |replies| == |commands|
  {
    JoinSeverity(s.records[..|replies|]);
  }

  // ------------------------------------------------------------------ the bench

  datatype Precheck = Passed | Refused(status: Status) | PrecheckException

  datatype SessionOutcome = SessionReturned(session: Session) | SessionRaised

  /** Writing a transition: done, or an exception with or without the new metadata.yaml in place. */
  datatype Store = Stored | StoreFailed(written: bool)

  datatype SerialResult = SerialResult(status: Status, devices: map<string, DeviceResult>, failure: Option<string>)

  /** The state of a serial run before the device at `next`: all earlier devices are done, no later one is begun. */
  ghost predicate DoneUpTo(b: Bench, before: seq<Event>, after: seq<Event>, order: seq<string>,
                           commands: map<string, seq<string>>, next: nat, devices: map<string, DeviceResult>)
  {
    && next <= |order| && before <= after
    && Covers(devices, order)
    && (forall i {:trigger CompletedAt(b, before, after, order, commands, devices, i)} ::
         0 <= i < next ==> CompletedAt(b, before, after, order, commands, devices, i))
    && (forall i {:trigger NotBegunAt(before, after, order, devices, i)} ::
         next <= i < |order| ==> NotBegunAt(before, after, order, devices, i))
    && Untouched(before, after, order)
  }

  /** Exactly the devices of the order have a result. */
  ghost predicate Covers(devices: map<string, DeviceResult>, order: seq<string>) {
    forall h :: h in devices <==> h in order
  }

  /** No other device received anything. */
  ghost predicate Untouched(before: seq<Event>, after: seq<Event>, order: seq<string>) {
    forall h {:trigger Received(before, after, h, [])} :: h !in order ==> Received(before, after, h, [])
  }

  ghost predicate CompletedAt(b: Bench, before: seq<Event>, after: seq<Event>, order: seq<string>,
                              commands: map<string, seq<string>>, devices: map<string, DeviceResult>, i: int)
  {
    && 0 <= i < |order| && order[i] in devices
    && Completed(b, before, after, order[i], CommandsFor(commands, order[i]), devices[order[i]])
  }

  ghost predicate NotBegunAt(before: seq<Event>, after: seq<Event>, order: seq<string>, devices: map<string, DeviceResult>, i: int)
  {
    && 0 <= i < |order| && order[i] in devices
    && devices[order[i]] == DeviceResult(NotStarted, []) && Received(before, after, order[i], [])
  }

  ghost predicate Completed(b: Bench, before: seq<Event>, after: seq<Event>, host: string, commands: seq<string>, d: DeviceResult) {
    && Received(before, after, host, commands)
    && if commands == [] then d == DeviceResult(NoChange, [])
       else d.status == Success && Ran(b, after, host, commands, |commands|, d)
  }

  /** A device that failed before or during its session: what reached it is a prefix of its commands. */
  ghost predicate FailedDevice(b: Bench, before: seq<Event>, after: seq<Event>, host: string, commands: seq<string>, d: DeviceResult)
  {
    && commands != [] && IsFailure(d.status)
    && exists n: nat :: FailedAfter(b, before, after, host, commands, d, n)
  }

  ghost predicate FailedAfter(b: Bench, before: seq<Event>, after: seq<Event>, host: string, commands: seq<string>, d: DeviceResult,
                              n: nat)
  {
    && n <= |commands| && Received(before, after, host, commands[..n])
    && if d.records == [] then n == 0 else n > 0 && Ran(b, after, host, commands, n, d)
  }

  /** The shape of every serial execution: completed devices, at most one that failed, then devices that were not begun. */
  ghost predicate SerialShape(b: Bench, before: seq<Event>, after: seq<Event>, order: seq<string>,
                              commands: map<string, seq<string>>, stop: nat, r: SerialResult)
  {
    && stop <= |order| && before <= after
    && Covers(r.devices, order)
    && (forall i {:trigger CompletedAt(b, before, after, order, commands, r.devices, i)} ::
         0 <= i < stop ==> CompletedAt(b, before, after, order, commands, r.devices, i))
    && (stop < |order| ==>
         FailedDevice(b, before, after, order[stop], CommandsFor(commands, order[stop]), r.devices[order[stop]]))
    && (forall i {:trigger NotBegunAt(before, after, order, r.devices, i)} ::
         stop < i < |order| ==> NotBegunAt(before, after, order, r.devices, i))
    && Untouched(before, after, order)
    && r.failure == (if stop < |order| then Some(order[stop]) else None)
    && r.status == (if stop < |order| then r.devices[order[stop]].status else Success)
  }

  function CommandsFor(commands: map<string, seq<string>>, host: string): seq<string> {
    if host in commands then commands[host] else []
  }

  ghost predicate Distinct(order: seq<string>) {
    forall i, j :: 0 <= i < j < |order| ==> order[i] != order[j]
  }

  /** A successful execution sent every device of the order its commands, all of them and no others. */
  lemma SuccessSendsAll(b: Bench, before: seq<Event>, after: seq<Event>, order: seq<string>,
                        commands: map<string, seq<string>>, stop: nat, r: SerialResult)
    requires SerialShape(b, before, after, order, commands, stop, r) && r.status == Success
    ensures forall h :: h in order && h in commands ==> SentTo(after, h) == SentTo(before, h) + commands[h]
    ensures forall h :: h !in order || h !in commands ==> SentTo(after, h) == SentTo(before, h)
  {
    forall h | h in order ensures Received(before, after, h, CommandsFor(commands, h)) {
      var i :| 0 <= i < |order| && order[i] == h;
      assert CompletedAt(b, before, after, order, commands, r.devices, i);
    }
    forall h | h !in order || h !in commands ensures SentTo(after, h) == SentTo(before, h) {
      assert h !in order ==> Received(before, after, h, []);
      assert SentTo(before, h) + [] == SentTo(before, h);
    }
  }

  predicate OnConnection(p: Phase, host: string, started: bool) {
    p == Opened(host, started) || (p == Ready(host) && started)
  }

  /** The workflow moves once, before the first command; without that, it stays where it was. */
  ghost predicate Announcing(entry: Workflow, startedBefore: bool, workflowBefore: Workflow, started: bool, workflow: Workflow,
                             n: nat, r: Option<DeviceResult>)
  {
    && (n > 0 || startedBefore ==> started)
    && (started ==> workflow == entry)
    && (!started ==> workflow == workflowBefore || (workflow == entry && r == None))
    && (r == None ==> n == 0)
  }

  /** The failure a precheck stands for; None is the ValueError for any other status. */
  function BarredBy(p: Precheck): Option<DeviceResult> {
    match p
    case Refused(status) => if IsFailure(status) then Some(DeviceResult(status, [])) else None
    case _ => Some(DeviceResult(Unknown_, []))
  }

  /** The result of a turn in which a session ran. */
  ghost predicate RanTurn(b: Bench, events: seq<Event>, host: string, commands: seq<string>, n: nat, d: DeviceResult) {
    && 0 < n <= |commands| && d.records != []
    && Ran(b, events, host, commands, n, d)
    && (IsFailure(d.status) || (d.status == Success && n == |commands|))
  }

  lemma QuietHere(events: seq<Event>)
    ensures Quiet(events, events)
  {}

  lemma QuietIsNone(before: seq<Event>, after: seq<Event>, host: string, commands: seq<string>)
    requires Quiet(before, after)
    ensures SentOnly(before, after, host, commands[..0])
  {
    assert Received(before, after, host, []);
  }

  lemma AnnouncedTrace(entry: Workflow, events: seq<Event>, started: bool, host: string)
    requires PhaseAfter(entry, events) == Opened(host, started)
    ensures var after := (if started then events else events + [Moved(entry)]) + [Announced(host)];
            PhaseAfter(entry, after) == Ready(host) && Quiet(events, after)
  {
    var moved := if started then events else events + [Moved(entry)];
    QuietHere(events);
    if !started { Appended(entry, events, Moved(entry)); }
    Appended(entry, moved, Announced(host));
    QuietThenQuiet(events, moved, moved + [Announced(host)]);
  }

  lemma SessionTrace(entry: Workflow, events: seq<Event>, host: string, commands: seq<string>, n: nat)
    requires PhaseAfter(entry, events) == Ready(host) && n <= |commands|
    ensures var after := events + SentEvents(host, commands[..n]) + [LeftConfigMode(host)];
            PhaseAfter(entry, after) == Ready(host) && SentOnly(events, after, host, commands[..n])
  {
    var mid := events + SentEvents(host, commands[..n]);
    PhaseAfterSent(entry, events, host, commands[..n]);
    Appended(entry, mid, LeftConfigMode(host));
    SentToSent(events, host, commands[..n], host);
    forall h | h != host ensures Received(events, mid, h, []) {
      SentToSent(events, host, commands[..n], h);
    }
    SentThenQuiet(events, mid, mid + [LeftConfigMode(host)], host, commands[..n]);
  }

  lemma SessionResult(b: Bench, events: seq<Event>, host: string, commands: seq<string>, n: nat, s: Session)
    requires commands != [] && n <= |commands|
    requires SessionShape(SerialOptions(b.cliError), commands, RepliesFrom(b.reply, |events|, n), s)
    ensures RanTurn(b, events + SentEvents(host, commands[..n]) + [LeftConfigMode(host)], host, commands, n,
                    DeviceResult(s.status, s.records))
  {
    var after := events + SentEvents(host, commands[..n]) + [LeftConfigMode(host)];
    SerialStatus(SerialOptions(b.cliError), commands, RepliesFrom(b.reply, |events|, n), s);
    assert after[|events|..|events| + n] == SentEvents(host, commands[..n]);
    assert Session(s.status, s.records, s.firstFailure) == s;
    assert RanAt(b, after, |events|, host, commands, n, DeviceResult(s.status, s.records));
  }

  lemma RanTurnStays(b: Bench, before: seq<Event>, after: seq<Event>, host: string, commands: seq<string>, n: nat,
                     d: DeviceResult)
    requires before <= after
    ensures RanTurn(b, before, host, commands, n, d) ==> RanTurn(b, after, host, commands, n, d)
  {
    if RanTurn(b, before, host, commands, n, d) {
      RanStays(b, before, after, host, commands, n, d);
    }
  }

  /** Between two moments, exactly the first `n` of the commands reached `host`, and nothing reached another device. */
  ghost predicate SentFirst(before: seq<Event>, after: seq<Event>, host: string, commands: seq<string>, n: nat) {
    n <= |commands| && SentOnly(before, after, host, commands[..n])
  }

  lemma TurnTrace(before: seq<Event>, ready: seq<Event>, used: seq<Event>, closed: seq<Event>, host: string,
                  commands: seq<string>, n: nat)
    requires Quiet(before, ready) && SentFirst(ready, used, host, commands, n) && Quiet(used, closed)
    ensures SentFirst(before, closed, host, commands, n)
  {
    QuietThenSent(before, ready, used, host, commands[..n]);
    SentThenQuiet(before, used, closed, host, commands[..n]);
  }

  // -------------------------------------------------------- the loop over the devices

  lemma CompletedStays(b: Bench, before: seq<Event>, mid: seq<Event>, after: seq<Event>, host: string, commands: seq<string>,
                       d: DeviceResult)
    requires Completed(b, before, mid, host, commands, d) && mid <= after && Received(mid, after, host, [])
    ensures Completed(b, before, after, host, commands, d)
  {
    if commands != [] {
      RanStays(b, mid, after, host, commands, |commands|, d);
    }
  }

  lemma CompletedAtStays(b: Bench, before: seq<Event>, mid: seq<Event>, after: seq<Event>, order: seq<string>,
                         commands: map<string, seq<string>>, devices: map<string, DeviceResult>, host: string, d: DeviceResult, i: int)
    requires CompletedAt(b, before, mid, order, commands, devices, i) && order[i] != host
    requires mid <= after && Received(mid, after, order[i], [])
    ensures CompletedAt(b, before, after, order, commands, devices[host := d], i)
  {
    CompletedStays(b, before, mid, after, order[i], CommandsFor(commands, order[i]), devices[order[i]]);
  }

  lemma NotBegunAtStays(before: seq<Event>, mid: seq<Event>, after: seq<Event>, order: seq<string>,
                        devices: map<string, DeviceResult>, host: string, d: DeviceResult, i: int)
    requires NotBegunAt(before, mid, order, devices, i) && order[i] != host
    requires mid <= after && Received(mid, after, order[i], [])
    ensures NotBegunAt(before, after, order, devices[host := d], i)
  {}

  lemma UntouchedStays(before: seq<Event>, mid: seq<Event>, after: seq<Event>, order: seq<string>, host: string, commands: seq<string>)
    requires Untouched(before, mid, order) && SentOnly(mid, after, host, commands) && host in order
    ensures Untouched(before, after, order)
  {
    forall h | h !in order ensures Received(before, after, h, []) {
      assert Received(before, mid, h, []) && Received(mid, after, h, []);
    }
  }

  /** A turn of one device leaves the earlier and the later ones as they were. */
  ghost predicate OthersAsBefore(b: Bench, before: seq<Event>, after: seq<Event>, order: seq<string>,
                                 commands: map<string, seq<string>>, next: nat, devices: map<string, DeviceResult>)
  {
    && next < |order| && before <= after
    && Covers(devices, order)
    && (forall i {:trigger CompletedAt(b, before, after, order, commands, devices, i)} ::
         0 <= i < next ==> CompletedAt(b, before, after, order, commands, devices, i))
    && (forall i {:trigger NotBegunAt(before, after, order, devices, i)} ::
         next < i < |order| ==> NotBegunAt(before, after, order, devices, i))
    && Untouched(before, after, order)
  }

  lemma OthersStay(b: Bench, before: seq<Event>, mid: seq<Event>, after: seq<Event>, order: seq<string>,
                   commands: map<string, seq<string>>, next: nat, devices: map<string, DeviceResult>, d: DeviceResult,
                   sent: seq<string>)
    requires Distinct(order) && next < |order| && DoneUpTo(b, before, mid, order, commands, next, devices)
    requires SentOnly(mid, after, order[next], sent)
    ensures Received(before, after, order[next], sent)
    ensures OthersAsBefore(b, before, after, order, commands, next, devices[order[next] := d])
  {
    var host, later := order[next], devices[order[next] := d];
    assert NotBegunAt(before, mid, order, devices, next);
    UntouchedStays(before, mid, after, order, host, sent);
    forall i | 0 <= i < next ensures CompletedAt(b, before, after, order, commands, later, i) {
      assert order[i] != host;
      assert CompletedAt(b, before, mid, order, commands, devices, i);
      assert Received(mid, after, order[i], []);
      CompletedAtStays(b, before, mid, after, order, commands, devices, host, d, i);
    }
    forall i | next < i < |order| ensures NotBegunAt(before, after, order, later, i) {
      assert order[i] != host;
      assert NotBegunAt(before, mid, order, devices, i);
      assert Received(mid, after, order[i], []);
      NotBegunAtStays(before, mid, after, order, devices, host, d, i);
    }
  }

  lemma NothingDone(b: Bench, events: seq<Event>, order: seq<string>, commands: map<string, seq<string>>,
                    devices: map<string, DeviceResult>)
    requires devices == map h | h in order :: DeviceResult(NotStarted, [])
    ensures DoneUpTo(b, events, events, order, commands, 0, devices) && Quiet(events, events)
  {
    QuietHere(events);
    forall i | 0 <= i < |order| ensures NotBegunAt(events, events, order, devices, i) {
      assert order[i] in order;
    }
  }

  lemma AllDone(b: Bench, before: seq<Event>, after: seq<Event>, order: seq<string>, commands: map<string, seq<string>>,
                devices: map<string, DeviceResult>)
    requires DoneUpTo(b, before, after, order, commands, |order|, devices)
    ensures SerialShape(b, before, after, order, commands, |order|, SerialResult(Success, devices, None))
  {}

  lemma DeviceSkipped(b: Bench, before: seq<Event>, after: seq<Event>, order: seq<string>,
                      commands: map<string, seq<string>>, next: nat, devices: map<string, DeviceResult>)
    requires Distinct(order) && next < |order| && DoneUpTo(b, before, after, order, commands, next, devices)
    requires CommandsFor(commands, order[next]) == []
    ensures DoneUpTo(b, before, after, order, commands, next + 1, devices[order[next] := DeviceResult(NoChange, [])])
  {
    QuietHere(after);
    assert Received(after, after, order[next], []);
    OthersStay(b, before, after, after, order, commands, next, devices, DeviceResult(NoChange, []), []);
    assert CompletedAt(b, before, after, order, commands, devices[order[next] := DeviceResult(NoChange, [])], next);
  }

  lemma DeviceSucceeded(b: Bench, before: seq<Event>, mid: seq<Event>, after: seq<Event>, order: seq<string>,
                        commands: map<string, seq<string>>, next: nat, devices: map<string, DeviceResult>, d: DeviceResult)
    requires Distinct(order) && next < |order| && DoneUpTo(b, before, mid, order, commands, next, devices)
    requires CommandsFor(commands, order[next]) != [] && d.status == Success
    requires SentFirst(mid, after, order[next], CommandsFor(commands, order[next]), |CommandsFor(commands, order[next])|)
    requires Ran(b, after, order[next], CommandsFor(commands, order[next]), |CommandsFor(commands, order[next])|, d)
    ensures DoneUpTo(b, before, after, order, commands, next + 1, devices[order[next] := d])
  {
    var mine := CommandsFor(commands, order[next]);
    assert mine[..|mine|] == mine;
    assert Received(before, after, order[next], mine) && Completed(b, before, after, order[next], mine, d) by {
      assert NotBegunAt(before, mid, order, devices, next);
      assert SentTo(before, order[next]) + [] == SentTo(before, order[next]);
    }
    OthersStay(b, before, mid, after, order, commands, next, devices, d, mine);
    assert CompletedAt(b, before, after, order, commands, devices[order[next] := d], next);
  }

  lemma DeviceFailed(b: Bench, before: seq<Event>, mid: seq<Event>, after: seq<Event>, order: seq<string>,
                     commands: map<string, seq<string>>, next: nat, devices: map<string, DeviceResult>, d: DeviceResult, n: nat)
    requires Distinct(order) && next < |order| && DoneUpTo(b, before, mid, order, commands, next, devices)
    requires CommandsFor(commands, order[next]) != [] && IsFailure(d.status)
    requires SentFirst(mid, after, order[next], CommandsFor(commands, order[next]), n)
    requires (d.records == [] && n == 0) || RanTurn(b, after, order[next], CommandsFor(commands, order[next]), n, d)
    ensures SerialShape(b, before, after, order, commands, next,
                        SerialResult(d.status, devices[order[next] := d], Some(order[next])))
  {
    var mine := CommandsFor(commands, order[next]);
    OthersStay(b, before, mid, after, order, commands, next, devices, d, mine[..n]);
    assert FailedAfter(b, before, after, order[next], mine, d, n);
  }

  /** After an exception: the devices before `next` are done, and nothing reached the others. */
  lemma NothingMoreSent(b: Bench, before: seq<Event>, mid: seq<Event>, after: seq<Event>, order: seq<string>,
                        commands: map<string, seq<string>>, next: nat, devices: map<string, DeviceResult>)
    requires Distinct(order) && next < |order| && DoneUpTo(b, before, mid, order, commands, next, devices)
    requires SentFirst(mid, after, order[next], CommandsFor(commands, order[next]), 0)
    ensures DoneUpTo(b, before, after, order, commands, next, devices)
  {
    assert CommandsFor(commands, order[next])[..0] == [];
    assert NotBegunAt(before, mid, order, devices, next);
    OthersStay(b, before, mid, after, order, commands, next, devices, DeviceResult(NotStarted, []), []);
    assert devices[order[next] := DeviceResult(NotStarted, [])] == devices;
  }

  /** Nothing is sent before the workflow is in the entry state; without a start it stays where it was. */
  ghost predicate SentAfterEntry(entry: Workflow, before: seq<Event>, workflowBefore: Workflow, after: seq<Event>, started: bool,
                                 workflow: Workflow, raised: bool)
  {
    && (started ==> workflow == entry)
    && (!started ==> Quiet(before, after) && (workflow == workflowBefore || (workflow == entry && raised)))
  }

  lemma TurnAfterEntry(entry: Workflow, before: seq<Event>, workflowBefore: Workflow, mid: seq<Event>, startedMid: bool,
                       workflowMid: Workflow, after: seq<Event>, started: bool, workflow: Workflow, host: string,
                       commands: seq<string>, n: nat, r: Option<DeviceResult>)
    requires SentAfterEntry(entry, before, workflowBefore, mid, startedMid, workflowMid, false)
    requires Announcing(entry, startedMid, workflowMid, started, workflow, n, r) && SentFirst(mid, after, host, commands, n)
    ensures SentAfterEntry(entry, before, workflowBefore, after, started, workflow, r.None?)
  {
    if !started {
      assert commands[..0] == [];
      assert Quiet(mid, after);
      QuietThenQuiet(before, mid, after);
    }
  }

  /** The run succeeded exactly when no device failed. */
  lemma ShapeStatus(b: Bench, before: seq<Event>, after: seq<Event>, order: seq<string>, commands: map<string, seq<string>>,
                    stop: nat, r: SerialResult)
    requires SerialShape(b, before, after, order, commands, stop, r)
    ensures r.status == Success <==> stop == |order|
    ensures r.failure.None? <==> stop == |order|
  {}

  lemma UnstartedIsQuiet(entry: Workflow, before: seq<Event>, workflowBefore: Workflow, served: seq<Event>, started: bool,
                         workflow: Workflow, raised: bool, after: seq<Event>)
    requires SentAfterEntry(entry, before, workflowBefore, served, started, workflow, raised) && Quiet(served, after)
    ensures !started ==> Quiet(before, after)
  {
    if !started {
      QuietThenQuiet(before, served, after);
    }
  }

  /** A serial execution of this shape took place, and nothing was sent after it. */
  ghost predicate Served(b: Bench, before: seq<Event>, served: seq<Event>, after: seq<Event>, order: seq<string>,
                         commands: map<string, seq<string>>, stop: nat, r: SerialResult)
  {
    && SerialShape(b, before, served, order, commands, stop, r)
    && Quiet(served, after)
    && (r.status == Success <==> stop == |order|)
  }

  lemma ServedShape(b: Bench, before: seq<Event>, served: seq<Event>, after: seq<Event>, order: seq<string>,
                    commands: map<string, seq<string>>, stop: nat, r: SerialResult)
    requires SerialShape(b, before, served, order, commands, stop, r) && Quiet(served, after)
    ensures Served(b, before, served, after, order, commands, stop, r)
  {
    ShapeStatus(b, before, served, order, commands, stop, r);
  }

  lemma ServedStays(b: Bench, before: seq<Event>, served: seq<Event>, mid: seq<Event>, after: seq<Event>, order: seq<string>,
                    commands: map<string, seq<string>>, stop: nat, r: SerialResult)
    requires Served(b, before, served, mid, order, commands, stop, r) && Quiet(mid, after)
    ensures Served(b, before, served, after, order, commands, stop, r)
  {
    QuietThenQuiet(served, mid, after);
  }

  /** The states an apply moves through: none of them is closable any more. */
  predicate PastApply(w: Workflow)
    ensures PastApply(w) ==> w !in PreApply
  {
    w == ApplyRunning || w == ApplyCompleted || w == ApplyFailed || w == RollbackRequired
  }

  /** The workflow states from which an approved rollback starts. */
  const RollbackStarts := {AfterCompleted, WorkflowCompleted, RollbackRequired}

  class Bench {
    const cliError: string -> Option<string>
    /** What happens at each moment, given by the length of the trace: arbitrary. */
    const reply: nat -> Reply
    const connects: nat -> bool
    const precheck: nat -> Precheck
    const store: nat -> Store
    const evidenceFails: nat -> bool
    const hasPrecheck: bool

    var events: seq<Event>
    var workflow: Workflow
    var started: bool

    constructor (cliError: string -> Option<string>, reply: nat -> Reply, connects: nat -> bool, precheck: nat -> Precheck,
                 store: nat -> Store, evidenceFails: nat -> bool, hasPrecheck: bool, workflow: Workflow)
      ensures events == [] && this.workflow == workflow && !started
    {
      this.cliError, this.reply, this.connects, this.precheck := cliError, reply, connects, precheck;
      this.store, this.evidenceFails, this.hasPrecheck := store, evidenceFails, hasPrecheck;
      events, this.workflow, started := [], workflow, false;
    }

    predicate Passes(moment: nat) {
      !hasPrecheck || precheck(moment) == Passed
    }

    method Log(e: Event)
      modifies this`events
      ensures events == old(events) + [e]
    {
      events := events + [e];
    }

    /** One iteration of the command loop. */
    method SendOne(o: Options, host: string, index: nat, command: string) returns (r: CommandRecord, answer: Reply)
      modifies this`events
      ensures events == old(events) + [Sent(host, command)]
      ensures answer == reply(|old(events)|) && Records(o, r, index, command, answer)
    {
      answer := reply(|events|);
      Log(Sent(host, command));
      match answer {
        case Exception(message) =>
          r := CommandRecord(index, command, Unknown_, "", Some(message), None);
        case Response(text) =>
          var error := if o.detectCliErrors then o.cliError(text) else None;
          if error.Some? {
            var rule := o.allowRule(command, text);
            var status := if rule.Some? then Warn else if o.ignoreAllCliErrors then IgnoredError else Failed_;
            r := CommandRecord(index, command, status, text, error, rule);
          } else {
            r := CommandRecord(index, command, Success, text, None, None);
          }
      }
    }

    /** The records of the commands that were not sent. */
    static method PadRecords(commands: seq<string>, sent: seq<CommandRecord>) returns (records: seq<CommandRecord>)
      requires |sent| <= |commands|
      ensures |records| == |commands| && records[..|sent|] == sent && PaddedFrom(|sent|, commands, records)
    {
      records := sent;
      while |records| < |commands|
        invariant |sent| <= |records| <= |commands| && records[..|sent|] == sent
        invariant PaddedFrom(|sent|, commands, records)
      {
        var j := |records|;
        records := records + [CommandRecord(j + 1, commands[j], NotStarted, "", Some("stopped after previous command failure"), None)];
      }
    }

    /** The command loop; `raised` stands for a transport exception that is passed on. */
    method SendCommands(o: Options, host: string, commands: seq<string>)
      returns (raised: bool, records: seq<CommandRecord>, state: Status, firstFailure: Option<nat>, ghost n: nat)
      modifies this`events
      ensures n <= |commands| && events == old(events) + SentEvents(host, commands[..n])
      ensures raised <==> o.raiseTransportErrors && n > 0 && reply(|old(events)| + n - 1).Exception?
      ensures raised ==> RunsOn(o, reply, |old(events)|, commands, n - 1)
      ensures !raised ==> n == |records| && (firstFailure.Some? || n == |commands|)
      ensures !raised ==> Progress(o, reply, |old(events)|, commands, records, state, firstFailure)
    {
      raised, records, state, firstFailure := false, [], Success, None;
      ghost var base := |events|;
      while |records| < |commands| && firstFailure == None
        invariant Progress(o, reply, base, commands, records, state, firstFailure)
        invariant events == old(events) + SentEvents(host, commands[..|records|])
        invariant o.raiseTransportErrors && records != [] ==> reply(base + |records| - 1).Response?
        decreases |commands| - |records|
      {
        var i := |records|;
        var record, answer := SendOne(o, host, i + 1, commands[i]);
        OneMoreSent(host, commands, i);
        if answer.Exception? && o.raiseTransportErrors {
          NotStopped(o, reply, base, commands, records, state);
          raised, n := true, i + 1;
          return;
        }
        OneMoreProgress(o, reply, base, commands, records, state, record);
        records := records + [record];
        state := if Severity(record.status) > Severity(state) then record.status else state;
        firstFailure := if IsFailure(record.status) then Some(i + 1) else None;
      }
      n := |records|;
    }

    /** `execute_config_session`. */
    method ExecuteConfigSession(o: Options, host: string, commands: seq<string>)
      returns (r: SessionOutcome, ghost n: nat)
      modifies this`events
      ensures n <= |commands| && RunsOn(o, reply, |old(events)|, commands, n - 1)
      ensures r.SessionReturned? ==> SessionTold(o, reply, |old(events)|, commands, n, r.session)
      ensures r.SessionReturned? ==>
        events == old(events) + SentEvents(host, commands[..n]) + [LeftConfigMode(host)]
      ensures r.SessionRaised? <==>
        o.raiseTransportErrors && n > 0 && reply(|old(events)| + n - 1).Exception?
      ensures r.SessionRaised? ==> events == old(events) + SentEvents(host, commands[..n])
    {
      var raised, sent, state, firstFailure;
      raised, sent, state, firstFailure, n := SendCommands(o, host, commands);
      if raised {
        return SessionRaised, n;
      }
      var records := PadRecords(commands, sent);
      Finished(o, reply, |old(events)|, commands, sent, state, firstFailure, records);
      Log(LeftConfigMode(host));
      r := SessionReturned(Session(state, records, firstFailure));
    }

    /** The callback of the drivers: move the workflow once, then announce. False stands for an exception. */
    method BeforeCommands(entry: Workflow, host: string) returns (ok: bool)
      requires PhaseAfter(entry, events) == Opened(host, started) && (started ==> workflow == entry)
      modifies this
      ensures ok ==> PhaseAfter(entry, events) == Ready(host) && started && workflow == entry
      ensures !ok ==> events == old(events) && !started && workflow in {old(workflow), entry}
      ensures !ok <==> !old(started) && (entry !in WorkflowNext(old(workflow)) || store(|old(events)|).StoreFailed?)
      ensures Quiet(old(events), events) && Deserved(this, events, |old(events)|, Success)
    {
      QuietHere(events);
      NothingDeserved(this, events);
      if !started {
        if entry !in WorkflowNext(workflow) {
          return false;
        }
        var written := store(|events|);
        if written.StoreFailed? {
          if written.written { workflow := entry; }
          return false;
        }
        PlainEvent(this, events, Moved(entry));
        Log(Moved(entry));
        workflow, started := entry, true;
      }
      PlainEvent(this, events, Announced(host));
      DeservedBoth(this, events, events + [Announced(host)], |old(events)|, Success, Success);
      Log(Announced(host));
      AnnouncedTrace(entry, old(events), old(started), host);
      return true;
    }

    method RunPrecheck(entry: Workflow, host: string) returns (p: Precheck)
      requires PhaseAfter(entry, events).Opened? && PhaseAfter(entry, events).host == host
      modifies this`events
      ensures p == if hasPrecheck then precheck(|old(events)|) else Passed
      ensures PhaseAfter(entry, events) == PhaseAfter(entry, old(events)) && Quiet(old(events), events)
      ensures FineFrom(this, events, |old(events)|) <==> p == Passed
      ensures UnsureFrom(this, events, |old(events)|) <==> p in {PrecheckException, Refused(Unknown_)}
    {
      p := Passed;
      if hasPrecheck {
        p := precheck(|events|);
        OneMoment(this, events, Prechecked(host));
        Appended(entry, events, Prechecked(host));
        Log(Prechecked(host));
      } else {
        QuietHere(events);
        NothingDeserved(this, events);
      }
    }

    method RunSession(entry: Workflow, host: string, commands: seq<string>) returns (d: DeviceResult, ghost n: nat)
      requires PhaseAfter(entry, events) == Ready(host) && commands != []
      modifies this`events
      ensures SentFirst(old(events), events, host, commands, n)
      ensures PhaseAfter(entry, events) == Ready(host)
      ensures RanTurn(this, events, host, commands, n, d)
      ensures Deserved(this, events, |old(events)|, d.status)
    {
      var s;
      s, n := ExecuteConfigSession(SerialOptions(cliError), host, commands);
      d := DeviceResult(s.session.status, s.session.records);
      SessionTrace(entry, old(events), host, commands, n);
      SessionResult(this, old(events), host, commands, n, s.session);
      SessionDeserved(this, old(events), host, commands, n, s.session);
    }

    /** The part of a device's turn that runs while its connection is open. None stands for an exception. */
    method UseConnection(entry: Workflow, host: string, commands: seq<string>) returns (r: Option<DeviceResult>, ghost n: nat)
      requires PhaseAfter(entry, events) == Opened(host, started) && (started ==> workflow == entry) && commands != []
      modifies this
      ensures SentFirst(old(events), events, host, commands, n)
      ensures OnConnection(PhaseAfter(entry, events), host, started)
      ensures Announcing(entry, old(started), old(workflow), started, workflow, n, r)
      ensures !Passes(|old(events)|) ==> r == BarredBy(precheck(|old(events)|)) && n == 0
      ensures Passes(|old(events)|) && r.Some? ==> RanTurn(this, events, host, commands, n, r.value)
      ensures Passes(|old(events)|) && r.None? ==> !started
      ensures r.Some? ==> Deserved(this, events, |old(events)|, r.value.status)
    {
      var verdict := RunPrecheck(entry, host);
      ghost var checked := events;
      if verdict != Passed {
        QuietIsNone(old(events), events, host, commands);
        return BarredBy(verdict), 0;
      }
      var ok := BeforeCommands(entry, host);
      ghost var announced := events;
      QuietThenQuiet(old(events), checked, announced);
      if !ok {
        QuietIsNone(old(events), events, host, commands);
        return None, 0;
      }
      var d;
      DeservedBoth(this, checked, announced, |old(events)|, Success, Success);
      d, n := RunSession(entry, host, commands);
      DeservedBoth(this, announced, events, |old(events)|, Success, d.status);
      QuietThenSent(old(events), announced, events, host, commands[..n]);
      r := Some(d);
    }

    method Connect(entry: Workflow, host: string) returns (ok: bool)
      requires PhaseAfter(entry, events) == Idle(started)
      modifies this`events
      ensures ok == connects(|old(events)|) && |events| == |old(events)| + 1 && Quiet(old(events), events)
      ensures PhaseAfter(entry, events) == if ok then Opened(host, started) else Idle(started)
      ensures Deserved(this, events, |old(events)|, if ok then Success else Failed_)
    {
      ok := connects(|events|);
      var e := if ok then Connected(host) else ConnectFailed(host);
      OneMoment(this, events, e);
      Appended(entry, events, e);
      Log(e);
    }

    method Disconnect(entry: Workflow, host: string)
      requires OnConnection(PhaseAfter(entry, events), host, started)
      modifies this`events
      ensures PhaseAfter(entry, events) == Idle(started) && Quiet(old(events), events)
      ensures Deserved(this, events, |old(events)|, Success)
    {
      PlainEvent(this, events, Disconnected(host));
      Appended(entry, events, Disconnected(host));
      Log(Disconnected(host));
    }

    /** A device's turn in the serial loop: connect, use the connection, and disconnect whatever happened. */
    method RunDevice(entry: Workflow, host: string, commands: seq<string>) returns (r: Option<DeviceResult>, ghost n: nat)
      requires PhaseAfter(entry, events) == Idle(started) && (started ==> workflow == entry) && commands != []
      modifies this
      ensures SentFirst(old(events), events, host, commands, n)
      ensures PhaseAfter(entry, events) == Idle(started)
      ensures Announcing(entry, old(started), old(workflow), started, workflow, n, r)
      ensures !connects(|old(events)|) ==> r == Some(DeviceResult(Failed_, [])) && n == 0
      ensures connects(|old(events)|) && !Passes(|old(events)| + 1) ==> r == BarredBy(precheck(|old(events)| + 1)) && n == 0
      ensures connects(|old(events)|) && Passes(|old(events)| + 1) && r.Some? ==> RanTurn(this, events, host, commands, n, r.value)
      ensures r.Some? ==> Deserved(this, events, |old(events)|, r.value.status)
    {
      var ok := Connect(entry, host);
      ghost var ready := events;
      if !ok {
        QuietIsNone(old(events), events, host, commands);
        return Some(DeviceResult(Failed_, [])), 0;
      }
      r, n := UseConnection(entry, host, commands);
      ghost var used := events;
      Disconnect(entry, host);
      TurnTrace(old(events), ready, used, events, host, commands, n);
      if r.Some? {
        DeservedBoth(this, ready, used, |old(events)|, Success, r.value.status);
        DeservedBoth(this, used, events, |old(events)|, r.value.status, Success);
        RanTurnStays(this, used, events, host, commands, n, r.value);
      }
    }

    /** `execute_serial_devices`. None stands for an exception. */
    method ExecuteSerialDevices(entry: Workflow, order: seq<string>, commands: map<string, seq<string>>)
      returns (r: Option<SerialResult>, ghost stop: nat)
      requires Distinct(order)
      requires PhaseAfter(entry, events) == Idle(started) && !started
      modifies this
      ensures r.Some? ==> SerialShape(this, old(events), events, order, commands, stop, r.value)
      ensures r.None? ==>
        exists devices :: stop < |order| && DoneUpTo(this, old(events), events, order, commands, stop, devices)
      ensures PhaseAfter(entry, events) == Idle(started)
      ensures SentAfterEntry(entry, old(events), old(workflow), events, started, workflow, r.None?)
      ensures r.Some? ==> Deserved(this, events, |old(events)|, r.value.status)
      ensures r.Some? && r.value.status == Success ==> forall h ::
        SentTo(events, h) == SentTo(old(events), h) + (if h in order && h in commands then commands[h] else [])
    {
      var devices := map h | h in order :: DeviceResult(NotStarted, []);
      var next := 0;
      NothingDone(this, events, order, commands, devices);
      NothingDeserved(this, events);
      while next < |order|
        invariant DoneUpTo(this, old(events), events, order, commands, next, devices)
        invariant PhaseAfter(entry, events) == Idle(started)
        invariant SentAfterEntry(entry, old(events), old(workflow), events, started, workflow, false)
        invariant Deserved(this, events, |old(events)|, Success)
      {
        var host := order[next];
        var mine := CommandsFor(commands, host);
        if mine == [] {
          DeviceSkipped(this, old(events), events, order, commands, next, devices);
          devices := devices[host := DeviceResult(NoChange, [])];
        } else {
          ghost var mid, startedMid, workflowMid := events, started, workflow;
          var d, n := RunDevice(entry, host, mine);
          TurnAfterEntry(entry, old(events), old(workflow), mid, startedMid, workflowMid, events, started, workflow, host, mine, n, d);
          if d.None? {
            NothingMoreSent(this, old(events), mid, events, order, commands, next, devices);
            return None, next;
          }
          DeservedBoth(this, mid, events, |old(events)|, Success, d.value.status);
          if d.value.status != Success {
            DeviceFailed(this, old(events), mid, events, order, commands, next, devices, d.value, n);
            return Some(SerialResult(d.value.status, devices[host := d.value], Some(host))), next;
          }
          DeviceSucceeded(this, old(events), mid, events, order, commands, next, devices, d.value);
          devices := devices[host := d.value];
        }
        next := next + 1;
      }
      AllDone(this, old(events), events, order, commands, devices);
      SuccessSendsAll(this, old(events), events, order, commands, next, SerialResult(Success, devices, None));
      return Some(SerialResult(Success, devices, None)), next;
    }

    /** `transition_workflow`. False stands for an exception. */
    method Transition(target: Workflow) returns (ok: bool)
      modifies this`workflow, this`events
      ensures ok <==> target in WorkflowNext(old(workflow)) && store(|old(events)|) == Stored
      ensures ok ==> workflow == target && events == old(events) + [Moved(target)]
      ensures !ok ==> workflow in {old(workflow), target} && events == old(events)
      ensures target !in WorkflowNext(old(workflow)) ==> workflow == old(workflow)
      ensures Quiet(old(events), events) && Deserved(this, events, |old(events)|, Success)
    {
      QuietHere(events);
      NothingDeserved(this, events);
      if target !in WorkflowNext(workflow) {
        return false;
      }
      match store(|events|) {
        case Stored =>
          Appended(target, events, Moved(target));
          PlainEvent(this, events, Moved(target));
          workflow := target;
          Log(Moved(target));
          return true;
        case StoreFailed(written) =>
          if written { workflow := target; }
          return false;
      }
    }

    /** The end of both drivers: enter late if no command was announced, keep the evidence, leave by the result. */
    method Finish(entry: Workflow, result: Workflow) returns (ok: bool)
      requires started ==> workflow == entry
      requires result in WorkflowNext(entry) && result != entry
      modifies this`workflow, this`events
      ensures ok ==> workflow == result
      ensures workflow in {old(workflow), entry, result}
      ensures Quiet(old(events), events) && Deserved(this, events, |old(events)|, Success)
    {
      QuietHere(events);
      NothingDeserved(this, events);
      if !started {
        ok := Transition(entry);
        if !ok {
          return false;
        }
      }
      if evidenceFails(|events|) {
        return false;
      }
      ghost var mid := events;
      ok := Transition(result);
      QuietThenQuiet(old(events), mid, events);
      DeservedBoth(this, mid, events, |old(events)|, Success, Success);
    }

    /** What both drivers do between the state check and the last transition. */
    method ServeAndFinish(entry: Workflow, good: Workflow, bad: Workflow, order: seq<string>, commands: map<string, seq<string>>)
      returns (r: Option<SerialResult>, ghost stop: nat, ghost served: seq<Event>)
      requires Distinct(order) && PhaseAfter(entry, events) == Idle(false)
      requires good in WorkflowNext(entry) && bad in WorkflowNext(entry) && good != entry && bad != entry
      modifies this
      ensures r.Some? ==> Served(this, old(events), served, events, order, commands, stop, r.value)
      ensures r.Some? ==> workflow == if r.value.status == Success then good else bad
      ensures r.Some? ==> Deserved(this, events, |old(events)|, r.value.status)
      ensures workflow == entry || workflow == good || workflow == bad || Quiet(old(events), events)
    {
      started := false;
      r, stop := ExecuteSerialDevices(entry, order, commands);
      served := events;
      QuietHere(events);
      if r.None? {
        return;
      }
      ghost var workflowHere := workflow;
      var ok := Finish(entry, if r.value.status == Success then good else bad);
      UnstartedIsQuiet(entry, old(events), old(workflow), served, started, workflowHere, false, events);
      DeservedBoth(this, served, events, |old(events)|, r.value.status, Success);
      if ok {
        ServedShape(this, old(events), served, events, order, commands, stop, r.value);
      } else {
        r := None;
      }
    }

    /** `execute_approved_apply` from its state check on. None stands for an exception. */
    method ExecuteApprovedApply(order: seq<string>, commands: map<string, seq<string>>)
      returns (r: Option<SerialResult>, ghost stop: nat, ghost served: seq<Event>)
      requires Distinct(order) && PhaseAfter(ApplyRunning, events) == Idle(false)
      modifies this
      ensures old(workflow) != Approved ==> r == None && workflow == old(workflow) && events == old(events)
      ensures r.Some? ==> Served(this, old(events), served, events, order, commands, stop, r.value)
      ensures r.Some? ==> workflow == if FineFrom(this, events, |old(events)|) then ApplyCompleted else RollbackRequired
      ensures r.Some? ==> Deserved(this, events, |old(events)|, r.value.status)
      ensures PastApply(workflow) || Quiet(old(events), events)
    {
      if workflow != Approved {
        QuietHere(events);
        return None, 0, events;
      }
      r, stop, served := ServeAndFinish(ApplyRunning, ApplyCompleted, ApplyFailed, order, commands);
      if r.Some? && r.value.status != Success {
        ghost var mid := events;
        var ok := Transition(RollbackRequired);
        ServedStays(this, old(events), served, mid, events, order, commands, stop, r.value);
        DeservedBoth(this, mid, events, |old(events)|, r.value.status, Success);
        if !ok {
          r := None;
        }
      }
    }

    /** `execute_approved_rollback` from its state check on. None stands for an exception. */
    method ExecuteApprovedRollback(order: seq<string>, commands: map<string, seq<string>>)
      returns (r: Option<SerialResult>, ghost stop: nat, ghost from: seq<Event>, ghost served: seq<Event>)
      requires Distinct(order) && PhaseAfter(RollbackRunning, events) == Idle(false)
      modifies this
      ensures old(workflow) !in RollbackStarts ==> r == None && workflow == old(workflow) && events == old(events)
      ensures r.Some? ==>
        Quiet(old(events), from) && Served(this, from, served, events, order, commands, stop, r.value)
      ensures r.Some? ==> workflow == if FineFrom(this, events, |old(events)|) then RolledBack else RollbackFailed
      ensures r.Some? ==> Deserved(this, events, |old(events)|, r.value.status)
      ensures workflow in {RollbackRunning, RolledBack, RollbackFailed} || Quiet(old(events), events)
    {
      QuietHere(events);
      from, served, stop, r := events, events, 0, None;
      if workflow !in RollbackStarts {
        return;
      }
      if workflow != RollbackRequired {
        Appended(RollbackRunning, events, Moved(RollbackRequired));
        var moved := Transition(RollbackRequired);
        if !moved {
          return;
        }
      }
      from := events;
      NothingDeserved(this, old(events));
      r, stop, served := ServeAndFinish(RollbackRunning, RolledBack, RollbackFailed, order, commands);
      if r.Some? {
        DeservedBoth(this, from, events, |old(events)|, Success, r.value.status);
      }
      if Quiet(from, events) {
        QuietThenQuiet(old(events), from, events);
      }
    }
  }

  /** The loop state of a session after `|records|` commands. */
  ghost predicate Progress(o: Options, reply: nat -> Reply, base: nat, commands: seq<string>, records: seq<CommandRecord>,
                           state: Status, failure: Option<nat>)
  {
    && |records| <= |commands|
    && AllRecorded(o, reply, base, commands, records)
    && Judged(records, state, failure)
  }

  ghost predicate AllRecorded(o: Options, reply: nat -> Reply, base: nat, commands: seq<string>, records: seq<CommandRecord>)
    requires |records| <= |commands|
  {
    forall k :: 0 <= k < |records| ==> Records(o, records[k], k + 1, commands[k], reply(base + k))
  }

  ghost predicate Judged(records: seq<CommandRecord>, state: Status, failure: Option<nat>) {
    var n := |records|;
    && (forall k :: 0 <= k < n - 1 ==> !IsFailure(records[k].status))
    && state == Join(records)
    && (failure.Some? <==> n > 0 && IsFailure(records[n - 1].status))
    && (failure.Some? ==> failure.value == n)
  }

  ghost predicate PaddedFrom(n: nat, commands: seq<string>, records: seq<CommandRecord>) {
    && |records| <= |commands|
    && forall k :: n <= k < |records| ==>
         records[k].index == k + 1 && records[k].command == commands[k] && records[k].status == NotStarted
  }

  lemma OneMoreSent(host: string, commands: seq<string>, i: nat)
    requires i < |commands|
    ensures SentEvents(host, commands[..i + 1]) == SentEvents(host, commands[..i]) + [Sent(host, commands[i])]
  {}

  lemma OneMoreRecorded(o: Options, reply: nat -> Reply, base: nat, commands: seq<string>, records: seq<CommandRecord>,
                        record: CommandRecord)
    requires |records| < |commands| && AllRecorded(o, reply, base, commands, records)
    requires Records(o, record, |records| + 1, commands[|records|], reply(base + |records|))
    ensures AllRecorded(o, reply, base, commands, records + [record])
  {}

  lemma OneMoreJudged(records: seq<CommandRecord>, state: Status, record: CommandRecord)
    requires Judged(records, state, None)
    ensures Judged(records + [record],
                   if Severity(record.status) > Severity(state) then record.status else state,
                   if IsFailure(record.status) then Some(|records| + 1) else None)
  {
    assert (records + [record])[..|records|] == records;
  }

  lemma OneMoreProgress(o: Options, reply: nat -> Reply, base: nat, commands: seq<string>, records: seq<CommandRecord>,
                        state: Status, record: CommandRecord)
    requires Progress(o, reply, base, commands, records, state, None) && |records| < |commands|
    requires Records(o, record, |records| + 1, commands[|records|], reply(base + |records|))
    ensures Progress(o, reply, base, commands, records + [record],
                     if Severity(record.status) > Severity(state) then record.status else state,
                     if IsFailure(record.status) then Some(|records| + 1) else None)
  {
    OneMoreRecorded(o, reply, base, commands, records, record);
    OneMoreJudged(records, state, record);
  }

  lemma NotStopped(o: Options, reply: nat -> Reply, base: nat, commands: seq<string>, records: seq<CommandRecord>, state: Status)
    requires Progress(o, reply, base, commands, records, state, None)
    ensures RunsOn(o, reply, base, commands, |records|)
  {
    forall k | 0 <= k < |records| ensures !Stops(o, commands[k], reply(base + k)) {
      assert Records(o, records[k], k + 1, commands[k], reply(base + k));
      StatusOfReply(o, commands[k], reply(base + k));
    }
  }

  /** What a finished session says, from the loop state and the padded records. */
  lemma Finished(o: Options, reply: nat -> Reply, base: nat, commands: seq<string>, done: seq<CommandRecord>,
                 state: Status, failure: Option<nat>, records: seq<CommandRecord>)
    requires Progress(o, reply, base, commands, done, state, failure)
    requires failure.Some? || |done| == |commands|
    requires |records| == |commands| && records[..|done|] == done && PaddedFrom(|done|, commands, records)
    ensures SessionTold(o, reply, base, commands, |done|, Session(state, records, failure))
    ensures RunsOn(o, reply, base, commands, |done| - 1)
  {
    ProgressShape(o, reply, base, commands, done, state, failure, records);
    var replies := RepliesFrom(reply, base, |done|);
    SessionTells(o, commands, replies, Session(state, records, failure));
    forall i | 0 <= i < |done| - 1 ensures !Stops(o, commands[i], reply(base + i)) {
      assert replies[i] == reply(base + i);
    }
  }

  lemma ProgressShape(o: Options, reply: nat -> Reply, base: nat, commands: seq<string>, done: seq<CommandRecord>,
                      state: Status, failure: Option<nat>, records: seq<CommandRecord>)
    requires Progress(o, reply, base, commands, done, state, failure)
    requires failure.Some? || |done| == |commands|
    requires |records| == |commands| && records[..|done|] == done && PaddedFrom(|done|, commands, records)
    ensures SessionShape(o, commands, RepliesFrom(reply, base, |done|), Session(state, records, failure))
  {
    JoinSeverity(done);
    PaddedRecords(done, records);
    RecordedReplies(o, reply, base, commands, done, records);
  }

  lemma RecordedReplies(o: Options, reply: nat -> Reply, base: nat, commands: seq<string>, done: seq<CommandRecord>,
                        records: seq<CommandRecord>)
    requires |done| <= |commands| && AllRecorded(o, reply, base, commands, done) && done <= records
    ensures forall i :: 0 <= i < |done| ==> Records(o, records[i], i + 1, commands[i], RepliesFrom(reply, base, |done|)[i])
  {}

  lemma PaddedRecords(done: seq<CommandRecord>, records: seq<CommandRecord>)
    requires done <= records
    ensures forall k :: 0 <= k < |done| ==> records[k] == done[k]
  {}

  /** The joined status is one of Success, Warn, IgnoredError, or the failure that ended the loop. */
  lemma {:induction false} JoinSeverity(records: seq<CommandRecord>)
    requires forall k :: 0 <= k < |records| - 1 ==> !IsFailure(records[k].status)
    ensures forall k :: 0 <= k < |records| ==> Severity(records[k].status) <= Severity(Join(records))
    ensures Join(records) == Success || exists k :: 0 <= k < |records| && records[k].status == Join(records)
    ensures records != [] && IsFailure(records[|records| - 1].status) ==> Join(records) == records[|records| - 1].status
    ensures (forall k :: 0 <= k < |records| ==> !IsFailure(records[k].status)) ==> !IsFailure(Join(records))
    decreases |records|
  {
    if records != [] {
      JoinSeverity(records[..|records| - 1]);
    }
  }
}
