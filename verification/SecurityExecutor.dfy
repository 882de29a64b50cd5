/** A security run (`SecurityExecutor::execute`) with the confirmation endpoint
    (`security_confirm`), the gate's timer, the cancellation token and the readers of its two
    bounded channels, as interleaved atomic steps: one per lock section or await point. */
module SecurityExecutor {
  import opened Text
  import opened Scheduler = ScanScheduler

  /** A planned test: what the endpoint calls it, what the scope guard says of its request
      and whether `is_destructive` holds of it. */
  datatype Test = Test(id: string, inScope: bool, destructive: bool)

  /** A plan, whether the run has a confirmation channel, and `max_requests`; whether it has
      an event channel, how many messages each channel holds, and whether there is a deadline. */
  datatype Config = Config(
    tests: seq<Test>, channel: bool, maxRequests: nat, requestRoom: nat, events: bool, eventRoom: nat, timed: bool)

  /** A registration for confirmation: a fresh one-shot channel. */
  type Ticket = nat

  /** Where the run stands between two atomic steps. */
  datatype Phase =
    | Head                                     // about to look at the cancellation token
    | Scoping                                  // about to ask the scope guard
    | Registering                              // about to store a sender in the pending map
    | Announcing(ticket: Ticket)               // about to send on the confirmation channel
    | Notifying(ticket: Ticket)                // about to send the event that it waits
    | Waiting(ticket: Ticket)                  // in the select over answer, timer and token
    | Cleaning(ticket: Ticket, approved: bool) // about to remove the sender
    | Budgeting(pass: Option<Ticket>)        // about to take a slot
    | Holding(pass: Option<Ticket>)          // has a slot, about to send
    | InFlight(pass: Option<Ticket>)         // sent and counted, about to record the finding
    | Reporting                              // done with a test, about to send its event
    | Ended

  /** A request on the wire: the test it belongs to and the ticket that let it through. */
  datatype Sent = Sent(test: nat, ticket: Option<Ticket>)

  /** A bounded channel as its sender sees it: messages not yet read, whether its receiver
      is still there, and how many sends there have been. Without an event channel that one
      counts as never there. */
  datatype Channel = Channel(unread: nat, open: bool, posts: nat)

  datatype RunState = RunState(
    index: nat, phase: Phase, cancelled: bool, overdue: bool,
    pending: map<string, Ticket>, tickets: seq<nat>, answers: map<Ticket, bool>,
    wire: seq<Sent>, findings: seq<nat>, skipped: nat, requestsSent: nat, remaining: nat, stop: StopReason,
    requests: Channel, events: Channel)

  function Start(c: Config): RunState {
    RunState(0, Head, false, false, map[], [], map[], [], [], 0, 0, c.maxRequests, Completed,
             Channel(0, true, 0), Channel(0, c.events, 0))
  }

  // ---- the run's own steps ----

  /** How the run moves on, and what ends the wait at the gate. */
  datatype Move = Go | ByAnswer | ByTimer | ByToken

  /** A send does not block: there is room, or the receiver is gone and it fails at once. */
  predicate Fits(channel: Channel, room: nat) {
    channel.open ==> channel.unread < room
  }

  /** After a send, whose failure the run ignores. */
  function Posted(channel: Channel): Channel {
    channel.(unread := if channel.open then channel.unread + 1 else channel.unread, posts := channel.posts + 1)
  }

  predicate CanMove(c: Config, s: RunState, m: Move) {
    match s.phase
    case Head => m == Go
    case Announcing(_) => m == Go && s.index < |c.tests| && Fits(s.requests, c.requestRoom)
    case Notifying(_) => m == Go && s.index < |c.tests| && Fits(s.events, c.eventRoom)
    case Reporting => m == Go && Fits(s.events, c.eventRoom)
    case Waiting(t) => (m == ByAnswer && t in s.answers) || m == ByTimer || (m == ByToken && s.cancelled)
    case Ended => false
    case _ => m == Go && s.index < |c.tests|
  }

  function SkipTest(s: RunState): RunState {
    s.(phase := Reporting, index := s.index + 1, skipped := s.skipped + 1)
  }

  function MoveOn(c: Config, s: RunState, m: Move): RunState
    requires CanMove(c, s, m)
  {
    match s.phase
    case Head =>
      if s.index >= |c.tests| then s.(phase := Ended)
      else if s.cancelled then s.(phase := Ended, stop := Cancelled)
      else s.(phase := Scoping)
    case Scoping =>
      if !c.tests[s.index].inScope then SkipTest(s)
      else s.(phase := if c.tests[s.index].destructive && c.channel then Registering else Budgeting(None))
    case Registering =>
      var t := |s.tickets|;
      s.(pending := s.pending[c.tests[s.index].id := t], tickets := s.tickets + [s.index], phase := Announcing(t))
    case Announcing(t) => s.(phase := Notifying(t), requests := Posted(s.requests))
    case Notifying(t) => s.(phase := Waiting(t), events := Posted(s.events))
    case Waiting(t) => s.(phase := Cleaning(t, m == ByAnswer && s.answers[t]))
    case Cleaning(t, approved) =>
      var s' := s.(pending := s.pending - {c.tests[s.index].id});
      if approved then s'.(phase := Budgeting(Some(t))) else SkipTest(s')
    case Budgeting(t) =>
      if s.remaining == 0 then s.(phase := Ended, stop := if s.overdue then DurationExceeded else BudgetExhausted)
      else s.(phase := Holding(t), remaining := s.remaining - 1)
    case Holding(t) =>
      s.(phase := InFlight(t), requestsSent := s.requestsSent + 1, wire := s.wire + [Sent(s.index, t)])
    case InFlight(t) => s.(phase := Reporting, index := s.index + 1, findings := s.findings + [s.index])
    case Reporting => s.(phase := Head, events := Posted(s.events))
  }

  // ---- the other parties ----

  /** The endpoint, under the map's lock: removes the sender and answers through it; false
      is its NotFound. */
  function Confirm(s: RunState, id: string, approved: bool): (RunState, bool) {
    if id in s.pending
    then (s.(answers := s.answers[s.pending[id] := approved], pending := s.pending - {id}), true)
    else (s, false)
  }

  /** A receiver takes a message out, or goes away for good and what is unread with it. */
  predicate Receives(channel: Channel, channel': Channel) {
    || (channel.unread > 0 && channel' == channel.(unread := channel.unread - 1))
    || (channel.open && channel' == Channel(0, false, channel.posts))
  }

  predicate Reads(s: RunState, s': RunState) {
    || (s' == s.(requests := s'.requests) && Receives(s.requests, s'.requests))
    || (s' == s.(events := s'.events) && Receives(s.events, s'.events))
  }

  /** The token, the deadline if there is one, and the receivers. */
  predicate Outside(c: Config, s: RunState, s': RunState) {
    s' == s.(cancelled := true) || (c.timed && s' == s.(overdue := true)) || Reads(s, s')
  }

  ghost predicate Next(c: Config, s: RunState, s': RunState) {
    || Outside(c, s, s')
    || (exists id, approved :: s' == Confirm(s, id, approved).0)
    || (exists m :: CanMove(c, s, m) && s' == MoveOn(c, s, m))
  }

  ghost predicate Run(c: Config, t: seq<RunState>) {
    t != [] && t[0] == Start(c) && forall i: nat :: i + 1 < |t| ==> StepAt(c, t, i)
  }

  ghost predicate StepAt(c: Config, t: seq<RunState>, i: nat)
    requires i + 1 < |t|
  {
    Next(c, t[i], t[i + 1])
  }

  ghost predicate Reachable(c: Config, s: RunState) {
    exists t :: Run(c, t) && t[|t| - 1] == s
  }

  // ---- the invariant ----

  /** Registered, and the sender not yet removed by the run. */
  predicate AtGate(p: Phase) {
    p.Announcing? || p.Notifying? || p.Waiting? || p.Cleaning?
  }

  /** Between two tests, or at the end. */
  predicate Between(p: Phase) {
    p.Head? || p.Reporting? || p.Ended?
  }

  /** At the gate or past it; a run may also end there. */
  predicate FromGate(p: Phase) {
    AtGate(p) || p.Budgeting? || p.Holding? || p.InFlight? || p.Ended?
  }

  predicate NeedsApproval(c: Config, i: nat) {
    i < |c.tests| && c.tests[i].destructive && c.channel
  }

  /** Ticket k lets test i through: an approved registration of its own, if it needs one. */
  predicate Cleared(c: Config, s: RunState, i: nat, k: Option<Ticket>) {
    && i < |c.tests| && c.tests[i].inScope
    && if NeedsApproval(c, i)
       then k.Some? && k.value < |s.tickets| && s.tickets[k.value] == i && k.value in s.answers && s.answers[k.value]
       else k == None
  }

  /** The pending map holds at most the current registration, and only at the gate. */
  ghost predicate Gate(c: Config, s: RunState) {
    match s.phase
    case Announcing(t) => Registered(c, s, t)
    case Notifying(t) => Registered(c, s, t)
    case Waiting(t) => Registered(c, s, t)
    case Cleaning(t, approved) => Registered(c, s, t) && (approved ==> t in s.answers && s.answers[t])
    case Budgeting(k) => s.pending == map[] && Cleared(c, s, s.index, k)
    case Holding(k) => s.pending == map[] && Cleared(c, s, s.index, k)
    case InFlight(k) => s.pending == map[] && Cleared(c, s, s.index, k)
    case Registering => s.pending == map[] && NeedsApproval(c, s.index) && c.tests[s.index].inScope
    case _ => s.pending == map[]
  }

  /** Registration t is the current test's, and is either pending or answered. */
  ghost predicate Registered(c: Config, s: RunState, t: Ticket) {
    && NeedsApproval(c, s.index) && c.tests[s.index].inScope
    && t == |s.tickets| - 1 && s.tickets[t] == s.index
    && s.pending == if t in s.answers then map[] else map[c.tests[s.index].id := t]
  }

  /** No test registers twice, and only registrations are answered. */
  ghost predicate Tickets(c: Config, s: RunState) {
    && (forall a, b | 0 <= a < b < |s.tickets| :: s.tickets[a] < s.tickets[b])
    && (forall a | 0 <= a < |s.tickets| :: s.tickets[a] <= s.index)
    && (forall a | 0 <= a < |s.tickets| && s.tickets[a] == s.index :: FromGate(s.phase))
    && (forall a | a in s.answers :: a < |s.tickets|)
  }

  /** What is on the wire was cleared, at most once per test, in plan order. */
  ghost predicate Wire(c: Config, s: RunState) {
    && (forall n | 0 <= n < |s.wire| :: Cleared(c, s, s.wire[n].test, s.wire[n].ticket))
    && (forall a, b | 0 <= a < b < |s.wire| :: s.wire[a].test < s.wire[b].test)
    && (forall n | 0 <= n < |s.wire| :: s.wire[n].test < s.index + (if s.phase.InFlight? then 1 else 0))
  }

  function Tests(wire: seq<Sent>): (r: seq<nat>)
    ensures |r| == |wire|
    ensures forall i | 0 <= i < |r| :: r[i] == wire[i].test
  {
    seq(|wire|, i requires 0 <= i < |wire| => wire[i].test)
  }

  /** Every test before the current one was skipped or sent; slots are conserved. */
  ghost predicate Ledger(c: Config, s: RunState) {
    && s.index <= |c.tests| && (!Between(s.phase) ==> s.index < |c.tests|)
    && s.requestsSent == |s.wire|
    && Tests(s.wire) == s.findings + (if s.phase.InFlight? then [s.index] else [])
    && s.skipped + |s.findings| == s.index
    && s.remaining + |s.wire| + (if s.phase.Holding? then 1 else 0) == c.maxRequests
  }

  ghost predicate Stops(c: Config, s: RunState) {
    && (s.phase != Ended ==> s.stop == Completed)
    && (s.phase == Ended && s.stop == Completed ==> s.index == |c.tests|)
    && (s.stop in {BudgetExhausted, DurationExceeded} ==> s.remaining == 0)
    && (s.stop == DurationExceeded ==> s.overdue)
    && (s.stop == Cancelled ==> s.cancelled)
    && (s.stop != Completed ==> s.index < |c.tests|)
    && (s.overdue ==> c.timed)
  }

  ghost predicate Inv(c: Config, s: RunState) {
    Gate(c, s) && Tickets(c, s) && Wire(c, s) && Ledger(c, s) && Stops(c, s)
  }

  lemma StartHolds(c: Config)
    ensures Inv(c, Start(c))
  {
    assert Tests([]) == [];
  }

  // ---- preservation ----

  /** Nothing that clears a test is ever taken back. */
  lemma ClearedStays(c: Config, s: RunState, s': RunState, i: nat, k: Option<Ticket>)
    requires Cleared(c, s, i, k)
    requires s.tickets <= s'.tickets && forall t | t in s.answers :: t in s'.answers && s'.answers[t] == s.answers[t]
    ensures Cleared(c, s', i, k)
  {
    if k.Some? { assert s'.tickets[k.value] == s.tickets[k.value]; }
  }

  /** What one move of the run writes down, phase by phase. */
  ghost predicate MoveLogs(s: RunState, s': RunState) {
    && s'.answers == s.answers && s'.cancelled == s.cancelled && s'.overdue == s.overdue
    && s'.tickets == (if s.phase.Registering? then s.tickets + [s.index] else s.tickets)
    && s'.wire == (if s.phase.Holding? then s.wire + [Sent(s.index, s.phase.pass)] else s.wire)
    && s'.requestsSent == s.requestsSent + (if s.phase.Holding? then 1 else 0)
    && s'.findings == (if s.phase.InFlight? then s.findings + [s.index] else s.findings)
  }

  /** Where one move takes the run. */
  ghost predicate MovePlace(c: Config, s: RunState, s': RunState) {
    && (s'.phase.InFlight? <==> s.phase.Holding?)
    && (s.phase.InFlight? ==> s'.phase == Reporting && s'.index == s.index + 1)
    && (s'.index == s.index || (s'.index == s.index + 1 <= |c.tests| && s'.phase == Reporting))
    && s'.skipped == s.skipped + (if s.phase.InFlight? then 0 else s'.index - s.index)
    && s'.remaining + (if s'.phase.Holding? then 1 else 0) == s.remaining
    && (!Between(s'.phase) ==> s.index < |c.tests|)
    && (s'.index == s.index && (s.phase.Registering? || FromGate(s.phase)) ==> FromGate(s'.phase))
  }

  ghost predicate MoveShape(c: Config, s: RunState, s': RunState) {
    MoveLogs(s, s') && MovePlace(c, s, s')
  }

  lemma MoveHasLogs(c: Config, s: RunState, m: Move)
    requires CanMove(c, s, m)
    ensures MoveLogs(s, MoveOn(c, s, m))
  {
  }

  lemma MoveHasPlace(c: Config, s: RunState, m: Move)
    requires CanMove(c, s, m) && (!Between(s.phase) ==> s.index < |c.tests|)
    ensures MovePlace(c, s, MoveOn(c, s, m))
  {
  }

  lemma MoveHasShape(c: Config, s: RunState, m: Move)
    requires CanMove(c, s, m) && (!Between(s.phase) ==> s.index < |c.tests|)
    ensures MoveShape(c, s, MoveOn(c, s, m))
  {
    MoveHasLogs(c, s, m);
    MoveHasPlace(c, s, m);
  }

  lemma GateMove(c: Config, s: RunState, m: Move)
    requires Gate(c, s) && Tickets(c, s) && CanMove(c, s, m)
    ensures Gate(c, MoveOn(c, s, m))
  {
    if AtGate(s.phase) {
      GateMoveAtGate(c, s, m);
    } else {
      GateMoveElsewhere(c, s, m);
    }
  }

  lemma GateMoveAtGate(c: Config, s: RunState, m: Move)
    requires Gate(c, s) && CanMove(c, s, m) && AtGate(s.phase)
    ensures Gate(c, MoveOn(c, s, m))
  {
    assert Registered(c, s, s.phase.ticket);
  }

  lemma GateMoveElsewhere(c: Config, s: RunState, m: Move)
    requires Gate(c, s) && Tickets(c, s) && CanMove(c, s, m) && !AtGate(s.phase)
    ensures Gate(c, MoveOn(c, s, m))
  {
    if s.phase.Registering? {
      assert |s.tickets| !in s.answers;
    }
  }

  lemma TicketsMove(c: Config, s: RunState, s': RunState)
    requires Tickets(c, s) && MoveShape(c, s, s')
    ensures Tickets(c, s')
  {
  }

  lemma WireMove(c: Config, s: RunState, s': RunState)
    requires Gate(c, s) && Wire(c, s) && MoveShape(c, s, s')
    ensures Wire(c, s')
  {
    forall n | 0 <= n < |s'.wire| ensures Cleared(c, s', s'.wire[n].test, s'.wire[n].ticket) {
      ClearedStays(c, s, s', s'.wire[n].test, s'.wire[n].ticket);
    }
  }

  lemma TestsAppend(wire: seq<Sent>, sent: Sent)
    ensures Tests(wire + [sent]) == Tests(wire) + [sent.test]
  {
  }

  lemma LedgerMove(c: Config, s: RunState, s': RunState)
    requires Ledger(c, s) && MoveShape(c, s, s')
    requires Between(s'.phase) || s.index < |c.tests|
    requires s.phase.Holding? ==> s'.remaining == s.remaining
    ensures s'.requestsSent == |s'.wire| && s'.skipped + |s'.findings| == s'.index <= |c.tests|
    ensures Tests(s'.wire) == s'.findings + (if s'.phase.InFlight? then [s'.index] else [])
  {
    assert s.findings + [] == s.findings && s'.findings + [] == s'.findings;
    if s.phase.Holding? {
      TestsAppend(s.wire, Sent(s.index, s.phase.pass));
    }
  }

  lemma MoveKeeps(c: Config, s: RunState, m: Move)
    requires Inv(c, s) && CanMove(c, s, m)
    ensures Inv(c, MoveOn(c, s, m))
  {
    MoveHasShape(c, s, m);
    GateMove(c, s, m);
    TicketsMove(c, s, MoveOn(c, s, m));
    WireMove(c, s, MoveOn(c, s, m));
    LedgerMove(c, s, MoveOn(c, s, m));
    StopsMove(c, s, m);
  }

  lemma StopsMove(c: Config, s: RunState, m: Move)
    requires Stops(c, s) && CanMove(c, s, m) && s.index <= |c.tests| && (!Between(s.phase) ==> s.index < |c.tests|)
    ensures Stops(c, MoveOn(c, s, m))
  {
  }

  /** The other parties change nothing of the run's own but the answers and the token. */
  ghost predicate SameRun(s: RunState, s': RunState) {
    && s'.index == s.index && s'.phase == s.phase && s'.tickets == s.tickets && s'.wire == s.wire
    && s'.findings == s.findings && s'.skipped == s.skipped && s'.requestsSent == s.requestsSent
    && s'.remaining == s.remaining && s'.stop == s.stop && (s.cancelled ==> s'.cancelled)
    && (s.overdue ==> s'.overdue)
    && (forall r | r in s.answers :: r in s'.answers && s'.answers[r] == s.answers[r])
  }

  lemma SameRunKeepsWire(c: Config, s: RunState, s': RunState)
    requires Wire(c, s) && SameRun(s, s')
    ensures Wire(c, s')
  {
    forall n | 0 <= n < |s.wire| ensures Cleared(c, s', s.wire[n].test, s.wire[n].ticket) {
      ClearedStays(c, s, s', s.wire[n].test, s.wire[n].ticket);
    }
  }

  lemma SameRunKeepsLedger(c: Config, s: RunState, s': RunState)
    requires Ledger(c, s) && Stops(c, s) && SameRun(s, s') && (s'.overdue ==> c.timed)
    ensures Ledger(c, s') && Stops(c, s')
  {
  }

  /** A pending sender is the current test's. */
  lemma PendingIsCurrent(c: Config, s: RunState, id: string)
    requires Gate(c, s) && id in s.pending
    ensures AtGate(s.phase) && Registered(c, s, s.phase.ticket) && s.phase.ticket !in s.answers
    ensures id == c.tests[s.index].id && s.pending == map[id := s.phase.ticket]
  {
  }

  lemma ConfirmKeepsGate(c: Config, s: RunState, id: string, approved: bool)
    requires Gate(c, s) && id in s.pending
    ensures Gate(c, Confirm(s, id, approved).0)
  {
    PendingIsCurrent(c, s, id);
    assert s.pending - {id} == map[];
  }

  lemma ConfirmKeeps(c: Config, s: RunState, id: string, approved: bool)
    requires Inv(c, s)
    ensures Inv(c, Confirm(s, id, approved).0)
  {
    if id in s.pending {
      var s' := Confirm(s, id, approved).0;
      ConfirmKeepsGate(c, s, id, approved);
      PendingIsCurrent(c, s, id);
      assert SameRun(s, s');
      SameRunKeepsWire(c, s, s');
      SameRunKeepsLedger(c, s, s');
    }
  }

  lemma NextKeeps(c: Config, s: RunState, s': RunState)
    requires Inv(c, s) && Next(c, s, s')
    ensures Inv(c, s')
  {
    if Outside(c, s, s') {
      OutsideKeeps(c, s, s');
    } else if id, approved :| s' == Confirm(s, id, approved).0 {
      ConfirmKeeps(c, s, id, approved);
    } else {
      var m :| CanMove(c, s, m) && s' == MoveOn(c, s, m);
      MoveKeeps(c, s, m);
    }
  }

  lemma SameGate(c: Config, s: RunState, s': RunState)
    requires Gate(c, s) && SameRun(s, s') && s'.pending == s.pending && s'.answers == s.answers
    ensures Gate(c, s')
  {
  }

  /** The token and the readers leave alone what the invariant speaks of. */
  lemma OutsideKeeps(c: Config, s: RunState, s': RunState)
    requires Inv(c, s) && Outside(c, s, s')
    ensures Inv(c, s')
  {
    assert SameRun(s, s');
    SameGate(c, s, s');
    SameRunKeepsWire(c, s, s');
    SameRunKeepsLedger(c, s, s');
  }

  lemma {:induction false} RunHolds(c: Config, t: seq<RunState>, k: nat)
    requires Run(c, t) && k < |t|
    ensures Inv(c, t[k])
  {
    if k == 0 {
      StartHolds(c);
    } else {
      RunHolds(c, t, k - 1);
      assert StepAt(c, t, k - 1);
      NextKeeps(c, t[k - 1], t[k]);
    }
  }

  // ---- what every reachable state guarantees ----

  /** Main result, over every interleaving of the run, the endpoint, the timer and the token:
      requests sent are the findings recorded (and the one in flight), never more than
      `max_requests`; every test passed by was skipped or sent; nothing is pending away from
      the gate; no test is sent or registered twice. */
  lemma RunIsSafe(c: Config, s: RunState)
    requires Reachable(c, s)
    ensures s.requestsSent == |s.findings| + (if s.phase.InFlight? then 1 else 0) <= c.maxRequests
    ensures s.skipped + |s.findings| == s.index <= |c.tests|
    ensures !AtGate(s.phase) ==> s.pending == map[]
    ensures |s.pending| <= 1
    ensures Distinct(Tests(s.wire)) && Distinct(s.tickets)
    ensures forall n | 0 <= n < |s.wire| :: Cleared(c, s, s.wire[n].test, s.wire[n].ticket)
  {
    var t :| Run(c, t) && t[|t| - 1] == s;
    RunHolds(c, t, |t| - 1);
  }

  /** A run that ends Completed has dealt with every test; one stopped by the budget has
      spent all of it; one stopped as cancelled was cancelled. */
  lemma EndMeaning(c: Config, s: RunState)
    requires Reachable(c, s) && s.phase == Ended
    ensures s.requestsSent == |s.findings|
    ensures s.stop == Completed ==> s.skipped + |s.findings| == |c.tests|
    ensures s.stop == Completed <==> s.index == |c.tests|
    ensures s.stop in {BudgetExhausted, DurationExceeded} ==> |s.findings| == c.maxRequests
    ensures s.stop == DurationExceeded ==> s.overdue && c.timed
    ensures s.stop == Cancelled ==> s.cancelled
    ensures s.stop in {Completed, BudgetExhausted, DurationExceeded, Cancelled}
  {
    var t :| Run(c, t) && t[|t| - 1] == s;
    RunHolds(c, t, |t| - 1);
    StopIsOneOfFour(c, t, |t| - 1);
  }

  lemma {:induction false} StopIsOneOfFour(c: Config, t: seq<RunState>, k: nat)
    requires Run(c, t) && k < |t|
    ensures t[k].stop != ScopeViolation
  {
    if k > 0 {
      StopIsOneOfFour(c, t, k - 1);
      assert StepAt(c, t, k - 1);
      StopStep(c, t[k - 1], t[k]);
    }
  }

  lemma StopStep(c: Config, s: RunState, s': RunState)
    requires Next(c, s, s')
    ensures s'.stop == ScopeViolation ==> s.stop == ScopeViolation
  {
    if m :| CanMove(c, s, m) && s' == MoveOn(c, s, m) {
      assert s'.stop == s.stop || s.phase.Head? || s.phase.Budgeting?;
    } else {
      assert s'.stop == s.stop;
    }
  }

  /** About to send on a channel that is full and has its receiver. */
  predicate Blocked(c: Config, s: RunState) {
    || (s.phase.Announcing? && s.requests.open && s.requests.unread >= c.requestRoom)
    || ((s.phase.Notifying? || s.phase.Reporting?) && s.events.open && s.events.unread >= c.eventRoom)
  }

  /** The run can go on until it is done, exactly when it is not before a full channel: the
      timer ends every wait, but is not running yet while the request is being sent. */
  lemma StuckIffBlocked(c: Config, s: RunState)
    requires Reachable(c, s) && s.phase != Ended
    ensures (exists m :: CanMove(c, s, m)) <==> !Blocked(c, s)
  {
    var t :| Run(c, t) && t[|t| - 1] == s;
    RunHolds(c, t, |t| - 1);
    if s.phase.Waiting? {
      assert CanMove(c, s, ByTimer);
    } else if !Blocked(c, s) {
      assert CanMove(c, s, Go);
    }
  }

  lemma BlockedStep(c: Config, s: RunState, s': RunState)
    requires Next(c, s, s') && Blocked(c, s) && !Reads(s, s')
    ensures s'.phase == s.phase && s'.wire == s.wire && s'.requests == s.requests && s'.events == s.events
  {
    assert forall m :: !CanMove(c, s, m);
  }

  /** A run before a full channel stays there, cancelled or answered, until a receiver takes a
      message out or goes away. */
  lemma {:induction false} BlockedUntilRead(c: Config, t: seq<RunState>, j: nat, k: nat)
    requires Run(c, t) && j <= k < |t| && Blocked(c, t[j])
    requires forall l: nat | j <= l < k :: !Reads(t[l], t[l + 1])
    ensures t[k].phase == t[j].phase && t[k].wire == t[j].wire && Blocked(c, t[k])
    decreases k
  {
    if j < k {
      BlockedUntilRead(c, t, j, k - 1);
      assert StepAt(c, t, k - 1) && !Reads(t[k - 1], t[k]);
      BlockedStep(c, t[k - 1], t[k]);
    }
  }

  // ---- answers ----

  /** The step in which registration r gets its answer. */
  ghost predicate Answers(s: RunState, s': RunState, r: Ticket, approved: bool) {
    r !in s.answers && r in s'.answers && s'.answers[r] == approved
  }

  /** An answer comes from the endpoint, asked for the id of the very test that registered,
      while that registration is pending; and it is never changed. */
  lemma AnswerStep(c: Config, s: RunState, s': RunState, r: Ticket)
    requires Inv(c, s) && Next(c, s, s')
    ensures r in s.answers ==> r in s'.answers && s'.answers[r] == s.answers[r]
    ensures r !in s.answers && r in s'.answers ==>
              && AtGate(s.phase) && r == s.phase.ticket && s.tickets[r] == s.index
              && s' == Confirm(s, c.tests[s.index].id, s'.answers[r]).0
  {
    if id, approved :| s' == Confirm(s, id, approved).0 && id in s.pending {
      PendingIsCurrent(c, s, id);
    } else {
      OnlyConfirmAnswers(c, s, s');
    }
  }

  lemma OnlyConfirmAnswers(c: Config, s: RunState, s': RunState)
    requires Next(c, s, s') && !exists id, approved :: s' == Confirm(s, id, approved).0 && id in s.pending
    ensures s'.answers == s.answers
  {
    if m :| CanMove(c, s, m) && s' == MoveOn(c, s, m) { MoveHasLogs(c, s, m); }
  }

  /** Tickets, requests and answers are only ever added. */
  ghost predicate Grows(s: RunState, s': RunState) {
    && s.tickets <= s'.tickets && s.wire <= s'.wire
    && forall r | r in s.answers :: r in s'.answers && s'.answers[r] == s.answers[r]
  }

  lemma NextGrows(c: Config, s: RunState, s': RunState)
    requires Inv(c, s) && Next(c, s, s')
    ensures Grows(s, s')
  {
    forall r | r in s.answers ensures r in s'.answers && s'.answers[r] == s.answers[r] {
      AnswerStep(c, s, s', r);
    }
    if m :| CanMove(c, s, m) && s' == MoveOn(c, s, m) {
      MoveHasShape(c, s, m);
    }
  }

  lemma {:induction false} RunGrows(c: Config, t: seq<RunState>, j: nat, k: nat)
    requires Run(c, t) && j <= k < |t|
    ensures Grows(t[j], t[k])
    decreases k
  {
    if j < k {
      RunGrows(c, t, j, k - 1);
      RunHolds(c, t, k - 1);
      assert StepAt(c, t, k - 1);
      NextGrows(c, t[k - 1], t[k]);
    }
  }

  /** Each registration is answered at most once in a run. */
  lemma AnsweredAtMostOnce(c: Config, t: seq<RunState>, j: nat, k: nat, r: Ticket, x: bool, y: bool)
    requires Run(c, t) && j < |t| - 1 && k < |t| - 1
    requires Answers(t[j], t[j + 1], r, x) && Answers(t[k], t[k + 1], r, y)
    ensures j == k && x == y
  {
    if j < k { RunGrows(c, t, j + 1, k); }
    if k < j { RunGrows(c, t, k + 1, j); }
  }

  lemma {:induction false} AnswerHasStep(c: Config, t: seq<RunState>, k: nat, r: Ticket) returns (j: nat)
    requires Run(c, t) && k < |t| && r in t[k].answers
    ensures j < k && Answers(t[j], t[j + 1], r, t[k].answers[r])
  {
    assert k > 0;
    RunHolds(c, t, k - 1);
    assert StepAt(c, t, k - 1);
    AnswerStep(c, t[k - 1], t[k], r);
    if r in t[k - 1].answers {
      j := AnswerHasStep(c, t, k - 1, r);
    } else {
      j := k - 1;
    }
  }

  /** An approving call of the endpoint for test i, through registration r. */
  ghost predicate Approves(c: Config, s: RunState, s': RunState, i: nat, r: Ticket) {
    && i < |c.tests| && s.index == i && AtGate(s.phase) && s.phase.ticket == r
    && Confirm(s, c.tests[i].id, true) == (s', true)
  }

  /** Main result: with a confirmation channel, a destructive test is on the wire only if
      earlier in the run the endpoint approved that very registration, while the run stood
      at the gate of that very test and before the test was sent. */
  lemma ApprovalPrecedesSending(c: Config, t: seq<RunState>, k: nat, n: nat) returns (j: nat, r: Ticket)
    requires Run(c, t) && k < |t| && n < |t[k].wire|
    requires c.channel && t[k].wire[n].test < |c.tests| && c.tests[t[k].wire[n].test].destructive
    ensures j < k && Approves(c, t[j], t[j + 1], t[k].wire[n].test, r)
    ensures t[k].wire[n].ticket == Some(r)
    ensures t[k].wire[n].test !in Tests(t[j + 1].wire)
  {
    RunHolds(c, t, k);
    var sent := t[k].wire[n];
    assert Cleared(c, t[k], sent.test, sent.ticket);
    r := sent.ticket.value;
    j := AnswerHasStep(c, t, k, r);
    RunHolds(c, t, j);
    assert StepAt(c, t, j);
    AnswerStep(c, t[j], t[j + 1], r);
    RunGrows(c, t, j, k);
    assert t[j].pending == map[c.tests[t[j].index].id := r];
    assert t[j + 1].wire == t[j].wire;
    assert forall a | 0 <= a < |t[j].wire| :: t[j].wire[a].test < t[j].index;
  }

  // ---- cancellation ----

  /** Requests sent, and the one the current test may still send. */
  function MaySend(s: RunState): nat {
    |s.wire| + (if Between(s.phase) || s.phase.InFlight? then 0 else 1)
  }

  lemma CancelledStep(c: Config, s: RunState, s': RunState)
    requires s.cancelled && Next(c, s, s')
    ensures s'.cancelled && MaySend(s') <= MaySend(s)
  {
    if m :| CanMove(c, s, m) && s' == MoveOn(c, s, m) {
      MoveHasLogs(c, s, m);
    } else {
      assert s'.phase == s.phase && s'.wire == s.wire;
    }
  }

  /** Once cancelled, a run sends at most the request of the test it is at. */
  lemma {:induction false} CancelStopsSoon(c: Config, t: seq<RunState>, j: nat, k: nat)
    requires Run(c, t) && j <= k < |t| && t[j].cancelled
    ensures t[k].cancelled && MaySend(t[k]) <= MaySend(t[j])
    ensures |t[k].wire| <= |t[j].wire| + 1
    decreases k
  {
    if j < k {
      CancelStopsSoon(c, t, j, k - 1);
      assert StepAt(c, t, k - 1);
      CancelledStep(c, t[k - 1], t[k]);
    }
  }

  // ---- what becomes of an approval ----

  ghost predicate OnWire(s: RunState, i: nat) {
    exists n | 0 <= n < |s.wire| :: s.wire[n].test == i
  }

  /** The wait for registration r ends by its answer: the select takes that branch. */
  predicate TakesAnswer(c: Config, s: RunState, s': RunState, r: Ticket) {
    s.phase == Waiting(r) && CanMove(c, s, ByAnswer) && s' == MoveOn(c, s, ByAnswer)
  }

  /** Where a run may be after test i was approved through registration r, with so many
      slots left: `taken` says whether the wait ended by the answer. */
  ghost predicate Fate(s: RunState, i: nat, r: Ticket, slots: nat, taken: bool) {
    && r in s.answers && s.answers[r] && r < |s.tickets| && s.tickets[r] == i
    && if taken then
         || (s.index == i && s.phase == Cleaning(r, true) && s.remaining == slots && !OnWire(s, i))
         || (s.index == i && s.phase == Budgeting(Some(r)) && s.remaining == slots && !OnWire(s, i))
         || (s.index == i && s.phase == Holding(Some(r)) && slots > 0 && !OnWire(s, i))
         || (s.index == i && s.phase == InFlight(Some(r)) && slots > 0 && OnWire(s, i))
         || (s.index == i && s.phase == Ended && slots == 0 && !OnWire(s, i))
         || (s.index > i && slots > 0 && OnWire(s, i))
       else
         !OnWire(s, i) && (s.index > i || (s.index == i && (s.phase == Cleaning(r, false)
           || (s.phase in {Announcing(r), Notifying(r), Waiting(r)} && s.remaining == slots))))
  }

  lemma WireAfterMove(c: Config, s: RunState, m: Move, i: nat)
    requires CanMove(c, s, m)
    ensures OnWire(MoveOn(c, s, m), i) <==> OnWire(s, i) || (s.phase.Holding? && s.index == i)
  {
    var s' := MoveOn(c, s, m);
    if s.phase.Holding? {
      assert s'.wire[|s.wire|].test == s.index;
      if n :| 0 <= n < |s.wire| && s.wire[n].test == i { assert s'.wire[n].test == i; }
    }
  }

  lemma FateAfterMove(c: Config, s: RunState, m: Move, i: nat, r: Ticket, slots: nat, taken: bool)
    requires Gate(c, s) && Fate(s, i, r, slots, taken) && CanMove(c, s, m)
    ensures Fate(MoveOn(c, s, m), i, r, slots, taken || TakesAnswer(c, s, MoveOn(c, s, m), r))
  {
    WireAfterMove(c, s, m, i);
  }

  lemma FateStep(c: Config, s: RunState, s': RunState, i: nat, r: Ticket, slots: nat, taken: bool)
    requires Inv(c, s) && Next(c, s, s') && Fate(s, i, r, slots, taken)
    ensures Fate(s', i, r, slots, taken || TakesAnswer(c, s, s', r))
  {
    if m :| CanMove(c, s, m) && s' == MoveOn(c, s, m) {
      FateAfterMove(c, s, m, i, r, slots, taken);
    } else {
      AnswerStep(c, s, s', r);
      FateElsewhere(c, s, s', i, r, slots, taken);
    }
  }

  /** The other parties leave a test's fate as it is. */
  lemma FateElsewhere(c: Config, s: RunState, s': RunState, i: nat, r: Ticket, slots: nat, taken: bool)
    requires Next(c, s, s') && Fate(s, i, r, slots, taken) && r in s'.answers && s'.answers[r] == s.answers[r]
    requires !exists m :: CanMove(c, s, m) && s' == MoveOn(c, s, m)
    ensures Fate(s', i, r, slots, taken || TakesAnswer(c, s, s', r))
  {
    assert s'.wire == s.wire && s'.phase == s.phase && s'.index == s.index && s'.remaining == s.remaining;
    assert OnWire(s', i) <==> OnWire(s, i);
  }

  /** Some step between j and k ends the wait by the answer. */
  ghost predicate Taken(c: Config, t: seq<RunState>, j: nat, k: nat, r: Ticket)
    requires k < |t|
  {
    exists l: nat :: j < l < k && TakesAt(c, t, l, r)
  }

  ghost predicate TakesAt(c: Config, t: seq<RunState>, l: nat, r: Ticket)
    requires l + 1 < |t|
  {
    TakesAnswer(c, t[l], t[l + 1], r)
  }

  lemma FateAtApproval(c: Config, s: RunState, s': RunState, i: nat, r: Ticket)
    requires Gate(c, s) && Wire(c, s) && Approves(c, s, s', i, r)
    ensures Fate(s', i, r, s.remaining, false)
  {
    PendingIsCurrent(c, s, c.tests[i].id);
    assert !OnWire(s, i);
    assert OnWire(s', i) <==> OnWire(s, i);
  }

  lemma {:induction false} FateAlongRun(c: Config, t: seq<RunState>, j: nat, k: nat, i: nat, r: Ticket)
    requires Run(c, t) && j < k < |t| && Approves(c, t[j], t[j + 1], i, r)
    ensures Fate(t[k], i, r, t[j].remaining, Taken(c, t, j, k, r))
    decreases k
  {
    if k == j + 1 {
      RunHolds(c, t, j);
      FateAtApproval(c, t[j], t[k], i, r);
    } else {
      FateAlongRun(c, t, j, k - 1, i, r);
      RunHolds(c, t, k - 1);
      assert StepAt(c, t, k - 1);
      FateStep(c, t[k - 1], t[k], i, r, t[j].remaining, Taken(c, t, j, k - 1, r));
      TakenStep(c, t, j, k, r);
    }
  }

  lemma TakenStep(c: Config, t: seq<RunState>, j: nat, k: nat, r: Ticket)
    requires j < k - 1 && k < |t|
    ensures Taken(c, t, j, k, r) <==> Taken(c, t, j, k - 1, r) || TakesAnswer(c, t[k - 1], t[k], r)
  {
    if Taken(c, t, j, k, r) {
      var l: nat :| j < l < k && TakesAt(c, t, l, r);
      assert l < k - 1 || l == k - 1;
    }
    if TakesAnswer(c, t[k - 1], t[k], r) {
      assert TakesAt(c, t, k - 1, r);
    }
  }

  /** Main result, over every run: once the run is past test i, an approval the endpoint
      accepted has led to a request exactly when the wait ended by the answer and a slot was
      left; and it got as far as the budget exactly when the wait ended by the answer. */
  lemma ApprovalHonouredIff(c: Config, t: seq<RunState>, j: nat, k: nat, i: nat, r: Ticket)
    requires Run(c, t) && j < k < |t| && Approves(c, t[j], t[j + 1], i, r)
    requires t[k].index > i || t[k].phase == Ended
    ensures i in Tests(t[k].wire) <==> Taken(c, t, j, k, r) && t[j].remaining > 0
    ensures (exists l: nat :: j < l <= k && t[l].phase == Budgeting(Some(r))) <==> Taken(c, t, j, k, r)
  {
    FateAlongRun(c, t, j, k, i, r);
    OnWireIsTests(t[k], i);
    if l: nat :| j < l <= k && t[l].phase == Budgeting(Some(r)) {
      BudgetingIsTaken(c, t, j, l, i, r);
      var n: nat :| j < n < l && TakesAt(c, t, n, r);
    }
    if Taken(c, t, j, k, r) {
      var n := TakenReachesBudget(c, t, j, k, i, r);
    }
  }

  lemma TakenReachesBudget(c: Config, t: seq<RunState>, j: nat, k: nat, i: nat, r: Ticket) returns (n: nat)
    requires Run(c, t) && j < k < |t| && Approves(c, t[j], t[j + 1], i, r) && Taken(c, t, j, k, r)
    requires t[k].index > i || t[k].phase == Ended
    ensures j < n <= k && t[n].phase == Budgeting(Some(r))
  {
    var l: nat :| j < l < k && TakesAt(c, t, l, r);
    FateAlongRun(c, t, j, l, i, r);
    RunHolds(c, t, l);
    assert t[l + 1].phase == Cleaning(r, true) && t[l + 1].index == i;
    n := ReachesBudget(c, t, l + 1, k, i, r);
  }

  lemma BudgetingIsTaken(c: Config, t: seq<RunState>, j: nat, l: nat, i: nat, r: Ticket)
    requires Run(c, t) && j < l < |t| && Approves(c, t[j], t[j + 1], i, r) && t[l].phase == Budgeting(Some(r))
    ensures Taken(c, t, j, l, r)
  {
    FateAlongRun(c, t, j, l, i, r);
    RunHolds(c, t, l);
    assert t[l].index == i;
  }

  /** From the clean-up after an approval the run goes to the budget. */
  lemma {:induction false} ReachesBudget(c: Config, t: seq<RunState>, l: nat, k: nat, i: nat, r: Ticket)
    returns (n: nat)
    requires Run(c, t) && l < k < |t| && t[l].phase == Cleaning(r, true) && t[l].index == i
    requires t[k].index > i || t[k].phase == Ended
    ensures l < n <= k && t[n].phase == Budgeting(Some(r))
    decreases k - l
  {
    assert StepAt(c, t, l);
    if t[l + 1].phase == Cleaning(r, true) {
      n := ReachesBudget(c, t, l + 1, k, i, r);
    } else {
      n := l + 1;
    }
  }

  lemma OnWireIsTests(s: RunState, i: nat)
    ensures OnWire(s, i) <==> i in Tests(s.wire)
  {
    forall n | 0 <= n < |s.wire| ensures s.wire[n].test == Tests(s.wire)[n] {}
  }

  /** The run has given up on test i, and not sent it. */
  ghost predicate Lost(s: RunState, i: nat, r: Ticket) {
    !OnWire(s, i) && (s.index > i || (s.index == i && s.phase == Cleaning(r, false)))
  }

  lemma LostStep(c: Config, s: RunState, s': RunState, i: nat, r: Ticket)
    requires Next(c, s, s') && Lost(s, i, r)
    ensures Lost(s', i, r)
  {
    if m :| CanMove(c, s, m) && s' == MoveOn(c, s, m) {
      LostMove(c, s, m, i, r);
    } else {
      assert s'.wire == s.wire && s'.index == s.index && s'.phase == s.phase;
      assert OnWire(s', i) <==> OnWire(s, i);
    }
  }

  lemma LostMove(c: Config, s: RunState, m: Move, i: nat, r: Ticket)
    requires CanMove(c, s, m) && Lost(s, i, r)
    ensures Lost(MoveOn(c, s, m), i, r)
  {
    WireAfterMove(c, s, m, i);
  }

  lemma {:induction false} LostForGood(c: Config, t: seq<RunState>, j: nat, k: nat, i: nat, r: Ticket)
    requires Run(c, t) && j <= k < |t| && Lost(t[j], i, r)
    ensures Lost(t[k], i, r)
    decreases k
  {
    if j < k {
      LostForGood(c, t, j, k - 1, i, r);
      assert StepAt(c, t, k - 1);
      LostStep(c, t[k - 1], t[k], i, r);
    }
  }

  /** An approval given after the wait has ended is always lost: its test is never sent. */
  lemma LateApprovalIsLost(c: Config, t: seq<RunState>, j: nat, k: nat, i: nat, r: Ticket)
    requires Run(c, t) && j + 1 < |t| && k < |t| && Approves(c, t[j], t[j + 1], i, r) && t[j].phase.Cleaning?
    ensures i !in Tests(t[k].wire)
  {
    RunHolds(c, t, j);
    assert Lost(t[j], i, r);
    if j <= k {
      LostForGood(c, t, j, k, i, r);
    } else {
      RunGrows(c, t, k, j);
      assert forall n | 0 <= n < |t[k].wire| :: t[k].wire[n].test == t[j].wire[n].test < i;
    }
    OnWireIsTests(t[k], i);
  }

  lemma Extend(c: Config, t: seq<RunState>, s: RunState)
    requires Run(c, t) && Next(c, t[|t| - 1], s)
    ensures Run(c, t + [s])
  {
    var u := t + [s];
    forall i: nat | i + 1 < |u| ensures StepAt(c, u, i) {
      if i + 1 < |t| { assert StepAt(c, t, i); }
    }
  }

  lemma ExtendByMove(c: Config, t: seq<RunState>, m: Move)
    requires Run(c, t) && CanMove(c, t[|t| - 1], m)
    ensures Run(c, t + [MoveOn(c, t[|t| - 1], m)])
  {
    Extend(c, t, MoveOn(c, t[|t| - 1], m));
  }

  /** One destructive test in scope, one slot, and the channels of the service. */
  function OneTest(id: string): Config {
    Config([Test(id, true, true)], true, 1, 8, true, 32, false)
  }

  /** The request and its event are out, and the run waits. */
  function Asked(id: string): RunState {
    Start(OneTest(id)).(
      phase := Waiting(0), pending := map[id := 0], tickets := [0], requests := Channel(1, true, 1),
      events := Channel(1, true, 1))
  }

  lemma RunAsks(id: string) returns (t: seq<RunState>)
    ensures Run(OneTest(id), t) && |t| == 6 && t[5] == Asked(id)
  {
    var c := OneTest(id);
    var s := Start(c);
    t := [s];
    for n := 0 to 5
      invariant |t| == n + 1 && Run(c, t) && t[n] == s
      invariant n == 0 ==> s == Start(c)
      invariant n == 1 ==> s == Start(c).(phase := Scoping)
      invariant n == 2 ==> s == Start(c).(phase := Registering)
      invariant n == 3 ==> s == Start(c).(phase := Announcing(0), pending := map[id := 0], tickets := [0])
      invariant n == 4 ==>
                  s == Start(c).(phase := Notifying(0), pending := map[id := 0], tickets := [0],
                                 requests := Channel(1, true, 1))
      invariant n == 5 ==> s == Asked(id)
    {
      assert [] + [0] == [0];
      ExtendByMove(c, t, Go);
      s := MoveOn(c, s, Go);
      t := t + [s];
    }
  }

  /** Such a run exists: the timer ends the wait, then the endpoint says yes, and the run
      ends with the test skipped. */
  lemma AcceptedApprovalMayBeLost(id: string) returns (t: seq<RunState>)
    ensures Run(OneTest(id), t) && |t| == 11
    ensures t[6].phase == Cleaning(0, false) && Confirm(t[6], id, true) == (t[7], true)
    ensures t[10].phase == Ended && t[10].stop == Completed && t[10].wire == [] && t[10].skipped == 1
  {
    var c := OneTest(id);
    t := RunAsks(id);
    ExtendByMove(c, t, ByTimer);
    var s6 := Asked(id).(phase := Cleaning(0, false));
    t := t + [s6];
    var s7 := Confirm(s6, id, true).0;
    assert Next(c, s6, s7);
    Extend(c, t, s7);
    t := t + [s7];
    ExtendByMove(c, t, Go);
    var s8 := MoveOn(c, s7, Go);
    t := t + [s8];
    ExtendByMove(c, t, Go);
    var s9 := MoveOn(c, s8, Go);
    t := t + [s9];
    ExtendByMove(c, t, Go);
    t := t + [MoveOn(c, s9, Go)];
  }

  /** What is sent of the destructive tests is approved exactly when there is a channel:
      with one, always; without one, never, since nothing is ever registered. */
  lemma SentIsApprovedIffChannel(c: Config, s: RunState, n: nat)
    requires Reachable(c, s) && n < |s.wire|
    requires s.wire[n].test < |c.tests| && c.tests[s.wire[n].test].destructive
    ensures c.channel <==> (
              var k := s.wire[n].ticket;
              k.Some? && k.value in s.answers && s.answers[k.value])
  {
    RunIsSafe(c, s);
    assert Cleared(c, s, s.wire[n].test, s.wire[n].ticket);
  }
}
