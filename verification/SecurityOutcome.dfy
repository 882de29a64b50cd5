/** What a security run does with each test of its plan: which are sent, which are skipped,
    which are asked about, and what is told to the outside. */
module SecurityOutcome {
  import opened Text
  import opened SecurityExecutor

  // ---- the tests that are past ----

  /** An ordinary test is sent, one out of scope is not, and one that needs approval has been
      registered for it. */
  ghost predicate PassedTest(c: Config, s: RunState, i: nat) {
    && i < |c.tests|
    && (!c.tests[i].inScope ==> !OnWire(s, i))
    && (c.tests[i].inScope && !NeedsApproval(c, i) ==> OnWire(s, i))
    && (c.tests[i].inScope && NeedsApproval(c, i) ==> i in s.tickets)
  }

  ghost predicate Passed(c: Config, s: RunState) {
    && (forall i: nat | i < s.index :: PassedTest(c, s, i))
    && (forall a | 0 <= a < |s.tickets| :: NeedsApproval(c, s.tickets[a]) && c.tests[s.tickets[a]].inScope)
  }

  /** What is sent or registered stays so; nothing else is sent of the tests that are past. */
  lemma PassedStays(c: Config, s: RunState, s': RunState, i: nat)
    requires PassedTest(c, s, i) && s.tickets <= s'.tickets && (OnWire(s', i) <==> OnWire(s, i))
    ensures PassedTest(c, s', i)
  {
    if i in s.tickets {
      var a :| 0 <= a < |s.tickets| && s.tickets[a] == i;
      assert s'.tickets[a] == i;
    }
  }

  /** The three ways to leave a test behind: refused by the scope guard, not approved, sent. */
  lemma LeavesTest(c: Config, s: RunState, m: Move)
    requires Inv(c, s) && CanMove(c, s, m) && MoveOn(c, s, m).index == s.index + 1
    ensures PassedTest(c, MoveOn(c, s, m), s.index)
  {
    match s.phase
    case Scoping => LeavesOutOfScope(c, s, m);
    case Cleaning(t, approved) => LeavesGate(c, s, m);
    case InFlight(k) => LeavesSent(c, s, m);
  }

  lemma NotYetOnWire(c: Config, s: RunState)
    requires Wire(c, s) && !s.phase.InFlight?
    ensures !OnWire(s, s.index)
  {
  }

  lemma LeavesOutOfScope(c: Config, s: RunState, m: Move)
    requires Wire(c, s) && CanMove(c, s, m) && s.phase.Scoping? && MoveOn(c, s, m).index == s.index + 1
    ensures PassedTest(c, MoveOn(c, s, m), s.index)
  {
    NotYetOnWire(c, s);
    WireAfterMove(c, s, m, s.index);
    assert !c.tests[s.index].inScope;
  }

  lemma LeavesGate(c: Config, s: RunState, m: Move)
    requires Gate(c, s) && CanMove(c, s, m) && s.phase.Cleaning?
    ensures PassedTest(c, MoveOn(c, s, m), s.index)
  {
    var t := s.phase.ticket;
    assert Registered(c, s, t) && MoveOn(c, s, m).tickets[t] == s.index;
  }

  lemma LeavesSent(c: Config, s: RunState, m: Move)
    requires Gate(c, s) && Ledger(c, s) && CanMove(c, s, m) && s.phase.InFlight?
    ensures PassedTest(c, MoveOn(c, s, m), s.index)
  {
    assert Tests(s.wire)[|s.wire| - 1] == s.index;
    assert s.wire[|s.wire| - 1].test == s.index;
    assert OnWire(s, s.index);
    WireAfterMove(c, s, m, s.index);
    var k := s.phase.pass;
    assert Cleared(c, s, s.index, k);
    if k.Some? { assert MoveOn(c, s, m).tickets[k.value] == s.tickets[k.value]; }
  }

  lemma PassedMove(c: Config, s: RunState, m: Move)
    requires Inv(c, s) && Passed(c, s) && CanMove(c, s, m)
    ensures Passed(c, MoveOn(c, s, m))
  {
    var s' := MoveOn(c, s, m);
    MoveHasShape(c, s, m);
    forall i: nat | i < s'.index ensures PassedTest(c, s', i) {
      if i < s.index {
        WireAfterMove(c, s, m, i);
        PassedStays(c, s, s', i);
      } else {
        LeavesTest(c, s, m);
      }
    }
  }

  lemma PassedElsewhere(c: Config, s: RunState, s': RunState)
    requires Passed(c, s) && s'.wire == s.wire && s'.tickets == s.tickets && s'.index == s.index
    ensures Passed(c, s')
  {
    forall i: nat | i < s'.index ensures PassedTest(c, s', i) {
      assert OnWire(s', i) <==> OnWire(s, i);
      PassedStays(c, s, s', i);
    }
  }

  lemma PassedStep(c: Config, s: RunState, s': RunState)
    requires Inv(c, s) && Passed(c, s) && Next(c, s, s')
    ensures Passed(c, s')
  {
    if m :| CanMove(c, s, m) && s' == MoveOn(c, s, m) {
      PassedMove(c, s, m);
    } else {
      PassedElsewhere(c, s, s');
    }
  }

  lemma {:induction false} PassedAlongRun(c: Config, t: seq<RunState>, k: nat)
    requires Run(c, t) && k < |t|
    ensures Passed(c, t[k])
  {
    if k > 0 {
      PassedAlongRun(c, t, k - 1);
      RunHolds(c, t, k - 1);
      assert StepAt(c, t, k - 1);
      PassedStep(c, t[k - 1], t[k]);
    }
  }

  // ---- what was skipped ----

  function Upto(n: nat): (r: set<nat>)
    ensures |r| == n && forall i: nat :: i in r <==> i < n
  {
    if n == 0 then {} else Upto(n - 1) + {n - 1}
  }

  ghost function Unsent(s: RunState): set<nat> {
    set i | i in Upto(s.index) && !OnWire(s, i)
  }

  lemma SkippedAreUnsent(c: Config, s: RunState)
    requires Inv(c, s)
    ensures s.skipped == |Unsent(s)|
  {
    var sent := Elements(s.findings);
    FindingsAreSent(c, s);
    DistinctCard(s.findings);
    forall i ensures i in Upto(s.index) <==> i in Unsent(s) + sent {
      if i in Upto(s.index) { assert OnWire(s, i) <==> i in s.findings; }
    }
    assert Upto(s.index) == Unsent(s) + sent && Unsent(s) !! sent;
  }

  /** The findings are the tests that are past and on the wire, each once. */
  lemma FindingsAreSent(c: Config, s: RunState)
    requires Wire(c, s) && Ledger(c, s)
    ensures Distinct(s.findings) && forall i | i in s.findings :: i < s.index
    ensures forall i: nat | i < s.index :: OnWire(s, i) <==> i in s.findings
  {
    forall n | 0 <= n < |s.findings| ensures s.findings[n] == s.wire[n].test {
      assert Tests(s.wire)[n] == s.findings[n];
    }
    if s.phase.InFlight? {
      assert Tests(s.wire)[|s.findings|] == s.index;
    }
    forall i: nat | i < s.index ensures OnWire(s, i) <==> i in s.findings {
      OnWireIsTests(s, i);
    }
  }

  /** Main result, over every interleaving, of the tests that are past: a test in scope that
      needs no approval was sent, a test out of scope was not, a test in scope that needs
      approval was registered, and nothing else was; the skipped are exactly those not sent. */
  lemma EveryTestIsAccountedFor(c: Config, s: RunState)
    requires Reachable(c, s)
    ensures s.index <= |c.tests|
    ensures forall i: nat | i < s.index && c.tests[i].inScope && !(c.tests[i].destructive && c.channel) :: OnWire(s, i)
    ensures forall i: nat | i < s.index && !c.tests[i].inScope :: !OnWire(s, i)
    ensures forall i: nat | i < s.index ::
              i in s.tickets <==> c.tests[i].inScope && c.tests[i].destructive && c.channel
    ensures s.skipped == |Unsent(s)|
    ensures forall i: nat | i < s.index && !OnWire(s, i) ::
              !c.tests[i].inScope || (c.tests[i].destructive && c.channel)
  {
    var t :| Run(c, t) && t[|t| - 1] == s;
    PassedAlongRun(c, t, |t| - 1);
    RunHolds(c, t, |t| - 1);
    SkippedAreUnsent(c, s);
    forall i: nat | i < s.index
      ensures c.tests[i].inScope && !(c.tests[i].destructive && c.channel) ==> OnWire(s, i)
      ensures !c.tests[i].inScope ==> !OnWire(s, i)
      ensures i in s.tickets <==> c.tests[i].inScope && c.tests[i].destructive && c.channel
    {
      AccountedFor(c, s, i);
    }
  }

  lemma AccountedFor(c: Config, s: RunState, i: nat)
    requires Passed(c, s) && i < s.index
    ensures i < |c.tests|
    ensures c.tests[i].inScope && !(c.tests[i].destructive && c.channel) ==> OnWire(s, i)
    ensures !c.tests[i].inScope ==> !OnWire(s, i)
    ensures i in s.tickets <==> c.tests[i].inScope && c.tests[i].destructive && c.channel
  {
    assert PassedTest(c, s, i);
    if i in s.tickets {
      var a :| 0 <= a < |s.tickets| && s.tickets[a] == i;
      assert NeedsApproval(c, s.tickets[a]);
    }
  }

  // ---- what the outside is told ----

  /** Every registration is announced once, before the wait; every registration and every
      test that is past is reported once. No channel holds more than it has room for. */
  ghost predicate Told(c: Config, s: RunState) {
    && s.requests.posts + (if s.phase.Announcing? then 1 else 0) == |s.tickets|
    && s.events.posts + (if s.phase.Announcing? || s.phase.Notifying? || s.phase.Reporting? then 1 else 0)
       == |s.tickets| + s.index
    && s.requests.unread <= c.requestRoom && s.events.unread <= c.eventRoom
  }

  lemma ToldStep(c: Config, s: RunState, s': RunState)
    requires Told(c, s) && Next(c, s, s')
    ensures Told(c, s')
  {
    if m :| CanMove(c, s, m) && s' == MoveOn(c, s, m) {
      ToldMove(c, s, m);
    } else {
      assert s'.phase == s.phase && s'.tickets == s.tickets && s'.index == s.index;
    }
  }

  lemma ToldMove(c: Config, s: RunState, m: Move)
    requires Told(c, s) && CanMove(c, s, m)
    ensures Told(c, MoveOn(c, s, m))
  {
  }

  lemma {:induction false} ToldAlongRun(c: Config, t: seq<RunState>, k: nat)
    requires Run(c, t) && k < |t|
    ensures Told(c, t[k])
  {
    if k > 0 {
      ToldAlongRun(c, t, k - 1);
      assert StepAt(c, t, k - 1);
      ToldStep(c, t[k - 1], t[k]);
    }
  }

  /** Main result: whenever the run waits, the request for that registration and the event
      that it waits have been sent; between two tests every test that is past has been
      reported. */
  lemma AskedBeforeWaiting(c: Config, s: RunState)
    requires Reachable(c, s)
    ensures s.phase.Waiting? ==> s.requests.posts == |s.tickets| && s.events.posts == |s.tickets| + s.index
    ensures s.phase.Head? || s.phase.Ended? ==> s.events.posts == |s.tickets| + s.index
    ensures s.requests.unread <= c.requestRoom && s.events.unread <= c.eventRoom
  {
    var t :| Run(c, t) && t[|t| - 1] == s;
    ToldAlongRun(c, t, |t| - 1);
  }
}
