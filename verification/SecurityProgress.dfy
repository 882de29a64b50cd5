/** What a security run can do and when it is over: an approval in time can lead to the request,
    and every run takes a bounded number of steps. */
module SecurityProgress {
  import opened Text
  import opened SecurityExecutor
  import opened SecurityOutcome

  // ---- a full channel ----

  /** A run before a full channel is released by one message read, if the channel holds any,
      and by its receiver going away. */
  lemma ReadReleases(c: Config, s: RunState)
    requires Reachable(c, s) && Blocked(c, s)
    ensures s.phase.Announcing? ==>
              && ReleasedBy(c, s, s.(requests := Channel(0, false, s.requests.posts)))
              && (c.requestRoom > 0 ==>
                    ReleasedBy(c, s, s.(requests := Channel(c.requestRoom - 1, true, s.requests.posts))))
    ensures !s.phase.Announcing? ==>
              && ReleasedBy(c, s, s.(events := Channel(0, false, s.events.posts)))
              && (c.eventRoom > 0 ==>
                    ReleasedBy(c, s, s.(events := Channel(c.eventRoom - 1, true, s.events.posts))))
  {
    AskedBeforeWaiting(c, s);
  }

  ghost predicate ReleasedBy(c: Config, s: RunState, s': RunState) {
    Next(c, s, s') && !Blocked(c, s')
  }

  // ---- an approval in time ----

  /** The wait can end with an approval if and only if the endpoint has given one. */
  lemma WaitCanBeApprovedIff(c: Config, s: RunState, t: Ticket)
    requires s.phase == Waiting(t)
    ensures (exists m :: CanMove(c, s, m) && MoveOn(c, s, m).phase == Cleaning(t, true))
       <==> t in s.answers && s.answers[t]
  {
    if t in s.answers && s.answers[t] {
      assert CanMove(c, s, ByAnswer) && MoveOn(c, s, ByAnswer).phase == Cleaning(t, true);
    }
  }

  /** Main result: from every run that waits, has been answered yes and has a slot left, some
      continuation sends the request, with that approval. */
  lemma ApprovalCanSend(c: Config, t: seq<RunState>, k: Ticket) returns (more: seq<RunState>)
    requires Run(c, t) && t[|t| - 1].phase == Waiting(k)
    requires k in t[|t| - 1].answers && t[|t| - 1].answers[k] && t[|t| - 1].remaining > 0
    ensures Run(c, t + more) && more != []
    ensures more[|more| - 1].wire == t[|t| - 1].wire + [Sent(t[|t| - 1].index, Some(k))]
  {
    var s := t[|t| - 1];
    RunHolds(c, t, |t| - 1);
    assert s.index < |c.tests|;
    var s1 := MoveOn(c, s, ByAnswer);
    ExtendByMove(c, t, ByAnswer);
    var s2 := MoveOn(c, s1, Go);
    ExtendByMove(c, t + [s1], Go);
    var s3 := MoveOn(c, s2, Go);
    ExtendByMove(c, t + [s1] + [s2], Go);
    var s4 := MoveOn(c, s3, Go);
    ExtendByMove(c, t + [s1] + [s2] + [s3], Go);
    more := [s1, s2, s3, s4];
    assert t + more == t + [s1] + [s2] + [s3] + [s4];
  }

  // ---- the end ----

  /** Steps left in the current test. */
  function Rank(p: Phase): nat {
    match p
    case Ended => 0
    case InFlight(_) => 2
    case Holding(_) => 3
    case Budgeting(_) => 4
    case Cleaning(_, _) => 5
    case Waiting(_) => 6
    case Notifying(_) => 7
    case Announcing(_) => 8
    case Registering => 9
    case Scoping => 10
    case Head => 11
    case Reporting => 12
  }

  function MovesLeft(c: Config, s: RunState): int {
    13 * (|c.tests| - s.index) + Rank(s.phase)
  }

  lemma MoveUsesOne(c: Config, s: RunState, m: Move)
    requires CanMove(c, s, m)
    ensures MovesLeft(c, MoveOn(c, s, m)) < MovesLeft(c, s)
  {
  }

  /** The step is one of the other parties: token, deadline, receivers, endpoint. */
  ghost predicate Others(c: Config, s: RunState, s': RunState) {
    Outside(c, s, s') || exists id, approved :: s' == Confirm(s, id, approved).0
  }

  lemma OthersUseNone(c: Config, s: RunState, s': RunState)
    requires Others(c, s, s')
    ensures MovesLeft(c, s') == MovesLeft(c, s)
  {
  }

  /** The run's own steps among the first n. */
  ghost function Moves(c: Config, t: seq<RunState>, n: nat): nat
    requires n < |t|
  {
    if n == 0 then 0 else Moves(c, t, n - 1) + (if Others(c, t[n - 1], t[n]) then 0 else 1)
  }

  lemma StepUses(c: Config, s: RunState, s': RunState)
    requires Next(c, s, s')
    ensures MovesLeft(c, s') + (if Others(c, s, s') then 0 else 1) <= MovesLeft(c, s)
  {
    if Others(c, s, s') {
      OthersUseNone(c, s, s');
    } else {
      var m :| CanMove(c, s, m) && s' == MoveOn(c, s, m);
      MoveUsesOne(c, s, m);
    }
  }

  lemma {:induction false} MovesUsedUp(c: Config, t: seq<RunState>, n: nat)
    requires Run(c, t) && n < |t|
    ensures MovesLeft(c, t[n]) + Moves(c, t, n) <= 13 * |c.tests| + 11
  {
    if n > 0 {
      MovesUsedUp(c, t, n - 1);
      assert StepAt(c, t, n - 1);
      StepUses(c, t[n - 1], t[n]);
    }
  }

  /** Main result: whatever the other parties do, a run takes at most thirteen steps for each
      test and eleven more; so it ends, unless it comes to stand before a full channel. */
  lemma RunEnds(c: Config, t: seq<RunState>)
    requires Run(c, t)
    ensures Moves(c, t, |t| - 1) <= 13 * |c.tests| + 11
    ensures var s := t[|t| - 1]; s.phase.Ended? || Blocked(c, s) || exists m :: CanMove(c, s, m)
  {
    MovesUsedUp(c, t, |t| - 1);
    var s := t[|t| - 1];
    RunHolds(c, t, |t| - 1);
    assert s.index <= |c.tests|;
    assert Reachable(c, s);
    if !s.phase.Ended? { StuckIffBlocked(c, s); }
  }
}
