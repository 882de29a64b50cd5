/** What a wait does to a push, said on runs and on what can be seen of the buffer: the stage of
    the call and the fingerprints remembered. */
module CaptureBufferWaits {
  import opened Text
  import opened Counting
  import opened CaptureBuffer

  /** Where call i stands. */
  function Stage(s: System, i: nat): Pc {
    if i < |s.pushes| then s.pushes[i].pc else Checking
  }

  function FingerprintOf(s: System, i: nat): string {
    if i < |s.pushes| then s.pushes[i].item.fingerprint else ""
  }

  ghost predicate StepAt(k: Config, t: seq<System>, j: nat)
    requires j + 1 < |t|
  {
    Next(k, t[j], t[j + 1])
  }

  /** A run, wherever it starts. */
  ghost predicate Linked(k: Config, t: seq<System>) {
    forall j: nat | j + 1 < |t| :: StepAt(k, t, j)
  }

  lemma RunIsLinked(k: Config, t: seq<System>)
    requires Run(k, t)
    ensures Linked(k, t) && IsInit(t[0])
  {
    forall j: nat | j + 1 < |t| ensures StepAt(k, t, j) {}
  }

  lemma StepOfRun(k: Config, t: seq<System>, j: nat)
    requires Linked(k, t) && j + 1 < |t|
    ensures Next(k, t[j], t[j + 1])
  {
    assert StepAt(k, t, j);
  }

  lemma SameCall(k: Config, s: System, s': System, i: nat)
    requires Next(k, s, s')
    ensures FingerprintOf(s', i) == FingerprintOf(s, i)
  {
  }

  lemma {:induction false} SameCallAlongRun(k: Config, t: seq<System>, i: nat, j: nat)
    requires Linked(k, t) && j < |t|
    ensures FingerprintOf(t[j], i) == FingerprintOf(t[0], i)
    decreases j
  {
    if j > 0 {
      SameCallAlongRun(k, t, i, j - 1);
      StepOfRun(k, t, j - 1);
      SameCall(k, t[j - 1], t[j], i);
    }
  }

  // ---- the remembered fingerprints ----

  lemma SeenSection(k: Config, c: Core, p: Push)
    ensures var c' := PushSection(k, c, p).0; (c.seen <= c'.seen || c'.seen == {}) && c'.closed == c.closed
  {
    EvictKeepsLog(k, c, p.item.sizeBytes);
  }

  /** In one step the set keeps what it holds, or is emptied; a closed buffer stays closed. */
  lemma SeenStep(k: Config, s: System, s': System)
    requires Next(k, s, s')
    ensures s.core.seen <= s'.core.seen || s'.core.seen == {}
    ensures s.core.closed ==> s'.core.closed
  {
    var a :| Enabled(s, a) && s' == Apply(k, s, a);
    if a.PushStep? {
      SeenSection(k, s.core, s.pushes[a.i]);
    }
  }

  /** A fingerprint is forgotten only because the whole set was emptied meanwhile. */
  lemma {:induction false} ForgottenByClearing(k: Config, t: seq<System>, f: string, x: nat, y: nat) returns (m: nat)
    requires Linked(k, t) && x < y < |t| && f in t[x].core.seen && f !in t[y].core.seen
    ensures x < m <= y && t[m].core.seen == {}
    decreases y - x
  {
    StepOfRun(k, t, y - 1);
    SeenStep(k, t[y - 1], t[y]);
    if f in t[y - 1].core.seen {
      m := y;
    } else {
      m := ForgottenByClearing(k, t, f, x, y - 1);
    }
  }

  /** A call gets past the set if its fingerprint is not there; afterwards it is, or the set
      has overflowed and is empty. */
  lemma PassingEnters(k: Config, s: System, s': System, i: nat)
    requires Next(k, s, s') && k.dedupEnabled && Stage(s, i) == Deduping && Stage(s', i) == Queueing
    ensures FingerprintOf(s, i) !in s.core.seen
    ensures FingerprintOf(s, i) in s'.core.seen || s'.core.seen == {}
  {
    var a :| Enabled(s, a) && s' == Apply(k, s, a);
    assert a == PushStep(i);
  }

  // ---- waiting ----

  /** A call is at the queue or accepted because it was there, or has just passed the set. */
  lemma CameFrom(k: Config, s: System, s': System, i: nat)
    requires Next(k, s, s') && (Stage(s', i) == Queueing || Stage(s', i) == Returned(Accepted))
    ensures Stage(s, i) == Queueing || Stage(s, i) == Returned(Accepted)
            || (Stage(s, i) == Deduping && Stage(s', i) == Queueing)
  {
  }

  /** From waiting to acceptance a call passes the set again. */
  lemma {:induction false} PassesAgain(k: Config, t: seq<System>, i: nat, a: nat, b: nat) returns (e: nat)
    requires Linked(k, t) && a < b < |t| && Stage(t[a], i) == Waiting
    requires Stage(t[b], i) == Queueing || Stage(t[b], i) == Returned(Accepted)
    ensures a < e < b && Stage(t[e], i) == Deduping && Stage(t[e + 1], i) == Queueing
    decreases b
  {
    StepOfRun(k, t, b - 1);
    CameFrom(k, t[b - 1], t[b], i);
    if Stage(t[b - 1], i) == Deduping {
      e := b - 1;
    } else {
      e := PassesAgain(k, t, i, a, b - 1);
    }
  }

  /** Main result: with dedup on, a call that has passed the set and then had to wait is
      accepted only if the set was emptied after it had entered its fingerprint. */
  lemma WaitedIsAcceptedOnlyAfterClear(k: Config, t: seq<System>, i: nat, e: nat, a: nat, b: nat) returns (m: nat)
    requires Linked(k, t) && k.dedupEnabled && e + 1 < a < b < |t|
    requires Stage(t[e], i) == Deduping && Stage(t[e + 1], i) == Queueing
    requires Stage(t[a], i) == Waiting && Stage(t[b], i) == Returned(Accepted)
    ensures e < m < b && t[m].core.seen == {}
  {
    var again := PassesAgain(k, t, i, a, b);
    var f := FingerprintOf(t[0], i);
    SameCallAlongRun(k, t, i, e);
    SameCallAlongRun(k, t, i, again);
    StepOfRun(k, t, e);
    StepOfRun(k, t, again);
    PassingEnters(k, t[e], t[e + 1], i);
    PassingEnters(k, t[again], t[again + 1], i);
    if f in t[e + 1].core.seen {
      m := ForgottenByClearing(k, t, f, e + 1, again);
    } else {
      m := e + 1;
    }
  }

  /** Only Block makes a call wait. */
  lemma WaitsUnderBlock(k: Config, s: System, s': System, i: nat)
    requires Next(k, s, s') && Stage(s, i) != Waiting && Stage(s', i) == Waiting
    ensures k.policy == Block
  {
  }

  lemma {:induction false} WaitingMeansBlock(k: Config, t: seq<System>, i: nat, a: nat)
    requires Linked(k, t) && a < |t| && IsInit(t[0]) && Stage(t[a], i) == Waiting
    ensures k.policy == Block
    decreases a
  {
    if a > 0 {
      StepOfRun(k, t, a - 1);
      if Stage(t[a - 1], i) == Waiting {
        WaitingMeansBlock(k, t, i, a - 1);
      } else {
        WaitsUnderBlock(k, t[a - 1], t[a], i);
      }
    }
  }

  lemma OverflowsWhenClosed(k: Config, s: System, s': System, i: nat)
    requires Next(k, s, s') && k.policy == Block
    requires Stage(s, i) != Returned(Overflow) && Stage(s', i) == Returned(Overflow)
    ensures s.core.closed
  {
  }

  /** Under Block only the closed check answers Overflow. */
  lemma {:induction false} OverflowMeansClosed(k: Config, t: seq<System>, i: nat, b: nat)
    requires Linked(k, t) && k.policy == Block && b < |t| && IsInit(t[0]) && Stage(t[b], i) == Returned(Overflow)
    ensures t[b].core.closed
    decreases b
  {
    if b > 0 {
      StepOfRun(k, t, b - 1);
      SeenStep(k, t[b - 1], t[b]);
      if Stage(t[b - 1], i) == Returned(Overflow) {
        OverflowMeansClosed(k, t, i, b - 1);
      } else {
        OverflowsWhenClosed(k, t[b - 1], t[b], i);
      }
    }
  }

  /** So, while the set is not emptied, a call that waited is answered Duplicate, or Overflow
      once the buffer is closed, if it is answered at all. */
  lemma WaitedIsLost(k: Config, t: seq<System>, i: nat, e: nat, a: nat, b: nat)
    requires Run(k, t) && k.dedupEnabled && e + 1 < a < b < |t|
    requires Stage(t[e], i) == Deduping && Stage(t[e + 1], i) == Queueing
    requires Stage(t[a], i) == Waiting && Stage(t[b], i).Returned?
    requires forall m | e < m < b :: t[m].core.seen != {}
    ensures Stage(t[b], i) == Returned(Duplicate) || (t[b].core.closed && Stage(t[b], i) == Returned(Overflow))
  {
    RunIsLinked(k, t);
    var answer := Stage(t[b], i).outcome;
    match answer
    case Accepted =>
      var m := WaitedIsAcceptedOnlyAfterClear(k, t, i, e, a, b);
      assert false;
    case Duplicate =>
    case Overflow =>
      WaitingMeansBlock(k, t, i, a);
      OverflowMeansClosed(k, t, i, b);
  }

  // ---- the marks of a call ----

  /** The counter of clears counts how often the set was emptied. */
  lemma ClearsStep(k: Config, s: System, s': System)
    requires Next(k, s, s')
    ensures s'.core.clears == s.core.clears || (s'.core.clears == s.core.clears + 1 && s'.core.seen == {})
    ensures !(s.core.seen <= s'.core.seen) ==> s'.core.clears == s.core.clears + 1
  {
    var a :| Enabled(s, a) && s' == Apply(k, s, a);
    if a.PushStep? {
      ClearsSection(k, s.core, s.pushes[a.i]);
    }
  }

  lemma ClearsSection(k: Config, c: Core, p: Push)
    ensures var c' := PushSection(k, c, p).0;
            && (c'.clears == c.clears || (c'.clears == c.clears + 1 && c'.seen == {}))
            && (!(c.seen <= c'.seen) ==> c'.clears == c.clears + 1)
  {
    EvictKeepsLog(k, c, p.item.sizeBytes);
  }

  predicate Marked(s: System, i: nat) {
    i < |s.pushes| && (s.pushes[i].waited || s.pushes[i].pc == Waiting)
  }

  lemma MarkStays(k: Config, s: System, s': System, i: nat)
    requires Next(k, s, s') && Marked(s, i)
    ensures Marked(s', i)
  {
  }

  /** A call that has been through the wait is marked so for good. */
  lemma {:induction false} WaitIsMarked(k: Config, t: seq<System>, i: nat, a: nat, b: nat)
    requires Linked(k, t) && a <= b < |t| && Stage(t[a], i) == Waiting
    ensures Marked(t[b], i)
    decreases b
  {
    if a < b {
      WaitIsMarked(k, t, i, a, b - 1);
      StepOfRun(k, t, b - 1);
      MarkStays(k, t[b - 1], t[b], i);
    }
  }

  /** Passing the set notes the clears so far, as the first note too unless the call has waited. */
  lemma PassingNotesClears(k: Config, s: System, s': System, i: nat)
    requires Next(k, s, s') && Stage(s, i) == Deduping && Stage(s', i) == Queueing
    ensures i < |s.pushes| && i < |s'.pushes| && s'.pushes[i].epoch == s.core.clears
    ensures s'.pushes[i].waited == s.pushes[i].waited
    ensures s'.pushes[i].firstEpoch == if s.pushes[i].waited then s.pushes[i].firstEpoch else s.core.clears
  {
  }
}
