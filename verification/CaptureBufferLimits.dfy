/** What the capture buffer does not promise in general, with the exact conditions: the
    length bound, the Duplicate answer, and what may still land after the buffer is closed. */
module CaptureBufferLimits {
  import opened Text
  import opened CaptureBuffer
  import opened Counting

  /** Reached by the pushes alone: nothing is received, closed or reset on the way. */
  ghost predicate ReachedByPushes(k: Config, s: System) {
    exists t :: Run(k, t) && t[|t| - 1] == s && forall j: nat | j + 1 < |t| :: IsPush(k, t[j], t[j + 1])
  }

  ghost predicate IsPush(k: Config, s: System, s': System) {
    exists i: nat :: Enabled(s, PushStep(i)) && s' == Apply(k, s, PushStep(i))
  }

  lemma PushedOn(k: Config, s: System, i: nat)
    requires ReachedByPushes(k, s) && Enabled(s, PushStep(i))
    ensures ReachedByPushes(k, Apply(k, s, PushStep(i)))
  {
    var t :| Run(k, t) && t[|t| - 1] == s && forall j: nat | j + 1 < |t| :: IsPush(k, t[j], t[j + 1]);
    var t' := t + [Apply(k, s, PushStep(i))];
    forall j: nat | j + 1 < |t'| ensures IsPush(k, t'[j], t'[j + 1]) && Next(k, t'[j], t'[j + 1]) {
      if j + 1 < |t| { assert IsPush(k, t[j], t[j + 1]); }
    }
    assert Run(k, t') && t'[|t'| - 1] == Apply(k, s, PushStep(i));
  }

  lemma ReachedAtStart(k: Config, s: System)
    requires IsInit(s)
    ensures ReachedByPushes(k, s)
  {
    var t := [s];
    assert Run(k, t) && t[|t| - 1] == s;
  }

  /** Three steps of one push: past the check, past the set, through the queue section. */
  function ThreeSteps(k: Config, s: System, i: nat): System
    requires i < |s.pushes| && s.pushes[i].pc == Checking && !s.core.closed
    requires s.pushes[i].item.fingerprint !in s.core.seen
  {
    Apply(k, Apply(k, Apply(k, s, PushStep(i)), PushStep(i)), PushStep(i))
  }

  lemma ThreeReached(k: Config, s: System, i: nat)
    requires ReachedByPushes(k, s) && i < |s.pushes| && s.pushes[i].pc == Checking && !s.core.closed
    requires s.pushes[i].item.fingerprint !in s.core.seen
    ensures ReachedByPushes(k, ThreeSteps(k, s, i))
  {
    PushedOn(k, s, i);
    PushedOn(k, Apply(k, s, PushStep(i)), i);
    PushedOn(k, Apply(k, Apply(k, s, PushStep(i)), PushStep(i)), i);
  }

  // ---- the length bound ----

  lemma {:induction false} NoRoomNoQueue(k: Config, t: seq<System>, j: nat)
    requires Run(k, t) && j < |t| && k.capacity == 0 && k.policy != DropOldest
    ensures t[j].core.queue == [] && t[j].core.acceptedLog == []
  {
    if j > 0 {
      NoRoomNoQueue(k, t, j - 1);
      assert Next(k, t[j - 1], t[j]);
    }
  }

  lemma OneFlowTooMany(k: Config, item: Item) returns (s: System)
    requires k.capacity == 0 && k.policy == DropOldest
    ensures Reachable(k, s) && s.core.queue == [item]
  {
    var s0 := System(EMPTY, [Fresh(item)], false);
    ReachedAtStart(k, s0);
    ThreeReached(k, s0, 0);
    s := ThreeSteps(k, s0, 0);
  }

  ghost predicate LengthBounded(k: Config) {
    forall s | Reachable(k, s) :: |s.core.queue| <= k.capacity
  }

  /** The queue never exceeds its capacity, exactly when there is one or the policy is not
      DropOldest. */
  lemma LengthBoundedIff(k: Config)
    ensures LengthBounded(k) <==> k.capacity > 0 || k.policy != DropOldest
  {
    if k.capacity > 0 {
      forall s | Reachable(k, s) ensures |s.core.queue| <= k.capacity { BufferIsSafe(k, s); }
    } else if k.policy != DropOldest {
      forall s | Reachable(k, s) ensures |s.core.queue| <= k.capacity {
        var t :| Run(k, t) && t[|t| - 1] == s;
        NoRoomNoQueue(k, t, |t| - 1);
      }
    } else {
      var s := OneFlowTooMany(k, Item("", "", 0));
      assert Reachable(k, s) && |s.core.queue| == 1;
    }
  }

  // ---- the Duplicate answer ----

  /** Another push, started or not, carries the same fingerprint. */
  ghost predicate HasTwin(s: System, i: nat)
    requires i < |s.pushes|
  {
    exists j: nat :: Twin(s, i, j)
  }

  predicate Twin(s: System, i: nat, j: nat)
    requires i < |s.pushes|
  {
    j < |s.pushes| && j != i && s.pushes[j].item.fingerprint == s.pushes[i].item.fingerprint
  }

  /** A push is called a duplicate only if there is another of its kind. */
  ghost predicate DuplicatesHaveTwins(k: Config) {
    forall s, i: nat | Reachable(k, s) && i < |s.pushes| && AnsweredWith(s.pushes[i], Duplicate) :: HasTwin(s, i)
  }

  /** The push has entered fingerprint f and will not come back to the set. */
  predicate Owns(p: Push, f: string) {
    p.item.fingerprint == f && (p.pc == Queueing || p.pc.Returned?)
  }

  ghost predicate Owned(s: System, f: string) {
    exists j: nat :: j < |s.pushes| && Owns(s.pushes[j], f)
  }

  /** Without waiting, every fingerprint in the set was entered by a push that moved on. */
  ghost predicate SetIsOwned(s: System) {
    && (forall i: nat | i < |s.pushes| :: s.pushes[i].pc != Waiting)
    && (forall f | f in s.core.seen :: Owned(s, f))
    && (forall i: nat | i < |s.pushes| && AnsweredWith(s.pushes[i], Duplicate) :: HasTwin(s, i))
  }

  /** What a step of push i does to the set and to its place, when nothing waits. */
  lemma SetEffect(k: Config, c: Core, p: Push)
    requires k.policy != Block && !p.pc.Returned? && p.pc != Waiting
    ensures var (c', p') := PushSection(k, c, p);
            && p'.item == p.item && p'.pc != Waiting
            && c'.seen <= c.seen + (if p'.pc == Queueing then {p.item.fingerprint} else {})
            && (p.pc == Queueing ==> p'.pc.Returned?)
            && (AnsweredWith(p', Duplicate) ==> p.pc == Deduping && p.item.fingerprint in c.seen)
  {
    EvictKeepsLog(k, c, p.item.sizeBytes);
  }

  lemma OwnedStays(s: System, s': System, i: nat, f: string)
    requires Owned(s, f) && i < |s.pushes| == |s'.pushes| && s'.pushes == s.pushes[i := s'.pushes[i]]
    requires s'.pushes[i].item == s.pushes[i].item && (s.pushes[i].pc == Queueing ==> s'.pushes[i].pc.Returned?)
    requires !s.pushes[i].pc.Returned?
    ensures Owned(s', f)
  {
    var j: nat :| j < |s.pushes| && Owns(s.pushes[j], f);
    assert Owns(s'.pushes[j], f);
  }

  lemma SetIsOwnedPush(k: Config, s: System, i: nat)
    requires k.policy != Block && SetIsOwned(s) && Enabled(s, PushStep(i))
    ensures SetIsOwned(Apply(k, s, PushStep(i)))
  {
    var s' := Apply(k, s, PushStep(i));
    var p, p' := s.pushes[i], s'.pushes[i];
    SetEffect(k, s.core, p);
    forall f | f in s'.core.seen ensures Owned(s', f) {
      if f in s.core.seen { OwnedStays(s, s', i, f); } else { assert Owns(s'.pushes[i], f); }
    }
    forall m: nat | m < |s'.pushes| && AnsweredWith(s'.pushes[m], Duplicate) ensures HasTwin(s', m) {
      if m == i {
        assert Owned(s, p.item.fingerprint);
        var j: nat :| j < |s.pushes| && Owns(s.pushes[j], p.item.fingerprint);
        assert Twin(s', i, j);
      } else {
        assert HasTwin(s, m);
        var j: nat :| Twin(s, m, j);
        assert Twin(s', m, j);
      }
    }
  }

  lemma SetIsOwnedStep(k: Config, s: System, a: Action)
    requires k.policy != Block && SetIsOwned(s) && Enabled(s, a)
    ensures SetIsOwned(Apply(k, s, a))
  {
    if a.PushStep? {
      SetIsOwnedPush(k, s, a.i);
    } else {
      var s' := Apply(k, s, a);
      assert s'.pushes == s.pushes && s'.core.seen <= s.core.seen;
      forall f | f in s'.core.seen ensures Owned(s', f) { assert Owned(s, f); }
      forall m: nat | m < |s'.pushes| && AnsweredWith(s'.pushes[m], Duplicate) ensures HasTwin(s', m) {
        var j: nat :| Twin(s, m, j);
        assert Twin(s', m, j);
      }
    }
  }

  lemma {:induction false} SetIsOwnedAlongRun(k: Config, t: seq<System>, n: nat)
    requires k.policy != Block && Run(k, t) && n < |t|
    ensures SetIsOwned(t[n])
  {
    if n > 0 {
      SetIsOwnedAlongRun(k, t, n - 1);
      assert Next(k, t[n - 1], t[n]);
      var a :| Enabled(t[n - 1], a) && t[n] == Apply(k, t[n - 1], a);
      SetIsOwnedStep(k, t[n - 1], a);
    }
  }

  lemma {:induction false} NoDedupNoDuplicate(k: Config, t: seq<System>, n: nat)
    requires !k.dedupEnabled && Run(k, t) && n < |t|
    ensures forall i: nat | i < |t[n].pushes| :: !AnsweredWith(t[n].pushes[i], Duplicate)
  {
    if n > 0 {
      NoDedupNoDuplicate(k, t, n - 1);
      assert Next(k, t[n - 1], t[n]);
      var a :| Enabled(t[n - 1], a) && t[n] == Apply(k, t[n - 1], a);
      if a.PushStep? {
        SectionEffect(k, t[n - 1].core, t[n - 1].pushes[a.i]);
        assert !AnsweredWith(PushSection(k, t[n - 1].core, t[n - 1].pushes[a.i]).1, Duplicate);
      }
    }
  }

  // A run of pushes that loses a flow, for every configuration of Block with dedup: flows of
  // size zero and different fingerprints take all places, then one more push waits. If the
  // set was cleared when it entered, it enters again after its wait, and waits once more.

  function Name(i: nat): (r: string)
    ensures |r| == i
  {
    seq(i, _ => 'f')
  }

  function Flow(i: nat): Item {
    Item("", Name(i), 0)
  }

  ghost predicate CarryFlows(k: Config, s: System) {
    |s.pushes| == k.capacity + 1 && forall i: nat | i <= k.capacity :: s.pushes[i].item == Flow(i)
  }

  /** The first m pushes have been accepted, and nothing else has started. */
  ghost predicate Filled(k: Config, s: System, m: nat) {
    && m <= k.capacity && CarryFlows(k, s) && !s.core.closed
    && |s.core.queue| == m && s.core.queuedBytes == 0
    && (forall f | f in s.core.seen :: |f| < m)
    && (forall i: nat | m <= i <= k.capacity :: s.pushes[i] == Fresh(Flow(i)))
  }

  lemma FilledOneMore(k: Config, s: System, m: nat)
    requires k.dedupEnabled && Filled(k, s, m) && m < k.capacity
    ensures Filled(k, ThreeSteps(k, s, m), m + 1)
  {
    assert s.pushes[m] == Fresh(Flow(m));
  }

  lemma {:induction false} FillUp(k: Config, m: nat) returns (s: System)
    requires k.dedupEnabled && m <= k.capacity
    ensures ReachedByPushes(k, s) && Filled(k, s, m)
  {
    if m == 0 {
      s := System(EMPTY, seq(k.capacity + 1, i requires i >= 0 => Fresh(Flow(i))), false);
      ReachedAtStart(k, s);
    } else {
      var before := FillUp(k, m - 1);
      assert before.pushes[m - 1] == Fresh(Flow(m - 1));
      ThreeReached(k, before, m - 1);
      FilledOneMore(k, before, m - 1);
      s := ThreeSteps(k, before, m - 1);
    }
  }

  /** The last push waits before a full queue; its fingerprint is in the set, or the set was
      cleared when it entered. */
  ghost predicate LastWaits(k: Config, s: System) {
    && CarryFlows(k, s) && !s.core.closed && |s.core.queue| == k.capacity
    && s.pushes[k.capacity].pc == Waiting
    && (Name(k.capacity) in s.core.seen || s.core.seen == {})
  }

  lemma LastComesToWait(k: Config, s: System)
    requires k.policy == Block && k.dedupEnabled && Filled(k, s, k.capacity)
    ensures LastWaits(k, ThreeSteps(k, s, k.capacity))
  {
    assert s.pushes[k.capacity] == Fresh(Flow(k.capacity));
  }

  /** Woken up with the set cleared, it enters its fingerprint and waits again. */
  lemma WaitsAgain(k: Config, s: System) returns (s': System)
    requires k.policy == Block && k.dedupEnabled && ReachedByPushes(k, s)
    requires LastWaits(k, s) && Name(k.capacity) !in s.core.seen
    ensures ReachedByPushes(k, s') && LastWaits(k, s') && Name(k.capacity) in s'.core.seen
  {
    var i := k.capacity;
    assert {} + {Name(i)} == {Name(i)};
    PushedOn(k, s, i);
    var s1 := Apply(k, s, PushStep(i));
    ThreeReached(k, s1, i);
    s' := ThreeSteps(k, s1, i);
  }

  /** Woken up with its fingerprint in the set, it meets it. */
  lemma RetryIsDuplicate(k: Config, s: System) returns (s': System)
    requires k.dedupEnabled && ReachedByPushes(k, s) && LastWaits(k, s) && Name(k.capacity) in s.core.seen
    ensures ReachedByPushes(k, s') && CarryFlows(k, s') && AnsweredWith(s'.pushes[k.capacity], Duplicate)
  {
    var i := k.capacity;
    PushedOn(k, s, i);
    var s1 := Apply(k, s, PushStep(i));
    PushedOn(k, s1, i);
    var s2 := Apply(k, s1, PushStep(i));
    PushedOn(k, s2, i);
    s' := Apply(k, s2, PushStep(i));
  }

  /** Whatever the capacity, the byte cap and the dedup limit, by pushes alone: a flow without
      a twin is called a duplicate of itself, and lost. */
  lemma BlockWithDedupLosesFlow(k: Config) returns (s: System)
    requires k.policy == Block && k.dedupEnabled
    ensures ReachedByPushes(k, s) && Reachable(k, s) && |s.pushes| == k.capacity + 1
    ensures AnsweredWith(s.pushes[k.capacity], Duplicate) && !HasTwin(s, k.capacity)
    ensures s.pushes[k.capacity].item !in s.core.acceptedLog
  {
    var full := FillUp(k, k.capacity);
    assert full.pushes[k.capacity] == Fresh(Flow(k.capacity));
    ThreeReached(k, full, k.capacity);
    LastComesToWait(k, full);
    var waiting := ThreeSteps(k, full, k.capacity);
    if Name(k.capacity) !in waiting.core.seen {
      waiting := WaitsAgain(k, waiting);
    }
    s := RetryIsDuplicate(k, waiting);
    forall j: nat ensures !Twin(s, k.capacity, j) {
      assert |Name(j)| == j && |Name(k.capacity)| == k.capacity;
    }
    NeverAccepted(k, s, k.capacity);
  }

  /** A flow that no push was accepted with is not in the history. */
  lemma NeverAccepted(k: Config, s: System, i: nat)
    requires Reachable(k, s) && i < |s.pushes| && !AnsweredWith(s.pushes[i], Accepted) && !HasTwin(s, i)
    ensures s.pushes[i].item !in s.core.acceptedLog
  {
    var item := s.pushes[i].item;
    forall j: nat | j < |s.pushes| ensures !(s.pushes[j].item == item && AnsweredWith(s.pushes[j], Accepted)) {
      if j != i { assert !Twin(s, i, j); }
    }
    CountZero(s.pushes, (p: Push) => p.item == item && AnsweredWith(p, Accepted));
    AnswersAreTrue(k, s, item);
  }

  /** Main result: a push is answered Duplicate only if another carries its fingerprint,
      exactly when the policy is not Block or dedup is off. */
  lemma DuplicatesHaveTwinsIff(k: Config)
    ensures DuplicatesHaveTwins(k) <==> !(k.policy == Block && k.dedupEnabled)
  {
    if k.policy == Block && k.dedupEnabled {
      var s := BlockWithDedupLosesFlow(k);
      assert Reachable(k, s) && AnsweredWith(s.pushes[k.capacity], Duplicate);
    } else {
      forall s, i: nat | Reachable(k, s) && i < |s.pushes| && AnsweredWith(s.pushes[i], Duplicate)
        ensures HasTwin(s, i)
      {
        var t :| Run(k, t) && t[|t| - 1] == s;
        if k.policy != Block {
          SetIsOwnedAlongRun(k, t, |t| - 1);
        } else {
          NoDedupNoDuplicate(k, t, |t| - 1);
        }
      }
    }
  }

  // ---- how often a fingerprint is accepted ----

  /** The set is never reset from outside on the way. */
  ghost predicate NoResets(k: Config, t: seq<System>) {
    forall j: nat | j + 1 < |t| :: StepsOn(k, t, j)
  }

  ghost predicate StepsOn(k: Config, t: seq<System>, j: nat)
    requires j + 1 < |t|
  {
    exists a :: Enabled(t[j], a) && !a.ResetStep? && t[j + 1] == Apply(k, t[j], a)
  }

  predicate Carry(s: System, fingerprints: set<string>) {
    forall i | 0 <= i < |s.pushes| :: s.pushes[i].item.fingerprint in fingerprints
  }

  /** The pushes carry these fingerprints, and the set has never been cleared. */
  ghost predicate Uncleared(s: System, fingerprints: set<string>) {
    Carry(s, fingerprints) && s.core.clears == 0 && s.core.seen <= fingerprints
  }

  lemma UnclearedStep(k: Config, s: System, a: Action, fingerprints: set<string>)
    requires Uncleared(s, fingerprints) && Enabled(s, a) && !a.ResetStep?
    requires k.dedupLimit == 0 || |fingerprints| <= k.dedupLimit
    ensures Uncleared(Apply(k, s, a), fingerprints)
  {
    if a.PushStep? {
      var p := s.pushes[a.i];
      SubsetCard(s.core.seen + {p.item.fingerprint}, fingerprints);
      EvictKeepsLog(k, s.core, p.item.sizeBytes);
    }
  }

  lemma {:induction false} UnclearedAlongRun(k: Config, t: seq<System>, n: nat, fingerprints: set<string>)
    requires Run(k, t) && n < |t| && NoResets(k, t) && Carry(t[0], fingerprints)
    requires k.dedupLimit == 0 || |fingerprints| <= k.dedupLimit
    ensures Uncleared(t[n], fingerprints)
  {
    if n > 0 {
      UnclearedAlongRun(k, t, n - 1, fingerprints);
      assert StepsOn(k, t, n - 1);
      var a :| Enabled(t[n - 1], a) && !a.ResetStep? && t[n] == Apply(k, t[n - 1], a);
      UnclearedStep(k, t[n - 1], a, fingerprints);
    }
  }

  /** No run without resets whose pushes carry these fingerprints accepts one twice. */
  ghost predicate AcceptsOnce(k: Config, fingerprints: set<string>) {
    forall s, f | ReachedNoReset(k, s, fingerprints) :: AcceptedWith(s.core.acceptedLog, f) <= 1
  }

  ghost predicate ReachedNoReset(k: Config, s: System, fingerprints: set<string>) {
    exists t :: Run(k, t) && NoResets(k, t) && Carry(t[0], fingerprints) && t[|t| - 1] == s
  }

  lemma GoesOn(k: Config, s: System, a: Action, fingerprints: set<string>)
    requires ReachedNoReset(k, s, fingerprints) && Enabled(s, a) && !a.ResetStep?
    ensures ReachedNoReset(k, Apply(k, s, a), fingerprints)
  {
    var t :| Run(k, t) && NoResets(k, t) && Carry(t[0], fingerprints) && t[|t| - 1] == s;
    var t' := t + [Apply(k, s, a)];
    forall j: nat | j + 1 < |t'| ensures StepsOn(k, t', j) && Next(k, t'[j], t'[j + 1]) {
      if j + 1 < |t| { assert StepsOn(k, t, j); }
    }
    assert Run(k, t') && NoResets(k, t') && t'[|t'| - 1] == Apply(k, s, a);
  }

  // A run that accepts the first of too many fingerprints again: each flow is pushed and
  // received before the next.

  function Carrying(fingerprint: string): Push {
    Fresh(Item("", fingerprint, 0))
  }

  ghost predicate SeenFirst(k: Config, keys: seq<string>, seen: set<string>, j: nat)
    requires keys != [] && j <= |keys|
  {
    seen <= Elements(keys[..j]) && if j <= k.dedupLimit then |seen| == j else keys[0] !in seen
  }

  lemma SeenOneMore(k: Config, keys: seq<string>, seen: set<string>, j: nat)
    requires k.dedupLimit > 0 && Distinct(keys) && j < |keys| && SeenFirst(k, keys, seen, j)
    ensures keys[j] !in seen
    ensures var more := seen + {keys[j]}; SeenFirst(k, keys, if 0 < k.dedupLimit < |more| then {} else more, j + 1)
  {
    assert keys[j] !in keys[..j] && keys[..j + 1] == keys[..j] + [keys[j]];
    assert j > 0 ==> keys[0] != keys[j];
  }

  /** After j pushes: all were accepted and received; up to the limit the set holds them all,
      from then on it has forgotten the first. */
  ghost predicate AcceptedFirst(k: Config, keys: seq<string>, s: System, j: nat) {
    && keys != [] && j <= |keys| && |s.pushes| == |keys| + 1 && !s.core.closed
    && s.core.queue == [] && s.core.queuedBytes == 0
    && (forall i | j <= i < |keys| :: s.pushes[i] == Carrying(keys[i])) && s.pushes[|keys|] == Carrying(keys[0])
    && SeenFirst(k, keys, s.core.seen, j)
    && (j > 0 ==> AcceptedWith(s.core.acceptedLog, keys[0]) >= 1)
  }

  /** Push i, whose fingerprint is not in the set, is accepted and received. */
  function PushedAndReceived(k: Config, s: System, i: nat): System
    requires i < |s.pushes| && s.pushes[i].pc == Checking && !s.core.closed
    requires s.pushes[i].item.fingerprint !in s.core.seen && ThreeSteps(k, s, i).core.queue != []
  {
    Apply(k, ThreeSteps(k, s, i), RecvStep)
  }

  /** There is room for a flow, or room is made. */
  predicate AcceptsSomething(k: Config) {
    k.capacity > 0 || k.policy == DropOldest
  }

  lemma AcceptedNow(k: Config, s: System, i: nat)
    requires AcceptsSomething(k) && k.dedupEnabled && s.core.queue == [] && s.core.queuedBytes == 0 && !s.core.closed
    requires i < |s.pushes| && s.pushes[i].pc == Checking && s.pushes[i].item.sizeBytes == 0
    requires s.pushes[i].item.fingerprint !in s.core.seen
    ensures ThreeSteps(k, s, i).core.queue == [s.pushes[i].item]
    ensures var s', item := PushedAndReceived(k, s, i), s.pushes[i].item;
            var seen := s.core.seen + {item.fingerprint};
            && s'.core.queue == [] && s'.core.queuedBytes == 0 && !s'.core.closed
            && s'.core.acceptedLog == s.core.acceptedLog + [item]
            && s'.core.seen == (if 0 < k.dedupLimit < |seen| then {} else seen)
            && s'.pushes == s.pushes[i := s'.pushes[i]]
  {
  }

  lemma PushedReached(k: Config, s: System, i: nat, fingerprints: set<string>)
    requires ReachedNoReset(k, s, fingerprints)
    requires i < |s.pushes| && s.pushes[i].pc == Checking && !s.core.closed
    requires s.pushes[i].item.fingerprint !in s.core.seen && ThreeSteps(k, s, i).core.queue != []
    ensures ReachedNoReset(k, PushedAndReceived(k, s, i), fingerprints)
  {
    GoesOn(k, s, PushStep(i), fingerprints);
    var s1 := Apply(k, s, PushStep(i));
    GoesOn(k, s1, PushStep(i), fingerprints);
    var s2 := Apply(k, s1, PushStep(i));
    GoesOn(k, s2, PushStep(i), fingerprints);
    GoesOn(k, ThreeSteps(k, s, i), RecvStep, fingerprints);
  }

  lemma LogGrows(log: seq<Item>, item: Item, f: string)
    ensures AcceptedWith(log + [item], f) == AcceptedWith(log, f) + (if item.fingerprint == f then 1 else 0)
  {
    assert (log + [item])[..|log|] == log;
  }

  lemma AcceptedOneMore(k: Config, keys: seq<string>, s: System, j: nat)
    requires AcceptsSomething(k) && k.dedupEnabled && k.dedupLimit > 0 && Distinct(keys)
    requires AcceptedFirst(k, keys, s, j) && j < |keys|
    ensures s.pushes[j] == Carrying(keys[j]) && keys[j] !in s.core.seen && ThreeSteps(k, s, j).core.queue != []
    ensures AcceptedFirst(k, keys, PushedAndReceived(k, s, j), j + 1)
  {
    SeenOneMore(k, keys, s.core.seen, j);
    assert s.pushes[j] == Carrying(keys[j]);
    AcceptedNow(k, s, j);
    LogGrows(s.core.acceptedLog, s.pushes[j].item, keys[0]);
  }

  lemma NothingPushed(k: Config, keys: seq<string>) returns (s: System)
    requires k.dedupLimit > 0 && keys != []
    ensures ReachedNoReset(k, s, Elements(keys)) && AcceptedFirst(k, keys, s, 0)
  {
    s := System(EMPTY, seq(|keys|, i requires 0 <= i < |keys| => Carrying(keys[i])) + [Carrying(keys[0])], false);
    var t := [s];
    assert Run(k, t) && NoResets(k, t) && Carry(t[0], Elements(keys)) && t[|t| - 1] == s;
  }

  lemma {:induction false} AcceptAll(k: Config, keys: seq<string>, j: nat) returns (s: System)
    requires AcceptsSomething(k) && k.dedupEnabled && k.dedupLimit > 0
    requires Distinct(keys) && keys != [] && j <= |keys|
    ensures ReachedNoReset(k, s, Elements(keys)) && AcceptedFirst(k, keys, s, j)
  {
    if j == 0 {
      s := NothingPushed(k, keys);
    } else {
      var before := AcceptAll(k, keys, j - 1);
      AcceptedOneMore(k, keys, before, j - 1);
      PushedReached(k, before, j - 1, Elements(keys));
      s := PushedAndReceived(k, before, j - 1);
    }
  }

  lemma AcceptsTwice(k: Config, keys: seq<string>) returns (s: System)
    requires AcceptsSomething(k) && k.dedupEnabled && Distinct(keys) && |keys| > k.dedupLimit > 0
    ensures ReachedNoReset(k, s, Elements(keys)) && AcceptedWith(s.core.acceptedLog, keys[0]) >= 2
  {
    var n := |keys|;
    var before := AcceptAll(k, keys, n);
    assert before.pushes[n] == Carrying(keys[0]);
    AcceptedNow(k, before, n);
    PushedReached(k, before, n, Elements(keys));
    LogGrows(before.core.acceptedLog, before.pushes[n].item, keys[0]);
    s := PushedAndReceived(k, before, n);
  }

  /** Main result, over all runs without resets: with dedup on, no fingerprint is accepted
      twice exactly when the limit is off or covers the distinct fingerprints, or nothing is
      ever accepted. */
  lemma AcceptsOnceIff(k: Config, fingerprints: set<string>)
    requires k.dedupEnabled
    ensures AcceptsOnce(k, fingerprints)
       <==> k.dedupLimit == 0 || |fingerprints| <= k.dedupLimit || !AcceptsSomething(k)
  {
    if k.dedupLimit == 0 || |fingerprints| <= k.dedupLimit {
      forall s, f | ReachedNoReset(k, s, fingerprints) ensures AcceptedWith(s.core.acceptedLog, f) <= 1 {
        var t :| Run(k, t) && NoResets(k, t) && Carry(t[0], fingerprints) && t[|t| - 1] == s;
        UnclearedAlongRun(k, t, |t| - 1, fingerprints);
        DedupWorks(k, s, f);
      }
    } else if !AcceptsSomething(k) {
      forall s, f | ReachedNoReset(k, s, fingerprints) ensures AcceptedWith(s.core.acceptedLog, f) <= 1 {
        var t :| Run(k, t) && NoResets(k, t) && Carry(t[0], fingerprints) && t[|t| - 1] == s;
        NoRoomNoQueue(k, t, |t| - 1);
      }
    } else {
      var keys := SortedKeys(fingerprints);
      DistinctCard(keys);
      var s := AcceptsTwice(k, keys);
      assert AcceptedWith(s.core.acceptedLog, keys[0]) > 1;
    }
  }

  // ---- flows above the byte cap ----

  /** In some run a push of a flow larger than the cap is answered Accepted. */
  ghost predicate AcceptsOversized(k: Config) {
    exists s, i: nat :: Reachable(k, s) && i < |s.pushes| && OversizedAccepted(k, s.pushes[i])
  }

  predicate OversizedAccepted(k: Config, p: Push) {
    p.item.sizeBytes > k.maxBytes && AnsweredWith(p, Accepted)
  }

  lemma OversizedRefused(k: Config, s: System, i: nat)
    requires k.maxBytes > 0 && k.policy != DropOldest && Reachable(k, s) && i < |s.pushes|
    ensures !OversizedAccepted(k, s.pushes[i])
  {
    var t :| Run(k, t) && t[|t| - 1] == s;
    if k.capacity > 0 {
      OversizedNeverAccepted(k, t, |t| - 1);
    } else {
      var item := s.pushes[i].item;
      NoRoomNoQueue(k, t, |t| - 1);
      AnswersAreTrue(k, s, item);
      CountZero(s.pushes, (p: Push) => p.item == item && AnsweredWith(p, Accepted));
    }
  }

  /** DropOldest accepts every flow that gets to the queue, whatever its size, and it is then
      the youngest in the queue and in the history. */
  lemma DropOldestAccepts(k: Config, s: System, i: nat)
    requires k.policy == DropOldest && i < |s.pushes| && s.pushes[i].pc == Queueing
    ensures var s', item := Apply(k, s, PushStep(i)), s.pushes[i].item;
            && AnsweredWith(s'.pushes[i], Accepted) && s'.core.acceptedLog == s.core.acceptedLog + [item]
            && s'.core.queue != [] && s'.core.queue[|s'.core.queue| - 1] == item
  {
    EvictKeepsLog(k, s.core, s.pushes[i].item.sizeBytes);
  }

  lemma OversizedLands(k: Config, item: Item) returns (s: System)
    requires k.policy == DropOldest
    ensures Reachable(k, s) && |s.pushes| == 1 && s.pushes[0].item == item && AnsweredWith(s.pushes[0], Accepted)
  {
    var s0 := System(EMPTY, [Fresh(item)], false);
    ReachedAtStart(k, s0);
    ThreeReached(k, s0, 0);
    DropOldestAccepts(k, Apply(k, Apply(k, s0, PushStep(0)), PushStep(0)), 0);
    s := ThreeSteps(k, s0, 0);
  }

  /** With a byte cap, for every configuration: a flow above it is accepted in some run
      exactly when the policy is DropOldest. */
  lemma OversizedAcceptedIff(k: Config)
    requires k.maxBytes > 0
    ensures AcceptsOversized(k) <==> k.policy == DropOldest
  {
    if k.policy == DropOldest {
      var s := OversizedLands(k, Item("", "", k.maxBytes + 1));
      assert OversizedAccepted(k, s.pushes[0]);
    } else {
      forall s, i: nat | Reachable(k, s) && i < |s.pushes| ensures !OversizedAccepted(k, s.pushes[i]) {
        OversizedRefused(k, s, i);
      }
    }
  }

  // ---- what may land after the close ----

  /** A run from s to s'. */
  ghost predicate Leads(k: Config, t: seq<System>, s: System, s': System) {
    t != [] && t[0] == s && t[|t| - 1] == s' && forall j: nat :: j + 1 < |t| ==> StepAt(k, t, j)
  }

  ghost predicate StepAt(k: Config, t: seq<System>, j: nat)
    requires j + 1 < |t|
  {
    Next(k, t[j], t[j + 1])
  }

  ghost predicate Continues(k: Config, s: System, s': System) {
    exists t :: Leads(k, t, s, s')
  }

  lemma ContinuesByStep(k: Config, s: System, s': System, a: Action)
    requires Continues(k, s, s') && Enabled(s', a)
    ensures Continues(k, s, Apply(k, s', a))
  {
    var t :| Leads(k, t, s, s');
    var u := t + [Apply(k, s', a)];
    forall j: nat | j + 1 < |u| ensures StepAt(k, u, j) {
      if j + 1 < |t| { assert StepAt(k, t, j); }
    }
    assert Leads(k, u, s, Apply(k, s', a));
  }

  lemma ContinuesHere(k: Config, s: System)
    ensures Continues(k, s, s)
  {
    assert Leads(k, [s], s, s);
  }

  /** Push i is past the closed check and fits the empty queue. */
  predicate CanLand(k: Config, s: System, i: nat) {
    && i < |s.pushes| && PastCheck(s.pushes[i])
    && (k.policy == DropOldest || k.maxBytes == 0 || s.pushes[i].item.sizeBytes <= k.maxBytes)
  }

  /** Closed and empty, with nothing on its way that could land. */
  ghost predicate Sealed(k: Config, s: System, log: seq<Item>) {
    && s.core.closed && s.core.queue == [] && s.core.queuedBytes == 0 && s.core.acceptedLog == log
    && forall i: nat :: !CanLand(k, s, i)
  }

  lemma SealedStep(k: Config, s: System, a: Action, log: seq<Item>)
    requires Sealed(k, s, log) && Enabled(s, a)
    ensures Sealed(k, Apply(k, s, a), log)
  {
    var s' := Apply(k, s, a);
    if a.PushStep? {
      assert !CanLand(k, s, a.i);
      forall i: nat ensures !CanLand(k, s', i) { assert !CanLand(k, s, i); }
    } else {
      forall i: nat ensures !CanLand(k, s', i) { assert !CanLand(k, s, i); }
    }
  }

  lemma {:induction false} SealedAlong(k: Config, t: seq<System>, s: System, s': System, j: nat)
    requires Leads(k, t, s, s') && j < |t| && Sealed(k, s, s.core.acceptedLog)
    ensures Sealed(k, t[j], s.core.acceptedLog)
  {
    if j > 0 {
      SealedAlong(k, t, s, s', j - 1);
      assert StepAt(k, t, j - 1);
      var a :| Enabled(t[j - 1], a) && t[j] == Apply(k, t[j - 1], a);
      SealedStep(k, t[j - 1], a, s.core.acceptedLog);
    }
  }

  /** A push at the queue section of a closed, empty buffer. */
  lemma LandsNow(k: Config, s: System, i: nat)
    requires k.capacity > 0 && s.core.queue == [] && s.core.queuedBytes == 0
    requires CanLand(k, s, i) && s.pushes[i].pc == Queueing
    ensures |Apply(k, s, PushStep(i)).core.acceptedLog| == |s.core.acceptedLog| + 1
  {
  }

  /** One that is still before the set: after a reset it passes. */
  lemma PassesSet(k: Config, s: System, i: nat)
    requires CanLand(k, s, i) && s.pushes[i].pc == Deduping
    ensures var s' := Apply(k, Apply(k, s, ResetStep), PushStep(i));
            && s'.core.queue == s.core.queue && s'.core.queuedBytes == s.core.queuedBytes
            && s'.core.acceptedLog == s.core.acceptedLog
            && CanLand(k, s', i) && s'.pushes[i].pc == Queueing
  {
    var f := s.pushes[i].item.fingerprint;
    assert {} + {f} == {f};
  }

  lemma CanLandLands(k: Config, s: System, i: nat) returns (s': System)
    requires k.capacity > 0 && s.core.queue == [] && s.core.queuedBytes == 0 && CanLand(k, s, i)
    ensures Continues(k, s, s') && |s'.core.acceptedLog| > |s.core.acceptedLog|
  {
    ContinuesHere(k, s);
    s' := s;
    if s.pushes[i].pc == Deduping {
      PassesSet(k, s, i);
      ContinuesByStep(k, s, s', ResetStep);
      s' := Apply(k, s', ResetStep);
      ContinuesByStep(k, s, s', PushStep(i));
      s' := Apply(k, s', PushStep(i));
    }
    LandsNow(k, s', i);
    ContinuesByStep(k, s, s', PushStep(i));
    s' := Apply(k, s', PushStep(i));
  }

  /** Main result: from a reachable closed and empty buffer, which is where recv reports the
      end of the stream, a flow can still be accepted exactly when some push is past the
      closed check and is not refused for its size. */
  lemma LateLandingIff(k: Config, s: System)
    requires Reachable(k, s) && k.capacity > 0 && s.core.closed && s.core.queue == []
    ensures (exists s' :: Continues(k, s, s') && |s'.core.acceptedLog| > |s.core.acceptedLog|)
       <==> (exists i: nat :: CanLand(k, s, i))
  {
    BufferIsSafe(k, s);
    if i: nat :| CanLand(k, s, i) {
      var s' := CanLandLands(k, s, i);
    } else {
      forall s' | Continues(k, s, s') ensures s'.core.acceptedLog == s.core.acceptedLog {
        var t :| Leads(k, t, s, s');
        SealedAlong(k, t, s, s', |t| - 1);
      }
    }
  }
}
