/** The scan worker pool (`worker_loop` with its shared budget, dedup set and stop cell),
    as interleaved atomic steps of any number of workers. */
module ScanScheduler {
  import opened Text
  import opened Counting

  datatype StopReason = Completed | Cancelled | BudgetExhausted | DurationExceeded | ScopeViolation

  /** A planned request: its dedup fingerprint and what the scope guard says of its URL. */
  datatype Mutation = Mutation(fingerprint: string, inScope: bool)

  /** `timed` says whether the scan has a wall-clock budget. */
  datatype Plan = Plan(
    mutations: seq<Mutation>, budget: nat, dedupEnabled: bool, dedupLimit: nat, workers: nat, timed: bool)

  /** Where a worker stands between two atomic steps. */
  datatype Pc =
    | Top                          // about to look at the cancellation token
    | Claiming                     // about to advance the cursor
    | Claimed(index: nat)          // about to ask the scope guard
    | Loading(index: nat)          // about to load the budget
    | Swapping(index: nat, current: nat)  // loaded, about to compare-and-swap
    | Taken(index: nat)            // holds a slot, about to ask the dedup set
    | Admitted(index: nat)         // first seen, about to count the request
    | Sending(index: nat)          // counted, about to send
    | Refused                      // got no slot, about to ask the clock
    | Stopping(reason: StopReason) // about to write the stop cell
    | Done

  datatype State = State(
    cursor: nat, remaining: nat, seen: set<string>, requestsSent: nat,
    stop: StopReason, cancelled: bool, overdue: bool, pcs: seq<Pc>,
    dispatched: seq<nat>, dropped: seq<nat>, abandoned: seq<nat>)

  // ---- the shared cells ----

  /** Shared::set_stop: the first reason written stays. */
  function SetStop(stop: StopReason, reason: StopReason): StopReason {
    if stop == Completed then reason else stop
  }

  /** RequestDedup::first_seen under its lock: the verdict and the new set. */
  function FirstSeen(seen: set<string>, enabled: bool, limit: nat, fingerprint: string): (bool, set<string>) {
    if !enabled then (true, seen)
    else if fingerprint in seen then (false, seen)
    else if |seen| >= limit then (true, {fingerprint})
    else (true, seen + {fingerprint})
  }

  /** compare_exchange(current, current - 1) on the budget. */
  function Swap(remaining: nat, current: nat): (bool, nat)
    requires current > 0
  {
    if remaining == current then (true, current - 1) else (false, remaining)
  }

  // ---- steps ----

  function Init(p: Plan): State {
    State(0, p.budget, {}, 0, Completed, false, false, seq(p.workers, _ => Top), [], [], [])
  }

  function Goto(s: State, w: nat, pc: Pc): State
    requires w < |s.pcs|
  {
    s.(pcs := s.pcs[w := pc])
  }

  predicate HasIndex(pc: Pc) {
    pc.Claimed? || pc.Loading? || pc.Swapping? || pc.Taken? || pc.Admitted? || pc.Sending?
  }

  predicate Holds(pc: Pc, i: nat) {
    HasIndex(pc) && pc.index == i
  }

  /** A worker that has not returned; the two conjuncts on its registers always hold
      (see NobodyIsStuck). */
  predicate CanStep(p: Plan, s: State, w: nat) {
    w < |s.pcs| && s.pcs[w] != Done
    && (HasIndex(s.pcs[w]) ==> s.pcs[w].index < |p.mutations|)
    && (s.pcs[w].Swapping? ==> s.pcs[w].current > 0)
  }

  /** One atomic step of worker w. */
  function Step(p: Plan, s: State, w: nat): State
    requires CanStep(p, s, w)
  {
    match s.pcs[w]
    case Top => Goto(s, w, if s.cancelled then Stopping(Cancelled) else Claiming)
    case Claiming =>
      var s' := s.(cursor := s.cursor + 1);
      Goto(s', w, if s.cursor < |p.mutations| then Claimed(s.cursor) else Done)
    case Claimed(i) =>
      if p.mutations[i].inScope then Goto(s, w, Loading(i))
      else Goto(s.(abandoned := s.abandoned + [i]), w, Stopping(ScopeViolation))
    case Loading(i) =>
      if s.remaining == 0 then Goto(s.(abandoned := s.abandoned + [i]), w, Refused)
      else Goto(s, w, Swapping(i, s.remaining))
    case Swapping(i, current) =>
      var (ok, remaining) := Swap(s.remaining, current);
      Goto(s.(remaining := remaining), w, if ok then Taken(i) else Loading(i))
    case Taken(i) =>
      var (first, seen) := FirstSeen(s.seen, p.dedupEnabled, p.dedupLimit, p.mutations[i].fingerprint);
      if first then Goto(s.(seen := seen), w, Admitted(i))
      else Goto(s.(dropped := s.dropped + [i]), w, Top)
    case Admitted(i) => Goto(s.(requestsSent := s.requestsSent + 1), w, Sending(i))
    case Sending(i) => Goto(s.(dispatched := s.dispatched + [i]), w, Top)
    case Refused => Goto(s, w, Stopping(if s.overdue then DurationExceeded else BudgetExhausted))
    case Stopping(reason) => Goto(s.(stop := SetStop(s.stop, reason)), w, Done)
  }

  /** What comes from outside: the cancellation, and the deadline if there is one. */
  predicate Outside(p: Plan, s: State, s': State) {
    s' == s.(cancelled := true) || (p.timed && s' == s.(overdue := true))
  }

  ghost predicate Next(p: Plan, s: State, s': State) {
    Outside(p, s, s') || exists w: nat :: CanStep(p, s, w) && s' == Step(p, s, w)
  }

  ghost predicate Run(p: Plan, t: seq<State>) {
    t != [] && t[0] == Init(p) && forall i: nat :: i + 1 < |t| ==> StepAt(p, t, i)
  }

  ghost predicate StepAt(p: Plan, t: seq<State>, i: nat)
    requires i + 1 < |t|
  {
    Next(p, t[i], t[i + 1])
  }

  ghost predicate Reachable(p: Plan, s: State) {
    exists t :: Run(p, t) && t[|t| - 1] == s
  }

  // ---- counting over workers ----

  /** Holds a budget slot it has not yet spent. */
  predicate HoldsSlot(pc: Pc) {
    pc.Taken? || pc.Admitted? || pc.Sending?
  }

  /** Passed the dedup set with this fingerprint and is on its way to the wire. */
  predicate InFlight(p: Plan, pc: Pc, f: string) {
    (pc.Admitted? || pc.Sending?) && FingerprintAt(p, pc.index) == f
  }

  function FingerprintAt(p: Plan, i: nat): string {
    if i < |p.mutations| then p.mutations[i].fingerprint else ""
  }

  ghost function HeldBy(s: State, i: nat): nat {
    Count(s.pcs, (pc: Pc) => Holds(pc, i))
  }

  ghost function Slots(s: State): nat {
    Count(s.pcs, HoldsSlot)
  }

  ghost function Sendings(s: State): nat {
    Count(s.pcs, (pc: Pc) => pc.Sending?)
  }

  ghost function Flying(p: Plan, s: State, f: string): nat {
    Count(s.pcs, (pc: Pc) => InFlight(p, pc, f))
  }

  /** How many requests with this fingerprint are in a log. */
  function Logged(p: Plan, log: seq<nat>, f: string): nat {
    if log == [] then 0
    else Logged(p, log[..|log| - 1], f) + (if FingerprintAt(p, log[|log| - 1]) == f then 1 else 0)
  }

  // ---- the invariant ----

  /** Every claimed index is in exactly one place: one log entry or one worker. */
  ghost predicate Custody(p: Plan, s: State) {
    forall i: nat :: Placed(s, i) == if i < s.cursor && i < |p.mutations| then 1 else 0
  }

  /** How many places index i is in. */
  ghost function Placed(s: State, i: nat): nat {
    InLogs(s, i) + HeldBy(s, i)
  }

  ghost function InLogs(s: State, i: nat): nat {
    multiset(s.dispatched)[i] + multiset(s.dropped)[i] + multiset(s.abandoned)[i]
  }

  /** A worker past the scope check holds an in-scope mutation; so does the wire. */
  ghost predicate Scoped(p: Plan, s: State) {
    && |s.pcs| == p.workers
    && (forall w | 0 <= w < |s.pcs| :: ScopedPc(p, s.pcs[w]))
    && (forall i | i in s.dispatched || i in s.dropped :: i < |p.mutations| && p.mutations[i].inScope)
  }

  predicate ScopedPc(p: Plan, pc: Pc) {
    && (HasIndex(pc) ==> pc.index < |p.mutations| && (pc.Claimed? || p.mutations[pc.index].inScope))
    && (pc.Swapping? ==> pc.current > 0)
  }

  /** Slots are conserved and every counted request has one. */
  ghost predicate Ledger(p: Plan, s: State) {
    && s.remaining + |s.dispatched| + |s.dropped| + Slots(s) == p.budget
    && s.requestsSent == |s.dispatched| + Sendings(s)
  }

  /** On its way to the stop cell. */
  predicate Halting(pc: Pc) {
    pc.Refused? || pc.Stopping?
  }

  ghost predicate SomeStopping(s: State) {
    exists w | 0 <= w < |s.pcs| :: Halting(s.pcs[w])
  }

  /** An abandoned mutation leaves a trace in the stop cell; stops are justified. */
  ghost predicate Stops(p: Plan, s: State) {
    && (s.abandoned != [] ==> s.stop != Completed || SomeStopping(s))
    && (forall w | 0 <= w < |s.pcs| :: StopsPc(p, s, s.pcs[w]))
    && Justified(p, s, s.stop)
    && (s.overdue ==> p.timed)
    && InScopeAbandoned(p, s)
  }

  /** A mutation in scope is given up only for want of a slot. */
  ghost predicate InScopeAbandoned(p: Plan, s: State) {
    forall i | i in s.abandoned && i < |p.mutations| && p.mutations[i].inScope :: s.remaining == 0
  }

  ghost predicate StopsPc(p: Plan, s: State, pc: Pc) {
    && (pc == Done ==> s.cursor > |p.mutations| || s.stop != Completed)
    && (pc == Refused ==> s.remaining == 0)
    && (pc.Stopping? ==> pc.reason != Completed && Justified(p, s, pc.reason))
  }

  /** A mutation was given up because the scope guard refused it. */
  ghost predicate ScopeRefused(p: Plan, s: State) {
    exists i | i in s.abandoned :: i < |p.mutations| && !p.mutations[i].inScope
  }

  /** What has happened when a worker stops for this reason. */
  ghost predicate Justified(p: Plan, s: State, reason: StopReason) {
    match reason
    case Completed => true
    case Cancelled => s.cancelled
    case BudgetExhausted => s.remaining == 0
    case DurationExceeded => s.remaining == 0 && s.overdue
    case ScopeViolation => ScopeRefused(p, s)
  }

  function FingerprintsOf(p: Plan): set<string> {
    set m | m in p.mutations :: m.fingerprint
  }

  ghost predicate FitsLimit(p: Plan) {
    p.dedupEnabled && |FingerprintsOf(p)| <= p.dedupLimit
  }

  /** Requests with this fingerprint that passed the dedup set. */
  ghost function LetThrough(p: Plan, s: State, f: string): nat {
    Logged(p, s.dispatched, f) + Flying(p, s, f)
  }

  /** A fingerprint is in the set exactly when one request with it is sent or in flight. */
  ghost predicate OncePerFingerprint(p: Plan, s: State) {
    && (forall f :: LetThrough(p, s, f) == if f in s.seen then 1 else 0)
    && s.seen <= FingerprintsOf(p)
    && (forall i | i in s.dropped :: FingerprintAt(p, i) in s.seen)
  }

  // ---- preservation ----

  lemma CustodyStep(p: Plan, s: State, w: nat)
    requires Custody(p, s) && CanStep(p, s, w)
    ensures Custody(p, Step(p, s, w))
  {
    var s' := Step(p, s, w);
    forall i: nat ensures Placed(s', i) == if i < s'.cursor && i < |p.mutations| then 1 else 0 {
      PlacedAfterStep(p, s, w, i);
    }
  }

  /** Claiming puts the index at the cursor in one place; other steps only move indexes. */
  lemma PlacedAfterStep(p: Plan, s: State, w: nat, i: nat)
    requires CanStep(p, s, w)
    ensures Placed(Step(p, s, w), i)
         == Placed(s, i) + (if s.pcs[w].Claiming? && i == s.cursor < |p.mutations| then 1 else 0)
  {
    var s' := Step(p, s, w);
    CountAfterUpdate(s.pcs, w, s'.pcs[w], (pc: Pc) => Holds(pc, i));
    StepShape(p, s, w);
    PlacedBalance(s, s', w, i);
  }

  /** A worker that lets go of its index puts it at the end of exactly one log. */
  ghost predicate Released(s: State, s': State, x: nat) {
    || (s'.dispatched == s.dispatched + [x] && s'.dropped == s.dropped && s'.abandoned == s.abandoned)
    || (s'.dispatched == s.dispatched && s'.dropped == s.dropped + [x] && s'.abandoned == s.abandoned)
    || (s'.dispatched == s.dispatched && s'.dropped == s.dropped && s'.abandoned == s.abandoned + [x])
  }

  ghost predicate SameLogs(s: State, s': State) {
    s'.dispatched == s.dispatched && s'.dropped == s.dropped && s'.abandoned == s.abandoned
  }

  lemma StepShape(p: Plan, s: State, w: nat)
    requires CanStep(p, s, w)
    ensures var s' := Step(p, s, w);
            && |s'.pcs| == |s.pcs| && s'.pcs == s.pcs[w := s'.pcs[w]]
            && (HasIndex(s.pcs[w]) && !HasIndex(s'.pcs[w]) ==> Released(s, s', s.pcs[w].index))
            && (HasIndex(s.pcs[w]) && HasIndex(s'.pcs[w]) ==> s'.pcs[w].index == s.pcs[w].index)
            && (!HasIndex(s.pcs[w]) || HasIndex(s'.pcs[w]) ==> SameLogs(s, s'))
            && (!HasIndex(s.pcs[w]) && HasIndex(s'.pcs[w]) <==> s.pcs[w].Claiming? && s.cursor < |p.mutations|)
            && (s.pcs[w].Claiming? && s.cursor < |p.mutations| ==> s'.pcs[w] == Claimed(s.cursor))
  {
  }

  lemma PlacedBalance(s: State, s': State, w: nat, i: nat)
    requires w < |s.pcs| == |s'.pcs|
    requires HeldBy(s', i) + (if Holds(s.pcs[w], i) then 1 else 0)
          == HeldBy(s, i) + (if Holds(s'.pcs[w], i) then 1 else 0)
    requires HasIndex(s.pcs[w]) && !HasIndex(s'.pcs[w]) ==> Released(s, s', s.pcs[w].index)
    requires HasIndex(s.pcs[w]) && HasIndex(s'.pcs[w]) ==> s'.pcs[w].index == s.pcs[w].index
    requires !HasIndex(s.pcs[w]) || HasIndex(s'.pcs[w]) ==> SameLogs(s, s')
    ensures Placed(s', i) == Placed(s, i) + (if !HasIndex(s.pcs[w]) && Holds(s'.pcs[w], i) then 1 else 0)
  {
    if HasIndex(s.pcs[w]) {
      AppendCount(s.dispatched, s.pcs[w].index, i);
      AppendCount(s.dropped, s.pcs[w].index, i);
      AppendCount(s.abandoned, s.pcs[w].index, i);
    }
  }

  lemma AppendCount(log: seq<nat>, x: nat, i: nat)
    ensures multiset(log + [x])[i] == multiset(log)[i] + (if x == i then 1 else 0)
  {
  }

  lemma ScopedStep(p: Plan, s: State, w: nat)
    requires Scoped(p, s) && CanStep(p, s, w)
    ensures Scoped(p, Step(p, s, w))
  {
    assert ScopedPc(p, s.pcs[w]);
  }

  lemma LedgerStep(p: Plan, s: State, w: nat)
    requires Ledger(p, s) && CanStep(p, s, w)
    ensures Ledger(p, Step(p, s, w))
  {
    var s' := Step(p, s, w);
    CountAfterUpdate(s.pcs, w, s'.pcs[w], HoldsSlot);
    CountAfterUpdate(s.pcs, w, s'.pcs[w], (pc: Pc) => pc.Sending?);
    SlotShape(p, s, w);
  }

  /** What a step does to the sums in the ledger. */
  lemma SlotShape(p: Plan, s: State, w: nat)
    requires CanStep(p, s, w)
    ensures var s' := Step(p, s, w);
            && s'.pcs == s.pcs[w := s'.pcs[w]]
            && s'.remaining + |s'.dispatched| + |s'.dropped| + (if HoldsSlot(s'.pcs[w]) then 1 else 0)
            == s.remaining + |s.dispatched| + |s.dropped| + (if HoldsSlot(s.pcs[w]) then 1 else 0)
            && s'.requestsSent - |s'.dispatched| - (if s'.pcs[w].Sending? then 1 else 0)
            == s.requestsSent - |s.dispatched| - (if s.pcs[w].Sending? then 1 else 0)
  {
  }

  lemma StopsStep(p: Plan, s: State, w: nat)
    requires Stops(p, s) && CanStep(p, s, w)
    ensures Stops(p, Step(p, s, w))
  {
    var s' := Step(p, s, w);
    assert StopsPc(p, s, s.pcs[w]);
    forall v | 0 <= v < |s'.pcs| ensures StopsPc(p, s', s'.pcs[v]) {
      StopsPcStep(p, s, w, v);
    }
    AbandonedStep(p, s, w);
    StopWrittenStep(p, s, w);
    InScopeAbandonedStep(p, s, w);
  }

  /** What justified a stop is never undone. */
  lemma JustifiedStays(p: Plan, s: State, w: nat, reason: StopReason)
    requires CanStep(p, s, w) && Justified(p, s, reason)
    ensures Justified(p, Step(p, s, w), reason)
  {
    var s' := Step(p, s, w);
    assert s.abandoned <= s'.abandoned && s'.cancelled == s.cancelled && s'.overdue == s.overdue;
    assert s'.remaining <= s.remaining;
    if ScopeRefused(p, s) {
      var i :| i in s.abandoned && i < |p.mutations| && !p.mutations[i].inScope;
      assert i in s'.abandoned;
    }
  }

  /** The reason a worker newly stops for. */
  lemma NewReason(p: Plan, s: State, w: nat)
    requires CanStep(p, s, w) && StopsPc(p, s, s.pcs[w])
    ensures StopsPc(p, Step(p, s, w), Step(p, s, w).pcs[w])
  {
    var s' := Step(p, s, w);
    match s.pcs[w]
    case Claimed(i) =>
      if !p.mutations[i].inScope { assert s'.abandoned[|s.abandoned|] == i; }
    case Stopping(reason) => JustifiedStays(p, s, w, reason);
    case _ =>
  }

  lemma StopsPcStep(p: Plan, s: State, w: nat, v: nat)
    requires CanStep(p, s, w) && v < |s.pcs| && StopsPc(p, s, s.pcs[v]) && StopsPc(p, s, s.pcs[w])
    ensures var s' := Step(p, s, w); |s'.pcs| == |s.pcs| && StopsPc(p, s', s'.pcs[v])
  {
    if v == w {
      NewReason(p, s, w);
    } else {
      var s' := Step(p, s, w);
      assert s'.pcs[v] == s.pcs[v] && s'.cursor >= s.cursor;
      assert s.stop != Completed ==> s'.stop == s.stop;
      if s.pcs[v].Stopping? { JustifiedStays(p, s, w, s.pcs[v].reason); }
    }
  }

  lemma AbandonedStep(p: Plan, s: State, w: nat)
    requires CanStep(p, s, w) && StopsPc(p, s, s.pcs[w])
    requires s.abandoned != [] ==> s.stop != Completed || SomeStopping(s)
    ensures var s' := Step(p, s, w); s'.abandoned != [] ==> s'.stop != Completed || SomeStopping(s')
  {
    var s' := Step(p, s, w);
    if s'.abandoned != [] && s'.stop == Completed {
      if s'.abandoned != s.abandoned {
        assert Halting(s'.pcs[w]);
      } else {
        var v :| 0 <= v < |s.pcs| && Halting(s.pcs[v]);
        assert Halting(s'.pcs[v]);
      }
    }
  }

  lemma StopWrittenStep(p: Plan, s: State, w: nat)
    requires CanStep(p, s, w) && StopsPc(p, s, s.pcs[w]) && Justified(p, s, s.stop)
    ensures Justified(p, Step(p, s, w), Step(p, s, w).stop)
  {
    JustifiedStays(p, s, w, s.stop);
    if s.pcs[w].Stopping? { JustifiedStays(p, s, w, s.pcs[w].reason); }
  }

  lemma InScopeAbandonedStep(p: Plan, s: State, w: nat)
    requires CanStep(p, s, w) && InScopeAbandoned(p, s)
    ensures InScopeAbandoned(p, Step(p, s, w))
  {
  }

  lemma RoomInSeen(p: Plan, s: State, i: nat)
    requires FitsLimit(p) && s.seen <= FingerprintsOf(p)
    requires i < |p.mutations| && p.mutations[i].fingerprint !in s.seen
    ensures |s.seen| < p.dedupLimit && s.seen + {p.mutations[i].fingerprint} <= FingerprintsOf(p)
  {
    assert p.mutations[i] in p.mutations;
    SubsetCard(s.seen + {p.mutations[i].fingerprint}, FingerprintsOf(p));
  }

  lemma OncePerFingerprintStep(p: Plan, s: State, w: nat)
    requires FitsLimit(p) && OncePerFingerprint(p, s) && CanStep(p, s, w)
    ensures OncePerFingerprint(p, Step(p, s, w))
  {
    SeenAfterStep(p, s, w);
    forall f ensures LetThrough(p, Step(p, s, w), f) == if f in Step(p, s, w).seen then 1 else 0 {
      FlyingAfterStep(p, s, w, f);
    }
  }

  /** With room for every fingerprint, the dedup step only ever adds to the set, and adds
      exactly what it lets through. */
  lemma SeenAfterStep(p: Plan, s: State, w: nat)
    requires FitsLimit(p) && OncePerFingerprint(p, s) && CanStep(p, s, w)
    ensures var s' := Step(p, s, w);
            && s'.seen <= FingerprintsOf(p) && (forall i | i in s'.dropped :: FingerprintAt(p, i) in s'.seen)
            && (forall f :: f in s'.seen <==>
                  (f in s.seen || (s.pcs[w].Taken? && s'.pcs[w].Admitted? && FingerprintAt(p, s.pcs[w].index) == f)))
            && (s.pcs[w].Taken? && s'.pcs[w].Admitted? ==> FingerprintAt(p, s.pcs[w].index) !in s.seen)
  {
    if s.pcs[w].Taken? && FingerprintAt(p, s.pcs[w].index) !in s.seen {
      RoomInSeen(p, s, s.pcs[w].index);
    }
  }

  /** Only the dedup step changes how many requests with f have been let through. */
  lemma FlyingAfterStep(p: Plan, s: State, w: nat, f: string)
    requires CanStep(p, s, w)
    ensures var s' := Step(p, s, w);
            LetThrough(p, s', f) == LetThrough(p, s, f)
              + (if s.pcs[w].Taken? && s'.pcs[w].Admitted? && FingerprintAt(p, s.pcs[w].index) == f then 1 else 0)
  {
    var s' := Step(p, s, w);
    CountAfterUpdate(s.pcs, w, s'.pcs[w], (pc: Pc) => InFlight(p, pc, f));
    FlightShape(p, s, w);
    if s.pcs[w].Sending? {
      assert s'.dispatched[..|s'.dispatched| - 1] == s.dispatched;
    }
  }

  lemma FlightShape(p: Plan, s: State, w: nat)
    requires CanStep(p, s, w)
    ensures var s' := Step(p, s, w);
            && s'.pcs == s.pcs[w := s'.pcs[w]]
            && s'.dispatched == s.dispatched + (if s.pcs[w].Sending? then [s.pcs[w].index] else [])
            && (s'.pcs[w].Sending? <==> s.pcs[w].Admitted?)
            && (s'.pcs[w].Admitted? ==> s.pcs[w].Taken?)
            && (s'.pcs[w].Sending? || s'.pcs[w].Admitted? ==> s'.pcs[w].index == s.pcs[w].index)
  {
  }

  /** Whatever the limit: only dedup drops, and only repeats of what it has let through. */
  ghost predicate Dropped(p: Plan, s: State) {
    && (!p.dedupEnabled ==> s.dropped == [])
    && (forall f | f in s.seen :: LetThrough(p, s, f) >= 1)
    && (forall i | i in s.dropped :: LetThrough(p, s, FingerprintAt(p, i)) >= 1)
  }

  lemma DroppedStep(p: Plan, s: State, w: nat)
    requires Dropped(p, s) && CanStep(p, s, w)
    ensures Dropped(p, Step(p, s, w))
  {
    var s' := Step(p, s, w);
    DroppedShape(p, s, w);
    forall f ensures LetThrough(p, s', f) >= LetThrough(p, s, f) { FlyingAfterStep(p, s, w, f); }
    if s.pcs[w].Taken? { FlyingAfterStep(p, s, w, FingerprintAt(p, s.pcs[w].index)); }
  }

  /** What a step does to the dedup set and to what it drops. */
  lemma DroppedShape(p: Plan, s: State, w: nat)
    requires CanStep(p, s, w)
    ensures var s', f := Step(p, s, w), if HasIndex(s.pcs[w]) then FingerprintAt(p, s.pcs[w].index) else "";
            && (s'.seen == s.seen || (s.pcs[w].Taken? && s'.pcs[w].Admitted? && s'.seen <= s.seen + {f}))
            && (s'.dropped == s.dropped
                || (s.pcs[w].Taken? && p.dedupEnabled && f in s.seen && s'.dropped == s.dropped + [s.pcs[w].index]))
  {
  }

  ghost predicate Invariant(p: Plan, s: State) {
    Custody(p, s) && Scoped(p, s) && Ledger(p, s) && Stops(p, s) && Dropped(p, s)
    && (FitsLimit(p) ==> OncePerFingerprint(p, s))
  }

  lemma InvariantAtStart(p: Plan)
    ensures Invariant(p, Init(p))
  {
    var s := Init(p);
    forall i: nat ensures HeldBy(s, i) == 0 {
      CountZero(s.pcs, (pc: Pc) => Holds(pc, i));
    }
    forall f ensures LetThrough(p, s, f) == 0 {
      CountZero(s.pcs, (pc: Pc) => InFlight(p, pc, f));
    }
    CountZero(s.pcs, HoldsSlot);
    CountZero(s.pcs, (pc: Pc) => pc.Sending?);
  }

  lemma InvariantStep(p: Plan, s: State, s': State)
    requires Invariant(p, s) && Next(p, s, s')
    ensures Invariant(p, s')
  {
    if Outside(p, s, s') {
      InvariantOutside(p, s, s');
    } else {
      var w: nat :| CanStep(p, s, w) && s' == Step(p, s, w);
      CustodyStep(p, s, w);
      ScopedStep(p, s, w);
      LedgerStep(p, s, w);
      StopsStep(p, s, w);
      DroppedStep(p, s, w);
      if FitsLimit(p) { OncePerFingerprintStep(p, s, w); }
    }
  }

  lemma InvariantOutside(p: Plan, s: State, s': State)
    requires Invariant(p, s) && Outside(p, s, s')
    ensures Invariant(p, s')
  {
    assert forall i: nat :: Placed(s', i) == Placed(s, i);
    assert forall f :: LetThrough(p, s', f) == LetThrough(p, s, f);
    assert Slots(s') == Slots(s) && Sendings(s') == Sendings(s);
    StopsOutside(p, s, s');
  }

  lemma StopsOutside(p: Plan, s: State, s': State)
    requires Stops(p, s) && Outside(p, s, s')
    ensures Stops(p, s')
  {
    assert SomeStopping(s) ==> SomeStopping(s');
    assert ScopeRefused(p, s) ==> ScopeRefused(p, s');
    forall w | 0 <= w < |s.pcs| ensures StopsPc(p, s', s'.pcs[w]) { assert StopsPc(p, s, s.pcs[w]); }
  }

  lemma {:induction false} InvariantAlongRun(p: Plan, t: seq<State>, k: nat)
    requires Run(p, t) && k < |t|
    ensures Invariant(p, t[k])
  {
    if k == 0 {
      InvariantAtStart(p);
    } else {
      InvariantAlongRun(p, t, k - 1);
      assert StepAt(p, t, k - 1);
      InvariantStep(p, t[k - 1], t[k]);
    }
  }

  lemma InvariantReached(p: Plan, s: State)
    requires Reachable(p, s)
    ensures Invariant(p, s)
  {
    var t :| Run(p, t) && t[|t| - 1] == s;
    InvariantAlongRun(p, t, |t| - 1);
  }

  // ---- main results, for every interleaving of any number of workers ----

  /** No index is worked on twice: it is never with two workers, nor with a worker and in
      a log, nor in the logs twice. */
  lemma EachIndexOnce(p: Plan, s: State)
    requires Reachable(p, s)
    ensures forall i: nat :: multiset(s.dispatched + s.dropped + s.abandoned)[i] <= 1
    ensures forall v, w, i: nat
              | 0 <= v < |s.pcs| && 0 <= w < |s.pcs| && Holds(s.pcs[v], i) && Holds(s.pcs[w], i) :: v == w
    ensures forall w, i: nat | 0 <= w < |s.pcs| && Holds(s.pcs[w], i) :: i !in s.dispatched + s.dropped + s.abandoned
  {
    InvariantReached(p, s);
    forall i: nat ensures multiset(s.dispatched + s.dropped + s.abandoned)[i] + HeldBy(s, i) == Placed(s, i) <= 1 {}
    forall v, w, i: nat | 0 <= v < |s.pcs| && 0 <= w < |s.pcs| && Holds(s.pcs[v], i) && Holds(s.pcs[w], i)
      ensures v == w
    {
      assert HeldBy(s, i) <= Placed(s, i) <= 1;
      if v < w { TwoHolders(s.pcs, (pc: Pc) => Holds(pc, i), v, w); }
      if w < v { TwoHolders(s.pcs, (pc: Pc) => Holds(pc, i), w, v); }
    }
    forall w, i: nat | 0 <= w < |s.pcs| && Holds(s.pcs[w], i)
      ensures i !in s.dispatched + s.dropped + s.abandoned
    {
      CountZero(s.pcs, (pc: Pc) => Holds(pc, i));
      assert HeldBy(s, i) >= 1 && Placed(s, i) <= 1;
      assert multiset(s.dispatched + s.dropped + s.abandoned)[i] == 0;
    }
  }

  /** Only in-scope requests go out; slots taken plus slots left are the budget; the
      request counter never exceeds the slots taken. */
  lemma PoolIsSafe(p: Plan, s: State)
    requires Reachable(p, s)
    ensures forall i | i in s.dispatched :: i < |p.mutations| && p.mutations[i].inScope
    ensures p.budget - s.remaining == |s.dispatched| + |s.dropped| + Slots(s)
    ensures |s.dispatched| <= s.requestsSent <= p.budget - s.remaining
    ensures s.stop in {BudgetExhausted, DurationExceeded} ==> s.remaining == 0
  {
    InvariantReached(p, s);
    CountMonotone(s.pcs, (pc: Pc) => pc.Sending?, HoldsSlot);
  }

  /** Every stop reason, written or about to be, tells what has happened: a cancellation, a
      mutation that the scope guard refused, no slot left, no slot left after the deadline. A
      mutation in scope is given up only when no slot is left. */
  lemma StopReasonsAreTrue(p: Plan, s: State)
    requires Reachable(p, s)
    ensures forall r | r == s.stop || (exists w | 0 <= w < |s.pcs| :: s.pcs[w] == Stopping(r)) ::
              && (r == Cancelled ==> s.cancelled)
              && (r == ScopeViolation ==> exists i | i in s.abandoned :: i < |p.mutations| && !p.mutations[i].inScope)
              && (r == BudgetExhausted ==> s.remaining == 0)
              && (r == DurationExceeded ==> s.remaining == 0 && s.overdue && p.timed)
    ensures forall i | i in s.abandoned && i < |p.mutations| && p.mutations[i].inScope :: s.remaining == 0
  {
    InvariantReached(p, s);
    forall w | 0 <= w < |s.pcs| ensures StopsPc(p, s, s.pcs[w]) {}
  }

  /** The deadline has passed, and nobody has reported or is reporting a merely spent budget. */
  ghost predicate Late(s: State) {
    s.overdue && s.stop != BudgetExhausted && forall w | 0 <= w < |s.pcs| :: s.pcs[w] != Stopping(BudgetExhausted)
  }

  lemma LateMove(p: Plan, s: State, w: nat)
    requires CanStep(p, s, w) && Late(s)
    ensures Late(Step(p, s, w))
  {
    var s' := Step(p, s, w);
    assert s'.pcs == s.pcs[w := s'.pcs[w]] && s'.pcs[w] != Stopping(BudgetExhausted);
  }

  lemma LateStep(p: Plan, t: seq<State>, k: nat)
    requires Run(p, t) && 0 < k < |t| && Late(t[k - 1])
    ensures Late(t[k])
  {
    var s, s' := t[k - 1], t[k];
    assert StepAt(p, t, k - 1);
    if w: nat :| CanStep(p, s, w) && s' == Step(p, s, w) {
      LateMove(p, s, w);
    }
  }

  /** After the deadline no worker begins to report a spent budget as anything but late. */
  lemma {:induction false} OverdueIsReported(p: Plan, t: seq<State>, j: nat, k: nat)
    requires Run(p, t) && j <= k < |t| && Late(t[j])
    ensures Late(t[k])
    decreases k - j
  {
    if j < k {
      OverdueIsReported(p, t, j, k - 1);
      LateStep(p, t, k);
    }
  }

  /** Without dedup nothing is dropped; with it, only a request whose fingerprint has been
      let through, sent or on its way to the wire. */
  lemma DropsAreRepeats(p: Plan, s: State)
    requires Reachable(p, s)
    ensures !p.dedupEnabled ==> s.dropped == []
    ensures forall i | i in s.dropped ::
              Logged(p, s.dispatched, FingerprintAt(p, i)) + Flying(p, s, FingerprintAt(p, i)) >= 1
  {
    InvariantReached(p, s);
    assert forall i | i in s.dropped :: LetThrough(p, s, FingerprintAt(p, i)) >= 1;
  }

  /** A worker that has not returned can always take its next step. */
  lemma NobodyIsStuck(p: Plan, s: State, w: nat)
    requires Reachable(p, s) && w < |s.pcs| && s.pcs[w] != Done
    ensures CanStep(p, s, w)
  {
    InvariantReached(p, s);
    assert ScopedPc(p, s.pcs[w]);
  }

  ghost predicate AllDone(s: State) {
    forall w | 0 <= w < |s.pcs| :: s.pcs[w] == Done
  }

  /** When every worker has returned and the stop reason is still Completed, every planned
      mutation was sent or dropped as a duplicate, each in exactly one log entry. */
  lemma CompletedMeansAllHandled(p: Plan, s: State)
    requires Reachable(p, s) && p.workers > 0 && AllDone(s) && s.stop == Completed
    ensures forall i: nat :: multiset(s.dispatched)[i] + multiset(s.dropped)[i] == if i < |p.mutations| then 1 else 0
    ensures s.requestsSent == |s.dispatched|
    ensures !p.dedupEnabled ==> forall i: nat :: multiset(s.dispatched)[i] == if i < |p.mutations| then 1 else 0
  {
    InvariantReached(p, s);
    assert s.pcs[0] == Done && StopsPc(p, s, s.pcs[0]);
    assert s.abandoned == [];
    CountZero(s.pcs, (pc: Pc) => pc.Sending?);
    forall i: nat ensures HeldBy(s, i) == 0 {
      CountZero(s.pcs, (pc: Pc) => Holds(pc, i));
    }
    assert forall i: nat :: Placed(s, i) == multiset(s.dispatched)[i] + multiset(s.dropped)[i];
  }

  /** With dedup on and no more distinct fingerprints than the limit, a completed pool
      sent each distinct fingerprint exactly once. */
  lemma EachFingerprintSentOnce(p: Plan, s: State, f: string)
    requires Reachable(p, s) && p.workers > 0 && AllDone(s) && s.stop == Completed && FitsLimit(p)
    ensures Logged(p, s.dispatched, f) == if f in FingerprintsOf(p) then 1 else 0
  {
    InvariantReached(p, s);
    CompletedMeansAllHandled(p, s);
    CountZero(s.pcs, (pc: Pc) => InFlight(p, pc, f));
    assert LetThrough(p, s, f) == Logged(p, s.dispatched, f);
    if f in FingerprintsOf(p) {
      HandledFingerprint(p, s.dispatched, s.dropped, s.seen, f);
    }
  }

  lemma HandledFingerprint(p: Plan, dispatched: seq<nat>, dropped: seq<nat>, seen: set<string>, f: string)
    requires f in FingerprintsOf(p)
    requires forall i: nat :: multiset(dispatched)[i] + multiset(dropped)[i] == if i < |p.mutations| then 1 else 0
    requires forall i | i in dropped :: FingerprintAt(p, i) in seen
    ensures f in seen || Logged(p, dispatched, f) >= 1
  {
    var m :| m in p.mutations && m.fingerprint == f;
    var k :| 0 <= k < |p.mutations| && p.mutations[k] == m;
    assert multiset(dispatched)[k] + multiset(dropped)[k] == 1;
    if k in dispatched { LoggedPositive(p, dispatched, k); }
  }

  lemma {:induction false} LoggedPositive(p: Plan, log: seq<nat>, k: nat)
    requires k in log
    ensures Logged(p, log, FingerprintAt(p, k)) >= 1
  {
    if log[|log| - 1] != k {
      assert log == log[..|log| - 1] + [log[|log| - 1]];
      LoggedPositive(p, log[..|log| - 1], k);
    }
  }

  /** At most once holds in every state on the way, also under cancellation or a budget stop. */
  lemma NoFingerprintSentTwice(p: Plan, s: State, f: string)
    requires Reachable(p, s) && FitsLimit(p)
    ensures Logged(p, s.dispatched, f) <= 1
  {
    InvariantReached(p, s);
    assert LetThrough(p, s, f) <= 1;
  }

  /** Nothing written is taken back: the stop reason stays, the budget only shrinks, the
      cursor only moves on. */
  ghost predicate Onward(s: State, s': State) {
    && (s.stop != Completed ==> s'.stop == s.stop)
    && s'.remaining <= s.remaining && s.cursor <= s'.cursor
  }

  lemma OnwardMove(p: Plan, s: State, w: nat)
    requires CanStep(p, s, w)
    ensures Onward(s, Step(p, s, w))
  {
  }

  lemma OnwardStep(p: Plan, t: seq<State>, k: nat)
    requires Run(p, t) && 0 < k < |t|
    ensures Onward(t[k - 1], t[k])
  {
    var s, s' := t[k - 1], t[k];
    assert StepAt(p, t, k - 1);
    if w: nat :| CanStep(p, s, w) && s' == Step(p, s, w) {
      OnwardMove(p, s, w);
    }
  }

  /** A stop reason once written never changes; the budget only shrinks. */
  lemma {:induction false} StopIsFinal(p: Plan, t: seq<State>, j: nat, k: nat)
    requires Run(p, t) && j <= k < |t|
    ensures t[j].stop != Completed ==> t[k].stop == t[j].stop
    ensures t[k].remaining <= t[j].remaining && t[j].cursor <= t[k].cursor
    decreases k - j
  {
    if j < k {
      StopIsFinal(p, t, j, k - 1);
      OnwardStep(p, t, k);
    }
  }

  // ---- cancellation ----

  /** Past the look at the token, and not yet back at it: may still send one request. */
  predicate Underway(pc: Pc) {
    pc.Claiming? || HasIndex(pc)
  }

  ghost function WorkersUnderway(s: State): nat {
    Count(s.pcs, Underway)
  }

  lemma CancelledShape(p: Plan, s: State, w: nat)
    requires CanStep(p, s, w) && s.cancelled
    ensures var s' := Step(p, s, w);
            && s'.cancelled && s'.pcs == s.pcs[w := s'.pcs[w]]
            && |s'.dispatched| + (if Underway(s'.pcs[w]) then 1 else 0)
            <= |s.dispatched| + (if Underway(s.pcs[w]) then 1 else 0)
  {
  }

  lemma CancelledStep(p: Plan, s: State, s': State)
    requires Next(p, s, s') && s.cancelled
    ensures s'.cancelled && |s'.dispatched| + WorkersUnderway(s') <= |s.dispatched| + WorkersUnderway(s)
  {
    if w: nat :| CanStep(p, s, w) && s' == Step(p, s, w) {
      CancelledShape(p, s, w);
      CountAfterUpdate(s.pcs, w, s'.pcs[w], Underway);
    }
  }

  /** Once cancelled, the pool sends at most one more request for each worker that was past
      its look at the token, so at most one per worker. */
  lemma {:induction false} CancelStopsPool(p: Plan, t: seq<State>, j: nat, k: nat)
    requires Run(p, t) && j <= k < |t| && t[j].cancelled
    ensures t[k].cancelled
    ensures |t[k].dispatched| + WorkersUnderway(t[k]) <= |t[j].dispatched| + WorkersUnderway(t[j])
    ensures WorkersUnderway(t[j]) <= p.workers
    decreases k - j
  {
    if j < k {
      CancelStopsPool(p, t, j, k - 1);
      assert StepAt(p, t, k - 1);
      CancelledStep(p, t[k - 1], t[k]);
    } else {
      InvariantAlongRun(p, t, j);
      CountBound(t[j].pcs, Underway);
    }
  }

  // ---- the shared objects ----

  /** The budget cell. `taken` counts the slots handed out to anyone. */
  class BudgetTracker {
    const capacity: nat
    var remaining: nat
    ghost var taken: nat

    ghost predicate Valid()
      reads this
    {
      remaining + taken == capacity
    }

    constructor (requestBudget: nat)
      ensures Valid() && capacity == remaining == requestBudget
    {
      capacity, remaining, taken := requestBudget, requestBudget, 0;
    }

    method CompareExchange(current: nat) returns (ok: bool)
      requires Valid() && current > 0
      modifies this
      ensures Valid()
      ensures (ok, remaining) == Swap(old(remaining), current)
      ensures taken == if ok then old(taken) + 1 else old(taken)
    {
      ok := remaining == current;
      if ok {
        remaining := current - 1;
        taken := taken + 1;
      }
    }

    /** Whatever the other workers do between two of our atomic operations. */
    method OtherWorkers(wanted: nat) returns (took: nat)
      requires Valid()
      modifies this
      ensures Valid() && taken == old(taken) + took && remaining <= old(remaining)
    {
      took := if wanted <= remaining then wanted else remaining;
      remaining := remaining - took;
      taken := taken + took;
    }

    /** The compare-and-swap loop. It ends however the others interfere, since a failed
        swap means that the budget shrank; it takes exactly one slot, and refuses only
        when nothing is left. */
    method TryTake(interference: seq<nat>) returns (ok: bool, ghost others: nat)
      requires Valid()
      modifies this
      ensures Valid()
      ensures taken == old(taken) + others + (if ok then 1 else 0)
      ensures !ok ==> remaining == 0
    {
      var turn := 0;
      others := 0;
      while true
        invariant Valid() && taken == old(taken) + others
        decreases remaining
      {
        var current := remaining;
        if current == 0 {
          ok := false;
          return;
        }
        var took := OtherWorkers(if turn < |interference| then interference[turn] else 0);
        others := others + took;
        turn := turn + 1;
        ok := CompareExchange(current);
        if ok {
          return;
        }
      }
    }
  }

  class RequestDedup {
    const enabled: bool
    const limit: nat
    var seen: set<string>

    constructor (enabled: bool, limit: nat)
      ensures this.enabled == enabled && this.limit == (if limit == 0 then 1 else limit) && seen == {}
    {
      this.enabled, this.limit, seen := enabled, if limit == 0 then 1 else limit, {};
    }

    method FirstSeenRequest(fingerprint: string) returns (first: bool)
      modifies this
      ensures (first, seen) == FirstSeen(old(seen), enabled, limit, fingerprint)
      ensures first <==> !enabled || fingerprint !in old(seen)
      ensures enabled ==> fingerprint in seen && seen <= old(seen) + {fingerprint}
      ensures |old(seen)| < limit && enabled ==> seen == old(seen) + {fingerprint}
    {
      if !enabled {
        return true;
      }
      if fingerprint in seen {
        return false;
      }
      if |seen| >= limit {
        seen := {};
      }
      seen := seen + {fingerprint};
      assert {} + {fingerprint} == {fingerprint};
      first := true;
    }
  }
}
