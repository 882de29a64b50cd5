/** When the dedup set of the scan pool is large enough: the exact condition, over every plan
    and every run. */
module ScanSchedulerLimits {
  import opened Text
  import opened ScanScheduler

  lemma ReachedByStep(p: Plan, s: State, w: nat)
    requires Reachable(p, s) && CanStep(p, s, w)
    ensures Reachable(p, Step(p, s, w))
  {
    var t :| Run(p, t) && t[|t| - 1] == s;
    var s' := Step(p, s, w);
    var u := t + [s'];
    forall i: nat | i + 1 < |u| ensures StepAt(p, u, i) {
      if i + 1 < |t| { assert StepAt(p, t, i); }
    }
    assert Run(p, u) && u[|u| - 1] == s';
  }

  lemma ReachedAtStart(p: Plan)
    ensures Reachable(p, Init(p))
  {
    var t := [Init(p)];
    assert Run(p, t) && t[|t| - 1] == Init(p);
  }

  /** A lone worker about to claim a mutation that every check lets through. */
  predicate Ready(p: Plan, s: State) {
    && s.pcs == [Top] && !s.cancelled && s.remaining > 0
    && s.cursor < |p.mutations| && p.mutations[s.cursor].inScope
    && FirstSeen(s.seen, p.dedupEnabled, p.dedupLimit, p.mutations[s.cursor].fingerprint).0
  }

  /** It claims the mutation and a slot. */
  lemma TakesSlot(p: Plan, s: State) returns (s': State)
    requires Reachable(p, s) && Ready(p, s)
    ensures Reachable(p, s')
    ensures s' == s.(cursor := s.cursor + 1, remaining := s.remaining - 1, pcs := [Taken(s.cursor)])
  {
    s' := s;
    ReachedByStep(p, s', 0);
    s' := Step(p, s', 0);
    ReachedByStep(p, s', 0);
    s' := Step(p, s', 0);
    ReachedByStep(p, s', 0);
    s' := Step(p, s', 0);
    ReachedByStep(p, s', 0);
    s' := Step(p, s', 0);
    ReachedByStep(p, s', 0);
    s' := Step(p, s', 0);
  }

  function SeenNext(p: Plan, s: State): set<string>
    requires s.cursor < |p.mutations|
  {
    FirstSeen(s.seen, p.dedupEnabled, p.dedupLimit, p.mutations[s.cursor].fingerprint).1
  }

  /** It sends the mutation and is back at the top. */
  lemma SendsNext(p: Plan, s: State) returns (s': State)
    requires Reachable(p, s) && Ready(p, s)
    ensures Reachable(p, s')
    ensures s' == s.(cursor := s.cursor + 1, remaining := s.remaining - 1, requestsSent := s.requestsSent + 1,
                     seen := SeenNext(p, s), dispatched := s.dispatched + [s.cursor])
  {
    s' := TakesSlot(p, s);
    ReachedByStep(p, s', 0);
    s' := Step(p, s', 0);
    ReachedByStep(p, s', 0);
    s' := Step(p, s', 0);
    ReachedByStep(p, s', 0);
    s' := Step(p, s', 0);
  }

  // ---- a plan with one fingerprint too many ----

  /** One mutation per fingerprint, and the first fingerprint once more. */
  function Repeating(keys: seq<string>, limit: nat): Plan
    requires keys != []
  {
    Plan(seq(|keys|, i requires 0 <= i < |keys| => Mutation(keys[i], true)) + [Mutation(keys[0], true)],
         |keys| + 1, true, limit, 1, false)
  }

  lemma RepeatingFingerprints(keys: seq<string>, limit: nat)
    requires keys != []
    ensures FingerprintsOf(Repeating(keys, limit)) == Elements(keys)
  {
    var p := Repeating(keys, limit);
    forall f | f in keys ensures f in FingerprintsOf(p) {
      var i :| 0 <= i < |keys| && keys[i] == f;
      assert p.mutations[i] in p.mutations && p.mutations[i].fingerprint == f;
    }
    forall f | f in FingerprintsOf(p) ensures f in keys {
      var m :| m in p.mutations && m.fingerprint == f;
      var i :| 0 <= i < |p.mutations| && p.mutations[i] == m;
      assert f == if i < |keys| then keys[i] else keys[0];
    }
  }

  /** After j mutations: all were sent; up to the limit the set holds them all, from then
      on it has forgotten the first. */
  ghost predicate SentFirst(keys: seq<string>, limit: nat, s: State, j: nat) {
    && j <= |keys| && s.pcs == [Top] && !s.cancelled && s.cursor == j && s.remaining == |keys| + 1 - j
    && |s.dispatched| == j && (forall i | 0 <= i < j :: s.dispatched[i] == i)
    && s.seen <= Elements(keys[..j])
    && (if j <= limit then |s.seen| == j else keys[0] !in s.seen)
  }

  lemma NextIsNew(keys: seq<string>, limit: nat, s: State, j: nat)
    requires Distinct(keys) && limit > 0 && SentFirst(keys, limit, s, j) && j < |keys|
    ensures Ready(Repeating(keys, limit), s)
    ensures var seen := SeenNext(Repeating(keys, limit), s);
            && seen <= Elements(keys[..j + 1])
            && (if j + 1 <= limit then |seen| == j + 1 else keys[0] !in seen)
  {
    assert keys[j] !in keys[..j];
    assert keys[j] in keys[..j + 1];
    assert forall f | f in keys[..j] :: f in keys[..j + 1];
    assert j > 0 ==> keys[0] != keys[j];
  }

  lemma {:induction false} SendsFirst(keys: seq<string>, limit: nat, j: nat) returns (s: State)
    requires Distinct(keys) && keys != [] && limit > 0 && j <= |keys|
    ensures Reachable(Repeating(keys, limit), s) && SentFirst(keys, limit, s, j)
  {
    var p := Repeating(keys, limit);
    if j == 0 {
      ReachedAtStart(p);
      s := Init(p);
    } else {
      var before := SendsFirst(keys, limit, j - 1);
      NextIsNew(keys, limit, before, j - 1);
      s := SendsNext(p, before);
    }
  }

  lemma {:induction false} LoggedAppend(p: Plan, log: seq<nat>, i: nat, f: string)
    ensures Logged(p, log + [i], f) == Logged(p, log, f) + (if FingerprintAt(p, i) == f then 1 else 0)
  {
    assert (log + [i])[..|log|] == log;
  }

  /** Over the limit the first fingerprint is sent again. */
  lemma SentTwice(keys: seq<string>, limit: nat) returns (p: Plan, s: State)
    requires Distinct(keys) && |keys| > limit > 0
    ensures p == Repeating(keys, limit) && Reachable(p, s) && Logged(p, s.dispatched, keys[0]) > 1
  {
    p := Repeating(keys, limit);
    var before := SendsFirst(keys, limit, |keys|);
    s := SendsNext(p, before);
    assert before.dispatched[0] == 0 && FingerprintAt(p, 0) == keys[0];
    LoggedPositive(p, before.dispatched, 0);
    LoggedAppend(p, before.dispatched, |keys|, keys[0]);
  }

  predicate Plans(p: Plan, limit: nat, fingerprints: set<string>) {
    p.dedupEnabled && p.dedupLimit == limit && FingerprintsOf(p) == fingerprints
  }

  /** With this limit and these distinct fingerprints, no plan in any run sends one twice. */
  ghost predicate SendsOnce(limit: nat, fingerprints: set<string>) {
    forall p, s, f | Plans(p, limit, fingerprints) && Reachable(p, s) :: Logged(p, s.dispatched, f) <= 1
  }

  /** Main result, over every plan, every number of workers and every interleaving: dedup
      keeps its promise exactly when the limit covers the distinct fingerprints. */
  lemma SendsOnceIff(limit: nat, fingerprints: set<string>)
    requires limit > 0
    ensures SendsOnce(limit, fingerprints) <==> |fingerprints| <= limit
  {
    if |fingerprints| <= limit {
      forall p, s, f | Plans(p, limit, fingerprints) && Reachable(p, s) ensures Logged(p, s.dispatched, f) <= 1 {
        NoFingerprintSentTwice(p, s, f);
      }
    } else {
      var keys := SortedKeys(fingerprints);
      DistinctCard(keys);
      RepeatingFingerprints(keys, limit);
      var p, s := SentTwice(keys, limit);
      assert Plans(p, limit, fingerprints) && Logged(p, s.dispatched, keys[0]) > 1;
    }
  }
}
