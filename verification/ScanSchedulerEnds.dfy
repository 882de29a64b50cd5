/** Every scan comes to an end: a bound on the steps that the workers take together, whatever
    the interleaving, lost compare-and-swaps included. */
module ScanSchedulerEnds {
  import opened Text
  import opened Counting
  import opened ScanScheduler

  // ---- what a worker has left to do ----

  /** Steps a worker can still take before it claims again; one that has loaded a budget that is
      no longer there has to load again. */
  function Rank(pc: Pc, remaining: nat): nat {
    match pc
    case Done => 0
    case Stopping(_) => 1
    case Refused => 2
    case Claiming => 3
    case Top => 4
    case Sending(_) => 5
    case Admitted(_) => 6
    case Taken(_) => 7
    case Swapping(_, current) => if current == remaining then 8 else 10
    case Loading(_) => 9
    case Claimed(_) => 11
  }

  function Ranks(pcs: seq<Pc>, remaining: nat): nat {
    if pcs == [] then 0 else Ranks(pcs[..|pcs| - 1], remaining) + Rank(pcs[|pcs| - 1], remaining)
  }

  lemma {:induction false} RanksAfterUpdate(pcs: seq<Pc>, w: nat, pc: Pc, remaining: nat)
    requires w < |pcs|
    ensures Ranks(pcs[w := pc], remaining) + Rank(pcs[w], remaining) == Ranks(pcs, remaining) + Rank(pc, remaining)
  {
    var init := pcs[..|pcs| - 1];
    if w < |init| {
      RanksAfterUpdate(init, w, pc, remaining);
      assert pcs[w := pc][..|pcs| - 1] == init[w := pc];
    } else {
      assert pcs[w := pc][..|pcs| - 1] == init;
    }
  }

  /** A slot taken sends each of the others back by two steps at most. */
  lemma {:induction false} RanksAfterTake(pcs: seq<Pc>, remaining: nat)
    requires remaining > 0
    ensures Ranks(pcs, remaining - 1) <= Ranks(pcs, remaining) + 2 * |pcs|
  {
    if pcs != [] {
      RanksAfterTake(pcs[..|pcs| - 1], remaining);
    }
  }

  /** Two steps for each worker and each slot that is left. */
  function Retries(workers: nat, remaining: nat): nat {
    if remaining == 0 then 0 else 2 * workers + Retries(workers, remaining - 1)
  }

  function Unclaimed(p: Plan, s: State): nat {
    if s.cursor < |p.mutations| then |p.mutations| - s.cursor else 0
  }

  /** A bound on the steps that all workers together can still take. */
  function StepsLeft(p: Plan, s: State): nat {
    9 * Unclaimed(p, s) + Retries(|s.pcs|, s.remaining) + Ranks(s.pcs, s.remaining)
  }

  // ---- every step uses one up ----

  lemma StepShape(p: Plan, s: State, w: nat)
    requires CanStep(p, s, w)
    ensures var s' := Step(p, s, w);
            && |s'.pcs| == |s.pcs| && s'.pcs == s.pcs[w := s'.pcs[w]]
            && s'.remaining == (if s.pcs[w].Swapping? && s.pcs[w].current == s.remaining
                                then s.remaining - 1 else s.remaining)
            && (s'.remaining != s.remaining ==> s'.pcs[w].Taken?)
            && s'.cursor == (if s.pcs[w].Claiming? then s.cursor + 1 else s.cursor)
  {
  }

  /** Without a claim and without a slot taken, the worker's own rank falls. */
  lemma RankFalls(p: Plan, s: State, w: nat)
    requires CanStep(p, s, w)
    ensures var s' := Step(p, s, w);
            && (s.pcs[w].Claiming? && s.cursor < |p.mutations| ==> Rank(s'.pcs[w], s.remaining) == 11)
            && (!(s.pcs[w].Claiming? && s.cursor < |p.mutations|) ==>
                  Rank(s'.pcs[w], s.remaining) < Rank(s.pcs[w], s.remaining))
  {
  }

  lemma WorkerStep(p: Plan, s: State, w: nat)
    requires CanStep(p, s, w)
    ensures StepsLeft(p, Step(p, s, w)) < StepsLeft(p, s)
  {
    var s' := Step(p, s, w);
    StepShape(p, s, w);
    RankFalls(p, s, w);
    RanksAfterUpdate(s.pcs, w, s'.pcs[w], s.remaining);
    if s'.remaining != s.remaining {
      RanksAfterTake(s'.pcs, s.remaining);
    }
  }

  lemma OutsideStep(p: Plan, s: State, s': State)
    requires Outside(p, s, s')
    ensures StepsLeft(p, s') == StepsLeft(p, s)
  {
  }

  // ---- over whole runs ----

  /** The steps that workers take among the first n of a run. */
  ghost function WorkerSteps(p: Plan, t: seq<State>, n: nat): nat
    requires n < |t|
  {
    if n == 0 then 0 else WorkerSteps(p, t, n - 1) + (if Outside(p, t[n - 1], t[n]) then 0 else 1)
  }

  lemma {:induction false} StepsUsedUp(p: Plan, t: seq<State>, n: nat)
    requires Run(p, t) && n < |t|
    ensures StepsLeft(p, t[n]) + WorkerSteps(p, t, n) <= StepsLeft(p, t[0])
  {
    if n > 0 {
      StepsUsedUp(p, t, n - 1);
      assert StepAt(p, t, n - 1);
      var s, s' := t[n - 1], t[n];
      if Outside(p, s, s') {
        OutsideStep(p, s, s');
      } else {
        var w: nat :| CanStep(p, s, w) && s' == Step(p, s, w);
        WorkerStep(p, s, w);
      }
    }
  }

  lemma {:induction false} RanksAtStart(n: nat, remaining: nat)
    ensures Ranks(seq(n, _ => Top), remaining) == 4 * n
  {
    if n > 0 {
      var pcs := seq(n, _ => Top);
      assert pcs[..n - 1] == seq(n - 1, _ => Top) && pcs[n - 1] == Top;
      RanksAtStart(n - 1, remaining);
    }
  }

  lemma {:induction false} RetriesProduct(workers: nat, remaining: nat)
    ensures Retries(workers, remaining) == 2 * workers * remaining
  {
    if remaining > 0 {
      RetriesProduct(workers, remaining - 1);
      assert 2 * workers * remaining == 2 * workers + 2 * workers * (remaining - 1);
    }
  }

  /** Main result: in every run the workers take at most nine steps for each mutation, two for
      each worker and slot, and four for each worker. Since a worker that has not returned can
      take its next step, the pool ends with all workers returned. */
  lemma PoolEnds(p: Plan, t: seq<State>)
    requires Run(p, t)
    ensures WorkerSteps(p, t, |t| - 1) <= 9 * |p.mutations| + 2 * p.workers * p.budget + 4 * p.workers
    ensures var s := t[|t| - 1]; AllDone(s) || exists w: nat :: CanStep(p, s, w)
  {
    StepsUsedUp(p, t, |t| - 1);
    RanksAtStart(p.workers, p.budget);
    RetriesProduct(p.workers, p.budget);
    var s := t[|t| - 1];
    if w: nat :| w < |s.pcs| && s.pcs[w] != Done {
      NobodyIsStuck(p, s, w);
    }
  }

  /** Cancellation can come at any moment, and so can the deadline of a plan that has one. */
  lemma AnyMoment(p: Plan, t: seq<State>)
    requires Run(p, t)
    ensures Run(p, t + [t[|t| - 1].(cancelled := true)])
    ensures p.timed ==> Run(p, t + [t[|t| - 1].(overdue := true)])
  {
    RunGoesOn(p, t, t[|t| - 1].(cancelled := true));
    if p.timed {
      RunGoesOn(p, t, t[|t| - 1].(overdue := true));
    }
  }

  lemma RunGoesOn(p: Plan, t: seq<State>, s: State)
    requires Run(p, t) && Outside(p, t[|t| - 1], s)
    ensures Run(p, t + [s])
  {
    var t' := t + [s];
    forall i: nat | i + 1 < |t'| ensures StepAt(p, t', i) {
      if i + 1 < |t| { assert StepAt(p, t, i); }
    }
  }
}
