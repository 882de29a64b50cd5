/** Kahn's algorithm over captured flows (`FlowSequencer::topological_sort`).

    The specification is the greedy order: at every step the least ready fingerprint.
    The theorems say what that order is: the leftovers are exactly the nodes reachable
    from a cycle, and without a cycle it is the least linear extension. */
module FlowSequencer {
  import opened Text
  import opened Domain

  type Targets = map<string, seq<string>>

  datatype TopoResult = TopoResult(flows: seq<HttpFlow>, cyclesDetected: nat)

  /** The graph the sequencer works on: known fingerprints only. */
  datatype Graph = Graph(nodes: set<string>, targets: Targets)

  function GraphOf(flows: seq<HttpFlow>, targets: Targets): Graph {
    Graph(Elements(Fingerprints(flows)), targets)
  }

  predicate Edge(g: Graph, s: string, t: string) {
    s in g.nodes && t in g.nodes && s != t && s in g.targets && t in g.targets[s]
  }

  // ---- paths and cycles ----

  ghost predicate Path(g: Graph, p: seq<string>) {
    p != [] && forall i | 0 <= i < |p| - 1 :: Link(g, p, i)
  }

  predicate Link(g: Graph, p: seq<string>, i: nat)
    requires i + 1 < |p|
  {
    Edge(g, p[i], p[i + 1])
  }

  /** A closed path with at least one edge. */
  ghost predicate Cycle(g: Graph, c: seq<string>) {
    Path(g, c) && |c| > 1 && c[0] == c[|c| - 1]
  }

  ghost predicate Acyclic(g: Graph) {
    forall c :: !Cycle(g, c)
  }

  ghost predicate ReachableFromCycle(g: Graph, v: string) {
    exists c, p :: Cycle(g, c) && Path(g, p) && p[0] == c[0] && p[|p| - 1] == v
  }

  // ---- the greedy order ----

  ghost predicate IsReady(g: Graph, done: set<string>, v: string) {
    v in g.nodes && v !in done && forall s | Edge(g, s, v) :: s in done
  }

  ghost function Ready(g: Graph, done: set<string>): set<string> {
    set v | v in g.nodes && IsReady(g, done, v)
  }

  ghost predicate GreedyAt(g: Graph, order: seq<string>, i: nat)
    requires i < |order|
  {
    IsLeast(order[i], Ready(g, Elements(order[..i])))
  }

  ghost predicate GreedySoFar(g: Graph, order: seq<string>) {
    forall i | 0 <= i < |order| :: GreedyAt(g, order, i)
  }

  /** Greedy to the end: nothing is ready any more. */
  ghost predicate GreedyOrder(g: Graph, order: seq<string>) {
    GreedySoFar(g, order) && forall v :: !IsReady(g, Elements(order), v)
  }

  lemma GreedyStep(g: Graph, order: seq<string>, v: string)
    requires GreedySoFar(g, order) && IsLeast(v, Ready(g, Elements(order)))
    ensures GreedySoFar(g, order + [v])
  {
    var o := order + [v];
    forall i | 0 <= i < |o| ensures GreedyAt(g, o, i) {
      assert o[..i] == order[..i];
      if i < |order| {
        assert GreedyAt(g, order, i);
      } else {
        assert order[..i] == order;
      }
    }
  }

  /** Every node of a greedy order is new and comes after all its sources. */
  lemma SourcesFirst(g: Graph, order: seq<string>, i: nat)
    requires GreedySoFar(g, order) && i < |order|
    ensures order[i] in g.nodes && order[i] !in order[..i]
    ensures forall s | Edge(g, s, order[i]) :: s in order[..i]
  {
    assert GreedyAt(g, order, i);
    assert IsReady(g, Elements(order[..i]), order[i]);
    forall s | Edge(g, s, order[i]) ensures s in order[..i] {
      assert s in Elements(order[..i]);
    }
  }

  lemma GreedyDistinct(g: Graph, order: seq<string>)
    requires GreedySoFar(g, order)
    ensures Distinct(order) && Elements(order) <= g.nodes
    ensures |order| <= |g.nodes|
    ensures |order| == |g.nodes| ==> Elements(order) == g.nodes
  {
    forall i, j | 0 <= i < j < |order| ensures order[i] != order[j] {
      SourcesFirst(g, order, j);
      assert order[i] == order[..j][i];
    }
    forall v | v in order ensures v in g.nodes {
      var i :| 0 <= i < |order| && order[i] == v;
      SourcesFirst(g, order, i);
    }
    DistinctCard(order);
    SubsetCard(Elements(order), g.nodes);
  }

  /** The greedy order is determined by the graph alone. */
  lemma {:induction false} GreedyUnique(g: Graph, a: seq<string>, b: seq<string>)
    requires GreedyOrder(g, a) && GreedyOrder(g, b)
    ensures a == b
  {
    GreedyAgree(g, a, b, if |a| <= |b| then |a| else |b|);
    GreedyEndsThere(g, a, b);
    GreedyEndsThere(g, b, a);
  }

  /** No greedy run continues past the end of a finished one. */
  lemma GreedyEndsThere(g: Graph, a: seq<string>, b: seq<string>)
    requires GreedyOrder(g, a) && GreedySoFar(g, b)
    requires |a| <= |b| ==> b[..|a|] == a
    ensures |b| <= |a|
  {
    if |a| < |b| { NextIsReady(g, b, |a|); }
  }

  lemma NextIsReady(g: Graph, order: seq<string>, i: nat)
    requires GreedySoFar(g, order) && i < |order|
    ensures IsReady(g, Elements(order[..i]), order[i])
  {
    assert GreedyAt(g, order, i);
  }

  lemma {:induction false} GreedyAgree(g: Graph, a: seq<string>, b: seq<string>, n: nat)
    requires GreedySoFar(g, a) && GreedySoFar(g, b)
    requires n <= |a| && n <= |b|
    ensures a[..n] == b[..n]
  {
    if n > 0 {
      GreedyAgree(g, a, b, n - 1);
      assert GreedyAt(g, a, n - 1) && GreedyAt(g, b, n - 1);
      LeastUnique(a[n - 1], b[n - 1], Ready(g, Elements(a[..n - 1])));
      assert a[..n] == a[..n - 1] + [a[n - 1]];
      assert b[..n] == b[..n - 1] + [b[n - 1]];
    }
  }

  // ---- leftovers are exactly what a cycle reaches ----

  /** Along a path that ends inside the order, positions strictly increase. */
  lemma {:induction false} PositionsIncrease(g: Graph, order: seq<string>, p: seq<string>, last: nat)
    returns (first: nat)
    requires GreedySoFar(g, order) && Path(g, p)
    requires last < |order| && order[last] == p[|p| - 1]
    ensures first < |order| && order[first] == p[0]
    ensures first + |p| - 1 <= last
    decreases |p|
  {
    if |p| == 1 {
      first := last;
    } else {
      var init := p[..|p| - 1];
      var s := p[|p| - 2];
      assert Link(g, p, |p| - 2);
      SourcesFirst(g, order, last);
      assert s in order[..last];
      var k :| 0 <= k < last && order[k] == s;
      forall i | 0 <= i < |init| - 1 ensures Link(g, init, i) {
        assert Link(g, p, i);
      }
      first := PositionsIncrease(g, order, init, k);
    }
  }

  lemma CycleDescendantStuck(g: Graph, order: seq<string>, v: string)
    requires GreedyOrder(g, order) && ReachableFromCycle(g, v)
    ensures v !in order
  {
    if v in order {
      var c, p :| Cycle(g, c) && Path(g, p) && p[0] == c[0] && p[|p| - 1] == v;
      var last :| 0 <= last < |order| && order[last] == v;
      var atCycle := PositionsIncrease(g, order, p, last);
      var around := PositionsIncrease(g, order, c, atCycle);
      GreedyDistinct(g, order);
    }
  }

  /** A backward walk of n edges inside the leftovers, ending at v. */
  lemma {:induction false} BackwardWalk(g: Graph, order: seq<string>, v: string, n: nat) returns (p: seq<string>)
    requires GreedyOrder(g, order)
    requires v in g.nodes && v !in order
    ensures |p| == n + 1 && Path(g, p) && p[n] == v
    ensures forall x | x in p :: x in g.nodes && x !in order
    decreases n
  {
    if n == 0 {
      p := [v];
    } else {
      assert !IsReady(g, Elements(order), v);
      var s :| Edge(g, s, v) && s !in Elements(order);
      var q := BackwardWalk(g, order, s, n - 1);
      p := q + [v];
      forall i | 0 <= i < n ensures Link(g, p, i) {
        assert i < n - 1 ==> Link(g, q, i);
      }
    }
  }

  lemma Pigeonhole(p: seq<string>, s: set<string>) returns (i: nat, j: nat)
    requires Elements(p) <= s && |p| > |s|
    ensures i < j < |p| && p[i] == p[j]
  {
    SubsetCard(Elements(p), s);
    if Distinct(p) {
      DistinctCard(p);
      assert false;
    }
    i, j :| 0 <= i < j < |p| && p[i] == p[j];
  }

  lemma SubPath(g: Graph, p: seq<string>, i: nat, j: nat)
    requires Path(g, p) && i < j <= |p|
    ensures Path(g, p[i..j])
  {
    var q := p[i..j];
    forall k | 0 <= k < |q| - 1 ensures Link(g, q, k) {
      assert Link(g, p, i + k);
    }
  }

  lemma CycleFromRepeat(g: Graph, p: seq<string>, i: nat, j: nat)
    requires Path(g, p) && i < j < |p| && p[i] == p[j]
    ensures ReachableFromCycle(g, p[|p| - 1])
  {
    var c, tail := p[i..j + 1], p[i..|p|];
    SubPath(g, p, i, j + 1);
    SubPath(g, p, i, |p|);
    assert Cycle(g, c) && Path(g, tail) && tail[0] == c[0] && tail[|tail| - 1] == p[|p| - 1];
  }

  lemma LongPathHasCycle(g: Graph, p: seq<string>)
    requires Path(g, p) && Elements(p) <= g.nodes && |p| > |g.nodes|
    ensures ReachableFromCycle(g, p[|p| - 1])
  {
    var i, j := Pigeonhole(p, g.nodes);
    CycleFromRepeat(g, p, i, j);
  }

  lemma StuckBehindCycle(g: Graph, order: seq<string>, v: string)
    requires GreedyOrder(g, order)
    requires v in g.nodes && v !in order
    ensures ReachableFromCycle(g, v)
  {
    var p := BackwardWalk(g, order, v, |g.nodes|);
    LongPathHasCycle(g, p);
  }

  ghost function Stuck(g: Graph): set<string> {
    set v | v in g.nodes && ReachableFromCycle(g, v)
  }

  lemma CycleStartStuck(g: Graph, c: seq<string>)
    requires Cycle(g, c)
    ensures c[0] in Stuck(g)
  {
    var p := [c[0]];
    assert Link(g, c, 0);
    assert Path(g, p) && p[0] == c[0] && p[|p| - 1] == c[0];
  }

  /** Main result on cycles: Kahn's loop leaves exactly the nodes a cycle reaches. */
  lemma LeftoversAreBehindCycles(g: Graph, order: seq<string>)
    requires GreedyOrder(g, order)
    ensures g.nodes - Elements(order) == Stuck(g)
    ensures |g.nodes| - |order| == |Stuck(g)|
  {
    forall v | v in g.nodes ensures v !in order <==> v in Stuck(g) {
      if v !in order { StuckBehindCycle(g, order, v); }
      if v in Stuck(g) { CycleDescendantStuck(g, order, v); }
    }
    GreedyDistinct(g, order);
    DistinctCard(order);
    assert g.nodes == Stuck(g) + Elements(order);
  }

  lemma AcyclicIffNoneStuck(g: Graph)
    ensures Acyclic(g) <==> Stuck(g) == {}
  {
    if Stuck(g) == {} {
      forall c ensures !Cycle(g, c) {
        if Cycle(g, c) {
          CycleStartStuck(g, c);
        }
      }
    }
  }

  // ---- without a cycle: the least linear extension ----

  ghost predicate LinearExtension(g: Graph, l: seq<string>) {
    Distinct(l) && Elements(l) == g.nodes
    && forall i, j | 0 <= i < |l| && 0 <= j < |l| && Edge(g, l[i], l[j]) :: i < j
  }

  /** Lexicographic order on listings of fingerprints. */
  ghost predicate ListLe(a: seq<string>, b: seq<string>) {
    a <= b || exists k | 0 <= k < |a| && k < |b| :: a[..k] == b[..k] && a[k] != b[k] && StrLe(a[k], b[k])
  }

  lemma {:induction false} FirstDifference(a: seq<string>, b: seq<string>) returns (k: nat)
    requires |a| == |b| && a != b
    ensures k < |a| && a[..k] == b[..k] && a[k] != b[k]
  {
    assert a == a[..|a|] && b == b[..|a|];
    k := 0;
    while k < |a| && a[k] == b[k]
      invariant k <= |a| && a[..k] == b[..k]
    {
      k := k + 1;
    }
  }

  lemma GreedyIsLeastLinearExtension(g: Graph, order: seq<string>)
    requires GreedyOrder(g, order) && Acyclic(g)
    ensures LinearExtension(g, order)
    ensures forall l | LinearExtension(g, l) :: ListLe(order, l)
  {
    LeftoversAreBehindCycles(g, order);
    AcyclicIffNoneStuck(g);
    GreedyDistinct(g, order);
    forall i, j | 0 <= i < |order| && 0 <= j < |order| && Edge(g, order[i], order[j]) ensures i < j {
      SourcesFirst(g, order, j);
      assert order[i] in order[..j];
    }
    forall l | LinearExtension(g, l) ensures ListLe(order, l) {
      if l != order {
        DistinctCard(l);
        var k := FirstDifference(order, l);
        NextOfExtensionIsReady(g, l, k);
        assert GreedyAt(g, order, k);
        assert l[k] in Ready(g, Elements(order[..k]));
      }
    }
  }

  lemma NextOfExtensionIsReady(g: Graph, l: seq<string>, k: nat)
    requires LinearExtension(g, l) && k < |l|
    ensures IsReady(g, Elements(l[..k]), l[k])
  {
    assert l[k] in Elements(l);
    forall s | Edge(g, s, l[k]) ensures s in Elements(l[..k]) {
      assert s in Elements(l);
      var i :| 0 <= i < |l| && l[i] == s;
      assert i < k;
      assert l[..k][i] == s;
    }
  }

  // ---- what the sequencer returns ----

  /** The flow a map collected from the list keeps for a fingerprint: the last one. */
  function LastWith(flows: seq<HttpFlow>, id: string): (f: HttpFlow)
    requires id in Elements(Fingerprints(flows))
    ensures f in flows && Fingerprint(f) == id
  {
    var n := |flows| - 1;
    if Fingerprint(flows[n]) == id then flows[n]
    else
      assert forall i | 0 <= i < n :: Fingerprints(flows)[i] == Fingerprints(flows[..n])[i];
      LastWith(flows[..n], id)
  }

  /** The flows, in input order, whose fingerprint was not sorted. */
  function Unsorted(flows: seq<HttpFlow>, sorted: set<string>): seq<HttpFlow> {
    if flows == [] then []
    else (if Fingerprint(flows[0]) in sorted then [] else [flows[0]]) + Unsorted(flows[1..], sorted)
  }

  /** How many flows Kahn's loop emitted. */
  function SortedCount(flows: seq<HttpFlow>, r: TopoResult): int {
    |flows| - r.cyclesDetected
  }

  /** Every listed flow is the last captured one that carries its fingerprint. */
  ghost predicate ShowsLast(flows: seq<HttpFlow>, listed: seq<HttpFlow>) {
    forall f | f in listed :: Fingerprint(f) in Elements(Fingerprints(flows)) && f == LastWith(flows, Fingerprint(f))
  }

  /** The sorted part of a result. */
  ghost function Steps(flows: seq<HttpFlow>, r: TopoResult): seq<HttpFlow>
    requires 0 <= SortedCount(flows, r) <= |r.flows|
  {
    r.flows[..SortedCount(flows, r)]
  }

  /** The whole result, pinned: a greedy order of fingerprints, each shown as the last
      flow that carries it, then the unsorted flows in input order. */
  ghost predicate IsTopoResult(flows: seq<HttpFlow>, targets: Targets, r: TopoResult) {
    && 0 <= SortedCount(flows, r) <= |r.flows|
    && GreedyOrder(GraphOf(flows, targets), Fingerprints(Steps(flows, r)))
    && ShowsLast(flows, Steps(flows, r))
    && r.flows == Steps(flows, r) + Unsorted(flows, Elements(Fingerprints(Steps(flows, r))))
  }

  // ---- nothing is lost, exactly when ----

  function Kept(flows: seq<HttpFlow>, sorted: set<string>): seq<HttpFlow> {
    if flows == [] then []
    else (if Fingerprint(flows[0]) in sorted then [flows[0]] else []) + Kept(flows[1..], sorted)
  }

  lemma {:induction false} KeptAndUnsorted(flows: seq<HttpFlow>, sorted: set<string>)
    ensures multiset(flows) == multiset(Kept(flows, sorted)) + multiset(Unsorted(flows, sorted))
    ensures forall f :: f in Kept(flows, sorted) <==> f in flows && Fingerprint(f) in sorted
  {
    if flows != [] {
      assert flows == [flows[0]] + flows[1..];
      KeptAndUnsorted(flows[1..], sorted);
    }
  }

  /** A fingerprint is carried by several flows only where Kahn's loop never gets to. */
  ghost predicate SharedOnlyBehindCycles(flows: seq<HttpFlow>, g: Graph) {
    forall v | multiset(Fingerprints(flows))[v] > 1 :: v in Stuck(g)
  }

  lemma {:induction false} KeptCounts(flows: seq<HttpFlow>, sorted: set<string>, v: string)
    ensures multiset(Fingerprints(Kept(flows, sorted)))[v]
         == if v in sorted then multiset(Fingerprints(flows))[v] else 0
  {
    if flows != [] {
      var id, rest := Fingerprint(flows[0]), flows[1..];
      KeptCounts(rest, sorted, v);
      assert Fingerprints(flows) == [id] + Fingerprints(rest);
      if id in sorted {
        assert Fingerprints(Kept(flows, sorted)) == [id] + Fingerprints(Kept(rest, sorted));
      } else {
        assert Kept(flows, sorted) == Kept(rest, sorted);
      }
    }
  }

  lemma {:induction false} DistinctCounts<T>(a: seq<T>)
    ensures Distinct(a) <==> forall x :: multiset(a)[x] <= 1
  {
    if a != [] {
      var init, last := a[..|a| - 1], a[|a| - 1];
      assert a == init + [last];
      DistinctCounts(init);
      if Distinct(a) {
        assert last !in init;
      } else if Distinct(init) {
        var i, j :| 0 <= i < j < |a| && a[i] == a[j];
        assert init[i] == last;
        assert multiset(a)[last] > 1;
      } else {
        var x :| multiset(init)[x] > 1;
        assert multiset(a)[x] > 1;
      }
    }
  }

  lemma DistinctSameMultiset<T>(a: seq<T>, b: seq<T>)
    requires Distinct(a) && Distinct(b) && Elements(a) == Elements(b)
    ensures multiset(a) == multiset(b)
  {
    DistinctCounts(a);
    DistinctCounts(b);
    forall x ensures multiset(a)[x] == multiset(b)[x] {
      assert x in Elements(a) <==> x in Elements(b);
    }
  }

  /** The greedy prefix lists one flow per sorted fingerprint, so it is no longer than the
      sorted part of the input, and a permutation of it when nothing there is shared. */
  lemma HeadAgainstKept(flows: seq<HttpFlow>, head: seq<HttpFlow>)
    requires Distinct(Fingerprints(head))
    requires forall f | f in head :: f in flows
    ensures var kept := Kept(flows, Elements(Fingerprints(head)));
            && |head| <= |kept|
            && (|head| == |kept| <==> Distinct(Fingerprints(kept)))
            && (|head| == |kept| ==> multiset(head) == multiset(kept))
  {
    var ids := Fingerprints(head);
    var sorted := Elements(ids);
    var kept := Kept(flows, sorted);
    var keptIds := Fingerprints(kept);
    KeptAndUnsorted(flows, sorted);
    forall f | f in head ensures f in kept {
      var i :| 0 <= i < |head| && head[i] == f;
      assert ids[i] == Fingerprint(f);
    }
    KeptFingerprints(kept, head);
    DistinctCard(ids);
    CardDistinct(keptIds);
    if Distinct(keptIds) {
      DistinctCard(keptIds);
      DistinctByKey(kept);
      DistinctByKey(head);
      DistinctCard(kept);
      DistinctCard(head);
      SubsetCard(Elements(head), Elements(kept));
      DistinctSameMultiset(head, kept);
    }
  }

  lemma KeptFingerprints(kept: seq<HttpFlow>, head: seq<HttpFlow>)
    requires forall f | f in head :: f in kept
    requires forall f | f in kept :: Fingerprint(f) in Elements(Fingerprints(head))
    ensures Elements(Fingerprints(kept)) == Elements(Fingerprints(head))
  {
    SameFingerprints(head, kept);
    forall id | id in Fingerprints(kept) ensures id in Elements(Fingerprints(head)) {
      var k :| 0 <= k < |kept| && Fingerprints(kept)[k] == id;
      assert kept[k] in kept;
    }
  }

  lemma DistinctByKey(flows: seq<HttpFlow>)
    requires Distinct(Fingerprints(flows))
    ensures Distinct(flows)
  {
    forall i, j | 0 <= i < j < |flows| ensures flows[i] != flows[j] {
      assert Fingerprints(flows)[i] != Fingerprints(flows)[j];
    }
  }

  /** Main result on loss: the output is a permutation of the input exactly when every
      shared fingerprint sits behind a cycle; in particular when none is shared. */
  lemma NothingLostIff(flows: seq<HttpFlow>, targets: Targets, r: TopoResult)
    requires IsTopoResult(flows, targets, r)
    ensures multiset(r.flows) == multiset(flows) <==> SharedOnlyBehindCycles(flows, GraphOf(flows, targets))
    ensures |r.flows| == |flows| <==> SharedOnlyBehindCycles(flows, GraphOf(flows, targets))
    ensures |r.flows| <= |flows|
  {
    var g := GraphOf(flows, targets);
    var head := Steps(flows, r);
    var ids := Fingerprints(head);
    var sorted := Elements(ids);
    var kept := Kept(flows, sorted);
    var rest := Unsorted(flows, sorted);
    assert GreedyOrder(g, ids) && r.flows == head + rest;
    GreedyDistinct(g, ids);
    HeadAgainstKept(flows, head);
    KeptAndUnsorted(flows, sorted);
    SharedIff(flows, g, ids);
    assert |multiset(flows)| == |flows| && |multiset(r.flows)| == |r.flows|;
    assert |multiset(kept) + multiset(rest)| == |kept| + |rest|;
  }

  lemma SharedIff(flows: seq<HttpFlow>, g: Graph, ids: seq<string>)
    requires GreedyOrder(g, ids) && g.nodes == Elements(Fingerprints(flows))
    ensures Distinct(Fingerprints(Kept(flows, Elements(ids)))) <==> SharedOnlyBehindCycles(flows, g)
  {
    var keptIds := Fingerprints(Kept(flows, Elements(ids)));
    DistinctCounts(keptIds);
    forall v ensures multiset(keptIds)[v] == if v in ids then multiset(Fingerprints(flows))[v] else 0 {
      KeptCounts(flows, Elements(ids), v);
    }
    LeftoversAreBehindCycles(g, ids);
    GreedyDistinct(g, ids);
    forall v | multiset(Fingerprints(flows))[v] > 1 ensures v in g.nodes {
      assert v in Fingerprints(flows);
    }
  }

  /** Main result on the count: `cycles_detected` is the number of stuck fingerprints and of
      flows in excess of fingerprints together; so it is zero exactly for an acyclic graph
      without shared fingerprints. */
  lemma CyclesDetectedMeaning(flows: seq<HttpFlow>, targets: Targets, r: TopoResult)
    requires IsTopoResult(flows, targets, r)
    ensures r.cyclesDetected == 0 <==> Acyclic(GraphOf(flows, targets)) && Distinct(Fingerprints(flows))
    ensures r.cyclesDetected
         == |Stuck(GraphOf(flows, targets))| + (|flows| - |Elements(Fingerprints(flows))|)
    ensures Distinct(Fingerprints(flows)) ==> r.cyclesDetected == |Stuck(GraphOf(flows, targets))|
  {
    var g := GraphOf(flows, targets);
    var ids := Fingerprints(Steps(flows, r));
    assert GreedyOrder(g, ids) && |ids| == |flows| - r.cyclesDetected;
    LeftoversAreBehindCycles(g, ids);
    AcyclicIffNoneStuck(g);
    GreedyDistinct(g, ids);
    CardDistinct(Fingerprints(flows));
    if Distinct(Fingerprints(flows)) {
      DistinctCard(Fingerprints(flows));
    }
  }

  /** Nothing is invented: every listed flow was captured. */
  lemma ListedAreCaptured(flows: seq<HttpFlow>, targets: Targets, r: TopoResult)
    requires IsTopoResult(flows, targets, r)
    ensures forall f | f in r.flows :: f in flows
  {
    var sorted := Elements(Fingerprints(Steps(flows, r)));
    UnsortedAreCaptured(flows, sorted);
    assert r.flows == Steps(flows, r) + Unsorted(flows, sorted);
  }

  lemma {:induction false} UnsortedAreCaptured(flows: seq<HttpFlow>, sorted: set<string>)
    ensures forall f | f in Unsorted(flows, sorted) :: f in flows
  {
    if flows != [] { UnsortedAreCaptured(flows[1..], sorted); }
  }

  /** Two captures of one request, no dependency at all: one of them is dropped and a cycle
      is reported, although the graph has none. */
  lemma DuplicateIsDropped(f: HttpFlow, g: HttpFlow, r: TopoResult)
    requires Fingerprint(f) == Fingerprint(g) && IsTopoResult([f, g], map[], r)
    ensures Acyclic(GraphOf([f, g], map[]))
    ensures r.flows == [g] && r.cyclesDetected == 1
  {
    var flows := [f, g];
    var ids := Fingerprints(flows);
    assert GraphOf(flows, map[]).nodes == {ids[0]} && ids[0] == ids[1];
    forall c ensures !Cycle(GraphOf(flows, map[]), c) {
      if |c| > 1 { assert !Link(GraphOf(flows, map[]), c, 0); }
    }
    OnlyNode(flows, r, ids[0]);
  }

  /** With a single fingerprint and no edges, one flow is emitted: the last. */
  lemma OnlyNode(flows: seq<HttpFlow>, r: TopoResult, id: string)
    requires IsTopoResult(flows, map[], r) && Elements(Fingerprints(flows)) == {id} && flows != []
    ensures r.flows == [LastWith(flows, id)] && r.cyclesDetected == |flows| - 1
  {
    var g := GraphOf(flows, map[]);
    var head := Steps(flows, r);
    var order := Fingerprints(head);
    GreedyDistinct(g, order);
    assert !IsReady(g, Elements(order), id);
    assert id in Elements(order);
    DistinctCard(order);
    assert Elements(order) == {id};
    assert order[0] in Elements(order);
    assert head[0] in head && |head| == 1;
    NoneUnsorted(flows, Elements(order));
  }

  lemma UniqueFlowWith(flows: seq<HttpFlow>, f: HttpFlow, h: HttpFlow)
    requires Distinct(Fingerprints(flows)) && f in flows && h in flows && Fingerprint(f) == Fingerprint(h)
    ensures f == h
  {
    var i :| 0 <= i < |flows| && flows[i] == f;
    var j :| 0 <= j < |flows| && flows[j] == h;
    assert Fingerprints(flows)[i] == Fingerprints(flows)[j];
  }

  /** The sorted steps as one listing; what the other lemmas need of a result. */
  lemma Head(flows: seq<HttpFlow>, targets: Targets, r: TopoResult) returns (head: seq<HttpFlow>)
    requires IsTopoResult(flows, targets, r)
    ensures head == Steps(flows, r) && |head| == SortedCount(flows, r)
    ensures GreedyOrder(GraphOf(flows, targets), Fingerprints(head))
    ensures forall f | f in head :: f in flows
    ensures r.flows == head + Unsorted(flows, Elements(Fingerprints(head)))
  {
    head := Steps(flows, r);
  }

  /** Both captures hold the same last flow for each of these fingerprints. */
  ghost predicate SameCarriers(a: seq<HttpFlow>, b: seq<HttpFlow>, ids: seq<string>) {
    forall i | 0 <= i < |ids| :: SameCarrier(a, b, ids[i])
  }

  ghost predicate SameCarrier(a: seq<HttpFlow>, b: seq<HttpFlow>, id: string) {
    && id in Elements(Fingerprints(a)) && id in Elements(Fingerprints(b))
    && LastWith(a, id) == LastWith(b, id)
  }

  /** Main result on determinism: reordering the captured flows changes neither the sorted
      fingerprints nor the cycle count. The sorted steps stay the same exactly when each of
      those fingerprints keeps its last flow, as it does if fingerprints are distinct; and
      without a cycle the steps are the whole result. */
  lemma InputOrderIrrelevant(a: seq<HttpFlow>, b: seq<HttpFlow>, targets: Targets, ra: TopoResult, rb: TopoResult)
    requires multiset(a) == multiset(b)
    requires IsTopoResult(a, targets, ra) && IsTopoResult(b, targets, rb)
    ensures ra.cyclesDetected == rb.cyclesDetected
    ensures Fingerprints(Steps(a, ra)) == Fingerprints(Steps(b, rb))
    ensures Steps(a, ra) == Steps(b, rb) <==> SameCarriers(a, b, Fingerprints(Steps(a, ra)))
    ensures Distinct(Fingerprints(a)) ==> Steps(a, ra) == Steps(b, rb)
    ensures Acyclic(GraphOf(a, targets)) ==> ra.flows == Steps(a, ra) && rb.flows == Steps(b, rb)
  {
    SameInputs(a, b, targets);
    var ha := Head(a, targets, ra);
    var hb := Head(b, targets, rb);
    GreedyUnique(GraphOf(a, targets), Fingerprints(ha), Fingerprints(hb));
    SameStepsIff(a, b, ha, hb);
    if Distinct(Fingerprints(a)) {
      SameHead(a, ha, hb);
    }
    if Acyclic(GraphOf(a, targets)) {
      AllSorted(a, targets, ra);
      AllSorted(b, targets, rb);
    }
  }

  lemma SameStepsIff(a: seq<HttpFlow>, b: seq<HttpFlow>, ha: seq<HttpFlow>, hb: seq<HttpFlow>)
    requires ShowsLast(a, ha) && ShowsLast(b, hb) && Fingerprints(ha) == Fingerprints(hb)
    ensures ha == hb <==> SameCarriers(a, b, Fingerprints(ha))
  {
    var ids := Fingerprints(ha);
    assert |ha| == |ids| == |hb|;
    forall i | 0 <= i < |ids| ensures ha[i] == hb[i] <==> SameCarrier(a, b, ids[i]) {
      assert ha[i] in ha && hb[i] in hb;
      assert Fingerprint(ha[i]) == ids[i] == Fingerprint(hb[i]);
    }
  }

  /** Without a cycle every flow listed is a sorted step. */
  lemma AllSorted(flows: seq<HttpFlow>, targets: Targets, r: TopoResult)
    requires IsTopoResult(flows, targets, r) && Acyclic(GraphOf(flows, targets))
    ensures r.flows == Steps(flows, r)
  {
    var g := GraphOf(flows, targets);
    var ids := Fingerprints(Steps(flows, r));
    LeftoversAreBehindCycles(g, ids);
    AcyclicIffNoneStuck(g);
    NoneUnsorted(flows, Elements(ids));
  }

  lemma SameInputs(a: seq<HttpFlow>, b: seq<HttpFlow>, targets: Targets)
    requires multiset(a) == multiset(b)
    ensures |a| == |b| && GraphOf(a, targets) == GraphOf(b, targets)
    ensures forall f :: f in a <==> f in b
  {
    assert |a| == |multiset(a)| == |multiset(b)| == |b|;
    assert forall f :: f in a <==> f in multiset(a);
    assert forall f :: f in b <==> f in multiset(b);
    SameFingerprints(a, b);
    SameFingerprints(b, a);
  }

  lemma SameHead(flows: seq<HttpFlow>, a: seq<HttpFlow>, b: seq<HttpFlow>)
    requires Distinct(Fingerprints(flows)) && Fingerprints(a) == Fingerprints(b)
    requires forall f | f in a :: f in flows
    requires forall f | f in b :: f in flows
    ensures a == b
  {
    assert |a| == |Fingerprints(a)| == |b|;
    forall i | 0 <= i < |a| ensures a[i] == b[i] {
      assert Fingerprints(a)[i] == Fingerprints(b)[i];
      UniqueFlowWith(flows, a[i], b[i]);
    }
  }

  lemma SameFingerprints(a: seq<HttpFlow>, b: seq<HttpFlow>)
    requires forall f | f in a :: f in b
    ensures Elements(Fingerprints(a)) <= Elements(Fingerprints(b))
  {
    forall id | id in Fingerprints(a) ensures id in Fingerprints(b) {
      var i :| 0 <= i < |a| && Fingerprints(a)[i] == id;
      assert a[i] in b;
      var j :| 0 <= j < |b| && b[j] == a[i];
      assert Fingerprints(b)[j] == id;
    }
  }

  /** With no cycle reported, both ends of an edge are listed, the source first. */
  lemma SourceBeforeTarget(flows: seq<HttpFlow>, targets: Targets, r: TopoResult, s: string, t: string)
    returns (i: nat, j: nat)
    requires IsTopoResult(flows, targets, r) && r.cyclesDetected == 0
    requires Edge(GraphOf(flows, targets), s, t)
    ensures i < j < |r.flows| && Fingerprint(r.flows[i]) == s && Fingerprint(r.flows[j]) == t
  {
    CyclesDetectedMeaning(flows, targets, r);
    AllSorted(flows, targets, r);
    var head := Head(flows, targets, r);
    assert head == r.flows;
    i, j := EdgePositions(GraphOf(flows, targets), Fingerprints(head), s, t);
  }

  lemma EdgePositions(g: Graph, order: seq<string>, s: string, t: string) returns (i: nat, j: nat)
    requires GreedyOrder(g, order) && Acyclic(g) && Edge(g, s, t)
    ensures i < j < |order| && order[i] == s && order[j] == t
  {
    LeftoversAreBehindCycles(g, order);
    AcyclicIffNoneStuck(g);
    assert t in g.nodes - Elements(order) || t in Elements(order);
    j :| 0 <= j < |order| && order[j] == t;
    SourcesFirst(g, order, j);
    assert s in order[..j];
    i :| 0 <= i < j && order[i] == s;
  }

  // ---- Kahn's loop ----

  /** Edges into t whose source is still to come, counted with repetitions. */
  ghost function Pending(edges: seq<(string, string)>, t: string, done: set<string>): nat {
    if edges == [] then 0
    else Pending(edges[..|edges| - 1], t, done)
         + (if edges[|edges| - 1].1 == t && edges[|edges| - 1].0 !in done then 1 else 0)
  }

  /** The adjacency list the loop keeps for s. */
  ghost function From(edges: seq<(string, string)>, s: string): seq<string> {
    if edges == [] then []
    else From(edges[..|edges| - 1], s)
         + (if edges[|edges| - 1].0 == s then [edges[|edges| - 1].1] else [])
  }

  ghost predicate ListsEdges(g: Graph, edges: seq<(string, string)>) {
    && (forall e | e in edges :: Edge(g, e.0, e.1))
    && (forall s, t | Edge(g, s, t) :: (s, t) in edges)
  }

  lemma {:induction false} PendingZero(edges: seq<(string, string)>, t: string, done: set<string>)
    ensures Pending(edges, t, done) == 0 <==> forall e | e in edges && e.1 == t :: e.0 in done
  {
    if edges != [] {
      PendingZero(edges[..|edges| - 1], t, done);
      assert edges == edges[..|edges| - 1] + [edges[|edges| - 1]];
    }
  }

  lemma PendingIsReady(g: Graph, edges: seq<(string, string)>, done: set<string>, t: string)
    requires ListsEdges(g, edges) && t in g.nodes
    ensures IsReady(g, done, t) <==> t !in done && Pending(edges, t, done) == 0
  {
    PendingZero(edges, t, done);
    if IsReady(g, done, t) {
      forall e | e in edges && e.1 == t ensures e.0 in done { assert Edge(g, e.0, t); }
    }
    if t !in done && Pending(edges, t, done) == 0 {
      forall s | Edge(g, s, t) ensures s in done { assert (s, t) in edges; }
    }
  }

  /** Finishing a node releases exactly the edges in its adjacency list. */
  lemma {:induction false} PendingRelease(edges: seq<(string, string)>, t: string, done: set<string>, id: string)
    requires id !in done
    ensures Pending(edges, t, done) == Pending(edges, t, done + {id}) + multiset(From(edges, id))[t]
  {
    if edges != [] {
      PendingRelease(edges[..|edges| - 1], t, done, id);
    }
  }

  lemma {:induction false} FromMembers(edges: seq<(string, string)>, s: string)
    ensures forall t :: t in From(edges, s) <==> (s, t) in edges
  {
    if edges != [] {
      FromMembers(edges[..|edges| - 1], s);
      assert edges == edges[..|edges| - 1] + [edges[|edges| - 1]];
    }
  }

  /** The state of the loop between two pops. */
  ghost predicate LoopState(g: Graph, edges: seq<(string, string)>, order: seq<string>,
                            queue: seq<string>, inDegree: map<string, nat>) {
    && ListsEdges(g, edges)
    && GreedySoFar(g, order)
    && Sorted(queue) && Distinct(queue) && Elements(queue) == Ready(g, Elements(order))
    && inDegree.Keys == g.nodes
    && forall t | t in g.nodes :: inDegree[t] == Pending(edges, t, Elements(order))
  }

  /** `adj` and `in_degree` agree with the edges entered so far. */
  ghost predicate Tracks(
      g: Graph, edges: seq<(string, string)>, adj: map<string, seq<string>>, inDegree: map<string, nat>)
  {
    && (forall e | e in edges :: Edge(g, e.0, e.1))
    && (forall s :: From(edges, s) == if s in adj then adj[s] else [])
    && inDegree.Keys == g.nodes
    && forall t | t in g.nodes :: inDegree[t] == Pending(edges, t, {})
  }

  method EnterEdge(g: Graph, ghost edges0: seq<(string, string)>, adj0: map<string, seq<string>>,
                   inDegree0: map<string, nat>, source: string, target: string)
    returns (adj: map<string, seq<string>>, inDegree: map<string, nat>, ghost edges: seq<(string, string)>)
    requires Tracks(g, edges0, adj0, inDegree0) && Edge(g, source, target)
    ensures Tracks(g, edges, adj, inDegree) && edges == edges0 + [(source, target)]
  {
    edges := edges0 + [(source, target)];
    assert edges[..|edges| - 1] == edges0;
    adj := adj0[source := (if source in adj0 then adj0[source] else []) + [target]];
    inDegree := inDegree0[target := inDegree0[target] + 1];
  }

  /** All edges out of a source have been entered. */
  ghost predicate Entered(g: Graph, source: string, edges: seq<(string, string)>) {
    forall t | Edge(g, source, t) :: (source, t) in edges
  }

  lemma EnteredGrows(g: Graph, source: string, before: seq<(string, string)>, after: seq<(string, string)>)
    requires Entered(g, source, before) && before <= after
    ensures Entered(g, source, after)
  {
    assert forall e | e in before :: e in after;
  }

  method EnterSource(g: Graph, ghost edges0: seq<(string, string)>, adj0: map<string, seq<string>>,
                     inDegree0: map<string, nat>, source: string)
    returns (adj: map<string, seq<string>>, inDegree: map<string, nat>, ghost edges: seq<(string, string)>)
    requires Tracks(g, edges0, adj0, inDegree0) && source in g.targets
    ensures Tracks(g, edges, adj, inDegree) && edges0 <= edges && Entered(g, source, edges)
  {
    adj, inDegree, edges := adj0, inDegree0, edges0;
    if source in g.nodes {
      var targets := g.targets[source];
      for j := 0 to |targets|
        invariant Tracks(g, edges, adj, inDegree) && edges0 <= edges
        invariant forall t | t in targets[..j] && Edge(g, source, t) :: (source, t) in edges
      {
        var target := targets[j];
        if target in g.nodes && target != source {
          adj, inDegree, edges := EnterEdge(g, edges, adj, inDegree, source, target);
        }
      }
    }
  }

  method BuildEdges(g: Graph)
    returns (adj: map<string, seq<string>>, inDegree: map<string, nat>, ghost edges: seq<(string, string)>)
    ensures ListsEdges(g, edges) && Tracks(g, edges, adj, inDegree)
  {
    adj, edges := map[], [];
    inDegree := map v | v in g.nodes :: 0;
    var sources := SortedKeys(g.targets.Keys);
    for i := 0 to |sources|
      invariant Tracks(g, edges, adj, inDegree)
      invariant forall k | 0 <= k < i :: Entered(g, sources[k], edges)
    {
      assert sources[i] in Elements(sources);
      ghost var before := edges;
      adj, inDegree, edges := EnterSource(g, edges, adj, inDegree, sources[i]);
      forall k | 0 <= k < i ensures Entered(g, sources[k], edges) { EnteredGrows(g, sources[k], before, edges); }
    }
    forall s, t | Edge(g, s, t) ensures (s, t) in edges {
      assert s in Elements(sources);
      var k :| 0 <= k < |sources| && sources[k] == s;
      assert Entered(g, sources[k], edges);
    }
  }

  /** The inner loop: decrement every neighbour, queue those that reach zero. */
  method Decrement(neighbors: seq<string>, rest: seq<string>, inDegree0: map<string, nat>)
    returns (queue: seq<string>, inDegree: map<string, nat>)
    requires Distinct(rest)
    requires forall t | t in neighbors :: t in inDegree0 && inDegree0[t] >= multiset(neighbors)[t] && t !in rest
    ensures inDegree.Keys == inDegree0.Keys
    ensures forall t | t in inDegree0 :: inDegree[t] + multiset(neighbors)[t] == inDegree0[t]
    ensures Distinct(queue)
    ensures forall t :: t in queue <==> t in rest || (t in neighbors && inDegree[t] == 0)
  {
    queue, inDegree := rest, inDegree0;
    for j := 0 to |neighbors|
      invariant inDegree.Keys == inDegree0.Keys
      invariant forall t | t in inDegree0 :: inDegree[t] + multiset(neighbors[..j])[t] == inDegree0[t]
      invariant Distinct(queue)
      invariant forall t :: t in queue <==> t in rest || (t in neighbors[..j] && inDegree[t] == 0)
    {
      var neighbor := neighbors[j];
      assert neighbors[..j + 1] == neighbors[..j] + [neighbor];
      PrefixCount(neighbors, j, neighbor);
      // saturating_sub
      var degree := if inDegree[neighbor] == 0 then 0 else inDegree[neighbor] - 1;
      assert neighbor !in queue;
      inDegree := inDegree[neighbor := degree];
      if degree == 0 {
        queue := queue + [neighbor];
      }
    }
    assert neighbors[..|neighbors|] == neighbors;
  }

  lemma PrefixCount(s: seq<string>, j: nat, x: string)
    requires j < |s| && s[j] == x
    ensures multiset(s[..j])[x] < multiset(s)[x]
  {
    assert s == s[..j] + [x] + s[j + 1..];
  }

  /** What a pop of id finds: id is the least ready node, its neighbours are neither
      done nor queued, and their degrees cover the coming decrements. */
  lemma BeforeRelease(g: Graph, edges: seq<(string, string)>, order: seq<string>,
                      id: string, rest: seq<string>, inDegree: map<string, nat>, neighbors: seq<string>)
    requires LoopState(g, edges, order, [id] + rest, inDegree)
    requires multiset(neighbors) == multiset(From(edges, id))
    ensures IsReady(g, Elements(order), id) && GreedySoFar(g, order + [id])
    ensures Distinct(rest) && id !in rest
    ensures forall x :: x in rest || x == id <==> x in Ready(g, Elements(order))
    ensures forall t :: t in neighbors <==> (id, t) in edges
    ensures forall t | t in neighbors :: t in g.nodes && t !in rest && t !in Elements(order) + {id}
    ensures forall t | t in g.nodes :: inDegree[t] == Pending(edges, t, Elements(order) + {id}) + multiset(neighbors)[t]
  {
    var q := [id] + rest;
    assert Elements(q) == {id} + Elements(rest);
    FirstIsLeast(id, rest);
    GreedyStep(g, order, id);
    forall j | 0 <= j < |rest| ensures rest[j] != id { assert q[j + 1] != q[0]; }
    forall i, j | 0 <= i < j < |rest| ensures rest[i] != rest[j] { assert q[i + 1] != q[j + 1]; }
    forall t | t in g.nodes
      ensures inDegree[t] == Pending(edges, t, Elements(order) + {id}) + multiset(neighbors)[t]
    {
      PendingRelease(edges, t, Elements(order), id);
    }
    FromMembers(edges, id);
    forall t ensures t in neighbors <==> (id, t) in edges {
      assert t in neighbors <==> t in multiset(neighbors);
      assert t in From(edges, id) <==> t in multiset(From(edges, id));
    }
    forall t | t in rest ensures !Edge(g, id, t) {
      assert t in Elements(q);
      assert IsReady(g, Elements(order), t);
    }
    forall t | t in neighbors ensures t in g.nodes && t !in rest && t !in Elements(order) + {id} {
      assert Edge(g, id, t);
      if t in order { DoneIsClosed(g, order, id, t); }
    }
  }

  /** One turn of Kahn's loop after the pop of id. */
  method Release(ghost g: Graph, ghost edges: seq<(string, string)>, ghost order: seq<string>,
                 id: string, rest: seq<string>, inDegree0: map<string, nat>, neighbors: seq<string>)
    returns (queue: seq<string>, inDegree: map<string, nat>)
    requires LoopState(g, edges, order, [id] + rest, inDegree0)
    requires multiset(neighbors) == multiset(From(edges, id))
    ensures LoopState(g, edges, order + [id], queue, inDegree)
  {
    BeforeRelease(g, edges, order, id, rest, inDegree0, neighbors);
    ghost var done := Elements(order);
    assert Elements(order + [id]) == done + {id};
    var unsorted;
    unsorted, inDegree := Decrement(neighbors, rest, inDegree0);
    forall t ensures t in unsorted <==> t in Ready(g, done + {id}) {
      ReadyAfter(g, edges, done, id, t, rest, neighbors);
    }
    queue := Sort(unsorted);
    SortKeepsSet(unsorted, queue);
    assert Elements(queue) == Ready(g, done + {id});
  }

  lemma FirstIsLeast(id: string, rest: seq<string>)
    requires Sorted([id] + rest)
    ensures IsLeast(id, Elements([id] + rest))
  {
    var q := [id] + rest;
    forall y | y in Elements(q) ensures StrLe(id, y) {
      var k :| 0 <= k < |q| && q[k] == y;
      StrLeTotal(id, id);
      assert k > 0 ==> StrLe(q[0], q[k]);
    }
  }

  lemma SortKeepsSet(a: seq<string>, b: seq<string>)
    requires Distinct(a) && multiset(a) == multiset(b)
    ensures Distinct(b) && Elements(a) == Elements(b)
  {
    DistinctCounts(a);
    DistinctCounts(b);
    forall x ensures x in a <==> x in b { assert x in multiset(a) <==> x in multiset(b); }
  }

  /** What is done has only done sources. */
  lemma DoneIsClosed(g: Graph, order: seq<string>, s: string, t: string)
    requires GreedySoFar(g, order) && Edge(g, s, t) && t in order
    ensures s in order
  {
    var i :| 0 <= i < |order| && order[i] == t;
    SourcesFirst(g, order, i);
  }

  lemma ReadyAfter(g: Graph, edges: seq<(string, string)>, done: set<string>, id: string, t: string,
                   rest: seq<string>, neighbors: seq<string>)
    requires ListsEdges(g, edges) && IsReady(g, done, id) && id !in rest
    requires forall x :: x in rest || x == id <==> x in Ready(g, done)
    requires forall x :: x in neighbors <==> (id, x) in edges
    requires forall x | x in neighbors :: x !in done + {id}
    ensures t in Ready(g, done + {id}) <==> t in rest || (t in neighbors && Pending(edges, t, done + {id}) == 0)
  {
    if t in g.nodes {
      PendingIsReady(g, edges, done, t);
      PendingIsReady(g, edges, done + {id}, t);
      if t in neighbors {
        assert Edge(g, id, t);
      } else if t != id && t !in done {
        assert !Edge(g, id, t);
        assert IsReady(g, done, t) <==> IsReady(g, done + {id}, t);
      }
    }
  }

  /** `flow_by_id`: later flows overwrite earlier ones. */
  method IndexFlows(flows: seq<HttpFlow>) returns (flowById: map<string, HttpFlow>)
    ensures flowById.Keys == Elements(Fingerprints(flows))
    ensures forall id | id in flowById :: flowById[id] == LastWith(flows, id)
  {
    flowById := map[];
    for i := 0 to |flows|
      invariant flowById.Keys == Elements(Fingerprints(flows[..i]))
      invariant forall id | id in flowById :: flowById[id] == LastWith(flows[..i], id)
    {
      assert Fingerprints(flows[..i + 1]) == Fingerprints(flows[..i]) + [Fingerprint(flows[i])];
      assert flows[..i + 1][..i] == flows[..i];
      flowById := flowById[Fingerprint(flows[i]) := flows[i]];
    }
    assert flows[..|flows|] == flows;
  }

  /** Appends, in input order, the flows whose fingerprint is not in the result. */
  method AppendCyclic(flows: seq<HttpFlow>, sorted: seq<HttpFlow>) returns (result: seq<HttpFlow>)
    ensures result == sorted + Unsorted(flows, Elements(Fingerprints(sorted)))
  {
    result := sorted;
    var included := set f | f in sorted :: Fingerprint(f);
    SetOfFingerprints(sorted);
    for i := 0 to |flows|
      invariant result + Unsorted(flows[i..], included) == sorted + Unsorted(flows, included)
    {
      assert flows[i..][1..] == flows[i + 1..];
      if Fingerprint(flows[i]) !in included {
        result := result + [flows[i]];
      }
    }
  }

  /** Kahn's loop: pop the least id, emit its flow, release its neighbours. */
  method KahnLoop(flows: seq<HttpFlow>, g: Graph, flowById: map<string, HttpFlow>)
    returns (sorted: seq<HttpFlow>, visited: nat)
    requires g.nodes == Elements(Fingerprints(flows)) == flowById.Keys
    requires forall id | id in flowById :: flowById[id] == LastWith(flows, id)
    ensures GreedyOrder(g, Fingerprints(sorted)) && ShowsLast(flows, sorted)
    ensures visited == |sorted|
  {
    var adj, inDegree, edges := BuildEdges(g);
    var queue := Sort(SortedKeys(set id | id in inDegree.Keys && inDegree[id] == 0));
    InitialState(g, edges, queue, inDegree);
    sorted, visited := [], 0;
    assert Fingerprints(sorted) == [];
    while queue != []
      invariant Sorting(flows, g, edges, queue, inDegree, sorted)
      invariant visited == |sorted|
      decreases |g.nodes| - |sorted|
    {
      var id := queue[0];
      var rest := queue[1..];
      assert queue == [id] + rest;
      assert id in Elements(queue);
      var neighbors := if id in adj then Sort(adj[id]) else [];
      queue, inDegree := Release(g, edges, Fingerprints(sorted), id, rest, inDegree, neighbors);
      SortingStep(flows, g, edges, queue, inDegree, sorted, id);
      sorted := sorted + [flowById[id]];
      visited := visited + 1;
    }
    Exhausted(g, edges, Fingerprints(sorted), inDegree);
  }

  /** The loop stands between two turns, having emitted `sorted`. */
  ghost predicate Sorting(flows: seq<HttpFlow>, g: Graph, edges: seq<(string, string)>,
                          queue: seq<string>, inDegree: map<string, nat>, sorted: seq<HttpFlow>) {
    LoopState(g, edges, Fingerprints(sorted), queue, inDegree) && ShowsLast(flows, sorted)
  }

  lemma SortingStep(flows: seq<HttpFlow>, g: Graph, edges: seq<(string, string)>,
                    queue: seq<string>, inDegree: map<string, nat>, sorted: seq<HttpFlow>, id: string)
    requires id in Elements(Fingerprints(flows))
    requires LoopState(g, edges, Fingerprints(sorted) + [id], queue, inDegree) && ShowsLast(flows, sorted)
    ensures Sorting(flows, g, edges, queue, inDegree, sorted + [LastWith(flows, id)])
    ensures |sorted| + 1 <= |g.nodes|
  {
    var f := LastWith(flows, id);
    LastWithShows(flows, id);
    OneMore(flows, sorted, f);
    GreedyDistinct(g, Fingerprints(sorted + [f]));
  }

  lemma LastWithShows(flows: seq<HttpFlow>, id: string)
    requires id in Elements(Fingerprints(flows))
    ensures ShowsLast(flows, [LastWith(flows, id)]) && Fingerprint(LastWith(flows, id)) == id
  {
  }

  method TopologicalSort(flows: seq<HttpFlow>, targets: Targets) returns (r: TopoResult)
    ensures IsTopoResult(flows, targets, r)
  {
    var g := GraphOf(flows, targets);
    var flowById := IndexFlows(flows);
    var sorted, visited := KahnLoop(flows, g, flowById);
    GreedyDistinct(g, Fingerprints(sorted));
    FinishedOrder(flows, g.nodes, Fingerprints(sorted));
    // saturating_sub
    var cyclesDetected := if |flows| >= visited then |flows| - visited else 0;
    var result := sorted;
    if cyclesDetected > 0 {
      result := AppendCyclic(flows, sorted);
    }
    r := TopoResult(result, cyclesDetected);
    TopoResultFrom(flows, targets, sorted, r);
  }

  lemma OneMore(flows: seq<HttpFlow>, sorted: seq<HttpFlow>, f: HttpFlow)
    requires ShowsLast(flows, sorted) && ShowsLast(flows, [f])
    ensures ShowsLast(flows, sorted + [f])
    ensures Fingerprints(sorted + [f]) == Fingerprints(sorted) + [Fingerprint(f)]
  {
    forall h | h in sorted + [f]
      ensures Fingerprint(h) in Elements(Fingerprints(flows)) && h == LastWith(flows, Fingerprint(h))
    {
      assert h in sorted || h in [f];
    }
  }

  lemma TopoResultFrom(flows: seq<HttpFlow>, targets: Targets, sorted: seq<HttpFlow>, r: TopoResult)
    requires |flows| - r.cyclesDetected == |sorted|
    requires r.flows == sorted + Unsorted(flows, Elements(Fingerprints(sorted)))
    requires GreedyOrder(GraphOf(flows, targets), Fingerprints(sorted)) && ShowsLast(flows, sorted)
    ensures IsTopoResult(flows, targets, r)
  {
    assert Steps(flows, r) == sorted;
  }

  lemma FinishedOrder(flows: seq<HttpFlow>, nodes: set<string>, order: seq<string>)
    requires nodes == Elements(Fingerprints(flows)) && |order| <= |nodes|
    requires |order| == |nodes| ==> Elements(order) == nodes
    ensures |order| <= |flows|
    ensures |order| == |flows| ==> Unsorted(flows, Elements(order)) == []
  {
    CardDistinct(Fingerprints(flows));
    if |order| == |flows| {
      NoneUnsorted(flows, Elements(order));
    }
  }

  /** An empty queue ends the greedy order. */
  lemma Exhausted(g: Graph, edges: seq<(string, string)>, order: seq<string>, inDegree: map<string, nat>)
    requires LoopState(g, edges, order, [], inDegree)
    ensures GreedyOrder(g, order)
  {
    forall v ensures !IsReady(g, Elements(order), v) {
      assert v !in Elements<string>([]);
      assert v in Ready(g, Elements(order)) <==> IsReady(g, Elements(order), v);
    }
  }

  lemma InitialState(g: Graph, edges: seq<(string, string)>, queue: seq<string>, inDegree: map<string, nat>)
    requires ListsEdges(g, edges) && inDegree.Keys == g.nodes
    requires forall t | t in g.nodes :: inDegree[t] == Pending(edges, t, {})
    requires queue == Sort(SortedKeys(set id | id in inDegree.Keys && inDegree[id] == 0))
    ensures LoopState(g, edges, [], queue, inDegree)
  {
    var zero := set id | id in inDegree.Keys && inDegree[id] == 0;
    assert Elements<string>([]) == {};
    SortKeepsSet(SortedKeys(zero), queue);
    forall t | t in g.nodes ensures t in zero <==> t in Ready(g, {}) {
      PendingIsReady(g, edges, {}, t);
    }
    assert zero == Ready(g, {});
  }

  lemma SetOfFingerprints(flows: seq<HttpFlow>)
    ensures (set f | f in flows :: Fingerprint(f)) == Elements(Fingerprints(flows))
  {
    forall f | f in flows ensures Fingerprint(f) in Fingerprints(flows) {
      var i :| 0 <= i < |flows| && flows[i] == f;
      assert Fingerprints(flows)[i] == Fingerprint(f);
    }
    forall id | id in Fingerprints(flows) ensures id in set f | f in flows :: Fingerprint(f) {
      var i :| 0 <= i < |flows| && Fingerprints(flows)[i] == id;
      assert flows[i] in flows;
    }
  }

  lemma {:induction false} NoneUnsorted(flows: seq<HttpFlow>, sorted: set<string>)
    requires Elements(Fingerprints(flows)) <= sorted
    ensures Unsorted(flows, sorted) == []
  {
    if flows != [] {
      assert Fingerprints(flows)[0] in Elements(Fingerprints(flows));
      assert Fingerprints(flows) == [Fingerprint(flows[0])] + Fingerprints(flows[1..]);
      NoneUnsorted(flows[1..], sorted);
    }
  }
}
