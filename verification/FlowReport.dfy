/** The flow report pipeline (`flow_report`): filter, build the graph and the dependency
    list, sort, and attach the occurrence count to every step. */
module FlowReport {
  import opened Text
  import opened Domain
  import NoiseFilter
  import DependencyMapper
  import FlowSequencer

  datatype FlowStep = FlowStep(fingerprint: string, httpMethod: string, path: string, status: nat, count: nat)

  datatype Report = Report(steps: seq<FlowStep>, cycles: nat, dependencies: seq<DependencyMapper.FlowDependency>)

  function StepCounts(steps: seq<FlowStep>): (r: seq<nat>)
    ensures |r| == |steps| && forall i | 0 <= i < |steps| :: r[i] == steps[i].count
  {
    seq(|steps|, i requires 0 <= i < |steps| => steps[i].count)
  }

  /** Step i comes before step j. */
  predicate StepOrder(steps: seq<FlowStep>, s: string, t: string) {
    exists i, j | 0 <= i < j < |steps| :: steps[i].fingerprint == s && steps[j].fingerprint == t
  }

  // ---- conservation of counts under reordering ----

  lemma {:induction false} TotalConcat(a: seq<nat>, b: seq<nat>)
    ensures NoiseFilter.Total(a + b) == NoiseFilter.Total(a) + NoiseFilter.Total(b)
  {
    if a == [] {
      assert a + b == b;
    } else {
      assert (a + b)[1..] == a[1..] + b;
      TotalConcat(a[1..], b);
    }
  }

  function CountOf(noise: NoiseFilter.NoisePatterns, raw: seq<HttpFlow>, flow: HttpFlow): nat {
    NoiseFilter.Occurrences(noise, raw, NoiseFilter.Key(flow))
  }

  function CountsOfFlows(noise: NoiseFilter.NoisePatterns, raw: seq<HttpFlow>, flows: seq<HttpFlow>): (r: seq<nat>)
    ensures |r| == |flows| && forall i | 0 <= i < |flows| :: r[i] == CountOf(noise, raw, flows[i])
  {
    seq(|flows|, i requires 0 <= i < |flows| => CountOf(noise, raw, flows[i]))
  }

  lemma {:induction false} TotalOfPermutation(noise: NoiseFilter.NoisePatterns, raw: seq<HttpFlow>,
                                              a: seq<HttpFlow>, b: seq<HttpFlow>)
    requires multiset(a) == multiset(b)
    ensures NoiseFilter.Total(CountsOfFlows(noise, raw, a)) == NoiseFilter.Total(CountsOfFlows(noise, raw, b))
  {
    if a == [] {
      assert |multiset(b)| == |b|;
    } else {
      assert a[0] in multiset(b);
      var k :| 0 <= k < |b| && b[k] == a[0];
      RemoveOne(a, b, k);
      TotalOfPermutation(noise, raw, a[1..], b[..k] + b[k + 1..]);
      var ca, cb := CountsOfFlows(noise, raw, a), CountsOfFlows(noise, raw, b);
      assert ca[1..] == CountsOfFlows(noise, raw, a[1..]);
      assert cb[..k] + cb[k + 1..] == CountsOfFlows(noise, raw, b[..k] + b[k + 1..]);
      TotalWithoutOne(cb, k);
    }
  }

  lemma TotalWithoutOne(c: seq<nat>, k: nat)
    requires k < |c|
    ensures NoiseFilter.Total(c) == c[k] + NoiseFilter.Total(c[..k] + c[k + 1..])
  {
    TotalConcat(c[..k], c[k + 1..]);
    TotalConcat(c[..k], c[k..]);
    assert c == c[..k] + c[k..];
  }

  // ---- the pipeline ----

  function StepWith(flow: HttpFlow, count: nat): FlowStep {
    FlowStep(Fingerprint(flow), flow.httpMethod, Before(flow.path, '?'), flow.responseStatus, count)
  }

  /** What a step says of its flow; the path goes up to the question mark. */
  lemma StepTells(flow: HttpFlow, count: nat, path: string, query: string)
    requires '?' !in path && (query == "" || query[0] == '?') && flow.path == path + query
    ensures var step := StepWith(flow, count);
            && step.fingerprint == Fingerprint(flow) && step.httpMethod == flow.httpMethod && step.path == path
            && step.status == flow.responseStatus && step.count == count
  {
    assert flow.path[..|path|] == path;
    BeforeIs(flow.path, '?', |path|);
  }

  /** The steps show these flows, in order, with their occurrence counts. */
  ghost predicate Shows(noise: NoiseFilter.NoisePatterns, raw: seq<HttpFlow>, steps: seq<FlowStep>,
                        flows: seq<HttpFlow>) {
    |steps| == |flows|
    && forall i | 0 <= i < |steps| ::
         steps[i] == StepWith(flows[i], CountOf(noise, raw, flows[i]))
  }

  predicate AllKnown(flows: seq<HttpFlow>, listed: seq<HttpFlow>) {
    forall f | f in listed :: Fingerprint(f) in Elements(Fingerprints(flows))
  }

  /** The count a step shows is looked up by fingerprint: that of the last flow with it. */
  function CountShown(noise: NoiseFilter.NoisePatterns, raw: seq<HttpFlow>, flows: seq<HttpFlow>, id: string): nat
    requires id in Elements(Fingerprints(flows))
  {
    CountOf(noise, raw, FlowSequencer.LastWith(flows, id))
  }

  ghost predicate ShowsByFingerprint(noise: NoiseFilter.NoisePatterns, raw: seq<HttpFlow>, flows: seq<HttpFlow>,
                                     steps: seq<FlowStep>, sorted: seq<HttpFlow>)
    requires AllKnown(flows, sorted)
  {
    |steps| == |sorted|
    && forall i | 0 <= i < |steps| ::
         steps[i] == StepWith(sorted[i], CountShown(noise, raw, flows, Fingerprint(sorted[i])))
  }

  /** The map from fingerprints to counts holds the count of the last flow with each. */
  ghost predicate CountsBy(noise: NoiseFilter.NoisePatterns, raw: seq<HttpFlow>, flows: seq<HttpFlow>,
                           counts: map<string, nat>) {
    counts.Keys == Elements(Fingerprints(flows))
    && forall id | id in counts :: counts[id] == CountShown(noise, raw, flows, id)
  }

  lemma CountOneMore(noise: NoiseFilter.NoisePatterns, raw: seq<HttpFlow>, flows: seq<HttpFlow>, flow: HttpFlow,
                     counts: map<string, nat>)
    requires CountsBy(noise, raw, flows, counts)
    ensures CountsBy(noise, raw, flows + [flow], counts[Fingerprint(flow) := CountOf(noise, raw, flow)])
  {
    var more := flows + [flow];
    assert more[..|flows|] == flows;
    assert Fingerprints(more) == Fingerprints(flows) + [Fingerprint(flow)];
  }

  method CountByFingerprint(noise: NoiseFilter.NoisePatterns, raw: seq<HttpFlow>, deduped: seq<(HttpFlow, nat)>,
                            ghost flows: seq<HttpFlow>)
    returns (counts: map<string, nat>)
    requires |flows| == |deduped|
    requires forall i | 0 <= i < |flows| :: deduped[i] == (flows[i], CountOf(noise, raw, flows[i]))
    ensures CountsBy(noise, raw, flows, counts)
  {
    counts := map[];
    for i := 0 to |deduped|
      invariant CountsBy(noise, raw, flows[..i], counts)
    {
      CountOneMore(noise, raw, flows[..i], flows[i], counts);
      assert flows[..i + 1] == flows[..i] + [flows[i]];
      counts := counts[Fingerprint(deduped[i].0) := deduped[i].1];
    }
    assert flows[..|flows|] == flows;
  }

  /** The sorted dependency list of a capture; DependencyMapper.DependencyIff says what it holds. */
  function DependenciesOf(extract: DependencyMapper.Extractor, flows: seq<HttpFlow>)
      : seq<DependencyMapper.FlowDependency> {
    DependencyMapper.SortDependencies(
      DependencyMapper.AllDependencies(flows, DependencyMapper.Pool(extract, flows)))
  }

  /** The fingerprints behind a cycle of the graph, and the flows in excess of fingerprints. */
  ghost function CyclesOf(flows: seq<HttpFlow>, graph: FlowSequencer.Targets): int {
    |FlowSequencer.Stuck(FlowSequencer.GraphOf(flows, graph))| + (|flows| - |Elements(Fingerprints(flows))|)
  }

  /** Main result of the pipeline, for every capture. The dependency list is the graph. When
      no cycle is reported, the producer of every dependency is replayed before its consumer.
      Unless two survivors are one request that their methods cut differently around a
      question mark, the steps list the survivors, each once, and their counts add up to the
      captured flows that are not noise. */
  method BuildReport(noise: NoiseFilter.NoisePatterns, extract: DependencyMapper.Extractor, raw: seq<HttpFlow>)
    returns (report: Report, ghost sorted: seq<HttpFlow>, ghost graph: FlowSequencer.Targets)
    ensures forall s, t :: DependencyMapper.HasEdge(graph, s, t)
                           <==> DependencyMapper.Depends(extract, NoiseFilter.Survivors(noise, raw), s, t)
    ensures report.cycles == CyclesOf(NoiseFilter.Survivors(noise, raw), graph)
    ensures AllKnown(NoiseFilter.Survivors(noise, raw), sorted)
    ensures ShowsByFingerprint(noise, raw, NoiseFilter.Survivors(noise, raw), report.steps, sorted)
    ensures report.dependencies == DependenciesOf(extract, NoiseFilter.Survivors(noise, raw))
    ensures forall s, t :: DependencyMapper.Links(report.dependencies, s, t)
                           <==> DependencyMapper.Depends(extract, NoiseFilter.Survivors(noise, raw), s, t)
    ensures report.cycles == 0 ==>
              forall s, t | DependencyMapper.Depends(extract, NoiseFilter.Survivors(noise, raw), s, t) ::
                StepOrder(report.steps, s, t)
    ensures report.cycles == 0 ==> NoiseFilter.NoneConfused(NoiseFilter.Survivors(noise, raw))
    ensures NoiseFilter.NoneConfused(NoiseFilter.Survivors(noise, raw)) ==>
              && multiset(sorted) == multiset(NoiseFilter.Survivors(noise, raw))
              && Shows(noise, raw, report.steps, sorted)
              && NoiseFilter.Total(StepCounts(report.steps)) == NoiseFilter.Kept(noise, raw)
  {
    var deduped := NoiseFilter.FilterForAnalysisWithCounts(noise, raw);
    var flows := seq(|deduped|, i requires 0 <= i < |deduped| => deduped[i].0);
    assert flows == NoiseFilter.Survivors(noise, raw);
    var countByFingerprint := CountByFingerprint(noise, raw, deduped, flows);

    var edges := DependencyMapper.BuildGraph(extract, flows);
    graph := edges;
    var dependencies := DependencyMapper.BuildDependencies(extract, flows);
    forall s, t
      ensures DependencyMapper.Links(dependencies, s, t) <==> DependencyMapper.Depends(extract, flows, s, t)
    {
      DependencyMapper.ListAndGraphAgree(extract, flows, graph, dependencies, s, t);
    }

    var topo := FlowSequencer.TopologicalSort(flows, edges);
    sorted := topo.flows;
    SortedAreKnown(flows, graph, topo);
    var steps := MakeSteps(noise, raw, flows, topo.flows, countByFingerprint);
    report := Report(steps, topo.cyclesDetected, dependencies);

    NoiseFilter.DistinctFingerprintsIff(noise, raw);
    FlowSequencer.CyclesDetectedMeaning(flows, graph, topo);
    if topo.cyclesDetected == 0 {
      forall s, t | DependencyMapper.Depends(extract, flows, s, t) ensures StepOrder(steps, s, t) {
        ProducersFirst(noise, raw, extract, flows, graph, topo, steps, s, t);
      }
    }
    if NoiseFilter.NoneConfused(flows) {
      DistinctLosesNothing(flows, graph, topo);
      OwnCounts(noise, raw, flows, steps, sorted);
      Conservation(noise, raw, steps, sorted);
    }
  }

  lemma SortedAreKnown(flows: seq<HttpFlow>, graph: FlowSequencer.Targets, topo: FlowSequencer.TopoResult)
    requires FlowSequencer.IsTopoResult(flows, graph, topo)
    ensures AllKnown(flows, topo.flows)
  {
    FlowSequencer.ListedAreCaptured(flows, graph, topo);
    forall f | f in topo.flows ensures Fingerprint(f) in Elements(Fingerprints(flows)) {
      var i :| 0 <= i < |flows| && flows[i] == f;
      assert Fingerprints(flows)[i] == Fingerprint(f);
    }
  }

  /** With distinct fingerprints, the count looked up is the flow's own. */
  lemma OwnCounts(noise: NoiseFilter.NoisePatterns, raw: seq<HttpFlow>, flows: seq<HttpFlow>,
                  steps: seq<FlowStep>, sorted: seq<HttpFlow>)
    requires AllKnown(flows, sorted) && ShowsByFingerprint(noise, raw, flows, steps, sorted)
    requires Distinct(Fingerprints(flows)) && multiset(sorted) == multiset(flows)
    ensures Shows(noise, raw, steps, sorted)
  {
    forall i | 0 <= i < |sorted| ensures FlowSequencer.LastWith(flows, Fingerprint(sorted[i])) == sorted[i] {
      assert sorted[i] in multiset(sorted);
      assert sorted[i] in multiset(flows);
      FlowSequencer.UniqueFlowWith(flows, sorted[i], FlowSequencer.LastWith(flows, Fingerprint(sorted[i])));
    }
  }

  method MakeSteps(noise: NoiseFilter.NoisePatterns, raw: seq<HttpFlow>, ghost flows: seq<HttpFlow>,
                   sorted: seq<HttpFlow>, countByFingerprint: map<string, nat>)
    returns (steps: seq<FlowStep>)
    requires AllKnown(flows, sorted) && CountsBy(noise, raw, flows, countByFingerprint)
    ensures ShowsByFingerprint(noise, raw, flows, steps, sorted)
  {
    steps := [];
    for i := 0 to |sorted|
      invariant |steps| == i
      invariant forall k | 0 <= k < i ::
                  steps[k] == StepWith(sorted[k], CountShown(noise, raw, flows, Fingerprint(sorted[k])))
    {
      var flow := sorted[i];
      var id := Fingerprint(flow);
      var count := if id in countByFingerprint then countByFingerprint[id] else 1;
      steps := steps + [StepWith(flow, count)];
    }
  }

  lemma DistinctLosesNothing(flows: seq<HttpFlow>, graph: FlowSequencer.Targets, topo: FlowSequencer.TopoResult)
    requires Distinct(Fingerprints(flows)) && FlowSequencer.IsTopoResult(flows, graph, topo)
    ensures multiset(topo.flows) == multiset(flows)
  {
    FlowSequencer.NothingLostIff(flows, graph, topo);
    FlowSequencer.DistinctCounts(Fingerprints(flows));
  }

  lemma Conservation(noise: NoiseFilter.NoisePatterns, raw: seq<HttpFlow>, steps: seq<FlowStep>, sorted: seq<HttpFlow>)
    requires Shows(noise, raw, steps, sorted)
    requires multiset(sorted) == multiset(NoiseFilter.Survivors(noise, raw))
    ensures NoiseFilter.Total(StepCounts(steps)) == NoiseFilter.Kept(noise, raw)
  {
    var flows := NoiseFilter.Survivors(noise, raw);
    NoiseFilter.CountsConserved(noise, raw);
    TotalOfPermutation(noise, raw, sorted, flows);
    assert StepCounts(steps) == CountsOfFlows(noise, raw, sorted);
    assert CountsOfFlows(noise, raw, flows) == NoiseFilter.CountsOf(noise, raw, NoiseFilter.Keys(flows));
  }

  lemma DependencyEnds(extract: DependencyMapper.Extractor, flows: seq<HttpFlow>, s: string, t: string)
    requires DependencyMapper.Depends(extract, flows, s, t)
    ensures s != t && s in Elements(Fingerprints(flows)) && t in Elements(Fingerprints(flows))
  {
    var p, c, k :|
      p in flows && c in flows && Fingerprint(p) == s && Fingerprint(c) == t
      && DependencyMapper.Feeds(extract, p, c, k);
    var i :| 0 <= i < |flows| && flows[i] == p;
    var j :| 0 <= j < |flows| && flows[j] == c;
    assert Fingerprints(flows)[i] == s && Fingerprints(flows)[j] == t;
  }

  lemma ProducersFirst(noise: NoiseFilter.NoisePatterns, raw: seq<HttpFlow>, extract: DependencyMapper.Extractor,
                       flows: seq<HttpFlow>, graph: FlowSequencer.Targets, topo: FlowSequencer.TopoResult,
                       steps: seq<FlowStep>, s: string, t: string)
    requires FlowSequencer.IsTopoResult(flows, graph, topo) && topo.cyclesDetected == 0
    requires forall a, b :: DependencyMapper.HasEdge(graph, a, b) <==> DependencyMapper.Depends(extract, flows, a, b)
    requires AllKnown(flows, topo.flows) && ShowsByFingerprint(noise, raw, flows, steps, topo.flows)
    requires DependencyMapper.Depends(extract, flows, s, t)
    ensures StepOrder(steps, s, t)
  {
    DependencyEnds(extract, flows, s, t);
    assert DependencyMapper.HasEdge(graph, s, t);
    var i, j := FlowSequencer.SourceBeforeTarget(flows, graph, topo, s, t);
    assert steps[i].fingerprint == s && steps[j].fingerprint == t;
  }
}
