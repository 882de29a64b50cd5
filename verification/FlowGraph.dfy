/** The timeline graph (`FlowGraphBuilder::build_timeline_graph`): flows in time order,
    each linked to the earlier flows whose tokens it uses, or else to its predecessor. */
module FlowGraph {
  import opened Text
  import opened Domain
  import opened DependencyMapper

  datatype TimelineNode = TimelineNode(
    id: string, timestamp: int, httpMethod: string, path: string, status: nat,
    parentIds: seq<string>, childrenIds: seq<string>, token: Option<string>)

  // ---- sort_by_key(timestamp), which is stable ----

  ghost predicate InTimeOrder(flows: seq<HttpFlow>) {
    forall i, j | 0 <= i < j < |flows| :: flows[i].timestamp <= flows[j].timestamp
  }

  function AtTime(flows: seq<HttpFlow>, t: int): seq<HttpFlow> {
    if flows == [] then []
    else (if flows[0].timestamp == t then [flows[0]] else []) + AtTime(flows[1..], t)
  }

  function SortByTime(flows: seq<HttpFlow>): (r: seq<HttpFlow>)
    ensures multiset(r) == multiset(flows)
    ensures InTimeOrder(r)
  {
    if flows == [] then [] else
      assert flows == [flows[0]] + flows[1..];
      InsertByTime(flows[0], SortByTime(flows[1..]))
  }

  function InsertByTime(x: HttpFlow, flows: seq<HttpFlow>): (r: seq<HttpFlow>)
    requires InTimeOrder(flows)
    ensures multiset(r) == multiset(flows) + multiset{x}
    ensures InTimeOrder(r)
  {
    if flows == [] || x.timestamp <= flows[0].timestamp then [x] + flows
    else
      var tail := InsertByTime(x, flows[1..]);
      assert flows == [flows[0]] + flows[1..];
      InsertBehindByTime(x, flows, tail);
      [flows[0]] + tail
  }

  lemma InsertBehindByTime(x: HttpFlow, flows: seq<HttpFlow>, tail: seq<HttpFlow>)
    requires InTimeOrder(flows) && flows != [] && flows[0].timestamp < x.timestamp && InTimeOrder(tail)
    requires multiset(tail) == multiset(flows[1..]) + multiset{x}
    ensures InTimeOrder([flows[0]] + tail)
  {
    forall j | 0 <= j < |tail| ensures flows[0].timestamp <= tail[j].timestamp {
      assert tail[j] in multiset(tail);
      assert tail[j] == x || tail[j] in multiset(flows[1..]);
    }
  }

  lemma AtTimeHead(x: HttpFlow, rest: seq<HttpFlow>, t: int)
    ensures AtTime([x] + rest, t) == (if x.timestamp == t then [x] else []) + AtTime(rest, t)
  {
    assert ([x] + rest)[1..] == rest;
  }

  lemma {:induction false} InsertIsStable(x: HttpFlow, flows: seq<HttpFlow>, t: int)
    requires InTimeOrder(flows)
    ensures AtTime(InsertByTime(x, flows), t) == (if x.timestamp == t then [x] else []) + AtTime(flows, t)
  {
    if flows == [] || x.timestamp <= flows[0].timestamp {
      AtTimeHead(x, flows, t);
    } else {
      var first, rest := flows[0], flows[1..];
      var tail := InsertByTime(x, rest);
      assert InsertByTime(x, flows) == [first] + tail && flows == [first] + rest;
      InsertIsStable(x, rest, t);
      AtTimeHead(first, tail, t);
      AtTimeHead(first, rest, t);
      assert x.timestamp == t ==> first.timestamp != t;
    }
  }

  /** Flows with the same timestamp keep their captured order. */
  lemma {:induction false} SortIsStable(flows: seq<HttpFlow>, t: int)
    ensures AtTime(SortByTime(flows), t) == AtTime(flows, t)
  {
    if flows != [] {
      SortIsStable(flows[1..], t);
      InsertIsStable(flows[0], SortByTime(flows[1..]), t);
    }
  }

  // ---- the parents of one flow ----

  type Pool = seq<(Token, string)>

  predicate Uses(entry: (Token, string), text: string, id: string) {
    entry.1 != id && Occurs(entry.0.value, text)
  }

  /** Appends the sources of the pool entries used in one text, each once. */
  function AddSources(parents: seq<string>, pool: Pool, text: string, id: string): seq<string> {
    if pool == [] then parents
    else
      var p := AddSources(parents, pool[..|pool| - 1], text, id);
      var entry := pool[|pool| - 1];
      if Uses(entry, text, id) && entry.1 !in p then p + [entry.1] else p
  }

  function HeaderSources(pool: Pool, headers: seq<(string, string)>, id: string): seq<string> {
    if headers == [] then []
    else AddSources(HeaderSources(pool, headers[..|headers| - 1], id), pool, headers[|headers| - 1].1, id)
  }

  function TokenSources(pool: Pool, flow: HttpFlow): seq<string> {
    var fromHeaders := HeaderSources(pool, flow.requestHeaders, flow.id);
    if flow.requestBody.Some? then AddSources(fromHeaders, pool, flow.requestBody.value, flow.id) else fromHeaders
  }

  function ParentList(pool: Pool, flow: HttpFlow, prev: Option<string>): seq<string> {
    var sources := TokenSources(pool, flow);
    if sources == [] && prev.Some? then [prev.value] else sources
  }

  /** Description of the first pool entry used in a text. */
  function FirstUse(seen: Option<string>, pool: Pool, text: string, id: string, place: string): Option<string> {
    if pool == [] then seen
    else
      var d := FirstUse(seen, pool[..|pool| - 1], text, id, place);
      var entry := pool[|pool| - 1];
      if d.None? && Uses(entry, text, id) then Some(entry.0.kind + ": " + place) else d
  }

  function HeaderUse(pool: Pool, headers: seq<(string, string)>, id: string): Option<string> {
    if headers == [] then None
    else
      var last := headers[|headers| - 1];
      FirstUse(HeaderUse(pool, headers[..|headers| - 1], id), pool, last.1, id, last.0)
  }

  function Description(pool: Pool, flow: HttpFlow): Option<string> {
    var fromHeaders := HeaderUse(pool, flow.requestHeaders, flow.id);
    if flow.requestBody.Some? then FirstUse(fromHeaders, pool, flow.requestBody.value, flow.id, "body") else fromHeaders
  }

  ghost predicate SourceIn(pool: Pool, text: string, id: string, s: string) {
    exists i | 0 <= i < |pool| :: Uses(pool[i], text, id) && pool[i].1 == s
  }

  lemma {:induction false} AddSourcesMeaning(parents: seq<string>, pool: Pool, text: string, id: string)
    requires Distinct(parents)
    ensures var r := AddSources(parents, pool, text, id);
            Distinct(r) && forall s :: s in r <==> s in parents || SourceIn(pool, text, id, s)
  {
    if pool != [] {
      var init, entry := pool[..|pool| - 1], pool[|pool| - 1];
      AddSourcesMeaning(parents, init, text, id);
      forall s ensures SourceIn(pool, text, id, s) <==>
                       SourceIn(init, text, id, s) || (Uses(entry, text, id) && entry.1 == s)
      {
        if SourceIn(init, text, id, s) {
          var i :| 0 <= i < |init| && Uses(init[i], text, id) && init[i].1 == s;
          assert pool[i] == init[i];
        }
        if SourceIn(pool, text, id, s) && !(Uses(entry, text, id) && entry.1 == s) {
          var i :| 0 <= i < |pool| && Uses(pool[i], text, id) && pool[i].1 == s;
          assert init[i] == pool[i];
        }
      }
    }
  }

  ghost predicate SourceInHeaders(pool: Pool, headers: seq<(string, string)>, id: string, s: string) {
    exists h | 0 <= h < |headers| :: SourceIn(pool, headers[h].1, id, s)
  }

  lemma {:induction false} HeaderSourcesMeaning(pool: Pool, headers: seq<(string, string)>, id: string)
    ensures var r := HeaderSources(pool, headers, id);
            Distinct(r) && forall s :: s in r <==> SourceInHeaders(pool, headers, id, s)
  {
    if headers != [] {
      var init, last := headers[..|headers| - 1], headers[|headers| - 1];
      HeaderSourcesMeaning(pool, init, id);
      AddSourcesMeaning(HeaderSources(pool, init, id), pool, last.1, id);
      forall s ensures SourceInHeaders(pool, headers, id, s) <==>
                       SourceInHeaders(pool, init, id, s) || SourceIn(pool, last.1, id, s)
      {
        if SourceInHeaders(pool, init, id, s) {
          var h :| 0 <= h < |init| && SourceIn(pool, init[h].1, id, s);
          assert headers[h] == init[h];
        }
        if SourceInHeaders(pool, headers, id, s) && !SourceIn(pool, last.1, id, s) {
          var h :| 0 <= h < |headers| && SourceIn(pool, headers[h].1, id, s);
          assert init[h] == headers[h];
        }
      }
    }
  }

  /** The flow consumes some pool token that came from s. */
  ghost predicate SuppliedBy(pool: Pool, flow: HttpFlow, s: string) {
    s != flow.id && exists i | 0 <= i < |pool| :: pool[i].1 == s && Consumes(flow, pool[i].0.value)
  }

  lemma TokenSourcesMeaning(pool: Pool, flow: HttpFlow)
    ensures Distinct(TokenSources(pool, flow))
    ensures forall s :: s in TokenSources(pool, flow) <==> SuppliedBy(pool, flow, s)
  {
    var id := flow.id;
    HeaderSourcesMeaning(pool, flow.requestHeaders, id);
    if flow.requestBody.Some? {
      AddSourcesMeaning(HeaderSources(pool, flow.requestHeaders, id), pool, flow.requestBody.value, id);
    }
    forall s ensures s in TokenSources(pool, flow) <==> SuppliedBy(pool, flow, s) {
      if SuppliedBy(pool, flow, s) {
        var i :| 0 <= i < |pool| && pool[i].1 == s && Consumes(flow, pool[i].0.value);
        if flow.requestBody.Some? && Occurs(pool[i].0.value, flow.requestBody.value) {
          assert Uses(pool[i], flow.requestBody.value, id);
        } else {
          var h :| 0 <= h < |flow.requestHeaders| && Occurs(pool[i].0.value, flow.requestHeaders[h].1);
          assert Uses(pool[i], flow.requestHeaders[h].1, id);
          assert SourceIn(pool, flow.requestHeaders[h].1, id, s);
        }
      }
      if s in TokenSources(pool, flow) {
        if SourceInHeaders(pool, flow.requestHeaders, id, s) {
          var h :| 0 <= h < |flow.requestHeaders| && SourceIn(pool, flow.requestHeaders[h].1, id, s);
          var i :| 0 <= i < |pool| && Uses(pool[i], flow.requestHeaders[h].1, id) && pool[i].1 == s;
          assert Consumes(flow, pool[i].0.value);
        } else {
          var i :| 0 <= i < |pool| && Uses(pool[i], flow.requestBody.value, id) && pool[i].1 == s;
          assert Consumes(flow, pool[i].0.value);
        }
      }
    }
  }

  // ---- the pool ----

  function Entries(tokens: seq<Token>, id: string): (r: Pool)
    ensures |r| == |tokens|
    ensures forall i | 0 <= i < |r| :: r[i] == (tokens[i].(sourceFlowId := id), id)
  {
    seq(|tokens|, i requires 0 <= i < |tokens| => (tokens[i].(sourceFlowId := id), id))
  }

  function PoolOf(extract: Extractor, flows: seq<HttpFlow>): Pool {
    if flows == [] then []
    else PoolOf(extract, flows[..|flows| - 1]) + Entries(extract(flows[|flows| - 1]), flows[|flows| - 1].id)
  }

  /** flows[j] produced a token that flows[i] consumes. */
  ghost predicate Supplies(extract: Extractor, flows: seq<HttpFlow>, j: nat, i: nat)
    requires j < |flows| && i < |flows|
  {
    exists k :: Feeds(extract, flows[j], flows[i], k)
  }

  lemma {:induction false} PoolMeaning(extract: Extractor, flows: seq<HttpFlow>, n: nat, flow: HttpFlow, s: string)
    requires n <= |flows|
    ensures SuppliedBy(PoolOf(extract, flows[..n]), flow, s) <==>
            s != flow.id && exists j, k :: 0 <= j < n && flows[j].id == s && Feeds(extract, flows[j], flow, k)
  {
    if n > 0 {
      PoolMeaning(extract, flows, n - 1, flow, s);
      assert flows[..n][..n - 1] == flows[..n - 1];
      var before, last := PoolOf(extract, flows[..n - 1]), flows[n - 1];
      var added := Entries(extract(last), last.id);
      assert PoolOf(extract, flows[..n]) == before + added;
      SuppliedConcat(before, added, flow, s);
      EntriesMeaning(extract, last, flow, s);
    }
  }

  lemma SuppliedConcat(a: Pool, b: Pool, flow: HttpFlow, s: string)
    ensures SuppliedBy(a + b, flow, s) <==> SuppliedBy(a, flow, s) || SuppliedBy(b, flow, s)
  {
    if SuppliedBy(a, flow, s) {
      var i :| 0 <= i < |a| && a[i].1 == s && Consumes(flow, a[i].0.value);
      assert (a + b)[i] == a[i];
    }
    if SuppliedBy(b, flow, s) {
      var i :| 0 <= i < |b| && b[i].1 == s && Consumes(flow, b[i].0.value);
      assert (a + b)[|a| + i] == b[i];
    }
  }

  lemma EntriesMeaning(extract: Extractor, p: HttpFlow, flow: HttpFlow, s: string)
    ensures SuppliedBy(Entries(extract(p), p.id), flow, s) <==>
            s != flow.id && s == p.id && exists k :: Feeds(extract, p, flow, k)
  {
    var entries := Entries(extract(p), p.id);
    if SuppliedBy(entries, flow, s) {
      var i :| 0 <= i < |entries| && entries[i].1 == s && Consumes(flow, entries[i].0.value);
      assert Feeds(extract, p, flow, extract(p)[i]);
    }
    if s != flow.id && s == p.id && exists k :: Feeds(extract, p, flow, k) {
      var k :| Feeds(extract, p, flow, k);
      var i :| 0 <= i < |extract(p)| && extract(p)[i] == k;
      assert entries[i].1 == s && entries[i].0.value == k.value;
    }
  }

  // ---- the builder ----

  method ScanPool(pool: Pool, text: string, id: string, place: string, parents0: seq<string>, used0: Option<string>)
    returns (parents: seq<string>, used: Option<string>)
    ensures parents == AddSources(parents0, pool, text, id)
    ensures used == FirstUse(used0, pool, text, id, place)
  {
    parents, used := parents0, used0;
    for i := 0 to |pool|
      invariant parents == AddSources(parents0, pool[..i], text, id)
      invariant used == FirstUse(used0, pool[..i], text, id, place)
    {
      assert pool[..i + 1][..i] == pool[..i];
      if pool[i].1 != id && pool[i].0.value != "" && Contains(text, pool[i].0.value) {
        if pool[i].1 !in parents {
          parents := parents + [pool[i].1];
        }
        if used.None? {
          used := Some(pool[i].0.kind + ": " + place);
        }
      }
    }
    assert pool[..|pool|] == pool;
  }

  method FindParents(pool: Pool, flow: HttpFlow, prev: Option<string>)
    returns (parents: seq<string>, used: Option<string>)
    ensures parents == ParentList(pool, flow, prev) && used == Description(pool, flow)
  {
    parents, used := [], None;
    var headers := flow.requestHeaders;
    for h := 0 to |headers|
      invariant parents == HeaderSources(pool, headers[..h], flow.id)
      invariant used == HeaderUse(pool, headers[..h], flow.id)
    {
      assert headers[..h + 1][..h] == headers[..h];
      parents, used := ScanPool(pool, headers[h].1, flow.id, headers[h].0, parents, used);
    }
    assert headers[..|headers|] == headers;
    if flow.requestBody.Some? {
      parents, used := ScanPool(pool, flow.requestBody.value, flow.id, "body", parents, used);
    }
    if parents == [] && prev.Some? {
      parents := [prev.value];
    }
  }

  function Previous(flows: seq<HttpFlow>, i: nat): Option<string>
    requires i <= |flows|
  {
    if i == 0 then None else Some(flows[i - 1].id)
  }

  /** The node of flow i before the children are filled in. */
  function NodeAt(extract: Extractor, flows: seq<HttpFlow>, i: nat): TimelineNode
    requires i < |flows|
  {
    var pool := PoolOf(extract, flows[..i + 1]);
    TimelineNode(flows[i].id, flows[i].timestamp, flows[i].httpMethod, Before(flows[i].path, '?'),
                 flows[i].responseStatus, ParentList(pool, flows[i], Previous(flows, i)), [],
                 Description(pool, flows[i]))
  }

  /** All nodes, children being the ids of the nodes that name this one as a parent. */
  ghost predicate IsTimeline(extract: Extractor, flows: seq<HttpFlow>, nodes: seq<TimelineNode>) {
    && |nodes| == |flows|
    && (forall i | 0 <= i < |nodes| :: nodes[i].(childrenIds := []) == NodeAt(extract, flows, i))
    && (forall i | 0 <= i < |nodes| :: Sorted(nodes[i].childrenIds) && Distinct(nodes[i].childrenIds))
    && forall i, c | 0 <= i < |nodes| :: c in nodes[i].childrenIds <==> NamesParent(nodes, |nodes|, c, nodes[i].id)
  }

  /** Some node among the first n with id c names p as a parent. */
  ghost predicate NamesParent(nodes: seq<TimelineNode>, n: nat, c: string, p: string)
    requires n <= |nodes|
  {
    exists j | 0 <= j < n :: nodes[j].id == c && p in nodes[j].parentIds
  }

  method BuildNodes(extract: Extractor, flows: seq<HttpFlow>) returns (nodes: seq<TimelineNode>)
    ensures |nodes| == |flows|
    ensures forall i | 0 <= i < |nodes| :: nodes[i] == NodeAt(extract, flows, i)
  {
    nodes := [];
    var pool: Pool := [];
    var prev: Option<string> := None;
    for i := 0 to |flows|
      invariant |nodes| == i && prev == Previous(flows, i)
      invariant pool == PoolOf(extract, flows[..i])
      invariant forall j | 0 <= j < i :: nodes[j] == NodeAt(extract, flows, j)
    {
      var flow := flows[i];
      assert flows[..i + 1][..i] == flows[..i];
      pool := pool + Entries(extract(flow), flow.id);
      var parents, used := FindParents(pool, flow, prev);
      nodes := nodes + [TimelineNode(flow.id, flow.timestamp, flow.httpMethod, Before(flow.path, '?'),
                                     flow.responseStatus, parents, [], used)];
      prev := Some(flow.id);
    }
  }

  predicate Recorded(children: map<string, set<string>>, p: string, c: string) {
    p in children && c in children[p]
  }

  method RecordChild(children0: map<string, set<string>>, parents: seq<string>, id: string)
    returns (children: map<string, set<string>>)
    ensures forall p, c :: Recorded(children, p, c) <==> Recorded(children0, p, c) || (c == id && p in parents)
  {
    children := children0;
    for k := 0 to |parents|
      invariant forall p, c :: Recorded(children, p, c) <==> Recorded(children0, p, c) || (c == id && p in parents[..k])
    {
      ghost var before := children;
      children := children[parents[k] := (if parents[k] in children then children[parents[k]] else {}) + {id}];
      forall p, c ensures Recorded(children, p, c) <==> Recorded(before, p, c) || (c == id && p == parents[k]) {}
      assert forall p :: p in parents[..k + 1] <==> p in parents[..k] || p == parents[k];
    }
    assert parents[..|parents|] == parents;
  }

  method CollectChildren(nodes: seq<TimelineNode>) returns (children: map<string, set<string>>)
    ensures forall p, c :: Recorded(children, p, c) <==> NamesParent(nodes, |nodes|, c, p)
  {
    children := map[];
    for i := 0 to |nodes|
      invariant forall p, c :: Recorded(children, p, c) <==> NamesParent(nodes, i, c, p)
    {
      ghost var before := children;
      children := RecordChild(children, nodes[i].parentIds, nodes[i].id);
      forall p, c ensures Recorded(children, p, c) <==> NamesParent(nodes, i + 1, c, p) {
        assert Recorded(before, p, c) <==> NamesParent(nodes, i, c, p);
      }
    }
  }

  /** `node` is `bare[i]` with its children filled in. */
  ghost predicate Filled(bare: seq<TimelineNode>, i: nat, node: TimelineNode)
    requires i < |bare|
  {
    && node.(childrenIds := []) == bare[i]
    && Sorted(node.childrenIds) && Distinct(node.childrenIds)
    && forall c :: c in node.childrenIds <==> NamesParent(bare, |bare|, c, bare[i].id)
  }

  method FillNode(bare: seq<TimelineNode>, i: nat, children: map<string, set<string>>) returns (node: TimelineNode)
    requires i < |bare| && bare[i].childrenIds == []
    requires forall p, c :: Recorded(children, p, c) <==> NamesParent(bare, |bare|, c, p)
    ensures Filled(bare, i, node)
  {
    var id := bare[i].id;
    var ids := if id in children then SortedKeys(children[id]) else [];
    if id in children { SortedKeysAreSorted(children[id]); }
    forall c ensures c in ids <==> NamesParent(bare, |bare|, c, id) {
      assert c in ids <==> c in Elements(ids);
      assert Recorded(children, id, c) <==> NamesParent(bare, |bare|, c, id);
    }
    node := bare[i].(childrenIds := ids);
  }

  method BuildTimelineGraph(extract: Extractor, rawFlows: seq<HttpFlow>) returns (nodes: seq<TimelineNode>)
    ensures IsTimeline(extract, SortByTime(rawFlows), nodes)
  {
    var flows := SortByTime(rawFlows);
    var bare := BuildNodes(extract, flows);
    var children := CollectChildren(bare);
    nodes := [];
    for i := 0 to |bare|
      invariant |nodes| == i
      invariant forall j | 0 <= j < i :: Filled(bare, j, nodes[j])
    {
      var node := FillNode(bare, i, children);
      nodes := nodes + [node];
    }
    FilledIsTimeline(extract, flows, bare, nodes);
  }

  lemma FilledIsTimeline(extract: Extractor, flows: seq<HttpFlow>, bare: seq<TimelineNode>, nodes: seq<TimelineNode>)
    requires |bare| == |flows| == |nodes|
    requires forall i | 0 <= i < |bare| :: bare[i] == NodeAt(extract, flows, i)
    requires forall j | 0 <= j < |nodes| :: Filled(bare, j, nodes[j])
    ensures IsTimeline(extract, flows, nodes)
  {
    SameParents(bare, nodes);
    forall i | 0 <= i < |nodes| ensures nodes[i].id == bare[i].id {
      assert Filled(bare, i, nodes[i]);
      assert nodes[i].(childrenIds := []).id == bare[i].id;
    }
  }

  lemma SameParents(bare: seq<TimelineNode>, nodes: seq<TimelineNode>)
    requires |bare| == |nodes|
    requires forall j | 0 <= j < |nodes| :: nodes[j].(childrenIds := []) == bare[j]
    ensures forall c, p :: NamesParent(bare, |bare|, c, p) <==> NamesParent(nodes, |nodes|, c, p)
  {
    forall c, p ensures NamesParent(bare, |bare|, c, p) <==> NamesParent(nodes, |nodes|, c, p) {
      forall j | 0 <= j < |nodes| ensures nodes[j].id == bare[j].id && nodes[j].parentIds == bare[j].parentIds {
        assert nodes[j].(childrenIds := []).id == bare[j].id;
        assert nodes[j].(childrenIds := []).parentIds == bare[j].parentIds;
      }
    }
  }

  // ---- what the timeline is ----

  ghost predicate DistinctIds(flows: seq<HttpFlow>) {
    forall i, j | 0 <= i < j < |flows| :: flows[i].id != flows[j].id
  }

  lemma NodeFields(extract: Extractor, flows: seq<HttpFlow>, nodes: seq<TimelineNode>, i: nat)
    requires IsTimeline(extract, flows, nodes) && i < |nodes|
    ensures nodes[i].id == flows[i].id && nodes[i].timestamp == flows[i].timestamp
    ensures nodes[i].parentIds == ParentList(PoolOf(extract, flows[..i + 1]), flows[i], Previous(flows, i))
  {
    assert nodes[i].(childrenIds := []).parentIds == NodeAt(extract, flows, i).parentIds;
  }

  /** Node i names node j as a parent. */
  predicate ParentOf(nodes: seq<TimelineNode>, j: nat, i: nat)
    requires j < |nodes| && i < |nodes|
  {
    nodes[j].id in nodes[i].parentIds
  }

  ghost predicate EarlierId(flows: seq<HttpFlow>, i: nat, s: string)
    requires i <= |flows|
  {
    exists j | 0 <= j < i :: flows[j].id == s
  }

  /** Some earlier flow supplies a token to flow i. */
  ghost predicate Supplied(extract: Extractor, flows: seq<HttpFlow>, i: nat)
    requires i < |flows|
  {
    exists e | 0 <= e < i :: Supplies(extract, flows, e, i)
  }

  lemma SourceIsEarlier(extract: Extractor, flows: seq<HttpFlow>, i: nat, s: string)
    requires DistinctIds(flows) && i < |flows|
    requires s in TokenSources(PoolOf(extract, flows[..i + 1]), flows[i])
    ensures EarlierId(flows, i, s) && Supplied(extract, flows, i)
  {
    TokenSourcesMeaning(PoolOf(extract, flows[..i + 1]), flows[i]);
    PoolMeaning(extract, flows, i + 1, flows[i], s);
    var j, k :| 0 <= j < i + 1 && flows[j].id == s && Feeds(extract, flows[j], flows[i], k);
    assert Supplies(extract, flows, j, i);
  }

  lemma SourceIffSupplies(extract: Extractor, flows: seq<HttpFlow>, i: nat, j: nat)
    requires DistinctIds(flows) && i < |flows| && j < |flows|
    ensures flows[j].id in TokenSources(PoolOf(extract, flows[..i + 1]), flows[i])
       <==> j < i && Supplies(extract, flows, j, i)
  {
    TokenSourcesMeaning(PoolOf(extract, flows[..i + 1]), flows[i]);
    PoolMeaning(extract, flows, i + 1, flows[i], flows[j].id);
  }

  /** Exactly who the parents are: the earlier flows that supply a token, or, when there
      is none, the flow just before. */
  lemma ParentIff(extract: Extractor, flows: seq<HttpFlow>, nodes: seq<TimelineNode>, j: nat, i: nat)
    requires IsTimeline(extract, flows, nodes) && DistinctIds(flows) && i < |nodes| && j < |nodes|
    ensures ParentOf(nodes, j, i) <==>
            j < i && (Supplies(extract, flows, j, i) || (j == i - 1 && !Supplied(extract, flows, i)))
  {
    NodeFields(extract, flows, nodes, i);
    NodeFields(extract, flows, nodes, j);
    SourceIffSupplies(extract, flows, i, j);
    var sources := TokenSources(PoolOf(extract, flows[..i + 1]), flows[i]);
    if sources == [] {
      forall e | 0 <= e < i ensures !Supplies(extract, flows, e, i) {
        SourceIffSupplies(extract, flows, i, e);
      }
    } else {
      SourceIsEarlier(extract, flows, i, sources[0]);
    }
  }

  lemma ParentListShape(extract: Extractor, flows: seq<HttpFlow>, nodes: seq<TimelineNode>, i: nat)
    requires IsTimeline(extract, flows, nodes) && DistinctIds(flows) && i < |nodes|
    ensures Distinct(nodes[i].parentIds) && (nodes[i].parentIds == [] <==> i == 0)
    ensures forall s | s in nodes[i].parentIds :: EarlierId(flows, i, s)
  {
    NodeFields(extract, flows, nodes, i);
    var sources := TokenSources(PoolOf(extract, flows[..i + 1]), flows[i]);
    TokenSourcesMeaning(PoolOf(extract, flows[..i + 1]), flows[i]);
    forall s | s in sources ensures EarlierId(flows, i, s) {
      SourceIsEarlier(extract, flows, i, s);
    }
    assert sources != [] ==> sources[0] in sources;
  }

  /** Main result: a DAG rooted at the earliest flow. Parents occur earlier and are listed
      once, only the first node has none, and children are the inverse of parents. */
  lemma TimelineIsRootedDag(extract: Extractor, flows: seq<HttpFlow>, nodes: seq<TimelineNode>)
    requires IsTimeline(extract, flows, nodes) && DistinctIds(flows)
    ensures forall i, j | 0 <= i < |nodes| && 0 <= j < |nodes| && ParentOf(nodes, j, i) :: j < i
    ensures forall i | 0 <= i < |nodes| :: Distinct(nodes[i].parentIds) && (nodes[i].parentIds == [] <==> i == 0)
    ensures forall i, j | 0 <= i < |nodes| && 0 <= j < |nodes| ::
              nodes[i].id in nodes[j].childrenIds <==> ParentOf(nodes, j, i)
  {
    forall i, j | 0 <= i < |nodes| && 0 <= j < |nodes| && ParentOf(nodes, j, i) ensures j < i {
      ParentIff(extract, flows, nodes, j, i);
    }
    forall i | 0 <= i < |nodes|
      ensures Distinct(nodes[i].parentIds) && (nodes[i].parentIds == [] <==> i == 0)
    {
      ParentListShape(extract, flows, nodes, i);
    }
    forall i, j | 0 <= i < |nodes| && 0 <= j < |nodes|
      ensures nodes[i].id in nodes[j].childrenIds <==> ParentOf(nodes, j, i)
    {
      ChildrenInverse(extract, flows, nodes, i, j);
    }
  }

  lemma ChildrenInverse(extract: Extractor, flows: seq<HttpFlow>, nodes: seq<TimelineNode>, i: nat, j: nat)
    requires IsTimeline(extract, flows, nodes) && DistinctIds(flows) && i < |nodes| && j < |nodes|
    ensures nodes[i].id in nodes[j].childrenIds <==> ParentOf(nodes, j, i)
  {
    if NamesParent(nodes, |nodes|, nodes[i].id, nodes[j].id) {
      var k :| 0 <= k < |nodes| && nodes[k].id == nodes[i].id && nodes[j].id in nodes[k].parentIds;
      NodeFields(extract, flows, nodes, k);
      NodeFields(extract, flows, nodes, i);
      assert k == i;
    }
  }

  /** A walk along children, by node position. */
  ghost predicate Walk(nodes: seq<TimelineNode>, w: seq<nat>) {
    w != [] && (forall k | 0 <= k < |w| :: w[k] < |nodes|)
    && forall k | 0 <= k < |w| - 1 :: ParentOf(nodes, w[k], w[k + 1])
  }

  /** Main result: every node is reached from the earliest one. */
  lemma {:induction false} ReachedFromRoot(extract: Extractor, flows: seq<HttpFlow>, nodes: seq<TimelineNode>, i: nat)
    returns (w: seq<nat>)
    requires IsTimeline(extract, flows, nodes) && DistinctIds(flows) && i < |nodes|
    ensures Walk(nodes, w) && w[0] == 0 && w[|w| - 1] == i
    decreases i
  {
    if i == 0 {
      w := [0];
    } else {
      ParentListShape(extract, flows, nodes, i);
      var s := nodes[i].parentIds[0];
      assert EarlierId(flows, i, s);
      var j :| 0 <= j < i && flows[j].id == s;
      NodeFields(extract, flows, nodes, j);
      var v := ReachedFromRoot(extract, flows, nodes, j);
      w := v + [i];
      assert ParentOf(nodes, v[|v| - 1], i);
    }
  }

  /** Main result: walking along children never returns. */
  lemma {:induction false} WalksGoForward(
      extract: Extractor, flows: seq<HttpFlow>, nodes: seq<TimelineNode>, w: seq<nat>)
    requires IsTimeline(extract, flows, nodes) && DistinctIds(flows) && Walk(nodes, w)
    ensures w[0] + |w| - 1 <= w[|w| - 1]
    decreases |w|
  {
    if |w| > 1 {
      var init := w[..|w| - 1];
      WalksGoForward(extract, flows, nodes, init);
      ParentIff(extract, flows, nodes, w[|w| - 2], w[|w| - 1]);
    }
  }

  /** The root is the earliest flow, and the nodes are in time order. */
  lemma RootIsEarliest(extract: Extractor, rawFlows: seq<HttpFlow>, flows: seq<HttpFlow>, nodes: seq<TimelineNode>)
    requires flows == SortByTime(rawFlows) && IsTimeline(extract, flows, nodes) && rawFlows != []
    ensures |nodes| == |rawFlows|
    ensures forall f | f in rawFlows :: nodes[0].timestamp <= f.timestamp
    ensures forall i | 0 <= i < |nodes| - 1 :: nodes[i].timestamp <= nodes[i + 1].timestamp
  {
    assert |multiset(flows)| == |flows| && |multiset(rawFlows)| == |rawFlows|;
    forall i | 0 <= i < |nodes| ensures nodes[i].timestamp == flows[i].timestamp {
      NodeFields(extract, flows, nodes, i);
    }
    EarliestFirst(rawFlows, flows);
  }

  lemma EarliestFirst(rawFlows: seq<HttpFlow>, flows: seq<HttpFlow>)
    requires multiset(flows) == multiset(rawFlows) && InTimeOrder(flows) && flows != []
    ensures forall f | f in rawFlows :: flows[0].timestamp <= f.timestamp
  {
    forall f | f in rawFlows ensures flows[0].timestamp <= f.timestamp {
      assert f in multiset(flows);
      var i :| 0 <= i < |flows| && flows[i] == f;
    }
  }
}
