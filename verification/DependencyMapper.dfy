/** Producer/consumer links between captured flows (`DependencyMapper`). Token extraction
    runs regular expressions, so it comes in as a function from a flow to its tokens. */
module DependencyMapper {
  import opened Text
  import opened Domain

  datatype Token = Token(kind: string, value: string, sourceFlowId: string)

  datatype FlowDependency = FlowDependency(source: string, target: string, token: Token, usageLocation: string)

  type Extractor = HttpFlow -> seq<Token>

  // ---- what a dependency is ----

  predicate Occurs(value: string, text: string) {
    value != "" && Contains(text, value)
  }

  /** The request of this flow carries the value in a header or in its body. */
  predicate Consumes(flow: HttpFlow, value: string) {
    || (exists i | 0 <= i < |flow.requestHeaders| :: Occurs(value, flow.requestHeaders[i].1))
    || (flow.requestBody.Some? && Occurs(value, flow.requestBody.value))
  }

  ghost predicate Feeds(extract: Extractor, p: HttpFlow, c: HttpFlow, k: Token) {
    k in extract(p) && Consumes(c, k.value)
  }

  /** Some flow fingerprinted s produced a token that some flow fingerprinted t uses. */
  ghost predicate Depends(extract: Extractor, flows: seq<HttpFlow>, s: string, t: string) {
    s != t && exists p, c, k ::
      p in flows && c in flows && Fingerprint(p) == s && Fingerprint(c) == t && Feeds(extract, p, c, k)
  }

  // ---- the token pool ----

  function Stamp(tokens: seq<Token>, id: string): (r: seq<Token>)
    ensures |r| == |tokens|
    ensures forall i | 0 <= i < |r| :: r[i] == tokens[i].(sourceFlowId := id)
  {
    seq(|tokens|, i requires 0 <= i < |tokens| => tokens[i].(sourceFlowId := id))
  }

  function Pool(extract: Extractor, flows: seq<HttpFlow>): seq<Token> {
    if flows == [] then []
    else Pool(extract, flows[..|flows| - 1])
         + Stamp(extract(flows[|flows| - 1]), Fingerprint(flows[|flows| - 1]))
  }

  /** k was extracted from p and stamped with p's fingerprint. */
  ghost predicate Produced(extract: Extractor, p: HttpFlow, k: Token) {
    k.sourceFlowId == Fingerprint(p) && exists raw :: raw in extract(p) && k == raw.(sourceFlowId := Fingerprint(p))
  }

  lemma StampMembers(extract: Extractor, p: HttpFlow)
    ensures forall k :: k in Stamp(extract(p), Fingerprint(p)) <==> Produced(extract, p, k)
  {
    var stamped := Stamp(extract(p), Fingerprint(p));
    forall k ensures k in stamped <==> Produced(extract, p, k) {
      if Produced(extract, p, k) {
        var raw :| raw in extract(p) && k == raw.(sourceFlowId := Fingerprint(p));
        var i :| 0 <= i < |extract(p)| && extract(p)[i] == raw;
        assert stamped[i] == k;
      }
    }
  }

  lemma {:induction false} PoolMembers(extract: Extractor, flows: seq<HttpFlow>)
    ensures forall k :: k in Pool(extract, flows) <==> exists p :: p in flows && Produced(extract, p, k)
  {
    if flows != [] {
      var init, last := flows[..|flows| - 1], flows[|flows| - 1];
      PoolMembers(extract, init);
      StampMembers(extract, last);
      assert flows == init + [last];
      forall k ensures k in Pool(extract, flows) <==> exists p :: p in flows && Produced(extract, p, k) {
        assert k in Pool(extract, flows) <==> k in Pool(extract, init) || Produced(extract, last, k);
        if k in Pool(extract, init) {
          var p :| p in init && Produced(extract, p, k);
          assert p in flows;
        }
      }
    }
  }

  method BuildTokenPool(extract: Extractor, flows: seq<HttpFlow>) returns (pool: seq<Token>)
    ensures pool == Pool(extract, flows)
  {
    pool := [];
    for i := 0 to |flows|
      invariant pool == Pool(extract, flows[..i])
    {
      assert flows[..i + 1][..i] == flows[..i];
      pool := pool + Stamp(extract(flows[i]), Fingerprint(flows[i]));
    }
    assert flows[..|flows|] == flows;
  }

  // ---- tokens a request uses ----

  function UsedIn(pool: seq<Token>, text: string, location: string): seq<(Token, string)> {
    if pool == [] then []
    else UsedIn(pool[..|pool| - 1], text, location)
         + (if Occurs(pool[|pool| - 1].value, text) then [(pool[|pool| - 1], location)] else [])
  }

  function UsedInHeaders(pool: seq<Token>, headers: seq<(string, string)>): seq<(Token, string)> {
    if headers == [] then []
    else UsedInHeaders(pool, headers[..|headers| - 1])
         + UsedIn(pool, headers[|headers| - 1].1, "header:" + headers[|headers| - 1].0)
  }

  function Found(flow: HttpFlow, pool: seq<Token>): seq<(Token, string)> {
    UsedInHeaders(pool, flow.requestHeaders)
    + (if flow.requestBody.Some? then UsedIn(pool, flow.requestBody.value, "body") else [])
  }

  /** k is among the found pairs. */
  ghost predicate Finds(found: seq<(Token, string)>, k: Token) {
    exists i | 0 <= i < |found| :: found[i].0 == k
  }

  lemma FindsConcat(a: seq<(Token, string)>, b: seq<(Token, string)>, k: Token)
    ensures Finds(a + b, k) <==> Finds(a, k) || Finds(b, k)
  {
    if Finds(a, k) {
      var i :| 0 <= i < |a| && a[i].0 == k;
      assert (a + b)[i].0 == k;
    }
    if Finds(b, k) {
      var i :| 0 <= i < |b| && b[i].0 == k;
      assert (a + b)[|a| + i].0 == k;
    }
  }

  lemma {:induction false} UsedInMembers(pool: seq<Token>, text: string, location: string, k: Token)
    ensures Finds(UsedIn(pool, text, location), k) <==> k in pool && Occurs(k.value, text)
  {
    if pool != [] {
      var init, last := pool[..|pool| - 1], pool[|pool| - 1];
      assert pool == init + [last];
      UsedInMembers(init, text, location, k);
      var step := if Occurs(last.value, text) then [(last, location)] else [];
      FindsConcat(UsedIn(init, text, location), step, k);
      assert Finds(step, k) <==> k == last && Occurs(k.value, text) by {
        if k == last && Occurs(k.value, text) { assert step[0].0 == k; }
      }
    }
  }

  lemma {:induction false} HeaderMembers(pool: seq<Token>, headers: seq<(string, string)>, k: Token)
    ensures Finds(UsedInHeaders(pool, headers), k) <==>
            k in pool && exists i | 0 <= i < |headers| :: Occurs(k.value, headers[i].1)
  {
    if headers != [] {
      var init, last := headers[..|headers| - 1], headers[|headers| - 1];
      HeaderMembers(pool, init, k);
      UsedInMembers(pool, last.1, "header:" + last.0, k);
      FindsConcat(UsedInHeaders(pool, init), UsedIn(pool, last.1, "header:" + last.0), k);
      if exists i | 0 <= i < |headers| :: Occurs(k.value, headers[i].1) {
        var i :| 0 <= i < |headers| && Occurs(k.value, headers[i].1);
        assert i < |init| ==> Occurs(k.value, init[i].1);
      }
    }
  }

  lemma FoundMembers(flow: HttpFlow, pool: seq<Token>, k: Token)
    ensures Finds(Found(flow, pool), k) <==> k in pool && Consumes(flow, k.value)
  {
    HeaderMembers(pool, flow.requestHeaders, k);
    if flow.requestBody.Some? {
      UsedInMembers(pool, flow.requestBody.value, "body", k);
      FindsConcat(UsedInHeaders(pool, flow.requestHeaders), UsedIn(pool, flow.requestBody.value, "body"), k);
    } else {
      assert Found(flow, pool) == UsedInHeaders(pool, flow.requestHeaders);
    }
  }

  method ScanText(pool: seq<Token>, text: string, location: string) returns (found: seq<(Token, string)>)
    ensures found == UsedIn(pool, text, location)
  {
    found := [];
    for i := 0 to |pool|
      invariant found == UsedIn(pool[..i], text, location)
    {
      assert pool[..i + 1][..i] == pool[..i];
      if pool[i].value != "" && Contains(text, pool[i].value) {
        found := found + [(pool[i], location)];
      }
    }
    assert pool[..|pool|] == pool;
  }

  method FindUsedTokensWithLocation(flow: HttpFlow, pool: seq<Token>) returns (found: seq<(Token, string)>)
    ensures found == Found(flow, pool)
  {
    found := [];
    var headers := flow.requestHeaders;
    for i := 0 to |headers|
      invariant found == UsedInHeaders(pool, headers[..i])
    {
      assert headers[..i + 1][..i] == headers[..i];
      var inHeader := ScanText(pool, headers[i].1, "header:" + headers[i].0);
      found := found + inHeader;
    }
    assert headers[..|headers|] == headers;
    if flow.requestBody.Some? {
      var inBody := ScanText(pool, flow.requestBody.value, "body");
      found := found + inBody;
    }
  }

  /** Some flow fingerprinted t finds, in the pool, a token stamped s. */
  ghost predicate FindsFrom(flows: seq<HttpFlow>, pool: seq<Token>, s: string, t: string) {
    exists c, k :: c in flows && Fingerprint(c) == t && Finds(Found(c, pool), k) && k.sourceFlowId == s
  }

  /** The sources of what a flow uses, in terms of dependencies. */
  lemma FoundIsDepends(extract: Extractor, flows: seq<HttpFlow>, s: string, t: string)
    ensures Depends(extract, flows, s, t) <==> s != t && FindsFrom(flows, Pool(extract, flows), s, t)
  {
    PoolMembers(extract, flows);
    if Depends(extract, flows, s, t) {
      var p, c, raw :|
        p in flows && c in flows && Fingerprint(p) == s && Fingerprint(c) == t && Feeds(extract, p, c, raw);
      var k := raw.(sourceFlowId := s);
      assert Produced(extract, p, k);
      FoundMembers(c, Pool(extract, flows), k);
    }
    if s != t && FindsFrom(flows, Pool(extract, flows), s, t) {
      FoundGivesDepends(extract, flows, s, t);
    }
  }

  lemma FoundGivesDepends(extract: Extractor, flows: seq<HttpFlow>, s: string, t: string)
    requires s != t && FindsFrom(flows, Pool(extract, flows), s, t)
    ensures Depends(extract, flows, s, t)
  {
    var c, k :| c in flows && Fingerprint(c) == t && Finds(Found(c, Pool(extract, flows)), k) && k.sourceFlowId == s;
    FoundMembers(c, Pool(extract, flows), k);
    PoolMembers(extract, flows);
    var p :| p in flows && Produced(extract, p, k);
    var raw :| raw in extract(p) && k == raw.(sourceFlowId := Fingerprint(p));
    assert Feeds(extract, p, c, raw);
  }

  // ---- the graph ----

  ghost predicate HasEdge(graph: map<string, seq<string>>, s: string, t: string) {
    s in graph && t in graph[s]
  }

  /** An edge contributed by one of the first n found tokens of a flow. */
  ghost predicate Contributes(found: seq<(Token, string)>, n: nat, s: string)
    requires n <= |found|
  {
    exists i | 0 <= i < n :: found[i].0.sourceFlowId == s
  }

  method AddFlowEdges(graph0: map<string, seq<string>>, found: seq<(Token, string)>, id: string)
    returns (graph: map<string, seq<string>>)
    requires forall s | s in graph0 :: graph0[s] != []
    ensures forall s, t :: HasEdge(graph, s, t) <==>
                           HasEdge(graph0, s, t) || (t == id && s != id && Contributes(found, |found|, s))
    ensures forall s | s in graph :: graph[s] != []
  {
    graph := graph0;
    for i := 0 to |found|
      invariant forall s, t :: HasEdge(graph, s, t) <==>
                               HasEdge(graph0, s, t) || (t == id && s != id && Contributes(found, i, s))
      invariant forall s | s in graph :: graph[s] != []
    {
      var source := found[i].0.sourceFlowId;
      ghost var before := graph;
      if source != id {
        graph := graph[source := (if source in graph then graph[source] else []) + [id]];
      }
      forall s, t ensures HasEdge(graph, s, t) <==>
                          HasEdge(graph0, s, t) || (t == id && s != id && Contributes(found, i + 1, s))
      {
        assert HasEdge(graph, s, t) <==> HasEdge(before, s, t) || (s == source != id && t == id);
        assert Contributes(found, i + 1, s) <==> Contributes(found, i, s) || source == s;
      }
    }
  }

  /** Vec::dedup: drops consecutive repetitions. */
  function Dedup(s: seq<string>): (r: seq<string>)
    ensures Elements(r) == Elements(s)
    ensures s != [] ==> r != [] && r[0] == s[0]
    ensures Sorted(s) ==> Sorted(r) && Distinct(r)
  {
    if |s| <= 1 then s
    else
      assert s == [s[0]] + s[1..];
      var rest := Dedup(s[1..]);
      assert s[1] in Elements(s);
      assert Elements(s) == {s[0]} + Elements(s[1..]);
      DedupStep(s, rest);
      if s[0] == s[1] then rest else [s[0]] + rest
  }

  lemma DedupStep(s: seq<string>, rest: seq<string>)
    requires |s| > 1 && Elements(rest) == Elements(s[1..]) && rest != [] && rest[0] == s[1]
    requires Sorted(s) ==> Sorted(rest) && Distinct(rest)
    ensures Elements([s[0]] + rest) == {s[0]} + Elements(rest)
    ensures s[0] == s[1] ==> Elements(rest) == {s[0]} + Elements(s[1..])
    ensures Sorted(s) && s[0] != s[1] ==> Sorted([s[0]] + rest) && Distinct([s[0]] + rest)
  {
    assert s[1..][0] in Elements(s[1..]);
    if Sorted(s) && s[0] != s[1] {
      forall j | 0 <= j < |rest| ensures StrLe(s[0], rest[j]) && s[0] != rest[j] {
        assert rest[j] in Elements(s[1..]);
        assert StrLe(s[0], s[1]);
        if j > 0 {
          assert StrLe(rest[0], rest[j]);
          StrLeTransitive(s[0], s[1], rest[j]);
          if s[0] == rest[j] { StrLeAntisymmetric(s[0], s[1]); }
        }
      }
    }
  }

  /** Main contract of `build_graph`: exactly the dependencies, each source's targets
      listed once and in order. */
  method BuildGraph(extract: Extractor, flows: seq<HttpFlow>) returns (graph: map<string, seq<string>>)
    ensures forall s, t :: HasEdge(graph, s, t) <==> Depends(extract, flows, s, t)
    ensures forall s | s in graph :: graph[s] != [] && Sorted(graph[s]) && Distinct(graph[s])
  {
    var pool := BuildTokenPool(extract, flows);
    graph := map[];
    for i := 0 to |flows|
      invariant forall s, t :: HasEdge(graph, s, t) <==> EdgeAmong(flows, pool, i, s, t)
      invariant forall s | s in graph :: graph[s] != []
    {
      var found := FindUsedTokensWithLocation(flows[i], pool);
      ghost var before := graph;
      graph := AddFlowEdges(graph, found, Fingerprint(flows[i]));
      forall s, t ensures HasEdge(graph, s, t) <==> EdgeAmong(flows, pool, i + 1, s, t) {
        EdgeAmongStep(flows, pool, i, s, t);
        assert HasEdge(graph, s, t) <==>
               HasEdge(before, s, t) || (t == Fingerprint(flows[i]) && s != t && Contributes(found, |found|, s));
      }
    }
    ghost var raw := graph;
    graph := map s | s in graph :: Dedup(Sort(graph[s]));
    forall s, t ensures HasEdge(graph, s, t) <==> Depends(extract, flows, s, t) {
      assert HasEdge(graph, s, t) <==> HasEdge(raw, s, t) by {
        if s in raw {
          SortedDedupMembers(raw[s], t);
        }
      }
      EdgeAmongAll(extract, flows, s, t);
    }
    forall s | s in graph ensures graph[s] != [] {
      assert raw[s][0] in multiset(Sort(raw[s]));
    }
  }

  lemma SortedDedupMembers(list: seq<string>, t: string)
    ensures t in Dedup(Sort(list)) <==> t in list
  {
    assert t in Sort(list) <==> t in multiset(Sort(list));
    assert t in Dedup(Sort(list)) <==> t in Elements(Dedup(Sort(list)));
    assert t in Sort(list) <==> t in Elements(Sort(list));
  }

  /** An edge contributed by one of the first n flows. */
  ghost predicate EdgeAmong(flows: seq<HttpFlow>, pool: seq<Token>, n: nat, s: string, t: string)
    requires n <= |flows|
  {
    s != t && exists j | 0 <= j < n :: Uses(flows, pool, j, s, t)
  }

  ghost predicate Uses(flows: seq<HttpFlow>, pool: seq<Token>, j: nat, s: string, t: string)
    requires j < |flows|
  {
    Fingerprint(flows[j]) == t && Contributes(Found(flows[j], pool), |Found(flows[j], pool)|, s)
  }

  lemma EdgeAmongStep(flows: seq<HttpFlow>, pool: seq<Token>, n: nat, s: string, t: string)
    requires n < |flows|
    ensures EdgeAmong(flows, pool, n + 1, s, t)
       <==> EdgeAmong(flows, pool, n, s, t) || (s != t && Uses(flows, pool, n, s, t))
  {
    if s != t && Uses(flows, pool, n, s, t) {
      assert EdgeAmong(flows, pool, n + 1, s, t);
    }
  }

  lemma EdgeAmongAll(extract: Extractor, flows: seq<HttpFlow>, s: string, t: string)
    ensures EdgeAmong(flows, Pool(extract, flows), |flows|, s, t) <==> Depends(extract, flows, s, t)
  {
    var pool := Pool(extract, flows);
    FoundIsDepends(extract, flows, s, t);
    if EdgeAmong(flows, pool, |flows|, s, t) {
      var j :| 0 <= j < |flows| && Uses(flows, pool, j, s, t);
      var found := Found(flows[j], pool);
      var i :| 0 <= i < |found| && found[i].0.sourceFlowId == s;
      assert Finds(found, found[i].0);
      assert flows[j] in flows;
    }
    if Depends(extract, flows, s, t) {
      var c, k :| c in flows && Fingerprint(c) == t && Finds(Found(c, pool), k) && k.sourceFlowId == s;
      var j :| 0 <= j < |flows| && flows[j] == c;
      var i :| 0 <= i < |Found(c, pool)| && Found(c, pool)[i].0 == k;
      assert Contributes(Found(c, pool), |Found(c, pool)|, s);
      assert Uses(flows, pool, j, s, t);
    }
  }

  // ---- the dependency list ----

  /** One entry per used token that another flow produced. */
  function DependenciesOf(found: seq<(Token, string)>, id: string): seq<FlowDependency> {
    if found == [] then []
    else
      var last := found[|found| - 1];
      DependenciesOf(found[..|found| - 1], id)
      + (if last.0.sourceFlowId == id then [] else [FlowDependency(last.0.sourceFlowId, id, last.0, last.1)])
  }

  function AllDependencies(flows: seq<HttpFlow>, pool: seq<Token>): seq<FlowDependency> {
    if flows == [] then []
    else AllDependencies(flows[..|flows| - 1], pool)
         + DependenciesOf(Found(flows[|flows| - 1], pool), Fingerprint(flows[|flows| - 1]))
  }

  /** The sort key of the list: source, then target, then location. */
  predicate DependencyLe(a: FlowDependency, b: FlowDependency) {
    if a.source != b.source then StrLe(a.source, b.source)
    else if a.target != b.target then StrLe(a.target, b.target)
    else StrLe(a.usageLocation, b.usageLocation)
  }

  lemma DependencyLeTransitive(a: FlowDependency, b: FlowDependency, c: FlowDependency)
    requires DependencyLe(a, b) && DependencyLe(b, c)
    ensures DependencyLe(a, c)
  {
    StrLeTransitive3(a.source, b.source, c.source);
    StrLeTransitive3(a.target, b.target, c.target);
    StrLeTransitive3(a.usageLocation, b.usageLocation, c.usageLocation);
  }

  lemma StrLeTransitive3(a: string, b: string, c: string)
    ensures StrLe(a, b) && StrLe(b, c) ==> StrLe(a, c)
    ensures StrLe(a, b) && StrLe(b, a) ==> a == b
    ensures StrLe(b, c) && StrLe(c, b) ==> b == c
  {
    if StrLe(a, b) && StrLe(b, c) { StrLeTransitive(a, b, c); }
    if StrLe(a, b) && StrLe(b, a) { StrLeAntisymmetric(a, b); }
    if StrLe(b, c) && StrLe(c, b) { StrLeAntisymmetric(b, c); }
  }

  ghost predicate DependenciesSorted(d: seq<FlowDependency>) {
    forall i, j | 0 <= i < j < |d| :: DependencyLe(d[i], d[j])
  }

  function SortDependencies(d: seq<FlowDependency>): (r: seq<FlowDependency>)
    ensures multiset(r) == multiset(d)
    ensures DependenciesSorted(r)
  {
    if d == [] then []
    else
      assert d == [d[0]] + d[1..];
      InsertDependency(d[0], SortDependencies(d[1..]))
  }

  function InsertDependency(x: FlowDependency, d: seq<FlowDependency>): (r: seq<FlowDependency>)
    requires DependenciesSorted(d)
    ensures multiset(r) == multiset(d) + multiset{x}
    ensures DependenciesSorted(r)
  {
    if d == [] then [x]
    else if DependencyLe(x, d[0]) then
      InsertDependencyFront(x, d);
      [x] + d
    else
      var tail := InsertDependency(x, d[1..]);
      assert d == [d[0]] + d[1..];
      InsertDependencyBehind(x, d, tail);
      [d[0]] + tail
  }

  lemma InsertDependencyFront(x: FlowDependency, d: seq<FlowDependency>)
    requires DependenciesSorted(d) && d != [] && DependencyLe(x, d[0])
    ensures DependenciesSorted([x] + d) && multiset([x] + d) == multiset(d) + multiset{x}
  {
    forall j | 0 <= j < |d| ensures DependencyLe(x, d[j]) {
      if j > 0 { DependencyLeTransitive(x, d[0], d[j]); }
    }
  }

  lemma InsertDependencyBehind(x: FlowDependency, d: seq<FlowDependency>, tail: seq<FlowDependency>)
    requires DependenciesSorted(d) && d != [] && !DependencyLe(x, d[0]) && DependenciesSorted(tail)
    requires multiset(tail) == multiset(d[1..]) + multiset{x}
    ensures DependenciesSorted([d[0]] + tail)
  {
    StrLeTotal(x.source, d[0].source);
    StrLeTotal(x.target, d[0].target);
    StrLeTotal(x.usageLocation, d[0].usageLocation);
    forall j | 0 <= j < |tail| ensures DependencyLe(d[0], tail[j]) {
      assert tail[j] in multiset(tail);
      assert tail[j] == x || tail[j] in multiset(d[1..]);
    }
  }

  predicate HasKey(d: FlowDependency, source: string, target: string, location: string) {
    d.source == source && d.target == target && d.usageLocation == location
  }

  /** The entries with one sort key, in the order of the list. */
  function WithKey(d: seq<FlowDependency>, source: string, target: string, location: string): seq<FlowDependency> {
    if d == [] then []
    else (if HasKey(d[0], source, target, location) then [d[0]] else []) + WithKey(d[1..], source, target, location)
  }

  lemma WithKeyHead(x: FlowDependency, d: seq<FlowDependency>, source: string, target: string, location: string)
    ensures WithKey([x] + d, source, target, location)
         == (if HasKey(x, source, target, location) then [x] else []) + WithKey(d, source, target, location)
  {
    assert ([x] + d)[1..] == d;
  }

  lemma {:induction false} InsertDependencyIsStable(
      x: FlowDependency, d: seq<FlowDependency>, source: string, target: string, location: string)
    requires DependenciesSorted(d)
    ensures WithKey(InsertDependency(x, d), source, target, location)
         == (if HasKey(x, source, target, location) then [x] else []) + WithKey(d, source, target, location)
  {
    if d == [] {
      WithKeyHead(x, [], source, target, location);
    } else if DependencyLe(x, d[0]) {
      WithKeyHead(x, d, source, target, location);
    } else {
      var first, rest := d[0], d[1..];
      var tail := InsertDependency(x, rest);
      assert InsertDependency(x, d) == [first] + tail && d == [first] + rest;
      InsertDependencyIsStable(x, rest, source, target, location);
      WithKeyHead(first, tail, source, target, location);
      WithKeyHead(first, rest, source, target, location);
      StrLeTotal(location, location);
      assert !(HasKey(x, source, target, location) && HasKey(first, source, target, location));
    }
  }

  /** Sorting keeps the order of the entries with the same source, target and location. */
  lemma {:induction false} SortDependenciesIsStable(
      d: seq<FlowDependency>, source: string, target: string, location: string)
    ensures WithKey(SortDependencies(d), source, target, location) == WithKey(d, source, target, location)
  {
    if d != [] {
      SortDependenciesIsStable(d[1..], source, target, location);
      InsertDependencyIsStable(d[0], SortDependencies(d[1..]), source, target, location);
    }
  }

  method CollectDependencies(found: seq<(Token, string)>, id: string) returns (dependencies: seq<FlowDependency>)
    ensures dependencies == DependenciesOf(found, id)
  {
    dependencies := [];
    for j := 0 to |found|
      invariant dependencies == DependenciesOf(found[..j], id)
    {
      assert found[..j + 1][..j] == found[..j];
      var token := found[j].0;
      if token.sourceFlowId != id {
        dependencies := dependencies + [FlowDependency(token.sourceFlowId, id, token, found[j].1)];
      }
    }
    assert found[..|found|] == found;
  }

  method BuildDependencies(extract: Extractor, flows: seq<HttpFlow>) returns (dependencies: seq<FlowDependency>)
    ensures dependencies == SortDependencies(AllDependencies(flows, Pool(extract, flows)))
    ensures multiset(dependencies) == multiset(AllDependencies(flows, Pool(extract, flows)))
    ensures DependenciesSorted(dependencies)
  {
    var pool := BuildTokenPool(extract, flows);
    dependencies := [];
    for i := 0 to |flows|
      invariant dependencies == AllDependencies(flows[..i], pool)
    {
      assert flows[..i + 1][..i] == flows[..i];
      var found := FindUsedTokensWithLocation(flows[i], pool);
      var used := CollectDependencies(found, Fingerprint(flows[i]));
      dependencies := dependencies + used;
    }
    assert flows[..|flows|] == flows;
    dependencies := SortDependencies(dependencies);
  }

  ghost predicate Links(d: seq<FlowDependency>, s: string, t: string) {
    exists i | 0 <= i < |d| :: d[i].source == s && d[i].target == t
  }

  lemma LinksConcat(a: seq<FlowDependency>, b: seq<FlowDependency>, s: string, t: string)
    ensures Links(a + b, s, t) <==> Links(a, s, t) || Links(b, s, t)
  {
    if Links(a, s, t) {
      var i :| 0 <= i < |a| && a[i].source == s && a[i].target == t;
      assert (a + b)[i] == a[i];
    }
    if Links(b, s, t) {
      var i :| 0 <= i < |b| && b[i].source == s && b[i].target == t;
      assert (a + b)[|a| + i] == b[i];
    }
  }

  lemma {:induction false} DependenciesOfLinks(found: seq<(Token, string)>, id: string, s: string, t: string)
    ensures Links(DependenciesOf(found, id), s, t) <==> t == id && s != id && Contributes(found, |found|, s)
  {
    if found != [] {
      var init, last := found[..|found| - 1], found[|found| - 1];
      var id' := last.0.sourceFlowId;
      DependenciesOfLinks(init, id, s, t);
      var step := if id' == id then [] else [FlowDependency(id', id, last.0, last.1)];
      LinksConcat(DependenciesOf(init, id), step, s, t);
      assert Links(step, s, t) <==> id' != id && s == id' && t == id by {
        if id' != id && s == id' && t == id { assert step[0].source == s; }
      }
      assert Contributes(found, |found|, s) <==> Contributes(init, |init|, s) || id' == s by {
        if Contributes(init, |init|, s) {
          var i :| 0 <= i < |init| && init[i].0.sourceFlowId == s;
          assert found[i].0.sourceFlowId == s;
        }
        if Contributes(found, |found|, s) && id' != s {
          var i :| 0 <= i < |found| && found[i].0.sourceFlowId == s;
          assert init[i].0.sourceFlowId == s;
        }
      }
    }
  }

  lemma {:induction false} AllDependenciesLinks(flows: seq<HttpFlow>, pool: seq<Token>, s: string, t: string)
    ensures Links(AllDependencies(flows, pool), s, t) <==> EdgeAmong(flows, pool, |flows|, s, t)
  {
    if flows != [] {
      var init, last := flows[..|flows| - 1], flows[|flows| - 1];
      AllDependenciesLinks(init, pool, s, t);
      DependenciesOfLinks(Found(last, pool), Fingerprint(last), s, t);
      LinksConcat(AllDependencies(init, pool), DependenciesOf(Found(last, pool), Fingerprint(last)), s, t);
      EdgeAmongStep(flows, pool, |init|, s, t);
      assert EdgeAmong(flows, pool, |init|, s, t) <==> EdgeAmong(init, pool, |init|, s, t) by {
        forall j | 0 <= j < |init| ensures Uses(flows, pool, j, s, t) <==> Uses(init, pool, j, s, t) {}
      }
    }
  }

  /** The list and the graph say the same: the graph's edges are exactly the
      source/target pairs of the dependency list. */
  lemma ListAndGraphAgree(extract: Extractor, flows: seq<HttpFlow>, graph: map<string, seq<string>>,
                          dependencies: seq<FlowDependency>, s: string, t: string)
    requires forall a, b :: HasEdge(graph, a, b) <==> Depends(extract, flows, a, b)
    requires multiset(dependencies) == multiset(AllDependencies(flows, Pool(extract, flows)))
    ensures Links(dependencies, s, t) <==> HasEdge(graph, s, t)
  {
    var all := AllDependencies(flows, Pool(extract, flows));
    AllDependenciesLinks(flows, Pool(extract, flows), s, t);
    EdgeAmongAll(extract, flows, s, t);
    SameMembersLink(all, dependencies, s, t);
    SameMembersLink(dependencies, all, s, t);
  }

  lemma SameMembersLink(a: seq<FlowDependency>, b: seq<FlowDependency>, s: string, t: string)
    requires multiset(a) == multiset(b)
    ensures Links(a, s, t) ==> Links(b, s, t)
  {
    if Links(a, s, t) {
      var i :| 0 <= i < |a| && a[i].source == s && a[i].target == t;
      assert a[i] in multiset(b);
      var j :| 0 <= j < |b| && b[j] == a[i];
    }
  }

  // ---- what the list holds ----

  /** The request shows the value at this place: in the header it names, or in the body. */
  ghost predicate ShownAt(flow: HttpFlow, value: string, place: string) {
    value != "" && (
      || (exists h :: h in flow.requestHeaders && place == "header:" + h.0 && Contains(h.1, value))
      || (place == "body" && flow.requestBody.Some? && Contains(flow.requestBody.value, value)))
  }

  lemma {:induction false} UsedInPlaces(pool: seq<Token>, text: string, location: string, e: (Token, string))
    ensures e in UsedIn(pool, text, location) <==>
            e.0 in pool && e.1 == location && e.0.value != "" && Contains(text, e.0.value)
  {
    if pool != [] {
      var init := pool[..|pool| - 1];
      assert pool == init + [pool[|pool| - 1]];
      UsedInPlaces(init, text, location, e);
    }
  }

  lemma {:induction false} HeaderPlaces(pool: seq<Token>, headers: seq<(string, string)>, e: (Token, string))
    ensures e in UsedInHeaders(pool, headers) <==>
            && e.0 in pool && e.0.value != ""
            && exists h :: h in headers && e.1 == "header:" + h.0 && Contains(h.1, e.0.value)
  {
    if headers != [] {
      var init, last := headers[..|headers| - 1], headers[|headers| - 1];
      assert headers == init + [last];
      HeaderPlaces(pool, init, e);
      UsedInPlaces(pool, last.1, "header:" + last.0, e);
    }
  }

  /** A token is found at a place if and only if the pool has it and the request shows its
      value there. */
  lemma FoundPlaces(flow: HttpFlow, pool: seq<Token>, e: (Token, string))
    ensures e in Found(flow, pool) <==> e.0 in pool && ShownAt(flow, e.0.value, e.1)
  {
    HeaderPlaces(pool, flow.requestHeaders, e);
    if flow.requestBody.Some? {
      UsedInPlaces(pool, flow.requestBody.value, "body", e);
    }
  }

  lemma {:induction false} EntryOf(found: seq<(Token, string)>, id: string, d: FlowDependency)
    ensures d in DependenciesOf(found, id) <==>
            (d.token, d.usageLocation) in found && d.source == d.token.sourceFlowId != d.target == id
  {
    if found != [] {
      var init := found[..|found| - 1];
      assert found == init + [found[|found| - 1]];
      EntryOf(init, id, d);
    }
  }

  lemma {:induction false} EntryOfAll(flows: seq<HttpFlow>, pool: seq<Token>, d: FlowDependency)
    ensures d in AllDependencies(flows, pool) <==>
            && d.source == d.token.sourceFlowId != d.target && d.token in pool
            && exists c :: c in flows && Fingerprint(c) == d.target && ShownAt(c, d.token.value, d.usageLocation)
  {
    if flows != [] {
      var init, last := flows[..|flows| - 1], flows[|flows| - 1];
      assert flows == init + [last];
      EntryOfAll(init, pool, d);
      EntryOf(Found(last, pool), Fingerprint(last), d);
      FoundPlaces(last, pool, (d.token, d.usageLocation));
    }
  }

  lemma ProducerOf(extract: Extractor, flows: seq<HttpFlow>, k: Token, source: string)
    ensures source == k.sourceFlowId && k in Pool(extract, flows) <==>
            exists p :: p in flows && Fingerprint(p) == source && Produced(extract, p, k)
  {
    PoolMembers(extract, flows);
    if source == k.sourceFlowId && k in Pool(extract, flows) {
      var p :| p in flows && Produced(extract, p, k);
      assert Fingerprint(p) == source;
    }
  }

  /** An entry is listed if and only if one captured flow produced its token, another, with a
      different fingerprint, shows the token's value at its place, and it names the two. */
  lemma DependencyIff(extract: Extractor, flows: seq<HttpFlow>, d: FlowDependency)
    ensures d in SortDependencies(AllDependencies(flows, Pool(extract, flows))) <==>
            && d.source != d.target
            && (exists p :: p in flows && Fingerprint(p) == d.source && Produced(extract, p, d.token))
            && (exists c :: c in flows && Fingerprint(c) == d.target && ShownAt(c, d.token.value, d.usageLocation))
  {
    var all := AllDependencies(flows, Pool(extract, flows));
    SortedHolds(all, d);
    EntryOfAll(flows, Pool(extract, flows), d);
    ProducerOf(extract, flows, d.token, d.source);
  }

  lemma SortedHolds(all: seq<FlowDependency>, d: FlowDependency)
    ensures d in SortDependencies(all) <==> d in all
  {
    assert d in SortDependencies(all) <==> d in multiset(SortDependencies(all));
  }

  /** The list is in order of source, within a source of target, and within both of place. */
  lemma ListInOrder(d: seq<FlowDependency>, i: nat, j: nat)
    requires i < j < |d|
    ensures var r := SortDependencies(d);
            && |r| == |d| && StrLe(r[i].source, r[j].source)
            && (r[i].source == r[j].source ==> StrLe(r[i].target, r[j].target))
            && (r[i].source == r[j].source && r[i].target == r[j].target ==>
                  StrLe(r[i].usageLocation, r[j].usageLocation))
  {
    var r := SortDependencies(d);
    assert |r| == |multiset(r)| == |multiset(d)| == |d|;
    assert DependencyLe(r[i], r[j]);
    StrLeTotal(r[i].source, r[i].source);
    StrLeTotal(r[i].target, r[i].target);
  }

  // ---- in what order it is found ----

  /** Tokens are looked for in the order of the pool. */
  lemma {:induction false} FoundInPoolOrder(a: seq<Token>, k: Token, b: seq<Token>, text: string, place: string)
    ensures UsedIn(a + [k] + b, text, place) ==
            UsedIn(a, text, place) + (if k.value != "" && Contains(text, k.value) then [(k, place)] else [])
            + UsedIn(b, text, place)
  {
    var pool := a + [k] + b;
    if b == [] {
      assert pool[..|pool| - 1] == a;
    } else {
      var init := b[..|b| - 1];
      assert pool[..|pool| - 1] == a + [k] + init && pool[|pool| - 1] == b[|b| - 1];
      FoundInPoolOrder(a, k, init, text, place);
      var here := if k.value != "" && Contains(text, k.value) then [(k, place)] else [];
      Regroup(UsedIn(a, text, place) + here, UsedIn(init, text, place),
              if Occurs(b[|b| - 1].value, text) then [(b[|b| - 1], place)] else []);
    }
  }

  lemma {:induction false} HeadersInOrder(
      pool: seq<Token>, a: seq<(string, string)>, h: (string, string), b: seq<(string, string)>)
    ensures UsedInHeaders(pool, a + [h] + b) ==
            UsedInHeaders(pool, a) + UsedIn(pool, h.1, "header:" + h.0) + UsedInHeaders(pool, b)
  {
    var headers := a + [h] + b;
    if b == [] {
      assert headers[..|headers| - 1] == a;
    } else {
      var init := b[..|b| - 1];
      var last := b[|b| - 1];
      assert headers[..|headers| - 1] == a + [h] + init && headers[|headers| - 1] == last;
      HeadersInOrder(pool, a, h, init);
      Regroup(UsedInHeaders(pool, a) + UsedIn(pool, h.1, "header:" + h.0), UsedInHeaders(pool, init),
              UsedIn(pool, last.1, "header:" + last.0));
    }
  }

  /** Headers are scanned in their order, and the body after them. */
  lemma FoundInPlaceOrder(flow: HttpFlow, pool: seq<Token>, a: seq<(string, string)>, h: (string, string),
                          b: seq<(string, string)>)
    requires flow.requestHeaders == a + [h] + b
    ensures Found(flow, pool) == UsedInHeaders(pool, a) + UsedIn(pool, h.1, "header:" + h.0)
                                 + Found(flow.(requestHeaders := b), pool)
  {
    HeadersInOrder(pool, a, h, b);
  }

  /** The pool holds the tokens of the flows in the order of the flows. */
  lemma {:induction false} PoolInOrder(extract: Extractor, a: seq<HttpFlow>, f: HttpFlow, b: seq<HttpFlow>)
    ensures Pool(extract, a + [f] + b) == Pool(extract, a) + Stamp(extract(f), Fingerprint(f)) + Pool(extract, b)
  {
    var flows := a + [f] + b;
    if b == [] {
      assert flows[..|flows| - 1] == a;
    } else {
      var init := b[..|b| - 1];
      var last := b[|b| - 1];
      assert flows[..|flows| - 1] == a + [f] + init && flows[|flows| - 1] == last;
      PoolInOrder(extract, a, f, init);
      Regroup(Pool(extract, a) + Stamp(extract(f), Fingerprint(f)), Pool(extract, init),
              Stamp(extract(last), Fingerprint(last)));
    }
  }
}
