/** The timeline told from the token uses of each request: the same uses the dependency list
    is made of decide, in their order, the parents of a node and its description. */
module TimelineUses {
  import opened Text
  import opened Domain
  import opened DependencyMapper
  import opened FlowGraph

  // ---- uses of foreign tokens ----

  function Tokens(pool: Pool): (r: seq<Token>)
    ensures |r| == |pool|
  {
    seq(|pool|, i requires 0 <= i < |pool| => pool[i].0)
  }

  /** Every entry of the pool carries the id its token is stamped with. */
  ghost predicate Stamped(pool: Pool) {
    forall i | 0 <= i < |pool| :: pool[i].0.sourceFlowId == pool[i].1
  }

  /** The uses of tokens that come from other flows. */
  function Foreign(found: seq<(Token, string)>, id: string): seq<(Token, string)> {
    if found == [] then []
    else Foreign(found[..|found| - 1], id)
         + (if found[|found| - 1].0.sourceFlowId != id then [found[|found| - 1]] else [])
  }

  /** The sources of the uses, each at its first use, behind those that are there already. */
  function FirstSources(sources: seq<string>, uses: seq<(Token, string)>): seq<string> {
    if uses == [] then sources
    else
      var before := FirstSources(sources, uses[..|uses| - 1]);
      var source := uses[|uses| - 1].0.sourceFlowId;
      if source in before then before else before + [source]
  }

  /** The header or the body a use stands in, as a description names it. */
  function PlaceName(place: string): string {
    if "header:" <= place then place[7..] else place
  }

  function Described(seen: Option<string>, uses: seq<(Token, string)>): Option<string> {
    if seen.Some? || uses == [] then seen else Some(uses[0].0.kind + ": " + PlaceName(uses[0].1))
  }

  lemma {:induction false} ForeignConcat(a: seq<(Token, string)>, b: seq<(Token, string)>, id: string)
    ensures Foreign(a + b, id) == Foreign(a, id) + Foreign(b, id)
  {
    if b == [] {
      assert a + b == a;
    } else {
      var init := b[..|b| - 1];
      assert (a + b)[..|a + b| - 1] == a + init;
      ForeignConcat(a, init, id);
      Regroup(Foreign(a, id), Foreign(init, id), if b[|b| - 1].0.sourceFlowId != id then [b[|b| - 1]] else []);
    }
  }

  lemma {:induction false} FirstSourcesConcat(sources: seq<string>, a: seq<(Token, string)>, b: seq<(Token, string)>)
    ensures FirstSources(sources, a + b) == FirstSources(FirstSources(sources, a), b)
  {
    if b == [] {
      assert a + b == a;
    } else {
      assert (a + b)[..|a + b| - 1] == a + b[..|b| - 1];
      FirstSourcesConcat(sources, a, b[..|b| - 1]);
    }
  }

  lemma DescribedConcat(seen: Option<string>, a: seq<(Token, string)>, b: seq<(Token, string)>)
    ensures Described(seen, a + b) == Described(Described(seen, a), b)
  {
    if a == [] { assert a + b == b; }
  }

  /** What the sources are: each once, those of the uses and no other, and in the order of
      their first uses. */
  lemma {:induction false} FirstSourcesMeaning(uses: seq<(Token, string)>)
    ensures var r := FirstSources([], uses);
            && Distinct(r) && (forall s :: s in r <==> exists u | 0 <= u < |uses| :: uses[u].0.sourceFlowId == s)
            && forall a, b | 0 <= a < b < |r| :: UsedBefore(uses, r[a], r[b])
  {
    if uses != [] {
      var init := uses[..|uses| - 1];
      FirstSourcesMeaning(init);
      var r, before := FirstSources([], uses), FirstSources([], init);
      forall s ensures s in r <==> exists u | 0 <= u < |uses| :: uses[u].0.sourceFlowId == s {
        if u :| 0 <= u < |uses| && uses[u].0.sourceFlowId == s {
          assert u < |init| ==> init[u].0.sourceFlowId == s;
        }
      }
      forall a, b | 0 <= a < b < |r| ensures UsedBefore(uses, r[a], r[b]) {
        if b < |before| {
          UsedEarlier(uses, r[a], r[b]);
        } else {
          assert r[a] in before;
          var u :| 0 <= u < |init| && init[u].0.sourceFlowId == r[a];
          assert uses[u] == init[u];
          assert forall v | 0 <= v <= u :: uses[v] == init[v] && uses[v].0.sourceFlowId in before;
        }
      }
    }
  }

  /** Some use of s stands in front of all uses of t. */
  ghost predicate UsedBefore(uses: seq<(Token, string)>, s: string, t: string) {
    exists u | 0 <= u < |uses| ::
      uses[u].0.sourceFlowId == s && forall v | 0 <= v <= u :: uses[v].0.sourceFlowId != t
  }

  lemma UsedEarlier(uses: seq<(Token, string)>, s: string, t: string)
    requires uses != [] && UsedBefore(uses[..|uses| - 1], s, t)
    ensures UsedBefore(uses, s, t)
  {
    var init := uses[..|uses| - 1];
    var u :| 0 <= u < |init| && init[u].0.sourceFlowId == s && forall v | 0 <= v <= u :: init[v].0.sourceFlowId != t;
    assert uses[u] == init[u] && forall v | 0 <= v <= u :: uses[v] == init[v];
  }

  // ---- the builder collects them ----

  lemma {:induction false} TextUses(
      parents: seq<string>, seen: Option<string>, pool: Pool, text: string, id: string, place: string, header: bool)
    requires Stamped(pool) && (!header ==> !("header:" <= place))
    ensures var found := UsedIn(Tokens(pool), text, if header then "header:" + place else place);
            && AddSources(parents, pool, text, id) == FirstSources(parents, Foreign(found, id))
            && FirstUse(seen, pool, text, id, place) == Described(seen, Foreign(found, id))
  {
    if pool != [] {
      var init, entry := pool[..|pool| - 1], pool[|pool| - 1];
      var location := if header then "header:" + place else place;
      assert Tokens(pool)[..|pool| - 1] == Tokens(init);
      TextUses(parents, seen, init, text, id, place, header);
      var found := UsedIn(Tokens(init), text, location);
      var step := if Occurs(entry.0.value, text) then [(entry.0, location)] else [];
      ForeignConcat(found, step, id);
      FirstSourcesConcat(parents, Foreign(found, id), Foreign(step, id));
      DescribedConcat(seen, Foreign(found, id), Foreign(step, id));
      assert UsedIn(Tokens(pool), text, location) == found + step;
      StepUses(FirstSources(parents, Foreign(found, id)), Described(seen, Foreign(found, id)),
               entry, text, id, place, location);
    }
  }

  lemma StepUses(parents: seq<string>, seen: Option<string>, entry: (Token, string), text: string, id: string,
                 place: string, location: string)
    requires entry.0.sourceFlowId == entry.1 && PlaceName(location) == place
    ensures var step := if Occurs(entry.0.value, text) then [(entry.0, location)] else [];
            && FirstSources(parents, Foreign(step, id)) ==
               (if FlowGraph.Uses(entry, text, id) && entry.1 !in parents then parents + [entry.1] else parents)
            && Described(seen, Foreign(step, id)) ==
               (if seen.None? && FlowGraph.Uses(entry, text, id) then Some(entry.0.kind + ": " + place) else seen)
  {
    var step := if Occurs(entry.0.value, text) then [(entry.0, location)] else [];
    if step != [] {
      assert step[..0] == [] && Foreign(step, id) == if entry.1 != id then step else [];
    }
  }

  lemma {:induction false} HeaderUses(pool: Pool, headers: seq<(string, string)>, id: string)
    requires Stamped(pool)
    ensures var found := UsedInHeaders(Tokens(pool), headers);
            && HeaderSources(pool, headers, id) == FirstSources([], Foreign(found, id))
            && HeaderUse(pool, headers, id) == Described(None, Foreign(found, id))
  {
    if headers != [] {
      var init, last := headers[..|headers| - 1], headers[|headers| - 1];
      HeaderUses(pool, init, id);
      var before, here := UsedInHeaders(Tokens(pool), init), UsedIn(Tokens(pool), last.1, "header:" + last.0);
      TextUses(HeaderSources(pool, init, id), HeaderUse(pool, init, id), pool, last.1, id, last.0, true);
      ForeignConcat(before, here, id);
      FirstSourcesConcat([], Foreign(before, id), Foreign(here, id));
      DescribedConcat(None, Foreign(before, id), Foreign(here, id));
    }
  }

  lemma FlowUses(pool: Pool, flow: HttpFlow)
    requires Stamped(pool)
    ensures var uses := Foreign(Found(flow, Tokens(pool)), flow.id);
            TokenSources(pool, flow) == FirstSources([], uses) && Description(pool, flow) == Described(None, uses)
  {
    HeaderUses(pool, flow.requestHeaders, flow.id);
    var before := UsedInHeaders(Tokens(pool), flow.requestHeaders);
    if flow.requestBody.Some? {
      var here := UsedIn(Tokens(pool), flow.requestBody.value, "body");
      TextUses(HeaderSources(pool, flow.requestHeaders, flow.id), HeaderUse(pool, flow.requestHeaders, flow.id),
               pool, flow.requestBody.value, flow.id, "body", false);
      ForeignConcat(before, here, flow.id);
      FirstSourcesConcat([], Foreign(before, flow.id), Foreign(here, flow.id));
      DescribedConcat(None, Foreign(before, flow.id), Foreign(here, flow.id));
    } else {
      assert Found(flow, Tokens(pool)) == before;
    }
  }

  lemma {:induction false} PoolIsStamped(extract: Extractor, flows: seq<HttpFlow>)
    ensures Stamped(PoolOf(extract, flows))
  {
    if flows != [] {
      PoolIsStamped(extract, flows[..|flows| - 1]);
    }
  }

  /** The tokens of the flows, flow by flow, stamped with the id of their flow. */
  function Captured(extract: Extractor, flows: seq<HttpFlow>): seq<Token> {
    if flows == [] then [] else Stamp(extract(flows[0]), flows[0].id) + Captured(extract, flows[1..])
  }

  lemma {:induction false} CapturedOneMore(extract: Extractor, flows: seq<HttpFlow>, f: HttpFlow)
    ensures Captured(extract, flows + [f]) == Captured(extract, flows) + Stamp(extract(f), f.id)
  {
    if flows == [] {
      assert [f][1..] == [] && flows + [f] == [f];
    } else {
      assert (flows + [f])[0] == flows[0] && (flows + [f])[1..] == flows[1..] + [f];
      CapturedOneMore(extract, flows[1..], f);
      Regroup(Stamp(extract(flows[0]), flows[0].id), Captured(extract, flows[1..]), Stamp(extract(f), f.id));
    }
  }

  lemma {:induction false} PoolIsCaptured(extract: Extractor, flows: seq<HttpFlow>)
    ensures Tokens(PoolOf(extract, flows)) == Captured(extract, flows)
  {
    if flows != [] {
      var init, last := flows[..|flows| - 1], flows[|flows| - 1];
      PoolIsCaptured(extract, init);
      CapturedOneMore(extract, init, last);
      assert flows == init + [last];
      assert Tokens(Entries(extract(last), last.id)) == Stamp(extract(last), last.id);
    }
  }

  // ---- main result ----

  /** The uses of a flow among the tokens captured up to it, those of its own excepted. */
  function UsesOf(extract: Extractor, flows: seq<HttpFlow>, i: nat): seq<(Token, string)>
    requires i < |flows|
  {
    Foreign(Found(flows[i], Captured(extract, flows[..i + 1])), flows[i].id)
  }

  /** Parents and description, given the uses: the sources in the order of first use and the
      first use, or the flow before and nothing. */
  ghost predicate Decided(uses: seq<(Token, string)>, prev: Option<string>, parents: seq<string>,
                          token: Option<string>)
  {
    if uses == [] then parents == (if prev.Some? then [prev.value] else []) && token == None
    else
      && (forall s :: s in parents <==> exists u | 0 <= u < |uses| :: uses[u].0.sourceFlowId == s)
      && Distinct(parents) && (forall a, b | 0 <= a < b < |parents| :: UsedBefore(uses, parents[a], parents[b]))
      && token == Some(uses[0].0.kind + ": " + PlaceName(uses[0].1))
  }

  lemma UsesDecide(pool: Pool, flow: HttpFlow, prev: Option<string>)
    requires Stamped(pool)
    ensures Decided(Foreign(Found(flow, Tokens(pool)), flow.id), prev, ParentList(pool, flow, prev),
                    Description(pool, flow))
  {
    var uses := Foreign(Found(flow, Tokens(pool)), flow.id);
    FlowUses(pool, flow);
    FirstSourcesMeaning(uses);
    if uses != [] {
      assert uses[0].0.sourceFlowId in FirstSources([], uses);
    }
  }

  /** Main result: a node shows its flow, with the path up to the question mark, and the uses
      among the tokens captured so far decide its parents and its description. */
  lemma NodeShows(extract: Extractor, flows: seq<HttpFlow>, nodes: seq<TimelineNode>, i: nat)
    requires IsTimeline(extract, flows, nodes) && i < |nodes|
    ensures nodes[i].id == flows[i].id && nodes[i].timestamp == flows[i].timestamp
    ensures nodes[i].httpMethod == flows[i].httpMethod && nodes[i].status == flows[i].responseStatus
    ensures '?' !in nodes[i].path && (flows[i].path == nodes[i].path || nodes[i].path + "?" <= flows[i].path)
    ensures Decided(UsesOf(extract, flows, i), if i == 0 then None else Some(flows[i - 1].id),
                    nodes[i].parentIds, nodes[i].token)
  {
    NodeFields(extract, flows, nodes, i);
    NodeTexts(extract, flows, nodes, i);
    PathCut(flows[i].path);
    UsesDecideNode(extract, flows, i);
  }

  lemma UsesDecideNode(extract: Extractor, flows: seq<HttpFlow>, i: nat)
    requires i < |flows|
    ensures var pool := PoolOf(extract, flows[..i + 1]);
            Decided(UsesOf(extract, flows, i), Previous(flows, i), ParentList(pool, flows[i], Previous(flows, i)),
                    Description(pool, flows[i]))
  {
    PoolIsStamped(extract, flows[..i + 1]);
    PoolIsCaptured(extract, flows[..i + 1]);
    UsesDecide(PoolOf(extract, flows[..i + 1]), flows[i], Previous(flows, i));
  }

  lemma PathCut(path: string)
    ensures var p := Before(path, '?'); '?' !in p && (path == p || p + "?" <= path)
  {
    var p := Before(path, '?');
    if '?' in path { assert path[..|p| + 1] == p + "?"; }
  }

  lemma NodeTexts(extract: Extractor, flows: seq<HttpFlow>, nodes: seq<TimelineNode>, i: nat)
    requires IsTimeline(extract, flows, nodes) && i < |nodes|
    ensures nodes[i].httpMethod == flows[i].httpMethod && nodes[i].status == flows[i].responseStatus
    ensures nodes[i].path == Before(flows[i].path, '?')
    ensures nodes[i].token == Description(PoolOf(extract, flows[..i + 1]), flows[i])
  {
    assert nodes[i].(childrenIds := []).path == NodeAt(extract, flows, i).path;
  }
}
