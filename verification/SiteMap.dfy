/** The site map (`serialization.rs`), first half: captured flows gathered into nested maps
    of directories and endpoints. */
module SiteMap {
  import opened Text
  import opened Domain

  // ---- where a flow goes ----

  /** A site is a scheme and a host. */
  type Site = (string, string)

  const SCHEME_SEPARATOR := "://"

  function FlowScheme(flow: HttpFlow): string {
    var at := Find(flow.fullUrl, SCHEME_SEPARATOR);
    if at.None? then "https" else flow.fullUrl[..at.value]
  }

  function SiteOf(flow: HttpFlow): Site {
    (FlowScheme(flow), flow.host)
  }

  function NonEmpty(pieces: seq<string>): seq<string> {
    if pieces == [] then []
    else if pieces[0] == "" then NonEmpty(pieces[1..])
    else [pieces[0]] + NonEmpty(pieces[1..])
  }

  /** The names on the way to an endpoint; the site root is an endpoint called "/". */
  type Address = seq<string>

  function AddressOfPath(path: string): (r: Address)
    ensures r != []
  {
    var segments := NonEmpty(SplitOn(path, '/'));
    if segments == [] then ["/"] else segments
  }

  function AddressOf(flow: HttpFlow): (r: Address)
    ensures r != []
  {
    AddressOfPath(Before(flow.path, '?'))
  }

  function LowerChar(c: char): char {
    if 'A' <= c <= 'Z' then (c as int + 32) as char else c
  }

  function AsciiLower(s: string): (r: string)
    ensures |r| == |s|
    ensures forall i | 0 <= i < |s| :: r[i] == LowerChar(s[i])
  {
    seq(|s|, i requires 0 <= i < |s| => LowerChar(s[i]))
  }

  function ShortContentType(contentType: string): string {
    AsciiLower(Trim(Before(contentType, ';')))
  }

  // ---- accumulating ----

  datatype Endpoint = Endpoint(
    methods: set<string>,
    statuses: set<nat>,
    contentTypes: set<string>,
    count: nat,
    lastSeen: Option<int>,
    sampleFlowId: Option<string>,
    hasParams: bool)

  const NO_FLOWS := Endpoint({}, {}, {}, 0, None, None, false)

  datatype Dir = Dir(dirs: map<string, Dir>, endpoints: map<string, Endpoint>)

  const EMPTY_DIR := Dir(map[], map[])

  /** What one more flow does to an endpoint: the sample is replaced by a newer flow only. */
  function Add(e: Endpoint, flow: HttpFlow): Endpoint {
    var contentType := ShortContentType(flow.contentType);
    var newer := e.lastSeen.None? || flow.timestamp > e.lastSeen.value;
    Endpoint(
      e.methods + {flow.httpMethod},
      e.statuses + {flow.responseStatus},
      if contentType == "" then e.contentTypes else e.contentTypes + {contentType},
      e.count + 1,
      if newer then Some(flow.timestamp) else e.lastSeen,
      if newer then Some(flow.id) else e.sampleFlowId,
      e.hasParams || '?' in flow.path)
  }

  function Insert(d: Dir, at: Address, flow: HttpFlow): Dir
    requires at != []
    decreases |at|
  {
    var name := at[0];
    if |at| == 1 then
      var e := if name in d.endpoints then d.endpoints[name] else NO_FLOWS;
      d.(endpoints := d.endpoints[name := Add(e, flow)])
    else
      var sub := if name in d.dirs then d.dirs[name] else EMPTY_DIR;
      d.(dirs := d.dirs[name := Insert(sub, at[1..], flow)])
  }

  type Sites = map<Site, Dir>

  function Place(sites: Sites, flow: HttpFlow): Sites {
    var site := SiteOf(flow);
    var root := if site in sites then sites[site] else EMPTY_DIR;
    sites[site := Insert(root, AddressOf(flow), flow)]
  }

  /** The accumulated sites of a capture. */
  function SitesOf(flows: seq<HttpFlow>): Sites {
    if flows == [] then map[] else Place(SitesOf(flows[..|flows| - 1]), flows[|flows| - 1])
  }

  method CollectSites(flows: seq<HttpFlow>) returns (sites: Sites)
    ensures sites == SitesOf(flows)
  {
    sites := map[];
    for n := 0 to |flows|
      invariant sites == SitesOf(flows[..n])
    {
      assert flows[..n + 1][..n] == flows[..n];
      sites := Place(sites, flows[n]);
    }
    assert flows[..|flows|] == flows;
  }

  // ---- looking endpoints up ----

  function EndpointAt(d: Dir, at: Address): Option<Endpoint>
    decreases |at|
  {
    if at == [] then None
    else if |at| == 1 then if at[0] in d.endpoints then Some(d.endpoints[at[0]]) else None
    else if at[0] in d.dirs then EndpointAt(d.dirs[at[0]], at[1..])
    else None
  }

  function Lookup(sites: Sites, site: Site, at: Address): Option<Endpoint> {
    if site in sites then EndpointAt(sites[site], at) else None
  }

  function OrNoFlows(e: Option<Endpoint>): Endpoint {
    if e.None? then NO_FLOWS else e.value
  }

  lemma {:induction false} InsertIsLocal(d: Dir, at: Address, flow: HttpFlow, q: Address)
    requires at != []
    ensures EndpointAt(Insert(d, at, flow), q) ==
            if q == at then Some(Add(OrNoFlows(EndpointAt(d, at)), flow)) else EndpointAt(d, q)
    decreases |at|
  {
    if |at| == 1 {
      assert |q| == 1 && q[0] == at[0] ==> q == at;
    } else {
      var sub := if at[0] in d.dirs then d.dirs[at[0]] else EMPTY_DIR;
      if |q| > 1 && q[0] == at[0] {
        assert q == [q[0]] + q[1..] && at == [at[0]] + at[1..];
        InsertIsLocal(sub, at[1..], flow, q[1..]);
        assert EndpointAt(EMPTY_DIR, q[1..]) == None;
      }
    }
  }

  lemma PlaceIsLocal(sites: Sites, flow: HttpFlow, site: Site, at: Address)
    ensures Lookup(Place(sites, flow), site, at) ==
            if (site, at) == (SiteOf(flow), AddressOf(flow))
            then Some(Add(OrNoFlows(Lookup(sites, site, at)), flow)) else Lookup(sites, site, at)
  {
    if site == SiteOf(flow) {
      var root := if site in sites then sites[site] else EMPTY_DIR;
      InsertIsLocal(root, AddressOf(flow), flow, at);
      assert EndpointAt(EMPTY_DIR, at) == None;
    }
  }

  // ---- the tree as an aggregation ----

  predicate GoesTo(flow: HttpFlow, site: Site, at: Address) {
    SiteOf(flow) == site && AddressOf(flow) == at
  }

  /** The flows that belong to an endpoint, in order of capture. */
  function Members(flows: seq<HttpFlow>, site: Site, at: Address): (r: seq<HttpFlow>)
    ensures forall f | f in r :: f in flows && GoesTo(f, site, at)
  {
    if flows == [] then []
    else
      var last := flows[|flows| - 1];
      Members(flows[..|flows| - 1], site, at) + (if GoesTo(last, site, at) then [last] else [])
  }

  lemma {:induction false} NoMembersIff(flows: seq<HttpFlow>, site: Site, at: Address)
    ensures Members(flows, site, at) == [] <==> forall f | f in flows :: !GoesTo(f, site, at)
  {
    if flows != [] {
      var init, last := flows[..|flows| - 1], flows[|flows| - 1];
      NoMembersIff(init, site, at);
      assert flows == init + [last];
    }
  }

  function Aggregate(flows: seq<HttpFlow>): Endpoint {
    if flows == [] then NO_FLOWS else Add(Aggregate(flows[..|flows| - 1]), flows[|flows| - 1])
  }

  lemma {:induction false} LookupIsAggregate(flows: seq<HttpFlow>, site: Site, at: Address)
    ensures var members := Members(flows, site, at);
            Lookup(SitesOf(flows), site, at) == if members == [] then None else Some(Aggregate(members))
  {
    if flows != [] {
      var init, last := flows[..|flows| - 1], flows[|flows| - 1];
      LookupIsAggregate(init, site, at);
      PlaceIsLocal(SitesOf(init), last, site, at);
      var before := Members(init, site, at);
      if GoesTo(last, site, at) {
        assert (before + [last])[..|before|] == before;
      } else {
        assert before + [] == before;
      }
    }
  }

  /** k is the first among the newest flows. */
  ghost predicate FirstNewest(flows: seq<HttpFlow>, k: nat) {
    && k < |flows|
    && (forall i | 0 <= i < |flows| :: flows[i].timestamp <= flows[k].timestamp)
    && (forall i | 0 <= i < k :: flows[i].timestamp < flows[k].timestamp)
  }

  ghost predicate SampledAt(e: Endpoint, flows: seq<HttpFlow>, k: nat) {
    && FirstNewest(flows, k)
    && e.lastSeen == Some(flows[k].timestamp) && e.sampleFlowId == Some(flows[k].id)
  }

  /** What an endpoint says about the flows it stands for. */
  ghost predicate Summarises(e: Endpoint, flows: seq<HttpFlow>) {
    && e.count == |flows|
    && e.methods == (set f | f in flows :: f.httpMethod)
    && e.statuses == (set f | f in flows :: f.responseStatus)
    && e.contentTypes == (set f | f in flows :: ShortContentType(f.contentType)) - {""}
    && (e.hasParams <==> exists f | f in flows :: '?' in f.path)
    && (if flows == [] then e.lastSeen == None && e.sampleFlowId == None else exists k: nat :: SampledAt(e, flows, k))
  }

  lemma {:induction false} AggregateSummarises(flows: seq<HttpFlow>)
    ensures Summarises(Aggregate(flows), flows)
  {
    if flows != [] {
      var init, last := flows[..|flows| - 1], flows[|flows| - 1];
      assert flows == init + [last];
      AggregateSummarises(init);
      AddSummarises(Aggregate(init), init, last);
    }
  }

  lemma AddSummarises(e: Endpoint, init: seq<HttpFlow>, last: HttpFlow)
    requires Summarises(e, init)
    ensures Summarises(Add(e, last), init + [last])
  {
    var flows, e' := init + [last], Add(e, last);
    assert forall f :: f in flows <==> f in init || f == last;
    AddSamples(e, init, last);
  }

  lemma AddSamples(e: Endpoint, init: seq<HttpFlow>, last: HttpFlow)
    requires if init == [] then e.lastSeen == None && e.sampleFlowId == None else exists k: nat :: SampledAt(e, init, k)
    ensures exists k: nat :: SampledAt(Add(e, last), init + [last], k)
  {
    var flows, e' := init + [last], Add(e, last);
    if init == [] {
      assert SampledAt(e', flows, 0);
    } else {
      var k: nat :| SampledAt(e, init, k);
      if last.timestamp > init[k].timestamp {
        assert SampledAt(e', flows, |init|);
      } else {
        assert SampledAt(e', flows, k);
      }
    }
  }

  /** Main result: the tree has an endpoint at a site and address if and only if some flow
      goes there, and the endpoint summarises exactly the flows that do. */
  lemma EndpointIff(flows: seq<HttpFlow>, site: Site, at: Address)
    ensures var e := Lookup(SitesOf(flows), site, at);
            && (e.Some? <==> exists f | f in flows :: GoesTo(f, site, at))
            && (e.Some? ==> Summarises(e.value, Members(flows, site, at)))
  {
    LookupIsAggregate(flows, site, at);
    NoMembersIff(flows, site, at);
    AggregateSummarises(Members(flows, site, at));
  }

  // ---- the endpoints of a tree ----

  datatype Entry = Entry(at: Address, endpoint: Endpoint)

  function Under(name: string, entries: seq<Entry>): (r: seq<Entry>)
    ensures |r| == |entries|
    ensures forall i | 0 <= i < |r| :: r[i] == Entry([name] + entries[i].at, entries[i].endpoint)
  {
    seq(|entries|, i requires 0 <= i < |entries| => Entry([name] + entries[i].at, entries[i].endpoint))
  }

  /** All endpoints below a directory, in the order of the tree. */
  function Entries(d: Dir): seq<Entry>
    decreases d, 2, 0
  {
    EntriesBelow(d, SortedKeys(d.dirs.Keys)) + EntriesHere(d, SortedKeys(d.endpoints.Keys))
  }

  function EntriesBelow(d: Dir, names: seq<string>): seq<Entry>
    requires forall k | k in names :: k in d.dirs
    decreases d, 1, |names|
  {
    if names == [] then [] else Under(names[0], Entries(d.dirs[names[0]])) + EntriesBelow(d, names[1..])
  }

  function EntriesHere(d: Dir, names: seq<string>): seq<Entry>
    requires forall k | k in names :: k in d.endpoints
    decreases d, 0, |names|
  {
    if names == [] then [] else [Entry([names[0]], d.endpoints[names[0]])] + EntriesHere(d, names[1..])
  }

  lemma SortedKeysCover(s: set<string>)
    ensures forall k :: k in SortedKeys(s) <==> k in s
  {
    assert forall k :: k in SortedKeys(s) <==> k in Elements(SortedKeys(s));
  }

  lemma EndpointUnder(d: Dir, name: string, q: Address)
    requires q != [] && name in d.dirs
    ensures EndpointAt(d, [name] + q) == EndpointAt(d.dirs[name], q)
  {
    assert ([name] + q)[1..] == q;
  }

  lemma {:induction false} EntrySound(d: Dir, n: nat)
    requires n < |Entries(d)|
    ensures Entries(d)[n].at != [] && EndpointAt(d, Entries(d)[n].at) == Some(Entries(d)[n].endpoint)
    decreases d, 2, 0
  {
    var dirs, here := SortedKeys(d.dirs.Keys), SortedKeys(d.endpoints.Keys);
    SortedKeysCover(d.dirs.Keys);
    SortedKeysCover(d.endpoints.Keys);
    var below := EntriesBelow(d, dirs);
    assert Entries(d) == below + EntriesHere(d, here);
    if n < |below| {
      EntryBelowSound(d, dirs, n);
    } else {
      EntryHereSound(d, here, n - |below|);
    }
  }

  lemma {:induction false} EntryBelowSound(d: Dir, names: seq<string>, n: nat)
    requires (forall k | k in names :: k in d.dirs) && n < |EntriesBelow(d, names)|
    ensures var e := EntriesBelow(d, names)[n];
            |e.at| > 1 && e.at[0] in names && EndpointAt(d, e.at) == Some(e.endpoint)
    decreases d, 1, |names|
  {
    var first := Under(names[0], Entries(d.dirs[names[0]]));
    if n < |first| {
      EntrySound(d.dirs[names[0]], n);
      EndpointUnder(d, names[0], Entries(d.dirs[names[0]])[n].at);
    } else {
      EntryBelowSound(d, names[1..], n - |first|);
    }
  }

  lemma {:induction false} EntryHereSound(d: Dir, names: seq<string>, n: nat)
    requires (forall k | k in names :: k in d.endpoints) && n < |EntriesHere(d, names)|
    ensures var e := EntriesHere(d, names)[n];
            |e.at| == 1 && e.at[0] in names && EndpointAt(d, e.at) == Some(e.endpoint)
  {
    if n > 0 {
      EntryHereSound(d, names[1..], n - 1);
    }
  }

  lemma {:induction false} EntryComplete(d: Dir, at: Address)
    requires EndpointAt(d, at).Some?
    ensures Entry(at, EndpointAt(d, at).value) in Entries(d)
    decreases |at|
  {
    var e := EndpointAt(d, at).value;
    SortedKeysCover(d.dirs.Keys);
    SortedKeysCover(d.endpoints.Keys);
    if |at| == 1 {
      assert at == [at[0]];
      HereComplete(d, SortedKeys(d.endpoints.Keys), at[0]);
    } else {
      EntryComplete(d.dirs[at[0]], at[1..]);
      assert [at[0]] + at[1..] == at;
      BelowComplete(d, SortedKeys(d.dirs.Keys), at[0], Entry(at[1..], e));
    }
  }

  lemma {:induction false} HereComplete(d: Dir, names: seq<string>, name: string)
    requires (forall k | k in names :: k in d.endpoints) && name in names
    ensures Entry([name], d.endpoints[name]) in EntriesHere(d, names)
  {
    if names[0] != name {
      HereComplete(d, names[1..], name);
    }
  }

  lemma {:induction false} BelowComplete(d: Dir, names: seq<string>, name: string, e: Entry)
    requires (forall k | k in names :: k in d.dirs) && name in names && e in Entries(d.dirs[name])
    ensures Entry([name] + e.at, e.endpoint) in EntriesBelow(d, names)
    decreases |names|
  {
    if names[0] != name {
      BelowComplete(d, names[1..], name, e);
    } else {
      var entries := Entries(d.dirs[name]);
      var n :| 0 <= n < |entries| && entries[n] == e;
      assert Under(name, entries)[n] == Entry([name] + e.at, e.endpoint);
    }
  }

  function Addresses(entries: seq<Entry>): (r: seq<Address>)
    ensures |r| == |entries|
    ensures forall i | 0 <= i < |r| :: r[i] == entries[i].at
  {
    seq(|entries|, i requires 0 <= i < |entries| => entries[i].at)
  }

  lemma DistinctConcat<T>(a: seq<T>, b: seq<T>)
    requires Distinct(a) && Distinct(b) && forall i, j | 0 <= i < |a| && 0 <= j < |b| :: a[i] != b[j]
    ensures Distinct(a + b)
  {
  }

  /** No address is listed twice. */
  lemma {:induction false} EntriesDistinct(d: Dir)
    ensures Distinct(Addresses(Entries(d)))
    decreases d, 2, 0
  {
    var dirs, here := SortedKeys(d.dirs.Keys), SortedKeys(d.endpoints.Keys);
    SortedKeysCover(d.dirs.Keys);
    SortedKeysCover(d.endpoints.Keys);
    var a, b := EntriesBelow(d, dirs), EntriesHere(d, here);
    BelowDistinct(d, dirs);
    HereDistinct(d, here);
    BelowIsNotHere(d, dirs, here);
    EntriesConcatDistinct(a, b);
  }

  lemma EntriesConcatDistinct(a: seq<Entry>, b: seq<Entry>)
    requires Distinct(Addresses(a)) && Distinct(Addresses(b))
    requires forall i, j | 0 <= i < |a| && 0 <= j < |b| :: a[i].at != b[j].at
    ensures Distinct(Addresses(a + b))
  {
    DistinctConcat(Addresses(a), Addresses(b));
    assert Addresses(a + b) == Addresses(a) + Addresses(b);
  }

  lemma BelowIsNotHere(d: Dir, dirs: seq<string>, here: seq<string>)
    requires (forall k | k in dirs :: k in d.dirs) && (forall k | k in here :: k in d.endpoints)
    ensures forall i, j | 0 <= i < |EntriesBelow(d, dirs)| && 0 <= j < |EntriesHere(d, here)| ::
              EntriesBelow(d, dirs)[i].at != EntriesHere(d, here)[j].at
  {
    var a, b := EntriesBelow(d, dirs), EntriesHere(d, here);
    forall i, j | 0 <= i < |a| && 0 <= j < |b| ensures a[i].at != b[j].at {
      EntryBelowSound(d, dirs, i);
      EntryHereSound(d, here, j);
    }
  }

  lemma {:induction false} BelowDistinct(d: Dir, names: seq<string>)
    requires (forall k | k in names :: k in d.dirs) && Distinct(names)
    ensures Distinct(Addresses(EntriesBelow(d, names)))
    decreases d, 1, |names|
  {
    if names != [] {
      var name, rest := names[0], names[1..];
      var entries := Entries(d.dirs[name]);
      var a, b := Under(name, entries), EntriesBelow(d, rest);
      EntriesDistinct(d.dirs[name]);
      UnderDistinct(name, entries);
      BelowDistinct(d, rest);
      forall i, j | 0 <= i < |a| && 0 <= j < |b| ensures a[i].at != b[j].at {
        EntryBelowSound(d, rest, j);
        assert b[j].at[0] in rest && a[i].at[0] == name;
      }
      EntriesConcatDistinct(a, b);
    }
  }

  lemma UnderDistinct(name: string, entries: seq<Entry>)
    requires Distinct(Addresses(entries))
    ensures Distinct(Addresses(Under(name, entries)))
  {
    var r := Addresses(Under(name, entries));
    forall i, j | 0 <= i < j < |r| ensures r[i] != r[j] {
      assert r[i][1..] == Addresses(entries)[i] && r[j][1..] == Addresses(entries)[j];
    }
  }

  lemma {:induction false} HereDistinct(d: Dir, names: seq<string>)
    requires (forall k | k in names :: k in d.endpoints) && Distinct(names)
    ensures Distinct(Addresses(EntriesHere(d, names)))
  {
    if names != [] {
      var rest := names[1..];
      var a, b := [Entry([names[0]], d.endpoints[names[0]])], EntriesHere(d, rest);
      HereDistinct(d, rest);
      forall j | 0 <= j < |b| ensures a[0].at != b[j].at {
        EntryHereSound(d, rest, j);
      }
      EntriesConcatDistinct(a, b);
    }
  }
}
