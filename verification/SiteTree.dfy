/** The site map (`serialization.rs`), second half: the tree of nodes built from the
    gathered endpoints, and the flat listing derived from it. */
module SiteTree {
  import opened Text
  import opened Domain
  import opened SiteMap

  // ---- nodes ----

  datatype Annotation = Annotation(comment: Option<string>, color: Option<string>)

  type Annotations = map<string, Annotation>

  datatype Kind = Directory | Leaf

  datatype Node = Node(name: string, kind: Kind, path: string, children: seq<Node>, methods: seq<string>,
                       statuses: seq<nat>, count: nat, contentTypes: seq<string>, lastSeen: Option<int>,
                       sampleFlowId: Option<string>, hasParams: bool, annotation: Option<Annotation>)

  ghost predicate IsLeastStatus(x: nat, s: set<nat>) {
    x in s && forall y | y in s :: x <= y
  }

  lemma LeastStatusExists(s: set<nat>)
    requires s != {}
    ensures exists x :: IsLeastStatus(x, s)
  {
    var x :| x in s;
    if s == {x} {
      assert IsLeastStatus(x, s);
    } else {
      LeastStatusExists(s - {x});
      var z :| IsLeastStatus(z, s - {x});
      forall y | y in s ensures (if x <= z then x else z) <= y {
        if y != x { assert y in s - {x}; }
      }
      assert IsLeastStatus(if x <= z then x else z, s);
    }
  }

  function LeastStatus(s: set<nat>): (x: nat)
    requires s != {}
    ensures IsLeastStatus(x, s)
  {
    LeastStatusExists(s);
    var x :| x in s && forall y | y in s :: x <= y;
    x
  }

  ghost predicate Ascends(s: seq<nat>) {
    forall i, j | 0 <= i < j < |s| :: s[i] < s[j]
  }

  /** The members in ascending order, as a BTreeSet of numbers iterates. */
  function Ascending(s: set<nat>): (r: seq<nat>)
    ensures Elements(r) == s && Ascends(r)
  {
    if s == {} then []
    else
      var x := LeastStatus(s);
      var rest := Ascending(s - {x});
      LeastFirst(x, rest, s);
      [x] + rest
  }

  lemma LeastFirst(x: nat, rest: seq<nat>, s: set<nat>)
    requires IsLeastStatus(x, s) && Elements(rest) == s - {x} && Ascends(rest)
    ensures Elements([x] + rest) == s && Ascends([x] + rest)
  {
    forall j | 0 <= j < |rest| ensures x < rest[j] { assert rest[j] in Elements(rest); }
    assert Elements([x] + rest) == {x} + Elements(rest);
  }

  function AnnotationKey(site: Site, path: string): string {
    site.0 + "://" + site.1 + path
  }

  function DirNode(name: string, prefix: string, children: seq<Node>): Node {
    Node(name, Directory, prefix + "/" + name, children, [], [], 0, [], None, None, false, None)
  }

  function LeafNode(name: string, e: Endpoint, prefix: string, site: Site, notes: Annotations): Node {
    var path := if name == "/" then "/" else prefix + "/" + name;
    var key := AnnotationKey(site, path);
    Node(name, Leaf, path, [], SortedKeys(e.methods), Ascending(e.statuses), e.count, SortedKeys(e.contentTypes),
         e.lastSeen, e.sampleFlowId, e.hasParams, if key in notes then Some(notes[key]) else None)
  }

  /** Sub-directories first, then endpoints, each in name order. */
  function Children(d: Dir, prefix: string, site: Site, notes: Annotations): seq<Node>
    decreases d, 2, 0
  {
    DirNodes(d, prefix, site, notes, SortedKeys(d.dirs.Keys))
    + LeafNodes(d, prefix, site, notes, SortedKeys(d.endpoints.Keys))
  }

  function DirNodes(d: Dir, prefix: string, site: Site, notes: Annotations, names: seq<string>): seq<Node>
    requires forall k | k in names :: k in d.dirs
    decreases d, 1, |names|
  {
    if names == [] then []
    else [DirNode(names[0], prefix, Children(d.dirs[names[0]], prefix + "/" + names[0], site, notes))]
         + DirNodes(d, prefix, site, notes, names[1..])
  }

  function LeafNodes(d: Dir, prefix: string, site: Site, notes: Annotations, names: seq<string>): seq<Node>
    requires forall k | k in names :: k in d.endpoints
    decreases d, 0, |names|
  {
    if names == [] then []
    else [LeafNode(names[0], d.endpoints[names[0]], prefix, site, notes)]
         + LeafNodes(d, prefix, site, notes, names[1..])
  }

  method BuildDirChildren(d: Dir, prefix: string, site: Site, notes: Annotations) returns (children: seq<Node>)
    ensures children == Children(d, prefix, site, notes)
    decreases d, 1
  {
    SortedKeysCover(d.dirs.Keys);
    SortedKeysCover(d.endpoints.Keys);
    children := BuildDirs(d, prefix, site, notes, SortedKeys(d.dirs.Keys));
    children := BuildLeaves(d, prefix, site, notes, SortedKeys(d.endpoints.Keys), children);
  }

  /** The loop over sub-directories. */
  method BuildDirs(d: Dir, prefix: string, site: Site, notes: Annotations, names: seq<string>)
    returns (children: seq<Node>)
    requires forall k | k in names :: k in d.dirs
    ensures children == DirNodes(d, prefix, site, notes, names)
    decreases d, 0
  {
    children := [];
    assert names[0..] == names;
    for n := 0 to |names|
      invariant DirsBuilt(d, prefix, site, notes, names, n, children)
    {
      var sub := BuildDirChildren(d.dirs[names[n]], prefix + "/" + names[n], site, notes);
      DirBuilt(d, prefix, site, notes, names, n, children);
      children := children + [DirNode(names[n], prefix, sub)];
    }
    assert names[|names|..] == [] && children + [] == children;
  }

  ghost predicate DirsBuilt(d: Dir, prefix: string, site: Site, notes: Annotations, names: seq<string>, n: nat,
                            children: seq<Node>)
    requires forall k | k in names :: k in d.dirs
  {
    && n <= |names|
    && children + DirNodes(d, prefix, site, notes, names[n..]) == DirNodes(d, prefix, site, notes, names)
  }

  lemma DirBuilt(d: Dir, prefix: string, site: Site, notes: Annotations, names: seq<string>, n: nat,
                 children: seq<Node>)
    requires (forall k | k in names :: k in d.dirs) && n < |names|
    requires DirsBuilt(d, prefix, site, notes, names, n, children)
    ensures var sub := Children(d.dirs[names[n]], prefix + "/" + names[n], site, notes);
            DirsBuilt(d, prefix, site, notes, names, n + 1, children + [DirNode(names[n], prefix, sub)])
  {
    var node := DirNode(names[n], prefix, Children(d.dirs[names[n]], prefix + "/" + names[n], site, notes));
    assert names[n..][0] == names[n] && names[n..][1..] == names[n + 1..];
    Regroup(children, [node], DirNodes(d, prefix, site, notes, names[n + 1..]));
  }

  /** The loop over endpoints. */
  method BuildLeaves(d: Dir, prefix: string, site: Site, notes: Annotations, names: seq<string>,
                     children0: seq<Node>)
    returns (children: seq<Node>)
    requires forall k | k in names :: k in d.endpoints
    ensures children == children0 + LeafNodes(d, prefix, site, notes, names)
  {
    ghost var all := children0 + LeafNodes(d, prefix, site, notes, names);
    children := children0;
    assert names[0..] == names;
    for n := 0 to |names|
      invariant LeavesBuilt(d, prefix, site, notes, names, n, children, all)
    {
      LeafBuilt(d, prefix, site, notes, names, n, children, all);
      children := children + [LeafNode(names[n], d.endpoints[names[n]], prefix, site, notes)];
    }
    assert names[|names|..] == [] && children + [] == children;
  }

  ghost predicate LeavesBuilt(d: Dir, prefix: string, site: Site, notes: Annotations, names: seq<string>, n: nat,
                              children: seq<Node>, all: seq<Node>)
    requires forall k | k in names :: k in d.endpoints
  {
    n <= |names| && children + LeafNodes(d, prefix, site, notes, names[n..]) == all
  }

  lemma LeafBuilt(d: Dir, prefix: string, site: Site, notes: Annotations, names: seq<string>, n: nat,
                  children: seq<Node>, all: seq<Node>)
    requires (forall k | k in names :: k in d.endpoints) && n < |names|
    requires LeavesBuilt(d, prefix, site, notes, names, n, children, all)
    ensures var node := LeafNode(names[n], d.endpoints[names[n]], prefix, site, notes);
            LeavesBuilt(d, prefix, site, notes, names, n + 1, children + [node], all)
  {
    var node := LeafNode(names[n], d.endpoints[names[n]], prefix, site, notes);
    assert names[n..][0] == names[n] && names[n..][1..] == names[n + 1..];
    Regroup(children, [node], LeafNodes(d, prefix, site, notes, names[n + 1..]));
  }

  // ---- the leaves of the node tree are the endpoints ----

  /** The endpoint nodes in the order the flattening walk meets them. */
  function Leaves(nodes: seq<Node>): seq<Node>
    decreases nodes
  {
    if nodes == [] then []
    else (if nodes[0].kind.Leaf? then [nodes[0]] else []) + Leaves(nodes[0].children) + Leaves(nodes[1..])
  }

  lemma {:induction false} LeavesConcat(a: seq<Node>, b: seq<Node>)
    ensures Leaves(a + b) == Leaves(a) + Leaves(b)
  {
    if a == [] {
      assert a + b == b;
    } else {
      assert (a + b)[0] == a[0] && (a + b)[1..] == a[1..] + b;
      LeavesConcat(a[1..], b);
    }
  }

  /** The text of a chain of directories below a prefix. */
  function DirText(prefix: string, names: seq<string>): string
    decreases |names|
  {
    if names == [] then prefix else DirText(prefix + "/" + names[0], names[1..])
  }

  function NodeOf(entry: Entry, prefix: string, site: Site, notes: Annotations): Node {
    if entry.at == [] then DirNode("", prefix, [])
    else
      var last := |entry.at| - 1;
      LeafNode(entry.at[last], entry.endpoint, DirText(prefix, entry.at[..last]), site, notes)
  }

  function NodesOf(entries: seq<Entry>, prefix: string, site: Site, notes: Annotations): (r: seq<Node>)
    ensures |r| == |entries|
    ensures forall i | 0 <= i < |r| :: r[i] == NodeOf(entries[i], prefix, site, notes)
  {
    seq(|entries|, i requires 0 <= i < |entries| => NodeOf(entries[i], prefix, site, notes))
  }

  lemma NodesUnder(name: string, entries: seq<Entry>, prefix: string, site: Site, notes: Annotations)
    requires forall n | 0 <= n < |entries| :: entries[n].at != []
    ensures NodesOf(Under(name, entries), prefix, site, notes) == NodesOf(entries, prefix + "/" + name, site, notes)
  {
    forall n | 0 <= n < |entries|
      ensures NodeOf(Under(name, entries)[n], prefix, site, notes)
           == NodeOf(entries[n], prefix + "/" + name, site, notes)
    {
      var at := entries[n].at;
      var q := [name] + at;
      assert q[..|q| - 1] == [name] + at[..|at| - 1];
      assert q[..|q| - 1][1..] == at[..|at| - 1];
    }
  }

  /** The node tree holds one leaf for each endpoint, in the same order, with its full path. */
  lemma {:induction false} LeavesAreEntries(d: Dir, prefix: string, site: Site, notes: Annotations)
    ensures Leaves(Children(d, prefix, site, notes)) == NodesOf(Entries(d), prefix, site, notes)
    decreases d, 2, 0
  {
    var dirs, here := SortedKeys(d.dirs.Keys), SortedKeys(d.endpoints.Keys);
    SortedKeysCover(d.dirs.Keys);
    SortedKeysCover(d.endpoints.Keys);
    DirLeaves(d, prefix, site, notes, dirs);
    HereLeaves(d, prefix, site, notes, here);
    LeavesConcat(DirNodes(d, prefix, site, notes, dirs), LeafNodes(d, prefix, site, notes, here));
    NodesConcat(EntriesBelow(d, dirs), EntriesHere(d, here), prefix, site, notes);
  }

  lemma NodesConcat(a: seq<Entry>, b: seq<Entry>, prefix: string, site: Site, notes: Annotations)
    ensures NodesOf(a + b, prefix, site, notes) == NodesOf(a, prefix, site, notes) + NodesOf(b, prefix, site, notes)
  {
  }

  lemma {:induction false} DirLeaves(d: Dir, prefix: string, site: Site, notes: Annotations, names: seq<string>)
    requires forall k | k in names :: k in d.dirs
    ensures Leaves(DirNodes(d, prefix, site, notes, names)) == NodesOf(EntriesBelow(d, names), prefix, site, notes)
    decreases d, 1, |names|
  {
    if names != [] {
      var name, sub := names[0], d.dirs[names[0]];
      var first := DirNode(name, prefix, Children(sub, prefix + "/" + name, site, notes));
      LeavesAreEntries(sub, prefix + "/" + name, site, notes);
      DirLeaves(d, prefix, site, notes, names[1..]);
      forall n | 0 <= n < |Entries(sub)| ensures Entries(sub)[n].at != [] { EntrySound(sub, n); }
      NodesUnder(name, Entries(sub), prefix, site, notes);
      NodesConcat(Under(name, Entries(sub)), EntriesBelow(d, names[1..]), prefix, site, notes);
      FirstDir(first, DirNodes(d, prefix, site, notes, names[1..]));
    }
  }

  lemma FirstDir(first: Node, rest: seq<Node>)
    requires first.kind.Directory?
    ensures Leaves([first] + rest) == Leaves(first.children) + Leaves(rest)
  {
    assert ([first] + rest)[1..] == rest;
    assert [] + Leaves(first.children) == Leaves(first.children);
  }

  lemma {:induction false} HereLeaves(d: Dir, prefix: string, site: Site, notes: Annotations, names: seq<string>)
    requires forall k | k in names :: k in d.endpoints
    ensures Leaves(LeafNodes(d, prefix, site, notes, names)) == NodesOf(EntriesHere(d, names), prefix, site, notes)
  {
    if names != [] {
      var name := names[0];
      var first := LeafNode(name, d.endpoints[name], prefix, site, notes);
      HereLeaves(d, prefix, site, notes, names[1..]);
      FirstLeaf(first, LeafNodes(d, prefix, site, notes, names[1..]));
      OneNode(name, d.endpoints[name], prefix, site, notes);
      NodesConcat([Entry([name], d.endpoints[name])], EntriesHere(d, names[1..]), prefix, site, notes);
    }
  }

  lemma OneNode(name: string, e: Endpoint, prefix: string, site: Site, notes: Annotations)
    ensures NodesOf([Entry([name], e)], prefix, site, notes) == [LeafNode(name, e, prefix, site, notes)]
  {
    assert [name][..0] == [];
  }

  lemma FirstLeaf(first: Node, rest: seq<Node>)
    requires first.kind.Leaf? && first.children == []
    ensures Leaves([first] + rest) == [first] + Leaves(rest)
  {
    assert ([first] + rest)[1..] == rest;
    assert [first] + [] == [first];
  }

  // ---- paths read back as addresses ----

  /** The path of an endpoint node below a site. */
  function PathText(at: Address): string
    requires at != []
  {
    if at[|at| - 1] == "/" then "/" else DirText("", at[..|at| - 1]) + "/" + at[|at| - 1]
  }

  predicate Segment(name: string) {
    name != "" && '/' !in name
  }

  /** An address made by AddressOfPath: the site root, or names without a slash. */
  predicate CleanAddress(at: Address) {
    at == ["/"] || (at != [] && forall i | 0 <= i < |at| :: Segment(at[i]))
  }

  lemma {:induction false} NonEmptyPieces(s: string)
    ensures forall x | x in NonEmpty(SplitOn(s, '/')) :: Segment(x)
  {
    PiecesLackSeparator(s, '/');
    KeptPieces(SplitOn(s, '/'));
  }

  lemma {:induction false} KeptPieces(pieces: seq<string>)
    requires forall i | 0 <= i < |pieces| :: '/' !in pieces[i]
    ensures forall x | x in NonEmpty(pieces) :: Segment(x)
  {
    if pieces != [] {
      KeptPieces(pieces[1..]);
    }
  }

  lemma AddressIsClean(path: string)
    ensures CleanAddress(AddressOfPath(path))
  {
    NonEmptyPieces(path);
  }

  lemma {:induction false} NonEmptyConcat(a: seq<string>, b: seq<string>)
    ensures NonEmpty(a + b) == NonEmpty(a) + NonEmpty(b)
  {
    if a == [] {
      assert a + b == b;
    } else {
      assert (a + b)[0] == a[0] && (a + b)[1..] == a[1..] + b;
      NonEmptyConcat(a[1..], b);
    }
  }

  lemma OneMoreSegment(prefix: string, name: string)
    requires Segment(name)
    ensures NonEmpty(SplitOn(prefix + "/" + name, '/')) == NonEmpty(SplitOn(prefix, '/')) + [name]
  {
    assert prefix + "/" + name == prefix + ['/'] + name;
    SplitConcat(prefix, '/', name);
    SplitWithout(name, '/');
    NonEmptyConcat(SplitOn(prefix, '/'), [name]);
    assert [name][1..] == [];
  }

  lemma {:induction false} DirTextSegments(prefix: string, names: seq<string>)
    requires forall i | 0 <= i < |names| :: Segment(names[i])
    ensures NonEmpty(SplitOn(DirText(prefix, names), '/')) == NonEmpty(SplitOn(prefix, '/')) + names
    decreases |names|
  {
    if names != [] {
      OneMoreSegment(prefix, names[0]);
      DirTextSegments(prefix + "/" + names[0], names[1..]);
      assert [names[0]] + names[1..] == names;
    }
  }

  /** Reading an endpoint's path gives back the address it was filed under. */
  lemma PathReadsBack(at: Address)
    requires CleanAddress(at)
    ensures AddressOfPath(PathText(at)) == at
  {
    if at == ["/"] {
      assert "/" == [] + ['/'] + [];
      SplitConcat([], '/', []);
    } else {
      var init, last := at[..|at| - 1], at[|at| - 1];
      assert Segment(last);
      assert last != "/" by { assert '/' in "/"; }
      assert at == init + [last];
      DirTextSegments("", init);
      OneMoreSegment(DirText("", init), last);
      assert NonEmpty(SplitOn("", '/')) == [];
    }
  }

  // ---- the whole tree ----

  datatype SitemapSite = SitemapSite(site: Site, children: seq<Node>)

  /** The hosts seen under a scheme. */
  function HostsOf(sites: set<Site>, scheme: string): set<string> {
    set s | s in sites && s.0 == scheme :: s.1
  }

  function SchemesOf(sites: set<Site>): set<string> {
    set s | s in sites :: s.0
  }

  function WithScheme(scheme: string, hosts: seq<string>): (r: seq<Site>)
    ensures |r| == |hosts|
    ensures forall i | 0 <= i < |r| :: r[i] == (scheme, hosts[i])
  {
    seq(|hosts|, i requires 0 <= i < |hosts| => (scheme, hosts[i]))
  }

  function SitesUnder(sites: set<Site>, schemes: seq<string>): seq<Site> {
    if schemes == [] then []
    else WithScheme(schemes[0], SortedKeys(HostsOf(sites, schemes[0]))) + SitesUnder(sites, schemes[1..])
  }

  /** The sites in the order of their `BTreeMap`: by scheme, then by host. */
  function SiteOrder(sites: set<Site>): seq<Site> {
    SitesUnder(sites, SortedKeys(SchemesOf(sites)))
  }

  lemma {:induction false} SitesUnderCover(sites: set<Site>, schemes: seq<string>)
    ensures forall s :: s in SitesUnder(sites, schemes) <==> s in sites && s.0 in schemes
  {
    if schemes != [] {
      var hosts := HostsOf(sites, schemes[0]);
      SortedKeysCover(hosts);
      SitesUnderCover(sites, schemes[1..]);
      forall s ensures s in WithScheme(schemes[0], SortedKeys(hosts)) <==> s in sites && s.0 == schemes[0] {
        UnderScheme(schemes[0], SortedKeys(hosts), s);
      }
    }
  }

  lemma UnderScheme(scheme: string, hosts: seq<string>, s: Site)
    ensures s in WithScheme(scheme, hosts) <==> s.0 == scheme && s.1 in hosts
  {
    if s.0 == scheme && s.1 in hosts {
      var i :| 0 <= i < |hosts| && hosts[i] == s.1;
      assert WithScheme(scheme, hosts)[i] == s;
    }
  }

  lemma {:induction false} SitesUnderDistinct(sites: set<Site>, schemes: seq<string>)
    requires Distinct(schemes)
    ensures Distinct(SitesUnder(sites, schemes))
  {
    if schemes != [] {
      var rest := schemes[1..];
      var hosts := SortedKeys(HostsOf(sites, schemes[0]));
      SitesUnderDistinct(sites, rest);
      SitesUnderCover(sites, rest);
      var a, b := WithScheme(schemes[0], hosts), SitesUnder(sites, rest);
      forall j | 0 <= j < |b| ensures b[j].0 != schemes[0] { assert b[j] in b; }
      DistinctConcat(a, b);
    }
  }

  lemma SiteOrderCovers(sites: set<Site>)
    ensures Distinct(SiteOrder(sites))
    ensures forall s :: s in SiteOrder(sites) <==> s in sites
  {
    SortedKeysCover(SchemesOf(sites));
    SitesUnderCover(sites, SortedKeys(SchemesOf(sites)));
    SitesUnderDistinct(sites, SortedKeys(SchemesOf(sites)));
  }

  function TreeSites(sites: Sites, notes: Annotations, order: seq<Site>): (r: seq<SitemapSite>)
    requires forall s | s in order :: s in sites
    ensures |r| == |order|
    ensures forall i | 0 <= i < |r| :: r[i] == SitemapSite(order[i], Children(sites[order[i]], "", order[i], notes))
  {
    seq(|order|, i requires 0 <= i < |order| => SitemapSite(order[i], Children(sites[order[i]], "", order[i], notes)))
  }

  /** The site map tree of a capture. */
  function Tree(flows: seq<HttpFlow>, notes: Annotations): seq<SitemapSite> {
    var sites := SitesOf(flows);
    SiteOrderCovers(sites.Keys);
    TreeSites(sites, notes, SiteOrder(sites.Keys))
  }

  method BuildSitemapTree(flows: seq<HttpFlow>, notes: Annotations) returns (tree: seq<SitemapSite>)
    ensures tree == Tree(flows, notes)
  {
    var sites := CollectSites(flows);
    SiteOrderCovers(sites.Keys);
    tree := BuildSites(sites, notes, SiteOrder(sites.Keys));
  }

  /** The pass over the accumulated sites. */
  method BuildSites(sites: Sites, notes: Annotations, order: seq<Site>) returns (tree: seq<SitemapSite>)
    requires forall s | s in order :: s in sites
    ensures tree == TreeSites(sites, notes, order)
  {
    tree := [];
    for n := 0 to |order|
      invariant tree == TreeSites(sites, notes, order[..n])
    {
      TreeStep(sites, notes, order, n);
      var children := BuildDirChildren(sites[order[n]], "", order[n], notes);
      tree := tree + [SitemapSite(order[n], children)];
    }
    assert order[..|order|] == order;
  }

  lemma TreeStep(sites: Sites, notes: Annotations, order: seq<Site>, n: nat)
    requires (forall s | s in order :: s in sites) && n < |order|
    ensures TreeSites(sites, notes, order[..n + 1]) ==
            TreeSites(sites, notes, order[..n])
            + [SitemapSite(order[n], Children(sites[order[n]], "", order[n], notes))]
  {
  }

  // ---- every endpoint of the tree, once ----

  datatype Placed = Placed(site: Site, entry: Entry)

  function AtSite(site: Site, entries: seq<Entry>): (r: seq<Placed>)
    ensures |r| == |entries|
    ensures forall i | 0 <= i < |r| :: r[i] == Placed(site, entries[i])
  {
    seq(|entries|, i requires 0 <= i < |entries| => Placed(site, entries[i]))
  }

  function AllEntries(sites: Sites, order: seq<Site>): seq<Placed>
    requires forall s | s in order :: s in sites
  {
    if order == [] then [] else AtSite(order[0], Entries(sites[order[0]])) + AllEntries(sites, order[1..])
  }

  /** The endpoints of a capture in the order of its tree. */
  function Listing(flows: seq<HttpFlow>): seq<Placed> {
    SiteOrderCovers(SitesOf(flows).Keys);
    AllEntries(SitesOf(flows), SiteOrder(SitesOf(flows).Keys))
  }

  function Places(listing: seq<Placed>): (r: seq<(Site, Address)>)
    ensures |r| == |listing|
    ensures forall i | 0 <= i < |r| :: r[i] == (listing[i].site, listing[i].entry.at)
  {
    seq(|listing|, i requires 0 <= i < |listing| => (listing[i].site, listing[i].entry.at))
  }

  lemma {:induction false} ListedSound(sites: Sites, order: seq<Site>, n: nat)
    requires (forall s | s in order :: s in sites) && n < |AllEntries(sites, order)|
    ensures var p := AllEntries(sites, order)[n];
            p.site in order && Lookup(sites, p.site, p.entry.at) == Some(p.entry.endpoint)
  {
    var here, rest := AtSite(order[0], Entries(sites[order[0]])), AllEntries(sites, order[1..]);
    assert AllEntries(sites, order) == here + rest;
    if n < |here| {
      EntrySound(sites[order[0]], n);
    } else {
      assert (here + rest)[n] == rest[n - |here|];
      ListedSound(sites, order[1..], n - |here|);
    }
  }

  lemma {:induction false} ListedComplete(sites: Sites, order: seq<Site>, site: Site, at: Address)
    requires (forall s | s in order :: s in sites) && site in order && Lookup(sites, site, at).Some?
    ensures Placed(site, Entry(at, Lookup(sites, site, at).value)) in AllEntries(sites, order)
  {
    if order[0] == site {
      var entries, e := Entries(sites[site]), Entry(at, Lookup(sites, site, at).value);
      EntryComplete(sites[site], at);
      var n :| 0 <= n < |entries| && entries[n] == e;
      assert AtSite(site, entries)[n] == Placed(site, e);
    } else {
      ListedComplete(sites, order[1..], site, at);
    }
  }

  lemma {:induction false} ListedDistinct(sites: Sites, order: seq<Site>)
    requires (forall s | s in order :: s in sites) && Distinct(order)
    ensures Distinct(Places(AllEntries(sites, order)))
  {
    if order != [] {
      var rest := order[1..];
      var entries := Entries(sites[order[0]]);
      var a, b := AtSite(order[0], entries), AllEntries(sites, rest);
      EntriesDistinct(sites[order[0]]);
      forall i, j | 0 <= i < j < |a| ensures Places(a)[i] != Places(a)[j] {
        assert Addresses(entries)[i] != Addresses(entries)[j];
      }
      ListedDistinct(sites, rest);
      forall j | 0 <= j < |b| ensures b[j].site != order[0] { ListedSound(sites, rest, j); }
      DistinctConcat(Places(a), Places(b));
      assert Places(a + b) == Places(a) + Places(b);
    }
  }

  /** Each endpoint of the tree is listed exactly once, with what it summarises. */
  lemma ListingIsExact(flows: seq<HttpFlow>)
    ensures Distinct(Places(Listing(flows)))
    ensures forall site, at :: (site, at) in Places(Listing(flows)) <==> exists f | f in flows :: GoesTo(f, site, at)
    ensures forall p | p in Listing(flows) :: Summarises(p.entry.endpoint, Members(flows, p.site, p.entry.at))
  {
    var sites, listing := SitesOf(flows), Listing(flows);
    SiteOrderCovers(sites.Keys);
    ListedDistinct(sites, SiteOrder(sites.Keys));
    forall site, at ensures (site, at) in Places(listing) <==> exists f | f in flows :: GoesTo(f, site, at) {
      ListedIff(flows, site, at);
    }
    forall p | p in listing ensures Summarises(p.entry.endpoint, Members(flows, p.site, p.entry.at)) {
      var n :| 0 <= n < |listing| && listing[n] == p;
      ListedSound(sites, SiteOrder(sites.Keys), n);
      EndpointIff(flows, p.site, p.entry.at);
    }
  }

  lemma ListedIff(flows: seq<HttpFlow>, site: Site, at: Address)
    ensures (site, at) in Places(Listing(flows)) <==> exists f | f in flows :: GoesTo(f, site, at)
  {
    var sites, listing := SitesOf(flows), Listing(flows);
    SiteOrderCovers(sites.Keys);
    EndpointIff(flows, site, at);
    if (site, at) in Places(listing) {
      var n :| 0 <= n < |listing| && Places(listing)[n] == (site, at);
      ListedSound(sites, SiteOrder(sites.Keys), n);
    }
    if Lookup(sites, site, at).Some? {
      ListedComplete(sites, SiteOrder(sites.Keys), site, at);
      var n :| 0 <= n < |listing| && listing[n] == Placed(site, Entry(at, Lookup(sites, site, at).value));
      assert Places(listing)[n] == (site, at);
    }
  }

  // ---- conservation ----

  function TotalCount(listing: seq<Placed>): nat {
    if listing == [] then 0 else listing[0].entry.endpoint.count + TotalCount(listing[1..])
  }

  function TotalMembers(flows: seq<HttpFlow>, places: seq<(Site, Address)>): nat {
    if places == [] then 0 else |Members(flows, places[0].0, places[0].1)| + TotalMembers(flows, places[1..])
  }

  lemma {:induction false} TotalsAgree(flows: seq<HttpFlow>, listing: seq<Placed>)
    requires forall p | p in listing :: Summarises(p.entry.endpoint, Members(flows, p.site, p.entry.at))
    ensures TotalCount(listing) == TotalMembers(flows, Places(listing))
  {
    if listing != [] {
      TotalsAgree(flows, listing[1..]);
      assert Places(listing)[1..] == Places(listing[1..]);
      assert listing[0] in listing;
    }
  }

  lemma {:induction false} NoFlowsNoMembers(places: seq<(Site, Address)>)
    ensures TotalMembers([], places) == 0
  {
    if places != [] { NoFlowsNoMembers(places[1..]); }
  }

  lemma FirstIsFresh<T>(s: seq<T>)
    requires Distinct(s) && s != []
    ensures s[0] !in s[1..] && Distinct(s[1..]) && forall x :: x in s <==> x == s[0] || x in s[1..]
  {
    assert s == [s[0]] + s[1..];
    forall j | 0 <= j < |s[1..]| ensures s[1..][j] != s[0] { assert s[1..][j] == s[j + 1]; }
  }

  /** One more flow adds one member in all, at its own place. */
  lemma {:induction false} OneMoreFlow(init: seq<HttpFlow>, last: HttpFlow, places: seq<(Site, Address)>)
    requires Distinct(places)
    ensures TotalMembers(init + [last], places)
         == TotalMembers(init, places) + (if (SiteOf(last), AddressOf(last)) in places then 1 else 0)
  {
    if places != [] {
      var rest := places[1..];
      OneMoreFlow(init, last, rest);
      assert (init + [last])[..|init|] == init;
      var here := (SiteOf(last), AddressOf(last));
      FirstIsFresh(places);
      assert GoesTo(last, places[0].0, places[0].1) <==> places[0] == here;
    }
  }

  lemma {:induction false} EveryFlowCounted(flows: seq<HttpFlow>, places: seq<(Site, Address)>)
    requires Distinct(places) && forall f | f in flows :: (SiteOf(f), AddressOf(f)) in places
    ensures TotalMembers(flows, places) == |flows|
  {
    if flows == [] {
      NoFlowsNoMembers(places);
    } else {
      var init, last := flows[..|flows| - 1], flows[|flows| - 1];
      assert flows == init + [last];
      EveryFlowCounted(init, places);
      OneMoreFlow(init, last, places);
    }
  }

  /** Main result: the counts of all endpoints of the tree sum to the number of flows. */
  lemma CountsSumToFlows(flows: seq<HttpFlow>)
    ensures TotalCount(Listing(flows)) == |flows|
  {
    ListingIsExact(flows);
    TotalsAgree(flows, Listing(flows));
    forall f | f in flows ensures (SiteOf(f), AddressOf(f)) in Places(Listing(flows)) {
      assert GoesTo(f, SiteOf(f), AddressOf(f));
    }
    EveryFlowCounted(flows, Places(Listing(flows)));
  }

  // ---- flattening ----

  function Join(parts: seq<string>, sep: string): string {
    if parts == [] then "" else if |parts| == 1 then parts[0] else parts[0] + sep + Join(parts[1..], sep)
  }

  /** One endpoint line of the flat listing; what follows holds of any line format. */
  function Line(node: Node): string {
    node.path + " (" + PrintNat(node.count) + ", " + Join(node.methods, "/") + ")"
  }

  function Lines(line: Node -> string, nodes: seq<Node>): (r: seq<string>)
    ensures |r| == |nodes|
    ensures forall i | 0 <= i < |r| :: r[i] == line(nodes[i])
  {
    seq(|nodes|, i requires 0 <= i < |nodes| => line(nodes[i]))
  }

  lemma LinesConcat(line: Node -> string, a: seq<Node>, b: seq<Node>)
    ensures Lines(line, a + b) == Lines(line, a) + Lines(line, b)
  {
  }

  method Walk(line: Node -> string, nodes: seq<Node>, lines0: seq<string>) returns (lines: seq<string>)
    ensures lines == lines0 + Lines(line, Leaves(nodes))
    decreases nodes
  {
    lines := lines0;
    assert nodes[0..] == nodes;
    for n := 0 to |nodes|
      invariant Walked(line, nodes, n, lines0, lines)
    {
      WalkStep(line, nodes, n, lines0, lines);
      if nodes[n].kind.Leaf? {
        assert Lines(line, [nodes[n]]) == [line(nodes[n])];
        lines := lines + [line(nodes[n])];
      } else {
        assert lines + Lines(line, []) == lines;
      }
      lines := Walk(line, nodes[n].children, lines);
    }
    assert nodes[|nodes|..] == [] && lines + [] == lines;
  }

  ghost predicate Walked(line: Node -> string, nodes: seq<Node>, n: nat, lines0: seq<string>, lines: seq<string>) {
    n <= |nodes| && lines + Lines(line, Leaves(nodes[n..])) == lines0 + Lines(line, Leaves(nodes))
  }

  /** A node's own contribution to the walk. */
  function OwnLeaf(node: Node): seq<Node> {
    if node.kind.Leaf? then [node] else []
  }

  lemma WalkStep(line: Node -> string, nodes: seq<Node>, n: nat, lines0: seq<string>, lines: seq<string>)
    requires n < |nodes| && Walked(line, nodes, n, lines0, lines)
    ensures var more := lines + Lines(line, OwnLeaf(nodes[n])) + Lines(line, Leaves(nodes[n].children));
            Walked(line, nodes, n + 1, lines0, more)
  {
    LeavesStep(nodes, n);
    LinesStep(line, lines, OwnLeaf(nodes[n]), Leaves(nodes[n].children), Leaves(nodes[n + 1..]));
  }

  lemma LeavesStep(nodes: seq<Node>, n: nat)
    requires n < |nodes|
    ensures Leaves(nodes[n..]) ==
            OwnLeaf(nodes[n]) + Leaves(nodes[n].children) + Leaves(nodes[n + 1..])
  {
    assert nodes[n..][0] == nodes[n] && nodes[n..][1..] == nodes[n + 1..];
  }

  lemma LinesStep(line: Node -> string, lines: seq<string>, own: seq<Node>, inner: seq<Node>, rest: seq<Node>)
    ensures lines + Lines(line, own + inner + rest) == lines + Lines(line, own) + Lines(line, inner) + Lines(line, rest)
  {
    LinesConcat(line, own + inner, rest);
    LinesConcat(line, own, inner);
    Regroup(lines, Lines(line, own + inner), Lines(line, rest));
    Regroup(lines, Lines(line, own), Lines(line, inner));
  }

  /** The lines of a host: those of its sites, in the order of the tree. */
  function HostLines(line: Node -> string, tree: seq<SitemapSite>, host: string): seq<string> {
    if tree == [] then []
    else
      var last := tree[|tree| - 1];
      HostLines(line, tree[..|tree| - 1], host)
      + (if last.site.1 == host then Lines(line, Leaves(last.children)) else [])
  }

  function HostsIn(tree: seq<SitemapSite>): set<string> {
    set s | s in tree :: s.site.1
  }

  datatype FlatHost = FlatHost(host: string, endpoints: seq<string>)

  function FlatHosts(line: Node -> string, tree: seq<SitemapSite>, hosts: seq<string>): (r: seq<FlatHost>)
    ensures |r| == |hosts|
    ensures forall i | 0 <= i < |r| :: r[i] == FlatHost(hosts[i], HostLines(line, tree, hosts[i]))
  {
    seq(|hosts|, i requires 0 <= i < |hosts| => FlatHost(hosts[i], HostLines(line, tree, hosts[i])))
  }

  /** `entry(host).or_default()`. */
  function LinesSoFar(hosts: map<string, seq<string>>, host: string): seq<string> {
    if host in hosts then hosts[host] else []
  }

  /** The listing with the source's own line format. */
  method FlattenToText(tree: seq<SitemapSite>) returns (flat: seq<FlatHost>)
    ensures flat == FlatHosts(Line, tree, SortedKeys(HostsIn(tree)))
  {
    flat := FlattenSitemapTree(Line, tree);
  }

  method FlattenSitemapTree(line: Node -> string, tree: seq<SitemapSite>) returns (flat: seq<FlatHost>)
    ensures flat == FlatHosts(line, tree, SortedKeys(HostsIn(tree)))
  {
    var hosts := GatherHosts(line, tree);
    flat := ListHosts(line, tree, hosts, SortedKeys(hosts.Keys));
  }

  method GatherHosts(line: Node -> string, tree: seq<SitemapSite>) returns (hosts: map<string, seq<string>>)
    ensures hosts.Keys == HostsIn(tree) && forall h | h in hosts :: hosts[h] == HostLines(line, tree, h)
  {
    hosts := map[];
    for n := 0 to |tree|
      invariant HostsGathered(line, tree, n, hosts)
    {
      var host := tree[n].site.1;
      var lines := Walk(line, tree[n].children, LinesSoFar(hosts, host));
      GatherStep(line, tree, n, hosts);
      hosts := hosts[host := lines];
    }
    GatheredAll(line, tree, hosts);
  }

  lemma GatheredAll(line: Node -> string, tree: seq<SitemapSite>, hosts: map<string, seq<string>>)
    requires HostsGathered(line, tree, |tree|, hosts)
    ensures hosts.Keys == HostsIn(tree) && forall h | h in hosts :: hosts[h] == HostLines(line, tree, h)
  {
    assert tree[..|tree|] == tree;
  }

  method ListHosts(ghost line: Node -> string, ghost tree: seq<SitemapSite>, hosts: map<string, seq<string>>,
                   order: seq<string>)
    returns (flat: seq<FlatHost>)
    requires Elements(order) == hosts.Keys && forall h | h in hosts :: hosts[h] == HostLines(line, tree, h)
    ensures flat == FlatHosts(line, tree, order)
  {
    flat := [];
    for n := 0 to |order|
      invariant |flat| == n && forall i | 0 <= i < n :: flat[i] == FlatHost(order[i], HostLines(line, tree, order[i]))
    {
      assert order[n] in Elements(order);
      flat := flat + [FlatHost(order[n], hosts[order[n]])];
    }
  }

  /** After n sites: the hosts seen so far, each with its lines. */
  ghost predicate HostsGathered(line: Node -> string, tree: seq<SitemapSite>, n: nat, hosts: map<string, seq<string>>) {
    && n <= |tree| && hosts.Keys == HostsIn(tree[..n])
    && (forall h | h in hosts :: hosts[h] == HostLines(line, tree[..n], h))
  }

  lemma {:induction false} UnseenHost(line: Node -> string, tree: seq<SitemapSite>, host: string)
    requires forall s | s in tree :: s.site.1 != host
    ensures HostLines(line, tree, host) == []
  {
    if tree != [] {
      var last := tree[|tree| - 1];
      assert last in tree;
      UnseenHost(line, tree[..|tree| - 1], host);
    }
  }

  lemma HostLinesStep(line: Node -> string, tree: seq<SitemapSite>, n: nat, host: string)
    requires n < |tree|
    ensures HostLines(line, tree[..n + 1], host) ==
            if tree[n].site.1 == host
            then HostLines(line, tree[..n], host) + Lines(line, Leaves(tree[n].children))
            else HostLines(line, tree[..n], host)
  {
    var after := tree[..n + 1];
    assert after[..|after| - 1] == tree[..n] && after[|after| - 1] == tree[n];
    assert HostLines(line, tree[..n], host) + [] == HostLines(line, tree[..n], host);
  }

  lemma HostsStep(tree: seq<SitemapSite>, n: nat)
    requires n < |tree|
    ensures HostsIn(tree[..n + 1]) == HostsIn(tree[..n]) + {tree[n].site.1}
  {
    assert tree[..n + 1] == tree[..n] + [tree[n]];
  }

  lemma GatherStep(line: Node -> string, tree: seq<SitemapSite>, n: nat, hosts: map<string, seq<string>>)
    requires n < |tree| && HostsGathered(line, tree, n, hosts)
    ensures var (host, own) := (tree[n].site.1, Lines(line, Leaves(tree[n].children)));
            HostsGathered(line, tree, n + 1, hosts[host := LinesSoFar(hosts, host) + own])
  {
    var (host, own) := (tree[n].site.1, Lines(line, Leaves(tree[n].children)));
    var hosts' := hosts[host := LinesSoFar(hosts, host) + own];
    HostsStep(tree, n);
    forall h | h in hosts' ensures hosts'[h] == HostLines(line, tree[..n + 1], h) {
      HostLinesStep(line, tree, n, h);
      if h == host && h !in hosts {
        forall s | s in tree[..n] ensures s.site.1 != h { assert s.site.1 in HostsIn(tree[..n]); }
        UnseenHost(line, tree[..n], h);
      }
    }
  }

  /** The listed endpoints of one host. */
  function OfHost(listing: seq<Placed>, host: string): seq<Placed> {
    if listing == [] then []
    else (if listing[0].site.1 == host then [listing[0]] else []) + OfHost(listing[1..], host)
  }

  function LineOf(line: Node -> string, p: Placed, notes: Annotations): string {
    line(NodeOf(p.entry, "", p.site, notes))
  }

  function LinesOf(line: Node -> string, listing: seq<Placed>, notes: Annotations): (r: seq<string>)
    ensures |r| == |listing|
    ensures forall i | 0 <= i < |r| :: r[i] == LineOf(line, listing[i], notes)
  {
    seq(|listing|, i requires 0 <= i < |listing| => LineOf(line, listing[i], notes))
  }

  lemma LinesOfConcat(line: Node -> string, a: seq<Placed>, b: seq<Placed>, notes: Annotations)
    ensures LinesOf(line, a + b, notes) == LinesOf(line, a, notes) + LinesOf(line, b, notes)
  {
  }

  lemma {:induction false} OfHostConcat(a: seq<Placed>, b: seq<Placed>, host: string)
    ensures OfHost(a + b, host) == OfHost(a, host) + OfHost(b, host)
  {
    if a == [] {
      assert a + b == b;
    } else {
      assert (a + b)[0] == a[0] && (a + b)[1..] == a[1..] + b;
      OfHostConcat(a[1..], b, host);
      Regroup(if a[0].site.1 == host then [a[0]] else [], OfHost(a[1..], host), OfHost(b, host));
    }
  }

  lemma {:induction false} OfHostAtSite(site: Site, entries: seq<Entry>, host: string)
    ensures OfHost(AtSite(site, entries), host) == if site.1 == host then AtSite(site, entries) else []
  {
    if entries != [] {
      assert AtSite(site, entries)[1..] == AtSite(site, entries[1..]);
      OfHostAtSite(site, entries[1..], host);
      assert [AtSite(site, entries)[0]] + AtSite(site, entries[1..]) == AtSite(site, entries);
    }
  }

  lemma {:induction false} AllEntriesAppend(sites: Sites, order: seq<Site>, site: Site)
    requires site in sites && forall s | s in order :: s in sites
    ensures AllEntries(sites, order + [site]) == AllEntries(sites, order) + AtSite(site, Entries(sites[site]))
  {
    if order == [] {
      assert order + [site] == [site] && [site][1..] == [];
    } else {
      assert (order + [site])[0] == order[0] && (order + [site])[1..] == order[1..] + [site];
      AllEntriesAppend(sites, order[1..], site);
      Regroup(AtSite(order[0], Entries(sites[order[0]])), AllEntries(sites, order[1..]),
              AtSite(site, Entries(sites[site])));
    }
  }

  lemma SiteLines(line: Node -> string, site: Site, d: Dir, notes: Annotations)
    ensures Lines(line, Leaves(Children(d, "", site, notes))) == LinesOf(line, AtSite(site, Entries(d)), notes)
  {
    LeavesAreEntries(d, "", site, notes);
  }

  /** What one more site adds to the lines of a host. */
  function SiteAdds(line: Node -> string, site: Site, d: Dir, notes: Annotations, host: string): seq<string> {
    if site.1 == host then LinesOf(line, AtSite(site, Entries(d)), notes) else []
  }

  lemma TreeLinesStep(line: Node -> string, sites: Sites, notes: Annotations, init: seq<Site>, last: Site, host: string)
    requires last in sites && forall s | s in init :: s in sites
    ensures HostLines(line, TreeSites(sites, notes, init + [last]), host)
         == HostLines(line, TreeSites(sites, notes, init), host) + SiteAdds(line, last, sites[last], notes, host)
  {
    var tree := TreeSites(sites, notes, init + [last]);
    assert tree[..|tree| - 1] == TreeSites(sites, notes, init);
    SiteLines(line, last, sites[last], notes);
  }

  lemma ListedLinesStep(
      line: Node -> string, sites: Sites, notes: Annotations, init: seq<Site>, last: Site, host: string)
    requires last in sites && forall s | s in init :: s in sites
    ensures LinesOf(line, OfHost(AllEntries(sites, init + [last]), host), notes)
         == LinesOf(line, OfHost(AllEntries(sites, init), host), notes)
            + SiteAdds(line, last, sites[last], notes, host)
  {
    var before, here := AllEntries(sites, init), AtSite(last, Entries(sites[last]));
    AllEntriesAppend(sites, init, last);
    OfHostConcat(before, here, host);
    OfHostAtSite(last, Entries(sites[last]), host);
    LinesOfConcat(line, OfHost(before, host), OfHost(here, host), notes);
  }

  ghost predicate HostListed(line: Node -> string, sites: Sites, notes: Annotations, order: seq<Site>, host: string)
    requires forall s | s in order :: s in sites
  {
    HostLines(line, TreeSites(sites, notes, order), host)
    == LinesOf(line, OfHost(AllEntries(sites, order), host), notes)
  }

  lemma HostListedStep(
      line: Node -> string, sites: Sites, notes: Annotations, init: seq<Site>, last: Site, host: string)
    requires last in sites && forall s | s in init :: s in sites
    requires HostListed(line, sites, notes, init, host)
    ensures HostListed(line, sites, notes, init + [last], host)
  {
    TreeLinesStep(line, sites, notes, init, last, host);
    ListedLinesStep(line, sites, notes, init, last, host);
  }

  lemma {:induction false} HostLinesAreListed(line: Node -> string, sites: Sites, notes: Annotations,
                                              order: seq<Site>, host: string)
    requires forall s | s in order :: s in sites
    ensures HostListed(line, sites, notes, order, host)
  {
    if order != [] {
      var init, last := order[..|order| - 1], order[|order| - 1];
      HostLinesAreListed(line, sites, notes, init, host);
      HostListedStep(line, sites, notes, init, last, host);
      assert order == init + [last];
    }
  }

  /** Main result: the flat listing of a host has exactly one line for each endpoint of the
      tree under that host, with the endpoint's path, count and methods. */
  lemma FlatListsEachEndpointOnce(line: Node -> string, flows: seq<HttpFlow>, notes: Annotations, host: string)
    ensures HostLines(line, Tree(flows, notes), host) == LinesOf(line, OfHost(Listing(flows), host), notes)
    ensures forall p | p in Listing(flows) :: CleanAddress(p.entry.at)
                && NodeOf(p.entry, "", p.site, notes).path == PathText(p.entry.at)
                && AddressOfPath(PathText(p.entry.at)) == p.entry.at
  {
    SiteOrderCovers(SitesOf(flows).Keys);
    HostLinesAreListed(line, SitesOf(flows), notes, SiteOrder(SitesOf(flows).Keys), host);
    forall p | p in Listing(flows)
      ensures CleanAddress(p.entry.at) && NodeOf(p.entry, "", p.site, notes).path == PathText(p.entry.at)
      ensures AddressOfPath(PathText(p.entry.at)) == p.entry.at
    {
      ListedPath(flows, p, notes);
    }
  }

  lemma ListedPath(flows: seq<HttpFlow>, p: Placed, notes: Annotations)
    requires p in Listing(flows)
    ensures CleanAddress(p.entry.at) && NodeOf(p.entry, "", p.site, notes).path == PathText(p.entry.at)
    ensures AddressOfPath(PathText(p.entry.at)) == p.entry.at
  {
    var n :| 0 <= n < |Listing(flows)| && Listing(flows)[n] == p;
    assert Places(Listing(flows))[n] == (p.site, p.entry.at);
    ListedIff(flows, p.site, p.entry.at);
    var f :| f in flows && GoesTo(f, p.site, p.entry.at);
    AddressIsClean(Before(f.path, '?'));
    PathReadsBack(p.entry.at);
  }
}
