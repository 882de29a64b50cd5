/** The shape of the site map tree, said on its nodes alone: names, paths and order, what a
    directory is, where annotations hang, and how a line of the flat listing is written. */
module SiteShape {
  import opened Text
  import opened Domain
  import opened SiteMap
  import opened SiteTree

  // ---- no directory is empty ----

  predicate Bare(d: Dir) {
    d.dirs == map[] && d.endpoints == map[]
  }

  /** Every directory below leads somewhere. */
  ghost predicate Populated(d: Dir) {
    forall k | k in d.dirs :: !Bare(d.dirs[k]) && Populated(d.dirs[k])
  }

  lemma {:induction false} InsertPopulates(d: Dir, at: Address, flow: HttpFlow)
    requires at != [] && Populated(d)
    ensures Populated(Insert(d, at, flow)) && !Bare(Insert(d, at, flow))
    decreases |at|
  {
    var after := Insert(d, at, flow);
    if |at| == 1 {
      assert at[0] in after.endpoints;
    } else {
      var sub := if at[0] in d.dirs then d.dirs[at[0]] else EMPTY_DIR;
      InsertPopulates(sub, at[1..], flow);
      assert at[0] in after.dirs;
    }
  }

  lemma {:induction false} SitesPopulated(flows: seq<HttpFlow>)
    ensures forall s | s in SitesOf(flows) :: Populated(SitesOf(flows)[s]) && !Bare(SitesOf(flows)[s])
  {
    if flows != [] {
      var init, flow := flows[..|flows| - 1], flows[|flows| - 1];
      SitesPopulated(init);
      var root := if SiteOf(flow) in SitesOf(init) then SitesOf(init)[SiteOf(flow)] else EMPTY_DIR;
      InsertPopulates(root, AddressOf(flow), flow);
    }
  }

  // ---- the nodes ----

  function NoteAt(notes: Annotations, site: Site, path: string): Option<Annotation> {
    var key := site.0 + ("://" + (site.1 + path));
    if key in notes then Some(notes[key]) else None
  }

  /** Directories before endpoints, and each in name order, every name once. */
  ghost predicate InNameOrder(nodes: seq<Node>) {
    forall i, j | 0 <= i < j < |nodes| ::
      && (nodes[j].kind.Directory? ==> nodes[i].kind.Directory?)
      && (nodes[i].kind == nodes[j].kind ==> StrLe(nodes[i].name, nodes[j].name) && nodes[i].name != nodes[j].name)
  }

  /** A directory has the path of its parent and its name, leads somewhere, and carries nothing
      else; an endpoint has its path likewise, except the root's, no children, and the note
      filed under scheme, host and path. */
  ghost predicate Shaped(node: Node, prefix: string, site: Site, notes: Annotations)
    decreases node
  {
    if node.kind.Directory? then
      && node.path == prefix + "/" + node.name && node.children != [] && InNameOrder(node.children)
      && (forall i | 0 <= i < |node.children| :: Shaped(node.children[i], node.path, site, notes))
      && node.methods == [] && node.statuses == [] && node.count == 0 && node.contentTypes == []
      && node.lastSeen == None && node.sampleFlowId == None && !node.hasParams && node.annotation == None
    else
      && node.path == (if node.name == "/" then "/" else prefix + "/" + node.name) && node.children == []
      && node.annotation == NoteAt(notes, site, node.path)
  }

  lemma {:induction false} DirNodesAt(d: Dir, prefix: string, site: Site, notes: Annotations, names: seq<string>)
    requires forall k | k in names :: k in d.dirs
    ensures var r := DirNodes(d, prefix, site, notes, names);
            |r| == |names| && forall i | 0 <= i < |r| ::
              names[i] in d.dirs &&
              r[i] == DirNode(names[i], prefix, Children(d.dirs[names[i]], prefix + "/" + names[i], site, notes))
  {
    if names != [] {
      DirNodesAt(d, prefix, site, notes, names[1..]);
      forall i | 0 <= i < |names| ensures names[i] in d.dirs { assert names[i] in names; }
    }
  }

  lemma {:induction false} LeafNodesAt(d: Dir, prefix: string, site: Site, notes: Annotations, names: seq<string>)
    requires forall k | k in names :: k in d.endpoints
    ensures var r := LeafNodes(d, prefix, site, notes, names);
            |r| == |names| && forall i | 0 <= i < |r| ::
              names[i] in d.endpoints && r[i] == LeafNode(names[i], d.endpoints[names[i]], prefix, site, notes)
  {
    if names != [] {
      LeafNodesAt(d, prefix, site, notes, names[1..]);
      forall i | 0 <= i < |names| ensures names[i] in d.endpoints { assert names[i] in names; }
    }
  }

  lemma LeafShaped(name: string, e: Endpoint, prefix: string, site: Site, notes: Annotations)
    ensures Shaped(LeafNode(name, e, prefix, site, notes), prefix, site, notes)
  {
    var path := if name == "/" then "/" else prefix + "/" + name;
    assert site.0 + "://" + site.1 + path == site.0 + ("://" + (site.1 + path));
  }

  /** An endpoint node tells what is known of the endpoint, sets as ascending lists. */
  lemma LeafTells(name: string, e: Endpoint, prefix: string, site: Site, notes: Annotations)
    ensures var n := LeafNode(name, e, prefix, site, notes);
            && n.name == name && n.count == e.count && n.hasParams == e.hasParams
            && n.lastSeen == e.lastSeen && n.sampleFlowId == e.sampleFlowId
            && Elements(n.methods) == e.methods && Sorted(n.methods) && Distinct(n.methods)
            && Elements(n.contentTypes) == e.contentTypes && Sorted(n.contentTypes) && Distinct(n.contentTypes)
            && Elements(n.statuses) == e.statuses
            && forall i, j | 0 <= i < j < |n.statuses| :: n.statuses[i] < n.statuses[j]
  {
    SortedKeysAreSorted(e.methods);
    SortedKeysAreSorted(e.contentTypes);
  }

  ghost predicate NamesAscend(names: seq<string>) {
    forall i, j | 0 <= i < j < |names| :: StrLe(names[i], names[j]) && names[i] != names[j]
  }

  ghost predicate Named(nodes: seq<Node>, kind: Kind, names: seq<string>) {
    |nodes| == |names| && forall i | 0 <= i < |nodes| :: nodes[i].kind == kind && nodes[i].name == names[i]
  }

  lemma JoinedInOrder(dirs: seq<Node>, leaves: seq<Node>, dirNames: seq<string>, leafNames: seq<string>)
    requires Named(dirs, Directory, dirNames) && Named(leaves, Leaf, leafNames)
    requires NamesAscend(dirNames) && NamesAscend(leafNames)
    ensures InNameOrder(dirs + leaves)
  {
    var nodes := dirs + leaves;
    forall i, j | 0 <= i < j < |nodes|
      ensures nodes[j].kind.Directory? ==> nodes[i].kind.Directory?
      ensures nodes[i].kind == nodes[j].kind ==> StrLe(nodes[i].name, nodes[j].name) && nodes[i].name != nodes[j].name
    {
      assert i < |dirs| ==> nodes[i] == dirs[i];
      assert j < |dirs| ==> nodes[j] == dirs[j];
      assert i >= |dirs| ==> nodes[i] == leaves[i - |dirs|];
      assert j >= |dirs| ==> nodes[j] == leaves[j - |dirs|];
    }
  }

  lemma ChildrenInOrder(d: Dir, prefix: string, site: Site, notes: Annotations)
    ensures InNameOrder(Children(d, prefix, site, notes))
  {
    var dirNames, leafNames := SortedKeys(d.dirs.Keys), SortedKeys(d.endpoints.Keys);
    SortedKeysCover(d.dirs.Keys);
    SortedKeysCover(d.endpoints.Keys);
    SortedKeysAreSorted(d.dirs.Keys);
    SortedKeysAreSorted(d.endpoints.Keys);
    DirNodesAt(d, prefix, site, notes, dirNames);
    LeafNodesAt(d, prefix, site, notes, leafNames);
    JoinedInOrder(DirNodes(d, prefix, site, notes, dirNames), LeafNodes(d, prefix, site, notes, leafNames),
                  dirNames, leafNames);
  }

  ghost predicate AllShaped(nodes: seq<Node>, prefix: string, site: Site, notes: Annotations) {
    forall i | 0 <= i < |nodes| :: Shaped(nodes[i], prefix, site, notes)
  }

  lemma {:induction false} DirsShaped(d: Dir, prefix: string, site: Site, notes: Annotations)
    requires Populated(d)
    ensures forall k | k in SortedKeys(d.dirs.Keys) :: k in d.dirs
    ensures AllShaped(DirNodes(d, prefix, site, notes, SortedKeys(d.dirs.Keys)), prefix, site, notes)
    decreases d, 1
  {
    var names := SortedKeys(d.dirs.Keys);
    SortedKeysCover(d.dirs.Keys);
    DirNodesAt(d, prefix, site, notes, names);
    forall i | 0 <= i < |names| ensures Shaped(DirNodes(d, prefix, site, notes, names)[i], prefix, site, notes) {
      DirShaped(d, prefix, site, notes, names[i]);
    }
  }

  lemma LeavesShaped(d: Dir, prefix: string, site: Site, notes: Annotations)
    ensures forall k | k in SortedKeys(d.endpoints.Keys) :: k in d.endpoints
    ensures AllShaped(LeafNodes(d, prefix, site, notes, SortedKeys(d.endpoints.Keys)), prefix, site, notes)
  {
    var names := SortedKeys(d.endpoints.Keys);
    SortedKeysCover(d.endpoints.Keys);
    LeafNodesAt(d, prefix, site, notes, names);
    forall i | 0 <= i < |names| ensures Shaped(LeafNodes(d, prefix, site, notes, names)[i], prefix, site, notes) {
      LeafShaped(names[i], d.endpoints[names[i]], prefix, site, notes);
    }
  }

  lemma {:induction false} ChildrenShaped(d: Dir, prefix: string, site: Site, notes: Annotations)
    requires Populated(d)
    ensures AllShaped(Children(d, prefix, site, notes), prefix, site, notes)
    decreases d, 2
  {
    DirsShaped(d, prefix, site, notes);
    LeavesShaped(d, prefix, site, notes);
  }

  lemma SomeChild(d: Dir, prefix: string, site: Site, notes: Annotations)
    requires !Bare(d)
    ensures Children(d, prefix, site, notes) != []
  {
    SortedKeysCover(d.dirs.Keys);
    SortedKeysCover(d.endpoints.Keys);
    DirNodesAt(d, prefix, site, notes, SortedKeys(d.dirs.Keys));
    LeafNodesAt(d, prefix, site, notes, SortedKeys(d.endpoints.Keys));
    SomeName(d);
  }

  lemma {:induction false} DirShaped(d: Dir, prefix: string, site: Site, notes: Annotations, name: string)
    requires Populated(d) && name in d.dirs
    ensures Shaped(DirNode(name, prefix, Children(d.dirs[name], prefix + "/" + name, site, notes)), prefix, site, notes)
    decreases d, 0
  {
    ChildrenShaped(d.dirs[name], prefix + "/" + name, site, notes);
    SomeChild(d.dirs[name], prefix + "/" + name, site, notes);
    ChildrenInOrder(d.dirs[name], prefix + "/" + name, site, notes);
  }

  lemma SomeName(d: Dir)
    requires !Bare(d)
    ensures SortedKeys(d.dirs.Keys) != [] || SortedKeys(d.endpoints.Keys) != []
  {
    SortedKeysCover(d.dirs.Keys);
    SortedKeysCover(d.endpoints.Keys);
    if d.dirs != map[] {
      var k :| k in d.dirs;
      assert k in SortedKeys(d.dirs.Keys);
    } else {
      var k :| k in d.endpoints;
      assert k in SortedKeys(d.endpoints.Keys);
    }
  }

  // ---- the sites ----

  /** By scheme, and under one scheme by host; no pair twice. */
  ghost predicate SitesInOrder(order: seq<Site>) {
    forall i, j | 0 <= i < j < |order| ::
      order[i] != order[j] && StrLe(order[i].0, order[j].0)
      && (order[i].0 == order[j].0 ==> StrLe(order[i].1, order[j].1))
  }

  lemma {:induction false} SitesUnderInOrder(sites: set<Site>, schemes: seq<string>)
    requires Distinct(schemes) && Sorted(schemes)
    ensures SitesInOrder(SitesUnder(sites, schemes))
  {
    if schemes != [] {
      var rest, hosts := schemes[1..], SortedKeys(HostsOf(sites, schemes[0]));
      SitesUnderInOrder(sites, rest);
      SitesUnderCover(sites, rest);
      SortedKeysAreSorted(HostsOf(sites, schemes[0]));
      var a, b := WithScheme(schemes[0], hosts), SitesUnder(sites, rest);
      StrLeTotal(schemes[0], schemes[0]);
      forall j | 0 <= j < |b| ensures StrLe(schemes[0], b[j].0) && b[j].0 != schemes[0] {
        assert b[j] in b;
        var k :| 0 <= k < |rest| && rest[k] == b[j].0;
        assert schemes[k + 1] == rest[k];
      }
    }
  }

  /** A site of the tree: not without nodes, these in order, and each of the shape above. */
  ghost predicate SiteShaped(s: SitemapSite, notes: Annotations) {
    s.children != [] && InNameOrder(s.children) && AllShaped(s.children, "", s.site, notes)
  }

  ghost predicate ListsSite(tree: seq<SitemapSite>, s: Site) {
    exists n | 0 <= n < |tree| :: tree[n].site == s
  }

  function SitesListed(tree: seq<SitemapSite>): (r: seq<Site>)
    ensures |r| == |tree| && forall n | 0 <= n < |r| :: r[n] == tree[n].site
  {
    seq(|tree|, n requires 0 <= n < |tree| => tree[n].site)
  }

  /** Main result: the tree lists the sites of the capture by scheme and host, each once, and
      below each of them every node has the shape above. */
  lemma TreeShape(flows: seq<HttpFlow>, notes: Annotations)
    ensures forall s :: ListsSite(Tree(flows, notes), s) <==> s in SitesOf(flows)
    ensures SitesInOrder(SitesListed(Tree(flows, notes)))
    ensures forall n | 0 <= n < |Tree(flows, notes)| :: SiteShaped(Tree(flows, notes)[n], notes)
  {
    var sites, tree := SitesOf(flows), Tree(flows, notes);
    var order := SiteOrder(sites.Keys);
    SiteOrderCovers(sites.Keys);
    SortedKeysAreSorted(SchemesOf(sites.Keys));
    SitesUnderInOrder(sites.Keys, SortedKeys(SchemesOf(sites.Keys)));
    assert SitesListed(tree) == order;
    forall s ensures ListsSite(tree, s) <==> s in sites {
      if s in sites {
        var n :| 0 <= n < |order| && order[n] == s;
        assert tree[n].site == s;
      }
    }
    forall n | 0 <= n < |tree| ensures SiteShaped(tree[n], notes) {
      assert order[n] in sites;
      SiteIsShaped(flows, order[n], notes);
    }
  }

  lemma SiteIsShaped(flows: seq<HttpFlow>, s: Site, notes: Annotations)
    requires s in SitesOf(flows)
    ensures SiteShaped(SitemapSite(s, Children(SitesOf(flows)[s], "", s, notes)), notes)
  {
    SitesPopulated(flows);
    ChildrenShaped(SitesOf(flows)[s], "", s, notes);
    SomeChild(SitesOf(flows)[s], "", s, notes);
    ChildrenInOrder(SitesOf(flows)[s], "", s, notes);
  }

  // ---- the flat listing ----

  /** Joined texts split again at the separator. */
  lemma {:induction false} JoinSplits(parts: seq<string>, sep: char)
    requires parts != [] && forall i | 0 <= i < |parts| :: sep !in parts[i]
    ensures SplitOn(SiteTree.Join(parts, [sep]), sep) == parts
  {
    if |parts| == 1 {
      SplitWithout(parts[0], sep);
    } else {
      JoinSplits(parts[1..], sep);
      SplitWithout(parts[0], sep);
      SplitConcat(parts[0], sep, SiteTree.Join(parts[1..], [sep]));
      assert [parts[0]] + parts[1..] == parts;
    }
  }

  /** A line is the path, and in parentheses the count and the methods between slashes. */
  lemma LineReads(node: Node)
    requires forall i | 0 <= i < |node.methods| :: '/' !in node.methods[i]
    ensures exists methods :: (if node.methods == [] then methods == "" else SplitOn(methods, '/') == node.methods)
              && Line(node) == node.path + (" (" + (PrintNat(node.count) + (", " + (methods + ")"))))
  {
    var methods := SiteTree.Join(node.methods, "/");
    if node.methods != [] { JoinSplits(node.methods, '/'); }
    assert Line(node) == node.path + (" (" + (PrintNat(node.count) + (", " + (methods + ")"))));
  }

  ghost predicate ListsHost(flat: seq<FlatHost>, host: string) {
    exists n | 0 <= n < |flat| :: flat[n].host == host
  }

  /** The flat listing names each host of the tree once, in order. */
  lemma HostsInOrder(line: Node -> string, tree: seq<SitemapSite>)
    ensures var flat := FlatHosts(line, tree, SortedKeys(HostsIn(tree)));
            && (forall h :: ListsHost(flat, h) <==> h in HostsIn(tree))
            && forall i, j | 0 <= i < j < |flat| :: StrLe(flat[i].host, flat[j].host) && flat[i].host != flat[j].host
  {
    var hosts := SortedKeys(HostsIn(tree));
    var flat := FlatHosts(line, tree, hosts);
    SortedKeysCover(HostsIn(tree));
    SortedKeysAreSorted(HostsIn(tree));
    forall h ensures ListsHost(flat, h) <==> h in HostsIn(tree) {
      if h in hosts {
        var n :| 0 <= n < |hosts| && hosts[n] == h;
        assert flat[n].host == h;
      }
      if n :| 0 <= n < |flat| && flat[n].host == h { assert hosts[n] in hosts; }
    }
  }
}
