/** Where a flow goes in the site map, told from the text of its path and URL alone. */
module SiteRouting {
  import opened Text
  import opened Domain
  import opened SiteMap
  import opened SiteTree

  /** A query, with its question mark, or nothing. */
  predicate IsQuery(s: string) {
    s == "" || s[0] == '?'
  }

  lemma QueryCut(path: string, query: string)
    requires '?' !in path && IsQuery(query)
    ensures Before(path + query, '?') == path
  {
    var s := path + query;
    assert s[..|path|] == path;
    BeforeIs(s, '?', |path|);
  }

  /** Two flows of one site that differ behind a question mark only go to one endpoint. */
  lemma QueryIsIgnored(f: HttpFlow, g: HttpFlow, path: string, query: string, site: Site, at: Address)
    requires '?' !in path && IsQuery(query) && f.path == path && g.path == path + query
    requires f.host == g.host && f.fullUrl == g.fullUrl
    ensures GoesTo(f, site, at) <==> GoesTo(g, site, at)
  {
    QueryCut(path, query);
    QueryCut(path, "");
    assert path + "" == path;
  }

  // ---- the names of an address ----

  /** Every name on the way, and nothing else, behind a slash of its own. */
  function Slashed(names: seq<string>): string {
    if names == [] then "" else "/" + names[0] + Slashed(names[1..])
  }

  lemma {:induction false} SlashedIsDirText(prefix: string, names: seq<string>)
    ensures prefix + Slashed(names) == DirText(prefix, names)
    decreases |names|
  {
    if names == [] {
      assert prefix + "" == prefix;
    } else {
      SlashedIsDirText(prefix + "/" + names[0], names[1..]);
      Regroup(prefix, "/" + names[0], Slashed(names[1..]));
      Regroup(prefix, "/", names[0]);
    }
  }

  lemma SlashedReadsBack(names: seq<string>)
    requires names != [] && forall i | 0 <= i < |names| :: Segment(names[i])
    ensures AddressOfPath(Slashed(names)) == names
  {
    SlashedIsDirText("", names);
    assert "" + Slashed(names) == Slashed(names);
    DirTextSegments("", names);
    assert NonEmpty(SplitOn("", '/')) == [] && [] + names == names;
  }

  lemma {:induction false} SlashedHasNoQuery(names: seq<string>)
    requires forall i | 0 <= i < |names| :: '?' !in names[i]
    ensures '?' !in Slashed(names)
  {
    if names != [] { SlashedHasNoQuery(names[1..]); }
  }

  /** Main result: a flow whose path is these names, each behind a slash, with or without a
      query, goes to exactly these names. */
  lemma GoesWhereItSays(f: HttpFlow, names: seq<string>, query: string)
    requires names != [] && IsQuery(query) && f.path == Slashed(names) + query
    requires forall i | 0 <= i < |names| :: Segment(names[i]) && '?' !in names[i]
    ensures GoesTo(f, SiteOf(f), names)
  {
    SlashedHasNoQuery(names);
    QueryCut(Slashed(names), query);
    SlashedReadsBack(names);
  }

  /** A path of slashes alone, or none, goes to the root of its site. */
  lemma RootGoesToSlash(f: HttpFlow, slashes: string, query: string)
    requires (forall c | c in slashes :: c == '/') && IsQuery(query) && f.path == slashes + query
    ensures GoesTo(f, SiteOf(f), ["/"])
  {
    QueryCut(slashes, query);
    OnlySlashes(slashes);
  }

  lemma {:induction false} OnlySlashes(s: string)
    requires forall c | c in s :: c == '/'
    ensures NonEmpty(SplitOn(s, '/')) == []
  {
    if s != "" {
      assert s[0] in s && forall c | c in s[1..] :: c in s;
      OnlySlashes(s[1..]);
      assert ([[]] + SplitOn(s[1..], '/'))[1..] == SplitOn(s[1..], '/');
    }
  }

  /** Repeated and trailing slashes make no difference. */
  lemma ExtraSlashIgnored(f: HttpFlow, g: HttpFlow, before: string, after: string, site: Site, at: Address)
    requires '?' !in before && f.path == before + "/" + after && g.path == before + "//" + after
    requires f.host == g.host && f.fullUrl == g.fullUrl
    ensures GoesTo(f, site, at) <==> GoesTo(g, site, at)
  {
    var rest := Before(after, '?');
    BeforeOf(before + "/", after);
    BeforeOf(before + "//", after);
    Regroup(before, "/", after);
    Regroup(before, "/", rest);
    Regroup(before, "//", after);
    Regroup(before, "//", rest);
    ExtraSlashSegments(before, rest);
  }

  lemma ExtraSlashSegments(before: string, rest: string)
    ensures NonEmpty(SplitOn(before + "//" + rest, '/')) == NonEmpty(SplitOn(before + "/" + rest, '/'))
  {
    var tail := "/" + rest;
    assert before + "/" + rest == before + ['/'] + rest;
    assert before + "//" + rest == before + ['/'] + tail;
    SplitConcat(before, '/', rest);
    SplitConcat(before, '/', tail);
    assert tail[0] == '/' && tail[1..] == rest;
    NonEmptyConcat(SplitOn(before, '/'), SplitOn(rest, '/'));
    NonEmptyConcat(SplitOn(before, '/'), [[]] + SplitOn(rest, '/'));
    assert ([[]] + SplitOn(rest, '/'))[1..] == SplitOn(rest, '/');
  }

  lemma BeforeOf(a: string, b: string)
    requires '?' !in a
    ensures Before(a + b, '?') == a + Before(b, '?')
  {
    var front := Before(b, '?');
    assert (a + b)[..|a| + |front|] == a + front;
    BeforeIs(a + b, '?', |a| + |front|);
  }

  /** No listed name holds a slash, but for the root, or a question mark. */
  lemma ListedNamesAreClean(flows: seq<HttpFlow>, p: Placed)
    requires p in Listing(flows)
    ensures p.entry.at == ["/"] || forall i | 0 <= i < |p.entry.at| :: Segment(p.entry.at[i])
    ensures forall i | 0 <= i < |p.entry.at| :: '?' !in p.entry.at[i]
  {
    ListingIsExact(flows);
    var n :| 0 <= n < |Listing(flows)| && Listing(flows)[n] == p;
    assert Places(Listing(flows))[n] == (p.site, p.entry.at);
    var f :| f in flows && GoesTo(f, p.site, p.entry.at);
    NamesAreClean(f);
  }

  lemma NamesAreClean(f: HttpFlow)
    ensures var at := AddressOf(f);
            && (at == ["/"] || forall i | 0 <= i < |at| :: Segment(at[i]))
            && forall i | 0 <= i < |at| :: '?' !in at[i]
  {
    var path := Before(f.path, '?');
    AddressIsClean(path);
    PiecesAreFree(path, '?');
    KeptAreFree(SplitOn(path, '/'), '?');
    assert '?' !in "/";
    forall i | 0 <= i < |AddressOf(f)| ensures '?' !in AddressOf(f)[i] { assert AddressOf(f)[i] in AddressOf(f); }
  }

  lemma {:induction false} PiecesAreFree(s: string, c: char)
    requires c !in s && c != '/'
    ensures forall i | 0 <= i < |SplitOn(s, '/')| :: c !in SplitOn(s, '/')[i]
  {
    if s != "" { PiecesAreFree(s[1..], c); }
  }

  lemma {:induction false} KeptAreFree(pieces: seq<string>, c: char)
    requires forall i | 0 <= i < |pieces| :: c !in pieces[i]
    ensures forall x | x in NonEmpty(pieces) :: c !in x
  {
    if pieces != [] { KeptAreFree(pieces[1..], c); }
  }

  // ---- the site and the content type ----

  /** The scheme is what the URL has in front of "://", and https without one; the host is
      the flow's. */
  lemma SiteIsSchemeAndHost(f: HttpFlow, scheme: string, rest: string)
    ensures f.fullUrl == scheme + "://" + rest && ':' !in scheme ==> SiteOf(f) == (scheme, f.host)
    ensures !Contains(f.fullUrl, "://") ==> SiteOf(f) == ("https", f.host)
  {
    FindMeans(f.fullUrl, "://");
    if f.fullUrl == scheme + "://" + rest && ':' !in scheme {
      var s := f.fullUrl;
      assert s[|scheme|..|scheme| + 3] == "://";
      assert MatchesAt(s, |scheme|, "://");
      forall i | 0 <= i < |scheme| ensures !MatchesAt(s, i, "://") {
        assert s[i] == scheme[i] && scheme[i] in scheme;
        MatchStartsWithColon(s, i);
      }
      assert s[..|scheme|] == scheme;
    }
  }

  lemma MatchStartsWithColon(s: string, i: nat)
    requires i < |s|
    ensures MatchesAt(s, i, "://") ==> s[i] == ':'
  {
    if MatchesAt(s, i, "://") { assert s[i..i + 3][0] == s[i]; }
  }

  /** Parameters and the space around a content type do not matter. */
  lemma ContentTypeIsCut(kind: string, parameters: string)
    requires ';' !in kind
    ensures ShortContentType(kind + ";" + parameters) == AsciiLower(Trim(kind))
    ensures ShortContentType(kind) == AsciiLower(Trim(kind))
  {
    BeforeDelimiter(kind, ';', parameters);
    assert kind + ";" + parameters == kind + [';'] + parameters;
    assert kind[..|kind|] == kind;
    BeforeIs(kind, ';', |kind|);
  }

  const UPPER := "ABCDEFGHIJKLMNOPQRSTUVWXYZ"
  const LOWER := "abcdefghijklmnopqrstuvwxyz"

  lemma Letters(n: nat)
    requires n < 26
    ensures UPPER[n] as int == 'A' as int + n && LOWER[n] as int == 'a' as int + n
  {
  }

  /** Lowering replaces the 26 capitals by their small letters and keeps everything else. */
  lemma LowerMeaning(s: string, i: nat)
    requires i < |s|
    ensures s[i] !in UPPER ==> AsciiLower(s)[i] == s[i]
    ensures forall n | 0 <= n < 26 && s[i] == UPPER[n] :: AsciiLower(s)[i] == LOWER[n]
  {
    var c := s[i];
    if 'A' <= c <= 'Z' {
      Letters(c as int - 'A' as int);
      assert UPPER[c as int - 'A' as int] == c;
    }
    forall n | 0 <= n < 26 && c == UPPER[n] ensures AsciiLower(s)[i] == LOWER[n] { Letters(n); }
  }
}
