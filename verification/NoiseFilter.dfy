/** Noise filtering and de-duplication before flow analysis (`filter_for_analysis`).
    The noise patterns are regular expressions outside this model: they come in as a
    predicate on (host, path). */
module NoiseFilter {
  import opened Text
  import opened Domain

  type NoisePatterns = (string, string) -> bool

  predicate IsNoise(noise: NoisePatterns, flow: HttpFlow) {
    noise(flow.host, flow.path)
  }

  /** `method:path` without the query string. */
  function Key(flow: HttpFlow): string {
    flow.httpMethod + ":" + Before(flow.path, '?')
  }

  /** Flow i survives: it is not noise and no earlier survivor has its key. */
  predicate Survives(noise: NoisePatterns, flows: seq<HttpFlow>, i: nat)
    requires i < |flows|
  {
    !IsNoise(noise, flows[i])
    && forall j | 0 <= j < i && !IsNoise(noise, flows[j]) :: Key(flows[j]) != Key(flows[i])
  }

  function Survivors(noise: NoisePatterns, flows: seq<HttpFlow>): seq<HttpFlow> {
    SurvivorsUpTo(noise, flows, |flows|)
  }

  function SurvivorsUpTo(noise: NoisePatterns, flows: seq<HttpFlow>, n: nat): seq<HttpFlow>
    requires n <= |flows|
  {
    if n == 0 then []
    else SurvivorsUpTo(noise, flows, n - 1) + (if Survives(noise, flows, n - 1) then [flows[n - 1]] else [])
  }

  /** Non-noise flows with this key. */
  function Occurrences(noise: NoisePatterns, flows: seq<HttpFlow>, key: string): nat {
    if flows == [] then 0
    else Occurrences(noise, flows[..|flows| - 1], key)
         + (if !IsNoise(noise, flows[|flows| - 1]) && Key(flows[|flows| - 1]) == key then 1 else 0)
  }

  function Kept(noise: NoisePatterns, flows: seq<HttpFlow>): nat {
    if flows == [] then 0
    else Kept(noise, flows[..|flows| - 1]) + (if IsNoise(noise, flows[|flows| - 1]) then 0 else 1)
  }

  function Keys(flows: seq<HttpFlow>): (r: seq<string>)
    ensures |r| == |flows| && forall i | 0 <= i < |flows| :: r[i] == Key(flows[i])
  {
    seq(|flows|, i requires 0 <= i < |flows| => Key(flows[i]))
  }

  // ---- the survivors ----

  /** Some non-noise flow among the first n has this key. */
  ghost predicate Seen(noise: NoisePatterns, flows: seq<HttpFlow>, n: nat, key: string)
    requires n <= |flows|
  {
    exists j | 0 <= j < n :: Carries(noise, flows, j, key)
  }

  predicate Carries(noise: NoisePatterns, flows: seq<HttpFlow>, j: nat, key: string)
    requires j < |flows|
  {
    !IsNoise(noise, flows[j]) && Key(flows[j]) == key
  }

  lemma SurvivesIff(noise: NoisePatterns, flows: seq<HttpFlow>, i: nat)
    requires i < |flows|
    ensures Survives(noise, flows, i) <==>
            !noise(flows[i].host, flows[i].path) && !Seen(noise, flows, i, Key(flows[i]))
  {
    if Survives(noise, flows, i) {
      forall j | 0 <= j < i ensures !Carries(noise, flows, j, Key(flows[i])) {}
    } else if !IsNoise(noise, flows[i]) {
      var j :| 0 <= j < i && !IsNoise(noise, flows[j]) && Key(flows[j]) == Key(flows[i]);
      assert Carries(noise, flows, j, Key(flows[i]));
    }
  }

  lemma SeenStep(noise: NoisePatterns, flows: seq<HttpFlow>, n: nat, key: string)
    requires 0 < n <= |flows|
    ensures Seen(noise, flows, n, key) <==> Seen(noise, flows, n - 1, key) || Carries(noise, flows, n - 1, key)
  {
    if Carries(noise, flows, n - 1, key) {
      assert Seen(noise, flows, n, key);
    }
  }

  lemma {:induction false} SurvivorKeys(noise: NoisePatterns, flows: seq<HttpFlow>, n: nat)
    requires n <= |flows|
    ensures Distinct(Keys(SurvivorsUpTo(noise, flows, n)))
    ensures forall k :: k in Keys(SurvivorsUpTo(noise, flows, n)) <==> Seen(noise, flows, n, k)
  {
    if n > 0 {
      SurvivorKeys(noise, flows, n - 1);
      SurvivesIff(noise, flows, n - 1);
      var before, after := Keys(SurvivorsUpTo(noise, flows, n - 1)), Keys(SurvivorsUpTo(noise, flows, n));
      assert after == before + (if Survives(noise, flows, n - 1) then [Key(flows[n - 1])] else []);
      forall k ensures k in after <==> Seen(noise, flows, n, k) {
        SeenStep(noise, flows, n, k);
      }
    }
  }

  lemma {:induction false} SurvivorsAreCaptured(noise: NoisePatterns, flows: seq<HttpFlow>, n: nat)
    requires n <= |flows|
    ensures forall f | f in SurvivorsUpTo(noise, flows, n) :: f in flows && !IsNoise(noise, f)
  {
    if n > 0 {
      SurvivorsAreCaptured(noise, flows, n - 1);
    }
  }

  lemma {:induction false} BeforeOfConcat(a: string, b: string, c: char)
    requires c !in a
    ensures Before(a + b, c) == a + Before(b, c)
  {
    if a == [] {
      assert a + b == b;
    } else {
      assert (a + b)[1..] == a[1..] + b;
      BeforeOfConcat(a[1..], b, c);
    }
  }

  /** What one method has beyond the length of the other holds a question mark. */
  predicate HidesQuery(f: HttpFlow, g: HttpFlow) {
    if |f.httpMethod| <= |g.httpMethod| then '?' in g.httpMethod[|f.httpMethod|..]
    else '?' in f.httpMethod[|g.httpMethod|..]
  }

  /** The request line inside a fingerprint. */
  function Line(flow: HttpFlow): string {
    flow.httpMethod + ":" + flow.path
  }

  lemma FingerprintParts(f: HttpFlow)
    ensures Fingerprint(f) == "HttpMethod." + (Line(f) + (":" + f.bodyDigest))
  {
    var m, p, d := f.httpMethod, f.path, f.bodyDigest;
    Regroup("HttpMethod.", m, ":");
    Regroup("HttpMethod.", m + ":", p);
    Regroup("HttpMethod." + Line(f), ":", d);
    Regroup("HttpMethod.", Line(f), ":" + d);
  }

  /** Fingerprints are equal exactly when request lines and digests are. */
  lemma SameFingerprintIff(f: HttpFlow, g: HttpFlow)
    ensures Fingerprint(f) == Fingerprint(g) <==> Line(f) == Line(g) && f.bodyDigest == g.bodyDigest
  {
    FingerprintParts(f);
    FingerprintParts(g);
    SamePrefix("HttpMethod.", Line(f) + (":" + f.bodyDigest), Line(g) + (":" + g.bodyDigest));
    if Fingerprint(f) == Fingerprint(g) {
      SameLength(Line(f), ":" + f.bodyDigest, Line(g), ":" + g.bodyDigest);
      SamePrefix(":", f.bodyDigest, g.bodyDigest);
    }
  }

  lemma SamePrefix(p: string, a: string, b: string)
    ensures p + a == p + b <==> a == b
  {
    assert a == (p + a)[|p|..] && b == (p + b)[|p|..];
  }

  lemma SameLength(a: string, u: string, b: string, v: string)
    requires a + u == b + v && (|a| == |b| || |u| == |v|)
    ensures a == b && u == v
  {
    assert |a| + |u| == |b| + |v|;
    assert a == (a + u)[..|a|] && b == (b + v)[..|b|];
    assert u == (a + u)[|a|..] && v == (b + v)[|b|..];
  }

  /** The longer method is the shorter one, a colon, and the start x of the other path. */
  lemma MethodExtends(f: HttpFlow, g: HttpFlow) returns (x: string)
    requires |f.httpMethod| < |g.httpMethod| && Line(f) == Line(g)
    ensures g.httpMethod == f.httpMethod + ":" + x && f.path == x + ":" + g.path
    ensures g.httpMethod[|f.httpMethod|..] == ":" + x
  {
    var n := |f.httpMethod|;
    var line := Line(f);
    x := g.httpMethod[n + 1..];
    assert line[..n] == f.httpMethod && line[n] == ':' && line[n + 1..] == f.path;
    assert line[..|g.httpMethod|] == g.httpMethod;
    assert g.httpMethod[..n] == line[..n];
    assert g.httpMethod == g.httpMethod[..n] + [g.httpMethod[n]] + x;
    assert line[n + 1..] == x + ":" + g.path;
  }

  /** Cutting at the question mark before or behind the text x. */
  lemma CutAround(m: string, x: string, path: string)
    ensures m + ":" + Before(x + ":" + path, '?') == (m + ":" + x) + ":" + Before(path, '?') <==> '?' !in x
  {
    var tail := ":" + path;
    Regroup(x, ":", path);
    BeforeOfConcat(":", path, '?');
    assert Before(tail, '?') == ":" + Before(path, '?');
    Regroup(m + ":" + x, ":", Before(path, '?'));
    Regroup(m + ":", x, Before(tail, '?'));
    SamePrefix(m + ":", Before(x + tail, '?'), x + Before(tail, '?'));
    if '?' !in x {
      BeforeOfConcat(x, tail, '?');
    } else {
      assert '?' in x + Before(tail, '?');
    }
  }

  lemma ShorterFirst(f: HttpFlow, g: HttpFlow)
    requires Line(f) == Line(g) && |f.httpMethod| <= |g.httpMethod|
    ensures Key(f) == Key(g) <==> '?' !in g.httpMethod[|f.httpMethod|..]
  {
    if |f.httpMethod| < |g.httpMethod| {
      var x := MethodExtends(f, g);
      CutAround(f.httpMethod, x, g.path);
    } else {
      Regroup(f.httpMethod, ":", f.path);
      Regroup(g.httpMethod, ":", g.path);
      SameLength(f.httpMethod, ":" + f.path, g.httpMethod, ":" + g.path);
      SamePrefix(":", f.path, g.path);
    }
  }

  /** Exactly when equal fingerprints mean equal keys: unless the longer method hides a
      question mark behind the length of the shorter one. */
  lemma FingerprintDeterminesKeyIff(f: HttpFlow, g: HttpFlow)
    requires Fingerprint(f) == Fingerprint(g)
    ensures Key(f) == Key(g) <==> !HidesQuery(f, g)
  {
    SameFingerprintIff(f, g);
    if |f.httpMethod| <= |g.httpMethod| { ShorterFirst(f, g); } else { ShorterFirst(g, f); }
  }

  /** One request line and body that two methods cut differently around a question mark. */
  predicate Confused(f: HttpFlow, g: HttpFlow) {
    Line(f) == Line(g) && f.bodyDigest == g.bodyDigest && HidesQuery(f, g)
  }

  ghost predicate NoneConfused(flows: seq<HttpFlow>) {
    forall i, j | 0 <= i < j < |flows| :: !Confused(flows[i], flows[j])
  }

  /** Exactly when filtering supplies what the sequencer needs, a fingerprint of its own
      for every survivor. */
  lemma DistinctFingerprintsIff(noise: NoisePatterns, flows: seq<HttpFlow>)
    ensures Distinct(Fingerprints(Survivors(noise, flows))) <==> NoneConfused(Survivors(noise, flows))
  {
    var out := Survivors(noise, flows);
    SurvivorKeys(noise, flows, |flows|);
    forall i, j | 0 <= i < j < |out|
      ensures Fingerprints(out)[i] == Fingerprints(out)[j] <==> Confused(out[i], out[j])
    {
      assert Keys(out)[i] != Keys(out)[j];
      SameFingerprintIff(out[i], out[j]);
      if Fingerprint(out[i]) == Fingerprint(out[j]) {
        FingerprintDeterminesKeyIff(out[i], out[j]);
      }
    }
  }

  /** A method is an HTTP token (section 5.6.2 of RFC 9110), which has no question mark. */
  lemma PlainMethodsSuffice(noise: NoisePatterns, flows: seq<HttpFlow>)
    requires forall f | f in flows :: '?' !in f.httpMethod
    ensures NoneConfused(Survivors(noise, flows))
  {
    SurvivorsAreCaptured(noise, flows, |flows|);
    var out := Survivors(noise, flows);
    forall i, j | 0 <= i < j < |out| ensures !Confused(out[i], out[j]) {
      assert out[i] in out && out[j] in out;
    }
  }

  /** A question mark inside a method breaks it: two survivors, one fingerprint. */
  lemma QuestionMarkInMethodCollides(digest: Digest)
    ensures var f := HttpFlow("1", 0, "A", "h", "x?:y", "", [], None, digest, 200, None, "");
            var g := HttpFlow("2", 0, "A:x?", "h", "y", "", [], None, digest, 200, None, "");
            && Survivors((h, p) => false, [f, g]) == [f, g]
            && Fingerprint(f) == Fingerprint(g)
  {
    var noise: NoisePatterns := (h, p) => false;
    var f := HttpFlow("1", 0, "A", "h", "x?:y", "", [], None, digest, 200, None, "");
    var g := HttpFlow("2", 0, "A:x?", "h", "y", "", [], None, digest, 200, None, "");
    assert Before("x?:y", '?') == "x" by { assert "x?:y"[1..] == "?:y"; }
    assert Before("y", '?') == "y";
    assert |Key(f)| == 3 && |Key(g)| == 6;
    assert Survives(noise, [f, g], 0) && Survives(noise, [f, g], 1);
    assert SurvivorsUpTo(noise, [f, g], 1) == [f];
    assert Fingerprint(f) == "HttpMethod." + "A:x?:y" + ":" + digest;
    assert Fingerprint(g) == "HttpMethod." + "A:x?:y" + ":" + digest;
  }

  // ---- the two filters ----

  lemma KeysAppend(flows: seq<HttpFlow>, f: HttpFlow)
    ensures Keys(flows + [f]) == Keys(flows) + [Key(f)]
    ensures Elements(Keys(flows + [f])) == Elements(Keys(flows)) + {Key(f)}
  {
    assert Keys(flows + [f]) == Keys(flows) + [Key(f)];
  }

  /** A flow joins the survivors unless it is noise or its key is among theirs. */
  lemma NextSurvivor(noise: NoisePatterns, flows: seq<HttpFlow>, i: nat)
    requires i < |flows|
    ensures var out := SurvivorsUpTo(noise, flows, i);
            SurvivorsUpTo(noise, flows, i + 1) ==
              if !IsNoise(noise, flows[i]) && Key(flows[i]) !in Elements(Keys(out)) then out + [flows[i]] else out
  {
    SurvivorKeys(noise, flows, i);
    SurvivesIff(noise, flows, i);
  }

  method FilterForAnalysis(noise: NoisePatterns, flows: seq<HttpFlow>) returns (out: seq<HttpFlow>)
    ensures out == Survivors(noise, flows)
  {
    var seen: map<string, nat> := map[];
    out := [];
    for i := 0 to |flows|
      invariant out == SurvivorsUpTo(noise, flows, i)
      invariant seen.Keys == Elements(Keys(out))
    {
      NextSurvivor(noise, flows, i);
      var flow := flows[i];
      KeysAppend(out, flow);
      if !IsNoise(noise, flow) {
        var key := Key(flow);
        if key !in seen {
          seen := seen[key := |out|];
          out := out + [flow];
        }
      }
    }
  }

  /** `first` indexes the survivors by key. */
  ghost predicate Indexes(first: map<string, HttpFlow>, survivors: seq<HttpFlow>) {
    first.Keys == Elements(Keys(survivors))
    && forall i | 0 <= i < |survivors| :: Key(survivors[i]) in first && first[Key(survivors[i])] == survivors[i]
  }

  lemma IndexOneMore(first: map<string, HttpFlow>, survivors: seq<HttpFlow>, flow: HttpFlow)
    requires Indexes(first, survivors) && Key(flow) !in first
    ensures Indexes(first[Key(flow) := flow], survivors + [flow])
    ensures Keys(survivors + [flow]) == Keys(survivors) + [Key(flow)]
  {
    KeysAppend(survivors, flow);
    forall i | 0 <= i < |survivors| ensures Key(survivors[i]) in first && Key(survivors[i]) != Key(flow) {}
  }

  ghost predicate Counts(noise: NoisePatterns, flows: seq<HttpFlow>, counts: map<string, nat>) {
    forall k :: Occurrences(noise, flows, k) == if k in counts then counts[k] else 0
  }

  lemma CountOneMore(noise: NoisePatterns, flows: seq<HttpFlow>, i: nat, counts: map<string, nat>)
    requires i < |flows| && Counts(noise, flows[..i], counts)
    ensures IsNoise(noise, flows[i]) ==> Counts(noise, flows[..i + 1], counts)
    ensures var key := Key(flows[i]);
            !IsNoise(noise, flows[i]) ==>
              Counts(noise, flows[..i + 1], counts[key := (if key in counts then counts[key] else 0) + 1])
  {
    assert flows[..i + 1][..i] == flows[..i];
  }

  method Collect(noise: NoisePatterns, flows: seq<HttpFlow>)
    returns (counts: map<string, nat>, first: map<string, HttpFlow>, order: seq<string>)
    ensures order == Keys(Survivors(noise, flows))
    ensures Indexes(first, Survivors(noise, flows))
    ensures forall k | k in order :: k in counts && counts[k] == Occurrences(noise, flows, k)
  {
    counts, first, order := map[], map[], [];
    ghost var survivors: seq<HttpFlow> := [];
    for i := 0 to |flows|
      invariant survivors == SurvivorsUpTo(noise, flows, i) && order == Keys(survivors)
      invariant Indexes(first, survivors)
      invariant Counts(noise, flows[..i], counts)
      invariant counts.Keys == Elements(order)
    {
      SurvivorKeys(noise, flows, i);
      SurvivesIff(noise, flows, i);
      CountOneMore(noise, flows, i, counts);
      var flow := flows[i];
      if !IsNoise(noise, flow) {
        var key := Key(flow);
        counts := counts[key := (if key in counts then counts[key] else 0) + 1];
        if key !in first {
          IndexOneMore(first, survivors, flow);
          first := first[key := flow];
          order := order + [key];
          survivors := survivors + [flow];
        }
      }
    }
    assert flows[..|flows|] == flows;
  }

  /** The counting variant keeps three collections and joins them at the end. */
  method FilterForAnalysisWithCounts(noise: NoisePatterns, flows: seq<HttpFlow>) returns (out: seq<(HttpFlow, nat)>)
    ensures |out| == |Survivors(noise, flows)|
    ensures forall i | 0 <= i < |out| ::
              out[i] == (Survivors(noise, flows)[i], Occurrences(noise, flows, Key(Survivors(noise, flows)[i])))
  {
    var counts, first, order := Collect(noise, flows);
    ghost var survivors := Survivors(noise, flows);
    SurvivorKeys(noise, flows, |flows|);
    out := [];
    for i := 0 to |order|
      invariant |out| == i
      invariant forall j | i <= j < |order| :: order[j] in first && first[order[j]] == survivors[j]
      invariant forall j | 0 <= j < i :: out[j] == (survivors[j], Occurrences(noise, flows, Key(survivors[j])))
    {
      var key := order[i];
      out := out + [(first[key], counts[key])];
      first := first - {key};
    }
  }

  // ---- counts are conserved ----

  function Total(counts: seq<nat>): nat {
    if counts == [] then 0 else counts[0] + Total(counts[1..])
  }

  function CountsOf(noise: NoisePatterns, flows: seq<HttpFlow>, keys: seq<string>): (r: seq<nat>)
    ensures |r| == |keys|
    ensures forall i | 0 <= i < |keys| :: r[i] == Occurrences(noise, flows, keys[i])
  {
    seq(|keys|, i requires 0 <= i < |keys| => Occurrences(noise, flows, keys[i]))
  }

  /** Adding one flow adds one to the total exactly when its key is listed. */
  lemma {:induction false} TotalOfOneMore(noise: NoisePatterns, flows: seq<HttpFlow>, keys: seq<string>)
    requires flows != [] && Distinct(keys)
    ensures var last := flows[|flows| - 1];
            Total(CountsOf(noise, flows, keys)) == Total(CountsOf(noise, flows[..|flows| - 1], keys))
              + (if !IsNoise(noise, last) && Key(last) in keys then 1 else 0)
  {
    if keys != [] {
      var before := flows[..|flows| - 1];
      assert CountsOf(noise, flows, keys)[1..] == CountsOf(noise, flows, keys[1..]);
      assert CountsOf(noise, before, keys)[1..] == CountsOf(noise, before, keys[1..]);
      assert Distinct(keys[1..]) by {
        forall i, j | 0 <= i < j < |keys[1..]| ensures keys[1..][i] != keys[1..][j] {
          assert keys[i + 1] != keys[j + 1];
        }
      }
      TotalOfOneMore(noise, flows, keys[1..]);
      assert keys == [keys[0]] + keys[1..];
      assert keys[0] !in keys[1..] by {
        forall i | 0 <= i < |keys[1..]| ensures keys[1..][i] != keys[0] { assert keys[0] != keys[i + 1]; }
      }
    }
  }

  lemma {:induction false} TotalOverKeys(noise: NoisePatterns, flows: seq<HttpFlow>, keys: seq<string>)
    requires Distinct(keys)
    requires forall f | f in flows && !IsNoise(noise, f) :: Key(f) in keys
    ensures Total(CountsOf(noise, flows, keys)) == Kept(noise, flows)
  {
    if flows == [] {
      TotalOfNone(noise, keys);
    } else {
      var before, last := flows[..|flows| - 1], flows[|flows| - 1];
      TotalOverKeys(noise, before, keys);
      TotalOfOneMore(noise, flows, keys);
      assert last in flows;
    }
  }

  lemma {:induction false} TotalOfNone(noise: NoisePatterns, keys: seq<string>)
    ensures Total(CountsOf(noise, [], keys)) == 0
  {
    if keys != [] {
      assert CountsOf(noise, [], keys)[1..] == CountsOf(noise, [], keys[1..]);
      TotalOfNone(noise, keys[1..]);
    }
  }

  /** Conservation: the occurrence counts of the survivors add up to the non-noise flows. */
  lemma CountsConserved(noise: NoisePatterns, flows: seq<HttpFlow>)
    ensures Total(CountsOf(noise, flows, Keys(Survivors(noise, flows)))) == Kept(noise, flows)
  {
    var keys := Keys(Survivors(noise, flows));
    SurvivorKeys(noise, flows, |flows|);
    forall f | f in flows && !IsNoise(noise, f) ensures Key(f) in keys {
      var j :| 0 <= j < |flows| && flows[j] == f;
      assert Carries(noise, flows, j, Key(f));
    }
    TotalOverKeys(noise, flows, keys);
  }
}
