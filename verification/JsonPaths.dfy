/** Paths into JSON bodies: the body analyser that emits them (`param_analyzer.rs`) and the
    setter that parses them back (`mutation_engine.rs`). */
module JsonPaths {
  import opened Text
  import opened Json

  datatype Segment = Key(name: string) | Index(index: nat)

  type Path = seq<Segment>

  // ---- the leaves of a body ----

  /** A leaf: where it is, and the scalar found there. */
  type Leaf = (Path, Value)

  function Under(seg: Segment, leaves: seq<Leaf>): (r: seq<Leaf>)
    ensures |r| == |leaves|
    ensures forall i | 0 <= i < |r| :: r[i] == ([seg] + leaves[i].0, leaves[i].1)
  {
    seq(|leaves|, i requires 0 <= i < |leaves| => ([seg] + leaves[i].0, leaves[i].1))
  }

  /** The object leaves of a value in document order; scalars inside arrays are not leaves. */
  function Leaves(j: Value): seq<Leaf>
    decreases j, 2, 0
  {
    match j
    case Object(fields) => LeavesOfKeys(j, SortedKeys(fields.Keys))
    case Array(items) => LeavesOfItems(j, 0)
    case _ => []
  }

  function LeavesOfKey(j: Value, k: string): seq<Leaf>
    requires j.Object? && k in j.fields
    decreases j, 0, 0
  {
    if IsContainer(j.fields[k]) then Under(Key(k), Leaves(j.fields[k])) else [([Key(k)], j.fields[k])]
  }

  function LeavesOfKeys(j: Value, keys: seq<string>): seq<Leaf>
    requires j.Object? && forall k | k in keys :: k in j.fields
    decreases j, 1, |keys|
  {
    if keys == [] then [] else LeavesOfKey(j, keys[0]) + LeavesOfKeys(j, keys[1..])
  }

  function LeavesOfItems(j: Value, i: nat): seq<Leaf>
    requires j.Array? && i <= |j.items|
    decreases j, 1, |j.items| - i
  {
    if i == |j.items| then [] else Under(Index(i), Leaves(j.items[i])) + LeavesOfItems(j, i + 1)
  }

  // ---- the meaning of a path ----

  function Get(j: Value, seg: Segment): Option<Value> {
    match seg
    case Key(name) => if j.Object? && name in j.fields then Some(j.fields[name]) else None
    case Index(i) => if j.Array? && i < |j.items| then Some(j.items[i]) else None
  }

  /** What stands at a position of a document, if anything does. */
  function Follow(j: Value, p: Path): Option<Value>
    decreases |p|
  {
    if p == [] then Some(j)
    else match Get(j, p[0])
      case None => None
      case Some(child) => Follow(child, p[1..])
  }

  lemma {:induction false} FollowConcat(j: Value, p: Path, q: Path)
    ensures Follow(j, p + q) == (match Follow(j, p) case None => None case Some(w) => Follow(w, q))
    decreases |p|
  {
    if p == [] {
      assert p + q == q;
    } else {
      assert (p + q)[1..] == p[1..] + q;
      if Get(j, p[0]).Some? {
        FollowConcat(Get(j, p[0]).value, p[1..], q);
      }
    }
  }

  /** A leaf position: under a key, a value that is neither object nor array. */
  ghost predicate HoldsLeaf(j: Value, p: Path, v: Value) {
    p != [] && p[|p| - 1].Key? && !IsContainer(v) && Follow(j, p) == Some(v)
  }

  lemma HoldsUnder(j: Value, seg: Segment, p: Path, v: Value)
    requires Get(j, seg).Some? && p != []
    ensures HoldsLeaf(j, [seg] + p, v) <==> HoldsLeaf(Get(j, seg).value, p, v)
  {
    var q := [seg] + p;
    assert q[1..] == p && q[|q| - 1] == p[|p| - 1];
  }

  lemma HoldsAtKey(j: Value, k: string, v: Value)
    ensures HoldsLeaf(j, [Key(k)], v) <==> j.Object? && k in j.fields && j.fields[k] == v && !IsContainer(v)
  {
    var p := [Key(k)];
    assert p[1..] == [];
    if Get(j, p[0]).Some? {
      assert Follow(j, p) == Follow(Get(j, p[0]).value, p[1..]);
    }
  }

  lemma {:induction false} LeafHolds(j: Value, n: nat)
    requires n < |Leaves(j)|
    ensures HoldsLeaf(j, Leaves(j)[n].0, Leaves(j)[n].1)
    decreases j, 2, 0
  {
    match j
    case Object(fields) => LeafOfKeysHolds(j, SortedKeys(fields.Keys), n);
    case Array(items) => LeafOfItemsHolds(j, 0, n);
  }

  lemma {:induction false} LeafOfKeysHolds(j: Value, keys: seq<string>, n: nat)
    requires j.Object? && forall k | k in keys :: k in j.fields
    requires n < |LeavesOfKeys(j, keys)|
    ensures var leaf := LeavesOfKeys(j, keys)[n]; HoldsLeaf(j, leaf.0, leaf.1)
    decreases j, 1, |keys|
  {
    var k := keys[0];
    var first := LeavesOfKey(j, k);
    if n >= |first| {
      LeafOfKeysHolds(j, keys[1..], n - |first|);
    } else if IsContainer(j.fields[k]) {
      var leaf := Leaves(j.fields[k])[n];
      LeafHolds(j.fields[k], n);
      HoldsUnder(j, Key(k), leaf.0, leaf.1);
    } else {
      HoldsAtKey(j, k, j.fields[k]);
    }
  }

  lemma {:induction false} LeafOfItemsHolds(j: Value, i: nat, n: nat)
    requires j.Array? && i <= |j.items| && n < |LeavesOfItems(j, i)|
    ensures var leaf := LeavesOfItems(j, i)[n]; HoldsLeaf(j, leaf.0, leaf.1)
    decreases j, 1, |j.items| - i
  {
    var first := Under(Index(i), Leaves(j.items[i]));
    if n >= |first| {
      LeafOfItemsHolds(j, i + 1, n - |first|);
    } else {
      var leaf := Leaves(j.items[i])[n];
      LeafHolds(j.items[i], n);
      HoldsUnder(j, Index(i), leaf.0, leaf.1);
    }
  }

  // ---- textual paths ----

  function SegmentText(seg: Segment): string {
    match seg
    case Key(name) => "." + name
    case Index(i) => "[" + PrintNat(i) + "]"
  }

  function TailText(p: Path): string {
    if p == [] then "" else TailText(p[..|p| - 1]) + SegmentText(p[|p| - 1])
  }

  /** The path as the analyser writes it: no dot in front of a leading key. */
  function PathText(p: Path): string {
    if p != [] && p[0].Key? then p[0].name + TailText(p[1..]) else TailText(p)
  }

  /** A parameter: its path and its sample value. */
  datatype Param = Param(name: string, sample: Value)

  // ---- the emitter ----

  function ChildPath(prefix: string, key: string): string {
    if prefix == "" then key else prefix + "." + key
  }

  function ItemPath(prefix: string, i: nat): string {
    prefix + "[" + PrintNat(i) + "]"
  }

  function EmitStep(prefix: string, seg: Segment): string {
    match seg
    case Key(name) => ChildPath(prefix, name)
    case Index(i) => ItemPath(prefix, i)
  }

  /** The text the analyser has for position p below `prefix`, whatever the keys are. */
  function EmittedText(prefix: string, p: Path): string
    decreases |p|
  {
    if p == [] then prefix else EmittedText(EmitStep(prefix, p[0]), p[1..])
  }

  function Params(prefix: string, leaves: seq<Leaf>): (r: seq<Param>)
    ensures |r| == |leaves|
    ensures forall i | 0 <= i < |r| :: r[i] == Param(EmittedText(prefix, leaves[i].0), leaves[i].1)
  {
    seq(|leaves|, i requires 0 <= i < |leaves| => Param(EmittedText(prefix, leaves[i].0), leaves[i].1))
  }

  /** What walk_json pushes for a value whose textual path is `prefix`. */
  function Walked(j: Value, prefix: string): seq<Param>
    decreases j, 2, 0
  {
    match j
    case Object(fields) => WalkedKeys(j, prefix, SortedKeys(fields.Keys))
    case Array(items) => WalkedItems(j, prefix, 0)
    case _ => []
  }

  function WalkedKey(j: Value, prefix: string, k: string): seq<Param>
    requires j.Object? && k in j.fields
    decreases j, 0, 0
  {
    if IsContainer(j.fields[k]) then Walked(j.fields[k], ChildPath(prefix, k))
    else [Param(ChildPath(prefix, k), j.fields[k])]
  }

  function WalkedKeys(j: Value, prefix: string, keys: seq<string>): seq<Param>
    requires j.Object? && forall k | k in keys :: k in j.fields
    decreases j, 1, |keys|
  {
    if keys == [] then [] else WalkedKey(j, prefix, keys[0]) + WalkedKeys(j, prefix, keys[1..])
  }

  function WalkedItems(j: Value, prefix: string, i: nat): seq<Param>
    requires j.Array? && i <= |j.items|
    decreases j, 1, |j.items| - i
  {
    if i == |j.items| then [] else Walked(j.items[i], ItemPath(prefix, i)) + WalkedItems(j, prefix, i + 1)
  }

  /** analyze_json_body: nothing unless the body is an object. */
  function Analyzed(body: Value): seq<Param> {
    if body.Object? then Walked(body, "") else []
  }

  method WalkJson(obj: Value, prefix: string, out0: seq<Param>) returns (out: seq<Param>)
    ensures out == out0 + Walked(obj, prefix)
    decreases obj
  {
    out := out0;
    match obj {
      case Object(fields) =>
        var keys := SortedKeys(fields.Keys);
        assert forall k | k in keys :: k in Elements(keys);
        assert keys[0..] == keys;
        for n := 0 to |keys|
          invariant out + WalkedKeys(obj, prefix, keys[n..]) == out0 + WalkedKeys(obj, prefix, keys)
        {
          var key := keys[n];
          var value := fields[key];
          assert keys[n..][0] == key && keys[n..][1..] == keys[n + 1..];
          var path := ChildPath(prefix, key);
          Regroup(out, WalkedKey(obj, prefix, key), WalkedKeys(obj, prefix, keys[n + 1..]));
          if IsContainer(value) {
            out := WalkJson(value, path, out);
          } else {
            out := out + [Param(path, value)];
          }
        }
        assert keys[|keys|..] == [] && out + [] == out;
      case Array(items) =>
        for i := 0 to |items|
          invariant out + WalkedItems(obj, prefix, i) == out0 + WalkedItems(obj, prefix, 0)
        {
          Regroup(out, Walked(items[i], ItemPath(prefix, i)), WalkedItems(obj, prefix, i + 1));
          out := WalkJson(items[i], ItemPath(prefix, i), out);
        }
        assert out + [] == out;
      case _ =>
        assert out + [] == out;
    }
  }

  method AnalyzeJsonBody(body: Value) returns (params: seq<Param>)
    ensures params == Analyzed(body)
  {
    params := [];
    if body.Object? {
      params := WalkJson(body, "", params);
    }
  }

  // ---- the emitter in terms of leaves ----

  lemma ParamsConcat(prefix: string, a: seq<Leaf>, b: seq<Leaf>)
    ensures Params(prefix, a + b) == Params(prefix, a) + Params(prefix, b)
  {
  }

  lemma ParamsUnder(prefix: string, seg: Segment, leaves: seq<Leaf>)
    ensures Params(prefix, Under(seg, leaves)) == Params(EmitStep(prefix, seg), leaves)
  {
    var l := Under(seg, leaves);
    forall i | 0 <= i < |leaves|
      ensures EmittedText(prefix, l[i].0) == EmittedText(EmitStep(prefix, seg), leaves[i].0)
    {
      assert l[i].0[0] == seg && l[i].0[1..] == leaves[i].0;
    }
  }

  /** The walk emits the leaves, each under the text of its position: for every value,
      whatever its keys. */
  lemma {:induction false} WalkedIsLeaves(j: Value, prefix: string)
    ensures Walked(j, prefix) == Params(prefix, Leaves(j))
    decreases j, 2, 0
  {
    match j
    case Object(fields) => WalkedKeysIsLeaves(j, prefix, SortedKeys(fields.Keys));
    case Array(items) => WalkedItemsIsLeaves(j, prefix, 0);
    case _ =>
  }

  lemma {:induction false} WalkedKeysIsLeaves(j: Value, prefix: string, keys: seq<string>)
    requires j.Object? && forall k | k in keys :: k in j.fields
    ensures WalkedKeys(j, prefix, keys) == Params(prefix, LeavesOfKeys(j, keys))
    decreases j, 1, |keys|
  {
    if keys != [] {
      WalkedKeyIsLeaves(j, prefix, keys[0]);
      WalkedKeysIsLeaves(j, prefix, keys[1..]);
      ParamsConcat(prefix, LeavesOfKey(j, keys[0]), LeavesOfKeys(j, keys[1..]));
    }
  }

  lemma {:induction false} WalkedKeyIsLeaves(j: Value, prefix: string, k: string)
    requires j.Object? && k in j.fields
    ensures WalkedKey(j, prefix, k) == Params(prefix, LeavesOfKey(j, k))
    decreases j, 1, 0
  {
    if IsContainer(j.fields[k]) {
      WalkedIsLeaves(j.fields[k], ChildPath(prefix, k));
      ParamsUnder(prefix, Key(k), Leaves(j.fields[k]));
    } else {
      assert [Key(k)][1..] == [];
      assert EmittedText(prefix, [Key(k)]) == EmittedText(ChildPath(prefix, k), []);
    }
  }

  lemma {:induction false} WalkedItemsIsLeaves(j: Value, prefix: string, i: nat)
    requires j.Array? && i <= |j.items|
    ensures WalkedItems(j, prefix, i) == Params(prefix, LeavesOfItems(j, i))
    decreases j, 1, |j.items| - i
  {
    if i < |j.items| {
      WalkedIsLeaves(j.items[i], ItemPath(prefix, i));
      ParamsUnder(prefix, Index(i), Leaves(j.items[i]));
      WalkedItemsIsLeaves(j, prefix, i + 1);
      ParamsConcat(prefix, Under(Index(i), Leaves(j.items[i])), LeavesOfItems(j, i + 1));
    }
  }

  // ---- parsing a path back ----

  function Flush(buffer: string): Path {
    if buffer == "" then [] else [Key(buffer)]
  }

  /** What is left after a bracket text: past its closing bracket, or nothing. */
  function AfterBracket(s: string): string {
    var inside := Before(s, ']');
    if |inside| < |s| then s[|inside| + 1..] else ""
  }

  function BracketSegment(s: string): Path {
    var index := ParseUsize(Before(s, ']'));
    if index.Some? then [Index(index.value)] else []
  }

  function ParseFrom(s: string, buffer: string): Path
    decreases |s|
  {
    if s == "" then Flush(buffer)
    else if s[0] == '.' then Flush(buffer) + ParseFrom(s[1..], "")
    else if s[0] == '[' then Flush(buffer) + (BracketSegment(s[1..]) + ParseFrom(AfterBracket(s[1..]), ""))
    else ParseFrom(s[1..], buffer + [s[0]])
  }

  function ParsePath(path: string): Path {
    ParseFrom(path, "")
  }

  /** The character loop of parse_path, with its inner loop up to the closing bracket. */
  method ParsePathLoop(path: string) returns (segments: Path)
    ensures segments == ParsePath(path)
  {
    segments := [];
    var buffer := "";
    var n := 0;
    assert path[0..] == path;
    while n < |path|
      invariant 0 <= n <= |path|
      invariant segments + ParseFrom(path[n..], buffer) == ParsePath(path)
    {
      var ch := path[n];
      ghost var rest := path[n + 1..];
      assert path[n..][0] == ch && path[n..][1..] == rest;
      if ch == '.' {
        Regroup(segments, Flush(buffer), ParseFrom(rest, ""));
        segments, buffer := segments + Flush(buffer), "";
        n := n + 1;
      } else if ch == '[' {
        var index, next := ReadBracket(path, n + 1);
        var found := ParseUsize(index);
        Regroup(segments, Flush(buffer), BracketSegment(rest) + ParseFrom(AfterBracket(rest), ""));
        Regroup(segments + Flush(buffer), BracketSegment(rest), ParseFrom(AfterBracket(rest), ""));
        segments, buffer := segments + Flush(buffer), "";
        if found.Some? {
          segments := segments + [Index(found.value)];
        } else {
          assert segments + [] == segments;
        }
        n := next;
      } else {
        buffer := buffer + [ch];
        n := n + 1;
      }
    }
    assert path[n..] == "";
    segments := segments + Flush(buffer);
  }

  method FindClosing(path: string, from: nat) returns (end: nat)
    requires from <= |path|
    ensures from <= end <= |path| && path[from..end] == Before(path[from..], ']')
  {
    end := from;
    while end < |path| && path[end] != ']'
      invariant from <= end <= |path|
      invariant ']' !in path[from..end]
    {
      end := end + 1;
    }
    assert path[from..][..end - from] == path[from..end];
    BeforeIs(path[from..], ']', end - from);
  }

  method ReadBracket(path: string, from: nat) returns (index: string, next: nat)
    requires from <= |path|
    ensures from <= next <= |path| && index == Before(path[from..], ']') && path[next..] == AfterBracket(path[from..])
  {
    var end := FindClosing(path, from);
    AfterBracketAt(path, from, end);
    index := path[from..end];
    next := if end < |path| then end + 1 else end;
  }

  lemma AfterBracketAt(path: string, from: nat, end: nat)
    requires from <= end <= |path| && Before(path[from..], ']') == path[from..end]
    ensures AfterBracket(path[from..]) == if end < |path| then path[end + 1..] else path[end..]
  {
    assert |path[from..end]| == end - from;
    if end < |path| {
      assert path[from..][end - from + 1..] == path[end + 1..];
    }
  }

  // ---- parsing inverts printing ----

  /** Keys that keep the text unambiguous: not empty, no dot, no opening bracket. */
  predicate PlainKey(k: string) {
    k != "" && '.' !in k && '[' !in k
  }

  lemma TailTextAppend(p: Path, seg: Segment)
    ensures TailText(p + [seg]) == TailText(p) + SegmentText(seg)
  {
    assert (p + [seg])[..|p|] == p;
  }

  predicate PlainSegment(seg: Segment) {
    seg.Key? ==> PlainKey(seg.name)
  }

  predicate PlainPath(p: Path) {
    forall i | 0 <= i < |p| :: PlainSegment(p[i])
  }

  /** A tail written from its front, which is how the parser meets it. */
  function FrontText(p: Path): string {
    if p == [] then "" else SegmentText(p[0]) + FrontText(p[1..])
  }

  lemma {:induction false} FrontTextAppend(p: Path, seg: Segment)
    ensures FrontText(p + [seg]) == FrontText(p) + SegmentText(seg)
  {
    if p == [] {
      assert p + [seg] == [seg];
    } else {
      assert (p + [seg])[1..] == p[1..] + [seg];
      FrontTextAppend(p[1..], seg);
    }
  }

  lemma FrontIsTailStep(init: Path, last: Segment)
    requires FrontText(init) == TailText(init)
    ensures FrontText(init + [last]) == TailText(init + [last])
  {
    FrontTextAppend(init, last);
    TailTextAppend(init, last);
  }

  lemma {:induction false} FrontIsTail(p: Path)
    ensures FrontText(p) == TailText(p)
  {
    if p != [] {
      assert p == p[..|p| - 1] + [p[|p| - 1]];
      FrontIsTail(p[..|p| - 1]);
      FrontIsTailStep(p[..|p| - 1], p[|p| - 1]);
    }
  }

  /** Below a text that is not empty, the analyser appends segment texts. */
  lemma {:induction false} EmittedIsFront(prefix: string, p: Path)
    requires prefix != ""
    ensures EmittedText(prefix, p) == prefix + FrontText(p)
    decreases |p|
  {
    if p == [] {
      assert prefix + "" == prefix;
    } else {
      EmittedIsFront(EmitStep(prefix, p[0]), p[1..]);
      EmitStepAppends(prefix, p[0]);
      Regroup(prefix, SegmentText(p[0]), FrontText(p[1..]));
    }
  }

  lemma EmitStepAppends(prefix: string, seg: Segment)
    requires prefix != ""
    ensures EmitStep(prefix, seg) == prefix + SegmentText(seg)
  {
    match seg
    case Key(name) => Regroup(prefix, ".", name);
    case Index(i) =>
      Regroup(prefix, "[" + PrintNat(i), "]");
      Regroup(prefix, "[", PrintNat(i));
  }

  /** So the text of a position is its path text, unless its first key is empty. */
  lemma EmittedIsPathText(p: Path)
    requires p != [] && p[0].Key? && p[0].name != ""
    ensures EmittedText("", p) == PathText(p)
  {
    EmittedIsFront(p[0].name, p[1..]);
    FrontIsTail(p[1..]);
  }

  lemma {:induction false} BufferName(name: string, rest: string, buffer: string)
    requires '.' !in name && '[' !in name
    ensures ParseFrom(name + rest, buffer) == ParseFrom(rest, buffer + name)
  {
    if name == "" {
      assert name + rest == rest && buffer + name == buffer;
    } else {
      assert (name + rest)[0] == name[0] && (name + rest)[1..] == name[1..] + rest;
      BufferName(name[1..], rest, buffer + [name[0]]);
      assert (buffer + [name[0]]) + name[1..] == buffer + name;
    }
  }

  lemma BracketReadsBack(i: nat, rest: string)
    ensures BracketSegment(PrintNat(i) + "]" + rest) == [Index(i)]
    ensures AfterBracket(PrintNat(i) + "]" + rest) == rest
  {
    UsizeReadsBack(i);
    BeforeDelimiter(PrintNat(i), ']', rest);
  }

  lemma KeyReadsBack(name: string, rest: string, buffer: string)
    requires PlainKey(name)
    ensures ParseFrom("." + name + rest, buffer) == Flush(buffer) + ParseFrom(rest, name)
  {
    var s := "." + name + rest;
    assert s[0] == '.' && s[1..] == name + rest;
    BufferName(name, rest, "");
    assert "" + name == name;
  }

  lemma IndexReadsBack(i: nat, rest: string, buffer: string)
    ensures ParseFrom("[" + PrintNat(i) + "]" + rest, buffer) == Flush(buffer) + ([Index(i)] + ParseFrom(rest, ""))
  {
    var s := "[" + PrintNat(i) + "]" + rest;
    assert s[0] == '[' && s[1..] == PrintNat(i) + "]" + rest;
    BracketReadsBack(i, rest);
  }

  lemma {:induction false} FrontReadsBack(p: Path, buffer: string)
    requires PlainPath(p)
    ensures ParseFrom(FrontText(p), buffer) == Flush(buffer) + p
  {
    if p == [] {
      assert Flush(buffer) + [] == Flush(buffer);
    } else {
      assert PlainSegment(p[0]) && [p[0]] + p[1..] == p;
      match p[0]
      case Key(name) =>
        KeyReadsBack(name, FrontText(p[1..]), buffer);
        FrontReadsBack(p[1..], name);
      case Index(i) =>
        IndexReadsBack(i, FrontText(p[1..]), buffer);
        FrontReadsBack(p[1..], "");
        assert Flush("") + p[1..] == p[1..];
    }
  }

  /** A path with plain keys that starts with a key parses back to itself. */
  lemma ParseInvertsPath(p: Path)
    requires p != [] && p[0].Key? && PlainPath(p)
    ensures ParsePath(PathText(p)) == p
  {
    var name, tail := p[0].name, p[1..];
    assert PlainSegment(p[0]);
    FrontIsTail(tail);
    BufferName(name, FrontText(tail), "");
    assert "" + name == name;
    FrontReadsBack(tail, name);
    assert [p[0]] + tail == p;
  }

  /** No key that parse_path yields contains a dot or an opening bracket, or is empty. */
  lemma {:induction false} ParsedKeysArePlain(s: string, buffer: string)
    requires '.' !in buffer && '[' !in buffer
    ensures PlainPath(ParseFrom(s, buffer))
    decreases |s|
  {
    if s != "" {
      if s[0] == '.' {
        ParsedKeysArePlain(s[1..], "");
        PlainConcat(Flush(buffer), ParseFrom(s[1..], ""));
      } else if s[0] == '[' {
        var rest := ParseFrom(AfterBracket(s[1..]), "");
        ParsedKeysArePlain(AfterBracket(s[1..]), "");
        PlainConcat(BracketSegment(s[1..]), rest);
        PlainConcat(Flush(buffer), BracketSegment(s[1..]) + rest);
      } else {
        ParsedKeysArePlain(s[1..], buffer + [s[0]]);
      }
    }
  }

  lemma PlainConcat(a: Path, b: Path)
    requires PlainPath(a) && PlainPath(b)
    ensures PlainPath(a + b)
  {
  }

  /** Exactly which keys survive: a key used as a path names itself iff it is plain. */
  lemma KeyReadsBackIff(k: string)
    ensures ParsePath(k) == [Key(k)] <==> PlainKey(k)
  {
    ParsedKeysArePlain(k, "");
    if ParsePath(k) == [Key(k)] {
      assert PlainSegment(ParsePath(k)[0]);
    }
    if PlainKey(k) {
      assert PathText([Key(k)]) == k by { assert [Key(k)][1..] == [] && k + "" == k; }
      ParseInvertsPath([Key(k)]);
    }
  }

  // ---- setting a value ----

  /** apply_leaf: objects take any key, arrays only an index in range. */
  function ApplyLeaf(j: Value, seg: Segment, v: Value): Value {
    match seg
    case Key(name) => if j.Object? then Object(j.fields[name := v]) else j
    case Index(i) => if j.Array? && i < |j.items| then Array(j.items[i := v]) else j
  }

  function Padded(items: seq<Value>, n: nat): (r: seq<Value>)
    ensures |r| >= n && items <= r
  {
    if |items| < n then items + seq(n - |items|, _ => Null) else items
  }

  /** The loop of set_json_path: descend creates missing objects and pads arrays with null. */
  function SetSegments(j: Value, p: Path, v: Value): Value
    decreases |p|
  {
    if p == [] then j
    else if |p| == 1 then ApplyLeaf(j, p[0], v)
    else match p[0]
      case Key(name) =>
        if !j.Object? then j
        else
          var child := if name in j.fields then j.fields[name] else Object(map[]);
          Object(j.fields[name := SetSegments(child, p[1..], v)])
      case Index(i) =>
        if !j.Array? then j
        else
          var items := Padded(j.items, i + 1);
          Array(items[i := SetSegments(items[i], p[1..], v)])
  }

  function SetJsonPath(root: Value, path: string, v: Value): Value {
    SetSegments(root, ParsePath(path), v)
  }

  // ---- a set touches one leaf ----

  /** What setting at a leaf's path does to a listing of leaves: only the value changes. */
  ghost predicate Replaces(after: seq<Leaf>, before: seq<Leaf>, n: nat, v: Value)
    requires n < |before|
  {
    after == before[n := (before[n].0, v)]
  }

  lemma UnderReplaces(seg: Segment, after: seq<Leaf>, before: seq<Leaf>, n: nat, v: Value)
    requires n < |before| && Replaces(after, before, n, v)
    ensures Replaces(Under(seg, after), Under(seg, before), n, v)
  {
  }

  lemma ReplacesLeft(after: seq<Leaf>, before: seq<Leaf>, rest: seq<Leaf>, n: nat, v: Value)
    requires n < |before| && Replaces(after, before, n, v)
    ensures Replaces(after + rest, before + rest, n, v)
  {
  }

  lemma ReplacesRight(first: seq<Leaf>, after: seq<Leaf>, before: seq<Leaf>, n: nat, v: Value)
    requires n < |before| && Replaces(after, before, n, v)
    ensures Replaces(first + after, first + before, |first| + n, v)
  {
  }

  /** Setting under a key that is there. */
  lemma SetUnderKey(j: Value, k: string, p: Path, v: Value)
    requires j.Object? && k in j.fields && p != []
    ensures SetSegments(j, [Key(k)] + p, v) == Object(j.fields[k := SetSegments(j.fields[k], p, v)])
  {
    assert ([Key(k)] + p)[1..] == p;
  }

  lemma SetUnderIndex(j: Value, i: nat, p: Path, v: Value)
    requires j.Array? && i < |j.items| && p != []
    ensures SetSegments(j, [Index(i)] + p, v) == Array(j.items[i := SetSegments(j.items[i], p, v)])
  {
    assert ([Index(i)] + p)[1..] == p;
  }

  /** The listing of other keys does not see a change under k. */
  lemma {:induction false} OtherKeys(j: Value, k: string, x: Value, keys: seq<string>)
    requires j.Object? && k in j.fields && k !in keys
    requires forall q | q in keys :: q in j.fields
    ensures LeavesOfKeys(Object(j.fields[k := x]), keys) == LeavesOfKeys(j, keys)
  {
    if keys != [] {
      OtherKeys(j, k, x, keys[1..]);
    }
  }

  lemma {:induction false} OtherItems(j: Value, i: nat, x: Value, from: nat)
    requires j.Array? && i < from <= |j.items|
    ensures LeavesOfItems(Array(j.items[i := x]), from) == LeavesOfItems(j, from)
    decreases |j.items| - from
  {
    if from < |j.items| {
      OtherItems(j, i, x, from + 1);
    }
  }

  /** Setting v at leaf n: the listing changes in that one value, setting the old value
      back restores everything, and the path stays inside what is there. */
  ghost predicate SetsOneLeaf(j: Value, leaves: seq<Leaf>, n: nat, v: Value)
    requires n < |leaves|
  {
    && leaves[n].0 != [] && !IsContainer(leaves[n].1)
    && SetSegments(SetSegments(j, leaves[n].0, v), leaves[n].0, leaves[n].1) == j
  }

  /** Main structural result, for every JSON value and every leaf of it. */
  lemma {:induction false} SetLeaf(j: Value, n: nat, v: Value)
    requires n < |Leaves(j)| && !IsContainer(v)
    ensures SetsOneLeaf(j, Leaves(j), n, v)
    ensures Replaces(Leaves(SetSegments(j, Leaves(j)[n].0, v)), Leaves(j), n, v)
    ensures j.Object? <==> SetSegments(j, Leaves(j)[n].0, v).Object?
    ensures IsContainer(j) && IsContainer(SetSegments(j, Leaves(j)[n].0, v))
    decreases j, 3, 0
  {
    if j.Object? {
      SetObjectLeaf(j, n, v);
    } else if j.Array? {
      var i, p, x := SetAmongItems(j, 0, n, v);
    }
  }

  lemma {:induction false} SetObjectLeaf(j: Value, n: nat, v: Value)
    requires j.Object? && n < |Leaves(j)| && !IsContainer(v)
    ensures SetsOneLeaf(j, Leaves(j), n, v)
    ensures Replaces(Leaves(SetSegments(j, Leaves(j)[n].0, v)), Leaves(j), n, v)
    ensures SetSegments(j, Leaves(j)[n].0, v).Object?
    decreases j, 2, 0
  {
    var keys := SortedKeys(j.fields.Keys);
    assert forall k | k in keys :: k in Elements(keys);
    var k, p, x := SetAmongKeys(j, keys, n, v);
    assert j.fields[k := x].Keys == j.fields.Keys;
  }

  /** The leaf n among the listed keys lies under one of them. */
  lemma {:induction false} SetAmongKeys(j: Value, keys: seq<string>, n: nat, v: Value)
    returns (k: string, p: Path, x: Value)
    requires j.Object? && Distinct(keys) && !IsContainer(v)
    requires forall q | q in keys :: q in j.fields
    requires n < |LeavesOfKeys(j, keys)|
    ensures k in keys && SetSegments(j, LeavesOfKeys(j, keys)[n].0, v) == Object(j.fields[k := x])
    ensures SetsOneLeaf(j, LeavesOfKeys(j, keys), n, v)
    ensures Replaces(LeavesOfKeys(Object(j.fields[k := x]), keys), LeavesOfKeys(j, keys), n, v)
    decreases j, 1, |keys|
  {
    var first := LeavesOfKey(j, keys[0]);
    var rest := LeavesOfKeys(j, keys[1..]);
    var others := keys[1..];
    forall a, b | 0 <= a < b < |others| ensures others[a] != others[b] { assert keys[a + 1] != keys[b + 1]; }
    forall a | 0 <= a < |others| ensures others[a] != keys[0] { assert keys[0] != keys[a + 1]; }
    if n < |first| {
      k := keys[0];
      p, x := SetUnderOneKey(j, k, n, v);
      OtherKeys(j, k, x, others);
      ReplacesLeft(LeavesOfKey(Object(j.fields[k := x]), k), first, rest, n, v);
    } else {
      k, p, x := SetAmongKeys(j, others, n - |first|, v);
      var j' := Object(j.fields[k := x]);
      assert LeavesOfKey(j', keys[0]) == first;
      ReplacesRight(first, LeavesOfKeys(j', others), rest, n - |first|, v);
      assert LeavesOfKeys(j, keys)[n] == rest[n - |first|];
    }
  }

  lemma {:induction false} SetUnderOneKey(j: Value, k: string, n: nat, v: Value) returns (p: Path, x: Value)
    requires j.Object? && k in j.fields && !IsContainer(v) && n < |LeavesOfKey(j, k)|
    ensures SetSegments(j, LeavesOfKey(j, k)[n].0, v) == Object(j.fields[k := x])
    ensures SetsOneLeaf(j, LeavesOfKey(j, k), n, v)
    ensures Replaces(LeavesOfKey(Object(j.fields[k := x]), k), LeavesOfKey(j, k), n, v)
    decreases j, 0, 0
  {
    var child := j.fields[k];
    if IsContainer(child) {
      var leaf := Leaves(child)[n];
      SetLeaf(child, n, v);
      p, x := leaf.0, SetSegments(child, leaf.0, v);
      var j' := Object(j.fields[k := x]);
      SetUnderKey(j, k, p, v);
      SetUnderKey(j', k, p, leaf.1);
      UnderReplaces(Key(k), Leaves(x), Leaves(child), n, v);
      assert j'.fields[k := child] == j.fields;
    } else {
      p, x := [], v;
      assert j.fields[k := v][k := child] == j.fields;
    }
  }

  lemma {:induction false} SetAmongItems(j: Value, from: nat, n: nat, v: Value)
    returns (i: nat, p: Path, x: Value)
    requires j.Array? && from <= |j.items| && !IsContainer(v) && n < |LeavesOfItems(j, from)|
    ensures from <= i < |j.items| && SetSegments(j, LeavesOfItems(j, from)[n].0, v) == Array(j.items[i := x])
    ensures SetsOneLeaf(j, LeavesOfItems(j, from), n, v)
    ensures Replaces(LeavesOfItems(Array(j.items[i := x]), from), LeavesOfItems(j, from), n, v)
    decreases j, 1, |j.items| - from
  {
    var first := Under(Index(from), Leaves(j.items[from]));
    var rest := LeavesOfItems(j, from + 1);
    if n < |first| {
      i := from;
      p, x := SetUnderOneItem(j, i, n, v);
      OtherItems(j, i, x, from + 1);
      ReplacesLeft(Under(Index(i), Leaves(x)), first, rest, n, v);
    } else {
      i, p, x := SetAmongItems(j, from + 1, n - |first|, v);
      ReplacesRight(first, LeavesOfItems(Array(j.items[i := x]), from + 1), rest, n - |first|, v);
      assert LeavesOfItems(j, from)[n] == rest[n - |first|];
    }
  }

  lemma {:induction false} SetUnderOneItem(j: Value, i: nat, n: nat, v: Value) returns (p: Path, x: Value)
    requires j.Array? && i < |j.items| && !IsContainer(v) && n < |Leaves(j.items[i])|
    ensures SetSegments(j, Under(Index(i), Leaves(j.items[i]))[n].0, v) == Array(j.items[i := x])
    ensures SetsOneLeaf(j, Under(Index(i), Leaves(j.items[i])), n, v)
    ensures Replaces(Under(Index(i), Leaves(x)), Under(Index(i), Leaves(j.items[i])), n, v)
    decreases j, 0, 0
  {
    var child := j.items[i];
    var leaf := Leaves(child)[n];
    SetLeaf(child, n, v);
    p, x := leaf.0, SetSegments(child, leaf.0, v);
    var j' := Array(j.items[i := x]);
    SetUnderIndex(j, i, p, v);
    SetUnderIndex(j', i, p, leaf.1);
    UnderReplaces(Index(i), Leaves(x), Leaves(child), n, v);
    assert j'.items[i := child] == j.items;
  }

  // ---- a set determines its path ----

  /** A set along a path that is there puts the value there and keeps the kind. */
  lemma {:induction false} SetIsSeen(j: Value, p: Path, x: Value, v: Value)
    requires p != [] && Follow(j, p) == Some(x)
    ensures Follow(SetSegments(j, p, v), p) == Some(v)
    ensures IsContainer(SetSegments(j, p, v))
    decreases |p|
  {
    if |p| > 1 {
      SetIsSeen(Get(j, p[0]).value, p[1..], x, v);
    }
  }

  /** If a set along any path q does what a set at a scalar's path p does, then q is p. */
  lemma {:induction false} SetDetermines(j: Value, p: Path, q: Path, x: Value, v: Value)
    requires p != [] && Follow(j, p) == Some(x) && !IsContainer(x) && !IsContainer(v) && x != v
    requires SetSegments(j, q, v) == SetSegments(j, p, v)
    ensures q == p
    decreases |p|
  {
    SetIsSeen(j, p, x, v);
    SameFirst(j, p, q, x, v);
    if |p| > 1 {
      SetDetermines(Get(j, p[0]).value, p[1..], q[1..], x, v);
    }
    assert p == [p[0]] + p[1..] && q == [q[0]] + q[1..];
  }

  /** What a set along q does to a child that is there: nothing, unless q starts there. */
  lemma ChildAfterSet(j: Value, q: Path, v: Value, seg: Segment)
    requires Get(j, seg).Some?
    ensures var child := Get(j, seg).value;
            Get(SetSegments(j, q, v), seg) == Some(
              if q == [] || q[0] != seg then child else if |q| == 1 then v else SetSegments(child, q[1..], v))
  {
  }

  lemma ScalarUnmoved(x: Value, q: Path, v: Value)
    requires !IsContainer(x)
    ensures SetSegments(x, q, v) == x
  {
  }

  lemma SameFirst(j: Value, p: Path, q: Path, x: Value, v: Value)
    requires p != [] && Follow(j, p) == Some(x) && !IsContainer(x) && !IsContainer(v) && x != v
    requires SetSegments(j, q, v) == SetSegments(j, p, v)
    ensures q != [] && q[0] == p[0] && (|q| == 1 <==> |p| == 1)
    ensures |p| > 1 ==>
              SetSegments(Get(j, p[0]).value, q[1..], v) == SetSegments(Get(j, p[0]).value, p[1..], v)
  {
    var child := Get(j, p[0]).value;
    ChildAfterSet(j, p, v, p[0]);
    ChildAfterSet(j, q, v, p[0]);
    if |p| == 1 {
      assert Follow(child, p[1..]) == Some(child) && child == x;
      if |q| > 1 { ScalarUnmoved(x, q[1..], v); }
    } else {
      SetIsSeen(child, p[1..], x, v);
    }
  }

  // ---- the analyser and the setter agree ----

  /** The parameter at leaf n of an object is named by the text of the leaf's position. */
  lemma ParamsAreLeaves(body: Value)
    requires body.Object?
    ensures |Analyzed(body)| == |Leaves(body)|
    ensures forall n | 0 <= n < |Leaves(body)| ::
              Analyzed(body)[n] == Param(EmittedText("", Leaves(body)[n].0), Leaves(body)[n].1)
  {
    WalkedIsLeaves(body, "");
  }

  lemma LeafOfObjectUnderKey(body: Value, n: nat)
    requires body.Object? && n < |Leaves(body)|
    ensures var p := Leaves(body)[n].0; p != [] && p[0].Key? && Follow(body, p) == Some(Leaves(body)[n].1)
    ensures !IsContainer(Leaves(body)[n].1)
  {
    LeafHolds(body, n);
    assert Get(body, Leaves(body)[n].0[0]).Some?;
  }

  /** Main result, for every object and every leaf: the path the analyser emits, fed to the
      setter with another scalar, sets that leaf if and only if every key on the way to the
      leaf is plain. */
  lemma EmittedPathSetsLeafIff(body: Value, n: nat, v: Value)
    requires body.Object? && n < |Leaves(body)| && !IsContainer(v) && v != Leaves(body)[n].1
    ensures |Analyzed(body)| == |Leaves(body)|
    ensures SetJsonPath(body, Analyzed(body)[n].name, v) == SetSegments(body, Leaves(body)[n].0, v)
       <==> PlainPath(Leaves(body)[n].0)
  {
    var p := Leaves(body)[n].0;
    var name := EmittedText("", p);
    ParamsAreLeaves(body);
    LeafOfObjectUnderKey(body, n);
    if PlainPath(p) {
      PlainTextParses(p);
    }
    if SetSegments(body, ParsePath(name), v) == SetSegments(body, p, v) {
      SetDetermines(body, p, ParsePath(name), Leaves(body)[n].1, v);
      ParsedKeysArePlain(name, "");
    }
  }

  lemma PlainTextParses(p: Path)
    requires p != [] && p[0].Key? && PlainPath(p)
    ensures ParsePath(EmittedText("", p)) == p
  {
    assert PlainSegment(p[0]);
    EmittedIsPathText(p);
    ParseInvertsPath(p);
  }

  /** When the keys on the way are plain, whatever the other keys: the analyser finds the
      same paths in the result, the new value at this one and the old values elsewhere, and
      setting the old value back gives the original body. */
  lemma EmittedPathSetsThatLeaf(body: Value, n: nat, v: Value)
    requires body.Object? && !IsContainer(v)
    requires n < |Leaves(body)| && PlainPath(Leaves(body)[n].0)
    ensures |Analyzed(body)| == |Leaves(body)|
    ensures var before := Analyzed(body);
            var body' := SetJsonPath(body, before[n].name, v);
            && Analyzed(body') == before[n := Param(before[n].name, v)]
            && SetJsonPath(body', before[n].name, before[n].sample) == body
  {
    var p := Leaves(body)[n].0;
    ParamsAreLeaves(body);
    LeafOfObjectUnderKey(body, n);
    PlainTextParses(p);
    SetLeaf(body, n, v);
    var body' := SetSegments(body, p, v);
    WalkedIsLeaves(body, "");
    WalkedIsLeaves(body', "");
    ParamsReplace(Leaves(body'), Leaves(body), n, v);
  }

  lemma ParamsReplace(after: seq<Leaf>, before: seq<Leaf>, n: nat, v: Value)
    requires n < |before| && Replaces(after, before, n, v)
    ensures Params("", after) == Params("", before)[n := Param(Params("", before)[n].name, v)]
  {
  }

  /** The shortest failures: the sole field of an object is set by its own emitted path if
      and only if its key is plain. */
  lemma KeySetsItselfIff(k: string, x: Value, v: Value)
    requires !IsContainer(x) && !IsContainer(v) && x != v
    ensures Analyzed(Object(map[k := x])) == [Param(k, x)]
    ensures SetJsonPath(Object(map[k := x]), k, v) == Object(map[k := v]) <==> PlainKey(k)
  {
    var body := Object(map[k := x]);
    SoleKey(k, x);
    EmittedPathSetsLeafIff(body, 0, v);
    ParamsAreLeaves(body);
    assert [Key(k)][1..] == [] && EmittedText("", [Key(k)]) == EmittedText(k, []) == k;
    assert SetSegments(body, [Key(k)], v) == Object(map[k := v]);
    assert PlainPath([Key(k)]) <==> PlainSegment([Key(k)][0]);
  }

  lemma SoleKey(k: string, x: Value)
    requires !IsContainer(x)
    ensures Leaves(Object(map[k := x])) == [([Key(k)], x)]
  {
    var body := Object(map[k := x]);
    var keys := SortedKeys(body.fields.Keys);
    assert Elements(keys) == {k};
    DistinctCard(keys);
    assert keys == [k] by { assert keys[0] in Elements(keys); }
    assert keys[1..] == [];
    assert LeavesOfKeys(body, keys) == LeavesOfKey(body, k) + [];
  }
}
