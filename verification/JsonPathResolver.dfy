/** Body tokens: the extractor that emits `$.a.b[0].k` paths (`token_extractor.rs`) and the
    workflow resolver that looks them up (`jsonpath.rs`), two separate pieces of code. */
module JsonPathResolver {
  import opened Text
  import opened Json
  import opened JsonPaths

  // ---- the extractor ----

  datatype TokenType = OauthAccess | Jwt | OauthRefresh | Csrf | ApiKey

  type Table = map<string, TokenType>

  const TOKEN_JSON_KEYS: Table :=
    map["access_token" := OauthAccess, "token" := OauthAccess, "id_token" := Jwt, "refresh_token" := OauthRefresh,
        "csrf_token" := Csrf, "csrf" := Csrf, "api_key" := ApiKey, "apiKey" := ApiKey]

  /** `str::len` counts UTF-8 bytes. */
  function ByteLength(s: string): nat {
    if s == "" then 0
    else (if s[0] < '\U{0080}' then 1 else if s[0] < '\U{0800}' then 2 else if s[0] < '\U{10000}' then 3 else 4)
         + ByteLength(s[1..])
  }

  /** A string worth extracting, under a key of the table. */
  predicate IsToken(table: Table, key: string, value: Value) {
    value.String? && ByteLength(value.text) > 5 && key in table
  }

  datatype Token = Token(kind: TokenType, value: string, jsonPath: string)

  function KeyPathText(prefix: string, key: string): string {
    if prefix == "" then "$." + key else prefix + "." + key
  }

  /** What walk_json pushes for a value whose textual path is `prefix`. */
  function Emitted(table: Table, j: Value, prefix: string): seq<Token>
    decreases j, 2, 0
  {
    match j
    case Object(fields) => EmittedKeys(table, j, prefix, SortedKeys(fields.Keys))
    case Array(items) => EmittedItems(table, j, prefix, 0)
    case _ => []
  }

  function EmittedKey(table: Table, j: Value, prefix: string, k: string): seq<Token>
    requires j.Object? && k in j.fields
    decreases j, 0, 0
  {
    var path := KeyPathText(prefix, k);
    if IsContainer(j.fields[k]) then Emitted(table, j.fields[k], path)
    else if IsToken(table, k, j.fields[k]) then [Token(table[k], j.fields[k].text, path)]
    else []
  }

  function EmittedKeys(table: Table, j: Value, prefix: string, keys: seq<string>): seq<Token>
    requires j.Object? && forall k | k in keys :: k in j.fields
    decreases j, 1, |keys|
  {
    if keys == [] then [] else EmittedKey(table, j, prefix, keys[0]) + EmittedKeys(table, j, prefix, keys[1..])
  }

  function EmittedItems(table: Table, j: Value, prefix: string, i: nat): seq<Token>
    requires j.Array? && i <= |j.items|
    decreases j, 1, |j.items| - i
  {
    if i == |j.items| then []
    else Emitted(table, j.items[i], ItemPath(prefix, i)) + EmittedItems(table, j, prefix, i + 1)
  }

  /** The tokens of a parsed body: none unless it is an object. */
  function BodyTokens(table: Table, body: Value): seq<Token> {
    if body.Object? then Emitted(table, body, "") else []
  }

  method WalkTokens(table: Table, obj: Value, prefix: string, out0: seq<Token>) returns (out: seq<Token>)
    ensures out == out0 + Emitted(table, obj, prefix)
    decreases obj, 1
  {
    out := out0;
    match obj {
      case Object(fields) =>
        var keys := SortedKeys(fields.Keys);
        assert forall k | k in keys :: k in Elements(keys);
        assert keys[0..] == keys;
        for n := 0 to |keys|
          invariant out + EmittedKeys(table, obj, prefix, keys[n..]) == out0 + EmittedKeys(table, obj, prefix, keys)
        {
          assert keys[n..][0] == keys[n] && keys[n..][1..] == keys[n + 1..];
          Regroup(out, EmittedKey(table, obj, prefix, keys[n]), EmittedKeys(table, obj, prefix, keys[n + 1..]));
          out := WalkField(table, obj, prefix, keys[n], out);
        }
        assert keys[|keys|..] == [] && out + [] == out;
      case Array(items) =>
        for i := 0 to |items|
          invariant out + EmittedItems(table, obj, prefix, i) == out0 + EmittedItems(table, obj, prefix, 0)
        {
          Regroup(out, Emitted(table, items[i], ItemPath(prefix, i)), EmittedItems(table, obj, prefix, i + 1));
          out := WalkTokens(table, items[i], ItemPath(prefix, i), out);
        }
        assert out + [] == out;
      case _ =>
        assert out + [] == out;
    }
  }

  /** One turn of the loop over the fields. */
  method WalkField(table: Table, obj: Value, prefix: string, key: string, out0: seq<Token>)
    returns (out: seq<Token>)
    requires obj.Object? && key in obj.fields
    ensures out == out0 + EmittedKey(table, obj, prefix, key)
    decreases obj, 0
  {
    var value, path := obj.fields[key], KeyPathText(prefix, key);
    out := out0;
    if value.String? {
      if ByteLength(value.text) > 5 && key in table {
        out := out + [Token(table[key], value.text, path)];
      } else {
        assert out + [] == out;
      }
    } else if IsContainer(value) {
      out := WalkTokens(table, value, path, out);
    } else {
      assert out + [] == out;
    }
  }

  method ExtractBodyTokens(body: Value) returns (tokens: seq<Token>)
    ensures tokens == BodyTokens(TOKEN_JSON_KEYS, body)
  {
    tokens := [];
    if body.Object? {
      tokens := WalkTokens(TOKEN_JSON_KEYS, body, "", tokens);
    }
  }

  // ---- where the tokens stand ----

  /** The text the extractor writes for a position. */
  function DollarText(at: Path): string {
    if at == [] then "" else "$" + TailText(at)
  }

  lemma DollarKey(at: Path, k: string)
    ensures KeyPathText(DollarText(at), k) == DollarText(at + [Key(k)])
  {
    TailTextAppend(at, Key(k));
    Regroup("$", TailText(at), "." + k);
    Regroup("$" + TailText(at), ".", k);
    assert "$" + "" == "$" && "$" + "." == "$.";
  }

  lemma DollarIndex(at: Path, i: nat)
    requires at != []
    ensures ItemPath(DollarText(at), i) == DollarText(at + [Index(i)])
  {
    var digits := PrintNat(i);
    TailTextAppend(at, Index(i));
    Regroup("$", TailText(at), "[" + digits + "]");
    Regroup("$" + TailText(at), "[" + digits, "]");
    Regroup("$" + TailText(at), "[", digits);
  }

  /** No leaf position is missed. */
  lemma {:induction false} EveryLeafIsListed(j: Value, p: Path, v: Value)
    requires HoldsLeaf(j, p, v)
    ensures (p, v) in Leaves(j)
    decreases |p|
  {
    var rest := p[1..];
    assert p == [p[0]] + rest;
    if rest == [] {
      assert p == [Key(p[0].name)];
      HoldsAtKey(j, p[0].name, v);
      assert LeavesOfKey(j, p[0].name) == [(p, v)];
      AmongKeys(j, SortedKeys(j.fields.Keys), p[0].name, (p, v));
    } else {
      var child := Get(j, p[0]).value;
      HoldsUnder(j, p[0], rest, v);
      EveryLeafIsListed(child, rest, v);
      ListedUnder(j, p[0], rest, v);
    }
  }

  lemma ListedUnder(j: Value, seg: Segment, p: Path, v: Value)
    requires Get(j, seg).Some? && (p, v) in Leaves(Get(j, seg).value)
    ensures ([seg] + p, v) in Leaves(j)
  {
    var child := Get(j, seg).value;
    var n :| 0 <= n < |Leaves(child)| && Leaves(child)[n] == (p, v);
    assert Under(seg, Leaves(child))[n] == ([seg] + p, v);
    match seg
    case Key(k) => AmongKeys(j, SortedKeys(j.fields.Keys), k, ([seg] + p, v));
    case Index(i) => AmongItems(j, 0, i, ([seg] + p, v));
  }

  lemma {:induction false} AmongKeys(j: Value, keys: seq<string>, k: string, leaf: Leaf)
    requires j.Object? && forall q | q in keys :: q in j.fields
    requires k in Elements(keys) && leaf in LeavesOfKey(j, k)
    ensures leaf in LeavesOfKeys(j, keys)
  {
    if keys[0] != k {
      AmongKeys(j, keys[1..], k, leaf);
    }
  }

  lemma {:induction false} AmongItems(j: Value, from: nat, i: nat, leaf: Leaf)
    requires j.Array? && from <= i < |j.items| && leaf in Under(Index(i), Leaves(j.items[i]))
    ensures leaf in LeavesOfItems(j, from)
    decreases i - from
  {
    if from != i {
      AmongItems(j, from + 1, i, leaf);
    }
  }

  // ---- the extractor in terms of leaves ----

  /** The token at a leaf, if its key is in the table and its value is a long enough string. */
  function TokenOf(table: Table, at: Path, leaf: Leaf): seq<Token> {
    var p := leaf.0;
    if p != [] && p[|p| - 1].Key? && IsToken(table, p[|p| - 1].name, leaf.1)
    then [Token(table[p[|p| - 1].name], leaf.1.text, DollarText(at + p))]
    else []
  }

  function TokensOf(table: Table, at: Path, leaves: seq<Leaf>): seq<Token> {
    if leaves == [] then [] else TokenOf(table, at, leaves[0]) + TokensOf(table, at, leaves[1..])
  }

  lemma TokensOfHead(table: Table, at: Path, leaf: Leaf, rest: seq<Leaf>)
    ensures TokensOf(table, at, [leaf] + rest) == TokenOf(table, at, leaf) + TokensOf(table, at, rest)
  {
    assert ([leaf] + rest)[1..] == rest;
  }

  lemma {:induction false} TokensOfConcat(table: Table, at: Path, a: seq<Leaf>, b: seq<Leaf>)
    ensures TokensOf(table, at, a + b) == TokensOf(table, at, a) + TokensOf(table, at, b)
  {
    if a == [] {
      assert a + b == b;
    } else {
      var leaf, rest := a[0], a[1..];
      assert a == [leaf] + rest && a + b == [leaf] + (rest + b);
      TokensOfConcat(table, at, rest, b);
      TokensOfHead(table, at, leaf, rest);
      TokensOfHead(table, at, leaf, rest + b);
      Regroup(TokenOf(table, at, leaf), TokensOf(table, at, rest), TokensOf(table, at, b));
    }
  }

  lemma TokenUnder(table: Table, at: Path, seg: Segment, p: Path, v: Value)
    requires p != []
    ensures TokenOf(table, at, ([seg] + p, v)) == TokenOf(table, at + [seg], (p, v))
  {
    var q := [seg] + p;
    assert q[|q| - 1] == p[|p| - 1];
    assert at + q == (at + [seg]) + p;
  }

  lemma {:induction false} TokensUnder(table: Table, at: Path, seg: Segment, leaves: seq<Leaf>)
    requires forall n | 0 <= n < |leaves| :: leaves[n].0 != []
    ensures TokensOf(table, at, Under(seg, leaves)) == TokensOf(table, at + [seg], leaves)
  {
    if leaves != [] {
      TokenUnder(table, at, seg, leaves[0].0, leaves[0].1);
      assert Under(seg, leaves)[1..] == Under(seg, leaves[1..]);
      TokensUnder(table, at, seg, leaves[1..]);
    }
  }

  /** The tokens below one position are those of the leaves below it. */
  lemma {:induction false} TokensBelow(table: Table, child: Value, at: Path, seg: Segment)
    requires at == [] ==> seg.Key?
    ensures TokensOf(table, at, Under(seg, Leaves(child))) == Emitted(table, child, DollarText(at + [seg]))
    decreases child, 3, 0
  {
    forall n | 0 <= n < |Leaves(child)| ensures Leaves(child)[n].0 != [] { LeafHolds(child, n); }
    TokensUnder(table, at, seg, Leaves(child));
    EmittedIsTokens(table, child, at + [seg]);
  }

  /** The walk emits the token of each leaf, in the order of the leaves. */
  lemma {:induction false} EmittedIsTokens(table: Table, j: Value, at: Path)
    requires at == [] ==> j.Object?
    ensures Emitted(table, j, DollarText(at)) == TokensOf(table, at, Leaves(j))
    decreases j, 2, 0
  {
    match j
    case Object(fields) => EmittedKeysIsTokens(table, j, at, SortedKeys(fields.Keys));
    case Array(items) => EmittedItemsIsTokens(table, j, at, 0);
    case _ =>
  }

  lemma {:induction false} EmittedKeysIsTokens(table: Table, j: Value, at: Path, keys: seq<string>)
    requires j.Object? && forall k | k in keys :: k in j.fields
    ensures EmittedKeys(table, j, DollarText(at), keys) == TokensOf(table, at, LeavesOfKeys(j, keys))
    decreases j, 1, |keys|
  {
    if keys != [] {
      EmittedKeyIsTokens(table, j, at, keys[0]);
      EmittedKeysIsTokens(table, j, at, keys[1..]);
      TokensOfConcat(table, at, LeavesOfKey(j, keys[0]), LeavesOfKeys(j, keys[1..]));
    }
  }

  lemma {:induction false} EmittedKeyIsTokens(table: Table, j: Value, at: Path, k: string)
    requires j.Object? && k in j.fields
    ensures EmittedKey(table, j, DollarText(at), k) == TokensOf(table, at, LeavesOfKey(j, k))
    decreases j, 0, 0
  {
    DollarKey(at, k);
    if IsContainer(j.fields[k]) {
      TokensBelow(table, j.fields[k], at, Key(k));
    } else {
      var leaf: Leaf := ([Key(k)], j.fields[k]);
      var leaves: seq<Leaf> := [leaf];
      assert LeavesOfKey(j, k) == leaves && leaves[1..] == [];
      assert TokenOf(table, at, leaf) + [] == TokenOf(table, at, leaf);
    }
  }

  lemma {:induction false} EmittedItemsIsTokens(table: Table, j: Value, at: Path, i: nat)
    requires j.Array? && at != [] && i <= |j.items|
    ensures EmittedItems(table, j, DollarText(at), i) == TokensOf(table, at, LeavesOfItems(j, i))
    decreases j, 1, |j.items| - i
  {
    if i < |j.items| {
      DollarIndex(at, i);
      TokensBelow(table, j.items[i], at, Index(i));
      EmittedItemsIsTokens(table, j, at, i + 1);
      TokensOfConcat(table, at, Under(Index(i), Leaves(j.items[i])), LeavesOfItems(j, i + 1));
    }
  }

  // ---- exactly the tokens of the body ----

  /** A position of the body that holds a token, and the token extracted there. */
  ghost predicate Located(table: Table, body: Value, p: Path, t: Token) {
    HoldsLeaf(body, p, String(t.value)) && TokenOf(table, [], (p, String(t.value))) == [t]
  }

  lemma {:induction false} TokenHasLeaf(table: Table, leaves: seq<Leaf>, t: Token) returns (n: nat)
    requires t in TokensOf(table, [], leaves)
    ensures n < |leaves| && leaves[n].1 == String(t.value) && TokenOf(table, [], leaves[n]) == [t]
  {
    if t in TokenOf(table, [], leaves[0]) {
      n := 0;
    } else {
      n := TokenHasLeaf(table, leaves[1..], t);
      n := n + 1;
    }
  }

  lemma {:induction false} LeafHasToken(table: Table, leaves: seq<Leaf>, leaf: Leaf, t: Token)
    requires leaf in leaves && TokenOf(table, [], leaf) == [t]
    ensures t in TokensOf(table, [], leaves)
  {
    if leaves[0] != leaf {
      LeafHasToken(table, leaves[1..], leaf, t);
    }
  }

  lemma TokenIsLocated(table: Table, body: Value, t: Token) returns (p: Path)
    requires t in BodyTokens(table, body)
    ensures Located(table, body, p, t)
  {
    EmittedIsTokens(table, body, []);
    var n := TokenHasLeaf(table, Leaves(body), t);
    LeafHolds(body, n);
    p := Leaves(body)[n].0;
  }

  lemma LocatedIsToken(table: Table, body: Value, p: Path, t: Token)
    requires body.Object? && Located(table, body, p, t)
    ensures t in BodyTokens(table, body)
  {
    EveryLeafIsListed(body, p, String(t.value));
    EmittedIsTokens(table, body, []);
    LeafHasToken(table, Leaves(body), (p, String(t.value)), t);
  }

  /** Main result: the extractor yields exactly the tokens of the body, nothing else and
      none missed: strings of more than five bytes that stand under a key of the table. */
  lemma TokensAreWhatTheBodyHolds(table: Table, body: Value, t: Token)
    requires body.Object?
    ensures t in BodyTokens(table, body) <==> exists p :: Located(table, body, p, t)
  {
    if t in BodyTokens(table, body) {
      var p := TokenIsLocated(table, body, t);
    }
    forall p | Located(table, body, p, t) ensures t in BodyTokens(table, body) {
      LocatedIsToken(table, body, p, t);
    }
  }

  // ---- the resolver ----

  /** Everything after the first c. */
  function After(s: string, c: char): (r: string)
    ensures s != "" ==> |r| < |s|
  {
    var front := Before(s, c);
    if |front| < |s| then s[|front| + 1..] else ""
  }

  /** The bracket indices of a segment; text between brackets is skipped, a bracket that does
      not hold a number, or is not closed, makes the segment malformed. */
  function Indices(s: string): Option<seq<nat>>
    decreases |s|
  {
    if '[' !in s then Some([])
    else
      var remainder := After(s, '[');
      if ']' !in remainder then None
      else match ParseUsize(Trim(Before(remainder, ']')))
        case None => None
        case Some(i) => InFront([i], Indices(After(remainder, ']')))
  }

  function InFront(found: seq<nat>, more: Option<seq<nat>>): Option<seq<nat>> {
    if more.None? then None else Some(found + more.value)
  }

  lemma InFrontTwice(a: seq<nat>, b: seq<nat>, more: Option<seq<nat>>)
    ensures InFront(a, InFront(b, more)) == InFront(a + b, more)
    ensures InFront([], more) == more
  {
    if more.Some? {
      assert a + (b + more.value) == (a + b) + more.value;
      assert [] + more.value == more.value;
    }
  }

  /** split_indices: the name in front of the first bracket, and the indices. */
  function SplitIndices(token: string): Option<(string, seq<nat>)> {
    match Indices(token)
    case None => None
    case Some(indices) => Some((Before(token, '['), indices))
  }

  function Indexes(indices: seq<nat>): (r: Path)
    ensures |r| == |indices|
    ensures forall k | 0 <= k < |r| :: r[k] == Index(indices[k])
  {
    seq(|indices|, k requires 0 <= k < |indices| => Index(indices[k]))
  }

  function Steps(name: string, indices: seq<nat>): Path {
    (if name == "" then [] else [Key(name)]) + Indexes(indices)
  }

  /** One dotted segment stands for an optional key and then array indices. */
  function ApplyToken(j: Value, token: string): Option<Value> {
    match SplitIndices(token)
    case None => None
    case Some(split) => Follow(j, Steps(split.0, split.1))
  }

  function ApplyTokens(j: Value, tokens: seq<string>): Option<Value>
    decreases |tokens|
  {
    if tokens == [] then Some(j)
    else if Trim(tokens[0]) == "" then None
    else match ApplyToken(j, Trim(tokens[0]))
      case None => None
      case Some(child) => ApplyTokens(child, tokens[1..])
  }

  function SkipDots(s: string): string {
    if s != "" && s[0] == '.' then SkipDots(s[1..]) else s
  }

  /** The path without its dollar sign and leading dots. */
  function Bare(path: string): string {
    var t := Trim(path);
    if t != "" && t[0] == '$' then Trim(SkipDots(t[1..])) else t
  }

  function Resolve(doc: Value, path: string): Option<Value> {
    if Bare(path) == "" then Some(doc) else ApplyTokens(doc, SplitOn(Bare(path), '.'))
  }

  method SplitIndicesLoop(token: string) returns (r: Option<(string, seq<nat>)>)
    ensures r == SplitIndices(token)
  {
    var name := Before(token, '[');
    if |name| == |token| {
      return Some((token, []));
    }
    var indices: seq<nat> := [];
    var rest := token[|name|..];
    IndicesFromBracket(token);
    InFrontTwice([], [], Indices(rest));
    while '[' in rest
      invariant Indices(token) == InFront(indices, Indices(rest))
      decreases |rest|
    {
      var remainder := After(rest, '[');
      if ']' !in remainder {
        return None;
      }
      var index := ParseUsize(Trim(Before(remainder, ']')));
      if index.None? {
        return None;
      }
      rest := After(remainder, ']');
      InFrontTwice(indices, [index.value], Indices(rest));
      indices := indices + [index.value];
    }
    assert indices + [] == indices;
    r := Some((name, indices));
  }

  /** Reading may start at the first bracket. */
  lemma IndicesFromBracket(token: string)
    requires '[' in token
    ensures '[' in token[|Before(token, '[')|..]
    ensures Indices(token[|Before(token, '[')|..]) == Indices(token)
  {
    AfterFromBracket(token);
  }

  lemma AfterFromBracket(token: string)
    requires '[' in token
    ensures var rest := token[|Before(token, '[')|..]; '[' in rest && After(rest, '[') == After(token, '[')
  {
    var name := Before(token, '[');
    var rest := token[|name|..];
    assert rest[0] == '[';
    assert Before(rest, '[') == "";
    assert rest[1..] == token[|name| + 1..];
  }

  method ApplyTokenLoop(value: Value, token: string) returns (r: Option<Value>)
    ensures r == ApplyToken(value, token)
  {
    var split := SplitIndicesLoop(token);
    if split.None? {
      return None;
    }
    var (name, indices) := split.value;
    ghost var keys := if name == "" then [] else [Key(name)];
    var current := value;
    FollowConcat(value, keys, Indexes(indices));
    if name != "" {
      var child := Get(current, Key(name));
      assert keys[1..] == [];
      if child.None? {
        return None;
      }
      current := child.value;
    }
    ghost var steps := Indexes(indices);
    assert steps[0..] == steps;
    for n := 0 to |indices|
      invariant Follow(value, Steps(name, indices)) == Follow(current, steps[n..])
    {
      var child := Get(current, Index(indices[n]));
      assert steps[n..][0] == Index(indices[n]) && steps[n..][1..] == steps[n + 1..];
      if child.None? {
        return None;
      }
      current := child.value;
    }
    r := Some(current);
  }

  method ResolvePath(value: Value, path: string) returns (r: Option<Value>)
    ensures r == Resolve(value, path)
  {
    var trimmed := Trim(path);
    if trimmed != "" && trimmed[0] == '$' {
      trimmed := Trim(SkipDots(trimmed[1..]));
    }
    if trimmed == "" {
      return Some(value);
    }
    var tokens := SplitOn(trimmed, '.');
    var current := value;
    assert tokens[0..] == tokens;
    for n := 0 to |tokens|
      invariant Resolve(value, path) == ApplyTokens(current, tokens[n..])
    {
      var token := Trim(tokens[n]);
      assert tokens[n..][0] == tokens[n] && tokens[n..][1..] == tokens[n + 1..];
      if token == "" {
        return None;
      }
      var child := ApplyTokenLoop(current, token);
      if child.None? {
        return None;
      }
      current := child.value;
    }
    r := Some(current);
  }

  // ---- resolving what was emitted ----

  /** Keys the dotted text keeps apart. */
  predicate ReadableKey(k: string) {
    k != "" && '.' !in k && '[' !in k && !IsSpace(k[0])
  }

  predicate EndsInSpace(k: string) {
    k != "" && IsSpace(k[|k| - 1])
  }

  /** A segment whose dotted text is read as such when `rest` follows it: space at the end of
      a key is kept only in front of an index, since whole dotted segments are trimmed. */
  predicate Reads(seg: Segment, rest: Path) {
    seg.Key? ==> ReadableKey(seg.name) && (EndsInSpace(seg.name) ==> rest != [] && rest[0].Index?)
  }

  /** Every segment of the path is read back. */
  predicate ReadablePath(p: Path) {
    forall i | 0 <= i < |p| :: Reads(p[i], p[i + 1..])
  }

  lemma ReadableRest(p: Path)
    requires p != []
    ensures ReadablePath(p) <==> Reads(p[0], p[1..]) && ReadablePath(p[1..])
  {
    var rest := p[1..];
    forall i | 0 <= i < |rest| ensures rest[i] == p[i + 1] && rest[i + 1..] == p[i + 2..] {}
    if ReadablePath(p) {
      forall i | 0 <= i < |rest| ensures Reads(rest[i], rest[i + 1..]) { assert Reads(p[i + 1], p[i + 2..]); }
    }
    if Reads(p[0], rest) && ReadablePath(rest) {
      forall i | 0 <= i < |p| ensures Reads(p[i], p[i + 1..]) {
        if i > 0 { assert Reads(rest[i - 1], rest[i..]); }
      }
    }
  }

  /** A dotted segment, not yet complete, of which this much is read and p is to come. */
  predicate Opens(name: string, indices: seq<nat>, p: Path) {
    ReadableKey(name) && (EndsInSpace(name) && indices == [] ==> p != [] && p[0].Index?)
  }

  function IndexText(indices: seq<nat>): string {
    if indices == [] then "" else IndexText(indices[..|indices| - 1]) + "[" + PrintNat(indices[|indices| - 1]) + "]"
  }

  lemma IndexTextAppend(indices: seq<nat>, i: nat)
    ensures IndexText(indices + [i]) == IndexText(indices) + "[" + PrintNat(i) + "]"
  {
    assert (indices + [i])[..|indices|] == indices;
  }

  lemma {:induction false} IndexTextFront(i: nat, indices: seq<nat>)
    ensures IndexText([i] + indices) == "[" + PrintNat(i) + "]" + IndexText(indices)
  {
    if indices == [] {
      assert [i] + indices == [] + [i];
      IndexTextAppend([], i);
    } else {
      var init, last := indices[..|indices| - 1], indices[|indices| - 1];
      assert [i] + indices == ([i] + init) + [last] && indices == init + [last];
      IndexTextFront(i, init);
      IndexTextAppend([i] + init, last);
      Regroup("[" + PrintNat(i) + "]", IndexText(init) + "[" + PrintNat(last), "]");
      Regroup("[" + PrintNat(i) + "]", IndexText(init) + "[", PrintNat(last));
      Regroup("[" + PrintNat(i) + "]", IndexText(init), "[");
    }
  }

  lemma BeforeAt(a: string, c: char, b: string)
    requires c !in a
    ensures Before(a + [c] + b, c) == a && After(a + [c] + b, c) == b
  {
    var s := a + [c] + b;
    assert s[..|a|] == a;
    BeforeIs(s, c, |a|);
  }

  /** A printed number holds no bracket, no dot and no space. */
  lemma PrintedNumber(i: nat)
    ensures ParseUsize(Trim(PrintNat(i))) == Some(i)
    ensures ']' !in PrintNat(i) && '.' !in PrintNat(i)
  {
    UsizeReadsBack(i);
    PrintNatReads(i);
    assert NoEdgeSpace(PrintNat(i)) by { DigitsNoSpace(PrintNat(i)); }
    TrimClean(PrintNat(i));
  }

  lemma DigitsNoSpace(s: string)
    requires AllDigits(s)
    ensures NoEdgeSpace(s)
  {
    assert IsDigit(s[0]) && IsDigit(s[|s| - 1]);
  }

  lemma {:induction false} IndicesReadBack(indices: seq<nat>)
    ensures Indices(IndexText(indices)) == Some(indices)
  {
    if indices != [] {
      var i, more := indices[0], indices[1..];
      assert indices == [i] + more;
      IndexTextFront(i, more);
      IndicesReadBack(more);
      IndicesStep(i, IndexText(more));
    }
  }

  lemma IndicesStep(i: nat, rest: string)
    ensures Indices("[" + PrintNat(i) + "]" + rest) == InFront([i], Indices(rest))
  {
    var s := "[" + PrintNat(i) + "]" + rest;
    var remainder := PrintNat(i) + [']'] + rest;
    assert s == "" + ['['] + remainder;
    BeforeAt("", '[', remainder);
    PrintedNumber(i);
    BeforeAt(PrintNat(i), ']', rest);
    assert s[0] == '[' && remainder[|PrintNat(i)|] == ']';
  }

  /** A segment as the extractor writes it splits into its name and its indices. */
  lemma TokenReadsBack(name: string, indices: seq<nat>)
    requires '[' !in name
    ensures SplitIndices(name + IndexText(indices)) == Some((name, indices))
  {
    IndicesReadBack(indices);
    if indices == [] {
      assert name + "" == name;
    } else {
      IndexTextShape(indices);
      NameBeforeBracket(name, IndexText(indices));
    }
  }

  lemma NameBeforeBracket(name: string, tail: string)
    requires '[' !in name && tail != "" && tail[0] == '['
    ensures Before(name + tail, '[') == name && Indices(name + tail) == Indices(tail)
  {
    var s := name + tail;
    assert s[|name|] == '[' && s[..|name|] == name && s[|name|..] == tail;
    BeforeIs(s, '[', |name|);
    IndicesFromBracket(s);
  }

  lemma {:induction false} IndexTextShape(indices: seq<nat>)
    ensures '.' !in IndexText(indices)
    ensures indices != [] ==> (
              var s := IndexText(indices);
              s != "" && s[0] == '[' && s[|s| - 1] == ']')
  {
    if indices != [] {
      IndexTextShape(indices[..|indices| - 1]);
      PrintedNumber(indices[|indices| - 1]);
    }
  }

  lemma TokenIsClean(name: string, indices: seq<nat>)
    requires Opens(name, indices, [])
    ensures var s := name + IndexText(indices); s != "" && '.' !in s && NoEdgeSpace(s)
  {
    IndexTextShape(indices);
  }

  lemma OneToken(j: Value, name: string, indices: seq<nat>, rest: seq<string>)
    requires Opens(name, indices, [])
    ensures ApplyTokens(j, [name + IndexText(indices)] + rest) ==
            (match Follow(j, Begun(name, indices)) case None => None case Some(w) => ApplyTokens(w, rest))
  {
    var token := name + IndexText(indices);
    TokenIsClean(name, indices);
    TrimClean(token);
    TokenReadsBack(name, indices);
    assert ([token] + rest)[1..] == rest;
  }

  /** The part of a path that one dotted segment stands for. */
  function Begun(name: string, indices: seq<nat>): Path {
    [Key(name)] + Indexes(indices)
  }

  /** A text in the middle of whose first segment the rest of the path begins. */
  function Remaining(name: string, indices: seq<nat>, p: Path): string {
    name + IndexText(indices) + FrontText(p)
  }

  lemma RemainingIndex(name: string, indices: seq<nat>, i: nat, rest: Path)
    ensures Remaining(name, indices, [Index(i)] + rest) == Remaining(name, indices + [i], rest)
  {
    var one := "[" + PrintNat(i) + "]";
    IndexTextAppend(indices, i);
    Regroup(IndexText(indices), "[", PrintNat(i));
    Regroup(IndexText(indices), "[" + PrintNat(i), "]");
    assert ([Index(i)] + rest)[1..] == rest;
    Regroup(name, IndexText(indices), one);
    Regroup(name + IndexText(indices), one, FrontText(rest));
  }

  lemma BegunIndex(name: string, indices: seq<nat>, i: nat, rest: Path)
    ensures Begun(name, indices) + ([Index(i)] + rest) == Begun(name, indices + [i]) + rest
  {
    assert Indexes(indices + [i]) == Indexes(indices) + [Index(i)];
  }

  lemma RemainingKey(name: string, indices: seq<nat>, k: string, rest: Path)
    ensures Remaining(name, indices, [Key(k)] + rest) == name + IndexText(indices) + ['.'] + Remaining(k, [], rest)
  {
    assert ([Key(k)] + rest)[1..] == rest;
    assert k + "" == k;
    Regroup(".", k, FrontText(rest));
    Regroup(name + IndexText(indices), ".", k + FrontText(rest));
  }

  /** The rest of a path, met in the middle of a segment. */
  lemma {:induction false} TailResolves(j: Value, name: string, indices: seq<nat>, p: Path)
    requires Opens(name, indices, p) && ReadablePath(p)
    ensures ApplyTokens(j, SplitOn(Remaining(name, indices, p), '.')) == Follow(j, Begun(name, indices) + p)
    decreases |p|, 0
  {
    if p == [] {
      TokenIsClean(name, indices);
      assert Remaining(name, indices, p) == name + IndexText(indices);
      SplitWithout(name + IndexText(indices), '.');
      OneToken(j, name, indices, []);
      assert Begun(name, indices) + p == Begun(name, indices);
    } else {
      var rest := p[1..];
      assert p == [p[0]] + rest;
      ReadableRest(p);
      match p[0]
      case Index(i) =>
        RemainingIndex(name, indices, i, rest);
        BegunIndex(name, indices, i, rest);
        TailResolves(j, name, indices + [i], rest);
      case Key(k) =>
        NextKeyResolves(j, name, indices, k, rest);
    }
  }

  lemma SplitRemaining(name: string, indices: seq<nat>, k: string, rest: Path)
    requires Opens(name, indices, [])
    ensures SplitOn(Remaining(name, indices, [Key(k)] + rest), '.')
         == [name + IndexText(indices)] + SplitOn(Remaining(k, [], rest), '.')
  {
    var token, next := name + IndexText(indices), Remaining(k, [], rest);
    RemainingKey(name, indices, k, rest);
    TokenIsClean(name, indices);
    SplitConcat(token, '.', next);
    SplitWithout(token, '.');
  }

  lemma {:induction false} NextKeyResolves(j: Value, name: string, indices: seq<nat>, k: string, rest: Path)
    requires Opens(name, indices, []) && Opens(k, [], rest) && ReadablePath(rest)
    ensures ApplyTokens(j, SplitOn(Remaining(name, indices, [Key(k)] + rest), '.'))
         == Follow(j, Begun(name, indices) + ([Key(k)] + rest))
    decreases |rest|, 1
  {
    var next := Remaining(k, [], rest);
    SplitRemaining(name, indices, k, rest);
    OneToken(j, name, indices, SplitOn(next, '.'));
    FollowConcat(j, Begun(name, indices), [Key(k)] + rest);
    if Follow(j, Begun(name, indices)).Some? {
      TailResolves(Follow(j, Begun(name, indices)).value, k, [], rest);
      assert Begun(k, []) == [Key(k)];
    }
  }

  lemma {:induction false} FrontTextEnd(p: Path)
    requires ReadablePath(p) && p != []
    ensures var s := FrontText(p); s != "" && !IsSpace(s[|s| - 1])
  {
    var init, last := p[..|p| - 1], p[|p| - 1];
    assert p == init + [last];
    FrontTextAppend(init, last);
    assert Reads(last, p[|p|..]);
    SegmentEnd(last);
    var s, t := FrontText(p), SegmentText(last);
    assert s[|s| - 1] == t[|t| - 1];
  }

  lemma SegmentEnd(seg: Segment)
    requires seg.Key? ==> !EndsInSpace(seg.name)
    ensures var t := SegmentText(seg); t != "" && !IsSpace(t[|t| - 1])
  {
    if seg.Key? && seg.name != "" {
      assert ("." + seg.name)[|seg.name|] == seg.name[|seg.name| - 1];
    }
  }

  /** The resolver strips exactly the dollar sign and the dot. */
  lemma BareOfDollar(t: string)
    requires t != "" && NoEdgeSpace(t) && t[0] != '.'
    ensures Bare("$." + t) == t
  {
    var s := "$." + t;
    TrimClean(s);
    assert s[1..] == "." + t && ("." + t)[1..] == t;
    assert SkipDots(t) == t;
    TrimClean(t);
  }

  lemma PathTextIsClean(name: string, p: Path)
    requires Opens(name, [], p) && ReadablePath(p)
    ensures var t := name + FrontText(p); t != "" && NoEdgeSpace(t) && t[0] != '.'
  {
    if p != [] { FrontTextEnd(p); }
  }

  /** Main result: the resolver, given the text of a position, finds what stands there, or
      finds nothing when nothing stands there; in every document. */
  lemma ResolveFollows(doc: Value, p: Path)
    requires p != [] && p[0].Key? && ReadablePath(p)
    ensures Resolve(doc, DollarText(p)) == Follow(doc, p)
  {
    var name, rest := p[0].name, p[1..];
    ReadableRest(p);
    FrontIsTail(p);
    DollarSplit(name, rest);
    assert [Key(name)] + rest == p;
    PathTextIsClean(name, rest);
    BareOfDollar(name + FrontText(rest));
    TailResolves(doc, name, [], rest);
    assert Begun(name, []) == [Key(name)];
  }

  lemma DollarSplit(name: string, rest: Path)
    ensures "$" + FrontText([Key(name)] + rest) == "$." + (name + FrontText(rest))
    ensures Remaining(name, [], rest) == name + FrontText(rest)
  {
    assert ([Key(name)] + rest)[1..] == rest;
    Regroup(".", name, FrontText(rest));
    Regroup("$", ".", name + FrontText(rest));
    assert "$" + "." == "$." && name + "" == name;
  }

  /** For every token extracted from a body, looking its path up in the same body gives the
      token's value, provided the way to it is readable. */
  lemma TokenResolves(table: Table, body: Value, t: Token) returns (p: Path)
    requires t in BodyTokens(table, body)
    ensures Located(table, body, p, t)
    ensures ReadablePath(p) ==> Resolve(body, t.jsonPath) == Some(String(t.value))
  {
    p := TokenIsLocated(table, body, t);
    assert [] + p == p;
    if ReadablePath(p) {
      assert Get(body, p[0]).Some? && body.Object?;
      ResolveFollows(body, p);
    }
  }

  // ---- exactly which paths resolve ----

  lemma TrimKeeps(s: string)
    ensures NoEdgeSpace(Trim(s))
    ensures forall c | c in Trim(s) :: c in s
  {
    TrimStartKeeps(s);
    var t := TrimStart(s);
    var r := TrimEnd(t);
    assert forall c | c in r :: c in t;
    if r != "" { assert r[0] == t[0]; }
  }

  lemma {:induction false} TrimStartKeeps(s: string)
    ensures forall c | c in TrimStart(s) :: c in s
  {
    if s != "" && IsSpace(s[0]) {
      TrimStartKeeps(s[1..]);
    }
  }

  /** The smallest document in which a text stands at p. */
  function Sole(p: Path, text: string): Value
    decreases |p|
  {
    if p == [] then String(text)
    else match p[0]
      case Key(k) => Object(map[k := Sole(p[1..], text)])
      case Index(i) => Array(seq(i, _ => Null) + [Sole(p[1..], text)])
  }

  lemma {:induction false} SoleHolds(p: Path, text: string)
    ensures Follow(Sole(p, text), p) == Some(String(text))
    decreases |p|
  {
    if p != [] {
      SoleHolds(p[1..], text);
    }
  }

  /** It holds the text nowhere else. */
  lemma {:induction false} SoleDetermines(p: Path, text: string, q: Path)
    requires Follow(Sole(p, text), q) == Some(String(text))
    ensures q == p
    decreases |p|
  {
    if p != [] && q != [] {
      NothingInNull(q[1..]);
      if q[0] == p[0] {
        SoleDetermines(p[1..], text, q[1..]);
        assert p == [p[0]] + p[1..] && q == [q[0]] + q[1..];
      }
    }
  }

  lemma NothingInNull(q: Path)
    ensures Follow(Null, q) == if q == [] then Some(Null) else None
  {
  }

  /** Bracket indices in a trimmed segment are there if a bracket is. */
  lemma SplitIsReadable(token: string)
    requires token != "" && NoEdgeSpace(token) && '.' !in token && SplitIndices(token).Some?
    ensures var split := SplitIndices(token).value; ReadablePath(Steps(split.0, split.1))
  {
    var (name, indices) := SplitIndices(token).value;
    NameOfToken(token);
    var steps := Steps(name, indices);
    forall i | 0 <= i < |steps| ensures Reads(steps[i], steps[i + 1..]) {
      if steps[i].Key? {
        assert i == 0 && steps[0] == Key(name);
        if EndsInSpace(name) {
          assert '[' in token;
          assert |indices| > 0;
          assert steps[1] == Index(indices[0]);
        }
      }
    }
  }

  /** The name is the text in front of the first bracket, or all of it. */
  lemma NameOfToken(token: string)
    ensures var name := Before(token, '[');
            && name <= token && '[' !in name && (forall c | c in name :: c in token)
            && ('[' !in token ==> name == token)
  {
    var name := Before(token, '[');
    assert forall c | c in name :: c in token by {
      forall c | c in name ensures c in token {
        var i :| 0 <= i < |name| && name[i] == c;
        assert token[i] == c;
      }
    }
  }

  lemma ReadableConcat(p: Path, q: Path)
    requires ReadablePath(p) && ReadablePath(q)
    ensures ReadablePath(p + q)
  {
    var r := p + q;
    forall i | 0 <= i < |r| ensures Reads(r[i], r[i + 1..]) {
      if i < |p| {
        assert Reads(p[i], p[i + 1..]);
        assert r[i + 1..] == p[i + 1..] + q;
      } else {
        assert Reads(q[i - |p|], q[i - |p| + 1..]);
        assert r[i + 1..] == q[i - |p| + 1..];
      }
    }
  }

  /** Whatever dotted segments reach, they reach along a readable path. */
  lemma {:induction false} ReachedReadably(j: Value, tokens: seq<string>) returns (q: Path)
    requires ApplyTokens(j, tokens).Some? && forall i | 0 <= i < |tokens| :: '.' !in tokens[i]
    ensures ReadablePath(q) && Follow(j, q) == ApplyTokens(j, tokens)
    decreases |tokens|
  {
    q := [];
    if tokens != [] {
      var token := Trim(tokens[0]);
      TrimKeeps(tokens[0]);
      SplitIsReadable(token);
      var split := SplitIndices(token).value;
      var child := ApplyToken(j, token).value;
      var more := ReachedReadably(child, tokens[1..]);
      FollowConcat(j, Steps(split.0, split.1), more);
      ReadableConcat(Steps(split.0, split.1), more);
      q := Steps(split.0, split.1) + more;
    }
  }

  lemma ResolvedReadably(doc: Value, path: string) returns (q: Path)
    requires Resolve(doc, path).Some?
    ensures ReadablePath(q) && Follow(doc, q) == Resolve(doc, path)
  {
    if Bare(path) == "" {
      q := [];
    } else {
      PiecesLackSeparator(Bare(path), '.');
      q := ReachedReadably(doc, SplitOn(Bare(path), '.'));
    }
  }

  /** So in the smallest document of p no path at all leads to the text unless p is readable. */
  lemma SoleResolvesOnlyIfReadable(p: Path, text: string, path: string)
    requires Resolve(Sole(p, text), path) == Some(String(text))
    ensures ReadablePath(p)
  {
    var q := ResolvedReadably(Sole(p, text), path);
    SoleDetermines(p, text, q);
  }

  /** Position p holds this text and the text of p resolves to it. */
  ghost predicate Recovers(p: Path, text: string) {
    forall doc | Follow(doc, p) == Some(String(text)) :: Resolve(doc, DollarText(p)) == Some(String(text))
  }

  /** Main result, for every position under a key: in every document that holds a text there,
      the text of the position resolves to it, if and only if the position is readable. */
  lemma PathResolvesIff(p: Path, text: string)
    requires p != [] && p[0].Key?
    ensures Recovers(p, text) <==> ReadablePath(p)
  {
    if ReadablePath(p) {
      forall doc | Follow(doc, p) == Some(String(text)) ensures Resolve(doc, DollarText(p)) == Some(String(text)) {
        ResolveFollows(doc, p);
      }
    }
    if Recovers(p, text) {
      SoleHolds(p, text);
      SoleResolvesOnlyIfReadable(p, text, DollarText(p));
    }
  }

  /** The token that stands at p in every body that holds it there. */
  ghost predicate TokenStandsAt(table: Table, p: Path, t: Token) {
    p != [] && p[0].Key? && p[|p| - 1].Key? && TokenOf(table, [], (p, String(t.value))) == [t]
  }

  ghost predicate AlwaysResolves(table: Table, p: Path, t: Token) {
    forall body | Located(table, body, p, t) :: Resolve(body, t.jsonPath) == Some(String(t.value))
  }

  /** The same for what the extractor emits: a token's path resolves to it, in every body
      that holds it at p, if and only if p is readable. */
  lemma TokenResolvesIff(table: Table, p: Path, t: Token)
    requires TokenStandsAt(table, p, t)
    ensures AlwaysResolves(table, p, t) <==> ReadablePath(p)
  {
    assert [] + p == p && t.jsonPath == DollarText(p);
    if ReadablePath(p) {
      forall body | Located(table, body, p, t) ensures Resolve(body, t.jsonPath) == Some(String(t.value)) {
        ResolveFollows(body, p);
      }
    } else {
      UnreadableTokenIsLost(table, p, t);
    }
  }

  /** At every position that is not readable there is a token that does not resolve. */
  lemma UnreadableTokenIsLost(table: Table, p: Path, t: Token)
    requires TokenStandsAt(table, p, t) && !ReadablePath(p)
    ensures Located(table, Sole(p, t.value), p, t) && t in BodyTokens(table, Sole(p, t.value))
    ensures Resolve(Sole(p, t.value), t.jsonPath) != Some(String(t.value))
  {
    var body := Sole(p, t.value);
    SoleHolds(p, t.value);
    LocatedIsToken(table, body, p, t);
    if Resolve(body, t.jsonPath) == Some(String(t.value)) {
      SoleResolvesOnlyIfReadable(p, t.value, t.jsonPath);
    }
  }

  /** One such body: the space in front of the outer key is trimmed away. */
  lemma SpaceInFrontIsLost()
    ensures var body := Object(map[" a" := Object(map["token" := String("abcdef")])]);
            var t := Token(OauthAccess, "abcdef", "$. a.token");
            t in BodyTokens(TOKEN_JSON_KEYS, body) && Resolve(body, t.jsonPath) != Some(String(t.value))
  {
    var p := [Key(" a"), Key("token")];
    TokenUnderTwoKeys(" a", "$. a.token");
    assert !Reads(p[0], p[1..]);
    UnreadableTokenIsLost(TOKEN_JSON_KEYS, p, Token(OauthAccess, "abcdef", "$. a.token"));
    SoleTwoKeys(" a", "token", "abcdef");
  }

  lemma TokenUnderTwoKeys(a: string, path: string)
    requires path == "$." + a + "." + "token"
    ensures TokenStandsAt(TOKEN_JSON_KEYS, [Key(a), Key("token")], Token(OauthAccess, "abcdef", path))
  {
    var p := [Key(a), Key("token")];
    SixBytes();
    TwoKeysText(a, "token");
    assert [] + p == p;
    assert IsToken(TOKEN_JSON_KEYS, "token", String("abcdef"));
  }

  lemma SixBytes()
    ensures ByteLength("abcdef") == 6
  {
    assert "abcdef"[1..] == "bcdef" && "bcdef"[1..] == "cdef" && "cdef"[1..] == "def";
    assert "def"[1..] == "ef" && "ef"[1..] == "f" && "f"[1..] == "";
  }

  lemma TwoKeysText(a: string, b: string)
    ensures DollarText([Key(a), Key(b)]) == "$." + a + "." + b
  {
    DollarKey([], a);
    DollarKey([Key(a)], b);
    assert [] + [Key(a)] == [Key(a)] && [Key(a)] + [Key(b)] == [Key(a), Key(b)];
  }

  lemma SoleTwoKeys(a: string, b: string, text: string)
    ensures Sole([Key(a), Key(b)], text) == Object(map[a := Object(map[b := String(text)])])
  {
    var p := [Key(a), Key(b)];
    assert p[1..] == [Key(b)] && [Key(b)][1..] == [];
    assert Sole([], text) == String(text);
    assert Sole([Key(b)], text) == Object(map[b := String(text)]);
  }

  /** A sole field resolves by the path emitted for it iff its key is readable and does not
      end in space. */
  lemma KeyResolvesIff(k: string, text: string)
    ensures Resolve(Object(map[k := String(text)]), DollarText([Key(k)])) == Some(String(text))
       <==> ReadableKey(k) && !EndsInSpace(k)
  {
    var p := [Key(k)];
    assert p[1..] == [] && Sole(p, text) == Object(map[k := String(text)]);
    ReadableRest(p);
    SoleHolds(p, text);
    if ReadablePath(p) {
      ResolveFollows(Sole(p, text), p);
    }
    if Resolve(Sole(p, text), DollarText(p)) == Some(String(text)) {
      SoleResolvesOnlyIfReadable(p, text, DollarText(p));
    }
  }

  // ---- bodies all of whose tokens resolve ----

  /** A token stands at p below j. */
  ghost predicate TokenBelow(table: Table, j: Value, p: Path) {
    exists v :: HoldsLeaf(j, p, v) && IsToken(table, p[|p| - 1].name, v)
  }

  ghost predicate HoldsToken(table: Table, j: Value) {
    exists p :: TokenBelow(table, j, p)
  }

  /** What key k must be like, given the value v under it: anything, unless there are tokens. */
  ghost predicate FitKey(table: Table, k: string, v: Value) {
    (IsToken(table, k, v) || HoldsToken(table, v)) ==> ReadableKey(k) && (EndsInSpace(k) ==> v.Array?)
  }

  /** Told key by key: all keys above tokens are readable, and those that end in space hold
      arrays. */
  ghost predicate FitBody(table: Table, j: Value) {
    match j
    case Object(fields) => forall k | k in fields :: FitKey(table, k, fields[k]) && FitBody(table, fields[k])
    case Array(items) => forall i | 0 <= i < |items| :: FitBody(table, items[i])
    case _ => true
  }

  lemma LoneKeyReads(table: Table, j: Value, k: string, v: Value)
    requires FitBody(table, j) && HoldsLeaf(j, [Key(k)], v) && IsToken(table, k, v)
    ensures ReadablePath([Key(k)])
  {
    HoldsAtKey(j, k, v);
    assert FitKey(table, k, j.fields[k]);
    ReadableRest([Key(k)]);
  }

  /** The token is below a child, and the first segment reads if the key fits. */
  lemma FirstReads(table: Table, j: Value, seg: Segment, rest: Path)
    requires FitBody(table, j) && rest != [] && TokenBelow(table, j, [seg] + rest)
    ensures Get(j, seg).Some? && FitBody(table, Get(j, seg).value) && TokenBelow(table, Get(j, seg).value, rest)
    ensures Reads(seg, rest)
  {
    var p := [seg] + rest;
    var v :| HoldsLeaf(j, p, v) && IsToken(table, p[|p| - 1].name, v);
    assert p[0] == seg && p[1..] == rest && p[|p| - 1] == rest[|rest| - 1];
    var child := Get(j, seg).value;
    HoldsUnder(j, seg, rest, v);
    assert TokenBelow(table, child, rest);
    assert Get(child, rest[0]).Some?;
    if seg.Key? {
      assert FitKey(table, seg.name, child);
    }
  }

  lemma {:induction false} FitBodyReads(table: Table, j: Value, p: Path)
    requires FitBody(table, j) && TokenBelow(table, j, p)
    ensures ReadablePath(p)
    decreases |p|
  {
    var rest := p[1..];
    assert p == [p[0]] + rest;
    if rest == [] {
      var v :| HoldsLeaf(j, p, v) && IsToken(table, p[|p| - 1].name, v);
      LoneKeyReads(table, j, p[0].name, v);
    } else {
      FirstReads(table, j, p[0], rest);
      FitBodyReads(table, Get(j, p[0]).value, rest);
      ReadableRest(p);
    }
  }

  ghost predicate TokensReadable(table: Table, j: Value) {
    forall p | TokenBelow(table, j, p) :: ReadablePath(p)
  }

  /** A token below a child is a token below the value. */
  lemma BelowChild(table: Table, j: Value, seg: Segment, p: Path)
    requires Get(j, seg).Some? && TokenBelow(table, Get(j, seg).value, p)
    ensures TokenBelow(table, j, [seg] + p)
    ensures ReadablePath([seg] + p) ==> Reads(seg, p) && ReadablePath(p) && p != []
  {
    var v :| HoldsLeaf(Get(j, seg).value, p, v) && IsToken(table, p[|p| - 1].name, v);
    HoldsUnder(j, seg, p, v);
    assert ([seg] + p)[|p|] == p[|p| - 1];
    ReadableRest([seg] + p);
    assert ([seg] + p)[1..] == p;
  }

  lemma ChildTokensReadable(table: Table, j: Value, seg: Segment)
    requires TokensReadable(table, j) && Get(j, seg).Some?
    ensures TokensReadable(table, Get(j, seg).value)
  {
    forall p | TokenBelow(table, Get(j, seg).value, p) ensures ReadablePath(p) { BelowChild(table, j, seg, p); }
  }

  lemma FitsAbove(table: Table, j: Value, k: string)
    requires TokensReadable(table, j) && Get(j, Key(k)).Some?
    ensures FitKey(table, k, j.fields[k])
  {
    var v := j.fields[k];
    if IsToken(table, k, v) {
      HoldsAtKey(j, k, v);
      assert TokenBelow(table, j, [Key(k)]);
      ReadableRest([Key(k)]);
    }
    if p :| TokenBelow(table, v, p) {
      BelowChild(table, j, Key(k), p);
      assert Get(v, p[0]).Some?;
    }
  }

  /** That condition on the keys is exactly that all tokens stand at readable positions. */
  lemma {:induction false} FitBodyIff(table: Table, j: Value)
    ensures FitBody(table, j) <==> TokensReadable(table, j)
    decreases j
  {
    if FitBody(table, j) {
      forall p | TokenBelow(table, j, p) ensures ReadablePath(p) { FitBodyReads(table, j, p); }
    }
    if TokensReadable(table, j) {
      match j
      case Object(fields) =>
        forall k | k in fields ensures FitKey(table, k, fields[k]) && FitBody(table, fields[k]) {
          FitsAbove(table, j, k);
          ChildTokensReadable(table, j, Key(k));
          FitBodyIff(table, fields[k]);
        }
      case Array(items) =>
        forall i | 0 <= i < |items| ensures FitBody(table, items[i]) {
          ChildTokensReadable(table, j, Index(i));
          FitBodyIff(table, items[i]);
        }
      case _ =>
    }
  }

  /** In such a body every token resolves to its value. */
  lemma AllTokensResolve(table: Table, body: Value, t: Token)
    requires FitBody(table, body) && t in BodyTokens(table, body)
    ensures Resolve(body, t.jsonPath) == Some(String(t.value))
  {
    var p := TokenResolves(table, body, t);
    assert HoldsLeaf(body, p, String(t.value));
    FitBodyReads(table, body, p);
  }
}
