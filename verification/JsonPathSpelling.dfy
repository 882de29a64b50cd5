/** How freely a JSON path may be spelled for the resolver, and what counts as a token, said
    without the functions that read and select. */
module JsonPathSpelling {
  import opened Text
  import opened Json
  import opened JsonPaths
  import opened JsonPathResolver

  // ---- spelling ----

  /** A path in its plainest spelling: no space at its ends, no dollar sign or dot in front. */
  predicate PlainSpelling(path: string) {
    NoEdgeSpace(path) && (path != "" ==> path[0] != '$' && path[0] != '.')
  }

  predicate Dots(s: string) {
    forall i | 0 <= i < |s| :: s[i] == '.'
  }

  lemma {:induction false} DotsSkipped(dots: string, rest: string)
    requires Dots(dots) && (rest == "" || rest[0] != '.')
    ensures SkipDots(dots + rest) == rest
  {
    if dots == "" {
      assert dots + rest == rest;
    } else {
      assert (dots + rest)[1..] == dots[1..] + rest;
      DotsSkipped(dots[1..], rest);
    }
  }

  lemma SpacedInside(dots: string, b: string, path: string, c: string)
    requires Dots(dots) && Spaces(b) && Spaces(c) && PlainSpelling(path)
    ensures Trim(SkipDots(dots + (b + path + c))) == path
  {
    var rest := b + path + c;
    if rest != "" {
      assert rest[0] == if b != "" then b[0] else if path != "" then path[0] else c[0];
      assert rest[0] != '.';
    }
    DotsSkipped(dots, rest);
    TrimAround(b, path, c);
  }

  /** Space around the path, a dollar sign in front, dots and space behind it: none of this
      changes what the path resolves to. */
  lemma SpellingIgnored(doc: Value, a: string, dots: string, b: string, path: string, c: string)
    requires Spaces(a) && Dots(dots) && Spaces(b) && Spaces(c) && PlainSpelling(path)
    ensures Resolve(doc, a + path + c) == Resolve(doc, path)
    ensures Resolve(doc, a + ("$" + (dots + (b + path + c)))) == Resolve(doc, path)
  {
    TrimAround("", path, "");
    assert "" + path + "" == path;
    TrimAround(a, path, c);
    DollarIsDropped(a, dots, b, path, c);
  }

  lemma DollarIsDropped(a: string, dots: string, b: string, path: string, c: string)
    requires Spaces(a) && Dots(dots) && Spaces(b) && Spaces(c) && PlainSpelling(path)
    ensures Bare(a + ("$" + (dots + (b + path + c)))) == path
  {
    var text := a + ("$" + (dots + (b + path + c)));
    if path != "" {
      var core := "$" + (dots + (b + path));
      assert text == a + core + c;
      assert core[0] == '$' && core[|core| - 1] == path[|path| - 1];
      TrimAround(a, core, c);
      assert core[1..] == dots + (b + path + "");
      SpacedInside(dots, b, path, "");
    } else {
      EmptyBehindDollar(a, dots, b, c);
    }
  }

  lemma EmptyBehindDollar(a: string, dots: string, b: string, c: string)
    requires Spaces(a) && Dots(dots) && Spaces(b) && Spaces(c)
    ensures Bare(a + ("$" + (dots + (b + "" + c)))) == ""
  {
    var core := "$" + dots;
    assert a + ("$" + (dots + (b + "" + c))) == a + core + (b + c);
    assert core[0] == '$' && core[|core| - 1] == if dots == "" then '$' else '.';
    TrimAround(a, core, b + c);
    assert core[1..] == dots + ("" + "" + "");
    SpacedInside(dots, "", "", "");
  }

  /** The whole document: no path at all, or a dollar sign. */
  lemma DollarIsRoot(doc: Value)
    ensures Resolve(doc, "$") == Some(doc) && Resolve(doc, "") == Some(doc)
  {
    SpellingIgnored(doc, "", "", "", "", "");
    assert "" + ("$" + ("" + ("" + "" + ""))) == "$" && "" + "" + "" == "";
  }

  /** An index may have space around it; what is not a number resolves to nothing. */
  lemma IndexIsRead(doc: Value, name: string, a: string, text: string, b: string)
    requires ReadableKey(name) && name[0] != '$' && Spaces(a) && Spaces(b) && NoEdgeSpace(text)
    requires ']' !in text && '.' !in text
    ensures Resolve(doc, name + "[" + (a + text + b) + "]") ==
            if ParseUsize(text).None? then None else Follow(doc, [Key(name), Index(ParseUsize(text).value)])
  {
    var inner := a + text + b;
    var token := name + "[" + inner + "]";
    assert token[0] == name[0] && token[|token| - 1] == ']';
    TrimClean(token);
    NoDotInside(a, text, b);
    forall i | 0 <= i < |token| ensures token[i] != '.' {
      assert token[i] in name || token[i] == '[' || token[i] in inner || token[i] == ']';
    }
    SplitWithout(token, '.');
    TrimAround(a, text, b);
    TokenSplits(name, inner);
    OneSegment(doc, token);
    FollowTwo(doc, name, ParseUsize(text));
  }

  lemma NoDotInside(a: string, text: string, b: string)
    requires Spaces(a) && Spaces(b) && ']' !in text && '.' !in text
    ensures ']' !in a + text + b && '.' !in a + text + b
  {
    assert !IsSpace(']') && !IsSpace('.');
  }

  lemma TokenSplits(name: string, inner: string)
    requires '[' !in name && name != "" && ']' !in inner
    ensures SplitIndices(name + "[" + inner + "]") ==
            (match ParseUsize(Trim(inner)) case None => None case Some(i) => Some((name, [i])))
  {
    var token := name + "[" + inner + "]";
    var remainder := inner + [']'] + "";
    assert token == name + ['['] + remainder;
    BeforeAt(name, '[', remainder);
    BeforeAt(inner, ']', "");
    assert token[|name|] == '[' && remainder[|inner|] == ']';
    LoneIndex(token, remainder, inner);
  }

  lemma LoneIndex(s: string, remainder: string, inner: string)
    requires '[' in s && After(s, '[') == remainder && ']' in remainder
    requires Before(remainder, ']') == inner && After(remainder, ']') == ""
    ensures Indices(s) == (match ParseUsize(Trim(inner)) case None => None case Some(i) => Some([i]))
  {
    assert Indices("") == Some([]);
    var number := ParseUsize(Trim(inner));
    if number.Some? { assert [number.value] + [] == [number.value]; }
  }

  lemma OneSegment(doc: Value, token: string)
    requires token != "" && token[0] != '$' && Trim(token) == token && SplitOn(token, '.') == [token]
    ensures Resolve(doc, token) == ApplyToken(doc, token)
  {
    assert Bare(token) == token;
    LoneToken(doc, token, ApplyToken(doc, token));
  }

  lemma LoneToken(doc: Value, token: string, r: Option<Value>)
    requires token != "" && Trim(token) == token && ApplyToken(doc, token) == r
    ensures ApplyTokens(doc, [token]) == r
  {
    assert [token][1..] == [];
    if r.Some? { assert ApplyTokens(r.value, []) == r; }
  }

  lemma FollowTwo(doc: Value, name: string, i: Option<nat>)
    ensures name != "" && i.Some? ==> Steps(name, [i.value]) == [Key(name), Index(i.value)]
  {
  }

  // ---- the length of a text in UTF-8 ----

  /** The bits that k bytes of UTF-8 hold (RFC 3629 section 3). */
  function Capacity(k: nat): nat
    requires 1 <= k <= 4
  {
    if k == 1 then 7 else 5 * k + 1
  }

  function TwoTo(n: nat): nat {
    if n == 0 then 1 else 2 * TwoTo(n - 1)
  }

  lemma Capacities()
    ensures TwoTo(Capacity(1)) == 0x80 && TwoTo(Capacity(2)) == 0x800
    ensures TwoTo(Capacity(3)) == 0x1_0000 && TwoTo(Capacity(4)) == 0x20_0000
  {
    assert TwoTo(7) == 0x80 && TwoTo(11) == 0x800;
    assert TwoTo(16) == 0x1_0000;
    assert TwoTo(21) == 0x20_0000;
  }

  /** Each character counts as many bytes as its code needs. */
  lemma BytesOfChar(c: char, rest: string)
    ensures var k := ByteLength([c] + rest) - ByteLength(rest);
            1 <= k <= 4 && c as int < TwoTo(Capacity(k)) && (k > 1 ==> c as int >= TwoTo(Capacity(k - 1)))
  {
    Capacities();
    assert ([c] + rest)[1..] == rest;
  }

  // ---- what a token is ----

  /** A token is extracted if and only if, somewhere in the body, a string of more than five
      bytes stands under a key of the table; it carries the type of that key and the position. */
  lemma TokenIff(table: Table, body: Value, t: Token)
    requires body.Object?
    ensures t in BodyTokens(table, body) <==>
            exists p :: Follow(body, p) == Some(String(t.value)) && TokenAt(table, p, t)
  {
    TokensAreWhatTheBodyHolds(table, body, t);
    forall p ensures Located(table, body, p, t) <==>
                     Follow(body, p) == Some(String(t.value)) && TokenAt(table, p, t) {
      LocatedIs(table, body, p, t);
    }
  }

  predicate TokenAt(table: Table, p: Path, t: Token) {
    && p != [] && p[|p| - 1].Key? && p[|p| - 1].name in table && ByteLength(t.value) > 5
    && t.kind == table[p[|p| - 1].name] && t.jsonPath == "$" + TailText(p)
  }

  lemma LocatedIs(table: Table, body: Value, p: Path, t: Token)
    ensures Located(table, body, p, t) <==> Follow(body, p) == Some(String(t.value)) && TokenAt(table, p, t)
  {
    TokenOfLeaf(table, p, t);
  }

  lemma TokenOfLeaf(table: Table, p: Path, t: Token)
    ensures TokenOf(table, [], (p, String(t.value))) == [t] <==> TokenAt(table, p, t)
  {
    assert [] + p == p;
    assert p != [] ==> DollarText(p) == "$" + TailText(p);
  }
}
