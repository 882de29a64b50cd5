/** What a query text finds: for every line a user can write, blanks included, which flows
    it is true of, said on the text and the flow alone. */
module HttpQlMeaning {
  import opened Text
  import opened Domain
  import opened HttpQl
  import opened HttpQlPrinter

  /** The text parses and the flow satisfies it. */
  ghost predicate Finds(engine: RegexEngine, query: string, flow: HttpFlow) {
    Query(engine, query).Ok? && Matches(engine, Query(engine, query).value, flow)
  }

  // ---- lines as users write them ----

  predicate Blanks(s: string) {
    Spaces(s) && '\n' !in s
  }

  /** The blanks around the parts of a line. */
  datatype Layout = Layout(front: string, afterName: string, afterColon: string, afterOp: string, end: string)

  predicate Loose(l: Layout) {
    Blanks(l.front) && Blanks(l.afterName) && Blanks(l.afterColon) && Blanks(l.afterOp) && Blanks(l.end)
  }

  function Written(l: Layout, name: string, op: string, v: string): string {
    l.front + (name + (l.afterName + ":") + (l.afterColon + (op + (l.afterOp + v)))) + l.end
  }

  /** A text in front of the colon. */
  predicate NameText(n: string) {
    Solid(n) && n[0] != '(' && ':' !in n && Part(n, '|') && Part(n, '&')
  }

  /** The operator and the value cannot be read in another way: `>` and `<` are not followed
      at once by `=`, and without an operator the value does not start with one. */
  predicate Unambiguous(l: Layout, op: string, v: string) {
    if op == "" then OperatorOf(v) == ""
    else Operator(op) && ((op == ">" || op == "<") && l.afterOp == "" && v != "" ==> v[0] != '=')
  }

  // ---- blanks ----

  lemma BlanksAreParts(s: string)
    requires Blanks(s)
    ensures Part(s, '|') && Part(s, '&') && '\n' !in s
  {
    assert '(' !in s && ')' !in s && '|' !in s && '&' !in s;
    NoParens(s);
    NoSeparator(s, '|', 0);
    NoSeparator(s, '&', 0);
  }

  lemma PartConcat(a: string, b: string, sep: char)
    requires Part(a, sep) && Part(b, sep)
    ensures Part(a + b, sep)
  {
    BalancedConcat(a, b, 0);
    NoTopConcat(a, b, sep, 0);
  }

  // ---- from the text to the condition ----

  /** The line between its outer blanks. */
  function Core(l: Layout, name: string, op: string, v: string): string {
    name + (l.afterName + ":") + (l.afterColon + (op + (l.afterOp + v)))
  }

  /** The trailing blanks of a line whose value is empty belong to the blanks around it. */
  function Tight(l: Layout, op: string, v: string): Layout {
    if v != "" then l
    else if op != "" then l.(afterOp := "", end := l.afterOp + l.end)
    else l.(afterColon := "", afterOp := "", end := l.afterColon + l.afterOp + l.end)
  }

  lemma TightIsSame(l: Layout, name: string, op: string, v: string)
    requires Loose(l)
    ensures Loose(Tight(l, op, v)) && Written(Tight(l, op, v), name, op, v) == Written(l, name, op, v)
    ensures Unambiguous(l, op, v) ==> Unambiguous(Tight(l, op, v), op, v)
  {
    if v == "" {
      WrittenFlat(l, name, op);
      WrittenFlat(Tight(l, op, v), name, op);
    }
  }

  lemma WrittenFlat(l: Layout, name: string, op: string)
    ensures Written(l, name, op, "") == l.front + name + l.afterName + ":" + (l.afterColon + op + l.afterOp + l.end)
  {
  }

  lemma CoreFacts(l: Layout, name: string, op: string, v: string, sep: char)
    requires Loose(l) && NameText(name) && NoEdgeSpace(v) && Part(v, sep) && Unambiguous(l, op, v)
    requires sep == '|' || sep == '&'
    ensures Part(Core(l, name, op, v), sep)
  {
    BlanksAreParts(l.afterName);
    BlanksAreParts(l.afterColon);
    BlanksAreParts(l.afterOp);
    assert Part(":", sep) by { assert ":"[1..] == ""; }
    OperatorIsPart(op, sep);
    PartConcat(l.afterOp, v, sep);
    PartConcat(op, l.afterOp + v, sep);
    PartConcat(l.afterColon, op + (l.afterOp + v), sep);
    PartConcat(l.afterName, ":", sep);
    PartConcat(name, l.afterName + ":", sep);
    PartConcat(name + (l.afterName + ":"), l.afterColon + (op + (l.afterOp + v)), sep);
  }

  lemma OperatorIsPart(op: string, sep: char)
    requires (op == "" || Operator(op)) && (sep == '|' || sep == '&')
    ensures Part(op, sep)
  {
    assert '(' !in op && ')' !in op && sep !in op;
    NoParens(op);
    NoSeparator(op, sep, 0);
  }

  /** The core of a tight line has no blanks at its ends, is on one line and no comment. */
  lemma CoreIsSolid(l: Layout, name: string, op: string, v: string)
    requires Loose(l) && NameText(name) && NoEdgeSpace(v) && '\n' !in v && Unambiguous(l, op, v)
    requires l == Tight(l, op, v)
    ensures Solid(Core(l, name, op, v)) && Core(l, name, op, v)[0] != '('
  {
    var s, value := Core(l, name, op, v), l.afterColon + (op + (l.afterOp + v));
    assert s[0] == name[0];
    assert op != "" ==> !IsSpace(op[|op| - 1]) && '\n' !in op;
    if v != "" {
      assert s[|s| - 1] == v[|v| - 1];
    } else if op != "" {
      assert value == l.afterColon + op && s[|s| - 1] == op[|op| - 1];
    } else {
      assert value == "" && s[|s| - 1] == ':';
    }
    forall i | 0 <= i < |s| ensures s[i] != '\n' {
      assert s[i] in name || s[i] in l.afterName || s[i] == ':' || s[i] in l.afterColon || s[i] in op
          || s[i] in l.afterOp || s[i] in v;
    }
  }

  /** The value and the operator in front of it, as read. */
  lemma OperatorReads(l: Layout, op: string, v: string)
    requires Loose(l) && NoEdgeSpace(v) && '\n' !in v && Unambiguous(l, op, v) && l == Tight(l, op, v)
    ensures var rest := Trim(l.afterColon + (op + (l.afterOp + v)));
            if op == "" then rest == v
            else OperatorOf(rest) == op && Trim(rest[|op|..]) == v
  {
    var rest := op + (l.afterOp + v);
    if op == "" {
      assert l.afterColon + rest == (l.afterColon + l.afterOp) + v + "";
      TrimAround(l.afterColon + l.afterOp, v, "");
    } else {
      assert !IsSpace(op[0]) && !IsSpace(op[|op| - 1]);
      assert rest[0] == op[0] && rest[|rest| - 1] == if v == "" then op[|op| - 1] else v[|v| - 1];
      assert l.afterColon + rest == l.afterColon + rest + "";
      TrimAround(l.afterColon, rest, "");
      assert rest[|op|..] == l.afterOp + v + "";
      TrimAround(l.afterOp, v, "");
      OperatorStands(l, op, v);
    }
  }

  lemma OperatorStands(l: Layout, op: string, v: string)
    requires Loose(l) && '\n' !in v && Operator(op) && Unambiguous(l, op, v)
    ensures OperatorOf(op + (l.afterOp + v)) == op
  {
    var after := l.afterOp + v;
    var rest := op + after;
    assert '\n' !in op;
    forall i | 0 <= i < |rest| ensures rest[i] != '\n' {
      assert rest[i] in op || rest[i] in l.afterOp || rest[i] in v;
    }
    assert op <= rest;
    if op == ">" || op == "<" {
      if after != "" {
        assert after[0] == if l.afterOp == "" then v[0] else l.afterOp[0];
        assert rest[1] != '=';
      }
    }
  }

  /** What the line says, given the field: the operator applied to the value, or the base form. */
  function Said(engine: RegexEngine, name: string, op: string, v: string): Result<Condition> {
    if FieldOf(name).None? then Err(UnknownField(name))
    else if op != "" then ApplyOperator(FieldOf(name).value, op, v)
    else Ok(BuildCondition(engine, FieldOf(name).value, v))
  }

  lemma FieldLineSays(engine: RegexEngine, l: Layout, name: string, op: string, v: string)
    requires Loose(l) && NameText(name) && NoEdgeSpace(v) && '\n' !in v && Unambiguous(l, op, v)
    requires l == Tight(l, op, v)
    ensures FieldLine(engine, Core(l, name, op, v)) == Said(engine, name, op, v)
  {
    var line, raw, rest := Core(l, name, op, v), name + l.afterName, l.afterColon + (op + (l.afterOp + v));
    assert line == raw + ":" + rest;
    assert ':' !in l.afterName;
    assert raw == "" + name + l.afterName;
    TrimAround("", name, l.afterName);
    OperatorReads(l, op, v);
    ColonSplits(engine, raw, rest);
  }

  lemma ColonSplits(engine: RegexEngine, raw: string, rest: string)
    requires ':' !in raw
    ensures FieldLine(engine, raw + ":" + rest) ==
            var name, value := Trim(raw), Trim(rest);
            var op := OperatorOf(value);
            Said(engine, name, op, if op == "" then value else Trim(value[|op|..]))
  {
    var line := raw + ":" + rest;
    BeforeColon(raw, rest);
    assert line[|raw|] == ':' && line[|raw| + 1..] == rest;
  }

  /** One line, however it is spaced: the query is the And of what it says, or its error. */
  lemma LineSays(engine: RegexEngine, l: Layout, name: string, op: string, v: string)
    requires Loose(l) && NameText(name) && PlainText(v) && Unambiguous(l, op, v)
    ensures Query(engine, Written(l, name, op, v)) ==
            var said := Said(engine, name, op, v); if said.Err? then Err(said.error) else Ok(And([said.value]))
  {
    var t := Tight(l, op, v);
    TightIsSame(l, name, op, v);
    var core := Core(t, name, op, v);
    CoreFacts(t, name, op, v, '|');
    CoreFacts(t, name, op, v, '&');
    CoreIsSolid(t, name, op, v);
    FieldLineSays(engine, t, name, op, v);
    AtomSays(engine, core);
    PaddedLine(engine, t.front, core, t.end);
  }

  /** A line without separators outside parentheses, that opens none, is a field line. */
  lemma AtomSays(engine: RegexEngine, core: string)
    requires Solid(core) && core[0] != '(' && Part(core, '|') && Part(core, '&')
    ensures Line(engine, core) == FieldLine(engine, core)
  {
    TrimClean(core);
    assert Atom(engine, core) == FieldLine(engine, core);
    OneFactor(engine, core);
    OneAlternative(engine, core);
  }

  lemma OneFactor(engine: RegexEngine, text: string)
    requires NoTop(text, '&', 0)
    ensures Conjunction(engine, text) == Atom(engine, text)
  {
    SplitNothing(text, '&', 0);
  }

  lemma OneAlternative(engine: RegexEngine, text: string)
    requires NoTop(text, '|', 0)
    ensures Line(engine, text) == Conjunction(engine, text)
  {
    SplitNothing(text, '|', 0);
  }

  lemma PaddedLine(engine: RegexEngine, a: string, core: string, b: string)
    requires Blanks(a) && Blanks(b) && Solid(core)
    ensures Query(engine, a + core + b) ==
            var r := Line(engine, core); if r.Err? then Err(r.error) else Ok(And([r.value]))
  {
    var line := a + core + b;
    forall i | 0 <= i < |line| ensures line[i] != '\n' {
      assert line[i] in a || line[i] in core || line[i] in b;
    }
    SplitWithout(line, '\n');
    TrimAround(a, core, b);
    assert [line][1..] == [];
    assert Lines(engine, []) == Ok([]);
    var r := Line(engine, core);
    if r.Ok? { assert [r.value] + [] == [r.value]; }
  }

  lemma NamesAreTexts(name: string)
    requires FieldOf(name).Some?
    ensures NameText(name)
  {
    var field := FieldOf(name).value;
    assert name == NameOf(field);
    NameFacts(field);
  }

  lemma DigitsArePlainText(v: string)
    requires AllDigits(v)
    ensures PlainText(v) && OperatorOf(v) == "" && !HasWildcard(v) && v[0] != '='
  {
    DigitsOnly(v);
    assert '(' !in v && ')' !in v && '|' !in v && '&' !in v && '\n' !in v;
    NoParens(v);
    NoSeparator(v, '|', 0);
    NoSeparator(v, '&', 0);
  }

  // ---- numbers ----

  predicate Number(v: string) {
    AllDigits(v) && ParseDigits(v) <= I64_MAX
  }

  predicate Comparison(op: string) {
    op in [">", ">=", "<", "<="]
  }

  lemma OneCondition(engine: RegexEngine, query: string, c: Condition, flow: HttpFlow)
    requires Query(engine, query) == Ok(And([c]))
    ensures Finds(engine, query, flow) <==> Matches(engine, c, flow)
  {
    assert [c][0] == c;
  }

  /** A line of a known field that parses to one condition finds what the condition does. */
  lemma SaysCondition(engine: RegexEngine, l: Layout, name: string, op: string, v: string, c: Condition, flow: HttpFlow)
    requires Loose(l) && FieldOf(name).Some? && PlainText(v) && Unambiguous(l, op, v)
    requires Said(engine, name, op, v) == Ok(c)
    ensures Finds(engine, Written(l, name, op, v), flow) <==> Matches(engine, c, flow)
  {
    NamesAreTexts(name);
    LineSays(engine, l, name, op, v);
    OneCondition(engine, Written(l, name, op, v), c, flow);
  }

  /** The comparison an operator stands for; the bare number means equality. */
  predicate Compares(op: string, a: int, b: int) {
    if op == ">" then a > b
    else if op == ">=" then a >= b
    else if op == "<" then a < b
    else if op == "<=" then a <= b
    else if op == "!=" then a != b
    else a == b
  }

  lemma StatusSays(engine: RegexEngine, op: string, v: string, flow: HttpFlow)
    requires Number(v) && (Operator(op) || op == "")
    ensures var said := Said(engine, "resp.status", op, v);
            said.Ok? && (Matches(engine, said.value, flow) <==> Compares(op, flow.responseStatus, ParseDigits(v)))
  {
    assert FieldOf("resp.status") == Some(ResponseStatus);
    if op == "" {
      DigitsArePlainText(v);
    }
  }

  /** Comparing the status with a number: each operator means what it looks like. */
  lemma StatusCompared(engine: RegexEngine, l: Layout, op: string, v: string, flow: HttpFlow)
    requires Loose(l) && Number(v) && (Operator(op) || op == "")
    ensures Finds(engine, Written(l, "resp.status", op, v), flow) <==>
            Compares(op, flow.responseStatus, ParseDigits(v))
  {
    DigitsArePlainText(v);
    StatusSays(engine, op, v, flow);
    assert FieldOf("resp.status") == Some(ResponseStatus);
    SaysCondition(engine, l, "resp.status", op, v, Said(engine, "resp.status", op, v).value, flow);
  }

  lemma StatusSaysText(engine: RegexEngine, op: string, v: string, flow: HttpFlow)
    requires !AllDigits(v) && op in ["", "=", "!="]
    ensures var said := Said(engine, "resp.status", op, v);
            said.Ok? && (Matches(engine, said.value, flow) <==> op == "!=")
  {
    assert FieldOf("resp.status") == Some(ResponseStatus);
  }

  /** Comparing the status with anything else never holds, and its negation always does. */
  lemma StatusIsNoText(engine: RegexEngine, l: Layout, op: string, v: string, flow: HttpFlow)
    requires Loose(l) && PlainText(v) && !AllDigits(v) && Unambiguous(l, op, v) && op in ["", "=", "!="]
    ensures Finds(engine, Written(l, "resp.status", op, v), flow) <==> op == "!="
  {
    assert FieldOf("resp.status") == Some(ResponseStatus);
    StatusSaysText(engine, op, v, flow);
    SaysCondition(engine, l, "resp.status", op, v, Said(engine, "resp.status", op, v).value, flow);
  }

  // ---- texts ----

  predicate TextField(name: string) {
    name in ["method", "host", "path", "content-type", "req.body", "resp.body"]
  }

  /** The text of the flow that the name stands for; a body may be missing. */
  function Shown(name: string, flow: HttpFlow): Option<string>
    requires TextField(name)
  {
    if name == "method" then Some(flow.httpMethod)
    else if name == "host" then Some(flow.host)
    else if name == "path" then Some(flow.path)
    else if name == "content-type" then Some(flow.contentType)
    else if name == "req.body" then flow.requestBody
    else flow.responseBody
  }

  predicate KnownName(name: string) {
    name == "resp.status" || TextField(name)
  }

  lemma KnownNames(name: string)
    ensures FieldOf(name).Some? <==> KnownName(name)
  {
  }

  lemma ShownIsExtracted(name: string, flow: HttpFlow)
    requires TextField(name)
    ensures FieldOf(name).Some? && (FieldOf(name) == Some(Path) <==> name == "path")
    ensures Extract(FieldOf(name).value, flow) == OptionalText(Shown(name, flow))
  {
  }

  /** With an operator: `=` finds the flows that show exactly the text, `!=` the others. */
  lemma TextCompared(engine: RegexEngine, l: Layout, name: string, v: string, flow: HttpFlow)
    requires Loose(l) && TextField(name) && PlainText(v) && !AllDigits(v)
    ensures Finds(engine, Written(l, name, "=", v), flow) <==> Shown(name, flow) == Some(v)
    ensures Finds(engine, Written(l, name, "!=", v), flow) <==> Shown(name, flow) != Some(v)
  {
    ShownIsExtracted(name, flow);
    var field := FieldOf(name).value;
    SaysCondition(engine, l, name, "=", v, Equals(field, TextValue(v)), flow);
    SaysCondition(engine, l, name, "!=", v, NotEquals(field, TextValue(v)), flow);
  }

  lemma NumberSays(engine: RegexEngine, name: string, op: string, v: string, flow: HttpFlow)
    requires TextField(name) && Number(v) && (Operator(op) || (op == "" && name != "path"))
    ensures var said := Said(engine, name, op, v);
            said.Ok? && (Matches(engine, said.value, flow) <==> op == "!=")
  {
    ShownIsExtracted(name, flow);
    if op == "" {
      DigitsArePlainText(v);
    }
  }

  /** Digits are read as a number, which no text equals and which orders no text. */
  lemma NumberMissesText(engine: RegexEngine, l: Layout, name: string, op: string, v: string, flow: HttpFlow)
    requires Loose(l) && TextField(name) && Number(v) && (Operator(op) || (op == "" && name != "path"))
    ensures Finds(engine, Written(l, name, op, v), flow) <==> op == "!="
  {
    DigitsArePlainText(v);
    KnownNames(name);
    NumberSays(engine, name, op, v, flow);
    SaysCondition(engine, l, name, op, v, Said(engine, name, op, v).value, flow);
  }

  /** Without an operator: the paths that hold the text, and equality for the other fields. */
  lemma TextNamed(engine: RegexEngine, l: Layout, name: string, v: string, flow: HttpFlow)
    requires Loose(l) && TextField(name) && PlainText(v) && OperatorOf(v) == "" && !HasWildcard(v)
    ensures name == "path" ==> (Finds(engine, Written(l, name, "", v), flow) <==> Text.Contains(flow.path, v))
    ensures name != "path" && !Number(v) ==>
              (Finds(engine, Written(l, name, "", v), flow) <==> Shown(name, flow) == Some(v))
  {
    ShownIsExtracted(name, flow);
    var field := FieldOf(name).value;
    if name == "path" {
      SaysCondition(engine, l, name, "", v, Condition.Contains(Path, v), flow);
    } else if !Number(v) {
      SaysCondition(engine, l, name, "", v, Equals(field, TextValue(v)), flow);
    }
  }

  function Showing(name: string, v: string): (flow: HttpFlow)
    requires TextField(name)
    ensures Shown(name, flow) == Some(v)
  {
    HttpFlow("", 0, v, v, v, v, [], Some(v), "d41d8cd98f00b204e9800998ecf8427e", 200, Some(v), v)
  }

  /** A line naming a text finds every flow that shows it exactly when the text is not a number. */
  lemma NamedTextIsFoundIff(engine: RegexEngine, l: Layout, name: string, v: string)
    requires Loose(l) && TextField(name) && name != "path"
    requires PlainText(v) && OperatorOf(v) == "" && !HasWildcard(v)
    ensures (forall flow | Shown(name, flow) == Some(v) :: Finds(engine, Written(l, name, "", v), flow)) <==> !Number(v)
  {
    if Number(v) {
      NumberMissesText(engine, l, name, "", v, Showing(name, v));
    } else {
      forall flow | Shown(name, flow) == Some(v) ensures Finds(engine, Written(l, name, "", v), flow) {
        TextNamed(engine, l, name, v, flow);
      }
    }
  }

  // ---- wildcards ----

  /** A value with wildcards, read as a user reads it. */
  datatype Glob = Char(c: char) | AnyOne | AnyRun

  /** Characters a regular expression takes literally, and the dot, which has to be escaped. */
  predicate Ordinary(g: seq<Glob>) {
    forall i | 0 <= i < |g| :: g[i].Char? ==> g[i].c !in "\\+*?()|[]{}^$\n"
  }

  function Symbol(g: Glob): char {
    match g
    case Char(c) => c
    case AnyOne => '?'
    case AnyRun => '*'
  }

  function GlobText(g: seq<Glob>): string {
    seq(|g|, i requires 0 <= i < |g| => Symbol(g[i]))
  }

  function GlobPattern(g: seq<Glob>): string {
    if g == [] then ""
    else GlobPattern(g[..|g| - 1]) +
         match g[|g| - 1] {
           case Char(c) => if c == '.' then "\\." else [c]
           case AnyOne => "."
           case AnyRun => ".*"
         }
  }

  /** The text is what the value describes, from its first character to its last; wildcards
      stay within a line. */
  predicate Fits(g: seq<Glob>, t: string)
    decreases |g| + |t|
  {
    if g == [] then t == ""
    else match g[0]
         case Char(c) => t != "" && t[0] == c && Fits(g[1..], t[1..])
         case AnyOne => t != "" && t[0] != '\n' && Fits(g[1..], t[1..])
         case AnyRun => Fits(g[1..], t) || (t != "" && t[0] != '\n' && Fits(g, t[1..]))
  }

  /** The regex engine does with this pattern what regular expressions promise. */
  ghost predicate Honours(engine: RegexEngine, g: seq<Glob>) {
    var pattern := "^" + GlobPattern(g) + "$";
    engine.compiles(pattern) && forall t :: engine.isMatch(pattern, t) <==> Fits(g, t)
  }

  lemma {:induction false} PatternOfGlob(g: seq<Glob>)
    requires Ordinary(g)
    ensures WildcardBody(GlobText(g)) == GlobPattern(g)
  {
    if g != [] {
      var front := g[..|g| - 1];
      assert GlobText(g)[..|g| - 1] == GlobText(front);
      PatternOfGlob(front);
    }
  }

  lemma WildcardsShow(g: seq<Glob>)
    requires Ordinary(g)
    ensures HasWildcard(GlobText(g)) <==> exists i | 0 <= i < |g| :: !g[i].Char?
  {
    var v := GlobText(g);
    if HasWildcard(v) {
      var i :| 0 <= i < |v| && (v[i] == '*' || v[i] == '?');
      assert !g[i].Char?;
    }
    if i :| 0 <= i < |g| && !g[i].Char? {
      assert v[i] == '*' || v[i] == '?';
    }
  }

  /** A value with a wildcard finds the flows whose text it describes; a missing body is the
      empty text. */
  lemma WildcardNamed(engine: RegexEngine, l: Layout, name: string, g: seq<Glob>, flow: HttpFlow)
    requires Loose(l) && TextField(name) && Ordinary(g) && Honours(engine, g)
    requires PlainText(GlobText(g)) && OperatorOf(GlobText(g)) == "" && exists i | 0 <= i < |g| :: !g[i].Char?
    ensures Finds(engine, Written(l, name, "", GlobText(g)), flow) <==>
            Fits(g, if Shown(name, flow).Some? then Shown(name, flow).value else "")
  {
    var v := GlobText(g);
    WildcardsShow(g);
    PatternOfGlob(g);
    ShownIsExtracted(name, flow);
    WildcardSays(engine, l, name, v, flow);
    PatternMatches(engine, FieldOf(name).value, WildcardToRegex(v), flow, Shown(name, flow));
  }

  lemma PatternMatches(engine: RegexEngine, field: FieldName, pattern: string, flow: HttpFlow, shown: Option<string>)
    requires engine.compiles(pattern) && Extract(field, flow) == OptionalText(shown)
    ensures Matches(engine, RegexCondition(engine, field, pattern), flow) <==>
            engine.isMatch(pattern, if shown.Some? then shown.value else "")
  {
  }

  lemma WildcardSays(engine: RegexEngine, l: Layout, name: string, v: string, flow: HttpFlow)
    requires Loose(l) && FieldOf(name).Some? && PlainText(v) && OperatorOf(v) == "" && HasWildcard(v)
    ensures Finds(engine, Written(l, name, "", v), flow) <==>
            Matches(engine, RegexCondition(engine, FieldOf(name).value, WildcardToRegex(v)), flow)
  {
    SaysCondition(engine, l, name, "", v, BuildCondition(engine, FieldOf(name).value, v), flow);
  }

  /** A pattern that does not compile finds nothing. */
  lemma BrokenPatternFindsNothing(engine: RegexEngine, l: Layout, name: string, v: string, flow: HttpFlow)
    requires Loose(l) && TextField(name) && PlainText(v) && OperatorOf(v) == "" && HasWildcard(v)
    requires !engine.compiles("^" + WildcardBody(v) + "$")
    ensures !Finds(engine, Written(l, name, "", v), flow)
  {
    KnownNames(name);
    WildcardSays(engine, l, name, v, flow);
  }

  // ---- errors ----

  /** A comparison wants a number, and digits after an operator must be one. */
  predicate BadValue(op: string, v: string) {
    (Comparison(op) || (op != "" && AllDigits(v))) && !Number(v)
  }

  /** A field line is refused for an unknown name, else for its value, else not at all. */
  lemma LineIsRefusedIff(engine: RegexEngine, l: Layout, name: string, op: string, v: string)
    requires Loose(l) && PlainText(v) && Unambiguous(l, op, v) && NameText(name)
    ensures var r := Query(engine, Written(l, name, op, v));
            && (!KnownName(name) ==> r == Err(UnknownField(name)))
            && (KnownName(name) && BadValue(op, v) ==> r == Err(InvalidLine(v)))
            && (KnownName(name) && !BadValue(op, v) ==> r.Ok?)
  {
    LineSays(engine, l, name, op, v);
    KnownNames(name);
  }

  /** A line without a colon, and one that opens a parenthesis and does not end by closing one. */
  lemma NoFieldLine(engine: RegexEngine, a: string, text: string, b: string)
    requires Blanks(a) && Blanks(b) && Solid(text) && NoTop(text, '|', 0) && NoTop(text, '&', 0)
    ensures text[0] != '(' && ':' !in text ==> Query(engine, a + text + b) == Err(InvalidLine(text))
    ensures text[0] == '(' && text[|text| - 1] != ')' ==> Query(engine, a + text + b) == Err(Unbalanced(text))
  {
    OneFactor(engine, text);
    OneAlternative(engine, text);
    AtomRefuses(engine, text);
    PaddedLine(engine, a, text, b);
  }

  lemma AtomRefuses(engine: RegexEngine, text: string)
    requires Solid(text)
    ensures text[0] != '(' && ':' !in text ==> Atom(engine, text) == Err(InvalidLine(text))
    ensures text[0] == '(' && text[|text| - 1] != ')' ==> Atom(engine, text) == Err(Unbalanced(text))
  {
    TrimClean(text);
  }

  /** Blank lines and comments say nothing: alone they find every flow. */
  lemma NothingSaid(engine: RegexEngine, line: string, a: string, comment: string, flow: HttpFlow)
    requires Blanks(a) && '\n' !in comment && (line == a || line == a + "#" + comment)
    ensures Query(engine, line) == Ok(And([])) && Finds(engine, line, flow)
  {
    assert '\n' !in line;
    SplitWithout(line, '\n');
    if line == a {
      assert a == a + "" + "";
      TrimAround(a, "", "");
    } else {
      var text := "#" + comment;
      assert line == a + text;
      TrimFront(a, text);
      CommentTrims(text);
    }
    assert [line][1..] == [] && Lines(engine, []) == Ok([]);
  }

  lemma CommentTrims(text: string)
    requires text != "" && text[0] == '#'
    ensures TrimEnd(text) != "" && TrimEnd(text)[0] == '#'
  {
    if IsSpace(text[|text| - 1]) {
      CommentTrims(text[..|text| - 1]);
    }
  }

  // ---- separators inside a value ----

  /** A value whose last `|` or `&` has nothing behind it that could be a field line. */
  predicate Separated(a: string, sep: char, b: string) {
    && (sep == '|' || sep == '&') && PlainText(a) && a != ""
    && ':' !in b && '(' !in b && ')' !in b && '|' !in b && '&' !in b && '\n' !in b
    && NoEdgeSpace(a + [sep] + b)
  }

  lemma SeparatedFacts(a: string, sep: char, b: string)
    requires Separated(a, sep, b)
    ensures !AllDigits(a + [sep] + b) && '\n' !in a + [sep] + b
    ensures Part(b, '|') && Part(b, '&')
  {
    var v := a + [sep] + b;
    assert v[|a|] == sep && !IsDigit(sep);
    forall i | 0 <= i < |v| ensures v[i] != '\n' { assert v[i] in a || v[i] == sep || v[i] in b; }
    NoParens(b);
    NoSeparator(b, '|', 0);
    NoSeparator(b, '&', 0);
  }

  lemma SeparatedSays(engine: RegexEngine, l: Layout, name: string, op: string, a: string, sep: char, b: string)
    requires Loose(l) && NameText(name) && Separated(a, sep, b)
    requires Unambiguous(l, op, a) && Unambiguous(l, op, a + [sep] + b)
    ensures Query(engine, Written(l, name, op, a + [sep] + b)) ==
            var said := Said(engine, name, op, a + [sep] + b);
            if said.Err? then Err(said.error) else Ok(And([said.value]))
  {
    var v, head := a + [sep] + b, Core(l, name, op, a);
    SeparatedFacts(a, sep, b);
    assert Core(l, name, op, v) == head + [sep] + b;
    CoreFacts(l, name, op, a, '|');
    CoreFacts(l, name, op, a, '&');
    SecondIsNoLine(engine, b);
    SeparatorFails(engine, head, sep, b);
    CoreIsSolid(l, name, op, v);
    FieldLineSays(engine, l, name, op, v);
    TrimClean(head + [sep] + b);
    PaddedLine(engine, l.front, Core(l, name, op, v), l.end);
  }

  /** Such a separator belongs to the value. */
  lemma SeparatorInValue(
      engine: RegexEngine, l: Layout, name: string, op: string, a: string, sep: char, b: string, flow: HttpFlow)
    requires Loose(l) && TextField(name) && Separated(a, sep, b) && (op == "" || op == "=")
    requires op == "" ==> OperatorOf(a) == OperatorOf(a + [sep] + b) == "" && !HasWildcard(a + [sep] + b)
    ensures Finds(engine, Written(l, name, op, a + [sep] + b), flow) <==>
            if op == "" && name == "path" then Text.Contains(flow.path, a + [sep] + b)
            else Shown(name, flow) == Some(a + [sep] + b)
  {
    var v := a + [sep] + b;
    KnownNames(name);
    NamesAreTexts(name);
    SeparatedFacts(a, sep, b);
    ValueSays(engine, name, op, v, flow);
    SeparatedSays(engine, l, name, op, a, sep, b);
    OneCondition(engine, Written(l, name, op, v), Said(engine, name, op, v).value, flow);
  }

  lemma ValueSays(engine: RegexEngine, name: string, op: string, v: string, flow: HttpFlow)
    requires TextField(name) && !AllDigits(v) && (op == "=" || (op == "" && !HasWildcard(v)))
    ensures var said := Said(engine, name, op, v);
            said.Ok? && (Matches(engine, said.value, flow) <==>
                         if op == "" && name == "path" then Text.Contains(flow.path, v)
                         else Shown(name, flow) == Some(v))
  {
    ShownIsExtracted(name, flow);
  }

  lemma SecondIsNoLine(engine: RegexEngine, b: string)
    requires ':' !in b && '(' !in b && '&' !in b
    ensures Atom(engine, b).Err? && Conjunction(engine, b).Err?
  {
    assert ':' !in TrimStart(b) && '(' !in TrimStart(b) by { TrimKeepsOut(b, ':'); TrimKeepsOut(b, '('); }
    NoSeparator(b, '&', 0);
    OneFactor(engine, b);
  }

  lemma TrimKeepsOut(s: string, c: char)
    requires c !in s
    ensures c !in TrimStart(s) && c !in Trim(s)
  {
  }

  lemma SeparatorFails(engine: RegexEngine, head: string, sep: char, b: string)
    requires sep == '|' || sep == '&'
    requires Part(head, '|') && Part(head, '&') && Part(b, '|') && Part(b, '&')
    requires Atom(engine, b).Err? && Conjunction(engine, b).Err?
    ensures Line(engine, head + [sep] + b) == Atom(engine, head + [sep] + b)
  {
    var line := head + [sep] + b;
    var other := if sep == '|' then '&' else '|';
    SplitPiece(head, sep, b, 0);
    SplitNothing(b, sep, 0);
    assert NoTop([sep], other, 0) by { NoSeparator([sep], other, 0); }
    NoParens([sep]);
    PartConcat(head, [sep], other);
    PartConcat(head + [sep], b, other);
    assert SplitAt(line, sep, 0) == [head, b];
    if sep == '|' {
      AlternativesFail(engine, head, b, |line|);
      OneFactor(engine, line);
      NoAlternatives(engine, line, head, b);
    } else {
      FactorsFail(engine, head, b, |line|);
      NoFactors(engine, line, head, b);
      OneAlternative(engine, line);
    }
  }

  lemma AlternativesFail(engine: RegexEngine, head: string, b: string, bound: nat)
    requires |head| <= bound && |b| <= bound && Conjunction(engine, b).Err?
    ensures Alternatives(engine, [head, b], bound) == None
  {
    assert [head, b][1..] == [b];
  }

  lemma FactorsFail(engine: RegexEngine, head: string, b: string, bound: nat)
    requires |head| <= bound && |b| <= bound && Atom(engine, b).Err?
    ensures Factors(engine, [head, b], bound) == None
  {
    assert [head, b][1..] == [b];
  }

  lemma NoAlternatives(engine: RegexEngine, line: string, head: string, b: string)
    requires SplitAt(line, '|', 0) == [head, b] && |head| <= |line| && |b| <= |line|
    requires Alternatives(engine, [head, b], |line|) == None
    ensures Line(engine, line) == Conjunction(engine, line)
  {
  }

  lemma NoFactors(engine: RegexEngine, line: string, head: string, b: string)
    requires SplitAt(line, '&', 0) == [head, b] && |head| <= |line| && |b| <= |line|
    requires Factors(engine, [head, b], |line|) == None
    ensures Conjunction(engine, line) == Atom(engine, line)
  {
  }

  // ---- alternatives and conjunctions ----

  /** Printed with `|` between them, conditions find what one of them finds; with `&`, what
      all of them find. */
  lemma OperatorsCombine(engine: RegexEngine, cs: seq<Condition>, flow: HttpFlow)
    requires |cs| >= 2 && forall i | 0 <= i < |cs| :: Printable(cs[i])
    ensures Finds(engine, Print(Or(cs)), flow) <==> exists i | 0 <= i < |cs| :: Finds(engine, Print(cs[i]), flow)
    ensures Finds(engine, Print(And(cs)), flow) <==> forall i | 0 <= i < |cs| :: Finds(engine, Print(cs[i]), flow)
  {
    PrintedFinds(engine, Or(cs), flow);
    PrintedFinds(engine, And(cs), flow);
    forall i | 0 <= i < |cs| ensures Finds(engine, Print(cs[i]), flow) <==> Matches(engine, cs[i], flow) {
      PrintedFinds(engine, cs[i], flow);
    }
  }

  lemma PrintedFinds(engine: RegexEngine, c: Condition, flow: HttpFlow)
    requires Printable(c)
    ensures Finds(engine, Print(c), flow) <==> Matches(engine, c, flow)
  {
    ParseInvertsPrint(engine, c);
    OneCondition(engine, Print(c), c, flow);
  }

  // ---- conditions that only the builder makes ----

  /** A condition and its negation part the flows. */
  lemma NegationIsComplement(engine: RegexEngine, c: Condition, flow: HttpFlow)
    ensures !Matches(engine, And([c, Not(c)]), flow) && Matches(engine, Or([c, Not(c)]), flow)
  {
    assert [c, Not(c)][0] == c && [c, Not(c)][1] == Not(c);
  }

  /** Negation turns all into some, and some into all. */
  lemma NegationSwapsAllAndSome(engine: RegexEngine, cs: seq<Condition>, flow: HttpFlow)
    ensures Matches(engine, Not(And(cs)), flow) <==> Matches(engine, Or(Negations(cs)), flow)
    ensures Matches(engine, Not(Or(cs)), flow) <==> Matches(engine, And(Negations(cs)), flow)
  {
    var negated := Negations(cs);
    forall i | 0 <= i < |cs| ensures Matches(engine, negated[i], flow) <==> !Matches(engine, cs[i], flow) {}
  }

  function Negations(cs: seq<Condition>): (r: seq<Condition>)
    ensures |r| == |cs| && forall i | 0 <= i < |r| :: r[i] == Not(cs[i])
  {
    seq(|cs|, i requires 0 <= i < |cs| => Not(cs[i]))
  }

  /** The full URL, which has no name in the query language. */
  lemma FullUrlCompared(engine: RegexEngine, v: string, flow: HttpFlow)
    ensures Matches(engine, Equals(FullUrl, TextValue(v)), flow) <==> flow.fullUrl == v
    ensures Matches(engine, NotEquals(FullUrl, TextValue(v)), flow) <==> flow.fullUrl != v
    ensures Matches(engine, Condition.Contains(FullUrl, v), flow) <==> Text.Contains(flow.fullUrl, v)
    ensures forall name :: FieldOf(name) != Some(FullUrl)
  {
  }
}
