/** The HTTPQL query language: conditions over a flow (`condition.rs`, `dsl.rs`) and the
    recursive-descent parser (`parser.rs`). Regular expressions are outside: an engine says
    which patterns compile and what they match. */
module HttpQl {
  import opened Text
  import opened Domain

  datatype FieldName = Method | Host | Path | FullUrl | ContentType | ResponseStatus | RequestBody | ResponseBody

  datatype QueryValue = TextValue(text: string) | NumberValue(number: int) | BoolValue(flag: bool)

  datatype Condition =
    | And(all: seq<Condition>)
    | Or(any: seq<Condition>)
    | Not(negated: Condition)
    | Equals(field: FieldName, value: QueryValue)
    | NotEquals(field: FieldName, value: QueryValue)
    | Contains(field: FieldName, needle: string)
    | Regex(field: FieldName, pattern: string)
    | Gt(field: FieldName, value: QueryValue)
    | Ge(field: FieldName, value: QueryValue)
    | Lt(field: FieldName, value: QueryValue)
    | Le(field: FieldName, value: QueryValue)
    | NoMatch

  datatype QueryError =
    | InvalidLine(text: string)
    | UnknownField(text: string)
    | UnknownOperator(text: string)
    | Unbalanced(text: string)

  datatype Result<+T> = Ok(value: T) | Err(error: QueryError)

  datatype RegexEngine = RegexEngine(compiles: string -> bool, isMatch: (string, string) -> bool)

  // ---- meaning of a condition ----

  datatype FieldValue = FieldText(text: string) | FieldNumber(number: int) | Null

  function OptionalText(o: Option<string>): FieldValue {
    if o.Some? then FieldText(o.value) else Null
  }

  function Extract(field: FieldName, flow: HttpFlow): FieldValue {
    match field
    case Method => FieldText(flow.httpMethod)
    case Host => FieldText(flow.host)
    case Path => FieldText(flow.path)
    case FullUrl => FieldText(flow.fullUrl)
    case ContentType => FieldText(flow.contentType)
    case ResponseStatus => FieldNumber(flow.responseStatus)
    case RequestBody => OptionalText(flow.requestBody)
    case ResponseBody => OptionalText(flow.responseBody)
  }

  predicate CompareEq(actual: FieldValue, expected: QueryValue) {
    match (actual, expected)
    case (FieldText(a), TextValue(e)) => a == e
    case (FieldNumber(a), NumberValue(e)) => a == e
    case _ => false
  }

  /** Less when `sign` is negative, greater when it is positive. */
  predicate CompareOrdered(actual: FieldValue, expected: QueryValue, sign: int) {
    match (actual, expected)
    case (FieldNumber(a), NumberValue(e)) => if sign < 0 then a < e else a > e
    case _ => false
  }

  predicate Matches(engine: RegexEngine, c: Condition, flow: HttpFlow) {
    match c
    case And(cs) => forall i | 0 <= i < |cs| :: Matches(engine, cs[i], flow)
    case Or(cs) => exists i | 0 <= i < |cs| :: Matches(engine, cs[i], flow)
    case Not(n) => !Matches(engine, n, flow)
    case Equals(f, v) => CompareEq(Extract(f, flow), v)
    case NotEquals(f, v) => !CompareEq(Extract(f, flow), v)
    case Contains(f, needle) => Extract(f, flow).FieldText? && Text.Contains(Extract(f, flow).text, needle)
    case Regex(f, pattern) =>
      (match Extract(f, flow)
       case FieldText(t) => engine.isMatch(pattern, t)
       case Null => engine.isMatch(pattern, "")
       case FieldNumber(_) => false)
    case Gt(f, v) => CompareOrdered(Extract(f, flow), v, 1)
    case Ge(f, v) => CompareOrdered(Extract(f, flow), v, 1) || CompareEq(Extract(f, flow), v)
    case Lt(f, v) => CompareOrdered(Extract(f, flow), v, -1)
    case Le(f, v) => CompareOrdered(Extract(f, flow), v, -1) || CompareEq(Extract(f, flow), v)
    case NoMatch => false
  }

  const I64_MAX := 0x7FFF_FFFF_FFFF_FFFF

  // ---- splitting at depth zero ----

  function Depth(c: char): int {
    if c == '(' then 1 else if c == ')' then -1 else 0
  }

  /** The pieces of a text between the separators at parenthesis depth zero. */
  function SplitAt(s: string, sep: char, depth: int): (r: seq<string>)
    ensures r != []
  {
    if s == [] then [[]]
    else if s[0] == sep && Depth(sep) == 0 && depth == 0 then [[]] + SplitAt(s[1..], sep, 0)
    else Prepend([s[0]], SplitAt(s[1..], sep, depth + Depth(s[0])))
  }

  lemma {:induction false} PiecesAreShorter(s: string, sep: char, depth: int)
    ensures forall p | p in SplitAt(s, sep, depth) :: |p| <= |s|
  {
    if s != [] {
      PiecesAreShorter(s[1..], sep, if s[0] == sep && Depth(sep) == 0 && depth == 0 then 0 else depth + Depth(s[0]));
    }
  }

  lemma PrependTwice(p: string, c: char, pieces: seq<string>)
    requires pieces != []
    ensures Prepend(p, Prepend([c], pieces)) == Prepend(p + [c], pieces)
  {
    assert p + ([c] + pieces[0]) == (p + [c]) + pieces[0];
  }

  lemma PrependNothing(pieces: seq<string>)
    requires pieces != []
    ensures Prepend([], pieces) == pieces
  {
    assert [] + pieces[0] == pieces[0];
  }

  lemma PrependToEmpty(p: string, pieces: seq<string>)
    ensures Prepend(p, [[]] + pieces) == [p] + pieces
  {
    assert p + [] == p;
  }

  /** What is split already, in front of what is still to come: `open` is the piece being read. */
  function Joined(parts: seq<string>, open: string, rest: seq<string>): seq<string>
    requires rest != []
  {
    parts + Prepend(open, rest)
  }

  lemma JoinedStep(parts: seq<string>, open: string, s: string, sep: char, depth: int)
    requires s != [] && Depth(sep) == 0
    ensures var tail := SplitAt(s[1..], sep, depth + Depth(s[0]));
            Joined(parts, open, SplitAt(s, sep, depth)) ==
            if s[0] == sep && depth == 0 then Joined(parts + [open], [], tail) else Joined(parts, open + [s[0]], tail)
  {
    var tail := SplitAt(s[1..], sep, depth + Depth(s[0]));
    if s[0] == sep && depth == 0 {
      PrependToEmpty(open, tail);
      PrependNothing(tail);
      assert parts + ([open] + tail) == (parts + [open]) + tail;
    } else {
      PrependTwice(open, s[0], tail);
    }
  }

  lemma JoinedEnds(parts: seq<string>, open: string, sep: char, depth: int, all: seq<string>)
    ensures Joined(parts, open, SplitAt([], sep, depth)) == parts + [open]
    ensures all != [] ==> Joined([], [], all) == all
  {
    PrependToEmpty(open, []);
    assert [""] + [] == [""] && [open] + [] == [open];
    if all != [] { PrependNothing(all); }
  }

  /** The state of the scan: `open` is the piece being read, `todo` what is left. */
  ghost predicate Scanning(parts: seq<string>, open: string, todo: string, sep: char, depth: int, all: seq<string>) {
    Joined(parts, open, SplitAt(todo, sep, depth)) == all
  }

  lemma ScanStep(parts: seq<string>, open: string, todo: string, sep: char, depth: int, all: seq<string>)
    requires todo != [] && Depth(sep) == 0 && Scanning(parts, open, todo, sep, depth, all)
    ensures if todo[0] == sep && depth == 0 then Scanning(parts + [open], [], todo[1..], sep, depth, all)
            else Scanning(parts, open + [todo[0]], todo[1..], sep, depth + Depth(todo[0]), all)
  {
    JoinedStep(parts, open, todo, sep, depth);
  }

  method SplitTopLevel(input: string, sep: char) returns (parts: seq<string>)
    requires Depth(sep) == 0
    ensures parts == SplitAt(input, sep, 0)
  {
    parts := [];
    var depth, start := 0, 0;
    ghost var all := SplitAt(input, sep, 0);
    JoinedEnds([], [], sep, 0, all);
    assert input[0..0] == [] && input[0..] == input;
    for index := 0 to |input|
      invariant 0 <= start <= index
      invariant Scanning(parts, input[start..index], input[index..], sep, depth, all)
    {
      parts, depth, start := Scan(input, sep, index, parts, depth, start, all);
    }
    assert input[|input|..] == [] && input[start..|input|] == input[start..];
    JoinedEnds(parts, input[start..], sep, depth, []);
    parts := parts + [input[start..]];
  }

  /** One character of the scan. */
  method Scan(input: string, sep: char, index: nat, parts0: seq<string>, depth0: int, start0: nat,
              ghost all: seq<string>)
    returns (parts: seq<string>, depth: int, start: nat)
    requires Depth(sep) == 0 && start0 <= index < |input|
    requires Scanning(parts0, input[start0..index], input[index..], sep, depth0, all)
    ensures start <= index + 1 && Scanning(parts, input[start..index + 1], input[index + 1..], sep, depth, all)
  {
    parts, depth, start := parts0, depth0, start0;
    var ch := input[index];
    SliceStep(input, start, index);
    ScanStep(parts, input[start..index], input[index..], sep, depth, all);
    if ch == '(' {
      depth := depth + 1;
    } else if ch == ')' {
      depth := depth - 1;
    } else if ch == sep && depth == 0 {
      parts := parts + [input[start..index]];
      start := index + 1;
    }
  }

  // ---- fields and leaves ----

  function FieldOf(name: string): Option<FieldName> {
    if name == "method" then Some(Method)
    else if name == "path" then Some(Path)
    else if name == "host" then Some(Host)
    else if name == "resp.status" then Some(ResponseStatus)
    else if name == "req.body" then Some(RequestBody)
    else if name == "resp.body" then Some(ResponseBody)
    else if name == "content-type" then Some(ContentType)
    else None
  }

  /** The operator at the start of a value, longest first; empty when there is none. */
  function OperatorOf(rest: string): (r: string)
    ensures r <= rest
  {
    if '\n' in rest then ""
    else if ">=" <= rest then ">="
    else if "<=" <= rest then "<="
    else if "!=" <= rest then "!="
    else if ">" <= rest then ">"
    else if "<" <= rest then "<"
    else if "=" <= rest then "="
    else ""
  }

  function WildcardToRegex(value: string): string {
    "^" + WildcardBody(value) + "$"
  }

  function WildcardBody(value: string): string {
    if value == [] then ""
    else WildcardBody(value[..|value| - 1]) + WildcardChar(value[|value| - 1])
  }

  function WildcardChar(c: char): string {
    if c == '.' then "\\." else if c == '*' then ".*" else if c == '?' then "." else [c]
  }

  method WildcardRegex(value: string) returns (out: string)
    ensures out == WildcardToRegex(value)
  {
    out := "^";
    for i := 0 to |value|
      invariant out == "^" + WildcardBody(value[..i])
    {
      assert value[..i + 1][..i] == value[..i];
      match value[i] {
        case '.' => out := out + "\\.";
        case '*' => out := out + ".*";
        case '?' => out := out + ".";
        case other => out := out + [other];
      }
    }
    assert value[..|value|] == value;
    out := out + "$";
  }

  predicate HasWildcard(value: string) {
    '*' in value || '?' in value
  }

  function RegexCondition(engine: RegexEngine, field: FieldName, pattern: string): Condition {
    if engine.compiles(pattern) then Regex(field, pattern) else NoMatch
  }

  function BuildCondition(engine: RegexEngine, field: FieldName, value: string): Condition {
    if HasWildcard(value) then RegexCondition(engine, field, WildcardToRegex(value))
    else if field == Path then Contains(Path, value)
    else if AllDigits(value) && ParseDigits(value) <= I64_MAX then Equals(field, NumberValue(ParseDigits(value)))
    else Equals(field, TextValue(value))
  }

  function ApplyOperator(field: FieldName, op: string, value: string): Result<Condition> {
    if AllDigits(value) && ParseDigits(value) > I64_MAX then Err(InvalidLine(value))
    else if op == "=" || op == "!=" then
      var v := if AllDigits(value) then NumberValue(ParseDigits(value)) else TextValue(value);
      Ok(if op == "=" then Equals(field, v) else NotEquals(field, v))
    else if op !in [">", ">=", "<", "<="] then Err(UnknownOperator(op))
    else if !AllDigits(value) then Err(InvalidLine(value))
    else
      var v := NumberValue(ParseDigits(value));
      Ok(if op == ">" then Gt(field, v)
         else if op == ">=" then Ge(field, v)
         else if op == "<" then Lt(field, v)
         else Le(field, v))
  }

  function FieldLine(engine: RegexEngine, line: string): Result<Condition> {
    if ':' !in line then Err(InvalidLine(line))
    else
      var raw := Before(line, ':');
      var name := Trim(raw);
      var rest := Trim(line[|raw| + 1..]);
      if FieldOf(name).None? then Err(UnknownField(name))
      else
        var op := OperatorOf(rest);
        if op != "" then ApplyOperator(FieldOf(name).value, op, Trim(rest[|op|..]))
        else Ok(BuildCondition(engine, FieldOf(name).value, rest))
  }

  // ---- the grammar ----

  function Line(engine: RegexEngine, line: string): Result<Condition>
    decreases |line|, 4, 0
  {
    PiecesAreShorter(line, '|', 0);
    var parts := SplitAt(line, '|', 0);
    var conditions := if |parts| > 1 then Alternatives(engine, parts, |line|) else None;
    if conditions.Some? then Ok(Or(conditions.value)) else Conjunction(engine, line)
  }

  /** All the parts parsed as conjunctions, or nothing if one of them does not parse. */
  function Alternatives(engine: RegexEngine, parts: seq<string>, bound: nat): Option<seq<Condition>>
    requires forall p | p in parts :: |p| <= bound
    decreases bound, 3, |parts|
  {
    if parts == [] then Some([])
    else
      var head := Conjunction(engine, parts[0]);
      if head.Err? then None
      else
        var tail := Alternatives(engine, parts[1..], bound);
        if tail.None? then None else Some([head.value] + tail.value)
  }

  function Conjunction(engine: RegexEngine, line: string): Result<Condition>
    decreases |line|, 2, 0
  {
    PiecesAreShorter(line, '&', 0);
    var parts := SplitAt(line, '&', 0);
    var conditions := if |parts| > 1 then Factors(engine, parts, |line|) else None;
    if conditions.Some? then Ok(And(conditions.value)) else Atom(engine, line)
  }

  function Factors(engine: RegexEngine, parts: seq<string>, bound: nat): Option<seq<Condition>>
    requires forall p | p in parts :: |p| <= bound
    decreases bound, 1, |parts|
  {
    if parts == [] then Some([])
    else
      var head := Atom(engine, parts[0]);
      if head.Err? then None
      else
        var tail := Factors(engine, parts[1..], bound);
        if tail.None? then None else Some([head.value] + tail.value)
  }

  function Atom(engine: RegexEngine, text: string): Result<Condition>
    decreases |text|, 0, 0
  {
    var atom := Trim(text);
    if atom == "" then Err(InvalidLine(atom))
    else if atom[0] == '(' then
      if |atom| >= 2 && atom[|atom| - 1] == ')' then Line(engine, Trim(atom[1..|atom| - 1]))
      else Err(Unbalanced(atom))
    else FieldLine(engine, atom)
  }

  predicate Skipped(line: string) {
    line == "" || line[0] == '#'
  }

  function Lines(engine: RegexEngine, lines: seq<string>): Result<seq<Condition>> {
    if lines == [] then Ok([])
    else
      var line := Trim(lines[0]);
      if Skipped(line) then Lines(engine, lines[1..])
      else
        var head := Line(engine, line);
        if head.Err? then Err(head.error)
        else
          var tail := Lines(engine, lines[1..]);
          if tail.Err? then tail else Ok([head.value] + tail.value)
  }

  function Query(engine: RegexEngine, query: string): Result<Condition> {
    var r := Lines(engine, SplitOn(query, '\n'));
    if r.Err? then Err(r.error) else Ok(And(r.value))
  }

  // ---- the parser ----

  /** What a loop has collected, completed by what the rest of the input gives. */
  function Completed(done: seq<Condition>, rest: Option<seq<Condition>>): Option<seq<Condition>> {
    if rest.None? then None else Some(done + rest.value)
  }

  lemma CompletedStep(done: seq<Condition>, x: Condition, tail: Option<seq<Condition>>)
    ensures Completed(done, if tail.None? then None else Some([x] + tail.value)) == Completed(done + [x], tail)
    ensures Completed([], tail) == tail
  {
    if tail.Some? {
      assert done + ([x] + tail.value) == (done + [x]) + tail.value;
      assert [] + tail.value == tail.value;
    }
  }

  function CompletedLines(done: seq<Condition>, rest: Result<seq<Condition>>): Result<seq<Condition>> {
    if rest.Err? then rest else Ok(done + rest.value)
  }

  lemma CompletedLinesStep(done: seq<Condition>, x: Condition, tail: Result<seq<Condition>>)
    ensures CompletedLines(done, if tail.Err? then tail else Ok([x] + tail.value)) == CompletedLines(done + [x], tail)
    ensures CompletedLines([], tail) == tail
  {
    if tail.Ok? {
      assert done + ([x] + tail.value) == (done + [x]) + tail.value;
      assert [] + tail.value == tail.value;
    }
  }

  method Parse(engine: RegexEngine, query: string) returns (r: Result<Condition>)
    ensures r == Query(engine, query)
  {
    var conditions := [];
    var lines := SplitOn(query, '\n');
    CompletedLinesStep([], NoMatch, Lines(engine, lines));
    assert lines[0..] == lines;
    for i := 0 to |lines|
      invariant CompletedLines(conditions, Lines(engine, lines[i..])) == Lines(engine, lines)
    {
      assert lines[i..][0] == lines[i] && lines[i..][1..] == lines[i + 1..];
      var line := Trim(lines[i]);
      if !Skipped(line) {
        var condition := ParseLine(engine, line);
        if condition.Err? {
          return Err(condition.error);
        }
        CompletedLinesStep(conditions, condition.value, Lines(engine, lines[i + 1..]));
        conditions := conditions + [condition.value];
      }
    }
    assert lines[|lines|..] == [] && conditions + [] == conditions;
    r := Ok(And(conditions));
  }

  method ParseLine(engine: RegexEngine, line: string) returns (r: Result<Condition>)
    ensures r == Line(engine, line)
    decreases |line|, 4, 0
  {
    PiecesAreShorter(line, '|', 0);
    var parts := SplitTopLevel(line, '|');
    if |parts| > 1 {
      var conditions := ParseAlternatives(engine, parts, |line|);
      if conditions.Some? {
        return Ok(Or(conditions.value));
      }
    }
    r := ParseAnd(engine, line);
  }

  /** The loop of parse_line over the parts of an OR; stops at the first part in error. */
  method ParseAlternatives(engine: RegexEngine, parts: seq<string>, bound: nat) returns (r: Option<seq<Condition>>)
    requires forall p | p in parts :: |p| <= bound
    ensures r == Alternatives(engine, parts, bound)
    decreases bound, 3, 0
  {
    var conditions := [];
    CompletedStep([], NoMatch, Alternatives(engine, parts, bound));
    assert parts[0..] == parts;
    for i := 0 to |parts|
      invariant Completed(conditions, Alternatives(engine, parts[i..], bound)) == Alternatives(engine, parts, bound)
    {
      assert parts[i..][0] == parts[i] && parts[i..][1..] == parts[i + 1..];
      var condition := ParseAnd(engine, parts[i]);
      if condition.Err? {
        return None;
      }
      CompletedStep(conditions, condition.value, Alternatives(engine, parts[i + 1..], bound));
      conditions := conditions + [condition.value];
    }
    assert parts[|parts|..] == [] && conditions + [] == conditions;
    r := Some(conditions);
  }

  method ParseAnd(engine: RegexEngine, line: string) returns (r: Result<Condition>)
    ensures r == Conjunction(engine, line)
    decreases |line|, 2, 0
  {
    PiecesAreShorter(line, '&', 0);
    var parts := SplitTopLevel(line, '&');
    if |parts| > 1 {
      var conditions := ParseFactors(engine, parts, |line|);
      if conditions.Some? {
        return Ok(And(conditions.value));
      }
    }
    r := ParseAtom(engine, line);
  }

  /** The loop of parse_and over the parts of an AND; stops at the first part in error. */
  method ParseFactors(engine: RegexEngine, parts: seq<string>, bound: nat) returns (r: Option<seq<Condition>>)
    requires forall p | p in parts :: |p| <= bound
    ensures r == Factors(engine, parts, bound)
    decreases bound, 1, 0
  {
    var conditions := [];
    CompletedStep([], NoMatch, Factors(engine, parts, bound));
    assert parts[0..] == parts;
    for i := 0 to |parts|
      invariant Completed(conditions, Factors(engine, parts[i..], bound)) == Factors(engine, parts, bound)
    {
      assert parts[i..][0] == parts[i] && parts[i..][1..] == parts[i + 1..];
      var condition := ParseAtom(engine, parts[i]);
      if condition.Err? {
        return None;
      }
      CompletedStep(conditions, condition.value, Factors(engine, parts[i + 1..], bound));
      conditions := conditions + [condition.value];
    }
    assert parts[|parts|..] == [] && conditions + [] == conditions;
    r := Some(conditions);
  }

  method ParseAtom(engine: RegexEngine, text: string) returns (r: Result<Condition>)
    ensures r == Atom(engine, text)
    decreases |text|, 0, 0
  {
    var atom := Trim(text);
    if atom == "" {
      return Err(InvalidLine(atom));
    }
    if atom[0] == '(' {
      if |atom| >= 2 && atom[|atom| - 1] == ')' {
        r := ParseLine(engine, Trim(atom[1..|atom| - 1]));
        return;
      }
      return Err(Unbalanced(atom));
    }
    r := FieldLine(engine, atom);
  }
}
