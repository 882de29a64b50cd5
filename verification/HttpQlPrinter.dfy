/** Printing HTTPQL conditions, and the proof that the parser inverts the printer. */
module HttpQlPrinter {
  import opened Text
  import opened Domain
  import opened HttpQl

  // ---- what can be printed ----

  function NameOf(field: FieldName): string {
    match field
    case Method => "method"
    case Path => "path"
    case Host => "host"
    case ResponseStatus => "resp.status"
    case RequestBody => "req.body"
    case ResponseBody => "resp.body"
    case ContentType => "content-type"
    case FullUrl => ""
  }

  /** Parentheses nest: never below depth zero, and back at zero at the end. */
  predicate Balanced(s: string, depth: nat) {
    if s == [] then depth == 0
    else if s[0] == ')' then depth > 0 && Balanced(s[1..], depth - 1)
    else if s[0] == '(' then Balanced(s[1..], depth + 1)
    else Balanced(s[1..], depth)
  }

  /** No separator outside all parentheses. */
  predicate NoTop(s: string, sep: char, depth: int) {
    s == [] || (!(s[0] == sep && depth == 0) && NoTop(s[1..], sep, depth + Depth(s[0])))
  }

  /** A text value that a leaf can carry: one line, trimmed, parentheses balanced, and no
      `|` or `&` outside them. */
  predicate PlainText(v: string) {
    NoEdgeSpace(v) && '\n' !in v && Balanced(v, 0) && NoTop(v, '|', 0) && NoTop(v, '&', 0)
  }

  predicate PlainValue(v: QueryValue) {
    match v
    case TextValue(t) => PlainText(t) && !AllDigits(t)
    case NumberValue(n) => 0 <= n <= I64_MAX
    case BoolValue(_) => false
  }

  predicate IsNumber(v: QueryValue) {
    v.NumberValue? && 0 <= v.number <= I64_MAX
  }

  predicate PrintableLeaf(c: Condition) {
    match c
    case Equals(f, v) => f != FullUrl && PlainValue(v)
    case NotEquals(f, v) => f != FullUrl && PlainValue(v)
    case Contains(f, needle) => f == Path && PlainText(needle) && OperatorOf(needle) == "" && !HasWildcard(needle)
    case Gt(f, v) => f != FullUrl && IsNumber(v)
    case Ge(f, v) => f != FullUrl && IsNumber(v)
    case Lt(f, v) => f != FullUrl && IsNumber(v)
    case Le(f, v) => f != FullUrl && IsNumber(v)
    case _ => false
  }

  /** Or/And trees over such leaves, every inner node with at least two children. */
  predicate Printable(c: Condition) {
    match c
    case And(cs) => |cs| >= 2 && forall i | 0 <= i < |cs| :: Printable(cs[i])
    case Or(cs) => |cs| >= 2 && forall i | 0 <= i < |cs| :: Printable(cs[i])
    case _ => PrintableLeaf(c)
  }

  // ---- the printer ----

  function ValueText(v: QueryValue): string {
    match v
    case TextValue(t) => t
    case NumberValue(n) => if n >= 0 then PrintNat(n) else ""
    case BoolValue(_) => ""
  }

  /** The part of a leaf after the colon. */
  function Tail(c: Condition): string {
    match c
    case Equals(_, v) => "=" + ValueText(v)
    case NotEquals(_, v) => "!=" + ValueText(v)
    case Contains(_, needle) => needle
    case Gt(_, v) => ">" + ValueText(v)
    case Ge(_, v) => ">=" + ValueText(v)
    case Lt(_, v) => "<" + ValueText(v)
    case Le(_, v) => "<=" + ValueText(v)
    case _ => ""
  }

  function LeafField(c: Condition): FieldName
    requires PrintableLeaf(c)
  {
    c.field
  }

  function LeafText(c: Condition): string
    requires PrintableLeaf(c)
  {
    NameOf(LeafField(c)) + ":" + Tail(c)
  }

  /** `&` binds tighter than `|`: parentheses only around an Or in an Or, and around any
      inner node in an And. */
  function Print(c: Condition): string
    requires Printable(c)
    decreases c, 1, 0
  {
    match c
    case Or(cs) => Join(OrParts(c, cs), '|')
    case And(cs) => Join(AndParts(c, cs), '&')
    case _ => LeafText(c)
  }

  function OrPart(c: Condition): string
    requires Printable(c)
    decreases c, 2, 0
  {
    if c.Or? then "(" + Print(c) + ")" else Print(c)
  }

  function AndPart(c: Condition): string
    requires Printable(c)
    decreases c, 2, 0
  {
    if c.Or? || c.And? then "(" + Print(c) + ")" else Print(c)
  }

  function OrParts(c: Condition, cs: seq<Condition>): (r: seq<string>)
    requires forall i | 0 <= i < |cs| :: cs[i] < c && Printable(cs[i])
    ensures |r| == |cs|
    ensures forall i | 0 <= i < |cs| :: r[i] == OrPart(cs[i])
    decreases c, 0, |cs|
  {
    if cs == [] then [] else [OrPart(cs[0])] + OrParts(c, cs[1..])
  }

  function AndParts(c: Condition, cs: seq<Condition>): (r: seq<string>)
    requires forall i | 0 <= i < |cs| :: cs[i] < c && Printable(cs[i])
    ensures |r| == |cs|
    ensures forall i | 0 <= i < |cs| :: r[i] == AndPart(cs[i])
    decreases c, 0, |cs|
  {
    if cs == [] then [] else [AndPart(cs[0])] + AndParts(c, cs[1..])
  }

  /** The parts, separated by the operator between two blanks. */
  function Join(parts: seq<string>, sep: char): string {
    if parts == [] then ""
    else if |parts| == 1 then parts[0]
    else parts[0] + " " + [sep] + " " + Join(parts[1..], sep)
  }

  /** What splitting gives back: every part with its blanks, the ends padded as given. */
  function Pieces(parts: seq<string>, pre: string, post: string): (r: seq<string>)
    ensures |r| == |parts|
  {
    if parts == [] then []
    else if |parts| == 1 then [pre + parts[0] + post]
    else [pre + parts[0] + " "] + Pieces(parts[1..], " ", post)
  }

  // ---- depth facts ----

  lemma {:induction false} BalancedConcat(a: string, b: string, d: nat)
    requires Balanced(a, d) && Balanced(b, 0)
    ensures Balanced(a + b, d)
  {
    if a == [] {
      assert a + b == b;
    } else {
      assert (a + b)[1..] == a[1..] + b;
      BalancedConcat(a[1..], b, if a[0] == ')' then d - 1 else if a[0] == '(' then d + 1 else d);
    }
  }

  lemma {:induction false} BalancedClose(a: string, d: nat)
    requires Balanced(a, d)
    ensures Balanced(a + ")", d + 1)
  {
    if a == [] {
      assert a + ")" == ")";
    } else {
      assert (a + ")")[1..] == a[1..] + ")";
      BalancedClose(a[1..], if a[0] == ')' then d - 1 else if a[0] == '(' then d + 1 else d);
    }
  }

  /** Inside parentheses every separator is hidden. */
  lemma {:induction false} HiddenInside(a: string, sep: char, d: nat)
    requires Balanced(a, d) && Depth(sep) == 0
    ensures NoTop(a + ")", sep, d + 1)
  {
    if a == [] {
      assert a + ")" == ")";
    } else {
      assert (a + ")")[1..] == a[1..] + ")";
      HiddenInside(a[1..], sep, if a[0] == ')' then d - 1 else if a[0] == '(' then d + 1 else d);
    }
  }

  lemma Parenthesized(a: string, sep: char)
    requires Balanced(a, 0) && Depth(sep) == 0
    ensures Balanced("(" + a + ")", 0) && NoTop("(" + a + ")", sep, 0)
  {
    var t := "(" + a + ")";
    assert t[0] == '(' && t[1..] == a + ")";
    BalancedClose(a, 0);
    HiddenInside(a, sep, 0);
  }

  lemma {:induction false} NoTopConcat(a: string, b: string, sep: char, d: nat)
    requires NoTop(a, sep, d) && Balanced(a, d) && NoTop(b, sep, 0)
    ensures NoTop(a + b, sep, d)
  {
    if a == [] {
      assert a + b == b;
    } else {
      assert (a + b)[1..] == a[1..] + b;
      NoTopConcat(a[1..], b, sep, if a[0] == ')' then d - 1 else if a[0] == '(' then d + 1 else d);
    }
  }

  // ---- splitting what was joined ----

  function Deeper(c: char, d: nat): nat
    requires c == ')' ==> d > 0
  {
    if c == ')' then d - 1 else if c == '(' then d + 1 else d
  }

  /** Reading a piece without a top-level separator up to the separator. */
  lemma {:induction false} SplitPiece(a: string, sep: char, b: string, d: nat)
    requires NoTop(a, sep, d) && Balanced(a, d) && Depth(sep) == 0
    ensures SplitAt(a + [sep] + b, sep, d) == [a] + SplitAt(b, sep, 0)
  {
    if a == [] {
      assert a + [sep] + b == [sep] + b;
      SplitCons(sep, b, sep, d);
    } else {
      var rest := a[1..] + [sep] + b;
      assert a + [sep] + b == [a[0]] + rest;
      SplitCons(a[0], rest, sep, d);
      SplitPiece(a[1..], sep, b, Deeper(a[0], d));
      OpenPiece(a, SplitAt(b, sep, 0));
    }
  }

  lemma SplitCons(c: char, rest: string, sep: char, d: int)
    requires Depth(sep) == 0
    ensures SplitAt([c] + rest, sep, d) ==
            if c == sep && d == 0 then [[]] + SplitAt(rest, sep, 0) else Prepend([c], SplitAt(rest, sep, d + Depth(c)))
  {
    assert ([c] + rest)[1..] == rest;
  }

  lemma OpenPiece(a: string, rest: seq<string>)
    requires a != []
    ensures Prepend([a[0]], [a[1..]] + rest) == [a] + rest
  {
    assert [a[0]] + a[1..] == a;
    assert ([a[1..]] + rest)[1..] == rest;
  }

  lemma {:induction false} SplitNothing(a: string, sep: char, d: int)
    requires NoTop(a, sep, d)
    ensures SplitAt(a, sep, d) == [a]
  {
    if a != [] {
      SplitNothing(a[1..], sep, d + Depth(a[0]));
      assert [a[0]] + a[1..] == a;
      assert Prepend([a[0]], [a[1..]]) == [a];
    }
  }

  predicate Part(p: string, sep: char) {
    Balanced(p, 0) && NoTop(p, sep, 0)
  }

  predicate Blank(s: string) {
    s == "" || s == " "
  }

  lemma PadPart(pre: string, p: string, post: string, sep: char)
    requires Part(p, sep) && Blank(pre) && Blank(post) && sep != ' '
    ensures Part(pre + p + post, sep)
  {
    assert Balanced(" ", 0) && NoTop(" ", sep, 0) by { assert " "[1..] == ""; }
    assert Balanced("", 0) && NoTop("", sep, 0);
    BalancedConcat(pre, p, 0);
    NoTopConcat(pre, p, sep, 0);
    BalancedConcat(pre + p, post, 0);
    NoTopConcat(pre + p, post, sep, 0);
  }

  lemma {:induction false} SplitJoin(parts: seq<string>, sep: char, pre: string, post: string)
    requires parts != [] && Depth(sep) == 0 && sep != ' ' && Blank(pre) && Blank(post)
    requires forall i | 0 <= i < |parts| :: Part(parts[i], sep)
    ensures SplitAt(pre + Join(parts, sep) + post, sep, 0) == Pieces(parts, pre, post)
    ensures forall p | p in Pieces(parts, pre, post) :: |p| <= |pre + Join(parts, sep) + post|
  {
    if |parts| == 1 {
      PadPart(pre, parts[0], post, sep);
      SplitNothing(pre + parts[0] + post, sep, 0);
    } else {
      var rest := " " + Join(parts[1..], sep) + post;
      assert pre + Join(parts, sep) + post == (pre + parts[0] + " ") + [sep] + rest;
      PadPart(pre, parts[0], " ", sep);
      SplitPiece(pre + parts[0] + " ", sep, rest, 0);
      SplitJoin(parts[1..], sep, " ", post);
    }
    PiecesAreShorter(pre + Join(parts, sep) + post, sep, 0);
  }

  lemma {:induction false} JoinBalanced(parts: seq<string>, sep: char)
    requires Depth(sep) == 0
    requires forall i | 0 <= i < |parts| :: Balanced(parts[i], 0)
    ensures Balanced(Join(parts, sep), 0)
  {
    if |parts| > 1 {
      JoinBalanced(parts[1..], sep);
      var mid := " " + [sep] + " ";
      BalancedMiddle(sep);
      BalancedConcat(mid, Join(parts[1..], sep), 0);
      BalancedConcat(parts[0], mid + Join(parts[1..], sep), 0);
      assert Join(parts, sep) == parts[0] + (mid + Join(parts[1..], sep));
    }
  }

  lemma BalancedMiddle(sep: char)
    requires Depth(sep) == 0
    ensures Balanced(" " + [sep] + " ", 0)
    ensures forall other | other != sep && other != ' ' :: NoTop(" " + [sep] + " ", other, 0)
  {
    var m := " " + [sep] + " ";
    NoParens(m);
    forall other | other != sep && other != ' ' ensures NoTop(m, other, 0) { NoSeparator(m, other, 0); }
  }

  lemma {:induction false} JoinHides(parts: seq<string>, sep: char, other: char)
    requires Depth(sep) == 0 && other != sep && other != ' '
    requires forall i | 0 <= i < |parts| :: Balanced(parts[i], 0) && NoTop(parts[i], other, 0)
    ensures NoTop(Join(parts, sep), other, 0)
  {
    if |parts| > 1 {
      JoinHides(parts[1..], sep, other);
      var mid := " " + [sep] + " ";
      BalancedMiddle(sep);
      NoTopConcat(mid, Join(parts[1..], sep), other, 0);
      NoTopConcat(parts[0], mid + Join(parts[1..], sep), other, 0);
      assert Join(parts, sep) == parts[0] + (mid + Join(parts[1..], sep));
    }
  }

  // ---- edges ----

  /** Not empty, no blank at the ends, on one line, and not a comment. */
  predicate Solid(s: string) {
    s != [] && NoEdgeSpace(s) && '\n' !in s && s[0] != '#'
  }

  lemma {:induction false} JoinSolid(parts: seq<string>, sep: char)
    requires parts != [] && sep != '\n'
    requires forall i | 0 <= i < |parts| :: Solid(parts[i])
    ensures Solid(Join(parts, sep))
  {
    if |parts| > 1 {
      JoinSolid(parts[1..], sep);
      SolidConcat(parts[0], " " + [sep] + " ", Join(parts[1..], sep));
      assert Join(parts, sep) == parts[0] + (" " + [sep] + " ") + Join(parts[1..], sep);
    }
  }

  lemma SolidConcat(a: string, mid: string, b: string)
    requires Solid(a) && Solid(b) && '\n' !in mid
    ensures Solid(a + mid + b)
  {
    var s := a + mid + b;
    assert s[0] == a[0] && s[|s| - 1] == b[|b| - 1];
    forall i | 0 <= i < |s| ensures s[i] != '\n' {
      assert s[i] in a || s[i] in mid || s[i] in b;
    }
  }

  // ---- leaves ----

  lemma NameFacts(field: FieldName)
    requires field != FullUrl
    ensures FieldOf(NameOf(field)) == Some(field) && PlainName(NameOf(field))
    ensures Part(NameOf(field), '|') && Part(NameOf(field), '&')
  {
    var n := NameOf(field);
    assert FieldOf(n) == Some(field);
    NameIsPlain(field);
    NoParens(n);
    NoSeparator(n, '|', 0);
    NoSeparator(n, '&', 0);
  }

  /** Lower-case letters, dots and hyphens, starting and ending with a letter. */
  predicate PlainName(n: string) {
    && n != [] && 'a' <= n[0] <= 'z' && 'a' <= n[|n| - 1] <= 'z'
    && forall i | 0 <= i < |n| :: n[i] == '.' || n[i] == '-' || 'a' <= n[i] <= 'z'
  }

  lemma NameIsPlain(field: FieldName)
    requires field != FullUrl
    ensures PlainName(NameOf(field))
  {
  }

  lemma {:induction false} NoParens(s: string)
    requires '(' !in s && ')' !in s
    ensures Balanced(s, 0)
  {
    if s != [] { NoParens(s[1..]); }
  }

  lemma {:induction false} NoSeparator(s: string, sep: char, d: int)
    requires sep !in s
    ensures NoTop(s, sep, d)
  {
    if s != [] { NoSeparator(s[1..], sep, d + Depth(s[0])); }
  }

  lemma DigitsArePlain(n: nat)
    ensures PlainText(PrintNat(n)) && PrintNat(n) != ""
  {
    var s := PrintNat(n);
    PrintNatReads(n);
    NoParens(s);
    NoSeparator(s, '|', 0);
    NoSeparator(s, '&', 0);
  }

  lemma ValueFacts(v: QueryValue)
    requires PlainValue(v)
    ensures PlainText(ValueText(v))
    ensures v.NumberValue? <==> AllDigits(ValueText(v))
    ensures v.NumberValue? ==> ParseDigits(ValueText(v)) == v.number <= I64_MAX
  {
    if v.NumberValue? {
      DigitsArePlain(v.number);
      PrintNatReads(v.number);
    }
  }

  predicate Operator(op: string) {
    op in ["=", "!=", ">", ">=", "<", "<="]
  }

  /** An operator in front of a plain value: still one trimmed, balanced text. */
  lemma OperatorFacts(op: string, v: string)
    requires Operator(op) && PlainText(v)
    ensures PlainText(op + v) && op + v != ""
  {
    assert '(' !in op && ')' !in op && '|' !in op && '&' !in op && '\n' !in op;
    NoParens(op);
    NoSeparator(op, '|', 0);
    NoSeparator(op, '&', 0);
    BalancedConcat(op, v, 0);
    NoTopConcat(op, v, '|', 0);
    NoTopConcat(op, v, '&', 0);
    var s := op + v;
    assert !IsSpace(op[0]) && !IsSpace(op[|op| - 1]);
    assert s[0] == op[0] && s[|s| - 1] == if v == "" then op[|op| - 1] else v[|v| - 1];
  }

  function OpOf(c: Condition): string {
    match c
    case Equals(_, _) => "="
    case NotEquals(_, _) => "!="
    case Gt(_, _) => ">"
    case Ge(_, _) => ">="
    case Lt(_, _) => "<"
    case Le(_, _) => "<="
    case _ => ""
  }

  lemma TailParts(c: Condition)
    requires PrintableLeaf(c) && !c.Contains?
    ensures Operator(OpOf(c)) && PlainValue(c.value) && Tail(c) == OpOf(c) + ValueText(c.value)
    ensures OpOf(c) in [">", ">=", "<", "<="] ==> c.value.NumberValue?
  {
  }

  lemma TailFacts(c: Condition)
    requires PrintableLeaf(c)
    ensures PlainText(Tail(c))
    ensures !c.Contains? ==> Tail(c) == OpOf(c) + ValueText(c.value) && OperatorOf(Tail(c)) == OpOf(c)
  {
    if !c.Contains? {
      TailParts(c);
      ValueFacts(c.value);
      OperatorFacts(OpOf(c), ValueText(c.value));
      OperatorRead(OpOf(c), ValueText(c.value), c.value.NumberValue?);
    }
  }

  /** The operator read back is the one printed, since after `>` and `<` come digits. */
  lemma OperatorRead(op: string, v: string, number: bool)
    requires Operator(op) && '\n' !in op + v
    requires op in [">", ">=", "<", "<="] ==> number
    requires number ==> AllDigits(v)
    ensures OperatorOf(op + v) == op
  {
    var s := op + v;
    assert op <= s;
    if op == ">" || op == "<" {
      assert s[1] == v[0] != '=';
    }
  }

  /** What parse_field_line reads from a name, a colon and a trimmed rest. */
  lemma FieldLineReads(engine: RegexEngine, name: string, tail: string, field: FieldName)
    requires PlainName(name) && FieldOf(name) == Some(field) && NoEdgeSpace(tail)
    ensures FieldLine(engine, name + ":" + tail) ==
            if OperatorOf(tail) != "" then ApplyOperator(field, OperatorOf(tail), Trim(tail[|OperatorOf(tail)|..]))
            else Ok(BuildCondition(engine, field, tail))
  {
    var line := name + ":" + tail;
    BeforeColon(name, tail);
    assert line[|name|] == ':' && line[|name| + 1..] == tail;
    TrimClean(name);
    TrimClean(tail);
  }

  /** A printed leaf reads back as that leaf. */
  lemma LeafReadsBack(engine: RegexEngine, c: Condition)
    requires PrintableLeaf(c)
    ensures FieldLine(engine, LeafText(c)) == Ok(c)
  {
    NameFacts(LeafField(c));
    TailFacts(c);
    FieldLineReads(engine, NameOf(LeafField(c)), Tail(c), LeafField(c));
    if !c.Contains? {
      ValueFacts(c.value);
      assert Tail(c)[|OpOf(c)|..] == ValueText(c.value);
      TrimClean(ValueText(c.value));
      OperatorApplies(c, ValueText(c.value));
    }
  }

  /** What an operator makes of a text that stands for the value. */
  lemma OperatorApplies(c: Condition, text: string)
    requires PrintableLeaf(c) && !c.Contains?
    requires c.value == if AllDigits(text) then NumberValue(ParseDigits(text)) else TextValue(text)
    requires AllDigits(text) ==> ParseDigits(text) <= I64_MAX
    ensures ApplyOperator(c.field, OpOf(c), text) == Ok(c)
  {
  }

  lemma {:induction false} BeforeColon(name: string, tail: string)
    requires ':' !in name
    ensures Before(name + ":" + tail, ':') == name
  {
    var s := name + ":" + tail;
    if name == [] {
      assert s[0] == ':';
    } else {
      assert s[0] == name[0] && s[1..] == name[1..] + ":" + tail;
      BeforeColon(name[1..], tail);
    }
  }

  lemma LeafFacts(c: Condition)
    requires PrintableLeaf(c)
    ensures Solid(LeafText(c)) && LeafText(c)[0] != '('
    ensures Part(LeafText(c), '|') && Part(LeafText(c), '&')
  {
    var name, tail := NameOf(LeafField(c)), Tail(c);
    NameFacts(LeafField(c));
    TailFacts(c);
    assert Balanced(":", 0) && NoTop(":", '|', 0) && NoTop(":", '&', 0) by { assert ":"[1..] == ""; }
    BalancedConcat(name, ":", 0);
    BalancedConcat(name + ":", tail, 0);
    NoTopConcat(name, ":", '|', 0);
    NoTopConcat(name + ":", tail, '|', 0);
    NoTopConcat(name, ":", '&', 0);
    NoTopConcat(name + ":", tail, '&', 0);
    SolidLeaf(name, tail);
  }

  lemma SolidLeaf(name: string, tail: string)
    requires PlainName(name) && NoEdgeSpace(tail) && '\n' !in tail
    ensures Solid(name + ":" + tail)
  {
    var s := name + ":" + tail;
    assert s[0] == name[0] && s[|s| - 1] == if tail == "" then ':' else tail[|tail| - 1];
    forall i | 0 <= i < |s| ensures s[i] != '\n' {
      assert s[i] in name || s[i] == ':' || s[i] in tail;
    }
  }

  // ---- printed trees ----

  lemma {:induction false} PrintFacts(c: Condition)
    requires Printable(c)
    ensures Solid(Print(c)) && Balanced(Print(c), 0)
    ensures !c.Or? ==> NoTop(Print(c), '|', 0)
    ensures !c.Or? && !c.And? ==> NoTop(Print(c), '&', 0)
    decreases c, 0
  {
    match c
    case Or(cs) =>
      forall i | 0 <= i < |cs| ensures Solid(OrPart(cs[i])) && Part(OrPart(cs[i]), '|') { OrPartFacts(cs[i]); }
      JoinBalanced(OrParts(c, cs), '|');
      JoinSolid(OrParts(c, cs), '|');
    case And(cs) =>
      forall i | 0 <= i < |cs|
        ensures Solid(AndPart(cs[i])) && Part(AndPart(cs[i]), '&') && Part(AndPart(cs[i]), '|')
      {
        AndPartFacts(cs[i]);
      }
      JoinBalanced(AndParts(c, cs), '&');
      JoinSolid(AndParts(c, cs), '&');
      JoinHides(AndParts(c, cs), '&', '|');
    case _ => LeafFacts(c);
  }

  lemma SolidParens(s: string)
    requires Solid(s)
    ensures Solid("(" + s + ")")
  {
    var t := "(" + s + ")";
    forall i | 0 <= i < |t| ensures t[i] != '\n' {
      assert t[i] == '(' || t[i] in s || t[i] == ')';
    }
  }

  lemma {:induction false} OrPartFacts(c: Condition)
    requires Printable(c)
    ensures Solid(OrPart(c)) && Part(OrPart(c), '|')
    decreases c, 1
  {
    PrintFacts(c);
    Parenthesized(Print(c), '|');
    SolidParens(Print(c));
  }

  lemma {:induction false} AndPartFacts(c: Condition)
    requires Printable(c)
    ensures Solid(AndPart(c)) && Part(AndPart(c), '&') && Part(AndPart(c), '|')
    decreases c, 1
  {
    PrintFacts(c);
    Parenthesized(Print(c), '|');
    Parenthesized(Print(c), '&');
    SolidParens(Print(c));
  }

  // ---- reading back ----

  function Rank(c: Condition, orRank: nat, andRank: nat, leafRank: nat): nat {
    if c.Or? then orRank else if c.And? then andRank else leafRank
  }

  lemma AtomOfParens(engine: RegexEngine, pre: string, inner: string, post: string, c: Condition)
    requires Blank(pre) && Blank(post) && Solid(inner) && Line(engine, inner) == Ok(c)
    ensures Atom(engine, pre + ("(" + inner + ")") + post) == Ok(c)
  {
    var atom := "(" + inner + ")";
    SolidParens(inner);
    TrimPadded(pre, atom, post);
    OpensParens(engine, pre + atom + post, atom);
    assert atom[1..|atom| - 1] == inner;
    TrimClean(inner);
  }

  lemma OpensParens(engine: RegexEngine, text: string, atom: string)
    requires Trim(text) == atom && |atom| >= 2 && atom[0] == '(' && atom[|atom| - 1] == ')'
    ensures Atom(engine, text) == Line(engine, Trim(atom[1..|atom| - 1]))
  {
  }

  lemma AtomOfLeaf(engine: RegexEngine, pre: string, c: Condition, post: string)
    requires Blank(pre) && Blank(post) && PrintableLeaf(c)
    ensures Atom(engine, pre + LeafText(c) + post) == Ok(c)
  {
    LeafFacts(c);
    TrimPadded(pre, LeafText(c), post);
    LeafReadsBack(engine, c);
  }

  /** parse_atom on an And part, blanks included. */
  lemma {:induction false} AtomReadsBack(engine: RegexEngine, c: Condition, pre: string, post: string)
    requires Printable(c) && Blank(pre) && Blank(post)
    ensures Atom(engine, pre + AndPart(c) + post) == Ok(c)
    decreases c, Rank(c, 2, 3, 1), 0
  {
    if c.Or? || c.And? {
      PrintFacts(c);
      LineReadsBack(engine, c);
      AtomOfParens(engine, pre, Print(c), post, c);
    } else {
      AtomOfLeaf(engine, pre, c, post);
    }
  }

  lemma ConjunctionOfFactors(engine: RegexEngine, text: string, pieces: seq<string>, cs: seq<Condition>)
    requires SplitAt(text, '&', 0) == pieces && |pieces| == |cs| >= 2
    requires forall p | p in pieces :: |p| <= |text|
    requires Factors(engine, pieces, |text|) == Some(cs)
    ensures Conjunction(engine, text) == Ok(And(cs))
  {
  }

  lemma ConjunctionOfAtom(engine: RegexEngine, text: string, c: Condition)
    requires NoTop(text, '&', 0) && Atom(engine, text) == Ok(c)
    ensures Conjunction(engine, text) == Ok(c)
  {
    SplitNothing(text, '&', 0);
  }

  /** parse_and on an Or part, blanks included. */
  lemma {:induction false} ConjunctionReadsBack(engine: RegexEngine, c: Condition, pre: string, post: string)
    requires Printable(c) && Blank(pre) && Blank(post)
    ensures Conjunction(engine, pre + OrPart(c) + post) == Ok(c)
    decreases c, Rank(c, 3, 1, 2), 0
  {
    if c.And? {
      AndReadsBack(engine, c, pre, post);
    } else {
      AndPartFacts(c);
      PadPart(pre, AndPart(c), post, '&');
      AtomReadsBack(engine, c, pre, post);
      ConjunctionOfAtom(engine, pre + AndPart(c) + post, c);
    }
  }

  lemma {:induction false} AndReadsBack(engine: RegexEngine, c: Condition, pre: string, post: string)
    requires c.And? && Printable(c) && Blank(pre) && Blank(post)
    ensures Conjunction(engine, pre + Print(c) + post) == Ok(c)
    decreases c, 0, |c.all| + 1
  {
    var parts := AndParts(c, c.all);
    forall i | 0 <= i < |c.all| ensures Part(parts[i], '&') { AndPartFacts(c.all[i]); }
    var text := pre + Join(parts, '&') + post;
    SplitJoin(parts, '&', pre, post);
    FactorsReadBack(engine, c, c.all, pre, post, |text|);
    ConjunctionOfFactors(engine, text, Pieces(parts, pre, post), c.all);
  }

  lemma LineOfAlternatives(engine: RegexEngine, text: string, pieces: seq<string>, cs: seq<Condition>)
    requires SplitAt(text, '|', 0) == pieces && |pieces| == |cs| >= 2
    requires forall p | p in pieces :: |p| <= |text|
    requires Alternatives(engine, pieces, |text|) == Some(cs)
    ensures Line(engine, text) == Ok(Or(cs))
  {
  }

  lemma LineOfConjunction(engine: RegexEngine, text: string, c: Condition)
    requires NoTop(text, '|', 0) && Conjunction(engine, text) == Ok(c)
    ensures Line(engine, text) == Ok(c)
  {
    SplitNothing(text, '|', 0);
  }

  lemma {:induction false} OrReadsBack(engine: RegexEngine, c: Condition)
    requires c.Or? && Printable(c)
    ensures Line(engine, Print(c)) == Ok(c)
    decreases c, 0, |c.any| + 1
  {
    var parts := OrParts(c, c.any);
    forall i | 0 <= i < |c.any| ensures Part(parts[i], '|') { OrPartFacts(c.any[i]); }
    var text := Join(parts, '|');
    NoPadding(text);
    SplitJoin(parts, '|', "", "");
    AlternativesReadBack(engine, c, c.any, "", "", |text|);
    LineOfAlternatives(engine, text, Pieces(parts, "", ""), c.any);
  }

  /** parse_line on a printed tree. */
  lemma {:induction false} LineReadsBack(engine: RegexEngine, c: Condition)
    requires Printable(c)
    ensures Line(engine, Print(c)) == Ok(c)
    decreases c, Rank(c, 1, 2, 3), 0
  {
    if c.Or? {
      OrReadsBack(engine, c);
    } else {
      PrintFacts(c);
      ConjunctionReadsBack(engine, c, "", "");
      NoPadding(OrPart(c));
      LineOfConjunction(engine, OrPart(c), c);
    }
  }

  lemma NoPadding(s: string)
    ensures "" + s + "" == s
  {
  }

  /** The first piece and the others. */
  lemma PiecesStep(parts: seq<string>, pre: string, post: string)
    requires parts != []
    ensures Pieces(parts, pre, post)[0] == pre + parts[0] + (if |parts| == 1 then post else " ")
    ensures Pieces(parts, pre, post)[1..] == Pieces(parts[1..], " ", post)
  {
  }

  lemma {:induction false} FactorsReadBack(
      engine: RegexEngine, c: Condition, cs: seq<Condition>, pre: string, post: string, bound: nat)
    requires forall i | 0 <= i < |cs| :: cs[i] < c && Printable(cs[i])
    requires Blank(pre) && Blank(post)
    requires forall p | p in Pieces(AndParts(c, cs), pre, post) :: |p| <= bound
    ensures Factors(engine, Pieces(AndParts(c, cs), pre, post), bound) == Some(cs)
    decreases c, 0, |cs|
  {
    if cs != [] {
      var parts, rest := AndParts(c, cs), AndParts(c, cs[1..]);
      assert parts[1..] == rest;
      PiecesStep(parts, pre, post);
      AtomReadsBack(engine, cs[0], pre, if |cs| == 1 then post else " ");
      forall p | p in Pieces(rest, " ", post) ensures |p| <= bound { assert p in Pieces(parts, pre, post)[1..]; }
      FactorsReadBack(engine, c, cs[1..], " ", post, bound);
      FactorsStep(engine, Pieces(parts, pre, post), bound, cs);
    }
  }

  lemma FactorsStep(engine: RegexEngine, pieces: seq<string>, bound: nat, cs: seq<Condition>)
    requires pieces != [] && cs != [] && forall p | p in pieces :: |p| <= bound
    requires Atom(engine, pieces[0]) == Ok(cs[0]) && Factors(engine, pieces[1..], bound) == Some(cs[1..])
    ensures Factors(engine, pieces, bound) == Some(cs)
  {
    assert [cs[0]] + cs[1..] == cs;
  }

  lemma {:induction false} AlternativesReadBack(
      engine: RegexEngine, c: Condition, cs: seq<Condition>, pre: string, post: string, bound: nat)
    requires forall i | 0 <= i < |cs| :: cs[i] < c && Printable(cs[i])
    requires Blank(pre) && Blank(post)
    requires forall p | p in Pieces(OrParts(c, cs), pre, post) :: |p| <= bound
    ensures Alternatives(engine, Pieces(OrParts(c, cs), pre, post), bound) == Some(cs)
    decreases c, 0, |cs|
  {
    if cs != [] {
      var parts, rest := OrParts(c, cs), OrParts(c, cs[1..]);
      assert parts[1..] == rest;
      PiecesStep(parts, pre, post);
      ConjunctionReadsBack(engine, cs[0], pre, if |cs| == 1 then post else " ");
      forall p | p in Pieces(rest, " ", post) ensures |p| <= bound { assert p in Pieces(parts, pre, post)[1..]; }
      AlternativesReadBack(engine, c, cs[1..], " ", post, bound);
      AlternativesStep(engine, Pieces(parts, pre, post), bound, cs);
    }
  }

  lemma AlternativesStep(engine: RegexEngine, pieces: seq<string>, bound: nat, cs: seq<Condition>)
    requires pieces != [] && cs != [] && forall p | p in pieces :: |p| <= bound
    requires Conjunction(engine, pieces[0]) == Ok(cs[0]) && Alternatives(engine, pieces[1..], bound) == Some(cs[1..])
    ensures Alternatives(engine, pieces, bound) == Some(cs)
  {
    assert [cs[0]] + cs[1..] == cs;
  }

  // ---- main results ----

  /** The parser inverts the printer: a printed tree parses to that tree, wrapped in the
      And of its single line. */
  lemma ParseInvertsPrint(engine: RegexEngine, c: Condition)
    requires Printable(c)
    ensures Query(engine, Print(c)) == Ok(And([c]))
  {
    PrintFacts(c);
    LineReadsBack(engine, c);
    SingleLine(engine, Print(c), c);
  }

  lemma SingleLine(engine: RegexEngine, line: string, c: Condition)
    requires Solid(line) && Line(engine, line) == Ok(c)
    ensures Query(engine, line) == Ok(And([c]))
  {
    SplitWithout(line, '\n');
    TrimClean(line);
    assert Lines(engine, []) == Ok([]);
    assert [line][1..] == [];
    assert [c] + [] == [c];
  }

  lemma {:induction false} LinesConcat(engine: RegexEngine, a: seq<string>, b: seq<string>)
    ensures Lines(engine, a + b) == CompletedLines2(Lines(engine, a), Lines(engine, b))
  {
    if a == [] {
      assert a + b == b;
      NothingFirst(Lines(engine, b));
    } else {
      assert (a + b)[0] == a[0] && (a + b)[1..] == a[1..] + b;
      LinesConcat(engine, a[1..], b);
      var head := Line(engine, Trim(a[0]));
      if head.Ok? { OneMoreFirst(head.value, Lines(engine, a[1..]), Lines(engine, b)); }
    }
  }

  lemma NothingFirst(b: Result<seq<Condition>>)
    ensures CompletedLines2(Ok([]), b) == b
  {
    if b.Ok? { assert [] + b.value == b.value; }
  }

  lemma OneMoreFirst(x: Condition, a: Result<seq<Condition>>, b: Result<seq<Condition>>)
    ensures CompletedLines2(if a.Err? then a else Ok([x] + a.value), b)
         == (var both := CompletedLines2(a, b); if both.Err? then both else Ok([x] + both.value))
  {
    if a.Ok? && b.Ok? {
      assert ([x] + a.value) + b.value == [x] + (a.value + b.value);
    }
  }

  /** Both parsed, in order; otherwise the first error. */
  function CompletedLines2(a: Result<seq<Condition>>, b: Result<seq<Condition>>): Result<seq<Condition>> {
    if a.Err? then a else if b.Err? then b else Ok(a.value + b.value)
  }

  /** Two queries joined by a newline: an error if either is one (the first wins), and
      otherwise the conjunction of their meanings. */
  lemma NewlineMeansAnd(engine: RegexEngine, a: string, b: string, flow: HttpFlow)
    ensures var both := Query(engine, a + "\n" + b);
            && (Query(engine, a).Err? ==> both == Query(engine, a))
            && (Query(engine, a).Ok? && Query(engine, b).Err? ==> both == Query(engine, b))
            && (Query(engine, a).Ok? && Query(engine, b).Ok? ==>
                  both.Ok? && (Matches(engine, both.value, flow) <==>
                               Matches(engine, Query(engine, a).value, flow)
                               && Matches(engine, Query(engine, b).value, flow)))
  {
    SplitConcat(a, '\n', b);
    var la, lb := Lines(engine, SplitOn(a, '\n')), Lines(engine, SplitOn(b, '\n'));
    LinesConcat(engine, SplitOn(a, '\n'), SplitOn(b, '\n'));
    assert a + "\n" + b == a + ['\n'] + b;
    if la.Ok? && lb.Ok? {
      AndOfConcat(engine, la.value, lb.value, flow);
    }
  }

  lemma AndOfConcat(engine: RegexEngine, a: seq<Condition>, b: seq<Condition>, flow: HttpFlow)
    ensures Matches(engine, And(a + b), flow) <==> Matches(engine, And(a), flow) && Matches(engine, And(b), flow)
  {
    var cs := a + b;
    if Matches(engine, And(cs), flow) {
      forall i | 0 <= i < |a| ensures Matches(engine, a[i], flow) { assert cs[i] == a[i]; }
      forall i | 0 <= i < |b| ensures Matches(engine, b[i], flow) { assert cs[|a| + i] == b[i]; }
    }
  }
}
