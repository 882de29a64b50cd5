/** Chunks of React Server Component pages (`rsc_chunks.rs`): a string-aware bracket
    automaton, the search for push calls, and the unescaping of their payloads. */
module RscChunks {
  import opened Text
  import opened Json
  import opened JsonText

  // ---- the bracket automaton ----

  datatype Mode = Plain | Quoted | Escaped

  datatype State = State(depth: nat, mode: Mode)

  function Step(st: State, c: char): State
    requires st.depth > 0
  {
    match st.mode
    case Escaped => st.(mode := Quoted)
    case Quoted => st.(mode := if c == '\\' then Escaped else if c == '"' then Plain else Quoted)
    case Plain =>
      if c == '"' then st.(mode := Quoted)
      else if c == '[' then st.(depth := st.depth + 1)
      else if c == ']' then st.(depth := st.depth - 1)
      else st
  }

  /** How many characters it takes to close all brackets, if they get closed. */
  function Closing(st: State, s: string): (r: Option<nat>)
    requires st.depth > 0
    ensures r.Some? ==> 0 < r.value <= |s|
    decreases |s|
  {
    if s == "" then None
    else
      var next := Step(st, s[0]);
      if next.depth == 0 then Some(1) else Shifted(1, Closing(next, s[1..]))
  }

  /** Just past the bracket that closes the one the text starts with. */
  function ArrayEnd(s: string): (r: Option<nat>)
    ensures r.Some? ==> 1 < r.value <= |s|
  {
    if s == "" || s[0] != '[' then None else Shifted(1, Closing(State(1, Plain), s[1..]))
  }

  lemma OpeningStep(text: string, open: nat)
    requires open < |text| && text[open] == '['
    ensures ArrayEnd(text[open..]) == Shifted(1, Closing(State(1, Plain), text[open + 1..]))
  {
    assert text[open..][1..] == text[open + 1..];
  }

  /** Reading from `open` has come to idx, in state st, without closing the first bracket. */
  ghost predicate Reading(text: string, open: nat, idx: nat, st: State) {
    && open <= idx <= |text| && st.depth > 0
    && ArrayEnd(text[open..]) == Shifted(idx - open, Closing(st, text[idx..]))
  }

  lemma ReadingStep(text: string, open: nat, idx: nat, st: State)
    requires idx < |text| && Reading(text, open, idx, st)
    ensures var next := Step(st, text[idx]);
            if next.depth == 0 then ArrayEnd(text[open..]) == Some(idx + 1 - open)
            else Reading(text, open, idx + 1, next)
  {
    assert text[idx..][0] == text[idx] && text[idx..][1..] == text[idx + 1..];
  }

  method BalancedBracketEnd(text: string, open: nat) returns (end: Option<nat>)
    ensures end == if open <= |text| then Shifted(open, ArrayEnd(text[open..])) else None
  {
    if open >= |text| || text[open] != '[' {
      return None;
    }
    var depth: nat, inString, escaped := 0, false, false;
    ghost var st := State(1, Plain);
    var idx := open;
    OpeningStep(text, open);
    while idx < |text|
      invariant open <= idx <= |text|
      invariant escaped ==> inString
      invariant idx == open ==> depth == 0 && !inString && st == State(1, Plain)
      invariant idx > open ==> st == State(depth, ModeOf(inString, escaped)) && Reading(text, open, idx, st)
    {
      var c := text[idx];
      if idx > open {
        ReadingStep(text, open, idx, st);
        st := Step(st, c);
      }
      if inString {
        if escaped {
          escaped := false;
        } else if c == '\\' {
          escaped := true;
        } else if c == '"' {
          inString := false;
        }
      } else if c == '"' {
        inString := true;
      } else if c == '[' {
        depth := depth + 1;
      } else if c == ']' {
        depth := depth - 1;
        if depth == 0 {
          return Some(idx + 1);
        }
      }
      idx := idx + 1;
    }
    end := None;
  }

  function ModeOf(inString: bool, escaped: bool): Mode {
    if !inString then Plain else if escaped then Escaped else Quoted
  }

  /** The state after a text, if no bracket closes the outermost one on the way. */
  function Pass(st: State, s: string): Option<State>
    requires st.depth > 0
    decreases |s|
  {
    if s == "" then Some(st)
    else
      var next := Step(st, s[0]);
      if next.depth == 0 then None else Pass(next, s[1..])
  }

  ghost predicate Leads(st: State, s: string, to: State) {
    st.depth > 0 && to.depth > 0 && Pass(st, s) == Some(to)
  }

  lemma {:induction false} LeadsConcat(st: State, a: string, mid: State, b: string, to: State)
    requires Leads(st, a, mid) && Leads(mid, b, to)
    ensures Leads(st, a + b, to)
    decreases |a|
  {
    if a == "" {
      assert a + b == b;
    } else {
      assert (a + b)[0] == a[0] && (a + b)[1..] == a[1..] + b;
      LeadsConcat(Step(st, a[0]), a[1..], mid, b, to);
    }
  }

  lemma {:induction false} ClosingAfter(st: State, a: string, mid: State, b: string)
    requires Leads(st, a, mid)
    ensures Closing(st, a + b) == Shifted(|a|, Closing(mid, b))
    decreases |a|
  {
    if a == "" {
      assert a + b == b;
    } else {
      assert (a + b)[0] == a[0] && (a + b)[1..] == a[1..] + b;
      ClosingAfter(Step(st, a[0]), a[1..], mid, b);
    }
  }

  lemma OneStep(st: State, c: char)
    requires st.depth > 0 && Step(st, c).depth > 0
    ensures Leads(st, [c], Step(st, c))
  {
    assert [c][1..] == "";
  }

  // ---- the automaton on JSON texts ----

  predicate Inert(c: char) {
    c != '"' && c != '[' && c != ']'
  }

  lemma {:induction false} PassInert(s: string, d: nat)
    requires d > 0 && forall c | c in s :: Inert(c)
    ensures Leads(State(d, Plain), s, State(d, Plain))
    decreases |s|
  {
    if s != "" {
      assert s[0] in s;
      PassInert(s[1..], d);
    }
  }

  predicate Ordinary(c: char) {
    c != '"' && c != '\\'
  }

  lemma {:induction false} PassQuoted(s: string, d: nat)
    requires d > 0 && forall c | c in s :: Ordinary(c)
    ensures Leads(State(d, Quoted), s, State(d, Quoted))
    decreases |s|
  {
    if s != "" {
      assert s[0] in s;
      PassQuoted(s[1..], d);
    }
  }

  lemma PassEscape(c: char, d: nat)
    requires d > 0
    ensures Leads(State(d, Quoted), "\\" + [c], State(d, Quoted))
  {
    OneStep(State(d, Quoted), '\\');
    OneStep(State(d, Escaped), c);
    LeadsConcat(State(d, Quoted), "\\", State(d, Escaped), [c], State(d, Quoted));
  }

  lemma PassUnicode(hex: string, d: nat)
    requires d > 0 && IsHex4(hex)
    ensures Leads(State(d, Quoted), "\\u" + hex, State(d, Quoted))
  {
    PassEscape('u', d);
    assert "\\" + ['u'] == "\\u";
    forall c | c in hex ensures Ordinary(c) {
      var i :| 0 <= i < 4 && hex[i] == c;
      assert IsHexDigit(hex[i]);
    }
    PassQuoted(hex, d);
    LeadsConcat(State(d, Quoted), "\\u", State(d, Quoted), hex, State(d, Quoted));
  }

  lemma PassPiece(p: Piece, d: nat)
    requires d > 0 && PieceForm(p, false)
    ensures Leads(State(d, Quoted), PrintPiece(p), State(d, Quoted))
  {
    match p
    case Raw(c) => PassQuoted([c], d);
    case Escape(c) => PassEscape(c, d);
    case Unicode(hex) => PassUnicode(hex, d);
    case Pair(hi, lo) =>
      PassUnicode(hi, d);
      PassUnicode(lo, d);
      LeadsConcat(State(d, Quoted), "\\u" + hi, State(d, Quoted), "\\u" + lo, State(d, Quoted));
  }

  lemma {:induction false} PassPieces(ps: seq<Piece>, d: nat)
    requires d > 0 && TextForm(ps, false)
    ensures Leads(State(d, Quoted), PrintPieces(ps), State(d, Quoted))
  {
    if ps != [] {
      assert PieceForm(ps[0], false);
      forall i | 0 <= i < |ps[1..]| ensures PieceForm(ps[1..][i], false) { assert PieceForm(ps[i + 1], false); }
      PassPiece(ps[0], d);
      PassPieces(ps[1..], d);
      LeadsConcat(State(d, Quoted), PrintPiece(ps[0]), State(d, Quoted), PrintPieces(ps[1..]), State(d, Quoted));
    }
  }

  lemma PassText(ps: seq<Piece>, d: nat)
    requires d > 0 && TextForm(ps, false)
    ensures Leads(State(d, Plain), PrintText(ps), State(d, Plain))
  {
    OneStep(State(d, Plain), '"');
    PassPieces(ps, d);
    OneStep(State(d, Quoted), '"');
    LeadsConcat(State(d, Quoted), PrintPieces(ps), State(d, Quoted), "\"", State(d, Plain));
    LeadsConcat(State(d, Plain), "\"", State(d, Quoted), PrintPieces(ps) + "\"", State(d, Plain));
  }

  lemma BlankIsInert(s: string)
    requires IsBlank(s)
    ensures forall c | c in s :: Inert(c)
  {
  }

  lemma DigitsAreInert(s: string)
    requires AllDigits(s)
    ensures forall c | c in s :: Inert(c)
  {
    DigitsOnly(s);
  }

  lemma FractionIsInert(s: string)
    requires IsFraction(s)
    ensures forall c | c in s :: Inert(c)
  {
    if s != "" {
      DigitsAreInert(s[1..]);
      assert s == [s[0]] + s[1..];
    }
  }

  lemma ExponentIsInert(s: string)
    requires IsExponent(s)
    ensures forall c | c in s :: Inert(c)
  {
    if s != "" {
      if s[1] in "+-" {
        DigitsAreInert(s[2..]);
        assert s == [s[0], s[1]] + s[2..];
      } else {
        DigitsAreInert(s[1..]);
        assert s == [s[0]] + s[1..];
      }
    }
  }

  lemma WordIsInert(text: string)
    requires text in ["null", "true", "false"]
    ensures forall c | c in text :: Inert(c)
  {
  }

  lemma NumeralIsInert(n: Node)
    requires n.Numeral? && WrittenNode(n)
    ensures forall c | c in PrintNode(n) :: Inert(c)
  {
    DigitsAreInert(n.whole);
    FractionIsInert(n.fraction);
    ExponentIsInert(n.exponent);
  }

  /** A value's text leaves the automaton where it was. */
  lemma {:induction false} PassNode(n: Node, d: nat)
    requires d > 0 && WrittenNode(n)
    ensures Leads(State(d, Plain), PrintNode(n), State(d, Plain))
    decreases n, 3, 0
  {
    match n
    case Word(text) =>
      WordIsInert(text);
      PassInert(text, d);
    case Numeral(_, _, _, _) =>
      NumeralIsInert(n);
      PassInert(PrintNode(n), d);
    case Text(ps) => PassText(ps, d);
    case List(_, _) => PassList(n, d);
    case Dict(_, _) => PassDict(n, d);
  }

  function Inside(n: Node): string
    requires n.List?
  {
    if n.items == [] then n.blank else PrintItems(n, 0)
  }

  lemma {:induction false} PassInside(n: Node, d: nat)
    requires d > 0 && n.List? && WrittenNode(n)
    ensures Leads(State(d, Plain), Inside(n), State(d, Plain))
    decreases n, 2, 0
  {
    if n.items == [] {
      BlankIsInert(n.blank);
      PassInert(n.blank, d);
    } else {
      PassItems(n, 0, d);
    }
  }

  lemma {:induction false} PassList(n: Node, d: nat)
    requires d > 0 && n.List? && WrittenNode(n)
    ensures Leads(State(d, Plain), PrintNode(n), State(d, Plain))
    decreases n, 2, 1
  {
    OneStep(State(d, Plain), '[');
    PassInside(n, d + 1);
    OneStep(State(d + 1, Plain), ']');
    LeadsConcat(State(d + 1, Plain), Inside(n), State(d + 1, Plain), "]", State(d, Plain));
    LeadsConcat(State(d, Plain), "[", State(d + 1, Plain), Inside(n) + "]", State(d, Plain));
  }

  lemma {:induction false} PassItem(item: Item, d: nat)
    requires d > 0 && ItemForm(item, false)
    ensures Leads(State(d, Plain), PrintItem(item), State(d, Plain))
    decreases item, 3, 0
  {
    BlankIsInert(item.before);
    BlankIsInert(item.after);
    PassInert(item.before, d);
    PassInert(item.after, d);
    PassNode(item.value, d);
    LeadsConcat(State(d, Plain), PrintNode(item.value), State(d, Plain), item.after, State(d, Plain));
    LeadsConcat(State(d, Plain), item.before, State(d, Plain), PrintNode(item.value) + item.after, State(d, Plain));
  }

  lemma {:induction false} PassItems(n: Node, i: nat, d: nat)
    requires d > 0 && n.List? && WrittenNode(n) && i <= |n.items|
    ensures Leads(State(d, Plain), PrintItems(n, i), State(d, Plain))
    decreases n, 1, |n.items| - i
  {
    if i < |n.items| {
      var comma, item, rest := if i == 0 then "" else ",", PrintItem(n.items[i]), PrintItems(n, i + 1);
      assert ItemForm(n.items[i], false);
      PassInert(comma, d);
      PassItem(n.items[i], d);
      PassItems(n, i + 1, d);
      LeadsConcat(State(d, Plain), item, State(d, Plain), rest, State(d, Plain));
      LeadsConcat(State(d, Plain), comma, State(d, Plain), item + rest, State(d, Plain));
    }
  }

  lemma {:induction false} PassMember(m: Member, d: nat)
    requires d > 0 && MemberForm(m, false)
    ensures Leads(State(d, Plain), PrintMember(m), State(d, Plain))
    decreases m, 3, 0
  {
    var st := State(d, Plain);
    var key, item := PrintText(m.key), PrintItem(m.item);
    BlankIsInert(m.before);
    BlankIsInert(m.gap);
    PassInert(m.before, d);
    PassInert(m.gap, d);
    PassInert(":", d);
    PassText(m.key, d);
    PassItem(m.item, d);
    LeadsConcat(st, ":", st, item, st);
    LeadsConcat(st, m.gap, st, ":" + item, st);
    LeadsConcat(st, key, st, m.gap + (":" + item), st);
    LeadsConcat(st, m.before, st, key + (m.gap + (":" + item)), st);
  }

  lemma {:induction false} PassMembers(n: Node, i: nat, d: nat)
    requires d > 0 && n.Dict? && WrittenNode(n) && i <= |n.members|
    ensures Leads(State(d, Plain), PrintMembers(n, i), State(d, Plain))
    decreases n, 1, |n.members| - i
  {
    if i < |n.members| {
      var comma, member, rest := if i == 0 then "" else ",", PrintMember(n.members[i]), PrintMembers(n, i + 1);
      assert MemberForm(n.members[i], false);
      PassInert(comma, d);
      PassMember(n.members[i], d);
      PassMembers(n, i + 1, d);
      LeadsConcat(State(d, Plain), member, State(d, Plain), rest, State(d, Plain));
      LeadsConcat(State(d, Plain), comma, State(d, Plain), member + rest, State(d, Plain));
    }
  }

  lemma {:induction false} PassDict(n: Node, d: nat)
    requires d > 0 && n.Dict? && WrittenNode(n)
    ensures Leads(State(d, Plain), PrintNode(n), State(d, Plain))
    decreases n, 2, 0
  {
    var st := State(d, Plain);
    var inside := if n.members == [] then n.blank else PrintMembers(n, 0);
    if n.members == [] {
      BlankIsInert(n.blank);
      PassInert(n.blank, d);
    } else {
      PassMembers(n, 0, d);
    }
    PassInert("{", d);
    PassInert("}", d);
    LeadsConcat(st, inside, st, "}", st);
    LeadsConcat(st, "{", st, inside + "}", st);
  }

  /** Main result: for every array written as RFC 8259 allows, followed by anything, the
      automaton stops exactly at the array's end. */
  lemma ArrayEndIsExact(n: Node, rest: string)
    requires n.List? && WrittenNode(n)
    ensures ArrayEnd(PrintNode(n) + rest) == Some(|PrintNode(n)|)
  {
    var s := PrintNode(n) + rest;
    var tail := "]" + rest;
    PassInside(n, 1);
    assert s[0] == '[' && s[1..] == Inside(n) + tail;
    ClosingAfter(State(1, Plain), Inside(n), State(1, Plain), tail);
    assert tail[0] == ']';
    assert Closing(State(1, Plain), tail) == Some(1);
  }

  // ---- searching for the needle ----

  /** The last character of the needle occurs nowhere else in it. */
  ghost predicate EndsFresh(needle: string) {
    needle != "" && needle[|needle| - 1] !in needle[..|needle| - 1]
  }

  /** A text without the needle does not move the next occurrence. */
  lemma FindSkips(before: string, needle: string, rest: string)
    requires EndsFresh(needle) && !Contains(before, needle)
    ensures Find(before + needle + rest, needle) == Some(|before|)
  {
    var s := before + needle + rest;
    FindMeans(s, needle);
    assert s[|before|..|before| + |needle|] == needle;
    assert MatchesAt(s, |before|, needle);
    forall i | 0 <= i < |before| ensures !MatchesAt(s, i, needle) {
      NoEarlierMatch(before, needle, rest, i);
    }
  }

  lemma NoEarlierMatch(before: string, needle: string, rest: string, i: nat)
    requires EndsFresh(needle) && !Contains(before, needle) && i < |before|
    ensures !MatchesAt(before + needle + rest, i, needle)
  {
    var s := before + needle + rest;
    var last := |needle| - 1;
    forall k | |before| <= k < |before| + last ensures s[k] != needle[last] {
      assert s[k] == needle[..last][k - |before|];
    }
    if i + |needle| <= |before| {
      assert s[i..i + |needle|] == before[i..i + |needle|];
      assert !MatchesAt(before, i, needle);
    } else if i + |needle| <= |s| {
      assert s[i..i + |needle|][last] == s[i + last];
    }
  }

  // ---- the extractor ----

  /** The payload of one call: the string at index 1 of the parsed array, if there is one. */
  function PayloadOf(parsed: Option<Value>): seq<string> {
    if parsed.Some? && parsed.value.Array? && |parsed.value.items| > 1 && parsed.value.items[1].String?
    then [parsed.value.items[1].text]
    else []
  }

  /** What reading one argument contributes. */
  function Reader(parse: string -> Option<Value>): string -> seq<string> {
    argument => PayloadOf(parse(argument))
  }

  function UnescapeAll(payloads: seq<string>): (r: seq<string>)
    ensures |r| == |payloads|
  {
    seq(|payloads|, i requires 0 <= i < |payloads| => Unescape(payloads[i]))
  }

  lemma UnescapeAllConcat(a: seq<string>, b: seq<string>)
    ensures UnescapeAll(a + b) == UnescapeAll(a) + UnescapeAll(b)
  {
  }

  /** The next call in a text: how far to read, and its argument if the brackets close. */
  datatype Taken = Taken(next: nat, argument: Option<string>)

  function TakenAt(s: string, start: nat, end: Option<nat>): Taken
    requires start <= |s| && (end.Some? ==> start + end.value <= |s|)
  {
    if end.None? then Taken(start, None) else Taken(start + end.value, Some(s[start..start + end.value]))
  }

  function TakeCall(needle: string, s: string): (r: Option<Taken>)
    ensures r.Some? ==> |needle| <= r.value.next <= |s|
  {
    var offset := Find(s, needle);
    if offset.None? then None
    else
      var start := offset.value + |needle|;
      Some(TakenAt(s, start, ArrayEnd(s[start..])))
  }

  function ReadTaken(read: string -> seq<string>, argument: Option<string>): seq<string> {
    if argument.None? then [] else read(argument.value)
  }

  /** The payloads of all calls in a text, in order. */
  function Payloads(read: string -> seq<string>, needle: string, body: string): seq<string>
    requires needle != ""
    decreases |body|
  {
    match TakeCall(needle, body)
    case None => []
    case Some(taken) => ReadTaken(read, taken.argument) + Payloads(read, needle, body[taken.next..])
  }

  const GUARD := "self.__next_f"
  const NEEDLE := "self.__next_f.push("

  /** What the extractor returns. */
  function Extracted(parse: string -> Option<Value>, body: string): seq<string> {
    UnescapeAll(Payloads(Reader(parse), NEEDLE, body))
  }

  method ExtractRscChunks(parse: string -> Option<Value>, body: string) returns (chunks: seq<string>)
    ensures chunks == Extracted(parse, body)
  {
    if !Contains(body, GUARD) {
      NoGuardNoNeedle(Reader(parse), body);
      return [];
    }
    chunks := ScanCalls(parse, NEEDLE, body);
  }

  method ScanCalls(parse: string -> Option<Value>, needle: string, body: string) returns (chunks: seq<string>)
    requires needle != ""
    ensures chunks == UnescapeAll(Payloads(Reader(parse), needle, body))
  {
    ghost var read, found := Reader(parse), [];
    chunks := [];
    var searchFrom := 0;
    StartsSearch(read, needle, body);
    while true
      invariant chunks == UnescapeAll(found) && Searched(read, needle, body, searchFrom, found)
      decreases |body| - searchFrom
    {
      var taken := NextCall(needle, body, searchFrom);
      SearchStep(read, needle, body, searchFrom, found);
      if taken.None? {
        break;
      }
      var Taken(next, argument) := taken.value;
      var chunk := ReadArgument(parse, argument);
      UnescapeAllConcat(found, ReadTaken(read, argument));
      found := found + ReadTaken(read, argument);
      chunks, searchFrom := chunks + chunk, next;
    }
  }

  /** The payloads found so far, and those still to come, are all payloads of the body. */
  ghost predicate Searched(read: string -> seq<string>, needle: string, body: string, from: nat, found: seq<string>)
    requires needle != ""
  {
    from <= |body| && found + Payloads(read, needle, body[from..]) == Payloads(read, needle, body)
  }

  /** The next call from a position on, with positions counted from the start of the body. */
  function TakeFrom(needle: string, body: string, from: nat): (r: Option<Taken>)
    requires from <= |body|
    ensures r.Some? ==> from + |needle| <= r.value.next <= |body|
  {
    match TakeCall(needle, body[from..])
    case None => None
    case Some(t) => Some(Taken(from + t.next, t.argument))
  }

  lemma StartsSearch(read: string -> seq<string>, needle: string, body: string)
    requires needle != ""
    ensures Searched(read, needle, body, 0, [])
  {
    assert body[0..] == body;
  }

  lemma SearchStep(read: string -> seq<string>, needle: string, body: string, from: nat, found: seq<string>)
    requires needle != "" && Searched(read, needle, body, from, found)
    ensures match TakeFrom(needle, body, from)
            case None => found == Payloads(read, needle, body)
            case Some(t) => Searched(read, needle, body, t.next, found + ReadTaken(read, t.argument))
  {
    var taken := TakeCall(needle, body[from..]);
    if taken.Some? {
      var Taken(next, argument) := taken.value;
      SliceOfRest(body, from, next, 0);
      Regroup(found, ReadTaken(read, argument), Payloads(read, needle, body[from + next..]));
    }
  }

  /** One turn of the search: where it goes on, and the argument found on the way. */
  method NextCall(needle: string, body: string, searchFrom: nat) returns (taken: Option<Taken>)
    requires searchFrom <= |body|
    ensures taken == TakeFrom(needle, body, searchFrom)
  {
    var offset := Find(body[searchFrom..], needle);
    if offset.None? {
      return None;
    }
    var pushAt := searchFrom + offset.value;
    var argStart := pushAt + |needle|;
    var argEnd := BalancedBracketEnd(body, argStart);
    var end := if argEnd.None? then None else Some(argEnd.value - argStart);
    TakenFromRest(body, searchFrom, offset.value + |needle|, end);
    if argEnd.None? {
      return Some(Taken(pushAt + |needle|, None));
    }
    taken := Some(Taken(argEnd.value, Some(body[argStart..argEnd.value])));
  }

  lemma SliceOfRest(body: string, from: nat, k: nat, n: nat)
    requires from + k + n <= |body|
    ensures body[from..][k..k + n] == body[from + k..from + k + n]
    ensures body[from..][k..] == body[from + k..]
  {
  }

  /** The next call, with positions counted from the start of the body. */
  lemma TakenFromRest(body: string, from: nat, start: nat, end: Option<nat>)
    requires from + start <= |body| && (end.Some? ==> from + start + end.value <= |body|)
    ensures body[from..][start..] == body[from + start..]
    ensures TakenAt(body[from..], start, end).argument == TakenAt(body, from + start, end).argument
    ensures from + TakenAt(body[from..], start, end).next == TakenAt(body, from + start, end).next
  {
    SliceOfRest(body, from, start, if end.Some? then end.value else 0);
  }

  method ReadArgument(parse: string -> Option<Value>, argument: Option<string>) returns (chunk: seq<string>)
    ensures chunk == UnescapeAll(ReadTaken(Reader(parse), argument))
  {
    chunk := [];
    if argument.Some? {
      var parsed := parse(argument.value);
      if parsed.Some? && parsed.value.Array? {
        var items := parsed.value.items;
        if |items| > 1 && items[1].String? {
          var unescaped := UnescapeLoop(items[1].text);
          chunk := [unescaped];
        }
      }
    }
  }

  lemma PrefixContained(s: string, prefix: string, needle: string)
    requires prefix <= needle && Contains(s, needle)
    ensures Contains(s, prefix)
  {
    var i :| 0 <= i <= |s| && MatchesAt(s, i, needle);
    assert s[i..i + |prefix|] == s[i..i + |needle|][..|prefix|] == prefix;
    assert MatchesAt(s, i, prefix);
  }

  lemma NeedleFacts()
    ensures GUARD <= NEEDLE && EndsFresh(NEEDLE)
  {
    assert NEEDLE[..13] == GUARD;
  }

  /** The guard at the top of the function changes nothing. */
  lemma NoGuardNoNeedle(read: string -> seq<string>, body: string)
    requires !Contains(body, GUARD)
    ensures Payloads(read, NEEDLE, body) == []
  {
    NeedleFacts();
    if Contains(body, NEEDLE) { PrefixContained(body, GUARD, NEEDLE); }
    FindMeans(body, NEEDLE);
  }

  // ---- every call is found ----

  /** A push call in a page: the text in front of it and the array it passes. */
  datatype Call = Call(before: string, argument: Node)

  function Page(needle: string, calls: seq<Call>, tail: string): string {
    if calls == [] then tail
    else calls[0].before + needle + (PrintNode(calls[0].argument) + Page(needle, calls[1..], tail))
  }

  ghost predicate ValidCall(needle: string, call: Call) {
    !Contains(call.before, needle) && call.argument.List? && WrittenNode(call.argument)
  }

  ghost predicate ValidPage(needle: string, calls: seq<Call>, tail: string) {
    (forall i | 0 <= i < |calls| :: ValidCall(needle, calls[i])) && !Contains(tail, needle)
  }

  function CallPayloads(read: string -> seq<string>, calls: seq<Call>): seq<string> {
    if calls == [] then [] else read(PrintNode(calls[0].argument)) + CallPayloads(read, calls[1..])
  }

  lemma SliceMiddle(a: string, b: string, c: string)
    ensures (a + (b + c))[|a|..] == b + c
    ensures (a + (b + c))[|a|..|a| + |b|] == b && (a + (b + c))[|a| + |b|..] == c
  {
    assert (a + (b + c))[|a|..] == b + c;
    assert (a + (b + c))[|a| + |b|..] == (b + c)[|b|..];
  }

  lemma TakenInPage(front: string, text: string, rest: string)
    ensures TakenAt(front + (text + rest), |front|, Some(|text|)) == Taken(|front + text|, Some(text))
  {
    SliceMiddle(front, text, rest);
  }

  /** The next call of a page, and where the page goes on. */
  lemma TakesCall(needle: string, before: string, text: string, rest: string)
    requires EndsFresh(needle) && !Contains(before, needle) && ArrayEnd(text + rest) == Some(|text|)
    ensures var body := before + needle + (text + rest);
            && TakeCall(needle, body) == Some(Taken(|before + needle + text|, Some(text)))
            && body[|before + needle + text|..] == rest
  {
    FindSkips(before, needle, text + rest);
    SliceMiddle(before + needle, text, rest);
    TakenInPage(before + needle, text, rest);
  }

  /** The calls of a page are read one after the other, and then whatever follows them. */
  lemma {:induction false} EveryCallIsRead(read: string -> seq<string>, needle: string, calls: seq<Call>, tail: string)
    requires EndsFresh(needle) && forall i | 0 <= i < |calls| :: ValidCall(needle, calls[i])
    ensures Payloads(read, needle, Page(needle, calls, tail))
         == CallPayloads(read, calls) + Payloads(read, needle, tail)
  {
    if calls == [] {
      assert [] + Payloads(read, needle, tail) == Payloads(read, needle, tail);
    } else {
      var rest := calls[1..];
      assert ValidCall(needle, calls[0]);
      forall i | 0 <= i < |rest| ensures ValidCall(needle, rest[i]) { assert ValidCall(needle, calls[i + 1]); }
      var text, more := PrintNode(calls[0].argument), Page(needle, rest, tail);
      ArrayEndIsExact(calls[0].argument, more);
      TakesCall(needle, calls[0].before, text, more);
      EveryCallIsRead(read, needle, rest, tail);
      Regroup(read(text), CallPayloads(read, rest), Payloads(read, needle, tail));
    }
  }

  lemma NothingWithoutNeedle(read: string -> seq<string>, needle: string, tail: string)
    requires needle != "" && !Contains(tail, needle)
    ensures Payloads(read, needle, tail) == []
  {
    FindMeans(tail, needle);
  }

  /** The string an array holds as its second element, told from the way it is written. */
  function StringPassed(argument: Node): seq<string>
    requires argument.List? && ValidNode(argument)
  {
    var items := argument.items;
    if |items| > 1 && items[1].value.Text? then
      assert ItemForm(items[1], true) && NodeForm(items[1].value, true);
      [TextMeaning(items[1].value.pieces)]
    else []
  }

  /** What one call contributes: the string it passes, and where a lone surrogate leaves the
      array without a meaning, whatever the reader makes of its text. */
  function Contribution(parse: string -> Option<Value>, argument: Node): seq<string> {
    if argument.List? && ValidNode(argument) then StringPassed(argument) else PayloadOf(parse(PrintNode(argument)))
  }

  function Contributions(parse: string -> Option<Value>, calls: seq<Call>): seq<string> {
    if calls == [] then [] else Contribution(parse, calls[0].argument) + Contributions(parse, calls[1..])
  }

  /** The reader gives the value of each argument that has one. */
  ghost predicate ReadsArguments(parse: string -> Option<Value>, calls: seq<Call>) {
    forall i | 0 <= i < |calls| :: ReadsArgument(parse, calls[i].argument)
  }

  ghost predicate ReadsArgument(parse: string -> Option<Value>, argument: Node) {
    ValidNode(argument) ==> parse(PrintNode(argument)) == Some(Meaning(argument))
  }

  lemma PayloadIsPassed(parse: string -> Option<Value>, argument: Node)
    requires ReadsArgument(parse, argument)
    ensures PayloadOf(parse(PrintNode(argument))) == Contribution(parse, argument)
  {
    if argument.List? && ValidNode(argument) {
      var items := argument.items;
      assert |Meaning(argument).items| == |items|;
      if |items| > 1 {
        assert ItemForm(items[1], true);
        assert Meaning(argument).items[1] == Meaning(items[1].value);
      }
    }
  }

  lemma {:induction false} CallPayloadsArePassed(parse: string -> Option<Value>, calls: seq<Call>)
    requires ReadsArguments(parse, calls)
    ensures CallPayloads(Reader(parse), calls) == Contributions(parse, calls)
  {
    if calls != [] {
      var rest := calls[1..];
      forall i | 0 <= i < |rest| ensures ReadsArgument(parse, rest[i].argument) {
        assert ReadsArgument(parse, calls[i + 1].argument);
      }
      PayloadIsPassed(parse, calls[0].argument);
      CallPayloadsArePassed(parse, rest);
    }
  }

  /** Main result: from a page of push calls, their arrays written in any way the grammar
      allows, and whatever text without the needle between them, one chunk is recovered for
      each call whose second element is a string, in order. */
  lemma EveryChunkIsRecovered(parse: string -> Option<Value>, calls: seq<Call>, tail: string)
    requires ValidPage(NEEDLE, calls, tail) && ReadsArguments(parse, calls)
    ensures Extracted(parse, Page(NEEDLE, calls, tail)) == UnescapeAll(Contributions(parse, calls))
  {
    NeedleFacts();
    EveryCallIsRead(Reader(parse), NEEDLE, calls, tail);
    NothingWithoutNeedle(Reader(parse), NEEDLE, tail);
    CallPayloadsArePassed(parse, calls);
  }

  // ---- unescaping ----

  function Min4(n: nat): nat {
    if n < 4 then n else 4
  }

  /** `u32::from_str_radix(_, 16)`: hex digits, with an optional plus sign. */
  function ParseHex(s: string): Option<nat> {
    var digits := if s != "" && s[0] == '+' then s[1..] else s;
    if digits != "" && forall c | c in digits :: IsHexDigit(c) then Some(HexValue(digits)) else None
  }

  /** The character a \u escape yields: none when the digits or the code are not valid. */
  function CodeText(hex: string): string {
    var code := ParseHex(hex);
    if code.Some? && IsScalar(code.value) then [code.value as char] else ""
  }

  function EscapeText(c: char): string {
    match c
    case '"' => "\""
    case '\\' => "\\"
    case 'n' => "\n"
    case 'r' => "\r"
    case 't' => "\t"
    case _ => ['\\', c]
  }

  /** What one step of unescaping reads and writes. */
  function UnescapeTaken(s: string): (r: (nat, string))
    requires s != ""
    ensures 0 < r.0 <= |s|
  {
    if s[0] != '\\' then (1, [s[0]])
    else if |s| == 1 then (1, "\\")
    else if s[1] != 'u' then (2, EscapeText(s[1]))
    else
      var n := Min4(|s| - 2);
      (2 + n, CodeText(s[2..2 + n]))
  }

  function Unescape(s: string): string
    decreases |s|
  {
    if s == "" then ""
    else
      var taken := UnescapeTaken(s);
      taken.1 + Unescape(s[taken.0..])
  }

  lemma {:induction false} UnescapeWithoutBackslash(s: string)
    requires '\\' !in s
    ensures Unescape(s) == s
  {
    if s != "" {
      UnescapeWithoutBackslash(s[1..]);
      assert s == [s[0]] + s[1..];
    }
  }

  method UnescapeLoop(s: string) returns (out: string)
    ensures out == Unescape(s)
  {
    if '\\' !in s {
      UnescapeWithoutBackslash(s);
      return s;
    }
    out := "";
    var i := 0;
    assert s[0..] == s;
    while i < |s|
      invariant UnescapedUpTo(s, i, out)
    {
      UnescapeStep(s, i, out);
      var c := s[i];
      i := i + 1;
      if c == '\\' {
        var piece;
        i, piece := UnescapeOne(s, i);
        out := out + piece;
      } else {
        out := out + [c];
      }
    }
  }

  ghost predicate UnescapedUpTo(s: string, i: nat, out: string) {
    i <= |s| && out + Unescape(s[i..]) == Unescape(s)
  }

  lemma UnescapeStep(s: string, i: nat, out: string)
    requires i < |s| && UnescapedUpTo(s, i, out)
    ensures var taken := UnescapeTaken(s[i..]); UnescapedUpTo(s, i + taken.0, out + taken.1)
    ensures s[i] != '\\' ==> UnescapeTaken(s[i..]) == (1, [s[i]])
  {
    var (n, piece) := UnescapeTaken(s[i..]);
    assert s[i..][n..] == s[i + n..];
    Regroup(out, piece, Unescape(s[i + n..]));
  }

  /** What follows a backslash. */
  method UnescapeOne(s: string, i: nat) returns (next: nat, piece: string)
    requires 0 < i <= |s| && s[i - 1] == '\\'
    ensures var taken := UnescapeTaken(s[i - 1..]); next == i - 1 + taken.0 && piece == taken.1
  {
    ghost var t := s[i - 1..];
    if i == |s| {
      return i, "\\";
    }
    assert t[1] == s[i];
    if s[i] == 'u' {
      var n := Min4(|s| - (i + 1));
      assert t[2..2 + n] == s[i + 1..i + 1 + n];
      piece := CodeText(s[i + 1..i + 1 + n]);
      next := i + 1 + n;
    } else {
      piece := UnescapeShortOne(s[i]);
      next := i + 1;
    }
  }

  method UnescapeShortOne(c: char) returns (piece: string)
    ensures piece == EscapeText(c)
  {
    match c {
      case '"' => piece := "\"";
      case '\\' => piece := "\\";
      case 'n' => piece := "\n";
      case 'r' => piece := "\r";
      case 't' => piece := "\t";
      case other => piece := "\\" + [other];
    }
  }

  // ---- unescaping against the grammar ----

  /** The escapes this unescaper knows: all but \/, \b, \f and surrogate pairs. */
  predicate Known(p: Piece) {
    !p.Pair? && !(p.Escape? && p.c in {'/', 'b', 'f'})
  }

  function Unescaped(p: Piece): string
    requires PieceForm(p, true)
  {
    if p.Pair? then "" else if Known(p) then [PieceMeaning(p)] else "\\" + [p.c]
  }

  lemma HexReads(hex: string)
    requires IsHex4(hex)
    ensures ParseHex(hex) == Some(HexValue(hex))
  {
    assert hex[0] != '+' by { assert IsHexDigit(hex[0]); }
    forall c | c in hex ensures IsHexDigit(c) {
      var i :| 0 <= i < 4 && hex[i] == c;
    }
  }

  lemma UnescapeHex(hex: string, rest: string)
    requires IsHex4(hex)
    ensures Unescape("\\u" + hex + rest) == CodeText(hex) + Unescape(rest)
  {
    var s := "\\u" + hex + rest;
    assert s[0] == '\\' && s[1] == 'u' && s[2..6] == hex && s[6..] == rest;
  }

  lemma UnescapeRaw(c: char, rest: string)
    requires c != '\\'
    ensures Unescape([c] + rest) == [c] + Unescape(rest)
  {
    var s := [c] + rest;
    assert s[0] == c && s[1..] == rest;
  }

  lemma UnescapeShort(c: char, rest: string)
    requires c != 'u'
    ensures Unescape("\\" + [c] + rest) == EscapeText(c) + Unescape(rest)
  {
    var s := "\\" + [c] + rest;
    assert s[0] == '\\' && s[1] == c && s[2..] == rest;
  }

  lemma ShortEscapeMeaning(c: char)
    requires c in SHORT_ESCAPES
    ensures c != 'u' && EscapeText(c) == Unescaped(Escape(c))
  {
  }

  lemma UnescapePair(hi: string, lo: string, rest: string)
    requires PieceForm(Pair(hi, lo), true)
    ensures Unescape(PrintPiece(Pair(hi, lo)) + rest) == Unescape(rest)
  {
    HexReads(hi);
    HexReads(lo);
    assert PrintPiece(Pair(hi, lo)) + rest == "\\u" + hi + ("\\u" + lo + rest);
    UnescapeHex(hi, "\\u" + lo + rest);
    UnescapeHex(lo, rest);
    assert "" + Unescape(rest) == Unescape(rest);
    assert CodeText(hi) == "" && CodeText(lo) == "";
  }

  lemma UnescapePiece(p: Piece, rest: string)
    requires PieceForm(p, true)
    ensures Unescape(PrintPiece(p) + rest) == Unescaped(p) + Unescape(rest)
  {
    match p
    case Raw(c) => UnescapeRaw(c, rest);
    case Escape(c) =>
      ShortEscapeMeaning(c);
      UnescapeShort(c, rest);
    case Unicode(hex) =>
      HexReads(hex);
      UnescapeHex(hex, rest);
    case Pair(hi, lo) =>
      UnescapePair(hi, lo, rest);
      assert "" + Unescape(rest) == Unescape(rest);
  }

  lemma TextMeaningStep(ps: seq<Piece>)
    requires ps != [] && ValidText(ps)
    ensures PieceForm(ps[0], true) && ValidText(ps[1..])
    ensures TextMeaning(ps) == [PieceMeaning(ps[0])] + TextMeaning(ps[1..])
  {
    assert PieceForm(ps[0], true);
    forall i | 0 <= i < |ps[1..]| ensures PieceForm(ps[1..][i], true) { assert PieceForm(ps[i + 1], true); }
  }

  function Outputs(ps: seq<Piece>): string
    requires ValidText(ps)
  {
    if ps == [] then ""
    else
      TextMeaningStep(ps);
      Unescaped(ps[0]) + Outputs(ps[1..])
  }

  lemma {:induction false} UnescapeIsOutputs(ps: seq<Piece>)
    requires ValidText(ps)
    ensures Unescape(PrintPieces(ps)) == Outputs(ps)
  {
    if ps != [] {
      TextMeaningStep(ps);
      UnescapeIsOutputs(ps[1..]);
      UnescapePiece(ps[0], PrintPieces(ps[1..]));
    }
  }

  ghost predicate AllKnown(ps: seq<Piece>) {
    forall i | 0 <= i < |ps| :: Known(ps[i])
  }

  ghost predicate Supplementary(s: string) {
    s != "" && forall i | 0 <= i < |s| :: s[i] >= '\U{10000}'
  }

  lemma PieceOutput(p: Piece)
    requires PieceForm(p, true)
    ensures p.Pair? ==> Unescaped(p) == "" && PieceMeaning(p) >= '\U{10000}'
    ensures Known(p) ==> Unescaped(p) == [PieceMeaning(p)]
    ensures !Known(p) && !p.Pair? ==> |Unescaped(p)| == 2 && Unescaped(p)[0] == '\\' != PieceMeaning(p)
  {
  }

  lemma StillSupplementary(ahead: string, m: char)
    requires Supplementary(ahead) && m >= '\U{10000}'
    ensures Supplementary(ahead + [m]) && Supplementary(ahead[1..] + [m])
  {
  }

  /** A backslash where a supplementary character is due. */
  lemma BackslashDiffers(ahead: string, meaning: string, piece: string, more: string)
    requires Supplementary(ahead) && piece != "" && piece[0] == '\\'
    ensures ahead + meaning != piece + more
  {
    assert (ahead + meaning)[0] == ahead[0] && (piece + more)[0] == '\\';
  }

  /** Once the output lags behind by supplementary characters, it never catches up. */
  lemma {:induction false} NeverCatchesUp(ahead: string, ps: seq<Piece>)
    requires ValidText(ps) && Supplementary(ahead)
    ensures ahead + TextMeaning(ps) != Outputs(ps)
    decreases |ps|
  {
    if ps == [] {
      assert |ahead + TextMeaning(ps)| > 0;
    } else {
      var p, rest := ps[0], ps[1..];
      TextMeaningStep(ps);
      PieceOutput(p);
      var m, meaning, more := PieceMeaning(p), TextMeaning(rest), Outputs(rest);
      assert TextMeaning(ps) == [m] + meaning && Outputs(ps) == Unescaped(p) + more;
      if p.Pair? {
        StillSupplementary(ahead, m);
        NeverCatchesUp(ahead + [m], rest);
        Regroup(ahead, [m], meaning);
        assert "" + more == more;
      } else if Known(p) {
        if ahead[0] == m {
          StillSupplementary(ahead, m);
          NeverCatchesUp(ahead[1..] + [m], rest);
        }
        HeadsDecide(ahead, m, meaning, more);
      } else {
        BackslashDiffers(ahead, TextMeaning(ps), Unescaped(p), more);
      }
    }
  }

  lemma HeadsDecide(ahead: string, m: char, meaning: string, more: string)
    requires ahead != "" && (ahead[0] == m ==> (ahead[1..] + [m]) + meaning != more)
    ensures ahead + ([m] + meaning) != [m] + more
  {
    var a, b := ahead + ([m] + meaning), [m] + more;
    assert a[0] == ahead[0] && b[0] == m;
    assert a[1..] == (ahead[1..] + [m]) + meaning && b[1..] == more;
  }

  lemma AllKnownStep(ps: seq<Piece>)
    requires ps != []
    ensures AllKnown(ps) <==> Known(ps[0]) && AllKnown(ps[1..])
  {
    assert ps == [ps[0]] + ps[1..];
    if AllKnown(ps) {
      forall i | 0 <= i < |ps[1..]| ensures Known(ps[1..][i]) { assert Known(ps[i + 1]); }
    }
    if Known(ps[0]) && AllKnown(ps[1..]) {
      forall i | 0 <= i < |ps| ensures Known(ps[i]) { if i > 0 { assert Known(ps[1..][i - 1]); } }
    }
  }

  lemma {:induction false} OutputsAreMeaningIff(ps: seq<Piece>)
    requires ValidText(ps)
    ensures Outputs(ps) == TextMeaning(ps) <==> AllKnown(ps)
  {
    if ps != [] {
      var p, rest := ps[0], ps[1..];
      TextMeaningStep(ps);
      PieceOutput(p);
      AllKnownStep(ps);
      OutputsAreMeaningIff(rest);
      var m, more := PieceMeaning(p), Outputs(rest);
      if Known(p) {
        assert ([m] + more)[1..] == more && ([m] + TextMeaning(rest))[1..] == TextMeaning(rest);
      } else if p.Pair? {
        NeverCatchesUp([m], rest);
        assert "" + more == more;
      } else {
        assert (Unescaped(p) + more)[0] == '\\';
      }
    }
  }

  /** Main result: unescaping a JSON string's text gives the string's meaning under RFC 8259
      section 7 if and only if it holds none of \/, \b, \f and no surrogate pair. */
  lemma UnescapeIsMeaningIff(ps: seq<Piece>)
    requires ValidText(ps)
    ensures Unescape(PrintPieces(ps)) == TextMeaning(ps) <==> AllKnown(ps)
  {
    UnescapeIsOutputs(ps);
    OutputsAreMeaningIff(ps);
  }

  // ---- when a chunk is the string that was passed ----

  const ESCAPES := {'"', '\\', 'n', 'r', 't', 'u'}

  predicate EscapeAt(s: string, i: nat) {
    i + 1 < |s| && s[i] == '\\' && s[i + 1] in ESCAPES
  }

  /** No backslash is followed by a character that unescaping reads an escape from. */
  ghost predicate NoEscapes(s: string) {
    forall i: nat :: !EscapeAt(s, i)
  }

  /** Skipping characters that do not start an escape does not change what is left. */
  lemma NoEscapesAfter(s: string, n: nat)
    requires n <= |s| && forall i: nat | i < n :: !EscapeAt(s, i)
    ensures NoEscapes(s) <==> NoEscapes(s[n..])
  {
    var rest := s[n..];
    if NoEscapes(s) {
      forall i: nat ensures !EscapeAt(rest, i) { assert !EscapeAt(s, n + i); }
    }
    if NoEscapes(rest) {
      forall i: nat ensures !EscapeAt(s, i) { if i >= n { assert !EscapeAt(rest, i - n); } }
    }
  }

  lemma {:induction false} UnescapeNeverGrows(s: string)
    ensures |Unescape(s)| <= |s|
    decreases |s|
  {
    if s != "" { UnescapeNeverGrows(s[UnescapeTaken(s).0..]); }
  }

  /** An escape at the front makes the text shorter. */
  lemma EscapeShrinks(s: string)
    requires EscapeAt(s, 0)
    ensures |Unescape(s)| < |s|
  {
    var taken := UnescapeTaken(s);
    UnescapeNeverGrows(s[taken.0..]);
    assert |taken.1| < taken.0;
  }

  /** Anything else is copied. */
  lemma CopiedAtFront(s: string)
    requires s != "" && !EscapeAt(s, 0)
    ensures var (n, piece) := UnescapeTaken(s);
            && piece == s[..n] && (Unescape(s) == s <==> Unescape(s[n..]) == s[n..])
            && forall i: nat | i < n :: !EscapeAt(s, i)
  {
    var (n, piece) := UnescapeTaken(s);
    assert piece == s[..n];
    assert s == piece + s[n..] && Unescape(s) == piece + Unescape(s[n..]);
    assert (piece + Unescape(s[n..]))[n..] == Unescape(s[n..]);
  }

  /** Main result on what is passed to it: unescaping leaves a text alone if and only if no
      backslash in it is followed by a quote, a backslash or one of n, r, t, u. */
  lemma {:induction false} UnescapeKeepsIff(s: string)
    ensures Unescape(s) == s <==> NoEscapes(s)
    decreases |s|
  {
    if s == "" {
      assert NoEscapes(s);
    } else if EscapeAt(s, 0) {
      EscapeShrinks(s);
    } else {
      CopiedAtFront(s);
      var n := UnescapeTaken(s).0;
      NoEscapesAfter(s, n);
      UnescapeKeepsIff(s[n..]);
    }
  }

  ghost predicate NoneEscapes(strings: seq<string>) {
    forall i | 0 <= i < |strings| :: NoEscapes(strings[i])
  }

  /** The payload has been decoded by the reader before it is unescaped. So the chunks of a
      page are the strings of its calls if and only if none of those strings holds such a
      backslash. */
  lemma ChunksAreStringsIff(parse: string -> Option<Value>, calls: seq<Call>, tail: string)
    requires ValidPage(NEEDLE, calls, tail) && ReadsArguments(parse, calls)
    ensures Extracted(parse, Page(NEEDLE, calls, tail)) == Contributions(parse, calls)
       <==> NoneEscapes(Contributions(parse, calls))
  {
    EveryChunkIsRecovered(parse, calls, tail);
    var strings := Contributions(parse, calls);
    forall i | 0 <= i < |strings| ensures UnescapeAll(strings)[i] == strings[i] <==> NoEscapes(strings[i]) {
      UnescapeKeepsIff(strings[i]);
    }
  }

  /** A string of four characters, one of them a backslash, comes out with a line break. */
  lemma DecodedTwice()
    ensures Unescape("a\\nb") == "a\nb"
  {
    UnescapeRaw('a', "\\nb");
    UnescapeShort('n', "b");
    UnescapeRaw('b', "");
    assert ['a'] + "\\nb" == "a\\nb" && "\\" + ['n'] + "b" == "\\nb" && ['b'] + "" == "b";
    assert Unescape("") == "";
  }
}
