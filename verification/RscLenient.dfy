/** What the chunk extractor makes of pages outside the grammar: calls that pass no array, pages
    that are cut off, and escapes that are none. */
module RscLenient {
  import opened Text
  import opened Json
  import opened JsonText
  import opened RscChunks

  // ---- calls without an array ----

  lemma UnclosedPayloads(read: string -> seq<string>, before: string, rest: string)
    requires !Contains(before, NEEDLE) && ArrayEnd(rest) == None
    ensures Payloads(read, NEEDLE, before + NEEDLE + rest) == Payloads(read, NEEDLE, rest)
  {
    var body := before + NEEDLE + rest;
    NeedleFacts();
    FindSkips(before, NEEDLE, rest);
    assert body[|before + NEEDLE|..] == rest;
    assert TakeCall(NEEDLE, body) == Some(Taken(|before + NEEDLE|, None));
    assert Payloads(read, NEEDLE, body) == [] + Payloads(read, NEEDLE, rest);
  }

  /** A call whose brackets never close is passed over, and the search goes on behind its name. */
  lemma UnclosedCallIsSkipped(parse: string -> Option<Value>, before: string, rest: string)
    requires !Contains(before, NEEDLE) && ArrayEnd(rest) == None
    ensures Extracted(parse, before + NEEDLE + rest) == Extracted(parse, rest)
  {
    UnclosedPayloads(Reader(parse), before, rest);
  }

  /** An argument that does not start with a bracket is one of them. */
  lemma NoArrayHasNoEnd(rest: string)
    requires rest == "" || rest[0] != '['
    ensures ArrayEnd(rest) == None
  {
  }

  lemma {:induction false} ClosingStays(st: State, s: string, more: string)
    requires st.depth > 0 && Closing(st, s).Some?
    ensures Closing(st, s + more) == Closing(st, s)
    decreases |s|
  {
    assert (s + more)[0] == s[0] && (s + more)[1..] == s[1..] + more;
    var next := Step(st, s[0]);
    if next.depth > 0 {
      ClosingStays(next, s[1..], more);
    }
  }

  /** A text that ends with the bracket that closes it has no end any earlier. */
  lemma NoEarlierEnd(text: string, cut: nat)
    requires ArrayEnd(text) == Some(|text|) && cut < |text|
    ensures ArrayEnd(text[..cut]) == None
  {
    var front, more := text[..cut], text[cut..];
    if ArrayEnd(front).Some? {
      assert text[1..] == front[1..] + more;
      ClosingStays(State(1, Plain), front[1..], more);
    }
  }

  /** An array that is cut off before its end is another. */
  lemma CutArrayHasNoEnd(argument: Node, cut: nat)
    requires argument.List? && WrittenNode(argument) && cut < |PrintNode(argument)|
    ensures ArrayEnd(PrintNode(argument)[..cut]) == None
  {
    var text := PrintNode(argument);
    assert text + "" == text;
    ArrayEndIsExact(argument, "");
    NoEarlierEnd(text, cut);
  }

  /** Main result: a page that breaks off inside the array of its last call still gives the
      chunks of all calls before it. */
  lemma CutPageKeepsChunks(
      parse: string -> Option<Value>, calls: seq<Call>, before: string, argument: Node, cut: nat)
    requires (forall i | 0 <= i < |calls| :: ValidCall(NEEDLE, calls[i])) && ReadsArguments(parse, calls)
    requires ValidCall(NEEDLE, Call(before, argument)) && cut < |PrintNode(argument)|
    requires !Contains(PrintNode(argument)[..cut], NEEDLE)
    ensures Extracted(parse, Page(NEEDLE, calls, before + NEEDLE + PrintNode(argument)[..cut]))
         == UnescapeAll(Contributions(parse, calls))
  {
    var front := PrintNode(argument)[..cut];
    var tail := before + NEEDLE + front;
    var read := Reader(parse);
    NeedleFacts();
    EveryCallIsRead(read, NEEDLE, calls, tail);
    CallPayloadsArePassed(parse, calls);
    CutArrayHasNoEnd(argument, cut);
    UnclosedPayloads(read, before, front);
    NothingWithoutNeedle(read, NEEDLE, front);
    assert CallPayloads(read, calls) + [] == CallPayloads(read, calls);
  }

  // ---- escapes that are none ----

  predicate HexDigits(s: string) {
    s != "" && forall c | c in s :: IsHexDigit(c)
  }

  /** The character of a code, if it is one. */
  function Character(code: nat): string {
    if IsScalar(code) then [code as char] else ""
  }

  /** What stands behind `\\u`: up to four characters, fewer only at the end of the text. They
      give the character of their hexadecimal value, a plus sign in front allowed, and nothing
      when they are no such number. */
  lemma WindowDecides(window: string, rest: string)
    requires |window| == 4 || (|window| < 4 && rest == "")
    ensures HexDigits(window) ==> Unescape("\\u" + window + rest) == Character(HexValue(window)) + Unescape(rest)
    ensures window != "" && window[0] == '+' && HexDigits(window[1..]) ==>
              Unescape("\\u" + window + rest) == Character(HexValue(window[1..])) + Unescape(rest)
    ensures !HexDigits(window) && !(window != "" && window[0] == '+' && HexDigits(window[1..])) ==>
              Unescape("\\u" + window + rest) == Unescape(rest)
  {
    var s := "\\u" + window + rest;
    assert s[0] == '\\' && s[1] == 'u' && s[2..2 + |window|] == window && s[2 + |window|..] == rest;
    assert UnescapeTaken(s) == (2 + |window|, CodeText(window));
    WindowCode(window);
    assert "" + Unescape(rest) == Unescape(rest);
  }

  lemma WindowCode(window: string)
    ensures HexDigits(window) ==> CodeText(window) == Character(HexValue(window))
    ensures window != "" && window[0] == '+' && HexDigits(window[1..]) ==>
              CodeText(window) == Character(HexValue(window[1..]))
    ensures !HexDigits(window) && !(window != "" && window[0] == '+' && HexDigits(window[1..])) ==>
              CodeText(window) == ""
  {
    if HexDigits(window) { assert window[0] in window && window[0] != '+'; }
  }
}
