/** The grammar of JSON texts (RFC 8259, sections 2 to 7) as trees that keep every choice a
    writer has: white space, escapes, number forms. */
module JsonText {
  import opened Text
  import opened Json

  /** One character of a string, as written: itself, a short escape, a \u escape, or a
      surrogate pair of \u escapes. */
  datatype Piece = Raw(c: char) | Escape(c: char) | Unicode(hex: string) | Pair(hi: string, lo: string)

  datatype Node =
    | Word(text: string)
    | Numeral(minus: bool, whole: string, fraction: string, exponent: string)
    | Text(pieces: seq<Piece>)
    | List(blank: string, items: seq<Item>)
    | Dict(blank: string, members: seq<Member>)

  /** A value with the white space around it. */
  datatype Item = Item(before: string, value: Node, after: string)

  datatype Member = Member(before: string, key: seq<Piece>, gap: string, item: Item)

  // ---- printing ----

  function PrintPiece(p: Piece): string {
    match p
    case Raw(c) => [c]
    case Escape(c) => "\\" + [c]
    case Unicode(hex) => "\\u" + hex
    case Pair(hi, lo) => "\\u" + hi + ("\\u" + lo)
  }

  function PrintPieces(ps: seq<Piece>): string {
    if ps == [] then "" else PrintPiece(ps[0]) + PrintPieces(ps[1..])
  }

  function PrintText(ps: seq<Piece>): string {
    "\"" + (PrintPieces(ps) + "\"")
  }

  function PrintNode(n: Node): string
    decreases n, 3, 0
  {
    match n
    case Word(text) => text
    case Numeral(minus, whole, fraction, exponent) => (if minus then "-" else "") + (whole + (fraction + exponent))
    case Text(ps) => PrintText(ps)
    case List(blank, items) => "[" + ((if items == [] then blank else PrintItems(n, 0)) + "]")
    case Dict(blank, members) => "{" + ((if members == [] then blank else PrintMembers(n, 0)) + "}")
  }

  function PrintItem(item: Item): string
    decreases item, 3, 0
  {
    item.before + (PrintNode(item.value) + item.after)
  }

  function PrintItems(n: Node, i: nat): string
    requires n.List? && i <= |n.items|
    decreases n, 1, |n.items| - i
  {
    if i == |n.items| then ""
    else (if i == 0 then "" else ",") + (PrintItem(n.items[i]) + PrintItems(n, i + 1))
  }

  function PrintMember(m: Member): string
    decreases m, 3, 0
  {
    m.before + (PrintText(m.key) + (m.gap + (":" + PrintItem(m.item))))
  }

  function PrintMembers(n: Node, i: nat): string
    requires n.Dict? && i <= |n.members|
    decreases n, 1, |n.members| - i
  {
    if i == |n.members| then ""
    else (if i == 0 then "" else ",") + (PrintMember(n.members[i]) + PrintMembers(n, i + 1))
  }

  // ---- what RFC 8259 allows ----

  predicate IsBlank(s: string) {
    forall c | c in s :: c == ' ' || c == '\t' || c == '\n' || c == '\r'
  }

  predicate IsHexDigit(c: char) {
    '0' <= c <= '9' || 'a' <= c <= 'f' || 'A' <= c <= 'F'
  }

  function HexDigitValue(c: char): (r: nat)
    ensures r < 16
  {
    if '0' <= c <= '9' then c as int - '0' as int
    else if 'a' <= c <= 'f' then c as int - 'a' as int + 10
    else if 'A' <= c <= 'F' then c as int - 'A' as int + 10
    else 0
  }

  function HexValue(s: string): nat {
    if s == "" then 0 else 16 * HexValue(s[..|s| - 1]) + HexDigitValue(s[|s| - 1])
  }

  predicate IsHex4(s: string) {
    |s| == 4 && forall i | 0 <= i < 4 :: IsHexDigit(s[i])
  }

  predicate IsScalar(code: nat) {
    code < 0xD800 || 0xE000 <= code < 0x11_0000
  }

  const SHORT_ESCAPES := {'"', '\\', '/', 'b', 'f', 'n', 'r', 't'}

  /** The grammar of a piece; if `scalars`, a lone \u escape also names a character, which
      the grammar does not ask (section 8.2). */
  predicate PieceForm(p: Piece, scalars: bool) {
    match p
    case Raw(c) => c >= ' ' && c != '"' && c != '\\'
    case Escape(c) => c in SHORT_ESCAPES
    case Unicode(hex) => IsHex4(hex) && (scalars ==> IsScalar(HexValue(hex)))
    case Pair(hi, lo) => IsHex4(hi) && IsHex4(lo) && 0xD800 <= HexValue(hi) < 0xDC00 <= HexValue(lo) < 0xE000
  }

  predicate TextForm(ps: seq<Piece>, scalars: bool) {
    forall i | 0 <= i < |ps| :: PieceForm(ps[i], scalars)
  }

  predicate IsFraction(s: string) {
    s == "" || (s[0] == '.' && AllDigits(s[1..]))
  }

  predicate IsExponent(s: string) {
    s == "" || (|s| > 1 && s[0] in "eE" && AllDigits(if s[1] in "+-" then s[2..] else s[1..]))
  }

  predicate NodeForm(n: Node, scalars: bool)
    decreases n, 1
  {
    match n
    case Word(text) => text in ["null", "true", "false"]
    case Numeral(minus, whole, fraction, exponent) =>
      AllDigits(whole) && (whole[0] == '0' ==> |whole| == 1) && IsFraction(fraction) && IsExponent(exponent)
    case Text(ps) => TextForm(ps, scalars)
    case List(blank, items) => IsBlank(blank) && forall i | 0 <= i < |items| :: ItemForm(items[i], scalars)
    case Dict(blank, members) => IsBlank(blank) && forall i | 0 <= i < |members| :: MemberForm(members[i], scalars)
  }

  predicate ItemForm(item: Item, scalars: bool)
    decreases item, 1
  {
    IsBlank(item.before) && NodeForm(item.value, scalars) && IsBlank(item.after)
  }

  predicate MemberForm(m: Member, scalars: bool)
    decreases m, 1
  {
    IsBlank(m.before) && TextForm(m.key, scalars) && IsBlank(m.gap) && ItemForm(m.item, scalars)
  }

  /** Written as the grammar allows. */
  predicate WrittenNode(n: Node) {
    NodeForm(n, false)
  }

  /** So written, and every string in it is a sequence of characters. */
  predicate ValidNode(n: Node) {
    NodeForm(n, true)
  }

  predicate ValidText(ps: seq<Piece>) {
    TextForm(ps, true)
  }

  // ---- what the texts mean ----

  function PieceMeaning(p: Piece): char
    requires PieceForm(p, true)
  {
    match p
    case Raw(c) => c
    case Escape(c) =>
      (match c
       case 'b' => '\U{0008}'
       case 'f' => '\U{000C}'
       case 'n' => '\n'
       case 'r' => '\r'
       case 't' => '\t'
       case _ => c)
    case Unicode(hex) => HexValue(hex) as char
    case Pair(hi, lo) => (0x1_0000 + (HexValue(hi) - 0xD800) * 0x400 + (HexValue(lo) - 0xDC00)) as char
  }

  function TextMeaning(ps: seq<Piece>): (r: string)
    requires ValidText(ps)
    ensures |r| == |ps|
  {
    seq(|ps|, i requires 0 <= i < |ps| => PieceMeaning(ps[i]))
  }

  /** The value a JSON reader gives: later members replace earlier ones with the same name. */
  function Meaning(n: Node): Value
    requires ValidNode(n)
    decreases n, 3, 0
  {
    match n
    case Word(text) => if text == "null" then Null else Bool(text == "true")
    case Numeral(_, _, _, _) => Number(PrintNode(n))
    case Text(ps) => String(TextMeaning(ps))
    case List(_, items) =>
      Array(seq(|items|, i requires 0 <= i < |items| => assert ItemForm(items[i], true); Meaning(items[i].value)))
    case Dict(_, members) => Object(MembersMeaning(n, |members|))
  }

  function MembersMeaning(n: Node, k: nat): map<string, Value>
    requires n.Dict? && ValidNode(n) && k <= |n.members|
    decreases n, 1, k
  {
    if k == 0 then map[]
    else
      var m := n.members[k - 1];
      assert MemberForm(m, true) && ItemForm(m.item, true);
      MembersMeaning(n, k - 1)[TextMeaning(m.key) := Meaning(m.item.value)]
  }
}
