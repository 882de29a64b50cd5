/** Text as sequences of characters: the code-point order that `BTreeMap<String, _>`
    and `sort()` use, sorting, and substring search. */
module Text {

  datatype Option<+T> = None | Some(value: T)

  ghost predicate Distinct<T>(s: seq<T>) {
    forall i, j | 0 <= i < j < |s| :: s[i] != s[j]
  }

  function Elements<T>(s: seq<T>): set<T> {
    set x | x in s
  }

  lemma DistinctCard<T>(s: seq<T>)
    requires Distinct(s)
    ensures |Elements(s)| == |s|
  {
    if s != [] {
      var init, last := s[..|s| - 1], s[|s| - 1];
      DistinctCard(init);
      assert Elements(s) == Elements(init) + {last};
    }
  }

  lemma {:induction false} CardDistinct<T>(s: seq<T>)
    ensures |Elements(s)| <= |s|
    ensures |Elements(s)| == |s| ==> Distinct(s)
  {
    if s != [] {
      var init, last := s[..|s| - 1], s[|s| - 1];
      CardDistinct(init);
      assert Elements(s) == Elements(init) + {last};
      if last in init {
        assert Elements(s) == Elements(init);
      }
    }
  }

  lemma SubsetCard<T>(a: set<T>, b: set<T>)
    requires a <= b
    ensures |a| <= |b|
    ensures |a| == |b| ==> a == b
  {
    assert b == a + (b - a);
  }

  /** Taking one element out of two listings of the same multiset. */
  lemma RemoveOne<T>(a: seq<T>, b: seq<T>, k: nat)
    requires a != [] && multiset(a) == multiset(b) && k < |b| && b[k] == a[0]
    ensures multiset(a[1..]) == multiset(b[..k] + b[k + 1..])
  {
    assert a == [a[0]] + a[1..];
    assert b == b[..k] + [b[k]] + b[k + 1..];
    assert multiset(a) == multiset{a[0]} + multiset(a[1..]);
    assert multiset(b) == multiset(b[..k]) + multiset{a[0]} + multiset(b[k + 1..]);
    assert multiset(a[1..]) == multiset(a) - multiset{a[0]};
    assert multiset(b[..k] + b[k + 1..]) == multiset(b[..k]) + multiset(b[k + 1..]) == multiset(b) - multiset{a[0]};
  }

  /** A cursor at j moving past one element of a text whose open piece starts at i. */
  lemma SliceStep<T>(s: seq<T>, i: nat, j: nat)
    requires i <= j < |s|
    ensures s[i..j + 1] == s[i..j] + [s[j]]
    ensures s[j..] != [] && s[j..][0] == s[j] && s[j..][1..] == s[j + 1..]
    ensures s[j + 1..j + 1] == []
  {
  }

  lemma Regroup<T>(a: seq<T>, b: seq<T>, c: seq<T>)
    ensures a + (b + c) == (a + b) + c
  {
  }

  // ---- code-point order ----

  predicate StrLe(a: string, b: string) {
    a == [] || (b != [] && (a[0] < b[0] || (a[0] == b[0] && StrLe(a[1..], b[1..]))))
  }

  lemma {:induction false} StrLeTotal(a: string, b: string)
    ensures StrLe(a, b) || StrLe(b, a)
  {
    if a != [] && b != [] && a[0] == b[0] {
      StrLeTotal(a[1..], b[1..]);
    }
  }

  lemma {:induction false} StrLeAntisymmetric(a: string, b: string)
    requires StrLe(a, b) && StrLe(b, a)
    ensures a == b
  {
    if a != [] && b != [] {
      StrLeAntisymmetric(a[1..], b[1..]);
      assert a == [a[0]] + a[1..] == [b[0]] + b[1..] == b;
    }
  }

  lemma {:induction false} StrLeTransitive(a: string, b: string, c: string)
    requires StrLe(a, b) && StrLe(b, c)
    ensures StrLe(a, c)
  {
    if a != [] && a[0] == b[0] == c[0] {
      StrLeTransitive(a[1..], b[1..], c[1..]);
    }
  }

  ghost predicate IsLeast(x: string, s: set<string>) {
    x in s && forall y | y in s :: StrLe(x, y)
  }

  lemma LeastUnique(x: string, y: string, s: set<string>)
    requires IsLeast(x, s) && IsLeast(y, s)
    ensures x == y
  {
    StrLeAntisymmetric(x, y);
  }

  lemma LeastExists(s: set<string>)
    requires s != {}
    ensures exists x :: IsLeast(x, s)
  {
    var x :| x in s;
    StrLeTotal(x, x);
    if s == {x} {
      assert IsLeast(x, s);
    } else {
      LeastExists(s - {x});
      var y :| IsLeast(y, s - {x});
      StrLeTotal(x, y);
      if StrLe(x, y) {
        forall z | z in s ensures StrLe(x, z) {
          if z != x { StrLeTransitive(x, y, z); }
        }
        assert IsLeast(x, s);
      } else {
        assert IsLeast(y, s);
      }
    }
  }

  ghost predicate Sorted(s: seq<string>) {
    forall i, j | 0 <= i < j < |s| :: StrLe(s[i], s[j])
  }

  /** Vec::sort on strings. */
  function Sort(s: seq<string>): (r: seq<string>)
    ensures multiset(r) == multiset(s)
    ensures Sorted(r)
  {
    if s == [] then [] else
      assert s == [s[0]] + s[1..];
      InsertSorted(s[0], Sort(s[1..]))
  }

  function InsertSorted(x: string, s: seq<string>): (r: seq<string>)
    requires Sorted(s)
    ensures multiset(r) == multiset(s) + multiset{x}
    ensures Sorted(r)
  {
    if s == [] then [x]
    else if StrLe(x, s[0]) then
      InsertFront(x, s);
      [x] + s
    else
      var tail := InsertSorted(x, s[1..]);
      assert s == [s[0]] + s[1..];
      InsertBehind(x, s, tail);
      [s[0]] + tail
  }

  lemma InsertFront(x: string, s: seq<string>)
    requires Sorted(s) && s != [] && StrLe(x, s[0])
    ensures Sorted([x] + s)
    ensures multiset([x] + s) == multiset(s) + multiset{x}
  {
    forall j | 0 <= j < |s| ensures StrLe(x, s[j]) {
      if j > 0 { StrLeTransitive(x, s[0], s[j]); }
    }
  }

  lemma InsertBehind(x: string, s: seq<string>, tail: seq<string>)
    requires Sorted(s) && s != [] && !StrLe(x, s[0]) && Sorted(tail)
    requires multiset(tail) == multiset(s[1..]) + multiset{x}
    ensures Sorted([s[0]] + tail)
  {
    StrLeTotal(x, s[0]);
    forall j | 0 <= j < |tail| ensures StrLe(s[0], tail[j]) {
      assert tail[j] in multiset(tail);
      assert tail[j] == x || tail[j] in multiset(s[1..]);
    }
  }

  /** Two sorted listings of the same multiset are the same listing. */
  lemma {:induction false} SortedUnique(a: seq<string>, b: seq<string>)
    requires Sorted(a) && Sorted(b) && multiset(a) == multiset(b)
    ensures a == b
  {
    if a == [] {
      assert |multiset(b)| == 0;
    } else {
      assert a[0] in multiset(a);
      assert b != [] by { assert |multiset(a)| == |a|; }
      assert b[0] in multiset(b);
      assert a[0] in multiset(b) && b[0] in multiset(a);
      StrLeTotal(a[0], a[0]); StrLeTotal(b[0], b[0]);
      assert StrLe(a[0], b[0]) && StrLe(b[0], a[0]);
      StrLeAntisymmetric(a[0], b[0]);
      assert a == [a[0]] + a[1..] && b == [b[0]] + b[1..];
      assert multiset(a[1..]) == multiset(a) - multiset{a[0]};
      assert multiset(b[1..]) == multiset(b) - multiset{b[0]};
      SortedUnique(a[1..], b[1..]);
    }
  }

  function Least(s: set<string>): (x: string)
    requires s != {}
    ensures IsLeast(x, s)
  {
    LeastExists(s);
    OneLeast(s);
    var x :| x in s && forall y | y in s :: StrLe(x, y);
    x
  }

  lemma OneLeast(s: set<string>)
    ensures forall x, y | IsLeast(x, s) && IsLeast(y, s) :: x == y
    ensures forall x :: IsLeast(x, s) <==> x in s && forall y | y in s :: StrLe(x, y)
  {
    forall x, y | IsLeast(x, s) && IsLeast(y, s) ensures x == y { LeastUnique(x, y, s); }
  }

  /** The iteration order of a `BTreeMap` with these keys. */
  function SortedKeys(s: set<string>): (r: seq<string>)
    ensures Elements(r) == s
    ensures Distinct(r)
  {
    if s == {} then [] else
      var x := Least(s);
      var rest := SortedKeys(s - {x});
      LeastInFront(x, rest, s);
      [x] + rest
  }

  lemma LeastInFront(x: string, rest: seq<string>, s: set<string>)
    requires IsLeast(x, s) && Elements(rest) == s - {x} && Distinct(rest)
    ensures Elements([x] + rest) == s && Distinct([x] + rest)
    ensures Sorted(rest) ==> Sorted([x] + rest)
  {
    forall k | 0 <= k < |rest| ensures rest[k] in s && rest[k] != x && StrLe(x, rest[k]) {
      assert rest[k] in Elements(rest);
    }
    assert Elements([x] + rest) == {x} + Elements(rest);
  }

  lemma {:induction false} SortedKeysAreSorted(s: set<string>)
    ensures Sorted(SortedKeys(s))
  {
    if s != {} {
      SortedKeysAreSorted(s - {Least(s)});
      LeastInFront(Least(s), SortedKeys(s - {Least(s)}), s);
    }
  }

  // ---- substrings ----

  predicate MatchesAt(hay: string, i: nat, needle: string) {
    i + |needle| <= |hay| && hay[i..i + |needle|] == needle
  }

  predicate Contains(hay: string, needle: string) {
    exists i | 0 <= i <= |hay| :: MatchesAt(hay, i, needle)
  }

  function Shifted(n: nat, r: Option<nat>): Option<nat> {
    if r.None? then None else Some(n + r.value)
  }

  /** `str::find`: the offset of the first occurrence. */
  function Find(s: string, needle: string): (r: Option<nat>)
    ensures r.Some? ==> r.value + |needle| <= |s|
    decreases |s|
  {
    if |s| < |needle| then None
    else if s[..|needle|] == needle then Some(0)
    else if s == "" then None
    else Shifted(1, Find(s[1..], needle))
  }

  lemma MatchShifts(s: string, i: nat, needle: string)
    requires 0 < i <= |s|
    ensures MatchesAt(s, i, needle) <==> MatchesAt(s[1..], i - 1, needle)
  {
    if i + |needle| <= |s| {
      var k := i - 1;
      assert s[1..][k..k + |needle|] == s[i..i + |needle|];
    }
  }

  lemma {:induction false} FindMeans(s: string, needle: string)
    ensures Find(s, needle) == None <==> !Contains(s, needle)
    ensures forall k | Find(s, needle) == Some(k) ::
              MatchesAt(s, k, needle) && forall i | 0 <= i < k :: !MatchesAt(s, i, needle)
    decreases |s|
  {
    if |s| >= |needle| && s[..|needle|] != needle {
      var t := s[1..];
      FindMeans(t, needle);
      forall i | 0 < i <= |s| ensures MatchesAt(s, i, needle) <==> MatchesAt(t, i - 1, needle) {
        MatchShifts(s, i, needle);
      }
      assert !MatchesAt(s, 0, needle);
      if Contains(t, needle) {
        var i :| 0 <= i <= |t| && MatchesAt(t, i, needle);
        assert MatchesAt(s, i + 1, needle);
      }
      if Contains(s, needle) {
        var i :| 0 <= i <= |s| && MatchesAt(s, i, needle);
        assert MatchesAt(t, i - 1, needle);
      }
    } else if |s| >= |needle| {
      assert MatchesAt(s, 0, needle);
    }
  }

  /** `s.split(c).next()`: everything before the first `c`. */
  function Before(s: string, c: char): (r: string)
    ensures c !in r && r <= s
    ensures c !in s ==> r == s
    ensures c in s ==> |r| < |s| && s[|r|] == c
  {
    if s == [] || s[0] == c then [] else [s[0]] + Before(s[1..], c)
  }

  lemma {:induction false} BeforeIs(s: string, c: char, n: nat)
    requires n <= |s| && c !in s[..n] && (n < |s| ==> s[n] == c)
    ensures Before(s, c) == s[..n]
  {
    if n > 0 {
      assert s[0] in s[..n];
      assert s[1..][..n - 1] == s[..n][1..];
      BeforeIs(s[1..], c, n - 1);
      assert s[..n] == [s[0]] + s[1..][..n - 1];
    }
  }

  lemma {:induction false} BeforeDelimiter(a: string, c: char, b: string)
    requires c !in a
    ensures Before(a + [c] + b, c) == a
  {
    var s := a + [c] + b;
    if a == "" {
      assert s[0] == c;
    } else {
      assert s[0] == a[0] && s[1..] == a[1..] + [c] + b;
      BeforeDelimiter(a[1..], c, b);
    }
  }

  // ---- splitting and trimming ----

  /** Puts a text in front of the first piece. */
  function Prepend(p: string, pieces: seq<string>): (r: seq<string>)
    requires pieces != []
    ensures |r| == |pieces|
  {
    [p + pieces[0]] + pieces[1..]
  }

  lemma PrependConcat(p: string, a: seq<string>, b: seq<string>)
    requires a != []
    ensures Prepend(p, a + b) == Prepend(p, a) + b
  {
    assert (a + b)[1..] == a[1..] + b;
  }

  /** `s.split(c)`: the pieces between the separators; at least one piece. */
  function SplitOn(s: string, c: char): (r: seq<string>)
    ensures r != []
  {
    if s == [] then [[]]
    else if s[0] == c then [[]] + SplitOn(s[1..], c)
    else Prepend([s[0]], SplitOn(s[1..], c))
  }

  lemma {:induction false} SplitWithout(s: string, c: char)
    requires c !in s
    ensures SplitOn(s, c) == [s]
  {
    if s != [] {
      SplitWithout(s[1..], c);
      assert [s[0]] + s[1..] == s;
    }
  }

  lemma {:induction false} PiecesLackSeparator(s: string, c: char)
    ensures forall i | 0 <= i < |SplitOn(s, c)| :: c !in SplitOn(s, c)[i]
  {
    if s != "" {
      PiecesLackSeparator(s[1..], c);
    }
  }

  lemma {:induction false} SplitConcat(a: string, c: char, b: string)
    ensures SplitOn(a + [c] + b, c) == SplitOn(a, c) + SplitOn(b, c)
  {
    var all := a + [c] + b;
    if a == [] {
      assert all[0] == c && all[1..] == b;
      assert SplitOn(a, c) == [[]];
    } else {
      assert all[0] == a[0] && all[1..] == a[1..] + [c] + b;
      SplitConcat(a[1..], c, b);
      PrependConcat([a[0]], SplitOn(a[1..], c), SplitOn(b, c));
    }
  }

  /** The Unicode White_Space property, which `trim` uses. */
  predicate IsSpace(c: char) {
    || '\U{0009}' <= c <= '\U{000D}' || c == ' ' || c == '\U{0085}' || c == '\U{00A0}' || c == '\U{1680}'
    || '\U{2000}' <= c <= '\U{200A}' || c == '\U{2028}' || c == '\U{2029}' || c == '\U{202F}'
    || c == '\U{205F}' || c == '\U{3000}'
  }

  function TrimStart(s: string): (r: string)
    ensures |r| <= |s|
    ensures r != [] ==> !IsSpace(r[0])
  {
    if s != [] && IsSpace(s[0]) then TrimStart(s[1..]) else s
  }

  function TrimEnd(s: string): (r: string)
    ensures r <= s
    ensures r != [] ==> !IsSpace(r[|r| - 1])
  {
    if s != [] && IsSpace(s[|s| - 1]) then TrimEnd(s[..|s| - 1]) else s
  }

  function Trim(s: string): (r: string)
    ensures |r| <= |s|
  {
    TrimEnd(TrimStart(s))
  }

  /** No white space at either end. */
  predicate NoEdgeSpace(s: string) {
    s == [] || (!IsSpace(s[0]) && !IsSpace(s[|s| - 1]))
  }

  lemma TrimClean(s: string)
    requires NoEdgeSpace(s)
    ensures Trim(s) == s
  {
  }

  lemma TrimStartBlank(s: string)
    requires s != [] && !IsSpace(s[0])
    ensures TrimStart(" " + s) == s
  {
    assert (" " + s)[1..] == s;
    assert TrimStart(s) == s;
  }

  lemma TrimEndBlank(s: string)
    requires s != [] && !IsSpace(s[|s| - 1])
    ensures TrimEnd(s + " ") == s
  {
    assert (s + " ")[..|s + " "| - 1] == s;
    assert TrimEnd(s) == s;
  }

  /** Trimming takes off one blank on either side of a text without edge space. */
  lemma TrimPadded(pre: string, s: string, post: string)
    requires pre in ["", " "] && post in ["", " "]
    requires s != [] && NoEdgeSpace(s)
    ensures Trim(pre + s + post) == s
  {
    var t := s + post;
    assert pre + s + post == pre + t;
    assert TrimStart(pre + t) == t by {
      if pre == " " { TrimStartBlank(t); } else { assert pre + t == t; }
    }
    if post == " " { TrimEndBlank(s); } else { assert t == s; }
  }

  predicate Spaces(s: string) {
    forall i | 0 <= i < |s| :: IsSpace(s[i])
  }

  lemma {:induction false} TrimFront(s: string, t: string)
    requires Spaces(s) && (t == "" || !IsSpace(t[0]))
    ensures TrimStart(s + t) == t
  {
    if s == "" {
      assert s + t == t;
    } else {
      assert (s + t)[1..] == s[1..] + t;
      TrimFront(s[1..], t);
    }
  }

  lemma {:induction false} TrimBack(t: string, s: string)
    requires Spaces(s) && (t == "" || !IsSpace(t[|t| - 1]))
    ensures TrimEnd(t + s) == t
  {
    if s == "" {
      assert t + s == t;
    } else {
      assert (t + s)[..|t + s| - 1] == t + s[..|s| - 1];
      TrimBack(t, s[..|s| - 1]);
    }
  }

  lemma TrimAround(a: string, t: string, b: string)
    requires Spaces(a) && Spaces(b) && NoEdgeSpace(t)
    ensures Trim(a + t + b) == t
  {
    if t == "" {
      assert a + t + b == (a + b) + "";
      TrimFront(a + b, "");
    } else {
      assert a + t + b == a + (t + b);
      TrimFront(a, t + b);
      TrimBack(t, b);
    }
  }

  // ---- decimal numbers ----

  predicate IsDigit(c: char) {
    '0' <= c <= '9'
  }

  predicate AllDigits(s: string) {
    s != [] && forall i | 0 <= i < |s| :: IsDigit(s[i])
  }

  function DigitValue(c: char): nat {
    if IsDigit(c) then c as int - '0' as int else 0
  }

  function ParseDigits(s: string): nat {
    if s == [] then 0 else 10 * ParseDigits(s[..|s| - 1]) + DigitValue(s[|s| - 1])
  }

  function DigitChar(d: nat): char
    requires d < 10
  {
    '0' + d as char
  }

  lemma DigitReads(d: nat)
    requires d < 10
    ensures IsDigit(DigitChar(d)) && DigitValue(DigitChar(d)) == d
  {
  }

  function PrintNat(n: nat): string {
    (if n < 10 then "" else PrintNat(n / 10)) + [DigitChar(n % 10)]
  }

  lemma DigitAppended(s: string, d: nat)
    requires d < 10 && (s == "" || AllDigits(s))
    ensures AllDigits(s + [DigitChar(d)]) && ParseDigits(s + [DigitChar(d)]) == 10 * ParseDigits(s) + d
  {
    DigitReads(d);
    assert (s + [DigitChar(d)])[..|s|] == s;
  }

  lemma {:induction false} PrintNatReads(n: nat)
    ensures AllDigits(PrintNat(n)) && ParseDigits(PrintNat(n)) == n
  {
    var front := if n < 10 then "" else PrintNat(n / 10);
    if n >= 10 {
      PrintNatReads(n / 10);
    }
    DigitAppended(front, n % 10);
  }

  lemma DigitsOnly(s: string)
    requires AllDigits(s)
    ensures forall c | c in s :: IsDigit(c)
  {
  }

  /** `parse::<usize>()`: digits, with an optional plus sign. */
  function ParseUsize(s: string): Option<nat> {
    var digits := if s != [] && s[0] == '+' then s[1..] else s;
    if AllDigits(digits) then Some(ParseDigits(digits)) else None
  }

  lemma UsizeReadsBack(n: nat)
    ensures ParseUsize(PrintNat(n)) == Some(n)
    ensures forall c | c in PrintNat(n) :: IsDigit(c)
  {
    PrintNatReads(n);
    DigitsOnly(PrintNat(n));
    assert !IsDigit('+');
  }
}
