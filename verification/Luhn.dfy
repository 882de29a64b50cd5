/** The card-number checksum (`luhn_valid`): the Luhn formula of ISO/IEC 7812-1, Annex B. */
module Luhn {
  import opened Text

  const MIN_DIGITS := 13
  const MAX_DIGITS := 19

  // ---- the formula ----

  type Digit = d: nat | d < 10

  /** The digits of a text; everything else is skipped. */
  function Digits(text: string): seq<Digit> {
    if text == "" then []
    else (if IsDigit(text[0]) then [DigitOf(text[0])] else []) + Digits(text[1..])
  }

  function DigitOf(c: char): (d: Digit)
    requires IsDigit(c)
  {
    DigitValue(c)
  }

  /** The sum of the decimal digits of a number below one hundred. */
  function DigitSum(n: nat): nat {
    n / 10 + n % 10
  }

  /** The Luhn sum: from the check digit on the right, every second digit is doubled and the
      digits of the product are added. */
  function LuhnSum(digits: seq<Digit>): nat {
    if digits == [] then 0
    else
      var d: nat := digits[0];
      (if (|digits| - 1) % 2 == 1 then DigitSum(2 * d) else d) + LuhnSum(digits[1..])
  }

  /** A card number: 13 to 19 digits whose Luhn sum is a multiple of ten. */
  predicate Valid(digits: seq<Digit>) {
    MIN_DIGITS <= |digits| <= MAX_DIGITS && LuhnSum(digits) % 10 == 0
  }

  // ---- the same sum from the right, with a flag ----

  /** Twice a digit, nine less when that has two digits. */
  function Doubled(d: Digit): nat {
    if 2 * d > 9 then 2 * d - 9 else 2 * d
  }

  function Contribution(d: Digit, double: bool): nat {
    if double then Doubled(d) else d
  }

  /** `double` tells whether the last digit is doubled; it alternates towards the left. */
  function FlagSum(digits: seq<Digit>, double: bool): nat
    decreases |digits|
  {
    if digits == [] then 0
    else Contribution(digits[|digits| - 1], double) + FlagSum(digits[..|digits| - 1], !double)
  }

  lemma DoubledIsDigitSum(d: Digit)
    ensures Doubled(d) == DigitSum(2 * d)
  {
  }

  /** The flag after n more digits. */
  function Flip(double: bool, n: nat): bool {
    if n == 0 then double else !Flip(double, n - 1)
  }

  lemma {:induction false} FlipIsParity(n: nat)
    ensures Flip(false, n) <==> n % 2 == 1
  {
    if n > 0 { FlipIsParity(n - 1); }
  }

  lemma {:induction false} FlipNot(double: bool, n: nat)
    ensures Flip(!double, n) == !Flip(double, n)
  {
    if n > 0 { FlipNot(double, n - 1); }
  }

  /** The sum of a number written as two parts. */
  lemma {:induction false} SumConcat(a: seq<Digit>, b: seq<Digit>, double: bool)
    ensures FlagSum(a + b, double) == FlagSum(a, Flip(double, |b|)) + FlagSum(b, double)
    decreases |b|
  {
    if b == [] {
      assert a + b == a;
    } else {
      var init, last := b[..|b| - 1], b[|b| - 1];
      assert (a + b)[..|a + b| - 1] == a + init && (a + b)[|a + b| - 1] == last;
      SumConcat(a, init, !double);
      FlipNot(double, |init|);
    }
  }

  lemma SumOfOne(d: Digit, double: bool)
    ensures FlagSum([d], double) == Contribution(d, double)
  {
    assert [d][..0] == [];
  }

  lemma {:induction false} FlagSumIsLuhnSum(digits: seq<Digit>)
    ensures FlagSum(digits, false) == LuhnSum(digits)
  {
    if digits != [] {
      var d, rest := digits[0], digits[1..];
      assert digits == [d] + rest;
      SumConcat([d], rest, false);
      SumOfOne(d, Flip(false, |rest|));
      FlipIsParity(|rest|);
      DoubledIsDigitSum(d);
      FlagSumIsLuhnSum(rest);
    }
  }

  // ---- the code ----

  method CollectDigits(text: string) returns (digits: seq<Digit>)
    ensures digits == Digits(text)
  {
    digits := [];
    assert text[..0] == "";
    for n := 0 to |text|
      invariant digits == Digits(text[..n])
    {
      DigitsStep(text, n);
      if IsDigit(text[n]) {
        digits := digits + [DigitOf(text[n])];
      }
    }
    assert text[..|text|] == text;
  }

  lemma DigitsStep(text: string, n: nat)
    requires n < |text|
    ensures Digits(text[..n + 1]) == Digits(text[..n]) + (if IsDigit(text[n]) then [DigitOf(text[n])] else [])
  {
    assert text[..n + 1] == text[..n] + [text[n]];
    DigitsConcat(text[..n], [text[n]]);
  }

  method LuhnValid(text: string) returns (valid: bool)
    ensures valid == Valid(Digits(text))
  {
    var digits := CollectDigits(text);
    if |digits| < MIN_DIGITS || |digits| > MAX_DIGITS {
      return false;
    }
    var sum: nat, double := 0, false;
    var left := |digits|;
    assert digits[..left] == digits;
    while left > 0
      invariant Summed(digits, left, sum, double)
    {
      SumStep(digits, left, sum, double);
      left := left - 1;
      var value: nat := digits[left];
      if double {
        value := value * 2;
        if value > 9 {
          value := value - 9;
        }
      }
      sum := sum + value;
      double := !double;
    }
    FlagSumIsLuhnSum(digits);
    valid := sum % 10 == 0;
  }

  /** The digits right of `left` are summed up; those left of it are still to come. */
  ghost predicate Summed(digits: seq<Digit>, left: nat, sum: nat, double: bool) {
    left <= |digits| && sum + FlagSum(digits[..left], double) == FlagSum(digits, false)
  }

  lemma SumStep(digits: seq<Digit>, left: nat, sum: nat, double: bool)
    requires left > 0 && Summed(digits, left, sum, double)
    ensures Summed(digits, left - 1, sum + Contribution(digits[left - 1], double), !double)
  {
    assert digits[..left][..left - 1] == digits[..left - 1];
  }

  // ---- text and digits ----

  lemma {:induction false} DigitsConcat(a: string, b: string)
    ensures Digits(a + b) == Digits(a) + Digits(b)
  {
    if a == "" {
      assert a + b == b;
    } else {
      assert (a + b)[0] == a[0] && (a + b)[1..] == a[1..] + b;
      DigitsConcat(a[1..], b);
      Regroup(if IsDigit(a[0]) then [DigitOf(a[0])] else [], Digits(a[1..]), Digits(b));
    }
  }

  lemma DigitsOfOne(c: char)
    ensures Digits([c]) == if IsDigit(c) then [DigitOf(c)] else []
  {
    assert [c][1..] == "";
  }

  lemma {:induction false} NoDigits(text: string)
    requires forall c | c in text :: !IsDigit(c)
    ensures Digits(text) == []
  {
    if text != "" {
      NoDigits(text[1..]);
    }
  }

  // ---- changes and exchanges ----

  /** A digit between two parts. */
  lemma SumAround(a: seq<Digit>, d: Digit, b: seq<Digit>)
    ensures var flag := Flip(false, |b|);
            LuhnSum(a + [d] + b) == FlagSum(a, !flag) + LuhnSum(b) + Contribution(d, flag)
  {
    SumConcat(a + [d], b, false);
    SumConcat(a, [d], Flip(false, |b|));
    SumOfOne(d, Flip(false, |b|));
    FlagSumIsLuhnSum(a + [d] + b);
    FlagSumIsLuhnSum(b);
  }

  lemma CloseRemainders(x: int, y: int)
    requires -10 < x - y < 10
    ensures x % 10 == y % 10 <==> x == y
  {
  }

  lemma SameRemainder(x: nat, y: nat, rest: nat)
    ensures (rest + x) % 10 == (rest + y) % 10 <==> x % 10 == y % 10
  {
  }

  /** No two digits contribute the same at a place. */
  lemma ContributionsDiffer(x: Digit, y: Digit, double: bool)
    ensures Contribution(x, double) == Contribution(y, double) <==> x == y
    ensures -10 < Contribution(x, double) - Contribution(y, double) < 10
  {
  }

  /** Changing one digit changes the sum modulo ten. */
  lemma ChangedDigit(a: seq<Digit>, x: Digit, y: Digit, b: seq<Digit>)
    requires x != y
    ensures LuhnSum(a + [x] + b) % 10 != LuhnSum(a + [y] + b) % 10
  {
    var flag := Flip(false, |b|);
    var cx, cy := Contribution(x, flag), Contribution(y, flag);
    SumAround(a, x, b);
    SumAround(a, y, b);
    ContributionsDiffer(x, y, flag);
    CloseRemainders(cx, cy);
    SameRemainder(cx, cy, FlagSum(a, !flag) + LuhnSum(b));
  }

  /** Which exchanges the sum does not see. */
  predicate Blind(x: Digit, y: Digit) {
    x == y || (x == 0 && y == 9) || (x == 9 && y == 0)
  }

  /** What two neighbours contribute together. */
  function PairSum(x: Digit, y: Digit, double: bool): nat {
    Contribution(x, !double) + Contribution(y, double)
  }

  lemma PairsDiffer(x: Digit, y: Digit, double: bool)
    ensures PairSum(x, y, double) == PairSum(y, x, double) <==> Blind(x, y)
    ensures -10 < PairSum(x, y, double) - PairSum(y, x, double) < 10
  {
  }

  lemma SumAroundPair(a: seq<Digit>, x: Digit, y: Digit, b: seq<Digit>)
    ensures var flag := Flip(false, |b|);
            LuhnSum(a + [x] + ([y] + b)) == FlagSum(a, flag) + LuhnSum(b) + PairSum(x, y, flag)
  {
    var flag := Flip(false, |b|);
    SumAround(a, x, [y] + b);
    assert |[y] + b| == |b| + 1 && Flip(false, |b| + 1) == !flag;
    assert [] + [y] + b == [y] + b;
    SumAround([], y, b);
  }

  lemma SwappedDigits(a: seq<Digit>, x: Digit, y: Digit, b: seq<Digit>)
    ensures LuhnSum(a + [x] + ([y] + b)) % 10 == LuhnSum(a + [y] + ([x] + b)) % 10 <==> Blind(x, y)
  {
    var flag := Flip(false, |b|);
    var xy, yx := PairSum(x, y, flag), PairSum(y, x, flag);
    SumAroundPair(a, x, y, b);
    SumAroundPair(a, y, x, b);
    PairsDiffer(x, y, flag);
    CloseRemainders(xy, yx);
    SameRemainder(xy, yx, FlagSum(a, flag) + LuhnSum(b));
  }

  // ---- what the checksum detects ----

  lemma DigitsAround(a: string, c: char, b: string)
    requires IsDigit(c)
    ensures Digits(a + [c] + b) == Digits(a) + [DigitOf(c)] + Digits(b)
  {
    DigitsConcat(a + [c], b);
    DigitsConcat(a, [c]);
    DigitsOfOne(c);
  }

  lemma DigitOfIsExact(c: char, d: char)
    requires IsDigit(c) && IsDigit(d)
    ensures DigitOf(c) == DigitOf(d) <==> c == d
  {
  }

  /** Main result: changing any one digit of a valid text makes it invalid. */
  lemma OneWrongDigitIsDetected(a: string, c: char, d: char, b: string)
    requires IsDigit(c) && IsDigit(d) && c != d && Valid(Digits(a + [c] + b))
    ensures !Valid(Digits(a + [d] + b))
  {
    DigitsAround(a, c, b);
    DigitsAround(a, d, b);
    DigitOfIsExact(c, d);
    ChangedDigit(Digits(a), DigitOf(c), DigitOf(d), Digits(b));
  }

  /** Main result: exchanging two neighbouring digits of a valid text, whatever separators
      stand between them, keeps it valid exactly when they are equal or are 0 and 9. */
  lemma SwapIsDetectedIff(a: string, c: char, separators: string, d: char, b: string)
    requires IsDigit(c) && IsDigit(d) && forall s | s in separators :: !IsDigit(s)
    requires Valid(Digits(a + [c] + (separators + [d] + b)))
    ensures Valid(Digits(a + [d] + (separators + [c] + b))) <==> Blind(DigitOf(c), DigitOf(d))
  {
    DigitsOfPair(a, c, separators, d, b);
    DigitsOfPair(a, d, separators, c, b);
    SwappedDigits(Digits(a), DigitOf(c), DigitOf(d), Digits(b));
  }

  lemma DigitsOfPair(a: string, c: char, separators: string, d: char, b: string)
    requires IsDigit(c) && IsDigit(d) && forall s | s in separators :: !IsDigit(s)
    ensures Digits(a + [c] + (separators + [d] + b)) == Digits(a) + [DigitOf(c)] + ([DigitOf(d)] + Digits(b))
  {
    NoDigits(separators);
    DigitsAround(a, c, separators + [d] + b);
    DigitsAround(separators, d, b);
    assert [] + [DigitOf(d)] == [DigitOf(d)];
  }

  /** The check digit of ISO/IEC 7812-1: what brings the sum to a multiple of ten. */
  function CheckDigit(prefix: seq<Digit>): Digit {
    (10 - FlagSum(prefix, true) % 10) % 10
  }

  lemma CheckDigitCompletes(sum: nat, d: Digit)
    ensures (sum + d) % 10 == 0 <==> d == (10 - sum % 10) % 10
  {
  }

  /** Main result: a text of 12 to 18 digits followed by one more is valid exactly when that
      one is the check digit; there is always one, and only one. */
  lemma ExactlyOneCheckDigit(prefix: string, c: char)
    requires IsDigit(c) && MIN_DIGITS - 1 <= |Digits(prefix)| <= MAX_DIGITS - 1
    ensures Valid(Digits(prefix + [c])) <==> c == DigitChar(CheckDigit(Digits(prefix)))
  {
    var d := DigitOf(c);
    DigitsConcat(prefix, [c]);
    DigitsOfOne(c);
    SumAround(Digits(prefix), d, []);
    assert Digits(prefix) + [d] + [] == Digits(prefix) + [d];
    CheckDigitCompletes(FlagSum(Digits(prefix), true), d);
    DigitReads(CheckDigit(Digits(prefix)));
    DigitOfIsExact(c, DigitChar(CheckDigit(Digits(prefix))));
  }
}
