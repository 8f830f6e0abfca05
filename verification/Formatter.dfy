/** Printing token amounts: string padding, slicing and a comma-inserting regular expression, proved to
    print exactly the integer part and the first two decimals of amount / 10^decimals. */
module Formatter {

  predicate IsDigit(c: char) {
    '0' <= c <= '9'
  }

  predicate Digits(s: string) {
    forall i :: 0 <= i < |s| ==> IsDigit(s[i])
  }

  function Digit(n: nat): (c: char)
    requires n < 10
    ensures IsDigit(c)
  {
    '0' + n as char
  }

  function DigitValue(c: char): (n: nat)
    requires IsDigit(c)
    ensures n < 10 && Digit(n) == c
  {
    c as int - '0' as int
  }

  /** Decimal numeral of n, without leading zeros. */
  function Numeral(n: nat): (s: string)
    ensures Digits(s) && s != []
  {
    if n < 10 then [Digit(n)] else Numeral(n / 10) + [Digit(n % 10)]
  }

  /** String(amount). */
  function ToString(amount: int): string {
    if amount < 0 then "-" + Numeral(-amount) else Numeral(amount)
  }

  function Repeat(c: char, n: nat): (s: string)
    ensures |s| == n && forall i :: 0 <= i < n ==> s[i] == c
  {
    if n == 0 then [] else Repeat(c, n - 1) + [c]
  }

  function PadStart(s: string, length: nat, c: char): string {
    if |s| >= length then s else Repeat(c, length - |s|) + s
  }

  function PadEnd(s: string, length: nat, c: char): string {
    if |s| >= length then s else s + Repeat(c, length - |s|)
  }

  // ------------------------------------------------------------------ the comma rule

  predicate IsWord(c: char) {
    IsDigit(c) || 'a' <= c <= 'z' || 'A' <= c <= 'Z' || c == '_'
  }

  /** \B: the characters on both sides are of the same kind, the outside counting as not a word. */
  predicate NoBoundary(s: string, i: nat)
    requires i <= |s|
  {
    (i > 0 && IsWord(s[i - 1])) == (i < |s| && IsWord(s[i]))
  }

  /** (?=(\d{3})+(?!\d)): one or more triples of digits follow, and then no digit. */
  ghost predicate TriplesFollow(s: string, i: nat)
    requires i <= |s|
  {
    exists k: nat :: k > 0 && EndsTriples(s, i, k)
  }

  ghost predicate EndsTriples(s: string, i: nat, k: nat)
    requires i <= |s|
  {
    && i + 3 * k <= |s|
    && Digits(s[i..i + 3 * k])
    && !(i + 3 * k < |s| && IsDigit(s[i + 3 * k]))
  }

  ghost predicate CommaAt(s: string, i: nat)
    requires i <= |s|
  {
    NoBoundary(s, i) && TriplesFollow(s, i)
  }

  /** s.replace(/\B(?=(\d{3})+(?!\d))/g, ','), from position i on. */
  ghost function ReplaceFrom(s: string, i: nat): string
    requires i <= |s|
    decreases |s| - i
  {
    (if CommaAt(s, i) then "," else "") + (if i == |s| then "" else [s[i]] + ReplaceFrom(s, i + 1))
  }

  ghost function InsertCommas(s: string): string {
    ReplaceFrom(s, 0)
  }

  /** Groups of three digits from the right, a comma between any two groups. */
  function Grouped(s: string): string {
    if |s| <= 3 then s else Grouped(s[..|s| - 3]) + "," + s[|s| - 3..]
  }

  /** On a string of digits the expression matches inside the string where the rest is triples. */
  lemma CommaPlaces(s: string, i: nat)
    requires Digits(s) && i <= |s|
    ensures CommaAt(s, i) <==> 0 < i < |s| && (|s| - i) % 3 == 0
  {
    if 0 < i < |s| && (|s| - i) % 3 == 0 {
      assert EndsTriples(s, i, (|s| - i) / 3);
    }
  }

  /** Removing the last three digits of a string of digits shifts no comma. */
  lemma {:induction false} ReplaceSplits(s: string, i: nat)
    requires Digits(s) && |s| > 3 && i <= |s| - 3
    ensures ReplaceFrom(s, i) == ReplaceFrom(s[..|s| - 3], i) + "," + s[|s| - 3..]
    decreases |s| - i
  {
    var front := s[..|s| - 3];
    CommaPlaces(s, i);
    CommaPlaces(front, i);
    if i < |s| - 3 {
      ReplaceSplits(s, i + 1);
    } else {
      NoMoreCommas(s, i);
    }
  }

  lemma NoMoreCommas(s: string, i: nat)
    requires Digits(s) && |s| > 3 && i == |s| - 3
    ensures ReplaceFrom(s, i) == "," + s[i..]
  {
    CommaPlaces(s, i);
    CommaPlaces(s, i + 1);
    CommaPlaces(s, i + 2);
    CommaPlaces(s, i + 3);
    assert ReplaceFrom(s, i + 3) == "";
    assert ReplaceFrom(s, i + 2) == [s[i + 2]];
    assert ReplaceFrom(s, i + 1) == [s[i + 1], s[i + 2]];
  }

  /** The regular expression groups digits in threes from the right. */
  lemma {:induction false} CommasGroup(s: string)
    requires Digits(s)
    ensures InsertCommas(s) == Grouped(s)
  {
    if |s| <= 3 {
      ShortUnchanged(s, 0);
    } else {
      CommasGroup(s[..|s| - 3]);
      ReplaceSplits(s, 0);
    }
  }

  lemma {:induction false} ShortUnchanged(s: string, i: nat)
    requires Digits(s) && |s| <= 3 && i <= |s|
    ensures ReplaceFrom(s, i) == s[i..]
    decreases |s| - i
  {
    CommaPlaces(s, i);
    if i < |s| {
      ShortUnchanged(s, i + 1);
    }
  }

  function DropCommas(s: string): string {
    if s == [] then []
    else DropCommas(s[..|s| - 1]) + if s[|s| - 1] == ',' then [] else [s[|s| - 1]]
  }

  lemma {:induction false} DropCommasAppend(a: string, b: string)
    ensures DropCommas(a + b) == DropCommas(a) + DropCommas(b)
  {
    if b == [] {
      assert a + b == a;
    } else {
      var (front, last) := (b[..|b| - 1], if b[|b| - 1] == ',' then [] else [b[|b| - 1]]);
      DropCommasAppend(a, front);
      assert (a + b)[..|a + b| - 1] == a + front;
      assert (DropCommas(a) + DropCommas(front)) + last == DropCommas(a) + (DropCommas(front) + last);
    }
  }

  lemma {:induction false} DropCommasFromDigits(s: string)
    requires Digits(s)
    ensures DropCommas(s) == s
  {
    if s != [] {
      DropCommasFromDigits(s[..|s| - 1]);
    }
  }

  /** Dropping the commas gives the digits back. */
  lemma {:induction false} GroupedKeepsDigits(s: string)
    requires Digits(s)
    ensures DropCommas(Grouped(s)) == s
  {
    if |s| <= 3 {
      DropCommasFromDigits(s);
    } else {
      var front, last := s[..|s| - 3], s[|s| - 3..];
      GroupedKeepsDigits(front);
      DropCommaBetween(Grouped(front), last);
      assert s == front + last;
    }
  }

  lemma DropLastComma(a: string)
    ensures DropCommas(a + ",") == DropCommas(a)
  {
    var text := a + ",";
    assert text[..|text| - 1] == a && text[|text| - 1] == ',';
    assert DropCommas(text) == DropCommas(a) + [];
  }

  lemma DropCommaBetween(a: string, digits: string)
    requires Digits(digits)
    ensures DropCommas(a + "," + digits) == DropCommas(a) + digits
  {
    DropCommasAppend(a + ",", digits);
    DropCommasFromDigits(digits);
    DropLastComma(a);
  }

  // ------------------------------------------------------------------ numerals and their values

  function Pow10(n: nat): (p: nat)
    ensures p > 0
  {
    if n == 0 then 1 else 10 * Pow10(n - 1)
  }

  function Value(s: string): nat
    requires Digits(s)
  {
    if s == [] then 0 else 10 * Value(s[..|s| - 1]) + DigitValue(s[|s| - 1])
  }

  lemma {:induction false} ValueAppend(a: string, b: string)
    requires Digits(a) && Digits(b)
    ensures Digits(a + b) && Value(a + b) == Value(a) * Pow10(|b|) + Value(b)
  {
    if b == [] {
      assert a + b == a;
    } else {
      var (front, last) := (b[..|b| - 1], b[|b| - 1]);
      ValueAppend(a, front);
      OneMoreDigit(a + front, last);
      assert a + b == (a + front) + [last] by { assert b == front + [last]; }
      TimesTen(Value(a), Pow10(|b| - 1));
    }
  }

  lemma OneMoreDigit(s: string, c: char)
    requires Digits(s) && IsDigit(c)
    ensures Digits(s + [c]) && Value(s + [c]) == 10 * Value(s) + DigitValue(c)
  {
    assert (s + [c])[..|s|] == s;
  }

  lemma TimesTen(v: nat, p: nat)
    ensures 10 * (v * p) == v * (10 * p)
  {
  }

  lemma {:induction false} ValueBelow(s: string)
    requires Digits(s)
    ensures Value(s) < Pow10(|s|)
  {
    if s != [] {
      ValueBelow(s[..|s| - 1]);
    }
  }

  lemma {:induction false} NumeralValue(n: nat)
    ensures Value(Numeral(n)) == n
  {
    if n >= 10 {
      NumeralValue(n / 10);
      assert Numeral(n)[..|Numeral(n)| - 1] == Numeral(n / 10);
    }
  }

  /** A numeral as Numeral writes it: not empty, no zero in front of other digits. */
  predicate Canonical(s: string) {
    Digits(s) && s != [] && (|s| > 1 ==> s[0] != '0')
  }

  lemma {:induction false} NumeralIsCanonical(n: nat)
    ensures Canonical(Numeral(n)) && (n > 0 ==> Numeral(n)[0] != '0')
  {
    if n >= 10 {
      NumeralIsCanonical(n / 10);
    }
  }

  lemma {:induction false} CanonicalPositive(s: string)
    requires Canonical(s) && s[0] != '0'
    ensures Value(s) > 0
  {
    if |s| > 1 {
      CanonicalPositive(s[..|s| - 1]);
    }
  }

  lemma {:induction false} CanonicalIsNumeral(s: string)
    requires Canonical(s)
    ensures Numeral(Value(s)) == s
  {
    if |s| > 1 {
      var front := s[..|s| - 1];
      CanonicalIsNumeral(front);
      CanonicalPositive(front);
      assert s == front + [s[|s| - 1]];
    }
  }

  function TwoDigits(n: nat): string
    requires n < 100
  {
    [Digit(n / 10), Digit(n % 10)]
  }

  lemma TwoDigitsOfValue(s: string)
    requires Digits(s) && |s| == 2
    ensures Value(s) < 100 && TwoDigits(Value(s)) == s
  {
    assert s[..1][..0] == [];
    assert Value(s[..1]) == DigitValue(s[0]);
    assert Value(s) == 10 * DigitValue(s[0]) + DigitValue(s[1]);
  }

  lemma {:induction false} ZerosValue(n: nat)
    ensures Digits(Repeat('0', n)) && Value(Repeat('0', n)) == 0
  {
    if n > 0 {
      ZerosValue(n - 1);
      ValueAppend(Repeat('0', n - 1), "0");
      assert Value("0") == 0;
    }
  }

  // ------------------------------------------------------------------ the printer

  /** The fraction digits cut or filled to two. */
  function TwoPlaces(frac: string): string {
    PadEnd(if |frac| > 2 then frac[..2] else frac, 2, '0')
  }

  ghost function FormatTokenAmount(amount: int, decimals: nat): string {
    var str := ToString(amount);
    if decimals == 0 then InsertCommas(str)
    else
      var padded := PadStart(str, decimals + 1, '0');
      var intPart := InsertCommas(padded[..|padded| - decimals]);
      var fracPart := padded[|padded| - decimals..];
      intPart + "." + TwoPlaces(fracPart) + " CVT"
  }

  /** Padding with zeros changes the length, not the value. */
  lemma PaddedValue(str: string, length: nat)
    requires Digits(str)
    ensures var padded := PadStart(str, length, '0');
      Digits(padded) && Value(padded) == Value(str) && |padded| >= length
  {
    if |str| < length {
      ZerosValue(length - |str|);
      ValueAppend(Repeat('0', length - |str|), str);
    }
  }

  /** In front of the last `decimals` digits of the padded amount stands a canonical numeral. */
  lemma PaddedFront(amount: nat, decimals: nat)
    ensures var padded := PadStart(ToString(amount), decimals + 1, '0');
      |padded| > decimals && Canonical(padded[..|padded| - decimals])
  {
    PaddedValue(ToString(amount), decimals + 1);
    NumeralIsCanonical(amount);
  }

  lemma PaddedAmount(amount: nat, decimals: nat)
    ensures var padded := PadStart(ToString(amount), decimals + 1, '0');
      |padded| > decimals && Digits(padded) && Value(padded) == amount
  {
    NumeralValue(amount);
    PaddedValue(ToString(amount), decimals + 1);
  }

  /** The padded string splits into an integer part and `decimals` further digits. */
  lemma PaddedSplits(amount: nat, decimals: nat) returns (front: string, back: string)
    ensures var padded := PadStart(ToString(amount), decimals + 1, '0');
      |padded| > decimals && front == padded[..|padded| - decimals] && back == padded[|padded| - decimals..]
    ensures |back| == decimals && Digits(front) && Digits(back)
    ensures Value(front) * Pow10(|back|) + Value(back) == amount
  {
    PaddedAmount(amount, decimals);
    var padded := PadStart(ToString(amount), decimals + 1, '0');
    front, back := padded[..|padded| - decimals], padded[|padded| - decimals..];
    CutDigits(padded, |padded| - decimals);
  }

  lemma CutDigits(s: string, n: nat)
    requires Digits(s) && n <= |s|
    ensures Digits(s[..n]) && Digits(s[n..])
    ensures Value(s[..n]) * Pow10(|s| - n) + Value(s[n..]) == Value(s)
  {
    assert s == s[..n] + s[n..];
    ValueAppend(s[..n], s[n..]);
  }

  lemma AtLeastOnce(n: nat, y: nat)
    requires n > 0
    ensures n * y >= y
  {
  }

  lemma LargerQuotient(a: nat, b: nat, y: nat, r: nat, t: nat)
    requires a > b && t < y
    ensures a * y + r > b * y + t
  {
    AtLeastOnce(a - b, y);
    assert a * y == b * y + (a - b) * y;
  }

  /** The quotient rounded down. */
  function Quotient(x: nat, y: nat): (q: nat)
    requires y > 0
    ensures q * y <= x < (q + 1) * y
  {
    x / y
  }

  /** There is only one quotient. */
  lemma QuotientIs(x: nat, y: nat, q: nat, r: nat)
    requires y > 0 && x == q * y + r && r < y
    ensures Quotient(x, y) == q
  {
    var a := Quotient(x, y);
    if a > q {
      LargerQuotient(a, q, y, x - a * y, r);
    } else if q > a {
      LargerQuotient(q, a, y, r, x - a * y);
    }
  }

  /** The two decimals after the point of amount / p, rounded down, as a number. */
  function Cents(amount: nat, p: nat): (c: nat)
    requires p > 0
    ensures c < 100
  {
    CentsBelow(amount, p);
    Quotient((amount - Quotient(amount, p) * p) * 100, p)
  }

  lemma CentsBelow(amount: nat, p: nat)
    requires p > 0
    ensures Quotient((amount - Quotient(amount, p) * p) * 100, p) < 100
  {
    var rest := amount - Quotient(amount, p) * p;
    var c := Quotient(rest * 100, p);
    if c > 99 {
      LargerQuotient(c, 99, p, 0, p - 1);
    }
  }

  /** The two fraction digits printed are the hundredths, rounded down. */
  lemma HundredthsOf(frac: string)
    requires Digits(frac) && frac != []
    ensures Digits(TwoPlaces(frac)) && |TwoPlaces(frac)| == 2
    ensures Value(TwoPlaces(frac)) == Quotient(Value(frac) * 100, Pow10(|frac|))
  {
    if |frac| == 1 {
      ZerosValue(1);
      ValueAppend(frac, Repeat('0', 1));
      assert TwoPlaces(frac) == frac + Repeat('0', 1);
      assert Pow10(1) == 10 * Pow10(0) == 10;
      QuotientIs(Value(frac) * 100, 10, Value(frac) * 10, 0);
    } else {
      var two, rest := frac[..2], frac[2..];
      assert frac == two + rest;
      ValueAppend(two, rest);
      ValueBelow(rest);
      CutToTwo(Value(frac), Value(two), Value(rest), |frac|);
      assert TwoPlaces(frac) == two;
    }
  }

  lemma CutToTwo(whole: nat, two: nat, rest: nat, d: nat)
    requires d >= 2 && rest < Pow10(d - 2) && whole == two * Pow10(d - 2) + rest
    ensures Quotient(whole * 100, Pow10(d)) == two
  {
    var p := Pow10(d - 2);
    assert Pow10(d) == 10 * Pow10(d - 1) == 100 * p;
    assert two * (100 * p) == 100 * (two * p);
    QuotientIs(whole * 100, 100 * p, two, rest * 100);
  }

  /** With decimals: the grouped integer part of amount / 10^decimals, a point, and the next two decimals,
      rounded down. */
  lemma FormatIsArithmetic(amount: nat, decimals: nat)
    requires decimals > 0
    ensures var p := Pow10(decimals);
      FormatTokenAmount(amount, decimals) ==
        Grouped(Numeral(Quotient(amount, p))) + "." + TwoDigits(Cents(amount, p)) + " CVT"
  {
    var front, back := PaddedSplits(amount, decimals);
    PaddedFront(amount, decimals);
    ValueBelow(back);
    HundredthsOf(back);
    CentsAre(amount, Pow10(decimals), Value(front), Value(back));
    CommasGroup(front);
    CanonicalIsNumeral(front);
    TwoDigitsOfValue(TwoPlaces(back));
  }

  lemma CentsAre(amount: nat, p: nat, whole: nat, rest: nat)
    requires p > 0 && amount == whole * p + rest && rest < p
    ensures Quotient(amount, p) == whole && Cents(amount, p) == Quotient(rest * 100, p)
  {
    QuotientIs(amount, p, whole, rest);
  }

  /** Shifting the point by two places appends the two decimals to the whole part. */
  lemma HundredthsAdd(amount: nat, p: nat)
    requires p > 0
    ensures Quotient(amount * 100, p) == Quotient(amount, p) * 100 + Cents(amount, p)
  {
    var whole, c := Quotient(amount, p), Cents(amount, p);
    var rest := amount - whole * p;
    assert c * p <= rest * 100 < c * p + p;
    assert (whole * 100 + c) * p == whole * p * 100 + c * p;
    QuotientIs(amount * 100, p, whole * 100 + c, rest * 100 - c * p);
  }

  /** What a reader makes of a printed amount: the number before the point, times a hundred, plus the two
      digits after it. */
  ghost predicate Reads(text: string, hundredths: nat) {
    && |text| > 7 && text[|text| - 4..] == " CVT" && text[|text| - 7] == '.'
    && Digits(DropCommas(text[..|text| - 7])) && Digits(text[|text| - 6..|text| - 4])
    && Value(DropCommas(text[..|text| - 7])) * 100 + Value(text[|text| - 6..|text| - 4]) == hundredths
  }

  lemma TwoDigitsValue(n: nat)
    requires n < 100
    ensures Digits(TwoDigits(n)) && Value(TwoDigits(n)) == n
  {
    var s := TwoDigits(n);
    assert s[..1][..0] == [];
    assert Value(s[..1]) == n / 10;
  }

  lemma TextParts(grouped: string, two: string)
    requires |two| == 2
    ensures var text := grouped + "." + two + " CVT";
      && |text| == |grouped| + 7 && text[..|text| - 7] == grouped && text[|text| - 7] == '.'
      && text[|text| - 6..|text| - 4] == two && text[|text| - 4..] == " CVT"
  {
  }

  lemma PartsRead(grouped: string, whole: nat, cents: nat)
    requires cents < 100 && DropCommas(grouped) == Numeral(whole)
    ensures Reads(grouped + "." + TwoDigits(cents) + " CVT", whole * 100 + cents)
  {
    TextParts(grouped, TwoDigits(cents));
    NumeralValue(whole);
    TwoDigitsValue(cents);
    assert grouped != [];
  }

  /** The printed text reads as floor(amount * 100 / 10^decimals). */
  lemma FormatReadsBack(amount: nat, decimals: nat)
    requires decimals > 0
    ensures Reads(FormatTokenAmount(amount, decimals), Quotient(amount * 100, Pow10(decimals)))
  {
    var p := Pow10(decimals);
    var whole := Quotient(amount, p);
    FormatIsArithmetic(amount, decimals);
    GroupedKeepsDigits(Numeral(whole));
    PartsRead(Grouped(Numeral(whole)), whole, Cents(amount, p));
    HundredthsAdd(amount, p);
  }

  /** Without decimals: the grouped amount alone; dropping the commas gives the amount's digits. */
  lemma FormatWhole(amount: nat)
    ensures FormatTokenAmount(amount, 0) == Grouped(Numeral(amount))
    ensures DropCommas(FormatTokenAmount(amount, 0)) == Numeral(amount) && Value(Numeral(amount)) == amount
  {
    CommasGroup(Numeral(amount));
    GroupedKeepsDigits(Numeral(amount));
    NumeralValue(amount);
  }
}
