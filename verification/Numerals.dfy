/** Decimal numbers and how the tokens of `evaluateArithmetic` spell them (`builtin-tools.ts`). */
module Numerals {
  import opened Prelude
  import opened ArithmeticSyntax

  type Digit = d: nat | d < 10

  /** Digits before the point, and those behind it if there is a point. */
  datatype Decimal = Decimal(whole: seq<Digit>, fraction: Option<seq<Digit>>)

  function DigitChar(d: Digit): char {
    ('0' as int + d) as char
  }

  function Spell(ds: seq<Digit>): (s: string)
    ensures |s| == |ds| && forall i :: 0 <= i < |ds| ==> s[i] == DigitChar(ds[i])
  {
    seq(|ds|, i requires 0 <= i < |ds| => DigitChar(ds[i]))
  }

  function Spelling(d: Decimal): string {
    match d.fraction
    case None => Spell(d.whole)
    case Some(fraction) => Spell(d.whole) + ['.'] + Spell(fraction)
  }

  function Whole(ds: seq<Digit>): nat {
    if ds == [] then 0 else 10 * Whole(ds[..|ds| - 1]) + ds[|ds| - 1]
  }

  function Tens(n: nat): (p: nat)
    ensures p > 0
  {
    if n == 0 then 1 else 10 * Tens(n - 1)
  }

  /** All the digits as one whole number, and the point moved left. */
  function ValueOf(d: Decimal): real {
    match d.fraction
    case None => Whole(d.whole) as real
    case Some(fraction) => Whole(d.whole + fraction) as real / Tens(|fraction|) as real
  }

  /** The text is the spelling of a decimal. */
  ghost predicate Spells(s: string) {
    exists d: Decimal :: SpelledBy(s, d)
  }

  predicate SpelledBy(s: string, d: Decimal) {
    d.whole != [] && Spelling(d) == s
  }

  // Reading digits.

  lemma DigitsLengthIs(s: string, n: nat)
    requires n <= |s| && (forall i :: 0 <= i < n ==> IsDigit(s[i])) && (n < |s| ==> !IsDigit(s[n]))
    ensures DigitsLength(s) == n
  {
  }

  function DigitOf(c: char): Digit
    requires IsDigit(c)
  {
    c as int - '0' as int
  }

  function ReadDigits(s: string): (ds: seq<Digit>)
    requires forall c :: c in s ==> IsDigit(c)
    ensures Spell(ds) == s
  {
    seq(|s|, i requires 0 <= i < |s| => DigitOf(s[i]))
  }

  lemma SpellingLength(d: Decimal)
    requires d.whole != []
    ensures var s := Spelling(d); s != "" && IsDigit(s[0]) && DigitsLength(s) == |d.whole| && s[..|d.whole|] == Spell(d.whole)
    ensures var s := Spelling(d);
      d.fraction.Some? ==> |s| == |d.whole| + 1 + |d.fraction.value| && s[|d.whole|] == '.' && s[|d.whole| + 1..] == Spell(d.fraction.value)
  {
    DigitsLengthIs(Spelling(d), |d.whole|);
  }

  lemma SpellingIsNumeral(d: Decimal)
    requires d.whole != []
    ensures IsNumeral(Spelling(d))
  {
    SpellingLength(d);
    if d.fraction.Some? { DigitsLengthIs(Spell(d.fraction.value), |d.fraction.value|); }
  }

  lemma NumeralSpelled(s: string) returns (d: Decimal)
    requires IsNumeral(s)
    ensures SpelledBy(s, d)
  {
    var n := DigitsLength(s);
    if n == |s| {
      d := Decimal(ReadDigits(s), None);
    } else {
      d := Decimal(ReadDigits(s[..n]), Some(ReadDigits(s[n + 1..])));
      assert s == s[..n] + ['.'] + s[n + 1..];
    }
  }

  /** The numerals of the scan are exactly the spellings of decimals. */
  lemma {:induction false} NumeralsAreSpellings(s: string)
    ensures IsNumeral(s) <==> Spells(s)
  {
    if IsNumeral(s) {
      var d := NumeralSpelled(s);
    }
    if Spells(s) {
      var d :| SpelledBy(s, d);
      SpellingIsNumeral(d);
    }
  }

  // The value.

  lemma {:induction false} WholeRead(ds: seq<Digit>)
    ensures Value10(Spell(ds)) == Whole(ds)
  {
    if ds == [] {
    } else {
      var front := ds[..|ds| - 1];
      WholeRead(front);
      assert Spell(ds)[..|ds| - 1] == Spell(front);
    }
  }

  lemma {:induction false} TensRead(n: nat)
    ensures Power10(n) == Tens(n) as real
  {
    if n > 0 {
      TensRead(n - 1);
    }
  }

  lemma {:induction false} WholeJoin(a: seq<Digit>, b: seq<Digit>)
    ensures Whole(a + b) == Whole(a) * Tens(|b|) + Whole(b)
  {
    if b == [] {
      assert a + b == a;
    } else {
      var front := b[..|b| - 1];
      WholeJoin(a, front);
      assert (a + b)[..|a + b| - 1] == a + front;
      TensShift(Whole(a), Tens(|front|));
    }
  }

  lemma TensShift(x: nat, y: nat)
    ensures 10 * (x * y) == x * (10 * y)
  {
  }

  lemma PointMoved(a: nat, p: nat, b: nat)
    requires p > 0
    ensures (a * p + b) as real / p as real == a as real + b as real / p as real
  {
    assert (a * p + b) as real == a as real * p as real + b as real;
    Quotients(a as real, p as real, b as real);
  }

  lemma Quotients(a: real, p: real, b: real)
    requires p > 0.0
    ensures (a * p + b) / p == a + b / p
  {
    assert (a + b / p) * p == a * p + b;
  }

  /** A decimal is read back with its value. */
  lemma {:induction false} SpellingKeepsValue(d: Decimal)
    requires d.whole != []
    ensures NumberValue(Spelling(d)) == ValueOf(d)
  {
    SpellingLength(d);
    WholeRead(d.whole);
    match d.fraction {
      case None =>
      case Some(fraction) =>
        WholeRead(fraction);
        WholeJoin(d.whole, fraction);
        TensRead(|fraction|);
        if fraction != [] {
          PointMoved(Whole(d.whole), Tens(|fraction|), Whole(fraction));
        } else {
          assert d.whole + fraction == d.whole;
        }
    }
  }

  // The scan.

  /** The longest spelling of a decimal that the text starts with. */
  ghost predicate LongestSpelling(s: string, n: nat) {
    n <= |s| && Spells(s[..n]) && forall m :: n < m <= |s| ==> !Spells(s[..m])
  }

  lemma NumberIsNumeral(s: string)
    requires s != "" && IsDigit(s[0])
    ensures IsNumeral(s[..NumberLength(s)])
  {
    var whole, n := DigitsLength(s), NumberLength(s);
    DigitsLengthIs(s[..n], whole);
    if whole < n {
      assert s[..n][whole + 1..] == s[whole + 1..n] == s[whole + 1..][..n - whole - 1];
      DigitsLengthIs(s[whole + 1..n], n - whole - 1);
    }
  }

  lemma NoLonger(s: string, m: nat)
    requires s != "" && IsDigit(s[0]) && NumberLength(s) < m <= |s|
    ensures !IsNumeral(s[..m])
  {
    var whole, n := DigitsLength(s), NumberLength(s);
    DigitsLengthIs(s[..m], whole);
    if n > whole {
      assert s[..m][whole + 1..] == s[whole + 1..m] == s[whole + 1..][..m - whole - 1];
      DigitsLengthIs(s[whole + 1..m], n - whole - 1);
    }
  }

  lemma {:induction false} NumberIsLongest(s: string, n: nat)
    requires s != "" && IsDigit(s[0])
    ensures LongestSpelling(s, n) <==> n == NumberLength(s)
  {
    var longest := NumberLength(s);
    NumberIsNumeral(s);
    NumeralsAreSpellings(s[..longest]);
    forall m | longest < m <= |s|
      ensures !Spells(s[..m])
    {
      NoLonger(s, m);
      NumeralsAreSpellings(s[..m]);
    }
  }

  /** A number token is the longest spelling there is, and is scanned first. */
  lemma {:induction false} LongestNumberTaken(s: string, n: nat)
    requires LongestSpelling(s, n)
    ensures 0 < n && Tokenize(s) == [Num(s[..n])] + Tokenize(s[n..]) && Skipped(s) == Skipped(s[n..])
  {
    NumeralsAreSpellings(s[..n]);
    NumberIsLongest(s, n);
  }

  /** Where no number starts, a symbol is a token of its own, and any other character is passed over. */
  lemma {:induction false} OtherwiseOneCharacter(s: string)
    requires s != "" && forall m :: 0 <= m <= |s| ==> !Spells(s[..m])
    ensures s[0] in "+-*/()" ==> Tokenize(s) == [Sym(s[0])] + Tokenize(s[1..]) && Skipped(s) == Skipped(s[1..])
    ensures s[0] !in "+-*/()" ==> Tokenize(s) == Tokenize(s[1..]) && Skipped(s) == [s[0]] + Skipped(s[1..])
  {
    if IsDigit(s[0]) {
      NumberIsNumeral(s);
      NumeralsAreSpellings(s[..NumberLength(s)]);
      assert false;
    }
  }
}
