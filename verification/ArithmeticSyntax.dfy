/** Tokens and the grammar of arithmetic expressions, as `evaluateArithmetic` in `builtin-tools.ts` reads them. */
module ArithmeticSyntax {
  import opened Prelude

  /** A match of `\d+\.?\d*`, or one of the symbols `+ - * / ( )`. */
  datatype Token = Num(lexeme: string) | Sym(c: char)

  predicate IsDigit(c: char) {
    '0' <= c <= '9'
  }

  predicate IsSymbol(c: char) {
    c in {'+', '-', '*', '/', '(', ')'}
  }

  function DigitsLength(s: string): (n: nat)
    ensures n <= |s| && (forall i :: 0 <= i < n ==> IsDigit(s[i])) && (n < |s| ==> !IsDigit(s[n]))
  {
    if s != "" && IsDigit(s[0]) then 1 + DigitsLength(s[1..]) else 0
  }

  /** The length of the longest match of `\d+\.?\d*` at the start. */
  function NumberLength(s: string): (n: nat)
    ensures n <= |s| && (s != "" && IsDigit(s[0]) ==> n > 0)
  {
    var whole := DigitsLength(s);
    if 0 < whole < |s| && s[whole] == '.' then whole + 1 + DigitsLength(s[whole + 1..]) else whole
  }

  /** `expression.match(/\d+\.?\d*|[+\-*\/()]/g)`, skipping every character that matches neither. */
  function Tokenize(s: string): seq<Token> {
    if s == "" then []
    else if IsDigit(s[0]) then [Num(s[..NumberLength(s)])] + Tokenize(s[NumberLength(s)..])
    else if IsSymbol(s[0]) then [Sym(s[0])] + Tokenize(s[1..])
    else Tokenize(s[1..])
  }

  function Text(t: Token): string {
    match t
    case Num(lexeme) => lexeme
    case Sym(c) => [c]
  }

  /** `tokens.join('')` */
  function Join(tokens: seq<Token>): string {
    if tokens == [] then "" else Text(tokens[0]) + Join(tokens[1..])
  }

  /** `s.replace(/\s/g, '')` */
  function StripSpaces(s: string): string {
    if s == "" then "" else (if IsSpace(s[0]) then "" else [s[0]]) + StripSpaces(s[1..])
  }

  /** The characters no token covers. */
  function Skipped(s: string): string {
    if s == "" then ""
    else if IsDigit(s[0]) then Skipped(s[NumberLength(s)..])
    else if IsSymbol(s[0]) then Skipped(s[1..])
    else [s[0]] + Skipped(s[1..])
  }

  /** The source's test that the expression has no unsupported characters. */
  predicate Supported(s: string) {
    Tokenize(s) != [] && Join(Tokenize(s)) == StripSpaces(s)
  }

  lemma StripAppend(a: string, b: string)
    ensures StripSpaces(a + b) == StripSpaces(a) + StripSpaces(b)
  {
    if a == "" {
      assert a + b == b;
    } else {
      assert (a + b)[1..] == a[1..] + b;
      StripAppend(a[1..], b);
    }
  }

  lemma StripNothing(s: string)
    requires forall c :: c in s ==> !IsSpace(c)
    ensures StripSpaces(s) == s
  {
    if s == "" {
    } else {
      StripNothing(s[1..]);
    }
  }

  lemma NumberText(s: string)
    requires s != "" && IsDigit(s[0])
    ensures forall c :: c in s[..NumberLength(s)] ==> IsDigit(c) || c == '.'
  {
  }

  /** How the scan starts: the first token or skipped character, and the rest. */
  lemma ScanStep(s: string) returns (n: nat)
    requires s != ""
    ensures 0 < n <= |s|
    ensures StripSpaces(s) == StripSpaces(s[..n]) + StripSpaces(s[n..])
    ensures if IsDigit(s[0]) || IsSymbol(s[0])
            then StripSpaces(s[..n]) == s[..n] && Join(Tokenize(s)) == s[..n] + Join(Tokenize(s[n..])) && Skipped(s) == Skipped(s[n..])
            else Tokenize(s) == Tokenize(s[n..]) && Skipped(s) == s[..n] + Skipped(s[n..]) && n == 1
  {
    n := if IsDigit(s[0]) then NumberLength(s) else 1;
    assert s == s[..n] + s[n..];
    StripAppend(s[..n], s[n..]);
    if IsDigit(s[0]) || IsSymbol(s[0]) {
      if IsDigit(s[0]) { NumberText(s); }
      StripNothing(s[..n]);
      assert Tokenize(s)[1..] == Tokenize(s[n..]);
    }
  }

  lemma JoinCovers(s: string)
    ensures |Join(Tokenize(s))| + |Skipped(s)| == |s|
    ensures |s| - |StripSpaces(s)| == |Skipped(s)| - |StripSpaces(Skipped(s))|
    ensures StripSpaces(Skipped(s)) == "" ==> Join(Tokenize(s)) == StripSpaces(s)
    decreases |s|
  {
    if s == "" {
    } else {
      var n := ScanStep(s);
      JoinCovers(s[n..]);
      StripAppend(s[..n], Skipped(s[n..]));
    }
  }

  lemma StripToNothing(s: string)
    ensures StripSpaces(s) == "" <==> forall c :: c in s ==> IsSpace(c)
  {
    if s == "" {
    } else {
      StripToNothing(s[1..]);
    }
  }

  /** The test means what it says: some token, and nothing but white space outside the tokens. */
  lemma {:induction false} SupportedMeansOnlySpaces(s: string)
    ensures Supported(s) <==> Tokenize(s) != [] && forall c :: c in Skipped(s) ==> IsSpace(c)
  {
    JoinCovers(s);
    StripToNothing(Skipped(s));
  }

  function DigitValue(c: char): int {
    c as int - '0' as int
  }

  function Value10(digits: string): int {
    if digits == "" then 0 else 10 * Value10(digits[..|digits| - 1]) + DigitValue(digits[|digits| - 1])
  }

  function Power10(n: nat): (p: real)
    ensures p > 0.0
  {
    if n == 0 then 1.0 else 10.0 * Power10(n - 1)
  }

  predicate IsNumeral(s: string) {
    s != "" && IsDigit(s[0]) && NumberLength(s) == |s|
  }

  /** `Number(token)`, exactly. */
  function NumberValue(s: string): real {
    var whole := DigitsLength(s);
    if whole >= |s| - 1 then Value10(s[..whole]) as real
    else Value10(s[..whole]) as real + Value10(s[whole + 1..]) as real / Power10(|s| - whole - 1)
  }

  // The grammar.

  datatype AddOp = Plus | Minus
  datatype MulOp = Times | Over

  /** expression ::= term | expression + term | expression - term */
  datatype Expression = OneTerm(t: Term) | Add(e: Expression, op: AddOp, t: Term)

  /** term ::= factor | term * factor | term / factor */
  datatype Term = OneFactor(f: Factor) | Mul(t: Term, op: MulOp, f: Factor)

  /** factor ::= number | - factor | + factor | ( expression ) */
  datatype Factor = Number(lexeme: string) | Negated(f: Factor) | Signed(f: Factor) | Parens(e: Expression)

  function AddSymbol(op: AddOp): Token {
    match op case Plus => Sym('+') case Minus => Sym('-')
  }

  function MulSymbol(op: MulOp): Token {
    match op case Times => Sym('*') case Over => Sym('/')
  }

  function ExpressionTokens(e: Expression): (ts: seq<Token>)
    ensures ts != []
  {
    match e
    case OneTerm(t) => TermTokens(t)
    case Add(e, op, t) => ExpressionTokens(e) + [AddSymbol(op)] + TermTokens(t)
  }

  function TermTokens(t: Term): (ts: seq<Token>)
    ensures ts != []
  {
    match t
    case OneFactor(f) => FactorTokens(f)
    case Mul(t, op, f) => TermTokens(t) + [MulSymbol(op)] + FactorTokens(f)
  }

  function FactorTokens(f: Factor): (ts: seq<Token>)
    ensures ts != []
  {
    match f
    case Number(lexeme) => [Num(lexeme)]
    case Negated(f) => [Sym('-')] + FactorTokens(f)
    case Signed(f) => [Sym('+')] + FactorTokens(f)
    case Parens(e) => [Sym('(')] + ExpressionTokens(e) + [Sym(')')]
  }

  function Added(op: AddOp, a: real, b: real): real {
    match op case Plus => a + b case Minus => a - b
  }

  /** Nothing when the divisor is zero. */
  function Multiplied(op: MulOp, a: real, b: real): Option<real> {
    match op
    case Times => Some(a * b)
    case Over => if b == 0.0 then None else Some(a / b)
  }

  /** Left-associative value; nothing when a divisor is zero. */
  function ExpressionValue(e: Expression): Option<real> {
    match e
    case OneTerm(t) => TermValue(t)
    case Add(e, op, t) =>
      var a, b := ExpressionValue(e), TermValue(t);
      if a.None? || b.None? then None else Some(Added(op, a.value, b.value))
  }

  function TermValue(t: Term): Option<real> {
    match t
    case OneFactor(f) => FactorValue(f)
    case Mul(t, op, f) =>
      var a, b := TermValue(t), FactorValue(f);
      if a.None? || b.None? then None else Multiplied(op, a.value, b.value)
  }

  function FactorValue(f: Factor): Option<real> {
    match f
    case Number(lexeme) => Some(NumberValue(lexeme))
    case Negated(f) => (match FactorValue(f) case Some(v) => Some(-v) case None => None)
    case Signed(f) => FactorValue(f)
    case Parens(e) => ExpressionValue(e)
  }
}
