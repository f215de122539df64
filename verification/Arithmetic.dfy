/** The recursive-descent evaluator `evaluateArithmetic` (`builtin-tools.ts`), over exact numbers. */
module Arithmetic {
  import opened Prelude
  import opened ArithmeticSyntax

  datatype ParseError =
    | UnsupportedCharacters
    | UnexpectedEnd
    | DivisionByZero
    | UnbalancedParentheses
    | UnexpectedToken
    | TrailingInput

  datatype Evaluation = Value(v: real) | Failure(error: ParseError)

  /** A parse of a prefix: its value and the tokens after it. */
  datatype Parse = Done(v: real, rest: seq<Token>) | Fail(error: ParseError)

  // What each parser computes, on the tokens still to read.

  function ParseExpression(ts: seq<Token>): (p: Parse)
    ensures p.Done? ==> |p.rest| < |ts|
    decreases |ts|, 2
  {
    match ParseTerm(ts)
    case Fail(e) => Fail(e)
    case Done(v, rest) => MoreTerms(v, rest)
  }

  /** The `while` loop of `parseExpression`. */
  function MoreTerms(v: real, ts: seq<Token>): (p: Parse)
    ensures p.Done? ==> |p.rest| <= |ts|
    decreases |ts|, 2
  {
    if ts == [] || ts[0] !in {Sym('+'), Sym('-')} then Done(v, ts)
    else
      match ParseTerm(ts[1..])
      case Fail(e) => Fail(e)
      case Done(w, rest) => MoreTerms(Added(if ts[0] == Sym('+') then Plus else Minus, v, w), rest)
  }

  function ParseTerm(ts: seq<Token>): (p: Parse)
    ensures p.Done? ==> |p.rest| < |ts|
    decreases |ts|, 1
  {
    match ParseFactor(ts)
    case Fail(e) => Fail(e)
    case Done(v, rest) => MoreFactors(v, rest)
  }

  /** The `while` loop of `parseTerm`. */
  function MoreFactors(v: real, ts: seq<Token>): (p: Parse)
    ensures p.Done? ==> |p.rest| <= |ts|
    decreases |ts|, 1
  {
    if ts == [] || ts[0] !in {Sym('*'), Sym('/')} then Done(v, ts)
    else
      match ParseFactor(ts[1..])
      case Fail(e) => Fail(e)
      case Done(w, rest) => ContinueTerm(Multiplied(if ts[0] == Sym('*') then Times else Over, v, w), rest)
  }

  /** The loop goes on with a product or quotient, unless the divisor was zero. */
  function ContinueTerm(value: Option<real>, ts: seq<Token>): (p: Parse)
    ensures p.Done? ==> |p.rest| <= |ts|
    decreases |ts|, 2
  {
    match value
    case None => Fail(DivisionByZero)
    case Some(v) => MoreFactors(v, ts)
  }

  function ParseFactor(ts: seq<Token>): (p: Parse)
    ensures p.Done? ==> |p.rest| < |ts|
    decreases |ts|, 0
  {
    if ts == [] then Fail(UnexpectedEnd)
    else if ts[0] == Sym('-') then
      (match ParseFactor(ts[1..])
       case Fail(e) => Fail(e)
       case Done(v, rest) => Done(-v, rest))
    else if ts[0] == Sym('+') then ParseFactor(ts[1..])
    else if ts[0] == Sym('(') then
      (match ParseExpression(ts[1..])
       case Fail(e) => Fail(e)
       case Done(v, rest) =>
         if rest == [] then Fail(UnexpectedEnd)
         else if rest[0] != Sym(')') then Fail(UnbalancedParentheses)
         else Done(v, rest[1..]))
    else if ts[0].Num? then Done(NumberValue(ts[0].lexeme), ts[1..])
    else Fail(UnexpectedToken)
  }

  function EvaluateTokens(ts: seq<Token>): Evaluation {
    match ParseExpression(ts)
    case Fail(e) => Failure(e)
    case Done(v, rest) => if rest == [] then Value(v) else Failure(TrailingInput)
  }

  function Evaluated(s: string): Evaluation {
    if Supported(s) then EvaluateTokens(Tokenize(s)) else Failure(UnsupportedCharacters)
  }

  // The evaluator itself.

  datatype Step = Went(v: real) | Threw(error: ParseError)

  /** The closures of `evaluateArithmetic`, which share `tokens` and `position`. */
  class Parser {
    const tokens: seq<Token>
    var position: nat

    constructor (tokens: seq<Token>)
      ensures this.tokens == tokens && position == 0
    {
      this.tokens := tokens;
      position := 0;
    }

    /** The parser went through what `p` describes. */
    ghost predicate Did(r: Step, p: Parse)
      reads this
    {
      && position <= |tokens|
      && match p {
           case Done(v, rest) => r == Went(v) && rest == tokens[position..]
           case Fail(e) => r == Threw(e)
         }
    }

    method RunExpression() returns (r: Step)
      requires position <= |tokens|
      modifies this`position
      ensures Did(r, ParseExpression(old(tokens[position..])))
      decreases |tokens| - position, 2
    {
      ghost var whole := ParseExpression(tokens[position..]);
      r := RunTerm();
      if r.Threw? { return; }
      var value := r.v;
      while position < |tokens| && (tokens[position] == Sym('+') || tokens[position] == Sym('-'))
        invariant old(position) < position <= |tokens|
        invariant MoreTerms(value, tokens[position..]) == whole
        decreases |tokens| - position
      {
        var token := tokens[position];
        position := position + 1;
        r := RunTerm();
        if r.Threw? { return; }
        value := if token == Sym('+') then value + r.v else value - r.v;
      }
      return Went(value);
    }

    method RunTerm() returns (r: Step)
      requires position <= |tokens|
      modifies this`position
      ensures Did(r, ParseTerm(old(tokens[position..])))
      ensures r.Went? ==> old(position) < position
      decreases |tokens| - position, 1
    {
      ghost var whole := ParseTerm(tokens[position..]);
      r := RunFactor();
      if r.Threw? { return; }
      var value := r.v;
      while position < |tokens| && (tokens[position] == Sym('*') || tokens[position] == Sym('/'))
        invariant old(position) < position <= |tokens|
        invariant MoreFactors(value, tokens[position..]) == whole
        decreases |tokens| - position
      {
        var token := tokens[position];
        position := position + 1;
        r := RunFactor();
        if r.Threw? { return; }
        var scaled := Scale(token, value, r.v);
        if scaled.None? { return Threw(DivisionByZero); }
        value := scaled.value;
      }
      return Went(value);
    }

    method RunFactor() returns (r: Step)
      requires position <= |tokens|
      modifies this`position
      ensures Did(r, ParseFactor(old(tokens[position..])))
      ensures r.Went? ==> old(position) < position
      decreases |tokens| - position, 0
    {
      if position == |tokens| { return Threw(UnexpectedEnd); }
      var token := tokens[position];
      position := position + 1;
      if token == Sym('-') {
        r := RunFactor();
        if r.Went? { r := Went(-r.v); }
      } else if token == Sym('+') {
        r := RunFactor();
      } else if token == Sym('(') {
        r := RunExpression();
        if r.Threw? { return; }
        if position == |tokens| { return Threw(UnexpectedEnd); }
        position := position + 1;
        if tokens[position - 1] != Sym(')') { return Threw(UnbalancedParentheses); }
      } else if token.Num? {
        r := Went(NumberValue(token.lexeme));
      } else {
        r := Threw(UnexpectedToken);
      }
    }
  }

  /** The multiplication or division in the term loop; `None` when the divisor is zero. */
  method Scale(token: Token, value: real, factor: real) returns (r: Option<real>)
    ensures r == Multiplied(if token == Sym('*') then Times else Over, value, factor)
  {
    if token == Sym('*') { return Some(value * factor); }
    if factor == 0.0 { return None; }
    return Some(value / factor);
  }

  /** Always terminates, with the value or the first error met. */
  method EvaluateArithmetic(expression: string) returns (r: Evaluation)
    ensures r == Evaluated(expression)
  {
    if !Supported(expression) { return Failure(UnsupportedCharacters); }
    var parser := new Parser(Tokenize(expression));
    var step := parser.RunExpression();
    if step.Threw? { return Failure(step.error); }
    if parser.position != |parser.tokens| { return Failure(TrailingInput); }
    return Value(step.v);
  }

  // Soundness: a parse is a derivation.

  lemma ExpressionSound(ts: seq<Token>) returns (e: Expression)
    requires ParseExpression(ts).Done?
    ensures ts == ExpressionTokens(e) + ParseExpression(ts).rest && ExpressionValue(e) == Some(ParseExpression(ts).v)
    decreases |ts|, 2
  {
    var t := TermSound(ts);
    e := MoreTermsSound(OneTerm(t), ParseTerm(ts).v, ParseTerm(ts).rest);
  }

  lemma MoreTermsSound(e: Expression, v: real, ts: seq<Token>) returns (e': Expression)
    requires MoreTerms(v, ts).Done? && ExpressionValue(e) == Some(v)
    ensures ExpressionTokens(e) + ts == ExpressionTokens(e') + MoreTerms(v, ts).rest && ExpressionValue(e') == Some(MoreTerms(v, ts).v)
    decreases |ts|, 2
  {
    if ts == [] || ts[0] !in {Sym('+'), Sym('-')} {
      e' := e;
    } else {
      var op := if ts[0] == Sym('+') then Plus else Minus;
      var t := TermSound(ts[1..]);
      var p := ParseTerm(ts[1..]);
      e' := MoreTermsSound(Add(e, op, t), Added(op, v, p.v), p.rest);
      Regroup(ExpressionTokens(e), ts, TermTokens(t), p.rest);
    }
  }

  lemma Regroup(a: seq<Token>, ts: seq<Token>, b: seq<Token>, rest: seq<Token>)
    requires ts != [] && ts[1..] == b + rest
    ensures a + ts == a + [ts[0]] + b + rest
  {
    assert ts == [ts[0]] + ts[1..];
  }

  lemma TermSound(ts: seq<Token>) returns (t: Term)
    requires ParseTerm(ts).Done?
    ensures ts == TermTokens(t) + ParseTerm(ts).rest && TermValue(t) == Some(ParseTerm(ts).v)
    decreases |ts|, 1
  {
    var f := FactorSound(ts);
    t := MoreFactorsSound(OneFactor(f), ParseFactor(ts).v, ParseFactor(ts).rest);
  }

  lemma MoreFactorsSound(t: Term, v: real, ts: seq<Token>) returns (t': Term)
    requires MoreFactors(v, ts).Done? && TermValue(t) == Some(v)
    ensures TermTokens(t) + ts == TermTokens(t') + MoreFactors(v, ts).rest && TermValue(t') == Some(MoreFactors(v, ts).v)
    decreases |ts|, 1
  {
    if ts == [] || ts[0] !in {Sym('*'), Sym('/')} {
      t' := t;
    } else {
      var op := if ts[0] == Sym('*') then Times else Over;
      var f := FactorSound(ts[1..]);
      var p := ParseFactor(ts[1..]);
      t' := MoreFactorsSound(Mul(t, op, f), Multiplied(op, v, p.v).value, p.rest);
      Regroup(TermTokens(t), ts, FactorTokens(f), p.rest);
    }
  }

  lemma FactorSound(ts: seq<Token>) returns (f: Factor)
    requires ParseFactor(ts).Done?
    ensures ts == FactorTokens(f) + ParseFactor(ts).rest && FactorValue(f) == Some(ParseFactor(ts).v)
    decreases |ts|, 0
  {
    if ts[0] == Sym('-') {
      var inner := FactorSound(ts[1..]);
      f := Negated(inner);
    } else if ts[0] == Sym('+') {
      var inner := FactorSound(ts[1..]);
      f := Signed(inner);
    } else if ts[0] == Sym('(') {
      var e := ExpressionSound(ts[1..]);
      f := Parens(e);
    } else {
      f := Number(ts[0].lexeme);
    }
  }

  // Completeness: every derivation is followed, whatever comes after it.

  function Continue(value: Option<real>, ts: seq<Token>): Parse {
    match value
    case None => Fail(DivisionByZero)
    case Some(v) => MoreTerms(v, ts)
  }

  lemma {:induction false} ExpressionComplete(e: Expression, rest: seq<Token>)
    requires rest == [] || rest[0] !in {Sym('*'), Sym('/')}
    ensures ParseExpression(ExpressionTokens(e) + rest) == Continue(ExpressionValue(e), rest)
    decreases e
  {
    match e {
      case OneTerm(t) =>
        TermComplete(t, rest);
      case Add(e0, op, t) =>
        var next := [AddSymbol(op)] + (TermTokens(t) + rest);
        assert ExpressionTokens(e) + rest == ExpressionTokens(e0) + next;
        ExpressionComplete(e0, next);
        assert next[1..] == TermTokens(t) + rest;
        TermComplete(t, rest);
    }
  }

  lemma {:induction false} TermComplete(t: Term, rest: seq<Token>)
    ensures ParseTerm(TermTokens(t) + rest) == ContinueTerm(TermValue(t), rest)
    decreases t
  {
    match t {
      case OneFactor(f) =>
        FactorComplete(f, rest);
      case Mul(t0, op, f) =>
        var next := [MulSymbol(op)] + (FactorTokens(f) + rest);
        assert TermTokens(t) + rest == TermTokens(t0) + next;
        TermComplete(t0, next);
        assert next[1..] == FactorTokens(f) + rest;
        FactorComplete(f, rest);
    }
  }

  lemma {:induction false} FactorComplete(f: Factor, rest: seq<Token>)
    ensures ParseFactor(FactorTokens(f) + rest)
      == match FactorValue(f) { case None => Fail(DivisionByZero) case Some(v) => Done(v, rest) }
    decreases f
  {
    match f {
      case Number(lexeme) =>
      case Negated(f0) =>
        assert (FactorTokens(f) + rest)[1..] == FactorTokens(f0) + rest;
        FactorComplete(f0, rest);
      case Signed(f0) =>
        assert (FactorTokens(f) + rest)[1..] == FactorTokens(f0) + rest;
        FactorComplete(f0, rest);
      case Parens(e) =>
        var next := [Sym(')')] + rest;
        assert (FactorTokens(f) + rest)[1..] == ExpressionTokens(e) + next;
        ExpressionComplete(e, next);
        assert next[1..] == rest;
    }
  }

  /** The evaluator returns a value exactly when the tokens derive from the grammar with that value. */
  lemma {:induction false} EvaluatorMeetsGrammar(s: string, v: real)
    ensures Evaluated(s) == Value(v) <==>
      Supported(s) && exists e :: ExpressionTokens(e) == Tokenize(s) && ExpressionValue(e) == Some(v)
  {
    if Evaluated(s) == Value(v) {
      var e := ExpressionSound(Tokenize(s));
    }
    forall e | Supported(s) && ExpressionTokens(e) == Tokenize(s) && ExpressionValue(e) == Some(v)
      ensures Evaluated(s) == Value(v)
    {
      assert ExpressionTokens(e) + [] == Tokenize(s);
      ExpressionComplete(e, []);
    }
  }

  /** Derivable tokens are rejected only for a zero divisor, and then with that error. */
  lemma {:induction false} DerivableOrDivisionByZero(s: string, e: Expression)
    requires Supported(s) && ExpressionTokens(e) == Tokenize(s)
    ensures Evaluated(s) == match ExpressionValue(e) { case Some(v) => Value(v) case None => Failure(DivisionByZero) }
  {
    assert ExpressionTokens(e) + [] == Tokenize(s);
    ExpressionComplete(e, []);
  }

  /** The grammar gives no token sequence two values. */
  lemma {:induction false} GrammarUnambiguous(d: Expression, e: Expression)
    requires ExpressionTokens(d) == ExpressionTokens(e)
    ensures ExpressionValue(d) == ExpressionValue(e)
  {
    ExpressionComplete(d, []);
    ExpressionComplete(e, []);
  }
}
