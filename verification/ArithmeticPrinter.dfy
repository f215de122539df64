/** Printing expression trees with as few parentheses as the grammar needs, and reading them back. */
module ArithmeticPrinter {
  import opened Prelude
  import opened ArithmeticSyntax
  import opened Arithmetic
  import opened Numerals

  datatype BinaryOp = Additive(a: AddOp) | Multiplicative(m: MulOp)

  datatype Tree = Literal(d: Decimal) | Minus1(t: Tree) | Binary(l: Tree, op: BinaryOp, r: Tree)

  ghost predicate WellFormed(t: Tree) {
    match t
    case Literal(d) => d.whole != []
    case Minus1(t) => WellFormed(t)
    case Binary(l, _, r) => WellFormed(l) && WellFormed(r)
  }

  function Sum(o: AddOp, a: real, b: real): real {
    if o.Plus? then a + b else a - b
  }

  function Product(o: MulOp, a: real, b: real): Option<real> {
    if o.Times? then Some(a * b) else if b == 0.0 then None else Some(a / b)
  }

  function Calculate(op: BinaryOp, a: Option<real>, b: Option<real>): Option<real> {
    if a.None? || b.None? then None
    else match op
      case Additive(o) => Some(Sum(o, a.value, b.value))
      case Multiplicative(o) => Product(o, a.value, b.value)
  }

  /** The value of a tree, if no divisor in it is zero. */
  function TreeValue(t: Tree): Option<real> {
    match t
    case Literal(d) => Some(ValueOf(d))
    case Minus1(t) => (match TreeValue(t) case Some(v) => Some(-v) case None => None)
    case Binary(l, op, r) => Calculate(op, TreeValue(l), TreeValue(r))
  }

  function AsExpression(t: Tree): Expression
    decreases t, 2
  {
    if t.Binary? && t.op.Additive? then Add(AsExpression(t.l), t.op.a, AsTerm(t.r)) else OneTerm(AsTerm(t))
  }

  function AsTerm(t: Tree): Term
    decreases t, 1
  {
    if t.Binary? && t.op.Multiplicative? then Mul(AsTerm(t.l), t.op.m, AsFactor(t.r)) else OneFactor(AsFactor(t))
  }

  /** Parenthesizes binary operations. */
  function AsFactor(t: Tree): Factor
    decreases t, 0
  {
    match t
    case Literal(d) => Number(Spelling(d))
    case Minus1(t) => Negated(AsFactor(t))
    case Binary(l, Additive(o), r) => Parens(Add(AsExpression(l), o, AsTerm(r)))
    case Binary(l, Multiplicative(o), r) => Parens(OneTerm(Mul(AsTerm(l), o, AsFactor(r))))
  }

  /** What the printed forms of a tree are worth. */
  ghost predicate Keeps(t: Tree, v: Option<real>) {
    ExpressionValue(AsExpression(t)) == v && TermValue(AsTerm(t)) == v && FactorValue(AsFactor(t)) == v
  }

  lemma FactorKeeps(t: Tree, v: Option<real>)
    requires !t.Binary? && FactorValue(AsFactor(t)) == v
    ensures Keeps(t, v)
  {
    assert AsTerm(t) == OneFactor(AsFactor(t)) && AsExpression(t) == OneTerm(AsTerm(t));
  }

  lemma AddValue(e: Expression, o: AddOp, t: Term)
    ensures ExpressionValue(Add(e, o, t)) == Calculate(Additive(o), ExpressionValue(e), TermValue(t))
  {
  }

  lemma MulValue(t: Term, o: MulOp, f: Factor)
    ensures TermValue(Mul(t, o, f)) == Calculate(Multiplicative(o), TermValue(t), FactorValue(f))
  {
  }

  lemma SumForms(t: Tree, o: AddOp)
    requires t.Binary? && t.op == Additive(o)
    ensures AsExpression(t) == Add(AsExpression(t.l), o, AsTerm(t.r))
    ensures AsTerm(t) == OneFactor(AsFactor(t)) && AsFactor(t) == Parens(AsExpression(t))
  {
  }

  lemma ProductForms(t: Tree, o: MulOp)
    requires t.Binary? && t.op == Multiplicative(o)
    ensures AsTerm(t) == Mul(AsTerm(t.l), o, AsFactor(t.r))
    ensures AsExpression(t) == OneTerm(AsTerm(t)) && AsFactor(t) == Parens(OneTerm(AsTerm(t)))
  {
  }

  lemma ParensValue(e: Expression)
    ensures FactorValue(Parens(e)) == ExpressionValue(e) && TermValue(OneFactor(Parens(e))) == ExpressionValue(e)
  {
    assert FactorValue(Parens(e)) == ExpressionValue(e);
  }

  lemma SumKeeps(t: Tree, o: AddOp, a: Option<real>, b: Option<real>)
    requires t.Binary? && t.op == Additive(o) && Keeps(t.l, a) && Keeps(t.r, b)
    ensures Keeps(t, Calculate(t.op, a, b))
  {
    SumForms(t, o);
    AddValue(AsExpression(t.l), o, AsTerm(t.r));
    ParensValue(AsExpression(t));
  }

  lemma ProductKeeps(t: Tree, o: MulOp, a: Option<real>, b: Option<real>)
    requires t.Binary? && t.op == Multiplicative(o) && Keeps(t.l, a) && Keeps(t.r, b)
    ensures Keeps(t, Calculate(t.op, a, b))
  {
    ProductForms(t, o);
    MulValue(AsTerm(t.l), o, AsFactor(t.r));
    ParensValue(AsExpression(t));
  }

  lemma {:induction false} PrintingKeepsValue(t: Tree)
    requires WellFormed(t)
    ensures Keeps(t, TreeValue(t))
  {
    match t {
      case Literal(d) =>
        SpellingKeepsValue(d);
        FactorKeeps(t, TreeValue(t));
      case Minus1(s) =>
        PrintingKeepsValue(s);
        FactorKeeps(t, TreeValue(t));
      case Binary(l, Additive(o), r) =>
        PrintingKeepsValue(l);
        PrintingKeepsValue(r);
        SumKeeps(t, o, TreeValue(l), TreeValue(r));
      case Binary(l, Multiplicative(o), r) =>
        PrintingKeepsValue(l);
        PrintingKeepsValue(r);
        ProductKeeps(t, o, TreeValue(l), TreeValue(r));
    }
  }

  /** The tokens with `gaps[i]` before token `i` and the last gap at the end. */
  function Render(ts: seq<Token>, gaps: seq<string>): string
    requires |gaps| == |ts| + 1
  {
    if ts == [] then gaps[0] else gaps[0] + (Text(ts[0]) + Render(ts[1..], gaps[1..]))
  }

  ghost predicate TokensWellFormed(ts: seq<Token>) {
    forall i :: 0 <= i < |ts| ==>
      match ts[i] { case Num(lexeme) => IsNumeral(lexeme) case Sym(c) => IsSymbol(c) }
  }

  /** No number directly follows a number. */
  ghost predicate Apart(ts: seq<Token>) {
    forall i :: 0 <= i < |ts| - 1 ==> ts[i].Sym? || ts[i + 1].Sym?
  }

  lemma JoinApart(a: seq<Token>, c: char, b: seq<Token>)
    requires Apart(a) && Apart(b) && TokensWellFormed(a) && TokensWellFormed(b) && IsSymbol(c)
    ensures Apart(a + [Sym(c)] + b) && TokensWellFormed(a + [Sym(c)] + b)
  {
  }

  lemma {:induction false} PrintedApart(t: Tree)
    requires WellFormed(t)
    ensures var ts := ExpressionTokens(AsExpression(t)); Apart(ts) && TokensWellFormed(ts)
    ensures var ts := TermTokens(AsTerm(t)); Apart(ts) && TokensWellFormed(ts)
    ensures var ts := FactorTokens(AsFactor(t)); Apart(ts) && TokensWellFormed(ts)
  {
    match t {
      case Literal(d) => SpellingIsNumeral(d);
      case Minus1(s) =>
        PrintedApart(s);
        JoinApart([], '-', FactorTokens(AsFactor(s)));
        assert [] + [Sym('-')] + FactorTokens(AsFactor(s)) == FactorTokens(AsFactor(t));
      case Binary(l, Additive(o), r) =>
        PrintedApart(l);
        PrintedApart(r);
        JoinApart(ExpressionTokens(AsExpression(l)), AddSymbol(o).c, TermTokens(AsTerm(r)));
        ParensApart(ExpressionTokens(AsExpression(t)));
      case Binary(l, Multiplicative(o), r) =>
        PrintedApart(l);
        PrintedApart(r);
        JoinApart(TermTokens(AsTerm(l)), MulSymbol(o).c, FactorTokens(AsFactor(r)));
        ParensApart(TermTokens(AsTerm(t)));
    }
  }

  lemma ParensApart(ts: seq<Token>)
    requires Apart(ts) && TokensWellFormed(ts)
    ensures Apart([Sym('(')] + ts + [Sym(')')]) && TokensWellFormed([Sym('(')] + ts + [Sym(')')])
  {
    JoinApart([], '(', ts);
    assert [] + [Sym('(')] + ts == [Sym('(')] + ts;
    JoinApart([Sym('(')] + ts, ')', []);
    assert [Sym('(')] + ts + [Sym(')')] + [] == [Sym('(')] + ts + [Sym(')')];
  }

  lemma TailApart(a: string, b: string, k: nat)
    requires k <= |a|
    ensures (a + b)[k..] == a[k..] + b
  {
  }

  lemma DigitsStop(a: string, b: string)
    requires b == "" || !IsDigit(b[0])
    ensures DigitsLength(a + b) == DigitsLength(a)
  {
    if a == "" {
      assert a + b == b;
    } else if IsDigit(a[0]) {
      TailApart(a, b, 1);
      DigitsStop(a[1..], b);
    }
  }

  /** A numeral is read back whole when neither a digit nor a point follows. */
  lemma NumeralStops(a: string, b: string)
    requires IsNumeral(a) && (b == "" || (!IsDigit(b[0]) && b[0] != '.'))
    ensures NumberLength(a + b) == |a|
  {
    DigitsStop(a, b);
    var whole := DigitsLength(a);
    if whole < |a| {
      TailApart(a, b, whole + 1);
      DigitsStop(a[whole + 1..], b);
    }
  }

  lemma SpaceSkipped(c: char, s: string)
    requires IsSpace(c)
    ensures Tokenize([c] + s) == Tokenize(s) && Skipped([c] + s) == [c] + Skipped(s)
  {
    assert ([c] + s)[1..] == s;
  }

  lemma HeadApart(a: string, b: string)
    requires a != ""
    ensures a + b == [a[0]] + (a[1..] + b)
  {
  }

  lemma GapSkipped(gap: string, s: string)
    requires Blank(gap)
    ensures Tokenize(gap + s) == Tokenize(s) && Skipped(gap + s) == gap + Skipped(s)
  {
    if gap == "" {
      assert gap + s == s;
      assert gap + Skipped(s) == Skipped(s);
    } else {
      assert gap[0] in gap;
      var rest := gap[1..];
      GapSkipped(rest, s);
      SpaceSkipped(gap[0], rest + s);
      HeadApart(gap, s);
      HeadApart(gap, Skipped(s));
    }
  }

  /** One token is read back, if what follows cannot belong to it. */
  lemma TokenRead(t: Token, rest: string)
    requires match t { case Num(lexeme) => IsNumeral(lexeme) case Sym(c) => IsSymbol(c) }
    requires t.Num? ==> rest == "" || (!IsDigit(rest[0]) && rest[0] != '.')
    ensures Tokenize(Text(t) + rest) == [t] + Tokenize(rest) && Skipped(Text(t) + rest) == Skipped(rest)
  {
    if t.Num? {
      NumeralStops(t.lexeme, rest);
    }
    TextApart(t, rest);
  }

  lemma TextApart(t: Token, rest: string)
    requires Text(t) != ""
    ensures (Text(t) + rest)[0] == Text(t)[0] && (Text(t) + rest)[|Text(t)|..] == rest && (Text(t) + rest)[..|Text(t)|] == Text(t)
  {
  }

  /** Tokens separated by white space are read back as they were. */
  lemma {:induction false} TokenizeRendered(ts: seq<Token>, gaps: seq<string>)
    requires |gaps| == |ts| + 1 && forall g :: g in gaps ==> Blank(g)
    requires Apart(ts) && TokensWellFormed(ts)
    ensures Tokenize(Render(ts, gaps)) == ts
    ensures Blank(Skipped(Render(ts, gaps)))
    ensures Render(ts, gaps) != "" ==> IsSpace(Render(ts, gaps)[0]) || (ts != [] && Render(ts, gaps)[0] == Text(ts[0])[0])
  {
    if ts == [] {
      GapSkipped(gaps[0], "");
      assert gaps[0] + "" == gaps[0];
    } else {
      var rest := Render(ts[1..], gaps[1..]);
      TokenizeRendered(ts[1..], gaps[1..]);
      assert ts[0].Num? && |ts| > 1 ==> ts[1].Sym?;
      TokenRead(ts[0], rest);
      GapSkipped(gaps[0], Text(ts[0]) + rest);
    }
  }

  /** Evaluating any printed tree, with any white space between its tokens, gives the tree's value. */
  lemma {:induction false} EvaluatePrinted(t: Tree, gaps: seq<string>)
    requires WellFormed(t) && |gaps| == |ExpressionTokens(AsExpression(t))| + 1 && forall g :: g in gaps ==> Blank(g)
    ensures Evaluated(Render(ExpressionTokens(AsExpression(t)), gaps))
      == match TreeValue(t) { case Some(v) => Value(v) case None => Failure(DivisionByZero) }
  {
    var ts := ExpressionTokens(AsExpression(t));
    PrintedApart(t);
    PrintingKeepsValue(t);
    TokenizeRendered(ts, gaps);
    SupportedMeansOnlySpaces(Render(ts, gaps));
    DerivableOrDivisionByZero(Render(ts, gaps), AsExpression(t));
  }
}
