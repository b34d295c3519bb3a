/** Precedence, associativity and division by zero, for any numerals. */
module Cases {
  import opened Tokens
  import opened Outcomes
  import opened Values
  import opened Grammar
  import opened Evaluator
  import opened GrammarProofs

  /** A numeral as a factor, as a term and as an expression. */
  lemma Operand(n: Numeral)
    ensures PrintF(Lit(n)) == [Number(n)]
    ensures PrintT(TFactor(Lit(n))) == [Number(n)]
    ensures PrintE(ETerm(TFactor(Lit(n)))) == [Number(n)]
    ensures EvalE(ETerm(TFactor(Lit(n)))) == EvalT(TFactor(Lit(n))) == Real(NumeralValue(n))
  {
    assert PrintT(TFactor(Lit(n))) == [Number(n)];
  }

  /** The parse tree of `a + b`. */
  lemma SumTree(a: Numeral, b: Numeral) returns (e: Expr)
    ensures PrintE(e) == [Number(a), Plus, Number(b)]
    ensures EvalE(e) == Real(NumeralValue(a) + NumeralValue(b))
  {
    hide ExprAt, ExprTail, TermAt, TermTail, FactorAt, EvaluateTokens, NumeralValue;
    Operand(a); Operand(b);
    e := EBin(ETerm(TFactor(Lit(a))), Add, TFactor(Lit(b)));
    assert PrintE(e) == [Number(a)] + [Plus] + [Number(b)];
  }

  /** `+` adds its operands' values. */
  lemma SumOfTwo(a: Numeral, b: Numeral)
    ensures EvaluateTokens([Number(a), Plus, Number(b)]) == Ok(Real(NumeralValue(a) + NumeralValue(b)))
  {
    hide ExprAt, ExprTail, TermAt, TermTail, FactorAt, EvaluateTokens, NumeralValue;
    var e := SumTree(a, b);
    Completeness(e);
  }

  /** The parse tree of `a + b * c`. */
  lemma SumProductTree(a: Numeral, b: Numeral, c: Numeral) returns (e: Expr)
    ensures PrintE(e) == [Number(a), Plus, Number(b), Times, Number(c)]
    ensures EvalE(e) == Sum(Real(NumeralValue(a)), Product(Real(NumeralValue(b)), Real(NumeralValue(c))))
  {
    hide ExprAt, ExprTail, TermAt, TermTail, FactorAt, EvaluateTokens, NumeralValue;
    Operand(a); Operand(b); Operand(c);
    var bc := TBin(TFactor(Lit(b)), Mul, Lit(c));
    assert PrintT(bc) == [Number(b)] + [Times] + [Number(c)];
    e := EBin(ETerm(TFactor(Lit(a))), Add, bc);
    assert PrintE(e) == [Number(a)] + [Plus] + PrintT(bc);
  }

  /** `*` binds tighter than `+`: a + b * c is a + (b * c). */
  lemma ProductBindsTighter(a: Numeral, b: Numeral, c: Numeral)
    ensures EvaluateTokens([Number(a), Plus, Number(b), Times, Number(c)])
         == Ok(Real(NumeralValue(a) + NumeralValue(b) * NumeralValue(c)))
  {
    hide ExprAt, ExprTail, TermAt, TermTail, FactorAt, EvaluateTokens, NumeralValue, Sum, Product;
    var e := SumProductTree(a, b, c);
    Completeness(e);
    SumOfProduct(NumeralValue(a), NumeralValue(b), NumeralValue(c));
  }

  lemma SumOfProduct(x: real, y: real, z: real)
    ensures Sum(Real(x), Product(Real(y), Real(z))) == Real(x + y * z)
  {
    assert Product(Real(y), Real(z)) == Real(y * z);
  }

  /** Parentheses override precedence: (a + b) * c. */
  lemma ParenthesesFirst(a: Numeral, b: Numeral, c: Numeral)
    ensures EvaluateTokens([LParen, Number(a), Plus, Number(b), RParen, Times, Number(c)])
         == Ok(Real((NumeralValue(a) + NumeralValue(b)) * NumeralValue(c)))
  {
    hide ExprAt, ExprTail, TermAt, TermTail, FactorAt, EvaluateTokens, NumeralValue;
    var e := GroupedSumTimes(a, b, c);
    Completeness(e);
    ProductOfSum(NumeralValue(a), NumeralValue(b), NumeralValue(c));
  }

  lemma ProductOfSum(x: real, y: real, z: real)
    ensures Product(Sum(Real(x), Real(y)), Real(z)) == Real((x + y) * z)
  {
    assert Sum(Real(x), Real(y)) == Real(x + y);
  }

  /** The parse tree of `( a + b ) * c`. */
  lemma GroupedSumTimes(a: Numeral, b: Numeral, c: Numeral) returns (e: Expr)
    ensures PrintE(e) == [LParen, Number(a), Plus, Number(b), RParen, Times, Number(c)]
    ensures EvalE(e) == Product(Sum(Real(NumeralValue(a)), Real(NumeralValue(b))), Real(NumeralValue(c)))
  {
    hide ExprAt, ExprTail, TermAt, TermTail, FactorAt, EvaluateTokens, NumeralValue;
    Operand(a); Operand(b); Operand(c);
    var sum := EBin(ETerm(TFactor(Lit(a))), Add, TFactor(Lit(b)));
    assert PrintE(sum) == [Number(a)] + [Plus] + [Number(b)];
    var group := Group(sum);
    assert PrintF(group) == [LParen] + PrintE(sum) + [RParen];
    assert PrintT(TFactor(group)) == PrintF(group);
    e := ETerm(TBin(TFactor(group), Mul, Lit(c)));
    assert PrintT(e.term) == PrintF(group) + [Times] + [Number(c)];
    assert EvalT(TFactor(group)) == EvalE(sum);
    assert EvalE(e) == Product(Sum(Real(NumeralValue(a)), Real(NumeralValue(b))), Real(NumeralValue(c)));
  }

  /** `-` folds to the left: a - b - c is (a - b) - c. */
  lemma DifferenceFoldsLeft(a: Numeral, b: Numeral, c: Numeral)
    ensures EvaluateTokens([Number(a), Minus, Number(b), Minus, Number(c)])
         == Ok(Real((NumeralValue(a) - NumeralValue(b)) - NumeralValue(c)))
  {
    hide ExprAt, ExprTail, TermAt, TermTail, FactorAt, EvaluateTokens, NumeralValue;
    Operand(a); Operand(b); Operand(c);
    var ab := EBin(ETerm(TFactor(Lit(a))), Sub, TFactor(Lit(b)));
    assert PrintE(ab) == [Number(a)] + [Minus] + [Number(b)];
    var e := EBin(ab, Sub, TFactor(Lit(c)));
    assert PrintE(e) == PrintE(ab) + [Minus] + [Number(c)];
    assert EvalE(ab) == Difference(Real(NumeralValue(a)), Real(NumeralValue(b)));
    assert EvalE(e) == Difference(EvalE(ab), Real(NumeralValue(c)));
    assert PrintE(e) == [Number(a), Minus, Number(b), Minus, Number(c)];
    Completeness(e);
  }

  /** `/` folds to the left: a / b / c is (a / b) / c, a real quotient when
      neither divisor is zero. */
  lemma QuotientFoldsLeft(a: Numeral, b: Numeral, c: Numeral)
    ensures EvaluateTokens([Number(a), Divide, Number(b), Divide, Number(c)])
         == Ok(Quotient(Quotient(Real(NumeralValue(a)), Real(NumeralValue(b))), Real(NumeralValue(c))))
    ensures NumeralValue(b) != 0.0 && NumeralValue(c) != 0.0 ==>
         EvaluateTokens([Number(a), Divide, Number(b), Divide, Number(c)])
         == Ok(Real((NumeralValue(a) / NumeralValue(b)) / NumeralValue(c)))
  {
    hide ExprAt, ExprTail, TermAt, TermTail, FactorAt, EvaluateTokens, NumeralValue;
    Operand(a); Operand(b); Operand(c);
    var ab := TBin(TFactor(Lit(a)), Div, Lit(b));
    assert PrintT(ab) == [Number(a)] + [Divide] + [Number(b)];
    var abc := TBin(ab, Div, Lit(c));
    assert PrintT(abc) == PrintT(ab) + [Divide] + [Number(c)];
    assert EvalT(ab) == Quotient(Real(NumeralValue(a)), Real(NumeralValue(b)));
    assert EvalE(ETerm(abc)) == EvalT(abc) == Quotient(EvalT(ab), Real(NumeralValue(c)));
    assert PrintE(ETerm(abc)) == [Number(a), Divide, Number(b), Divide, Number(c)];
    Completeness(ETerm(abc));
  }

  /** Division by zero is not a failure: it yields a non-finite value. */
  lemma DivisionByZero(a: Numeral, z: Numeral)
    requires NumeralValue(z) == 0.0
    ensures EvaluateTokens([Number(a), Divide, Number(z)]) == Ok(NonFinite)
  {
    hide ExprAt, ExprTail, TermAt, TermTail, FactorAt, EvaluateTokens, NumeralValue;
    Operand(a); Operand(z);
    var t := TBin(TFactor(Lit(a)), Div, Lit(z));
    assert PrintT(t) == [Number(a)] + [Divide] + [Number(z)];
    assert EvalE(ETerm(t)) == EvalT(t) == Quotient(Real(NumeralValue(a)), Real(NumeralValue(z)));
    assert PrintE(ETerm(t)) == [Number(a), Divide, Number(z)];
    Completeness(ETerm(t));
  }
}
