/** The parser-evaluator against the grammar of api/parse.js:39-44.

    Completeness: every token list a parse tree derives is accepted, with the
    value of that tree. Soundness: every accepted token list is derived by a
    parse tree whose value is the result. So `evaluateExpression` succeeds on a
    token list exactly when the grammar derives it, and its result is the
    left-associative value. */
module GrammarProofs {
  import opened Tokens
  import opened Outcomes
  import opened Values
  import opened Grammar
  import opened Evaluator
  import Lexer

  /** `w` occurs in `toks` starting at `pos`. */
  predicate Occurs(toks: seq<Token>, pos: nat, w: seq<Token>) {
    pos + |w| <= |toks| && toks[pos..pos + |w|] == w
  }

  /** The token at `i`, if any, is not one that continues an expression. */
  predicate EndsExpr(toks: seq<Token>, i: nat) {
    EndsTerm(toks, i) && EndsSum(toks, i)
  }

  function SizeE(e: Expr): nat {
    match e
    case ETerm(t) => 1 + SizeT(t)
    case EBin(l, _, r) => 1 + SizeE(l) + SizeT(r)
  }

  function SizeT(t: Term): nat {
    match t
    case TFactor(f) => 1 + SizeF(f)
    case TBin(l, _, r) => 1 + SizeT(l) + SizeF(r)
  }

  function SizeF(f: Factor): nat {
    match f
    case Lit(_) => 1
    case Group(e) => 1 + SizeE(e)
  }

  // ----- Completeness -----

  /** An occurrence of `a + b` is an occurrence of `a` followed by one of `b`. */
  lemma OccursSplit(toks: seq<Token>, pos: nat, a: seq<Token>, b: seq<Token>)
    requires Occurs(toks, pos, a + b)
    ensures Occurs(toks, pos, a) && Occurs(toks, pos + |a|, b)
  {
    assert toks[pos..pos + |a|] == (a + b)[..|a|];
    assert toks[pos + |a|..pos + |a| + |b|] == (a + b)[|a|..];
  }

  /** An occurrence of `[t] + w` is `t` followed by an occurrence of `w`. */
  lemma OccursHead(toks: seq<Token>, pos: nat, t: Token, w: seq<Token>)
    requires Occurs(toks, pos, [t] + w)
    ensures pos < |toks| && toks[pos] == t && Occurs(toks, pos + 1, w)
  {
    OccursSplit(toks, pos, [t], w);
    assert toks[pos] == toks[pos..pos + 1][0];
  }

  /** A factor's tokens parse as that factor, whatever follows them. */
  lemma {:induction false} FactorComplete(f: Factor, toks: seq<Token>, pos: nat)
    requires Occurs(toks, pos, PrintF(f))
    ensures FactorAt(toks, pos) == Ok((EvalF(f), pos + |PrintF(f)|))
    decreases SizeF(f), 0
  {
    hide ExprAt, TermAt, TermTail, ExprTail, NumeralValue;
    match f
    case Lit(n) =>
      assert toks[pos] == toks[pos..pos + 1][0];
    case Group(e) =>
      OccursSplit(toks, pos, [LParen] + PrintE(e), [RParen]);
      OccursSplit(toks, pos, [LParen], PrintE(e));
      var end := pos + 1 + |PrintE(e)|;
      assert toks[pos] == toks[pos..pos + 1][0];
      assert toks[end] == toks[end..end + 1][0];
      ExprComplete(e, toks, pos + 1);
  }

  /** One turn of the term loop: `op` and a factor's tokens. */
  lemma TermTailStep(toks: seq<Token>, mid: nat, acc: Value, op: MulOp, f: Factor)
    requires Occurs(toks, mid, [MulToken(op)] + PrintF(f))
    ensures TermTail(toks, mid, acc) == TermTail(toks, mid + 1 + |PrintF(f)|, MulValue(op, acc, EvalF(f)))
    decreases SizeF(f), 1
  {
    hide FactorAt, ExprAt, TermAt, ExprTail, PrintF, EvalF;
    OccursHead(toks, mid, MulToken(op), PrintF(f));
    FactorComplete(f, toks, mid + 1);
  }

  /** One turn of the expression loop: `op` and a term's tokens, followed by
      no `*` or `/`. */
  lemma ExprTailStep(toks: seq<Token>, mid: nat, acc: Value, op: AddOp, t: Term)
    requires Occurs(toks, mid, [AddToken(op)] + PrintT(t))
    requires EndsTerm(toks, mid + 1 + |PrintT(t)|)
    ensures ExprTail(toks, mid, acc) == ExprTail(toks, mid + 1 + |PrintT(t)|, AddValue(op, acc, EvalT(t)))
    decreases SizeT(t), 3
  {
    hide FactorAt, ExprAt, TermAt, TermTail, PrintT, EvalT;
    OccursHead(toks, mid, AddToken(op), PrintT(t));
    TermComplete(t, toks, mid + 1);
  }

  /** A term's tokens, parsed as a term, leave the term loop at their end
      holding the term's value. */
  lemma {:induction false} TermPrefix(t: Term, toks: seq<Token>, pos: nat)
    requires Occurs(toks, pos, PrintT(t))
    ensures TermAt(toks, pos) == TermTail(toks, pos + |PrintT(t)|, EvalT(t))
    decreases SizeT(t), 1
  {
    hide FactorAt, ExprAt, ExprTail, TermTail;
    match t
    case TFactor(f) =>
      FactorComplete(f, toks, pos);
      assert FactorAt(toks, pos) == Ok((EvalT(t), pos + |PrintT(t)|));
    case TBin(l, op, r) =>
      assert PrintT(t) == PrintT(l) + ([MulToken(op)] + PrintF(r));
      OccursSplit(toks, pos, PrintT(l), [MulToken(op)] + PrintF(r));
      TermPrefixBin(l, op, r, toks, pos);
  }

  lemma {:induction false} TermPrefixBin(l: Term, op: MulOp, r: Factor, toks: seq<Token>, pos: nat)
    requires Occurs(toks, pos, PrintT(l))
    requires Occurs(toks, pos + |PrintT(l)|, [MulToken(op)] + PrintF(r))
    ensures TermAt(toks, pos) == TermTail(toks, pos + |PrintT(l)| + 1 + |PrintF(r)|, MulValue(op, EvalT(l), EvalF(r)))
    decreases SizeT(l) + SizeF(r) + 1, 0
  {
    hide *;
    TermPrefix(l, toks, pos);
    TermTailStep(toks, pos + |PrintT(l)|, EvalT(l), op, r);
  }

  /** A term's tokens followed by no `*` or `/` parse as that term. */
  lemma {:induction false} TermComplete(t: Term, toks: seq<Token>, pos: nat)
    requires Occurs(toks, pos, PrintT(t))
    requires EndsTerm(toks, pos + |PrintT(t)|)
    ensures TermAt(toks, pos) == Ok((EvalT(t), pos + |PrintT(t)|))
    decreases SizeT(t), 2
  {
    TermPrefix(t, toks, pos);
  }

  /** An expression's tokens followed by no `*` or `/`, parsed as an
      expression, leave the expression loop at their end holding its value. */
  lemma {:induction false} ExprPrefix(e: Expr, toks: seq<Token>, pos: nat)
    requires Occurs(toks, pos, PrintE(e))
    requires EndsTerm(toks, pos + |PrintE(e)|)
    ensures ExprAt(toks, pos) == ExprTail(toks, pos + |PrintE(e)|, EvalE(e))
    decreases SizeE(e), 1
  {
    hide TermAt, TermTail, FactorAt, ExprTail;
    match e
    case ETerm(t) =>
      TermComplete(t, toks, pos);
    case EBin(l, op, r) =>
      assert PrintE(e) == PrintE(l) + ([AddToken(op)] + PrintT(r));
      OccursSplit(toks, pos, PrintE(l), [AddToken(op)] + PrintT(r));
      OccursHead(toks, pos + |PrintE(l)|, AddToken(op), PrintT(r));
      ExprPrefixBin(l, op, r, toks, pos);
  }

  lemma {:induction false} ExprPrefixBin(l: Expr, op: AddOp, r: Term, toks: seq<Token>, pos: nat)
    requires Occurs(toks, pos, PrintE(l))
    requires Occurs(toks, pos + |PrintE(l)|, [AddToken(op)] + PrintT(r))
    requires EndsTerm(toks, pos + |PrintE(l)|) && EndsTerm(toks, pos + |PrintE(l)| + 1 + |PrintT(r)|)
    ensures ExprAt(toks, pos) == ExprTail(toks, pos + |PrintE(l)| + 1 + |PrintT(r)|, AddValue(op, EvalE(l), EvalT(r)))
    decreases SizeE(l) + SizeT(r) + 1, 0
  {
    hide *;
    ExprPrefix(l, toks, pos);
    ExprTailStep(toks, pos + |PrintE(l)|, EvalE(l), op, r);
  }

  /** An expression's tokens followed by no operator parse as that expression. */
  lemma {:induction false} ExprComplete(e: Expr, toks: seq<Token>, pos: nat)
    requires Occurs(toks, pos, PrintE(e))
    requires EndsExpr(toks, pos + |PrintE(e)|)
    ensures ExprAt(toks, pos) == Ok((EvalE(e), pos + |PrintE(e)|))
    decreases SizeE(e), 2
  {
    ExprPrefix(e, toks, pos);
  }

  /** Every token list the grammar derives is accepted, with its tree's value. */
  lemma Completeness(e: Expr)
    ensures EvaluateTokens(PrintE(e)) == Ok(EvalE(e))
  {
    var toks := PrintE(e);
    assert toks[0..|toks|] == toks;
    ExprComplete(e, toks, 0);
  }

  // ----- Soundness -----

  /** A slice is its part before `j`, the token at `j`, and the part after. */
  lemma SliceAround(toks: seq<Token>, i: nat, j: nat, k: nat)
    requires i <= j < k <= |toks|
    ensures toks[i..k] == toks[i..j] + [toks[j]] + toks[j + 1..k]
  {
  }

  lemma {:induction false} FactorSound(toks: seq<Token>, pos: nat) returns (f: Factor)
    requires pos <= |toks| && FactorAt(toks, pos).Ok?
    ensures toks[pos..FactorAt(toks, pos).value.1] == PrintF(f)
    ensures EvalF(f) == FactorAt(toks, pos).value.0
    decreases |toks| - pos, 0
  {
    if toks[pos] == LParen {
      var p := ExprAt(toks, pos + 1).value.1;
      var e := ExprSound(toks, pos + 1);
      f := Group(e);
      assert toks[pos..p + 1] == [LParen] + toks[pos + 1..p] + [RParen];
    } else {
      f := Lit(toks[pos].text);
      assert toks[pos..pos + 1] == [toks[pos]];
    }
  }

  lemma {:induction false} TermSound(toks: seq<Token>, pos: nat) returns (t: Term)
    requires pos <= |toks| && TermAt(toks, pos).Ok?
    ensures toks[pos..TermAt(toks, pos).value.1] == PrintT(t)
    ensures EvalT(t) == TermAt(toks, pos).value.0
    decreases |toks| - pos, 1
  {
    var p := FactorAt(toks, pos).value.1;
    var f := FactorSound(toks, pos);
    t := TermTailSound(toks, pos, p, TFactor(f));
  }

  /** The term loop extends a term already read into a larger one. */
  lemma {:induction false} TermTailSound(toks: seq<Token>, start: nat, pos: nat, acc: Term) returns (t: Term)
    requires start <= pos <= |toks| && toks[start..pos] == PrintT(acc)
    requires TermTail(toks, pos, EvalT(acc)).Ok?
    ensures toks[start..TermTail(toks, pos, EvalT(acc)).value.1] == PrintT(t)
    ensures EvalT(t) == TermTail(toks, pos, EvalT(acc)).value.0
    decreases |toks| - pos, 2
  {
    hide ExprAt, TermAt, ExprTail, FactorAt, NumeralValue, EvalE;
    if pos < |toks| && (toks[pos] == Times || toks[pos] == Divide) {
      var p := FactorAt(toks, pos + 1).value.1;
      var f := FactorSound(toks, pos + 1);
      var op := if toks[pos] == Times then Mul else Div;
      SliceAround(toks, start, pos, p);
      t := TermTailSound(toks, start, p, TBin(acc, op, f));
    } else {
      t := acc;
    }
  }

  lemma {:induction false} ExprSound(toks: seq<Token>, pos: nat) returns (e: Expr)
    requires pos <= |toks| && ExprAt(toks, pos).Ok?
    ensures toks[pos..ExprAt(toks, pos).value.1] == PrintE(e)
    ensures EvalE(e) == ExprAt(toks, pos).value.0
    decreases |toks| - pos, 2
  {
    var p := TermAt(toks, pos).value.1;
    var t := TermSound(toks, pos);
    e := ExprTailSound(toks, pos, p, ETerm(t));
  }

  /** The expression loop extends an expression already read into a larger one. */
  lemma {:induction false} ExprTailSound(toks: seq<Token>, start: nat, pos: nat, acc: Expr) returns (e: Expr)
    requires start <= pos <= |toks| && toks[start..pos] == PrintE(acc)
    requires ExprTail(toks, pos, EvalE(acc)).Ok?
    ensures toks[start..ExprTail(toks, pos, EvalE(acc)).value.1] == PrintE(e)
    ensures EvalE(e) == ExprTail(toks, pos, EvalE(acc)).value.0
    decreases |toks| - pos, 3
  {
    hide ExprAt, TermAt, TermTail, FactorAt, NumeralValue, EvalT;
    if pos < |toks| && (toks[pos] == Plus || toks[pos] == Minus) {
      var p := TermAt(toks, pos + 1).value.1;
      var t := TermSound(toks, pos + 1);
      var op := if toks[pos] == Plus then Add else Sub;
      SliceAround(toks, start, pos, p);
      e := ExprTailSound(toks, start, p, EBin(acc, op, t));
    } else {
      e := acc;
    }
  }

  /** Every accepted token list is derived by a parse tree with the result as
      its value. */
  lemma Soundness(toks: seq<Token>)
    requires EvaluateTokens(toks).Ok?
    ensures exists e :: PrintE(e) == toks && EvalE(e) == EvaluateTokens(toks).value
  {
    var e := ExprSound(toks, 0);
    assert toks[0..|toks|] == toks;
    assert PrintE(e) == toks;
  }

  /** Evaluation succeeds exactly on the token lists the grammar derives. */
  lemma AcceptsIffDerivable(toks: seq<Token>)
    ensures EvaluateTokens(toks).Ok? <==> exists e :: PrintE(e) == toks
  {
    if EvaluateTokens(toks).Ok? {
      Soundness(toks);
    }
    if e :| PrintE(e) == toks {
      Completeness(e);
    }
  }

  /** Two parse trees of the same tokens have the same value. */
  lemma ValueDetermined(e1: Expr, e2: Expr)
    requires PrintE(e1) == PrintE(e2)
    ensures EvalE(e1) == EvalE(e2)
  {
    Completeness(e1);
    Completeness(e2);
  }

  /** From text: a parse tree printed with spaces between tokens evaluates
      to the tree's value. */
  lemma EvaluatePrinted(e: Expr)
    ensures Evaluate(Lexer.Unlex(PrintE(e))) == Ok(EvalE(e))
  {
    Lexer.TokenizeUnlex(PrintE(e));
    Completeness(e);
  }

  // ----- Printed trees as text -----

  /** Joining at a token that is not a number keeps numbers apart. */
  lemma SeparatedJoin(a: seq<Token>, c: Token, b: seq<Token>)
    requires Lexer.Separated(a) && Lexer.Separated(b) && !c.Number?
    ensures Lexer.Separated(a + [c] + b)
  {
    var s := a + [c] + b;
    forall i | 0 <= i < |s| - 1
      ensures !(s[i].Number? && s[i + 1].Number?)
    {
      if i < |a| - 1 {
        assert s[i] == a[i] && s[i + 1] == a[i + 1];
      } else if i > |a| {
        assert s[i] == b[i - |a| - 1] && s[i + 1] == b[i - |a|];
      }
    }
  }

  /** The grammar never puts two numbers next to each other. */
  lemma {:induction false} PrintSeparatedE(e: Expr)
    ensures Lexer.Separated(PrintE(e))
    decreases SizeE(e)
  {
    match e
    case ETerm(t) => PrintSeparatedT(t);
    case EBin(l, op, r) =>
      PrintSeparatedE(l);
      PrintSeparatedT(r);
      SeparatedJoin(PrintE(l), AddToken(op), PrintT(r));
  }

  lemma {:induction false} PrintSeparatedT(t: Term)
    ensures Lexer.Separated(PrintT(t))
    decreases SizeT(t)
  {
    match t
    case TFactor(f) => PrintSeparatedF(f);
    case TBin(l, op, r) =>
      PrintSeparatedT(l);
      PrintSeparatedF(r);
      SeparatedJoin(PrintT(l), MulToken(op), PrintF(r));
  }

  lemma {:induction false} PrintSeparatedF(f: Factor)
    ensures Lexer.Separated(PrintF(f))
    decreases SizeF(f)
  {
    match f
    case Lit(n) =>
    case Group(e) =>
      PrintSeparatedE(e);
      SeparatedJoin([], LParen, PrintE(e));
      SeparatedJoin([LParen] + PrintE(e), RParen, []);
      assert [] + [LParen] + PrintE(e) == [LParen] + PrintE(e);
      assert [LParen] + PrintE(e) + [RParen] + [] == PrintF(f);
  }

  /** From text: a parse tree written out without spaces evaluates to the
      tree's value. */
  lemma EvaluateGlued(e: Expr)
    ensures Evaluate(Lexer.Glue(PrintE(e))) == Ok(EvalE(e))
  {
    PrintSeparatedE(e);
    Lexer.TokenizeGlue(PrintE(e));
    Completeness(e);
  }

  // ----- The top-level check and the failures -----

  /** The outcomes of `Evaluate` on text: InvalidExpression exactly when no
      character starts a token, and on success the top-level expression used
      up every token. */
  lemma EvaluateOutcomes(s: string)
    ensures Evaluate(s) == Err(InvalidExpression) <==> Lexer.NoTokenStart(s)
    ensures Evaluate(s).Ok? ==>
      Lexer.Tokenize(s).Ok? && ExprAt(Lexer.Tokenize(s).value, 0) == Ok((Evaluate(s).value, |Lexer.Tokenize(s).value|))
  {
  }

  /** Success means the top-level expression used up every token, and its
      value is the result. */
  lemma SuccessConsumesAll(toks: seq<Token>, v: Value)
    ensures EvaluateTokens(toks) == Ok(v) <==> ExprAt(toks, 0) == Ok((v, |toks|))
  {
  }

  /** "Unexpected input remaining" is raised exactly when a whole expression
      was read and tokens remain; the first of them is a number or a
      parenthesis, never an operator. */
  lemma TrailingInputExactly(toks: seq<Token>)
    ensures EvaluateTokens(toks) == Err(TrailingInput)
        <==> ExprAt(toks, 0).Ok? && ExprAt(toks, 0).value.1 < |toks|
    ensures EvaluateTokens(toks) == Err(TrailingInput) ==>
      var q := ExprAt(toks, 0).value.1;
      toks[q].Number? || toks[q] == LParen || toks[q] == RParen
  {
  }

  /** An opening parenthesis with a whole expression after it and nothing
      more fails for want of the closing one. */
  lemma UnclosedParen(e: Expr)
    ensures EvaluateTokens([LParen] + PrintE(e)) == Err(ExpectedClosingParen)
  {
    var toks := [LParen] + PrintE(e);
    assert toks[1..1 + |PrintE(e)|] == PrintE(e);
    ExprComplete(e, toks, 1);
    assert FactorAt(toks, 0) == Err(ExpectedClosingParen);
    assert TermAt(toks, 0) == Err(ExpectedClosingParen);
  }

  /** An opening parenthesis, a whole expression, and then a numeral or
      another opening parenthesis fails for want of the closing one. */
  lemma UnclosedParenBefore(e: Expr, t: Token, rest: seq<Token>)
    requires t.Number? || t == LParen
    ensures EvaluateTokens([LParen] + PrintE(e) + [t] + rest) == Err(ExpectedClosingParen)
  {
    var toks := [LParen] + PrintE(e) + [t] + rest;
    assert toks[1..1 + |PrintE(e)|] == PrintE(e);
    assert toks[1 + |PrintE(e)|] == t;
    ExprComplete(e, toks, 1);
    assert FactorAt(toks, 0) == Err(ExpectedClosingParen);
    assert TermAt(toks, 0) == Err(ExpectedClosingParen);
  }

  /** Input that starts with an operator or `)` is rejected at once, naming
      that token. */
  lemma LeadingNonOperand(t: Token, rest: seq<Token>)
    requires !t.Number? && t != LParen
    ensures EvaluateTokens([t] + rest) == Err(UnexpectedToken(Some(t)))
  {
    var toks := [t] + rest;
    assert toks[0] == t;
    assert FactorAt(toks, 0) == Err(UnexpectedToken(Some(t)));
    assert TermAt(toks, 0) == Err(UnexpectedToken(Some(t)));
  }

  /** A `+` or `-` with nothing after it reads a factor past the end:
      "Unexpected token: undefined". */
  lemma DanglingAddOperator(e: Expr, op: AddOp)
    ensures EvaluateTokens(PrintE(e) + [AddToken(op)]) == Err(UnexpectedToken(None))
  {
    var toks := PrintE(e) + [AddToken(op)];
    var n := |PrintE(e)|;
    assert toks[0..n] == PrintE(e);
    assert toks[n] == AddToken(op);
    ExprPrefix(e, toks, 0);
    assert TermAt(toks, n + 1) == Err(UnexpectedToken(None));
  }

  /** The same for a `*` or `/` with nothing after it. */
  lemma DanglingMulOperator(t: Term, op: MulOp)
    ensures EvaluateTokens(PrintT(t) + [MulToken(op)]) == Err(UnexpectedToken(None))
  {
    var toks := PrintT(t) + [MulToken(op)];
    var n := |PrintT(t)|;
    assert toks[0..n] == PrintT(t);
    assert toks[n] == MulToken(op);
    TermPrefix(t, toks, 0);
    assert FactorAt(toks, n + 1) == Err(UnexpectedToken(None));
    assert TermAt(toks, 0) == Err(UnexpectedToken(None));
  }

  /** A closing parenthesis after a whole expression is left over. */
  lemma StrayCloseParen(e: Expr, rest: seq<Token>)
    ensures EvaluateTokens(PrintE(e) + [RParen] + rest) == Err(TrailingInput)
  {
    var toks := PrintE(e) + [RParen] + rest;
    assert toks[0..|PrintE(e)|] == PrintE(e);
    assert toks[|PrintE(e)|] == RParen;
    ExprComplete(e, toks, 0);
  }

  /** No token list with two numerals next to each other evaluates: the
      grammar never derives one. */
  lemma AdjacentNumeralsFail(toks: seq<Token>, i: nat)
    requires i + 1 < |toks| && toks[i].Number? && toks[i + 1].Number?
    ensures EvaluateTokens(toks).Err?
  {
    AcceptsIffDerivable(toks);
    if e :| PrintE(e) == toks {
      PrintSeparatedE(e);
      assert false;
    }
  }
}
