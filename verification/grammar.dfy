/** The grammar of api/parse.js:39-44 as parse trees.

    `E -> T (('+'|'-') T)*` folds left to right, so a parse tree of it is
    left-nested: `a - b - c` is `EBin(EBin(a, Sub, b), Sub, c)`. The same holds
    one level down for `T -> F (('*'|'/') F)*`. A factor is a numeral or a
    parenthesised expression. `PrintE` gives the token list a tree derives and
    `EvalE` the value of that tree; the parser is proved against both. */
module Grammar {
  import opened Tokens
  import opened Values

  datatype AddOp = Add | Sub
  datatype MulOp = Mul | Div

  datatype Expr = ETerm(term: Term) | EBin(left: Expr, aop: AddOp, right: Term)
  datatype Term = TFactor(factor: Factor) | TBin(left: Term, mop: MulOp, right: Factor)
  datatype Factor = Lit(n: Numeral) | Group(inner: Expr)

  function AddToken(op: AddOp): Token {
    match op
    case Add => Plus
    case Sub => Minus
  }

  function MulToken(op: MulOp): Token {
    match op
    case Mul => Times
    case Div => Divide
  }

  /** The tokens a tree derives; never empty. */
  function PrintE(e: Expr): (toks: seq<Token>)
    ensures |toks| > 0
  {
    match e
    case ETerm(t) => PrintT(t)
    case EBin(l, op, r) => PrintE(l) + [AddToken(op)] + PrintT(r)
  }

  function PrintT(t: Term): (toks: seq<Token>)
    ensures |toks| > 0
  {
    match t
    case TFactor(f) => PrintF(f)
    case TBin(l, op, r) => PrintT(l) + [MulToken(op)] + PrintF(r)
  }

  function PrintF(f: Factor): (toks: seq<Token>)
    ensures |toks| > 0
  {
    match f
    case Lit(n) => [Number(n)]
    case Group(e) => [LParen] + PrintE(e) + [RParen]
  }

  function AddValue(op: AddOp, a: Value, b: Value): Value {
    match op
    case Add => Sum(a, b)
    case Sub => Difference(a, b)
  }

  function MulValue(op: MulOp, a: Value, b: Value): Value {
    match op
    case Mul => Product(a, b)
    case Div => Quotient(a, b)
  }

  /** The value of a tree: each operator applied to the values of its operands. */
  function EvalE(e: Expr): Value {
    match e
    case ETerm(t) => EvalT(t)
    case EBin(l, op, r) => AddValue(op, EvalE(l), EvalT(r))
  }

  function EvalT(t: Term): Value {
    match t
    case TFactor(f) => EvalF(f)
    case TBin(l, op, r) => MulValue(op, EvalT(l), EvalF(r))
  }

  function EvalF(f: Factor): Value {
    match f
    case Lit(n) => Real(NumeralValue(n))
    case Group(e) => EvalE(e)
  }
}
