/** The parser-evaluator `evaluateExpression` (api/parse.js:28-80).

    The source keeps the token list and a cursor `pos` in a closure and runs
    three mutually recursive procedures over them, each a `while` loop that
    folds an accumulator. Here the closure is the class `Parser` with its
    procedures as methods. What each procedure computes from a cursor position
    is first stated as a function (`ExprAt`, `TermAt`, `FactorAt`, with
    `ExprTail` and `TermTail` for the loops); every method is proved to agree
    with its function, and the functions are proved against the grammar in
    module GrammarProofs. */
module Evaluator {
  import opened Tokens
  import opened Outcomes
  import opened Values
  import Lexer

  /** The token under the cursor; `None` is JavaScript's `undefined` for an
      index past the end of the array. */
  function TokenAt(toks: seq<Token>, pos: nat): (t: Option<Token>)
    ensures t.Some? <==> pos < |toks|
    ensures t.Some? ==> t.value == toks[pos]
  {
    if pos < |toks| then Some(toks[pos]) else None
  }

  /** The token at `i`, if any, does not continue a term: the loop of
      `parseT` stops there (api/parse.js:58). */
  predicate EndsTerm(toks: seq<Token>, i: nat) {
    TokenAt(toks, i) != Some(Times) && TokenAt(toks, i) != Some(Divide)
  }

  /** The token at `i`, if any, does not continue a sum: the loop of
      `parseE` stops there (api/parse.js:48). */
  predicate EndsSum(toks: seq<Token>, i: nat) {
    TokenAt(toks, i) != Some(Plus) && TokenAt(toks, i) != Some(Minus)
  }

  /** What `parseF` rejects (api/parse.js:74): an operator, `)`, or nothing
      at all past the end; only a numeral or `(` can start a factor. */
  predicate CannotStartFactor(t: Option<Token>) {
    t.None? || !(t.value.Number? || t.value == LParen)
  }

  /** The failures parsing itself can raise; the other two come from the
      tokenizer and from the top-level check. */
  predicate ParseError(e: Error) {
    (e.UnexpectedToken? && CannotStartFactor(e.found)) || e.ExpectedClosingParen?
  }

  /** `parseE` started at `pos`: the value and the cursor after it. */
  function ExprAt(toks: seq<Token>, pos: nat): (r: Result<(Value, nat)>)
    requires pos <= |toks|
    ensures r.Ok? ==> pos < r.value.1 <= |toks|
    ensures r.Ok? ==> EndsTerm(toks, r.value.1) && EndsSum(toks, r.value.1)
    ensures r.Err? ==> ParseError(r.error)
    decreases |toks| - pos, 2
  {
    match TermAt(toks, pos)
    case Err(e) => Err(e)
    case Ok((v, p)) => ExprTail(toks, p, v)
  }

  /** The loop of `parseE` from cursor `pos` with accumulator `acc`. */
  function ExprTail(toks: seq<Token>, pos: nat, acc: Value): (r: Result<(Value, nat)>)
    requires pos <= |toks|
    ensures r.Ok? ==> pos <= r.value.1 <= |toks|
    ensures r.Ok? ==> EndsSum(toks, r.value.1)
    ensures r.Ok? && EndsTerm(toks, pos) ==> EndsTerm(toks, r.value.1)
    ensures r.Err? ==> ParseError(r.error)
    decreases |toks| - pos, 3
  {
    if pos < |toks| && (toks[pos] == Plus || toks[pos] == Minus) then
      match TermAt(toks, pos + 1)
      case Err(e) => Err(e)
      case Ok((v, p)) => ExprTail(toks, p, if toks[pos] == Plus then Sum(acc, v) else Difference(acc, v))
    else
      Ok((acc, pos))
  }

  /** `parseT` started at `pos`. */
  function TermAt(toks: seq<Token>, pos: nat): (r: Result<(Value, nat)>)
    requires pos <= |toks|
    ensures r.Ok? ==> pos < r.value.1 <= |toks|
    ensures r.Ok? ==> EndsTerm(toks, r.value.1)
    ensures r.Err? ==> ParseError(r.error)
    decreases |toks| - pos, 1
  {
    match FactorAt(toks, pos)
    case Err(e) => Err(e)
    case Ok((v, p)) => TermTail(toks, p, v)
  }

  /** The loop of `parseT` from cursor `pos` with accumulator `acc`. */
  function TermTail(toks: seq<Token>, pos: nat, acc: Value): (r: Result<(Value, nat)>)
    requires pos <= |toks|
    ensures r.Ok? ==> pos <= r.value.1 <= |toks|
    ensures r.Ok? ==> EndsTerm(toks, r.value.1)
    ensures r.Err? ==> ParseError(r.error)
    decreases |toks| - pos, 3
  {
    if pos < |toks| && (toks[pos] == Times || toks[pos] == Divide) then
      match FactorAt(toks, pos + 1)
      case Err(e) => Err(e)
      case Ok((v, p)) => TermTail(toks, p, if toks[pos] == Times then Product(acc, v) else Quotient(acc, v))
    else
      Ok((acc, pos))
  }

  /** `parseF` started at `pos`: it consumes one token before deciding. */
  function FactorAt(toks: seq<Token>, pos: nat): (r: Result<(Value, nat)>)
    requires pos <= |toks|
    ensures r.Ok? ==> pos < r.value.1 <= |toks|
    ensures r.Err? ==> ParseError(r.error)
    ensures r == Err(UnexpectedToken(TokenAt(toks, pos))) <==> CannotStartFactor(TokenAt(toks, pos))
    decreases |toks| - pos, 0
  {
    if pos < |toks| && toks[pos] == LParen then
      match ExprAt(toks, pos + 1)
      case Err(e) => Err(e)
      case Ok((v, p)) => if p < |toks| && toks[p] == RParen then Ok((v, p + 1)) else Err(ExpectedClosingParen)
    else if pos < |toks| && toks[pos].Number? then
      Ok((Real(NumeralValue(toks[pos].text)), pos + 1))
    else
      Err(UnexpectedToken(TokenAt(toks, pos)))
  }

  /** `evaluateExpression` after tokenizing: a whole expression that uses up
      every token. */
  function EvaluateTokens(toks: seq<Token>): (r: Result<Value>)
    ensures r.Ok? ==> ExprAt(toks, 0) == Ok((r.value, |toks|))
    ensures r.Err? ==> ParseError(r.error) || r.error == TrailingInput
  {
    match ExprAt(toks, 0)
    case Err(e) => Err(e)
    case Ok((v, p)) => if p < |toks| then Err(TrailingInput) else Ok(v)
  }

  /** `evaluateExpression` on the input text. */
  function Evaluate(s: string): Result<Value> {
    match Lexer.Tokenize(s)
    case Err(e) => Err(e)
    case Ok(toks) => EvaluateTokens(toks)
  }

  /** A method's outcome `r` with the cursor left at `pos` is what `spec`
      describes: the same value and cursor, or the same failure. */
  predicate Reports(r: Result<Value>, pos: nat, spec: Result<(Value, nat)>) {
    match spec
    case Ok((v, q)) => r == Ok(v) && pos == q
    case Err(e) => r == Err(e)
  }

  /** The closure of `evaluateExpression`: the tokens and the cursor. */
  class Parser {
    const tokens: seq<Token>
    var pos: nat

    constructor (toks: seq<Token>)
      ensures tokens == toks && pos == 0
    {
      tokens := toks;
      pos := 0;
    }

    /** `peek` (api/parse.js:32-34). */
    function Peek(): (t: Option<Token>)
      reads this
      ensures t.Some? <==> pos < |tokens|
      ensures t.Some? ==> t.value == tokens[pos]
    {
      TokenAt(tokens, pos)
    }

    /** `consume` (api/parse.js:35-37): the token under the cursor, and the
        cursor moves one step, also past the end. */
    method Consume() returns (t: Option<Token>)
      modifies this
      ensures t == TokenAt(tokens, old(pos))
      ensures pos == old(pos) + 1
    {
      t := Peek();
      pos := pos + 1;
    }

    /** `parseE` (api/parse.js:46-54). */
    method ParseE() returns (r: Result<Value>)
      requires pos <= |tokens|
      modifies this
      ensures old(pos) < pos
      ensures Reports(r, pos, ExprAt(tokens, old(pos)))
      decreases |tokens| - pos, 2
    {
      var first := ParseT();
      if first.Err? {
        return first;
      }
      var value := first.value;
      while Peek() == Some(Plus) || Peek() == Some(Minus)
        invariant old(pos) < pos <= |tokens|
        invariant ExprTail(tokens, pos, value) == ExprAt(tokens, old(pos))
        decreases |tokens| - pos
      {
        var op := Consume();
        var right := ParseT();
        if right.Err? {
          return right;
        }
        value := if op == Some(Plus) then Sum(value, right.value) else Difference(value, right.value);
      }
      return Ok(value);
    }

    /** `parseT` (api/parse.js:56-64). */
    method ParseT() returns (r: Result<Value>)
      requires pos <= |tokens|
      modifies this
      ensures old(pos) < pos
      ensures Reports(r, pos, TermAt(tokens, old(pos)))
      decreases |tokens| - pos, 1
    {
      var first := ParseF();
      if first.Err? {
        return first;
      }
      var value := first.value;
      while Peek() == Some(Times) || Peek() == Some(Divide)
        invariant old(pos) < pos <= |tokens|
        invariant TermTail(tokens, pos, value) == TermAt(tokens, old(pos))
        decreases |tokens| - pos
      {
        var op := Consume();
        var right := ParseF();
        if right.Err? {
          return right;
        }
        value := if op == Some(Times) then Product(value, right.value) else Quotient(value, right.value);
      }
      return Ok(value);
    }

    /** `parseF` (api/parse.js:66-75). It always consumes a token, even on
        failure. */
    method ParseF() returns (r: Result<Value>)
      requires pos <= |tokens|
      modifies this
      ensures old(pos) < pos
      ensures Reports(r, pos, FactorAt(tokens, old(pos)))
      decreases |tokens| - pos, 0
    {
      var token := Consume();
      if token == Some(LParen) {
        var value := ParseE();
        if value.Err? {
          return value;
        }
        var close := Consume();
        if close != Some(RParen) {
          return Err(ExpectedClosingParen);
        }
        return value;
      }
      if token.Some? && token.value.Number? {
        return Ok(Real(NumeralValue(token.value.text)));
      }
      return Err(UnexpectedToken(token));
    }
  }

  /** `evaluateExpression` (api/parse.js:28-80): tokenize, parse one
      expression, and fail if tokens remain. */
  method EvaluateExpression(expr: string) returns (r: Result<Value>)
    ensures r == Evaluate(expr)
  {
    var tokens := Lexer.Tokenize(expr);
    if tokens.Err? {
      return Err(tokens.error);
    }
    var parser := new Parser(tokens.value);
    var result := parser.ParseE();
    if result.Err? {
      return result;
    }
    if parser.pos < |parser.tokens| {
      return Err(TrailingInput);
    }
    return result;
  }
}
