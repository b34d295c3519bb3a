/** Failure-carrying values shared by the tokenizer and the parser-evaluator.
    The source signals every failure by throwing an `Error` whose message names
    one of a closed set of conditions; here each condition is a constructor. */
module Outcomes {
  import opened Tokens

  datatype Option<+T> = None | Some(value: T)

  /** The closed set of failures of one evaluation.
      `UnexpectedToken(None)` is the source's "Unexpected token: undefined",
      raised when a factor is read past the end of the token list. */
  datatype Error =
    | InvalidExpression               // the tokenizer matched nothing
    | UnexpectedToken(found: Option<Token>)
    | ExpectedClosingParen            // a '(' whose expression is not followed by ')'
    | TrailingInput                   // tokens left after the top-level expression

  datatype Result<+T> = Ok(value: T) | Err(error: Error)
}
