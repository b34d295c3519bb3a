# Arithmetic expression evaluator: a verified model

This project models `api/parse.js`, a small service that reads an arithmetic
expression such as `(2+3)*4` and returns its value. It has two parts:

- `tokenize`, which splits the text into numerals and the six symbols
  `+ - * / ( )` with the global regular expression `\d+(\.\d+)?|[+\-*/()]`;
- `evaluateExpression`, which runs a recursive-descent parser over the tokens.
  The parser has a cursor `pos`, the helpers `peek` and `consume`, and three
  mutually recursive procedures `parseE`, `parseT` and `parseF`, one per
  grammar rule. It folds each operator chain from left to right. At the end it
  rejects tokens that are left over.

Files, one module each:

| file | module | contents |
|---|---|---|
| `tokens.dfy` | `Tokens` | characters, numerals as a subset type, `Token`, the exact value of a numeral |
| `outcomes.dfy` | `Outcomes` | `Option`, the closed set of failures `Error`, `Result` |
| `lexer.dfy` | `Lexer` | `tokenize`: the scanner `Scan`, a declarative description of the regular expression's matches `Matches`, and proofs that the two agree in both directions, plus two text round trips |
| `values.dfy` | `Values` | the values the evaluator computes with, and the four operations |
| `grammar.dfy` | `Grammar` | the grammar of api/parse.js:39-44 as left-nested parse trees, with `PrintE` (the tokens a tree derives) and `EvalE` (its value) |
| `evaluator.dfy` | `Evaluator` | a function for what each parsing procedure computes from a cursor; the class `Parser` whose methods run the source's loops over a `pos` field, each proved to agree with its function; `EvaluateExpression` |
| `grammar_proofs.dfy` | `GrammarProofs` | completeness and soundness of the parser with respect to the grammar, and the failure conditions |
| `cases.dfy` | `Cases` | precedence, associativity and division by zero, for any numerals |
| `worked.dfy` | `Worked` | concrete inputs from text to result |

The main results are these:

- `Lexer.TokenizeCharacterized` proves that `tokenize` returns `toks` exactly
  when `toks` is non-empty and is the list of all leftmost, greedy,
  non-overlapping matches of the pattern.
- `GrammarProofs.AcceptsIffDerivable` proves that evaluation of a token list
  succeeds exactly when the grammar derives it.
- `GrammarProofs.Completeness` and `GrammarProofs.Soundness` prove that the
  result is the value of the left-associative parse tree.
- `Evaluator.EvaluateExpression`, the imperative evaluator, is proved to return
  `Evaluate(expr)`.

## Model

`Lexer.Matches` (what the pattern's global matching finds), `Grammar.PrintE`
with `PrintT` and `PrintF` (the tokens a parse tree derives) and
`Grammar.EvalE` with `EvalT` and `EvalF` (a parse tree's value) are reference
definitions, written independently of the code. They state what the scanner
and the parser should compute. The lemmas below connect them to the code:
`Lexer.TokenizeCharacterized`, `GrammarProofs.Completeness` and
`GrammarProofs.Soundness`.

| member | source | states |
|---|---|---|
| Tokens.DigitRun | api/parse.js:84 | the greedy `\d+` run at the start of a string: all digits, not followed by a digit, and at most the string's length |
| Tokens.DigitRunIs | api/parse.js:84 | a string with exactly `n` leading digits has digit run `n` |
| Tokens.NumeralValue | api/parse.js:73 | the number `parseFloat` reads from a numeral, exactly: the digits before the point are its integer part (the value lies between them and them plus one), and a numeral without a point denotes exactly them; the digits after the point are pinned down by `Tokens.PointRemoved` |
| Tokens.DigitsAppend | api/parse.js:73 | the digits `a` followed by the digits `b` denote `a` times ten to the length of `b`, plus `b` |
| Tokens.NumeralParts | api/parse.js:73 | whole digits, a point and fraction digits form a numeral whose digit run is the whole part, and whose value is the whole part plus the fraction's digits shifted right by their number |
| Tokens.PointRemoved | api/parse.js:73 | the exact value of a numeral with a point: scaled by ten once per digit after the point (`Tokens.ScaleIsProduct`: multiplied by ten to that count), it is the whole number its digits spell with the point removed, so "12.5" denotes exactly 125 / 10 |
| Tokens.ScaleIsProduct | api/parse.js:73 | scaling by `k` places is multiplication by ten to the `k` |
| Lexer.NumeralLength | api/parse.js:84 | the match of `\d+(\.\d+)?` at a digit is a numeral that the following text cannot extend (greedy) |
| Lexer.NumeralLengthOf | api/parse.js:84 | a numeral followed by text that does not extend it is matched whole, to its exact length |
| Lexer.Scan | api/parse.js:84-85 | the scanner finds no token exactly when no character can start a match |
| Lexer.Tokenize | api/parse.js:83-88 | fails exactly when nothing matches, and then with InvalidExpression; on success the token list is non-empty |
| Lexer.ScanNumeral | api/parse.js:84-85 | a numeral that the following text does not extend becomes one token, and scanning continues after it |
| Lexer.SkipCharacter | api/parse.js:84-85 | prepending a character that starts no match leaves the list of matches unchanged |
| Lexer.ScanFirstMatch | api/parse.js:84-85 | a pattern match at position 0 is the scanner's first token |
| Lexer.ScanMatches | api/parse.js:84-85 | the scanner's output is a list of all leftmost greedy matches of the pattern |
| Lexer.MatchesUnique | api/parse.js:84-85 | any list of all such matches is the scanner's output |
| Lexer.TokenizeCharacterized | api/parse.js:83-88 | `tokenize(s)` returns `toks` if and only if `toks` is non-empty and is the list of all matches in `s` |
| Lexer.UnlexMatches | api/parse.js:84-85 | tokens written out with a space after each are matched back as the same tokens |
| Lexer.GlueMatches | api/parse.js:84-85 | tokens written out with nothing between them, where no two numbers touch, are matched back as the same tokens |
| Lexer.TokenizeUnlex | api/parse.js:83-88 | round trip: tokenizing the spaced text of a non-empty token list returns that list |
| Lexer.TokenizeGlue | api/parse.js:83-88 | round trip: tokenizing the unspaced text of a non-empty token list with no two adjacent numbers returns that list |
| Values.Sum | api/parse.js:51 | `+` on values: real exactly when both operands are, and subtracting the right operand gives back the left |
| Values.Difference | api/parse.js:51 | `-` on values: real exactly when both operands are, and adding the right operand back gives the left |
| Values.Product | api/parse.js:61 | `*` on values: real exactly when both operands are, and a real product is zero exactly when one of its factors is |
| Values.QuotientUndoesProduct | api/parse.js:61 | dividing a product by its non-zero right factor gives back the left factor |
| Values.Quotient | api/parse.js:61 | division is real division, except that a zero divisor gives a non-finite value rather than a failure; a real quotient times the divisor is the dividend |
| Evaluator.TokenAt | api/parse.js:32-34 | the token under the cursor is present exactly when the cursor is before the end, and is then the token at that index |
| Evaluator.ExprAt | api/parse.js:46-54 | parsing an expression consumes at least one token; it stops at a token that continues neither a sum nor a product; it fails only with a parse error |
| Evaluator.ExprTail | api/parse.js:48-52 | the `+`/`-` loop stops at a token that is not `+` or `-`, never moves the cursor back, and fails only with a parse error |
| Evaluator.TermAt | api/parse.js:56-64 | parsing a term consumes at least one token and stops at a token that is not `*` or `/` |
| Evaluator.TermTail | api/parse.js:58-62 | the `*`/`/` loop stops at a token that is not `*` or `/` and never moves the cursor back |
| Evaluator.FactorAt | api/parse.js:66-75 | parsing a factor consumes at least one token and fails only with a parse error; it fails with "unexpected token" naming the token under the cursor exactly when that token cannot start a factor: it is missing (end of input) or is neither a numeral nor `(` |
| Evaluator.EvaluateTokens | api/parse.js:77-79 | the top level on a token list: on success one expression was read from position 0 up to the last token, with that value; every failure is an unexpected token that cannot start a factor, a missing `)`, or leftover input, never InvalidExpression |
| Evaluator.Parser.constructor | api/parse.js:29-30 | the parser holds the tokens with the cursor at 0 |
| Evaluator.Parser.Peek | api/parse.js:32-34 | the token under the cursor is present exactly when the cursor is before the end, and is then the token at the cursor; nothing changes |
| Evaluator.Parser.Consume | api/parse.js:35-37 | returns the token under the cursor (None past the end) and advances the cursor by one |
| Evaluator.Parser.ParseE | api/parse.js:46-54 | the loop computes ExprAt: same value and final cursor on success, same failure otherwise |
| Evaluator.Parser.ParseT | api/parse.js:56-64 | the loop computes TermAt, and the cursor always advances |
| Evaluator.Parser.ParseF | api/parse.js:66-75 | computes FactorAt, and always consumes a token, even when it fails |
| Evaluator.EvaluateExpression | api/parse.js:28-80 | the imperative evaluator returns `Evaluate(expr)`: tokenize, parse one expression, and fail if tokens remain |
| GrammarProofs.FactorComplete | api/parse.js:66-75 | a factor's tokens parse as that factor, with its value, whatever follows |
| GrammarProofs.TermPrefix | api/parse.js:56-64 | a term's tokens bring the term loop to their end with the term's value |
| GrammarProofs.TermComplete | api/parse.js:56-64 | a term's tokens, followed by no `*` or `/`, parse as that term with its value |
| GrammarProofs.ExprPrefix | api/parse.js:46-54 | an expression's tokens bring the expression loop to their end with the expression's value |
| GrammarProofs.ExprComplete | api/parse.js:46-54 | an expression's tokens, followed by no operator, parse as that expression with its value |
| GrammarProofs.Completeness | api/parse.js:39-44 | every token list the grammar derives evaluates to the value of its parse tree |
| GrammarProofs.FactorSound | api/parse.js:66-75 | the tokens a successful factor parse consumes are derived by a factor with the parsed value |
| GrammarProofs.TermSound | api/parse.js:56-64 | the same for a term |
| GrammarProofs.TermTailSound | api/parse.js:58-62 | the term loop extends a term already read into a larger term whose value is the loop's result |
| GrammarProofs.ExprSound | api/parse.js:46-54 | the same for an expression |
| GrammarProofs.ExprTailSound | api/parse.js:48-52 | the expression loop extends an expression already read into a larger expression whose value is the loop's result |
| GrammarProofs.Soundness | api/parse.js:39-44 | every accepted token list is derived by a parse tree whose value is the result |
| GrammarProofs.AcceptsIffDerivable | api/parse.js:39-44 | evaluation of a token list succeeds if and only if the grammar derives it |
| GrammarProofs.ValueDetermined | api/parse.js:39-44 | two parse trees of the same tokens have the same value |
| GrammarProofs.PrintSeparatedE | api/parse.js:39-44 | the grammar never puts two numerals next to each other |
| GrammarProofs.EvaluatePrinted | api/parse.js:28-80 | a parse tree written out with spaces evaluates, from text, to the tree's value |
| GrammarProofs.EvaluateGlued | api/parse.js:28-80 | a parse tree written out without spaces evaluates, from text, to the tree's value |
| GrammarProofs.EvaluateOutcomes | api/parse.js:28-80 | `Evaluate` (tokenize, then `EvaluateTokens`) fails with InvalidExpression exactly when no character of the text starts a token; on success the text tokenized and one expression used up every token |
| GrammarProofs.SuccessConsumesAll | api/parse.js:77-79 | restates the check of line 78 as an if-and-only-if: success with `v` holds exactly when the top-level expression, read from position 0, used every token and has value `v` |
| GrammarProofs.TrailingInputExactly | api/parse.js:77-79 | "input remaining" is raised exactly when a whole expression was read and tokens remain; the first of those is a numeral or a parenthesis |
| GrammarProofs.UnclosedParen | api/parse.js:70 | `(` followed by a whole expression and nothing else fails for want of `)` |
| GrammarProofs.UnclosedParenBefore | api/parse.js:70 | `(`, a whole expression, and then a numeral or another `(` fails for want of `)`, whatever follows |
| GrammarProofs.LeadingNonOperand | api/parse.js:67-74 | a token list that starts with an operator or `)` fails with "unexpected token" naming that first token, whatever follows |
| GrammarProofs.DanglingAddOperator | api/parse.js:48-74 | a whole expression followed by a final `+` or `-` fails with "unexpected token" at the end of input |
| GrammarProofs.DanglingMulOperator | api/parse.js:58-74 | a whole term followed by a final `*` or `/` fails with "unexpected token" at the end of input |
| GrammarProofs.StrayCloseParen | api/parse.js:78 | a `)` after a whole expression is left over |
| Grammar.PrintE | api/parse.js:39-44 | every derivation of the grammar has at least one token |
| Cases.SumOfTwo | api/parse.js:51 | `a + b` evaluates to the sum of the numerals' values |
| Cases.ProductBindsTighter | api/parse.js:39-44 | `a + b * c` is `a + (b * c)` |
| Cases.ParenthesesFirst | api/parse.js:66-72 | `(a + b) * c` multiplies the sum |
| Cases.DifferenceFoldsLeft | api/parse.js:48-52 | `a - b - c` is `(a - b) - c` |
| Cases.QuotientFoldsLeft | api/parse.js:58-62 | `a / b / c` is `(a / b) / c` for all numerals, zero divisors included; with non-zero divisors that is the real `(a / b) / c` |
| Cases.DivisionByZero | api/parse.js:61 | `a / z` with a zero `z` succeeds with a non-finite value |
| Worked.Precedence | api/parse.js:28-80 | "2+3*4" evaluates to 14 |
| Worked.Parentheses | api/parse.js:28-80 | "(2+3)*4" evaluates to 20 |
| Worked.SubtractionLeft | api/parse.js:28-80 | "8-3-2" evaluates to 3 |
| Worked.DivisionLeft | api/parse.js:28-80 | "16/4/2" evaluates to 2 |
| Worked.Decimals | api/parse.js:84 | "1.5+2.5" evaluates to exactly 4 |
| Worked.ZeroDivisor | api/parse.js:61 | "5/0" succeeds with a non-finite value |
| Worked.EmptyInput | api/parse.js:86 | "" fails with InvalidExpression |
| Worked.MissingCloseParen | api/parse.js:70 | "(1+2" fails for want of `)` |
| Worked.StrayParen | api/parse.js:78 | "2+2)" fails with input remaining |
| Worked.IgnoredCharacters | api/parse.js:84-85 | "2x+3" evaluates to 5: the `x` is dropped without an error |
| Worked.OneDotTwo | api/parse.js:84 | "1.2" is not extended by a following ".3" |
| Worked.TwoDotsTokens | api/parse.js:84-85 | "1.2.3" tokenizes as "1.2" and "3" |
| Worked.TwoNumbers | api/parse.js:78 | a token list of exactly two numerals fails with input remaining: the second one is left over |
| GrammarProofs.AdjacentNumeralsFail | api/parse.js:39-44 | any token list with two numerals next to each other fails (with which error depends on the context: `(1 2)` lacks its `)`) |
| Worked.DanglingPlus | api/parse.js:74 | "2+" fails with "unexpected token" at the end of input |
| Worked.EmptyParentheses | api/parse.js:74 | "()" fails with "unexpected token" naming the `)` |
| Worked.TwoDots | api/parse.js:28-80 | "1.2.3" fails with input remaining |

## Left out

- `handler` (api/parse.js:2-25), the HTTP layer, is not part of this model: the request method check, the missing-body check and the JSON replies.
- Numbers are exact reals, not IEEE-754 doubles. The model has no rounding, no overflow and no underflow: `parseFloat` is exact (`NumeralValue`), so a numeral beyond the largest double (about 1.8e308), which the source reads as `Infinity`, stays a finite real, and so do sums and products that overflow to `Infinity` in the source. For example such a numeral minus itself is `NaN` in the source and 0 in the model. Likewise a numeral too small for a double, such as `0.` followed by 400 zeros and a `1`, is 0 in the source but a positive real in the model, so dividing by it gives `Infinity` in the source and a finite value in the model (`Values.Quotient`, `Cases.DivisionByZero`).
- Division by zero gives one absorbing `NonFinite` value. The model does not tell `Infinity` from `-Infinity` or `NaN`. So unlike the source it cannot get back to a finite value: in the source `1/(1/0)` is `0`, in the model it is non-finite.
- Failures are the datatype `Error`, not the source's message strings. "Unexpected token: undefined" (a factor read past the end) is `UnexpectedToken(None)`. This follows the code: it has no separate end-of-input error.
- The regular-expression engine is not modelled generally. Only this one pattern is, with JavaScript's leftmost, greedy, non-overlapping global-match semantics (`Matches`).
- Call-stack depth is not modelled: deeply nested parentheses that would overflow the JavaScript stack are evaluated normally.
- Evaluator.Parser.ParseE, Evaluator.Parser.ParseT, Evaluator.Parser.ParseF: they require `pos <= |tokens|`. That holds at every call the source makes, because a failed step ends the evaluation.
- Evaluator.Parser.ParseE, Evaluator.Parser.ParseT, Evaluator.Parser.ParseF: after a failure the cursor is stated only as not moving back, because the source discards it once it throws.
- Characters that no token can start (letters, spaces, `%`, a lone `.`) are dropped by the tokenizer without an error, as the source does (`Worked.IgnoredCharacters`). "1.2.3" therefore fails with input remaining, not as an invalid number (`Worked.TwoDots`).
