/** Worked inputs: the text a caller sends and what the evaluator gives back.
    Each input is written as the tokens it is made of (`EvaluateText`), and
    the general lemmas of module Cases give the outcome on those tokens. */
module Worked {
  import opened Tokens
  import opened Outcomes
  import opened Values
  import opened Grammar
  import opened Evaluator
  import opened GrammarProofs
  import opened Cases
  import Lexer

  /** Text made of glued tokens, no two numbers adjacent, evaluates as those tokens. */
  lemma EvaluateText(s: string, toks: seq<Token>)
    requires toks != [] && Lexer.Separated(toks) && Lexer.Glue(toks) == s
    ensures Evaluate(s) == EvaluateTokens(toks)
  {
    hide ExprAt, EvaluateTokens;
    Lexer.TokenizeGlue(toks);
  }

  /** Text the scanner splits into `toks` evaluates as those tokens. */
  lemma EvaluateScanned(s: string, toks: seq<Token>)
    requires Lexer.Scan(s) == toks && toks != []
    ensures Evaluate(s) == EvaluateTokens(toks)
  {
  }

  /** A one-digit numeral denotes that digit. */
  lemma OneDigit(t: Numeral)
    requires |t| == 1
    ensures NumeralValue(t) == (t[0] as int - '0' as int) as real
  {
    assert t[..1] == t;
    DigitRunIs(t, 1);
    assert t[..|t| - 1] == [];
    assert DigitsValue(t) == t[0] as int - '0' as int;
  }

  /** Tokens of one character each, glued, make the string of those characters. */
  lemma {:induction false} GlueChars(toks: seq<Token>, s: string)
    requires |toks| == |s|
    requires forall i | 0 <= i < |s| :: Text(toks[i]) == [s[i]]
    ensures Lexer.Glue(toks) == s
  {
    if toks != [] {
      GlueChars(toks[1..], s[1..]);
      assert s == [s[0]] + s[1..];
    }
  }

  lemma PrecedenceText()
    ensures Evaluate("2+3*4") == EvaluateTokens([Number("2"), Plus, Number("3"), Times, Number("4")])
  {
    hide ExprAt, EvaluateTokens, Evaluate;
    var toks := [Number("2"), Plus, Number("3"), Times, Number("4")];
    GlueChars(toks, "2+3*4");
    EvaluateText("2+3*4", toks);
  }

  /** "2+3*4" is 14. */
  lemma Precedence()
    ensures Evaluate("2+3*4") == Ok(Real(14.0))
  {
    hide ExprAt, EvaluateTokens, NumeralValue, Evaluate;
    PrecedenceText();
    ProductBindsTighter("2", "3", "4");
    OneDigit("2"); OneDigit("3"); OneDigit("4");
  }

  lemma ParenthesesTail()
    ensures Lexer.Scan(")*4") == [RParen, Times, Number("4")]
  {
    hide Lexer.Scan, Lexer.NumeralLength, Lexer.Maximal;
    Lexer.ScanNumeral("4", "");
    assert "4" + "" == "4";
    Lexer.ScanSymbol('*', "4");
    assert ['*'] + "4" == "*4";
    Lexer.ScanSymbol(')', "*4");
    assert [')'] + "*4" == ")*4";
  }

  lemma ParenthesesScan()
    ensures Lexer.Scan("(2+3)*4") == [LParen, Number("2"), Plus, Number("3"), RParen, Times, Number("4")]
  {
    hide Lexer.Scan, Lexer.NumeralLength;
    ParenthesesTail();
    Lexer.ScanNumeral("3", ")*4");
    assert "3" + ")*4" == "3)*4";
    Lexer.ScanSymbol('+', "3)*4");
    assert ['+'] + "3)*4" == "+3)*4";
    Lexer.ScanNumeral("2", "+3)*4");
    assert "2" + "+3)*4" == "2+3)*4";
    Lexer.ScanSymbol('(', "2+3)*4");
    assert ['('] + "2+3)*4" == "(2+3)*4";
  }

  lemma ParenthesesText()
    ensures Evaluate("(2+3)*4") == EvaluateTokens([LParen, Number("2"), Plus, Number("3"), RParen, Times, Number("4")])
  {
    hide Lexer.Scan, ExprAt, EvaluateTokens;
    ParenthesesScan();
    EvaluateScanned("(2+3)*4", [LParen, Number("2"), Plus, Number("3"), RParen, Times, Number("4")]);
  }

  /** "(2+3)*4" is 20. */
  lemma Parentheses()
    ensures Evaluate("(2+3)*4") == Ok(Real(20.0))
  {
    hide ExprAt, EvaluateTokens, NumeralValue, Evaluate;
    ParenthesesText();
    ParenthesesFirst("2", "3", "4");
    OneDigit("2"); OneDigit("3"); OneDigit("4");
  }

  lemma SubtractionLeftText()
    ensures Evaluate("8-3-2") == EvaluateTokens([Number("8"), Minus, Number("3"), Minus, Number("2")])
  {
    hide ExprAt, EvaluateTokens, Evaluate;
    var toks := [Number("8"), Minus, Number("3"), Minus, Number("2")];
    GlueChars(toks, "8-3-2");
    EvaluateText("8-3-2", toks);
  }

  /** "8-3-2" is 3: subtraction folds to the left. */
  lemma SubtractionLeft()
    ensures Evaluate("8-3-2") == Ok(Real(3.0))
  {
    hide ExprAt, EvaluateTokens, NumeralValue, Evaluate;
    SubtractionLeftText();
    DifferenceFoldsLeft("8", "3", "2");
    OneDigit("8"); OneDigit("3"); OneDigit("2");
  }

  lemma Sixteen()
    ensures NumeralValue("16") == 16.0
  {
    var t: Numeral := "16";
    assert t[..2] == t;
    DigitRunIs(t, 2);
    assert t[..1] == "1";
    assert DigitsValue("1") == 1;
  }

  lemma DivisionLeftText()
    ensures Evaluate("16/4/2") == EvaluateTokens([Number("16"), Divide, Number("4"), Divide, Number("2")])
  {
    hide Lexer.Scan, Lexer.NumeralLength, Lexer.Maximal, ExprAt, EvaluateTokens;
    Lexer.ScanNumeral("2", "");
    assert "2" + "" == "2";
    Lexer.ScanSymbol('/', "2");
    assert ['/'] + "2" == "/2";
    Lexer.ScanNumeral("4", "/2");
    assert "4" + "/2" == "4/2";
    Lexer.ScanSymbol('/', "4/2");
    assert ['/'] + "4/2" == "/4/2";
    Lexer.ScanNumeral("16", "/4/2");
    assert "16" + "/4/2" == "16/4/2";
    assert Lexer.Scan("16/4/2") == [Number("16"), Divide, Number("4"), Divide, Number("2")];
    EvaluateScanned("16/4/2", [Number("16"), Divide, Number("4"), Divide, Number("2")]);
  }

  /** "16/4/2" is 2: division folds to the left. */
  lemma DivisionLeft()
    ensures Evaluate("16/4/2") == Ok(Real(2.0))
  {
    hide ExprAt, EvaluateTokens, NumeralValue, Evaluate;
    DivisionLeftText();
    Sixteen(); OneDigit("4"); OneDigit("2");
    QuotientFoldsLeft("16", "4", "2");
  }

  lemma OneAndAHalf()
    ensures NumeralValue("1.5") == 1.5
  {
    var t: Numeral := "1.5";
    assert t[..1] == "1" && t[2..] == "5";
    DigitRunIs(t, 1);
    assert DigitsValue("1") == 1;
    assert DigitsValue("5") == 5;
    assert Shift(5.0, 1) == 0.5;
  }

  lemma TwoAndAHalf()
    ensures NumeralValue("2.5") == 2.5
  {
    var t: Numeral := "2.5";
    assert t[..1] == "2" && t[2..] == "5";
    DigitRunIs(t, 1);
    assert DigitsValue("2") == 2;
    assert DigitsValue("5") == 5;
    assert Shift(5.0, 1) == 0.5;
  }

  lemma DecimalsText()
    ensures Evaluate("1.5+2.5") == EvaluateTokens([Number("1.5"), Plus, Number("2.5")])
  {
    hide ExprAt, EvaluateTokens, Evaluate;
    var toks := [Number("1.5"), Plus, Number("2.5")];
    assert Lexer.Glue(toks[2..]) == "2.5";
    assert Lexer.Glue(toks[1..]) == "+2.5";
    assert Lexer.Glue(toks) == "1.5+2.5";
    EvaluateText("1.5+2.5", toks);
  }

  /** "1.5+2.5" is 4: decimal literals denote their exact value. */
  lemma Decimals()
    ensures Evaluate("1.5+2.5") == Ok(Real(4.0))
  {
    hide ExprAt, EvaluateTokens, NumeralValue, Evaluate;
    DecimalsText();
    SumOfTwo("1.5", "2.5");
    OneAndAHalf(); TwoAndAHalf();
  }

  lemma ZeroDivisorText()
    ensures Evaluate("5/0") == EvaluateTokens([Number("5"), Divide, Number("0")])
  {
    hide ExprAt, EvaluateTokens, Evaluate;
    var toks := [Number("5"), Divide, Number("0")];
    GlueChars(toks, "5/0");
    EvaluateText("5/0", toks);
  }

  /** "5/0" succeeds, with a non-finite value. */
  lemma ZeroDivisor()
    ensures Evaluate("5/0") == Ok(NonFinite)
  {
    hide ExprAt, EvaluateTokens, NumeralValue, Evaluate;
    ZeroDivisorText();
    OneDigit("0");
    DivisionByZero("5", "0");
  }

  /** "" matches nothing. */
  lemma EmptyInput()
    ensures Evaluate("") == Err(InvalidExpression)
  {
  }

  /** "(1+2" fails for want of ')'. */
  lemma MissingCloseParen()
    ensures Evaluate("(1+2") == Err(ExpectedClosingParen)
  {
    hide ExprAt, EvaluateTokens, NumeralValue, Evaluate;
    var e := SumTree("1", "2");
    var toks := [LParen] + PrintE(e);
    assert toks == [LParen, Number("1"), Plus, Number("2")];
    GlueChars(toks, "(1+2");
    EvaluateText("(1+2", toks);
    UnclosedParen(e);
  }

  /** "2+2)" reads "2+2" and then fails on the ')' left over. */
  lemma StrayParen()
    ensures Evaluate("2+2)") == Err(TrailingInput)
  {
    hide ExprAt, EvaluateTokens, NumeralValue, Evaluate;
    var e := SumTree("2", "2");
    var toks := PrintE(e) + [RParen] + [];
    assert toks == [Number("2"), Plus, Number("2"), RParen];
    GlueChars(toks, "2+2)");
    EvaluateText("2+2)", toks);
    StrayCloseParen(e, []);
  }

  lemma IgnoredCharactersScan()
    ensures Lexer.Scan("2x+3") == [Number("2"), Plus, Number("3")]
  {
    hide Lexer.Scan, Lexer.NumeralLength, Lexer.Maximal;
    ThreeAlone();
    Lexer.ScanSymbol('+', "3");
    assert ['+'] + "3" == "+3";
    Lexer.ScanSkip('x', "+3");
    assert ['x'] + "+3" == "x+3";
    Lexer.ScanNumeral("2", "x+3");
    assert "2" + "x+3" == "2x+3";
  }

  /** "2x+3" is 5: a character outside every token is dropped unnoticed. */
  lemma IgnoredCharacters()
    ensures Evaluate("2x+3") == Ok(Real(5.0))
  {
    IgnoredCharactersScan();
    hide ExprAt, EvaluateTokens, NumeralValue, Lexer.Scan;
    SumOfTwo("2", "3");
    OneDigit("2"); OneDigit("3");
  }

  lemma DanglingPlusScan()
    ensures Lexer.Scan("2+") == [Number("2"), Plus]
  {
    hide Lexer.Scan, Lexer.NumeralLength;
    Lexer.ScanSymbol('+', "");
    assert ['+'] + "" == "+";
    Lexer.ScanNumeral("2", "+");
    assert "2" + "+" == "2+";
  }

  /** "2+" reads past the end for the right operand: "Unexpected token: undefined". */
  lemma DanglingPlus()
    ensures Evaluate("2+") == Err(UnexpectedToken(None))
  {
    hide Lexer.Scan, ExprAt, EvaluateTokens, NumeralValue;
    DanglingPlusScan();
    EvaluateScanned("2+", [Number("2"), Plus]);
    Operand("2");
    var e := ETerm(TFactor(Lit("2")));
    assert PrintE(e) + [AddToken(Add)] == [Number("2"), Plus];
    DanglingAddOperator(e, Add);
  }

  /** "()" finds `)` where a factor must start. */
  lemma EmptyParentheses()
    ensures Evaluate("()") == Err(UnexpectedToken(Some(RParen)))
  {
    var toks := [LParen, RParen];
    Lexer.ScanSymbol(')', "");
    assert [')'] + "" == ")";
    Lexer.ScanSymbol('(', ")");
    assert ['('] + ")" == "()";
    EvaluateScanned("()", toks);
    assert FactorAt(toks, 1) == Err(UnexpectedToken(Some(RParen)));
    assert TermAt(toks, 1) == Err(UnexpectedToken(Some(RParen)));
    assert FactorAt(toks, 0) == Err(UnexpectedToken(Some(RParen)));
  }

  /** "1.2" is a whole numeral token when ".3" follows. */
  lemma OneDotTwo()
    ensures Lexer.Maximal(Number("1.2"), ".3")
  {
    var t: Numeral := "1.2";
    assert t[..1] == "1";
    DigitRunIs(t, 1);
  }

  lemma ThreeAlone()
    ensures Lexer.Scan("3") == [Number("3")]
  {
    Lexer.ScanNumeral("3", "");
    assert "3" + "" == "3";
  }

  lemma DotThree()
    ensures Lexer.Scan(".3") == [Number("3")]
  {
    ThreeAlone();
    Lexer.ScanSkip('.', "3");
    assert ['.'] + "3" == ".3";
  }

  /** "1.2.3" tokenizes as "1.2" and "3": the second '.' starts no match. */
  lemma TwoDotsTokens()
    ensures Lexer.Tokenize("1.2.3") == Ok([Number("1.2"), Number("3")])
  {
    TwoDotsScan();
  }

  lemma TwoDotsScan()
    ensures Lexer.Scan("1.2.3") == [Number("1.2"), Number("3")]
  {
    hide Lexer.Scan, Lexer.NumeralLength, Lexer.Maximal;
    OneDotTwo();
    DotThree();
    Lexer.ScanNumeral("1.2", ".3");
    assert "1.2" + ".3" == "1.2.3";
  }

  /** Two numerals in a row leave the second one over. */
  lemma TwoNumbers(a: Numeral, b: Numeral)
    ensures EvaluateTokens([Number(a), Number(b)]) == Err(TrailingInput)
  {
    var toks := [Number(a), Number(b)];
    var e := ETerm(TFactor(Lit(a)));
    assert PrintF(Lit(a)) == [Number(a)];
    assert PrintT(TFactor(Lit(a))) == [Number(a)];
    assert PrintE(e) == [Number(a)] == toks[0..1];
    hide NumeralValue, TermAt, FactorAt, ExprTail, TermTail;
    ExprComplete(e, toks, 0);
  }

  /** "1.2.3" therefore fails with input left over. */
  lemma TwoDots()
    ensures Evaluate("1.2.3") == Err(TrailingInput)
  {
    hide Lexer.Tokenize, Lexer.Scan, EvaluateTokens, ExprAt, NumeralValue;
    TwoDotsTokens();
    TwoNumbers("1.2", "3");
  }
}
