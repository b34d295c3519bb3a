/** The tokenizer `tokenize` (api/parse.js:83-88).

    The source calls `expr.match(/\d+(\.\d+)?|[+\-*\/()]/g)`: all non-overlapping
    matches of the pattern, left to right, each taken at the leftmost position
    where the pattern can match and as long as the greedy pattern allows.
    Characters outside every match are dropped. Here that is a hand-written
    scanner, `Scan`, and a declarative description of the matches, `Matches`;
    the two are proved to agree in both directions. */
module Lexer {
  import opened Tokens
  import opened Outcomes

  /** No character of `s` can start a match. */
  predicate NoTokenStart(s: string) {
    forall i | 0 <= i < |s| :: !StartsToken(s[i])
  }

  /** Greediness of the pattern: a number token is not followed by a digit,
      and one without a fraction is not followed by `.` and a digit. */
  predicate Maximal(t: Token, rest: string) {
    t.Number? ==>
      && (rest == [] || !IsDigit(rest[0]))
      && (IsWhole(t.text) ==> !(|rest| >= 2 && rest[0] == '.' && IsDigit(rest[1])))
  }

  /** The match the pattern makes in `s` is `t`, found `k` characters in. */
  predicate FirstMatchAt(s: string, t: Token, k: int) {
    && 0 <= k
    && k + |Text(t)| <= |s|
    && NoTokenStart(s[..k])
    && s[k..k + |Text(t)|] == Text(t)
    && Maximal(t, s[k + |Text(t)|..])
  }

  /** `toks` is the list of all matches of the pattern in `s`, in order. */
  ghost predicate Matches(s: string, toks: seq<Token>)
    decreases |toks|
  {
    if toks == [] then NoTokenStart(s)
    else exists k :: FirstMatchAt(s, toks[0], k) && Matches(s[k + |Text(toks[0])|..], toks[1..])
  }

  /** Length of the match `\d+(\.\d+)?` at the start of `s`. */
  function NumeralLength(s: string): (n: nat)
    requires |s| > 0 && IsDigit(s[0])
    ensures 0 < n <= |s|
    ensures IsNumeral(s[..n])
    ensures Maximal(Number(s[..n]), s[n..])
  {
    var d := DigitRun(s);
    if d + 1 < |s| && s[d] == '.' && IsDigit(s[d + 1]) then
      var f := DigitRun(s[d + 1..]);
      var n := d + 1 + f;
      assert s[..n][..d] == s[..d];
      DigitRunIs(s[..n], d);
      assert s[..n][d + 1..] == s[d + 1..][..f];
      assert n < |s| ==> s[n] == s[d + 1..][f];
      n
    else
      assert s[..d][..d] == s[..d];
      DigitRunIs(s[..d], d);
      d
  }

  /** The scanner: every match of the pattern in `s`, in order. */
  function Scan(s: string): (toks: seq<Token>)
    ensures toks == [] <==> NoTokenStart(s)
    decreases |s|
  {
    if s == [] then []
    else if IsDigit(s[0]) then
      var n := NumeralLength(s);
      [Number(s[..n])] + Scan(s[n..])
    else if IsSymbol(s[0]) then
      [SymbolToken(s[0])] + Scan(s[1..])
    else
      assert forall i | 1 <= i < |s| :: s[i] == s[1..][i - 1];
      Scan(s[1..])
  }

  /** `tokenize`: the matches, or InvalidExpression when there are none. */
  function Tokenize(s: string): (r: Result<seq<Token>>)
    ensures r.Err? <==> NoTokenStart(s)
    ensures r.Err? ==> r.error == InvalidExpression
    ensures r.Ok? ==> |r.value| > 0
  {
    var toks := Scan(s);
    if toks == [] then Err(InvalidExpression) else Ok(toks)
  }

  /** The first match of a non-empty list, and the matches after it. */
  lemma FirstMatch(s: string, toks: seq<Token>) returns (k: nat)
    requires toks != [] && Matches(s, toks)
    ensures FirstMatchAt(s, toks[0], k) && Matches(s[k + |Text(toks[0])|..], toks[1..])
  {
    k :| FirstMatchAt(s, toks[0], k) && Matches(s[k + |Text(toks[0])|..], toks[1..]);
  }

  /** A first match followed by the matches of the rest is a list of matches. */
  lemma MatchesCons(s: string, toks: seq<Token>, k: nat, r: string)
    requires toks != [] && FirstMatchAt(s, toks[0], k)
    requires s[k + |Text(toks[0])|..] == r && Matches(r, toks[1..])
    ensures Matches(s, toks)
  {
  }

  /** Dropping a first character that starts no match changes no match. */
  lemma UnshiftMatches(s: string, toks: seq<Token>, k: nat)
    requires toks != [] && k > 0
    requires FirstMatchAt(s, toks[0], k) && Matches(s[k + |Text(toks[0])|..], toks[1..])
    ensures !StartsToken(s[0]) && Matches(s[1..], toks)
  {
    UnshiftFirstMatch(s, toks[0], k);
    MatchesCons(s[1..], toks, k - 1, s[k + |Text(toks[0])|..]);
  }

  /** Prepending a character that cannot start a match changes no match. */
  lemma SkipCharacter(c: char, s: string, toks: seq<Token>)
    requires !StartsToken(c) && Matches(s, toks)
    ensures Matches([c] + s, toks)
  {
    if toks != [] {
      var k := FirstMatch(s, toks);
      ShiftFirstMatch(c, s, toks[0], k);
      MatchesCons([c] + s, toks, k + 1, s[k + |Text(toks[0])|..]);
    } else {
      var cs := [c] + s;
      assert forall i | 1 <= i < |cs| :: cs[i] == s[i - 1];
    }
  }

  lemma ShiftFirstMatch(c: char, s: string, t: Token, k: int)
    requires !StartsToken(c) && FirstMatchAt(s, t, k)
    ensures FirstMatchAt([c] + s, t, k + 1)
    ensures ([c] + s)[k + 1 + |Text(t)|..] == s[k + |Text(t)|..]
  {
    var cs := [c] + s;
    assert cs[..k + 1] == [c] + s[..k];
    assert cs[k + 1..k + 1 + |Text(t)|] == s[k..k + |Text(t)|];
  }

  lemma UnshiftFirstMatch(s: string, t: Token, k: int)
    requires k > 0 && FirstMatchAt(s, t, k)
    ensures !StartsToken(s[0])
    ensures FirstMatchAt(s[1..], t, k - 1)
    ensures s[1..][k - 1 + |Text(t)|..] == s[k + |Text(t)|..]
  {
    assert s[..k][0] == s[0];
    var s1 := s[1..];
    assert s1[..k - 1] == s[1..k];
    assert forall i | 0 <= i < k - 1 :: s[1..k][i] == s[..k][i + 1];
    assert s1[k - 1..k - 1 + |Text(t)|] == s[k..k + |Text(t)|];
  }

  /** A numeral followed by text that does not extend it is matched whole. */
  lemma NumeralLengthOf(text: Numeral, rest: string)
    requires Maximal(Number(text), rest)
    ensures NumeralLength(text + rest) == |text|
  {
    var s := text + rest;
    var d := DigitRun(text);
    assert s[..d] == text[..d];
    if d == |text| {
      DigitRunIs(s, d);
    } else {
      DigitRunIs(s, d);
      assert s[d + 1..] == text[d + 1..] + rest;
      assert s[d + 1..][..|text| - d - 1] == text[d + 1..];
      DigitRunIs(s[d + 1..], |text| - d - 1);
    }
  }

  /** A numeral that the following text does not extend is one token. */
  lemma ScanNumeral(text: Numeral, rest: string)
    requires Maximal(Number(text), rest)
    ensures Scan(text + rest) == [Number(text)] + Scan(rest)
  {
    NumeralLengthOf(text, rest);
    var s := text + rest;
    assert s[..|text|] == text;
    assert s[|text|..] == rest;
  }

  /** A symbol is one token. */
  lemma ScanSymbol(c: char, rest: string)
    requires IsSymbol(c)
    ensures Scan([c] + rest) == [SymbolToken(c)] + Scan(rest)
  {
    assert ([c] + rest)[1..] == rest;
  }

  /** A character that starts no match is dropped. */
  lemma ScanSkip(c: char, rest: string)
    requires !StartsToken(c)
    ensures Scan([c] + rest) == Scan(rest)
  {
    assert ([c] + rest)[1..] == rest;
  }

  /** When `s` starts with a token, the scanner's first token is a match there. */
  lemma ScanHead(s: string)
    requires s != [] && StartsToken(s[0])
    ensures Scan(s) != [] && FirstMatchAt(s, Scan(s)[0], 0)
    ensures Scan(s)[1..] == Scan(s[|Text(Scan(s)[0])|..])
  {
    assert s[..0] == [];
    if IsDigit(s[0]) {
      var n := NumeralLength(s);
      assert Scan(s) == [Number(s[..n])] + Scan(s[n..]);
    } else {
      assert Scan(s) == [SymbolToken(s[0])] + Scan(s[1..]);
    }
  }

  /** The scanner finds exactly the matches the pattern describes. */
  lemma {:induction false} ScanMatches(s: string)
    ensures Matches(s, Scan(s))
    decreases |s|, 1
  {
    if s == [] {
    } else if StartsToken(s[0]) {
      ScanMatchesHead(s);
    } else {
      ScanMatchesSkip(s);
    }
  }

  lemma {:induction false} ScanMatchesHead(s: string)
    requires s != [] && StartsToken(s[0])
    ensures Matches(s, Scan(s))
    decreases |s|, 0
  {
    var toks := Scan(s);
    ScanHead(s);
    var r := s[|Text(toks[0])|..];
    ScanMatches(r);
    MatchesCons(s, toks, 0, r);
  }

  lemma {:induction false} ScanMatchesSkip(s: string)
    requires s != [] && !StartsToken(s[0])
    ensures Matches(s, Scan(s))
    decreases |s|, 0
  {
    ScanMatches(s[1..]);
    ScanSkip(s[0], s[1..]);
    assert [s[0]] + s[1..] == s;
    SkipCharacter(s[0], s[1..], Scan(s));
  }

  /** A match at the very start of `s` is the scanner's first token. */
  lemma ScanFirstMatch(s: string, t: Token)
    requires FirstMatchAt(s, t, 0)
    ensures Scan(s) == [t] + Scan(s[|Text(t)|..])
  {
    var L := |Text(t)|;
    assert s[..L] == Text(t);
    assert s[0] == Text(t)[0];
    if t.Number? {
      assert s == t.text + s[L..];
      ScanNumeral(t.text, s[L..]);
    } else {
      assert IsSymbol(s[0]);
      assert SymbolToken(s[0]) == t;
      ScanSymbol(s[0], s[1..]);
      assert [s[0]] + s[1..] == s;
    }
  }

  /** Only one token list describes the matches in `s`: the scanner's. */
  lemma {:induction false} MatchesUnique(s: string, toks: seq<Token>)
    requires Matches(s, toks)
    ensures toks == Scan(s)
    decreases |s|, 1
  {
    if toks != [] {
      var k := FirstMatch(s, toks);
      if k > 0 {
        UniqueAfterSkip(s, toks, k);
      } else {
        UniqueAtStart(s, toks);
      }
    }
  }

  lemma {:induction false} UniqueAfterSkip(s: string, toks: seq<Token>, k: nat)
    requires toks != [] && k > 0
    requires FirstMatchAt(s, toks[0], k) && Matches(s[k + |Text(toks[0])|..], toks[1..])
    ensures toks == Scan(s)
    decreases |s|, 0
  {
    UnshiftMatches(s, toks, k);
    MatchesUnique(s[1..], toks);
    ScanSkip(s[0], s[1..]);
    assert [s[0]] + s[1..] == s;
  }

  lemma {:induction false} UniqueAtStart(s: string, toks: seq<Token>)
    requires toks != []
    requires FirstMatchAt(s, toks[0], 0) && Matches(s[|Text(toks[0])|..], toks[1..])
    ensures toks == Scan(s)
    decreases |s|, 0
  {
    var t := toks[0];
    ScanFirstMatch(s, t);
    MatchesUnique(s[|Text(t)|..], toks[1..]);
    assert toks == [t] + toks[1..];
  }

  /** What `tokenize` returns is characterised by the pattern alone. */
  lemma TokenizeCharacterized(s: string, toks: seq<Token>)
    ensures Tokenize(s) == Ok(toks) <==> toks != [] && Matches(s, toks)
  {
    ScanMatches(s);
    if Matches(s, toks) {
      MatchesUnique(s, toks);
    }
  }

  /** Text that tokenizes back to `toks`: every token followed by a space. */
  function Unlex(toks: seq<Token>): (s: string)
  {
    if toks == [] then [] else Text(toks[0]) + " " + Unlex(toks[1..])
  }

  lemma {:induction false} UnlexMatches(toks: seq<Token>)
    ensures Matches(Unlex(toks), toks)
  {
    if toks != [] {
      var t := toks[0];
      var s := Unlex(toks);
      var L := |Text(t)|;
      UnlexMatches(toks[1..]);
      SkipCharacter(' ', Unlex(toks[1..]), toks[1..]);
      assert s[L..] == [' '] + Unlex(toks[1..]);
      assert s[..0] == [];
      assert FirstMatchAt(s, t, 0);
    }
  }

  /** No two number tokens are next to each other. */
  predicate Separated(toks: seq<Token>) {
    forall i | 0 <= i < |toks| - 1 :: !(toks[i].Number? && toks[i + 1].Number?)
  }

  /** The tokens' texts written one after another. */
  function Glue(toks: seq<Token>): (s: string)
  {
    if toks == [] then [] else Text(toks[0]) + Glue(toks[1..])
  }

  lemma {:induction false} GlueMatches(toks: seq<Token>)
    requires Separated(toks)
    ensures Matches(Glue(toks), toks)
  {
    if toks != [] {
      var t := toks[0];
      var s := Glue(toks);
      var L := |Text(t)|;
      GlueMatches(toks[1..]);
      assert s[L..] == Glue(toks[1..]);
      assert s[..0] == [];
      if t.Number? && |toks| > 1 {
        assert !toks[1].Number?;
        assert s[L..][0] == Text(toks[1])[0];
      }
      assert FirstMatchAt(s, t, 0);
    }
  }

  /** Round trip: tokens of which no two numbers touch, written without any
      separator, tokenize back to themselves. */
  lemma TokenizeGlue(toks: seq<Token>)
    requires toks != [] && Separated(toks)
    ensures Tokenize(Glue(toks)) == Ok(toks)
  {
    GlueMatches(toks);
    TokenizeCharacterized(Glue(toks), toks);
  }

  /** Round trip: printing tokens apart and tokenizing gives them back. */
  lemma TokenizeUnlex(toks: seq<Token>)
    requires toks != []
    ensures Tokenize(Unlex(toks)) == Ok(toks)
  {
    UnlexMatches(toks);
    TokenizeCharacterized(Unlex(toks), toks);
  }
}
