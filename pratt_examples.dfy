/** The example the source's `main` parses: the text `-24 + 12 * 43 - 143 / 3`,
    the token stream the tokenizer yields for it, and the tree and S-expression it prints. */
module PrattExamples {
  import opened Tokens
  import opened PrattParser
  import PrattProperties
  import Tlex

  /** The text `main` hands to `lexer_init`. */
  const MAIN_TEXT: string := "-24 + 12 * 43 - 143 / 3"

  /** The tokens of `-24 + 12 * 43 - 143 / 3`, ending in end-of-input. */
  const MAIN_TOKENS: seq<Token> := [
      Token(Minus, "-", 1), Token(Number, "24", 2), Token(Plus, "+", 1), Token(Number, "12", 2),
      Token(Star, "*", 1), Token(Number, "43", 2), Token(Minus, "-", 1), Token(Number, "143", 3),
      Token(Slash, "/", 1), Token(Number, "3", 1), EofToken]

  /** The characters of `main`'s text, one by one. */
  predicate MainChars(t: string) {
    |t| == 23 &&
    t[0] == '-' && t[1] == '2' && t[2] == '4' && t[3] == ' ' && t[4] == '+' && t[5] == ' ' &&
    t[6] == '1' && t[7] == '2' && t[8] == ' ' && t[9] == '*' && t[10] == ' ' && t[11] == '4' &&
    t[12] == '3' && t[13] == ' ' && t[14] == '-' && t[15] == ' ' && t[16] == '1' && t[17] == '4' &&
    t[18] == '3' && t[19] == ' ' && t[20] == '/' && t[21] == ' ' && t[22] == '3'
  }

  lemma MainTextChars(t: string)
    requires t == MAIN_TEXT
    ensures MainChars(t)
  {
    MainTextCharsLeft(t);
    MainTextCharsMiddle(t);
    MainTextCharsRight(t);
  }

  lemma MainTextCharsLeft(t: string)
    requires t == MAIN_TEXT
    ensures |t| == 23 && t[0] == '-' && t[1] == '2' && t[2] == '4' && t[3] == ' ' && t[4] == '+' && t[5] == ' ' && t[6] == '1' && t[7] == '2'
  {
  }

  lemma MainTextCharsMiddle(t: string)
    requires t == MAIN_TEXT
    ensures |t| == 23 && t[8] == ' ' && t[9] == '*' && t[10] == ' ' && t[11] == '4' && t[12] == '3' && t[13] == ' ' && t[14] == '-' && t[15] == ' '
  {
  }

  lemma MainTextCharsRight(t: string)
    requires t == MAIN_TEXT
    ensures |t| == 23 && t[16] == '1' && t[17] == '4' && t[18] == '3' && t[19] == ' ' && t[20] == '/' && t[21] == ' ' && t[22] == '3'
  {
  }

  // One step of each scanning loop, and one `peek_token` from its parts.

  lemma SkipNone(t: string, i: nat)
    requires i < |t| && !Tlex.IsSpace(t[i])
    ensures Tlex.SkipSpaces(t, i) == i
  {
  }

  lemma SkipOne(t: string, i: nat)
    requires i + 1 < |t| && Tlex.IsSpace(t[i]) && !Tlex.IsSpace(t[i + 1])
    ensures Tlex.SkipSpaces(t, i) == i + 1
  {
    SkipNone(t, i + 1);
  }

  lemma DigitsStop(t: string, i: nat)
    requires i <= |t| && (i < |t| ==> !Tlex.IsDigit(t[i]))
    ensures Tlex.DigitsEnd(t, i) == i
  {
  }

  lemma DigitsStep(t: string, i: nat)
    requires i < |t| && Tlex.IsDigit(t[i])
    ensures Tlex.DigitsEnd(t, i) == Tlex.DigitsEnd(t, i + 1)
  {
  }

  lemma ScanPunctuation(t: string, i: nat, s: nat)
    requires i <= s < |t| && Tlex.SkipSpaces(t, i) == s
    requires Tlex.Punctuation(t[s]).Some? && !Tlex.IsDigit(t[s])
    ensures Tlex.Scan(t, i) == Tlex.Scanned(Token(Tlex.Punctuation(t[s]).value, [t[s]], 1), s, s + 1)
  {
    assert t[s..s + 1] == [t[s]];
  }

  lemma ScanNumber(t: string, i: nat, s: nat, e: nat)
    requires i <= s < e <= |t| && Tlex.SkipSpaces(t, i) == s && Tlex.IsDigit(t[s])
    requires Tlex.DigitsEnd(t, s + 1) == e
    ensures Tlex.Scan(t, i) == Tlex.Scanned(Token(Number, t[s..e], e - s), s, e)
  {
  }

  /** A scan that yields a token other than end-of-input puts it at the head of the stream. */
  lemma TokenizeStep(t: string, i: nat, token: Token, s: nat, next: nat)
    requires i <= |t|
    requires Tlex.Scan(t, i) == Tlex.Scanned(token, s, next) && token.kind != Eof
    ensures Tlex.Tokenize(t, i) == [token] + Tlex.Tokenize(t, next)
  {
  }

  // One `next_token` per token of `main`'s text: what the scan returns, and the
  // stream step it makes.

  lemma ScanMinusSign(t: string)
    requires MainChars(t)
    ensures Tlex.Scan(t, 0) == Tlex.Scanned(Token(Minus, "-", 1), 0, 1)
    ensures Tlex.Tokenize(t, 0) == [Token(Minus, "-", 1)] + Tlex.Tokenize(t, 1)
  {
    SkipNone(t, 0);
    ScanPunctuation(t, 0, 0);
    TokenizeStep(t, 0, Token(Minus, "-", 1), 0, 1);
  }

  lemma ScanTwentyFour(t: string)
    requires MainChars(t)
    ensures Tlex.Scan(t, 1) == Tlex.Scanned(Token(Number, "24", 2), 1, 3)
    ensures Tlex.Tokenize(t, 1) == [Token(Number, "24", 2)] + Tlex.Tokenize(t, 3)
  {
    SkipNone(t, 1);
    DigitsStop(t, 3);
    DigitsStep(t, 2);
    ScanNumber(t, 1, 1, 3);
    assert t[1..3] == "24";
    TokenizeStep(t, 1, Token(Number, "24", 2), 1, 3);
  }

  lemma ScanPlus(t: string)
    requires MainChars(t)
    ensures Tlex.Scan(t, 3) == Tlex.Scanned(Token(Plus, "+", 1), 4, 5)
    ensures Tlex.Tokenize(t, 3) == [Token(Plus, "+", 1)] + Tlex.Tokenize(t, 5)
  {
    SkipOne(t, 3);
    ScanPunctuation(t, 3, 4);
    TokenizeStep(t, 3, Token(Plus, "+", 1), 4, 5);
  }

  lemma ScanTwelve(t: string)
    requires MainChars(t)
    ensures Tlex.Scan(t, 5) == Tlex.Scanned(Token(Number, "12", 2), 6, 8)
    ensures Tlex.Tokenize(t, 5) == [Token(Number, "12", 2)] + Tlex.Tokenize(t, 8)
  {
    SkipOne(t, 5);
    DigitsStop(t, 8);
    DigitsStep(t, 7);
    ScanNumber(t, 5, 6, 8);
    assert t[6..8] == "12";
    TokenizeStep(t, 5, Token(Number, "12", 2), 6, 8);
  }

  lemma ScanStar(t: string)
    requires MainChars(t)
    ensures Tlex.Scan(t, 8) == Tlex.Scanned(Token(Star, "*", 1), 9, 10)
    ensures Tlex.Tokenize(t, 8) == [Token(Star, "*", 1)] + Tlex.Tokenize(t, 10)
  {
    SkipOne(t, 8);
    ScanPunctuation(t, 8, 9);
    TokenizeStep(t, 8, Token(Star, "*", 1), 9, 10);
  }

  lemma ScanFortyThree(t: string)
    requires MainChars(t)
    ensures Tlex.Scan(t, 10) == Tlex.Scanned(Token(Number, "43", 2), 11, 13)
    ensures Tlex.Tokenize(t, 10) == [Token(Number, "43", 2)] + Tlex.Tokenize(t, 13)
  {
    SkipOne(t, 10);
    DigitsStop(t, 13);
    DigitsStep(t, 12);
    ScanNumber(t, 10, 11, 13);
    assert t[11..13] == "43";
    TokenizeStep(t, 10, Token(Number, "43", 2), 11, 13);
  }

  lemma ScanMinus(t: string)
    requires MainChars(t)
    ensures Tlex.Scan(t, 13) == Tlex.Scanned(Token(Minus, "-", 1), 14, 15)
    ensures Tlex.Tokenize(t, 13) == [Token(Minus, "-", 1)] + Tlex.Tokenize(t, 15)
  {
    SkipOne(t, 13);
    ScanPunctuation(t, 13, 14);
    TokenizeStep(t, 13, Token(Minus, "-", 1), 14, 15);
  }

  lemma ScanHundredFortyThree(t: string)
    requires MainChars(t)
    ensures Tlex.Scan(t, 15) == Tlex.Scanned(Token(Number, "143", 3), 16, 19)
    ensures Tlex.Tokenize(t, 15) == [Token(Number, "143", 3)] + Tlex.Tokenize(t, 19)
  {
    SkipOne(t, 15);
    DigitsStop(t, 19);
    DigitsStep(t, 18);
    DigitsStep(t, 17);
    ScanNumber(t, 15, 16, 19);
    assert t[16..19] == "143";
    TokenizeStep(t, 15, Token(Number, "143", 3), 16, 19);
  }

  lemma ScanSlash(t: string)
    requires MainChars(t)
    ensures Tlex.Scan(t, 19) == Tlex.Scanned(Token(Slash, "/", 1), 20, 21)
    ensures Tlex.Tokenize(t, 19) == [Token(Slash, "/", 1)] + Tlex.Tokenize(t, 21)
  {
    SkipOne(t, 19);
    ScanPunctuation(t, 19, 20);
    TokenizeStep(t, 19, Token(Slash, "/", 1), 20, 21);
  }

  lemma ScanThree(t: string)
    requires MainChars(t)
    ensures Tlex.Scan(t, 21) == Tlex.Scanned(Token(Number, "3", 1), 22, 23)
    ensures Tlex.Tokenize(t, 21) == [Token(Number, "3", 1)] + Tlex.Tokenize(t, 23)
  {
    SkipOne(t, 21);
    DigitsStop(t, 23);
    ScanNumber(t, 21, 22, 23);
    assert t[22..23] == "3";
    TokenizeStep(t, 21, Token(Number, "3", 1), 22, 23);
  }

  lemma ScanEnd(t: string)
    requires MainChars(t)
    ensures Tlex.Scan(t, 23) == Tlex.Scanned(EofToken, 23, 23)
    ensures Tlex.Tokenize(t, 23) == [EofToken]
  {
  }

  /** Three stream steps in a row. */
  lemma Cons3(x0: seq<Token>, x1: seq<Token>, x2: seq<Token>, x3: seq<Token>, a: Token, b: Token, c: Token)
    requires x0 == [a] + x1 && x1 == [b] + x2 && x2 == [c] + x3
    ensures x0 == [a, b, c] + x3
  {
  }

  /** The tokens successive `next_token` calls return for `main`'s text. */
  lemma MainTokenize(t: string)
    requires t == MAIN_TEXT
    ensures Tlex.Tokenize(t, 0) == MAIN_TOKENS
  {
    MainTextChars(t);
    ScanMinusSign(t);
    ScanTwentyFour(t);
    ScanPlus(t);
    Cons3(Tlex.Tokenize(t, 0), Tlex.Tokenize(t, 1), Tlex.Tokenize(t, 3), Tlex.Tokenize(t, 5),
          Token(Minus, "-", 1), Token(Number, "24", 2), Token(Plus, "+", 1));
    ScanTwelve(t);
    ScanStar(t);
    ScanFortyThree(t);
    Cons3(Tlex.Tokenize(t, 5), Tlex.Tokenize(t, 8), Tlex.Tokenize(t, 10), Tlex.Tokenize(t, 13),
          Token(Number, "12", 2), Token(Star, "*", 1), Token(Number, "43", 2));
    ScanMinus(t);
    ScanHundredFortyThree(t);
    ScanSlash(t);
    Cons3(Tlex.Tokenize(t, 13), Tlex.Tokenize(t, 15), Tlex.Tokenize(t, 19), Tlex.Tokenize(t, 21),
          Token(Minus, "-", 1), Token(Number, "143", 3), Token(Slash, "/", 1));
    ScanThree(t);
    ScanEnd(t);
    MainTokensSplit();
  }

  lemma MainTokensSplit()
    ensures MAIN_TOKENS ==
            [Token(Minus, "-", 1), Token(Number, "24", 2), Token(Plus, "+", 1)] +
            ([Token(Number, "12", 2), Token(Star, "*", 1), Token(Number, "43", 2)] +
             ([Token(Minus, "-", 1), Token(Number, "143", 3), Token(Slash, "/", 1)] +
              ([Token(Number, "3", 1)] + [EofToken])))
  {
  }

  /** The tree of the example: `-` binds the operand 24 only, `*` and `/` bind
      tighter than `+` and `-`, and the two additive operators group to the left. */
  const MAIN_TREE: Node :=
    Binop(Min,
      Binop(Sum, Prefix(Neg, Leaf(24)), Binop(Mul, Leaf(12), Leaf(43))),
      Binop(Div, Leaf(143), Leaf(3)))

  /** Any stream shaped like the example, whatever its numbers: the leading `-` takes
      the first number only, `*` and `/` bind tighter than `+` and `-`, and the two
      additive operators group to the left. */
  lemma MainShape(ts: seq<Token>)
    requires |ts| == 11 && ts[10].kind == Eof
    requires ts[0].kind == Minus && ts[2].kind == Plus && ts[4].kind == Star
    requires ts[6].kind == Minus && ts[8].kind == Slash
    requires ts[1].kind == Number && ts[3].kind == Number && ts[5].kind == Number
    requires ts[7].kind == Number && ts[9].kind == Number
    ensures ExprBp(ts, 0, 0) ==
            Ok(Parsed(Binop(Min,
                        Binop(Sum, Prefix(Neg, PrattProperties.NumLeaf(ts[1])), Binop(Mul, PrattProperties.NumLeaf(ts[3]), PrattProperties.NumLeaf(ts[5]))),
                        Binop(Div, PrattProperties.NumLeaf(ts[7]), PrattProperties.NumLeaf(ts[9]))), 10))
  {
    var neg := Prefix(Neg, PrattProperties.NumLeaf(ts[1]));
    var mul := Binop(Mul, PrattProperties.NumLeaf(ts[3]), PrattProperties.NumLeaf(ts[5]));
    var sum := Binop(Sum, neg, mul);
    var div := Binop(Div, PrattProperties.NumLeaf(ts[7]), PrattProperties.NumLeaf(ts[9]));
    var tree := Binop(Min, sum, div);
    // `- 24`, closed by `+`
    assert ExprBp(ts, 1, 5) == Ok(Parsed(PrattProperties.NumLeaf(ts[1]), 2));
    // `12 * 43`, closed by `-`
    assert Loop(ts, 6, 4, PrattProperties.NumLeaf(ts[5])) == Ok(Parsed(PrattProperties.NumLeaf(ts[5]), 6));
    assert ExprBp(ts, 5, 4) == Ok(Parsed(PrattProperties.NumLeaf(ts[5]), 6));
    assert Loop(ts, 6, 2, mul) == Ok(Parsed(mul, 6));
    assert ExprBp(ts, 3, 2) == Ok(Parsed(mul, 6));
    // `143 / 3`, closed by end-of-input
    assert Loop(ts, 10, 4, PrattProperties.NumLeaf(ts[9])) == Ok(Parsed(PrattProperties.NumLeaf(ts[9]), 10));
    assert ExprBp(ts, 9, 4) == Ok(Parsed(PrattProperties.NumLeaf(ts[9]), 10));
    assert Loop(ts, 10, 2, div) == Ok(Parsed(div, 10));
    assert ExprBp(ts, 7, 2) == Ok(Parsed(div, 10));
    // the operator loop of the outermost call
    assert Loop(ts, 10, 0, tree) == Ok(Parsed(tree, 10));
    assert Loop(ts, 6, 0, sum) == Ok(Parsed(tree, 10));
    assert Loop(ts, 2, 0, neg) == Ok(Parsed(tree, 10));
  }

  /** `strtol` on the example's three-digit lexeme. */
  lemma ThreeDigitValue()
    ensures DigitsValue("143") == 143
  {
    assert DigitsValue("14") == 14;
    assert "143"[..2] == "14";
  }

  /** The values `strtol` reads from the example's first three number lexemes. */
  lemma MainValuesLeft()
    ensures Strtol("24") == 24 && Strtol("12") == 12 && Strtol("43") == 43
  {
    PrattProperties.StrtolOfDigits("24");
    PrattProperties.StrtolOfDigits("12");
    PrattProperties.StrtolOfDigits("43");
  }

  /** The values `strtol` reads from the example's last two number lexemes. */
  lemma MainValuesRight()
    ensures Strtol("143") == 143 && Strtol("3") == 3
  {
    ThreeDigitValue();
    PrattProperties.StrtolOfDigits("143");
    PrattProperties.StrtolOfDigits("3");
  }

  /** The example's tokens parse to the example's tree, consuming all but end-of-input. */
  lemma MainTokensParse(ts: seq<Token>)
    requires ts == MAIN_TOKENS
    ensures ExprBp(ts, 0, 0) == Ok(Parsed(MAIN_TREE, 10))
  {
    MainShape(ts);
    MainValuesLeft();
    MainValuesRight();
  }

  /** The whole of `main`: `expr_bp(&lexer, 0)` on the tokens of its text returns the
      example's tree, with every token but end-of-input consumed. */
  lemma MainExample(t: string)
    requires t == MAIN_TEXT
    ensures ExprBp(Tlex.Tokenize(t, 0), 0, 0) == Ok(Parsed(MAIN_TREE, 10))
  {
    MainTokenize(t);
    MainTokensParse(Tlex.Tokenize(t, 0));
  }

  /** What `print_tree` writes for the left operand of the outer `-`. */
  lemma MainPrintedSum()
    ensures Show(Binop(Sum, Prefix(Neg, Leaf(24)), Binop(Mul, Leaf(12), Leaf(43)))) == "(+ (- 24) (* 12 43))"
  {
  }

  /** What `print_tree` writes for the right operand of the outer `-`. */
  lemma MainPrintedQuotient()
    ensures Show(Binop(Div, Leaf(143), Leaf(3))) == "(/ 143 3)"
  {
  }

  /** What `print_tree` writes for the tree of the example, in the pieces it writes them:
      `(- (+ (- 24) (* 12 43)) (/ 143 3))`. */
  lemma MainPrinted()
    ensures Show(MAIN_TREE) == "(- " + "(+ (- 24) (* 12 43))" + " " + "(/ 143 3)" + ")"
  {
    MainPrintedSum();
    MainPrintedQuotient();
  }
}
