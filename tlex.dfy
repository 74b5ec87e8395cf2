/** The character-level tokenizer of tlex.c.
    The text is a `string`; reading at or past its end yields the terminating
    NUL, exactly as the C code reads the NUL that ends its buffer. */
module Tlex {
  import opened Tokens

  /** The lexeme of every error token. */
  const UNEXPECTED_CHARACTER: string := "Unexpected character."

  predicate IsDigit(c: char) {
    '0' <= c <= '9'
  }

  /** The only characters `skip_whitespace` passes over. */
  predicate IsSpace(c: char) {
    c == ' ' || c == '\n'
  }

  /** What `peek` sees with the cursor at index `i`. */
  function CharAt(text: string, i: nat): char {
    if i < |text| then text[i] else '\0'
  }

  /** `is_at_end`: the cursor rests on a NUL. */
  predicate AtEnd(text: string, i: nat) {
    CharAt(text, i) == '\0'
  }

  /** Where `skip_whitespace` leaves a cursor that starts at `i`:
      the first index at or after `i` that does not hold a space or a newline. */
  function SkipSpaces(text: string, i: nat): (j: nat)
    requires i <= |text|
    ensures i <= j <= |text|
    ensures forall k :: i <= k < j ==> IsSpace(text[k])
    ensures !IsSpace(CharAt(text, j))
    decreases |text| - i
  {
    if IsSpace(CharAt(text, i)) then SkipSpaces(text, i + 1) else i
  }

  /** Where the loop of `number` leaves a cursor that starts at `i`:
      the end of the longest run of decimal digits beginning at `i`. */
  function DigitsEnd(text: string, i: nat): (j: nat)
    requires i <= |text|
    ensures i <= j <= |text|
    ensures forall k :: i <= k < j ==> IsDigit(text[k])
    ensures !IsDigit(CharAt(text, j))
    decreases |text| - i
  {
    if IsDigit(CharAt(text, i)) && !AtEnd(text, i) then DigitsEnd(text, i + 1) else i
  }

  /** The single-character punctuation table of `peek_token`'s switch. */
  function Punctuation(c: char): Option<TokenType> {
    match c
    case '(' => Some(LeftPar)
    case ')' => Some(RightPar)
    case '[' => Some(LeftSquare)
    case ']' => Some(RightSquare)
    case '-' => Some(Minus)
    case '+' => Some(Plus)
    case '/' => Some(Slash)
    case '*' => Some(Star)
    case '!' => Some(Bang)
    case '?' => Some(QuestionMark)
    case ':' => Some(Colon)
    case ';' => Some(Semicolon)
    case _ => None
  }

  /** `error_token`: a token of type TOKEN_ERROR whose lexeme is the message. */
  function ErrorToken(msg: string): Token {
    Token(Error, msg, |msg|)
  }

  /** The outcome of one `peek_token` call: the token and the new cursors. */
  datatype Scanned = Scanned(token: Token, start: nat, cur: nat)

  /** What `peek_token` returns, and where it leaves `start` and `cur`,
      when it is called with `start` at the given index. */
  function Scan(text: string, start: nat): (r: Scanned)
    requires start <= |text|
    ensures r.start == SkipSpaces(text, start)
    ensures r.start <= r.cur <= |text|
    ensures r.token.kind == Eof <==> AtEnd(text, r.start)
    ensures r.token.kind == Eof ==> r.cur == r.start && r.token == EofToken
    ensures r.token.kind != Eof ==> r.cur > r.start
    ensures r.token.kind != Error ==> r.token.lexeme == text[r.start..r.cur] && r.token.len == r.cur - r.start
    ensures r.token.kind == Number <==> !AtEnd(text, r.start) && IsDigit(text[r.start])
    ensures r.token.kind == Number ==>
              r.cur == DigitsEnd(text, r.start) && !IsDigit(CharAt(text, r.cur)) &&
              forall k :: 0 <= k < |r.token.lexeme| ==> IsDigit(r.token.lexeme[k])
    ensures r.token.kind !in {Eof, Number, Error} ==>
              r.cur == r.start + 1 && Punctuation(text[r.start]) == Some(r.token.kind) && r.token.len == 1
    ensures r.token.kind == Error ==>
              r.cur == r.start + 1 && !IsDigit(text[r.start]) && Punctuation(text[r.start]) == None &&
              r.token == ErrorToken(UNEXPECTED_CHARACTER)
  {
    var s := SkipSpaces(text, start);
    if AtEnd(text, s) then
      Scanned(Token(Eof, text[s..s], 0), s, s)
    else if IsDigit(text[s]) then
      var e := DigitsEnd(text, s + 1);
      Scanned(Token(Number, text[s..e], e - s), s, e)
    else
      match Punctuation(text[s])
      case Some(kind) => Scanned(Token(kind, text[s..s + 1], 1), s, s + 1)
      case None => Scanned(ErrorToken(UNEXPECTED_CHARACTER), s, s + 1)
  }

  /** The tokens that successive `next_token` calls return from `start` on,
      up to and including the first end-of-input token. */
  function Tokenize(text: string, start: nat): (ts: seq<Token>)
    requires start <= |text|
    ensures |ts| >= 1 && ts[|ts| - 1].kind == Eof
    ensures forall k :: 0 <= k < |ts| - 1 ==> ts[k].kind != Eof
    decreases |text| - start
  {
    var s := Scan(text, start);
    if s.token.kind == Eof then [s.token] else [s.token] + Tokenize(text, s.cur)
  }

  /** The tokenizer state: the text, the start of the current token and the scanning cursor. */
  class Lexer {
    const text: string
    var start: nat
    var cur: nat

    ghost predicate Valid()
      reads this
    {
      start <= cur <= |text|
    }

    /** `lexer_init`: both cursors at the beginning of the text. */
    constructor (text: string)
      ensures Valid()
      ensures this.text == text && start == 0 && cur == 0
    {
      this.text := text;
      start := 0;
      cur := 0;
    }

    /** `peek`: the character under the cursor. */
    function Peek(): char
      reads this
    {
      CharAt(text, cur)
    }

    /** `is_at_end`. */
    predicate IsAtEnd()
      reads this
    {
      AtEnd(text, cur)
    }

    /** `advance`: return the character under the cursor and step past it. */
    method Advance() returns (c: char)
      requires cur < |text|
      modifies this`cur
      ensures c == text[old(cur)] && cur == old(cur) + 1
    {
      c := text[cur];
      cur := cur + 1;
    }

    /** `make_token`: a token whose lexeme is the text from `start` to `cur`. */
    function MakeToken(kind: TokenType): Token
      reads this
      requires Valid()
    {
      Token(kind, text[start..cur], cur - start)
    }

    /** `number`: extend the current token over the following digits. */
    method Number() returns (t: Token)
      requires Valid()
      modifies this`cur
      ensures Valid()
      ensures cur == DigitsEnd(text, old(cur))
      ensures t == MakeToken(Tokens.Number)
    {
      while IsDigit(Peek()) && !IsAtEnd()
        invariant old(cur) <= cur <= |text|
        invariant DigitsEnd(text, cur) == DigitsEnd(text, old(cur))
        decreases |text| - cur
      {
        var _ := Advance();
      }
      t := MakeToken(Tokens.Number);
    }

    /** `skip_whitespace`: move the cursor past spaces and newlines. */
    method SkipWhitespace()
      requires cur <= |text|
      modifies this`cur
      ensures cur == SkipSpaces(text, old(cur))
    {
      while Peek() == ' ' || Peek() == '\n'
        invariant old(cur) <= cur <= |text|
        invariant SkipSpaces(text, cur) == SkipSpaces(text, old(cur))
        decreases |text| - cur
      {
        var _ := Advance();
      }
    }

    /** `peek_token`: rescan from `start`, committing only the skipped whitespace. */
    method PeekToken() returns (t: Token)
      requires Valid()
      modifies this
      ensures Valid()
      ensures var s := Scan(text, old(start)); t == s.token && start == s.start && cur == s.cur
    {
      cur := start;
      SkipWhitespace();
      start := cur;
      if IsAtEnd() {
        return MakeToken(Eof);
      }
      var c := Advance();
      if IsDigit(c) {
        t := Number();
        return;
      }
      var kind := Punctuation(c);
      if kind.Some? {
        return MakeToken(kind.value);
      }
      return ErrorToken(UNEXPECTED_CHARACTER);
    }

    /** `next_token`: the token `peek_token` returns, after which scanning resumes right behind it. */
    method NextToken() returns (t: Token)
      requires Valid()
      modifies this
      ensures Valid()
      ensures var s := Scan(text, old(start)); t == s.token && start == s.cur && cur == s.cur
      ensures Tokenize(text, old(start)) ==
              if t.kind == Eof then [t] else [t] + Tokenize(text, start)
    {
      t := PeekToken();
      start := cur;
    }

    /** `expect`: consume one token; `ok` is false where the source aborts on a type mismatch. */
    method Expect(kind: TokenType) returns (ok: bool)
      requires Valid()
      modifies this
      ensures Valid()
      ensures var s := Scan(text, old(start)); ok == (s.token.kind == kind) && start == s.cur && cur == s.cur
    {
      var t := NextToken();
      ok := t.kind == kind;
    }
  }

  /** Repeated `peek_token` calls agree: rescanning from where a scan left `start`
      yields the same token and the same cursors. */
  lemma PeekTokenIdempotent(text: string, start: nat)
    requires start <= |text|
    ensures Scan(text, Scan(text, start).start) == Scan(text, start)
  {
    var s := SkipSpaces(text, start);
    assert SkipSpaces(text, s) == s;
  }

  /** Once the end of the text is reached, every further scan yields end-of-input again. */
  lemma EofIsSticky(text: string, start: nat)
    requires start <= |text|
    requires Scan(text, start).token.kind == Eof
    ensures Scan(text, Scan(text, start).cur) == Scan(text, start)
  {
    PeekTokenIdempotent(text, start);
  }

  /** No two punctuation characters share a token type. */
  lemma PunctuationInjective(c: char, d: char)
    requires Punctuation(c).Some? && Punctuation(c) == Punctuation(d)
    ensures c == d
  {
  }
}
