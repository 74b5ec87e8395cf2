/** The token vocabulary shared by the tokenizer and the expression parser
    (the `Token_type` enumeration and the `Token` record of include/tlex.h). */
module Tokens {

  datatype Option<T> = None | Some(value: T)

  /** One tag per `TOKEN_*` constant, in declaration order.
      `Colon` and `Semicolon` are the source's `TOKEN_COLUMN` and `TOKEN_SEMICOLUMN`. */
  datatype TokenType =
    | Plus | Minus | Star | Slash | Pow | Bang
    | LeftPar | RightPar | LeftSquare | RightSquare
    | QuestionMark | Colon | Semicolon | Hashtag
    | Number | Eof | Error

  /** A token: its type, the characters its lexeme designates and its length.
      For a token cut out of the text the lexeme is the slice `[start, cur)`;
      for an error token it is the fixed diagnostic message. */
  datatype Token = Token(kind: TokenType, lexeme: string, len: nat)

  /** The token a scan produces at the end of the text: an empty lexeme. */
  const EofToken := Token(Eof, "", 0)
}
