/**
 * Token vocabulary shared by the lexer and the recursive-descent recogniser.
 */
module Tokens {

  /** Every kind of token the lexer can produce. */
  datatype TokenType =
    | Integer | Identifier
    // keywords
    | If | Int | Else | Print | While
    // single-character punctuation
    | Plus | Minus | Star | Slash
    | OpenParen | CloseParen | OpenBrace | CloseBrace | Semicolon
    // one- or two-character operators
    | Bang | BangEqual | Equal | EqualEqual
    | Greater | GreaterEqual | Smaller | SmallerEqual
    | Eof | Error

  /**
   * Where a token's characters live. Ordinary tokens are a view into the
   * source buffer, starting at `offset`; an ERROR token points at its
   * diagnostic message instead.
   */
  datatype Span = InSource(offset: nat) | InMessage(text: string)

  datatype Token = Token(kind: TokenType, start: Span, length: nat, line: nat)

  /** The terminator of the source buffer. */
  const NUL: char := '\0'

  /** The message every ERROR token carries. */
  const UnexpectedCharacter: string := "unexpected character"
}
