/** Lexer tokens and the upstream token source the collector wraps. */
module Tokens {

  /** A lexer token: its type identifier, its line and its text. */
  datatype Token = Token(tokenType: int, line: int, text: string)

  /** The wrapped lexer, seen from outside: a fixed stream of tokens (`lexed`,
      position by position) and a cursor. How the lexer produces them is not
      part of this model. */
  class TokenSource {
    const sourceName: string
    const lexed: nat -> Token
    var position: nat

    constructor (sourceName: string, lexed: nat -> Token)
      ensures this.sourceName == sourceName && this.lexed == lexed && position == 0
    {
      this.sourceName := sourceName;
      this.lexed := lexed;
      position := 0;
    }

    /** The token at the cursor; the cursor advances by one. */
    method NextToken() returns (t: Token)
      modifies this`position
      ensures t == lexed(old(position)) && position == old(position) + 1
    {
      t := lexed(position);
      position := position + 1;
    }
  }
}
