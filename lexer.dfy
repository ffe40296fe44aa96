/** The token cursor of src/lexer.rs: a stateful lexer handing out one token
    per call.  The cursor keeps the source text not yet consumed; the tokens
    it has left are `Tokenize` of that text. */
module Lexing {
  import opened Results
  import opened Tokens
  import opened Errors

  class Lexer {
    var rest: string

    /** The tokens this lexer has still to hand out. */
    ghost function Remaining(): seq<Token>
      reads this
    {
      Tokenize(rest)
    }

    constructor FromSource(source: string)
      ensures rest == source
      ensures Remaining() == Tokenize(source)
    {
      rest := source;
    }

    /** The next token, consuming it, or `EOF` when the stream is exhausted. */
    method Next() returns (r: Result<Token, ParseError>)
      modifies this
      ensures old(Remaining()) == [] ==> r == Err(EOF) && Remaining() == []
      ensures old(Remaining()) != [] ==>
        r == Ok(old(Remaining())[0]) && Remaining() == old(Remaining())[1..]
    {
      match Scan(rest)
      case None =>
        r := Err(EOF);
      case Some((t, after)) =>
        rest := after;
        r := Ok(t);
    }

    /** Consumes one token, whether or not it is the expected one; a mismatch
        is a diagnostic naming both tokens, and the end of input is `EOF`. */
    method Expect(expected: Token) returns (r: Result<(), ParseError>)
      modifies this
      ensures old(Remaining()) == [] ==> r == Err(EOF) && Remaining() == []
      ensures old(Remaining()) != [] ==>
        && Remaining() == old(Remaining())[1..]
        && (r.Ok? <==> old(Remaining())[0] == expected)
        && (r.Err? ==> r.error == Diagnostic(UnexpectedSymbolFound(expected, old(Remaining())[0])))
    {
      var next := Next();
      match next
      case Err(e) =>
        r := Err(e);
      case Ok(found) =>
        if found == expected {
          r := Ok(());
        } else {
          r := Err(Diagnostic(UnexpectedSymbolFound(expected, found)));
        }
    }
  }
}
