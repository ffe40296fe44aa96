/** The error vocabulary of the parser crate: `Diagnostic`
    (src/diagnostic.rs) and `ParseError` (src/error.rs).  Neither has any
    behaviour of its own. */
module Errors {
  import opened Tokens

  /** A recoverable complaint about one declaration. */
  datatype Diagnostic =
    | UnexpectedSymbolFound(expected: Token, found: Token)
    | ExpectedExpression(found: Token)

  /** `IOError` stands for a `std::io::Error`, whose content the model does
      not need; it keeps only a message. */
  datatype ParseError =
    | Diagnostic(diagnostic: Diagnostic)
    | Diagnostics(diagnostics: seq<Diagnostic>)
    | IOError(message: string)
    | EOF
}
