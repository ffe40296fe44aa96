/** The error type of the parser crate (parser/error.rs) and its hand-written
    equality, which compares the span of a missing-value error but never
    the source text that comes with it. */
module ParserErrors {
  import opened Tokens

  /** A miette `SourceSpan`: an offset and a length. */
  datatype SourceSpan = SourceSpan(offset: nat, length: nat)

  datatype ParseError =
    | UnexpectedSymbolFound(expected: Token, found: Token)
    | ExpectedExpression(found: Token)
    | ExpectedPattern(found: Token)
    | MissingValueInValueDeclaration(span: SourceSpan, src: string)
    | EOF

  /** Which variant an error is, like `core::mem::discriminant`. */
  function Discriminant(e: ParseError): (d: nat)
    ensures d < 5
  {
    match e
    case UnexpectedSymbolFound(_, _) => 0
    case ExpectedExpression(_) => 1
    case ExpectedPattern(_) => 2
    case MissingValueInValueDeclaration(_, _) => 3
    case EOF => 4
  }

  /** Two errors are built by the same constructor. */
  predicate SameVariant(a: ParseError, b: ParseError) {
    || (a.UnexpectedSymbolFound? && b.UnexpectedSymbolFound?)
    || (a.ExpectedExpression? && b.ExpectedExpression?)
    || (a.ExpectedPattern? && b.ExpectedPattern?)
    || (a.MissingValueInValueDeclaration? && b.MissingValueInValueDeclaration?)
    || (a.EOF? && b.EOF?)
  }

  /** `PartialEq::eq`: field by field within a variant, the span alone for a
      missing value, and otherwise by variant. */
  function Eq(a: ParseError, b: ParseError): (r: bool)
  {
    match (a, b)
    case (UnexpectedSymbolFound(le, lf), UnexpectedSymbolFound(re, rf)) => le == re && lf == rf
    case (ExpectedPattern(lf), ExpectedPattern(rf)) => lf == rf
    case (ExpectedExpression(lf), ExpectedExpression(rf)) => lf == rf
    case (MissingValueInValueDeclaration(ls, _), MissingValueInValueDeclaration(rs, _)) => ls == rs
    case _ => Discriminant(a) == Discriminant(b)
  }

  /** An error with its source text dropped: what `Eq` looks at. */
  function WithoutSource(e: ParseError): (r: ParseError)
    ensures SameVariant(e, r)
    ensures !e.MissingValueInValueDeclaration? ==> r == e
    ensures e.MissingValueInValueDeclaration? ==> r.span == e.span && r.src == []
  {
    if e.MissingValueInValueDeclaration? then e.(src := []) else e
  }

  // ---------------------------------------------------------------------
  // Properties of the equality

  /** Discriminants tell variants apart, and only variants. */
  lemma DiscriminantIdentifiesVariant(a: ParseError, b: ParseError)
    ensures Discriminant(a) == Discriminant(b) <==> SameVariant(a, b)
  {
  }

  /** Two errors are equal exactly when they agree on everything but the
      source text. */
  lemma EqIgnoresOnlySource(a: ParseError, b: ParseError)
    ensures Eq(a, b) <==> WithoutSource(a) == WithoutSource(b)
  {
  }

  /** Variant by variant: both fields, the found token, the span alone, and
      `EOF` equal to itself. */
  lemma EqByVariant(a: ParseError, b: ParseError)
    ensures a.UnexpectedSymbolFound? && b.UnexpectedSymbolFound? ==>
              (Eq(a, b) <==> a.expected == b.expected && a.found == b.found)
    ensures a.ExpectedPattern? && b.ExpectedPattern? ==> (Eq(a, b) <==> a.found == b.found)
    ensures a.ExpectedExpression? && b.ExpectedExpression? ==> (Eq(a, b) <==> a.found == b.found)
    ensures a.MissingValueInValueDeclaration? && b.MissingValueInValueDeclaration? ==>
              (Eq(a, b) <==> a.span == b.span)
    ensures a.EOF? && b.EOF? ==> Eq(a, b)
    ensures !SameVariant(a, b) ==> !Eq(a, b)
  {
  }

  /** Two missing-value errors at the same span are equal whatever their
      source texts. */
  lemma EqMissingValueAnySource(span: SourceSpan, src1: string, src2: string)
    ensures Eq(MissingValueInValueDeclaration(span, src1), MissingValueInValueDeclaration(span, src2))
  {
  }

  /** The equality is an equivalence: reflexive, symmetric and transitive. */
  lemma EqIsEquivalence(a: ParseError, b: ParseError, c: ParseError)
    ensures Eq(a, a)
    ensures Eq(a, b) <==> Eq(b, a)
    ensures Eq(a, b) && Eq(b, c) ==> Eq(a, c)
  {
    EqIgnoresOnlySource(a, b);
    EqIgnoresOnlySource(b, a);
    EqIgnoresOnlySource(b, c);
    EqIgnoresOnlySource(a, c);
    EqIgnoresOnlySource(a, a);
  }
}
