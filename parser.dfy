/** The module-parse loop of src/parser.rs.  `Parser::parse` asks an item
    parser for one module item at a time: a parsed item is kept, a
    diagnostic is recorded and parsing goes on, `EOF` ends the module, and any
    other error aborts the parse.

    The item parser (`ModuleItem::from_lexer`) is not part of this model.
    The loop is therefore specified for any item parser that consumes at
    least one token whenever it lets the loop go on, and the model supplies
    one concrete item parser for the one declaration shape the parser's tests
    fix: `Id '=' StringLiteral`. */
module Parsing {
  import opened Results
  import opened Tokens
  import opened Errors
  import opened Lexing
  import PT = ParseTree

  type ItemResult = Result<PT.ModuleItem, ParseError>

  /** An item parser: the result for the tokens ahead, and the tokens it
      leaves. */
  type ItemParser = seq<Token> -> (ItemResult, seq<Token>)

  /** Whether the loop asks for another item after this result. */
  predicate Continues(r: ItemResult) {
    r.Ok? || r.error.Diagnostic?
  }

  /** The item parser consumes a token whenever the loop goes on. */
  ghost predicate Progressing(p: ItemParser) {
    forall ts :: Continues(p(ts).0) ==> |p(ts).1| < |ts|
  }

  datatype ParseOutcome = ParseOutcome(result: Result<seq<PT.ModuleItem>, ParseError>, diagnostics: seq<Diagnostic>)

  /** The loop of `Parser::parse`, from the tokens ahead, the items parsed so
      far and the diagnostics recorded so far. */
  ghost function ParseLoop(p: ItemParser, ts: seq<Token>, items: seq<PT.ModuleItem>, diags: seq<Diagnostic>): ParseOutcome
    requires Progressing(p)
    decreases |ts|
  {
    var (r, rest) := p(ts);
    match r
    case Ok(item) => ParseLoop(p, rest, items + [item], diags)
    case Err(Diagnostic(d)) => ParseLoop(p, rest, items, diags + [d])
    case Err(EOF) => ParseOutcome(Ok(items), diags)
    case Err(e) => ParseOutcome(Err(e), diags)
  }

  // ---------------------------------------------------------------------
  // The loop seen as the sequence of item results it consumes

  /** The item results the loop receives, up to and including the one that
      stops it. */
  ghost function Steps(p: ItemParser, ts: seq<Token>): (rs: seq<ItemResult>)
    requires Progressing(p)
    ensures |rs| > 0 && !Continues(rs[|rs| - 1])
    ensures forall i :: 0 <= i < |rs| - 1 ==> Continues(rs[i])
    decreases |ts|
  {
    var (r, rest) := p(ts);
    if Continues(r) then [r] + Steps(p, rest) else [r]
  }

  /** The parsed items among some item results, in order. */
  function Items(rs: seq<ItemResult>): seq<PT.ModuleItem> {
    if rs == [] then []
    else (if rs[0].Ok? then [rs[0].value] else []) + Items(rs[1..])
  }

  /** The diagnostics among some item results, in order. */
  function DiagnosticsOf(rs: seq<ItemResult>): seq<Diagnostic> {
    if rs == [] then []
    else (if rs[0].Err? && rs[0].error.Diagnostic? then [rs[0].error.diagnostic] else []) + DiagnosticsOf(rs[1..])
  }

  /** What the loop returns after receiving the item results `rs`. */
  function Collected(rs: seq<ItemResult>, items: seq<PT.ModuleItem>, diags: seq<Diagnostic>): ParseOutcome
    requires rs != [] && !Continues(rs[|rs| - 1])
  {
    var last := rs[|rs| - 1];
    ParseOutcome(if last == Err(EOF) then Ok(items + Items(rs)) else Err(last.error), diags + DiagnosticsOf(rs))
  }

  /** The loop keeps every parsed item and every diagnostic, in the order the
      item parser produced them, after those it already had; it succeeds
      exactly when the item parser's last word is `EOF`, and fails with that
      last error otherwise. */
  lemma {:induction false} ParseLoopCollects(p: ItemParser, ts: seq<Token>, items: seq<PT.ModuleItem>, diags: seq<Diagnostic>)
    requires Progressing(p)
    ensures var rs := Steps(p, ts);
            var last := rs[|rs| - 1];
            ParseLoop(p, ts, items, diags)
              == ParseOutcome(if last == Err(EOF) then Ok(items + Items(rs)) else Err(last.error),
                              diags + DiagnosticsOf(rs))
    decreases |ts|
  {
    var r := p(ts).0;
    var rest := p(ts).1;
    ParseLoopUnfold(p, ts, items, diags);
    if r.Ok? {
      ParseLoopCollects(p, rest, items + [r.value], diags);
      CollectedItem(r.value, Steps(p, rest), items, diags);
    } else if r.error.Diagnostic? {
      ParseLoopCollects(p, rest, items, diags + [r.error.diagnostic]);
      CollectedDiagnostic(r.error.diagnostic, Steps(p, rest), items, diags);
    } else {
      CollectedLast(r, items, diags);
    }
  }

  /** One round of the loop, and of the results it receives. */
  lemma ParseLoopUnfold(p: ItemParser, ts: seq<Token>, items: seq<PT.ModuleItem>, diags: seq<Diagnostic>)
    requires Progressing(p)
    ensures var r := p(ts).0;
            var rest := p(ts).1;
            && Steps(p, ts) == (if Continues(r) then [r] + Steps(p, rest) else [r])
            && (r.Ok? ==> ParseLoop(p, ts, items, diags) == ParseLoop(p, rest, items + [r.value], diags))
            && (r.Err? && r.error.Diagnostic? ==>
                  ParseLoop(p, ts, items, diags) == ParseLoop(p, rest, items, diags + [r.error.diagnostic]))
            && (!Continues(r) ==>
                  ParseLoop(p, ts, items, diags) == ParseOutcome(if r == Err(EOF) then Ok(items) else Err(r.error), diags))
  {
  }

  /** `Collected` in terms of the last result, the items and the
      diagnostics of the results. */
  lemma CollectedFrom(rs: seq<ItemResult>, items: seq<PT.ModuleItem>, diags: seq<Diagnostic>,
                      last: ItemResult, its: seq<PT.ModuleItem>, ds: seq<Diagnostic>)
    requires rs != [] && rs[|rs| - 1] == last && !Continues(last)
    requires Items(rs) == its && DiagnosticsOf(rs) == ds
    ensures Collected(rs, items, diags)
         == ParseOutcome(if last == Err(EOF) then Ok(items + its) else Err(last.error), diags + ds)
  {
  }

  /** A parsed item joins the items gathered before the rest. */
  lemma CollectedItem(item: PT.ModuleItem, tail: seq<ItemResult>, items: seq<PT.ModuleItem>, diags: seq<Diagnostic>)
    requires tail != [] && !Continues(tail[|tail| - 1])
    ensures Collected([Ok(item)] + tail, items, diags) == Collected(tail, items + [item], diags)
  {
    var rs := [Ok(item)] + tail;
    var last := tail[|tail| - 1];
    CollectCons(Ok(item), tail);
    CollectedFrom(rs, items, diags, last, [item] + Items(tail), DiagnosticsOf(tail));
    CollectedFrom(tail, items + [item], diags, last, Items(tail), DiagnosticsOf(tail));
    assert items + ([item] + Items(tail)) == items + [item] + Items(tail);
  }

  /** A diagnostic joins the diagnostics gathered before the rest. */
  lemma CollectedDiagnostic(d: Diagnostic, tail: seq<ItemResult>, items: seq<PT.ModuleItem>, diags: seq<Diagnostic>)
    requires tail != [] && !Continues(tail[|tail| - 1])
    ensures Collected([Err(Diagnostic(d))] + tail, items, diags) == Collected(tail, items, diags + [d])
  {
    var rs := [Err(Diagnostic(d))] + tail;
    var last := tail[|tail| - 1];
    CollectCons(Err(Diagnostic(d)), tail);
    CollectedFrom(rs, items, diags, last, Items(tail), [d] + DiagnosticsOf(tail));
    CollectedFrom(tail, items, diags + [d], last, Items(tail), DiagnosticsOf(tail));
    assert diags + ([d] + DiagnosticsOf(tail)) == diags + [d] + DiagnosticsOf(tail);
  }

  /** The result that stops the loop decides its outcome alone. */
  lemma CollectedLast(r: ItemResult, items: seq<PT.ModuleItem>, diags: seq<Diagnostic>)
    requires !Continues(r)
    ensures Collected([r], items, diags) == ParseOutcome(if r == Err(EOF) then Ok(items) else Err(r.error), diags)
  {
    CollectCons(r, []);
    assert [r] + [] == [r];
    assert items + [] == items && diags + [] == diags;
  }

  /** How `Items` and `DiagnosticsOf` take in one more result at the front. */
  lemma CollectCons(r: ItemResult, tail: seq<ItemResult>)
    ensures Items([r] + tail) == (if r.Ok? then [r.value] else []) + Items(tail)
    ensures DiagnosticsOf([r] + tail)
            == (if r.Err? && r.error.Diagnostic? then [r.error.diagnostic] else []) + DiagnosticsOf(tail)
    ensures tail != [] ==> ([r] + tail)[|tail|] == tail[|tail| - 1]
  {
    assert ([r] + tail)[1..] == tail;
  }

  /** `parse` only appends to the diagnostics it already holds. */
  lemma ParseLoopKeepsDiagnostics(p: ItemParser, ts: seq<Token>, items: seq<PT.ModuleItem>, diags: seq<Diagnostic>)
    requires Progressing(p)
    ensures diags <= ParseLoop(p, ts, items, diags).diagnostics
  {
    ParseLoopCollects(p, ts, items, diags);
  }

  /** An item error other than a diagnostic or `EOF` (an `IOError`, a
      `Diagnostics` batch) aborts the parse with that very error, wherever it
      comes. */
  lemma ParseLoopAborts(p: ItemParser, ts: seq<Token>, items: seq<PT.ModuleItem>, diags: seq<Diagnostic>)
    requires Progressing(p)
    requires exists i :: 0 <= i < |Steps(p, ts)| && (Steps(p, ts)[i].Err? && (Steps(p, ts)[i].error.IOError? || Steps(p, ts)[i].error.Diagnostics?))
    ensures var rs := Steps(p, ts);
            ParseLoop(p, ts, items, diags).result == Err(rs[|rs| - 1].error)
    ensures ParseLoop(p, ts, items, diags).result.error.IOError? || ParseLoop(p, ts, items, diags).result.error.Diagnostics?
  {
    ParseLoopCollects(p, ts, items, diags);
  }

  // ---------------------------------------------------------------------
  // The item parser for `Id '=' StringLiteral`

  /** The expected token a diagnostic names when a declaration does not start
      with an identifier. */
  const SomeId: Token := Id("some_id")

  /** One module item from the tokens ahead: an identifier, then `=` (checked
      with `expect`), then a string literal.  Running out of tokens anywhere
      is `EOF`, propagated as the lexer reports it. */
  function ParseItem(ts: seq<Token>): (r: (ItemResult, seq<Token>))
    ensures Continues(r.0) ==> |r.1| < |ts|
    ensures r.0.Err? ==> r.0.error.Diagnostic? || r.0.error == EOF
    ensures ts == [] ==> r.0 == Err(EOF)
  {
    if ts == [] then (Err(EOF), ts)
    else if !ts[0].Id? then
      (Err(Diagnostic(UnexpectedSymbolFound(SomeId, ts[0]))), ts[1..])
    else if |ts| == 1 then (Err(EOF), [])
    else if ts[1] != Equal then
      (Err(Diagnostic(UnexpectedSymbolFound(Equal, ts[1]))), ts[2..])
    else if |ts| == 2 then (Err(EOF), [])
    else if ts[2].LiteralString? then
      var decl := PT.ValueDeclaration(PT.Id(ts[0].text), PT.LiteralString(ts[2].text));
      (Ok(PT.ValueDeclarationItem(decl)), ts[3..])
    else
      (Err(Diagnostic(ExpectedExpression(ts[2]))), ts[3..])
  }

  lemma ParseItemProgresses()
    ensures Progressing(ParseItem)
  {
  }

  /** The loop of `parse` with this item parser, from the first token on. */
  ghost function ParseTokens(ts: seq<Token>, diags: seq<Diagnostic>): ParseOutcome {
    ParseItemProgresses();
    ParseLoop(ParseItem, ts, [], diags)
  }

  /** With this item parser the loop never aborts: `parse` always returns a
      module. */
  lemma {:induction false} ParseItemNeverAborts(ts: seq<Token>, items: seq<PT.ModuleItem>, diags: seq<Diagnostic>)
    ensures Progressing(ParseItem)
    ensures ParseLoop(ParseItem, ts, items, diags).result.Ok?
    decreases |ts|
  {
    ParseItemProgresses();
    var (r, rest) := ParseItem(ts);
    if Continues(r) {
      if r.Ok? {
        ParseItemNeverAborts(rest, items + [r.value], diags);
      } else {
        ParseItemNeverAborts(rest, items, diags + [r.error.diagnostic]);
      }
    }
  }

  /** `ModuleItem::from_lexer` for the declaration shape above, on the
      lexer's token cursor. */
  method ParseModuleItem(lexer: Lexer) returns (r: ItemResult)
    modifies lexer
    ensures (r, lexer.Remaining()) == ParseItem(old(lexer.Remaining()))
  {
    var name := lexer.Next();
    if name.Err? {
      return Err(name.error);
    }
    if !name.value.Id? {
      return Err(Diagnostic(UnexpectedSymbolFound(SomeId, name.value)));
    }
    var equal := lexer.Expect(Equal);
    if equal.Err? {
      return Err(equal.error);
    }
    var value := lexer.Next();
    if value.Err? {
      return Err(value.error);
    }
    if value.value.LiteralString? {
      var decl := PT.ValueDeclaration(PT.Id(name.value.text), PT.LiteralString(value.value.text));
      return Ok(PT.ValueDeclarationItem(decl));
    }
    return Err(Diagnostic(ExpectedExpression(value.value)));
  }

  // ---------------------------------------------------------------------
  // The parser object

  class Parser {
    const source: string
    const moduleName: string
    var diagnostics: seq<Diagnostic>

    /** A parser for in-memory source under the given module name, with no
        diagnostics yet. */
    constructor FromString(moduleName: string, source: string)
      ensures this.moduleName == moduleName && this.source == source
      ensures diagnostics == []
    {
      this.moduleName := moduleName;
      this.source := source;
      diagnostics := [];
    }

    /** Parses the whole source into a module named after the parser,
        appending every diagnostic to `diagnostics`. */
    method Parse() returns (r: Result<PT.Module, ParseError>)
      modifies this
      ensures var o := ParseTokens(Tokenize(source), old(diagnostics));
              && diagnostics == o.diagnostics
              && r == (if o.result.Ok? then Ok(PT.Module(PT.Id(moduleName), o.result.value)) else Err(o.result.error))
    {
      ParseItemProgresses();
      var lexer := new Lexer.FromSource(source);
      var items := [];
      ghost var target := ParseTokens(Tokenize(source), diagnostics);
      while true
        invariant fresh(lexer)
        invariant ParseLoop(ParseItem, lexer.Remaining(), items, diagnostics) == target
        decreases |lexer.Remaining()|
      {
        ghost var ts := lexer.Remaining();
        var item := ParseModuleItem(lexer);
        match item
        case Ok(it) =>
          items := items + [it];
        case Err(EOF) =>
          break;
        case Err(Diagnostic(d)) =>
          diagnostics := diagnostics + [d];
        case Err(e) =>
          return Err(e);
      }
      return Ok(PT.Module(PT.Id(moduleName), items));
    }
  }

  // ---------------------------------------------------------------------
  // The parser's unit tests, for every name and literal of the tested shape

  /** A source text, parsed from scratch. */
  ghost function ParseSource(source: string): ParseOutcome {
    ParseTokens(Tokenize(source), [])
  }

  /** Empty source: no items and no diagnostics. */
  lemma ParseEmptySource()
    ensures ParseSource("") == ParseOutcome(Ok([]), [])
  {
  }

  lemma ParseDeclarationTokens(name: string, body: string)
    ensures ParseTokens([Id(name), Equal, LiteralString(body)], [])
         == ParseOutcome(Ok([PT.ValueDeclarationItem(PT.ValueDeclaration(PT.Id(name), PT.LiteralString(body)))]), [])
  {
    ParseItemProgresses();
    var ts := [Id(name), Equal, LiteralString(body)];
    var item := PT.ValueDeclarationItem(PT.ValueDeclaration(PT.Id(name), PT.LiteralString(body)));
    assert ParseItem(ts) == (Ok(item), []);
    assert ParseTokens(ts, []) == ParseLoop(ParseItem, ts, [], []);
    assert ParseLoop(ParseItem, ts, [], []) == ParseLoop(ParseItem, [], [] + [item], []);
    assert [] + [item] == [item];
    assert ParseLoop(ParseItem, [], [item], []) == ParseOutcome(Ok([item]), []);
  }

  /** `Name = "value"` alone yields exactly that declaration and no
      diagnostic. */
  lemma ParseSingleDeclaration(w1: string, name: string, body: string, w2: string)
    requires IsWhitespace(w1) && IsWhitespace(w2) && IsIdentifier(name) && EscapedBody(body)
    ensures ParseSource(w1 + name + " = \"" + body + "\"" + w2)
         == ParseOutcome(Ok([PT.ValueDeclarationItem(PT.ValueDeclaration(PT.Id(name), PT.LiteralString(body)))]), [])
  {
    assert w1 + name + " = \"" + body + "\"" + w2 == w1 + name + [' ', '=', ' ', '"'] + body + ['"'] + w2;
    TokenizeBinding(w1, name, '=', body, w2);
    ParseDeclarationTokens(name, body);
  }

  lemma ParseMissingEqualsTokens(name: string, body: string)
    ensures ParseTokens([Id(name), QuestionMark, LiteralString(body)], [])
         == ParseOutcome(Ok([]), [UnexpectedSymbolFound(Equal, QuestionMark),
                                  UnexpectedSymbolFound(SomeId, LiteralString(body))])
  {
    ParseItemProgresses();
    var ts := [Id(name), QuestionMark, LiteralString(body)];
    var d1 := UnexpectedSymbolFound(Equal, QuestionMark);
    var d2 := UnexpectedSymbolFound(SomeId, LiteralString(body));
    assert ParseItem(ts) == (Err(Diagnostic(d1)), [LiteralString(body)]);
    assert ParseItem([LiteralString(body)]) == (Err(Diagnostic(d2)), []);
    assert ParseTokens(ts, []) == ParseLoop(ParseItem, ts, [], []);
    assert ParseLoop(ParseItem, ts, [], []) == ParseLoop(ParseItem, [LiteralString(body)], [], [] + [d1]);
    assert [] + [d1] == [d1] && [d1] + [d2] == [d1, d2];
    assert ParseLoop(ParseItem, [LiteralString(body)], [], [d1]) == ParseLoop(ParseItem, [], [], [d1] + [d2]);
    assert ParseLoop(ParseItem, [], [], [d1, d2]) == ParseOutcome(Ok([]), [d1, d2]);
  }

  /** `Name ? "value"`: the question mark is its own token, so the first
      diagnostic names `QuestionMark` as the token found where `=` was
      expected; the literal then fails to start a declaration. */
  lemma ParseMissingEquals(w1: string, name: string, body: string, w2: string)
    requires IsWhitespace(w1) && IsWhitespace(w2) && IsIdentifier(name) && EscapedBody(body)
    ensures ParseSource(w1 + name + " ? \"" + body + "\"" + w2)
         == ParseOutcome(Ok([]), [UnexpectedSymbolFound(Equal, QuestionMark),
                                  UnexpectedSymbolFound(SomeId, LiteralString(body))])
  {
    assert w1 + name + " ? \"" + body + "\"" + w2 == w1 + name + [' ', '?', ' ', '"'] + body + ['"'] + w2;
    TokenizeBinding(w1, name, '?', body, w2);
    ParseMissingEqualsTokens(name, body);
  }
}
