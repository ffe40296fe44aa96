# q-lang front end and interpreter, in Dafny

This project models the front end and the tree-walking interpreter of the
toy language Q (the `q-lang` repository). It covers these parts:

- **The token table** (`src/token.rs`). It is a pure, longest-match tokenizer
  over the source text, `Tokens.Tokenize`. It has identifiers, raw string
  literals, nine punctuation tokens, numbers, floats kept as their lexeme,
  skipped blank space, and an `Error` token for anything else.
- **The token cursor** (`src/lexer.rs`). It is the class `Lexing.Lexer`, which
  holds the source text not yet consumed. It has `Next` and `Expect`.
- **The module-parse loop** (`src/parser.rs`). `Parsing.ParseLoop` specifies
  the loop for any item parser that consumes a token whenever the loop goes
  on. `Parsing.Parser.Parse` runs the loop with the one concrete item parser
  the tests fix, `Id '=' StringLiteral`, and is proved against it.
- **The parse tree** (`src/parsetree.rs`). It is a set of datatypes, plus the
  `Variable` expression that the evaluator matches.
- **The scope chain** (`src/environment.rs`). `Environments.Scope` is a
  recursive value and `Environments.Environment` is the object whose
  current scope is replaced by push, pop and bind.
- **The evaluator** (`cli/interpreter.rs`).
  - `Evaluation` gives the meaning of `eval`, `eval_function` and
    `bind_matching_clause` as functions from a scope to a result and the
    scope left behind.
  - `Interpreters.Interpreter` has the same operations as methods on the
    environment object, each proved to give what those functions give.
- **The parser crate's error equality** (`parser/error.rs`). It is
  `ParserErrors.Eq`, which compares spans but ignores source text.

Evaluation of a recursive Q program need not end. Every entry into `eval`
therefore spends one unit of a `fuel` budget. An exhausted budget is the
error `OutOfFuel`, which the interpreter itself does not have.

Behaviour of the code that the model keeps:

- **Blank space.** The skip set is space, tab, newline and form feed
  (`src/token.rs:46`). A carriage return is an `Error` token.
- **Punctuation.** There are nine punctuation tokens: `= ? , [ ] ( ) { }`
  (`src/token.rs:12-37`).
- **`?`.** It lexes as `QuestionMark` (`src/token.rs:15-16`). In
  `Name ? "Q-Lang"` the first diagnostic therefore reports `QuestionMark`
  found where `=` was expected (`Parsing.ParseMissingEquals`), although the
  test at `src/parser.rs:83-107` lists `Token::Error` in that place.
- **Scoping is dynamic.** `push_scope` puts the new scope on top of the
  caller's current scope. A callee's body therefore sees every binding of
  the caller that its clause's patterns do not shadow
  (`Evaluation.CalleeScopeSeesCaller`).
- **Scopes are not popped on every path.** A call whose clause fails
  returns through the `?` at `cli/interpreter.rs:89`, before the pop at
  `cli/interpreter.rs:91-93`. This covers a body error and
  `ClauseMatchError`. The pushed scope is then never popped. It stays on
  the scope chain, and it is current unless the failing body left scopes of
  its own on top of it (`Evaluation.CallErrorLeavesScope`,
  `Evaluation.EvalFunctionDispatch`).
  Only successful calls restore the scope (`Evaluation.EvalScope`).
- **Declarations are not evaluated.** `Interpreter::new` binds each
  declared expression as it is written.

The interpreter's operations appear twice. `Interpreters.Interpreter` keeps
the loops and the in-place updates of the environment object as methods.
`Evaluation` states their meaning as functions of a scope value, which the
lemmas can reason about. Each method's `ensures` is its equality with the
matching function.

## Model

| member | source | states |
|---|---|---|
| Tokens.Tokenize | src/token.rs:5-47 | the whole token stream of a text: blank space dropped, every other lexeme one token in order, never more tokens than characters. Its other properties are the `Tokens.Scan…` and `Tokens.Tokenize…` lemmas |
| Tokens.LexAt | src/token.rs:5-47 | the rules at one position, in the order identifier, string literal, punctuation, number or float, error: the next token and the text after it, a proper suffix of the input |
| Tokens.Scan | src/token.rs:45-47 | every token consumes input, so the stream ends |
| Tokens.StringBodyLengthSpec | src/token.rs:9-10 | the literal scanner stops at a position exactly when the text before it is in `([^"\\]\|\\.)*` and a quote follows (both directions) |
| Tokens.ScanSkipsWhitespace | src/token.rs:46 | a prefix of space, tab, newline or form feed never changes the next token or the token stream |
| Tokens.ScanIdentifier | src/token.rs:5-6 | a maximal run of `[_a-zA-Z]` is one `Id` carrying exactly that text |
| Tokens.ScanStringLiteral | src/token.rs:9-10 | a closed literal yields its raw body, escapes uninterpreted, an escaped quote not closing it |
| Tokens.ScanUnclosedString | src/token.rs:45 | a quote never closed is one `Error` token and lexing resumes after it |
| Tokens.ScanPunctuation | src/token.rs:12-37 | each of `= ? , [ ] ( ) { }` is a token of its own |
| Tokens.LexFloat | src/token.rs:42-43 | a text starting with `digits? '.' digits` followed by a non-digit yields one `Float` of that lexeme |
| Tokens.ScanFloat | src/token.rs:39-43 | `digits? '.' digits` is a single `Float` by longest match |
| Tokens.ScanNumber | src/token.rs:39-40 | a digit run not followed by `.` and a digit is a `Number` of the run's decimal value |
| Tokens.ScanUnknownCharacter | src/token.rs:45 | a character no rule covers, or a `.` that no digit follows, yields `Error` and the stream goes on |
| Tokens.TokenizeWellFormed | src/token.rs:5-47 | every emitted `Id`, literal and `Float` has the shape of its rule |
| Tokens.TokenizeEmptyList | src/token.rs:53-59 | `[]` is `BracketLeft`, `BracketRight` and nothing else |
| Tokens.TokenizeFloatLiteral | src/token.rs:80-84 | `3.14` is the single token `Float("3.14")` |
| Tokens.TokenizeStringLiteral | src/token.rs:72-77 | a quoted literal is one `LiteralString` of its body, and the stream goes on after it |
| Tokens.TokenizeWhitespace | src/token.rs:46 | blank space alone yields no token, and before other text it is dropped |
| Tokens.TokenizeCall | src/token.rs:122-129 | `name()` is `Id(name)`, `ParensLeft`, `ParensRight` |
| Tokens.TokenizeBinding | src/token.rs:98-100 | `name op "body"` between blank space is exactly the identifier, the operator's token and the literal |
| Tokens.TokenizeConstantDefinition | src/token.rs:86-102 | a line `pi = d1.d2` followed, after blank space, by a line `name = "body"` is exactly `Id`, `Equal`, `Float` of the lexeme, `Id`, `Equal`, `LiteralString` of the body |
| Tokens.TokenizeConstantDefinitionTest | src/token.rs:86-102 | `PI = 3.14` and `Name = "Q"` on lines of their own, with any blank space around and between them, are the six tokens the test lists |
| Lexing.Lexer.FromSource | src/lexer.rs:11-14 | a new cursor has the whole token stream of the source ahead |
| Lexing.Lexer.Next | src/lexer.rs:16-21 | returns the next token and advances by one, or `EOF` once the stream is exhausted |
| Lexing.Lexer.Expect | src/lexer.rs:23-33 | consumes exactly one token. It succeeds iff that token is the expected one; a mismatch is `UnexpectedSymbolFound{expected, found}`; at the end it propagates `EOF` |
| Parsing.ParseLoop | src/parser.rs:48-58 | the loop of `parse` over the tokens ahead: an item is appended, a diagnostic recorded and the loop goes on; `EOF` returns the items, any other error aborts. It is the reference for `Parsing.Parser.Parse`, with properties in the `Parsing.ParseLoop…` lemmas |
| Parsing.ParseLoopCollects | src/parser.rs:48-58 | the loop keeps the parsed items and the diagnostics in the item parser's order after those it had. It returns the items iff the item parser's last word is `EOF`, else fails with that error |
| Parsing.ParseLoopKeepsDiagnostics | src/parser.rs:52-55 | `parse` only appends to the diagnostics already held |
| Parsing.ParseLoopAborts | src/parser.rs:56 | an `IOError` or `Diagnostics` error from the item parser aborts the parse with that error |
| Parsing.Steps | src/parser.rs:48-58 | the results the loop receives: all but the last let it go on, the last stops it |
| Parsing.ParseItem | src/parser.rs:83-130 | the item parser for `Id '=' StringLiteral` consumes a token whenever the loop goes on, reports only diagnostics or `EOF`, and gives `EOF` on no input |
| Parsing.ParseItemNeverAborts | src/parser.rs:56 | with that item parser `parse` always returns a module |
| Parsing.ParseModuleItem | src/parser.rs:49 | on the lexer cursor, yields the same item and consumes the same tokens as `ParseItem` |
| Parsing.Parser.FromString | src/parser.rs:31-37 | a parser with the given name and source and no diagnostics |
| Parsing.Parser.Parse | src/parser.rs:43-64 | returns the module named after the parser with the loop's items, or the loop's error, and leaves the loop's diagnostics |
| Parsing.ParseEmptySource | src/parser.rs:72-81 | empty source parses to no items and no diagnostics |
| Parsing.ParseSingleDeclaration | src/parser.rs:109-130 | `Name = "value"` parses to exactly that declaration, with no diagnostic |
| Parsing.ParseMissingEquals | src/parser.rs:83-107 | `Name ? "value"` gives no items and two diagnostics in order: `=` expected where `QuestionMark` was found, then an identifier expected where the literal was found |
| Environments.Visible | src/environment.rs:23-32 | the names a scope can see and their values: its own bindings override the view of its parent chain, and every name the parent sees stays visible. It is the reference `Environments.Scope.Lookup` is proved against |
| Environments.Scope.Lookup | src/environment.rs:23-32 | the innermost binding of `id` along the parent chain, else `UndefinedSymbol` carrying that `id` |
| Environments.Pushed | src/environment.rs:49-57 | an empty scope whose parent is the old one, one deeper |
| Environments.Popped | src/environment.rs:59-66 | the parent, one shallower, or `ScopeUnderflow` exactly at the root |
| Environments.Bound | src/environment.rs:68-70 | only the innermost map changes: `id` gets the value, other keys and the parent chain stay |
| Environments.LookupPushed | src/environment.rs:80-89 | after a push every lookup gives the same result as before |
| Environments.PopPushed | src/environment.rs:49-66 | a pop right after a push restores exactly the prior scope |
| Environments.RootIsEmpty | src/environment.rs:40-47 | in a fresh environment every lookup fails and the first pop underflows |
| Environments.LookupBound | src/environment.rs:68-70 | a bound name is seen with its new value; every other name is looked up as before |
| Environments.Shadowing | src/environment.rs:105-119 | a child binding shadows the parent's, whose own binding stays |
| Environments.ChildBindingDropped | src/environment.rs:91-103 | a binding made after a push is gone after the pop, and a lookup then yields `UndefinedSymbol` |
| Environments.Environment.constructor | src/environment.rs:40-47 | the root scope without parent or bindings |
| Environments.Environment.PushScope | src/environment.rs:49-57 | the current scope becomes an empty child of the old one |
| Environments.Environment.PopScope | src/environment.rs:59-66 | the parent becomes current; at the root, `ScopeUnderflow` and the scope unchanged |
| Environments.Environment.Bind | src/environment.rs:68-70 | binds in the current scope only |
| Environments.Environment.Lookup | src/environment.rs:72-74 | succeeds iff the name is visible from the current scope, with its innermost value, else `UndefinedSymbol` |
| Evaluation.Eval | cli/interpreter.rs:50-76 | the result of `eval` and the current scope it leaves: `print` first, then a call through the environment, then a variable's value, else the expression itself. Its properties are `Evaluation.EvalScope`, `Evaluation.EvalDepth` and the case lemmas below |
| Evaluation.EvalArgs | cli/interpreter.rs:83-86 | a successful argument loop yields one value per argument |
| Evaluation.EvalArgsValues | cli/interpreter.rs:83-86 | after a successful argument loop, each value is what that argument evaluates to on its own in the caller's scope, which it leaves unchanged |
| Evaluation.EvalFunction | cli/interpreter.rs:78-96 | the arguments, then the matching clause in a pushed scope, popped only on success. Its properties are `Evaluation.EvalFunctionScope`, `Evaluation.EvalFunctionDispatch`, `Evaluation.EvalFunctionArgumentError` and `Evaluation.CallErrorLeavesScope` |
| Evaluation.BindMatchingClause | cli/interpreter.rs:98-119 | the body of the first clause of matching arity, evaluated with its patterns bound in the current scope, else `ClauseMatchError`. Its properties are `Evaluation.BindMatchingClauseScope` and `Evaluation.EvalFunctionDispatch` |
| Evaluation.BindPatterns | cli/interpreter.rs:110-114 | the scope after binding each pattern to the value at its position, left to right. Its properties are the three `Evaluation.BindPatterns…` lemmas |
| Evaluation.FirstMatching | cli/interpreter.rs:103-106 | the index of the first clause whose pattern count equals the argument count, none if no clause has it |
| Evaluation.BindPatternsParent | cli/interpreter.rs:110-114 | binding patterns leaves the parent chain alone |
| Evaluation.BindPatternsUntouched | cli/interpreter.rs:110-114 | a name no bound pattern carries keeps its binding or its absence |
| Evaluation.BindPatternsLast | cli/interpreter.rs:110-114 | each pattern's name is bound to the value paired with its last occurrence |
| Evaluation.EvalScope | cli/interpreter.rs:50-76 | a successful evaluation leaves exactly the scope it started in. Any evaluation leaves that scope with zero or more scopes on top, and never reports `ScopeUnderflow` |
| Evaluation.EvalArgsScope | cli/interpreter.rs:83-86 | the same for the argument loop |
| Evaluation.EvalFunctionScope | cli/interpreter.rs:78-96 | the same for a call: on success the pop restores the caller's scope and cannot underflow |
| Evaluation.BindMatchingClauseScope | cli/interpreter.rs:98-119 | a clause that succeeds leaves its scope hanging off the caller's, and any clause leaves scopes on top of the caller's |
| Evaluation.EvalDepth | cli/interpreter.rs:87-95 | a successful call returns at its starting depth, and no evaluation returns shallower |
| Evaluation.ValuesEvaluateToThemselves | cli/interpreter.rs:74 | literals and function values evaluate to themselves in an unchanged scope |
| Evaluation.EvalVariable | cli/interpreter.rs:70-73 | a variable succeeds iff it is visible, with its innermost value, else `EnvironmentError(UndefinedSymbol)` |
| Evaluation.EvalPrint | cli/interpreter.rs:52-59 | `print` is handled before any lookup. It succeeds with `"ok"` iff its arguments evaluate, else fails with their error |
| Evaluation.EvalCallNonFunction | cli/interpreter.rs:60-69 | an unbound callee is `EnvironmentError(UndefinedSymbol)`, and a callee bound to a non-function is `CannotCallNonFunctionValue` with that value |
| Evaluation.EvalArgsOfValues | cli/interpreter.rs:83-86 | value arguments evaluate to themselves, in order |
| Evaluation.EvalArgsStopsAtError | cli/interpreter.rs:85 | the first failing argument ends the argument loop |
| Evaluation.EvalFunctionArgumentError | cli/interpreter.rs:83-87 | a failing argument ends the call before it pushes a scope |
| Evaluation.EvalFunctionDispatch | cli/interpreter.rs:87-119 | only the first arity-matching clause runs, in a fresh scope holding its patterns. On its success the caller's scope returns; with no such clause the result is `ClauseMatchError` and the fresh scope stays pushed |
| Evaluation.CallErrorLeavesScope | cli/interpreter.rs:87-95 | a call whose arguments succeed but whose clause fails leaves the scope it pushed on the scope chain: exactly the empty pushed scope when no clause matches, else the clause's scope with its patterns with whatever scopes the failing body left on top of it; the caller ends deeper than it started |
| Evaluation.ScopeLeaksOnBodyError | cli/interpreter.rs:89 | one instance: a function whose only clause takes no arguments and reads an unbound variable fails with `UndefinedSymbol` and leaves exactly the empty pushed scope, one deeper than the caller |
| Evaluation.CalleeScopeSeesCaller | cli/interpreter.rs:87-116 | once the arguments succeed, the call's result is that of the first matching clause's body, run in a scope where every name its patterns do not carry is looked up exactly as in the caller's scope |
| Evaluation.CalleeSeesCallerBindings | src/environment.rs:49-57 | one instance: a callee whose only clause takes no arguments and reads `x`, called right after the caller bound `x` to `v`, returns `v` |
| Evaluation.DeclBindings | cli/interpreter.rs:30-40 | the root bindings of `Interpreter::new`, declarations in item order. Its properties are `Evaluation.DeclBindingsNames` and `Evaluation.DeclBindingsLast` |
| Evaluation.DeclBindingsNames | cli/interpreter.rs:30-40 | the root binds exactly the declared names |
| Evaluation.DeclBindingsLast | cli/interpreter.rs:30-40 | each declared name is bound to its last declaration's value |
| Evaluation.EvalTestProgram | cli/interpreter.rs:127-143 | in the test program, `main` called on a literal returns `print`'s `"ok"` in the root scope |
| Interpreters.Interpreter.constructor | cli/interpreter.rs:30-40 | a fresh environment whose root holds the declarations, in item order |
| Interpreters.Interpreter.RunMain | cli/interpreter.rs:42-48 | succeeds iff evaluating `main("hello world")` does, else fails with its error |
| Interpreters.Interpreter.Eval | cli/interpreter.rs:50-76 | the result and the scope left are those of `Evaluation.Eval` |
| Interpreters.Interpreter.EvalArguments | cli/interpreter.rs:83-86 | the result and the scope left are those of `Evaluation.EvalArgs` |
| Interpreters.Interpreter.EvalFunction | cli/interpreter.rs:78-96 | the result and the scope left are those of `Evaluation.EvalFunction` |
| Interpreters.Interpreter.BindMatchingClause | cli/interpreter.rs:98-119 | the result and the scope left are those of `Evaluation.BindMatchingClause` |
| ParserErrors.Eq | parser/error.rs:26-53 | two errors are equal iff they are of the same variant with equal fields, a missing value compared by its span alone. Its properties are `ParserErrors.EqByVariant`, `ParserErrors.EqIgnoresOnlySource`, `ParserErrors.EqMissingValueAnySource` and `ParserErrors.EqIsEquivalence` |
| ParserErrors.DiscriminantIdentifiesVariant | parser/error.rs:51 | discriminants are equal exactly for errors of the same variant |
| ParserErrors.EqIgnoresOnlySource | parser/error.rs:26-53 | two errors are equal iff they agree on everything but a missing value's source text |
| ParserErrors.EqByVariant | parser/error.rs:29-51 | both fields, the found token, the span alone, `EOF == EOF`; different variants are never equal |
| ParserErrors.EqMissingValueAnySource | parser/error.rs:47-50 | missing-value errors at one span are equal whatever their source texts |
| ParserErrors.EqIsEquivalence | parser/error.rs:26-53 | the equality is reflexive, symmetric and transitive |

## Left out

- `Parser::from_file` reads a file and derives the module name from its path. It is file I/O and is not modelled.
- `Parser::diagnostics` only returns the field. The model reads `Parsing.Parser.diagnostics` directly.
- `ModuleItem::from_lexer`, the implementation of the `Parse` trait declared at `src/parser.rs:7-11`, is not part of this model. Only the declaration shape the parser tests fix, `Id '=' StringLiteral`, is parsed (`Parsing.ParseItem`). A declaration of any other value (a function, a call) is reported as `ExpectedExpression` for its first token.
- Parsing.ParseLoop: requires an item parser that consumes at least one token whenever it lets the loop go on (`Parsing.Progressing`). The loop at `src/parser.rs:48-58` has no such guarantee of its own: on a diagnostic it records it and asks again without skipping anything (the TODO at `src/parser.rs:53`). Termination of the real `parse` therefore depends on `from_lexer` consuming a token whenever it reports a diagnostic, which `Parsing.ParseItem` does.
- Parsing.ParseLoopAborts: the concrete item parser never returns `IOError` or `Diagnostics`, so this abort path is proved only for the general loop.
- The `print!` output of `eval` is console output, so `print` yields only its result.
- Evaluation.Eval: recursion is bounded by `fuel`, and running out of it is the extra error `OutOfFuel`. The source can instead run until the host stack overflows.
- Interpreters.Interpreter.RunMain: `main` consumes the interpreter in the source. The model keeps the object and its environment afterwards.
- `InterpreterError::UnexpectedSymbolFound` and `ExpectedExpression` are declared but never produced by `eval`. The model declares them too.
- Tokens.ScanNumber: a `Number` holds an unbounded natural. The source parses into `u64`, and its overflow behaviour is logos library behaviour.
- Tokens.ScanFloat: a `Float` keeps its lexeme. Floating-point parsing to `f64` is not modelled.
- Lexing.Lexer.Expect, ParserErrors.Eq, ParserErrors.EqByVariant, ParserErrors.EqIgnoresOnlySource: these compare `Float` tokens by their lexeme, while the source compares the parsed `f64` values (`src/lexer.rs:25`, `parser/error.rs:42,46`). So `3.10` and `3.1`, or `.5` and `0.5`, are different tokens in the model but equal in the source.
- Tokens.ScanUnknownCharacter: an `Error` token consumes exactly one character, and so does an unclosed quote. How far the logos engine extends an error token is library behaviour that is not visible.
- The logos lexer is lazy. The model tokenizes the rest of the source as a whole (`Lexing.Lexer.Remaining`).
- A miette `SourceSpan` is a pair of naturals. Its rendering is not modelled.
- `boot/main.rs` generates native code through LLVM and runs external tools. `cli/main.rs` and `src/main.rs` read files from the command line. None of these is part of this model.
- `src/interpreter.rs` is commented out and superseded by `cli/interpreter.rs`.
