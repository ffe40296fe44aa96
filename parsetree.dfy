/** The parse tree of a Q module (src/parsetree.rs). */
module ParseTree {

  /** An identifier; equality is structural on the wrapped text, and any Dafny
      value can key a `map`, which stands for Rust's `Hash`. */
  datatype Id = Id(name: string)

  /** The only pattern is an irrefutable bind of an identifier. */
  datatype Pattern = Bind(id: Id)

  /** One alternative of a function value: its parameter patterns, in order,
      and a single body expression. */
  datatype FunClause = FunClause(args: seq<Pattern>, body: Expression)

  /** `Variable` is matched by the evaluator (cli/interpreter.rs:70) although
      src/parsetree.rs:15-20 does not declare it; the model has it. */
  datatype Expression =
    | LiteralString(value: string)
    | Call(id: Id, args: seq<Expression>)
    | Function(clauses: seq<FunClause>)
    | Variable(id: Id)

  datatype ValueDeclaration = ValueDeclaration(name: Id, value: Expression)

  /** A value declaration is the only kind of module item. */
  datatype ModuleItem = ValueDeclarationItem(decl: ValueDeclaration)

  datatype Module = Module(name: Id, items: seq<ModuleItem>)
}
