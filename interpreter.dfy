/** The interpreter object of cli/interpreter.rs: a program and the
    environment it runs in, evaluated by methods that push, bind and pop
    scopes of that environment as they go.  Each method is proved to leave
    exactly the result and the scope that `Evaluation` gives. */
module Interpreters {
  import opened Results
  import opened ParseTree
  import opened Environments
  import opened Evaluation

  /** The call `main` makes: the program's `main` on one literal argument. */
  const MainCall: Expression := Call(Id("main"), [LiteralString("hello world")])

  class Interpreter {
    const program: Module
    const env: Environment

    /** Binds every value declaration of the program in the root scope, in
        item order. */
    constructor (program: Module)
      ensures this.program == program
      ensures fresh(env)
      ensures env.currentScope == Scope(None, DeclBindings(program.items))
    {
      this.program := program;
      var e := new Environment();
      var i := 0;
      while i < |program.items|
        invariant 0 <= i <= |program.items|
        invariant e.currentScope == Scope(None, DeclBindings(program.items[..i]))
      {
        var vd := program.items[i].decl;
        e.Bind(vd.name, vd.value);
        assert program.items[..i + 1][..i] == program.items[..i];
        i := i + 1;
      }
      assert program.items[..i] == program.items;
      env := e;
    }

    /** Evaluates the program's `main` and keeps only whether it failed. */
    method RunMain(fuel: nat) returns (r: Result<(), InterpreterError>)
      modifies env
      ensures var o := Evaluation.Eval(old(env.currentScope), MainCall, fuel);
              && (r.Ok? <==> o.result.Ok?)
              && (r.Err? ==> r.error == o.result.error)
              && env.currentScope == o.scope
    {
      var v := Eval(MainCall, fuel);
      if v.Ok? {
        r := Ok(());
      } else {
        r := Err(v.error);
      }
    }

    /** `eval` on the environment's current scope. */
    method Eval(e: Expression, fuel: nat) returns (r: Result<Expression, InterpreterError>)
      modifies env
      ensures Outcome(r, env.currentScope) == Evaluation.Eval(old(env.currentScope), e, fuel)
      decreases fuel, 0
    {
      if fuel == 0 {
        return Err(OutOfFuel);
      }
      var f: nat := fuel - 1;
      match e
      case Call(id, args) =>
        if id == PrintId {
          PrintStep(env.currentScope, args, fuel, f);
          var values := EvalArguments(args, f);
          if values.Ok? {
            r := Ok(PrintResult);
          } else {
            r := Err(values.error);
          }
        } else {
          var callee := env.Lookup(id);
          match callee {
            case Err(err) =>
              r := Err(EnvironmentError(err));
            case Ok(Function(clauses)) =>
              CallStep(env.currentScope, id, args, clauses, fuel, f);
              r := EvalFunction(clauses, args, f);
            case Ok(v) =>
              r := Err(CannotCallNonFunctionValue(id, v));
          }
        }
      case Variable(id) =>
        var value := env.Lookup(id);
        match value {
          case Ok(v) =>
            r := Ok(v);
          case Err(err) =>
            r := Err(EnvironmentError(err));
        }
      case _ =>
        r := Ok(e);
    }

    /** The argument loop of `eval` and `eval_function`: left to right,
        stopping at the first error. */
    method EvalArguments(args: seq<Expression>, fuel: nat) returns (r: Result<seq<Expression>, InterpreterError>)
      modifies env
      ensures Outcome(r, env.currentScope) == Evaluation.EvalArgs(old(env.currentScope), args, fuel)
      decreases fuel, 1
    {
      var values := [];
      var i := 0;
      while i < |args|
        invariant 0 <= i <= |args|
        invariant Outcome(Ok(values), env.currentScope) == Evaluation.EvalArgs(old(env.currentScope), args[..i], fuel)
      {
        assert args[..i + 1][..i] == args[..i];
        var v := Eval(args[i], fuel);
        if v.Err? {
          EvalArgsStopsAtError(old(env.currentScope), args, i + 1, fuel);
          return Err(v.error);
        }
        values := values + [v.value];
        i := i + 1;
      }
      assert args[..i] == args;
      r := Ok(values);
    }

    /** `eval_function`: arguments, a fresh scope, the matching clause, and
        the pop, which a failing clause skips. */
    method EvalFunction(clauses: seq<FunClause>, args: seq<Expression>, fuel: nat) returns (r: Result<Expression, InterpreterError>)
      modifies env
      ensures Outcome(r, env.currentScope) == Evaluation.EvalFunction(old(env.currentScope), clauses, args, fuel)
      decreases fuel, 3
    {
      var values := EvalArguments(args, fuel);
      if values.Err? {
        return Err(values.error);
      }
      env.PushScope();
      var result := BindMatchingClause(clauses, values.value, fuel);
      if result.Err? {
        return result;
      }
      var popped := env.PopScope();
      if popped.Err? {
        return Err(EnvironmentError(popped.error));
      }
      r := result;
    }

    /** `bind_matching_clause`: skips clauses of the wrong arity, binds the
        first one's patterns one by one, and evaluates its body. */
    method BindMatchingClause(clauses: seq<FunClause>, values: seq<Expression>, fuel: nat) returns (r: Result<Expression, InterpreterError>)
      modifies env
      ensures Outcome(r, env.currentScope) == Evaluation.BindMatchingClause(old(env.currentScope), clauses, values, fuel)
      decreases fuel, 2
    {
      var k := 0;
      while k < |clauses|
        invariant 0 <= k <= |clauses|
        invariant forall j :: 0 <= j < k ==> |clauses[j].args| != |values|
        invariant env.currentScope == old(env.currentScope)
      {
        var clause := clauses[k];
        if |clause.args| != |values| {
          k := k + 1;
          continue;
        }
        assert FirstMatching(clauses, |values|) == Some(k);
        var i := 0;
        while i < |clause.args| && i < |values|
          invariant 0 <= i <= |clause.args|
          invariant BindPatterns(env.currentScope, clause.args[i..], values[i..])
                    == BindPatterns(old(env.currentScope), clause.args, values)
        {
          env.Bind(clause.args[i].id, values[i]);
          assert clause.args[i..][1..] == clause.args[i + 1..];
          assert values[i..][1..] == values[i + 1..];
          i := i + 1;
        }
        r := Eval(clause.body, fuel);
        return;
      }
      r := Err(ClauseMatchError);
    }
  }
}
