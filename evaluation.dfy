/** The meaning of the tree-walking evaluator of cli/interpreter.rs, as
    functions from the current scope to a result and the scope left behind.

    Evaluation of a recursive Q program need not end, so every entry into
    `Eval` spends one unit of `fuel` and an exhausted budget is the extra
    error `OutOfFuel`. */
module Evaluation {
  import opened Results
  import opened ParseTree
  import T = Tokens
  import opened Environments

  datatype InterpreterError =
    | UnexpectedSymbolFound(expected: T.Token, found: T.Token)
    | ExpectedExpression(found: T.Token)
    | CannotCallNonFunctionValue(id: Id, expr: Expression)
    | ClauseMatchError
    | EnvironmentError(error: EnvironmentError)
    | OutOfFuel

  /** A result together with the current scope it leaves. */
  datatype Outcome<+R> = Outcome(result: Result<R, InterpreterError>, scope: Scope)

  /** The name that `eval` handles itself, before looking anything up. */
  const PrintId: Id := Id("print")

  /** The value a call to `print` returns. */
  const PrintResult: Expression := LiteralString("ok")

  /** `eval`: `print` calls first, then calls through the environment, then
      variables; anything else is already a value. */
  function Eval(s: Scope, e: Expression, fuel: nat): (o: Outcome<Expression>)
    decreases fuel, 0, 0
  {
    if fuel == 0 then Outcome(Err(OutOfFuel), s)
    else
      match e
      case Call(id, args) =>
        if id == PrintId then
          var a := EvalArgs(s, args, fuel - 1);
          Outcome(if a.result.Ok? then Ok(PrintResult) else Err(a.result.error), a.scope)
        else
          (match s.Lookup(id)
           case Err(err) => Outcome(Err(EnvironmentError(err)), s)
           case Ok(Function(clauses)) => EvalFunction(s, clauses, args, fuel - 1)
           case Ok(v) => Outcome(Err(CannotCallNonFunctionValue(id, v)), s))
      case Variable(id) =>
        Outcome((match s.Lookup(id) case Ok(v) => Ok(v) case Err(err) => Err(EnvironmentError(err))), s)
      case _ => Outcome(Ok(e), s)
  }

  /** The argument loop: arguments evaluated left to right, each in the scope
      the previous one left, stopping at the first error. */
  function EvalArgs(s: Scope, args: seq<Expression>, fuel: nat): (o: Outcome<seq<Expression>>)
    ensures o.result.Ok? ==> |o.result.value| == |args|
    decreases fuel, 1, |args|
  {
    if args == [] then Outcome(Ok([]), s)
    else
      var a := EvalArgs(s, args[..|args| - 1], fuel);
      if a.result.Err? then a
      else
        var v := Eval(a.scope, args[|args| - 1], fuel);
        if v.result.Err? then Outcome(Err(v.result.error), v.scope)
        else Outcome(Ok(a.result.value + [v.result.value]), v.scope)
  }

  /** `eval_function`: the arguments, then a pushed scope for the clause; the
      scope is popped only when the clause succeeded. */
  function EvalFunction(s: Scope, clauses: seq<FunClause>, args: seq<Expression>, fuel: nat): (o: Outcome<Expression>)
    decreases fuel, 3, 0
  {
    var a := EvalArgs(s, args, fuel);
    if a.result.Err? then Outcome(Err(a.result.error), a.scope)
    else
      var b := BindMatchingClause(Pushed(a.scope), clauses, a.result.value, fuel);
      if b.result.Err? then b
      else
        match Popped(b.scope)
        case Err(err) => Outcome(Err(EnvironmentError(err)), b.scope)
        case Ok(p) => Outcome(b.result, p)
  }

  /** The index of the first clause taking `n` arguments, if any. */
  function FirstMatching(clauses: seq<FunClause>, n: nat): (r: Option<nat>)
    ensures r.Some? ==> r.value < |clauses| && |clauses[r.value].args| == n
    ensures r.Some? ==> forall j :: 0 <= j < r.value ==> |clauses[j].args| != n
    ensures r.None? ==> forall j :: 0 <= j < |clauses| ==> |clauses[j].args| != n
  {
    if clauses == [] then None
    else if |clauses[0].args| == n then Some(0)
    else match FirstMatching(clauses[1..], n)
      case None => None
      case Some(i) => Some(i + 1)
  }

  /** The scope after binding each pattern to its value, in order; a later
      pattern with the same name wins. */
  function BindPatterns(s: Scope, patterns: seq<Pattern>, values: seq<Expression>): (t: Scope)
    decreases |patterns|
  {
    if patterns == [] || values == [] then s
    else BindPatterns(Bound(s, patterns[0].id, values[0]), patterns[1..], values[1..])
  }

  /** `bind_matching_clause`: the first clause of the right arity has its
      patterns bound in the current scope and its body evaluated there. */
  function BindMatchingClause(s: Scope, clauses: seq<FunClause>, values: seq<Expression>, fuel: nat): (o: Outcome<Expression>)
    decreases fuel, 2, 0
  {
    match FirstMatching(clauses, |values|)
    case None => Outcome(Err(ClauseMatchError), s)
    case Some(i) => Eval(BindPatterns(s, clauses[i].args, values), clauses[i].body, fuel)
  }

  /** The root bindings `Interpreter::new` makes: every declaration in item
      order, a later one of the same name overwriting an earlier one. */
  function DeclBindings(items: seq<ModuleItem>): (m: map<Id, Expression>)
  {
    if items == [] then map[]
    else
      var last := items[|items| - 1].decl;
      DeclBindings(items[..|items| - 1])[last.name := last.value]
  }

  // ---------------------------------------------------------------------
  // Scopes left behind

  /** `t` is `s` with zero or more scopes pushed on top of it. */
  predicate Extends(t: Scope, s: Scope)
    decreases t
  {
    t == s || (t.parent.Some? && Extends(t.parent.value, s))
  }

  lemma {:induction false} ExtendsTransitive(t: Scope, u: Scope, s: Scope)
    requires Extends(t, u) && Extends(u, s)
    ensures Extends(t, s)
    decreases t
  {
    if t != u {
      ExtendsTransitive(t.parent.value, u, s);
    }
  }

  lemma {:induction false} ExtendsDepth(t: Scope, s: Scope)
    requires Extends(t, s)
    ensures Depth(t) >= Depth(s)
    ensures Depth(t) == Depth(s) ==> t == s
    decreases t
  {
    if t != s {
      ExtendsDepth(t.parent.value, s);
    }
  }

  /** How many pattern/value pairs a clause binds: the zip of the two. */
  function Paired(patterns: seq<Pattern>, values: seq<Expression>): (n: nat)
    ensures n <= |patterns| && n <= |values|
    ensures n == |patterns| || n == |values|
  {
    if |patterns| < |values| then |patterns| else |values|
  }

  /** Binding patterns touches the innermost map only. */
  lemma {:induction false} BindPatternsParent(s: Scope, patterns: seq<Pattern>, values: seq<Expression>)
    ensures BindPatterns(s, patterns, values).parent == s.parent
    decreases |patterns|
  {
    if patterns != [] && values != [] {
      BindPatternsParent(Bound(s, patterns[0].id, values[0]), patterns[1..], values[1..]);
    }
  }

  /** A name that no bound pattern carries keeps its binding, or its
      absence. */
  lemma {:induction false} BindPatternsUntouched(s: Scope, patterns: seq<Pattern>, values: seq<Expression>, k: Id)
    requires forall i :: 0 <= i < Paired(patterns, values) ==> patterns[i].id != k
    ensures var t := BindPatterns(s, patterns, values);
            && (k in t.bindings <==> k in s.bindings)
            && (k in s.bindings ==> t.bindings[k] == s.bindings[k])
    decreases |patterns|
  {
    if patterns != [] && values != [] {
      assert patterns[0].id != k;
      var p', v' := patterns[1..], values[1..];
      forall i | 0 <= i < Paired(p', v') ensures p'[i].id != k {
        assert p'[i] == patterns[i + 1];
      }
      BindPatternsUntouched(Bound(s, patterns[0].id, values[0]), p', v', k);
    }
  }

  /** A bound name ends up with the value paired with its last occurrence. */
  lemma {:induction false} BindPatternsLast(s: Scope, patterns: seq<Pattern>, values: seq<Expression>, i: nat)
    requires i < Paired(patterns, values)
    requires forall j :: i < j < Paired(patterns, values) ==> patterns[j].id != patterns[i].id
    ensures var t := BindPatterns(s, patterns, values);
            patterns[i].id in t.bindings && t.bindings[patterns[i].id] == values[i]
    decreases |patterns|
  {
    var s' := Bound(s, patterns[0].id, values[0]);
    var p', v' := patterns[1..], values[1..];
    assert BindPatterns(s, patterns, values) == BindPatterns(s', p', v');
    if i == 0 {
      forall j | 0 <= j < Paired(p', v') ensures p'[j].id != patterns[0].id {
        assert p'[j] == patterns[j + 1];
      }
      BindPatternsUntouched(s', p', v', patterns[0].id);
    } else {
      forall j | i - 1 < j < Paired(p', v') ensures p'[j].id != p'[i - 1].id {
        assert p'[j] == patterns[j + 1];
      }
      BindPatternsLast(s', p', v', i - 1);
    }
  }

  /** What an evaluation leaves behind: on success exactly the scope it
      started in; in any case that scope with zero or more scopes still
      pushed on top of it; and never the error of popping the root. */
  predicate KeepsScope<R>(o: Outcome<R>, s: Scope) {
    && (o.result.Ok? ==> o.scope == s)
    && Extends(o.scope, s)
    && !(o.result.Err? && o.result.error == EnvironmentError(ScopeUnderflow))
  }

  /** The `print` step of `Eval`, with the inner fuel `f` passed in so that
      callers never reason about `fuel - 1`. */
  lemma PrintStep(s: Scope, args: seq<Expression>, fuel: nat, f: nat)
    requires fuel == f + 1
    ensures var a := EvalArgs(s, args, f);
            Eval(s, Call(PrintId, args), fuel)
            == Outcome(if a.result.Ok? then Ok(PrintResult) else Err(a.result.error), a.scope)
  {
  }

  /** The step of `Eval` that calls a function bound in the scope. */
  lemma CallStep(s: Scope, id: Id, args: seq<Expression>, clauses: seq<FunClause>, fuel: nat, f: nat)
    requires fuel == f + 1 && id != PrintId && s.Lookup(id) == Ok(Function(clauses))
    ensures Eval(s, Call(id, args), fuel) == EvalFunction(s, clauses, args, f)
  {
  }

  /** Every evaluation keeps its scope in the sense of `KeepsScope`: only a
      failed call can leave a pushed scope behind. */
  lemma {:induction false} EvalScope(s: Scope, e: Expression, fuel: nat)
    ensures KeepsScope(Eval(s, e, fuel), s)
    decreases fuel, 0, 0
  {
    if fuel > 0 && e.Call? {
      var f: nat := fuel - 1;
      if e.id == PrintId {
        EvalArgsScope(s, e.args, f);
        PrintKeepsScope(s, e.args, fuel, f);
      } else if s.Lookup(e.id).Ok? && s.Lookup(e.id).value.Function? {
        EvalFunctionScope(s, s.Lookup(e.id).value.clauses, e.args, f);
        CallKeepsScope(s, e.id, e.args, s.Lookup(e.id).value.clauses, fuel, f);
      } else {
        LocalKeepsScope(s, e, fuel);
      }
    } else {
      LocalKeepsScope(s, e, fuel);
    }
  }

  /** `print` leaves what its argument loop leaves.  (The fuel of the inner
      evaluation is passed as `f` so that the proofs never see `fuel - 1`.) */
  lemma PrintKeepsScope(s: Scope, args: seq<Expression>, fuel: nat, f: nat)
    requires fuel == f + 1
    requires KeepsScope(EvalArgs(s, args, f), s)
    ensures KeepsScope(Eval(s, Call(PrintId, args), fuel), s)
  {
    PrintStep(s, args, fuel, f);
  }

  /** A call through the environment leaves what the callee leaves. */
  lemma CallKeepsScope(s: Scope, id: Id, args: seq<Expression>, clauses: seq<FunClause>, fuel: nat, f: nat)
    requires fuel == f + 1 && id != PrintId && s.Lookup(id) == Ok(Function(clauses))
    requires KeepsScope(EvalFunction(s, clauses, args, f), s)
    ensures KeepsScope(Eval(s, Call(id, args), fuel), s)
  {
    CallStep(s, id, args, clauses, fuel, f);
  }

  /** Everything else is evaluated without touching the scope. */
  lemma LocalKeepsScope(s: Scope, e: Expression, fuel: nat)
    requires !(fuel > 0 && e.Call? && e.id == PrintId)
    requires !(fuel > 0 && e.Call? && s.Lookup(e.id).Ok? && s.Lookup(e.id).value.Function?)
    ensures KeepsScope(Eval(s, e, fuel), s)
  {
    assert Eval(s, e, fuel).scope == s;
  }

  lemma {:induction false} EvalArgsScope(s: Scope, args: seq<Expression>, fuel: nat)
    ensures KeepsScope(EvalArgs(s, args, fuel), s)
    decreases fuel, 1, |args|
  {
    if args != [] {
      var a := EvalArgs(s, args[..|args| - 1], fuel);
      EvalArgsScope(s, args[..|args| - 1], fuel);
      if a.result.Ok? {
        EvalScope(a.scope, args[|args| - 1], fuel);
      }
    }
  }

  /** The scope a clause is evaluated in hangs off the caller's scope. */
  lemma {:induction false} BindMatchingClauseScope(s: Scope, clauses: seq<FunClause>, values: seq<Expression>, fuel: nat)
    requires s.parent.Some?
    ensures var o := BindMatchingClause(s, clauses, values, fuel);
            && (o.result.Ok? ==> o.scope.parent == s.parent)
            && Extends(o.scope, s.parent.value)
            && o.result != Err(EnvironmentError(ScopeUnderflow))
    decreases fuel, 2, 0
  {
    match FirstMatching(clauses, |values|)
    case None =>
    case Some(i) =>
      var b := BindPatterns(s, clauses[i].args, values);
      BindPatternsParent(s, clauses[i].args, values);
      EvalScope(b, clauses[i].body, fuel);
      ExtendsTransitive(Eval(b, clauses[i].body, fuel).scope, b, s.parent.value);
  }

  lemma {:induction false} EvalFunctionScope(s: Scope, clauses: seq<FunClause>, args: seq<Expression>, fuel: nat)
    ensures KeepsScope(EvalFunction(s, clauses, args, fuel), s)
    decreases fuel, 3, 0
  {
    var a := EvalArgs(s, args, fuel);
    EvalArgsScope(s, args, fuel);
    if a.result.Ok? {
      BindMatchingClauseScope(Pushed(a.scope), clauses, a.result.value, fuel);
    }
  }

  /** On success a call returns at the depth it started from; whatever
      happens, the scope is never shallower than before. */
  lemma EvalDepth(s: Scope, e: Expression, fuel: nat)
    ensures Eval(s, e, fuel).result.Ok? ==> Depth(Eval(s, e, fuel).scope) == Depth(s)
    ensures Depth(Eval(s, e, fuel).scope) >= Depth(s)
  {
    EvalScope(s, e, fuel);
    ExtendsDepth(Eval(s, e, fuel).scope, s);
  }

  // ---------------------------------------------------------------------
  // Evaluation, case by case

  /** Literal strings and function values are already values. */
  lemma ValuesEvaluateToThemselves(s: Scope, e: Expression, fuel: nat)
    requires fuel > 0 && (e.LiteralString? || e.Function?)
    ensures Eval(s, e, fuel) == Outcome(Ok(e), s)
  {
  }

  /** A variable stands for what the current scope binds it to. */
  lemma EvalVariable(s: Scope, id: Id, fuel: nat)
    requires fuel > 0
    ensures var o := Eval(s, Variable(id), fuel);
            && o.scope == s
            && (o.result.Ok? <==> id in Visible(s))
            && (o.result.Ok? ==> o.result.value == Visible(s)[id])
            && (o.result.Err? ==> o.result.error == EnvironmentError(UndefinedSymbol(id)))
  {
  }

  /** `print` is handled before any lookup, whatever the scope binds the
      name to: the arguments are evaluated, and the result is the literal
      "ok" unless an argument fails. */
  lemma EvalPrint(s: Scope, args: seq<Expression>, fuel: nat)
    requires fuel > 0
    ensures var o := Eval(s, Call(PrintId, args), fuel);
            var a := EvalArgs(s, args, fuel - 1);
            && (o.result.Ok? <==> a.result.Ok?)
            && (o.result.Ok? ==> o.result == Ok(PrintResult) && o.scope == s)
            && (o.result.Err? ==> o.result.error == a.result.error)
  {
    EvalArgsScope(s, args, fuel - 1);
  }

  /** Calling an unbound name is an environment error; calling a name bound
      to something other than a function reports that very value. */
  lemma EvalCallNonFunction(s: Scope, id: Id, args: seq<Expression>, fuel: nat)
    requires fuel > 0 && id != PrintId
    ensures id !in Visible(s) ==>
              Eval(s, Call(id, args), fuel) == Outcome(Err(EnvironmentError(UndefinedSymbol(id))), s)
    ensures id in Visible(s) && !Visible(s)[id].Function? ==>
              Eval(s, Call(id, args), fuel) == Outcome(Err(CannotCallNonFunctionValue(id, Visible(s)[id])), s)
  {
  }

  /** Arguments that are values evaluate to themselves, in order. */
  lemma {:induction false} EvalArgsOfValues(s: Scope, args: seq<Expression>, fuel: nat)
    requires fuel > 0
    requires forall i :: 0 <= i < |args| ==> args[i].LiteralString? || args[i].Function?
    ensures EvalArgs(s, args, fuel) == Outcome(Ok(args), s)
    decreases |args|
  {
    if args != [] {
      EvalArgsOfValues(s, args[..|args| - 1], fuel);
      ValuesEvaluateToThemselves(s, args[|args| - 1], fuel);
      assert args[..|args| - 1] + [args[|args| - 1]] == args;
    }
  }

  /** A successful argument loop gives each argument the value it has on its
      own in the caller's scope: every argument succeeds and leaves that
      scope as it found it. */
  lemma {:induction false} EvalArgsValues(s: Scope, args: seq<Expression>, fuel: nat)
    requires EvalArgs(s, args, fuel).result.Ok?
    ensures forall i :: 0 <= i < |args| ==>
              Eval(s, args[i], fuel) == Outcome(Ok(EvalArgs(s, args, fuel).result.value[i]), s)
    decreases |args|
  {
    if args != [] {
      var init := args[..|args| - 1];
      EvalArgsValues(s, init, fuel);
      EvalArgsScope(s, init, fuel);
      EvalScope(s, args[|args| - 1], fuel);
      forall i | 0 <= i < |args|
        ensures Eval(s, args[i], fuel) == Outcome(Ok(EvalArgs(s, args, fuel).result.value[i]), s)
      {
        if i < |args| - 1 {
          assert args[i] == init[i];
        }
      }
    }
  }

  /** The first failing argument is the argument loop's last word. */
  lemma {:induction false} EvalArgsStopsAtError(s: Scope, args: seq<Expression>, k: nat, fuel: nat)
    requires k <= |args| && EvalArgs(s, args[..k], fuel).result.Err?
    ensures EvalArgs(s, args, fuel) == EvalArgs(s, args[..k], fuel)
    decreases |args| - k
  {
    if k < |args| {
      assert args[..k + 1][..k] == args[..k];
      EvalArgsStopsAtError(s, args, k + 1, fuel);
    } else {
      assert args[..k] == args;
    }
  }

  /** A failing argument ends the call before any scope of its own is
      pushed: the error and the scope are the argument loop's. */
  lemma EvalFunctionArgumentError(s: Scope, clauses: seq<FunClause>, args: seq<Expression>, fuel: nat)
    requires EvalArgs(s, args, fuel).result.Err?
    ensures EvalFunction(s, clauses, args, fuel)
            == Outcome(Err(EvalArgs(s, args, fuel).result.error), EvalArgs(s, args, fuel).scope)
  {
  }

  /** Once the arguments are values, only the first clause of matching arity
      runs, in a fresh scope on top of the caller's holding its patterns; with
      no such clause the call fails with `ClauseMatchError` and the fresh
      scope stays pushed.  Later clauses are never tried. */
  lemma EvalFunctionDispatch(s: Scope, clauses: seq<FunClause>, args: seq<Expression>, fuel: nat)
    requires EvalArgs(s, args, fuel).result.Ok?
    ensures var values := EvalArgs(s, args, fuel).result.value;
            var o := EvalFunction(s, clauses, args, fuel);
            match FirstMatching(clauses, |values|)
            case None => o == Outcome(Err(ClauseMatchError), Pushed(s))
            case Some(i) =>
              var body := Eval(BindPatterns(Pushed(s), clauses[i].args, values), clauses[i].body, fuel);
              && o.result == body.result
              && (body.result.Ok? ==> o.scope == s)
              && (body.result.Err? ==> o.scope == body.scope)
  {
    EvalArgsScope(s, args, fuel);
    var values := EvalArgs(s, args, fuel).result.value;
    match FirstMatching(clauses, |values|)
    case None =>
    case Some(i) =>
      var b := BindPatterns(Pushed(s), clauses[i].args, values);
      BindPatternsParent(Pushed(s), clauses[i].args, values);
      EvalScope(b, clauses[i].body, fuel);
  }

  /** The pushed scope leaks when a clause body fails: a function whose only
      clause reads an unbound variable leaves the caller one scope deeper. */
  lemma ScopeLeaksOnBodyError(s: Scope, f: Id, x: Id, fuel: nat)
    requires fuel > 1 && f != PrintId
    requires f in Visible(s) && Visible(s)[f] == Function([FunClause([], Variable(x))])
    requires x !in Visible(s)
    ensures Eval(s, Call(f, []), fuel) == Outcome(Err(EnvironmentError(UndefinedSymbol(x))), Pushed(s))
    ensures Depth(Eval(s, Call(f, []), fuel).scope) == Depth(s) + 1
  {
    var clauses := [FunClause([], Variable(x))];
    assert s.Lookup(f) == Ok(Function(clauses));
    assert EvalArgs(s, [], fuel - 1) == Outcome(Ok([]), s);
    assert FirstMatching(clauses, 0) == Some(0);
    assert BindPatterns(Pushed(s), [], []) == Pushed(s);
    LookupPushed(s, x);
    assert Eval(Pushed(s), Variable(x), fuel - 1) == Outcome(Err(EnvironmentError(UndefinedSymbol(x))), Pushed(s));
    assert BindMatchingClause(Pushed(s), clauses, [], fuel - 1) == Eval(Pushed(s), Variable(x), fuel - 1);
    assert Eval(s, Call(f, []), fuel) == EvalFunction(s, clauses, [], fuel - 1);
  }

  /** Whenever a call fails after its arguments succeeded, the scope it
      pushed is never popped and stays on the scope chain: with no clause of
      matching arity the fresh empty scope is itself current, otherwise the
      clause's scope holding its patterns is, or lies under whatever scopes
      the failing body left on top of it.  Either way the caller
      ends at least one scope deeper than it started. */
  lemma CallErrorLeavesScope(s: Scope, clauses: seq<FunClause>, args: seq<Expression>, fuel: nat)
    requires EvalArgs(s, args, fuel).result.Ok?
    requires EvalFunction(s, clauses, args, fuel).result.Err?
    ensures var values := EvalArgs(s, args, fuel).result.value;
            var o := EvalFunction(s, clauses, args, fuel);
            && Depth(o.scope) > Depth(s)
            && match FirstMatching(clauses, |args|)
               case None => o.scope == Pushed(s)
               case Some(i) => Extends(o.scope, BindPatterns(Pushed(s), clauses[i].args, values))
  {
    var values := EvalArgs(s, args, fuel).result.value;
    EvalFunctionDispatch(s, clauses, args, fuel);
    match FirstMatching(clauses, |values|)
    case None =>
    case Some(i) =>
      var b := BindPatterns(Pushed(s), clauses[i].args, values);
      BindPatternsParent(Pushed(s), clauses[i].args, values);
      EvalScope(b, clauses[i].body, fuel);
      ExtendsDepth(Eval(b, clauses[i].body, fuel).scope, b);
  }

  /** Scoping is dynamic: the body of the clause a call runs is evaluated in
      a scope that sees every binding of the caller's current scope that the
      clause's own patterns do not shadow, whatever the function's place of
      declaration. */
  lemma CalleeScopeSeesCaller(s: Scope, clauses: seq<FunClause>, args: seq<Expression>, fuel: nat, i: nat, x: Id)
    requires EvalArgs(s, args, fuel).result.Ok?
    requires FirstMatching(clauses, |args|) == Some(i)
    requires forall j :: 0 <= j < |clauses[i].args| ==> clauses[i].args[j].id != x
    ensures var b := BindPatterns(Pushed(s), clauses[i].args, EvalArgs(s, args, fuel).result.value);
            && EvalFunction(s, clauses, args, fuel).result == Eval(b, clauses[i].body, fuel).result
            && b.Lookup(x) == s.Lookup(x)
  {
    var values := EvalArgs(s, args, fuel).result.value;
    EvalFunctionDispatch(s, clauses, args, fuel);
    BindPatternsUntouched(Pushed(s), clauses[i].args, values, x);
    BindPatternsParent(Pushed(s), clauses[i].args, values);
  }

  /** One instance: a callee whose only clause reads `x`, called right after
      the caller bound `x`, returns the caller's value. */
  lemma CalleeSeesCallerBindings(s: Scope, g: Id, x: Id, v: Expression, fuel: nat)
    requires fuel > 1 && g != PrintId && g != x
    requires g in Visible(s) && Visible(s)[g] == Function([FunClause([], Variable(x))])
    ensures Eval(Bound(s, x, v), Call(g, []), fuel).result == Ok(v)
  {
    var s' := Bound(s, x, v);
    LookupBound(s, x, v, g);
    LookupBound(s, x, v, x);
    var clauses := [FunClause([], Variable(x))];
    assert s'.Lookup(g) == Ok(Function(clauses));
    assert EvalArgs(s', [], fuel - 1) == Outcome(Ok([]), s');
    assert FirstMatching(clauses, 0) == Some(0);
    assert BindPatterns(Pushed(s'), [], []) == Pushed(s');
    LookupPushed(s', x);
    assert Eval(Pushed(s'), Variable(x), fuel - 1) == Outcome(Ok(v), Pushed(s'));
    assert BindMatchingClause(Pushed(s'), clauses, [], fuel - 1) == Eval(Pushed(s'), Variable(x), fuel - 1);
    assert Popped(Pushed(s')) == Ok(s');
    assert Eval(s', Call(g, []), fuel) == EvalFunction(s', clauses, [], fuel - 1);
  }

  /** The root bindings of a program: a name is bound exactly when some
      declaration declares it. */
  lemma {:induction false} DeclBindingsNames(items: seq<ModuleItem>, id: Id)
    ensures id in DeclBindings(items) <==> exists i :: 0 <= i < |items| && items[i].decl.name == id
    decreases |items|
  {
    if items != [] {
      var init := items[..|items| - 1];
      DeclBindingsNames(init, id);
      if id != items[|items| - 1].decl.name {
        if exists i :: 0 <= i < |items| && items[i].decl.name == id {
          var i :| 0 <= i < |items| && items[i].decl.name == id;
          assert init[i] == items[i];
        }
        if exists i :: 0 <= i < |init| && init[i].decl.name == id {
          var i :| 0 <= i < |init| && init[i].decl.name == id;
          assert items[i] == init[i];
        }
      }
    }
  }

  /** A declared name is bound to the value of its last declaration: a later
      declaration overwrites an earlier one. */
  lemma {:induction false} DeclBindingsLast(items: seq<ModuleItem>, i: nat)
    requires i < |items|
    requires forall j :: i < j < |items| ==> items[j].decl.name != items[i].decl.name
    ensures items[i].decl.name in DeclBindings(items)
    ensures DeclBindings(items)[items[i].decl.name] == items[i].decl.value
    decreases |items|
  {
    var init := items[..|items| - 1];
    if i < |init| {
      assert init[i] == items[i];
      forall j | i < j < |init| ensures init[j].decl.name != init[i].decl.name {
        assert init[j] == items[j];
      }
      DeclBindingsLast(init, i);
    }
  }

  // ---------------------------------------------------------------------
  // The interpreter's unit test

  /** `foo = (A, B) { print(A) }` and `main = (Arg) { foo(Arg, Arg) }`:
      calling `main` on a literal goes through both functions and returns
      what `print` returns, back in the root scope. */
  lemma EvalTestProgram(foo: Id, main: Id, a: Id, b: Id, arg: Id, v: string, fuel: nat)
    requires fuel >= 4
    requires foo != main && foo != PrintId && main != PrintId && arg != foo
    ensures var fooFn := Function([FunClause([Bind(a), Bind(b)], Call(PrintId, [Variable(a)]))]);
            var mainFn := Function([FunClause([Bind(arg)], Call(foo, [Variable(arg), Variable(arg)]))]);
            var items := [ValueDeclarationItem(ValueDeclaration(foo, fooFn)), ValueDeclarationItem(ValueDeclaration(main, mainFn))];
            var root := Scope(None, DeclBindings(items));
            Eval(root, Call(main, [LiteralString(v)]), fuel) == Outcome(Ok(PrintResult), root)
  {
    var fooFn := Function([FunClause([Bind(a), Bind(b)], Call(PrintId, [Variable(a)]))]);
    var mainFn := Function([FunClause([Bind(arg)], Call(foo, [Variable(arg), Variable(arg)]))]);
    var items := [ValueDeclarationItem(ValueDeclaration(foo, fooFn)), ValueDeclarationItem(ValueDeclaration(main, mainFn))];
    var root := Scope(None, DeclBindings(items));
    var lit := LiteralString(v);
    var fooClauses := [FunClause([Bind(a), Bind(b)], Call(PrintId, [Variable(a)]))];
    var mainClauses := [FunClause([Bind(arg)], Call(foo, [Variable(arg), Variable(arg)]))];
    var f1: nat := fuel - 1;
    var f2: nat := fuel - 2;
    assert root.Lookup(main) == Ok(mainFn) by {
      TestProgramBindings(items, foo, main, fooFn, mainFn);
    }
    // main's clause, in a scope binding `arg`
    var inMain := Bound(Pushed(root), arg, lit);
    assert inMain.Lookup(foo) == Ok(fooFn) by {
      TestProgramBindings(items, foo, main, fooFn, mainFn);
      LookupBound(Pushed(root), arg, lit, foo);
      LookupPushed(root, foo);
    }
    assert BindPatterns(Pushed(root), [Bind(arg)], [lit]) == inMain;
    // foo's call, back in main's scope
    assert Eval(inMain, Call(foo, [Variable(arg), Variable(arg)]), f1) == Outcome(Ok(PrintResult), inMain) by {
      LookupBound(Pushed(root), arg, lit, arg);
      CallPrintFirst(inMain, a, b, arg, lit, f2);
      CallStep(inMain, foo, [Variable(arg), Variable(arg)], fooClauses, f1, f2);
    }
    assert BindMatchingClause(Pushed(root), mainClauses, [lit], f1) == Outcome(Ok(PrintResult), inMain);
    assert EvalFunction(root, mainClauses, [lit], f1) == Outcome(Ok(PrintResult), root) by {
      EvalArgsOfValues(root, [lit], f1);
    }
    CallStep(root, main, [lit], mainClauses, fuel, f1);
  }

  /** The root bindings of the two-declaration test program. */
  lemma TestProgramBindings(items: seq<ModuleItem>, foo: Id, main: Id, fooFn: Expression, mainFn: Expression)
    requires foo != main
    requires items == [ValueDeclarationItem(ValueDeclaration(foo, fooFn)), ValueDeclarationItem(ValueDeclaration(main, mainFn))]
    ensures Scope(None, DeclBindings(items)).Lookup(main) == Ok(mainFn)
    ensures Scope(None, DeclBindings(items)).Lookup(foo) == Ok(fooFn)
  {
    assert items[..1][..0] == [] && items[..|items| - 1] == items[..1];
    assert DeclBindings(items[..1]) == map[][foo := fooFn];
    assert DeclBindings(items) == map[foo := fooFn][main := mainFn];
  }

  /** Calling `(A, B) { print(A) }` on `(x, x)` where `x` is bound returns
      what `print` returns, in the caller's scope. */
  lemma CallPrintFirst(s: Scope, a: Id, b: Id, x: Id, v: Expression, fuel: nat)
    requires fuel > 1 && s.Lookup(x) == Ok(v)
    ensures EvalFunction(s, [FunClause([Bind(a), Bind(b)], Call(PrintId, [Variable(a)]))],
                         [Variable(x), Variable(x)], fuel) == Outcome(Ok(PrintResult), s)
  {
    EvalCallArgsVariable(s, x, v, fuel);
    var inFoo := Bound(Bound(Pushed(s), a, v), b, v);
    assert [Bind(a), Bind(b)][1..] == [Bind(b)] && [v, v][1..] == [v];
    assert BindPatterns(Bound(Pushed(s), a, v), [Bind(b)], [v]) == inFoo;
    assert BindPatterns(Pushed(s), [Bind(a), Bind(b)], [v, v]) == inFoo;
    PrintVariable(inFoo, a, v, fuel) by {
      LookupBound(Pushed(s), a, v, a);
      LookupBound(Bound(Pushed(s), a, v), b, v, a);
    }
  }

  /** `(x, x)` where `x` is bound to a value. */
  lemma EvalCallArgsVariable(s: Scope, x: Id, v: Expression, fuel: nat)
    requires fuel > 0 && s.Lookup(x) == Ok(v)
    ensures EvalArgs(s, [Variable(x), Variable(x)], fuel) == Outcome(Ok([v, v]), s)
  {
    var args := [Variable(x), Variable(x)];
    assert Eval(s, Variable(x), fuel) == Outcome(Ok(v), s);
    assert args[..1][..0] == [] && args[..1] == [Variable(x)];
    assert [] + [v] == [v] && [v] + [v] == [v, v];
    assert EvalArgs(s, args[..1], fuel) == Outcome(Ok([v]), s);
  }

  /** `print(x)` where `x` is bound. */
  lemma PrintVariable(s: Scope, x: Id, v: Expression, fuel: nat)
    requires fuel > 1 && s.Lookup(x) == Ok(v)
    ensures Eval(s, Call(PrintId, [Variable(x)]), fuel) == Outcome(Ok(PrintResult), s)
  {
    assert Eval(s, Variable(x), fuel - 1) == Outcome(Ok(v), s);
    assert [Variable(x)][..0] == [] && [] + [v] == [v];
    assert EvalArgs(s, [Variable(x)], fuel - 1) == Outcome(Ok([v]), s);
  }
}
