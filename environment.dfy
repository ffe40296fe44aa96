/** The scope chain of src/environment.rs.  A `Scope` is a value: its own
    bindings and, optionally, the scope it was pushed on.  An `Environment`
    holds the current scope and replaces it as scopes are pushed, popped and
    bound into. */
module Environments {
  import opened Results
  import opened ParseTree

  datatype EnvironmentError =
    | UndefinedSymbol(id: Id)
    | ScopeUnderflow

  datatype Scope = Scope(parent: Option<Scope>, bindings: map<Id, Expression>)
  {
    /** The binding of `id` in this scope, else in the nearest enclosing
        scope that binds it, else `UndefinedSymbol` for that very `id`. */
    function Lookup(id: Id): (r: Result<Expression, EnvironmentError>)
      ensures id in Visible(this) ==> r == Ok(Visible(this)[id])
      ensures id !in Visible(this) ==> r == Err(UndefinedSymbol(id))
      decreases this
    {
      if id in bindings then Ok(bindings[id])
      else if parent.Some? then parent.value.Lookup(id)
      else Err(UndefinedSymbol(id))
    }
  }

  /** Everything a scope can see: its parent's view, overridden by its own
      bindings. */
  function Visible(s: Scope): (m: map<Id, Expression>)
    ensures forall id :: id in s.bindings ==> id in m && m[id] == s.bindings[id]
    ensures s.parent.Some? ==> Visible(s.parent.value).Keys <= m.Keys
    decreases s
  {
    if s.parent.Some? then Visible(s.parent.value) + s.bindings else s.bindings
  }

  /** The number of scopes in the chain, the root counting as one. */
  function Depth(s: Scope): (n: nat)
    ensures n >= 1
    ensures s.parent.Some? ==> n == Depth(s.parent.value) + 1
    ensures s.parent.None? ==> n == 1
    decreases s
  {
    if s.parent.Some? then 1 + Depth(s.parent.value) else 1
  }

  /** The scope `Environment::new` starts with. */
  const Root: Scope := Scope(None, map[])

  /** The scope `push_scope` makes current: empty, over the old one. */
  function Pushed(s: Scope): (t: Scope)
    ensures t.parent == Some(s) && t.bindings == map[]
    ensures Depth(t) == Depth(s) + 1
  {
    Scope(Some(s), map[])
  }

  /** The scope `pop_scope` makes current, or `ScopeUnderflow` at the root. */
  function Popped(s: Scope): (r: Result<Scope, EnvironmentError>)
    ensures r.Err? <==> s.parent.None?
    ensures r.Err? ==> r.error == ScopeUnderflow
    ensures r.Ok? ==> Depth(r.value) + 1 == Depth(s)
  {
    if s.parent.Some? then Ok(s.parent.value) else Err(ScopeUnderflow)
  }

  /** The scope after `bind`: only the innermost map changes. */
  function Bound(s: Scope, id: Id, e: Expression): (t: Scope)
    ensures t.parent == s.parent
    ensures t.bindings.Keys == s.bindings.Keys + {id}
    ensures t.bindings[id] == e
    ensures forall k :: k in s.bindings && k != id ==> t.bindings[k] == s.bindings[k]
    ensures Depth(t) == Depth(s)
  {
    Scope(s.parent, s.bindings[id := e])
  }

  // ---------------------------------------------------------------------
  // Properties of the scope operations

  /** A pushed scope sees exactly what its parent sees. */
  lemma LookupPushed(s: Scope, id: Id)
    ensures Pushed(s).Lookup(id) == s.Lookup(id)
  {
    assert Visible(Pushed(s)) == Visible(s);
  }

  /** Popping right after a push gives back exactly the scope pushed on. */
  lemma PopPushed(s: Scope)
    ensures Popped(Pushed(s)) == Ok(s)
  {
  }

  /** The root of a fresh environment sees nothing and cannot be popped. */
  lemma RootIsEmpty(id: Id)
    ensures Root.Lookup(id) == Err(UndefinedSymbol(id))
    ensures Popped(Root) == Err(ScopeUnderflow)
  {
    assert Visible(Root) == map[];
  }

  /** A binding is seen by the scope it was made in; every other name is
      looked up as before. */
  lemma LookupBound(s: Scope, id: Id, e: Expression, other: Id)
    ensures Bound(s, id, e).Lookup(id) == Ok(e)
    ensures other != id ==> Bound(s, id, e).Lookup(other) == s.Lookup(other)
  {
    var t := Bound(s, id, e);
    if s.parent.Some? {
      assert Visible(t) == Visible(s.parent.value) + t.bindings;
    } else {
      assert Visible(t) == t.bindings;
    }
    if other != id {
      assert other in Visible(t) <==> other in Visible(s);
    }
  }

  /** Binding a name in a child scope shadows the parent's binding of it,
      while the parent, as the child's parent, keeps its own. */
  lemma Shadowing(s: Scope, id: Id, outer: Expression, inner: Expression)
    ensures var child := Bound(Pushed(Bound(s, id, outer)), id, inner);
            && child.Lookup(id) == Ok(inner)
            && child.parent == Some(Bound(s, id, outer))
            && child.parent.value.Lookup(id) == Ok(outer)
  {
    LookupBound(Pushed(Bound(s, id, outer)), id, inner, id);
    LookupBound(s, id, outer, id);
  }

  /** A binding made after a push is gone after the matching pop: the scope
      is the one pushed on, which in a fresh environment binds nothing. */
  lemma ChildBindingDropped(s: Scope, id: Id, e: Expression)
    ensures Popped(Bound(Pushed(s), id, e)) == Ok(s)
    ensures Popped(Bound(Pushed(Root), id, e)).value.Lookup(id) == Err(UndefinedSymbol(id))
  {
    RootIsEmpty(id);
  }

  // ---------------------------------------------------------------------
  // The environment object

  class Environment {
    var currentScope: Scope

    /** A fresh environment: one root scope without bindings. */
    constructor ()
      ensures currentScope == Root
    {
      currentScope := Root;
    }

    /** Makes a new, empty scope current, the old one as its parent. */
    method PushScope()
      modifies this
      ensures currentScope == Pushed(old(currentScope))
    {
      var oldScope := currentScope;
      currentScope := Scope(Some(oldScope), map[]);
    }

    /** Makes the parent scope current, or reports `ScopeUnderflow` and
        leaves the root in place. */
    method PopScope() returns (r: Result<(), EnvironmentError>)
      modifies this
      ensures r.Ok? <==> old(currentScope).parent.Some?
      ensures r.Ok? ==> Popped(old(currentScope)) == Ok(currentScope)
      ensures r.Err? ==> r.error == ScopeUnderflow && currentScope == old(currentScope)
    {
      match currentScope.parent
      case Some(p) =>
        currentScope := p;
        r := Ok(());
      case None =>
        r := Err(ScopeUnderflow);
    }

    /** Binds `id` in the current scope, replacing any binding it had there. */
    method Bind(id: Id, e: Expression)
      modifies this
      ensures currentScope == Bound(old(currentScope), id, e)
    {
      currentScope := currentScope.(bindings := currentScope.bindings[id := e]);
    }

    /** What `id` stands for from the current scope. */
    function Lookup(id: Id): (r: Result<Expression, EnvironmentError>)
      reads this
      ensures r.Ok? <==> id in Visible(currentScope)
      ensures r.Ok? ==> r.value == Visible(currentScope)[id]
      ensures r.Err? ==> r.error == UndefinedSymbol(id)
    {
      currentScope.Lookup(id)
    }
  }
}
