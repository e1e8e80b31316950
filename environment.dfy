/** Lexical scopes: a local name-to-value store with a link to the enclosing scope (object/environment.js). */
module Env {
  import opened Wrappers
  import opened Object

  class Environment {
    var store: map<string, Value>
    var outer: Environment?
    /** This environment and every one reachable through `outer`. */
    ghost var Repr: set<Environment>

    /** The `outer` links form a finite chain with no cycle. */
    ghost predicate Valid()
      reads this, Repr
      decreases Repr
    {
      this in Repr &&
      (outer == null ==> Repr == {this}) &&
      (outer != null ==>
        outer in Repr && this !in outer.Repr && Repr == {this} + outer.Repr && outer.Valid())
    }

    /** Every binding visible from here: the chain flattened, inner scopes overriding outer ones. */
    ghost function Bindings(): map<string, Value>
      reads this, Repr
      requires Valid()
      decreases Repr
    {
      if outer == null then store else outer.Bindings() + store
    }

    /** A root environment over the given store. */
    constructor (store: map<string, Value>)
      ensures Valid() && fresh(Repr)
      ensures this.store == store && outer == null
      ensures Bindings() == store
    {
      this.store := store;
      outer := null;
      Repr := {this};
    }

    /**
     * `get`: the local binding if there is one, else what the enclosing scope
     * gives, else None (the source's `undefined`).
     */
    function Get(name: string): (r: Option<Value>)
      reads this, Repr
      requires Valid()
      decreases Repr
      ensures r == if name in Bindings() then Some(Bindings()[name]) else None
    {
      if name in store then Some(store[name])
      else if outer != null then outer.Get(name)
      else None
    }

    /** `set`: binds in the local store only and returns the value. */
    method Set(name: string, value: Value) returns (r: Value)
      requires Valid()
      modifies this
      ensures Valid() && Repr == old(Repr) && outer == old(outer)
      ensures store == old(store)[name := value]
      ensures r == value
      ensures Get(name) == Some(value)
      ensures forall n :: n != name ==> Get(n) == old(Get(n))
      ensures outer != null ==> forall n :: outer.Get(n) == old(outer.Get(n))
    {
      store := store[name := value];
      r := value;
    }
  }

  /** A local binding shadows any binding of the same name further out. */
  lemma LocalShadows(env: Environment, name: string)
    requires env.Valid() && name in env.store
    ensures env.Get(name) == Some(env.store[name])
  {
  }

  /** On a local miss, lookup is the enclosing scope's lookup; with no enclosing scope it finds nothing. */
  lemma MissDelegates(env: Environment, name: string)
    requires env.Valid() && name !in env.store
    ensures env.outer != null ==> env.Get(name) == env.outer.Get(name)
    ensures env.outer == null ==> env.Get(name) == None
  {
  }

  /** `newEnclosedEnvironment`: an empty scope whose enclosing scope is `outer`. */
  method NewEnclosedEnvironment(outer: Environment?) returns (env: Environment)
    requires outer != null ==> outer.Valid()
    ensures fresh(env) && env.Valid()
    ensures env.store == map[] && env.outer == outer
    ensures forall n :: env.Get(n) == if outer == null then None else outer.Get(n)
  {
    env := new Environment(map[]);
    env.outer := outer;
    if outer != null {
      env.Repr := {env} + outer.Repr;
      assert env.Bindings() == outer.Bindings();
    }
  }

  /** A scope sees a binding made in its enclosing scope after it was created. */
  method EnclosedSeesLaterBinding()
  {
    var global := new Environment(map[]);
    var local := NewEnclosedEnvironment(global);
    var v := global.Set("x", Integer(5));
    assert local.Valid();
    assert local.Get("x") == Some(Integer(5));
    v := local.Set("x", Integer(6));
    assert local.Get("x") == Some(Integer(6));
    assert global.Get("x") == Some(Integer(5));
  }
}
