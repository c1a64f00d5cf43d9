/**
 * Execution contexts (hercodeinterpreter/context.go): a chain of scopes, each
 * with its own variable and function tables and a link to its parent.  A
 * lookup that misses in a scope continues in the parent; writes go to the
 * scope they are made in.
 *
 * Besides the Context class the module defines its value-level view: an
 * environment is the sequence of the chain's frames, outermost first, which
 * is what the evaluator's specification works on.
 */
module Contexts {
  import opened Wrappers
  import opened Values
  import opened Functions

  /** One scope's tables as values; function objects appear as snapshots. */
  datatype Frame = Frame(vars: map<string, Value>, funcs: map<string, FunDef>)

  /** The scopes of a chain, the global scope first and the innermost last. */
  type Env = seq<Frame>

  const EmptyFrame: Frame := Frame(map[], map[])

  /** The nearest binding of a variable, searching from the innermost scope outwards. */
  function LookupVar(env: Env, name: string): (r: Option<Value>)
    ensures r.Some? ==> exists i :: 0 <= i < |env| && name in env[i].vars && r.value == env[i].vars[name]
    ensures (forall i :: 0 <= i < |env| ==> name !in env[i].vars) ==> r.None?
  {
    if env == [] then None
    else if name in env[|env| - 1].vars then Some(env[|env| - 1].vars[name])
    else LookupVar(env[..|env| - 1], name)
  }

  /** A variable lookup misses exactly when no scope binds the name, and otherwise finds the innermost binding. */
  lemma {:induction false} LookupVarMeaning(env: Env, name: string)
    ensures LookupVar(env, name).None? <==> forall i :: 0 <= i < |env| ==> name !in env[i].vars
    ensures LookupVar(env, name).Some? ==>
      exists i :: 0 <= i < |env| && name in env[i].vars && LookupVar(env, name).value == env[i].vars[name]
                  && forall j :: i < j < |env| ==> name !in env[j].vars
  {
    if env != [] && name !in env[|env| - 1].vars {
      var front := env[..|env| - 1];
      LookupVarMeaning(front, name);
      if LookupVar(front, name).Some? {
        var i :| 0 <= i < |front| && name in front[i].vars && LookupVar(front, name).value == front[i].vars[name]
                 && forall j :: i < j < |front| ==> name !in front[j].vars;
        assert env[i] == front[i];
        forall j | i < j < |env|
          ensures name !in env[j].vars
        {
          if j < |front| {
            assert env[j] == front[j];
          }
        }
      } else {
        forall i | 0 <= i < |env|
          ensures name !in env[i].vars
        {
          if i < |front| {
            assert env[i] == front[i];
          }
        }
      }
    } else if env != [] {
      assert 0 <= |env| - 1 < |env|;
    }
  }

  /** The nearest definition of a function, searching from the innermost scope outwards. */
  function LookupFunc(env: Env, name: string): (r: Option<FunDef>)
    ensures r.Some? ==> exists i :: 0 <= i < |env| && name in env[i].funcs && r.value == env[i].funcs[name]
    ensures (forall i :: 0 <= i < |env| ==> name !in env[i].funcs) ==> r.None?
  {
    if env == [] then None
    else if name in env[|env| - 1].funcs then Some(env[|env| - 1].funcs[name])
    else LookupFunc(env[..|env| - 1], name)
  }

  /** A function lookup misses exactly when no scope defines the name, and otherwise finds the innermost definition. */
  lemma {:induction false} LookupFuncMeaning(env: Env, name: string)
    ensures LookupFunc(env, name).None? <==> forall i :: 0 <= i < |env| ==> name !in env[i].funcs
    ensures LookupFunc(env, name).Some? ==>
      exists i :: 0 <= i < |env| && name in env[i].funcs && LookupFunc(env, name).value == env[i].funcs[name]
                  && forall j :: i < j < |env| ==> name !in env[j].funcs
  {
    if env != [] && name !in env[|env| - 1].funcs {
      var front := env[..|env| - 1];
      LookupFuncMeaning(front, name);
      if LookupFunc(front, name).Some? {
        var i :| 0 <= i < |front| && name in front[i].funcs && LookupFunc(front, name).value == front[i].funcs[name]
                 && forall j :: i < j < |front| ==> name !in front[j].funcs;
        assert env[i] == front[i];
        forall j | i < j < |env|
          ensures name !in env[j].funcs
        {
          if j < |front| {
            assert env[j] == front[j];
          }
        }
      } else {
        forall i | 0 <= i < |env|
          ensures name !in env[i].funcs
        {
          if i < |front| {
            assert env[i] == front[i];
          }
        }
      }
    } else if env != [] {
      assert 0 <= |env| - 1 < |env|;
    }
  }

  /** SetVar on the innermost scope: only that scope's variable table changes. */
  function SetLocal(env: Env, name: string, v: Value): (r: Env)
    requires |env| > 0
    ensures |r| == |env| && r[..|env| - 1] == env[..|env| - 1]
    ensures r[|env| - 1] == Frame(env[|env| - 1].vars[name := v], env[|env| - 1].funcs)
  {
    var top := env[|env| - 1];
    env[..|env| - 1] + [Frame(top.vars[name := v], top.funcs)]
  }

  /** A variable just set is found with the value it was set to. */
  lemma LookupAfterSet(env: Env, name: string, v: Value)
    requires |env| > 0
    ensures LookupVar(SetLocal(env, name, v), name) == Some(v)
  {
  }

  /** Setting one variable does not change what any other name looks up to. */
  lemma {:induction false} LookupAfterSetOther(env: Env, name: string, v: Value, other: string)
    requires |env| > 0 && other != name
    ensures LookupVar(SetLocal(env, name, v), other) == LookupVar(env, other)
  {
    var r := SetLocal(env, name, v);
    assert r[..|r| - 1] == env[..|env| - 1];
  }

  /**
   * Writing a variable in an inner scope never changes what the enclosing
   * scopes see, even when the name shadows one of their bindings.
   */
  lemma {:induction false} SetLocalShadows(outer: Env, inner: Frame, name: string, v: Value, n: string)
    ensures LookupVar(SetLocal(outer + [inner], name, v)[..|outer|], n) == LookupVar(outer, n)
  {
    assert SetLocal(outer + [inner], name, v)[..|outer|] == (outer + [inner])[..|outer|] == outer;
  }

  class Context {
    var variables: map<string, Value>
    var functions: map<string, HerCodeFunction>
    const parent: Context?
    /** Distance from the root of the chain. */
    ghost const depth: nat
    /** The scopes reachable through `parent`. */
    ghost const ancestors: set<Context>

    ghost predicate Valid()
      decreases depth
    {
      (parent == null ==> depth == 0 && ancestors == {}) &&
      (parent != null ==> depth == parent.depth + 1 && ancestors == parent.ancestors + {parent} && parent.Valid()) &&
      (forall a :: a in ancestors ==> a.depth < depth)
    }

    /** NewContext: an empty scope whose lookups fall back to `parent`. */
    constructor (parent: Context?)
      requires parent != null ==> parent.Valid()
      ensures Valid() && this.parent == parent
      ensures variables == map[] && functions == map[]
      ensures Frames() == (if parent == null then [] else parent.Frames()) + [EmptyFrame]
      ensures parent != null ==> parent.Frames() == old(parent.Frames())
    {
      this.parent := parent;
      variables := map[];
      functions := map[];
      if parent == null {
        depth := 0;
        ancestors := {};
      } else {
        depth := parent.depth + 1;
        ancestors := parent.ancestors + {parent};
      }
      new;
      assert Snapshot(functions) == map[];
    }

    /** The chain as an environment: each scope's tables, outermost first. */
    ghost function Frames(): (r: Env)
      requires Valid()
      reads this, ancestors, functions.Values, set a, f | a in ancestors && f in a.functions.Values :: f
      ensures |r| == depth + 1
      decreases depth
    {
      (if parent == null then [] else parent.Frames()) + [Frame(variables, Snapshot(functions))]
    }

    /** GetVar: the binding in this scope, else the parent's answer; None at the root. */
    function GetVar(name: string): Option<Value>
      requires Valid()
      reads this, ancestors
      decreases depth
    {
      if name in variables then Some(variables[name])
      else if parent != null then parent.GetVar(name)
      else None
    }

    /** GetFunc: the function in this scope, else the parent's answer; None at the root. */
    function GetFunc(name: string): Option<HerCodeFunction>
      requires Valid()
      reads this, ancestors
      decreases depth
    {
      if name in functions then Some(functions[name])
      else if parent != null then parent.GetFunc(name)
      else None
    }

    /** GlobalFunc walks to the root of the chain and reports that nothing was found there. */
    function GlobalFunc(name: string): (r: Option<HerCodeFunction>)
      requires Valid()
      reads this, ancestors
      ensures r == None
      decreases depth
    {
      if parent != null then parent.GlobalFunc(name) else None
    }

    method SetVar(name: string, value: Value)
      requires Valid()
      modifies this
      ensures variables == old(variables)[name := value] && functions == old(functions)
      ensures Frames() == SetLocal(old(Frames()), name, value)
    {
      ghost var outer := if parent == null then [] else parent.Frames();
      ghost var sn := Snapshot(functions);
      assert Frames() == outer + [Frame(variables, sn)];
      variables := variables[name := value];
      assert this !in ancestors;
      assert parent != null ==> parent.Frames() == outer;
      assert Snapshot(functions) == sn;
      assert Frames() == outer + [Frame(variables, sn)];
    }

    method SetFunc(name: string, fn: HerCodeFunction)
      requires Valid()
      modifies this
      ensures functions == old(functions)[name := fn] && variables == old(variables)
    {
      functions := functions[name := fn];
    }
  }

  /** The snapshots of a function table's objects. */
  ghost function Snapshot(fs: map<string, HerCodeFunction>): (r: map<string, FunDef>)
    reads fs.Values
    ensures r.Keys == fs.Keys
  {
    map k | k in fs :: fs[k].Def()
  }

  /** A scope's environment is its parent's with one frame, the scope's own, on top. */
  lemma ChildFrames(c: Context)
    requires c.Valid() && c.parent != null
    ensures c.Frames() == c.parent.Frames() + [c.Frames()[c.depth]]
  {
  }

  /** A variable lookup through the chain agrees with the lookup in its environment. */
  lemma {:induction false} GetVarIsLookup(c: Context, name: string)
    requires c.Valid()
    ensures c.GetVar(name) == LookupVar(c.Frames(), name)
    decreases c.depth
  {
    var fs := c.Frames();
    assert fs[..|fs| - 1] == (if c.parent == null then [] else c.parent.Frames());
    if c.parent != null {
      GetVarIsLookup(c.parent, name);
    }
  }

  /** A function lookup through the chain finds the object whose snapshot the environment holds. */
  lemma {:induction false} GetFuncIsLookup(c: Context, name: string)
    requires c.Valid()
    ensures c.GetFunc(name).None? <==> LookupFunc(c.Frames(), name).None?
    ensures c.GetFunc(name).Some? ==> LookupFunc(c.Frames(), name) == Some(c.GetFunc(name).value.Def())
    decreases c.depth
  {
    var fs := c.Frames();
    var outer := if c.parent == null then [] else c.parent.Frames();
    assert fs[..|fs| - 1] == outer;
    assert fs[|fs| - 1].funcs == Snapshot(c.functions);
    if name in c.functions {
      assert LookupFunc(fs, name) == Some(c.functions[name].Def());
    } else {
      assert LookupFunc(fs, name) == LookupFunc(outer, name);
      if c.parent != null {
        GetFuncIsLookup(c.parent, name);
      }
    }
  }
}
