/**
 * Properties of the evaluation rules in module Semantics: how parameters
 * are bound, what an assignment binds, what a call leaves behind, where
 * output comes from, how blocks compose and when loop and branch bodies
 * do not run.
 */
module Laws {
  import opened Wrappers
  import opened Values
  import opened Ast
  import opened Contexts
  import opened Operators
  import opened Semantics
  import Text

  /** A parameter that is not repeated later in the list is bound to its own argument, or to Void when the call has too few. */
  lemma {:induction false} BindParamsLookup(ps: seq<string>, vs: seq<Value>, i: nat)
    requires i < |ps| && ps[i] !in ps[i + 1..]
    ensures ps[i] in BindParams(ps, vs) && BindParams(ps, vs)[ps[i]] == ArgOrVoid(vs, i)
    decreases |ps|
  {
    if i < |ps| - 1 {
      var front := ps[..|ps| - 1];
      assert front[i] == ps[i];
      assert front[i + 1..] == ps[i + 1..|ps| - 1];
      assert ps[|ps| - 1] in ps[i + 1..];
      BindParamsLookup(front, vs, i);
    }
  }

  /** With as many arguments as parameters, further arguments change nothing. */
  lemma {:induction false} BindParamsIgnoresExtra(ps: seq<string>, vs: seq<Value>, extra: seq<Value>)
    requires |ps| <= |vs|
    ensures BindParams(ps, vs + extra) == BindParams(ps, vs)
    decreases |ps|
  {
    if ps != [] {
      BindParamsIgnoresExtra(ps[..|ps| - 1], vs, extra);
      assert (vs + extra)[|ps| - 1] == vs[|ps| - 1];
    }
  }

  /** `x = e`: when e gives a value that is not an Error, x is bound to it and it is the result; otherwise nothing is bound. */
  lemma AssignmentBinds(n: string, rhs: Expr, st: State, fuel: nat, sqrt: real -> real)
    requires |st.env| > 0
    ensures var (o, st1) := Eval(rhs, st, fuel, sqrt);
            var (r, st2) := EvalAssign(VarRef(n), rhs, st, fuel, sqrt);
            r == o &&
            (!Stops(o) ==> LookupVar(st2.env, n) == Some(o.value)) &&
            (Stops(o) ==> st2 == st1)
  {
    var (o, st1) := Eval(rhs, st, fuel, sqrt);
    if !Stops(o) {
      LookupAfterSet(st1.env, n, o.value);
    }
  }

  /** An assignment or declaration changes no other name's binding. */
  lemma BindLeavesOthers(n: string, e: Expr, st: State, fuel: nat, sqrt: real -> real, other: string)
    requires |st.env| > 0 && other != n
    ensures var (_, st1) := Eval(e, st, fuel, sqrt);
            LookupVar(ExecBind(n, e, st, fuel, sqrt).1.env, other) == LookupVar(st1.env, other)
  {
    var (o, st1) := Eval(e, st, fuel, sqrt);
    if !Stops(o) {
      LookupAfterSetOther(st1.env, n, o.value, other);
    }
  }

  /** A declaration binds its name to the value it computed. */
  lemma DeclarationBinds(n: string, e: Expr, st: State, fuel: nat, sqrt: real -> real)
    requires |st.env| > 0
    ensures var (o, _) := Eval(e, st, fuel, sqrt);
            !Stops(o) ==> ExecBind(n, e, st, fuel, sqrt).0 == Done(Void) &&
                          LookupVar(ExecBind(n, e, st, fuel, sqrt).1.env, n) == Some(o.value)
  {
    var (o, st1) := Eval(e, st, fuel, sqrt);
    if !Stops(o) {
      LookupAfterSet(st1.env, n, o.value);
    }
  }

  /** A call to a user function leaves every variable of the caller as the argument evaluation left it. */
  lemma CallKeepsCallerScopes(n: string, args: seq<Expr>, st: State, fuel: nat, sqrt: real -> real)
    requires |st.env| > 0 && LookupFunc(st.env, n).Some? && !IsBuiltin(n)
    ensures var (a, st1) := EvalArgs(args, st, fuel, sqrt);
            EvalCall(n, args, st, fuel, sqrt).1.env == st1.env
  {
  }

  /** Calling a name that no scope defines gives an UndefinedFunction Error value and evaluates no argument. */
  lemma UndefinedCallEvaluatesNothing(n: string, args: seq<Expr>, st: State, fuel: nat, sqrt: real -> real)
    requires |st.env| > 0 && LookupFunc(st.env, n).None?
    ensures EvalCall(n, args, st, fuel, sqrt) == (Done(Error(UndefinedFunction(n))), st)
  {
  }

  /** A say statement whose expression gives a value prints exactly one line, that value's. */
  lemma SayPrintsOneLine(e: Expr, st: State, fuel: nat, sqrt: real -> real)
    requires |st.env| > 0
    ensures var (o, st1) := Eval(e, st, fuel, sqrt);
            var (r, st2) := ExecSay(e, st, fuel, sqrt);
            (o.Done? ==> r == Done(Void) && st2.out == st1.out + [SayLine(o.value)] && |st2.out| == |st1.out| + 1) &&
            (!o.Done? ==> r == o && st2 == st1)
  {
  }

  /** Running `a + b` is running a, then b when a finished with Void. */
  lemma {:induction false} RunBlockAppend(a: seq<Stmt>, b: seq<Stmt>, st: State, fuel: nat, sqrt: real -> real)
    requires |st.env| > 0
    ensures var (o, st1) := RunBlock(a, st, fuel, sqrt);
            RunBlock(a + b, st, fuel, sqrt) == if o == Done(Void) then RunBlock(b, st1, fuel, sqrt) else (o, st1)
    decreases |a|
  {
    if a == [] {
      assert a + b == b;
    } else {
      assert (a + b)[0] == a[0] && (a + b)[1..] == a[1..] + b;
      var (o, st1) := Exec(a[0], st, fuel, sqrt);
      if o.Done? && o.value.Void? {
        RunBlockAppend(a[1..], b, st1, fuel, sqrt);
      }
    }
  }

  /** A statement list whose statements all print and return nothing prints their lines in order. */
  lemma {:induction false} SayBlockOutput(es: seq<Expr>, st: State, fuel: nat, sqrt: real -> real)
    requires |st.env| > 0
    requires forall i :: 0 <= i < |es| ==> es[i].Literal?
    ensures RunBlock(SayAll(es), st, fuel, sqrt) == (Done(Void), State(st.env, st.out + LiteralLines(es)))
    decreases |es|
  {
    if es == [] {
      assert st.out + LiteralLines(es) == st.out;
    } else {
      var ss := SayAll(es);
      assert ss[0] == Say(es[0]) && ss[1..] == SayAll(es[1..]);
      var st1 := State(st.env, st.out + [SayLine(es[0].value)]);
      SayLiteral(es[0], st, fuel, sqrt);
      RunBlockVoidStep(ss, st, fuel, sqrt);
      SayBlockOutput(es[1..], st1, fuel, sqrt);
      Text.AppendRegroup(st.out, SayLine(es[0].value), LiteralLines(es[1..]));
    }
  }

  /** Saying a literal prints its line and changes nothing else. */
  lemma SayLiteral(e: Expr, st: State, fuel: nat, sqrt: real -> real)
    requires |st.env| > 0 && e.Literal?
    ensures Exec(Say(e), st, fuel, sqrt) == (Done(Void), State(st.env, st.out + [SayLine(e.value)]))
  {
    assert Eval(e, st, fuel, sqrt) == (Done(e.value), st);
  }

  /** A block whose first statement gives Void goes on with the rest in the state it left. */
  lemma RunBlockVoidStep(ss: seq<Stmt>, st: State, fuel: nat, sqrt: real -> real)
    requires |st.env| > 0 && ss != [] && Exec(ss[0], st, fuel, sqrt).0 == Done(Void)
    ensures RunBlock(ss, st, fuel, sqrt) == RunBlock(ss[1..], Exec(ss[0], st, fuel, sqrt).1, fuel, sqrt)
  {
  }

  function SayAll(es: seq<Expr>): (r: seq<Stmt>)
    ensures |r| == |es|
  {
    if es == [] then [] else [Say(es[0])] + SayAll(es[1..])
  }

  function LiteralLines(es: seq<Expr>): seq<OutLine>
    requires forall i :: 0 <= i < |es| ==> es[i].Literal?
  {
    if es == [] then [] else [SayLine(es[0].value)] + LiteralLines(es[1..])
  }

  /** A while loop whose condition is false at the start runs no iteration: the state is what the condition left. */
  lemma WhileFalseRunsNoBody(c: Expr, body: seq<Stmt>, st: State, fuel: nat, sqrt: real -> real)
    requires |st.env| > 0
    requires Eval(c, st, fuel, sqrt).0 == Done(Bool(false))
    ensures RunWhile(c, body, st, fuel, sqrt) == (Done(Void), Eval(c, st, fuel, sqrt).1)
  {
  }

  /** A while loop whose condition holds runs its body, then is the same loop again with one unit less fuel. */
  lemma WhileTrueUnrolls(c: Expr, body: seq<Stmt>, st: State, fuel: nat, sqrt: real -> real)
    requires |st.env| > 0 && fuel > 0
    requires Eval(c, st, fuel, sqrt).0 == Done(Bool(true))
    ensures var st1 := Eval(c, st, fuel, sqrt).1;
            var (o, st2) := RunBlock(body, st1, fuel, sqrt);
            RunWhile(c, body, st, fuel, sqrt) == if o == Done(Void) then RunWhile(c, body, st2, fuel - 1, sqrt) else (o, st2)
  {
  }

  /** An if statement without else whose condition is false runs no statement. */
  lemma IfFalseWithoutElse(c: Expr, t: seq<Stmt>, e: seq<Stmt>, st: State, fuel: nat, sqrt: real -> real)
    requires |st.env| > 0
    requires Eval(c, st, fuel, sqrt).0 == Done(Bool(false))
    ensures ExecIf(c, t, false, e, st, fuel, sqrt) == (Done(Void), Eval(c, st, fuel, sqrt).1)
  {
  }

  /** A condition that is a value but not a boolean is a ConditionNotBool Error value, for if and for while alike. */
  lemma NonBooleanCondition(c: Expr, body: seq<Stmt>, e: seq<Stmt>, hasElse: bool, st: State, fuel: nat, sqrt: real -> real)
    requires |st.env| > 0
    requires var o := Eval(c, st, fuel, sqrt).0; !Stops(o) && !o.value.Bool?
    ensures ExecIf(c, body, hasElse, e, st, fuel, sqrt).0 == Done(Error(ConditionNotBool))
    ensures RunWhile(c, body, st, fuel, sqrt).0 == Done(Error(ConditionNotBool))
  {
  }

  /** Evaluating a variable reads the nearest binding and changes nothing. */
  lemma VariableReadsNearest(n: string, st: State, fuel: nat, sqrt: real -> real)
    requires |st.env| > 0
    ensures Eval(VarRef(n), st, fuel, sqrt).1 == st
    ensures LookupVar(st.env, n).Some? ==> Eval(VarRef(n), st, fuel, sqrt).0 == Done(LookupVar(st.env, n).value)
    ensures LookupVar(st.env, n).None? ==> Eval(VarRef(n), st, fuel, sqrt).0 == Done(Error(UndefinedVariable(n)))
  {
  }
}
