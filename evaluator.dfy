/**
 * The Eval and Execute methods of the syntax-tree nodes, on a Context
 * object as the Go code runs them: argument values collected in a loop,
 * parameters bound in a fresh child context by SetVar, block bodies run
 * statement by statement with an early return, the while loop re-testing
 * its condition.  Each method is proved to compute what the corresponding
 * function of module Semantics says, on the frames of the context chain.
 */
module Evaluator {
  import opened Wrappers
  import opened Values
  import opened Ast
  import opened Functions
  import opened Contexts
  import opened Operators
  import opened Semantics

  /** An argument is no larger than the argument list it is in. */
  lemma {:induction false} ArgSizeBound(args: seq<Expr>, i: nat)
    requires i < |args|
    ensures ExprSize(args[i]) <= ArgsSize(args)
    decreases i
  {
    if i > 0 {
      ArgSizeBound(args[1..], i - 1);
    }
  }

  /** A statement is no larger than the block it is in. */
  lemma {:induction false} StmtSizeBound(ss: seq<Stmt>, i: nat)
    requires i < |ss|
    ensures StmtSize(ss[i]) <= BlockSize(ss)
    decreases i
  {
    if i > 0 {
      StmtSizeBound(ss[1..], i - 1);
    }
  }

  lemma PrependNothing(a: ArgValues)
    ensures PrependVals([], a) == a
  {
    if a.ArgsOk? {
      assert [] + a.vals == a.vals;
    }
  }

  /** Values collected so far in front of those still to come. */
  lemma PrependAssociative(vs: seq<Value>, v: Value, rest: ArgValues)
    ensures PrependVals(vs, PrependVals([v], rest)) == PrependVals(vs + [v], rest)
  {
    if rest.ArgsOk? {
      assert vs + ([v] + rest.vals) == (vs + [v]) + rest.vals;
    }
  }

  /** Expression.Eval, dispatched on the node kind. */
  method EvalExpr(e: Expr, ctx: Context, out0: seq<OutLine>, fuel: nat, sqrt: real -> real) returns (o: Outcome, out: seq<OutLine>)
    requires ctx.Valid()
    modifies ctx
    ensures ctx.functions == old(ctx.functions)
    ensures (o, State(ctx.Frames(), out)) == Eval(e, State(old(ctx.Frames()), out0), fuel, sqrt)
    decreases fuel, ExprSize(e), 1
  {
    match e
    case Literal(v) =>
      o, out := Done(v), out0;
    case VarRef(n) =>
      GetVarIsLookup(ctx, n);
      var r := ctx.GetVar(n);
      o, out := Done(r.GetOr(Error(UndefinedVariable(n)))), out0;
    case BinOp(l, op, rhs) =>
      if op == "=" {
        o, out := EvalAssignment(l, rhs, ctx, out0, fuel, sqrt);
      } else {
        o, out := EvalBinOp(l, op, rhs, ctx, out0, fuel, sqrt);
      }
    case Call(n, args) =>
      o, out := EvalFuncCall(n, args, ctx, out0, fuel, sqrt);
  }

  /** The assignment branch of BinOpExpr.Eval. */
  method EvalAssignment(l: Expr, rhs: Expr, ctx: Context, out0: seq<OutLine>, fuel: nat, sqrt: real -> real) returns (o: Outcome, out: seq<OutLine>)
    requires ctx.Valid()
    modifies ctx
    ensures ctx.functions == old(ctx.functions)
    ensures (o, State(ctx.Frames(), out)) == EvalAssign(l, rhs, State(old(ctx.Frames()), out0), fuel, sqrt)
    decreases fuel, ExprSize(l) + ExprSize(rhs) + 1, 0
  {
    if !l.VarRef? {
      return Done(Error(AssignTargetNotVariable)), out0;
    }
    o, out := EvalExpr(rhs, ctx, out0, fuel, sqrt);
    if Stops(o) {
      return;
    }
    ctx.SetVar(l.name, o.value);
  }

  /** The operator branches of BinOpExpr.Eval. */
  method EvalBinOp(l: Expr, op: string, rhs: Expr, ctx: Context, out0: seq<OutLine>, fuel: nat, sqrt: real -> real) returns (o: Outcome, out: seq<OutLine>)
    requires ctx.Valid()
    modifies ctx
    ensures ctx.functions == old(ctx.functions)
    ensures (o, State(ctx.Frames(), out)) == EvalBinary(l, op, rhs, State(old(ctx.Frames()), out0), fuel, sqrt)
    decreases fuel, ExprSize(l) + ExprSize(rhs) + 1, 0
  {
    var left, right;
    left, out := EvalExpr(l, ctx, out0, fuel, sqrt);
    if Stops(left) {
      return left, out;
    }
    right, out := EvalExpr(rhs, ctx, out, fuel, sqrt);
    if Stops(right) {
      return right, out;
    }
    o := Done(ApplyOp(op, left.value, right.value));
  }

  /** FuncCallExpr.Eval. */
  method EvalFuncCall(n: string, args: seq<Expr>, ctx: Context, out0: seq<OutLine>, fuel: nat, sqrt: real -> real) returns (o: Outcome, out: seq<OutLine>)
    requires ctx.Valid()
    modifies ctx
    ensures ctx.functions == old(ctx.functions)
    ensures (o, State(ctx.Frames(), out)) == EvalCall(n, args, State(old(ctx.Frames()), out0), fuel, sqrt)
    decreases fuel, ArgsSize(args) + 1, 0
  {
    ghost var st0 := State(ctx.Frames(), out0);
    GetFuncIsLookup(ctx, n);
    var f := ctx.GetFunc(n);
    if f.None? {
      return Done(Error(UndefinedFunction(n))), out0;
    }
    var fn := f.value;
    ghost var d := fn.Def();
    assert LookupFunc(st0.env, n) == Some(d);
    var a;
    a, out := EvalArguments(args, ctx, out0, fuel, sqrt);
    assert fn.Def() == d;
    if a.ArgsStop? {
      return a.outcome, out;
    }
    if IsBuiltin(n) {
      return Done(Builtin(n, a.vals, sqrt)), out;
    }
    o, out := CallUserFunction(fn, a.vals, ctx, out, fuel, sqrt);
  }

  /** The argument loop of FuncCallExpr.Eval. */
  method EvalArguments(args: seq<Expr>, ctx: Context, out0: seq<OutLine>, fuel: nat, sqrt: real -> real) returns (a: ArgValues, out: seq<OutLine>)
    requires ctx.Valid()
    modifies ctx
    ensures ctx.functions == old(ctx.functions)
    ensures (a, State(ctx.Frames(), out)) == EvalArgs(args, State(old(ctx.Frames()), out0), fuel, sqrt)
    decreases fuel, ArgsSize(args), 2
  {
    ghost var st0 := State(ctx.Frames(), out0);
    var vals: seq<Value> := [];
    out := out0;
    assert args[0..] == args;
    PrependNothing(EvalArgs(args, st0, fuel, sqrt).0);
    for i := 0 to |args|
      invariant ctx.functions == old(ctx.functions)
      invariant var p := EvalArgs(args[i..], State(ctx.Frames(), out), fuel, sqrt);
                EvalArgs(args, st0, fuel, sqrt) == (PrependVals(vals, p.0), p.1)
    {
      ArgSizeBound(args, i);
      ghost var cur := State(ctx.Frames(), out);
      assert args[i..][0] == args[i] && args[i..][1..] == args[i + 1..];
      var v;
      v, out := EvalExpr(args[i], ctx, out, fuel, sqrt);
      if Stops(v) {
        return ArgsStop(v), out;
      }
      PrependAssociative(vals, v.value, EvalArgs(args[i + 1..], State(ctx.Frames(), out), fuel, sqrt).0);
      vals := vals + [v.value];
    }
    assert vals + [] == vals;
    return ArgsOk(vals), out;
  }

  /** The parameter loop of FuncCallExpr.Eval: each parameter bound in order, to its argument or to Void. */
  method BindParameters(localCtx: Context, ps: seq<string>, vals: seq<Value>)
    requires localCtx.Valid() && localCtx.variables == map[]
    modifies localCtx
    ensures localCtx.variables == BindParams(ps, vals)
    ensures localCtx.functions == old(localCtx.functions)
  {
    for i := 0 to |ps|
      invariant localCtx.variables == BindParams(ps[..i], vals)
      invariant localCtx.functions == old(localCtx.functions)
    {
      assert ps[..i + 1][..i] == ps[..i];
      assert BindParams(ps[..i + 1], vals) == BindParams(ps[..i], vals)[ps[i] := ArgOrVoid(vals, i)];
      if i < |vals| {
        localCtx.SetVar(ps[i], vals[i]);
      } else {
        localCtx.SetVar(ps[i], Void);
      }
    }
    assert ps[..|ps|] == ps;
  }

  /** The user-function part of FuncCallExpr.Eval: a child context, the parameters bound in order, the body. */
  method CallUserFunction(fn: HerCodeFunction, vals: seq<Value>, ctx: Context, out0: seq<OutLine>, fuel: nat, sqrt: real -> real) returns (o: Outcome, out: seq<OutLine>)
    requires ctx.Valid()
    ensures (o, State(ctx.Frames(), out)) == CallFunction(fn.Def(), vals, State(old(ctx.Frames()), out0), fuel, sqrt)
    decreases fuel, 0, 0
  {
    if fuel == 0 {
      return OutOfFuel, out0;
    }
    ghost var env := ctx.Frames();
    var ps, body := fn.parameters, fn.statements;
    ghost var after;
    o, out, after := RunInScope(ctx, ps, vals, body, out0, fuel - 1, sqrt);
    CallFunctionRuns(FunDef(fn.name, ps, body), vals, env, out0, fuel, sqrt, o, after, out);
  }

  /** The body of a call run in a fresh child scope of `ctx`; the caller's scopes are left as they were. */
  method RunInScope(ctx: Context, ps: seq<string>, vals: seq<Value>, body: seq<Stmt>, out0: seq<OutLine>, fuel: nat, sqrt: real -> real)
    returns (o: Outcome, out: seq<OutLine>, ghost after: Env)
    requires ctx.Valid()
    ensures ctx.Frames() == old(ctx.Frames())
    ensures (o, State(after, out)) == RunBlock(body, State(ctx.Frames() + [Frame(BindParams(ps, vals), map[])], out0), fuel, sqrt)
    decreases fuel, BlockSize(body), 4
  {
    var localCtx := CallScope(ctx, ps, vals);
    o, out := ExecuteBlock(body, localCtx, out0, fuel, sqrt);
    after := localCtx.Frames();
    ChildFrames(localCtx);
  }

  /** The scope of a call: a child of the caller's context holding the parameters bound to the arguments. */
  method CallScope(ctx: Context, ps: seq<string>, vals: seq<Value>) returns (localCtx: Context)
    requires ctx.Valid()
    ensures fresh(localCtx) && localCtx.Valid() && localCtx.parent == ctx
    ensures localCtx.Frames() == ctx.Frames() + [Frame(BindParams(ps, vals), map[])]
    ensures ctx.Frames() == old(ctx.Frames())
  {
    localCtx := new Context(ctx);
    BindParameters(localCtx, ps, vals);
    assert Snapshot(localCtx.functions) == map[];
  }

  /** A call with fuel left is its body run in the new scope; the caller's environment is kept, with the body's output. */
  lemma CallFunctionRuns(d: FunDef, vs: seq<Value>, env: Env, out0: seq<OutLine>, fuel: nat, sqrt: real -> real,
                         o: Outcome, after: Env, out: seq<OutLine>)
    requires |env| > 0 && fuel > 0
    requires (o, State(after, out)) == RunBlock(d.body, State(env + [Frame(BindParams(d.params, vs), map[])], out0), fuel - 1, sqrt)
    ensures (o, State(env, out)) == CallFunction(d, vs, State(env, out0), fuel, sqrt)
  {
  }

  /** Statement.Execute, dispatched on the node kind. */
  method ExecuteStmt(s: Stmt, ctx: Context, out0: seq<OutLine>, fuel: nat, sqrt: real -> real) returns (o: Outcome, out: seq<OutLine>)
    requires ctx.Valid()
    modifies ctx
    ensures ctx.functions == old(ctx.functions)
    ensures (o, State(ctx.Frames(), out)) == Exec(s, State(old(ctx.Frames()), out0), fuel, sqrt)
    decreases fuel, StmtSize(s), 2
  {
    match s
    case If(c, t, hasElse, e) =>
      o, out := ExecuteIf(c, t, hasElse, e, ctx, out0, fuel, sqrt);
    case While(c, b) =>
      o, out := ExecuteWhile(c, b, ctx, out0, fuel, sqrt);
    case VarDecl(n, e) =>
      o, out := ExecuteBind(n, e, ctx, out0, fuel, sqrt);
    case Assign(n, e) =>
      o, out := ExecuteBind(n, e, ctx, out0, fuel, sqrt);
    case Return(e) =>
      o, out := EvalExpr(e, ctx, out0, fuel, sqrt);
    case Say(e) =>
      o, out := ExecuteSay(e, ctx, out0, fuel, sqrt);
    case CallStmt(n, args) =>
      o, out := ExecuteCallStmt(n, args, ctx, out0, fuel, sqrt);
  }

  /** A statement list run in order; the first result that is not Void is returned at once. */
  method ExecuteBlock(ss: seq<Stmt>, ctx: Context, out0: seq<OutLine>, fuel: nat, sqrt: real -> real) returns (o: Outcome, out: seq<OutLine>)
    requires ctx.Valid()
    modifies ctx
    ensures ctx.functions == old(ctx.functions)
    ensures (o, State(ctx.Frames(), out)) == RunBlock(ss, State(old(ctx.Frames()), out0), fuel, sqrt)
    decreases fuel, BlockSize(ss), 3
  {
    ghost var st0 := State(ctx.Frames(), out0);
    out := out0;
    assert ss[0..] == ss;
    for i := 0 to |ss|
      invariant ctx.functions == old(ctx.functions)
      invariant RunBlock(ss, st0, fuel, sqrt) == RunBlock(ss[i..], State(ctx.Frames(), out), fuel, sqrt)
    {
      StmtSizeBound(ss, i);
      assert ss[i..][0] == ss[i] && ss[i..][1..] == ss[i + 1..];
      var result;
      result, out := ExecuteStmt(ss[i], ctx, out, fuel, sqrt);
      if !(result.Done? && result.value.Void?) {
        return result, out;
      }
    }
    return Done(Void), out;
  }

  /** IfStmt.Execute. */
  method ExecuteIf(c: Expr, t: seq<Stmt>, hasElse: bool, e: seq<Stmt>, ctx: Context, out0: seq<OutLine>, fuel: nat, sqrt: real -> real) returns (o: Outcome, out: seq<OutLine>)
    requires ctx.Valid()
    modifies ctx
    ensures ctx.functions == old(ctx.functions)
    ensures (o, State(ctx.Frames(), out)) == ExecIf(c, t, hasElse, e, State(old(ctx.Frames()), out0), fuel, sqrt)
    decreases fuel, StmtSize(If(c, t, hasElse, e)), 1
  {
    var condVal;
    condVal, out := EvalExpr(c, ctx, out0, fuel, sqrt);
    if Stops(condVal) {
      return condVal, out;
    }
    if !condVal.value.Bool? {
      return Done(Error(ConditionNotBool)), out;
    }
    if condVal.value.b {
      o, out := ExecuteBlock(t, ctx, out, fuel, sqrt);
    } else if hasElse {
      o, out := ExecuteBlock(e, ctx, out, fuel, sqrt);
    } else {
      o := Done(Void);
    }
  }

  /** WhileStmt.Execute: the `for {}` loop, with one unit of fuel spent per repeated iteration. */
  method ExecuteWhile(c: Expr, body: seq<Stmt>, ctx: Context, out0: seq<OutLine>, fuel: nat, sqrt: real -> real) returns (o: Outcome, out: seq<OutLine>)
    requires ctx.Valid()
    modifies ctx
    ensures ctx.functions == old(ctx.functions)
    ensures (o, State(ctx.Frames(), out)) == RunWhile(c, body, State(old(ctx.Frames()), out0), fuel, sqrt)
    decreases fuel, StmtSize(While(c, body)), 1
  {
    ghost var st0 := State(ctx.Frames(), out0);
    out := out0;
    var f: nat := fuel;
    while true
      invariant f <= fuel
      invariant ctx.functions == old(ctx.functions)
      invariant RunWhile(c, body, st0, fuel, sqrt) == RunWhile(c, body, State(ctx.Frames(), out), f, sqrt)
      decreases f
    {
      var again;
      again, o, out := WhileIteration(c, body, ctx, out, f, sqrt);
      if !again {
        return;
      }
      f := f - 1;
    }
  }

  /** One pass of the while loop: the condition, then the body when it holds; `again` says the loop goes on. */
  method WhileIteration(c: Expr, body: seq<Stmt>, ctx: Context, out0: seq<OutLine>, f: nat, sqrt: real -> real)
    returns (again: bool, o: Outcome, out: seq<OutLine>)
    requires ctx.Valid()
    modifies ctx
    ensures ctx.functions == old(ctx.functions)
    ensures (again, o, State(ctx.Frames(), out)) == WhilePass(c, body, State(old(ctx.Frames()), out0), f, sqrt)
    decreases f, StmtSize(While(c, body)), 0
  {
    var condVal;
    condVal, out := EvalExpr(c, ctx, out0, f, sqrt);
    if Stops(condVal) {
      return false, condVal, out;
    }
    if !condVal.value.Bool? {
      return false, Done(Error(ConditionNotBool)), out;
    }
    if !condVal.value.b {
      return false, Done(Void), out;
    }
    var result;
    result, out := ExecuteBlock(body, ctx, out, f, sqrt);
    if !(result.Done? && result.value.Void?) {
      return false, result, out;
    }
    if f == 0 {
      return false, OutOfFuel, out;
    }
    again, o := true, result;
  }

  /** VarDeclStmt.Execute and AssignStmt.Execute. */
  method ExecuteBind(n: string, e: Expr, ctx: Context, out0: seq<OutLine>, fuel: nat, sqrt: real -> real) returns (o: Outcome, out: seq<OutLine>)
    requires ctx.Valid()
    modifies ctx
    ensures ctx.functions == old(ctx.functions)
    ensures (o, State(ctx.Frames(), out)) == ExecBind(n, e, State(old(ctx.Frames()), out0), fuel, sqrt)
    decreases fuel, ExprSize(e) + 1, 1
  {
    var val;
    val, out := EvalExpr(e, ctx, out0, fuel, sqrt);
    if Stops(val) {
      return val, out;
    }
    ctx.SetVar(n, val.value);
    o := Done(Void);
  }

  /** SayStmt.Execute, the printed line appended to the trace. */
  method ExecuteSay(e: Expr, ctx: Context, out0: seq<OutLine>, fuel: nat, sqrt: real -> real) returns (o: Outcome, out: seq<OutLine>)
    requires ctx.Valid()
    modifies ctx
    ensures ctx.functions == old(ctx.functions)
    ensures (o, State(ctx.Frames(), out)) == ExecSay(e, State(old(ctx.Frames()), out0), fuel, sqrt)
    decreases fuel, ExprSize(e) + 1, 1
  {
    var val;
    val, out := EvalExpr(e, ctx, out0, fuel, sqrt);
    if !val.Done? {
      return val, out;
    }
    out := out + [SayLine(val.value)];
    o := Done(Void);
  }

  /** FuncCallStmt.Execute. */
  method ExecuteCallStmt(n: string, args: seq<Expr>, ctx: Context, out0: seq<OutLine>, fuel: nat, sqrt: real -> real) returns (o: Outcome, out: seq<OutLine>)
    requires ctx.Valid()
    modifies ctx
    ensures ctx.functions == old(ctx.functions)
    ensures (o, State(ctx.Frames(), out)) == ExecCallStmt(n, args, State(old(ctx.Frames()), out0), fuel, sqrt)
    decreases fuel, ArgsSize(args) + 1, 1
  {
    var result;
    result, out := EvalFuncCall(n, args, ctx, out0, fuel, sqrt);
    o := CallStmtOutcome(result);
  }
}
